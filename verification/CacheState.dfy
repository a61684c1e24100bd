/** The record cache seen as one flat map from record identity to record, and what its operations do to it. */
module CacheState {
  import opened Names
  import opened Records
  import opened HeapQueue

  type Entry = Timed<Ident>
  type Recs = map<Ident, Record>

  /** The cached records, and the pending expirations with how often each stands in the heap. */
  datatype State = State(recs: Recs, heap: multiset<Entry>)

  const EMPTY := State(map[], multiset{})

  function EntryOf(record: Record): Entry {
    Timed(record.Expiry(), record.Id())
  }

  ghost predicate LiveIn(recs: Recs, e: Entry) {
    e.item in recs && recs[e.item].Expiry() == e.when
  }

  /** Records are filed under their own identity, and every one of them will be met in the heap. */
  ghost predicate Sound(s: State) {
    && (forall id :: id in s.recs ==> s.recs[id].Id() == id)
    && (forall id :: id in s.recs ==> EntryOf(s.recs[id]) in s.heap)
  }

  /** `_async_add` */
  function Added(s: State, record: Record): State {
    var id := record.Id();
    State(s.recs[id := record],
          if id in s.recs && s.recs[id].Expiry() == record.Expiry() then s.heap
          else s.heap + multiset{EntryOf(record)})
  }

  function AddedAll(s: State, records: seq<Record>): State {
    if records == [] then s
    else Added(AddedAll(s, records[..|records| - 1]), records[|records| - 1])
  }

  /** The identities of some records. */
  function IdsOf(records: seq<Record>): set<Ident> {
    set r | r in records :: r.Id()
  }

  /** `_async_remove` of a cached record. */
  function Removed(s: State, id: Ident): State {
    State(s.recs - {id}, s.heap)
  }

  /** All of them are there, and none is named twice. */
  ghost predicate AllThere(recs: Recs, ids: seq<Ident>) {
    && (forall id :: id in ids ==> id in recs)
    && (forall i, j :: 0 <= i < j < |ids| ==> ids[i] != ids[j])
  }

  ghost function WithoutAll(recs: Recs, ids: seq<Ident>): Recs {
    map id | id in recs && id !in ids :: recs[id]
  }

  ghost predicate Due(recs: Recs, now: Millis, id: Ident) {
    id in recs && recs[id].Expiry() <= now
  }

  /** The records not due yet. */
  function Unexpired(recs: Recs, now: Millis): Recs {
    map id | id in recs && recs[id].Expiry() > now :: recs[id]
  }

  /** A due record standing in the heap twice is found twice, and its second removal fails. */
  ghost predicate ExpireFails(s: State, now: Millis) {
    exists id :: Due(s.recs, now, id) && s.heap[EntryOf(s.recs[id])] > 1
  }

  /** What the heap holds after expiry: nothing due, everything else, stale entries only unless they were weeded out. */
  ghost predicate Purged(s: State, now: Millis, heap: multiset<Entry>) {
    && (forall e: Entry :: e.when <= now ==> heap[e] == 0)
    && (forall e: Entry :: e.when > now && LiveIn(s.recs, e) ==> heap[e] == s.heap[e])
    && (forall e: Entry :: e.when > now && !LiveIn(s.recs, e) ==>
          heap[e] == if |s.heap| > 100 && |s.heap| > 2 * |s.recs| then 0 else s.heap[e])
  }

  /** Each due record exactly once. */
  ghost predicate Collected(recs: Recs, now: Millis, expired: seq<Ident>) {
    && (forall id :: id in expired <==> Due(recs, now, id))
    && (forall i, j :: 0 <= i < j < |expired| ==> expired[i] != expired[j])
  }

  /** `async_expire` */
  ghost predicate Expired(s: State, now: Millis, t: State, expired: seq<Ident>) {
    t.recs == Unexpired(s.recs, now) && Purged(s, now, t.heap) && Collected(s.recs, now, expired)
  }

  /** A name, type and class for which a response claims to hold all records. */
  datatype RrSet = RrSet(name: Name, typ: int, cls: int)

  predicate Member(record: Record, sets: set<RrSet>) {
    exists u :: u in sets && record.Key() == Lower(u.name) && record.typ == u.typ && record.cls == u.cls
  }

  /** Section 10.2 of RFC 6762: of a claimed set, older than a second and not in the response. */
  predicate Flushable(record: Record, sets: set<RrSet>, answers: set<Ident>, now: Millis) {
    Member(record, sets) && now - record.created > 1000.0 && record.Id() !in answers
  }

  /** One second more to live. */
  function Flush(record: Record, now: Millis): (r: Record)
    ensures r.Id() == record.Id() && r.Expiry() == now + 1000.0
  {
    record.(created := now, ttl := 1)
  }

  /** The cached records a response's claims flush. */
  function Chosen(recs: Recs, sets: set<RrSet>, answers: set<Ident>, now: Millis): set<Ident> {
    set id | id in recs && Flushable(recs[id], sets, answers, now)
  }

  /** The heap entries this adds. */
  function FlushEntries(recs: Recs, ids: set<Ident>, now: Millis): set<Entry> {
    set id | id in recs && id in ids && recs[id].Expiry() != now + 1000.0 :: Timed(now + 1000.0, id)
  }

  /** The given records get one more second; those that already had just that are not scheduled again. */
  function FlushedBy(s: State, ids: set<Ident>, now: Millis): State {
    State(map id | id in s.recs :: if id in ids then Flush(s.recs[id], now) else s.recs[id],
          s.heap + multiset(FlushEntries(s.recs, ids, now)))
  }

  /** `async_mark_unique_records_older_than_1s_to_expire` */
  function Flushed(s: State, sets: set<RrSet>, answers: set<Ident>, now: Millis): State {
    FlushedBy(s, Chosen(s.recs, sets, answers, now), now)
  }

  lemma FlushNothing(s: State, known: set<Ident>, now: Millis)
    ensures Chosen(s.recs, {}, known, now) == {} && FlushedBy(s, {}, now) == s
  {
  }

  // ---------- invariants of single steps ----------

  /** No pair of due time and record stands in the heap twice. */
  ghost predicate NoRepeats(s: State) {
    forall e: Entry :: s.heap[e] <= 1
  }

  /** The record would get an expiry for which it still has a stale entry. */
  ghost predicate Regains(s: State, record: Record) {
    EntryOf(record) in s.heap && !LiveIn(s.recs, EntryOf(record))
  }

  ghost predicate FlushRegains(s: State, sets: set<RrSet>, answers: set<Ident>, now: Millis) {
    exists id :: id in Chosen(s.recs, sets, answers, now) && Regains(s, Flush(s.recs[id], now))
  }

  lemma AddedSound(s: State, record: Record)
    requires Sound(s)
    ensures Sound(Added(s, record))
    ensures NoRepeats(s) && !Regains(s, record) ==> NoRepeats(Added(s, record))
  {
  }

  lemma {:induction false} AddedAllKeys(s: State, records: seq<Record>)
    ensures forall id :: id in AddedAll(s, records).recs <==>
              id in s.recs || exists r :: r in records && r.Id() == id
  {
    hide Record.Id;
    if records != [] {
      var front, last := records[..|records| - 1], records[|records| - 1];
      AddedAllKeys(s, front);
      assert records == front + [last];
    }
  }

  lemma RemovedSound(s: State, id: Ident)
    requires Sound(s)
    ensures Sound(Removed(s, id)) && (NoRepeats(s) ==> NoRepeats(Removed(s, id)))
  {
  }

  lemma FlushedSound(s: State, sets: set<RrSet>, answers: set<Ident>, now: Millis)
    requires Sound(s)
    ensures Sound(Flushed(s, sets, answers, now))
    ensures NoRepeats(s) && !FlushRegains(s, sets, answers, now) ==> NoRepeats(Flushed(s, sets, answers, now))
  {
    hide Flushable, Record.Id, Record.Expiry;
    var ids, t := Chosen(s.recs, sets, answers, now), Flushed(s, sets, answers, now);
    var entries := FlushEntries(s.recs, ids, now);
    assert t.heap == s.heap + multiset(entries);
    forall id | id in t.recs
      ensures t.recs[id].Id() == id && EntryOf(t.recs[id]) in t.heap
    {
      assert EntryOf(s.recs[id]) in s.heap;
      if id in ids && s.recs[id].Expiry() != now + 1000.0 {
        assert Timed(now + 1000.0, id) in entries;
      }
    }
    if NoRepeats(s) && !FlushRegains(s, sets, answers, now) {
      forall e: Entry
        ensures t.heap[e] <= 1
      {
        if e in entries {
          assert !Regains(s, Flush(s.recs[e.item], now));
          assert EntryOf(Flush(s.recs[e.item], now)) == e;
        }
      }
    }
  }

  /** Expiry loses no live entry, whether or not the heap was weeded. */
  lemma ExpiredSound(s: State, now: Millis, t: State, expired: seq<Ident>)
    requires Sound(s) && Expired(s, now, t, expired)
    ensures Sound(t) && (NoRepeats(s) ==> NoRepeats(t))
  {
    forall id | id in t.recs
      ensures EntryOf(t.recs[id]) in t.heap
    {
      assert EntryOf(s.recs[id]) in s.heap && LiveIn(s.recs, EntryOf(s.recs[id]));
    }
    forall e: Entry
      ensures NoRepeats(s) ==> t.heap[e] <= 1
    {
      assert e.when <= now || LiveIn(s.recs, e) || !LiveIn(s.recs, e);
    }
  }

  // ---------- the heap stays small ----------

  /** The entries that count, each once. */
  function LiveEntries(recs: Recs): set<Entry> {
    set id | id in recs :: Timed(recs[id].Expiry(), id)
  }

  lemma {:induction false} AsManyEntries(recs: Recs)
    ensures |LiveEntries(recs)| == |recs|
    decreases |recs|
  {
    hide Record.Expiry;
    if recs != map[] {
      var id :| id in recs;
      var fewer, e := recs - {id}, Timed(recs[id].Expiry(), id);
      AsManyEntries(fewer);
      forall x
        ensures x in LiveEntries(recs) <==> x in LiveEntries(fewer) + {e}
      {
        assert x in LiveEntries(recs) <==> x.item in recs && x == Timed(recs[x.item].Expiry(), x.item);
        assert x in LiveEntries(fewer) <==> x.item in fewer && x == Timed(fewer[x.item].Expiry(), x.item);
      }
      assert LiveEntries(recs) == LiveEntries(fewer) + {e} && e !in LiveEntries(fewer);
    }
  }

  lemma NoMore(a: multiset<Entry>, b: multiset<Entry>)
    requires a <= b
    ensures |a| <= |b|
  {
    assert b == a + (b - a);
  }

  /** After expiry the heap holds at most 100 entries, or at most two for each record there was before. */
  lemma HeapBounded(s: State, now: Millis, t: State, expired: seq<Ident>)
    requires NoRepeats(s) && Expired(s, now, t, expired)
    ensures |t.heap| <= 100 || |t.heap| <= 2 * |s.recs|
  {
    hide Record.Expiry;
    forall e: Entry
      ensures t.heap[e] <= s.heap[e]
    {
      assert e.when <= now || LiveIn(s.recs, e) || !LiveIn(s.recs, e);
    }
    NoMore(t.heap, s.heap);
    if |s.heap| > 100 && |s.heap| > 2 * |s.recs| {
      forall e: Entry
        ensures t.heap[e] <= multiset(LiveEntries(s.recs))[e]
      {
        assert e.when <= now || LiveIn(s.recs, e) || !LiveIn(s.recs, e);
      }
      NoMore(t.heap, multiset(LiveEntries(s.recs)));
      AsManyEntries(s.recs);
    }
  }

  /** And nothing is weeded out before it is worth it. */
  lemma StaleKept(s: State, now: Millis, t: State, expired: seq<Ident>, e: Entry)
    requires Expired(s, now, t, expired) && e.when > now && (|s.heap| <= 100 || |s.heap| <= 2 * |s.recs|)
    ensures t.heap[e] == s.heap[e]
  {
    assert LiveIn(s.recs, e) || !LiveIn(s.recs, e);
  }
}
