/** Whole runs of the cache: any sequence of adds, removes, expirations, flushes and whole responses, starting empty. */
module CacheRuns {
  import opened Records
  import opened HeapQueue
  import opened CacheState
  import opened Responses

  datatype Op =
    | Add(record: Record)
    | Remove(id: Ident)
    | Expire(now: Millis)
    | Mark(sets: set<RrSet>, answers: set<Ident>, now: Millis)
    | Respond(heard: seq<Record>, now: Millis)

  /** One operation that ends without an exception, and the records an expiry reports. */
  ghost predicate StepsTo(s: State, op: Op, t: State, expired: seq<Ident>) {
    match op
    case Add(record) => t == Added(s, record) && expired == []
    case Remove(id) => id in s.recs && t == Removed(s, id) && expired == []
    case Expire(now) => !ExpireFails(s, now) && Expired(s, now, t, expired)
    case Mark(sets, answers, now) => t == Flushed(s, sets, answers, now) && expired == []
    case Respond(heard, now) => t == Responded(s, heard, now) && expired == []
  }

  /** A record gets back an expiry for which its stale entry is still in the heap. */
  ghost predicate RegainsBy(s: State, op: Op) {
    match op
    case Add(record) => Regains(s, record)
    case Mark(sets, answers, now) => FlushRegains(s, sets, answers, now)
    case Respond(heard, now) => RespondRegains(s, heard, now)
    case _ => false
  }

  /** Some record of a batch regains an expiry when its turn comes. */
  ghost predicate AnyRegains(s: State, records: seq<Record>) {
    records != [] &&
    var front, last := records[..|records| - 1], records[|records| - 1];
    AnyRegains(s, front) || Regains(AddedAll(s, front), last)
  }

  /** A response flushes or adds a record that regains an expiry. */
  ghost predicate RespondRegains(s: State, heard: seq<Record>, now: Millis) {
    var flushed := Flushed(s, Claims(heard), IdsOf(heard), now);
    var addresses, others := LiveOnes(heard, now, true), LiveOnes(heard, now, false);
    || FlushRegains(s, Claims(heard), IdsOf(heard), now)
    || AnyRegains(flushed, addresses) || AnyRegains(AddedAll(flushed, addresses), others)
  }

  datatype Step = Step(op: Op, after: State, expired: seq<Ident>)

  /** The state a run is in. */
  function Last(run: seq<Step>): State {
    if run == [] then EMPTY else run[|run| - 1].after
  }

  ghost predicate IsRun(run: seq<Step>) {
    run != [] ==>
      var front, last := run[..|run| - 1], run[|run| - 1];
      IsRun(front) && StepsTo(Last(front), last.op, last.after, last.expired)
  }

  ghost predicate NoRegain(run: seq<Step>) {
    run != [] ==>
      var front := run[..|run| - 1];
      NoRegain(front) && !RegainsBy(Last(front), run[|run| - 1].op)
  }

  /** Over every run each record stays findable: filed under its identity, with its expiry in the heap. */
  lemma {:induction false} RunSound(run: seq<Step>)
    requires IsRun(run)
    ensures Sound(Last(run))
  {
    if run != [] {
      var front, last := run[..|run| - 1], run[|run| - 1];
      RunSound(front);
      StepSound(Last(front), last);
    }
  }

  lemma {:induction false} AddedAllSound(s: State, records: seq<Record>)
    requires Sound(s)
    ensures Sound(AddedAll(s, records))
    ensures NoRepeats(s) && !AnyRegains(s, records) ==> NoRepeats(AddedAll(s, records))
  {
    hide Sound, NoRepeats, Added, Regains;
    if records != [] {
      var front := records[..|records| - 1];
      AddedAllSound(s, front);
      AddedSound(AddedAll(s, front), records[|records| - 1]);
    }
  }

  /** A whole response keeps the invariant, and repeats no entry unless some record regains an expiry. */
  lemma RespondedSound(s: State, heard: seq<Record>, now: Millis)
    requires Sound(s)
    ensures Sound(Responded(s, heard, now))
    ensures NoRepeats(s) && !RespondRegains(s, heard, now) ==> NoRepeats(Responded(s, heard, now))
  {
    hide AddedAll, Flushed, LiveOnes, Claims, AnyRegains, FlushRegains, Goodbye, Record.Id, Record.Expiry;
    var flushed := Flushed(s, Claims(heard), IdsOf(heard), now);
    var addresses := LiveOnes(heard, now, true);
    FlushedSound(s, Claims(heard), IdsOf(heard), now);
    AddedAllSound(flushed, addresses);
    AddedAllSound(AddedAll(flushed, addresses), LiveOnes(heard, now, false));
  }

  lemma StepSound(s: State, step: Step)
    requires Sound(s) && StepsTo(s, step.op, step.after, step.expired)
    ensures Sound(step.after)
    ensures NoRepeats(s) && !RegainsBy(s, step.op) ==> NoRepeats(step.after)
  {
    hide Sound, NoRepeats, Added, Removed, Expired, Flushed, Regains, FlushRegains, ExpireFails;
    hide Responded, RespondRegains;
    match step.op
    case Add(record) => AddedSound(s, record);
    case Remove(id) => RemovedSound(s, id);
    case Expire(now) => ExpiredSound(s, now, step.after, step.expired);
    case Mark(sets, answers, now) => FlushedSound(s, sets, answers, now);
    case Respond(heard, now) => RespondedSound(s, heard, now);
  }

  lemma {:induction false} RunNoRepeats(run: seq<Step>)
    requires IsRun(run) && NoRegain(run)
    ensures NoRepeats(Last(run))
  {
    if run != [] {
      var front, last := run[..|run| - 1], run[|run| - 1];
      RunSound(front);
      RunNoRepeats(front);
      StepSound(Last(front), last);
    }
  }

  /** While no record regains an old expiry, expiring never fails, whatever the time. */
  lemma RunNeverFails(run: seq<Step>, now: Millis)
    requires IsRun(run) && NoRegain(run)
    ensures !ExpireFails(Last(run), now)
  {
    RunSound(run);
    RunNoRepeats(run);
  }

  /** What expiring must do to a record: a due one is reported exactly once and gone, any other cached one stays as
      it is, stands in the heap exactly once and is not reported. */
  ghost predicate Fate(s: State, now: Millis, after: State, expired: seq<Ident>, id: Ident) {
    if id !in s.recs then id !in after.recs && id !in expired
    else if s.recs[id].created + (1000 * s.recs[id].ttl) as real <= now then
      id !in after.recs && multiset(expired)[id] == 1
    else id in after.recs && after.recs[id] == s.recs[id] && id !in expired && after.heap[EntryOf(s.recs[id])] == 1
  }

  /** Expiring then treats every record as it must. */
  lemma RunExpires(run: seq<Step>, s: State, now: Millis, after: State, expired: seq<Ident>, id: Ident)
    requires IsRun(run) && NoRegain(run) && s == Last(run) && Expired(s, now, after, expired)
    ensures Fate(s, now, after, expired, id)
  {
    hide Record.Id;
    RunSound(run);
    RunNoRepeats(run);
    ExpiredSound(s, now, after, expired);
    OnceInList(s.recs, now, expired, id);
    if id in after.recs {
      assert EntryOf(after.recs[id]) in after.heap;
    }
  }

  /** A record is added, added again with another expiry, and then with the first one once more. */
  function RegainingRun(first: Record, other: Record): seq<Step> {
    var s1 := Added(EMPTY, first);
    var s2 := Added(s1, other);
    [Step(Add(first), s1, []), Step(Add(other), s2, []), Step(Add(first), Added(s2, first), [])]
  }

  /** Without that condition expiring fails: the regained expiry stands in the heap twice when it is due. */
  lemma RegainedExpiryFails(first: Record, other: Record, now: Millis)
    requires first.Id() == other.Id() && first.Expiry() != other.Expiry() && first.Expiry() <= now
    ensures var run := RegainingRun(first, other);
            IsRun(run) && !NoRegain(run) && NoRegain(run[..2]) && ExpireFails(Last(run), now)
  {
    hide Record.Id, Record.Expiry;
    var run := RegainingRun(first, other);
    var a, b, c := run[0], run[1], run[2];
    var s2, s3 := b.after, c.after;
    assert run[..2] == [a, b] && [a, b][..1] == [a] && [a][..0] == [];
    assert s2.heap == multiset{EntryOf(first), EntryOf(other)};
    assert s3.heap[EntryOf(first)] == 2;
    assert Due(s3.recs, now, first.Id());
    assert IsRun([]) && IsRun([a]) && IsRun([a, b]) && NoRegain([]) && NoRegain([a]) && NoRegain([a, b]);
    assert Regains(s2, first);
  }

  /** The condition is needed at every step: after adding a record some expiry fails if and only if the record has
      regained an old one. */
  lemma AddFailsExactly(s: State, record: Record)
    requires Sound(s) && NoRepeats(s)
    ensures (exists now :: ExpireFails(Added(s, record), now)) <==> Regains(s, record)
  {
    hide Record.Id, Record.Expiry;
    var t, id := Added(s, record), record.Id();
    if Regains(s, record) {
      assert t.recs[id] == record && Due(t.recs, record.Expiry(), id);
      assert t.heap[EntryOf(record)] > 1;
      assert ExpireFails(t, record.Expiry());
    } else {
      AddedSound(s, record);
    }
  }

  /** The same for flushing. */
  lemma FlushFailsExactly(s: State, sets: set<RrSet>, answers: set<Ident>, now: Millis)
    requires Sound(s) && NoRepeats(s)
    ensures (exists later :: ExpireFails(Flushed(s, sets, answers, now), later))
       <==> FlushRegains(s, sets, answers, now)
  {
    hide Record.Id, Record.Expiry, Flushable;
    var t := Flushed(s, sets, answers, now);
    if FlushRegains(s, sets, answers, now) {
      var id :| id in Chosen(s.recs, sets, answers, now) && Regains(s, Flush(s.recs[id], now));
      var e := EntryOf(Flush(s.recs[id], now));
      assert t.recs[id] == Flush(s.recs[id], now) && e == Timed(now + 1000.0, id);
      assert e in FlushEntries(s.recs, Chosen(s.recs, sets, answers, now), now);
      assert t.heap[e] > 1 && Due(t.recs, now + 1000.0, id);
      assert ExpireFails(t, now + 1000.0);
    } else {
      FlushedSound(s, sets, answers, now);
    }
  }

  // ---------- conservation over runs ----------

  function Count(b: bool): nat {
    if b then 1 else 0
  }

  /** The operation brings a record into the cache that was not there: an addition, or a live copy in a response. */
  predicate Enters(s: State, op: Op, id: Ident) {
    id !in s.recs &&
    match op
    case Add(record) => record.Id() == id
    case Respond(heard, now) => LastLive(heard, now, id).Some?
    case _ => false
  }

  /** The operation removes the record: by name, or by a goodbye in a response. */
  ghost predicate Leaves(s: State, op: Op, id: Ident) {
    match op
    case Remove(gone) => gone == id
    case Respond(heard, now) => Goodbye(heard, s.recs, now, id)
    case _ => false
  }

  /** How often the record came into the cache. */
  function Entered(run: seq<Step>, id: Ident): nat {
    if run == [] then 0
    else
      var front, last := run[..|run| - 1], run[|run| - 1];
      Entered(front, id) + Count(Enters(Last(front), last.op, id))
  }

  /** How often it was removed or reported as expired. */
  ghost function Left(run: seq<Step>, id: Ident): nat {
    if run == [] then 0
    else
      var front, last := run[..|run| - 1], run[|run| - 1];
      Left(front, id) + Count(Leaves(Last(front), last.op, id)) + multiset(last.expired)[id]
  }

  lemma OnceInList(recs: Recs, now: Millis, expired: seq<Ident>, id: Ident)
    requires Collected(recs, now, expired)
    ensures multiset(expired)[id] == Count(Due(recs, now, id))
  {
    if id in expired {
      var i :| 0 <= i < |expired| && expired[i] == id;
      assert expired == expired[..i] + [id] + expired[i + 1..];
      assert id !in expired[..i] && id !in expired[i + 1..];
    } else {
      assert id !in multiset(expired);
    }
  }

  /** Nothing is reported twice or lost: every time a record came in it left once, or is still there. */
  lemma {:induction false} Conservation(run: seq<Step>, id: Ident)
    requires IsRun(run)
    ensures Entered(run, id) == Left(run, id) + Count(id in Last(run).recs)
  {
    if run != [] {
      var front, last := run[..|run| - 1], run[|run| - 1];
      Conservation(front, id);
      StepConserves(Last(front), last, id);
    }
  }

  lemma StepConserves(s: State, step: Step, id: Ident)
    requires StepsTo(s, step.op, step.after, step.expired)
    ensures Count(id in s.recs) + Count(Enters(s, step.op, id))
         == Count(id in step.after.recs) + Count(Leaves(s, step.op, id)) + multiset(step.expired)[id]
  {
    hide Record.Id, Goodbye, Responded, LastLive;
    match step.op
    case Expire(now) =>
      OnceInList(s.recs, now, step.expired, id);
    case Respond(heard, now) =>
      EffectIs(s, heard, now);
      assert Lookup(step.after.recs, id) == Afterwards(s.recs, heard, now, id);
      if Goodbye(heard, s.recs, now, id) {
        GoodbyeCached(heard, s.recs, now, id);
      }
    case _ =>
  }
}
