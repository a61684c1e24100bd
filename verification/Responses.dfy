/** What one response does to the cache and what listeners are told, on values. */
module Responses {
  import opened Results
  import opened Bytes
  import opened Records
  import opened CacheState

  const DNS_OTHER_TTL := 4500
  const DNS_PTR_MIN_TTL := DNS_OTHER_TTL / 4

  /** A pointer record that is not a goodbye lives at least 1125 seconds. */
  function Raise(record: Record): (r: Record)
    ensures r.Id() == record.Id() && r == record.(ttl := r.ttl)
    ensures record.ttl != 0 && record.typ == TYPE_PTR ==>
              r.ttl >= 1125 && (r.ttl == record.ttl || record.ttl < 1125 == r.ttl)
    ensures record.ttl == 0 || record.typ != TYPE_PTR ==> r == record
  {
    if record.ttl != 0 && record.typ == TYPE_PTR && record.ttl < DNS_PTR_MIN_TTL
    then record.(ttl := DNS_PTR_MIN_TTL) else record
  }

  function RaiseAll(answers: seq<Record>): seq<Record> {
    seq(|answers|, i requires 0 <= i < |answers| => Raise(answers[i]))
  }

  predicate IsAddress(typ: uint16) {
    typ == TYPE_A || typ == TYPE_AAAA
  }

  /** The live records of a response, either the addresses or the others, in order. */
  function LiveOnes(heard: seq<Record>, now: Millis, addresses: bool): seq<Record> {
    if heard == [] then []
    else
      var front, last := LiveOnes(heard[..|heard| - 1], now, addresses), heard[|heard| - 1];
      if !last.IsExpired(now) && IsAddress(last.typ) == addresses then front + [last] else front
  }

  /** Goodbyes for records in the cache. */
  ghost predicate Goodbye(heard: seq<Record>, recs: Recs, now: Millis, id: Ident) {
    id in recs && exists r :: r in heard && r.Id() == id && r.IsExpired(now)
  }

  /** The sets of records the response claims to be complete. */
  function Claims(heard: seq<Record>): set<RrSet> {
    set r | r in heard && r.unique :: RrSet(r.name, r.typ, r.cls)
  }

  datatype RecordUpdate = RecordUpdate(latest: Record, earlier: Option<Record>)

  /** What listeners are told: live records, and goodbyes for cached ones. */
  function UpdatesOf(heard: seq<Record>, recs: Recs, now: Millis): seq<RecordUpdate> {
    if heard == [] then []
    else
      var front, last := UpdatesOf(heard[..|heard| - 1], recs, now), heard[|heard| - 1];
      var earlier := if last.Id() in recs then Some(recs[last.Id()]) else None;
      if !last.IsExpired(now) || earlier.Some? then front + [RecordUpdate(last, earlier)] else front
  }

  // ---------- the effect, record by record ----------

  /** The last live copy of a record in the response. */
  function LastLive(heard: seq<Record>, now: Millis, id: Ident): Option<Record> {
    if heard == [] then None
    else
      var last := heard[|heard| - 1];
      if last.Id() == id && !last.IsExpired(now) then Some(last) else LastLive(heard[..|heard| - 1], now, id)
  }

  /** What the cache holds for `id` after the response. */
  ghost function Afterwards(recs: Recs, heard: seq<Record>, now: Millis, id: Ident): Option<Record> {
    if Goodbye(heard, recs, now, id) then None
    else if LastLive(heard, now, id).Some? then LastLive(heard, now, id)
    else if id !in recs then None
    else if Flushable(recs[id], Claims(heard), IdsOf(heard), now) then Some(Flush(recs[id], now))
    else Some(recs[id])
  }

  /** `after` is `Afterwards` for every record. */
  ghost predicate Settled(recs: Recs, heard: seq<Record>, now: Millis, after: Recs) {
    forall id :: Lookup(after, id) == Afterwards(recs, heard, now, id)
  }

  // ---------- the same in terms of the answers as they came ----------

  /** The lifetime in seconds an answer gets: pointers live at least 1125 seconds, unless they say goodbye. */
  function Lifetime(record: Record): nat {
    if record.typ == 12 && 0 < record.ttl < 1125 then 1125 else record.ttl
  }

  /** The answer is over when it comes, as a goodbye is. */
  ghost predicate Over(record: Record, now: Millis) {
    record.created + (1000 * Lifetime(record)) as real <= now
  }

  /** Answer `k` is the last live copy of the record. */
  ghost predicate LastCopy(answers: seq<Record>, now: Millis, id: Ident, k: nat) {
    && k < |answers| && answers[k].Id() == id && !Over(answers[k], now)
    && forall j :: k < j < |answers| && answers[j].Id() == id ==> Over(answers[j], now)
  }

  /** An old cached record that a unique answer of its name, type and class leaves out. */
  ghost predicate LeftOut(cached: Record, answers: seq<Record>, now: Millis) {
    && (exists u :: u in answers && u.unique && SameText(u.name, cached.name) && u.typ == cached.typ
         && u.cls == cached.cls)
    && now - cached.created > 1000.0
    && forall a :: a in answers ==> a.Id() != cached.Id()
  }

  lemma RaisedIs(record: Record, now: Millis)
    ensures Raise(record) == record.(ttl := Lifetime(record))
    ensures Raise(record).IsExpired(now) <==> Over(record, now)
  {
  }

  /** What a response makes of a record: a goodbye removes it if it was cached, the last live copy replaces it, an old
      copy that was left out has one more second, and any other copy stays as it is. */
  lemma AfterwardsIs(recs: Recs, answers: seq<Record>, now: Millis, id: Ident)
    ensures var after := Afterwards(recs, RaiseAll(answers), now, id);
            if id in recs && exists a :: a in answers && a.Id() == id && Over(a, now) then after == None
            else if exists k: nat :: LastCopy(answers, now, id, k) then
              forall k: nat :: LastCopy(answers, now, id, k) ==> after == Some(answers[k].(ttl := Lifetime(answers[k])))
            else if id !in recs then after == None
            else if LeftOut(recs[id], answers, now) then after == Some(recs[id].(created := now, ttl := 1))
            else after == Some(recs[id])
  {
    hide Record.Id, Record.IsExpired, Raise, Lifetime, Over;
    var heard := RaiseAll(answers);
    GoodbyeIs(recs, answers, now, id);
    LastLiveIs(answers, now, id);
    if id in recs {
      LeftOutIs(recs[id], answers, now);
    }
  }

  lemma GoodbyeIs(recs: Recs, answers: seq<Record>, now: Millis, id: Ident)
    ensures Goodbye(RaiseAll(answers), recs, now, id)
       <==> id in recs && exists a :: a in answers && a.Id() == id && Over(a, now)
  {
    hide Record.Id, Record.IsExpired, Raise, Over;
    var heard := RaiseAll(answers);
    forall a | a in answers
      ensures Raise(a) in heard && Raise(a).Id() == a.Id() && (Raise(a).IsExpired(now) <==> Over(a, now))
    {
      var k :| 0 <= k < |answers| && answers[k] == a;
      assert heard[k] == Raise(a);
      RaisedIs(a, now);
    }
    if Goodbye(heard, recs, now, id) {
      var r :| r in heard && r.Id() == id && r.IsExpired(now);
      var k :| 0 <= k < |heard| && heard[k] == r;
      assert answers[k] in answers;
    }
  }

  lemma {:induction false} LastLiveIs(answers: seq<Record>, now: Millis, id: Ident)
    ensures LastLive(RaiseAll(answers), now, id).Some? <==> exists k: nat :: LastCopy(answers, now, id, k)
    ensures forall k: nat :: LastCopy(answers, now, id, k) ==>
              LastLive(RaiseAll(answers), now, id) == Some(answers[k].(ttl := Lifetime(answers[k])))
  {
    hide Record.Id, Record.IsExpired, Raise, Lifetime, Over;
    if answers != [] {
      var front, last := answers[..|answers| - 1], answers[|answers| - 1];
      LastLiveIs(front, now, id);
      RaisedIs(last, now);
      var heard := RaiseAll(answers);
      assert heard[..|heard| - 1] == RaiseAll(front) && heard[|heard| - 1] == Raise(last);
      if last.Id() == id && !Over(last, now) {
        assert LastCopy(answers, now, id, |answers| - 1);
      } else {
        assert forall k: nat :: LastCopy(answers, now, id, k) <==> LastCopy(front, now, id, k);
      }
    }
  }

  lemma LeftOutIs(cached: Record, answers: seq<Record>, now: Millis)
    ensures Flushable(cached, Claims(RaiseAll(answers)), IdsOf(RaiseAll(answers)), now)
       <==> LeftOut(cached, answers, now)
  {
    hide Record.Id;
    var heard, claims := RaiseAll(answers), Claims(RaiseAll(answers));
    assert forall i :: 0 <= i < |answers| ==> heard[i] in heard && answers[i] in answers;
    forall id
      ensures id in IdsOf(heard) <==> exists a :: a in answers && a.Id() == id
    {
      if id in IdsOf(heard) {
        var i :| 0 <= i < |heard| && heard[i].Id() == id;
        assert answers[i].Id() == id;
      }
      if a :| a in answers && a.Id() == id {
        var i :| 0 <= i < |answers| && answers[i] == a;
        assert heard[i].Id() == id;
      }
    }
    ClaimsIs(cached, answers);
  }

  lemma ClaimsIs(cached: Record, answers: seq<Record>)
    ensures Member(cached, Claims(RaiseAll(answers))) <==>
              exists u :: u in answers && u.unique && SameText(u.name, cached.name) && u.typ == cached.typ
                          && u.cls == cached.cls
  {
    hide SameText, Lower, Member, Claims, RaiseAll;
    if Member(cached, Claims(RaiseAll(answers))) {
      var i := ClaimFrom(cached, answers);
      LowerSame(answers[i].name, cached.name);
      assert answers[i] in answers;
    }
    if u :| u in answers && u.unique && SameText(u.name, cached.name) && u.typ == cached.typ && u.cls == cached.cls {
      LowerSame(u.name, cached.name);
      ClaimMade(cached, answers, u);
    }
  }

  lemma ClaimFrom(cached: Record, answers: seq<Record>) returns (i: nat)
    requires Member(cached, Claims(RaiseAll(answers)))
    ensures i < |answers| && answers[i].unique && Lower(answers[i].name) == Lower(cached.name)
    ensures answers[i].typ == cached.typ && answers[i].cls == cached.cls
  {
    hide Lower;
    var heard := RaiseAll(answers);
    var c :| c in Claims(heard) && cached.Key() == Lower(c.name) && cached.typ == c.typ && cached.cls == c.cls;
    i :| 0 <= i < |heard| && heard[i].unique && RrSet(heard[i].name, heard[i].typ, heard[i].cls) == c;
  }

  lemma ClaimMade(cached: Record, answers: seq<Record>, u: Record)
    requires u in answers && u.unique && Lower(u.name) == Lower(cached.name) && u.typ == cached.typ
    requires u.cls == cached.cls
    ensures Member(cached, Claims(RaiseAll(answers)))
  {
    hide Lower;
    var heard := RaiseAll(answers);
    var i :| 0 <= i < |answers| && answers[i] == u;
    assert heard[i] in heard;
    assert RrSet(u.name, u.typ, u.cls) in Claims(heard);
  }

  function Lookup(recs: Recs, id: Ident): Option<Record> {
    if id in recs then Some(recs[id]) else None
  }

  function LastIn(records: seq<Record>, id: Ident): Option<Record> {
    if records == [] then None
    else if records[|records| - 1].Id() == id then Some(records[|records| - 1])
    else LastIn(records[..|records| - 1], id)
  }

  lemma {:induction false} AddedAllLooks(s: State, records: seq<Record>, id: Ident)
    ensures Lookup(AddedAll(s, records).recs, id)
         == if LastIn(records, id).Some? then LastIn(records, id) else Lookup(s.recs, id)
  {
    hide Record.Id;
    if records != [] {
      AddedAllLooks(s, records[..|records| - 1], id);
    }
  }

  lemma IdType(r: Record)
    ensures r.Id().typ == r.typ
  {
  }

  /** Copies of one record are all addresses or none is, so the two batches never compete. */
  lemma {:induction false} LastLiveIn(heard: seq<Record>, now: Millis, addresses: bool, id: Ident)
    ensures LastIn(LiveOnes(heard, now, addresses), id)
         == if IsAddress(id.typ) == addresses then LastLive(heard, now, id) else None
  {
    hide Record.Id, Record.IsExpired, IsAddress;
    if heard != [] {
      var front, last := heard[..|heard| - 1], heard[|heard| - 1];
      LastLiveIn(front, now, addresses, id);
      IdType(last);
      if !last.IsExpired(now) && IsAddress(last.typ) == addresses {
        assert (LiveOnes(front, now, addresses) + [last])[..|LiveOnes(front, now, addresses)|]
            == LiveOnes(front, now, addresses);
      }
    }
  }

  lemma {:induction false} LiveOnesAre(heard: seq<Record>, now: Millis, addresses: bool)
    ensures forall r :: r in LiveOnes(heard, now, addresses) <==>
              r in heard && !r.IsExpired(now) && IsAddress(r.typ) == addresses
  {
    hide Record.Id, Record.IsExpired, IsAddress;
    if heard != [] {
      LiveOnesAre(heard[..|heard| - 1], now, addresses);
      assert heard == heard[..|heard| - 1] + [heard[|heard| - 1]];
    }
  }

  /** The cache after flushing and both batches of adds, addresses first. */
  function Applied(s: State, heard: seq<Record>, now: Millis): State {
    var flushed := Flushed(s, Claims(heard), IdsOf(heard), now);
    AddedAll(AddedAll(flushed, LiveOnes(heard, now, true)), LiveOnes(heard, now, false))
  }

  /** The whole cache after the response: goodbyes leave the records, and their entries stay in the heap. */
  ghost function Responded(s: State, heard: seq<Record>, now: Millis): State {
    var added := Applied(s, heard, now);
    State(map id | id in added.recs && !Goodbye(heard, s.recs, now, id) :: added.recs[id], added.heap)
  }

  /** Flushing, both batches of adds and the removals together settle every record. */
  lemma EffectIs(s: State, heard: seq<Record>, now: Millis)
    ensures Settled(s.recs, heard, now, Responded(s, heard, now).recs)
    ensures forall id :: Goodbye(heard, s.recs, now, id) ==> id in Applied(s, heard, now).recs
  {
    hide Record.Id, Record.IsExpired, IsAddress, Flushable, Goodbye;
    var flushed := Flushed(s, Claims(heard), IdsOf(heard), now);
    var first := AddedAll(flushed, LiveOnes(heard, now, true));
    forall id
      ensures Lookup(Responded(s, heard, now).recs, id) == Afterwards(s.recs, heard, now, id)
      ensures Goodbye(heard, s.recs, now, id) ==> id in Applied(s, heard, now).recs
    {
      AddedAllLooks(flushed, LiveOnes(heard, now, true), id);
      AddedAllLooks(first, LiveOnes(heard, now, false), id);
      LastLiveIn(heard, now, true, id);
      LastLiveIn(heard, now, false, id);
      if Goodbye(heard, s.recs, now, id) {
        GoodbyeCached(heard, s.recs, now, id);
      }
    }
  }

  /** The removals of the source: none fails, and they leave the records the response leaves. */
  lemma RemovalsAre(s: State, heard: seq<Record>, now: Millis, gone: seq<Ident>)
    requires Distinct(gone) && forall id :: id in gone <==> Goodbye(heard, s.recs, now, id)
    ensures var added := Applied(s, heard, now);
            && AllThere(added.recs, gone)
            && State(WithoutAll(added.recs, gone), added.heap) == Responded(s, heard, now)
  {
    hide Goodbye, Applied;
    EffectIs(s, heard, now);
  }

  lemma GoodbyeCached(heard: seq<Record>, recs: Recs, now: Millis, id: Ident)
    requires Goodbye(heard, recs, now, id)
    ensures id in recs
  {
  }

  ghost predicate Distinct(ids: seq<Ident>) {
    forall i, j :: 0 <= i < j < |ids| ==> ids[i] != ids[j]
  }

  lemma ExamineStep(heard: seq<Record>, record: Record, recs: Recs, now: Millis)
    ensures Claims(heard + [record])
         == Claims(heard) + if record.unique then {RrSet(record.name, record.typ, record.cls)} else {}
    ensures forall addresses :: LiveOnes(heard + [record], now, addresses) ==
              LiveOnes(heard, now, addresses)
              + if !record.IsExpired(now) && IsAddress(record.typ) == addresses then [record] else []
    ensures UpdatesOf(heard + [record], recs, now) ==
              UpdatesOf(heard, recs, now)
              + if !record.IsExpired(now) || record.Id() in recs then [RecordUpdate(record, Lookup(recs, record.Id()))]
                else []
    ensures forall id :: Goodbye(heard + [record], recs, now, id) <==>
              Goodbye(heard, recs, now, id) || (id == record.Id() && id in recs && record.IsExpired(now))
  {
    hide Record.Id, Record.IsExpired, IsAddress;
    var all := heard + [record];
    assert all[..|all| - 1] == heard && all[|all| - 1] == record;
    assert forall r :: r in all <==> r in heard || r == record;
  }

  lemma ExamineStart(recs: Recs, now: Millis)
    ensures RaiseAll([]) == [] && Claims([]) == {} && UpdatesOf([], recs, now) == []
    ensures LiveOnes([], now, true) == [] && LiveOnes([], now, false) == []
    ensures forall id :: !Goodbye([], recs, now, id)
  {
  }

  lemma RaiseStep(answers: seq<Record>, i: nat)
    requires i < |answers|
    ensures RaiseAll(answers[..i + 1]) == RaiseAll(answers[..i]) + [Raise(answers[i])]
  {
  }

  lemma NoClaims(s: State, known: set<Ident>, now: Millis)
    ensures Flushed(s, {}, known, now) == s
  {
    FlushNothing(s, known, now);
  }

  lemma NothingToDo(s: State)
    ensures AddedAll(s, []) == s && WithoutAll(s.recs, []) == s.recs
    ensures forall recs :: !News([], recs)
  {
  }

  ghost predicate News(records: seq<Record>, recs: Recs) {
    exists r :: r in records && r.Id() !in recs && !r.rdata.Nsec?
  }

  /** Listeners wait for records that were not cached before the response. */
  lemma NotifyIs(s: State, heard: seq<Record>, now: Millis)
    ensures var flushed := Flushed(s, Claims(heard), IdsOf(heard), now);
            var addresses, others := LiveOnes(heard, now, true), LiveOnes(heard, now, false);
            News(addresses, flushed.recs) || News(others, AddedAll(flushed, addresses).recs)
            <==> exists r :: r in heard && !r.IsExpired(now) && !r.rdata.Nsec? && r.Id() !in s.recs
  {
    hide Record.Id, Record.IsExpired, IsAddress, Flushable, Flush;
    var flushed := Flushed(s, Claims(heard), IdsOf(heard), now);
    var addresses, others := LiveOnes(heard, now, true), LiveOnes(heard, now, false);
    LiveOnesAre(heard, now, true);
    LiveOnesAre(heard, now, false);
    AddedAllKeys(flushed, addresses);
    assert forall id :: id in flushed.recs <==> id in s.recs;
    forall r | r in heard && !r.IsExpired(now) && !r.rdata.Nsec? && r.Id() !in s.recs
      ensures News(addresses, flushed.recs) || News(others, AddedAll(flushed, addresses).recs)
    {
      IdType(r);
      if !IsAddress(r.typ) && r.Id() in AddedAll(flushed, addresses).recs {
        var a :| a in addresses && a.Id() == r.Id();
        IdType(a);
      }
    }
  }
}
