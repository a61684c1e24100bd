/** `DNSCache`: the two indexes, the expiry map and the lazily cleaned heap, updated in place. */
module Cache {
  import opened Results
  import opened Names
  import opened Records
  import opened HeapQueue
  import opened CacheState

  const MIN_SCHEDULED_RECORD_EXPIRATION := 100

  type Buckets = map<Name, map<Ident, Record>>

  /** The bucket a record is filed under in an index, if it belongs there. */
  type Filing = Ident -> Option<Name>

  function ByName(): Filing {
    (id: Ident) => Some(id.key)
  }

  function ByServer(): Filing {
    (id: Ident) => if id.rdata.Service? then Some(id.rdata.server) else None
  }

  /** The index holds exactly the records that belong there, under their keys, and no bucket is empty. */
  ghost predicate Filed(buckets: Buckets, recs: Recs, filing: Filing) {
    && (forall k :: k in buckets ==> buckets[k] != map[])
    && (forall k, id :: k in buckets && id in buckets[k] ==>
          filing(id) == Some(k) && id in recs && buckets[k][id] == recs[id])
    && (forall id :: id in recs && filing(id).Some? ==>
          filing(id).value in buckets && id in buckets[filing(id).value])
  }

  function Bucket(buckets: Buckets, key: Name): map<Ident, Record> {
    if key in buckets then buckets[key] else map[]
  }

  lemma FiledAdd(buckets: Buckets, recs: Recs, filing: Filing, key: Name, id: Ident, record: Record)
    requires Filed(buckets, recs, filing) && filing(id) == Some(key)
    ensures Filed(buckets[key := Bucket(buckets, key)[id := record]], recs[id := record], filing)
  {
    var after := buckets[key := Bucket(buckets, key)[id := record]];
    assert id in after[key];
  }

  lemma FiledElsewhere(buckets: Buckets, recs: Recs, filing: Filing, id: Ident, record: Record)
    requires Filed(buckets, recs, filing) && filing(id) == None
    ensures Filed(buckets, recs[id := record], filing)
  {
  }

  /** `_remove_key` */
  function RemoveKey(buckets: Buckets, key: Name, id: Ident): Result<Buckets> {
    if key !in buckets || id !in buckets[key] then Failure(KeyError)
    else
      var rest := buckets[key] - {id};
      Success(if rest == map[] then buckets - {key} else buckets[key := rest])
  }

  lemma FiledRemove(buckets: Buckets, recs: Recs, filing: Filing, key: Name, id: Ident)
    requires Filed(buckets, recs, filing) && filing(id) == Some(key)
    ensures RemoveKey(buckets, key, id).Success? <==> id in recs
    ensures id !in recs ==> RemoveKey(buckets, key, id) == Failure(KeyError)
    ensures id in recs ==> Filed(RemoveKey(buckets, key, id).value, recs - {id}, filing)
  {
    if id in recs {
      var after := RemoveKey(buckets, key, id).value;
      forall i | i in recs - {id} && filing(i).Some?
        ensures filing(i).value in after && i in after[filing(i).value]
      {
        assert i in buckets[filing(i).value];
        if filing(i).value == key {
          assert i in buckets[key] - {id};
        }
      }
    }
  }

  lemma FiledNotThere(buckets: Buckets, recs: Recs, filing: Filing, id: Ident)
    requires Filed(buckets, recs, filing) && filing(id) == None
    ensures Filed(buckets, recs - {id}, filing)
  {
  }

  /** The expiry map covers exactly the cached records. */
  ghost predicate Timely(expirations: map<Ident, Millis>, recs: Recs) {
    && expirations.Keys == recs.Keys
    && forall id :: id in recs ==> expirations[id] == recs[id].Expiry()
  }

  lemma TimelyAdd(expirations: map<Ident, Millis>, recs: Recs, id: Ident, record: Record)
    requires Timely(expirations, recs)
    ensures Timely(expirations[id := record.Expiry()], recs[id := record])
    ensures id in expirations <==> id in recs
    ensures id in recs ==> expirations[id] == recs[id].Expiry()
  {
  }

  lemma TimelyRemove(expirations: map<Ident, Millis>, recs: Recs, id: Ident)
    requires Timely(expirations, recs)
    ensures Timely(expirations - {id}, recs - {id})
  {
  }

  lemma StaysSound(s: State, record: Record, id: Ident)
    requires Sound(s) && id == record.Id()
    ensures Sound(Added(s, record))
  {
    AddedSound(s, record);
  }

  lemma SoundWithout(s: State, id: Ident)
    requires Sound(s)
    ensures Sound(Removed(s, id))
  {
    RemovedSound(s, id);
  }

  lemma ByNameIs(id: Ident)
    ensures ByName()(id) == Some(id.key)
  {
  }

  lemma AddedIs(s: State, record: Record, id: Ident, heap: multiset<Entry>)
    requires id == record.Id()
    requires heap == if id in s.recs && s.recs[id].Expiry() == record.Expiry() then s.heap
                     else s.heap + multiset{Timed(record.Expiry(), id)}
    ensures State(s.recs[id := record], heap) == Added(s, record)
  {
  }

  class DNSCache {
    var cache: Buckets
    var serviceCache: Buckets
    var expirations: map<Ident, Millis>
    var expireHeap: seq<Entry>

    ghost var recs: Recs

    /** The cache as one flat set of records. */
    ghost function View(): State
      reads this
    {
      State(recs, multiset(expireHeap))
    }

    /** Both indexes and the expiry map agree with the flat set of records. */
    ghost predicate Indexed()
      reads this
    {
      && Filed(cache, recs, ByName()) && Filed(serviceCache, recs, ByServer())
      && Timely(expirations, recs)
    }

    ghost predicate Valid()
      reads this
    {
      Indexed() && IsHeap(expireHeap) && Sound(View())
    }

    constructor ()
      ensures Valid() && View() == EMPTY
    {
      cache, serviceCache, expirations, expireHeap := map[], map[], map[], [];
      recs := map[];
    }

    /** The expiration is pushed unless the record already has it. */
    method Schedule(id: Ident, when: Millis)
      requires IsHeap(expireHeap)
      modifies this`expireHeap, this`expirations
      ensures IsHeap(expireHeap) && expirations == old(expirations)[id := when]
      ensures multiset(expireHeap) == if id in old(expirations) && old(expirations)[id] == when
                                      then multiset(old(expireHeap))
                                      else multiset(old(expireHeap)) + multiset{Timed(when, id)}
    {
      if id !in expirations || expirations[id] != when {
        expireHeap := HeapPush(expireHeap, Timed(when, id));
        expirations := expirations[id := when];
      }
    }

    /** Service records are also filed under their server. */
    method FileService(id: Ident, record: Record)
      requires Filed(serviceCache, recs, ByServer())
      modifies this`serviceCache
      ensures Filed(serviceCache, recs[id := record], ByServer())
    {
      hide Filed;
      if id.rdata.Service? {
        FiledAdd(serviceCache, recs, ByServer(), id.rdata.server, id, record);
        serviceCache := serviceCache[id.rdata.server := Bucket(serviceCache, id.rdata.server)[id := record]];
      } else {
        FiledElsewhere(serviceCache, recs, ByServer(), id, record);
      }
    }

    /** `_async_add`; true when the record was not in the cache. */
    method AsyncAdd(record: Record) returns (isNew: bool)
      requires Valid()
      modifies this
      ensures Valid() && View() == Added(old(View()), record)
      ensures isNew <==> record.Id() !in old(recs) && !record.rdata.Nsec?
    {
      hide Filed, Sound, Record.Id, IsHeap, ByName, ByServer, Timely, Added;
      var id := record.Id();
      var store := Bucket(cache, id.key);
      isNew := id !in store && !record.rdata.Nsec?;
      StoreTells(cache, recs, id);
      ByNameIs(id);
      FiledAdd(cache, recs, ByName(), id.key, id, record);
      StaysSound(View(), record, id);
      TimelyAdd(expirations, recs, id, record);
      cache := cache[id.key := store[id := record]];
      Schedule(id, record.created + (record.ttl * 1000) as real);
      FileService(id, record);
      recs := recs[id := record];
      AddedIs(old(View()), record, id, multiset(expireHeap));
    }

    /** `_async_remove`; nothing changes when the record is not there. */
    method AsyncRemove(id: Ident) returns (outcome: Outcome)
      requires Indexed()
      modifies this
      ensures Indexed() && (old(Valid()) ==> Valid())
      ensures id in old(recs) ==> outcome.Pass? && View() == Removed(old(View()), id)
      ensures id !in old(recs) ==> outcome == Fail(KeyError) && View() == old(View())
      ensures expireHeap == old(expireHeap)
    {
      hide Filed, Sound, ByName, ByServer, RemoveKey, Timely;
      ByNameIs(id);
      ByServerIs(id);
      FiledRemove(cache, recs, ByName(), id.key, id);
      TimelyRemove(expirations, recs, id);
      if Sound(View()) {
        SoundWithout(View(), id);
      }
      if id.rdata.Service? {
        FiledRemove(serviceCache, recs, ByServer(), id.rdata.server, id);
        var rest := RemoveKey(serviceCache, id.rdata.server, id);
        if rest.Failure? {
          return Fail(rest.error);
        }
        serviceCache := rest.value;
      } else {
        FiledNotThere(serviceCache, recs, ByServer(), id);
      }
      var rest := RemoveKey(cache, id.key, id);
      if rest.Failure? {
        return Fail(rest.error);
      }
      cache := rest.value;
      expirations := expirations - {id};
      recs := recs - {id};
      return Pass;
    }

    /** `async_add_records`; true when any of them was not in the cache before its turn. */
    method AsyncAddRecords(entries: seq<Record>) returns (anyNew: bool)
      requires Valid()
      modifies this
      ensures Valid() && View() == AddedAll(old(View()), entries)
      ensures anyNew <==> exists r :: r in entries && r.Id() !in old(recs) && !r.rdata.Nsec?
    {
      hide Filed, Sound, Timely, Added;
      anyNew := false;
      ghost var before := View();
      for i := 0 to |entries|
        invariant Valid() && View() == AddedAll(before, entries[..i])
        invariant anyNew <==> exists r :: r in entries[..i] && r.Id() !in before.recs && !r.rdata.Nsec?
      {
        assert entries[..i + 1] == entries[..i] + [entries[i]] && entries[..i + 1][..i] == entries[..i];
        AddedAllKeys(before, entries[..i]);
        ghost var had := View().recs;
        var one := AsyncAdd(entries[i]);
        AnyNewStep(before.recs, had, entries, i, anyNew, one);
        anyNew := anyNew || one;
      }
      assert entries[..|entries|] == entries;
    }

    /** `async_remove_records`: it stops with an exception at a record that is not, or no longer, in the cache. */
    method AsyncRemoveRecords(ids: seq<Ident>) returns (outcome: Outcome)
      requires Indexed()
      modifies this
      ensures Indexed() && (old(Valid()) ==> Valid())
      ensures outcome.Pass? <==> AllThere(old(recs), ids)
      ensures outcome.Pass? ==> recs == WithoutAll(old(recs), ids)
      ensures outcome.Fail? ==> exists n :: 0 <= n < |ids| && recs == WithoutAll(old(recs), ids[..n])
      ensures expireHeap == old(expireHeap)
    {
      hide Filed, Sound, Timely;
      ghost var before := recs;
      assert WithoutAll(before, []) == before;
      for i := 0 to |ids|
        invariant Indexed() && (old(Valid()) ==> Valid())
        invariant recs == WithoutAll(before, ids[..i]) && expireHeap == old(expireHeap)
        invariant AllThere(before, ids[..i])
      {
        ThereStep(before, ids, i);
        outcome := AsyncRemove(ids[i]);
        if outcome.Fail? {
          return;
        }
      }
      assert ids[..|ids|] == ids;
      return Pass;
    }

    /** The loop of `async_expire` over the heap: due entries leave it, and those that still count are collected. */
    method TakeDue(now: Millis) returns (expired: seq<Ident>)
      requires Valid()
      modifies this`expireHeap
      ensures IsHeap(expireHeap)
      ensures forall e: Entry :: multiset(expireHeap)[e] == if e.when <= now then 0 else multiset(old(expireHeap))[e]
      ensures forall id ::
                multiset(expired)[id] == if Due(recs, now, id) then old(View()).heap[EntryOf(recs[id])] else 0
    {
      hide Filed, Sound, IsHeap;
      FiledByIdentity(View());
      expired := [];
      ghost var taken: multiset<Entry> := multiset{};
      while expireHeap != []
        invariant IsHeap(expireHeap) && multiset(expireHeap) + taken == multiset(old(expireHeap))
        invariant forall e: Entry :: e in taken ==> e.when <= now
        invariant CollectedFrom(recs, taken, expired)
        decreases |expireHeap|
      {
        if expireHeap[0].when > now {
          AllLater(expireHeap, now);
          break;
        }
        var entry, rest := HeapPop(expireHeap);
        CollectStep(recs, taken, expired, entry);
        expireHeap := rest;
        taken := taken + multiset{entry};
        if entry.item in expirations && expirations[entry.item] == entry.when {
          expired := expired + [entry.item];
        }
      }
      CollectedAll(recs, now, multiset(expireHeap), taken, expired);
    }

    /** The clean-up of the heap: only entries that still count are kept. */
    method Weed()
      requires Timely(expirations, recs)
      modifies this`expireHeap
      ensures IsHeap(expireHeap)
      ensures forall e: Entry ::
                multiset(expireHeap)[e] == if LiveIn(recs, e) then multiset(old(expireHeap))[e] else 0
    {
      var kept: seq<Entry> := [];
      for i := 0 to |expireHeap|
        invariant forall e: Entry ::
                    multiset(kept)[e] == if LiveIn(recs, e) then multiset(expireHeap[..i])[e] else 0
      {
        var entry := expireHeap[i];
        assert expireHeap[..i + 1] == expireHeap[..i] + [entry];
        if entry.item in expirations && expirations[entry.item] == entry.when {
          kept := kept + [entry];
        }
      }
      assert expireHeap[..|expireHeap|] == expireHeap;
      expireHeap := Heapify(kept);
    }

    /** `async_expire` */
    method AsyncExpire(now: Millis) returns (r: Result<seq<Ident>>)
      requires Valid()
      modifies this
      ensures Indexed()
      ensures r.Failure? <==> ExpireFails(old(View()), now)
      ensures r.Failure? ==>
                && r.error == KeyError && Purged(old(View()), now, View().heap)
                && (forall id :: id in recs ==> id in old(recs) && recs[id] == old(recs)[id])
                && (forall id :: id in old(recs) && id !in recs ==> Due(old(recs), now, id))
      ensures r.Success? ==> Valid() && Expired(old(View()), now, View(), r.value)
    {
      hide Filed, IsHeap, Timely, Expired, ExpireFails, Sound, Purged, Due, EntryOf, AllThere, Collected;
      var heapLen := |expireHeap|;
      ghost var before := View();
      if heapLen == 0 {
        NothingScheduled(before, now);
        return Success([]);
      }
      var expired := TakeDue(now);
      ghost var later := multiset(expireHeap);
      if heapLen > MIN_SCHEDULED_RECORD_EXPIRATION && heapLen > |expirations| * 2 {
        TimelySize(expirations, recs);
        Weed();
      } else {
        TimelySize(expirations, recs);
      }
      PurgedIs(before, now, later, multiset(expireHeap));
      ExpireOutcome(before, now, expired);
      OnlyDue(before, now, expired);
      var outcome := AsyncRemoveRecords(expired);
      if outcome.Fail? {
        return Failure(KeyError);
      }
      ExpiredIs(before, now, View(), expired);
      return Success(expired);
    }

    /** `async_get_unique` */
    function AsyncGetUnique(id: Ident): (r: Option<Record>)
      requires Valid()
      reads this
      ensures r == if id in recs then Some(recs[id]) else None
    {
      StoreTells(cache, recs, id);
      var store := Bucket(cache, id.key);
      if id in store then Some(store[id]) else None
    }

    /** `entries_with_name` */
    function EntriesWithName(name: Name): (r: Recs)
      requires Valid()
      reads this
      ensures r == map id | id in recs && id.key == Lower(name) :: recs[id]
    {
      BucketTells(cache, recs, Lower(name));
      Bucket(cache, Lower(name))
    }

    /** `entries_with_server` */
    function EntriesWithServer(server: Name): (r: Recs)
      requires Valid()
      reads this
      ensures r == map id | id in recs && id.rdata.Service? && id.rdata.server == Lower(server) :: recs[id]
    {
      ServerBucketTells(serviceCache, recs, Lower(server));
      Bucket(serviceCache, Lower(server))
    }

    /** `names`: no name stays behind without a record. */
    function CachedNames(): (r: set<Name>)
      requires Valid()
      reads this
      ensures r == set id | id in recs :: id.key
    {
      NamesTell(cache, recs);
      cache.Keys
    }

    /** `get_by_details`: some match, if there is any. */
    method GetByDetails(name: Name, typ: int, cls: int) returns (r: Option<Record>)
      requires Valid()
      ensures r.Some? ==> SetMember(recs, r.value, Lower(name), typ, cls)
      ensures r.None? ==> forall record :: !SetMember(recs, record, Lower(name), typ, cls)
    {
      hide SetMember, Filed, Sound, Timely, IsHeap;
      var matches := AsyncAllByDetails(name, typ, cls);
      if matches == [] {
        return None;
      }
      return Some(matches[|matches| - 1]);
    }

    /** `async_all_by_details`: a filter over the flat set of records. */
    method AsyncAllByDetails(name: Name, typ: int, cls: int) returns (matches: seq<Record>)
      requires Valid()
      ensures Matching(recs, name, typ, cls, matches)
      ensures forall r :: r in matches <==>
                r.Id() in recs && recs[r.Id()] == r && Lower(r.name) == Lower(name) && r.typ == typ && r.cls == cls
    {
      hide Sound, IsHeap, Timely, Record.Id, Lower, Filtered, Matching, Filed;
      var key := Lower(name);
      var todo := Bucket(cache, key);
      matches := [];
      BucketTells(cache, recs, key);
      FiledByIdentity(View());
      FilterStart(recs, todo, key, typ, cls);
      while todo != map[]
        invariant Filtered(recs, todo, key, typ, cls, matches)
        decreases |todo|
      {
        var id :| id in todo;
        FilterStep(recs, todo, key, typ, cls, matches, id);
        var record := todo[id];
        todo := todo - {id};
        if typ == record.typ && cls == record.cls {
          matches := matches + [record];
        }
      }
      FilterEnd(recs, name, typ, cls, matches);
      MatchingIs(recs, name, typ, cls, matches);
    }

    /** `async_mark_unique_records_older_than_1s_to_expire` */
    method AsyncMarkUniqueRecordsOlderThan1sToExpire(sets: set<RrSet>, answers: seq<Record>, now: Millis)
      requires Valid()
      modifies this
      ensures Valid() && View() == Flushed(old(View()), sets, IdsOf(answers), now)
    {
      hide Filed, IsHeap, Timely, Sound, Flushable, FlushedBy;
      ghost var before := View();
      ghost var done: set<RrSet> := {};
      ghost var ids: set<Ident> := {};
      FlushNothing(before, IdsOf(answers), now);
      FiledByIdentity(before);
      var todo := sets;
      while todo != {}
        invariant Valid() && done + todo == sets
        invariant ids == Chosen(before.recs, done, IdsOf(answers), now) && View() == FlushedBy(before, ids, now)
        decreases |todo|
      {
        var u :| u in todo;
        ids := MarkOne(u, answers, now, before, done, ids);
        todo := todo - {u};
        done := done + {u};
      }
      assert done == sets;
    }

    /** One turn of its outer loop. */
    method MarkOne(u: RrSet, answers: seq<Record>, now: Millis,
                   ghost before: State, ghost done: set<RrSet>, ghost ids: set<Ident>) returns (ghost more: set<Ident>)
      requires Valid() && ById(before.recs)
      requires ids == Chosen(before.recs, done, IdsOf(answers), now) && View() == FlushedBy(before, ids, now)
      modifies this
      ensures Valid()
      ensures more == Chosen(before.recs, done + {u}, IdsOf(answers), now) && View() == FlushedBy(before, more, now)
    {
      hide Filed, IsHeap, Timely, Sound, Flushable, FlushedBy, Matching, Record.Id, Added;
      more := ids;
      var matches := AsyncAllByDetails(u.name, u.typ, u.cls);
      ghost var known := IdsOf(answers);
      MarkStart(before.recs, matches, u, known, now, ids);
      for i := 0 to |matches|
        invariant Valid() && View() == FlushedBy(before, more, now)
        invariant Marking(before.recs, matches, i, u, known, now, ids, more)
      {
        var record := matches[i];
        if now - record.created > 1000.0 && record.Id() !in IdsOf(answers) {
          MarkStep(before, matches, i, u, known, now, ids, more);
          var _ := AsyncAdd(Flush(record, now));
          more := more + {record.Id()};
        } else {
          MarkSkip(before.recs, matches, i, u, known, now, ids, more);
        }
      }
      MarkEnd(before, matches, u, known, now, done, ids, more);
    }

  }

  ghost predicate ById(recs: Recs) {
    forall id :: id in recs ==> recs[id].Id() == id
  }

  ghost predicate SetMember(recs: Recs, r: Record, key: Name, typ: int, cls: int) {
    r.Id() in recs && recs[r.Id()] == r && r.Id().key == key && r.typ == typ && r.cls == cls
  }

  /** Exactly the cached records of that name, type and class, each once. */
  ghost predicate Matching(recs: Recs, name: Name, typ: int, cls: int, matches: seq<Record>) {
    && (forall r :: r in matches <==> SetMember(recs, r, Lower(name), typ, cls))
    && (forall i, j :: 0 <= i < j < |matches| ==> matches[i].Id() != matches[j].Id())
  }

  /** The bucket's records outside `todo`, filtered. */
  ghost predicate Filtered(recs: Recs, todo: Recs, key: Name, typ: int, cls: int, matches: seq<Record>) {
    && (forall id :: id in todo ==> id in recs && todo[id] == recs[id] && id.key == key)
    && (forall r :: r in matches <==> SetMember(recs, r, key, typ, cls) && r.Id() !in todo)
    && (forall i, j :: 0 <= i < j < |matches| ==> matches[i].Id() != matches[j].Id())
  }

  lemma FilterStart(recs: Recs, todo: Recs, key: Name, typ: int, cls: int)
    requires forall id :: id in todo <==> id in recs && id.key == key
    requires forall id :: id in todo ==> todo[id] == recs[id]
    ensures Filtered(recs, todo, key, typ, cls, [])
  {
  }

  lemma FilterStep(recs: Recs, todo: Recs, key: Name, typ: int, cls: int, matches: seq<Record>, id: Ident)
    requires ById(recs) && Filtered(recs, todo, key, typ, cls, matches) && id in todo
    ensures var r := todo[id];
            Filtered(recs, todo - {id}, key, typ, cls, if typ == r.typ && cls == r.cls then matches + [r] else matches)
  {
    hide Record.Id;
    var r := todo[id];
    assert r.Id() == id;
    forall x | SetMember(recs, x, key, typ, cls) && x.Id() !in todo - {id} && x !in matches
      ensures x == r
    {
    }
  }

  lemma FilterEnd(recs: Recs, name: Name, typ: int, cls: int, matches: seq<Record>)
    requires Filtered(recs, map[], Lower(name), typ, cls, matches)
    ensures Matching(recs, name, typ, cls, matches)
  {
  }

  lemma MatchingIs(recs: Recs, name: Name, typ: int, cls: int, matches: seq<Record>)
    requires Matching(recs, name, typ, cls, matches)
    ensures forall r :: r in matches <==>
              r.Id() in recs && recs[r.Id()] == r && Lower(r.name) == Lower(name) && r.typ == typ && r.cls == cls
  {
  }

  lemma KeyIs(record: Record)
    ensures record.Id().key == record.Key()
  {
  }

  lemma BucketTells(cache: Buckets, recs: Recs, key: Name)
    requires Filed(cache, recs, ByName())
    ensures forall id :: id in Bucket(cache, key) <==> id in recs && id.key == key
    ensures forall id :: id in Bucket(cache, key) ==> Bucket(cache, key)[id] == recs[id]
  {
    forall id
      ensures id in Bucket(cache, key) <==> id in recs && id.key == key
    {
      ByNameIs(id);
    }
  }

  lemma ServerBucketTells(cache: Buckets, recs: Recs, key: Name)
    requires Filed(cache, recs, ByServer())
    ensures forall id :: id in Bucket(cache, key) <==> id in recs && id.rdata.Service? && id.rdata.server == key
    ensures forall id :: id in Bucket(cache, key) ==> Bucket(cache, key)[id] == recs[id]
  {
    forall id
      ensures id in Bucket(cache, key) <==> id in recs && id.rdata.Service? && id.rdata.server == key
    {
      ByServerIs(id);
    }
  }

  lemma ByServerIs(id: Ident)
    ensures ByServer()(id) == if id.rdata.Service? then Some(id.rdata.server) else None
  {
  }

  lemma NamesTell(cache: Buckets, recs: Recs)
    requires Filed(cache, recs, ByName())
    ensures cache.Keys == set id | id in recs :: id.key
  {
    forall k
      ensures k in cache <==> exists id :: id in recs && id.key == k
    {
      BucketTells(cache, recs, k);
      if k in cache {
        var id :| id in cache[k];
        assert id in Bucket(cache, k);
      }
      if id :| id in recs && id.key == k {
        assert id in Bucket(cache, k);
      }
    }
  }

  /** A record one claim flushes. */
  predicate Old(record: Record, known: set<Ident>, now: Millis) {
    now - record.created > 1000.0 && record.Id() !in known
  }

  ghost predicate Marking(recs: Recs, matches: seq<Record>, i: nat, u: RrSet, known: set<Ident>, now: Millis,
                          ids: set<Ident>, more: set<Ident>)
  {
    && i <= |matches| && ids <= more
    && (forall id :: id in more && id !in ids ==>
          id in recs && Flushable(recs[id], {u}, known, now) && exists j :: 0 <= j < i && matches[j].Id() == id)
    && (forall j :: 0 <= j < i && Old(matches[j], known, now) ==> matches[j].Id() in more)
  }

  lemma MarkStart(recs: Recs, matches: seq<Record>, u: RrSet, known: set<Ident>, now: Millis, ids: set<Ident>)
    ensures Marking(recs, matches, 0, u, known, now, ids, ids)
  {
  }

  lemma MarkSkip(recs: Recs, matches: seq<Record>, i: nat, u: RrSet, known: set<Ident>, now: Millis,
                 ids: set<Ident>, more: set<Ident>)
    requires Marking(recs, matches, i, u, known, now, ids, more) && i < |matches| && !Old(matches[i], known, now)
    ensures Marking(recs, matches, i + 1, u, known, now, ids, more)
  {
    hide Flushable, Old, Record.Id;
  }

  /** An old match has not been flushed yet: flushing it is adding it again. */
  lemma MarkStep(s: State, matches: seq<Record>, i: nat, u: RrSet, known: set<Ident>, now: Millis,
                 ids: set<Ident>, more: set<Ident>)
    requires ById(s.recs) && Matching(FlushedBy(s, ids, now).recs, u.name, u.typ, u.cls, matches)
    requires Marking(s.recs, matches, i, u, known, now, ids, more) && i < |matches| && Old(matches[i], known, now)
    ensures Marking(s.recs, matches, i + 1, u, known, now, ids, more + {matches[i].Id()})
    ensures Added(FlushedBy(s, more, now), Flush(matches[i], now)) == FlushedBy(s, more + {matches[i].Id()}, now)
  {
    hide Record.Id, Lower, Added, FlushedBy, Flushable;
    var record := matches[i];
    var id := record.Id();
    UnflushedMatch(s, matches, i, u, known, now, ids);
    assert id !in more;
    FlushOneMore(s, more, id, now);
  }

  lemma UnflushedMatch(s: State, matches: seq<Record>, i: nat, u: RrSet, known: set<Ident>, now: Millis,
                       ids: set<Ident>)
    requires ById(s.recs) && Matching(FlushedBy(s, ids, now).recs, u.name, u.typ, u.cls, matches)
    requires i < |matches| && Old(matches[i], known, now)
    ensures var id := matches[i].Id();
            id !in ids && id in s.recs && s.recs[id] == matches[i] && Flushable(matches[i], {u}, known, now)
  {
    hide Record.Id, Lower;
    var record := matches[i];
    KeyIs(record);
    assert SetMember(FlushedBy(s, ids, now).recs, record, Lower(u.name), u.typ, u.cls);
    assert u in {u};
  }

  lemma FlushOneMore(s: State, more: set<Ident>, id: Ident, now: Millis)
    requires id in s.recs && id !in more && s.recs[id].Id() == id
    ensures Added(FlushedBy(s, more, now), Flush(s.recs[id], now)) == FlushedBy(s, more + {id}, now)
  {
    hide Record.Id, Record.Expiry, FlushEntries;
    EntriesOneMore(s.recs, more, id, now);
    var t, record := FlushedBy(s, more, now), Flush(s.recs[id], now);
    AddedIs(t, record, id, s.heap + multiset(FlushEntries(s.recs, more + {id}, now)));
  }

  lemma EntriesOneMore(recs: Recs, more: set<Ident>, id: Ident, now: Millis)
    requires id in recs && id !in more
    ensures multiset(FlushEntries(recs, more + {id}, now))
         == if recs[id].Expiry() == now + 1000.0 then multiset(FlushEntries(recs, more, now))
            else multiset(FlushEntries(recs, more, now)) + multiset{Timed(now + 1000.0, id)}
  {
    hide Record.Expiry;
    var a, b, e := FlushEntries(recs, more, now), FlushEntries(recs, more + {id}, now), Timed(now + 1000.0, id);
    assert e !in a;
    assert b == if recs[id].Expiry() == now + 1000.0 then a else a + {e};
  }

  lemma MarkEnd(s: State, matches: seq<Record>, u: RrSet, known: set<Ident>, now: Millis, done: set<RrSet>,
                ids: set<Ident>, more: set<Ident>)
    requires ById(s.recs) && Matching(FlushedBy(s, ids, now).recs, u.name, u.typ, u.cls, matches)
    requires ids == Chosen(s.recs, done, known, now)
    requires Marking(s.recs, matches, |matches|, u, known, now, ids, more)
    ensures more == Chosen(s.recs, done + {u}, known, now)
  {
    hide Record.Id, Lower;
    forall id | id in Chosen(s.recs, done + {u}, known, now) && id !in ids
      ensures id in more
    {
      var record := s.recs[id];
      KeyIs(record);
      assert SetMember(FlushedBy(s, ids, now).recs, record, Lower(u.name), u.typ, u.cls);
      assert record in matches && Old(record, known, now);
    }
  }

  lemma NothingScheduled(s: State, now: Millis)
    requires Sound(s) && |s.heap| == 0
    ensures Expired(s, now, s, []) && !ExpireFails(s, now)
  {
    hide Record.Id;
    assert forall id :: id in s.recs ==> EntryOf(s.recs[id]) in s.heap;
  }

  lemma TimelySize(expirations: map<Ident, Millis>, recs: Recs)
    requires Timely(expirations, recs)
    ensures |expirations| == |recs|
  {
    assert |expirations| == |expirations.Keys| && |recs| == |recs.Keys|;
  }

  lemma PurgedIs(s: State, now: Millis, later: multiset<Entry>, heap: multiset<Entry>)
    requires forall e: Entry :: later[e] == if e.when <= now then 0 else s.heap[e]
    requires if |s.heap| > MIN_SCHEDULED_RECORD_EXPIRATION && |s.heap| > |s.recs| * 2
             then forall e: Entry :: heap[e] == if LiveIn(s.recs, e) then later[e] else 0
             else heap == later
    ensures Purged(s, now, heap)
  {
    hide LiveIn;
  }

  /** The collected records can all be removed exactly when none of them was collected twice. */
  lemma ExpireOutcome(s: State, now: Millis, expired: seq<Ident>)
    requires Sound(s)
    requires forall id :: multiset(expired)[id] == if Due(s.recs, now, id) then s.heap[EntryOf(s.recs[id])] else 0
    ensures AllThere(s.recs, expired) <==> !ExpireFails(s, now)
    ensures !ExpireFails(s, now) ==> Collected(s.recs, now, expired)
    ensures WithoutAll(s.recs, expired) == Unexpired(s.recs, now)
  {
    hide Record.Id;
    forall id
      ensures id in expired <==> Due(s.recs, now, id)
    {
      assert id in expired <==> id in multiset(expired);
    }
    if ExpireFails(s, now) {
      var id :| Due(s.recs, now, id) && s.heap[EntryOf(s.recs[id])] > 1;
      var i, j := TwiceIn(expired, id);
    } else {
      forall i, j | 0 <= i < j < |expired|
        ensures expired[i] != expired[j]
      {
        if expired[i] == expired[j] {
          assert Due(s.recs, now, expired[i]);
          AtLeastTwice(expired, i, j);
        }
      }
    }
  }

  lemma OnlyDue(s: State, now: Millis, expired: seq<Ident>)
    requires forall id :: multiset(expired)[id] == if Due(s.recs, now, id) then s.heap[EntryOf(s.recs[id])] else 0
    ensures forall id :: id in expired ==> Due(s.recs, now, id)
  {
    forall id | id in expired
      ensures Due(s.recs, now, id)
    {
      assert id in multiset(expired);
    }
  }

  lemma TwiceIn(s: seq<Ident>, x: Ident) returns (i: nat, j: nat)
    requires multiset(s)[x] > 1
    ensures i < j < |s| && s[i] == x && s[j] == x
  {
    assert x in multiset(s);
    i :| 0 <= i < |s| && s[i] == x;
    var rest := s[..i] + s[i + 1..];
    assert s == s[..i] + [x] + s[i + 1..];
    assert x in multiset(rest);
    var k :| 0 <= k < |rest| && rest[k] == x;
    if k < i {
      i, j := k, i;
    } else {
      j := k + 1;
    }
  }

  lemma AtLeastTwice(s: seq<Ident>, i: nat, j: nat)
    requires i < j < |s| && s[i] == s[j]
    ensures multiset(s)[s[i]] > 1
  {
    assert s == s[..i] + [s[i]] + s[i + 1..j] + [s[j]] + s[j + 1..];
  }

  lemma ExpiredIs(s: State, now: Millis, t: State, expired: seq<Ident>)
    requires Sound(s) && t.recs == Unexpired(s.recs, now) && Purged(s, now, t.heap)
    requires Collected(s.recs, now, expired)
    ensures Expired(s, now, t, expired) && Sound(t)
  {
    ExpiredSound(s, now, t, expired);
  }

  /** Once the heap is empty or due later, what left it is exactly what was due. */
  lemma CollectedAll(recs: Recs, now: Millis, rest: multiset<Entry>, taken: multiset<Entry>, expired: seq<Ident>)
    requires forall e: Entry :: e in rest ==> e.when > now
    requires forall e: Entry :: e in taken ==> e.when <= now
    requires CollectedFrom(recs, taken, expired)
    ensures forall e: Entry :: rest[e] == if e.when <= now then 0 else (rest + taken)[e]
    ensures forall id :: multiset(expired)[id] == if Due(recs, now, id) then (rest + taken)[EntryOf(recs[id])] else 0
  {
    hide Record.Id;
    forall id
      ensures multiset(expired)[id] == if Due(recs, now, id) then (rest + taken)[EntryOf(recs[id])] else 0
    {
      if id in recs {
        var e := EntryOf(recs[id]);
        assert (rest + taken)[e] == rest[e] + taken[e];
      }
    }
  }

  ghost predicate CollectedFrom(recs: Recs, taken: multiset<Entry>, expired: seq<Ident>) {
    forall id :: multiset(expired)[id] == if id in recs then taken[EntryOf(recs[id])] else 0
  }

  lemma CollectStep(recs: Recs, taken: multiset<Entry>, expired: seq<Ident>, entry: Entry)
    requires CollectedFrom(recs, taken, expired)
    requires ById(recs)
    ensures CollectedFrom(recs, taken + multiset{entry},
                          if LiveIn(recs, entry) then expired + [entry.item] else expired)
  {
    hide Record.Id;
  }

  lemma FiledByIdentity(s: State)
    requires Sound(s)
    ensures ById(s.recs)
  {
  }

  lemma AllLater(h: seq<Entry>, now: Millis)
    requires IsHeap(h) && h != [] && h[0].when > now
    ensures forall e: Entry :: e in multiset(h) ==> e.when > now
  {
    forall k | 0 <= k < |h|
      ensures h[k].when > now
    {
      RootFirst(h, k);
    }
  }

  lemma ThereStep(recs: Recs, ids: seq<Ident>, i: nat)
    requires i < |ids| && AllThere(recs, ids[..i])
    ensures ids[i] in WithoutAll(recs, ids[..i]) <==> AllThere(recs, ids[..i + 1])
    ensures WithoutAll(recs, ids[..i]) - {ids[i]} == WithoutAll(recs, ids[..i + 1])
    ensures ids[i] !in WithoutAll(recs, ids[..i]) ==> !AllThere(recs, ids)
  {
    assert ids[..i + 1] == ids[..i] + [ids[i]];
    if ids[i] in ids[..i] {
      var j :| 0 <= j < i && ids[j] == ids[i];
      assert ids[..i + 1][j] == ids[..i + 1][i];
    }
  }

  lemma AnyNewStep(before: Recs, had: Recs, entries: seq<Record>, i: nat, anyNew: bool, one: bool)
    requires i < |entries|
    requires forall id :: id in had <==> id in before || exists r :: r in entries[..i] && r.Id() == id
    requires anyNew <==> exists r :: r in entries[..i] && r.Id() !in before && !r.rdata.Nsec?
    requires one <==> entries[i].Id() !in had && !entries[i].rdata.Nsec?
    ensures anyNew || one <==> exists r :: r in entries[..i + 1] && r.Id() !in before && !r.rdata.Nsec?
  {
    assert entries[..i + 1] == entries[..i] + [entries[i]];
    var e := entries[i];
    if e.Id() in had && e.Id() !in before && !e.rdata.Nsec? {
      var r :| r in entries[..i] && r.Id() == e.Id();
      assert !r.rdata.Nsec?;
    }
  }

  lemma StoreTells(cache: Buckets, recs: Recs, id: Ident)
    requires Filed(cache, recs, ByName())
    ensures id in Bucket(cache, id.key) <==> id in recs
    ensures id in recs ==> Bucket(cache, id.key)[id] == recs[id]
  {
    assert ByName()(id) == Some(id.key);
  }
}
