/** `RecordManager.async_updates_from_response`: what one response does to the cache. */
module RecordManager {
  import opened Records
  import opened HeapQueue
  import opened CacheState
  import opened Responses
  import opened Cache

  class RecordManager {
    const cache: DNSCache

    constructor (cache: DNSCache)
      ensures this.cache == cache
    {
      this.cache := cache;
    }

    /** The loop over the answers: sorts them into additions, removals and claimed sets. */
    method Examine(answers: seq<Record>, now: Millis)
      returns (heard: seq<Record>, addressAdds: seq<Record>, otherAdds: seq<Record>, removes: seq<Ident>,
               sets: set<RrSet>, updates: seq<RecordUpdate>)
      requires cache.Valid()
      ensures heard == RaiseAll(answers) && sets == Claims(heard)
      ensures addressAdds == LiveOnes(heard, now, true) && otherAdds == LiveOnes(heard, now, false)
      ensures updates == UpdatesOf(heard, cache.recs, now)
      ensures Distinct(removes) && forall id :: id in removes <==> Goodbye(heard, cache.recs, now, id)
    {
      hide Record.Id, Record.IsExpired, IsAddress, Goodbye, Raise, Filed, Sound, IsHeap, Timely;
      hide RaiseAll, Claims, LiveOnes, UpdatesOf;
      heard, addressAdds, otherAdds, removes, sets, updates := [], [], [], [], {}, [];
      ExamineStart(cache.recs, now);
      for i := 0 to |answers|
        invariant heard == RaiseAll(answers[..i]) && sets == Claims(heard)
        invariant addressAdds == LiveOnes(heard, now, true) && otherAdds == LiveOnes(heard, now, false)
        invariant updates == UpdatesOf(heard, cache.recs, now)
        invariant Distinct(removes) && forall id :: id in removes <==> Goodbye(heard, cache.recs, now, id)
      {
        var record := Raise(answers[i]);
        RaiseStep(answers, i);
        ExamineStep(heard, record, cache.recs, now);
        heard := heard + [record];
        if record.unique {
          sets := sets + {RrSet(record.name, record.typ, record.cls)};
        }
        var maybeEntry := cache.AsyncGetUnique(record.Id());
        if !record.IsExpired(now) {
          if IsAddress(record.typ) {
            addressAdds := addressAdds + [record];
          } else {
            otherAdds := otherAdds + [record];
          }
          updates := updates + [RecordUpdate(record, maybeEntry)];
        } else if maybeEntry.Some? {
          updates := updates + [RecordUpdate(record, maybeEntry)];
          if record.Id() !in removes {
            removes := removes + [record.Id()];
          }
        }
      }
      assert answers[..|answers|] == answers;
    }

    /** `async_updates_from_response`, with the calls to listeners returned: the updates they get before the cache
        changes, and whether waiters are notified afterwards. No removal fails. */
    method AsyncUpdatesFromResponse(answers: seq<Record>, now: Millis)
      returns (updates: seq<RecordUpdate>, notify: bool)
      requires cache.Valid()
      modifies cache
      ensures cache.Valid() && cache.View() == Responded(old(cache.View()), RaiseAll(answers), now)
      ensures Settled(old(cache.recs), RaiseAll(answers), now, cache.recs)
      ensures updates == UpdatesOf(RaiseAll(answers), old(cache.recs), now)
      ensures notify <==> exists r :: r in RaiseAll(answers) && !r.IsExpired(now) && !r.rdata.Nsec?
                                      && r.Id() !in old(cache.recs)
    {
      hide Record.Id, Record.IsExpired, IsAddress, Goodbye, Raise, Flushed, Filed, Sound, IsHeap, Timely;
      hide AddedAll, AllThere, WithoutAll, Settled, LiveOnes, Claims, UpdatesOf, IdsOf, RaiseAll, Responded;
      var heard, addressAdds, otherAdds, removes, sets, found := Examine(answers, now);
      updates, notify := found, false;
      ghost var before := cache.View();
      EffectIs(before, heard, now);
      RemovalsAre(before, heard, now, removes);
      NotifyIs(before, heard, now);
      NoClaims(before, IdsOf(heard), now);
      if sets != {} {
        cache.AsyncMarkUniqueRecordsOlderThan1sToExpire(sets, heard, now);
      }
      NothingToDo(cache.View());
      if otherAdds != [] || addressAdds != [] {
        notify := cache.AsyncAddRecords(addressAdds);
        var more := cache.AsyncAddRecords(otherAdds);
        if more {
          notify := true;
        }
      }
      NothingToDo(cache.View());
      if removes != [] {
        var outcome := cache.AsyncRemoveRecords(removes);
        assert outcome.Pass?;
      }
    }
  }
}
