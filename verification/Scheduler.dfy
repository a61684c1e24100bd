/** `QueryScheduler`: when PTR records are refreshed. A heap with lazy cancellation, and a map from alias to the one
    query scheduled for it. */
module Scheduler {
  import opened Results
  import opened Names
  import opened Records
  import opened HeapQueue

  const STARTUP_QUERIES := 4
  const EXPIRE_REFRESH_TIME_PERCENT := 75

  class ScheduledPTRQuery {
    const alias: Name
    const name: Name
    const ttl: nat
    const expireTime: Millis
    const when: Millis
    var cancelled: bool

    /** When the record came in, and how many rescues of it came before this query. */
    ghost const created: Millis
    ghost const rescue: nat

    constructor (alias: Name, name: Name, ttl: nat, expireTime: Millis, when: Millis,
                 ghost created: Millis, ghost rescue: nat)
      ensures this.alias == alias && this.name == name && this.ttl == ttl
      ensures this.expireTime == expireTime && this.when == when && !cancelled
      ensures this.created == created && this.rescue == rescue
    {
      this.alias, this.name, this.ttl := alias, name, ttl;
      this.expireTime, this.when, this.cancelled := expireTime, when, false;
      this.created, this.rescue := created, rescue;
    }

    /** The first refresh comes at 75% of the lifetime, the k-th rescue about 10% of it after the one before,
        and before the record expires. */
    ghost predicate OnTime(resolution: Millis) {
      && expireTime == created + (1000 * ttl) as real
      && when >= created + ((750 + 100 * rescue) * ttl) as real - rescue as real * resolution
      && (rescue > 0 ==> when < expireTime)
    }
  }

  lemma TimesMore(n: real, a: real, b: real)
    requires n >= 0.0 && a <= b
    ensures n * a <= n * b
  {
  }

  lemma Factor(k: nat, ttl: nat)
    ensures ((750 + 100 * k) * ttl) as real == 750.0 * ttl as real + k as real * (100.0 * ttl as real)
  {
    var n, t := k as real, ttl as real;
    assert (750 + 100 * k) * ttl == 750 * ttl + 100 * (k * ttl);
    assert (k * ttl) as real == n * t;
    assert n * (100.0 * t) == 100.0 * (n * t);
  }

  /** Three delays of 10% would pass the end of the lifetime. */
  lemma ThreeTooMany(k: nat, ttl: nat, resolution: Millis)
    requires k >= 3 && 3.0 * resolution <= (50 * ttl) as real
    ensures ((750 + 100 * k) * ttl) as real - k as real * resolution >= (1000 * ttl) as real
  {
    var n, t := k as real, ttl as real;
    var step := 100.0 * t - resolution;
    Factor(k, ttl);
    assert n * (100.0 * t) - n * resolution == n * step;
    assert 3.0 * step >= 250.0 * t;
    TimesMore(step, 3.0, n);
  }

  /** At most two rescues follow the first refresh, unless the clock is coarse for so short a lifetime. */
  lemma AtMostTwoRescues(q: ScheduledPTRQuery, resolution: Millis)
    requires q.OnTime(resolution) && 3.0 * resolution <= (50 * q.ttl) as real
    ensures q.rescue <= 2
  {
    var k := q.rescue;
    if k >= 3 {
      ThreeTooMany(k, q.ttl, resolution);
    }
  }

  type Entry = Timed<ScheduledPTRQuery>
  type Aliases = map<Name, ScheduledPTRQuery>

  function EntryOf(q: ScheduledPTRQuery): Entry {
    Timed(q.when, q)
  }

  /** The alias map holds exactly the heap's entries that are not cancelled, one per alias. */
  ghost predicate Agree(entries: multiset<Entry>, aliases: Aliases)
    reads set e | e in entries :: e.item
  {
    && (forall e :: e in entries ==> e == EntryOf(e.item) && entries[e] == 1)
    && (forall a :: a in aliases ==>
          aliases[a].alias == a && EntryOf(aliases[a]) in entries && !aliases[a].cancelled)
    && (forall e :: e in entries && !e.item.cancelled ==>
          e.item.alias in aliases && aliases[e.item.alias] == e.item)
  }

  lemma AgreePush(entries: multiset<Entry>, aliases: Aliases, q: ScheduledPTRQuery)
    requires Agree(entries, aliases) && EntryOf(q) !in entries && !q.cancelled && q.alias !in aliases
    ensures Agree(entries + multiset{EntryOf(q)}, aliases[q.alias := q])
  {
  }

  lemma AgreeLost(entries: multiset<Entry>, aliases: Aliases, q: ScheduledPTRQuery)
    requires Agree(entries, aliases) && EntryOf(q) !in entries && q.alias in aliases
    ensures !Agree(entries + multiset{EntryOf(q)}, aliases[q.alias := q])
  {
    assert EntryOf(aliases[q.alias]) in entries + multiset{EntryOf(q)};
  }

  lemma AgreePop(entries: multiset<Entry>, aliases: Aliases, e: Entry, rest: multiset<Entry>)
    requires Agree(entries, aliases) && entries == rest + multiset{e}
    ensures e == EntryOf(e.item)
    ensures e.item.cancelled ==> Agree(rest, aliases)
    ensures !e.item.cancelled ==> e.item.alias in aliases && aliases[e.item.alias] == e.item
                                  && Agree(rest, aliases - {e.item.alias})
  {
    assert e in entries;
    assert entries[e] == rest[e] + 1;
    forall x | x in rest
      ensures x in entries && x != e && rest[x] == entries[x]
    {
    }
  }

  /** The timer that is pending, and when it is due. */
  datatype Timer = Startup(due: Millis) | Ready(due: Millis)

  class QueryScheduler {
    const types: set<Name>
    const minTimeBetweenQueries: Millis
    const clockResolution: Millis
    const firstRandomDelayInterval: (Millis, Millis)

    var queryHeap: seq<Entry>
    var nextScheduledForAlias: Aliases
    var nextRun: Option<Timer>
    var startupQueriesSent: nat

    ghost function Queue(): set<ScheduledPTRQuery>
      reads this
    {
      set e | e in queryHeap :: e.item
    }

    ghost predicate Valid()
      reads this, Queue()
    {
      && clockResolution >= 0.0 && minTimeBetweenQueries >= 0.0
      && IsHeap(queryHeap)
      && Agree(multiset(queryHeap), nextScheduledForAlias)
      && (forall q :: q in Queue() ==> q.OnTime(clockResolution))
    }

    constructor (types: set<Name>, delay: Millis, firstRandomDelayInterval: (Millis, Millis), resolution: Millis)
      requires delay >= 0.0 && resolution >= 0.0
      ensures Valid() && nextScheduledForAlias == map[] && nextRun == None && startupQueriesSent == 0
      ensures queryHeap == []
      ensures minTimeBetweenQueries == delay && clockResolution == resolution && this.types == types
      ensures this.firstRandomDelayInterval == firstRandomDelayInterval
    {
      this.firstRandomDelayInterval := firstRandomDelayInterval;
      this.types, minTimeBetweenQueries, clockResolution := types, delay, resolution;
      queryHeap, nextScheduledForAlias, nextRun, startupQueriesSent := [], map[], None, 0;
    }

    /** `stop` */
    method Stop()
      requires Valid()
      modifies this
      ensures Valid() && nextScheduledForAlias == map[] && queryHeap == [] && nextRun == None
    {
      nextRun, nextScheduledForAlias, queryHeap := None, map[], [];
    }

    /** `_schedule_ptr_query`: it keeps the scheduler valid exactly when nothing is scheduled for the alias, which
        its callers see to. */
    method SchedulePtrQuery(query: ScheduledPTRQuery)
      requires Valid() && query !in Queue() && !query.cancelled && query.OnTime(clockResolution)
      modifies this`queryHeap, this`nextScheduledForAlias
      ensures Valid() <==> query.alias !in old(nextScheduledForAlias)
      ensures Queue() == old(Queue()) + {query} && |queryHeap| == old(|queryHeap|) + 1
      ensures nextScheduledForAlias == old(nextScheduledForAlias)[query.alias := query]
    {
      hide IsHeap, ScheduledPTRQuery.OnTime, Agree;
      assert EntryOf(query) !in multiset(queryHeap);
      if query.alias in nextScheduledForAlias {
        AgreeLost(multiset(queryHeap), nextScheduledForAlias, query);
      } else {
        AgreePush(multiset(queryHeap), nextScheduledForAlias, query);
      }
      ghost var before := queryHeap;
      nextScheduledForAlias := nextScheduledForAlias[query.alias := query];
      queryHeap := HeapPush(queryHeap, EntryOf(query));
      SameEntries(queryHeap, multiset(before) + multiset{EntryOf(query)});
      SameEntries(before, multiset(before));
    }

    /** `cancel_ptr_refresh`: the heap keeps the entry, marked. */
    method CancelPtrRefresh(pointer: Record)
      requires Valid() && pointer.rdata.Pointer?
      modifies this`nextScheduledForAlias, Queue()
      ensures Valid() && queryHeap == old(queryHeap)
      ensures nextScheduledForAlias == old(nextScheduledForAlias) - {pointer.rdata.alias}
      ensures forall q :: q in Queue() ==> q.cancelled == old(q.cancelled || q.alias == pointer.rdata.alias)
    {
      hide IsHeap, ScheduledPTRQuery.OnTime;
      Cancel(pointer.rdata.alias);
    }

    method Cancel(alias: Name)
      requires Valid()
      modifies this`nextScheduledForAlias, Queue()
      ensures Valid() && queryHeap == old(queryHeap)
      ensures nextScheduledForAlias == old(nextScheduledForAlias) - {alias}
      ensures forall q :: q in Queue() ==> q.cancelled == old(q.cancelled || q.alias == alias)
    {
      hide IsHeap, ScheduledPTRQuery.OnTime;
      SameEntries(queryHeap, multiset(queryHeap));
      if alias in nextScheduledForAlias {
        var scheduled := nextScheduledForAlias[alias];
        assert EntryOf(scheduled) in multiset(queryHeap);
        scheduled.cancelled := true;
        nextScheduledForAlias := nextScheduledForAlias - {alias};
      }
    }

    /** `reschedule_ptr_first_refresh`: a refresh within the minimum interval of the one scheduled changes nothing. In
        every other case the alias gets a new query at 75% of the record's lifetime, in place of any old one. */
    method ReschedulePtrFirstRefresh(pointer: Record)
      requires Valid() && pointer.rdata.Pointer?
      modifies this`queryHeap, this`nextScheduledForAlias, Queue()
      ensures Valid()
      ensures var alias, was := pointer.rdata.alias, old(nextScheduledForAlias);
              var refresh := pointer.created + (750 * pointer.ttl) as real;
              var close := alias in was && refresh - minTimeBetweenQueries <= was[alias].when
                                        && was[alias].when <= refresh + minTimeBetweenQueries;
              && (close <==> nextScheduledForAlias == was)
              && (close ==> queryHeap == old(queryHeap)
                            && forall q :: q in Queue() ==> q.cancelled == old(q.cancelled))
              && (!close ==>
                    && alias in nextScheduledForAlias
                    && var q := nextScheduledForAlias[alias];
                    && nextScheduledForAlias == was[alias := q]
                    && fresh(q) && q.name == pointer.name && q.ttl == pointer.ttl && q.when == refresh
                    && q.expireTime == pointer.created + (1000 * pointer.ttl) as real
                    && q.created == pointer.created && q.rescue == 0)
    {
      hide IsHeap, Agree;
      var alias, refreshTime := pointer.rdata.alias, pointer.ExpirationTime(EXPIRE_REFRESH_TIME_PERCENT);
      if alias in nextScheduledForAlias {
        var ahead := refreshTime - nextScheduledForAlias[alias].when;
        if -minTimeBetweenQueries <= ahead <= minTimeBetweenQueries {
          return;
        }
      }
      ghost var before := nextScheduledForAlias;
      Cancel(alias);
      var query := new ScheduledPTRQuery(alias, pointer.name, pointer.ttl, pointer.ExpirationTime(100),
                                         refreshTime, pointer.created, 0);
      SchedulePtrQuery(query);
      assert (before - {alias})[alias := query] == before[alias := query];
    }

    /** `schedule_rescue_query`, with the additional percentage of 10 */
    method ScheduleRescueQuery(query: ScheduledPTRQuery, now: Millis)
      requires Valid() && query.OnTime(clockResolution) && query.when <= now + clockResolution
      requires query.alias !in nextScheduledForAlias
      modifies this`queryHeap, this`nextScheduledForAlias
      ensures Valid() && fresh(Queue() - old(Queue()))
      ensures Rescued(query, now, nextScheduledForAlias)
      ensures query.alias in nextScheduledForAlias <==> now + (100 * query.ttl) as real < query.expireTime
      ensures query.alias in nextScheduledForAlias ==>
                nextScheduledForAlias[query.alias].when == now + (100 * query.ttl) as real
      ensures nextScheduledForAlias - {query.alias} == old(nextScheduledForAlias)
      ensures query.alias in nextScheduledForAlias ==> fresh(nextScheduledForAlias[query.alias])
    {
      hide IsHeap, Agree;
      var nextQueryTime := now + (100 * query.ttl) as real;
      if nextQueryTime >= query.expireTime {
        assert nextScheduledForAlias - {query.alias} == nextScheduledForAlias;
        return;
      }
      ghost var before := nextScheduledForAlias;
      RescueOnTime(query.rescue, query.ttl, clockResolution);
      var rescue := new ScheduledPTRQuery(query.alias, query.name, query.ttl, query.expireTime, nextQueryTime,
                                          query.created, query.rescue + 1);
      SchedulePtrQuery(rescue);
      assert before[query.alias := rescue] - {query.alias} == before;
    }

    /** `heappop`, and for a live query its deletion from the alias map, which never fails. */
    method PopFirst() returns (query: ScheduledPTRQuery)
      requires Valid() && queryHeap != []
      modifies this`queryHeap, this`nextScheduledForAlias
      ensures Valid() && Queue() <= old(Queue()) && |queryHeap| == old(|queryHeap|) - 1
      ensures query == old(queryHeap[0].item) && query.OnTime(clockResolution)
      ensures query.cancelled ==> nextScheduledForAlias == old(nextScheduledForAlias)
      ensures !query.cancelled ==>
                && query.alias in old(nextScheduledForAlias) && old(nextScheduledForAlias)[query.alias] == query
                && nextScheduledForAlias == old(nextScheduledForAlias) - {query.alias}
    {
      hide ScheduledPTRQuery.OnTime, IsHeap;
      var entry, rest := HeapPop(queryHeap);
      AgreePop(multiset(queryHeap), nextScheduledForAlias, entry, multiset(rest));
      SameEntries(queryHeap, multiset(queryHeap));
      SameEntries(rest, multiset(rest));
      query := entry.item;
      assert query in Queue();
      queryHeap := rest;
      if !query.cancelled {
        assert query.alias in nextScheduledForAlias;
        nextScheduledForAlias := nextScheduledForAlias - {query.alias};
      }
    }

    /** The loop of a pass over the heap: cancelled entries on top go, and every live entry due by `end` is taken.
        `next` is when the entry it stops at is due. */
    method TakeDue(end: Millis) returns (ready: set<Name>, rescue: seq<ScheduledPTRQuery>, next: Option<Millis>)
      requires Valid()
      modifies this`queryHeap, this`nextScheduledForAlias
      ensures Valid() && Queue() <= old(Queue())
      ensures Taken(old(nextScheduledForAlias), nextScheduledForAlias, rescue, end)
      ensures forall a :: a in nextScheduledForAlias ==> nextScheduledForAlias[a].when > end
      ensures forall q :: q in rescue ==> q.OnTime(clockResolution)
      ensures ready == set q | q in rescue :: q.name
      ensures next.None? ==> nextScheduledForAlias == map[]
      ensures next.Some? ==>
                && (forall a :: a in nextScheduledForAlias ==> next.value <= nextScheduledForAlias[a].when)
                && exists a :: a in nextScheduledForAlias && nextScheduledForAlias[a].when == next.value
    {
      hide ScheduledPTRQuery.OnTime, IsHeap, Agree, Taken;
      TakeNone(nextScheduledForAlias, end);
      ready, rescue, next := {}, [], None;
      while queryHeap != []
        invariant Valid() && Queue() <= old(Queue())
        invariant Taken(old(nextScheduledForAlias), nextScheduledForAlias, rescue, end)
        invariant forall q :: q in rescue ==> q.OnTime(clockResolution)
        invariant ready == set q | q in rescue :: q.name
        decreases |queryHeap|
      {
        var query := queryHeap[0].item;
        if !query.cancelled && query.when > end {
          next := Some(query.when);
          FirstOfAll(queryHeap, nextScheduledForAlias);
          return;
        }
        ghost var sofar := nextScheduledForAlias;
        query := PopFirst();
        if !query.cancelled {
          TakeOne(old(nextScheduledForAlias), sofar, rescue, end, query);
          ready := ready + {query.name};
          rescue := rescue + [query];
        }
      }
      EmptyHeap(nextScheduledForAlias);
    }

    /** Rescue queries for everything a pass has taken. */
    method ScheduleRescues(rescue: seq<ScheduledPTRQuery>, now: Millis, ghost before: Aliases, ghost end: Millis)
      requires Valid() && end == now + clockResolution
      requires Taken(before, nextScheduledForAlias, rescue, end)
      requires forall q :: q in rescue ==> q.OnTime(clockResolution)
      modifies this`queryHeap, this`nextScheduledForAlias
      ensures Valid() && fresh(Queue() - old(Queue()))
      ensures Passed(before, old(nextScheduledForAlias), nextScheduledForAlias, now)
      ensures forall a :: a in nextScheduledForAlias && a !in old(nextScheduledForAlias) ==>
                fresh(nextScheduledForAlias[a])
    {
      hide IsHeap, ScheduledPTRQuery.OnTime, Rescued, Agree, Taken, Rescuing;
      ghost var kept := nextScheduledForAlias;
      RescueStart(before, kept, rescue, end, now);
      for i := 0 to |rescue|
        invariant Valid() && fresh(Queue() - old(Queue()))
        invariant Rescuing(kept, nextScheduledForAlias, rescue, i, now)
        invariant forall a :: a in nextScheduledForAlias && a !in kept ==> fresh(nextScheduledForAlias[a])
      {
        ghost var sofar := nextScheduledForAlias;
        RescueNext(kept, sofar, rescue, i, now);
        ScheduleRescueQuery(rescue[i], now);
        RescueOneMore(kept, sofar, nextScheduledForAlias, rescue, i, now);
      }
      AllRescued(before, kept, nextScheduledForAlias, rescue, end, now);
    }

    /** A pass over the heap: what is sent, and when the first query left is due. */
    method SendDue(now: Millis) returns (ready: set<Name>, next: Option<Millis>)
      requires Valid()
      modifies this`queryHeap, this`nextScheduledForAlias
      ensures Valid() && fresh(Queue() - old(Queue()))
      ensures var was, end := old(nextScheduledForAlias), now + clockResolution;
              && ready == (set a | a in was && was[a].when <= end :: was[a].name)
              && (forall a :: a in nextScheduledForAlias ==> a in was)
              && (forall a :: a in was && was[a].when > end ==>
                    a in nextScheduledForAlias && nextScheduledForAlias[a] == was[a])
              && (forall a :: a in was && was[a].when <= end ==>
                    (a in nextScheduledForAlias <==> now + (100 * was[a].ttl) as real < was[a].expireTime))
              && (forall a :: a in was && was[a].when <= end && a in nextScheduledForAlias ==>
                    var q := nextScheduledForAlias[a];
                    && q.name == was[a].name && q.ttl == was[a].ttl
                    && q.expireTime == was[a].expireTime && q.when == now + (100 * was[a].ttl) as real
                    && q.created == was[a].created && q.rescue == was[a].rescue + 1)
      ensures var left := set a | a in old(nextScheduledForAlias)
                                  && old(nextScheduledForAlias)[a].when > now + clockResolution;
              && (next.None? <==> left == {})
              && (next.Some? ==>
                    && (exists a :: a in left && old(nextScheduledForAlias)[a].when == next.value)
                    && forall a :: a in left ==> next.value <= old(nextScheduledForAlias)[a].when)
    {
      hide IsHeap, ScheduledPTRQuery.OnTime, Rescued, Agree, Taken;
      ghost var was, end := nextScheduledForAlias, now + clockResolution;
      var rescue;
      ready, rescue, next := TakeDue(now + clockResolution);
      ghost var kept := nextScheduledForAlias;
      TakenAre(was, kept, rescue, end);
      assert kept.Keys == set a | a in was && was[a].when > end;
      assert forall a :: a in kept ==> kept[a] == was[a];
      AliasesAre(was, multiset(old(queryHeap)));
      ScheduleRescues(rescue, now, was, end);
      RescuesAre(was, kept, nextScheduledForAlias, now);
    }

    /** `_process_ready_types`: one pass. Every live query that is due is sent and gives way to its rescue, if there
        is time for one; every other live query stays. The next pass is armed for the first query left, or the minimum
        interval later if that is later. */
    method ProcessReadyTypes(now: Millis, done: bool) returns (ready: set<Name>)
      requires Valid()
      modifies this`queryHeap, this`nextScheduledForAlias, this`nextRun
      ensures Valid() && fresh(Queue() - old(Queue()))
      ensures done ==> ready == {} && nextRun == old(nextRun) && nextScheduledForAlias == old(nextScheduledForAlias)
      ensures !done ==>
                var was, end := old(nextScheduledForAlias), now + clockResolution;
                && ready == (set a | a in was && was[a].when <= end :: was[a].name)
                && (forall a :: a in nextScheduledForAlias ==> a in was)
                && (forall a :: a in was && was[a].when > end ==>
                      a in nextScheduledForAlias && nextScheduledForAlias[a] == was[a])
                && (forall a :: a in was && was[a].when <= end ==>
                      (a in nextScheduledForAlias <==> now + (100 * was[a].ttl) as real < was[a].expireTime))
                && (forall a :: a in was && was[a].when <= end && a in nextScheduledForAlias ==>
                      var q := nextScheduledForAlias[a];
                      && q.name == was[a].name && q.ttl == was[a].ttl
                      && q.expireTime == was[a].expireTime && q.when == now + (100 * was[a].ttl) as real
                      && q.created == was[a].created && q.rescue == was[a].rescue + 1)
      ensures !done ==>
                var was, soonest := old(nextScheduledForAlias), now + minTimeBetweenQueries;
                var left := set a | a in was && was[a].when > now + clockResolution;
                && nextRun.Some? && nextRun.value.Ready?
                && if left != {} && forall a :: a in left ==> was[a].when > soonest
                   then (exists a :: a in left && was[a].when == nextRun.value.due)
                        && forall a :: a in left ==> nextRun.value.due <= was[a].when
                   else nextRun.value.due == soonest
    {
      hide IsHeap, ScheduledPTRQuery.OnTime, Agree;
      if done {
        return {};
      }
      var next;
      ready, next := SendDue(now);
      var nextTime := now + minTimeBetweenQueries;
      if next.Some? && next.value > nextTime {
        nextTime := next.value;
      }
      nextRun := Some(Ready(nextTime));
    }

    /** `start`, with the random delay drawn by the caller */
    method Start(now: Millis, delay: Millis)
      requires firstRandomDelayInterval.0 <= delay <= firstRandomDelayInterval.1
      modifies this`nextRun
      ensures nextRun == Some(Startup(now + delay))
      ensures now + firstRandomDelayInterval.0 <= nextRun.value.due <= now + firstRandomDelayInterval.1
    {
      nextRun := Some(Startup(now + delay));
    }

    /** `_process_startup_queries`: all types are asked for, unicast replies only the first time; the waits before the
        second, third and fourth query are 1, 4 and 9 seconds. */
    method ProcessStartupQueries(now: Millis, done: bool) returns (asked: Option<(bool, set<Name>)>)
      modifies this`nextRun, this`startupQueriesSent
      ensures done ==> asked == None && nextRun == old(nextRun) && startupQueriesSent == old(startupQueriesSent)
      ensures !done ==>
                && asked == Some((old(startupQueriesSent) == 0, types))
                && startupQueriesSent == old(startupQueriesSent) + 1
                && nextRun == Some(if startupQueriesSent < 4
                                   then Startup(now + (1000 * startupQueriesSent * startupQueriesSent) as real)
                                   else Ready(now + minTimeBetweenQueries))
    {
      if done {
        return None;
      }
      asked := Some((startupQueriesSent == 0, types));
      startupQueriesSent := startupQueriesSent + 1;
      if startupQueriesSent >= STARTUP_QUERIES {
        nextRun := Some(Ready(now + minTimeBetweenQueries));
        return;
      }
      nextRun := Some(Startup(now + (1000 * startupQueriesSent * startupQueriesSent) as real));
    }
  }

  /** Every query that was taken has been rescued or given up, and nothing else was touched. */
  ghost predicate Passed(before: Aliases, kept: Aliases, after: Aliases, now: Millis) {
    && (forall a :: a in kept ==> a in after && after[a] == kept[a])
    && (forall a :: a in before && a !in kept ==> Rescued(before[a], now, after))
    && (forall a :: a in after ==> a in before)
  }

  ghost predicate Rescuing(kept: Aliases, after: Aliases, rescue: seq<ScheduledPTRQuery>, i: nat, now: Millis) {
    && i <= |rescue|
    && (forall a :: a in kept ==> a in after && after[a] == kept[a])
    && (forall a :: a in after && a !in kept ==> exists j :: 0 <= j < i && rescue[j].alias == a)
    && (forall j :: 0 <= j < i ==> Rescued(rescue[j], now, after))
    && (forall j :: i <= j < |rescue| ==> rescue[j].alias !in after)
    && (forall j :: 0 <= j < |rescue| ==> rescue[j].alias !in kept)
    && (forall j, k :: 0 <= j < k < |rescue| ==> rescue[j].alias != rescue[k].alias)
  }

  lemma RescueStart(before: Aliases, kept: Aliases, rescue: seq<ScheduledPTRQuery>, end: Millis, now: Millis)
    requires Taken(before, kept, rescue, end)
    ensures Rescuing(kept, kept, rescue, 0, now)
    ensures forall q :: q in rescue ==> q.when <= end
  {
  }

  lemma RescueNext(kept: Aliases, sofar: Aliases, rescue: seq<ScheduledPTRQuery>, i: nat, now: Millis)
    requires Rescuing(kept, sofar, rescue, i, now) && i < |rescue|
    ensures rescue[i].alias !in sofar && rescue[i].alias !in kept
  {
  }

  lemma RescuedElsewhere(q: ScheduledPTRQuery, now: Millis, aliases: Aliases, more: Aliases)
    requires Rescued(q, now, aliases)
    requires q.alias in aliases <==> q.alias in more
    requires q.alias in aliases ==> aliases[q.alias] == more[q.alias]
    ensures Rescued(q, now, more)
  {
  }

  lemma RescueOneMore(kept: Aliases, sofar: Aliases, after: Aliases, rescue: seq<ScheduledPTRQuery>, i: nat,
                      now: Millis)
    requires Rescuing(kept, sofar, rescue, i, now) && i < |rescue|
    requires Rescued(rescue[i], now, after) && after - {rescue[i].alias} == sofar
    ensures Rescuing(kept, after, rescue, i + 1, now)
  {
    hide Rescued;
    var alias := rescue[i].alias;
    assert forall a :: a in after && a != alias ==> a in sofar && sofar[a] == after[a];
    assert forall a :: a in sofar ==> a in after && after[a] == sofar[a];
    forall j | 0 <= j < i
      ensures Rescued(rescue[j], now, after)
    {
      RescuedElsewhere(rescue[j], now, sofar, after);
    }
  }

  lemma AllRescued(before: Aliases, kept: Aliases, after: Aliases, rescue: seq<ScheduledPTRQuery>, end: Millis,
                   now: Millis)
    requires Taken(before, kept, rescue, end) && Rescuing(kept, after, rescue, |rescue|, now)
    ensures Passed(before, kept, after, now)
  {
    hide Rescued;
    forall a | a in before && a !in kept
      ensures Rescued(before[a], now, after)
    {
      var j :| 0 <= j < |rescue| && rescue[j] == before[a];
    }
  }

  lemma AliasesAre(aliases: Aliases, entries: multiset<Entry>)
    requires Agree(entries, aliases)
    ensures forall a :: a in aliases ==> aliases[a].alias == a
  {
  }

  /** What a pass leaves of a query it has taken. */
  lemma RescuesAre(before: Aliases, kept: Aliases, after: Aliases, now: Millis)
    requires Passed(before, kept, after, now) && forall a :: a in before ==> before[a].alias == a
    ensures forall a :: a in before && a !in kept ==>
              (a in after <==> now + (100 * before[a].ttl) as real < before[a].expireTime)
    ensures forall a :: a in before && a !in kept && a in after ==>
              var q := after[a];
              && q.name == before[a].name && q.ttl == before[a].ttl && q.expireTime == before[a].expireTime
              && q.when == now + (100 * before[a].ttl) as real
              && q.created == before[a].created && q.rescue == before[a].rescue + 1
  {
  }

  /** The due queries were taken out of the alias map, each once. */
  ghost predicate Taken(before: Aliases, after: Aliases, rescue: seq<ScheduledPTRQuery>, end: Millis) {
    && (forall a :: a in after ==> a in before && before[a] == after[a])
    && (forall a :: a in before && a !in after ==> before[a] in rescue)
    && (forall q :: q in rescue ==> q.alias in before && before[q.alias] == q && q.when <= end && q.alias !in after)
    && (forall i, j :: 0 <= i < j < |rescue| ==> rescue[i].alias != rescue[j].alias)
  }

  /** What was taken is exactly what was due. */
  lemma TakenAre(was: Aliases, kept: Aliases, rescue: seq<ScheduledPTRQuery>, end: Millis)
    requires Taken(was, kept, rescue, end) && forall a :: a in kept ==> kept[a].when > end
    ensures forall a :: a in was ==> (a in kept <==> was[a].when > end)
    ensures forall a :: a in kept ==> a in was && kept[a] == was[a]
    ensures (set q | q in rescue :: q.name) == (set a | a in was && was[a].when <= end :: was[a].name)
  {
    forall a | a in was && was[a].when <= end
      ensures was[a] in rescue
    {
    }
  }

  lemma TakeNone(aliases: Aliases, end: Millis)
    ensures Taken(aliases, aliases, [], end)
  {
  }

  lemma TakeOne(before: Aliases, after: Aliases, rescue: seq<ScheduledPTRQuery>, end: Millis, q: ScheduledPTRQuery)
    requires Taken(before, after, rescue, end) && q.alias in after && after[q.alias] == q && q.when <= end
    ensures Taken(before, after - {q.alias}, rescue + [q], end)
  {
  }

  /** A live entry on top is the first of all. */
  lemma FirstOfAll(heap: seq<Entry>, aliases: Aliases)
    requires heap != [] && IsHeap(heap) && Agree(multiset(heap), aliases) && !heap[0].item.cancelled
    ensures forall a :: a in aliases ==> heap[0].item.when <= aliases[a].when
    ensures heap[0].item.alias in aliases && aliases[heap[0].item.alias] == heap[0].item
  {
    assert heap[0] in multiset(heap);
    forall a | a in aliases
      ensures heap[0].item.when <= aliases[a].when
    {
      assert EntryOf(aliases[a]) in multiset(heap);
      var k :| 0 <= k < |heap| && heap[k] == EntryOf(aliases[a]);
      RootFirst(heap, k);
    }
  }

  lemma EmptyHeap(aliases: Aliases)
    requires Agree(multiset([]), aliases)
    ensures aliases == map[]
  {
  }

  /** What becomes of a query that was sent: a rescue 10% of the lifetime later, if the record then still lives. */
  ghost predicate Rescued(query: ScheduledPTRQuery, now: Millis, aliases: Aliases) {
    var nextQueryTime := now + (100 * query.ttl) as real;
    && (query.alias in aliases <==> nextQueryTime < query.expireTime)
    && (query.alias in aliases ==>
          var q := aliases[query.alias];
          && q.name == query.name && q.ttl == query.ttl && q.expireTime == query.expireTime
          && q.when == nextQueryTime && q.created == query.created && q.rescue == query.rescue + 1)
  }

  lemma RescueOnTime(k: nat, ttl: nat, resolution: Millis)
    ensures ((750 + 100 * k) * ttl) as real - k as real * resolution - resolution + (100 * ttl) as real
         == ((750 + 100 * (k + 1)) * ttl) as real - (k + 1) as real * resolution
  {
    assert (750 + 100 * (k + 1)) * ttl == (750 + 100 * k) * ttl + 100 * ttl;
    assert (k + 1) as real * resolution == k as real * resolution + resolution;
  }

  lemma SameEntries(heap: seq<Entry>, entries: multiset<Entry>)
    requires multiset(heap) == entries
    ensures forall e :: e in heap <==> e in entries
  {
    assert forall e :: e in heap <==> e in multiset(heap);
  }
}
