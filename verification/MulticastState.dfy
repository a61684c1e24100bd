/** The aggregation of multicast answers as a state machine: groups waiting to be sent, and the timer that sends
    them. */
module MulticastState {
  import opened Records

  const RANDOM_MIN := 20.0
  const RANDOM_MAX := 120.0

  /** Answers with the additionals that go with each. */
  type Answers = map<Ident, set<Record>>

  /** A group, and the time of the clock at which it was made. */
  datatype Group = Group(sendAfter: Millis, sendBefore: Millis, answers: Answers, made: Millis)

  /** The queue, and the due times of the calls to `async_ready` that are pending. */
  datatype State = State(groups: seq<Group>, timers: seq<Millis>)

  const EMPTY := State([], [])

  /** The delays a queue is made with: 500 and 0 ms, or 200 and 1000 ms for recently sent records. */
  datatype Config = Config(aggregation: Millis, additional: Millis) {
    predicate Ok() {
      aggregation >= RANDOM_MAX && additional >= 0.0
    }

    function Window(): Millis {
      aggregation + additional
    }
  }

  /** `async_add` at time `clock`. Its argument `now` is when the query arrived, which for a query put together from
      truncated packets is earlier than the clock; the timer runs by the clock. */
  function Added(c: Config, s: State, now: Millis, clock: Millis, random: Millis, answers: Answers): State {
    var sendAfter, sendBefore := now + random + c.additional, now + c.Window();
    var n := |s.groups|;
    if n == 0 then State([Group(sendAfter, sendBefore, answers, clock)], s.timers + [clock + (random + c.additional)])
    else if sendAfter <= s.groups[n - 1].sendAfter then
      State(s.groups[n - 1 := s.groups[n - 1].(answers := s.groups[n - 1].answers + answers)], s.timers)
    else State(s.groups + [Group(sendAfter, sendBefore, answers, clock)], s.timers)
  }

  /** How many groups at the front may be sent by now. */
  function Ripe(groups: seq<Group>, now: Millis): (n: nat)
    ensures n <= |groups|
    ensures forall k :: 0 <= k < n ==> groups[k].sendAfter <= now
    ensures n < |groups| ==> groups[n].sendAfter > now
  {
    if groups == [] || groups[0].sendAfter > now then 0 else 1 + Ripe(groups[1..], now)
  }

  /** `dict.update` with one group after the other. */
  function Merge(groups: seq<Group>): Answers {
    if groups == [] then map[] else Merge(groups[..|groups| - 1]) + groups[|groups| - 1].answers
  }

  /** `_remove_answers_from_queue` */
  function Without(groups: seq<Group>, ids: set<Ident>): seq<Group> {
    seq(|groups|, k requires 0 <= k < |groups| => groups[k].(answers := groups[k].answers - ids))
  }

  /** The queue holds back while a later group could still join the first one's packet. */
  predicate HoldsBack(s: State, now: Millis) {
    |s.groups| > 1 && s.groups[0].sendBefore > now
  }

  /** `async_ready`, called for the first pending timer: the new state and what is sent. */
  function Fired(s: State, now: Millis): (State, Answers)
    requires s.timers != []
  {
    var timers := s.timers[1..];
    if HoldsBack(s, now) then (State(s.groups, timers + [s.groups[0].sendBefore]), map[])
    else
      var n := Ripe(s.groups, now);
      var answers, rest := Merge(s.groups[..n]), s.groups[n..];
      (State(Without(rest, answers.Keys), if rest == [] then timers else timers + [rest[0].sendAfter]), answers)
  }

  /** Putting groups together: an answer of several groups goes out as the last of them has it. */
  lemma {:induction false} MergeIs(groups: seq<Group>, id: Ident)
    ensures id in Merge(groups) <==> exists k :: 0 <= k < |groups| && id in groups[k].answers
    ensures forall k :: 0 <= k < |groups| && id in groups[k].answers
                        && (forall j :: k < j < |groups| ==> id !in groups[j].answers) ==>
              Merge(groups)[id] == groups[k].answers[id]
  {
    if groups != [] {
      var front, last := groups[..|groups| - 1], groups[|groups| - 1];
      MergeIs(front, id);
      assert forall k :: 0 <= k < |front| ==> front[k] == groups[k];
      if id !in last.answers {
        assert (exists k :: 0 <= k < |groups| && id in groups[k].answers)
          <==> exists k :: 0 <= k < |front| && id in front[k].answers;
      }
    }
  }

  /** What goes out for the first `n` groups: an answer of several of them as the last one has it. */
  ghost predicate LastWins(groups: seq<Group>, n: int, sent: Answers)
    requires 0 <= n <= |groups|
  {
    && (forall id :: id in sent <==> exists k :: 0 <= k < n && id in groups[k].answers)
    && forall id, k :: 0 <= k < n && id in groups[k].answers
                       && (forall j :: k < j < n ==> id !in groups[j].answers) ==>
         sent[id] == groups[k].answers[id]
  }

  lemma MergedIs(groups: seq<Group>, n: nat)
    requires n <= |groups|
    ensures LastWins(groups, n, Merge(groups[..n]))
  {
    hide Merge;
    var taken := groups[..n];
    assert forall k :: 0 <= k < n ==> taken[k] == groups[k];
    forall id
      ensures id in Merge(taken) <==> exists k :: 0 <= k < n && id in groups[k].answers
      ensures forall k :: 0 <= k < n && id in groups[k].answers
                          && (forall j :: k < j < n ==> id !in groups[j].answers) ==>
                Merge(taken)[id] == groups[k].answers[id]
    {
      MergeIs(taken, id);
    }
  }

  lemma LeftIs(groups: seq<Group>, ids: set<Ident>)
    ensures |Without(groups, ids)| == |groups|
    ensures forall k :: 0 <= k < |groups| ==> Without(groups, ids)[k] == groups[k].(answers := groups[k].answers - ids)
  {
  }

  /** A firing holds back until the first group must leave, while there are others. */
  lemma FiredHolds(s: State, now: Millis)
    requires s.timers != [] && |s.groups| > 1 && s.groups[0].sendBefore > now
    ensures Fired(s, now) == (State(s.groups, s.timers[1..] + [s.groups[0].sendBefore]), map[])
  {
  }

  /** Otherwise it takes the groups whose time has come and wakes up again for the first group left, */
  lemma FiredTakes(s: State, now: Millis)
    requires s.timers != [] && (|s.groups| <= 1 || s.groups[0].sendBefore <= now)
    ensures var t := Fired(s, now).0; var n := |s.groups| - |t.groups|;
            && 0 <= n && (forall k :: 0 <= k < n ==> s.groups[k].sendAfter <= now)
            && (t.groups != [] ==> t.groups[0].sendAfter > now)
            && t.timers == s.timers[1..] + (if t.groups == [] then [] else [t.groups[0].sendAfter])
  {
    hide Merge;
    var n := Ripe(s.groups, now);
    LeftIs(s.groups[n..], Merge(s.groups[..n]).Keys);
    hide Without;
    assert s.timers[1..] + [] == s.timers[1..];
  }

  /** sends their answers, and drops those answers from the groups left. */
  lemma FiredSends(s: State, now: Millis)
    requires s.timers != [] && (|s.groups| <= 1 || s.groups[0].sendBefore <= now)
    ensures |Fired(s, now).0.groups| <= |s.groups|
    ensures var (t, sent) := Fired(s, now); var n := |s.groups| - |t.groups|;
            && LastWins(s.groups, n, sent)
            && forall k :: 0 <= k < |t.groups| ==>
                 t.groups[k] == s.groups[n + k].(answers := s.groups[n + k].answers - sent.Keys)
  {
    hide Merge, Without, LastWins, Ripe;
    var n := Ripe(s.groups, now);
    MergedIs(s.groups, n);
    RestIs(s.groups, n, Merge(s.groups[..n]).Keys);
  }

  lemma RestIs(groups: seq<Group>, n: nat, ids: set<Ident>)
    requires n <= |groups|
    ensures |Without(groups[n..], ids)| == |groups| - n
    ensures forall k :: 0 <= k < |groups| - n ==>
              Without(groups[n..], ids)[k] == groups[n + k].(answers := groups[n + k].answers - ids)
  {
  }

  // ---------- runs with a clock ----------

  /** Answers that were added, or sent, and when. */
  datatype Note = Note(at: Millis, ids: set<Ident>)

  datatype World = World(state: State, clock: Millis, adds: seq<Note>, sends: seq<Note>)

  datatype Event = AddEvent(now: Millis, clock: Millis, random: Millis, answers: Answers) | FireEvent

  /** The clock never passes a pending timer: timers are punctual. */
  predicate Legal(w: World, e: Event) {
    match e
    case AddEvent(now, clock, random, _) =>
      && RANDOM_MIN <= random <= RANDOM_MAX && now <= clock && w.clock <= clock
      && forall t :: t in w.state.timers ==> clock <= t
    case FireEvent => w.state.timers != []
  }

  function Next(c: Config, w: World, e: Event): World
    requires Legal(w, e)
  {
    match e
    case AddEvent(now, clock, random, answers) =>
      World(Added(c, w.state, now, clock, random, answers), clock, w.adds + [Note(clock, answers.Keys)], w.sends)
    case FireEvent =>
      var now := w.state.timers[0];
      var (state, sent) := Fired(w.state, now);
      World(state, now, w.adds, if sent == map[] then w.sends else w.sends + [Note(now, sent.Keys)])
  }

  /** How old `now` was when the group was made. */
  function Lag(c: Config, g: Group): Millis {
    g.made + c.Window() - g.sendBefore
  }

  /** The order of the groups, and the one timer. */
  ghost predicate Orderly(c: Config, s: State, clock: Millis) {
    && (forall i, j :: 0 <= i < j < |s.groups| ==>
          s.groups[i].sendAfter < s.groups[j].sendAfter && s.groups[i].made <= s.groups[j].made)
    && (forall i :: 0 <= i < |s.groups| ==>
          s.groups[i].sendAfter <= s.groups[i].sendBefore && Lag(c, s.groups[i]) >= 0.0 && s.groups[i].made <= clock)
    && (s.groups == [] ==> s.timers == [])
    && (s.groups != [] ==>
          && |s.timers| == 1 && clock <= s.timers[0]
          && s.groups[0].sendAfter <= s.timers[0] <= s.groups[0].made + c.Window())
  }

  /** The answer was sent after it was added, and in time. */
  ghost predicate SentInTime(c: Config, sends: seq<Note>, at: Millis, id: Ident) {
    exists j :: 0 <= j < |sends| && id in sends[j].ids && at <= sends[j].at <= at + c.Window()
  }

  /** It waits in a group that will leave in time. */
  ghost predicate Waiting(c: Config, groups: seq<Group>, at: Millis, id: Ident) {
    exists k :: 0 <= k < |groups| && id in groups[k].answers && groups[k].made <= at
  }

  ghost predicate Kept(c: Config, w: World) {
    forall i, id :: 0 <= i < |w.adds| && id in w.adds[i].ids ==>
      && w.adds[i].at <= w.clock
      && (SentInTime(c, w.sends, w.adds[i].at, id) || Waiting(c, w.state.groups, w.adds[i].at, id))
  }

  ghost predicate Good(c: Config, w: World) {
    Orderly(c, w.state, w.clock) && Kept(c, w)
  }

  lemma AddOrderly(c: Config, s: State, before: Millis, now: Millis, clock: Millis, random: Millis, answers: Answers)
    requires c.Ok() && Orderly(c, s, before) && now <= clock && before <= clock
    requires (s.timers != [] ==> clock <= s.timers[0]) && RANDOM_MIN <= random <= RANDOM_MAX
    ensures Orderly(c, Added(c, s, now, clock, random, answers), clock)
  {
    var n := |s.groups|;
    if n > 0 && now + random + c.additional > s.groups[n - 1].sendAfter {
      var t := Added(c, s, now, clock, random, answers);
      assert forall i :: 0 <= i < n ==> t.groups[i] == s.groups[i];
    }
  }

  lemma AddKept(c: Config, w: World, now: Millis, clock: Millis, random: Millis, answers: Answers)
    requires c.Ok() && Good(c, w) && Legal(w, AddEvent(now, clock, random, answers))
    ensures Kept(c, Next(c, w, AddEvent(now, clock, random, answers)))
  {
    var v := Next(c, w, AddEvent(now, clock, random, answers));
    var groups := v.state.groups;
    var last := |groups| - 1;
    assert forall k :: 0 <= k < |w.state.groups| ==>
        groups[k].made == w.state.groups[k].made && w.state.groups[k].answers.Keys <= groups[k].answers.Keys;
    forall i, id | 0 <= i < |v.adds| && id in v.adds[i].ids
      ensures v.adds[i].at <= v.clock
      ensures SentInTime(c, v.sends, v.adds[i].at, id) || Waiting(c, groups, v.adds[i].at, id)
    {
      if i == |w.adds| {
        assert id in groups[last].answers && groups[last].made <= clock;
      } else {
        assert v.adds[i] == w.adds[i];
        if Waiting(c, w.state.groups, w.adds[i].at, id) {
          var k :| 0 <= k < |w.state.groups| && id in w.state.groups[k].answers
                   && w.state.groups[k].made <= w.adds[i].at;
          assert id in groups[k].answers;
        }
      }
    }
  }

  lemma {:induction false} MergeHas(groups: seq<Group>, k: nat, id: Ident)
    requires k < |groups| && id in groups[k].answers
    ensures id in Merge(groups)
  {
    if k < |groups| - 1 {
      MergeHas(groups[..|groups| - 1], k, id);
    }
  }

  lemma FireOrderly(c: Config, s: State, clock: Millis)
    requires c.Ok() && Orderly(c, s, clock) && s.timers != []
    ensures var now := s.timers[0]; Orderly(c, Fired(s, now).0, now)
  {
    var now := s.timers[0];
    if !HoldsBack(s, now) {
      var n := Ripe(s.groups, now);
      var after := Fired(s, now).0;
      assert s.timers[1..] == [];
      OrderlyRest(c, s, clock, now, n, after);
    }
  }

  /** The groups behind the first `n` stay in order, with the timer for the first of them. */
  lemma OrderlyRest(c: Config, s: State, clock: Millis, now: Millis, n: nat, after: State)
    requires Orderly(c, s, clock) && clock <= now && n <= |s.groups| == n + |after.groups|
    requires n < |s.groups| ==> s.groups[n].sendAfter > now
    requires forall k :: 0 <= k < |after.groups| ==>
               after.groups[k] == s.groups[n + k].(answers := after.groups[k].answers)
    requires after.timers == if after.groups == [] then [] else [after.groups[0].sendAfter]
    ensures Orderly(c, after, now)
  {
  }

  lemma FireKept(c: Config, w: World)
    requires c.Ok() && Good(c, w) && Legal(w, FireEvent)
    ensures Kept(c, Next(c, w, FireEvent))
  {
    var s, now, v := w.state, w.state.timers[0], Next(c, w, FireEvent);
    if !HoldsBack(s, now) {
      var n := Ripe(s.groups, now);
      var answers := Merge(s.groups[..n]);
      forall i, id | 0 <= i < |v.adds| && id in v.adds[i].ids
        ensures v.adds[i].at <= v.clock
        ensures SentInTime(c, v.sends, v.adds[i].at, id) || Waiting(c, v.state.groups, v.adds[i].at, id)
      {
        StillKept(c, w, i, id, n, answers);
      }
    }
  }

  /** An answer that was due in time is sent now, was sent, or goes on waiting. */
  lemma StillKept(c: Config, w: World, i: nat, id: Ident, n: nat, answers: Answers)
    requires c.Ok() && Good(c, w) && Legal(w, FireEvent) && !HoldsBack(w.state, w.state.timers[0])
    requires n == Ripe(w.state.groups, w.state.timers[0]) && answers == Merge(w.state.groups[..n])
    requires i < |w.adds| && id in w.adds[i].ids
    ensures var v := Next(c, w, FireEvent); var at := w.adds[i].at;
            at <= v.clock && (SentInTime(c, v.sends, at, id) || Waiting(c, v.state.groups, at, id))
  {
    hide Next, Fired, Ripe, Merge, HoldsBack;
    var s, now, v, at := w.state, w.state.timers[0], Next(c, w, FireEvent), w.adds[i].at;
    FireSends(c, w, n, answers);
    if SentInTime(c, w.sends, at, id) {
      var j :| 0 <= j < |w.sends| && id in w.sends[j].ids && at <= w.sends[j].at <= at + c.Window();
      assert v.sends[j] == w.sends[j];
    } else {
      var k :| 0 <= k < |s.groups| && id in s.groups[k].answers && s.groups[k].made <= at;
      if k < n {
        MergeHas(s.groups[..n], k, id);
      }
      if id in answers {
        var j := |w.sends|;
        assert s.groups[0].made <= s.groups[k].made;
        assert v.sends[j] == Note(now, answers.Keys);
      } else {
        var g := v.state.groups[k - n];
        assert g == s.groups[k].(answers := s.groups[k].answers - answers.Keys);
        assert id in g.answers;
      }
    }
  }

  /** What a firing that does not hold back does. */
  lemma FireSends(c: Config, w: World, n: nat, answers: Answers)
    requires w.state.timers != [] && !HoldsBack(w.state, w.state.timers[0])
    requires n == Ripe(w.state.groups, w.state.timers[0]) && answers == Merge(w.state.groups[..n])
    ensures var v, groups := Next(c, w, FireEvent), w.state.groups;
            && v.clock == w.state.timers[0] && v.adds == w.adds && n <= |groups|
            && v.sends == (if answers == map[] then w.sends else w.sends + [Note(v.clock, answers.Keys)])
            && |v.state.groups| == |groups| - n
            && forall k :: 0 <= k < |groups| - n ==>
                 v.state.groups[k] == groups[n + k].(answers := groups[n + k].answers - answers.Keys)
  {
  }

  /** The world after a run that starts with an empty queue. */
  function After(c: Config, start: Millis, events: seq<Event>): World {
    if events == [] then World(EMPTY, start, [], [])
    else
      var before, e := After(c, start, events[..|events| - 1]), events[|events| - 1];
      if Legal(before, e) then Next(c, before, e) else before
  }

  ghost predicate LegalRun(c: Config, start: Millis, events: seq<Event>) {
    events != [] ==>
      var front := events[..|events| - 1];
      LegalRun(c, start, front) && Legal(After(c, start, front), events[|events| - 1])
  }

  /** Over every run: the groups stay sorted, exactly one timer is pending while the queue is not empty, due between
      the first group's `sendAfter` and the end of the window in which it was made, and no answer is forgotten. */
  lemma {:induction false} RunGood(c: Config, start: Millis, events: seq<Event>)
    requires c.Ok() && LegalRun(c, start, events)
    ensures Good(c, After(c, start, events))
  {
    if events != [] {
      var front, e := events[..|events| - 1], events[|events| - 1];
      RunGood(c, start, front);
      var w := After(c, start, front);
      match e
      case AddEvent(now, clock, random, answers) =>
        assert w.state.timers != [] ==> w.state.timers[0] in w.state.timers;
        AddOrderly(c, w.state, w.clock, now, clock, random, answers);
        AddKept(c, w, now, clock, random, answers);
      case FireEvent =>
        FireOrderly(c, w.state, w.clock);
        FireKept(c, w);
    }
  }

  /** Bounded delay: once the clock has passed the aggregation window of an add, counted from the time of the add, each
      of its answers has been sent, after it was added and before the window closed. */
  lemma DelayBounded(c: Config, start: Millis, events: seq<Event>, i: nat, id: Ident)
    requires c.Ok() && LegalRun(c, start, events)
    requires var w := After(c, start, events);
             i < |w.adds| && id in w.adds[i].ids && w.clock > w.adds[i].at + c.Window()
    ensures var w := After(c, start, events); SentInTime(c, w.sends, w.adds[i].at, id)
  {
    RunGood(c, start, events);
  }

  /** A firing either holds back until the first group must leave, or sends at least that group: every group it sends
      leaves no earlier than its `sendAfter`, no later than its `sendBefore` and the lag it was made with, and what was
      sent waits in no other group. */
  lemma FireInTime(c: Config, start: Millis, events: seq<Event>)
    requires c.Ok() && LegalRun(c, start, events + [FireEvent])
    ensures (events + [FireEvent])[..|events|] == events
    ensures var s := After(c, start, events).state; var now := s.timers[0]; var (after, sent) := Fired(s, now);
            if HoldsBack(s, now) then after.timers == [s.groups[0].sendBefore] && after.groups == s.groups
            else
              && 1 <= Ripe(s.groups, now) == |s.groups| - |after.groups|
              && (forall k :: 0 <= k < Ripe(s.groups, now) ==>
                    s.groups[k].sendAfter <= now <= s.groups[k].sendBefore + Lag(c, s.groups[k]))
              && (forall k, id :: 0 <= k < |after.groups| && id in after.groups[k].answers ==> id !in sent)
  {
    assert (events + [FireEvent])[..|events|] == events;
    RunGood(c, start, events);
    var s := After(c, start, events).state;
    assert Legal(After(c, start, events), FireEvent);
  }

  /** All additions so far were made at the time of the clock. */
  ghost predicate Prompt(events: seq<Event>) {
    forall e :: e in events && e.AddEvent? ==> e.now == e.clock
  }

  ghost predicate NoLag(c: Config, s: State) {
    forall k :: 0 <= k < |s.groups| ==> Lag(c, s.groups[k]) == 0.0
  }

  /** Then no group has any lag, so none leaves after its `sendBefore`. */
  lemma {:induction false} PromptRun(c: Config, start: Millis, events: seq<Event>)
    requires LegalRun(c, start, events) && Prompt(events)
    ensures NoLag(c, After(c, start, events).state)
  {
    if events != [] {
      var front, e := events[..|events| - 1], events[|events| - 1];
      assert e in events;
      PromptRun(c, start, front);
      PromptStep(c, After(c, start, front), e);
    }
  }

  lemma PromptStep(c: Config, w: World, e: Event)
    requires Legal(w, e) && (e.AddEvent? ==> e.now == e.clock)
    requires NoLag(c, w.state)
    ensures NoLag(c, Next(c, w, e).state)
  {
    hide Merge, Ripe;
  }

  // ---------- which groups may leave late ----------

  /** The run ends right before a firing that sends the answer in a group made with this lag, after the group's
      `sendBefore`. */
  ghost predicate LateIn(c: Config, start: Millis, events: seq<Event>, lag: Millis, id: Ident) {
    && LegalRun(c, start, events)
    && var s := After(c, start, events).state;
       && s.timers != [] && !HoldsBack(s, s.timers[0])
       && exists k :: 0 <= k < Ripe(s.groups, s.timers[0]) && id in s.groups[k].answers
                      && Lag(c, s.groups[k]) == lag && s.groups[k].sendBefore < s.timers[0]
  }

  /** A group that was made when its query arrived never leaves late; for every positive lag, however small, and every
      answer, some run sends the answer late in a group made with that lag. */
  lemma LateExactly(c: Config, lag: Millis, id: Ident)
    requires c.Ok()
    ensures (exists start, events :: LateIn(c, start, events, lag, id)) <==> lag > 0.0
  {
    forall start, events | LateIn(c, start, events, lag, id)
      ensures lag > 0.0
    {
      RunGood(c, start, events);
      FireInTime(c, start, events);
    }
    if lag > 0.0 {
      var events := LateRun(c, lag, id);
      assert LateIn(c, 0.0, events, lag, id);
    }
  }

  /** The queue after two additions at time 0, the second one for an older query that drew a longer delay. */
  function TwoGroups(c: Config, lag: Millis, d: Millis, answers: Answers): State {
    State([Group(d - lag + RANDOM_MIN + c.additional, d - lag + c.Window(), answers, 0.0),
           Group(-lag + RANDOM_MAX + c.additional, -lag + c.Window(), answers, 0.0)],
          [RANDOM_MIN + c.additional])
  }

  lemma TwoAdditions(c: Config, lag: Millis, d: Millis, answers: Answers) returns (events: seq<Event>)
    requires c.Ok() && 0.0 < d <= lag && d <= 50.0
    ensures LegalRun(c, 0.0, events) && After(c, 0.0, events).state == TwoGroups(c, lag, d, answers)
    ensures After(c, 0.0, events).clock == 0.0
  {
    var first, second := AddEvent(d - lag, 0.0, RANDOM_MIN, answers), AddEvent(-lag, 0.0, RANDOM_MAX, answers);
    events := [first, second];
    assert events[..1] == [first] && [first][..0] == [];
    assert LegalRun(c, 0.0, []) && LegalRun(c, 0.0, [first]);
  }

  /** A firing that holds back moves the timer to when the first group must leave. */
  lemma HeldBack(c: Config, events: seq<Event>)
    requires LegalRun(c, 0.0, events)
    requires var s := After(c, 0.0, events).state; |s.timers| == 1 && HoldsBack(s, s.timers[0])
    ensures LegalRun(c, 0.0, events + [FireEvent])
    ensures var s := After(c, 0.0, events).state;
            After(c, 0.0, events + [FireEvent]).state == State(s.groups, [s.groups[0].sendBefore])
  {
    hide Ripe, Merge, Without;
    var all := events + [FireEvent];
    assert all[..|events|] == events;
    assert After(c, 0.0, events).state.timers[1..] == [];
  }

  lemma LateRun(c: Config, lag: Millis, id: Ident) returns (events: seq<Event>)
    requires c.Ok() && lag > 0.0
    ensures LateIn(c, 0.0, events, lag, id)
  {
    hide After, LegalRun, Merge, Without, Fired;
    var d := if lag < 50.0 then lag else 50.0;
    var answers: Answers := map[id := {}];
    events := TwoAdditions(c, lag, d, answers);
    var s := TwoGroups(c, lag, d, answers);
    if HoldsBack(s, s.timers[0]) {
      var front := events;
      events := front + [FireEvent];
      HeldBack(c, front);
    }
    var t := After(c, 0.0, events).state;
    assert t.groups == s.groups && t.groups[1].sendBefore < t.timers[0];
    assert Lag(c, t.groups[1]) == lag && Ripe(t.groups, t.timers[0]) == 2;
  }
}
