/** `MulticastOutgoingQueue`: groups of answers updated in place. */
module MulticastQueue {
  import opened Results
  import opened Records
  import opened MulticastState

  class AnswerGroup {
    const sendAfter: Millis
    const sendBefore: Millis
    var answers: Answers
    /** The time of the clock when the group was made. */
    ghost const made: Millis

    constructor (sendAfter: Millis, sendBefore: Millis, answers: Answers, ghost made: Millis)
      ensures this.sendAfter == sendAfter && this.sendBefore == sendBefore && this.answers == answers
      ensures this.made == made
    {
      this.sendAfter, this.sendBefore, this.answers, this.made := sendAfter, sendBefore, answers, made;
    }

    ghost function View(): Group
      reads this
    {
      Group(sendAfter, sendBefore, answers, made)
    }
  }

  ghost function Views(queue: seq<AnswerGroup>): (r: seq<Group>)
    reads queue
    ensures |r| == |queue|
  {
    seq(|queue|, k requires 0 <= k < |queue| reads queue => queue[k].View())
  }

  ghost predicate Separate(queue: seq<AnswerGroup>) {
    forall i, j :: 0 <= i < j < |queue| ==> queue[i] != queue[j]
  }

  class MulticastOutgoingQueue {
    const config: Config
    var queue: seq<AnswerGroup>
    /** Due times of the pending calls to `async_ready`. */
    var timers: seq<Millis>

    ghost predicate Valid()
      reads this
    {
      Separate(queue)
    }

    ghost function View(): State
      reads this, queue
    {
      State(Views(queue), timers)
    }

    constructor (additionalDelay: Millis, maxAggregationDelay: Millis)
      ensures Valid() && View() == EMPTY && config == Config(maxAggregationDelay, additionalDelay)
    {
      config := Config(maxAggregationDelay, additionalDelay);
      queue, timers := [], [];
    }

    /** `async_add` at loop time `clock`, with the random part of the delay drawn by the caller */
    method AsyncAdd(now: Millis, clock: Millis, random: Millis, answers: Answers)
      requires Valid()
      modifies this, queue
      ensures Valid() && fresh(set g | g in queue && g !in old(queue))
      ensures View() == Added(config, old(View()), now, clock, random, answers)
      ensures var delay, was, n := random + config.additional, old(queue), old(|queue|);
              if n > 0 && now + delay <= was[n - 1].sendAfter then
                && queue == was && timers == old(timers)
                && was[n - 1].answers == old(queue[|queue| - 1].answers) + answers
                && forall k :: 0 <= k < n - 1 ==> was[k].answers == old(queue[k].answers)
              else
                && |queue| == n + 1 && queue[..n] == was
                && (forall k :: 0 <= k < n ==> was[k].answers == old(queue[k].answers))
                && queue[n].sendAfter == now + delay && queue[n].answers == answers
                && queue[n].sendBefore == now + config.aggregation + config.additional
                && timers == old(timers) + if n == 0 then [clock + delay] else []
    {
      var randomDelay := random + config.additional;
      var sendAfter := now + randomDelay;
      var sendBefore := now + config.aggregation + config.additional;
      if |queue| > 0 {
        var lastGroup := queue[|queue| - 1];
        if sendAfter <= lastGroup.sendAfter {
          lastGroup.answers := lastGroup.answers + answers;
          return;
        }
      } else {
        timers := timers + [clock + randomDelay];
      }
      var group := new AnswerGroup(sendAfter, sendBefore, answers, clock);
      queue := queue + [group];
    }

    /** `_remove_answers_from_queue` */
    method RemoveAnswersFromQueue(answers: Answers)
      requires Valid()
      modifies queue
      ensures Views(queue) == Without(old(Views(queue)), answers.Keys)
    {
      for i := 0 to |queue|
        invariant forall k :: i <= k < |queue| ==> queue[k].answers == old(queue[k].answers)
        invariant forall k :: 0 <= k < i ==> queue[k].answers == old(queue[k].answers) - answers.Keys
      {
        queue[i].answers := queue[i].answers - answers.Keys;
      }
    }

    /** The loop that takes the groups that can be sent now. */
    method TakeRipe(now: Millis) returns (answers: Answers)
      requires Valid()
      modifies this`queue
      ensures Valid()
      ensures var n := Ripe(old(Views(queue)), now);
              queue == old(queue)[n..] && answers == Merge(old(Views(queue))[..n])
    {
      hide Ripe, Merge;
      answers := map[];
      ghost var n, groups := 0, Views(queue);
      MergeNone(groups);
      while |queue| > 0 && queue[0].sendAfter <= now
        invariant n <= old(|queue|) && queue == old(queue)[n..]
        invariant answers == Merge(groups[..n])
        invariant Ripe(groups, now) == n + Ripe(groups[n..], now)
        decreases |queue|
      {
        assert queue[0] == old(queue)[n] && groups[n] == queue[0].View();
        RipeStep(groups, n, now);
        answers := answers + queue[0].answers;
        queue := queue[1..];
        n := n + 1;
      }
      RipeEnd(groups, n, now);
    }

    /** `async_ready`, called by the first pending timer; what it sends, if anything */
    method AsyncReady(now: Millis) returns (sent: Option<Answers>)
      requires Valid() && timers != [] && timers[0] == now
      modifies this, queue
      ensures Valid() && (forall g :: g in queue ==> g in old(queue))
      ensures var (state, answers) := Fired(old(View()), now);
              View() == state && sent == if answers == map[] then None else Some(answers)
    {
      hide Ripe, Merge, Without;
      ghost var before := Views(queue);
      ghost var n := Ripe(before, now);
      timers := timers[1..];
      if |queue| > 1 && queue[0].sendBefore > now {
        timers := timers + [now + (queue[0].sendBefore - now)];
        return None;
      }
      var answers := TakeRipe(now);
      assert Views(queue) == before[n..];
      assert forall g :: g in queue ==> g in old(queue);
      if |queue| > 0 {
        timers := timers + [now + (queue[0].sendAfter - now)];
      }
      if answers == map[] {
        RemovingNothing(Views(queue));
        assert answers.Keys == {};
        return None;
      }
      RemoveAnswersFromQueue(answers);
      return Some(answers);
    }
  }

  lemma RemovingNothing(groups: seq<Group>)
    ensures Without(groups, {}) == groups
  {
    assert forall k :: 0 <= k < |groups| ==> groups[k].answers - {} == groups[k].answers;
  }

  lemma MergeNone(groups: seq<Group>)
    ensures Merge(groups[..0]) == map[] && groups[0..] == groups
  {
  }

  lemma RipeStep(groups: seq<Group>, n: nat, now: Millis)
    requires n < |groups| && groups[n].sendAfter <= now
    ensures Ripe(groups[n..], now) == 1 + Ripe(groups[n + 1..], now)
    ensures Merge(groups[..n + 1]) == Merge(groups[..n]) + groups[n].answers
  {
    assert groups[n..][1..] == groups[n + 1..] && groups[..n + 1][..n] == groups[..n];
  }

  lemma RipeEnd(groups: seq<Group>, n: nat, now: Millis)
    requires n <= |groups| && (n < |groups| ==> groups[n].sendAfter > now)
    ensures Ripe(groups[n..], now) == 0
  {
  }
}
