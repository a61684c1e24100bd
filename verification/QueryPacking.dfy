/** Known-answer packing: PTR questions with their known answers, first fit by decreasing size estimate. */
module QueryPacking {
  import opened Records
  import opened WireWriter
  import opened Packets
  import opened Outgoing

  const MAX_BUCKET := MAX_MSG_TYPICAL - HEADER_LEN
  const FLAGS_QR_QUERY := 0

  /** A question with its known answers, in the order the set of answers is iterated. */
  datatype Query = Query(question: Question, answers: seq<Record>) {
    /** All known answers to a PTR question are pointers. */
    ghost predicate Pointers() {
      forall a :: a in answers ==> a.rdata.Pointer?
    }

    /** The estimate of the source: question plus compressed answers. */
    function Estimate(): int
      requires Pointers()
    {
      question.MaxSize() + SumCompressed(answers)
    }
  }

  type PtrQuery = q: Query | q.Pointers() witness Query(Question([], TYPE_PTR, 1, false), [])

  type Load = seq<PtrQuery>

  function SumCompressed(answers: seq<Record>): int
    requires forall a :: a in answers ==> a.rdata.Pointer?
  {
    if answers == [] then 0
    else SumCompressed(answers[..|answers| - 1]) + answers[|answers| - 1].MaxSizeCompressed()
  }

  function Total(load: Load): int {
    if load == [] then 0 else Total(load[..|load| - 1]) + load[|load| - 1].Estimate()
  }

  // ---------- sorting and first fit, as functions ----------

  function Insert(q: PtrQuery, sorted: Load): Load {
    if sorted == [] || sorted[0].Estimate() <= q.Estimate() then [q] + sorted
    else [sorted[0]] + Insert(q, sorted[1..])
  }

  /** `sorted(…, key=query_by_size.get, reverse=True)`: equal sizes keep their order. */
  function SortDescending(queries: Load): Load {
    if queries == [] then [] else Insert(queries[0], SortDescending(queries[1..]))
  }

  /** The query joins the first bucket it fits into, or opens a new one. */
  function Place(buckets: seq<Load>, q: PtrQuery): seq<Load> {
    if buckets == [] then [[q]]
    else if Total(buckets[0]) + q.Estimate() <= MAX_BUCKET then [buckets[0] + [q]] + buckets[1..]
    else [buckets[0]] + Place(buckets[1..], q)
  }

  function FirstFit(buckets: seq<Load>, queries: Load): seq<Load>
    decreases |queries|
  {
    if queries == [] then buckets else FirstFit(Place(buckets, queries[0]), queries[1..])
  }

  function Grouped(queries: Load): seq<Load> {
    FirstFit([], SortDescending(queries))
  }

  // ---------- what the packing promises ----------

  function Flatten(buckets: seq<Load>): Load {
    if buckets == [] then [] else buckets[0] + Flatten(buckets[1..])
  }

  lemma {:induction false} InsertKeeps(q: PtrQuery, sorted: Load)
    ensures multiset(Insert(q, sorted)) == multiset(sorted) + multiset{q}
  {
    if sorted != [] && sorted[0].Estimate() > q.Estimate() {
      InsertKeeps(q, sorted[1..]);
      assert sorted == [sorted[0]] + sorted[1..];
    }
  }

  ghost predicate Descending(queries: Load) {
    forall i, j :: 0 <= i < j < |queries| ==> queries[i].Estimate() >= queries[j].Estimate()
  }

  lemma {:induction false} InsertDescending(q: PtrQuery, sorted: Load)
    requires Descending(sorted)
    ensures Descending(Insert(q, sorted))
  {
    hide PtrQuery.Estimate;
    if sorted != [] && sorted[0].Estimate() > q.Estimate() {
      InsertDescending(q, sorted[1..]);
      InsertKeeps(q, sorted[1..]);
      var rest := Insert(q, sorted[1..]);
      forall j | 0 <= j < |rest|
        ensures rest[j].Estimate() <= sorted[0].Estimate()
      {
        assert rest[j] in multiset(rest);
        assert rest[j] == q || rest[j] in sorted[1..];
      }
    }
  }

  /** Sorting: the same queries, largest estimate first. */
  lemma {:induction false} SortedWell(queries: Load)
    ensures Descending(SortDescending(queries))
    ensures multiset(SortDescending(queries)) == multiset(queries)
  {
    hide PtrQuery.Estimate;
    if queries != [] {
      SortedWell(queries[1..]);
      InsertDescending(queries[0], SortDescending(queries[1..]));
      InsertKeeps(queries[0], SortDescending(queries[1..]));
      assert queries == [queries[0]] + queries[1..];
    }
  }

  /** The queries with this estimate, in order. */
  function OfSize(queries: Load, n: int): Load {
    if queries == [] then []
    else (if queries[0].Estimate() == n then [queries[0]] else []) + OfSize(queries[1..], n)
  }

  lemma OfSizeCons(q: PtrQuery, rest: Load, n: int)
    ensures OfSize([q] + rest, n) == (if q.Estimate() == n then [q] else []) + OfSize(rest, n)
  {
    assert ([q] + rest)[1..] == rest;
  }

  lemma {:induction false} InsertOfSize(q: PtrQuery, sorted: Load, n: int)
    ensures OfSize(Insert(q, sorted), n) == (if q.Estimate() == n then [q] else []) + OfSize(sorted, n)
  {
    hide PtrQuery.Estimate, OfSize;
    if sorted == [] || sorted[0].Estimate() <= q.Estimate() {
      OfSizeCons(q, sorted, n);
    } else {
      InsertOfSize(q, sorted[1..], n);
      OfSizeCons(sorted[0], Insert(q, sorted[1..]), n);
      assert [sorted[0]] + sorted[1..] == sorted;
      OfSizeCons(sorted[0], sorted[1..], n);
    }
  }

  /** Sorting keeps the order of queries with the same estimate. */
  lemma {:induction false} SortStable(queries: Load, n: int)
    ensures OfSize(SortDescending(queries), n) == OfSize(queries, n)
  {
    hide PtrQuery.Estimate;
    if queries != [] {
      SortStable(queries[1..], n);
      InsertOfSize(queries[0], SortDescending(queries[1..]), n);
    }
  }

  /** The estimate: the question with its name and 5 bytes, and each known answer with what its alias has more than its
      name and 14 bytes. */
  lemma EstimateIs(q: Question, answers: seq<Record>, a: Record)
    requires a.rdata.Pointer? && forall b :: b in answers ==> b.rdata.Pointer?
    ensures Query(q, []).Pointers() && Query(q, []).Estimate() == |q.name| + 5
    ensures Query(q, answers).Pointers() && Query(q, answers + [a]).Pointers()
    ensures Query(q, answers + [a]).Estimate() == Query(q, answers).Estimate() + 14 + |a.rdata.alias| - |a.name|
  {
    assert (answers + [a])[..|answers|] == answers;
  }

  lemma {:induction false} PlaceKeeps(buckets: seq<Load>, q: PtrQuery)
    ensures multiset(Flatten(Place(buckets, q))) == multiset(Flatten(buckets)) + multiset{q}
  {
    if buckets == [] {
      assert Flatten([[q]]) == [q] + Flatten([]);
    } else if Total(buckets[0]) + q.Estimate() > MAX_BUCKET {
      PlaceKeeps(buckets[1..], q);
      assert ([buckets[0]] + Place(buckets[1..], q))[1..] == Place(buckets[1..], q);
    } else {
      assert ([buckets[0] + [q]] + buckets[1..])[1..] == buckets[1..];
    }
  }

  lemma {:induction false} FirstFitKeeps(buckets: seq<Load>, queries: Load)
    ensures multiset(Flatten(FirstFit(buckets, queries))) == multiset(Flatten(buckets)) + multiset(queries)
    decreases |queries|
  {
    hide Place, Flatten;
    if queries != [] {
      PlaceKeeps(buckets, queries[0]);
      FirstFitKeeps(Place(buckets, queries[0]), queries[1..]);
      assert queries == [queries[0]] + queries[1..];
    }
  }

  /** Every question lands, with all its known answers, in exactly one bucket. */
  lemma GroupedPartitions(queries: Load)
    ensures multiset(Flatten(Grouped(queries))) == multiset(queries)
  {
    SortedWell(queries);
    FirstFitKeeps([], SortDescending(queries));
  }

  /** Where a query goes: bucket `k`, the first with room, or a new one. */
  lemma {:induction false} PlaceWhere(buckets: seq<Load>, q: PtrQuery) returns (k: nat)
    ensures k <= |buckets|
    ensures forall i :: 0 <= i < k ==> Total(buckets[i]) + q.Estimate() > 1448
    ensures k < |buckets| ==> Total(buckets[k]) + q.Estimate() <= 1448
    ensures Place(buckets, q) == if k < |buckets| then buckets[k := buckets[k] + [q]] else buckets + [[q]]
  {
    hide PtrQuery.Estimate, Total;
    if buckets == [] || Total(buckets[0]) + q.Estimate() <= MAX_BUCKET {
      k := 0;
    } else {
      var j := PlaceWhere(buckets[1..], q);
      k := j + 1;
    }
  }

  /** No bucket is empty, and only a bucket with a single question exceeds the limit. */
  ghost predicate Whole(buckets: seq<Load>) {
    forall b :: b in buckets ==> b != [] && (Total(b) > MAX_BUCKET ==> |b| == 1)
  }

  /** What opened a bucket had no room in any earlier one. */
  ghost predicate Tight(buckets: seq<Load>) {
    forall i, j :: 0 <= i < j < |buckets| && buckets[j] != [] ==>
      Total(buckets[i]) + buckets[j][0].Estimate() > MAX_BUCKET
  }

  lemma TotalSnoc(load: Load, q: PtrQuery)
    ensures Total(load + [q]) == Total(load) + q.Estimate()
  {
    assert (load + [q])[..|load|] == load;
  }

  lemma PlaceWhole(buckets: seq<Load>, q: PtrQuery)
    requires Whole(buckets)
    ensures Whole(Place(buckets, q))
  {
    var k := PlaceWhere(buckets, q);
    if k < |buckets| {
      TotalSnoc(buckets[k], q);
    }
  }

  lemma PlaceTight(buckets: seq<Load>, q: PtrQuery)
    requires Whole(buckets) && Tight(buckets) && q.Estimate() >= 0
    ensures Tight(Place(buckets, q))
  {
    hide Place, Total, PtrQuery.Estimate;
    var k := PlaceWhere(buckets, q);
    if k < |buckets| {
      TotalSnoc(buckets[k], q);
      var after := buckets[k := buckets[k] + [q]];
      assert after[k][0] == buckets[k][0];
    }
  }

  lemma {:induction false} FirstFitWhole(buckets: seq<Load>, queries: Load)
    requires Whole(buckets)
    ensures Whole(FirstFit(buckets, queries))
    decreases |queries|
  {
    if queries != [] {
      PlaceWhole(buckets, queries[0]);
      FirstFitWhole(Place(buckets, queries[0]), queries[1..]);
    }
  }

  lemma {:induction false} FirstFitTight(buckets: seq<Load>, queries: Load)
    requires Whole(buckets) && Tight(buckets) && NonNegative(queries)
    ensures Tight(FirstFit(buckets, queries))
    decreases |queries|
  {
    if queries != [] {
      PlaceWhole(buckets, queries[0]);
      PlaceTight(buckets, queries[0]);
      FirstFitTight(Place(buckets, queries[0]), queries[1..]);
    }
  }

  /** A bucket above 1448 bytes holds a single question, and none is empty. */
  lemma GroupedWhole(queries: Load)
    ensures forall b :: b in Grouped(queries) ==> b != [] && (Total(b) > MAX_BUCKET ==> |b| == 1)
  {
    FirstFitWhole([], SortDescending(queries));
  }

  ghost predicate NonNegative(queries: Load) {
    forall q :: q in queries ==> q.Estimate() >= 0
  }

  lemma {:induction false} TotalAtLeastFirst(load: Load)
    requires load != [] && NonNegative(load)
    ensures Total(load) >= load[0].Estimate()
  {
    if |load| > 1 {
      assert load[..|load| - 1][0] == load[0];
      TotalAtLeastFirst(load[..|load| - 1]);
    } else {
      assert load[..0] == [];
    }
  }

  lemma {:induction false} BucketInFlatten(buckets: seq<Load>, k: nat)
    requires k < |buckets|
    ensures forall q :: q in buckets[k] ==> q in Flatten(buckets)
  {
    if k > 0 {
      BucketInFlatten(buckets[1..], k - 1);
    }
  }

  /** With non-negative estimates any two buckets together exceed 1448 bytes. */
  lemma GroupedTight(queries: Load, i: nat, j: nat)
    requires NonNegative(queries) && i < j < |Grouped(queries)|
    ensures Total(Grouped(queries)[i]) + Total(Grouped(queries)[j]) > MAX_BUCKET
  {
    var sorted, buckets := SortDescending(queries), Grouped(queries);
    SortedWell(queries);
    forall q: PtrQuery | q in sorted
      ensures q.Estimate() >= 0
    {
      assert q in multiset(sorted);
    }
    FirstFitTight([], sorted);
    FirstFitWhole([], sorted);
    GroupedPartitions(queries);
    BucketInFlatten(buckets, j);
    forall q: PtrQuery | q in buckets[j]
      ensures q.Estimate() >= 0
    {
      assert q in multiset(Flatten(buckets));
    }
    assert buckets[j] in buckets;
    TotalAtLeastFirst(buckets[j]);
  }

  function Loads(buckets: seq<Load>): int {
    if buckets == [] then 0 else Total(buckets[0]) + Loads(buckets[1..])
  }

  lemma HalfStep(n: nat)
    ensures (n + 2) / 2 * MAX_BUCKET == n / 2 * MAX_BUCKET + MAX_BUCKET
  {
    assert (n + 2) / 2 == n / 2 + 1;
  }

  lemma {:induction false} PairsFill(buckets: seq<Load>)
    requires forall i, j :: 0 <= i < j < |buckets| ==> Total(buckets[i]) + Total(buckets[j]) > MAX_BUCKET
    requires forall b :: b in buckets ==> Total(b) >= 0
    ensures Loads(buckets) >= |buckets| / 2 * MAX_BUCKET
    ensures |buckets| >= 2 ==> Loads(buckets) > |buckets| / 2 * MAX_BUCKET
  {
    hide Total;
    if |buckets| == 1 {
      assert buckets[0] in buckets && buckets[1..] == [];
    } else if |buckets| >= 2 {
      var rest := buckets[2..];
      assert buckets[1..][1..] == rest;
      assert forall i :: 0 <= i < |rest| ==> rest[i] == buckets[i + 2];
      PairsFill(rest);
      assert Loads(buckets) == Total(buckets[0]) + (Total(buckets[1]) + Loads(rest));
      HalfStep(|rest|);
    }
  }

  lemma {:induction false} TotalNonNegative(load: Load)
    requires NonNegative(load)
    ensures Total(load) >= 0
  {
    if load != [] {
      TotalNonNegative(load[..|load| - 1]);
    }
  }

  /** How good first fit is: `k` buckets hold more than `k / 2` full ones. */
  lemma GroupedFull(queries: Load)
    requires NonNegative(queries) && |Grouped(queries)| >= 2
    ensures Loads(Grouped(queries)) > |Grouped(queries)| / 2 * MAX_BUCKET
  {
    var buckets := Grouped(queries);
    forall i, j | 0 <= i < j < |buckets|
      ensures Total(buckets[i]) + Total(buckets[j]) > MAX_BUCKET
    {
      GroupedTight(queries, i, j);
    }
    GroupedPartitions(queries);
    forall k | 0 <= k < |buckets|
      ensures Total(buckets[k]) >= 0
    {
      BucketInFlatten(buckets, k);
      forall q: PtrQuery | q in buckets[k]
        ensures q.Estimate() >= 0
      {
        assert q in multiset(Flatten(buckets));
      }
      TotalNonNegative(buckets[k]);
    }
    PairsFill(buckets);
  }

  // ---------- the grouping itself, on outgoing messages ----------

  function QuestionsOf(load: Load): seq<Question> {
    seq(|load|, i requires 0 <= i < |load| => load[i].question)
  }

  /** The answers `add_answer_at_time` accepts. */
  function Live(answers: seq<Record>, now: Millis): seq<(Record, Millis)> {
    if answers == [] then []
    else
      var front, last := Live(answers[..|answers| - 1], now), answers[|answers| - 1];
      if now == 0.0 || now < last.Expiry() then front + [(last, now)] else front
  }

  function KnownAnswers(load: Load, now: Millis): seq<(Record, Millis)> {
    if load == [] then []
    else KnownAnswers(load[..|load| - 1], now) + Live(load[|load| - 1].answers, now)
  }

  lemma LiveNone(now: Millis)
    ensures Live([], now) == []
  {
  }

  lemma LiveSnoc(answers: seq<Record>, i: nat, now: Millis, known: seq<(Record, Millis)>)
    requires i < |answers|
    ensures known + Live(answers[..i + 1], now)
         == known + Live(answers[..i], now)
            + if now == 0.0 || now < answers[i].Expiry() then [(answers[i], now)] else []
  {
    assert answers[..i + 1][..i] == answers[..i];
  }

  lemma LoadSnoc(load: Load, query: PtrQuery, now: Millis)
    ensures Total(load + [query]) == Total(load) + query.Estimate()
    ensures QuestionsOf(load + [query]) == QuestionsOf(load) + [query.question]
    ensures KnownAnswers(load + [query], now) == KnownAnswers(load, now) + Live(query.answers, now)
  {
    assert (load + [query])[..|load|] == load;
  }

  // ---------- the order within and between buckets ----------

  /** In every bucket the queries come in decreasing order of their estimates, and so do the first ones of the
      buckets. */
  ghost predicate Ordered(buckets: seq<Load>) {
    && (forall b :: b in buckets ==> b != [] && Descending(b))
    && forall i, j :: 0 <= i < j < |buckets| && buckets[i] != [] && buckets[j] != [] ==>
         buckets[i][0].Estimate() >= buckets[j][0].Estimate()
  }

  ghost predicate AtLeast(buckets: seq<Load>, n: int) {
    forall b, q :: b in buckets && q in b ==> q.Estimate() >= n
  }

  lemma LessAsWell(buckets: seq<Load>, n: int, m: int)
    requires AtLeast(buckets, n) && m <= n
    ensures AtLeast(buckets, m)
  {
    hide PtrQuery.Estimate;
  }

  lemma PlaceOrdered(buckets: seq<Load>, q: PtrQuery)
    requires Ordered(buckets) && AtLeast(buckets, q.Estimate())
    ensures Ordered(Place(buckets, q)) && AtLeast(Place(buckets, q), q.Estimate())
  {
    hide PtrQuery.Estimate, Place, Total, Ordered, AtLeast;
    var k := PlaceWhere(buckets, q);
    if k < |buckets| {
      JoinOrdered(buckets, k, q);
    } else {
      OpenOrdered(buckets, q);
    }
  }

  lemma JoinOrdered(buckets: seq<Load>, k: nat, q: PtrQuery)
    requires Ordered(buckets) && AtLeast(buckets, q.Estimate()) && k < |buckets|
    ensures var after := buckets[k := buckets[k] + [q]]; Ordered(after) && AtLeast(after, q.Estimate())
  {
    hide PtrQuery.Estimate;
    var was, b := buckets[k], buckets[k] + [q];
    var after := buckets[k := b];
    assert was in buckets && was != [] && b[0] == was[0];
    forall i, j | 0 <= i < j < |b|
      ensures b[i].Estimate() >= b[j].Estimate()
    {
      assert b[i] in was;
    }
    forall x | x in after
      ensures x != [] && Descending(x) && forall r :: r in x ==> r.Estimate() >= q.Estimate()
    {
      assert x == b || x in buckets;
      assert forall r :: r in b ==> r in was || r == q;
    }
    forall i | 0 <= i < |after|
      ensures after[i] != [] && after[i][0] == buckets[i][0]
    {
      assert buckets[i] in buckets;
    }
  }

  lemma OpenOrdered(buckets: seq<Load>, q: PtrQuery)
    requires Ordered(buckets) && AtLeast(buckets, q.Estimate())
    ensures Ordered(buckets + [[q]]) && AtLeast(buckets + [[q]], q.Estimate())
  {
    hide PtrQuery.Estimate;
    var after := buckets + [[q]];
    forall x | x in after
      ensures x != [] && Descending(x) && forall r :: r in x ==> r.Estimate() >= q.Estimate()
    {
      assert x == [q] || x in buckets;
    }
    forall i | 0 <= i < |buckets|
      ensures after[i] == buckets[i] != [] && after[i][0].Estimate() >= q.Estimate()
    {
      assert buckets[i] in buckets && buckets[i][0] in buckets[i];
    }
  }

  lemma {:induction false} FirstFitOrdered(buckets: seq<Load>, queries: Load)
    requires Ordered(buckets) && Descending(queries)
    requires queries != [] ==> AtLeast(buckets, queries[0].Estimate())
    ensures Ordered(FirstFit(buckets, queries))
    decreases |queries|
  {
    hide PtrQuery.Estimate, Place, Ordered;
    if queries != [] {
      PlaceOrdered(buckets, queries[0]);
      if |queries| > 1 {
        assert queries[1].Estimate() <= queries[0].Estimate();
        LessAsWell(Place(buckets, queries[0]), queries[0].Estimate(), queries[1].Estimate());
      }
      FirstFitOrdered(Place(buckets, queries[0]), queries[1..]);
    }
  }

  /** So the largest queries are placed first. */
  lemma GroupedOrdered(queries: Load)
    ensures Ordered(Grouped(queries))
  {
    SortedWell(queries);
    FirstFitOrdered([], SortDescending(queries));
  }

  /** The message a bucket stands for. */
  function Message(load: Load, now: Millis): (r: seq<seq<Item>>)
    ensures |r| == 4
  {
    [QuestionItems(QuestionsOf(load)), AnswerItems(KnownAnswers(load, now)), [], []]
  }

  function QuerySettings(multicast: bool): Settings {
    Settings(FLAGS_QR_QUERY, multicast, 0)
  }

  /** `_DNSPointerOutgoingBucket` */
  class Bucket {
    const now: Millis
    const out: DNSOutgoing
    var bytes: int
    ghost var load: Load

    ghost predicate Valid()
      reads this, out
    {
      && out.Valid() && !out.finished
      && bytes == Total(load)
      && out.questions == QuestionsOf(load) && out.answers == KnownAnswers(load, now)
      && out.authorities == [] && out.additionals == []
    }

    constructor (now: Millis, multicast: bool)
      ensures Valid() && load == [] && this.now == now && out.settings == QuerySettings(multicast)
      ensures fresh(out)
    {
      this.now := now;
      this.out := new DNSOutgoing(QuerySettings(multicast));
      this.bytes := 0;
      this.load := [];
    }

    /** `add` */
    method Add(maxCompressedSize: int, query: PtrQuery)
      requires Valid() && maxCompressedSize == query.Estimate()
      modifies this, out
      ensures Valid() && load == old(load) + [query]
    {
      hide Total, QuestionsOf, KnownAnswers, Live, DNSOutgoing.Valid, Query.Estimate, Record.Expiry;
      ghost var known := KnownAnswers(load, now);
      out.AddQuestion(query.question);
      LiveNone(now);
      var i := 0;
      while i < |query.answers|
        modifies out
        invariant 0 <= i <= |query.answers|
        invariant out.Valid() && !out.finished && out.authorities == [] && out.additionals == []
        invariant out.questions == QuestionsOf(load) + [query.question]
        invariant out.answers == known + Live(query.answers[..i], now)
      {
        out.AddAnswerAtTime(query.answers[i], now);
        LiveSnoc(query.answers, i, now, known);
        i := i + 1;
      }
      bytes := bytes + maxCompressedSize;
      assert query.answers[..i] == query.answers;
      LoadSnoc(load, query, now);
      load := load + [query];
    }
  }

  function Frame(buckets: seq<Bucket>): set<object> {
    (set b | b in buckets :: b as object) + (set b | b in buckets :: b.out as object)
  }

  /** The buckets are separate objects holding the loads of `plan`. */
  ghost predicate Holding(buckets: seq<Bucket>, plan: seq<Load>, now: Millis, multicast: bool)
    reads Frame(buckets)
  {
    && |buckets| == |plan|
    && (forall i :: 0 <= i < |buckets| ==>
          buckets[i].Valid() && buckets[i].load == plan[i] && buckets[i].now == now
          && buckets[i].out.settings == QuerySettings(multicast))
    && (forall i, j :: 0 <= i < j < |buckets| ==> buckets[i] != buckets[j] && buckets[i].out != buckets[j].out)
  }

  /** One query more in bucket `k`. */
  method AddTo(buckets: seq<Bucket>, k: nat, query: PtrQuery, now: Millis, multicast: bool, ghost plan: seq<Load>)
    requires Holding(buckets, plan, now, multicast) && k < |buckets|
    modifies buckets[k], buckets[k].out
    ensures Holding(buckets, plan[k := plan[k] + [query]], now, multicast)
  {
    hide Total, QuestionsOf, KnownAnswers;
    buckets[k].Add(query.Estimate(), query);
  }

  /** A bucket of its own for the query. */
  method Open(query: PtrQuery, now: Millis, multicast: bool) returns (bucket: Bucket)
    ensures fresh(bucket) && fresh(bucket.out) && Holding([bucket], [[query]], now, multicast)
  {
    bucket := new Bucket(now, multicast);
    bucket.Add(query.Estimate(), query);
  }

  lemma HoldingOneMore(buckets: seq<Bucket>, bucket: Bucket, plan: seq<Load>, load: Load, now: Millis,
                       multicast: bool)
    requires Holding(buckets, plan, now, multicast) && Holding([bucket], [load], now, multicast)
    requires bucket !in buckets && bucket.out !in Frame(buckets)
    ensures Holding(buckets + [bucket], plan + [load], now, multicast)
  {
    hide Bucket.Valid;
    var all := buckets + [bucket];
    assert [bucket][0] == bucket && [load][0] == load;
    forall i, j | 0 <= i < j < |all|
      ensures all[i] != all[j] && all[i].out != all[j].out
    {
      assert buckets[i] in buckets && buckets[i].out in Frame(buckets);
    }
  }

  /** The inner loop: the first bucket with room, or a new one. */
  method PlaceQuery(buckets: seq<Bucket>, query: PtrQuery, now: Millis, multicast: bool, ghost plan: seq<Load>)
    returns (after: seq<Bucket>)
    requires Holding(buckets, plan, now, multicast)
    modifies Frame(buckets)
    ensures Holding(after, Place(plan, query), now, multicast)
    ensures forall o :: o in Frame(after) ==> o in Frame(buckets) || fresh(o)
  {
    hide Total, QuestionsOf, KnownAnswers, Place;
    ghost var at := PlaceWhere(plan, query);
    var k := 0;
    while k < |buckets|
      invariant 0 <= k <= at
      invariant Holding(buckets, plan, now, multicast)
    {
      assert buckets[k].load == plan[k];
      if buckets[k].bytes + query.Estimate() <= MAX_BUCKET {
        assert buckets[k] in buckets;
        AddTo(buckets, k, query, now, multicast, plan);
        return buckets;
      }
      k := k + 1;
    }
    var bucket := Open(query, now, multicast);
    HoldingOneMore(buckets, bucket, plan, [query], now, multicast);
    return buckets + [bucket];
  }

  /** `_group_ptr_queries_with_known_answers`: one message per bucket of the plan. */
  method Group(now: Millis, multicast: bool, queries: Load) returns (outs: seq<DNSOutgoing>)
    ensures |outs| == |Grouped(queries)|
    ensures forall i :: 0 <= i < |outs| ==>
              && fresh(outs[i]) && outs[i].Valid() && !outs[i].finished
              && outs[i].settings == Settings(0, multicast, 0)
              && outs[i].questions == QuestionsOf(Grouped(queries)[i])
              && outs[i].answers == KnownAnswers(Grouped(queries)[i], now)
              && outs[i].authorities == [] && outs[i].additionals == []
              && outs[i].Sections() == Message(Grouped(queries)[i], now)
    ensures forall i, j :: 0 <= i < j < |outs| ==> outs[i] != outs[j]
  {
    hide Bucket.Valid, DNSOutgoing.Sections, DNSOutgoing.Valid, Message, SortDescending, Place;
    var sorted := SortDescending(queries);
    var buckets: seq<Bucket> := [];
    ghost var plan: seq<Load> := [];
    var i := 0;
    while i < |sorted|
      invariant 0 <= i <= |sorted|
      invariant Holding(buckets, plan, now, multicast)
      invariant fresh(Frame(buckets))
      invariant FirstFit(plan, sorted[i..]) == Grouped(queries)
    {
      assert sorted[i..][0] == sorted[i] && sorted[i..][1..] == sorted[i + 1..];
      buckets := PlaceQuery(buckets, sorted[i], now, multicast, plan);
      plan := Place(plan, sorted[i]);
      i := i + 1;
    }
    outs := seq(|buckets|, k requires 0 <= k < |buckets| => buckets[k].out);
    OutsOf(buckets, plan, now, multicast, outs);
    assert forall k :: 0 <= k < |outs| ==> outs[k] in Frame(buckets);
  }

  /** The messages of the buckets. */
  lemma OutsOf(buckets: seq<Bucket>, plan: seq<Load>, now: Millis, multicast: bool, outs: seq<DNSOutgoing>)
    requires Holding(buckets, plan, now, multicast)
    requires |outs| == |buckets| && forall k :: 0 <= k < |outs| ==> outs[k] == buckets[k].out
    ensures forall k :: 0 <= k < |outs| ==>
              && outs[k] in Frame(buckets) && outs[k].Valid() && !outs[k].finished
              && outs[k].settings == QuerySettings(multicast) && outs[k].Sections() == Message(plan[k], now)
              && outs[k].questions == QuestionsOf(plan[k]) && outs[k].answers == KnownAnswers(plan[k], now)
              && outs[k].authorities == [] && outs[k].additionals == []
    ensures forall i, j :: 0 <= i < j < |outs| ==> outs[i] != outs[j]
  {
    hide Message, DNSOutgoing.Sections;
    forall k | 0 <= k < |outs|
      ensures outs[k] in Frame(buckets) && outs[k].Valid() && !outs[k].finished
      ensures outs[k].settings == QuerySettings(multicast) && outs[k].Sections() == Message(plan[k], now)
      ensures outs[k].questions == QuestionsOf(plan[k]) && outs[k].answers == KnownAnswers(plan[k], now)
      ensures outs[k].authorities == [] && outs[k].additionals == []
    {
      assert buckets[k] in buckets && buckets[k].Valid();
      OutOf(buckets[k]);
    }
  }

  lemma OutOf(bucket: Bucket)
    requires bucket.Valid()
    ensures bucket.out.Valid() && !bucket.out.finished
    ensures bucket.out.Sections() == Message(bucket.load, bucket.now)
    ensures bucket.out.questions == QuestionsOf(bucket.load)
    ensures bucket.out.answers == KnownAnswers(bucket.load, bucket.now)
    ensures bucket.out.authorities == [] && bucket.out.additionals == []
  {
    hide QuestionsOf, KnownAnswers, Total;
    assert RecordItems([]) == [];
  }
}
