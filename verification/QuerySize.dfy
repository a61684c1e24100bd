/** Why a bucket of at most 1448 estimated bytes becomes exactly one packet of at most 1460. */
module QuerySize {
  import opened Results
  import opened Bytes
  import opened Names
  import opened Records
  import opened WireWriter
  import opened Packets
  import opened Outgoing
  import opened QueryPacking

  // ---------- how many bytes a name takes ----------

  /** A name the writer accepts, closed by a dot. */
  predicate Writable(name: Name) {
    && name != [] && name[|name| - 1] == DOT
    && forall l :: l in Split(Strip(name)) ==> |l| <= 64
  }

  lemma {:induction false} NameOutSucceeds(size: nat, names: Table, labels: seq<Label>)
    requires forall l :: l in labels ==> |l| <= 64
    requires Below(names, size) && size + LabelBytes(labels) < 0x1_0000
    ensures NameOut(size, names, labels).Success?
    decreases |labels|
  {
    if labels != [] {
      var part := Join(labels);
      if !(part in names && names[part] != 0) {
        assert labels[0] in labels;
        NameOutSucceeds(size + 1 + |labels[0]|, names[part := size], labels[1..]);
      }
    }
  }

  lemma {:induction false} SplitAtDot(a: Name, b: Name)
    ensures Split(a + [DOT] + b) == Split(a) + Split(b)
  {
    var all := a + [DOT] + b;
    if a == [] {
      assert all[1..] == b;
    } else {
      SplitAtDot(a[1..], b);
      assert all[1..] == a[1..] + [DOT] + b;
      SplitTwice(a[0], Split(a[1..]), Split(b), Split(all[1..]));
    }
  }

  lemma SplitTwice(c: byte, front: seq<Label>, back: seq<Label>, both: seq<Label>)
    requires front != [] && both == front + back
    ensures [[c] + both[0]] + both[1..] == [[c] + front[0]] + front[1..] + back
    ensures [[]] + both == [[]] + front + back
  {
    assert both[1..] == front[1..] + back;
  }

  /** Writing a name enters it into the table. */
  lemma NameKnown(size: nat, names: Table, labels: seq<Label>)
    requires labels != [] && Positive(names) && size >= HEADER_LEN && NameOut(size, names, labels).Success?
    ensures Join(labels) in NameOut(size, names, labels).value.names
  {
    NameOutExtends(size, names, labels);
    if Join(labels) !in names {
      NameOutExtends(size + 1 + |labels[0]|, names[Join(labels) := size], labels[1..]);
    }
  }

  /** A name ending in a known suffix takes at most its other labels and a link. */
  lemma {:induction false} SuffixSize(size: nat, names: Table, front: seq<Label>, back: seq<Label>)
    requires Positive(names) && Below(names, size) && size >= HEADER_LEN && back != [] && Join(back) in names
    requires size + LabelBytes(front) < 0x1_0000 && forall l :: l in front ==> |l| <= 64
    ensures var out := NameOut(size, names, front + back);
            out.Success? && |out.value.bytes| <= LabelBytes(front) + 2
    decreases |front|
  {
    var labels := front + back;
    if front == [] {
      assert labels == back;
    } else if Join(labels) !in names {
      assert labels[1..] == front[1..] + back;
      SuffixSize(size + 1 + |labels[0]|, names[Join(labels) := size], front[1..], back);
    }
  }

  lemma DottedBytes(name: Name)
    requires name != [] && name[|name| - 1] == DOT
    ensures LabelBytes(Split(Strip(name))) == |name|
  {
    JoinSplit(Strip(name));
    JoinLength(Split(Strip(name)));
  }

  /** An alias "prefix.name" with `name` known: a link, and the prefix with its length bytes. */
  lemma AliasSize(size: nat, names: Table, prefix: Name, name: Name)
    requires Positive(names) && Below(names, size) && HEADER_LEN <= size
    requires Writable(name) && Writable(prefix + [DOT] + name) && Strip(name) in names
    requires size + |prefix| + 1 < 0x1_0000
    ensures var out := NameTextOut(size, names, prefix + [DOT] + name);
            out.Success? && |out.value.bytes| <= |prefix| + 3
  {
    var alias := prefix + [DOT] + name;
    assert Strip(alias) == prefix + [DOT] + Strip(name);
    SplitAtDot(prefix, Strip(name));
    JoinSplit(Strip(name));
    JoinSplit(prefix);
    JoinLength(Split(prefix));
    SuffixSize(size, names, Split(prefix), Split(Strip(name)));
  }

  /** The question's estimate covers its name spelled out. */
  lemma AskSize(size: nat, names: Table, multicast: bool, q: Question)
    requires Positive(names) && Below(names, size) && HEADER_LEN <= size && Writable(q.name)
    requires size + |q.name| < 0x1_0000
    ensures var out := ItemOut(size, names, multicast, Ask(q));
            out.Success? && |out.value.bytes| <= q.MaxSize() && Strip(q.name) in out.value.names
  {
    var labels := Split(Strip(q.name));
    DottedBytes(q.name);
    NameOutSucceeds(size, names, labels);
    NameOutSize(size, names, labels);
    NameKnown(size, names, labels);
    JoinSplit(Strip(q.name));
  }

  lemma {:induction false} FreshNameSize(size: nat, names: Table, labels: seq<Label>)
    requires labels != [] && (forall l :: l in labels ==> |l| <= 64)
    requires forall n :: n in names ==> |n| > |Join(labels)|
    ensures var out := NameOut(size, names, labels); out.Success? && |out.value.bytes| == LabelBytes(labels) + 1
    decreases |labels|
  {
    assert labels[0] in labels && Join(labels) !in names;
    var next, more := size + 1 + |labels[0]|, names[Join(labels) := size];
    if |labels| > 1 {
      FreshNameSize(next, more, labels[1..]);
    } else {
      assert NameOut(next, more, labels[1..]) == Success(Out([0], more));
    }
  }

  lemma AskBytes(multicast: bool, q: Question, name: Out)
    requires NameTextOut(HEADER_LEN, map[], q.name) == Success(name)
    ensures var out := ItemOut(HEADER_LEN, map[], multicast, Ask(q));
            out.Success? && |out.value.bytes| == |name.bytes| + 4
  {
  }

  /** In a new packet the estimate of a question covers what is written exactly when its name ends in a dot;
      otherwise it is one byte short. */
  lemma QuestionEstimateExact(multicast: bool, q: Question)
    requires forall l :: l in Split(Strip(q.name)) ==> |l| <= 64
    ensures var out := ItemOut(HEADER_LEN, map[], multicast, Ask(q));
            && out.Success?
            && (|out.value.bytes| <= q.MaxSize() <==> q.name != [] && q.name[|q.name| - 1] == DOT)
            && |out.value.bytes| <= q.MaxSize() + 1
  {
    hide NameOut, Split, ItemOut;
    var labels := Split(Strip(q.name));
    FreshNameSize(HEADER_LEN, map[], labels);
    JoinSplit(Strip(q.name));
    JoinLength(labels);
    AskBytes(multicast, q, NameTextOut(HEADER_LEN, map[], q.name).value);
  }

  // ---------- one item, a list of items, a message ----------

  /** A packet within the typical size. */
  ghost predicate Ready(d: Draft) {
    Positive(d.names) && Below(d.names, d.Size()) && d.Size() <= MAX_MSG_TYPICAL
  }

  /** What the estimate of the source says about one item. */
  function EstimateOf(item: Item): int {
    match item
    case Ask(q) => q.MaxSize()
    case Tell(rec, _) => if rec.rdata.Pointer? then rec.MaxSizeCompressed() else 0
  }

  function Estimate(items: seq<Item>): int {
    if items == [] then 0 else EstimateOf(items[0]) + Estimate(items[1..])
  }

  /** A known answer the estimate is meant for: its owner is a question's name, its alias an instance of it. */
  ghost predicate Instance(rec: Record, now: Millis) {
    && rec.rdata.Pointer? && Writable(rec.name) && Writable(rec.rdata.alias)
    && rec.WireTtl(now) < 0x1_0000_0000
    && exists prefix :: rec.rdata.alias == prefix + [DOT] + rec.name
  }

  ghost predicate Fine(item: Item, names: Table) {
    match item
    case Ask(q) => Writable(q.name)
    case Tell(rec, now) => Instance(rec, now) && Strip(rec.name) in names
  }

  ghost predicate Keeps(names: Table, more: Table) {
    forall n :: n in names ==> n in more
  }

  lemma TellSize(size: nat, names: Table, multicast: bool, rec: Record, now: Millis)
    requires Positive(names) && Below(names, size) && HEADER_LEN <= size
    requires Instance(rec, now) && Strip(rec.name) in names
    requires size + rec.MaxSizeCompressed() <= MAX_MSG_TYPICAL
    ensures var out := ItemOut(size, names, multicast, Tell(rec, now));
            out.Success? && |out.value.bytes| <= rec.MaxSizeCompressed()
  {
    var prefix :| rec.rdata.alias == prefix + [DOT] + rec.name;
    JoinSplit(Strip(rec.name));
    var link := LinkOut(names[Strip(rec.name)]).value;
    assert NameTextOut(size, names, rec.name) == Success(Out(link, names));
    var at := size + 2 + 10;
    AliasSize(at, names, prefix, rec.name);
    TellOutIs(size, at, names, multicast, rec, now, Out(link, names));
    assert |RecordHead(multicast, rec, now)| == 8;
  }

  /** The estimate is exact for an alias of one new label. */
  lemma TellExact(size: nat, names: Table, multicast: bool, rec: Record, now: Millis, part: Label)
    requires Positive(names) && Below(names, size) && HEADER_LEN <= size
    requires Instance(rec, now) && Strip(rec.name) in names && size + rec.MaxSizeCompressed() <= MAX_MSG_TYPICAL
    requires DOT !in part && rec.rdata.alias == part + [DOT] + rec.name && Strip(rec.rdata.alias) !in names
    ensures var out := ItemOut(size, names, multicast, Tell(rec, now));
            && out.Success?
            && |out.value.bytes| == rec.MaxSizeCompressed() == 14 + |rec.rdata.alias| - |rec.name|
  {
    var known := Strip(rec.name);
    JoinSplit(known);
    var link := LinkOut(names[known]).value;
    assert NameTextOut(size, names, rec.name) == Success(Out(link, names));
    var at := size + 2 + 10;
    AliasExact(at, names, part, rec.name);
    TellOutIs(size, at, names, multicast, rec, now, Out(link, names));
    assert |RecordHead(multicast, rec, now)| == 8;
  }

  lemma AliasExact(size: nat, names: Table, part: Label, name: Name)
    requires Positive(names) && Below(names, size) && Writable(name) && Writable(part + [DOT] + name)
    requires DOT !in part && Strip(name) in names && Strip(part + [DOT] + name) !in names && size < 0x1_0000
    ensures var out := NameTextOut(size, names, part + [DOT] + name);
            out.Success? && |out.value.bytes| == |part| + 3
  {
    hide NameOut, Strip;
    var alias := part + [DOT] + name;
    var all := AliasLabels(part, name);
    assert part in Split(Strip(alias));
    JoinSplit(Strip(name));
    JoinSplit(Strip(alias));
    OneNewLabel(size, names, all);
  }

  lemma AliasLabels(part: Label, name: Name) returns (all: seq<Label>)
    requires DOT !in part && name != [] && name[|name| - 1] == DOT
    ensures all == Split(Strip(part + [DOT] + name)) && all == [part] + Split(Strip(name))
  {
    assert Strip(part + [DOT] + name) == part + [DOT] + Strip(name);
    SplitPrefix(part, Strip(name));
    all := [part] + Split(Strip(name));
  }

  lemma OneNewLabel(size: nat, names: Table, all: seq<Label>)
    requires Positive(names) && Below(names, size) && size < 0x1_0000 && |all| > 1 && |all[0]| <= 64
    requires Join(all) !in names && Join(all[1..]) in names
    ensures var out := NameOut(size, names, all); out.Success? && |out.value.bytes| == |all[0]| + 3
  {
    var next, more := size + 1 + |all[0]|, names[Join(all) := size];
    assert NameOut(next, more, all[1..]) == Success(Out(LinkOut(names[Join(all[1..])]).value, more));
  }

  lemma TryWriteFits(d: Draft, multicast: bool, item: Item, out: Out)
    requires ItemOut(d.Size(), d.names, multicast, item) == Success(out)
    requires d.Size() + |out.bytes| <= MAX_MSG_TYPICAL
    ensures TryWrite(d, multicast, item) == Success((Draft(d.body + out.bytes, out.names, false), true))
  {
  }

  /** An item within the budget is written, and takes no more than its estimate. */
  lemma ItemStep(d: Draft, multicast: bool, item: Item) returns (next: Draft)
    requires Ready(d) && Fine(item, d.names) && d.Size() + EstimateOf(item) <= MAX_MSG_TYPICAL
    ensures TryWrite(d, multicast, item) == Success((next, true))
    ensures Ready(next) && d.Size() < next.Size() <= d.Size() + EstimateOf(item) && Keeps(d.names, next.names)
    ensures item.Ask? ==> Strip(item.question.name) in next.names
  {
    hide Writable;
    var size := d.Size();
    match item {
      case Ask(q) => AskSize(size, d.names, multicast, q);
      case Tell(rec, now) =>
        TellSize(size, d.names, multicast, rec, now);
    }
    var out := ItemOut(size, d.names, multicast, item).value;
    ItemOutExtends(size, d.names, multicast, item);
    ItemOutBelow(size, d.names, multicast, item);
    TryWriteFits(d, multicast, item, out);
    next := Draft(d.body + out.bytes, out.names, false);
  }

  ghost predicate AllFine(items: seq<Item>, names: Table) {
    forall item :: item in items ==> Fine(item, names)
  }

  ghost predicate Asked(items: seq<Item>, names: Table) {
    forall item :: item in items && item.Ask? ==> Strip(item.question.name) in names
  }

  ghost predicate Filled(d: Draft, items: seq<Item>, next: Draft) {
    && Ready(next) && Keeps(d.names, next.names) && Asked(items, next.names)
    && d.Size() + |items| <= next.Size() <= d.Size() + Estimate(items)
  }

  lemma FilledCons(d: Draft, items: seq<Item>, first: Draft, next: Draft)
    requires items != [] && Filled(first, items[1..], next) && Keeps(d.names, first.names)
    requires items[0].Ask? ==> Strip(items[0].question.name) in first.names
    requires d.Size() < first.Size() <= d.Size() + EstimateOf(items[0])
    ensures Filled(d, items, next)
  {
    assert items == [items[0]] + items[1..];
  }

  lemma FirstFine(items: seq<Item>, names: Table, more: Table)
    requires items != [] && AllFine(items, names) && Keeps(names, more)
    ensures Fine(items[0], more) && AllFine(items[1..], more)
  {
    hide Instance, Writable;
    assert items[0] in items && forall item :: item in items[1..] ==> item in items;
  }

  lemma {:induction false} FineCosts(items: seq<Item>, names: Table)
    requires AllFine(items, names)
    ensures Estimate(items) >= |items|
  {
    if items != [] {
      KeepsSelf(names);
      FirstFine(items, names, names);
      FineCosts(items[1..], names);
    }
  }

  lemma NothingFits(d: Draft, multicast: bool)
    requires Ready(d)
    ensures WriteSection(d, multicast, []) == Success((d, 0)) && Filled(d, [], d)
  {
  }

  lemma EstimateCons(items: seq<Item>)
    requires items != []
    ensures Estimate(items) == EstimateOf(items[0]) + Estimate(items[1..])
  {
  }

  lemma KeepsSelf(names: Table)
    ensures Keeps(names, names)
  {
  }

  lemma KeepsOn(names: Table, more: Table, most: Table)
    requires Keeps(names, more) && Keeps(more, most)
    ensures Keeps(names, most)
  {
  }

  /** A section within the budget is written whole. */
  lemma {:induction false} SectionFits(d: Draft, multicast: bool, items: seq<Item>, names: Table)
    returns (next: Draft)
    requires Ready(d) && AllFine(items, names) && Keeps(names, d.names)
    requires d.Size() + Estimate(items) <= MAX_MSG_TYPICAL
    ensures WriteSection(d, multicast, items) == Success((next, |items|)) && Filled(d, items, next)
    decreases |items|
  {
    hide *;
    if items == [] {
      next := d;
      NothingFits(d, multicast);
    } else {
      FirstFine(items, names, d.names);
      KeepsSelf(names);
      FirstFine(items, names, names);
      FineCosts(items[1..], d.names);
      EstimateCons(items);
      var first := ItemStep(d, multicast, items[0]);
      KeepsOn(names, d.names, first.names);
      next := SectionFits(first, multicast, items[1..], names);
      FilledCons(d, items, first, next);
      SectionCons(d, first, next, |items| - 1, multicast, items);
    }
  }

  // ---------- a bucket ----------

  /** What a bucket must hold for its estimate to be a bound. */
  ghost predicate Good(load: Load, now: Millis) {
    forall q :: q in load ==> GoodQuery(q, now)
  }

  ghost predicate GoodQuery(q: PtrQuery, now: Millis) {
    Writable(q.question.name) && forall a :: a in q.answers ==> a.name == q.question.name && Instance(a, now)
  }

  lemma {:induction false} EstimateConcat(a: seq<Item>, b: seq<Item>)
    ensures Estimate(a + b) == Estimate(a) + Estimate(b)
  {
    if a == [] {
      assert a + b == b;
    } else {
      assert (a + b)[1..] == a[1..] + b;
      EstimateConcat(a[1..], b);
    }
  }

  lemma EstimateOne(item: Item)
    ensures Estimate([item]) == EstimateOf(item)
  {
    assert [item][1..] == [];
  }

  /** Instances cost what the estimate says, and that is never negative. */
  lemma InstanceCost(rec: Record, now: Millis)
    requires Instance(rec, now)
    ensures rec.rdata.Pointer? && Estimate([Tell(rec, now)]) == rec.MaxSizeCompressed() > 0
  {
    EstimateOne(Tell(rec, now));
  }

  lemma AnswersSnoc(front: seq<(Record, Millis)>, more: seq<(Record, Millis)>)
    ensures Estimate(AnswerItems(front + more)) == Estimate(AnswerItems(front)) + Estimate(AnswerItems(more))
  {
    assert AnswerItems(front + more) == AnswerItems(front) + AnswerItems(more);
    EstimateConcat(AnswerItems(front), AnswerItems(more));
  }

  lemma QuestionsSnoc(front: seq<Question>, q: Question)
    ensures Estimate(QuestionItems(front + [q])) == Estimate(QuestionItems(front)) + q.MaxSize()
  {
    assert QuestionItems(front + [q]) == QuestionItems(front) + [Ask(q)];
    EstimateConcat(QuestionItems(front), [Ask(q)]);
    EstimateOne(Ask(q));
  }

  lemma {:induction false} LiveEstimate(answers: seq<Record>, now: Millis)
    requires forall a :: a in answers ==> a.rdata.Pointer? && Instance(a, now)
    ensures 0 <= Estimate(AnswerItems(Live(answers, now))) <= SumCompressed(answers)
    ensures forall a :: a in Live(answers, now) ==> a.0 in answers && a.1 == now
  {
    hide Instance, Estimate, AnswerItems, Record.MaxSizeCompressed, Record.Expiry;
    if answers == [] {
      EstimateNone();
    } else {
      var front, last := answers[..|answers| - 1], answers[|answers| - 1];
      assert last in answers;
      LiveEstimate(front, now);
      InstanceCost(last, now);
      AnswersSnoc(Live(front, now), [(last, now)]);
      OneAnswer(last, now);
    }
  }

  lemma EstimateNone()
    ensures Estimate(AnswerItems([])) == 0 && Estimate(QuestionItems([])) == 0
  {
  }

  lemma OneAnswer(rec: Record, now: Millis)
    ensures AnswerItems([(rec, now)]) == [Tell(rec, now)]
  {
  }

  lemma {:induction false} MessageEstimate(load: Load, now: Millis)
    requires Good(load, now)
    ensures Estimate(QuestionItems(QuestionsOf(load))) + Estimate(AnswerItems(KnownAnswers(load, now))) <= Total(load)
    ensures Estimate(AnswerItems(KnownAnswers(load, now))) >= 0
  {
    hide Instance, Writable, Estimate, QuestionItems, AnswerItems, Live;
    if load == [] {
      EstimateNone();
    } else {
      var front, last := load[..|load| - 1], load[|load| - 1];
      assert last in load && GoodQuery(last, now);
      MessageEstimate(front, now);
      LiveEstimate(last.answers, now);
      assert QuestionsOf(load) == QuestionsOf(front) + [last.question];
      QuestionsSnoc(QuestionsOf(front), last.question);
      AnswersSnoc(KnownAnswers(front, now), Live(last.answers, now));
    }
  }

  /** Whose answers they are. */
  lemma {:induction false} KnownFrom(load: Load, now: Millis, a: (Record, Millis)) returns (q: PtrQuery)
    requires Good(load, now) && a in KnownAnswers(load, now)
    ensures q in load && a.1 == now && Instance(a.0, now) && a.0.name == q.question.name
  {
    hide Instance, Writable, Live;
    var front, last := load[..|load| - 1], load[|load| - 1];
    if a in Live(last.answers, now) {
      assert last in load && GoodQuery(last, now);
      LiveEstimate(last.answers, now);
      q := last;
    } else {
      q := KnownFrom(front, now, a);
    }
  }

  lemma QuestionsFine(load: Load, now: Millis)
    requires Good(load, now)
    ensures AllFine(QuestionItems(QuestionsOf(load)), map[])
  {
    hide Instance, Writable;
    forall item | item in QuestionItems(QuestionsOf(load))
      ensures Fine(item, map[])
    {
      var i :| 0 <= i < |load| && item == Ask(load[i].question);
      assert GoodQuery(load[i], now);
    }
  }

  lemma AnswersFine(load: Load, now: Millis, names: Table)
    requires Good(load, now) && Asked(QuestionItems(QuestionsOf(load)), names)
    ensures AllFine(AnswerItems(KnownAnswers(load, now)), names)
  {
    hide Instance, Writable, Live;
    var known, asked := KnownAnswers(load, now), QuestionItems(QuestionsOf(load));
    forall item | item in AnswerItems(known)
      ensures Fine(item, names)
    {
      var i :| 0 <= i < |known| && item == Tell(known[i].0, known[i].1);
      var q := KnownFrom(load, now, known[i]);
      var j :| 0 <= j < |load| && load[j] == q;
      assert asked[j] == Ask(q.question);
    }
  }

  lemma SectionNone(d: Draft, multicast: bool)
    ensures WriteSection(d, multicast, []) == Success((d, 0))
  {
  }

  lemma TwoSections(load: Load, now: Millis, multicast: bool, asks: seq<Item>, tells: seq<Item>)
    returns (first: Draft, next: Draft)
    requires load != [] && Good(load, now) && Total(load) <= MAX_BUCKET
    requires asks == QuestionItems(QuestionsOf(load)) && tells == AnswerItems(KnownAnswers(load, now))
    ensures WriteSection(EMPTY_DRAFT, multicast, asks) == Success((first, |asks|))
    ensures WriteSection(first, multicast, tells) == Success((next, |tells|))
    ensures HEADER_LEN < next.Size() <= HEADER_LEN + Total(load)
  {
    hide Estimate, Instance, Writable, KnownAnswers, Total, Fine;
    MessageEstimate(load, now);
    QuestionsFine(load, now);
    FineCosts(asks, map[]);
    assert Ready(EMPTY_DRAFT) && EMPTY_DRAFT.Size() == HEADER_LEN;
    first := SectionFits(EMPTY_DRAFT, multicast, asks, map[]);
    AnswersFine(load, now, first.names);
    next := SectionFits(first, multicast, tells, first.names);
  }

  /** Soundness of the packing plan: a bucket of at most 1448 estimated bytes, whose known answers are instances of
      its questions' types, becomes exactly one packet, of at most 1460 bytes and never above 12 bytes plus the
      estimate, and the packet takes everything the bucket holds. */
  lemma BucketFits(load: Load, now: Millis, multicast: bool)
    requires load != [] && Good(load, now) && Total(load) <= MAX_BUCKET
    ensures var packets := PacketsOf(QuerySettings(multicast), Message(load, now));
            && packets.Success? && |packets.value| == 1
            && |packets.value[0]| <= 12 + Total(load) <= 1460
    ensures var filled := Fill(EMPTY_DRAFT, multicast, Message(load, now));
            filled.Success? && filled.value.1 == [|load|, |KnownAnswers(load, now)|, 0, 0]
  {
    hide WriteSection, KnownAnswers, Total;
    var asks, tells := QuestionItems(QuestionsOf(load)), AnswerItems(KnownAnswers(load, now));
    var first, d := TwoSections(load, now, multicast, asks, tells);
    SectionNone(d, multicast);
    FillStages(EMPTY_DRAFT, multicast, asks, tells, [], []);
    OnlyPacket(QuerySettings(multicast), Message(load, now), d, [|asks|, |tells|, 0, 0]);
  }

  /** The whole plan: every bucket with more than one question becomes one packet of at most 1460 bytes. */
  lemma GroupedFits(queries: Load, now: Millis, multicast: bool, k: nat)
    requires Good(queries, now) && k < |Grouped(queries)|
    ensures var packets := PacketsOf(QuerySettings(multicast), Message(Grouped(queries)[k], now));
            |Grouped(queries)[k]| > 1 ==>
              packets.Success? && |packets.value| == 1 && |packets.value[0]| <= 1460
  {
    hide Writable, Instance, PacketsOf, Message, Grouped, Flatten;
    var buckets := Grouped(queries);
    GroupedWhole(queries);
    assert buckets[k] in buckets;
    if |buckets[k]| > 1 {
      GroupedPartitions(queries);
      BucketInFlatten(buckets, k);
      forall q | q in buckets[k]
        ensures GoodQuery(q, now)
      {
        assert q in multiset(Flatten(buckets));
      }
      BucketFits(buckets[k], now, multicast);
    }
  }
}
