/** The wire round trip: reading every packet of a message and splitting it by its header counts gives back the
    four sections that were queued. */
module WireRoundTrip {
  import opened Results
  import opened Bytes
  import opened Records
  import opened WireWriter
  import opened WireReader
  import opened WireMeaning
  import opened ItemRoundTrip
  import opened Packets
  import opened DraftMeaning
  import opened Chains

  // ---------- what the reader is expected to see ----------

  function ExpectedQuestions(multicast: bool, items: seq<Item>): seq<Question> {
    if items == [] then []
    else if items[0].Ask? then
      [ReceivedQuestion(multicast, items[0].question)] + ExpectedQuestions(multicast, items[1..])
    else ExpectedQuestions(multicast, items[1..])
  }

  /** Where and when a packet is read. */
  datatype Arrival = Arrival(now: Millis, scope: Option<int>)

  function ExpectedRecords(multicast: bool, items: seq<Item>, at: Arrival): seq<Record> {
    if items == [] then []
    else if items[0].Tell? then
      [ReceivedRecord(multicast, items[0].record, items[0].now, at.now, at.scope)]
      + ExpectedRecords(multicast, items[1..], at)
    else ExpectedRecords(multicast, items[1..], at)
  }

  ghost predicate AllAsk(items: seq<Item>) {
    forall item :: item in items ==> item.Ask? && WfItem(item)
  }

  ghost predicate AllTell(items: seq<Item>) {
    forall item :: item in items ==> item.Tell? && WfItem(item)
  }

  // ---------- reading a run of encoded items ----------

  lemma EncodedQuestion(p: seq<byte>, i: nat, m: nat, multicast: bool, item: Item)
    requires item.Ask? && WfItem(item) && Encoded(p, multicast)(i, m, item)
    ensures ReadQuestion(p, i) == Success((ReceivedQuestion(multicast, item.question), m))
  {
    var k: nat :| ItemAt(p, i, k, m, multicast, item);
    QuestionReads(p, i, k, m, multicast, item.question);
  }

  lemma EncodedRecord(p: seq<byte>, i: nat, m: nat, multicast: bool, item: Item, at: Arrival)
    requires item.Tell? && WfItem(item) && Encoded(p, multicast)(i, m, item)
    ensures ReadTurn(p, i, at.now, at.scope)
         == Got(ReceivedRecord(multicast, item.record, item.now, at.now, at.scope), m)
  {
    var k: nat :| ItemAt(p, i, k, m, multicast, item);
    RecordReads(p, i, k, k + 10, m, multicast, item.record, item.now, at.now, at.scope);
  }

  lemma {:induction false} AsksRead(at: (nat, nat, Item) -> bool, ask: QuestionReader, i: nat, e: nat,
                                    multicast: bool, items: seq<Item>)
    requires Chain(at, i, e, items) && forall item :: item in items ==> item.Ask?
    requires forall j: nat, m: nat, item :: item in items && at(j, m, item) ==>
      ask(j) == Success((ReceivedQuestion(multicast, item.question), m))
    ensures AskRun(ask, i, |items|) == Questions(ExpectedQuestions(multicast, items), Some(e))
    decreases |items|
  {
    if items != [] {
      var m: nat :| at(i, m, items[0]) && Chain(at, m, e, items[1..]);
      assert items[0] in items;
      AsksRead(at, ask, m, e, multicast, items[1..]);
    }
  }

  lemma QuestionsRead(p: seq<byte>, i: nat, e: nat, multicast: bool, items: seq<Item>)
    requires Chain(Encoded(p, multicast), i, e, items) && AllAsk(items)
    ensures ReadQuestions(p, i, |items|) == Questions(ExpectedQuestions(multicast, items), Some(e))
  {
    forall j: nat, m: nat, item | item in items && Encoded(p, multicast)(j, m, item)
      ensures ReadQuestion(p, j) == Success((ReceivedQuestion(multicast, item.question), m))
    {
      EncodedQuestion(p, j, m, multicast, item);
    }
    AsksRead(Encoded(p, multicast), Asks(p), i, e, multicast, items);
  }

  lemma {:induction false} RunReads(at: (nat, nat, Item) -> bool, turn: nat -> Turn, i: nat, e: nat,
                                    multicast: bool, items: seq<Item>, where: Arrival)
    requires Chain(at, i, e, items) && forall item :: item in items ==> item.Tell?
    requires forall j: nat, m: nat, item :: item in items && at(j, m, item) ==>
      turn(j) == Got(ReceivedRecord(multicast, item.record, item.now, where.now, where.scope), m)
    ensures ReadRun(turn, i, |items|) == RecordList(ExpectedRecords(multicast, items, where), Some(e))
    decreases |items|
  {
    if items != [] {
      var m: nat :| at(i, m, items[0]) && Chain(at, m, e, items[1..]);
      assert items[0] in items;
      RunReads(at, turn, m, e, multicast, items[1..], where);
    }
  }

  lemma RecordsRead(p: seq<byte>, i: nat, e: nat, multicast: bool, items: seq<Item>, at: Arrival)
    requires Chain(Encoded(p, multicast), i, e, items) && AllTell(items)
    ensures ReadOthers(p, i, |items|, at.now, at.scope)
         == RecordList(ExpectedRecords(multicast, items, at), Some(e))
  {
    forall j: nat, m: nat, item | item in items && Encoded(p, multicast)(j, m, item)
      ensures ReadTurn(p, j, at.now, at.scope)
           == Got(ReceivedRecord(multicast, item.record, item.now, at.now, at.scope), m)
    {
      EncodedRecord(p, j, m, multicast, item, at);
    }
    RunReads(Encoded(p, multicast), Turns(p, at.now, at.scope), i, e, multicast, items, at);
  }

  // ---------- one packet ----------

  /** What one packet must be read as. */
  ghost predicate Faithful(s: Settings, c: Chunk, m: Message, at: Arrival) {
    && |c.taken| == 4 && m.valid && m.complete
    && m.id == (if s.multicast then 0 else s.id)
    && m.flags == (if c.more && s.IsQuery() then WithTC(s.flags) else s.flags)
    && m.counts == c.counts
    && m.questions == ExpectedQuestions(s.multicast, c.taken[0])
    && m.records == ExpectedRecords(s.multicast, Tells(c.taken), at)
  }

  lemma HeaderShort(s: Settings, more: bool, counts: seq<nat>, body: seq<byte>, k: nat)
    requires |counts| == 4 && (forall j :: 0 <= j < 4 ==> counts[j] < 0x1_0000) && k < 4
    ensures var p := Header(s, more, counts) + body;
            && HeaderField(p, 0) == (if s.multicast then 0 else s.id)
            && HeaderField(p, 1) == (if more && s.IsQuery() then WithTC(s.flags) else s.flags)
            && HeaderField(p, 2 + k) == counts[k]
  {
    var h := Header(s, more, counts);
    var p := h + body;
    assert p[0] == h[0] && p[1] == h[1] && p[2] == h[2] && p[3] == h[3];
    var i := 4 + 2 * k;
    assert p[i] == h[i] == counts[k] / 0x100 && p[i + 1] == h[i + 1] == counts[k] % 0x100;
  }

  lemma HeaderReads(s: Settings, more: bool, counts: seq<nat>, body: seq<byte>)
    requires |counts| == 4 && forall j :: 0 <= j < 4 ==> counts[j] < 0x1_0000
    ensures var p := Header(s, more, counts) + body;
            && HeaderField(p, 0) == (if s.multicast then 0 else s.id)
            && HeaderField(p, 1) == (if more && s.IsQuery() then WithTC(s.flags) else s.flags)
            && HeaderCounts(p) == counts
  {
    HeaderShort(s, more, counts, body, 0);
    HeaderShort(s, more, counts, body, 1);
    HeaderShort(s, more, counts, body, 2);
    HeaderShort(s, more, counts, body, 3);
    assert counts == [counts[0], counts[1], counts[2], counts[3]];
  }

  lemma MessageReads(p: seq<byte>, counts: seq<nat>, at: Arrival, qs: seq<Question>, m: nat, rs: seq<Record>, e: nat,
                     asks: nat, tells: nat)
    requires |p| >= 12 && counts == HeaderCounts(p) && counts[0] == asks && counts[1] + counts[2] + counts[3] == tells
    requires ReadQuestions(p, 12, asks) == Questions(qs, Some(m))
    requires ReadOthers(p, m, tells, at.now, at.scope) == RecordList(rs, Some(e))
    ensures ReadMessage(p, at.now, at.scope)
         == Message(true, HeaderField(p, 0), HeaderField(p, 1), counts, qs, rs, true)
  {
    hide ReadQuestions, ReadOthers, HeaderField;
  }

  /** `body` encodes `items`, whatever header will be put in front. */
  ghost predicate BodyEncodes(body: seq<byte>, multicast: bool, items: seq<Item>) {
    var d := Draft(body, map[], false);
    Chain(Encoded(Blank(d), multicast), HEADER_LEN, d.Size(), items)
  }

  lemma HeaderInFront(blank: seq<byte>, body: seq<byte>, h: seq<byte>, p: seq<byte>)
    requires |blank| == HEADER_LEN + |body| && blank[HEADER_LEN..] == body && |h| == HEADER_LEN && p == h + body
    ensures |blank| == |p| && Continues(blank, p)
  {
    forall k | HEADER_LEN <= k < |p|
      ensures blank[k] == p[k]
    {
      assert blank[k] == blank[HEADER_LEN..][k - HEADER_LEN];
    }
  }

  lemma BodyAnywhere(body: seq<byte>, h: seq<byte>, p: seq<byte>, e: nat, multicast: bool, items: seq<Item>)
    requires BodyEncodes(body, multicast, items) && |h| == HEADER_LEN && p == h + body && e == |p|
    ensures Chain(Encoded(p, multicast), HEADER_LEN, e, items)
  {
    var d := Draft(body, map[], false);
    var blank := Blank(d);
    HeaderInFront(blank, body, h, p);
    MovedTo(blank, p, e, multicast, items);
  }

  lemma MovedTo(blank: seq<byte>, p: seq<byte>, e: nat, multicast: bool, items: seq<Item>)
    requires Continues(blank, p) && Chain(Encoded(blank, multicast), HEADER_LEN, e, items)
    ensures Chain(Encoded(p, multicast), HEADER_LEN, e, items)
  {
    EncodedStable(blank, p, multicast);
    Transfer(Encoded(blank, multicast), Encoded(p, multicast), HEADER_LEN, e, items);
  }

  lemma BodyReads(p: seq<byte>, e: nat, multicast: bool, asks: seq<Item>, tells: seq<Item>, items: seq<Item>,
                  at: Arrival)
    returns (m: nat, qs: seq<Question>, rs: seq<Record>)
    requires Chain(Encoded(p, multicast), HEADER_LEN, e, items) && items == asks + tells
    requires AllAsk(asks) && AllTell(tells)
    ensures ReadQuestions(p, HEADER_LEN, |asks|) == Questions(qs, Some(m))
    ensures ReadOthers(p, m, |tells|, at.now, at.scope) == RecordList(rs, Some(e))
    ensures qs == ExpectedQuestions(multicast, asks) && rs == ExpectedRecords(multicast, tells, at)
  {
    qs, rs := ExpectedQuestions(multicast, asks), ExpectedRecords(multicast, tells, at);
    m := SplitChain(Encoded(p, multicast), HEADER_LEN, e, asks, tells);
    QuestionsRead(p, HEADER_LEN, m, multicast, asks);
    RecordsRead(p, m, e, multicast, tells, at);
  }

  /** The records of the three record sections, as the reader lists them. */
  function Tells(sections: seq<seq<Item>>): seq<Item>
    requires |sections| == 4
  {
    sections[1] + sections[2] + sections[3]
  }

  ghost predicate ChunkEncodes(multicast: bool, c: Chunk) {
    Queued(c.taken) && BodyEncodes(c.body, multicast, c.taken[0] + Tells(c.taken))
  }

  lemma TellsOk(sections: seq<seq<Item>>)
    requires Queued(sections)
    ensures AllTell(Tells(sections))
    ensures |Tells(sections)| == |sections[1]| + |sections[2]| + |sections[3]|
  {
  }

  lemma PacketMessage(p: seq<byte>, h: seq<byte>, body: seq<byte>, multicast: bool, counts: seq<nat>,
                      asks: seq<Item>, tells: seq<Item>, at: Arrival)
    returns (qs: seq<Question>, rs: seq<Record>)
    requires BodyEncodes(body, multicast, asks + tells) && AllAsk(asks) && AllTell(tells)
    requires |h| == HEADER_LEN && p == h + body && HeaderCounts(p) == counts
    requires counts[0] == |asks| && counts[1] + counts[2] + counts[3] == |tells|
    ensures ReadMessage(p, at.now, at.scope)
         == Message(true, HeaderField(p, 0), HeaderField(p, 1), counts, qs, rs, true)
    ensures qs == ExpectedQuestions(multicast, asks) && rs == ExpectedRecords(multicast, tells, at)
  {
    var items, e := asks + tells, |p|;
    BodyAnywhere(body, h, p, e, multicast, items);
    var m;
    m, qs, rs := BodyReads(p, e, multicast, asks, tells, items, at);
    MessageReads(p, counts, at, qs, m, rs, e, |asks|, |tells|);
  }

  /** A packet whose body encodes its items is read back faithfully. */
  lemma PacketReads(s: Settings, c: Chunk, p: seq<byte>, at: Arrival)
    requires ChunkOk(c) && |c.counts| == 4 && ChunkEncodes(s.multicast, c)
    requires p == Header(s, c.more, c.counts) + c.body
    ensures Faithful(s, c, ReadMessage(p, at.now, at.scope), at)
  {
    var h := Header(s, c.more, c.counts);
    HeaderReads(s, c.more, c.counts, c.body);
    TellsOk(c.taken);
    var qs, rs := PacketMessage(h + c.body, h, c.body, s.multicast, c.counts, c.taken[0], Tells(c.taken), at);
  }

  lemma FlattenFour(sections: seq<seq<Item>>)
    requires |sections| == 4
    ensures Flatten(sections) == sections[0] + Tells(sections)
  {
    assert Flatten(sections[4..]) == [];
    assert sections[1..][1..] == sections[2..] && sections[2..][1..] == sections[3..];
    assert sections[3..][1..] == sections[4..];
    assert Flatten(sections[3..]) == sections[3];
    assert Flatten(sections[2..]) == sections[2] + sections[3];
    assert Flatten(sections[1..]) == sections[1] + (sections[2] + sections[3]);
  }

  // ---------- all packets ----------

  ghost predicate Queued(sections: seq<seq<Item>>) {
    && |sections| == 4 && AllAsk(sections[0])
    && AllTell(sections[1]) && AllTell(sections[2]) && AllTell(sections[3])
  }

  lemma QueuedWf(sections: seq<seq<Item>>)
    requires Queued(sections)
    ensures AllWf(sections)
  {
    forall k, item | 0 <= k < |sections| && item in sections[k]
      ensures WfItem(item)
    {
      assert k == 0 || k == 1 || k == 2 || k == 3;
    }
  }

  lemma QueuedParts(sections: seq<seq<Item>>, counts: seq<nat>)
    requires Queued(sections) && Within(sections, counts)
    ensures Queued(Take(sections, counts)) && Queued(Drop(sections, counts))
  {
    var taken, rest := Take(sections, counts), Drop(sections, counts);
    forall k, item | 0 <= k < 4 && (item in taken[k] || item in rest[k])
      ensures item in sections[k]
    {
      assert taken[k] + rest[k] == sections[k];
      assert item in taken[k] + rest[k];
    }
  }

  /** The first packet of a plan encodes what it took. */
  lemma FirstChunkEncodes(multicast: bool, sections: seq<seq<Item>>) returns (d: Draft, counts: seq<nat>)
    requires Queued(sections)
    ensures Fill(EMPTY_DRAFT, multicast, sections) == Success((d, counts))
    ensures Within(sections, counts) && Queued(Drop(sections, counts)) && Queued(Take(sections, counts))
    ensures BodyEncodes(d.body, multicast, Take(sections, counts)[0] + Tells(Take(sections, counts)))
  {
    QueuedWf(sections);
    var n, items;
    d, counts, n, items := FillMeaning(EMPTY_DRAFT, 0, multicast, sections);
    QueuedParts(sections, counts);
    FlattenFour(Take(sections, counts));
    assert Blank(Draft(d.body, map[], false)) == Blank(d);
  }

  ghost predicate AllEncode(multicast: bool, chunks: seq<Chunk>) {
    forall c :: c in chunks ==> ChunkEncodes(multicast, c)
  }

  lemma AllEncodeCons(multicast: bool, chunk: Chunk, chunks: seq<Chunk>)
    requires ChunkEncodes(multicast, chunk) && AllEncode(multicast, chunks)
    ensures AllEncode(multicast, [chunk] + chunks)
  {
    forall c | c in [chunk] + chunks
      ensures ChunkEncodes(multicast, c)
    {
      assert c == chunk || c in chunks;
    }
  }

  /** Well-formed items never make `packets()` fail, and every packet encodes the items it took. */
  lemma {:induction false} PlanEncodes(multicast: bool, sections: seq<seq<Item>>)
    requires Queued(sections)
    ensures var plan := PlanOf(multicast, sections); plan.Success? && AllEncode(multicast, plan.value.chunks)
    decreases Pending(sections)
  {
    hide PlanOf, Fill, AllEncode;
    var d, counts := FirstChunkEncodes(multicast, sections);
    if d.body != [] && Pending(Drop(sections, counts)) > 0 {
      RestSmaller(multicast, sections, d, counts);
      PlanEncodes(multicast, Drop(sections, counts));
      var tail := PlanOf(multicast, Drop(sections, counts)).value;
      var plan := PlanEncodesStep(multicast, sections, d, counts, tail);
    } else {
      var plan := PlanEncodesLast(multicast, sections, d, counts);
    }
  }

  lemma PlanEncodesLast(multicast: bool, sections: seq<seq<Item>>, d: Draft, counts: seq<nat>) returns (plan: Plan)
    requires Fill(EMPTY_DRAFT, multicast, sections) == Success((d, counts)) && Within(sections, counts)
    requires d.body == [] || Pending(Drop(sections, counts)) == 0
    requires |sections| == 4 && Queued(Take(sections, counts))
    requires BodyEncodes(d.body, multicast, Take(sections, counts)[0] + Tells(Take(sections, counts)))
    ensures PlanOf(multicast, sections) == Success(plan) && AllEncode(multicast, plan.chunks)
  {
    var rest := Drop(sections, counts);
    var chunk := Chunk(d.body, counts, Take(sections, counts), Pending(rest) > 0);
    PlanLast(multicast, sections, d, counts);
    AllEncodeOne(multicast, chunk);
    plan := Plan([chunk], rest);
  }

  lemma AllEncodeOne(multicast: bool, chunk: Chunk)
    requires ChunkEncodes(multicast, chunk)
    ensures AllEncode(multicast, [chunk])
  {
  }

  lemma PlanEncodesStep(multicast: bool, sections: seq<seq<Item>>, d: Draft, counts: seq<nat>, tail: Plan)
    returns (plan: Plan)
    requires Fill(EMPTY_DRAFT, multicast, sections) == Success((d, counts)) && Within(sections, counts)
    requires d.body != [] && Pending(Drop(sections, counts)) > 0
    requires |sections| == 4 && Queued(Take(sections, counts))
    requires BodyEncodes(d.body, multicast, Take(sections, counts)[0] + Tells(Take(sections, counts)))
    requires PlanOf(multicast, Drop(sections, counts)) == Success(tail) && AllEncode(multicast, tail.chunks)
    ensures PlanOf(multicast, sections) == Success(plan) && AllEncode(multicast, plan.chunks)
  {
    var chunk := Chunk(d.body, counts, Take(sections, counts), true);
    PlanCons(multicast, sections, d, counts, tail);
    AllEncodeCons(multicast, chunk, tail.chunks);
    plan := Plan([chunk] + tail.chunks, tail.left);
  }

  // ---------- the theorem ----------

  /** Questions of a list of messages, in order. */
  function AllQuestions(messages: seq<Message>): seq<Question> {
    if messages == [] then [] else messages[0].questions + AllQuestions(messages[1..])
  }

  /** The records of section `k` (1: answers, 2: authorities, 3: additionals), split off by the header counts. */
  function SectionOf(m: Message, k: nat): seq<Record>
    requires 1 <= k <= 3 && |m.counts| == 4
  {
    var from := if k == 1 then 0 else if k == 2 then m.counts[1] else m.counts[1] + m.counts[2];
    Slice(m.records, from, from + m.counts[k])
  }

  function AllRecords(messages: seq<Message>, k: nat): seq<Record>
    requires 1 <= k <= 3 && forall m :: m in messages ==> |m.counts| == 4
  {
    if messages == [] then [] else SectionOf(messages[0], k) + AllRecords(messages[1..], k)
  }

  function ReadAll(packets: seq<seq<byte>>, at: Arrival): (messages: seq<Message>)
    ensures |messages| == |packets|
    ensures forall m :: m in messages ==> |m.counts| == 4
  {
    if packets == [] then []
    else [ReadMessage(packets[0], at.now, at.scope)] + ReadAll(packets[1..], at)
  }

  lemma {:induction false} ExpectedQuestionsConcat(multicast: bool, a: seq<Item>, b: seq<Item>)
    ensures ExpectedQuestions(multicast, a + b) == ExpectedQuestions(multicast, a) + ExpectedQuestions(multicast, b)
  {
    if a == [] {
      assert a + b == b;
    } else {
      assert (a + b)[1..] == a[1..] + b;
      ExpectedQuestionsConcat(multicast, a[1..], b);
    }
  }

  lemma {:induction false} ExpectedRecordsConcat(multicast: bool, a: seq<Item>, b: seq<Item>, at: Arrival)
    ensures ExpectedRecords(multicast, a + b, at)
         == ExpectedRecords(multicast, a, at) + ExpectedRecords(multicast, b, at)
  {
    if a == [] {
      assert a + b == b;
    } else {
      assert (a + b)[1..] == a[1..] + b;
      ExpectedRecordsConcat(multicast, a[1..], b, at);
    }
  }

  lemma {:induction false} ExpectedRecordsLength(multicast: bool, items: seq<Item>, at: Arrival)
    requires forall item :: item in items ==> item.Tell?
    ensures |ExpectedRecords(multicast, items, at)| == |items|
  {
    if items != [] {
      assert items[0] in items;
      ExpectedRecordsLength(multicast, items[1..], at);
    }
  }

  lemma ThreeSlices<T>(a: seq<T>, b: seq<T>, c: seq<T>)
    ensures var all := a + b + c;
            && Slice(all, 0, |a|) == a && Slice(all, |a|, |a| + |b|) == b
            && Slice(all, |a| + |b|, |a| + |b| + |c|) == c
  {
  }

  ghost predicate TellKind(sections: seq<seq<Item>>) {
    |sections| == 4 && forall k :: 1 <= k <= 3 ==> forall item :: item in sections[k] ==> item.Tell?
  }

  lemma TellsRead(mc: bool, sections: seq<seq<Item>>, at: Arrival)
    requires |sections| == 4
    ensures ExpectedRecords(mc, Tells(sections), at)
         == ExpectedRecords(mc, sections[1], at) + ExpectedRecords(mc, sections[2], at)
            + ExpectedRecords(mc, sections[3], at)
  {
    ExpectedRecordsConcat(mc, sections[1] + sections[2], sections[3], at);
    ExpectedRecordsConcat(mc, sections[1], sections[2], at);
  }

  /** Splitting a message by its counts gives the packet's sections. */
  lemma SectionReads(mc: bool, taken: seq<seq<Item>>, m: Message, at: Arrival, k: nat)
    requires TellKind(taken) && 1 <= k <= 3 && |m.counts| == 4
    requires m.records == ExpectedRecords(mc, Tells(taken), at)
    requires m.counts[1] == |taken[1]| && m.counts[2] == |taken[2]| && m.counts[3] == |taken[3]|
    ensures SectionOf(m, k) == ExpectedRecords(mc, taken[k], at)
  {
    hide ExpectedRecords, SectionOf;
    var ra := ExpectedRecords(mc, taken[1], at);
    var rb := ExpectedRecords(mc, taken[2], at);
    var rc := ExpectedRecords(mc, taken[3], at);
    ExpectedRecordsLength(mc, taken[1], at);
    ExpectedRecordsLength(mc, taken[2], at);
    ExpectedRecordsLength(mc, taken[3], at);
    TellsRead(mc, taken, at);
    SliceFour(m, k, ra, rb, rc);
  }

  lemma SliceFour(m: Message, k: nat, ra: seq<Record>, rb: seq<Record>, rc: seq<Record>)
    requires |m.counts| == 4 && 1 <= k <= 3 && m.records == ra + rb + rc
    requires m.counts[1] == |ra| && m.counts[2] == |rb| && m.counts[3] == |rc|
    ensures SectionOf(m, k) == if k == 1 then ra else if k == 2 then rb else rc
  {
    ThreeSlices(ra, rb, rc);
  }

  /** What reading a run of packets must give. */
  ghost predicate RunRead(s: Settings, chunks: seq<Chunk>, messages: seq<Message>, at: Arrival) {
    && |messages| == |chunks| && (forall m :: m in messages ==> |m.counts| == 4)
    && (forall i :: 0 <= i < |chunks| ==> Faithful(s, chunks[i], messages[i], at))
    && AllQuestions(messages) == ExpectedQuestions(s.multicast, Gather(chunks, 0))
    && forall k :: 1 <= k <= 3 ==>
         AllRecords(messages, k) == ExpectedRecords(s.multicast, Gather(chunks, k), at)
  }

  lemma QuestionsCons(s: Settings, c: Chunk, chunks: seq<Chunk>, m: Message, messages: seq<Message>, at: Arrival)
    requires Faithful(s, c, m, at) && AllQuestions(messages) == ExpectedQuestions(s.multicast, Gather(chunks, 0))
    ensures AllQuestions([m] + messages) == ExpectedQuestions(s.multicast, Gather([c] + chunks, 0))
  {
    assert ([c] + chunks)[1..] == chunks && ([m] + messages)[1..] == messages;
    ExpectedQuestionsConcat(s.multicast, c.Section(0), Gather(chunks, 0));
  }

  lemma RecordsCons(s: Settings, c: Chunk, chunks: seq<Chunk>, m: Message, messages: seq<Message>, at: Arrival, k: nat)
    requires ChunkOk(c) && |c.counts| == 4 && TellKind(c.taken) && Faithful(s, c, m, at) && |m.counts| == 4
    requires 1 <= k <= 3 && forall x :: x in messages ==> |x.counts| == 4
    requires AllRecords(messages, k) == ExpectedRecords(s.multicast, Gather(chunks, k), at)
    ensures forall x :: x in [m] + messages ==> |x.counts| == 4
    ensures AllRecords([m] + messages, k) == ExpectedRecords(s.multicast, Gather([c] + chunks, k), at)
  {
    assert ([c] + chunks)[1..] == chunks && ([m] + messages)[1..] == messages;
    SectionReads(s.multicast, c.taken, m, at, k);
    hide SectionOf, Faithful, TellKind;
    ExpectedRecordsConcat(s.multicast, c.Section(k), Gather(chunks, k), at);
  }

  lemma RunReadCons(s: Settings, c: Chunk, chunks: seq<Chunk>, m: Message, messages: seq<Message>, at: Arrival)
    requires ChunkOk(c) && |c.counts| == 4 && TellKind(c.taken) && Faithful(s, c, m, at) && |m.counts| == 4
    requires RunRead(s, chunks, messages, at)
    ensures RunRead(s, [c] + chunks, [m] + messages, at)
  {
    hide Faithful, ChunkOk, TellKind, AllRecords, AllQuestions, Gather, ExpectedRecords, ExpectedQuestions;
    var allC, allM := [c] + chunks, [m] + messages;
    assert forall i :: 1 <= i < |allC| ==> allC[i] == chunks[i - 1] && allM[i] == messages[i - 1];
    QuestionsCons(s, c, chunks, m, messages, at);
    forall k | 1 <= k <= 3
      ensures AllRecords(allM, k) == ExpectedRecords(s.multicast, Gather(allC, k), at)
    {
      RecordsCons(s, c, chunks, m, messages, at, k);
    }
  }

  lemma QueuedTells(sections: seq<seq<Item>>)
    requires Queued(sections)
    ensures TellKind(sections)
  {
  }

  lemma AssembleCons(s: Settings, c: Chunk, chunks: seq<Chunk>, at: Arrival)
    requires forall d :: d in chunks ==> ChunkOk(d) && |d.counts| == 4
    requires ChunkOk(c) && |c.counts| == 4
    ensures (forall d :: d in [c] + chunks ==> ChunkOk(d) && |d.counts| == 4)
    ensures ReadAll(Assemble(s, [c] + chunks), at)
         == [ReadMessage(Header(s, c.more, c.counts) + c.body, at.now, at.scope)] + ReadAll(Assemble(s, chunks), at)
  {
    assert ([c] + chunks)[1..] == chunks;
    var p := Header(s, c.more, c.counts) + c.body;
    assert Assemble(s, [c] + chunks) == [p] + Assemble(s, chunks);
    assert ([p] + Assemble(s, chunks))[1..] == Assemble(s, chunks);
  }

  lemma {:induction false} ChunksRead(s: Settings, chunks: seq<Chunk>, at: Arrival)
    requires forall c :: c in chunks ==> ChunkOk(c) && |c.counts| == 4
    requires AllEncode(s.multicast, chunks)
    ensures RunRead(s, chunks, ReadAll(Assemble(s, chunks), at), at)
  {
    hide Faithful, ChunkOk, ReadMessage, Header, ChunkEncodes;
    if chunks != [] {
      var c, rest := chunks[0], chunks[1..];
      assert ChunkOk(c) && ChunkEncodes(s.multicast, c);
      ChunksRead(s, rest, at);
      assert [c] + rest == chunks;
      ChunksReadStep(s, c, rest, at);
    }
  }

  lemma ChunksReadStep(s: Settings, c: Chunk, rest: seq<Chunk>, at: Arrival)
    requires forall d :: d in rest ==> ChunkOk(d) && |d.counts| == 4
    requires ChunkOk(c) && |c.counts| == 4 && ChunkEncodes(s.multicast, c)
    requires RunRead(s, rest, ReadAll(Assemble(s, rest), at), at)
    ensures (forall d :: d in [c] + rest ==> ChunkOk(d) && |d.counts| == 4)
    ensures RunRead(s, [c] + rest, ReadAll(Assemble(s, [c] + rest), at), at)
  {
    AssembleCons(s, c, rest, at);
    PacketReads(s, c, Header(s, c.more, c.counts) + c.body, at);
    QueuedTells(c.taken);
    var m := ReadMessage(Header(s, c.more, c.counts) + c.body, at.now, at.scope);
    RunReadCons(s, c, rest, m, ReadAll(Assemble(s, rest), at), at);
  }

  lemma {:induction false} ExpectedQuestionsCount(multicast: bool, items: seq<Item>)
    requires forall item :: item in items ==> item.Ask?
    ensures |ExpectedQuestions(multicast, items)| == |items|
  {
    if items != [] {
      assert items[0] in items;
      ExpectedQuestionsCount(multicast, items[1..]);
    }
  }

  lemma FaithfulCounts(s: Settings, c: Chunk, m: Message, at: Arrival)
    requires ChunkOk(c) && |c.counts| == 4 && Queued(c.taken) && Faithful(s, c, m, at)
    ensures |m.counts| == 4 && m.counts[0] == |m.questions| && m.counts[1] + m.counts[2] + m.counts[3] == |m.records|
  {
    hide WfItem;
    ExpectedQuestionsCount(s.multicast, c.taken[0]);
    TellsOk(c.taken);
    ExpectedRecordsLength(s.multicast, Tells(c.taken), at);
  }

  /** The header counts are those of what was read. */
  lemma CountsMatch(s: Settings, chunks: seq<Chunk>, messages: seq<Message>, at: Arrival)
    requires AllEncode(s.multicast, chunks) && forall c :: c in chunks ==> ChunkOk(c) && |c.counts| == 4
    requires RunRead(s, chunks, messages, at)
    ensures forall m :: m in messages ==> CountsAgree(m)
  {
    hide Faithful, ChunkOk, ChunkEncodes, CountsAgree, AllRecords, AllQuestions, ExpectedRecords, ExpectedQuestions;
    hide Gather;
    forall i | 0 <= i < |messages|
      ensures CountsAgree(messages[i])
    {
      assert chunks[i] in chunks;
      ChunkCounts(s, chunks[i], messages[i], at);
    }
    forall m | m in messages
      ensures CountsAgree(m)
    {
      var i :| 0 <= i < |messages| && messages[i] == m;
    }
  }

  lemma ChunkCounts(s: Settings, c: Chunk, m: Message, at: Arrival)
    requires ChunkOk(c) && |c.counts| == 4 && ChunkEncodes(s.multicast, c) && Faithful(s, c, m, at)
    ensures CountsAgree(m)
  {
    hide ChunkOk, Queued, BodyEncodes, Faithful;
    FaithfulCounts(s, c, m, at);
  }

  /** The header counts are those of the lists. */
  ghost predicate CountsAgree(m: Message) {
    |m.counts| == 4 && m.counts[0] == |m.questions| && m.counts[1] + m.counts[2] + m.counts[3] == |m.records|
  }

  /** Every item fits a packet of its own. */
  predicate AllFit(multicast: bool, sections: seq<seq<Item>>) {
    forall k, j :: 0 <= k < |sections| && 0 <= j < |sections[k]| ==> FitsAlone(multicast, sections[k][j])
  }

  /** The messages are complete, and the sections split off by their header counts are the queued ones, in order. */
  ghost predicate ReadBack(s: Settings, sections: seq<seq<Item>>, messages: seq<Message>, at: Arrival)
    requires Queued(sections)
  {
    && (forall m :: m in messages ==>
          && m.valid && m.complete && |m.counts| == 4
          && m.counts[0] == |m.questions| && m.counts[1] + m.counts[2] + m.counts[3] == |m.records|)
    && AllQuestions(messages) == ExpectedQuestions(s.multicast, sections[0])
    && forall k :: 1 <= k <= 3 ==> AllRecords(messages, k) == ExpectedRecords(s.multicast, sections[k], at)
  }

  /** Round trip: for well-formed items that each fit a packet of their own, `packets()` succeeds, every packet is
      read without error, and the sections split off by the header counts are the queued ones, in order. */
  lemma RoundTrip(s: Settings, sections: seq<seq<Item>>, at: Arrival)
    requires Queued(sections) && AllFit(s.multicast, sections)
    ensures var packets := PacketsOf(s, sections);
            packets.Success? && ReadBack(s, sections, ReadAll(packets.value, at), at)
  {
    PlanEncodes(s.multicast, sections);
    var plan := PlanOf(s.multicast, sections).value;
    PlanSized(s.multicast, sections);
    PlanSendsAll(s.multicast, sections);
    NothingPending(plan.left);
    ChunksRead(s, plan.chunks, at);
    CountsMatch(s, plan.chunks, ReadAll(Assemble(s, plan.chunks), at), at);
    forall k | 0 <= k < 4
      ensures Gather(plan.chunks, k) == sections[k]
    {
      PlanConserves(s.multicast, sections, k);
      assert Gather(plan.chunks, k) + [] == Gather(plan.chunks, k);
    }
  }
}
