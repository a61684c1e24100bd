/** Which packets are above the typical size: those of one item, of any section, that needs as much by itself. */
module LonePackets {
  import opened Results
  import opened Bytes
  import opened Names
  import opened Records
  import opened WireWriter
  import opened Packets
  import opened DraftMeaning
  import opened Outgoing
  import PacketHeaders
  import WireRoundTrip
  import QuerySize

  /** A queue with one item, in section `k`. */
  function Lone(item: Item, k: nat): (r: seq<seq<Item>>)
    requires k < 4
    ensures |r| == 4
  {
    seq(4, i => if i == k then [item] else [])
  }

  lemma WriteLone(multicast: bool, item: Item, d: Draft)
    requires TryWrite(EMPTY_DRAFT, multicast, item) == Success((d, true))
    ensures WriteSection(EMPTY_DRAFT, multicast, [item]) == Success((d, 1))
    ensures WriteSection(EMPTY_DRAFT, multicast, []) == Success((EMPTY_DRAFT, 0))
    ensures WriteSection(d, multicast, []) == Success((d, 0))
  {
    assert [item][1..] == [];
  }

  /** An item that fits alone is sent alone, in a packet of whatever size it needs up to 8966 bytes, be it a question,
      an answer, an authority or an additional record. */
  lemma LoneItem(s: Settings, item: Item, k: nat)
    requires k < 4 && FitsAlone(s.multicast, item)
    ensures var packets := PacketsOf(s, Lone(item, k));
            && packets.Success? && |packets.value| == 1
            && |packets.value[0]| == HEADER_LEN + |ItemOut(HEADER_LEN, map[], s.multicast, item).value.bytes|
  {
    var out := ItemOut(HEADER_LEN, map[], s.multicast, item).value;
    TryWriteIs(EMPTY_DRAFT, s.multicast, item, out);
    var d := Draft(EMPTY_DRAFT.body + out.bytes, out.names, false);
    WriteLone(s.multicast, item, d);
    hide WriteSection, Fill, TryWrite, ItemOut, PacketsOf;
    var t := Lone(item, k);
    FillStages(EMPTY_DRAFT, s.multicast, t[0], t[1], t[2], t[3]);
    assert t == [t[0], t[1], t[2], t[3]];
    OnlyPacket(s, t, d, [|t[0]|, |t[1]|, |t[2]|, |t[3]|]);
  }

  /** `n` labels of one byte. */
  function Labels(n: nat): (labels: seq<Label>)
    ensures |labels| == n && LabelBytes(labels) == 2 * n && forall l :: l in labels ==> l == [97]
  {
    if n == 0 then [] else [[97]] + Labels(n - 1)
  }

  /** For instance one question, for "a.a. ... a." with enough labels. */
  lemma OversizedQuestion(s: Settings, n: nat)
    requires 722 <= n <= 4474
    ensures var q := Question(Join(Labels(n)) + [DOT], TYPE_PTR, 1, false);
            var packets := PacketsOf(s, Lone(Ask(q), 0));
            && packets.Success? && |packets.value| == 1
            && MAX_MSG_TYPICAL < |packets.value[0]| == 2 * n + 17 <= MAX_MSG_ABSOLUTE
  {
    hide PacketsOf, Lone;
    var labels := Labels(n);
    var q := Question(Join(labels) + [DOT], TYPE_PTR, 1, false);
    SplitJoin(labels);
    assert Strip(q.name) == Join(labels);
    QuerySize.FreshNameSize(HEADER_LEN, map[], labels);
    QuerySize.AskBytes(s.multicast, q, NameOut(HEADER_LEN, map[], labels).value);
    LoneItem(s, Ask(q), 0);
  }

  // ---------- every oversized packet ----------

  /** A packet that holds `items` so far: nothing yet, or within the typical size, or one item as an empty packet
      takes it. */
  ghost predicate Solo(d: Draft, multicast: bool, items: seq<Item>) {
    && (items == [] ==> d.body == [] && d.names == map[])
    && (items != [] ==> !d.allowLong)
    && (d.Size() > MAX_MSG_TYPICAL ==> |items| == 1 && Alone(multicast, items[0], d.body))
  }

  ghost predicate Alone(multicast: bool, item: Item, body: seq<byte>) {
    FitsAlone(multicast, item) && ItemOut(HEADER_LEN, map[], multicast, item).value.bytes == body
  }

  lemma TryWriteSolo(d: Draft, multicast: bool, items: seq<Item>, item: Item)
    requires Solo(d, multicast, items) && TryWrite(d, multicast, item).Success?
    ensures var (d', ok) := TryWrite(d, multicast, item).value;
            Solo(d', multicast, if ok then items + [item] else items)
  {
    hide ItemOut;
  }

  lemma {:induction false} SectionSolo(d: Draft, multicast: bool, before: seq<Item>, items: seq<Item>)
    requires Solo(d, multicast, before) && WriteSection(d, multicast, items).Success?
    ensures var (d', m) := WriteSection(d, multicast, items).value; Solo(d', multicast, before + items[..m])
    decreases |items|
  {
    hide Solo, TryWrite;
    assert before + [] == before;
    if items != [] {
      TryWriteSolo(d, multicast, before, items[0]);
      var step := TryWrite(d, multicast, items[0]).value;
      if step.1 {
        SectionSolo(step.0, multicast, before + [items[0]], items[1..]);
        var m := WriteSection(step.0, multicast, items[1..]).value.1;
        assert before + [items[0]] + items[1..][..m] == before + items[..m + 1];
      }
    }
  }

  lemma {:induction false} FillSolo(d: Draft, multicast: bool, before: seq<Item>, sections: seq<seq<Item>>)
    requires Solo(d, multicast, before) && Fill(d, multicast, sections).Success?
    ensures var (d', counts) := Fill(d, multicast, sections).value;
            Solo(d', multicast, before + Flatten(Take(sections, counts)))
    decreases |sections|
  {
    hide Solo, WriteSection;
    if sections == [] {
      assert before + [] == before;
    } else {
      SectionSolo(d, multicast, before, sections[0]);
      var (d1, m) := WriteSection(d, multicast, sections[0]).value;
      FillSolo(d1, multicast, before + sections[0][..m], sections[1..]);
      FillCons(d, d1, m, multicast, sections);
      var counts := Fill(d1, multicast, sections[1..]).value.1;
      var rest := Flatten(Take(sections[1..], counts));
      assert before + sections[0][..m] + rest == before + (sections[0][..m] + rest);
    }
  }

  ghost predicate ChunkSolo(multicast: bool, c: Chunk) {
    HEADER_LEN + |c.body| > MAX_MSG_TYPICAL ==>
      |Flatten(c.taken)| == 1 && Alone(multicast, Flatten(c.taken)[0], c.body)
  }

  lemma {:induction false} PlanSolo(multicast: bool, sections: seq<seq<Item>>)
    requires PlanOf(multicast, sections).Success?
    ensures forall c :: c in PlanOf(multicast, sections).value.chunks ==> ChunkSolo(multicast, c)
    decreases Pending(sections)
  {
    hide Fill, Flatten, Alone;
    var (d, counts) := Fill(EMPTY_DRAFT, multicast, sections).value;
    var rest := Drop(sections, counts);
    FillSolo(EMPTY_DRAFT, multicast, [], sections);
    assert [] + Flatten(Take(sections, counts)) == Flatten(Take(sections, counts));
    assert ChunkSolo(multicast, Chunk(d.body, counts, Take(sections, counts), Pending(rest) > 0));
    if d.body != [] && Pending(rest) > 0 {
      RestSmaller(multicast, sections, d, counts);
      PlanSolo(multicast, rest);
    }
  }

  /** One item in four sections is in one of them. */
  lemma FlattenOne(sections: seq<seq<Item>>) returns (k: nat)
    requires |sections| == 4 && |Flatten(sections)| == 1
    ensures k < 4 && sections == Lone(Flatten(sections)[0], k)
  {
    WireRoundTrip.FlattenFour(sections);
    var a, b, c, d := sections[0], sections[1], sections[2], sections[3];
    assert sections == [a, b, c, d] && Flatten(sections) == a + (b + c + d);
    assert |a| + |b| + |c| + |d| == 1;
    k := if a != [] then 0 else if b != [] then 1 else if c != [] then 2 else 3;
    assert sections[k] == Flatten(sections) == [Flatten(sections)[0]];
    assert forall j :: 0 <= j < 4 && j != k ==> sections[j] == [];
  }

  lemma {:induction false} Gathered(chunks: seq<Chunk>, i: nat, k: nat, item: Item)
    requires i < |chunks| && item in chunks[i].Section(k)
    ensures item in Gather(chunks, k)
  {
    if i > 0 {
      Gathered(chunks[1..], i - 1, k, item);
    }
  }

  /** The size of the packet that takes just this item. */
  function AloneSize(multicast: bool, item: Item): nat
    requires FitsAlone(multicast, item)
  {
    HEADER_LEN + |ItemOut(HEADER_LEN, map[], multicast, item).value.bytes|
  }

  /** Packet `i` of the queue is above the typical size, and holds just this item, of section `k`. */
  ghost predicate Oversized(s: Settings, sections: seq<seq<Item>>, i: nat, item: Item, k: nat) {
    && |sections| == 4 && k < 4 && PacketsOf(s, sections).Success?
    && var packets, chunks := PacketsOf(s, sections).value, PlanOf(s.multicast, sections).value.chunks;
       && i < |packets| && i < |chunks|
       && |packets[i]| > MAX_MSG_TYPICAL && chunks[i].taken == Lone(item, k)
  }

  /** Every packet above the typical size, of any queue, holds one item and is as large as the packet that takes just
      this item. */
  lemma OversizedIsLone(s: Settings, sections: seq<seq<Item>>, i: nat) returns (item: Item, k: nat)
    requires |sections| == 4 && PacketsOf(s, sections).Success? && i < |PacketsOf(s, sections).value|
    requires |PacketsOf(s, sections).value[i]| > MAX_MSG_TYPICAL
    ensures Oversized(s, sections, i, item, k) && item in sections[k]
    ensures FitsAlone(s.multicast, item) && |PacketsOf(s, sections).value[i]| == AloneSize(s.multicast, item)
  {
    hide PlanOf, Flatten, Gather, FitsAlone, Header, Assemble, Chunk.Section;
    var plan := PlanOf(s.multicast, sections).value;
    PlanSized(s.multicast, sections);
    PlanSolo(s.multicast, sections);
    PacketHeaders.AssembleLength(s, plan.chunks);
    PacketHeaders.AssembleAt(s, plan.chunks, i);
    var c := plan.chunks[i];
    assert c in plan.chunks && ChunkSolo(s.multicast, c);
    k := FlattenOne(c.taken);
    item := Flatten(c.taken)[0];
    TakenFrom(s.multicast, sections, i, item, k);
  }

  lemma TakenFrom(multicast: bool, sections: seq<seq<Item>>, i: nat, item: Item, k: nat)
    requires PlanOf(multicast, sections).Success? && |sections| == 4 && k < 4
    requires i < |PlanOf(multicast, sections).value.chunks|
    requires PlanOf(multicast, sections).value.chunks[i].taken == Lone(item, k)
    ensures item in sections[k]
  {
    hide PlanOf, Gather;
    var plan := PlanOf(multicast, sections).value;
    assert Lone(item, k)[k] == [item];
    Gathered(plan.chunks, i, k, item);
    PlanConserves(multicast, sections, k);
  }

  /** So an item is ever sent in a packet above the typical size if and only if it needs as much by itself. */
  lemma OversizedExactly(s: Settings, item: Item, k: nat)
    requires k < 4
    ensures (exists sections, i :: Oversized(s, sections, i, item, k))
       <==> FitsAlone(s.multicast, item) && AloneSize(s.multicast, item) > MAX_MSG_TYPICAL
  {
    hide PacketsOf, FitsAlone, ItemOut;
    forall sections, i | Oversized(s, sections, i, item, k)
      ensures FitsAlone(s.multicast, item) && AloneSize(s.multicast, item) > MAX_MSG_TYPICAL
    {
      var item', k' := OversizedIsLone(s, sections, i);
      LoneSame(item, k, item', k');
    }
    if FitsAlone(s.multicast, item) && AloneSize(s.multicast, item) > MAX_MSG_TYPICAL {
      LoneItem(s, item, k);
      var sections := Lone(item, k);
      var item', k' := OversizedIsLone(s, sections, 0);
      assert item' == item && k' == k;
      assert Oversized(s, sections, 0, item, k);
    }
  }

  lemma LoneSame(item: Item, k: nat, item': Item, k': nat)
    requires k < 4 && k' < 4 && Lone(item, k) == Lone(item', k')
    ensures item == item' && k == k'
  {
    assert Lone(item, k)[k] == [item] && Lone(item', k')[k] == if k == k' then [item'] else [];
  }

  /** And what the documentation says holds of every queue without a question, authority or additional record that needs
      more than the typical size by itself: a packet above that size holds a single answer. */
  lemma DocumentedLimit(s: Settings, sections: seq<seq<Item>>, i: nat) returns (answer: Item)
    requires |sections| == 4 && PacketsOf(s, sections).Success? && i < |PacketsOf(s, sections).value|
    requires forall k, item :: 0 <= k < 4 && k != 1 && item in sections[k] && FitsAlone(s.multicast, item) ==>
               AloneSize(s.multicast, item) <= MAX_MSG_TYPICAL
    requires |PacketsOf(s, sections).value[i]| > MAX_MSG_TYPICAL
    ensures Oversized(s, sections, i, answer, 1) && answer in sections[1]
  {
    hide PacketsOf, FitsAlone, AloneSize, Lone;
    var k;
    answer, k := OversizedIsLone(s, sections, i);
  }
}
