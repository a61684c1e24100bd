/** Packets are filled as far as they go: an item is left for a later packet only when it may not fit. */
module FullPackets {
  import opened Results
  import opened Names
  import opened Records
  import opened WireWriter
  import opened Packets
  import PacketHeaders

  /** The bytes of a name spelled out, length bytes and terminator included. */
  function Spelled(name: Name): nat {
    |Strip(name)| + 2
  }

  /** The room an item needs at most. */
  function Room(item: Item): nat {
    match item
    case Ask(q) => Spelled(q.name) + 4
    case Tell(rec, _) =>
      Spelled(rec.name) + 10 +
      match rec.rdata
      case Address(address, _) => |address|
      case Text(text) => |text|
      case Pointer(alias) => Spelled(alias)
      case Service(_, _, _, server) => 6 + Spelled(server)
      case Hinfo(cpu, os) => 2 + |cpu| + |os|
      case Nsec(name, types) => Spelled(name) + 2 + if types == [] then 0 else types[|types| - 1] / 8 + 1
  }

  lemma NameRoom(size: nat, names: Table, name: Name)
    requires Positive(names) && NameTextOut(size, names, name).Success?
    ensures |NameTextOut(size, names, name).value.bytes| <= Spelled(name)
  {
    NameOutSize(size, names, Split(Strip(name)));
    JoinSplit(Strip(name));
    JoinLength(Split(Strip(name)));
  }

  lemma PayloadRoom(size: nat, names: Table, rec: Record, now: Millis)
    requires Positive(names) && RDataOut(size, names, rec.rdata).Success?
    ensures Spelled(rec.name) + 10 + |RDataOut(size, names, rec.rdata).value.bytes| <= Room(Tell(rec, now))
  {
    hide NameTextOut, Spelled;
    match rec.rdata
    case Pointer(alias) => NameRoom(size, names, alias);
    case Service(_, _, _, server) => NameRoom(size + 6, names, server);
    case Nsec(name, _) => NameRoom(size, names, name);
    case _ =>
  }

  lemma ItemRoom(size: nat, names: Table, multicast: bool, item: Item)
    requires Positive(names) && size >= HEADER_LEN && ItemOut(size, names, multicast, item).Success?
    ensures |ItemOut(size, names, multicast, item).value.bytes| <= Room(item)
  {
    hide Spelled, RDataOut, NameTextOut;
    match item
    case Ask(q) => NameRoom(size, names, q.name);
    case Tell(rec, now) =>
      NameRoom(size, names, rec.name);
      var name := NameTextOut(size, names, rec.name).value;
      NamesStay(size, names, rec.name);
      PayloadRoom(size + |name.bytes| + 10, name.names, rec, now);
      assert |RecordHead(multicast, rec, now)| == 8;
  }

  lemma NamesStay(size: nat, names: Table, name: Name)
    requires Positive(names) && size >= HEADER_LEN && NameTextOut(size, names, name).Success?
    ensures Positive(NameTextOut(size, names, name).value.names)
  {
    NameOutExtends(size, names, Split(Strip(name)));
  }

  lemma TryFull(d: Draft, multicast: bool, item: Item)
    requires Positive(d.names) && TryWrite(d, multicast, item).Success?
    ensures var (d', ok) := TryWrite(d, multicast, item).value;
            && Positive(d'.names) && d.Size() <= d'.Size()
            && (!ok ==> d'.Size() == d.Size() && d'.Size() + Room(item) > 1460)
  {
    hide ItemOut, Room;
    ItemRoom(d.Size(), d.names, multicast, item);
    ItemOutExtends(d.Size(), d.names, multicast, item);
  }

  lemma {:induction false} SectionFull(d: Draft, multicast: bool, items: seq<Item>)
    requires Positive(d.names) && WriteSection(d, multicast, items).Success?
    ensures var (d', m) := WriteSection(d, multicast, items).value;
            && Positive(d'.names) && d.Size() <= d'.Size()
            && (m < |items| ==> d'.Size() + Room(items[m]) > 1460)
    decreases |items|
  {
    hide TryWrite, Room;
    if items != [] {
      TryFull(d, multicast, items[0]);
      var step := TryWrite(d, multicast, items[0]).value;
      if step.1 {
        SectionFull(step.0, multicast, items[1..]);
      }
    }
  }

  lemma {:induction false} FillFull(d: Draft, multicast: bool, sections: seq<seq<Item>>)
    requires Positive(d.names) && Fill(d, multicast, sections).Success?
    ensures var (d', counts) := Fill(d, multicast, sections).value;
            && d.Size() <= d'.Size()
            && forall k :: 0 <= k < |sections| && counts[k] < |sections[k]| ==>
                 d'.Size() + Room(sections[k][counts[k]]) > 1460
    decreases |sections|
  {
    hide WriteSection, Room;
    if sections != [] {
      SectionFull(d, multicast, sections[0]);
      var (d1, m) := WriteSection(d, multicast, sections[0]).value;
      FillFull(d1, multicast, sections[1..]);
      assert forall k :: 1 <= k < |sections| ==> sections[k] == sections[1..][k - 1];
    }
  }

  /** How many items of section `k` are in the first `i + 1` packets. */
  function Sent(chunks: seq<Chunk>, k: nat, i: nat): nat
    requires i < |chunks|
  {
    |Gather(chunks[..i + 1], k)|
  }

  /** The first item of section `k` behind packet `i`, if there is one, may not have fitted that packet. */
  lemma {:induction false} PlanFull(multicast: bool, sections: seq<seq<Item>>, i: nat, k: nat)
    requires PlanOf(multicast, sections).Success? && k < |sections|
    requires i < |PlanOf(multicast, sections).value.chunks|
    ensures var chunks := PlanOf(multicast, sections).value.chunks;
            Sent(chunks, k, i) < |sections[k]| ==>
              HEADER_LEN + |chunks[i].body| + Room(sections[k][Sent(chunks, k, i)]) > 1460
    decreases i
  {
    hide Fill, Room, Gather, Pending;
    var (d, counts) := Fill(EMPTY_DRAFT, multicast, sections).value;
    var rest := Drop(sections, counts);
    FillFull(EMPTY_DRAFT, multicast, sections);
    var chunk := Chunk(d.body, counts, Take(sections, counts), Pending(rest) > 0);
    var chunks := PlanOf(multicast, sections).value.chunks;
    GatherFirst(chunk, chunks, k);
    if i > 0 {
      var tail := PlanOf(multicast, rest).value.chunks;
      assert chunks == [chunk] + tail;
      PlanFull(multicast, rest, i - 1, k);
      assert chunks[..i + 1] == [chunk] + tail[..i];
      GatherCons(chunk, tail[..i], k);
      assert rest[k] == sections[k][counts[k]..];
    }
  }

  lemma GatherFirst(chunk: Chunk, chunks: seq<Chunk>, k: nat)
    requires chunks != [] && chunks[0] == chunk
    ensures Gather(chunks[..1], k) == chunk.Section(k)
  {
    assert chunks[..1] == [chunk] && [chunk][1..] == [];
    assert chunk.Section(k) + [] == chunk.Section(k);
  }

  /** The same of the packets: whatever is left for later could not be sure to fit before. */
  lemma PacketFull(s: Settings, sections: seq<seq<Item>>, i: nat, k: nat)
    requires |sections| == 4 && k < 4 && PacketsOf(s, sections).Success? && i < |PacketsOf(s, sections).value|
    ensures var packets, chunks := PacketsOf(s, sections).value, PlanOf(s.multicast, sections).value.chunks;
            && |packets| == |chunks|
            && (Sent(chunks, k, i) < |sections[k]| ==>
                  |packets[i]| + Room(sections[k][Sent(chunks, k, i)]) > 1460)
  {
    hide PlanOf, Room, Sent, Header, Assemble;
    var plan := PlanOf(s.multicast, sections).value;
    PlanSized(s.multicast, sections);
    PacketHeaders.AssembleLength(s, plan.chunks);
    PacketHeaders.AssembleAt(s, plan.chunks, i);
    PlanFull(s.multicast, sections, i, k);
  }

  // ---------- an item that no packet can take ----------

  /** The first queued item needs more than a packet can hold. */
  ghost predicate Stuck(multicast: bool, sections: seq<seq<Item>>, k: nat) {
    && k < |sections| && sections[k] != [] && (forall j :: 0 <= j < k ==> sections[j] == [])
    && var out := ItemOut(HEADER_LEN, map[], multicast, sections[k][0]);
       out.Success? && HEADER_LEN + |out.value.bytes| > 8966
  }

  lemma {:induction false} Small(d: Draft, multicast: bool, sections: seq<seq<Item>>)
    requires !d.allowLong && d.Size() <= 1460 && Fill(d, multicast, sections).Success?
    ensures Fill(d, multicast, sections).value.0.Size() <= 1460
    decreases |sections|
  {
    hide WriteSection;
    if sections != [] {
      SmallSection(d, multicast, sections[0]);
      Small(WriteSection(d, multicast, sections[0]).value.0, multicast, sections[1..]);
    }
  }

  lemma {:induction false} SmallSection(d: Draft, multicast: bool, items: seq<Item>)
    requires !d.allowLong && d.Size() <= 1460 && WriteSection(d, multicast, items).Success?
    ensures var d' := WriteSection(d, multicast, items).value.0; d'.Size() <= 1460 && !d'.allowLong
    decreases |items|
  {
    hide ItemOut;
    if items != [] && TryWrite(d, multicast, items[0]).value.1 {
      SmallSection(TryWrite(d, multicast, items[0]).value.0, multicast, items[1..]);
    }
  }

  lemma {:induction false} FillStuck(multicast: bool, sections: seq<seq<Item>>, k: nat)
    requires Stuck(multicast, sections, k) && Fill(EMPTY_DRAFT, multicast, sections).Success?
    ensures var (d, counts) := Fill(EMPTY_DRAFT, multicast, sections).value; d.Size() <= 1460 && counts[k] == 0
    decreases k
  {
    hide ItemOut;
    if k == 0 {
      var d := Draft([], map[], false);
      assert TryWrite(EMPTY_DRAFT, multicast, sections[0][0]) == Success((d, false));
      assert WriteSection(EMPTY_DRAFT, multicast, sections[0]) == Success((d, 0));
      Small(d, multicast, sections[1..]);
    } else {
      assert WriteSection(EMPTY_DRAFT, multicast, sections[0]) == Success((EMPTY_DRAFT, 0));
      assert forall j :: 0 <= j < |sections[1..]| ==> sections[1..][j] == sections[j + 1];
      FillStuck(multicast, sections[1..], k - 1);
    }
  }

  /** Then its whole section stays behind, and no packet is above the typical size. */
  lemma {:induction false} PlanStuck(multicast: bool, sections: seq<seq<Item>>, k: nat)
    requires Stuck(multicast, sections, k) && PlanOf(multicast, sections).Success?
    ensures var plan := PlanOf(multicast, sections).value;
            && |plan.left| == |sections| && plan.left[k] == sections[k]
            && forall c :: c in plan.chunks ==> HEADER_LEN + |c.body| <= 1460
    decreases Pending(sections)
  {
    hide Fill, ItemOut, Pending;
    var (d, counts) := Fill(EMPTY_DRAFT, multicast, sections).value;
    var rest := Drop(sections, counts);
    FillStuck(multicast, sections, k);
    if d.body != [] && Pending(rest) > 0 {
      RestSmaller(multicast, sections, d, counts);
      assert rest[k] == sections[k];
      PlanStuck(multicast, rest, k);
    }
  }
}
