/** What the headers of the packets of one message say, for any queue. */
module PacketHeaders {
  import opened Bytes
  import opened WireWriter
  import opened Packets
  import opened WireReader
  import opened WireRoundTrip

  lemma {:induction false} AssembleAt(s: Settings, chunks: seq<Chunk>, i: nat)
    requires (forall c :: c in chunks ==> ChunkOk(c) && |c.counts| == 4) && i < |chunks|
    ensures |Assemble(s, chunks)| == |chunks|
    ensures ChunkOk(chunks[i]) && Assemble(s, chunks)[i] == Header(s, chunks[i].more, chunks[i].counts) + chunks[i].body
  {
    assert chunks[0] in chunks && chunks[i] in chunks;
    if i > 0 {
      AssembleAt(s, chunks[1..], i - 1);
    } else if |chunks| > 1 {
      AssembleAt(s, chunks[1..], 0);
    }
  }

  /** `flags | _FLAGS_TC` sets the TC bit and keeps all others. */
  lemma TcSet(flags: uint16)
    ensures var f, g: int := flags, WithTC(flags);
            && g == (if f / 0x200 % 2 == 1 then f else f + 0x200)
            && g / 0x200 % 2 == 1 && g % 0x200 == f % 0x200 && g / 0x400 == f / 0x400
  {
    var f, g: int := flags, WithTC(flags);
    if f / FLAGS_TC % 2 == 0 {
      assert g / FLAGS_TC == f / FLAGS_TC + 1;
    }
  }

  /** Every packet: the id only for unicast, the counts of what it holds, its size within the limits, and the flags of
      the message, with the TC bit added exactly when the message is a query and items remain. */
  lemma HeaderOfPacket(s: Settings, sections: seq<seq<Item>>, i: nat)
    requires |sections| == 4 && PacketsOf(s, sections).Success?
    requires i < |PacketsOf(s, sections).value|
    ensures var packets, plan := PacketsOf(s, sections).value, PlanOf(s.multicast, sections).value;
            var p, remain := packets[i], i + 1 < |packets| || Pending(plan.left) > 0;
            && |packets| == |plan.chunks|
            && |p| <= 8966
            && (|p| > 1460 ==> Pending(plan.chunks[i].taken) == 1)
            && HeaderField(p, 0) == (if s.multicast then 0 else s.id)
            && HeaderField(p, 1) == (if s.flags < 0x8000 && remain && (s.flags as int) / 0x200 % 2 == 0
                                     then s.flags + 0x200 else s.flags)
            && HeaderCounts(p) == plan.chunks[i].counts
            && (forall k :: 0 <= k < 4 ==> plan.chunks[i].counts[k] == |plan.chunks[i].Section(k)|)
  {
    hide PlanOf, HeaderField, HeaderCounts, Header, WithTC;
    var plan := PlanOf(s.multicast, sections).value;
    PlanSized(s.multicast, sections);
    PlanMore(s.multicast, sections);
    AssembleLength(s, plan.chunks);
    AssembleAt(s, plan.chunks, i);
    var c := plan.chunks[i];
    assert c in plan.chunks;
    HeaderReads(s, c.more, c.counts, c.body);
    TcSet(s.flags);
  }

  /** So in the packets of a query that does not carry the TC bit itself, the bit says whether items remain. */
  lemma TcMark(s: Settings, sections: seq<seq<Item>>, i: nat)
    requires |sections| == 4 && PacketsOf(s, sections).Success? && i < |PacketsOf(s, sections).value|
    requires s.flags < 0x8000
    ensures var packets, plan := PacketsOf(s, sections).value, PlanOf(s.multicast, sections).value;
            HeaderField(packets[i], 1) / 0x200 % 2 == 1
            <==> i + 1 < |packets| || Pending(plan.left) > 0 || (s.flags as int) / 0x200 % 2 == 1
  {
    hide PlanOf, PacketsOf, HeaderField, HeaderCounts, WithTC;
    HeaderOfPacket(s, sections, i);
    TcSet(s.flags);
  }

  lemma AssembleLength(s: Settings, chunks: seq<Chunk>)
    requires forall c :: c in chunks ==> ChunkOk(c) && |c.counts| == 4
    ensures |Assemble(s, chunks)| == |chunks|
  {
    if chunks != [] {
      AssembleLength(s, chunks[1..]);
    }
  }
}
