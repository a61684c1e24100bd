/** How queued items are spread over packets: `packets()` as a function of the queue. */
module Packets {
  import opened Results
  import opened Bytes
  import opened WireWriter

  const MAX_MSG_TYPICAL := 1460
  const MAX_MSG_ABSOLUTE := 8966
  const FLAGS_QR := 0x8000
  const FLAGS_TC := 0x0200

  /** A packet being filled: what follows its header, its name table, and whether it may still grow large. */
  datatype Draft = Draft(body: seq<byte>, names: Table, allowLong: bool) {
    function Size(): nat {
      HEADER_LEN + |body|
    }
  }

  const EMPTY_DRAFT := Draft([], map[], true)

  /** `_write_question` or `_write_record` with the limit check and the rollback. */
  function TryWrite(d: Draft, multicast: bool, item: Item): Result<(Draft, bool)> {
    var out :- ItemOut(d.Size(), d.names, multicast, item);
    var limit := if d.allowLong then MAX_MSG_ABSOLUTE else MAX_MSG_TYPICAL;
    if d.Size() + |out.bytes| <= limit
    then Success((Draft(d.body + out.bytes, out.names, false), true))
    else Success((d.(allowLong := false), false))
  }

  /** One section from its offset on, stopping at the first item that does not fit; counts what was written. */
  function WriteSection(d: Draft, multicast: bool, items: seq<Item>): (r: Result<(Draft, nat)>)
    ensures r.Success? ==> r.value.1 <= |items|
    decreases |items|
  {
    if items == [] then Success((d, 0))
    else
      var step :- TryWrite(d, multicast, items[0]);
      if !step.1 then Success((step.0, 0))
      else
        var rest :- WriteSection(step.0, multicast, items[1..]);
        Success((rest.0, rest.1 + 1))
  }

  lemma SectionCons(d: Draft, d1: Draft, d2: Draft, m: nat, multicast: bool, items: seq<Item>)
    requires items != [] && TryWrite(d, multicast, items[0]) == Success((d1, true))
    requires WriteSection(d1, multicast, items[1..]) == Success((d2, m)) && m < |items|
    ensures WriteSection(d, multicast, items) == Success((d2, m + 1))
    ensures items[..m + 1] == [items[0]] + items[1..][..m]
  {
    hide TryWrite;
  }

  /** Counts that can be taken from the front of each section. */
  ghost predicate Within(sections: seq<seq<Item>>, counts: seq<nat>) {
    |counts| == |sections| && forall k :: 0 <= k < |sections| ==> counts[k] <= |sections[k]|
  }

  /** All sections into one packet. A section that stops early does not keep the next one from being tried. */
  function Fill(d: Draft, multicast: bool, sections: seq<seq<Item>>): (r: Result<(Draft, seq<nat>)>)
    ensures r.Success? ==> Within(sections, r.value.1)
    decreases |sections|
  {
    if sections == [] then Success((d, []))
    else
      var first :- WriteSection(d, multicast, sections[0]);
      var rest :- Fill(first.0, multicast, sections[1..]);
      Success((rest.0, [first.1] + rest.1))
  }

  /** What is left of the sections, and what was taken. */
  function Drop(sections: seq<seq<Item>>, counts: seq<nat>): seq<seq<Item>>
    requires Within(sections, counts)
  {
    seq(|sections|, k requires 0 <= k < |sections| => sections[k][counts[k]..])
  }

  function Take(sections: seq<seq<Item>>, counts: seq<nat>): seq<seq<Item>>
    requires Within(sections, counts)
  {
    seq(|sections|, k requires 0 <= k < |sections| => sections[k][..counts[k]])
  }

  function Pending(sections: seq<seq<Item>>): nat {
    if sections == [] then 0 else |sections[0]| + Pending(sections[1..])
  }

  function Sum(counts: seq<nat>): nat {
    if counts == [] then 0 else counts[0] + Sum(counts[1..])
  }

  lemma {:induction false} DropPending(sections: seq<seq<Item>>, counts: seq<nat>)
    requires Within(sections, counts)
    ensures Pending(Drop(sections, counts)) + Sum(counts) == Pending(sections)
  {
    if sections != [] {
      DropPending(sections[1..], counts[1..]);
      assert Drop(sections, counts)[1..] == Drop(sections[1..], counts[1..]);
    }
  }

  lemma {:induction false} NothingPending(sections: seq<seq<Item>>)
    ensures Pending(sections) == 0 <==> forall k :: 0 <= k < |sections| ==> sections[k] == []
  {
    if sections != [] {
      NothingPending(sections[1..]);
      assert sections == [sections[0]] + sections[1..];
    }
  }

  lemma {:induction false} CountBelowSum(counts: seq<nat>, k: nat)
    requires k < |counts|
    ensures counts[k] <= Sum(counts)
  {
    if k > 0 {
      CountBelowSum(counts[1..], k - 1);
    }
  }

  /** `flags | _FLAGS_TC` */
  function WithTC(flags: uint16): uint16 {
    if (flags as int) / FLAGS_TC % 2 == 1 then flags else (flags as int) + FLAGS_TC
  }

  /** The settings of a message: header flags, the multicast switch and the id unicast packets carry. */
  datatype Settings = Settings(flags: uint16, multicast: bool, id: uint16) {
    predicate IsQuery() {
      flags < FLAGS_QR
    }
  }

  /** The twelve header bytes. */
  function Header(s: Settings, more: bool, counts: seq<nat>): (h: seq<byte>)
    requires |counts| == 4 && forall k :: 0 <= k < 4 ==> counts[k] < 0x1_0000
    ensures |h| == HEADER_LEN
  {
    Short(if s.multicast then 0 else s.id)
    + Short(if more && s.IsQuery() then WithTC(s.flags) else s.flags)
    + Short(counts[0]) + Short(counts[1]) + Short(counts[2]) + Short(counts[3])
  }

  // ---------- limits: counts fit the header, packets stay small, every packet makes progress ----------

  /** A draft holding `n` items: only a packet of a single item may exceed the typical size. */
  ghost predicate Sized(d: Draft, n: nat) {
    && Positive(d.names)
    && d.Size() <= MAX_MSG_ABSOLUTE
    && (d.Size() > MAX_MSG_TYPICAL ==> n == 1)
    && (d.allowLong ==> n == 0)
    && (n == 0 ==> d.body == [])
    && |d.body| >= 5 * n
  }

  lemma TryWriteSized(d: Draft, n: nat, multicast: bool, item: Item)
    requires Sized(d, n) && TryWrite(d, multicast, item).Success?
    ensures var (d', ok) := TryWrite(d, multicast, item).value;
            Sized(d', if ok then n + 1 else n)
  {
    ItemOutExtends(d.Size(), d.names, multicast, item);
  }

  lemma {:induction false} WriteSectionSized(d: Draft, n: nat, multicast: bool, items: seq<Item>)
    requires Sized(d, n) && WriteSection(d, multicast, items).Success?
    ensures var (d', m) := WriteSection(d, multicast, items).value; Sized(d', n + m)
    decreases |items|
  {
    if items != [] {
      TryWriteSized(d, n, multicast, items[0]);
      var step := TryWrite(d, multicast, items[0]).value;
      if step.1 {
        WriteSectionSized(step.0, n + 1, multicast, items[1..]);
      }
    }
  }

  lemma {:induction false} FillSized(d: Draft, n: nat, multicast: bool, sections: seq<seq<Item>>)
    requires Sized(d, n) && Fill(d, multicast, sections).Success?
    ensures var (d', counts) := Fill(d, multicast, sections).value; Sized(d', n + Sum(counts))
    decreases |sections|
  {
    if sections != [] {
      WriteSectionSized(d, n, multicast, sections[0]);
      var first := WriteSection(d, multicast, sections[0]).value;
      FillSized(first.0, n + first.1, multicast, sections[1..]);
    }
  }

  // ---------- the packets ----------

  /** One packet of the plan: its body, how many items of each section it holds, and whether items remain. */
  datatype Chunk = Chunk(body: seq<byte>, counts: seq<nat>, taken: seq<seq<Item>>, more: bool) {
    function Section(k: nat): seq<Item> {
      if k < |taken| then taken[k] else []
    }
  }

  /** All packets, and what could not be sent at all. */
  datatype Plan = Plan(chunks: seq<Chunk>, left: seq<seq<Item>>)

  /** The loop of `packets()`: fill packets until nothing remains or a packet stays empty. */
  function PlanOf(multicast: bool, sections: seq<seq<Item>>): Result<Plan>
    decreases Pending(sections)
  {
    var filled :- Fill(EMPTY_DRAFT, multicast, sections);
    var (d, counts) := filled;
    var rest := Drop(sections, counts);
    var more := Pending(rest) > 0;
    var chunk := Chunk(d.body, counts, Take(sections, counts), more);
    FillSized(EMPTY_DRAFT, 0, multicast, sections);
    DropPending(sections, counts);
    if d.body == [] || !more then Success(Plan([chunk], rest))
    else
      var tail :- PlanOf(multicast, rest);
      Success(Plan([chunk] + tail.chunks, tail.left))
  }

  lemma RestSmaller(multicast: bool, sections: seq<seq<Item>>, d: Draft, counts: seq<nat>)
    requires Fill(EMPTY_DRAFT, multicast, sections) == Success((d, counts)) && Within(sections, counts)
    requires d.body != []
    ensures Pending(Drop(sections, counts)) < Pending(sections)
  {
    FillSized(EMPTY_DRAFT, 0, multicast, sections);
    DropPending(sections, counts);
  }

  lemma PlanCons(multicast: bool, sections: seq<seq<Item>>, d: Draft, counts: seq<nat>, tail: Plan)
    requires Fill(EMPTY_DRAFT, multicast, sections) == Success((d, counts)) && Within(sections, counts)
    requires d.body != [] && Pending(Drop(sections, counts)) > 0
    requires PlanOf(multicast, Drop(sections, counts)) == Success(tail)
    ensures PlanOf(multicast, sections)
         == Success(Plan([Chunk(d.body, counts, Take(sections, counts), true)] + tail.chunks, tail.left))
  {
  }

  lemma PlanLast(multicast: bool, sections: seq<seq<Item>>, d: Draft, counts: seq<nat>)
    requires Fill(EMPTY_DRAFT, multicast, sections) == Success((d, counts)) && Within(sections, counts)
    requires d.body == [] || Pending(Drop(sections, counts)) == 0
    ensures PlanOf(multicast, sections) == Success(Plan(
      [Chunk(d.body, counts, Take(sections, counts), Pending(Drop(sections, counts)) > 0)], Drop(sections, counts)))
  {
  }

  ghost predicate ChunkOk(c: Chunk) {
    && |c.counts| == |c.taken|
    && (forall k :: 0 <= k < |c.counts| ==> c.counts[k] == |c.taken[k]| && c.counts[k] < 0x1_0000)
    && HEADER_LEN + |c.body| <= MAX_MSG_ABSOLUTE
    && (HEADER_LEN + |c.body| > MAX_MSG_TYPICAL ==> Pending(c.taken) == 1)
    && (c.body == [] <==> Pending(c.taken) == 0)
  }

  lemma {:induction false} TakePending(sections: seq<seq<Item>>, counts: seq<nat>)
    requires Within(sections, counts)
    ensures Pending(Take(sections, counts)) == Sum(counts)
  {
    if sections != [] {
      TakePending(sections[1..], counts[1..]);
      assert Take(sections, counts)[1..] == Take(sections[1..], counts[1..]);
    }
  }

  /** Size limits: no packet exceeds 8966 bytes, and one above 1460 bytes holds exactly one item. */
  lemma {:induction false} PlanSized(multicast: bool, sections: seq<seq<Item>>)
    requires PlanOf(multicast, sections).Success?
    ensures forall c :: c in PlanOf(multicast, sections).value.chunks ==> ChunkOk(c) && |c.counts| == |sections|
    decreases Pending(sections)
  {
    var (d, counts) := Fill(EMPTY_DRAFT, multicast, sections).value;
    var rest := Drop(sections, counts);
    FillSized(EMPTY_DRAFT, 0, multicast, sections);
    DropPending(sections, counts);
    TakePending(sections, counts);
    forall k | 0 <= k < |counts|
      ensures counts[k] < 0x1_0000
    {
      CountBelowSum(counts, k);
    }
    assert ChunkOk(Chunk(d.body, counts, Take(sections, counts), Pending(rest) > 0));
    if d.body != [] && Pending(rest) > 0 {
      PlanSized(multicast, rest);
    }
  }

  /** The `k`-th section's items over several packets, in order. */
  function Gather(chunks: seq<Chunk>, k: nat): seq<Item> {
    if chunks == [] then []
    else chunks[0].Section(k) + Gather(chunks[1..], k)
  }

  lemma TakeDrop(sections: seq<seq<Item>>, counts: seq<nat>)
    requires Within(sections, counts)
    ensures |Take(sections, counts)| == |Drop(sections, counts)| == |sections|
    ensures forall k :: 0 <= k < |sections| ==> Take(sections, counts)[k] + Drop(sections, counts)[k] == sections[k]
  {
  }

  /** One turn of the loop, spelled out. */
  lemma PlanStep(multicast: bool, sections: seq<seq<Item>>)
    returns (chunk: Chunk, rest: seq<seq<Item>>, tail: Option<Plan>)
    requires PlanOf(multicast, sections).Success?
    ensures |rest| == |sections|
    ensures forall k :: 0 <= k < |sections| ==> chunk.Section(k) + rest[k] == sections[k]
    ensures chunk.more <==> Pending(rest) > 0
    ensures match tail
            case None => PlanOf(multicast, sections) == Success(Plan([chunk], rest))
            case Some(t) =>
              && PlanOf(multicast, rest) == Success(t) && 0 < Pending(rest) < Pending(sections)
              && PlanOf(multicast, sections) == Success(Plan([chunk] + t.chunks, t.left))
  {
    hide Fill, Pending, Take;
    var (d, counts) := Fill(EMPTY_DRAFT, multicast, sections).value;
    rest := Drop(sections, counts);
    FillSized(EMPTY_DRAFT, 0, multicast, sections);
    DropPending(sections, counts);
    TakeDrop(sections, counts);
    chunk := Chunk(d.body, counts, Take(sections, counts), Pending(rest) > 0);
    if d.body != [] && Pending(rest) > 0 {
      RestSmaller(multicast, sections, d, counts);
      tail := Some(PlanOf(multicast, rest).value);
    } else {
      tail := None;
    }
  }

  /** Conservation: per section, the packets' contents and what is left make up the queue, in order. */
  lemma {:induction false} PlanConserves(multicast: bool, sections: seq<seq<Item>>, k: nat)
    requires PlanOf(multicast, sections).Success? && k < |sections|
    ensures var plan := PlanOf(multicast, sections).value;
            |plan.left| == |sections| && Gather(plan.chunks, k) + plan.left[k] == sections[k]
    decreases Pending(sections)
  {
    var chunk, rest, tail := PlanStep(multicast, sections);
    match tail
    case None =>
      assert Gather([chunk], k) == chunk.Section(k) + Gather([], k) == chunk.Section(k);
    case Some(t) =>
      PlanConserves(multicast, rest, k);
      GatherCons(chunk, t.chunks, k);
      Regroup(chunk.Section(k), Gather(t.chunks, k), t.left[k]);
  }

  lemma GatherCons(chunk: Chunk, chunks: seq<Chunk>, k: nat)
    ensures Gather([chunk] + chunks, k) == chunk.Section(k) + Gather(chunks, k)
  {
    assert ([chunk] + chunks)[1..] == chunks;
  }

  /** The truncation mark is right: a packet says that more follows exactly when items come after it. */
  ghost predicate MoreOk(chunks: seq<Chunk>, left: seq<seq<Item>>) {
    forall i :: 0 <= i < |chunks| ==> (chunks[i].more <==> i + 1 < |chunks| || Pending(left) > 0)
  }

  lemma {:induction false} PlanMore(multicast: bool, sections: seq<seq<Item>>)
    requires PlanOf(multicast, sections).Success?
    ensures var plan := PlanOf(multicast, sections).value;
            plan.chunks != [] && MoreOk(plan.chunks, plan.left)
    decreases Pending(sections)
  {
    hide PlanOf, Pending;
    var chunk, rest, tail := PlanStep(multicast, sections);
    if tail.Some? {
      PlanMore(multicast, rest);
      MoreCons(chunk, tail.value.chunks, tail.value.left);
    }
  }

  lemma MoreCons(chunk: Chunk, chunks: seq<Chunk>, left: seq<seq<Item>>)
    requires chunk.more && chunks != [] && MoreOk(chunks, left)
    ensures MoreOk([chunk] + chunks, left)
  {
    var all := [chunk] + chunks;
    assert forall i :: 1 <= i < |all| ==> all[i] == chunks[i - 1];
  }

  /** The item would fit in a packet of its own. */
  predicate FitsAlone(multicast: bool, item: Item) {
    var out := ItemOut(HEADER_LEN, map[], multicast, item);
    out.Success? && HEADER_LEN + |out.value.bytes| <= MAX_MSG_ABSOLUTE
  }

  /** A fresh packet takes the first queued item when that item fits alone. */
  lemma {:induction false} FillProgress(multicast: bool, sections: seq<seq<Item>>)
    requires Fill(EMPTY_DRAFT, multicast, sections).Success? && Pending(sections) > 0
    requires forall k, j :: 0 <= k < |sections| && 0 <= j < |sections[k]| ==> FitsAlone(multicast, sections[k][j])
    ensures Sum(Fill(EMPTY_DRAFT, multicast, sections).value.1) > 0
    decreases |sections|
  {
    if sections[0] == [] {
      assert WriteSection(EMPTY_DRAFT, multicast, sections[0]) == Success((EMPTY_DRAFT, 0));
      forall k, j | 0 <= k < |sections[1..]| && 0 <= j < |sections[1..][k]|
        ensures FitsAlone(multicast, sections[1..][k][j])
      {
        assert sections[1..][k] == sections[k + 1];
      }
      FillProgress(multicast, sections[1..]);
    } else {
      assert FitsAlone(multicast, sections[0][0]);
      assert TryWrite(EMPTY_DRAFT, multicast, sections[0][0]).value.1;
    }
  }

  /** Nothing is left behind when every item fits alone. */
  lemma {:induction false} PlanSendsAll(multicast: bool, sections: seq<seq<Item>>)
    requires PlanOf(multicast, sections).Success?
    requires forall k, j :: 0 <= k < |sections| && 0 <= j < |sections[k]| ==> FitsAlone(multicast, sections[k][j])
    ensures Pending(PlanOf(multicast, sections).value.left) == 0
    decreases Pending(sections)
  {
    var (d, counts) := Fill(EMPTY_DRAFT, multicast, sections).value;
    var rest := Drop(sections, counts);
    FillSized(EMPTY_DRAFT, 0, multicast, sections);
    DropPending(sections, counts);
    if Pending(sections) > 0 {
      FillProgress(multicast, sections);
    }
    if d.body != [] && Pending(rest) > 0 {
      forall k, j | 0 <= k < |rest| && 0 <= j < |rest[k]|
        ensures FitsAlone(multicast, rest[k][j])
      {
        assert rest[k][j] == sections[k][counts[k] + j];
      }
      PlanSendsAll(multicast, rest);
    }
  }

  /** The packets as bytes. */
  function Assemble(s: Settings, chunks: seq<Chunk>): seq<seq<byte>>
    requires forall c :: c in chunks ==> ChunkOk(c) && |c.counts| == 4
  {
    if chunks == [] then []
    else
      assert ChunkOk(chunks[0]);
      [Header(s, chunks[0].more, chunks[0].counts) + chunks[0].body] + Assemble(s, chunks[1..])
  }

  /** `DNSOutgoing.packets` */
  function PacketsOf(s: Settings, sections: seq<seq<Item>>): Result<seq<seq<byte>>>
    requires |sections| == 4
  {
    var plan :- PlanOf(s.multicast, sections);
    PlanSized(s.multicast, sections);
    Success(Assemble(s, plan.chunks))
  }

  /** One turn of the loop of `packets()`, as bytes: the last packet, */
  lemma PacketsLast(s: Settings, sections: seq<seq<Item>>, d: Draft, counts: seq<nat>)
    requires |sections| == 4 && Fill(EMPTY_DRAFT, s.multicast, sections) == Success((d, counts))
    requires Within(sections, counts) && (d.body == [] || Pending(Drop(sections, counts)) == 0)
    requires forall k :: 0 <= k < 4 ==> counts[k] < 0x1_0000
    ensures PacketsOf(s, sections) == Success([Header(s, Pending(Drop(sections, counts)) > 0, counts) + d.body])
  {
    var chunk := Chunk(d.body, counts, Take(sections, counts), Pending(Drop(sections, counts)) > 0);
    PlanLast(s.multicast, sections, d, counts);
    PlanSized(s.multicast, sections);
    AssembleOne(s, chunk);
  }

  /** or one with more to come. */
  lemma PacketsMore(s: Settings, sections: seq<seq<Item>>, d: Draft, counts: seq<nat>)
    requires |sections| == 4 && Fill(EMPTY_DRAFT, s.multicast, sections) == Success((d, counts))
    requires Within(sections, counts) && d.body != [] && Pending(Drop(sections, counts)) > 0
    requires forall k :: 0 <= k < 4 ==> counts[k] < 0x1_0000
    ensures var rest := PacketsOf(s, Drop(sections, counts)); var all := PacketsOf(s, sections);
            if rest.Failure? then all == Failure(rest.error)
            else all == Success([Header(s, true, counts) + d.body] + rest.value)
  {
    var rest := Drop(sections, counts);
    var chunk := Chunk(d.body, counts, Take(sections, counts), true);
    RestSmaller(s.multicast, sections, d, counts);
    var tail := PlanOf(s.multicast, rest);
    if tail.Success? {
      PlanCons(s.multicast, sections, d, counts, tail.value);
      PlanSized(s.multicast, rest);
      PlanSized(s.multicast, sections);
      AssembleTwo(s, chunk, tail.value.chunks);
    } else {
      PlanFails(s.multicast, sections, d, counts);
    }
  }

  lemma PlanFails(multicast: bool, sections: seq<seq<Item>>, d: Draft, counts: seq<nat>)
    requires Fill(EMPTY_DRAFT, multicast, sections) == Success((d, counts)) && Within(sections, counts)
    requires d.body != [] && Pending(Drop(sections, counts)) > 0
    requires PlanOf(multicast, Drop(sections, counts)).Failure?
    ensures PlanOf(multicast, sections) == Failure(PlanOf(multicast, Drop(sections, counts)).error)
  {
  }

  lemma AssembleOne(s: Settings, c: Chunk)
    requires forall e :: e in [c] ==> ChunkOk(e) && |e.counts| == 4
    ensures c in [c] && Assemble(s, [c]) == [Header(s, c.more, c.counts) + c.body]
  {
    assert c in [c];
    assert [c][1..] == [];
  }

  lemma AssembleTwo(s: Settings, c: Chunk, chunks: seq<Chunk>)
    requires forall e :: e in [c] + chunks ==> ChunkOk(e) && |e.counts| == 4
    requires forall e :: e in chunks ==> ChunkOk(e) && |e.counts| == 4
    ensures c in [c] + chunks
    ensures Assemble(s, [c] + chunks) == [Header(s, c.more, c.counts) + c.body] + Assemble(s, chunks)
  {
    assert ([c] + chunks)[0] == c;
    assert ([c] + chunks)[1..] == chunks;
  }

  /** Counts that fit the header. */
  lemma CountsFit(multicast: bool, sections: seq<seq<Item>>, d: Draft, counts: seq<nat>)
    requires Fill(EMPTY_DRAFT, multicast, sections) == Success((d, counts))
    ensures Within(sections, counts) && forall k :: 0 <= k < |counts| ==> counts[k] < 0x1_0000
  {
    FillSized(EMPTY_DRAFT, 0, multicast, sections);
    forall k | 0 <= k < |counts|
      ensures counts[k] < 0x1_0000
    {
      CountBelowSum(counts, k);
    }
  }

  /** A packet that takes everything is the only one. */
  lemma OnlyPacket(s: Settings, sections: seq<seq<Item>>, d: Draft, counts: seq<nat>)
    requires |sections| == 4 && counts == [|sections[0]|, |sections[1]|, |sections[2]|, |sections[3]|]
    requires Fill(EMPTY_DRAFT, s.multicast, sections) == Success((d, counts))
    ensures var packets := PacketsOf(s, sections);
            packets.Success? && |packets.value| == 1 && |packets.value[0]| == d.Size()
  {
    CountsFit(s.multicast, sections, d, counts);
    var rest := Drop(sections, counts);
    forall k | 0 <= k < 4
      ensures rest[k] == []
    {
      assert counts[k] == |sections[k]|;
    }
    NothingPending(rest);
    PacketsLast(s, sections, d, counts);
  }

  // ---------- offsets into four sections ----------

  /** What is queued behind the offsets. */
  function Behind(s: seq<seq<Item>>, at: seq<nat>): (r: seq<seq<Item>>)
    requires |s| == 4 && Within(s, at)
    ensures |r| == 4
  {
    [s[0][at[0]..], s[1][at[1]..], s[2][at[2]..], s[3][at[3]..]]
  }

  function Advance(at: seq<nat>, counts: seq<nat>): (r: seq<nat>)
    requires |at| == 4 && |counts| == 4
  {
    [at[0] + counts[0], at[1] + counts[1], at[2] + counts[2], at[3] + counts[3]]
  }

  lemma DropBehind(s: seq<seq<Item>>, at: seq<nat>, counts: seq<nat>)
    requires |s| == 4 && Within(s, at) && Within(Behind(s, at), counts)
    ensures Within(s, Advance(at, counts))
    ensures Drop(Behind(s, at), counts) == Behind(s, Advance(at, counts))
  {
    var now, next := Behind(s, at), Advance(at, counts);
    forall k | 0 <= k < 4
      ensures next[k] <= |s[k]| && now[k][counts[k]..] == s[k][next[k]..]
    {
      assert counts[k] <= |now[k]|;
      assert k == 0 || k == 1 || k == 2 || k == 3;
    }
  }

  lemma PendingFour(s: seq<seq<Item>>)
    requires |s| == 4
    ensures Pending(s) == |s[0]| + |s[1]| + |s[2]| + |s[3]|
  {
    var s1, s2, s3 := s[1..], s[2..], s[3..];
    assert s1[1..] == s2 && s2[1..] == s3 && s3[1..] == [];
    assert Pending(s3) == |s[3]|;
    assert Pending(s2) == |s[2]| + Pending(s3);
  }
}
