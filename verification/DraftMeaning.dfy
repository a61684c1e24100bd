/** A packet under construction: what its bytes and its compression table mean after every write and rollback. */
module DraftMeaning {
  import opened Results
  import opened Bytes
  import opened WireWriter
  import opened WireMeaning
  import opened Packets
  import opened Chains

  /** An item is encoded between two offsets of packet `p`, behind the header. */
  ghost function Encoded(p: seq<byte>, multicast: bool): (nat, nat, Item) -> bool {
    (i: nat, e: nat, item: Item) => HEADER_LEN <= i && exists k: nat :: ItemAt(p, i, k, e, multicast, item)
  }

  lemma EncodedStable(p: seq<byte>, q: seq<byte>, multicast: bool)
    requires Continues(p, q)
    ensures forall i, e, item :: Encoded(p, multicast)(i, e, item) ==> Encoded(q, multicast)(i, e, item)
  {
    hide ItemAt, Continues;
    forall i: nat, e: nat, item | Encoded(p, multicast)(i, e, item)
      ensures Encoded(q, multicast)(i, e, item)
    {
      var k: nat :| ItemAt(p, i, k, e, multicast, item);
      ItemStable(p, q, i, k, e, multicast, item);
    }
  }

  /** Items encoded one after the other from `i` to `e`. */
  ghost predicate ItemsAt(p: seq<byte>, i: nat, e: nat, multicast: bool, items: seq<Item>) {
    Chain(Encoded(p, multicast), i, e, items)
  }

  /** The packet so far with a blank header: the header is put in front last. */
  function Blank(d: Draft): (p: seq<byte>)
    ensures |p| == d.Size()
  {
    [0, 0, 0, 0, 0, 0, 0, 0, 0, 0, 0, 0] + d.body
  }

  /** The compression table invariant of a packet under construction. */
  ghost predicate DraftOk(d: Draft, n: nat) {
    Sized(d, n) && TableOk(Blank(d), d.names)
  }

  /** `d'` is `d` after exactly `items` were appended. */
  ghost predicate Appended(d: Draft, d': Draft, multicast: bool, items: seq<Item>) {
    && Continues(Blank(d), Blank(d'))
    && ItemsAt(Blank(d'), d.Size(), d'.Size(), multicast, items)
  }

  lemma ItemEncoded(p: seq<byte>, names: Table, multicast: bool, item: Item) returns (out: Out)
    requires TableOk(p, names) && WfItem(item) && |p| + NAME_ROOM <= LINK_LIMIT
    ensures ItemOut(|p|, names, multicast, item) == Success(out)
    ensures var q := p + out.bytes; TableOk(q, out.names) && Encoded(q, multicast)(|p|, |q|, item)
  {
    var k := ItemMeaning(p, names, multicast, item);
    out := ItemOut(|p|, names, multicast, item).value;
  }

  lemma TryWriteCases(d: Draft, multicast: bool, item: Item, out: Out)
    requires ItemOut(d.Size(), d.names, multicast, item) == Success(out)
    ensures TryWrite(d, multicast, item).Success?
    ensures var (d', ok) := TryWrite(d, multicast, item).value;
            if ok then d'.body == d.body + out.bytes && d'.names == out.names
            else d'.body == d.body && d'.names == d.names
  {
  }

  lemma BlankMore(d: Draft, d': Draft, bytes: seq<byte>)
    requires d'.body == d.body + bytes
    ensures Blank(d') == Blank(d) + bytes && Continues(Blank(d), Blank(d'))
  {
  }

  lemma AppendedOne(d: Draft, d': Draft, bytes: seq<byte>, multicast: bool, item: Item)
    requires d'.body == d.body + bytes
    requires var q := Blank(d) + bytes; Encoded(q, multicast)(|Blank(d)|, |q|, item)
    ensures Blank(d') == Blank(d) + bytes && Appended(d, d', multicast, [item])
  {
    BlankMore(d, d', bytes);
    hide ItemAt, Blank;
    One(Encoded(Blank(d'), multicast), d.Size(), d'.Size(), item);
  }

  /** From `d` holding `n` items to `d'` holding `n'` by appending `items`, the table invariant intact. */
  ghost predicate Grown(d: Draft, n: nat, d': Draft, n': nat, multicast: bool, items: seq<Item>) {
    DraftOk(d', n') && Appended(d, d', multicast, items)
  }

  /** Every write and every rollback keeps the compression table invariant. */
  lemma TryWriteMeaning(d: Draft, n: nat, multicast: bool, item: Item) returns (d': Draft, ok: bool)
    requires DraftOk(d, n) && WfItem(item)
    ensures TryWrite(d, multicast, item) == Success((d', ok))
    ensures Grown(d, n, d', if ok then n + 1 else n, multicast, if ok then [item] else [])
  {
    hide TryWrite, ItemOut, Encoded, ItemsAt, TableOk, WfItem, Continues;
    var out := ItemEncoded(Blank(d), d.names, multicast, item);
    TryWriteCases(d, multicast, item, out);
    TryWriteSized(d, n, multicast, item);
    var r := TryWrite(d, multicast, item).value;
    d', ok := r.0, r.1;
    if ok {
      AppendedOne(d, d', out.bytes, multicast, item);
    } else {
      AppendedSame(d, d', multicast);
    }
  }

  lemma AppendedTwice(d: Draft, d1: Draft, d2: Draft, multicast: bool, a: seq<Item>, b: seq<Item>)
    requires Appended(d, d1, multicast, a) && Appended(d1, d2, multicast, b)
    ensures Appended(d, d2, multicast, a + b)
  {
    EncodedStable(Blank(d1), Blank(d2), multicast);
    Transfer(Encoded(Blank(d1), multicast), Encoded(Blank(d2), multicast), d.Size(), d1.Size(), a);
    ConcatChain(Encoded(Blank(d2), multicast), d.Size(), d1.Size(), d2.Size(), a, b);
  }

  lemma GrownTwice(d: Draft, n: nat, d1: Draft, n1: nat, d2: Draft, n2: nat, multicast: bool,
                   a: seq<Item>, b: seq<Item>, both: seq<Item>)
    requires Grown(d, n, d1, n1, multicast, a) && Grown(d1, n1, d2, n2, multicast, b) && both == a + b
    ensures Grown(d, n, d2, n2, multicast, both)
  {
    AppendedTwice(d, d1, d2, multicast, a, b);
  }

  lemma AppendedSame(d: Draft, d': Draft, multicast: bool)
    requires d'.body == d.body
    ensures Blank(d') == Blank(d) && Appended(d, d', multicast, [])
  {
  }

  ghost predicate EachWf(items: seq<Item>) {
    forall item :: item in items ==> WfItem(item)
  }

  lemma EachWfCons(items: seq<Item>)
    requires EachWf(items) && items != []
    ensures WfItem(items[0]) && EachWf(items[1..])
  {
  }

  lemma {:induction false} SectionMeaning(d: Draft, n: nat, multicast: bool, items: seq<Item>)
    returns (d': Draft, m: nat, n': nat, written: seq<Item>)
    requires DraftOk(d, n) && EachWf(items)
    ensures WriteSection(d, multicast, items) == Success((d', m)) && m <= |items|
    ensures n' == n + m && written == items[..m]
    ensures Grown(d, n, d', n', multicast, written)
    decreases |items|
  {
    hide WriteSection, TryWrite, Appended, EachWf, DraftOk;
    if items == [] {
      AppendedSame(d, d, multicast);
      SectionEnds(d, d, multicast, items);
      d', m, n', written := d, 0, n, [];
    } else {
      EachWfCons(items);
      var d1, ok := TryWriteMeaning(d, n, multicast, items[0]);
      if ok {
        var j: nat, more;
        d', j, n', more := SectionMeaning(d1, n + 1, multicast, items[1..]);
        m, written := j + 1, [items[0]] + more;
        SectionJoin(d, n, d1, d', j, n', multicast, items, more, written);
      } else {
        SectionEnds(d, d1, multicast, items);
        d', m, n', written := d1, 0, n, [];
      }
    }
  }

  lemma SectionEnds(d: Draft, d1: Draft, multicast: bool, items: seq<Item>)
    requires if items == [] then d1 == d else TryWrite(d, multicast, items[0]) == Success((d1, false))
    ensures WriteSection(d, multicast, items) == Success((d1, 0)) && items[..0] == []
  {
  }

  lemma SectionJoin(d: Draft, n: nat, d1: Draft, d2: Draft, j: nat, n2: nat, multicast: bool, items: seq<Item>,
                    more: seq<Item>, written: seq<Item>)
    requires items != [] && TryWrite(d, multicast, items[0]) == Success((d1, true))
    requires WriteSection(d1, multicast, items[1..]) == Success((d2, j)) && j < |items|
    requires n2 == n + 1 + j && more == items[1..][..j] && written == [items[0]] + more
    requires Grown(d, n, d1, n + 1, multicast, [items[0]]) && Grown(d1, n + 1, d2, n2, multicast, more)
    ensures WriteSection(d, multicast, items) == Success((d2, j + 1)) && written == items[..j + 1]
    ensures Grown(d, n, d2, n2, multicast, written)
  {
    hide *;
    SectionCons(d, d1, d2, j, multicast, items);
    GrownTwice(d, n, d1, n + 1, d2, n2, multicast, [items[0]], more, written);
  }

  function Flatten(sections: seq<seq<Item>>): seq<Item> {
    if sections == [] then [] else sections[0] + Flatten(sections[1..])
  }

  ghost predicate AllWf(sections: seq<seq<Item>>) {
    forall k, item :: 0 <= k < |sections| && item in sections[k] ==> WfItem(item)
  }

  lemma FillCons(d: Draft, d1: Draft, m: nat, multicast: bool, sections: seq<seq<Item>>)
    requires sections != [] && WriteSection(d, multicast, sections[0]) == Success((d1, m)) && m <= |sections[0]|
    requires Fill(d1, multicast, sections[1..]).Success?
    ensures var (d2, counts) := Fill(d1, multicast, sections[1..]).value;
            && Fill(d, multicast, sections) == Success((d2, [m] + counts))
            && Sum([m] + counts) == m + Sum(counts)
            && Flatten(Take(sections, [m] + counts))
               == sections[0][..m] + Flatten(Take(sections[1..], counts))
  {
    var counts := Fill(d1, multicast, sections[1..]).value.1;
    assert ([m] + counts)[1..] == counts;
    TakeCons(sections, m, counts);
  }

  lemma TakeCons(sections: seq<seq<Item>>, m: nat, counts: seq<nat>)
    requires sections != [] && m <= |sections[0]| && Within(sections[1..], counts)
    ensures Within(sections, [m] + counts)
    ensures Flatten(Take(sections, [m] + counts)) == sections[0][..m] + Flatten(Take(sections[1..], counts))
  {
    assert Take(sections, [m] + counts)[1..] == Take(sections[1..], counts);
  }

  lemma AllWfTail(sections: seq<seq<Item>>)
    requires AllWf(sections) && sections != []
    ensures EachWf(sections[0]) && AllWf(sections[1..])
  {
    forall k, item | 0 <= k < |sections[1..]| && item in sections[1..][k]
      ensures WfItem(item)
    {
      assert item in sections[k + 1];
    }
  }

  lemma {:induction false} FillMeaning(d: Draft, n: nat, multicast: bool, sections: seq<seq<Item>>)
    returns (d': Draft, counts: seq<nat>, n': nat, items: seq<Item>)
    requires DraftOk(d, n) && AllWf(sections)
    ensures Fill(d, multicast, sections) == Success((d', counts)) && Within(sections, counts)
    ensures n' == n + Sum(counts) && items == Flatten(Take(sections, counts))
    ensures Grown(d, n, d', n', multicast, items)
    decreases |sections|
  {
    if sections == [] {
      AppendedSame(d, d, multicast);
      d', counts, n', items := d, [], n, [];
    } else {
      AllWfTail(sections);
      var d1, m, n1, first := SectionMeaning(d, n, multicast, sections[0]);
      var tail, more;
      d', tail, n', more := FillMeaning(d1, n1, multicast, sections[1..]);
      counts, items := [m] + tail, first + more;
      FillCons(d, d1, m, multicast, sections);
      GrownTwice(d, n, d1, n1, d', n', multicast, first, more, items);
    }
  }
}
