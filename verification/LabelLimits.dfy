/** Which names survive being written and read: the writer and the reader of names do not accept the same ones. */
module LabelLimits {
  import opened Results
  import opened Bytes
  import opened Names
  import opened NameDecoder
  import opened WireWriter
  import opened WireReader
  import opened ItemRoundTrip
  import QuerySize

  /** The writer's own condition: no label of more than 64 bytes. Labels may be empty, and the name may have any length
      and need not end in a dot. */
  predicate Accepted(name: Name) {
    forall l :: l in Split(Strip(name)) ==> |l| <= 64
  }

  /** Some label is empty or has more than 63 bytes. */
  predicate HasBad(labels: seq<Label>) {
    exists l :: l in labels && (l == [] || |l| > MAX_LABEL)
  }

  lemma {:induction false} NameEndGood(p: seq<byte>, bound: nat, i: nat, labels: seq<Label>)
    requires NameEnd(p, bound, i, labels).Some?
    ensures !HasBad(labels)
    decreases |labels|, bound
  {
    if labels != [] {
      if p[i] >= 0xC0 {
        var t := ((p[i] as int) - 0xC0) * 0x100 + p[i + 1];
        NameEndGood(p, t, t, labels);
      } else {
        NameEndGood(p, bound, i + 1 + |labels[0]|, labels[1..]);
      }
    }
  }

  /** No name of the table is as short as `labels` and has a bad label. */
  ghost predicate NoneBad(names: Table, labels: seq<Label>) {
    forall n :: n in names && |n| <= |Join(labels)| ==> !HasBad(Split(n))
  }

  /** The reader gives up in the name that ends at `end`, or stops before its end. */
  ghost predicate Misread(s: Segment, end: nat) {
    s.Bad? || (s.End? && s.next < end)
  }

  lemma MisreadHead(q: seq<byte>, i: nat, part: Label, end: nat)
    requires |part| <= 64 && i + 1 + |part| < end <= |q| && q[i] == |part|
    ensures part == [] || |part| == 64 ==> Misread(Scan(q, i), end)
    ensures Misread(Scan(q, i + 1 + |part|), end) ==> Misread(Scan(q, i), end)
  {
  }

  /** A label that is spelled out in front of the bytes that end at `q`, and what follows it. */
  lemma LabelOut(p: seq<byte>, names: Table, labels: seq<Label>, q: seq<byte>) returns (p1: seq<byte>, names1: Table)
    requires labels != [] && Join(labels) !in names && |labels[0]| <= 64
    requires NameOut(|p|, names, labels).Success? && q == p + NameOut(|p|, names, labels).value.bytes
    ensures |p1| == |p| + 1 + |labels[0]| < |q| && q[|p|] == |labels[0]| && names1 == names[Join(labels) := |p|]
    ensures NameOut(|p1|, names1, labels[1..]).Success?
    ensures q == p1 + NameOut(|p1|, names1, labels[1..]).value.bytes
  {
    var first := labels[0];
    p1, names1 := p + ([|first|] + first), names[Join(labels) := |p|];
    var rest := NameOut(|p1|, names1, labels[1..]).value;
    NameOutSome(|p1|, names1, labels[1..]);
    var all := p + ([|first|] + first + rest.bytes);
    assert NameOut(|p|, names, labels).value.bytes == [|first|] + first + rest.bytes;
    assert all == p1 + rest.bytes && all[|p|] == |first|;
  }

  lemma NameOutSome(size: nat, names: Table, labels: seq<Label>)
    requires NameOut(size, names, labels).Success?
    ensures NameOut(size, names, labels).value.bytes != []
  {
  }

  lemma NoneBadNext(names: Table, labels: seq<Label>, at: nat)
    requires labels != [] && labels[0] != [] && NoneBad(names, labels)
    ensures NoneBad(names[Join(labels) := at], labels[1..])
  {
    if |labels| == 1 {
      assert Join(labels[1..]) == [];
    }
  }

  /** A bad label is never reached through a pointer, so it stands there to be read: the reader refuses one of 64
      bytes, and takes an empty one for the end. */
  lemma {:induction false} BadScan(p: seq<byte>, names: Table, labels: seq<Label>, q: seq<byte>)
    requires (forall l :: l in labels ==> |l| <= 64 && DOT !in l) && HasBad(labels) && NoneBad(names, labels)
    requires NameOut(|p|, names, labels).Success? && q == p + NameOut(|p|, names, labels).value.bytes
    ensures Misread(Scan(q, |p|), |q|)
    decreases |labels|
  {
    hide Scan, NameOut, Join, Split, Misread;
    SplitJoin(labels);
    assert labels[0] in labels && Join(labels) !in names;
    var p1, names1 := LabelOut(p, names, labels, q);
    MisreadHead(q, |p|, labels[0], |q|);
    if labels[0] != [] && |labels[0]| < 64 {
      assert labels == [labels[0]] + labels[1..];
      NoneBadNext(names, labels, |p|);
      BadScan(p1, names1, labels[1..], q);
    }
  }

  /** Whatever is read back ends in a dot and has at most 253 bytes; a name that is misread does not end at `|q|`. */
  lemma ReadNameShape(q: seq<byte>, i: nat, name: Name)
    ensures ReadName(q, i) == Success((name, |q|)) ==>
              name != [] && name[|name| - 1] == DOT && |name| <= MAX_NAME_LENGTH
    ensures Misread(Scan(q, i), |q|) ==> ReadName(q, i) != Success((name, |q|))
  {
  }

  /** The exact limit: in any packet, a name the writer accepts is read back as itself, up to the end of what was
      written, if and only if it ends in a dot, has at most 253 bytes, and its labels have 1 to 63 bytes. */
  lemma LabelLimitExact(p: seq<byte>, names: Table, name: Name)
    requires TableOk(p, names) && Accepted(name) && |p| + |name| + 1 <= LINK_LIMIT
    ensures var out := NameTextOut(|p|, names, name);
            out.Success? && (ReadName(p + out.value.bytes, |p|) == Success((name, |p| + |out.value.bytes|))
                             <==> WfName(name))
  {
    hide Decode, Scan, ReadName, NameOut, Split, Misread;
    var labels := Split(Strip(name));
    JoinSplit(Strip(name));
    JoinLength(labels);
    QuerySize.NameOutSucceeds(|p|, names, labels);
    var q := p + NameTextOut(|p|, names, name).value.bytes;
    if WfName(name) {
      NameTextOutMeaning(p, names, name);
      NameReads(q, |p|, |q|, name);
    } else {
      ReadNameShape(q, |p|, name);
      if HasBad(labels) {
        TableGood(p, names);
        BadScan(p, names, labels, q);
      }
    }
  }

  lemma TableGood(p: seq<byte>, names: Table)
    requires TableOk(p, names)
    ensures forall n :: n in names ==> !HasBad(Split(n))
  {
    forall n | n in names
      ensures !HasBad(Split(n))
    {
      NameEndGood(p, names[n], names[n], Split(n));
    }
  }

  /** In any packet the root name takes two zero bytes, of which the reader takes one. */
  lemma RootMisread(p: seq<byte>, names: Table, more: seq<byte>)
    requires TableOk(p, names)
    ensures var out := NameTextOut(|p|, names, [DOT]);
            && out.Success? && out.value.bytes == [0, 0]
            && ReadName(p + out.value.bytes + more, |p|) == Success(([DOT], |p| + 1))
  {
    var labels: seq<Label> := Split(Strip([DOT]));
    assert Strip([DOT]) == [] && labels == [[]] && labels[1..] == [] && Join(labels) == [];
    TableGood(p, names);
    assert [] in labels && Join(labels) !in names;
    var table := names[Join(labels) := |p|];
    assert NameOut(|p| + 1, table, labels[1..]) == Success(Out([0], table));
    var q := p + [0, 0] + more;
    assert q[|p|] == 0;
    assert Scan(q, |p|) == End([], |p| + 1) && [] + [DOT] == [DOT];
  }
}
