/** Domain names as the source holds them: text with "." between labels, here as its UTF-8 bytes. */
module Names {
  import opened Bytes

  type Name = seq<byte>
  type Label = seq<byte>

  const DOT: byte := 46
  const MAX_LABEL := 63
  const MAX_NAME_LENGTH := 253
  const MAX_DNS_LABELS := 128

  /** `name.split(".")` */
  function Split(name: Name): (labels: seq<Label>)
    ensures |labels| >= 1
    ensures forall l :: l in labels ==> DOT !in l
  {
    if name == [] then [[]]
    else
      var rest := Split(name[1..]);
      if name[0] == DOT then [[]] + rest else [[name[0]] + rest[0]] + rest[1..]
  }

  /** `".".join(labels)` */
  function Join(labels: seq<Label>): Name {
    if labels == [] then []
    else if |labels| == 1 then labels[0]
    else labels[0] + [DOT] + Join(labels[1..])
  }

  /** The name without its trailing dot, as `write_name` strips it. */
  function Strip(name: Name): Name {
    if name != [] && name[|name| - 1] == DOT then name[..|name| - 1] else name
  }

  /** Labels that can stand in a packet: 1 to 63 bytes, no dot. */
  predicate WfLabels(labels: seq<Label>) {
    forall l :: l in labels ==> 1 <= |l| <= MAX_LABEL && DOT !in l
  }

  /** A name both ends agree on: dot-terminated, at most 253 characters, labels of 1 to 63 bytes. */
  predicate WfName(name: Name) {
    && name != [] && name[|name| - 1] == DOT
    && |name| <= MAX_NAME_LENGTH
    && WfLabels(Split(Strip(name)))
  }

  lemma {:induction false} JoinSplit(name: Name)
    ensures Join(Split(name)) == name
  {
    if name != [] {
      JoinSplit(name[1..]);
      var rest := Split(name[1..]);
      assert name == [name[0]] + name[1..];
      if name[0] != DOT && |rest| > 1 {
        assert Split(name)[1..] == rest[1..];
      } else if name[0] == DOT {
        assert Split(name)[1..] == rest;
      }
    }
  }

  lemma {:induction false} SplitPrefix(part: Label, name: Name)
    requires DOT !in part
    ensures Split(part) == [part]
    ensures Split(part + [DOT] + name) == [part] + Split(name)
  {
    var all := part + [DOT] + name;
    if part == [] {
      assert all[1..] == name;
    } else {
      SplitPrefix(part[1..], name);
      assert all[1..] == part[1..] + [DOT] + name;
      assert [part[0]] + part[1..] == part;
      assert ([part[1..]] + Split(name))[1..] == Split(name);
    }
  }

  lemma {:induction false} SplitJoin(labels: seq<Label>)
    requires labels != [] && forall l :: l in labels ==> DOT !in l
    ensures Split(Join(labels)) == labels
  {
    SplitPrefix(labels[0], Join(labels[1..]));
    if |labels| > 1 {
      SplitJoin(labels[1..]);
      assert [labels[0]] + labels[1..] == labels;
    }
  }

  /** The wire size of labels without the terminating byte. */
  function LabelBytes(labels: seq<Label>): nat {
    if labels == [] then 0 else 1 + |labels[0]| + LabelBytes(labels[1..])
  }

  lemma {:induction false} JoinLength(labels: seq<Label>)
    requires labels != []
    ensures LabelBytes(labels) == |Join(labels)| + 1
    ensures |labels| <= |Join(labels)| + 1
  {
    if |labels| > 1 {
      JoinLength(labels[1..]);
    }
  }

  lemma {:induction false} LabelCount(labels: seq<Label>)
    requires WfLabels(labels)
    ensures 2 * |labels| <= LabelBytes(labels)
  {
    if labels != [] {
      assert WfLabels(labels[1..]);
      LabelCount(labels[1..]);
    }
  }

  /** What a well-formed name promises to the decoder. */
  lemma WfNameFacts(name: Name)
    requires WfName(name)
    ensures var labels := Split(Strip(name));
            && Join(labels) + [DOT] == name
            && LabelBytes(labels) == |name| <= MAX_NAME_LENGTH
            && |labels| < MAX_DNS_LABELS
  {
    var labels := Split(Strip(name));
    JoinSplit(Strip(name));
    JoinLength(labels);
    LabelCount(labels);
    assert name[..|name| - 1] + [name[|name| - 1]] == name;
  }
}
