/** Bytes and the big-endian integers of the wire format. */
module Bytes {

  type byte = x: int | 0 <= x < 0x100
  type uint16 = x: int | 0 <= x < 0x1_0000
  type uint32 = x: int | 0 <= x < 0x1_0000_0000

  /** `struct.pack(">H", v)` */
  function Short(v: uint16): (r: seq<byte>)
    ensures |r| == 2
  {
    [v / 0x100, v % 0x100]
  }

  /** `struct.pack(">L", v)` */
  function Long(v: uint32): (r: seq<byte>)
    ensures |r| == 4
  {
    [v / 0x100_0000, v / 0x1_0000 % 0x100, v / 0x100 % 0x100, v % 0x100]
  }

  /** `view[i] << 8 | view[i + 1]` */
  function ShortAt(p: seq<byte>, i: nat): uint16
    requires i + 2 <= |p|
  {
    (p[i] as int) * 0x100 + p[i + 1]
  }

  /** `view[i] << 24 | view[i + 1] << 16 | view[i + 2] << 8 | view[i + 3]` */
  function LongAt(p: seq<byte>, i: nat): uint32
    requires i + 4 <= |p|
  {
    (p[i] as int) * 0x100_0000 + (p[i + 1] as int) * 0x1_0000 + (p[i + 2] as int) * 0x100 + p[i + 3]
  }

  lemma ShortRoundTrip(p: seq<byte>, i: nat, v: uint16)
    requires i + 2 <= |p| && p[i..i + 2] == Short(v)
    ensures ShortAt(p, i) == v
  {
    assert p[i] == p[i..i + 2][0] && p[i + 1] == p[i..i + 2][1];
  }

  lemma LongRoundTrip(p: seq<byte>, i: nat, v: uint32)
    requires i + 4 <= |p| && p[i..i + 4] == Long(v)
    ensures LongAt(p, i) == v
  {
    var s := p[i..i + 4];
    assert p[i] == s[0] && p[i + 1] == s[1] && p[i + 2] == s[2] && p[i + 3] == s[3];
    assert v % 0x1_0000 == v / 0x100 % 0x100 * 0x100 + v % 0x100;
    assert v / 0x1_0000 == v / 0x100_0000 * 0x100 + v / 0x1_0000 % 0x100;
  }

  lemma SliceOfSlice<T>(p: seq<T>, i: nat, e: nat, a: nat, b: nat)
    requires i <= e <= |p| && a <= b <= e - i
    ensures p[i..e][a..b] == p[i + a..i + b]
  {
    var s, t := p[i..e][a..b], p[i + a..i + b];
    assert |s| == |t| && forall k :: 0 <= k < |s| ==> s[k] == t[k];
  }

  /** The Python slice `p[a:b]` for non-negative bounds: it is cut short at the end of `p`. */
  function Slice<T>(p: seq<T>, a: nat, b: nat): seq<T> {
    var hi := if b < |p| then b else |p|;
    if a < hi then p[a..hi] else []
  }

  lemma SliceIs<T>(p: seq<T>, a: nat, b: nat)
    ensures a <= b <= |p| ==> Slice(p, a, b) == p[a..b]
    ensures a <= |p| < b ==> Slice(p, a, b) == p[a..]
    ensures b < a || |p| < a ==> Slice(p, a, b) == []
  {
  }

  /** `b"".join(chunks)` */
  function Flat(chunks: seq<seq<byte>>): seq<byte> {
    if chunks == [] then [] else Flat(chunks[..|chunks| - 1]) + chunks[|chunks| - 1]
  }

  lemma FlatAppend(chunks: seq<seq<byte>>, c: seq<byte>)
    ensures Flat(chunks + [c]) == Flat(chunks) + c
  {
    assert (chunks + [c])[..|chunks|] == chunks;
  }

  lemma {:induction false} FlatConcat(a: seq<seq<byte>>, b: seq<seq<byte>>)
    ensures Flat(a + b) == Flat(a) + Flat(b)
    decreases |b|
  {
    if b == [] {
      assert a + b == a;
    } else {
      var front, last := b[..|b| - 1], b[|b| - 1];
      assert front + [last] == b;
      assert (a + front) + [last] == a + b;
      FlatConcat(a, front);
      FlatAppend(a + front, last);
      FlatAppend(front, last);
    }
  }

  lemma Regroup<T>(a: seq<T>, b: seq<T>, c: seq<T>)
    ensures a + (b + c) == a + b + c
  {
  }
}
