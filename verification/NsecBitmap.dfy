/** The NSEC type bitmap (section 4.1.2 of RFC 4034), window 0 on the way out, any window on the way in. */
module NsecBitmap {
  import opened Results
  import opened Bytes

  ghost predicate Sorted(s: seq<nat>) {
    forall i, j :: 0 <= i < j < |s| ==> s[i] <= s[j]
  }

  ghost predicate Increasing(s: seq<nat>) {
    forall i, j :: 0 <= i < j < |s| ==> s[i] < s[j]
  }

  lemma ConsOrdered(t: nat, s: seq<nat>)
    ensures Sorted(s) && (s != [] ==> t <= s[0]) ==> Sorted([t] + s)
    ensures Increasing(s) && (s != [] ==> t < s[0]) ==> Increasing([t] + s)
  {
    var r := [t] + s;
    forall i, j | 0 <= i < j < |r|
      ensures Sorted(s) && (s != [] ==> t <= s[0]) ==> r[i] <= r[j]
      ensures Increasing(s) && (s != [] ==> t < s[0]) ==> r[i] < r[j]
    {
      assert r[j] == s[j - 1];
    }
  }

  function Pow2(n: nat): nat {
    if n == 0 then 1 else 2 * Pow2(n - 1)
  }

  /** The `n` low bits of `v`, most significant first. */
  function Bits(v: nat, n: nat): (bits: seq<bool>)
    ensures |bits| == n
    decreases n, v
  {
    if n == 0 then [] else Bits(v / 2, n - 1) + [v % 2 == 1]
  }

  function FromBits(bits: seq<bool>): (v: nat)
    ensures v < Pow2(|bits|)
  {
    if bits == [] then 0
    else 2 * FromBits(bits[..|bits| - 1]) + if bits[|bits| - 1] then 1 else 0
  }

  lemma {:induction false} BitsRoundTrip(bits: seq<bool>)
    ensures Bits(FromBits(bits), |bits|) == bits
  {
    if bits != [] {
      BitsRoundTrip(bits[..|bits| - 1]);
    }
  }

  /** `octet & (0x80 >> bit)` is not zero. */
  predicate Has(octet: byte, bit: nat)
    requires bit < 8
  {
    Bits(octet, 8)[bit]
  }

  /** `octet | (0x80 >> bit)` */
  function WithBit(octet: byte, bit: nat): (r: byte)
    requires bit < 8
    ensures Bits(r, 8) == Bits(octet, 8)[bit := true]
  {
    var bits := Bits(octet, 8)[bit := true];
    BitsRoundTrip(bits);
    assert Pow2(8) == 0x100;
    FromBits(bits)
  }

  lemma Position(t: nat, i: nat, bit: nat)
    requires bit < 8
    ensures t == 8 * i + bit <==> t / 8 == i && t % 8 == bit
  {
  }

  /** Octet `i` of the bitmap after the given types were or-ed in, one after the other. */
  function Octet(types: seq<nat>, i: nat): byte {
    if types == [] then 0
    else
      var last := types[|types| - 1];
      var before := Octet(types[..|types| - 1], i);
      if last / 8 == i then WithBit(before, last % 8) else before
  }

  lemma {:induction false} NoBits(n: nat, bit: nat)
    requires bit < n
    ensures !Bits(0, n)[bit]
  {
    if bit < n - 1 {
      NoBits(n - 1, bit);
    }
  }

  lemma {:induction false} OctetHas(types: seq<nat>, i: nat, bit: nat)
    requires bit < 8
    ensures Has(Octet(types, i), bit) <==> 8 * i + bit in types
  {
    if types == [] {
      NoBits(8, bit);
    } else {
      var last := types[|types| - 1];
      OctetHas(types[..|types| - 1], i, bit);
      Position(last, i, bit);
      assert types == types[..|types| - 1] + [last];
    }
  }

  /** The octets `DNSNsec.write` emits: up to the octet of the last type, none of which may exceed 255. */
  function Bitmap(types: seq<nat>): Result<seq<byte>> {
    if types == [] || exists t :: t in types && t > 255 then Failure(ValueError)
    else Success(seq(types[|types| - 1] / 8 + 1, i requires i >= 0 => Octet(types, i)))
  }

  /** The source's loop over a 32-byte buffer. */
  method BuildBitmap(types: seq<nat>) returns (r: Result<seq<byte>>)
    ensures r == Bitmap(types)
  {
    var bitmap := new byte[32](_ => 0);
    var total := 0;
    for k := 0 to |types|
      invariant forall t :: t in types[..k] ==> t <= 255
      invariant total == if k == 0 then 0 else types[k - 1] / 8 + 1
      invariant total <= 32
      invariant forall i :: 0 <= i < 32 ==> bitmap[i] == Octet(types[..k], i)
    {
      var t := types[k];
      if t > 255 {
        assert t in types;
        return Failure(ValueError);
      }
      assert types[..k + 1][..k] == types[..k];
      assert types[..k + 1] == types[..k] + [t];
      total := t / 8 + 1;
      bitmap[t / 8] := WithBit(bitmap[t / 8], t % 8);
    }
    assert types[..|types|] == types;
    if total == 0 {
      return Failure(ValueError);
    }
    assert bitmap[..total] == Bitmap(types).value;
    return Success(bitmap[..total]);
  }

  /** The positions of the set bits, counted from `base`. */
  function TypesAt(bits: seq<bool>, base: nat): (r: seq<nat>) {
    if bits == [] then []
    else if bits[0] then [base] + TypesAt(bits[1..], base + 1)
    else TypesAt(bits[1..], base + 1)
  }

  function WindowBits(octets: seq<byte>): (bits: seq<bool>)
    ensures |bits| == 8 * |octets|
  {
    if octets == [] then [] else Bits(octets[0], 8) + WindowBits(octets[1..])
  }

  ghost predicate Marked(bits: seq<bool>, base: nat, t: nat) {
    base <= t < base + |bits| && bits[t - base]
  }

  lemma {:induction false} TypesAtMember(bits: seq<bool>, base: nat, t: nat)
    ensures t in TypesAt(bits, base) <==> Marked(bits, base, t)
  {
    if bits != [] {
      TypesAtMember(bits[1..], base + 1, t);
      assert Marked(bits, base, t) <==> (t == base && bits[0]) || Marked(bits[1..], base + 1, t);
    }
  }

  lemma {:induction false} TypesAtIncreasing(bits: seq<bool>, base: nat)
    ensures Increasing(TypesAt(bits, base))
  {
    if bits != [] {
      TypesAtIncreasing(bits[1..], base + 1);
      var rest := TypesAt(bits[1..], base + 1);
      if rest != [] {
        TypesAtMember(bits[1..], base + 1, rest[0]);
      }
      ConsOrdered(base, rest);
    }
  }

  lemma {:induction false} TypesAtConcat(a: seq<bool>, b: seq<bool>, base: nat)
    ensures TypesAt(a + b, base) == TypesAt(a, base) + TypesAt(b, base + |a|)
  {
    if a == [] {
      assert a + b == b;
    } else {
      assert (a + b)[1..] == a[1..] + b;
      TypesAtConcat(a[1..], b, base + 1);
    }
  }

  lemma {:induction false} WindowBitsAt(octets: seq<byte>, k: nat)
    requires k < 8 * |octets|
    ensures WindowBits(octets)[k] == Has(octets[k / 8], k % 8)
  {
    if k >= 8 {
      WindowBitsAt(octets[1..], k - 8);
      assert k / 8 == (k - 8) / 8 + 1 && k % 8 == (k - 8) % 8;
    }
  }

  /** A sorted list without its repetitions. */
  function Distinct(types: seq<nat>): (r: seq<nat>) {
    if |types| <= 1 then types
    else if types[0] == types[1] then Distinct(types[1..])
    else [types[0]] + Distinct(types[1..])
  }

  lemma {:induction false} DistinctIncreasing(types: seq<nat>)
    requires Sorted(types)
    ensures Increasing(Distinct(types))
    ensures forall t :: t in Distinct(types) <==> t in types
  {
    if |types| > 1 {
      DistinctIncreasing(types[1..]);
      assert types == [types[0]] + types[1..];
      var rest := Distinct(types[1..]);
      assert rest != [] ==> rest[0] in rest;
      assert types[0] != types[1] ==> forall t :: t in types[1..] ==> types[0] < t;
      ConsOrdered(types[0], rest);
    }
  }

  lemma {:induction false} IncreasingUnique(a: seq<nat>, b: seq<nat>)
    requires Increasing(a) && Increasing(b)
    requires forall t :: t in a <==> t in b
    ensures a == b
  {
    var c := a + b;
    assert c != [] ==> c[0] in c;
    if a != [] {
      assert a[0] in b && b != [] && b[0] in a;
      assert a[0] == b[0];
      forall t | t in a[1..] || t in b[1..]
        ensures t in a[1..] && t in b[1..]
      {
        assert t in a && t in b && t != a[0];
      }
      IncreasingUnique(a[1..], b[1..]);
      assert a == [a[0]] + a[1..] && b == [b[0]] + b[1..];
    }
  }

  /** Bitmap round trip: reading window 0 back gives the written types as a set, in order. */
  lemma BitmapRoundTrip(types: seq<nat>)
    requires Sorted(types) && types != [] && forall t :: t in types ==> t <= 255
    ensures Bitmap(types).Success? && 1 <= |Bitmap(types).value| <= 32
    ensures TypesAt(WindowBits(Bitmap(types).value), 0) == Distinct(types)
  {
    assert types[|types| - 1] in types;
    var octets := Bitmap(types).value;
    var last := types[|types| - 1];
    TypesAtIncreasing(WindowBits(octets), 0);
    DistinctIncreasing(types);
    forall t | t in types
      ensures t in TypesAt(WindowBits(octets), 0)
    {
      assert t <= last && t / 8 <= last / 8;
      OctetHas(types, t / 8, t % 8);
      WindowBitsAt(octets, t);
      TypesAtMember(WindowBits(octets), 0, t);
    }
    forall t | t in TypesAt(WindowBits(octets), 0)
      ensures t in types
    {
      TypesAtMember(WindowBits(octets), 0, t);
      OctetHas(types, t / 8, t % 8);
      WindowBitsAt(octets, t);
    }
    IncreasingUnique(TypesAt(WindowBits(octets), 0), Distinct(types));
  }

  function InsertSorted(t: nat, s: seq<nat>): (r: seq<nat>) {
    if s == [] || t <= s[0] then [t] + s else [s[0]] + InsertSorted(t, s[1..])
  }

  /** `sorted(types)` */
  function SortTypes(types: seq<nat>): (r: seq<nat>)
    ensures Sorted(r) && multiset(r) == multiset(types)
  {
    if types == [] then []
    else
      assert types == [types[0]] + types[1..];
      InsertSortedFacts(types[0], SortTypes(types[1..]));
      InsertSorted(types[0], SortTypes(types[1..]))
  }

  lemma {:induction false} InsertSortedFacts(t: nat, s: seq<nat>)
    requires Sorted(s)
    ensures Sorted(InsertSorted(t, s)) && multiset(InsertSorted(t, s)) == multiset(s) + multiset{t}
  {
    if s == [] || t <= s[0] {
      ConsOrdered(t, s);
    } else {
      InsertSortedFacts(t, s[1..]);
      assert s == [s[0]] + s[1..];
      var rest := InsertSorted(t, s[1..]);
      assert rest[0] in multiset(rest);
      ConsOrdered(s[0], rest);
    }
  }

  lemma {:induction false} SortSorted(types: seq<nat>)
    requires Sorted(types)
    ensures SortTypes(types) == types
  {
    if types != [] {
      SortSorted(types[1..]);
      assert types == [types[0]] + types[1..];
    }
  }
}
