/** What the reader makes of any bytes, field by field: the layout of section 4.1 of RFC 1035, and what happens to
    records the library does not know or cannot read. */
module ReaderLaws {
  import opened Results
  import opened Bytes
  import opened Names
  import opened NameDecoder
  import opened Records
  import opened WireReader
  import NsecBitmap

  /** The number of `n` bytes at offset `i`, most significant first. */
  function Big(p: seq<byte>, i: nat, n: nat): (v: nat)
    requires i + n <= |p|
    ensures n <= 4 ==> v < [1, 0x100, 0x1_0000, 0x100_0000, 0x1_0000_0000][n]
  {
    if n == 0 then 0 else 256 * Big(p, i, n - 1) + p[i + n - 1]
  }

  lemma BigIs(p: seq<byte>, i: nat)
    ensures i + 2 <= |p| ==> Big(p, i, 2) == ShortAt(p, i)
    ensures i + 4 <= |p| ==> Big(p, i, 4) == LongAt(p, i)
  {
    if i + 1 <= |p| {
      assert Big(p, i, 1) == p[i];
    }
    if i + 4 <= |p| {
      assert Big(p, i, 3) == 256 * Big(p, i, 2) + p[i + 2];
    }
  }

  /** A field of the header, big-endian; a packet cut short leaves it 0. */
  lemma HeaderBytes(p: seq<byte>, k: nat)
    ensures HeaderField(p, k) == if 2 * k + 2 <= |p| then Big(p, 2 * k, 2) else 0
  {
    BigIs(p, 2 * k);
  }

  /** A question: the name, two bytes of type, and two of class with the unicast bit on top. */
  lemma QuestionBytes(p: seq<byte>, off: nat, name: Name, at: nat)
    requires ReadName(p, off) == Success((name, at))
    ensures at + 4 > |p| ==> ReadQuestion(p, off) == Failure(IndexError)
    ensures at + 4 <= |p| ==>
              ReadQuestion(p, off)
              == Success((Question(name, Big(p, at, 2), Big(p, at + 2, 2) % 0x8000, p[at + 2] >= 128), at + 4))
  {
    if at + 4 <= |p| {
      BigIs(p, at);
      ClassBytes(p, at + 2);
    }
  }

  lemma ClassBytes(p: seq<byte>, at: nat)
    requires at + 2 <= |p|
    ensures FromWireClass(ShortAt(p, at)) == (Big(p, at, 2) % 0x8000, p[at] >= 128)
  {
    BigIs(p, at);
  }

  /** A record's name and fixed fields: type, class with the unique bit, four bytes of TTL, and the payload's length. */
  lemma HeadBytes(p: seq<byte>, off: nat, name: Name, at: nat)
    requires ReadName(p, off) == Success((name, at))
    ensures at + 10 > |p| ==> ReadHead(p, off) == Failure(IndexError)
    ensures at + 10 <= |p| ==>
              ReadHead(p, off) == Success(Head(name, Big(p, at, 2), Big(p, at + 2, 2) % 0x8000, p[at + 2] >= 128,
                                               Big(p, at + 4, 4), at + 10, Big(p, at + 8, 2)))
  {
    hide ReadName;
    if at + 10 <= |p| {
      BigIs(p, at);
      ClassBytes(p, at + 2);
      BigIs(p, at + 4);
      BigIs(p, at + 8);
    }
  }

  /** Without a name neither can be read. */
  lemma NoName(p: seq<byte>, off: nat)
    requires ReadName(p, off).Failure?
    ensures ReadQuestion(p, off).Failure? && ReadHead(p, off).Failure?
  {
    hide ReadName;
  }

  /** A record whose type is not known is skipped by its stated length. */
  lemma UnknownSkipped(p: seq<byte>, off: nat, now: Millis, scope: Option<int>, h: Head)
    requires ReadHead(p, off) == Success(h) && h.typ !in {1, 5, 12, 13, 16, 28, 33, 47}
    ensures ReadTurn(p, off, now, scope) == Skipped(h.at + h.length)
  {
  }

  /** So is one whose payload does not decode. */
  lemma FailedSkipped(p: seq<byte>, off: nat, now: Millis, scope: Option<int>, h: Head)
    requires ReadHead(p, off) == Success(h) && ReadRData(p, h.at, h.typ, h.length, scope).Failure?
    ensures ReadTurn(p, off, now, scope) == Skipped(h.at + h.length)
  {
    hide ReadRData;
  }

  function Taken(h: Head, now: Millis, rdata: RData): Record {
    Record(h.name, h.typ, h.cls, h.unique, h.ttl, now, rdata)
  }

  /** Payloads that need no name: addresses of 4 or 16 bytes whatever the stated length, text of the stated length, and
      two strings behind their length bytes. */
  lemma PlainTurns(p: seq<byte>, off: nat, now: Millis, scope: Option<int>, h: Head)
    requires ReadHead(p, off) == Success(h)
    ensures var turn, n := ReadTurn(p, off, now, scope), h.at;
            && (h.typ == 1 ==> turn == Got(Taken(h, now, Address(Slice(p, n, n + 4), None)), n + 4))
            && (h.typ == 28 ==> turn == Got(Taken(h, now, Address(Slice(p, n, n + 16), scope)), n + 16))
            && (h.typ == 16 ==> turn == Got(Taken(h, now, Text(Slice(p, n, n + h.length))), n + h.length))
            && (h.typ == 13 && n < |p| && n + 1 + p[n] < |p| ==>
                  var m := n + 1 + p[n];
                  turn == Got(Taken(h, now, Hinfo(Slice(p, n + 1, m), Slice(p, m + 1, m + 1 + p[m]))), m + 1 + p[m]))
            && (h.typ == 13 && !(n < |p| && n + 1 + p[n] < |p|) ==> turn == Skipped(n + h.length))
  {
    hide ReadHead, ReadName, ReadBitmap, Slice, NsecBitmap.SortTypes;
  }

  /** Payloads with a name: reading goes on where the name, or the bitmap behind it, ends. */
  lemma NameTurns(p: seq<byte>, off: nat, now: Millis, scope: Option<int>, h: Head)
    requires ReadHead(p, off) == Success(h)
    ensures var turn, n := ReadTurn(p, off, now, scope), h.at;
            && (h.typ in {5, 12} && ReadName(p, n).Success? ==>
                  turn == Got(Taken(h, now, Pointer(ReadName(p, n).value.0)), ReadName(p, n).value.1))
            && (h.typ in {5, 12, 47} && ReadName(p, n).Failure? ==> turn == Skipped(n + h.length))
            && (h.typ == 33 && (n + 6 > |p| || ReadName(p, n + 6).Failure?) ==> turn == Skipped(n + h.length))
            && (h.typ == 33 && n + 6 <= |p| && ReadName(p, n + 6).Success? ==>
                  var name := ReadName(p, n + 6).value;
                  turn == Got(Taken(h, now, Service(Big(p, n, 2), Big(p, n + 2, 2), Big(p, n + 4, 2), name.0)),
                              name.1))
            && (h.typ == 47 && ReadName(p, n).Success? ==>
                  var name := ReadName(p, n).value;
                  var types := ReadBitmap(p, name.1, n + h.length);
                  if types.Failure? then turn == Skipped(n + h.length)
                  else turn == Got(Taken(h, now, Nsec(name.0, NsecBitmap.SortTypes(types.value.0))), types.value.1))
  {
    hide ReadName, ReadBitmap, NsecBitmap.SortTypes, ReadHead, Big;
    BigIs(p, h.at);
    BigIs(p, h.at + 2);
    BigIs(p, h.at + 4);
  }

  // ---------- NSEC bitmaps ----------

  /** 1, 2, 4, ... */
  function TwoTo(k: nat): nat
    requires k < 8
  {
    [1, 2, 4, 8, 16, 32, 64, 128][k]
  }

  lemma HalfOf(v: nat, k: nat)
    requires k < 7
    ensures v / 2 / TwoTo(k) == v / TwoTo(k + 1)
  {
    assert k == 0 || k == 1 || k == 2 || k == 3 || k == 4 || k == 5 || k == 6;
  }

  lemma {:induction false} BitAt(v: nat, n: nat, bit: nat)
    requires bit < n <= 8
    ensures NsecBitmap.Bits(v, n)[bit] <==> v / TwoTo(n - 1 - bit) % 2 == 1
    decreases n
  {
    if bit < n - 1 {
      BitAt(v / 2, n - 1, bit);
      HalfOf(v, n - 2 - bit);
    }
  }

  lemma BitIs(octet: byte, bit: nat)
    requires bit < 8
    ensures NsecBitmap.Has(octet, bit) <==> octet / TwoTo(7 - bit) % 2 == 1
  {
    BitAt(octet, 8, bit);
  }

  /** Type `t` is marked in the window at `off`. */
  ghost predicate MarkedAt(p: seq<byte>, off: nat, t: nat)
    requires off + 2 <= |p|
  {
    var k: int := t - 256 * (p[off] as int);
    && 0 <= k < 8 * (p[off + 1] as int) && off + 2 + k / 8 < |p|
    && p[off + 2 + k / 8] / TwoTo(7 - k % 8) % 2 == 1
  }

  /** A bitmap is read window by window, each giving its marked types in increasing order. */
  lemma WindowRead(p: seq<byte>, off: nat, end: nat) returns (first: seq<nat>)
    requires off < end && off + 2 <= |p|
    ensures NsecBitmap.Increasing(first) && forall t: nat :: t in first <==> MarkedAt(p, off, t)
    ensures match ReadBitmap(p, off + 2 + p[off + 1], end)
            case Failure(error) => ReadBitmap(p, off, end) == Failure(error)
            case Success((rest, next)) => ReadBitmap(p, off, end) == Success((first + rest, next))
  {
    var next := off + 2 + p[off + 1];
    var octets, base := Slice(p, off + 2, next), (p[off] as int) * 256;
    var bits := NsecBitmap.WindowBits(octets);
    first := NsecBitmap.TypesAt(bits, base);
    NsecBitmap.TypesAtIncreasing(bits, base);
    forall t: nat
      ensures t in first <==> MarkedAt(p, off, t)
    {
      WindowMarks(p, off, t);
    }
  }

  lemma WindowMarks(p: seq<byte>, off: nat, t: nat)
    requires off + 2 <= |p|
    ensures var octets, base := Slice(p, off + 2, off + 2 + p[off + 1]), (p[off] as int) * 256;
            t in NsecBitmap.TypesAt(NsecBitmap.WindowBits(octets), base) <==> MarkedAt(p, off, t)
  {
    hide NsecBitmap.TypesAt, NsecBitmap.WindowBits, TwoTo, NsecBitmap.Bits;
    var octets, base := Slice(p, off + 2, off + 2 + p[off + 1]), (p[off] as int) * 256;
    var bits := NsecBitmap.WindowBits(octets);
    NsecBitmap.TypesAtMember(bits, base, t);
    var k: int := t - base;
    if 0 <= k < |bits| {
      NsecBitmap.WindowBitsAt(octets, k);
      BitIs(octets[k / 8], k % 8);
      assert octets[k / 8] == p[off + 2 + k / 8];
    }
  }

  /** Where a bitmap ends, and where it is cut short. */
  lemma BitmapEnds(p: seq<byte>, off: nat, end: nat)
    ensures off >= end ==> ReadBitmap(p, off, end) == Success(([], off))
    ensures off < end && off + 2 > |p| ==> ReadBitmap(p, off, end) == Failure(IndexError)
  {
  }

  // ---------- names ----------

  /** A name byte by byte: 0 ends it, 1 to 63 is a label, 192 and more a pointer, and anything else, like the end of the
      packet, an error. */
  lemma NameBytes(p: seq<byte>, off: nat, seen: set<nat>)
    ensures off >= |p| || 64 <= p[off] < 192 ==> Decode(p, off, seen) == Failure(DecodeError)
    ensures off < |p| && p[off] == 0 ==> Decode(p, off, seen) == Success(Decoded([], off + 1))
    ensures off < |p| && 1 <= p[off] < 64 && Decode(p, off, seen).Success? ==>
              var next := off + 1 + p[off];
              && Decode(p, next, seen).Success? && next < |p|
              && Decode(p, off, seen).value.labels == [p[off + 1..next]] + Decode(p, next, seen).value.labels
              && Decode(p, off, seen).value.next == Decode(p, next, seen).value.next
    ensures off < |p| && p[off] >= 192 && Decode(p, off, seen).Success? ==>
              && off + 1 < |p|
              && var target := Big(p, off, 2) - 0xC000;
              && target >= 0 && target !in seen && target != off && Decode(p, target, {}).Success?
              && Decode(p, off, seen).value == Decoded(Decode(p, target, {}).value.labels, off + 2)
  {
    if off < |p| && 1 <= p[off] < 64 && Decode(p, off, seen).Success? {
      LabelBytesRead(p, off, seen);
    }
    if off < |p| && p[off] >= 192 && Decode(p, off, seen).Success? {
      var target := Big(p, off, 2) - 0xC000;
      BigIs(p, off);
      assert Scan(p, off) == Jump([], target, off + 2);
      ForgetSeen(p, target, seen + {target}, {});
      var linked := Decode(p, target, {}).value.labels;
      assert [] + linked == linked;
    }
  }

  lemma LabelBytesRead(p: seq<byte>, off: nat, seen: set<nat>)
    requires off < |p| && 1 <= p[off] < 64 && Decode(p, off, seen).Success?
    ensures var next := off + 1 + p[off];
            && Decode(p, next, seen).Success? && next < |p|
            && Decode(p, off, seen).value.labels == [p[off + 1..next]] + Decode(p, next, seen).value.labels
            && Decode(p, off, seen).value.next == Decode(p, next, seen).value.next
  {
    var next := off + 1 + p[off];
    var part, s := Slice(p, off + 1, next), Scan(p, next);
    assert Scan(p, off) == Prepend(part, s);
    assert part == p[off + 1..next];
    if s.Jump? {
      var linked := Decode(p, s.link, seen + {s.link}).value.labels;
      Regroup([part], s.labels, linked);
    }
  }

  /** A name as text is its labels, each with a dot behind it, and at most 253 bytes. */
  lemma NameText(p: seq<byte>, off: nat)
    ensures match Decode(p, off, {})
            case Failure(error) => ReadName(p, off) == Failure(error)
            case Success(d) =>
              if |Dotted(d.labels)| > 253 && d.labels != [] then ReadName(p, off) == Failure(DecodeError)
              else ReadName(p, off) == Success((if d.labels == [] then [46] else Dotted(d.labels), d.next))
  {
    if Decode(p, off, {}).Success? {
      var labels := Decode(p, off, {}).value.labels;
      if labels != [] {
        DottedJoin(labels);
      } else {
        assert [] + [DOT] == [46];
      }
    }
  }

  function Dotted(labels: seq<Label>): Name {
    if labels == [] then [] else labels[0] + [46] + Dotted(labels[1..])
  }

  lemma {:induction false} DottedJoin(labels: seq<Label>)
    requires labels != []
    ensures Dotted(labels) == Join(labels) + [DOT]
  {
    if |labels| > 1 {
      DottedJoin(labels[1..]);
    } else {
      assert labels[1..] == [];
    }
  }

  // ---------- runs of records ----------

  /** The offsets a run of records goes through: each record that is read or skipped leads to the next offset. */
  ghost predicate Visits(p: seq<byte>, now: Millis, scope: Option<int>, visits: seq<nat>) {
    visits != [] && forall i :: 0 <= i < |visits| - 1 ==> GoesOn(p, now, scope, visits[i], visits[i + 1])
  }

  ghost predicate GoesOn(p: seq<byte>, now: Millis, scope: Option<int>, off: nat, next: nat) {
    var turn := ReadTurn(p, off, now, scope); !turn.Broken? && turn.next == next
  }

  /** The records found on the way. */
  function Found(p: seq<byte>, now: Millis, scope: Option<int>, visits: seq<nat>): seq<Record> {
    if visits == [] then []
    else
      var turn := ReadTurn(p, visits[0], now, scope);
      (if turn.Got? then [turn.record] else []) + Found(p, now, scope, visits[1..])
  }

  lemma VisitsOne(p: seq<byte>, now: Millis, scope: Option<int>, off: nat)
    ensures Visits(p, now, scope, [off])
  {
  }

  lemma VisitsCons(p: seq<byte>, now: Millis, scope: Option<int>, off: nat, rest: seq<nat>)
    requires Visits(p, now, scope, rest) && GoesOn(p, now, scope, off, rest[0])
    ensures Visits(p, now, scope, [off] + rest)
  {
    hide GoesOn;
    var all := [off] + rest;
    assert forall i :: 1 <= i < |all| ==> all[i] == rest[i - 1];
  }

  /** Reading `count` records goes on as far as names and fixed fields can be read, keeps what it found, and is complete
      exactly if it came to the end. */
  lemma {:induction false} RunIs(p: seq<byte>, off: nat, count: nat, now: Millis, scope: Option<int>)
    returns (visits: seq<nat>)
    ensures Visits(p, now, scope, visits) && visits[0] == off && |visits| <= count + 1
    ensures var all := ReadOthers(p, off, count, now, scope);
            && all.items == Found(p, now, scope, visits[..|visits| - 1])
            && (|visits| == count + 1 ==> all.next == Some(visits[count]))
            && (|visits| <= count ==>
                  all.next == None && ReadHead(p, visits[|visits| - 1]).Failure?)
    decreases count
  {
    hide ReadRData, ReadHead;
    if count == 0 {
      visits := [off];
      VisitsOne(p, now, scope, off);
    } else {
      var turn := ReadTurn(p, off, now, scope);
      assert Turns(p, now, scope)(off) == turn;
      if turn.Broken? {
        visits := [off];
        VisitsOne(p, now, scope, off);
      } else {
        var rest := RunIs(p, turn.next, count - 1, now, scope);
        visits := [off] + rest;
        VisitsCons(p, now, scope, off, rest);
        assert visits[..|visits| - 1] == [off] + rest[..|rest| - 1];
        assert ([off] + rest[..|rest| - 1])[1..] == rest[..|rest| - 1];
      }
    }
  }

  /** A packet without a whole header is not valid, and nothing is read from it. */
  lemma ShortPacket(p: seq<byte>, now: Millis, scope: Option<int>)
    requires |p| < 12
    ensures var m := ReadMessage(p, now, scope); !m.valid && m.questions == [] && m.records == []
  {
  }

  /** Any other is valid if its questions can be read and, when there are none, its records. */
  lemma ValidExactly(p: seq<byte>, now: Millis, scope: Option<int>)
    requires |p| >= 12
    ensures var asked, told := Big(p, 4, 2), Big(p, 6, 2) + Big(p, 8, 2) + Big(p, 10, 2);
            var behind := ReadQuestions(p, 12, asked).next;
            ReadMessage(p, now, scope).valid <==>
              behind.Some? && (asked > 0 || ReadOthers(p, behind.value, told, now, scope).next.Some?)
  {
    hide ReadQuestions, ReadOthers, Big, HeaderField, ReadMessage;
    HeaderBytes(p, 2);
    HeaderBytes(p, 3);
    HeaderBytes(p, 4);
    HeaderBytes(p, 5);
    ValidCounts(p, now, scope, HeaderField(p, 2), HeaderField(p, 3) + HeaderField(p, 4) + HeaderField(p, 5));
  }

  /** The rest of a message: header fields, questions as far as they can be read, and the records behind them. */
  lemma MessageParts(p: seq<byte>, now: Millis, scope: Option<int>)
    requires |p| >= 12
    ensures var m, asked := ReadMessage(p, now, scope), ReadQuestions(p, 12, Big(p, 4, 2));
            && m.id == Big(p, 0, 2) && m.flags == Big(p, 2, 2)
            && m.counts == [Big(p, 4, 2), Big(p, 6, 2), Big(p, 8, 2), Big(p, 10, 2)]
            && m.questions == asked.items
            && (asked.next.Some? ==>
                  var told := m.counts[1] + m.counts[2] + m.counts[3];
                  m.records == ReadOthers(p, asked.next.value, told, now, scope).items)
  {
    hide ReadQuestions, ReadOthers, Big, HeaderField;
    forall k | 0 <= k < 6
      ensures HeaderField(p, k) == Big(p, 2 * k, 2)
    {
      HeaderBytes(p, k);
    }
  }

  lemma ValidCounts(p: seq<byte>, now: Millis, scope: Option<int>, asked: nat, told: nat)
    requires |p| >= 12 && asked == HeaderField(p, 2)
    requires told == HeaderField(p, 3) + HeaderField(p, 4) + HeaderField(p, 5)
    ensures var behind := ReadQuestions(p, 12, asked).next;
            ReadMessage(p, now, scope).valid <==>
              behind.Some? && (asked > 0 || ReadOthers(p, behind.value, told, now, scope).next.Some?)
  {
    hide ReadQuestions, ReadOthers, HeaderField;
  }
}
