/** The bytes of questions and records, spelled out (section 4.1 of RFC 1035), and when writing them fails. */
module WriterLaws {
  import opened Results
  import opened Bytes
  import opened Names
  import opened Records
  import opened WireWriter
  import opened ReaderLaws
  import NsecBitmap

  function Two(v: uint16): seq<byte> {
    [v / 256, v % 256]
  }

  function Four(v: uint32): seq<byte> {
    [v / 0x100_0000, v / 0x1_0000 % 256, v / 256 % 256, v % 256]
  }

  /** Whole seconds left at time `now`. */
  function SecondsLeft(record: Record, now: Millis): nat {
    var left := record.created + (1000 * record.ttl) as real - now;
    if left < 0.0 then 0 else (left / 1000.0).Floor
  }

  /** The TTL on the wire: the full one for a zero time, otherwise what is left. */
  lemma SecondsAre(record: Record, now: Millis)
    ensures record.WireTtl(now) == if now == 0.0 then record.ttl else SecondsLeft(record, now)
  {
  }

  /** The class with the unique or unicast bit on top, for multicast only. */
  function ClassBits(multicast: bool, unique: bool, cls: class15): uint16 {
    if unique && multicast then cls + 0x8000 else cls
  }

  /** A question: its name, type and class. */
  lemma QuestionLayout(size: nat, names: Table, multicast: bool, q: Question, name: Out)
    requires NameTextOut(size, names, q.name) == Success(name)
    ensures ItemOut(size, names, multicast, Ask(q))
         == Success(Out(name.bytes + Two(q.typ) + Two(ClassBits(multicast, q.unique, q.cls)), name.names))
  {
  }

  /** A record: its name, type, class, TTL, the length of its payload, and the payload. */
  lemma RecordLayout(size: nat, names: Table, multicast: bool, rec: Record, now: Millis, name: Out, rdata: Out,
                     ttl: nat, at: nat)
    requires NameTextOut(size, names, rec.name) == Success(name) && at == size + |name.bytes| + 10
    requires ttl == (if now == 0.0 then rec.ttl else SecondsLeft(rec, now)) < 0x1_0000_0000
    requires RDataOut(at, name.names, rec.rdata) == Success(rdata) && |rdata.bytes| < 0x1_0000
    ensures ItemOut(size, names, multicast, Tell(rec, now))
         == Success(Out(name.bytes + (Two(rec.typ) + Two(ClassBits(multicast, rec.unique, rec.cls)) + Four(ttl))
                        + Two(|rdata.bytes|) + rdata.bytes, rdata.names))
  {
    hide NameTextOut, RDataOut, SecondsLeft, Record.WireTtl;
    SecondsAre(rec, now);
  }

  /** Payloads without names. */
  lemma PlainPayload(size: nat, names: Table, rdata: RData)
    ensures rdata.Address? ==> RDataOut(size, names, rdata) == Success(Out(rdata.address, names))
    ensures rdata.Text? ==> RDataOut(size, names, rdata) == Success(Out(rdata.text, names))
    ensures rdata.Hinfo? && |rdata.cpu| < 256 && |rdata.os| < 256 ==>
              RDataOut(size, names, rdata)
              == Success(Out([|rdata.cpu|] + rdata.cpu + ([|rdata.os|] + rdata.os), names))
  {
  }

  /** Payloads with a name. */
  lemma NamePayload(size: nat, names: Table, rdata: RData)
    ensures rdata.Pointer? ==> RDataOut(size, names, rdata) == NameTextOut(size, names, rdata.alias)
    ensures rdata.Service? && NameTextOut(size + 6, names, rdata.server).Success? ==>
              var name := NameTextOut(size + 6, names, rdata.server).value;
              RDataOut(size, names, rdata)
              == Success(Out(Two(rdata.priority) + Two(rdata.weight) + Two(rdata.port) + name.bytes, name.names))
    ensures rdata.Nsec? && NsecBitmap.Bitmap(rdata.rdtypes).Success? && |NsecBitmap.Bitmap(rdata.rdtypes).value| < 256
            && NameTextOut(size, names, rdata.nextName).Success? ==>
              var name, octets := NameTextOut(size, names, rdata.nextName).value,
                                  NsecBitmap.Bitmap(rdata.rdtypes).value;
              RDataOut(size, names, rdata) == Success(Out(name.bytes + [0, |octets|] + octets, name.names))
  {
  }

  /** The bits of a bitmap, most significant first, up to the octet of the last type. */
  lemma BitmapBits(types: seq<nat>, t: nat)
    requires types != [] && forall x :: x in types ==> x <= 255
    ensures NsecBitmap.Bitmap(types).Success?
    ensures var octets := NsecBitmap.Bitmap(types).value;
            && |octets| == types[|types| - 1] / 8 + 1
            && (t / 8 < |octets| ==> (octets[t / 8] / TwoTo(7 - t % 8) % 2 == 1 <==> t in types))
  {
    assert types[|types| - 1] in types;
    var octets := NsecBitmap.Bitmap(types).value;
    if t / 8 < |octets| {
      NsecBitmap.OctetHas(types, t / 8, t % 8);
      BitIs(octets[t / 8], t % 8);
    }
  }

  /** A name label by label: what is known from earlier becomes a pointer, and the rest is spelled out, each suffix
      entered at its place. */
  lemma NameLayout(size: nat, names: Table, labels: seq<Label>)
    ensures labels == [] ==> NameOut(size, names, labels) == Success(Out([0], names))
    ensures labels != [] && Join(labels) in names && 0 < names[Join(labels)] < 0x4000 ==>
              var at := names[Join(labels)];
              NameOut(size, names, labels) == Success(Out([192 + at / 256, at % 256], names))
    ensures labels != [] && (Join(labels) !in names || names[Join(labels)] == 0) && |labels[0]| <= 64
            && NameOut(size + 1 + |labels[0]|, names[Join(labels) := size], labels[1..]).Success? ==>
              var rest := NameOut(size + 1 + |labels[0]|, names[Join(labels) := size], labels[1..]).value;
              NameOut(size, names, labels) == Success(Out([|labels[0]|] + labels[0] + rest.bytes, rest.names))
  {
  }

  /** A final dot makes no difference. */
  lemma DotOptional(size: nat, names: Table, name: Name)
    requires name == [] || name[|name| - 1] != 46
    ensures NameTextOut(size, names, name + [46]) == NameTextOut(size, names, name)
  {
    assert Strip(name + [46]) == name;
  }

  // ---------- errors ----------

  /** Labels above 64 bytes, strings of 256 and more, and types above 255 or none at all cannot be written. */
  lemma PayloadErrors(size: nat, names: Table, labels: seq<Label>, rdata: RData)
    ensures labels != [] && Join(labels) !in names && |labels[0]| > 64 ==>
              NameOut(size, names, labels) == Failure(NamePartTooLong)
    ensures rdata.Hinfo? && |rdata.cpu| > 256 ==> RDataOut(size, names, rdata) == Failure(NamePartTooLong)
    ensures rdata.Hinfo? && |rdata.cpu| == 256 ==> RDataOut(size, names, rdata) == Failure(IndexError)
    ensures rdata.Hinfo? && |rdata.cpu| < 256 < |rdata.os| ==> RDataOut(size, names, rdata) == Failure(NamePartTooLong)
    ensures rdata.Hinfo? && |rdata.cpu| < 256 == |rdata.os| ==> RDataOut(size, names, rdata) == Failure(IndexError)
    ensures rdata.Nsec? && (rdata.rdtypes == [] || exists t :: t in rdata.rdtypes && t > 255) ==>
              RDataOut(size, names, rdata) == Failure(ValueError)
  {
  }

  /** A record fails with its name, with a TTL or a payload that its field cannot hold, or with its payload. */
  lemma RecordErrors(size: nat, names: Table, multicast: bool, rec: Record, now: Millis)
    ensures match NameTextOut(size, names, rec.name)
            case Failure(error) => ItemOut(size, names, multicast, Tell(rec, now)) == Failure(error)
            case Success(name) =>
              if (if now == 0.0 then rec.ttl else SecondsLeft(rec, now)) >= 0x1_0000_0000
              then ItemOut(size, names, multicast, Tell(rec, now)) == Failure(StructError)
              else match RDataOut(size + |name.bytes| + 10, name.names, rec.rdata)
                   case Failure(error) => ItemOut(size, names, multicast, Tell(rec, now)) == Failure(error)
                   case Success(rdata) =>
                     ItemOut(size, names, multicast, Tell(rec, now)).Failure? <==> |rdata.bytes| >= 0x1_0000
  {
    hide NameTextOut, RDataOut, SecondsLeft, Record.WireTtl;
    SecondsAre(rec, now);
  }
}
