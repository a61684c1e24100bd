/** One encoded item is read back as itself. */
module ItemRoundTrip {
  import opened Results
  import opened Bytes
  import opened Names
  import opened NameDecoder
  import opened Records
  import opened WireWriter
  import opened WireReader
  import opened WireMeaning
  import NsecBitmap

  lemma ScanSpelled(p: seq<byte>, i: nat, next: nat, part: Label)
    requires next == i + 1 + |part| <= |p| && p[i] == |part| && 1 <= |part| <= MAX_LABEL && p[i + 1..next] == part
    ensures Scan(p, i) == Prepend(part, Scan(p, next))
  {
    assert Slice(p, i + 1, next) == part;
  }

  /** One more label in front does not change how the rest is decoded. */
  lemma DecodeLabel(p: seq<byte>, i: nat, next: nat, part: Label, seen: set<nat>)
    requires next == i + 1 + |part| <= |p| && p[i] == |part| && 1 <= |part| <= MAX_LABEL && p[i + 1..next] == part
    requires Decode(p, next, seen).Success? && |Decode(p, next, seen).value.labels| < MAX_DNS_LABELS
    ensures var d := Decode(p, next, seen).value;
            Decode(p, i, seen) == Success(Decoded([part] + d.labels, d.next))
  {
    var s := Scan(p, next);
    ScanSpelled(p, i, next, part);
    hide Scan;
    if s.Jump? {
      var linked := Decode(p, s.link, seen + {s.link}).value;
      Regroup([part], s.labels, linked.labels);
    }
  }

  lemma ScanPointer(p: seq<byte>, i: nat, t: nat)
    requires i + 1 < |p| && p[i] >= 0xC0 && t == ((p[i] as int) - 0xC0) * 0x100 + p[i + 1] && t < i
    ensures Scan(p, i) == Jump([], t, i + 2)
  {
  }

  lemma DecodePointer(p: seq<byte>, i: nat, t: nat, labels: seq<Label>, e: nat, seen: set<nat>)
    requires i + 1 < |p| && p[i] >= 0xC0 && t == ((p[i] as int) - 0xC0) * 0x100 + p[i + 1]
    requires t < i && t !in seen && |labels| <= MAX_DNS_LABELS
    requires Decode(p, t, seen + {t}) == Success(Decoded(labels, e))
    ensures Decode(p, i, seen) == Success(Decoded(labels, i + 2))
  {
    ScanPointer(p, i, t);
    hide Scan;
    assert [] + labels == labels;
  }

  lemma DecodeEnd(p: seq<byte>, i: nat, seen: set<nat>)
    requires i < |p| && p[i] == 0
    ensures Decode(p, i, seen) == Success(Decoded([], i + 1))
  {
  }

  /** The decoder reads back what the writer's invariant says the bytes spell. */
  lemma {:induction false} NameEndDecodes(p: seq<byte>, bound: nat, i: nat, labels: seq<Label>, seen: set<nat>)
    requires NameEnd(p, bound, i, labels).Some? && bound <= i && |labels| < MAX_DNS_LABELS
    requires forall s :: s in seen ==> s >= bound
    ensures Decode(p, i, seen) == Success(Decoded(labels, NameEnd(p, bound, i, labels).value))
    decreases |labels|, bound
  {
    hide Decode;
    if labels == [] {
      DecodeEnd(p, i, seen);
    } else {
      if p[i] >= 0xC0 {
        var t := ((p[i] as int) - 0xC0) * 0x100 + p[i + 1];
        NameEndDecodes(p, t, t, labels, seen + {t});
        DecodePointer(p, i, t, labels, NameEnd(p, t, t, labels).value, seen);
      } else {
        var next := i + 1 + |labels[0]|;
        NameEndDecodes(p, bound, next, labels[1..], seen);
        DecodeLabel(p, i, next, labels[0], seen);
        assert [labels[0]] + labels[1..] == labels;
      }
    }
  }

  lemma NameReads(p: seq<byte>, i: nat, e: nat, name: Name)
    requires NameAt(p, i, e, name) && WfName(name)
    ensures ReadName(p, i) == Success((name, e))
  {
    WfNameFacts(name);
    NameEndDecodes(p, i, i, Split(Strip(name)), {});
  }

  /** A payload as its reader sees it: the reader's own scope on IPv6 addresses, NSEC types as a sorted set. */
  function Received(typ: uint16, rdata: RData, scope: Option<int>): RData {
    match rdata
    case Address(address, _) => Address(address, if typ == TYPE_AAAA then scope else None)
    case Nsec(nextName, rdtypes) =>
      NsecBitmap.DistinctIncreasing(rdtypes);
      Nsec(nextName, NsecBitmap.Distinct(rdtypes))
    case _ => rdata
  }

  lemma HinfoReads(p: seq<byte>, i: nat, e: nat, cpu: seq<byte>, os: seq<byte>, scope: Option<int>)
    requires i <= e <= |p| && |cpu| < 0x100 && |os| < 0x100 && p[i..e] == ([|cpu|] + cpu) + ([|os|] + os)
    ensures ReadRData(p, i, TYPE_HINFO, e - i, scope) == Success((Some(Hinfo(cpu, os)), e))
  {
    var k := i + 1 + |cpu|;
    SliceOfSlice(p, i, e, 0, 1 + |cpu|);
    SliceOfSlice(p, i, e, 1 + |cpu|, e - i);
    CharacterStringReads(p, i, k, cpu);
    CharacterStringReads(p, k, e, os);
  }

  lemma CharacterStringReads(p: seq<byte>, i: nat, e: nat, text: seq<byte>)
    requires |text| < 0x100 && e == i + 1 + |text| <= |p| && p[i..e] == [|text|] + text
    ensures ReadCharacterString(p, i) == Success((text, e))
  {
    SliceOfSlice(p, i, e, 1, e - i);
    assert p[i] == p[i..e][0];
    assert Slice(p, i + 1, e) == text;
  }

  lemma BitmapReads(p: seq<byte>, k: nat, e: nat, octets: seq<byte>)
    requires |octets| < 0x100 && k + 2 + |octets| == e <= |p| && p[k..e] == [0, |octets|] + octets
    ensures ReadBitmap(p, k, e) == Success((NsecBitmap.TypesAt(NsecBitmap.WindowBits(octets), 0), e))
  {
    assert p[k] == p[k..e][0] && p[k + 1] == p[k..e][1];
    assert Slice(p, k + 2, e) == p[k..e][2..] == octets;
    assert ReadBitmap(p, e, e) == Success(([], e));
    var types := NsecBitmap.TypesAt(NsecBitmap.WindowBits(octets), 0);
    assert types + [] == types;
  }

  lemma NsecStep(p: seq<byte>, i: nat, k: nat, e: nat, name: Name, types: seq<nat>, scope: Option<int>)
    requires i <= e && ReadName(p, i) == Success((name, k)) && ReadBitmap(p, k, e) == Success((types, e))
    ensures ReadRData(p, i, TYPE_NSEC, e - i, scope) == Success((Some(Nsec(name, NsecBitmap.SortTypes(types))), e))
  {
    hide ReadName, ReadBitmap, NsecBitmap.SortTypes;
  }

  lemma NsecReads(p: seq<byte>, i: nat, e: nat, rdata: RData, scope: Option<int>)
    requires rdata.Nsec? && WfRData(TYPE_NSEC, rdata) && i <= e <= |p| && RDataAt(p, i, e, rdata)
    ensures ReadRData(p, i, TYPE_NSEC, e - i, scope) == Success((Some(Received(TYPE_NSEC, rdata, scope)), e))
  {
    hide ReadRData, ReadName, ReadBitmap, NsecBitmap.TypesAt, NsecBitmap.WindowBits, NsecBitmap.SortTypes, NameAt;
    hide NsecBitmap.Distinct, NsecBitmap.Bitmap, WfName;
    var octets := NsecBitmap.Bitmap(rdata.rdtypes).value;
    var k := e - |octets| - 2;
    NsecBitmap.BitmapRoundTrip(rdata.rdtypes);
    NsecBitmap.DistinctIncreasing(rdata.rdtypes);
    NsecBitmap.SortSorted(NsecBitmap.Distinct(rdata.rdtypes));
    NameReads(p, i, k, rdata.nextName);
    BitmapReads(p, k, e, octets);
    NsecStep(p, i, k, e, rdata.nextName, NsecBitmap.TypesAt(NsecBitmap.WindowBits(octets), 0), scope);
  }

  lemma ServiceStep(p: seq<byte>, i: nat, i6: nat, e: nat, rdata: RData, scope: Option<int>)
    requires rdata.Service? && i6 == i + 6 <= e <= |p| && ReadName(p, i6) == Success((rdata.server, e))
    requires ShortAt(p, i) == rdata.priority && ShortAt(p, i + 2) == rdata.weight && ShortAt(p, i + 4) == rdata.port
    ensures ReadRData(p, i, TYPE_SRV, e - i, scope) == Success((Some(rdata), e))
  {
  }

  lemma ServiceReads(p: seq<byte>, i: nat, e: nat, rdata: RData, scope: Option<int>)
    requires rdata.Service? && WfName(rdata.server) && i <= e <= |p| && RDataAt(p, i, e, rdata)
    ensures ReadRData(p, i, TYPE_SRV, e - i, scope) == Success((Some(rdata), e))
  {
    var i6 := i + 6;
    var s := p[i..i + 6];
    assert s[0..2] == Short(rdata.priority) && s[2..4] == Short(rdata.weight) && s[4..6] == Short(rdata.port);
    ShortIn(p, i, 6, 0, rdata.priority);
    ShortIn(p, i, 6, 2, rdata.weight);
    ShortIn(p, i, 6, 4, rdata.port);
    NameReads(p, i6, e, rdata.server);
    ServiceStep(p, i, i6, e, rdata, scope);
  }

  /** A short standing at offset `j` of a slice. */
  lemma ShortIn(p: seq<byte>, i: nat, n: nat, j: nat, v: uint16)
    requires j + 2 <= n && i + n <= |p| && p[i..i + n][j..j + 2] == Short(v)
    ensures ShortAt(p, i + j) == v
  {
    var s := p[i..i + n];
    assert p[i + j] == s[j] == s[j..j + 2][0] && p[i + j + 1] == s[j + 1] == s[j..j + 2][1];
    assert p[i + j..i + j + 2] == [p[i + j], p[i + j + 1]];
    ShortRoundTrip(p, i + j, v);
  }

  lemma RDataReads(p: seq<byte>, i: nat, e: nat, typ: uint16, rdata: RData, scope: Option<int>)
    requires i <= e <= |p| && WfRData(typ, rdata) && RDataAt(p, i, e, rdata)
    ensures ReadRData(p, i, typ, e - i, scope) == Success((Some(Received(typ, rdata, scope)), e))
  {
    match rdata
    case Address(address, _) =>
    case Text(text) =>
    case Pointer(alias) => NameReads(p, i, e, alias);
    case Service(_, _, _, _) => ServiceReads(p, i, e, rdata, scope);
    case Hinfo(cpu, os) => HinfoReads(p, i, e, cpu, os, scope);
    case Nsec(_, _) => NsecReads(p, i, e, rdata, scope);
  }

  /** The unique bit survives in multicast packets only. */
  function ReceivedQuestion(multicast: bool, q: Question): Question {
    q.(unique := q.unique && multicast)
  }

  /** A record as its reader sees it: created on arrival, with the TTL that was left when it was sent. */
  function ReceivedRecord(multicast: bool, rec: Record, sent: Millis, arrival: Millis, scope: Option<int>): Record {
    rec.(unique := rec.unique && multicast, ttl := rec.WireTtl(sent), created := arrival,
         rdata := Received(rec.typ, rec.rdata, scope))
  }

  lemma ClassRoundTrip(multicast: bool, unique: bool, cls: class15)
    ensures FromWireClass(WireClass(multicast, unique, cls)) == (cls, unique && multicast)
  {
  }

  lemma AskBytes(p: seq<byte>, k: nat, e: nat, typ: uint16, cls: uint16)
    requires e == k + 4 <= |p| && p[k..e] == Short(typ) + Short(cls)
    ensures ShortAt(p, k) == typ && ShortAt(p, k + 2) == cls
  {
    var s := p[k..k + 4];
    assert s[0..2] == Short(typ) && s[2..4] == Short(cls);
    ShortIn(p, k, 4, 0, typ);
    ShortIn(p, k, 4, 2, cls);
  }

  lemma QuestionReads(p: seq<byte>, i: nat, k: nat, e: nat, multicast: bool, q: Question)
    requires ItemAt(p, i, k, e, multicast, Ask(q)) && WfName(q.name)
    ensures ReadQuestion(p, i) == Success((ReceivedQuestion(multicast, q), e))
  {
    hide ReadName, NameAt, WfName, Short, ShortAt, WireClass, FromWireClass;
    AskBytes(p, k, e, q.typ, WireClass(multicast, q.unique, q.cls));
    ClassRoundTrip(multicast, q.unique, q.cls);
    NameReads(p, i, k, q.name);
  }

  lemma HeadReads(p: seq<byte>, k: nat, e: nat, multicast: bool, rec: Record, now: Millis)
    requires k + 10 <= e <= |p| && e - k - 10 < 0x1_0000 && rec.WireTtl(now) < 0x1_0000_0000
    requires p[k..k + 10] == RecordHead(multicast, rec, now) + Short(e - k - 10)
    ensures ShortAt(p, k) == rec.typ
    ensures ShortAt(p, k + 2) == WireClass(multicast, rec.unique, rec.cls)
    ensures LongAt(p, k + 4) == rec.WireTtl(now)
    ensures ShortAt(p, k + 8) == e - k - 10
  {
    var typ, cls, ttl, length := rec.typ, WireClass(multicast, rec.unique, rec.cls), rec.WireTtl(now), e - k - 10;
    HeadParts(p[k..k + 10], typ, cls, ttl, length);
    hide Short, Long, ShortAt, LongAt;
    ShortIn(p, k, 10, 0, typ);
    ShortIn(p, k, 10, 2, cls);
    ShortIn(p, k, 10, 8, length);
    SliceOfSlice(p, k, k + 10, 4, 8);
    LongRoundTrip(p, k + 4, ttl);
  }

  /** Where the four fixed fields lie. */
  lemma HeadParts(s: seq<byte>, typ: uint16, cls: uint16, ttl: uint32, length: uint16)
    requires s == Short(typ) + Short(cls) + Long(ttl) + Short(length)
    ensures |s| == 10 && s[0..2] == Short(typ) && s[2..4] == Short(cls) && s[4..8] == Long(ttl)
            && s[8..10] == Short(length)
  {
    hide Short, Long;
  }

  /** The owner name and fixed fields the reader finds. */
  function ReceivedHead(multicast: bool, rec: Record, sent: Millis, at: nat, e: nat): Head
    requires at <= e
  {
    Head(rec.name, rec.typ, rec.cls, rec.unique && multicast, rec.WireTtl(sent), at, e - at)
  }

  lemma HeadStep(p: seq<byte>, i: nat, k: nat, at: nat, e: nat, multicast: bool, rec: Record, now: Millis)
    requires ReadName(p, i) == Success((rec.name, k)) && at == k + 10 <= e <= |p|
    requires ShortAt(p, k) == rec.typ && LongAt(p, k + 4) == rec.WireTtl(now) && ShortAt(p, k + 8) == e - at
    requires FromWireClass(ShortAt(p, k + 2)) == (rec.cls, rec.unique && multicast)
    ensures ReadHead(p, i) == Success(ReceivedHead(multicast, rec, now, at, e))
  {
  }

  lemma TellHeadReads(p: seq<byte>, i: nat, k: nat, at: nat, e: nat, multicast: bool, rec: Record, now: Millis)
    requires NameAt(p, i, k, rec.name) && WfName(rec.name) && rec.WireTtl(now) < 0x1_0000_0000
    requires k + 10 <= e <= |p| && e - k - 10 < 0x1_0000 && at == k + 10
    requires p[k..k + 10] == RecordHead(multicast, rec, now) + Short(e - k - 10)
    ensures ReadHead(p, i) == Success(ReceivedHead(multicast, rec, now, at, e))
  {
    NameReads(p, i, k, rec.name);
    HeadReads(p, k, e, multicast, rec, now);
    ClassRoundTrip(multicast, rec.unique, rec.cls);
    HeadStep(p, i, k, at, e, multicast, rec, now);
  }

  lemma PayloadReads(p: seq<byte>, e: nat, h: Head, rdata: RData, scope: Option<int>)
    requires h.at <= e <= |p| && h.length == e - h.at
    requires WfRData(h.typ, rdata) && RDataAt(p, h.at, e, rdata)
    ensures Payloads(p, scope)(h) == Success((Some(Received(h.typ, rdata, scope)), e))
  {
    hide RDataAt, Received, WfRData, ReadRData, Payloads;
    RDataReads(p, h.at, e, h.typ, rdata, scope);
    PayloadsAre(p, scope, h, ReadRData(p, h.at, h.typ, h.length, scope));
  }

  lemma PayloadsAre(p: seq<byte>, scope: Option<int>, h: Head, r: Payload)
    requires r == ReadRData(p, h.at, h.typ, h.length, scope)
    ensures Payloads(p, scope)(h) == r
  {
    hide ReadRData;
  }

  lemma GotRecord(payload: Head -> Payload, at: nat, e: nat, multicast: bool, rec: Record, now: Millis,
                  arrival: Millis, scope: Option<int>)
    requires at <= e
    requires payload(ReceivedHead(multicast, rec, now, at, e))
          == Success((Some(Received(rec.typ, rec.rdata, scope)), e))
    ensures TurnOf(Success(ReceivedHead(multicast, rec, now, at, e)), payload, arrival)
         == Got(ReceivedRecord(multicast, rec, now, arrival, scope), e)
  {
  }

  lemma RecordReads(p: seq<byte>, i: nat, k: nat, at: nat, e: nat, multicast: bool, rec: Record, now: Millis,
                    arrival: Millis, scope: Option<int>)
    requires ItemAt(p, i, k, e, multicast, Tell(rec, now)) && WfItem(Tell(rec, now)) && at == k + 10
    ensures ReadTurn(p, i, arrival, scope) == Got(ReceivedRecord(multicast, rec, now, arrival, scope), e)
  {
    TellHeadReads(p, i, k, at, e, multicast, rec, now);
    PayloadReads(p, e, ReceivedHead(multicast, rec, now, at, e), rec.rdata, scope);
    GotRecord(Payloads(p, scope), at, e, multicast, rec, now, arrival, scope);
  }
}
