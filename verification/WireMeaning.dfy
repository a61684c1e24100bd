/** The bytes written for an item are read back as that item, wherever the packet continues. */
module WireMeaning {
  import opened Results
  import opened Bytes
  import opened Names
  import opened Records
  import opened WireWriter
  import NsecBitmap

  // ---------- encodings, independent of header and of what follows ----------

  ghost predicate NameAt(p: seq<byte>, i: nat, e: nat, name: Name) {
    NameEnd(p, i, i, Split(Strip(name))) == Some(e)
  }

  ghost predicate RDataAt(p: seq<byte>, i: nat, e: nat, rdata: RData)
    requires i <= e <= |p|
  {
    match rdata
    case Address(address, _) => p[i..e] == address
    case Text(text) => p[i..e] == text
    case Pointer(alias) => NameAt(p, i, e, alias)
    case Service(priority, weight, port, server) =>
      && i + 6 <= e && p[i..i + 6] == Short(priority) + Short(weight) + Short(port)
      && NameAt(p, i + 6, e, server)
    case Hinfo(cpu, os) =>
      |cpu| < 0x100 && |os| < 0x100 && p[i..e] == ([|cpu|] + cpu) + ([|os|] + os)
    case Nsec(nextName, rdtypes) =>
      && NsecBitmap.Bitmap(rdtypes).Success? && |NsecBitmap.Bitmap(rdtypes).value| < 0x100
      && var octets := NsecBitmap.Bitmap(rdtypes).value; var k := e - |octets| - 2;
         k >= i && NameAt(p, i, k, nextName) && p[k..e] == [0, |octets|] + octets
  }

  /** Item encoded at `i..e`, its owner name ending at `k`. */
  ghost predicate ItemAt(p: seq<byte>, i: nat, k: nat, e: nat, multicast: bool, item: Item) {
    i <= k <= e <= |p| &&
    match item
    case Ask(q) =>
      && NameAt(p, i, k, q.name) && k + 4 == e
      && p[k..e] == Short(q.typ) + Short(WireClass(multicast, q.unique, q.cls))
    case Tell(rec, now) =>
      && NameAt(p, i, k, rec.name) && k + 10 <= e && e - k - 10 < 0x1_0000
      && rec.WireTtl(now) < 0x1_0000_0000
      && p[k..k + 10] == RecordHead(multicast, rec, now) + Short(e - k - 10)
      && RDataAt(p, k + 10, e, rec.rdata)
  }

  lemma SliceStable(p: seq<byte>, q: seq<byte>, i: nat, e: nat)
    requires Continues(p, q) && HEADER_LEN <= i <= e <= |p|
    ensures q[i..e] == p[i..e]
  {
  }

  lemma RDataStable(p: seq<byte>, q: seq<byte>, i: nat, e: nat, rdata: RData)
    requires Continues(p, q) && HEADER_LEN <= i <= e <= |p| && RDataAt(p, i, e, rdata)
    ensures RDataAt(q, i, e, rdata)
  {
    SliceStable(p, q, i, e);
    match rdata
    case Pointer(alias) => NameEndStable(p, q, i, i, Split(Strip(alias)));
    case Service(_, _, _, server) =>
      SliceStable(p, q, i, i + 6);
      NameEndStable(p, q, i + 6, i + 6, Split(Strip(server)));
    case Nsec(nextName, rdtypes) =>
      NameEndStable(p, q, i, i, Split(Strip(nextName)));
      SliceStable(p, q, e - |NsecBitmap.Bitmap(rdtypes).value| - 2, e);
    case _ =>
  }

  lemma ItemStable(p: seq<byte>, q: seq<byte>, i: nat, k: nat, e: nat, multicast: bool, item: Item)
    requires Continues(p, q) && HEADER_LEN <= i && ItemAt(p, i, k, e, multicast, item)
    ensures ItemAt(q, i, k, e, multicast, item)
  {
    var name := if item.Ask? then item.question.name else item.record.name;
    NameEndStable(p, q, i, i, Split(Strip(name)));
    if item.Ask? {
      SliceStable(p, q, k, e);
    } else {
      SliceStable(p, q, k, k + 10);
      RDataStable(p, q, k + 10, e, item.record.rdata);
    }
  }

  // ---------- writing ----------

  predicate WfRData(typ: uint16, rdata: RData) {
    match rdata
    case Address(address, scope) =>
      (typ == TYPE_A && |address| == 4) || (typ == TYPE_AAAA && |address| == 16)
    case Pointer(alias) => (typ == TYPE_PTR || typ == TYPE_CNAME) && WfName(alias)
    case Text(text) => typ == TYPE_TXT && |text| < 0x1_0000
    case Service(_, _, _, server) => typ == TYPE_SRV && WfName(server)
    case Hinfo(cpu, os) => typ == TYPE_HINFO && |cpu| < 0x100 && |os| < 0x100
    case Nsec(nextName, rdtypes) =>
      typ == TYPE_NSEC && WfName(nextName) && rdtypes != [] && forall t :: t in rdtypes ==> t <= 255
  }

  predicate WfItem(item: Item) {
    match item
    case Ask(q) => WfName(q.name)
    case Tell(rec, now) => WfName(rec.name) && WfRData(rec.typ, rec.rdata) && rec.WireTtl(now) < 0x1_0000_0000
  }

  /** Room that names of at most 253 bytes need below the largest pointer. */
  const NAME_ROOM := 600

  lemma NameTextOutShort(size: nat, names: Table, name: Name)
    requires WfName(name) && NameTextOut(size, names, name).Success?
    ensures |NameTextOut(size, names, name).value.bytes| <= 254
  {
    WfNameFacts(name);
    NameOutSize(size, names, Split(Strip(name)));
  }

  ghost predicate RDataMeant(p: seq<byte>, names: Table, rdata: RData) {
    var r := RDataOut(|p|, names, rdata);
    r.Success? && |r.value.bytes| < 0x1_0000
    && TableOk(p + r.value.bytes, r.value.names)
    && RDataAt(p + r.value.bytes, |p|, |p + r.value.bytes|, rdata)
  }

  lemma RDataMeantIntro(p: seq<byte>, q: seq<byte>, names: Table, rdata: RData, out: Out)
    requires RDataOut(|p|, names, rdata) == Success(out) && |out.bytes| < 0x1_0000 && q == p + out.bytes
    requires TableOk(q, out.names) && RDataAt(q, |p|, |q|, rdata)
    ensures RDataMeant(p, names, rdata)
  {
  }

  lemma ServiceOut(size: nat, size6: nat, names: Table, rdata: RData, name: Out)
    requires rdata.Service? && size6 == size + 6 && NameTextOut(size6, names, rdata.server) == Success(name)
    ensures RDataOut(size, names, rdata)
         == Success(Out(Short(rdata.priority) + Short(rdata.weight) + Short(rdata.port) + name.bytes, name.names))
  {
  }

  lemma ServiceAt(q: seq<byte>, i: nat, i6: nat, rdata: RData)
    requires rdata.Service? && i6 == i + 6 <= |q|
    requires q[i..i6] == Short(rdata.priority) + Short(rdata.weight) + Short(rdata.port)
    requires NameAt(q, i6, |q|, rdata.server)
    ensures RDataAt(q, i, |q|, rdata)
  {
  }

  lemma ServiceAssembled(p: seq<byte>, p1: seq<byte>, q: seq<byte>, names: Table, rdata: RData, name: Out)
    requires rdata.Service? && NameTextOut(|p1|, names, rdata.server) == Success(name) && |name.bytes| <= 254
    requires p1 == p + (Short(rdata.priority) + Short(rdata.weight) + Short(rdata.port)) && q == p1 + name.bytes
    requires TableOk(q, name.names) && NameAt(q, |p1|, |q|, rdata.server)
    ensures RDataMeant(p, names, rdata)
  {
    var head := Short(rdata.priority) + Short(rdata.weight) + Short(rdata.port);
    assert q[|p|..|p1|] == head;
    hide RDataAt, NameAt, NameTextOut, TableOk, RDataMeant, RDataOut, Short;
    ServiceOut(|p|, |p1|, names, rdata, name);
    ServiceAt(q, |p|, |p1|, rdata);
    RDataMeantIntro(p, q, names, rdata, Out(head + name.bytes, name.names));
  }

  lemma ServiceMeaning(p: seq<byte>, names: Table, rdata: RData)
    requires TableOk(p, names) && rdata.Service? && WfName(rdata.server) && |p| + 260 <= LINK_LIMIT
    ensures RDataMeant(p, names, rdata)
  {
    var p1 := p + (Short(rdata.priority) + Short(rdata.weight) + Short(rdata.port));
    TableStable(p, p1, names);
    NameTextOutMeaning(p1, names, rdata.server);
    NameTextOutShort(|p1|, names, rdata.server);
    var name := NameTextOut(|p1|, names, rdata.server).value;
    ServiceAssembled(p, p1, p1 + name.bytes, names, rdata, name);
  }

  lemma NsecOut(size: nat, names: Table, rdata: RData, octets: seq<byte>, name: Out)
    requires rdata.Nsec? && NsecBitmap.Bitmap(rdata.rdtypes) == Success(octets) && |octets| <= 32
    requires NameTextOut(size, names, rdata.nextName) == Success(name)
    ensures RDataOut(size, names, rdata) == Success(Out(name.bytes + [0, |octets|] + octets, name.names))
  {
  }

  lemma NsecAt(p1: seq<byte>, q: seq<byte>, i: nat, rdata: RData, octets: seq<byte>)
    requires rdata.Nsec? && NsecBitmap.Bitmap(rdata.rdtypes) == Success(octets) && |octets| <= 32
    requires HEADER_LEN <= i <= |p1| && NameAt(p1, i, |p1|, rdata.nextName) && q == p1 + ([0, |octets|] + octets)
    ensures RDataAt(q, i, |q|, rdata)
  {
    NameEndStable(p1, q, i, i, Split(Strip(rdata.nextName)));
    assert q[|p1|..|q|] == [0, |octets|] + octets;
  }

  lemma NsecAssembled(p: seq<byte>, p1: seq<byte>, q: seq<byte>, names: Table, rdata: RData, octets: seq<byte>,
                      name: Out)
    requires rdata.Nsec? && NsecBitmap.Bitmap(rdata.rdtypes) == Success(octets) && |octets| <= 32
    requires NameTextOut(|p|, names, rdata.nextName) == Success(name) && |name.bytes| <= 254
    requires HEADER_LEN <= |p| && p1 == p + name.bytes && q == p1 + ([0, |octets|] + octets)
    requires TableOk(p1, name.names) && NameAt(p1, |p|, |p1|, rdata.nextName)
    ensures RDataMeant(p, names, rdata)
  {
    NsecOut(|p|, names, rdata, octets, name);
    NsecAt(p1, q, |p|, rdata, octets);
    TableStable(p1, q, name.names);
    Assembled3(p, p1, q, name.bytes, [0, |octets|], octets);
    RDataMeantIntro(p, q, names, rdata, Out(name.bytes + [0, |octets|] + octets, name.names));
  }

  lemma Assembled3(p: seq<byte>, p1: seq<byte>, q: seq<byte>, a: seq<byte>, b: seq<byte>, c: seq<byte>)
    requires p1 == p + a && q == p1 + (b + c)
    ensures q == p + (a + b + c)
  {
  }

  lemma NsecMeaning(p: seq<byte>, names: Table, rdata: RData, octets: seq<byte>)
    requires TableOk(p, names) && WfRData(TYPE_NSEC, rdata) && |p| + 260 <= LINK_LIMIT
    requires NsecBitmap.Bitmap(rdata.rdtypes) == Success(octets) && |octets| <= 32
    ensures RDataMeant(p, names, rdata)
  {
    assert |p| >= HEADER_LEN;
    hide NameTextOut, TableOk, RDataMeant, NameEnd, NsecBitmap.Bitmap;
    NameTextOutMeaning(p, names, rdata.nextName);
    NameTextOutShort(|p|, names, rdata.nextName);
    var name := NameTextOut(|p|, names, rdata.nextName).value;
    var p1 := p + name.bytes;
    NsecAssembled(p, p1, p1 + ([0, |octets|] + octets), names, rdata, octets, name);
  }

  lemma RDataMeaning(p: seq<byte>, names: Table, typ: uint16, rdata: RData)
    requires TableOk(p, names) && WfRData(typ, rdata) && |p| + 260 <= LINK_LIMIT
    ensures RDataMeant(p, names, rdata)
  {
    match rdata
    case Address(address, _) =>
      TableStable(p, p + address, names);
    case Text(text) =>
      TableStable(p, p + text, names);
    case Pointer(alias) =>
      NameTextOutMeaning(p, names, alias);
      NameTextOutShort(|p|, names, alias);
    case Service(priority, weight, port, server) =>
      ServiceMeaning(p, names, rdata);
    case Hinfo(cpu, os) =>
      TableStable(p, p + (([|cpu|] + cpu) + ([|os|] + os)), names);
    case Nsec(nextName, rdtypes) =>
      NsecBitmap.BitmapRoundTrip(rdtypes);
      NsecMeaning(p, names, rdata, NsecBitmap.Bitmap(rdtypes).value);
  }

  ghost predicate ItemMeant(p: seq<byte>, k: nat, names: Table, multicast: bool, item: Item) {
    var r := ItemOut(|p|, names, multicast, item);
    r.Success? && TableOk(p + r.value.bytes, r.value.names)
    && ItemAt(p + r.value.bytes, |p|, k, |p + r.value.bytes|, multicast, item)
  }

  lemma ItemMeantIntro(p: seq<byte>, q: seq<byte>, k: nat, names: Table, multicast: bool, item: Item, out: Out)
    requires ItemOut(|p|, names, multicast, item) == Success(out) && q == p + out.bytes
    requires TableOk(q, out.names) && ItemAt(q, |p|, k, |q|, multicast, item)
    ensures ItemMeant(p, k, names, multicast, item)
  {
  }

  lemma AskMeaning(p: seq<byte>, p1: seq<byte>, names: Table, name: Out, multicast: bool, q: Question)
    requires HEADER_LEN <= |p| && NameTextOut(|p|, names, q.name) == Success(name) && p1 == p + name.bytes
    requires TableOk(p1, name.names) && NameAt(p1, |p|, |p1|, q.name)
    ensures ItemMeant(p, |p1|, names, multicast, Ask(q))
  {
    var typ, cls := Short(q.typ), Short(WireClass(multicast, q.unique, q.cls));
    var packet := p1 + (typ + cls);
    TableStable(p1, packet, name.names);
    NameEndStable(p1, packet, |p|, |p|, Split(Strip(q.name)));
    assert packet[|p1|..|packet|] == typ + cls;
    assert ItemOut(|p|, names, multicast, Ask(q)) == Success(Out(name.bytes + typ + cls, name.names));
    Assembled3(p, p1, packet, name.bytes, typ, cls);
    ItemMeantIntro(p, packet, |p1|, names, multicast, Ask(q), Out(name.bytes + typ + cls, name.names));
  }

  lemma TellAt(p1: seq<byte>, p2: seq<byte>, q: seq<byte>, i: nat, multicast: bool, rec: Record, now: Millis)
    requires HEADER_LEN <= i <= |p1| && NameAt(p1, i, |p1|, rec.name) && rec.WireTtl(now) < 0x1_0000_0000
    requires |p2| <= |q| && |q| - |p2| < 0x1_0000 && q[..|p2|] == p2
    requires p2 == p1 + (RecordHead(multicast, rec, now) + Short(|q| - |p2|))
    requires RDataAt(q, |p2|, |q|, rec.rdata)
    ensures ItemAt(q, i, |p1|, |q|, multicast, Tell(rec, now))
  {
    NameEndStable(p1, q, i, i, Split(Strip(rec.name)));
    var fixed := RecordHead(multicast, rec, now) + Short(|q| - |p2|);
    assert q[|p1|..|p1| + 10] == p2[|p1|..] == fixed;
  }

  lemma Assembled4(p: seq<byte>, p1: seq<byte>, p2: seq<byte>, q: seq<byte>,
                   a: seq<byte>, b: seq<byte>, c: seq<byte>, d: seq<byte>)
    requires p1 == p + a && p2 == p1 + (b + c) && q == p2 + d
    ensures q == p + (a + b + c + d) && |p2| == |p| + |a| + |b| + |c| && q[..|p2|] == p2
  {
  }

  lemma TellAssembled(p: seq<byte>, p1: seq<byte>, p2: seq<byte>, names: Table, name: Out, rdata: Out,
                      multicast: bool, rec: Record, now: Millis)
    requires HEADER_LEN <= |p| && NameTextOut(|p|, names, rec.name) == Success(name) && p1 == p + name.bytes
    requires NameAt(p1, |p|, |p1|, rec.name) && rec.WireTtl(now) < 0x1_0000_0000
    requires |rdata.bytes| < 0x1_0000
    requires p2 == p1 + (RecordHead(multicast, rec, now) + Short(|rdata.bytes|))
    requires RDataOut(|p2|, name.names, rec.rdata) == Success(rdata)
    requires TableOk(p2 + rdata.bytes, rdata.names) && RDataAt(p2 + rdata.bytes, |p2|, |p2 + rdata.bytes|, rec.rdata)
    ensures ItemMeant(p, |p1|, names, multicast, Tell(rec, now))
  {
    var q := p2 + rdata.bytes;
    var head, length := RecordHead(multicast, rec, now), Short(|rdata.bytes|);
    Assembled4(p, p1, p2, q, name.bytes, head, length, rdata.bytes);
    TellOutIs(|p|, |p2|, names, multicast, rec, now, name);
    TellAt(p1, p2, q, |p|, multicast, rec, now);
    ItemMeantIntro(p, q, |p1|, names, multicast, Tell(rec, now),
                   Out(name.bytes + head + length + rdata.bytes, rdata.names));
  }

  /** The length field in front of the payload does not influence the payload. */
  lemma TellMeaning(p: seq<byte>, p1: seq<byte>, names: Table, name: Out, multicast: bool, rec: Record, now: Millis)
    requires HEADER_LEN <= |p| && NameTextOut(|p|, names, rec.name) == Success(name) && p1 == p + name.bytes
    requires TableOk(p1, name.names) && NameAt(p1, |p|, |p1|, rec.name)
    requires WfItem(Tell(rec, now)) && |p1| + 270 <= LINK_LIMIT
    ensures ItemMeant(p, |p1|, names, multicast, Tell(rec, now))
  {
    var head := RecordHead(multicast, rec, now);
    var draft := p1 + (head + Short(0));
    var rdata := RDataAfter(p1, draft, name.names, rec);
    var p2 := p1 + (head + Short(|rdata.bytes|));
    var same := RDataAfter(p1, p2, name.names, rec);
    assert |draft| == |p2| && same == rdata;
    TellAssembled(p, p1, p2, names, name, same, multicast, rec, now);
  }

  lemma RDataAfter(p1: seq<byte>, p2: seq<byte>, names: Table, rec: Record) returns (rdata: Out)
    requires TableOk(p1, names) && WfRData(rec.typ, rec.rdata) && |p1| + 270 <= LINK_LIMIT
    requires |p2| == |p1| + 10 && Continues(p1, p2)
    ensures RDataOut(|p2|, names, rec.rdata) == Success(rdata) && |rdata.bytes| < 0x1_0000
    ensures var q := p2 + rdata.bytes;
            TableOk(q, rdata.names) && RDataAt(q, |p2|, |q|, rec.rdata)
  {
    TableStable(p1, p2, names);
    RDataMeaning(p2, names, rec.typ, rec.rdata);
    rdata := RDataOut(|p2|, names, rec.rdata).value;
  }

  /** Writing a well-formed item succeeds, keeps the table invariant and encodes the item. */
  lemma ItemMeaning(p: seq<byte>, names: Table, multicast: bool, item: Item) returns (k: nat)
    requires TableOk(p, names) && WfItem(item) && |p| + NAME_ROOM <= LINK_LIMIT
    ensures ItemMeant(p, k, names, multicast, item)
  {
    var text := if item.Ask? then item.question.name else item.record.name;
    NameTextOutMeaning(p, names, text);
    NameTextOutShort(|p|, names, text);
    var name := NameTextOut(|p|, names, text).value;
    var p1 := p + name.bytes;
    k := |p1|;
    match item
    case Ask(q) => AskMeaning(p, p1, names, name, multicast, q);
    case Tell(rec, now) => TellMeaning(p, p1, names, name, multicast, rec, now);
  }
}
