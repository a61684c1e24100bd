/** What `DNSOutgoing` appends to a packet for one question or record, as a function of the packet's size
    so far and of its name table; and what those bytes mean. */
module WireWriter {
  import opened Results
  import opened Bytes
  import opened Names
  import opened Records
  import NsecBitmap

  const HEADER_LEN := 12
  const LINK_LIMIT := 0x4000

  /** The `names` dictionary: text of a name, without its trailing dot, to its offset in the packet. */
  type Table = map<Name, nat>

  datatype Out = Out(bytes: seq<byte>, names: Table)

  /** `_write_utf` */
  function UtfOut(part: Label): Result<seq<byte>> {
    if |part| > 64 then Failure(NamePartTooLong) else Success([|part|] + part)
  }

  /** `write_character_string`: 256 bytes pass its own check, but no byte holds that length. */
  function CharacterStringOut(s: seq<byte>): Result<seq<byte>> {
    if |s| > 256 then Failure(NamePartTooLong)
    else if |s| == 256 then Failure(IndexError)
    else Success([|s|] + s)
  }

  /** `_write_link_to_name`: `(index >> 8) | 0xC0`, then `index & 0xFF` */
  function LinkOut(index: nat): Result<seq<byte>> {
    if index >= 0x1_0000 then Failure(IndexError)
    else Success([0xC0 + index / 0x100 % 0x40, index % 0x100])
  }

  /** `write_name` on the labels left to write, in a packet of `size` bytes. */
  function NameOut(size: nat, names: Table, labels: seq<Label>): Result<Out>
    decreases |labels|
  {
    if labels == [] then Success(Out([0], names))
    else
      var part := Join(labels);
      if part in names && names[part] != 0 then
        var link :- LinkOut(names[part]);
        Success(Out(link, names))
      else
        var utf :- UtfOut(labels[0]);
        var rest :- NameOut(size + |utf|, names[part := size], labels[1..]);
        Success(Out(utf + rest.bytes, rest.names))
  }

  function NameTextOut(size: nat, names: Table, name: Name): Result<Out> {
    NameOut(size, names, Split(Strip(name)))
  }

  /** The `write` method of each record class. */
  function RDataOut(size: nat, names: Table, rdata: RData): Result<Out> {
    match rdata
    case Address(address, _) => Success(Out(address, names))
    case Text(text) => Success(Out(text, names))
    case Pointer(alias) => NameTextOut(size, names, alias)
    case Service(priority, weight, port, server) =>
      var name :- NameTextOut(size + 6, names, server);
      Success(Out(Short(priority) + Short(weight) + Short(port) + name.bytes, name.names))
    case Hinfo(cpu, os) =>
      var c :- CharacterStringOut(cpu);
      var o :- CharacterStringOut(os);
      Success(Out(c + o, names))
    case Nsec(nextName, rdtypes) =>
      var octets :- NsecBitmap.Bitmap(rdtypes);
      var name :- NameTextOut(size, names, nextName);
      if |octets| >= 0x100 then Failure(IndexError)
      else Success(Out(name.bytes + [0, |octets|] + octets, name.names))
  }

  /** The class with the unique/QU bit, which only multicast packets carry. */
  function WireClass(multicast: bool, unique: bool, cls: class15): uint16 {
    if unique && multicast then cls + CLASS_UNIQUE else cls
  }

  /** A question to ask, or a record to send with the TTL left at `now` (the full TTL when `now` is 0). */
  datatype Item = Ask(question: Question) | Tell(record: Record, now: Millis)

  function RecordHead(multicast: bool, rec: Record, now: Millis): (r: seq<byte>)
    requires rec.WireTtl(now) < 0x1_0000_0000
    ensures |r| == 8
  {
    Short(rec.typ) + Short(WireClass(multicast, rec.unique, rec.cls)) + Long(rec.WireTtl(now))
  }

  /** `_write_question` and `_write_record` before the limit check. */
  function ItemOut(size: nat, names: Table, multicast: bool, item: Item): Result<Out> {
    match item
    case Ask(q) =>
      var name :- NameTextOut(size, names, q.name);
      Success(Out(name.bytes + Short(q.typ) + Short(WireClass(multicast, q.unique, q.cls)), name.names))
    case Tell(rec, now) =>
      var name :- NameTextOut(size, names, rec.name);
      if rec.WireTtl(now) >= 0x1_0000_0000 then Failure(StructError)
      else
        var rdata :- RDataOut(size + |name.bytes| + 10, name.names, rec.rdata);
        if |rdata.bytes| >= 0x1_0000 then Failure(StructError)
        else Success(Out(name.bytes + RecordHead(multicast, rec, now) + Short(|rdata.bytes|) + rdata.bytes,
                         rdata.names))
  }

  // ---------- the table only ever grows, by offsets inside what was just written ----------

  ghost predicate Extends(names: Table, more: Table, size: nat) {
    && (forall n :: n in names ==> n in more && more[n] == names[n])
    && (forall n :: n in more && n !in names ==> more[n] >= size)
  }

  ghost predicate Positive(names: Table) {
    forall n :: n in names ==> names[n] >= HEADER_LEN
  }

  lemma {:induction false} NameOutExtends(size: nat, names: Table, labels: seq<Label>)
    requires Positive(names) && size >= HEADER_LEN && NameOut(size, names, labels).Success?
    ensures var out := NameOut(size, names, labels).value;
            Extends(names, out.names, size) && Positive(out.names) && |out.bytes| >= 1
    decreases |labels|
  {
    if labels != [] && Join(labels) !in names {
      NameOutExtends(size + |UtfOut(labels[0]).value|, names[Join(labels) := size], labels[1..]);
    }
  }

  lemma RDataOutExtends(size: nat, names: Table, rdata: RData)
    requires Positive(names) && size >= HEADER_LEN && RDataOut(size, names, rdata).Success?
    ensures var out := RDataOut(size, names, rdata).value; Extends(names, out.names, size) && Positive(out.names)
  {
    match rdata
    case Pointer(alias) => NameOutExtends(size, names, Split(Strip(alias)));
    case Service(_, _, _, server) => NameOutExtends(size + 6, names, Split(Strip(server)));
    case Nsec(nextName, _) => NameOutExtends(size, names, Split(Strip(nextName)));
    case _ =>
  }

  lemma ItemOutExtends(size: nat, names: Table, multicast: bool, item: Item)
    requires Positive(names) && size >= HEADER_LEN && ItemOut(size, names, multicast, item).Success?
    ensures var out := ItemOut(size, names, multicast, item).value;
            Extends(names, out.names, size) && Positive(out.names) && |out.bytes| >= 5
  {
    match item
    case Ask(q) =>
      NameOutExtends(size, names, Split(Strip(q.name)));
    case Tell(rec, now) =>
      NameOutExtends(size, names, Split(Strip(rec.name)));
      var name := NameTextOut(size, names, rec.name).value;
      RDataOutExtends(size + |name.bytes| + 10, name.names, rec.rdata);
      assert |RecordHead(multicast, rec, now)| == 8;
  }

  ghost predicate Below(names: Table, size: nat) {
    forall n :: n in names ==> names[n] < size
  }

  lemma {:induction false} NameOutBelow(size: nat, names: Table, labels: seq<Label>)
    requires Below(names, size) && NameOut(size, names, labels).Success?
    ensures var out := NameOut(size, names, labels).value;
            Below(out.names, size + |out.bytes|) && |out.bytes| >= 1
    decreases |labels|
  {
    if labels != [] && !(Join(labels) in names && names[Join(labels)] != 0) {
      NameOutBelow(size + 1 + |labels[0]|, names[Join(labels) := size], labels[1..]);
    }
  }

  lemma RDataOutBelow(size: nat, names: Table, rdata: RData)
    requires Below(names, size) && RDataOut(size, names, rdata).Success?
    ensures var out := RDataOut(size, names, rdata).value; Below(out.names, size + |out.bytes|)
  {
    match rdata
    case Pointer(alias) => NameOutBelow(size, names, Split(Strip(alias)));
    case Service(_, _, _, server) => NameOutBelow(size + 6, names, Split(Strip(server)));
    case Nsec(nextName, _) => NameOutBelow(size, names, Split(Strip(nextName)));
    case _ =>
  }

  /** New table entries lie inside what was written. */
  lemma ItemOutBelow(size: nat, names: Table, multicast: bool, item: Item)
    requires Below(names, size) && ItemOut(size, names, multicast, item).Success?
    ensures var out := ItemOut(size, names, multicast, item).value; Below(out.names, size + |out.bytes|)
  {
    match item
    case Ask(q) =>
      NameOutBelow(size, names, Split(Strip(q.name)));
    case Tell(rec, now) =>
      TellOutBelow(size, names, multicast, rec, now, NameTextOut(size, names, rec.name).value);
  }

  lemma TellOutIs(size: nat, at: nat, names: Table, multicast: bool, record: Record, now: Millis, name: Out)
    requires NameTextOut(size, names, record.name) == Success(name) && record.WireTtl(now) < 0x1_0000_0000
    requires at == size + |name.bytes| + 10
    ensures match RDataOut(at, name.names, record.rdata)
            case Failure(error) => ItemOut(size, names, multicast, Tell(record, now)) == Failure(error)
            case Success(rdata) =>
              ItemOut(size, names, multicast, Tell(record, now)) ==
              if |rdata.bytes| >= 0x1_0000 then Failure(StructError)
              else Success(Out(name.bytes + RecordHead(multicast, record, now) + Short(|rdata.bytes|) + rdata.bytes,
                               rdata.names))
  {
  }

  lemma TellOutBelow(size: nat, names: Table, multicast: bool, rec: Record, now: Millis, name: Out)
    requires Below(names, size) && ItemOut(size, names, multicast, Tell(rec, now)).Success?
    requires NameTextOut(size, names, rec.name) == Success(name)
    ensures var out := ItemOut(size, names, multicast, Tell(rec, now)).value; Below(out.names, size + |out.bytes|)
  {
    NameOutBelow(size, names, Split(Strip(rec.name)));
    var at := size + |name.bytes| + 10;
    TellOutIs(size, at, names, multicast, rec, now, name);
    assert Below(name.names, at);
    RDataOutBelow(at, name.names, rec.rdata);
  }

  /** What `_check_data_limit_or_rollback` does to the table. */
  function RolledBack(names: Table, size: nat): Table {
    map n | n in names && names[n] < size :: names[n]
  }

  /** Rolling an item back restores exactly the table from before it. */
  lemma RollbackExact(size: nat, names: Table, multicast: bool, item: Item)
    requires Positive(names) && size >= HEADER_LEN && ItemOut(size, names, multicast, item).Success?
    requires Below(names, size)
    ensures RolledBack(ItemOut(size, names, multicast, item).value.names, size) == names
  {
    ItemOutExtends(size, names, multicast, item);
  }

  /** A name never takes more room than its labels spelled out. */
  lemma {:induction false} NameOutSize(size: nat, names: Table, labels: seq<Label>)
    requires NameOut(size, names, labels).Success?
    ensures |NameOut(size, names, labels).value.bytes| <= LabelBytes(labels) + 1
    decreases |labels|
  {
    if labels != [] {
      if !(Join(labels) in names && names[Join(labels)] != 0) {
        NameOutSize(size + 1 + |labels[0]|, names[Join(labels) := size], labels[1..]);
      }
    }
  }

  // ---------- what the written bytes mean ----------

  /** Where the encoding of `labels` starting at `i` ends in packet `p`; `None` if they are not encoded there.
      Only pointers to offsets from 12 up to but not including `bound` are followed, each lowering the bound. */
  ghost function NameEnd(p: seq<byte>, bound: nat, i: nat, labels: seq<Label>): Option<nat>
    decreases |labels|, bound
  {
    if i >= |p| then None
    else if labels == [] then if p[i] == 0 then Some(i + 1) else None
    else if p[i] >= 0xC0 then
      if i + 1 >= |p| then None
      else
        var t := ((p[i] as int) - 0xC0) * 0x100 + p[i + 1];
        if HEADER_LEN <= t < bound && NameEnd(p, t, t, labels).Some? then Some(i + 2) else None
    else
      var next := i + 1 + |labels[0]|;
      if p[i] == |labels[0]| && 1 <= |labels[0]| <= MAX_LABEL && next <= |p| && p[i + 1..next] == labels[0]
      then NameEnd(p, bound, next, labels[1..])
      else None
  }

  /** `q` continues `p`, whatever the 12 header bytes are. */
  ghost predicate Continues(p: seq<byte>, q: seq<byte>) {
    |p| <= |q| && forall k :: HEADER_LEN <= k < |p| ==> p[k] == q[k]
  }

  lemma {:induction false} NameEndStable(p: seq<byte>, q: seq<byte>, bound: nat, i: nat, labels: seq<Label>)
    requires Continues(p, q) && HEADER_LEN <= i && NameEnd(p, bound, i, labels).Some?
    ensures NameEnd(q, bound, i, labels) == NameEnd(p, bound, i, labels)
    ensures i < NameEnd(p, bound, i, labels).value <= |p|
    decreases |labels|, bound
  {
    if labels != [] {
      if p[i] >= 0xC0 {
        var t := ((p[i] as int) - 0xC0) * 0x100 + p[i + 1];
        NameEndStable(p, q, t, t, labels);
      } else {
        var next := i + 1 + |labels[0]|;
        assert q[i + 1..next] == p[i + 1..next];
        NameEndStable(p, q, bound, next, labels[1..]);
      }
    }
  }

  lemma {:induction false} NameEndBound(p: seq<byte>, bound: nat, higher: nat, i: nat, labels: seq<Label>)
    requires bound <= higher && NameEnd(p, bound, i, labels).Some?
    ensures NameEnd(p, higher, i, labels) == NameEnd(p, bound, i, labels)
    decreases |labels|
  {
    if labels != [] && p[i] < 0xC0 {
      NameEndBound(p, bound, higher, i + 1 + |labels[0]|, labels[1..]);
    }
  }

  /** The name table's invariant for one entry. */
  ghost predicate EntryOk(p: seq<byte>, bound: nat, offset: nat, part: Name) {
    HEADER_LEN <= offset < |p| && offset < LINK_LIMIT && NameEnd(p, bound, offset, Split(part)).Some?
  }

  /** Every entry of the table is the offset of bytes that spell exactly its name, through
      strictly decreasing pointers. */
  ghost predicate TableOk(p: seq<byte>, names: Table) {
    |p| >= HEADER_LEN && forall n :: n in names ==> EntryOk(p, names[n], names[n], n)
  }

  lemma TableStable(p: seq<byte>, q: seq<byte>, names: Table)
    requires TableOk(p, names) && Continues(p, q)
    ensures TableOk(q, names)
  {
    forall n | n in names
      ensures EntryOk(q, names[n], names[n], n)
    {
      NameEndStable(p, q, names[n], names[n], Split(n));
    }
  }

  /** While a name starting at `start` is being written: finished entries are good, the name's own entries
      are longer than what is left of it. */
  ghost predicate WritingName(p: seq<byte>, start: nat, names: Table, left: nat) {
    forall n :: n in names ==>
      if names[n] < start then EntryOk(p, names[n], names[n], n) else |n| > left
  }

  /** `q` ends with `labels`, written from offset `i` on as part of a name that starts at `start`,
      and every new entry of the table spells its name in `q`. */
  ghost predicate Written(q: seq<byte>, start: nat, i: nat, labels: seq<Label>, names: Table, more: Table) {
    && NameEnd(q, start, i, labels) == Some(|q|)
    && (forall n :: n in names ==> n in more && more[n] == names[n])
    && (forall n :: n in more && n !in names ==> i <= more[n] && EntryOk(q, start, more[n], n))
  }

  lemma LinkMeaning(p: seq<byte>, start: nat, t: nat, labels: seq<Label>)
    requires HEADER_LEN <= t < start <= |p| && t < LINK_LIMIT && labels != [] && NameEnd(p, t, t, labels).Some?
    ensures var q := p + LinkOut(t).value; NameEnd(q, start, |p|, labels) == Some(|q|)
  {
    var q := p + LinkOut(t).value;
    assert q[|p|] == 0xC0 + t / 0x100 && q[|p| + 1] == t % 0x100;
    NameEndStable(p, q, t, t, labels);
  }

  lemma SpellLabel(q: seq<byte>, bound: nat, i: nat, next: nat, labels: seq<Label>)
    requires labels != [] && 1 <= |labels[0]| <= MAX_LABEL
    requires next == i + 1 + |labels[0]| <= |q|
    requires q[i] == |labels[0]| && q[i + 1..next] == labels[0]
    ensures NameEnd(q, bound, i, labels) == NameEnd(q, bound, next, labels[1..])
  {
  }

  lemma OwnEntry(q: seq<byte>, start: nat, i: nat, next: nat, labels: seq<Label>)
    requires labels != [] && WfLabels(labels) && HEADER_LEN <= i < LINK_LIMIT && i < next <= |q|
    requires NameEnd(q, start, i, labels) == NameEnd(q, start, next, labels[1..]) == Some(|q|)
    ensures EntryOk(q, start, i, Join(labels))
  {
    hide NameEnd;
    SplitJoin(labels);
  }

  lemma LabelMeaning(q: seq<byte>, start: nat, i: nat, next: nat, labels: seq<Label>, names: Table, more: Table)
    requires labels != [] && WfLabels(labels) && HEADER_LEN <= i < LINK_LIMIT && start <= i
    requires next == i + 1 + |labels[0]| <= |q|
    requires q[i] == |labels[0]| && q[i + 1..next] == labels[0]
    requires Join(labels) !in names
    requires Written(q, start, next, labels[1..], names[Join(labels) := i], more)
    ensures Written(q, start, i, labels, names, more)
  {
    hide NameEnd, EntryOk, Join;
    assert labels[0] in labels;
    SpellLabel(q, start, i, next, labels);
    OwnEntry(q, start, i, next, labels);
    assert Join(labels) in names[Join(labels) := i];
  }

  lemma NameOutLabel(size: nat, next: nat, names: Table, labels: seq<Label>, rest: Out)
    requires labels != [] && Join(labels) !in names && |labels[0]| <= 64 && next == size + 1 + |labels[0]|
    requires NameOut(next, names[Join(labels) := size], labels[1..]) == Success(rest)
    ensures NameOut(size, names, labels) == Success(Out(UtfOut(labels[0]).value + rest.bytes, rest.names))
  {
  }

  lemma WritingOn(p: seq<byte>, start: nat, names: Table, labels: seq<Label>)
    requires |labels| > 1 && WfLabels(labels) && start <= |p|
    requires WritingName(p, start, names, |Join(labels)|)
    ensures WritingName(p + UtfOut(labels[0]).value, start, names[Join(labels) := |p|], |Join(labels[1..])|)
  {
    assert labels[0] in labels;
    var p1 := p + UtfOut(labels[0]).value;
    forall n | n in names && names[n] < start
      ensures EntryOk(p1, names[n], names[n], n)
    {
      NameEndStable(p, p1, names[n], names[n], Split(n));
    }
  }

  ghost predicate NameMeant(p: seq<byte>, start: nat, names: Table, labels: seq<Label>) {
    var r := NameOut(|p|, names, labels);
    r.Success? && Written(p + r.value.bytes, start, |p|, labels, names, r.value.names)
  }

  lemma NameMeantLabel(p: seq<byte>, p1: seq<byte>, start: nat, names: Table, labels: seq<Label>, rest: Out)
    requires labels != [] && WfLabels(labels) && HEADER_LEN <= |p| < LINK_LIMIT && start <= |p|
    requires Join(labels) !in names && p1 == p + ([|labels[0]|] + labels[0])
    requires NameOut(|p1|, names[Join(labels) := |p|], labels[1..]) == Success(rest)
    requires Written(p1 + rest.bytes, start, |p1|, labels[1..], names[Join(labels) := |p|], rest.names)
    ensures NameMeant(p, start, names, labels)
  {
    hide Written, NameOut, NameMeant, Join;
    assert labels[0] in labels;
    var q := p1 + rest.bytes;
    LabelWritten(p, p1, q, start, names, labels, rest);
    NameOutLabel(|p|, |p1|, names, labels, rest);
    var bytes := [|labels[0]|] + labels[0] + rest.bytes;
    assert q == p + bytes;
    NameMeantIntro(p, q, start, names, labels, Out(bytes, rest.names));
  }

  lemma LabelWritten(p: seq<byte>, p1: seq<byte>, q: seq<byte>, start: nat, names: Table, labels: seq<Label>, rest: Out)
    requires labels != [] && WfLabels(labels) && HEADER_LEN <= |p| < LINK_LIMIT && start <= |p|
    requires Join(labels) !in names && p1 == p + ([|labels[0]|] + labels[0]) && q == p1 + rest.bytes
    requires Written(q, start, |p1|, labels[1..], names[Join(labels) := |p|], rest.names)
    ensures Written(q, start, |p|, labels, names, rest.names)
  {
    assert labels[0] in labels;
    assert q[|p| + 1..|p1|] == labels[0];
    LabelMeaning(q, start, |p|, |p1|, labels, names, rest.names);
  }

  lemma NameMeantIntro(p: seq<byte>, q: seq<byte>, start: nat, names: Table, labels: seq<Label>, out: Out)
    requires NameOut(|p|, names, labels) == Success(out) && q == p + out.bytes
    requires Written(q, start, |p|, labels, names, out.names)
    ensures NameMeant(p, start, names, labels)
  {
  }

  lemma {:induction false} NameOutMeaning(p: seq<byte>, start: nat, names: Table, labels: seq<Label>)
    requires HEADER_LEN <= start <= |p| && |p| + LabelBytes(labels) <= LINK_LIMIT && WfLabels(labels)
    requires Positive(names)
    requires labels != [] ==> WritingName(p, start, names, |Join(labels)|)
    ensures NameMeant(p, start, names, labels)
    decreases |labels|
  {
    if labels != [] {
      var part := Join(labels);
      if part in names {
        SplitJoin(labels);
        LinkMeaning(p, start, names[part], labels);
        assert NameOut(|p|, names, labels) == Success(Out(LinkOut(names[part]).value, names));
      } else {
        assert labels[0] in labels;
        assert WfLabels(labels[1..]);
        if |labels| > 1 {
          WritingOn(p, start, names, labels);
        }
        NameOutMeaning(p + UtfOut(labels[0]).value, start, names[part := |p|], labels[1..]);
        var p1, names1 := p + UtfOut(labels[0]).value, names[part := |p|];
        NameMeantLabel(p, p1, start, names, labels, NameOut(|p1|, names1, labels[1..]).value);
      }
    }
  }

  lemma TableStart(p: seq<byte>, names: Table, labels: seq<Label>)
    requires TableOk(p, names)
    ensures Positive(names) && WritingName(p, |p|, names, |Join(labels)|)
  {
    hide NameEnd, Join;
  }

  lemma WfNameLabels(name: Name)
    requires WfName(name)
    ensures WfLabels(Split(Strip(name)))
  {
  }

  /** Writing a name keeps the table invariant and appends bytes that spell the name. */
  lemma NameTextOutMeaning(p: seq<byte>, names: Table, name: Name)
    requires TableOk(p, names) && WfName(name) && |p| + |name| <= LINK_LIMIT
    ensures NameTextOut(|p|, names, name).Success?
    ensures var out := NameTextOut(|p|, names, name).value; var q := p + out.bytes;
            && TableOk(q, out.names)
            && NameEnd(q, |p|, |p|, Split(Strip(name))) == Some(|q|)
  {
    hide NameOut, NameEnd, Split, Join, WfName, Strip;
    var labels := Split(Strip(name));
    WfNameFacts(name);
    TableStart(p, names, labels);
    WfNameLabels(name);
    NameOutMeaning(p, |p|, names, labels);
    var out := NameOut(|p|, names, labels).value;
    var q := p + out.bytes;
    TableStable(p, q, names);
    forall n | n in out.names && n !in names
      ensures EntryOk(q, out.names[n], out.names[n], n)
    {
      NameEndBound(q, |p|, out.names[n], out.names[n], Split(n));
    }
  }
}
