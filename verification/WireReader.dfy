/** What a received packet means: the reading functions of `DNSIncoming`, with the cache-free name decoder. */
module WireReader {
  import opened Results
  import opened Bytes
  import opened Names
  import opened NameDecoder
  import opened Records
  import NsecBitmap

  /** `_read_name`: names of more than 253 characters, trailing dot included, are refused. */
  function ReadName(p: seq<byte>, off: nat): Result<(Name, nat)> {
    var d :- Decode(p, off, {});
    var name := Join(d.labels) + [DOT];
    if |name| > MAX_NAME_LENGTH then Failure(DecodeError) else Success((name, d.next))
  }

  /** `_read_character_string` */
  function ReadCharacterString(p: seq<byte>, off: nat): Result<(seq<byte>, nat)> {
    if off >= |p| then Failure(IndexError)
    else Success((Slice(p, off + 1, off + 1 + p[off]), off + 1 + p[off]))
  }

  /** `_read_bitmap`: one window after the other until `end` is reached or passed. */
  function ReadBitmap(p: seq<byte>, off: nat, end: nat): Result<(seq<nat>, nat)>
    decreases end - off
  {
    if off >= end then Success(([], off))
    else if off + 1 >= |p| then Failure(IndexError)
    else
      var next := off + 2 + p[off + 1];
      var octets := Slice(p, off + 2, next);
      var rest :- ReadBitmap(p, next, end);
      Success((NsecBitmap.TypesAt(NsecBitmap.WindowBits(octets), (p[off] as int) * 256) + rest.0, rest.1))
  }

  /** `_read_record`'s payload; `None` for a type the library does not know. */
  function ReadRData(p: seq<byte>, off: nat, typ: uint16, length: nat, scope: Option<int>)
    : Result<(Option<RData>, nat)>
  {
    if typ == TYPE_A then Success((Some(Address(Slice(p, off, off + 4), None)), off + 4))
    else if typ == TYPE_CNAME || typ == TYPE_PTR then
      var alias :- ReadName(p, off);
      Success((Some(Pointer(alias.0)), alias.1))
    else if typ == TYPE_TXT then Success((Some(Text(Slice(p, off, off + length))), off + length))
    else if typ == TYPE_SRV then
      if off + 6 > |p| then Failure(IndexError)
      else
        var server :- ReadName(p, off + 6);
        Success((Some(Service(ShortAt(p, off), ShortAt(p, off + 2), ShortAt(p, off + 4), server.0)), server.1))
    else if typ == TYPE_HINFO then
      var cpu :- ReadCharacterString(p, off);
      var os :- ReadCharacterString(p, cpu.1);
      Success((Some(Hinfo(cpu.0, os.0)), os.1))
    else if typ == TYPE_AAAA then Success((Some(Address(Slice(p, off, off + 16), scope)), off + 16))
    else if typ == TYPE_NSEC then
      var name :- ReadName(p, off);
      var types :- ReadBitmap(p, name.1, off + length);
      Success((Some(Nsec(name.0, NsecBitmap.SortTypes(types.0))), types.1))
    else Success((None, off + length))
  }

  function FromWireClass(cls: uint16): (class15, bool) {
    (cls % CLASS_UNIQUE, cls >= CLASS_UNIQUE)
  }

  /** Questions read until the count is exhausted; `next` is absent when decoding failed on the way. */
  datatype Questions = Questions(items: seq<Question>, next: Option<nat>)

  function ReadQuestion(p: seq<byte>, off: nat): Result<(Question, nat)> {
    var name :- ReadName(p, off);
    var at := name.1;
    if at + 4 > |p| then Failure(IndexError)
    else
      var (cls, unique) := FromWireClass(ShortAt(p, at + 2));
      Success((Question(name.0, ShortAt(p, at), cls, unique), at + 4))
  }

  type QuestionReader = nat -> Result<(Question, nat)>

  function Asks(p: seq<byte>): QuestionReader {
    (off: nat) => ReadQuestion(p, off)
  }

  function AskRun(ask: QuestionReader, off: nat, count: nat): Questions
    decreases count
  {
    if count == 0 then Questions([], Some(off))
    else
      match ask(off)
      case Failure(_) => Questions([], None)
      case Success((q, next)) =>
        var rest := AskRun(ask, next, count - 1);
        Questions([q] + rest.items, rest.next)
  }

  /** `_read_questions` */
  function ReadQuestions(p: seq<byte>, off: nat, count: nat): Questions {
    AskRun(Asks(p), off, count)
  }

  /** Records read the same way; `next` is absent when an owner name or a record header could not be read. */
  datatype RecordList = RecordList(items: seq<Record>, next: Option<nat>)

  /** A record's owner name and fixed fields, and the offset of its payload. */
  datatype Head = Head(name: Name, typ: uint16, cls: class15, unique: bool, ttl: nat, at: nat, length: nat)

  function ReadHead(p: seq<byte>, off: nat): Result<Head> {
    var name :- ReadName(p, off);
    var at := name.1;
    if at + 10 > |p| then Failure(IndexError)
    else
      var (cls, unique) := FromWireClass(ShortAt(p, at + 2));
      Success(Head(name.0, ShortAt(p, at), cls, unique, LongAt(p, at + 4), at + 10, ShortAt(p, at + 8)))
  }

  function MakeRecord(h: Head, now: Millis, rdata: RData): Record {
    Record(h.name, h.typ, h.cls, h.unique, h.ttl, now, rdata)
  }

  /** One turn of `_read_others`. */
  datatype Turn =
    | Broken                            // the owner name or the fixed fields cannot be read
    | Skipped(next: nat)                // an unknown type, or a payload that does not decode
    | Got(record: Record, next: nat)

  type Payload = Result<(Option<RData>, nat)>

  function TurnOf(head: Result<Head>, payload: Head -> Payload, now: Millis): Turn {
    match head
    case Failure(_) => Broken
    case Success(h) =>
      match payload(h)
      case Failure(_) => Skipped(h.at + h.length)
      case Success((None, next)) => Skipped(next)
      case Success((Some(rdata), next)) => Got(MakeRecord(h, now, rdata), next)
  }

  function Payloads(p: seq<byte>, scope: Option<int>): Head -> Payload {
    (h: Head) => ReadRData(p, h.at, h.typ, h.length, scope)
  }

  function ReadTurn(p: seq<byte>, off: nat, now: Millis, scope: Option<int>): Turn {
    TurnOf(ReadHead(p, off), Payloads(p, scope), now)
  }

  function Turns(p: seq<byte>, now: Millis, scope: Option<int>): nat -> Turn {
    (off: nat) => ReadTurn(p, off, now, scope)
  }

  function ReadRun(turn: nat -> Turn, off: nat, count: nat): RecordList
    decreases count
  {
    if count == 0 then RecordList([], Some(off))
    else
      match turn(off)
      case Broken => RecordList([], None)
      case Skipped(next) => ReadRun(turn, next, count - 1)
      case Got(record, next) =>
        var rest := ReadRun(turn, next, count - 1);
        RecordList([record] + rest.items, rest.next)
  }

  /** `_read_others`: a record whose payload fails to decode is skipped by its stated length. */
  function ReadOthers(p: seq<byte>, off: nat, count: nat, now: Millis, scope: Option<int>): RecordList {
    ReadRun(Turns(p, now, scope), off, count)
  }

  /** Everything a reader of a packet can see. `complete` tells that both passes reached their end. */
  datatype Message = Message(valid: bool, id: nat, flags: nat, counts: seq<nat>,
                             questions: seq<Question>, records: seq<Record>, complete: bool)

  /** Header field `k`; a packet cut short inside the header leaves the later fields at their initial 0. */
  function HeaderField(p: seq<byte>, k: nat): nat {
    if 2 * k + 2 <= |p| then ShortAt(p, 2 * k) else 0
  }

  function HeaderCounts(p: seq<byte>): seq<nat> {
    [HeaderField(p, 2), HeaderField(p, 3), HeaderField(p, 4), HeaderField(p, 5)]
  }

  /** Header, questions, then the records of the three other sections in one list. */
  function ReadMessage(p: seq<byte>, now: Millis, scope: Option<int>): Message {
    var id, flags, counts := HeaderField(p, 0), HeaderField(p, 1), HeaderCounts(p);
    if |p| < 12 then Message(false, id, flags, counts, [], [], false)
    else
      var qs := ReadQuestions(p, 12, counts[0]);
      if qs.next.None? then Message(false, id, flags, counts, qs.items, [], false)
      else
        var rs := ReadOthers(p, qs.next.value, counts[1] + counts[2] + counts[3], now, scope);
        Message(counts[0] > 0 || rs.next.Some?, id, flags, counts, qs.items, rs.items, rs.next.Some?)
  }
}
