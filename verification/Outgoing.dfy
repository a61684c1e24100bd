/** `DNSOutgoing`: builds packets in place from a list of byte chunks, with rollback. */
module Outgoing {
  import opened Results
  import opened Bytes
  import opened Names
  import opened Records
  import opened WireWriter
  import opened Packets
  import NsecBitmap

  function QuestionItems(questions: seq<Question>): seq<Item> {
    seq(|questions|, i requires 0 <= i < |questions| => Ask(questions[i]))
  }

  function AnswerItems(answers: seq<(Record, Millis)>): seq<Item> {
    seq(|answers|, i requires 0 <= i < |answers| => Tell(answers[i].0, answers[i].1))
  }

  function RecordItems(records: seq<Record>): seq<Item> {
    seq(|records|, i requires 0 <= i < |records| => Tell(records[i], 0.0))
  }

  class DNSOutgoing {
    const settings: Settings
    var questions: seq<Question>
    var answers: seq<(Record, Millis)>
    var authorities: seq<Record>
    var additionals: seq<Record>

    var finished: bool
    var packetsData: seq<seq<byte>>

    // per packet
    var names: Table
    var data: seq<seq<byte>>
    var size: nat
    var allowLong: bool

    /** The packet under construction. */
    ghost function View(): Draft
      reads this`data, this`names, this`allowLong
    {
      Draft(Flat(data), names, allowLong)
    }

    /** `size` counts the header that is inserted last, and every table entry lies behind the header. */
    ghost predicate Building()
      reads this`data, this`names, this`size
    {
      && size == HEADER_LEN + |Flat(data)|
      && Positive(names)
      && Below(names, size)
      && (Flat(data) == [] ==> data == [])
    }

    /** Between calls nothing is under construction. */
    ghost predicate Valid()
      reads this
    {
      !finished ==> View() == EMPTY_DRAFT && data == [] && size == HEADER_LEN && packetsData == []
    }

    ghost function Sections(): (r: seq<seq<Item>>)
      reads this`questions, this`answers, this`authorities, this`additionals
      ensures |r| == 4
    {
      [QuestionItems(questions), AnswerItems(answers), RecordItems(authorities), RecordItems(additionals)]
    }

    constructor (settings: Settings)
      ensures Valid() && !finished && this.settings == settings
      ensures questions == [] && answers == [] && authorities == [] && additionals == []
    {
      this.settings := settings;
      questions, answers, authorities, additionals := [], [], [], [];
      finished, packetsData := false, [];
      names, data, size, allowLong := map[], [], HEADER_LEN, true;
    }

    method AddQuestion(question: Question)
      requires Valid()
      modifies this`questions
      ensures Valid() && questions == old(questions) + [question]
    {
      questions := questions + [question];
    }

    /** An answer is queued unless it has expired by `now`; a zero `now` skips the test. */
    method AddAnswerAtTime(record: Record, now: Millis)
      requires Valid()
      modifies this`answers
      ensures Valid()
      ensures answers == old(answers) + if now == 0.0 || now < record.Expiry() then [(record, now)] else []
    {
      if now == 0.0 || !record.IsExpired(now) {
        answers := answers + [(record, now)];
      }
    }

    method AddAuthorativeAnswer(record: Record)
      requires Valid()
      modifies this`authorities
      ensures Valid() && authorities == old(authorities) + [record]
    {
      authorities := authorities + [record];
    }

    method AddAdditionalAnswer(record: Record)
      requires Valid()
      modifies this`additionals
      ensures Valid() && additionals == old(additionals) + [record]
    {
      additionals := additionals + [record];
    }

    // ---------- writing ----------

    /** `data.append(chunk)` with the size kept in step; every primitive writer ends here. */
    method WriteString(chunk: seq<byte>)
      modifies this`data, this`size
      ensures data == old(data) + [chunk] && size == old(size) + |chunk|
      ensures Flat(data) == old(Flat(data)) + chunk
    {
      FlatAppend(data, chunk);
      data := data + [chunk];
      size := size + |chunk|;
    }

    /** What a writer that started with these chunks and this table must have done by now. */
    ghost predicate Did(chunks: seq<seq<byte>>, r: Result<Out>, outcome: Outcome)
      reads this
    {
      match r
      case Success(out) =>
        && outcome.Pass? && chunks <= data
        && Flat(data) == Flat(chunks) + out.bytes && names == out.names
        && size == HEADER_LEN + |Flat(data)|
      case Failure(error) => outcome == Fail(error)
    }

    /** `_write_utf` */
    method WriteUtf(part: Label) returns (outcome: Outcome)
      modifies this`data, this`size
      ensures match UtfOut(part)
              case Success(bytes) =>
                outcome.Pass? && old(data) <= data
                && Flat(data) == old(Flat(data)) + bytes && size == old(size) + |bytes|
              case Failure(error) => outcome == Fail(error)
    {
      if |part| > 64 {
        return Fail(NamePartTooLong);
      }
      WriteString([|part|]);
      WriteString(part);
      return Pass;
    }

    method WriteCharacterString(s: seq<byte>) returns (outcome: Outcome)
      modifies this`data, this`size
      ensures match CharacterStringOut(s)
              case Success(bytes) =>
                outcome.Pass? && old(data) <= data
                && Flat(data) == old(Flat(data)) + bytes && size == old(size) + |bytes|
              case Failure(error) => outcome == Fail(error)
    {
      if |s| > 256 {
        return Fail(NamePartTooLong);
      }
      if |s| == 256 {
        return Fail(IndexError);
      }
      WriteString([|s|]);
      WriteString(s);
      return Pass;
    }

    method WriteLinkToName(index: nat) returns (outcome: Outcome)
      modifies this`data, this`size
      ensures match LinkOut(index)
              case Success(bytes) =>
                outcome.Pass? && old(data) <= data
                && Flat(data) == old(Flat(data)) + bytes && size == old(size) + |bytes|
              case Failure(error) => outcome == Fail(error)
    {
      if index >= 0x1_0000 {
        return Fail(IndexError);
      }
      WriteString([0xC0 + index / 0x100 % 0x40]);
      WriteString([index % 0x100]);
      return Pass;
    }

    /** A label that is not yet in the table: entered at `offset`, then written out. */
    method WriteNewLabel(rest: seq<Label>, partial: Name, offset: nat) returns (outcome: Outcome)
      requires rest != [] && partial == Join(rest) && !(partial in names && names[partial] != 0)
      requires size == HEADER_LEN + |Flat(data)| && offset == size
      modifies this`data, this`size, this`names
      ensures |rest[0]| > 64 ==> outcome == Fail(NamePartTooLong)
      ensures |rest[0]| <= 64 ==>
                && outcome.Pass? && old(data) <= data && names == old(names)[partial := offset]
                && Flat(data) == old(Flat(data)) + UtfOut(rest[0]).value
                && size == old(size) + 1 + |rest[0]| == HEADER_LEN + |Flat(data)|
    {
      names := names[partial := offset];
      outcome := WriteUtf(rest[0]);
    }

    /** The loop of `write_name` over the suffixes of `text` behind its first label. Their table offsets are computed
        from text lengths, as the source does. */
    method WriteSuffixes(text: Name, labels: seq<Label>, startSize: nat) returns (outcome: Outcome)
      requires labels != [] && text == Join(labels) && size == HEADER_LEN + |Flat(data)|
      requires size == startSize + 1 + |labels[0]|
      modifies this`data, this`size, this`names
      ensures Did(old(data), NameOut(old(size), old(names), labels[1..]), outcome)
    {
      hide NameOut, Flat, Resumes, LinkBytes;
      ghost var total := NameOut(size, names, labels[1..]);
      ResumesAtOnce(total);
      ghost var written: seq<byte> := [];
      JoinLength(labels);
      var count := 1;
      while count < |labels|
        invariant 1 <= count <= |labels|
        invariant size == HEADER_LEN + |Flat(data)|
        invariant size == startSize + LabelBytes(labels) - LabelBytes(labels[count..])
        invariant old(data) <= data && Flat(data) == old(Flat(data)) + written
        invariant Resumes(total, written, NameOut(size, names, labels[count..]))
      {
        ghost var rest, known := labels[count..], names;
        var partial := Join(labels[count..]);
        if partial in names && names[partial] != 0 {
          LinkStep(total, written, size, names, rest);
          LinkBytesAre(names[partial]);
          Regroup(old(Flat(data)), written, LinkBytes(names[partial]));
          outcome := WriteLinkToName(names[partial]);
          return;
        }
        JoinLength(rest);
        TailOf(labels, count);
        var offset := startSize + |text| - |partial|;
        TooLongStep(total, written, offset, names, rest);
        :- WriteNewLabel(labels[count..], partial, offset);
        LabelStep(total, written, offset, known, rest, size, names, labels[count + 1..]);
        Regroup(old(Flat(data)), written, UtfOut(labels[count]).value);
        written := written + UtfOut(labels[count]).value;
        count := count + 1;
      }
      EndStep(total, written, size, names, labels[count..]);
      Regroup(old(Flat(data)), written, [0]);
      WriteString([0]);
      return Pass;
    }

    /** `write_name`: a link for a known name, otherwise its labels up to the first known suffix. */
    method WriteName(name: Name) returns (outcome: Outcome)
      requires size == HEADER_LEN + |Flat(data)|
      modifies this`data, this`size, this`names
      ensures Did(old(data), NameTextOut(old(size), old(names), name), outcome)
    {
      var text := Strip(name);
      JoinSplit(text);
      var labels := Split(text);
      if text in names && names[text] != 0 {
        outcome := WriteLinkToName(names[text]);
        return;
      }
      ghost var known := names;
      var startSize := size;
      ResumesAtOnce(NameOut(size, names, labels));
      TooLongStep(NameOut(size, names, labels), [], startSize, names, labels);
      :- WriteNewLabel(labels, text, startSize);
      ghost var rest := NameOut(size, names, labels[1..]);
      NameComposed(old(Flat(data)), startSize, known, labels, size, names, rest);
      outcome := WriteSuffixes(text, labels, startSize);
    }

    /** `DNSService.write` */
    method WriteService(priority: uint16, weight: uint16, port: uint16, server: Name) returns (outcome: Outcome)
      requires size == HEADER_LEN + |Flat(data)|
      modifies this`data, this`size, this`names
      ensures Did(old(data), RDataOut(old(size), old(names), Service(priority, weight, port, server)), outcome)
    {
      WriteString(Short(priority));
      WriteString(Short(weight));
      WriteString(Short(port));
      ghost var fixed := Flat(data);
      :- WriteName(server);
      Regroup4(old(Flat(data)), Short(priority), Short(weight), Short(port), Flat(data)[|fixed|..]);
      return Pass;
    }

    /** `DNSHinfo.write` */
    method WriteHinfo(cpu: seq<byte>, os: seq<byte>) returns (outcome: Outcome)
      requires size == HEADER_LEN + |Flat(data)|
      modifies this`data, this`size
      ensures Did(old(data), RDataOut(old(size), old(names), Hinfo(cpu, os)), outcome)
    {
      outcome := WriteCharacterString(cpu);
      if outcome.Fail? {
        return;
      }
      :- WriteCharacterString(os);
      Regroup(old(Flat(data)), CharacterStringOut(cpu).value, CharacterStringOut(os).value);
      return Pass;
    }

    /** `DNSNsec.write`: the bitmap is built before anything is written. */
    method WriteNsec(nextName: Name, rdtypes: TypeList) returns (outcome: Outcome)
      requires size == HEADER_LEN + |Flat(data)|
      modifies this`data, this`size, this`names
      ensures Did(old(data), RDataOut(old(size), old(names), Nsec(nextName, rdtypes)), outcome)
    {
      var bitmap := NsecBitmap.BuildBitmap(rdtypes);
      if bitmap.Failure? {
        return Fail(bitmap.error);
      }
      hide NameTextOut, NsecBitmap.Bitmap, Flat;
      var octets := bitmap.value;
      ghost var name := NameTextOut(size, names, nextName);
      :- WriteName(nextName);
      WriteString([0]);
      if |octets| >= 0x100 {
        return Fail(IndexError);
      }
      WriteString([|octets|]);
      WriteString(octets);
      NsecParts(old(Flat(data)), name.value.bytes, |octets|, octets);
      return Pass;
    }

    /** The `write` method of each record class. */
    method WriteRData(rdata: RData) returns (outcome: Outcome)
      requires size == HEADER_LEN + |Flat(data)|
      modifies this`data, this`size, this`names
      ensures Did(old(data), RDataOut(old(size), old(names), rdata), outcome)
    {
      match rdata
      case Address(address, _) =>
        WriteString(address);
        return Pass;
      case Text(text) =>
        WriteString(text);
        return Pass;
      case Pointer(alias) =>
        outcome := WriteName(alias);
      case Service(priority, weight, port, server) =>
        outcome := WriteService(priority, weight, port, server);
      case Hinfo(cpu, os) =>
        outcome := WriteHinfo(cpu, os);
      case Nsec(nextName, rdtypes) =>
        outcome := WriteNsec(nextName, rdtypes);
    }

    /** `_check_data_limit_or_rollback`: on overflow the packet gets back its earlier length, size and table. */
    method CheckDataLimitOrRollback(startDataLength: nat, startSize: nat) returns (ok: bool)
      requires startDataLength <= |data|
      modifies this`data, this`size, this`names, this`allowLong
      ensures ok == (old(size) <= if old(allowLong) then MAX_MSG_ABSOLUTE else MAX_MSG_TYPICAL)
      ensures !allowLong
      ensures ok ==> data == old(data) && size == old(size) && names == old(names)
      ensures !ok ==> data == old(data)[..startDataLength] && size == startSize
                      && names == RolledBack(old(names), startSize)
    {
      var limit := if allowLong then MAX_MSG_ABSOLUTE else MAX_MSG_TYPICAL;
      allowLong := false;
      if size <= limit {
        return true;
      }
      data := data[..startDataLength];
      size := startSize;
      var rollback := set n | n in names && names[n] >= startSize;
      while rollback != {}
        invariant forall n :: n in rollback ==> n in names && names[n] >= startSize
        invariant RolledBack(names, startSize) == RolledBack(old(names), startSize)
        invariant forall n :: n in names && names[n] >= startSize ==> n in rollback
        modifies this`names
        decreases |rollback|
      {
        var name :| name in rollback;
        names := names - {name};
        rollback := rollback - {name};
      }
      return false;
    }

    /** `_write_record_class` */
    method WriteRecordClass(unique: bool, cls: class15)
      modifies this`data, this`size
      ensures old(data) <= data && size == old(size) + 2
      ensures Flat(data) == old(Flat(data)) + Short(WireClass(settings.multicast, unique, cls))
    {
      if unique && settings.multicast {
        WriteString(Short(cls + CLASS_UNIQUE));
      } else {
        WriteString(Short(cls));
      }
    }

    /** `_write_ttl` */
    method WriteTtl(record: Record, now: Millis) returns (outcome: Outcome)
      modifies this`data, this`size
      ensures record.WireTtl(now) >= 0x1_0000_0000 ==> outcome == Fail(StructError)
      ensures record.WireTtl(now) < 0x1_0000_0000 ==>
                outcome.Pass? && old(data) <= data && size == old(size) + 4
                && Flat(data) == old(Flat(data)) + Long(record.WireTtl(now))
    {
      var ttl := if now == 0.0 then record.ttl else record.RemainingTtl(now).Floor;
      if ttl >= 0x1_0000_0000 {
        return Fail(StructError);
      }
      WriteString(Long(ttl));
      return Pass;
    }

    /** The state after an item was tried: as `TryWrite` says, or the exception it says. */
    ghost predicate Tried(d: Draft, multicast: bool, item: Item, r: Result<bool>)
      reads this
    {
      TriedTo(d, multicast, item, r, View()) && (r.Success? ==> Building())
    }

    /** The limit check at the end of `_write_question` and `_write_record`; `out` is what the item wrote. */
    method FinishItem(startDataLength: nat, startSize: nat, ghost before: Draft, ghost chunks: seq<seq<byte>>,
                      ghost item: Item, ghost out: Out) returns (ok: bool)
      requires ItemOut(startSize, before.names, settings.multicast, item) == Success(out)
      requires before.body == Flat(chunks) && startSize == before.Size() && startDataLength == |chunks|
      requires Positive(before.names) && Below(before.names, startSize)
      requires chunks <= data && Flat(data) == before.body + out.bytes && names == out.names
      requires size == HEADER_LEN + |Flat(data)| && allowLong == before.allowLong
      requires before.body == [] ==> chunks == []
      modifies this`data, this`size, this`names, this`allowLong
      ensures Tried(before, settings.multicast, item, Success(ok))
    {
      ItemOutExtends(startSize, before.names, settings.multicast, item);
      RollbackExact(startSize, before.names, settings.multicast, item);
      ItemOutBelow(startSize, before.names, settings.multicast, item);
      TryWriteIs(before, settings.multicast, item, out);
      assert data[..startDataLength] == chunks;
      ok := CheckDataLimitOrRollback(startDataLength, startSize);
    }

    /** `_write_question` */
    method WriteQuestion(question: Question) returns (r: Result<bool>)
      requires Building()
      modifies this`data, this`size, this`names, this`allowLong
      ensures Tried(old(View()), settings.multicast, Ask(question), r)
    {
      var startDataLength, startSize := |data|, size;
      ghost var before, chunks := View(), data;
      ghost var name := NameTextOut(size, names, question.name);
      var outcome := WriteName(question.name);
      if outcome.Fail? {
        return Failure(outcome.error);
      }
      WriteString(Short(question.typ));
      WriteRecordClass(question.unique, question.cls);
      ghost var out := ItemOut(startSize, before.names, settings.multicast, Ask(question)).value;
      Regroup3(before.body, name.value.bytes, Short(question.typ),
               Short(WireClass(settings.multicast, question.unique, question.cls)));
      var ok := FinishItem(startDataLength, startSize, before, chunks, Ask(question), out);
      return Success(ok);
    }

    /** The chunks written from `from` on, put together. */
    method LengthFrom(from: nat) returns (length: nat)
      requires from <= |data|
      ensures length == |Flat(data[from..])|
    {
      length := 0;
      var i := from;
      while i < |data|
        invariant from <= i <= |data|
        invariant length == |Flat(data[from..i])|
      {
        assert data[from..i + 1] == data[from..i] + [data[i]];
        FlatAppend(data[from..i], data[i]);
        length := length + |data[i]|;
        i := i + 1;
      }
      assert data[from..|data|] == data[from..];
    }

    /** Owner name and fixed fields of a record, before its length. */
    method WriteHead(record: Record, now: Millis) returns (outcome: Outcome)
      requires size == HEADER_LEN + |Flat(data)|
      modifies this`data, this`size, this`names
      ensures match NameTextOut(old(size), old(names), record.name)
              case Failure(error) => outcome == Fail(error)
              case Success(name) =>
                if record.WireTtl(now) >= 0x1_0000_0000 then outcome == Fail(StructError)
                else
                  && outcome.Pass? && old(data) <= data && names == name.names
                  && Flat(data) == old(Flat(data)) + (name.bytes + RecordHead(settings.multicast, record, now))
                  && size == HEADER_LEN + |Flat(data)|
    {
      ghost var name := NameTextOut(size, names, record.name);
      :- WriteName(record.name);
      WriteString(Short(record.typ));
      WriteRecordClass(record.unique, record.cls);
      :- WriteTtl(record, now);
      Regroup4(old(Flat(data)), name.value.bytes, Short(record.typ),
               Short(WireClass(settings.multicast, record.unique, record.cls)), Long(record.WireTtl(now)));
      assert name.value.bytes + RecordHead(settings.multicast, record, now)
        == name.value.bytes + Short(record.typ)
           + Short(WireClass(settings.multicast, record.unique, record.cls)) + Long(record.WireTtl(now));
      return Pass;
    }

    /** The payload of a record behind its length: a zero length is written first and replaced once the payload is
        there. */
    method WriteMeasured(rdata: RData) returns (outcome: Outcome)
      requires size == HEADER_LEN + |Flat(data)|
      modifies this`data, this`size, this`names
      ensures match RDataOut(old(size) + 2, old(names), rdata)
              case Failure(error) => outcome == Fail(error)
              case Success(out) =>
                if |out.bytes| >= 0x1_0000 then outcome == Fail(StructError)
                else
                  && outcome.Pass? && old(data) <= data && names == out.names
                  && Flat(data) == old(Flat(data)) + Short(|out.bytes|) + out.bytes
                  && size == HEADER_LEN + |Flat(data)|
    {
      hide RDataOut, Flat;
      var index := |data|;
      ghost var head := data;
      WriteString(Short(0));
      ghost var zeroed, rdataOut := data, RDataOut(size, names, rdata);
      :- WriteRData(rdata);
      ghost var payload := rdataOut.value.bytes;
      PayloadChunks(head, zeroed, data, payload);
      var length := LengthFrom(index + 1);
      if length >= 0x1_0000 {
        return Fail(StructError);
      }
      PatchLength(head, data, payload);
      data := data[index := Short(length)];
      return Pass;
    }

    /** `_write_record` */
    method WriteRecord(record: Record, now: Millis) returns (r: Result<bool>)
      requires Building()
      modifies this`data, this`size, this`names, this`allowLong
      ensures Tried(old(View()), settings.multicast, Tell(record, now), r)
    {
      hide ItemOut, NameTextOut, RDataOut, TryWrite, Flat, RecordHead, Record.WireTtl;
      var startDataLength, startSize := |data|, size;
      ghost var before, chunks, item := View(), data, Tell(record, now);
      TellRaises(before, settings.multicast, record, now);
      var outcome := WriteHead(record, now);
      if outcome.Fail? {
        return Failure(outcome.error);
      }
      ghost var name := NameTextOut(startSize, before.names, record.name).value;
      ghost var at := size + 2;
      outcome := WriteMeasured(record.rdata);
      TellOutIs(startSize, at, before.names, settings.multicast, record, now, name);
      ItemRaises(before, settings.multicast, item);
      if outcome.Fail? {
        return Failure(outcome.error);
      }
      ghost var rdata := RDataOut(at, name.names, record.rdata).value;
      ghost var out := ItemOut(startSize, before.names, settings.multicast, item).value;
      RegroupTell(before.body, name.bytes, RecordHead(settings.multicast, record, now), Short(|rdata.bytes|),
                  rdata.bytes);
      var ok := FinishItem(startDataLength, startSize, before, chunks, item, out);
      return Success(ok);
    }

    /** A section loop's result: the draft and the count `WriteSection` gives, or its exception. */
    ghost predicate SectionDone(d: Draft, items: seq<Item>, r: Result<nat>)
      reads this
    {
      match WriteSection(d, settings.multicast, items)
      case Success((d', n)) => r == Success(n) && View() == d' && Building()
      case Failure(error) => r == Failure(error)
    }

    /** `_write_questions_from_offset` */
    method WriteQuestionsFromOffset(offset: nat) returns (r: Result<nat>)
      requires Building() && offset <= |questions|
      modifies this`data, this`size, this`names, this`allowLong
      ensures SectionDone(old(View()), QuestionItems(questions)[offset..], r)
    {
      ghost var items := QuestionItems(questions)[offset..];
      ghost var trail := [View()];
      var written := 0;
      for i := offset to |questions|
        invariant written == i - offset && Building()
        invariant Trail(trail, settings.multicast, items[..written])
        invariant trail[0] == old(View()) && trail[written] == View()
      {
        assert items[written] == Ask(questions[i]);
        var ok := WriteQuestion(questions[i]);
        TrailTurn(trail, settings.multicast, items, written, ok, View());
        if ok.Failure? {
          return Failure(ok.error);
        }
        if !ok.value {
          return Success(written);
        }
        trail := trail + [View()];
        written := written + 1;
      }
      TrailEnds(trail, settings.multicast, items);
      return Success(written);
    }

    /** `_write_answers_from_offset` */
    method WriteAnswersFromOffset(offset: nat) returns (r: Result<nat>)
      requires Building() && offset <= |answers|
      modifies this`data, this`size, this`names, this`allowLong
      ensures SectionDone(old(View()), AnswerItems(answers)[offset..], r)
    {
      ghost var items := AnswerItems(answers)[offset..];
      ghost var trail := [View()];
      var written := 0;
      for i := offset to |answers|
        invariant written == i - offset && Building()
        invariant Trail(trail, settings.multicast, items[..written])
        invariant trail[0] == old(View()) && trail[written] == View()
      {
        assert items[written] == Tell(answers[i].0, answers[i].1);
        var ok := WriteRecord(answers[i].0, answers[i].1);
        TrailTurn(trail, settings.multicast, items, written, ok, View());
        if ok.Failure? {
          return Failure(ok.error);
        }
        if !ok.value {
          return Success(written);
        }
        trail := trail + [View()];
        written := written + 1;
      }
      TrailEnds(trail, settings.multicast, items);
      return Success(written);
    }

    /** `_write_records_from_offset` */
    method WriteRecordsFromOffset(records: seq<Record>, offset: nat) returns (r: Result<nat>)
      requires Building() && offset <= |records|
      modifies this`data, this`size, this`names, this`allowLong
      ensures SectionDone(old(View()), RecordItems(records)[offset..], r)
    {
      ghost var items := RecordItems(records)[offset..];
      ghost var trail := [View()];
      var written := 0;
      for i := offset to |records|
        invariant written == i - offset && Building()
        invariant Trail(trail, settings.multicast, items[..written])
        invariant trail[0] == old(View()) && trail[written] == View()
      {
        assert items[written] == Tell(records[i], 0.0);
        var ok := WriteRecord(records[i], 0.0);
        TrailTurn(trail, settings.multicast, items, written, ok, View());
        if ok.Failure? {
          return Failure(ok.error);
        }
        if !ok.value {
          return Success(written);
        }
        trail := trail + [View()];
        written := written + 1;
      }
      TrailEnds(trail, settings.multicast, items);
      return Success(written);
    }

    /** `_insert_short_at_start`: the header goes in front without being counted. */
    method InsertShortAtStart(value: uint16)
      modifies this`data
      ensures Flat(data) == Short(value) + old(Flat(data))
    {
      FlatConcat([Short(value)], data);
      assert Flat([Short(value)]) == Flat([]) + Short(value) == Short(value);
      data := [Short(value)] + data;
    }

    method ResetForNextPacket()
      modifies this`names, this`data, this`size, this`allowLong
      ensures View() == EMPTY_DRAFT && Building()
    {
      names, data, size, allowLong := map[], [], HEADER_LEN, true;
    }

    /** One turn's writing: all four sections from their offsets on. */
    method FillPacket(at: seq<nat>) returns (r: Result<seq<nat>>)
      requires Building() && Within(Sections(), at)
      modifies this`data, this`size, this`names, this`allowLong
      ensures match Fill(old(View()), settings.multicast, Behind(Sections(), at))
              case Success((draft, counts)) => r == Success(counts) && View() == draft && Building()
              case Failure(error) => r == Failure(error)
    {
      ghost var s := Behind(Sections(), at);
      assert at[0] <= |Sections()[0]| && at[1] <= |Sections()[1]| && at[2] <= |Sections()[2]|
          && at[3] <= |Sections()[3]|;
      FillStages(View(), settings.multicast, s[0], s[1], s[2], s[3]);
      var questionsWritten :- WriteQuestionsFromOffset(at[0]);
      var answersWritten :- WriteAnswersFromOffset(at[1]);
      var authoritiesWritten :- WriteRecordsFromOffset(authorities, at[2]);
      var additionalsWritten :- WriteRecordsFromOffset(additionals, at[3]);
      return Success([questionsWritten, answersWritten, authoritiesWritten, additionalsWritten]);
    }

    /** `_has_more_to_add` */
    predicate HasMoreToAdd(at: seq<nat>)
      requires |at| == 4
      reads this
    {
      at[0] < |questions| || at[1] < |answers| || at[2] < |authorities| || at[3] < |additionals|
    }

    /** The header goes in front, last field first, and the packet is done. */
    method FinishPacket(counts: seq<nat>, more: bool) returns (packet: seq<byte>)
      requires |counts| == 4 && forall k :: 0 <= k < 4 ==> counts[k] < 0x1_0000
      modifies this`data
      ensures packet == Header(settings, more, counts) + old(Flat(data))
    {
      InsertShortAtStart(counts[3]);
      InsertShortAtStart(counts[2]);
      InsertShortAtStart(counts[1]);
      InsertShortAtStart(counts[0]);
      var flags := if more && settings.IsQuery() then WithTC(settings.flags) else settings.flags;
      InsertShortAtStart(flags);
      var id := if settings.multicast then 0 else settings.id;
      InsertShortAtStart(id);
      packet := Flat(data);
      RegroupHeader(Short(id), Short(flags), Short(counts[0]), Short(counts[1]), Short(counts[2]), Short(counts[3]),
                    old(Flat(data)));
    }

    /** One turn of the loop in `packets()`: the packet, its counts, whether items remain, whether it holds any. */
    method OnePacket(at: seq<nat>) returns (r: Result<(seq<byte>, seq<nat>, bool, bool)>)
      requires View() == EMPTY_DRAFT && Building() && Within(Sections(), at)
      modifies this`data, this`size, this`names, this`allowLong
      ensures match Fill(EMPTY_DRAFT, settings.multicast, Behind(Sections(), at))
              case Failure(error) => r == Failure(error)
              case Success((draft, counts)) =>
                && Within(Behind(Sections(), at), counts) && (forall k :: 0 <= k < 4 ==> counts[k] < 0x1_0000)
                && var more := Pending(Drop(Behind(Sections(), at), counts)) > 0;
                   r == Success((Header(settings, more, counts) + draft.body, counts, more, draft.body != []))
    {
      hide Behind, Drop, Pending, Fill, Header, Flat;
      ghost var sections := Behind(Sections(), at);
      var counts :- FillPacket(at);
      var madeProgress := data != [];
      FlatEmpty(data);
      CountsFit(settings.multicast, sections, View(), counts);
      DropBehind(Sections(), at, counts);
      MoreBehind(Sections(), Advance(at, counts));
      var more := HasMoreToAdd(Advance(at, counts));
      var packet := FinishPacket(counts, more);
      return Success((packet, counts, more, madeProgress));
    }

    /** The turn seen from the whole run: `done` packets are out, `total` is what the run will give. */
    method Turn(at: seq<nat>, ghost total: Result<seq<seq<byte>>>, ghost done: seq<seq<byte>>)
      returns (r: Result<(seq<byte>, seq<nat>, bool)>)
      requires View() == EMPTY_DRAFT && Building() && Within(Sections(), at)
      requires Continued(total, done, PacketsOf(settings, Behind(Sections(), at)))
      modifies this`data, this`size, this`names, this`allowLong
      ensures match r
              case Failure(error) => total == Failure(error)
              case Success((packet, next, goOn)) =>
                && Within(Sections(), next)
                && (!goOn ==> total == Success(done + [packet]))
                && (goOn ==> Continued(total, done + [packet], PacketsOf(settings, Behind(Sections(), next)))
                             && Pending(Behind(Sections(), next)) < Pending(Behind(Sections(), at)))
    {
      ghost var now := Behind(Sections(), at);
      var turn := OnePacket(at);
      if turn.Failure? {
        FillFails(settings, now, turn.error);
        return Failure(turn.error);
      }
      var (packet, counts, more, madeProgress) := turn.value;
      TurnFacts(settings, now, total, done);
      DropBehind(Sections(), at, counts);
      return Success((packet, Advance(at, counts), more && madeProgress));
    }

    /** `packets()`: on the first call the packets of the plan, later the same list again. */
    method Packets() returns (r: Result<seq<seq<byte>>>)
      requires Valid()
      modifies this`names, this`data, this`size, this`allowLong, this`packetsData, this`finished
      ensures old(finished) ==> r == Success(packetsData) && finished && packetsData == old(packetsData)
      ensures !old(finished) ==> r == PacketsOf(settings, Sections())
      ensures r.Success? ==> Valid() && finished && r.value == packetsData
    {
      if finished {
        return Success(packetsData);
      }
      r := AllPackets();
    }

    /** The loop of `packets()`. */
    method AllPackets() returns (r: Result<seq<seq<byte>>>)
      requires Valid() && !finished
      modifies this`names, this`data, this`size, this`allowLong, this`packetsData, this`finished
      ensures r == PacketsOf(settings, Sections())
      ensures r.Success? ==> finished && r.value == packetsData
    {
      hide Within, Pending, Behind, PacketsOf, Continued, Draft.Size, Flat, DNSOutgoing.Sections;
      ghost var s, total := Sections(), PacketsOf(settings, Sections());
      var at := [0, 0, 0, 0];
      RunBegins(s, total, at);
      var hasMoreToAdd := true;
      while hasMoreToAdd
        invariant Sections() == s && Within(s, at)
        invariant hasMoreToAdd ==> View() == EMPTY_DRAFT && Building()
        invariant hasMoreToAdd ==> Continued(total, packetsData, PacketsOf(settings, Behind(s, at)))
        invariant !hasMoreToAdd ==> total == Success(packetsData)
        decreases hasMoreToAdd, Pending(Behind(s, at))
      {
        var turn := Turn(at, total, packetsData);
        if turn.Failure? {
          return Failure(turn.error);
        }
        var (packet, next, goOn) := turn.value;
        packetsData := packetsData + [packet];
        at, hasMoreToAdd := next, goOn;
        if hasMoreToAdd {
          ResetForNextPacket();
        }
      }
      finished := true;
      return Success(packetsData);
    }
  }

  /** Before the first turn nothing is out and everything is queued. */
  lemma RunBegins(s: seq<seq<Item>>, total: Result<seq<seq<byte>>>, at: seq<nat>)
    requires |s| == 4 && at == [0, 0, 0, 0]
    ensures Within(s, at) && Behind(s, at) == s && Continued(total, [], total)
  {
    assert total.Success? ==> [] + total.value == total.value;
  }

  /** Items remain exactly when some offset has not reached its section's end. */
  lemma MoreBehind(s: seq<seq<Item>>, at: seq<nat>)
    requires |s| == 4 && Within(s, at)
    ensures Pending(Behind(s, at)) > 0
            <==> at[0] < |s[0]| || at[1] < |s[1]| || at[2] < |s[2]| || at[3] < |s[3]|
  {
    PendingFour(Behind(s, at));
  }

  lemma FlatEmpty(chunks: seq<seq<byte>>)
    ensures chunks == [] ==> Flat(chunks) == []
  {
  }

  lemma FillFails(s: Settings, sections: seq<seq<Item>>, error: Error)
    requires |sections| == 4 && Fill(EMPTY_DRAFT, s.multicast, sections) == Failure(error)
    ensures PacketsOf(s, sections) == Failure(error)
  {
  }

  lemma RegroupHeader<T>(a: seq<T>, b: seq<T>, c: seq<T>, d: seq<T>, e: seq<T>, f: seq<T>, body: seq<T>)
    ensures a + (b + (c + (d + (e + (f + body))))) == (a + b + c + d + e + f) + body
  {
  }

  ghost predicate Continued(total: Result<seq<seq<byte>>>, done: seq<seq<byte>>, rest: Result<seq<seq<byte>>>) {
    match rest
    case Success(packets) => total == Success(done + packets)
    case Failure(error) => total == Failure(error)
  }

  /** What one turn of the loop in `packets()` adds to the list. */
  lemma TurnFacts(s: Settings, sections: seq<seq<Item>>, total: Result<seq<seq<byte>>>, done: seq<seq<byte>>)
    requires |sections| == 4 && Fill(EMPTY_DRAFT, s.multicast, sections).Success?
    requires Continued(total, done, PacketsOf(s, sections))
    ensures var (d, counts) := Fill(EMPTY_DRAFT, s.multicast, sections).value;
            && |counts| == 4 && (forall k :: 0 <= k < 4 ==> counts[k] < 0x1_0000)
            && var rest := Drop(sections, counts); var now := done + [Header(s, Pending(rest) > 0, counts) + d.body];
               if d.body == [] || Pending(rest) == 0 then total == Success(now)
               else Pending(rest) < Pending(sections) && Continued(total, now, PacketsOf(s, rest))
  {
    var (d, counts) := Fill(EMPTY_DRAFT, s.multicast, sections).value;
    CountsFit(s.multicast, sections, d, counts);
    var rest := Drop(sections, counts);
    if d.body == [] || Pending(rest) == 0 {
      PacketsLast(s, sections, d, counts);
    } else {
      PacketsMore(s, sections, d, counts);
      RestSmaller(s.multicast, sections, d, counts);
      var tail := PacketsOf(s, rest);
      if tail.Success? {
        Regroup(done, [Header(s, true, counts) + d.body], tail.value);
      }
    }
  }

  /** The four section loops one after the other are what `Fill` says. */
  lemma FillStages(d: Draft, mc: bool, s0: seq<Item>, s1: seq<Item>, s2: seq<Item>, s3: seq<Item>)
    ensures var all := Fill(d, mc, [s0, s1, s2, s3]);
            match WriteSection(d, mc, s0)
            case Failure(e0) => all == Failure(e0)
            case Success(r0) => match WriteSection(r0.0, mc, s1)
            case Failure(e1) => all == Failure(e1)
            case Success(r1) => match WriteSection(r1.0, mc, s2)
            case Failure(e2) => all == Failure(e2)
            case Success(r2) => match WriteSection(r2.0, mc, s3)
            case Failure(e3) => all == Failure(e3)
            case Success(r3) => all == Success((r3.0, [r0.1, r1.1, r2.1, r3.1]))
  {
    FillUnfold(d, mc, [s0, s1, s2, s3]);
    if WriteSection(d, mc, s0).Success? {
      var d1 := WriteSection(d, mc, s0).value.0;
      FillUnfold(d1, mc, [s1, s2, s3]);
      assert [s0, s1, s2, s3][1..] == [s1, s2, s3];
      if WriteSection(d1, mc, s1).Success? {
        var d2 := WriteSection(d1, mc, s1).value.0;
        FillUnfold(d2, mc, [s2, s3]);
        assert [s1, s2, s3][1..] == [s2, s3];
        if WriteSection(d2, mc, s2).Success? {
          var d3 := WriteSection(d2, mc, s2).value.0;
          FillUnfold(d3, mc, [s3]);
          assert [s2, s3][1..] == [s3];
          assert [s3][1..] == [];
          if WriteSection(d3, mc, s3).Success? {
            FourCounts(WriteSection(d, mc, s0).value.1, WriteSection(d1, mc, s1).value.1,
                       WriteSection(d2, mc, s2).value.1, WriteSection(d3, mc, s3).value.1);
          }
        }
      }
    }
  }

  lemma FourCounts(a: nat, b: nat, c: nat, d: nat)
    ensures [a] + ([b] + ([c] + ([d] + []))) == [a, b, c, d]
  {
  }

  lemma FillUnfold(d: Draft, multicast: bool, sections: seq<seq<Item>>)
    requires sections != []
    ensures var first := WriteSection(d, multicast, sections[0]); var all := Fill(d, multicast, sections);
            if first.Failure? then all == Failure(first.error)
            else
              var rest := Fill(first.value.0, multicast, sections[1..]);
              if rest.Failure? then all == Failure(rest.error)
              else all == Success((rest.value.0, [first.value.1] + rest.value.1))
  {
  }

  /** Trying an item on `d` gave `r` and, unless it raised, left `next`. */
  ghost predicate TriedTo(d: Draft, multicast: bool, item: Item, r: Result<bool>, next: Draft) {
    var step := TryWrite(d, multicast, item);
    if step.Failure? then r == Failure(step.error) else r == Success(step.value.1) && next == step.value.0
  }

  lemma TrailTurn(trail: seq<Draft>, multicast: bool, items: seq<Item>, n: nat, r: Result<bool>, next: Draft)
    requires n < |items| && Trail(trail, multicast, items[..n])
    requires TriedTo(trail[n], multicast, items[n], r, next)
    ensures r.Failure? ==> WriteSection(trail[0], multicast, items) == Failure(r.error)
    ensures r == Success(false) ==> WriteSection(trail[0], multicast, items) == Success((next, n))
    ensures r == Success(true) ==> Trail(trail + [next], multicast, items[..n + 1])
  {
    TrailStops(trail, multicast, items, n);
    if r == Success(true) {
      TrailGrows(trail, multicast, items, n, next);
    }
  }

  ghost predicate Wrote(d: Draft, multicast: bool, item: Item, next: Draft) {
    TryWrite(d, multicast, item) == Success((next, true))
  }

  /** The drafts a section loop went through, one per item written. */
  ghost predicate Trail(trail: seq<Draft>, multicast: bool, items: seq<Item>) {
    && |trail| == |items| + 1
    && forall k :: 0 <= k < |items| ==> Wrote(trail[k], multicast, items[k], trail[k + 1])
  }

  lemma TrailGrows(trail: seq<Draft>, multicast: bool, items: seq<Item>, n: nat, next: Draft)
    requires n < |items| && Trail(trail, multicast, items[..n]) && Wrote(trail[n], multicast, items[n], next)
    ensures Trail(trail + [next], multicast, items[..n + 1])
  {
    var longer, some := trail + [next], items[..n + 1];
    forall k | 0 <= k < n + 1
      ensures Wrote(longer[k], multicast, some[k], longer[k + 1])
    {
      if k < n {
        assert some[k] == items[..n][k] && longer[k] == trail[k] && longer[k + 1] == trail[k + 1];
      }
    }
  }

  lemma {:induction false} TrailEnds(trail: seq<Draft>, multicast: bool, items: seq<Item>)
    requires Trail(trail, multicast, items[..|items|])
    ensures WriteSection(trail[0], multicast, items) == Success((trail[|items|], |items|))
    decreases |items|
  {
    assert items[..|items|] == items;
    if items != [] {
      assert Wrote(trail[0], multicast, items[0], trail[1]);
      assert items[1..][..|items[1..]|] == items[1..];
      TrailEnds(trail[1..], multicast, items[1..]);
    }
  }

  lemma {:induction false} TrailStops(trail: seq<Draft>, multicast: bool, items: seq<Item>, n: nat)
    requires n < |items| && Trail(trail, multicast, items[..n])
    ensures var step := TryWrite(trail[n], multicast, items[n]); var all := WriteSection(trail[0], multicast, items);
            && (step.Failure? ==> all == Failure(step.error))
            && (step.Success? && !step.value.1 ==> all == Success((step.value.0, n)))
    decreases n
  {
    if n > 0 {
      assert items[..n][0] == items[0];
      assert Wrote(trail[0], multicast, items[0], trail[1]);
      assert items[1..][..n - 1] == items[..n][1..];
      TrailStops(trail[1..], multicast, items[1..], n - 1);
    }
  }

  lemma ItemRaises(d: Draft, multicast: bool, item: Item)
    ensures var out := ItemOut(d.Size(), d.names, multicast, item);
            out.Failure? ==> TryWrite(d, multicast, item) == Failure(out.error)
  {
  }

  /** What stops a record before its payload. */
  lemma TellRaises(d: Draft, multicast: bool, record: Record, now: Millis)
    ensures var name, all := NameTextOut(d.Size(), d.names, record.name), TryWrite(d, multicast, Tell(record, now));
            if name.Failure? then all == Failure(name.error)
            else record.WireTtl(now) >= 0x1_0000_0000 ==> all == Failure(StructError)
  {
  }

  lemma TryWriteIs(d: Draft, multicast: bool, item: Item, out: Out)
    requires ItemOut(d.Size(), d.names, multicast, item) == Success(out)
    ensures TryWrite(d, multicast, item) == (
              if d.Size() + |out.bytes| <= (if d.allowLong then MAX_MSG_ABSOLUTE else MAX_MSG_TYPICAL)
              then Success((Draft(d.body + out.bytes, out.names, false), true))
              else Success((Draft(d.body, d.names, false), false)))
  {
  }

  lemma PayloadChunks(head: seq<seq<byte>>, zeroed: seq<seq<byte>>, data: seq<seq<byte>>, payload: seq<byte>)
    requires zeroed == head + [Short(0)] && zeroed <= data && Flat(data) == Flat(zeroed) + payload
    ensures Flat(data[|head| + 1..]) == payload
  {
    assert data == zeroed + data[|zeroed|..];
    FlatConcat(zeroed, data[|zeroed|..]);
    assert (Flat(zeroed) + Flat(data[|zeroed|..]))[|Flat(zeroed)|..] == Flat(data[|zeroed|..]);
    assert (Flat(zeroed) + payload)[|Flat(zeroed)|..] == payload;
  }

  lemma PatchLength(head: seq<seq<byte>>, data: seq<seq<byte>>, payload: seq<byte>)
    requires head + [Short(0)] <= data && Flat(data[|head| + 1..]) == payload && |payload| < 0x1_0000
    ensures var patched := data[|head| := Short(|payload|)];
            head <= patched && Flat(patched) == Flat(head) + Short(|payload|) + payload
  {
    var patched := data[|head| := Short(|payload|)];
    assert patched == (head + [Short(|payload|)]) + data[|head| + 1..];
    FlatConcat(head + [Short(|payload|)], data[|head| + 1..]);
    FlatAppend(head, Short(|payload|));
  }

  lemma RegroupTell<T>(body: seq<T>, name: seq<T>, head: seq<T>, length: seq<T>, payload: seq<T>)
    ensures body + (name + head) + length + payload == body + (name + head + length + payload)
  {
  }

  lemma Regroup3<T>(body: seq<T>, a: seq<T>, b: seq<T>, c: seq<T>)
    ensures body + (a + b + c) == body + a + b + c
  {
  }

  lemma NsecParts(body: seq<byte>, name: seq<byte>, length: byte, octets: seq<byte>)
    ensures body + (name + [0, length] + octets) == body + name + [0] + [length] + octets
  {
    Regroup4(body, name, [0], [length], octets);
    assert name + [0, length] == name + [0] + [length];
  }

  lemma Regroup4<T>(body: seq<T>, a: seq<T>, b: seq<T>, c: seq<T>, d: seq<T>)
    ensures body + (a + b + c + d) == body + a + b + c + d
  {
  }

  /** `total` is `written` followed by what `rest` still has to write. */
  ghost predicate Resumes(total: Result<Out>, written: seq<byte>, rest: Result<Out>) {
    match rest
    case Success(out) => total == Success(Out(written + out.bytes, out.names))
    case Failure(error) => total == Failure(error)
  }

  lemma TailOf<T>(s: seq<T>, k: nat)
    requires k < |s|
    ensures s[k..][0] == s[k] && s[k..][1..] == s[k + 1..]
  {
  }

  lemma LinkStep(total: Result<Out>, written: seq<byte>, size: nat, names: Table, labels: seq<Label>)
    requires Resumes(total, written, NameOut(size, names, labels))
    requires labels != [] && Join(labels) in names && names[Join(labels)] != 0
    ensures match LinkOut(names[Join(labels)])
            case Failure(error) => total == Failure(error)
            case Success(link) => total == Success(Out(written + link, names))
  {
  }

  lemma EndStep(total: Result<Out>, written: seq<byte>, size: nat, names: Table, labels: seq<Label>)
    requires Resumes(total, written, NameOut(size, names, labels)) && |labels| == 0
    ensures total == Success(Out(written + [0], names))
  {
  }

  ghost function LinkBytes(index: nat): seq<byte> {
    if LinkOut(index).Success? then LinkOut(index).value else []
  }

  lemma LinkBytesAre(index: nat)
    ensures LinkOut(index).Success? ==> LinkBytes(index) == LinkOut(index).value
  {
  }

  lemma ResumesAtOnce(total: Result<Out>)
    ensures Resumes(total, [], total)
  {
    assert total.Success? ==> [] + total.value.bytes == total.value.bytes;
  }

  lemma NameComposed(body: seq<byte>, size: nat, names: Table, labels: seq<Label>, next: nat, more: Table,
                     rest: Result<Out>)
    requires labels != [] && !(Join(labels) in names && names[Join(labels)] != 0) && |labels[0]| <= 64
    requires next == size + 1 + |labels[0]| && more == names[Join(labels) := size]
    requires rest == NameOut(next, more, labels[1..])
    ensures var all := NameOut(size, names, labels);
            if rest.Failure? then all == Failure(rest.error)
            else all.Success? && all.value.names == rest.value.names
                 && body + all.value.bytes == body + UtfOut(labels[0]).value + rest.value.bytes
  {
    var all, utf := NameOut(size, names, labels), UtfOut(labels[0]).value;
    ResumesAtOnce(all);
    LabelStep(all, [], size, names, labels, next, more, labels[1..]);
    assert [] + utf == utf;
    assert Resumes(all, utf, rest);
    if rest.Success? {
      Regroup(body, utf, rest.value.bytes);
    }
  }

  lemma TooLongStep(total: Result<Out>, written: seq<byte>, size: nat, names: Table, labels: seq<Label>)
    requires Resumes(total, written, NameOut(size, names, labels))
    requires labels != [] && !(Join(labels) in names && names[Join(labels)] != 0)
    ensures |labels[0]| > 64 ==> total == Failure(NamePartTooLong)
  {
  }

  lemma LabelStep(total: Result<Out>, written: seq<byte>, size: nat, names: Table, labels: seq<Label>,
                  next: nat, more: Table, tail: seq<Label>)
    requires Resumes(total, written, NameOut(size, names, labels))
    requires labels != [] && !(Join(labels) in names && names[Join(labels)] != 0) && |labels[0]| <= 64
    requires next == size + 1 + |labels[0]| && more == names[Join(labels) := size] && tail == labels[1..]
    ensures Resumes(total, written + UtfOut(labels[0]).value, NameOut(next, more, tail))
  {
    var utf := UtfOut(labels[0]).value;
    var rest := NameOut(next, more, tail);
    if rest.Success? {
      Regroup(written, utf, rest.value.bytes);
    }
  }
}
