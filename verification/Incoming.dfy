/** `DNSIncoming`: reads a packet in place, remembering the labels decoded at every offset. */
module Incoming {
  import opened Results
  import opened Bytes
  import opened Names
  import opened NameDecoder
  import opened Records
  import opened WireReader
  import NsecBitmap

  class DNSIncoming {
    const data: seq<byte>
    const now: Millis
    const scope: Option<int>

    var id: nat
    var flags: nat
    var counts: seq<nat>
    var questions: seq<Question>
    var answers: seq<Record>
    var valid: bool
    var hasQuQuestion: bool

    var offset: nat
    var nameCache: map<nat, seq<Label>>
    var didReadOthers: bool

    /** Every remembered, non-empty list of labels is what the cache-free decoder finds there. */
    ghost predicate CacheOk()
      reads this`nameCache
    {
      forall k :: k in nameCache && nameCache[k] != [] ==>
        Decode(data, k, {}).Success? && Decode(data, k, {}).value.labels == nameCache[k]
    }

    /** The packet as the cache-free functions read it. */
    ghost function Meaning(): Message {
      ReadMessage(data, now, scope)
    }

    /** What the constructor leaves for `Answers`. */
    ghost predicate Parsed()
      reads this
    {
      && CacheOk() && |counts| == 4
      && id == Meaning().id && flags == Meaning().flags && counts == Meaning().counts
      && questions == Meaning().questions && valid == Meaning().valid
      && (!didReadOthers ==> answers == [])
      && (valid && !didReadOthers ==>
            |data| >= 12 && counts[0] > 0
            && ReadQuestions(data, 12, counts[0]).next == Some(offset))
      && (didReadOthers ==> answers == Meaning().records)
    }

    /** `_decode_labels_at_offset`: whatever was read before, the result is the cache-free decoder's. It ends because
        each pointer followed joins `seen`, and each label read brings the offset closer to the end. */
    method DecodeLabelsAtOffset(off: nat, seen: set<nat>) returns (r: Result<Decoded>)
      requires CacheOk()
      requires forall s :: s in seen ==> Leads(data, s, off)
      modifies this`nameCache
      ensures CacheOk()
      ensures r == Decode(data, off, seen)
      decreases Targets(data) - seen, 1
    {
      hide Targets, Leads, LeadsIn, Join, Scan, PrependAll;
      var labels: seq<Label> := [];
      var at := off;
      ScanStart(data, off);
      while at < |data|
        invariant Scan(data, off) == PrependAll(labels, Scan(data, at))
        invariant CacheOk()
        decreases |data| - at
      {
        var length := data[at];
        if length == 0 {
          ScanEnds(data, off, at, labels, seen);
          return Success(Decoded(labels, at + 1));
        }
        if length < 0x40 {
          var part := Slice(data, at + 1, at + 1 + length);
          ScanLabel(data, off, at, labels);
          labels := labels + [part];
          at := at + 1 + length;
          continue;
        }
        ScanStuck(data, off, at, labels, seen);
        if length < 0xC0 || at + 1 >= |data| {
          return Failure(DecodeError);
        }
        var link := ((length as int) % 0x40) * 0x100 + data[at + 1];
        if link > |data| || link == at {
          return Failure(DecodeError);
        }
        LinkLeads(data, off, at, labels, link, seen);
        if link in seen {
          return Failure(DecodeError);
        }
        var linked :- LabelsAt(link, seen);
        JumpDecoded(data, off, labels, link, at + 2, seen, linked);
        labels := labels + linked;
        if |labels| > MAX_DNS_LABELS {
          return Failure(DecodeError);
        }
        return Success(Decoded(labels, at + 2));
      }
      ScanStuck(data, off, at, labels, seen);
      return Failure(DecodeError);
    }

    /** The labels a pointer leads to: remembered ones if there are any, otherwise decoded and then remembered. */
    method LabelsAt(link: nat, seen: set<nat>) returns (r: Result<seq<Label>>)
      requires CacheOk() && link <= |data| && link !in seen
      requires forall s :: s in seen + {link} ==> Leads(data, s, link)
      modifies this`nameCache
      ensures CacheOk()
      ensures match Decode(data, link, seen + {link})
              case Failure(error) => r == Failure(error)
              case Success(d) => r == Success(d.labels)
      decreases Targets(data) - seen, 0
    {
      if link in nameCache && nameCache[link] != [] {
        CacheHit(data, link, seen + {link});
        return Success(nameCache[link]);
      }
      var d :- DecodeLabelsAtOffset(link, seen + {link});
      ForgetSeen(data, link, seen + {link}, {});
      nameCache := nameCache[link := d.labels];
      return Success(d.labels);
    }

    /** `_read_name` */
    method ReadNameHere() returns (r: Result<Name>)
      requires CacheOk()
      modifies this`nameCache, this`offset
      ensures CacheOk()
      ensures match ReadName(data, old(offset))
              case Failure(error) => r == Failure(error)
              case Success(read) => r == Success(read.0) && offset == read.1
    {
      var original := offset;
      var d :- DecodeLabelsAtOffset(original, {});
      offset := d.next;
      nameCache := nameCache[original := d.labels];
      var name := Join(d.labels) + [DOT];
      if |name| > MAX_NAME_LENGTH {
        return Failure(DecodeError);
      }
      return Success(name);
    }

    method ReadQuestionHere() returns (r: Result<Question>)
      requires CacheOk()
      modifies this`nameCache, this`offset
      ensures CacheOk()
      ensures match Asks(data)(old(offset))
              case Failure(error) => r == Failure(error)
              case Success(read) => r == Success(read.0) && offset == read.1
    {
      var name :- ReadNameHere();
      var at := offset;
      offset := offset + 4;
      if at + 4 > |data| {
        return Failure(IndexError);
      }
      var (cls, unique) := FromWireClass(ShortAt(data, at + 2));
      return Success(Question(name, ShortAt(data, at), cls, unique));
    }

    /** `_read_questions`; false when an exception ended it, with the questions read so far kept. */
    method ReadQuestionsHere() returns (ok: bool)
      requires CacheOk() && |counts| == 4 && questions == []
      modifies this`nameCache, this`offset, this`questions, this`hasQuQuestion
      ensures CacheOk()
      ensures var all := ReadQuestions(data, old(offset), counts[0]);
              questions == all.items && ok == all.next.Some? && (ok ==> all.next == Some(offset))
      ensures hasQuQuestion <==> old(hasQuQuestion) || exists q :: q in questions && q.unique
    {
      hide ReadQuestion, ReadName, AskRun;
      ghost var all, asks := ReadQuestions(data, offset, counts[0]), Asks(data);
      QuestionsStart(data, offset, counts[0]);
      var left := counts[0];
      while left > 0
        invariant CacheOk()
        invariant all == QuestionsBefore(questions, AskRun(asks, offset, left))
        invariant hasQuQuestion <==> old(hasQuQuestion) || exists q :: q in questions && q.unique
      {
        ghost var start, before := offset, questions;
        var question := ReadQuestionHere();
        QuestionsTurn(asks, questions, start, left);
        if question.Failure? {
          return false;
        }
        if question.value.unique {
          hasQuQuestion := true;
        }
        questions := questions + [question.value];
        assert forall q :: q in questions <==> q in before || q == question.value;
        left := left - 1;
      }
      QuestionsEnd(asks, questions, offset);
      return true;
    }

    /** `_read_character_string` */
    method ReadCharacterStringHere() returns (r: Result<seq<byte>>)
      modifies this`offset
      ensures match ReadCharacterString(data, old(offset))
              case Failure(error) => r == Failure(error)
              case Success(read) => r == Success(read.0) && offset == read.1
    {
      if offset >= |data| {
        return Failure(IndexError);
      }
      var length := data[offset];
      offset := offset + 1;
      var info := Slice(data, offset, offset + length);
      offset := offset + length;
      return Success(info);
    }

    /** `_read_string` */
    method ReadStringHere(length: nat) returns (info: seq<byte>)
      modifies this`offset
      ensures info == Slice(data, old(offset), old(offset) + length) && offset == old(offset) + length
    {
      info := Slice(data, offset, offset + length);
      offset := offset + length;
    }

    /** `_read_bitmap` */
    method ReadBitmapHere(end: nat) returns (r: Result<seq<nat>>)
      modifies this`offset
      ensures match ReadBitmap(data, old(offset), end)
              case Failure(error) => r == Failure(error)
              case Success(read) => r == Success(read.0) && offset == read.1
    {
      hide NsecBitmap.TypesAt, NsecBitmap.WindowBits, NsecBitmap.Bits, Slice;
      ghost var all := ReadBitmap(data, offset, end);
      var rdtypes: seq<nat> := [];
      assert all.Success? ==> [] + all.value.0 == all.value.0;
      while offset < end
        invariant match ReadBitmap(data, offset, end)
                  case Failure(error) => all == Failure(error)
                  case Success(rest) => all == Success((rdtypes + rest.0, rest.1))
        decreases end - offset
      {
        if offset + 1 >= |data| {
          return Failure(IndexError);
        }
        var window, bitmapLength := data[offset], data[offset + 1];
        var octets := Slice(data, offset + 2, offset + 2 + bitmapLength);
        var types := SetBits(octets, (window as int) * 256);
        ghost var rest := ReadBitmap(data, offset + 2 + bitmapLength, end);
        if rest.Success? {
          assert rdtypes + (types + rest.value.0) == rdtypes + types + rest.value.0;
        }
        rdtypes := rdtypes + types;
        offset := offset + 2 + bitmapLength;
      }
      assert rdtypes + [] == rdtypes;
      return Success(rdtypes);
    }

    /** `_read_record` */
    method ReadRecordHere(h: Head) returns (r: Result<Option<Record>>)
      requires CacheOk() && offset == h.at
      modifies this`nameCache, this`offset
      ensures CacheOk()
      ensures match ReadRData(data, h.at, h.typ, h.length, scope)
              case Failure(error) => r == Failure(error)
              case Success((None, next)) => r == Success(None) && offset == next
              case Success((Some(rdata), next)) => r == Success(Some(MakeRecord(h, now, rdata))) && offset == next
    {
      hide ReadName, ReadBitmap, ReadCharacterString, NsecBitmap.SortTypes;
      var rdata: RData;
      if h.typ == TYPE_A {
        var address := ReadStringHere(4);
        rdata := Address(address, None);
      } else if h.typ == TYPE_CNAME || h.typ == TYPE_PTR {
        var alias :- ReadNameHere();
        rdata := Pointer(alias);
      } else if h.typ == TYPE_TXT {
        var text := ReadStringHere(h.length);
        rdata := Text(text);
      } else if h.typ == TYPE_SRV {
        var at := offset;
        offset := offset + 6;
        if at + 6 > |data| {
          return Failure(IndexError);
        }
        var server :- ReadNameHere();
        rdata := Service(ShortAt(data, at), ShortAt(data, at + 2), ShortAt(data, at + 4), server);
      } else if h.typ == TYPE_HINFO {
        var cpu :- ReadCharacterStringHere();
        var os :- ReadCharacterStringHere();
        rdata := Hinfo(cpu, os);
      } else if h.typ == TYPE_AAAA {
        var address := ReadStringHere(16);
        rdata := Address(address, scope);
      } else if h.typ == TYPE_NSEC {
        var nameStart := offset;
        var nextName :- ReadNameHere();
        var types :- ReadBitmapHere(nameStart + h.length);
        rdata := Nsec(nextName, NsecBitmap.SortTypes(types));
      } else {
        offset := offset + h.length;
        return Success(None);
      }
      return Success(Some(MakeRecord(h, now, rdata)));
    }

    /** Owner name and fixed fields of a record. */
    method ReadHeadHere() returns (r: Result<Head>)
      requires CacheOk()
      modifies this`nameCache, this`offset
      ensures CacheOk()
      ensures r == ReadHead(data, old(offset))
      ensures r.Success? ==> offset == r.value.at
    {
      var domain :- ReadNameHere();
      var at := offset;
      offset := offset + 10;
      if at + 10 > |data| {
        return Failure(IndexError);
      }
      var (cls, unique) := FromWireClass(ShortAt(data, at + 2));
      return Success(Head(domain, ShortAt(data, at), cls, unique, LongAt(data, at + 4), offset, ShortAt(data, at + 8)));
    }

    /** One record of `_read_others`; after a payload that fails to decode, the offset is set behind it. */
    method ReadTurnHere() returns (turn: Turn)
      requires CacheOk()
      modifies this`nameCache, this`offset
      ensures CacheOk() && turn == Turns(data, now, scope)(old(offset))
      ensures !turn.Broken? ==> offset == turn.next
    {
      var head := ReadHeadHere();
      if head.Failure? {
        return Broken;
      }
      var end := offset + head.value.length;
      var rec := ReadRecordHere(head.value);
      TurnIs(data, now, scope, old(offset), head.value);
      match rec
      case Failure(_) =>
        offset := end;
        return Skipped(offset);
      case Success(None) =>
        return Skipped(offset);
      case Success(Some(record)) =>
        return Got(record, offset);
    }

    /** `_read_others`; false when an exception left it, with the records read so far kept. */
    method ReadOthersHere() returns (ok: bool)
      requires CacheOk() && |counts| == 4
      modifies this`nameCache, this`offset, this`answers, this`didReadOthers
      ensures CacheOk() && didReadOthers
      ensures var all := ReadOthers(data, old(offset), counts[1] + counts[2] + counts[3], now, scope);
              answers == old(answers) + all.items && ok == all.next.Some?
    {
      hide ReadTurn, ReadRun, TurnOf, ReadHead;
      didReadOthers := true;
      var n := counts[1] + counts[2] + counts[3];
      ghost var turns, read := Turns(data, now, scope), [];
      ghost var all := ReadOthers(data, offset, n, now, scope);
      RunStart(data, now, scope, offset, n);
      var left := n;
      while left > 0
        invariant CacheOk() && answers == old(answers) + read && didReadOthers
        invariant all == RecordsBefore(read, ReadRun(turns, offset, left))
      {
        ghost var start := offset;
        var turn := ReadTurnHere();
        RecordsTurn(turns, read, start, left, turn);
        if turn.Broken? {
          return false;
        }
        if turn.Got? {
          Regroup(old(answers), read, [turn.record]);
          answers := answers + [turn.record];
          read := read + [turn.record];
        }
        left := left - 1;
      }
      RunEnd(turns, read, offset);
      return true;
    }

    /** `__init__`: header and questions, and the other records only when there are no questions. */
    constructor (data: seq<byte>, now: Millis, scope: Option<int>)
      ensures this.data == data && this.now == now && this.scope == scope
      ensures Parsed()
      ensures hasQuQuestion <==> exists q :: q in questions && q.unique
    {
      this.data, this.now, this.scope := data, now, scope;
      id, flags, counts := 0, 0, [0, 0, 0, 0];
      questions, answers, valid, hasQuQuestion := [], [], false, false;
      offset, nameCache, didReadOthers := 0, map[], false;
      new;
      InitialParse();
    }

    /** `_initial_parse`, with the exceptions it swallows. */
    method InitialParse()
      requires id == 0 && flags == 0 && counts == [0, 0, 0, 0] && questions == [] && answers == []
      requires offset == 0 && nameCache == map[] && !valid && !hasQuQuestion && !didReadOthers
      modifies this
      ensures Parsed()
      ensures hasQuQuestion <==> exists q :: q in questions && q.unique
    {
      hide ReadQuestions, ReadOthers;
      var header := ReadHeaderHere();
      if !header {
        return;
      }
      var ok := ReadQuestionsHere();
      if !ok {
        return;
      }
      if counts[0] == 0 {
        ok := ReadOthersHere();
        if !ok {
          return;
        }
      }
      valid := true;
    }

    /** `_read_header`, field by field; false when the packet ends inside it. */
    method ReadHeaderHere() returns (ok: bool)
      requires id == 0 && flags == 0 && counts == [0, 0, 0, 0]
      requires offset == 0
      modifies this`id, this`flags, this`counts, this`offset
      ensures id == HeaderField(data, 0) && flags == HeaderField(data, 1) && counts == HeaderCounts(data)
      ensures ok == (|data| >= 12)
      ensures ok ==> offset == 12
    {
      offset := 12;
      for k := 0 to 6
        invariant offset == 12 && |counts| == 4 && 2 * k <= |data|
        invariant id == if k > 0 then HeaderField(data, 0) else 0
        invariant flags == if k > 1 then HeaderField(data, 1) else 0
        invariant forall j :: 0 <= j < 4 ==> counts[j] == if k > j + 2 then HeaderField(data, j + 2) else 0
      {
        if 2 * k + 2 > |data| {
          return false;
        }
        var field := ShortAt(data, 2 * k);
        if k == 0 {
          id := field;
        } else if k == 1 {
          flags := field;
        } else {
          counts := counts[k - 2 := field];
        }
      }
      return true;
    }

    /** `answers`: reads the rest of the packet on the first call. For a message that is not valid this goes on from
        wherever the reader stopped. */
    method Answers() returns (records: seq<Record>)
      requires Parsed()
      modifies this
      ensures CacheOk()
      ensures valid == old(valid) && questions == old(questions)
      ensures valid ==> Parsed() && records == Meaning().records
      ensures didReadOthers && records == answers && counts == old(counts) && |counts| == 4
      ensures old(didReadOthers) ==> records == old(answers) == Meaning().records
      ensures !old(didReadOthers) ==>
                records == ReadOthers(data, old(offset), counts[1] + counts[2] + counts[3], now, scope).items
    {
      hide ReadQuestions, ReadOthers;
      if !didReadOthers {
        var _ := ReadOthersHere();
      }
      return answers;
    }
  }

  lemma QuestionsStart(p: seq<byte>, off: nat, count: nat)
    ensures ReadQuestions(p, off, count) == QuestionsBefore([], AskRun(Asks(p), off, count))
  {
    var all := ReadQuestions(p, off, count);
    assert [] + all.items == all.items;
  }

  lemma RunStart(p: seq<byte>, now: Millis, scope: Option<int>, off: nat, count: nat)
    ensures ReadOthers(p, off, count, now, scope)
         == RecordsBefore([], ReadRun(Turns(p, now, scope), off, count))
  {
    var all := ReadOthers(p, off, count, now, scope);
    assert [] + all.items == all.items;
  }

  lemma RunEnd(turns: nat -> Turn, read: seq<Record>, off: nat)
    ensures RecordsBefore(read, ReadRun(turns, off, 0)) == RecordList(read, Some(off))
  {
    assert read + [] == read;
  }

  function QuestionsBefore(read: seq<Question>, rest: Questions): Questions {
    Questions(read + rest.items, rest.next)
  }

  lemma QuestionsEnd(asks: QuestionReader, read: seq<Question>, off: nat)
    ensures QuestionsBefore(read, AskRun(asks, off, 0)) == Questions(read, Some(off))
  {
    assert read + [] == read;
  }

  lemma QuestionsTurn(asks: QuestionReader, read: seq<Question>, off: nat, count: nat)
    requires count > 0
    ensures var before := QuestionsBefore(read, AskRun(asks, off, count));
            if asks(off).Failure? then before == Questions(read, None)
            else before == QuestionsBefore(read + [asks(off).value.0], AskRun(asks, asks(off).value.1, count - 1))
  {
    assert read + [] == read;
    if asks(off).Success? {
      Regroup(read, [asks(off).value.0], AskRun(asks, asks(off).value.1, count - 1).items);
    }
  }

  function RecordsBefore(read: seq<Record>, rest: RecordList): RecordList {
    RecordList(read + rest.items, rest.next)
  }

  lemma RecordsTurn(turns: nat -> Turn, read: seq<Record>, off: nat, count: nat, turn: Turn)
    requires count > 0 && turn == turns(off)
    ensures var before := RecordsBefore(read, ReadRun(turns, off, count));
            && (turn.Broken? ==> before == RecordList(read, None))
            && (turn.Skipped? ==> before == RecordsBefore(read, ReadRun(turns, turn.next, count - 1)))
            && (turn.Got? ==> before == RecordsBefore(read + [turn.record], ReadRun(turns, turn.next, count - 1)))
  {
    assert read + [] == read;
    if turn.Got? {
      Regroup(read, [turn.record], ReadRun(turns, turn.next, count - 1).items);
    }
  }

  /** The two inner loops of `_read_bitmap`: octet by octet, bit by bit. */
  method SetBits(octets: seq<byte>, base: nat) returns (types: seq<nat>)
    ensures types == NsecBitmap.TypesAt(NsecBitmap.WindowBits(octets), base)
  {
    types := [];
    for i := 0 to |octets|
      invariant types == NsecBitmap.TypesAt(NsecBitmap.WindowBits(octets[..i]), base)
    {
      ghost var before, bits := types, NsecBitmap.Bits(octets[i], 8);
      for bit := 0 to 8
        invariant types == before + NsecBitmap.TypesAt(bits[..bit], base + 8 * i)
      {
        assert bits[..bit + 1] == bits[..bit] + [bits[bit]];
        NsecBitmap.TypesAtConcat(bits[..bit], [bits[bit]], base + 8 * i);
        if NsecBitmap.Has(octets[i], bit) {
          types := types + [base + 8 * i + bit];
        }
      }
      assert bits[..8] == bits;
      WindowBitsSnoc(octets, i);
      NsecBitmap.TypesAtConcat(NsecBitmap.WindowBits(octets[..i]), bits, base);
    }
    assert octets[..|octets|] == octets;
  }

  lemma {:induction false} WindowBitsSnoc(octets: seq<byte>, i: nat)
    requires i < |octets|
    ensures NsecBitmap.WindowBits(octets[..i + 1]) == NsecBitmap.WindowBits(octets[..i]) + NsecBitmap.Bits(octets[i], 8)
  {
    if i > 0 {
      WindowBitsSnoc(octets[1..], i - 1);
      assert octets[..i + 1][1..] == octets[1..][..i] && octets[..i][1..] == octets[1..][..i - 1];
    } else {
      assert octets[..1][1..] == [];
    }
  }

  lemma TurnIs(p: seq<byte>, now: Millis, scope: Option<int>, off: nat, h: Head)
    requires ReadHead(p, off) == Success(h)
    ensures Turns(p, now, scope)(off) ==
            match ReadRData(p, h.at, h.typ, h.length, scope)
            case Failure(_) => Skipped(h.at + h.length)
            case Success((None, next)) => Skipped(next)
            case Success((Some(rdata), next)) => Got(MakeRecord(h, now, rdata), next)
  {
  }

  function PrependAll(labels: seq<Label>, s: Segment): Segment {
    match s
    case Bad => Bad
    case End(more, next) => End(labels + more, next)
    case Jump(more, link, next) => Jump(labels + more, link, next)
  }

  lemma ScanStart(p: seq<byte>, off: nat)
    ensures Scan(p, off) == PrependAll([], Scan(p, off))
  {
    var s := Scan(p, off);
    assert !s.Bad? ==> [] + s.labels == s.labels;
  }

  lemma ScanEnds(p: seq<byte>, off: nat, at: nat, labels: seq<Label>, seen: set<nat>)
    requires Scan(p, off) == PrependAll(labels, Scan(p, at)) && at < |p| && p[at] == 0
    ensures Decode(p, off, seen) == Success(Decoded(labels, at + 1))
  {
    assert labels + [] == labels;
  }

  lemma ScanLabel(p: seq<byte>, off: nat, at: nat, labels: seq<Label>)
    requires Scan(p, off) == PrependAll(labels, Scan(p, at)) && at < |p| && 0 < p[at] < 0x40
    ensures var next := at + 1 + p[at];
            Scan(p, off) == PrependAll(labels + [Slice(p, at + 1, next)], Scan(p, next))
  {
    var next := at + 1 + p[at];
    var part, s := Slice(p, at + 1, next), Scan(p, next);
    assert Scan(p, at) == Prepend(part, s);
    if !s.Bad? {
      Regroup(labels, [part], s.labels);
    }
  }

  lemma JumpDecoded(p: seq<byte>, off: nat, labels: seq<Label>, link: nat, next: nat, seen: set<nat>,
                    linked: seq<Label>)
    requires Scan(p, off) == Jump(labels, link, next) && link !in seen
    requires Decode(p, link, seen + {link}).Success? && Decode(p, link, seen + {link}).value.labels == linked
    ensures Decode(p, off, seen)
         == if |labels + linked| > MAX_DNS_LABELS then Failure(DecodeError) else Success(Decoded(labels + linked, next))
  {
  }

  /** The pointer at `at`, if there is a usable one. */
  predicate PointsTo(p: seq<byte>, at: nat, link: nat) {
    && at + 1 < |p| && p[at] >= 0xC0 && link == ((p[at] as int) % 0x40) * 0x100 + p[at + 1]
    && link <= |p| && link != at
  }

  /** The end of the packet, a byte that is no length, or an unusable pointer. */
  lemma ScanStuck(p: seq<byte>, off: nat, at: nat, labels: seq<Label>, seen: set<nat>)
    requires Scan(p, off) == PrependAll(labels, Scan(p, at)) && (at < |p| ==> p[at] >= 0x40)
    ensures (forall link :: !PointsTo(p, at, link)) ==> Decode(p, off, seen) == Failure(DecodeError)
  {
    if at + 1 < |p| && p[at] >= 0xC0 {
      var link := ((p[at] as int) % 0x40) * 0x100 + p[at + 1];
      assert link > |p| || link == at || PointsTo(p, at, link);
    }
  }

  /** Following a pointer found behind `labels`: everything seen, and the target itself, leads to the target. */
  lemma LinkLeads(p: seq<byte>, off: nat, at: nat, labels: seq<Label>, link: nat, seen: set<nat>)
    requires Scan(p, off) == PrependAll(labels, Scan(p, at)) && PointsTo(p, at, link)
    requires forall s :: s in seen ==> Leads(p, s, off)
    ensures Scan(p, off) == Jump(labels, link, at + 2)
    ensures link in seen ==> Decode(p, off, seen) == Failure(DecodeError)
    ensures forall s :: s in seen + {link} ==> Leads(p, s, link)
  {
    assert labels + [] == labels && Scan(p, at) == Jump([], link, at + 2);
    forall s | s in seen + {link}
      ensures Leads(p, s, link)
    {
      if s in seen {
        var k: nat :| LeadsIn(p, s, off, k);
        LeadsOn(p, s, off, k);
      } else {
        assert LeadsIn(p, link, link, 0);
      }
    }
  }
}
