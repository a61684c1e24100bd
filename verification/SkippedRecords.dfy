/** Records the reader cannot use, between those it can: they cost nothing but themselves. */
module SkippedRecords {
  import opened Results
  import opened Bytes
  import opened WireWriter
  import opened WireReader
  import opened ReaderLaws
  import opened WireRoundTrip
  import opened Chains
  import opened DraftMeaning
  import opened WireMeaning
  import opened ItemRoundTrip

  /** From `i` to `m`, by its stated length: a record of a type that is not known, or with a payload that does not
      decode. */
  ghost predicate AlienAt(p: seq<byte>, scope: Option<int>, i: nat, m: nat) {
    && ReadHead(p, i).Success?
    && var h := ReadHead(p, i).value;
    && m == h.at + h.length
    && (h.typ !in {1, 5, 12, 13, 16, 28, 33, 47} || ReadRData(p, h.at, h.typ, h.length, scope).Failure?)
  }

  /** An encoded record, or one of those. */
  ghost function EntryAt(p: seq<byte>, multicast: bool, scope: Option<int>): (nat, nat, Option<Item>) -> bool {
    (i: nat, m: nat, entry: Option<Item>) =>
      match entry
      case Some(item) => Encoded(p, multicast)(i, m, item)
      case None => AlienAt(p, scope, i, m)
  }

  /** The records that can be read. */
  function Usable(entries: seq<Option<Item>>): seq<Item> {
    if entries == [] then []
    else (if entries[0].Some? then [entries[0].value] else []) + Usable(entries[1..])
  }

  lemma AlienSkipped(p: seq<byte>, i: nat, m: nat, at: Arrival)
    requires AlienAt(p, at.scope, i, m)
    ensures ReadTurn(p, i, at.now, at.scope) == Skipped(m)
  {
    hide ReadRData, ReadTurn, ReadHead;
    var h := ReadHead(p, i).value;
    if h.typ !in {1, 5, 12, 13, 16, 28, 33, 47} {
      UnknownSkipped(p, i, at.now, at.scope, h);
    } else {
      FailedSkipped(p, i, at.now, at.scope, h);
    }
  }

  /** What reading one entry must give. */
  function EntryTurn(multicast: bool, entry: Option<Item>, m: nat, at: Arrival): Turn
    requires entry.Some? ==> entry.value.Tell?
  {
    match entry
    case None => Skipped(m)
    case Some(item) => Got(ReceivedRecord(multicast, item.record, item.now, at.now, at.scope), m)
  }

  ghost predicate Told(entries: seq<Option<Item>>) {
    forall entry :: entry in entries && entry.Some? ==> entry.value.Tell? && WfItem(entry.value)
  }

  lemma {:induction false} TurnsRead(at: (nat, nat, Option<Item>) -> bool, turn: nat -> Turn, i: nat, e: nat,
                                     multicast: bool, entries: seq<Option<Item>>, where: Arrival)
    requires Chain(at, i, e, entries) && Told(entries)
    requires forall j: nat, m: nat, entry :: entry in entries && at(j, m, entry) ==>
      turn(j) == EntryTurn(multicast, entry, m, where)
    ensures ReadRun(turn, i, |entries|) == RecordList(ExpectedRecords(multicast, Usable(entries), where), Some(e))
    decreases |entries|
  {
    hide ReceivedRecord, WfItem;
    if entries != [] {
      var m: nat :| at(i, m, entries[0]) && Chain(at, m, e, entries[1..]);
      assert entries[0] in entries;
      TurnsRead(at, turn, m, e, multicast, entries[1..], where);
      UsableCons(multicast, entries, where);
    }
  }

  lemma UsableCons(multicast: bool, entries: seq<Option<Item>>, at: Arrival)
    requires entries != [] && Told(entries)
    ensures ExpectedRecords(multicast, Usable(entries), at)
         == (if entries[0].None? then []
             else [ReceivedRecord(multicast, entries[0].value.record, entries[0].value.now, at.now, at.scope)])
            + ExpectedRecords(multicast, Usable(entries[1..]), at)
  {
    hide ReceivedRecord;
    var all, rest := Usable(entries), Usable(entries[1..]);
    match entries[0]
    case None =>
      assert all == rest;
    case Some(item) =>
      assert all == [item] + rest && all[1..] == rest;
  }

  lemma EntriesRead(p: seq<byte>, i: nat, e: nat, multicast: bool, entries: seq<Option<Item>>, at: Arrival)
    requires Chain(EntryAt(p, multicast, at.scope), i, e, entries) && Told(entries)
    ensures ReadOthers(p, i, |entries|, at.now, at.scope)
         == RecordList(ExpectedRecords(multicast, Usable(entries), at), Some(e))
  {
    hide ReadTurn, AlienAt, ReceivedRecord, ReadRun, ExpectedRecords;
    forall j: nat, m: nat, entry | entry in entries && EntryAt(p, multicast, at.scope)(j, m, entry)
      ensures Turns(p, at.now, at.scope)(j) == EntryTurn(multicast, entry, m, at)
    {
      match entry
      case None => AlienSkipped(p, j, m, at);
      case Some(item) => EncodedRecord(p, j, m, multicast, item, at);
    }
    TurnsRead(EntryAt(p, multicast, at.scope), Turns(p, at.now, at.scope), i, e, multicast, entries, at);
  }

  /** A packet of encoded items with such records in between is read as just the items, and is valid. */
  lemma AliensSkipped(p: seq<byte>, multicast: bool, asks: seq<Item>, entries: seq<Option<Item>>, m: nat, e: nat,
                      at: Arrival)
    requires |p| >= 12 && Big(p, 4, 2) == |asks| && Big(p, 6, 2) + Big(p, 8, 2) + Big(p, 10, 2) == |entries|
    requires Chain(Encoded(p, multicast), 12, m, asks) && AllAsk(asks)
    requires Chain(EntryAt(p, multicast, at.scope), m, e, entries) && Told(entries)
    ensures var read := ReadMessage(p, at.now, at.scope);
            && read.valid && read.complete
            && read.questions == ExpectedQuestions(multicast, asks)
            && read.records == ExpectedRecords(multicast, Usable(entries), at)
  {
    hide ReadQuestions, ReadOthers, Big;
    BigIs(p, 4);
    BigIs(p, 6);
    BigIs(p, 8);
    BigIs(p, 10);
    QuestionsRead(p, 12, m, multicast, asks);
    EntriesRead(p, m, e, multicast, entries, at);
    MessageReads(p, HeaderCounts(p), at, ExpectedQuestions(multicast, asks), m,
                 ExpectedRecords(multicast, Usable(entries), at), e, |asks|, |entries|);
  }
}
