/** From one queue to the other end: packets written by `DNSOutgoing` and read by `DNSIncoming`. */
module Exchange {
  import opened Results
  import opened Bytes
  import opened Records
  import opened WireWriter
  import opened WriterLaws
  import opened Packets
  import opened WireReader
  import opened WireMeaning
  import opened ItemRoundTrip
  import opened WireRoundTrip
  import opened Outgoing
  import opened Incoming
  import NsecBitmap

  /** One packet read by the class. A packet that is valid and complete is seen exactly as the functions see it. */
  method Receive(packet: seq<byte>, at: Arrival) returns (m: Message)
    ensures var meant := ReadMessage(packet, at.now, at.scope); meant.valid && meant.complete ==> m == meant
  {
    hide ReadMessage;
    var msg := new DNSIncoming(packet, at.now, at.scope);
    var records: seq<Record> := [];
    if msg.valid {
      records := msg.Answers();
    }
    return Message(msg.valid, msg.id, msg.flags, msg.counts, msg.questions, records, msg.valid);
  }

  lemma {:induction false} ReadAllAt(packets: seq<seq<byte>>, at: Arrival, i: nat)
    requires i < |packets|
    ensures ReadAll(packets, at)[i] == ReadMessage(packets[i], at.now, at.scope)
    ensures ReadAll(packets[..i + 1], at) == ReadAll(packets[..i], at) + [ReadMessage(packets[i], at.now, at.scope)]
  {
    hide ReadMessage;
    if i == 0 {
      assert packets[..1][1..] == [];
    } else {
      ReadAllAt(packets[1..], at, i - 1);
      assert packets[..i + 1][1..] == packets[1..][..i] && packets[..i][1..] == packets[1..][..i - 1];
    }
  }

  lemma AllComplete(s: Settings, sections: seq<seq<Item>>, messages: seq<Message>, at: Arrival)
    requires Queued(sections) && ReadBack(s, sections, messages, at)
    ensures forall m :: m in messages ==> m.valid && m.complete
  {
  }

  // ---------- what arrives, field by field ----------

  function Joined<T>(parts: seq<seq<T>>): seq<T> {
    if parts == [] then [] else parts[0] + Joined(parts[1..])
  }

  /** The question as it was asked; the wish for a unicast reply goes out on multicast only. */
  ghost predicate Asked(multicast: bool, sent: Question, got: Question) {
    got.name == sent.name && got.typ == sent.typ && got.cls == sent.cls && got.unique == (sent.unique && multicast)
  }

  /** The record as it was queued, with the given TTL and created on arrival. */
  ghost predicate Arrived(multicast: bool, sent: Record, ttl: nat, got: Record, at: Arrival) {
    && got.name == sent.name && got.typ == sent.typ && got.cls == sent.cls
    && got.unique == (sent.unique && multicast) && got.ttl == ttl && got.created == at.now
    && match sent.rdata
       case Address(address, _) => got.rdata == Address(address, if sent.typ == 28 then at.scope else None)
       case Nsec(name, types) =>
         && got.rdata.Nsec? && got.rdata.nextName == name && NsecBitmap.Increasing(got.rdata.rdtypes)
         && forall t :: t in got.rdata.rdtypes <==> t in types
       case _ => got.rdata == sent.rdata
  }

  lemma ReceivedIs(multicast: bool, sent: Record, now: Millis, at: Arrival)
    requires WfRData(sent.typ, sent.rdata)
    ensures Arrived(multicast, sent, if now == 0.0 then sent.ttl else SecondsLeft(sent, now),
                    ReceivedRecord(multicast, sent, now, at.now, at.scope), at)
  {
    hide SecondsLeft, Record.WireTtl;
    SecondsAre(sent, now);
    if sent.rdata.Nsec? {
      NsecBitmap.DistinctIncreasing(sent.rdata.rdtypes);
    }
  }

  lemma {:induction false} ExpectedRecordAt(multicast: bool, items: seq<Item>, at: Arrival, i: nat)
    requires i < |items| && forall item :: item in items ==> item.Tell?
    ensures |ExpectedRecords(multicast, items, at)| == |items|
    ensures ExpectedRecords(multicast, items, at)[i]
         == ReceivedRecord(multicast, items[i].record, items[i].now, at.now, at.scope)
  {
    hide ReceivedRecord;
    ExpectedRecordsLength(multicast, items, at);
    assert items[0] in items;
    if i > 0 {
      ExpectedRecordAt(multicast, items[1..], at, i - 1);
    }
  }

  /** What arrives of a queued record. */
  lemma RecordArrives(multicast: bool, items: seq<Item>, at: Arrival, i: nat)
    requires i < |items| && AllTell(items)
    ensures i < |ExpectedRecords(multicast, items, at)|
    ensures var (sent, now) := (items[i].record, items[i].now);
            Arrived(multicast, sent, if now == 0.0 then sent.ttl else SecondsLeft(sent, now),
                    ExpectedRecords(multicast, items, at)[i], at)
  {
    ExpectedRecordAt(multicast, items, at, i);
    hide Arrived, ReceivedRecord, SecondsLeft, WfRData, ExpectedRecords;
    assert items[i] in items;
    WfTell(items[i]);
    ReceivedIs(multicast, items[i].record, items[i].now, at);
  }

  lemma WfTell(item: Item)
    requires item.Tell? && WfItem(item)
    ensures WfRData(item.record.typ, item.record.rdata)
  {
  }

  lemma {:induction false} QuestionArrives(multicast: bool, items: seq<Item>, i: nat)
    requires i < |items| && forall item :: item in items ==> item.Ask?
    ensures |ExpectedQuestions(multicast, items)| == |items|
    ensures Asked(multicast, items[i].question, ExpectedQuestions(multicast, items)[i])
  {
    ExpectedQuestionsCount(multicast, items);
    assert items[0] in items;
    if i > 0 {
      QuestionArrives(multicast, items[1..], i - 1);
    }
  }

  lemma {:induction false} AllJoined(messages: seq<Message>, k: nat)
    requires forall m :: m in messages ==> |m.counts| == 4
    requires 1 <= k <= 3
    ensures AllRecords(messages, k)
         == Joined(seq(|messages|, i requires 0 <= i < |messages| => SectionOf(messages[i], k)))
  {
    hide SectionOf;
    if messages != [] {
      var rest := messages[1..];
      AllJoined(rest, k);
      var parts := seq(|messages|, i requires 0 <= i < |messages| => SectionOf(messages[i], k));
      assert parts[1..] == seq(|rest|, i requires 0 <= i < |rest| => SectionOf(rest[i], k));
    }
  }

  lemma {:induction false} QuestionsJoined(messages: seq<Message>)
    ensures AllQuestions(messages) == Joined(seq(|messages|, i requires 0 <= i < |messages| => messages[i].questions))
  {
    if messages != [] {
      var rest := messages[1..];
      QuestionsJoined(rest);
      var parts := seq(|messages|, i requires 0 <= i < |messages| => messages[i].questions);
      assert parts[1..] == seq(|rest|, i requires 0 <= i < |rest| => rest[i].questions);
    }
  }

  /** The parts are the messages' questions, and their records split by the header counts. */
  ghost predicate SplitUp(messages: seq<Message>, asked: seq<seq<Question>>, answered: seq<seq<Record>>,
                          authority: seq<seq<Record>>, extra: seq<seq<Record>>)
  {
    && |asked| == |answered| == |authority| == |extra| == |messages|
    && forall i :: 0 <= i < |messages| ==>
         && messages[i].questions == asked[i] && messages[i].records == answered[i] + authority[i] + extra[i]
         && messages[i].counts == [|asked[i]|, |answered[i]|, |authority[i]|, |extra[i]|]
  }

  /** The round trip over both classes. The questions, answers, authorities and additional records of the queue, well
      formed and each fitting a packet of its own, come out of `packets()` and the readers again: the messages, their
      records split by the header counts, give them back in order. */
  method Exchange(out: DNSOutgoing, at: Arrival)
    returns (messages: seq<Message>, ghost asked: seq<seq<Question>>, ghost answered: seq<seq<Record>>,
             ghost authority: seq<seq<Record>>, ghost extra: seq<seq<Record>>)
    requires out.Valid() && !out.finished
    requires forall q :: q in out.questions ==> WfItem(Ask(q)) && FitsAlone(out.settings.multicast, Ask(q))
    requires forall a :: a in out.answers ==>
               WfItem(Tell(a.0, a.1)) && FitsAlone(out.settings.multicast, Tell(a.0, a.1))
    requires forall r :: r in out.authorities + out.additionals ==>
               WfItem(Tell(r, 0.0)) && FitsAlone(out.settings.multicast, Tell(r, 0.0))
    modifies out
    ensures forall m :: m in messages ==> m.valid && m.complete
    ensures |asked| == |answered| == |authority| == |extra| == |messages|
    ensures forall i :: 0 <= i < |messages| ==>
              && messages[i].questions == asked[i] && messages[i].records == answered[i] + authority[i] + extra[i]
              && messages[i].counts == [|asked[i]|, |answered[i]|, |authority[i]|, |extra[i]|]
    ensures |Joined(asked)| == |old(out.questions)|
    ensures forall i :: 0 <= i < |old(out.questions)| ==>
              Asked(out.settings.multicast, old(out.questions)[i], Joined(asked)[i])
    ensures |Joined(answered)| == |old(out.answers)|
    ensures forall i :: 0 <= i < |old(out.answers)| ==>
              var (sent, now) := old(out.answers)[i];
              Arrived(out.settings.multicast, sent, if now == 0.0 then sent.ttl else SecondsLeft(sent, now),
                      Joined(answered)[i], at)
    ensures |Joined(authority)| == |old(out.authorities)|
    ensures forall i :: 0 <= i < |old(out.authorities)| ==>
              var sent := old(out.authorities)[i];
              Arrived(out.settings.multicast, sent, sent.ttl, Joined(authority)[i], at)
    ensures |Joined(extra)| == |old(out.additionals)|
    ensures forall i :: 0 <= i < |old(out.additionals)| ==>
              var sent := old(out.additionals)[i];
              Arrived(out.settings.multicast, sent, sent.ttl, Joined(extra)[i], at)
  {
    ghost var questions, answers, authorities, additionals :=
      out.questions, out.answers, out.authorities, out.additionals;
    messages := ReadPackets(out, at);
    ghost var s := InOrder(questions, answers, authorities, additionals);
    asked, answered, authority, extra := Sorted(out.settings, s, messages, at);
    hide *;
    Unfolded(out.settings.multicast, questions, answers, authorities, additionals, at);
  }

  /** The sections of a queue, as the packets have them. */
  function InOrder(questions: seq<Question>, answers: seq<(Record, Millis)>, authorities: seq<Record>,
                   additionals: seq<Record>): (r: seq<seq<Item>>)
    ensures |r| == 4
  {
    [QuestionItems(questions), AnswerItems(answers), RecordItems(authorities), RecordItems(additionals)]
  }

  method ReadPackets(out: DNSOutgoing, at: Arrival) returns (messages: seq<Message>)
    requires out.Valid() && !out.finished
    requires forall q :: q in out.questions ==> WfItem(Ask(q)) && FitsAlone(out.settings.multicast, Ask(q))
    requires forall a :: a in out.answers ==>
               WfItem(Tell(a.0, a.1)) && FitsAlone(out.settings.multicast, Tell(a.0, a.1))
    requires forall r :: r in out.authorities + out.additionals ==>
               WfItem(Tell(r, 0.0)) && FitsAlone(out.settings.multicast, Tell(r, 0.0))
    modifies out
    ensures var s := old(InOrder(out.questions, out.answers, out.authorities, out.additionals));
            Queued(s) && ReadBack(out.settings, s, messages, at)
  {
    hide Queued, AllFit, ReadBack, ReadMessage, PacketsOf, FitsAlone, WfItem;
    ghost var s := InOrder(out.questions, out.answers, out.authorities, out.additionals);
    QueueFits(out.settings.multicast, out.questions, out.answers, out.authorities, out.additionals);
    RoundTrip(out.settings, s, at);
    var packets := out.Packets();
    AllComplete(out.settings, s, ReadAll(packets.value, at), at);
    messages := [];
    for i := 0 to |packets.value|
      invariant messages == ReadAll(packets.value[..i], at)
    {
      ReadAllAt(packets.value, at, i);
      var m := Receive(packets.value[i], at);
      messages := messages + [m];
    }
    assert packets.value[..|packets.value|] == packets.value;
  }

  lemma QueueFits(multicast: bool, questions: seq<Question>, answers: seq<(Record, Millis)>,
                  authorities: seq<Record>, additionals: seq<Record>)
    requires forall q :: q in questions ==> WfItem(Ask(q)) && FitsAlone(multicast, Ask(q))
    requires forall a :: a in answers ==> WfItem(Tell(a.0, a.1)) && FitsAlone(multicast, Tell(a.0, a.1))
    requires forall r :: r in authorities + additionals ==> WfItem(Tell(r, 0.0)) && FitsAlone(multicast, Tell(r, 0.0))
    ensures var s := InOrder(questions, answers, authorities, additionals); Queued(s) && AllFit(multicast, s)
  {
    hide WfItem, FitsAlone;
    var s := InOrder(questions, answers, authorities, additionals);
    assert forall r :: r in authorities || r in additionals ==> r in authorities + additionals;
    forall k, j | 0 <= k < 4 && 0 <= j < |s[k]|
      ensures WfItem(s[k][j]) && FitsAlone(multicast, s[k][j]) && (s[k][j].Ask? <==> k == 0)
    {
      assert k == 0 || k == 1 || k == 2 || k == 3;
    }
  }

  lemma ThreeParts(m: Message)
    requires |m.counts| == 4 && m.counts[1] + m.counts[2] + m.counts[3] == |m.records|
    ensures m.records == SectionOf(m, 1) + SectionOf(m, 2) + SectionOf(m, 3)
    ensures forall k :: 1 <= k <= 3 ==> |SectionOf(m, k)| == m.counts[k]
  {
    var a, b := m.counts[1], m.counts[1] + m.counts[2];
    assert m.records == m.records[..a] + m.records[a..b] + m.records[b..];
    forall k | 1 <= k <= 3
      ensures |SectionOf(m, k)| == m.counts[k]
    {
      assert k == 1 || k == 2 || k == 3;
    }
  }

  /** The parts of messages that were read back. */
  lemma Sorted(s: Settings, sections: seq<seq<Item>>, messages: seq<Message>, at: Arrival)
    returns (asked: seq<seq<Question>>, answered: seq<seq<Record>>, authority: seq<seq<Record>>,
             extra: seq<seq<Record>>)
    requires Queued(sections) && ReadBack(s, sections, messages, at)
    ensures SplitUp(messages, asked, answered, authority, extra)
    ensures Joined(asked) == ExpectedQuestions(s.multicast, sections[0])
    ensures Joined(answered) == ExpectedRecords(s.multicast, sections[1], at)
    ensures Joined(authority) == ExpectedRecords(s.multicast, sections[2], at)
    ensures Joined(extra) == ExpectedRecords(s.multicast, sections[3], at)
  {
    hide SectionOf, Joined, AllRecords, AllQuestions, ExpectedRecords, ExpectedQuestions, Queued;
    asked := seq(|messages|, i requires 0 <= i < |messages| => messages[i].questions);
    answered := seq(|messages|, i requires 0 <= i < |messages| => SectionOf(messages[i], 1));
    authority := seq(|messages|, i requires 0 <= i < |messages| => SectionOf(messages[i], 2));
    extra := seq(|messages|, i requires 0 <= i < |messages| => SectionOf(messages[i], 3));
    QuestionsJoined(messages);
    AllJoined(messages, 1);
    AllJoined(messages, 2);
    AllJoined(messages, 3);
    forall i | 0 <= i < |messages|
      ensures messages[i].records == answered[i] + authority[i] + extra[i]
      ensures messages[i].counts == [|asked[i]|, |answered[i]|, |authority[i]|, |extra[i]|]
    {
      assert messages[i] in messages;
      ThreeParts(messages[i]);
    }
  }

  lemma Unfolded(multicast: bool, questions: seq<Question>, answers: seq<(Record, Millis)>, authorities: seq<Record>,
                 additionals: seq<Record>, at: Arrival)
    requires Queued(InOrder(questions, answers, authorities, additionals))
    ensures var s := InOrder(questions, answers, authorities, additionals);
            var (a, b, c, d) := (ExpectedQuestions(multicast, s[0]), ExpectedRecords(multicast, s[1], at),
                                 ExpectedRecords(multicast, s[2], at), ExpectedRecords(multicast, s[3], at));
            && |a| == |questions| && |b| == |answers| && |c| == |authorities| && |d| == |additionals|
            && (forall i :: 0 <= i < |questions| ==> Asked(multicast, questions[i], a[i]))
            && (forall i :: 0 <= i < |answers| ==>
                  var (sent, now) := answers[i];
                  Arrived(multicast, sent, if now == 0.0 then sent.ttl else SecondsLeft(sent, now), b[i], at))
            && (forall i :: 0 <= i < |authorities| ==>
                  var sent := authorities[i]; Arrived(multicast, sent, sent.ttl, c[i], at))
            && (forall i :: 0 <= i < |additionals| ==>
                  var sent := additionals[i]; Arrived(multicast, sent, sent.ttl, d[i], at))
  {
    hide Arrived, Asked, SecondsLeft, ExpectedRecords, ExpectedQuestions, WfItem;
    var s := InOrder(questions, answers, authorities, additionals);
    var a, b := ExpectedQuestions(multicast, s[0]), ExpectedRecords(multicast, s[1], at);
    var c, d := ExpectedRecords(multicast, s[2], at), ExpectedRecords(multicast, s[3], at);
    ExpectedQuestionsCount(multicast, s[0]);
    ExpectedRecordsLength(multicast, s[1], at);
    ExpectedRecordsLength(multicast, s[2], at);
    ExpectedRecordsLength(multicast, s[3], at);
    forall i | 0 <= i < |questions|
      ensures Asked(multicast, questions[i], a[i])
    {
      QuestionArrives(multicast, s[0], i);
    }
    forall i | 0 <= i < |answers|
      ensures var (sent, now) := answers[i];
              Arrived(multicast, sent, if now == 0.0 then sent.ttl else SecondsLeft(sent, now), b[i], at)
    {
      RecordArrives(multicast, s[1], at, i);
    }
    forall i | 0 <= i < |authorities|
      ensures var sent := authorities[i]; Arrived(multicast, sent, sent.ttl, c[i], at)
    {
      RecordArrives(multicast, s[2], at, i);
    }
    forall i | 0 <= i < |additionals|
      ensures var sent := additionals[i]; Arrived(multicast, sent, sent.ttl, d[i], at)
    {
      RecordArrives(multicast, s[3], at, i);
    }
  }
}
