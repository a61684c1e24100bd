/** `AsyncListener`: which datagrams are looked at, and how truncated queries are put together again. */
module Listener {
  import opened Results
  import opened Bytes
  import opened Records
  import opened Packets
  import opened WireReader
  import opened Incoming

  const DUPLICATE_PACKET_SUPPRESSION_INTERVAL := 1000.0
  const TC_DELAY_MIN := 400.0
  const TC_DELAY_MAX := 500.0

  type Address = seq<byte>

  /** A query packet and when it arrived. */
  datatype Packet = Packet(data: seq<byte>, now: Millis)

  /** `truncated`: the TC bit of the header flags. */
  predicate Truncated(data: seq<byte>) {
    HeaderField(data, 1) / FLAGS_TC % 2 == 1
  }

  /** A pending call to `_respond_query` without a packet. */
  datatype Timer = Timer(due: Millis, port: nat)

  /** No two packets of the list carry the same bytes. */
  ghost predicate AllDifferent(packets: seq<Packet>) {
    forall i, j :: 0 <= i < j < |packets| ==> packets[i].data != packets[j].data
  }

  function Listed<K, T>(m: map<K, seq<T>>, k: K): seq<T> {
    if k in m then m[k] else []
  }

  lemma ListedIs<K, T>(m: map<K, seq<T>>, k: K)
    ensures Listed(m, k) == if k in m then m[k] else []
  {
  }

  function Concat(groups: seq<seq<Packet>>): seq<Packet> {
    if groups == [] then [] else Concat(groups[..|groups| - 1]) + groups[|groups| - 1]
  }

  lemma ConcatSnoc(groups: seq<seq<Packet>>, g: seq<Packet>)
    ensures Concat(groups + [g]) == Concat(groups) + g
  {
    assert (groups + [g])[..|groups|] == groups;
  }

  /** Exactly the addresses with packets to wait for have a timer, due at most half a second after the last of them. */
  ghost predicate Keeping(deferred: map<Address, seq<Packet>>, timers: map<Address, Timer>) {
    && timers.Keys == deferred.Keys
    && forall a :: a in deferred ==> KeptWell(deferred[a], timers[a])
  }

  ghost predicate KeptWell(packets: seq<Packet>, timer: Timer) {
    && packets != [] && AllDifferent(packets)
    && (forall p :: p in packets ==> Truncated(p.data))
    && timer.due <= packets[|packets| - 1].now + TC_DELAY_MAX
  }

  /** Per address, what was accepted is what was handed over, in order, and then what is still kept. */
  ghost predicate Logged(accepted: map<Address, seq<Packet>>, handed: map<Address, seq<seq<Packet>>>,
                         deferred: map<Address, seq<Packet>>)
  {
    forall a :: Listed(accepted, a) == Concat(Listed(handed, a)) + Listed(deferred, a)
  }

  ghost predicate GroupsOk(handed: map<Address, seq<seq<Packet>>>) {
    forall a :: a in handed ==> forall g :: g in handed[a] ==> g != [] && AllDifferent(g)
  }

  lemma KeptAll(deferred: map<Address, seq<Packet>>, timers: map<Address, Timer>, addr: Address, more: seq<Packet>)
    requires Keeping(deferred, timers)
    requires if more == [] then addr in timers else |more| == 1 && !Truncated(more[0].data)
    ensures Keeping(deferred - {addr}, timers - {addr})
    ensures Listed(deferred, addr) + more != [] && AllDifferent(Listed(deferred, addr) + more)
  {
    hide Truncated;
    assert addr in deferred ==> KeptWell(deferred[addr], timers[addr]);
  }

  lemma KeptMore(deferred: map<Address, seq<Packet>>, timers: map<Address, Timer>, addr: Address, msg: Packet,
                 timer: Timer)
    requires Keeping(deferred, timers) && Truncated(msg.data) && timer.due <= msg.now + TC_DELAY_MAX
    requires forall p :: p in Listed(deferred, addr) ==> p.data != msg.data
    ensures Keeping(deferred[addr := Listed(deferred, addr) + [msg]], timers[addr := timer])
  {
    hide Truncated;
    assert addr in deferred ==> KeptWell(deferred[addr], timers[addr]);
    assert KeptWell(Listed(deferred, addr) + [msg], timer);
  }

  lemma LoggedHandOver(accepted: map<Address, seq<Packet>>, more: map<Address, seq<Packet>>,
                       handed: map<Address, seq<seq<Packet>>>, deferred: map<Address, seq<Packet>>,
                       addr: Address, last: seq<Packet>, group: seq<Packet>)
    requires Logged(accepted, handed, deferred) && group == Listed(deferred, addr) + last
    requires more == if last == [] then accepted else accepted[addr := Listed(accepted, addr) + last]
    ensures Logged(more, handed[addr := Listed(handed, addr) + [group]], deferred - {addr})
  {
    var after, kept := handed[addr := Listed(handed, addr) + [group]], deferred - {addr};
    ConcatSnoc(Listed(handed, addr), group);
    HandedOver(Listed(accepted, addr), Concat(Listed(handed, addr)), Listed(deferred, addr), last);
    hide Concat;
    forall a
      ensures Listed(more, a) == Concat(Listed(after, a)) + Listed(kept, a)
    {
      assert Listed(accepted, a) == Concat(Listed(handed, a)) + Listed(deferred, a);
      if a != addr {
        assert Listed(more, a) == Listed(accepted, a);
        assert Listed(after, a) == Listed(handed, a) && Listed(kept, a) == Listed(deferred, a);
      }
    }
  }

  lemma HandedOver(accepted: seq<Packet>, before: seq<Packet>, kept: seq<Packet>, last: seq<Packet>)
    ensures accepted == before + kept ==> accepted + last == before + (kept + last) + []
    ensures accepted + [] == accepted
  {
  }

  lemma GroupsMore(handed: map<Address, seq<seq<Packet>>>, addr: Address, group: seq<Packet>)
    requires GroupsOk(handed) && group != [] && AllDifferent(group)
    ensures GroupsOk(handed[addr := Listed(handed, addr) + [group]])
  {
    hide AllDifferent;
  }

  lemma LoggedDefer(accepted: map<Address, seq<Packet>>, handed: map<Address, seq<seq<Packet>>>,
                    deferred: map<Address, seq<Packet>>, addr: Address, msg: Packet)
    requires Logged(accepted, handed, deferred)
    ensures Logged(accepted[addr := Listed(accepted, addr) + [msg]], handed,
                   deferred[addr := Listed(deferred, addr) + [msg]])
  {
    hide Concat;
    forall a
      ensures Listed(accepted[addr := Listed(accepted, addr) + [msg]], a)
           == Concat(Listed(handed, a)) + Listed(deferred[addr := Listed(deferred, addr) + [msg]], a)
    {
      assert Listed(accepted, a) == Concat(Listed(handed, a)) + Listed(deferred, a);
      if a == addr {
        Regroup(Concat(Listed(handed, a)), Listed(deferred, a), [msg]);
      } else {
        assert Listed(accepted[addr := Listed(accepted, addr) + [msg]], a) == Listed(accepted, a);
        assert Listed(deferred[addr := Listed(deferred, addr) + [msg]], a) == Listed(deferred, a);
      }
    }
  }

  /** What became of a datagram. */
  datatype Reception =
    | Dropped                                       // too long, repeated, invalid, or nobody to answer
    | Response                                      // for the record manager
    | Deferred                                      // a truncated query, kept (or known already)
    | Answered(group: seq<Packet>)                  // the packets given to `handle_assembled_query`

  class AsyncListener {
    var data: Option<seq<byte>>
    var lastTime: Millis
    var lastHadQuQuestion: bool

    var deferred: map<Address, seq<Packet>>
    var timers: map<Address, Timer>

    /** Per address: the query packets that were accepted so far, and the groups given to the query handler. */
    ghost var accepted: map<Address, seq<Packet>>
    ghost var handed: map<Address, seq<seq<Packet>>>

    ghost predicate Valid()
      reads this
    {
      Keeping(deferred, timers) && Logged(accepted, handed, deferred) && GroupsOk(handed)
    }

    constructor ()
      ensures Valid() && deferred == map[] && accepted == map[] && handed == map[]
    {
      data, lastTime, lastHadQuQuestion := None, 0.0, false;
      deferred, timers, accepted, handed := map[], map[], map[], map[];
    }

    /** `_cancel_any_timers_for_addr` */
    method CancelAnyTimersForAddr(addr: Address)
      modifies this`timers
      ensures timers == old(timers) - {addr}
    {
      if addr in timers {
        timers := timers - {addr};
      }
    }

    /** `_respond_query`: everything kept for the address and the packet at hand, in order of arrival. There is always
        something to hand over. */
    method RespondQuery(msg: Option<Packet>, addr: Address) returns (group: seq<Packet>)
      requires Valid()
      requires if msg.Some? then !Truncated(msg.value.data) else addr in timers
      modifies this`timers, this`deferred, this`accepted, this`handed
      ensures Valid()
      ensures deferred == old(deferred) - {addr} && timers == old(timers) - {addr}
      ensures group == Listed(old(deferred), addr) + if msg.Some? then [msg.value] else []
      ensures group != [] && AllDifferent(group)
      ensures accepted == if msg.Some? then old(accepted)[addr := Listed(old(accepted), addr) + [msg.value]]
                          else old(accepted)
      ensures handed == old(handed)[addr := Listed(old(handed), addr) + [group]]
    {
      hide Truncated, Keeping, Logged, GroupsOk, AllDifferent;
      ghost var last := if msg.Some? then [msg.value] else [];
      ghost var before := accepted;
      KeptAll(deferred, timers, addr, last);
      CancelAnyTimersForAddr(addr);
      group := Listed(deferred, addr);
      deferred := deferred - {addr};
      if msg.Some? {
        group := group + [msg.value];
        accepted := accepted[addr := Listed(accepted, addr) + [msg.value]];
      }
      assert group == Listed(old(deferred), addr) + last;
      LoggedHandOver(before, accepted, handed, old(deferred), addr, last, group);
      GroupsMore(handed, addr, group);
      handed := handed[addr := Listed(handed, addr) + [group]];
    }

    /** The timer of an address fires, when it is due. */
    method TimerFires(addr: Address, now: Millis) returns (group: seq<Packet>)
      requires Valid() && addr in timers && timers[addr].due == now
      modifies this`timers, this`deferred, this`accepted, this`handed
      ensures Valid() && group == old(deferred)[addr] && group != []
      ensures deferred == old(deferred) - {addr} && timers == old(timers) - {addr}
      ensures handed == old(handed)[addr := Listed(old(handed), addr) + [group]]
    {
      group := RespondQuery(None, addr);
    }

    /** `handle_query_or_defer`, with the random delay drawn by the caller */
    method HandleQueryOrDefer(msg: Packet, addr: Address, port: nat, delay: Millis) returns (r: Reception)
      requires Valid() && TC_DELAY_MIN <= delay <= TC_DELAY_MAX
      modifies this`timers, this`deferred, this`accepted, this`handed
      ensures Valid()
      ensures !Truncated(msg.data) ==>
                && r == Answered(Listed(old(deferred), addr) + [msg])
                && deferred == old(deferred) - {addr} && timers == old(timers) - {addr}
                && handed == old(handed)[addr := Listed(old(handed), addr) + [r.group]]
      ensures Truncated(msg.data) ==>
                && r == Deferred && handed == old(handed)
                && if exists p :: p in Listed(old(deferred), addr) && p.data == msg.data
                   then deferred == old(deferred) && timers == old(timers)
                   else && deferred == old(deferred)[addr := Listed(old(deferred), addr) + [msg]]
                        && timers == old(timers)[addr := Timer(msg.now + delay, port)]
      ensures accepted == if Truncated(msg.data) && exists p :: p in Listed(old(deferred), addr) && p.data == msg.data
                          then old(accepted) else old(accepted)[addr := Listed(old(accepted), addr) + [msg]]
    {
      hide Truncated, Keeping, Logged, GroupsOk;
      if !Truncated(msg.data) {
        var group := RespondQuery(Some(msg), addr);
        return Answered(group);
      }
      var known := Listed(deferred, addr);
      var k := |known|;
      while k > 0
        invariant 0 <= k <= |known|
        invariant forall j :: k <= j < |known| ==> known[j].data != msg.data
      {
        k := k - 1;
        if known[k].data == msg.data {
          return Deferred;
        }
      }
      KeptMore(deferred, timers, addr, msg, Timer(msg.now + delay, port));
      LoggedDefer(accepted, handed, deferred, addr, msg);
      accepted := accepted[addr := Listed(accepted, addr) + [msg]];
      deferred := deferred[addr := known + [msg]];
      CancelAnyTimersForAddr(addr);
      timers := timers[addr := Timer(msg.now + delay, port)];
      assert timers == old(timers)[addr := Timer(msg.now + delay, port)];
      return Deferred;
    }

    /** `datagram_received`: reads a datagram and passes it on. It is looked at unless it is too long, or repeats the
        last one looked at within a second, when that one had no question for a unicast reply. What is accepted is
        exactly what is looked at, valid, a query somebody could answer, and not already kept for its address. */
    method DatagramReceived(bytes: seq<byte>, now: Millis, scope: Option<int>, addr: Address, port: nat,
                            hasEntries: bool, delay: Millis) returns (r: Reception)
      requires Valid() && 400.0 <= delay <= 500.0
      modifies this
      ensures Valid()
      ensures var looked := |bytes| <= 8966
                            && !old(data == Some(bytes) && now - lastTime < 1000.0 && !lastHadQuQuestion);
              && (looked ==> data == Some(bytes) && lastTime == now
                             && (lastHadQuQuestion <==>
                                   exists q :: q in ReadMessage(bytes, now, scope).questions && q.unique))
              && (!looked ==> data == old(data) && lastTime == old(lastTime)
                              && lastHadQuQuestion == old(lastHadQuQuestion))
              && var good := looked && |bytes| >= 12 && ReadMessage(bytes, now, scope).valid;
              var kept, msg := if addr in old(deferred) then old(deferred[addr]) else [], Packet(bytes, now);
              var before := if addr in old(accepted) then old(accepted[addr]) else [];
              var groups := if addr in old(handed) then old(handed[addr]) else [];
              if !good || bytes[2] >= 128 || !hasEntries then
                && r == (if good && bytes[2] >= 128 then Response else Dropped)
                && deferred == old(deferred) && timers == old(timers)
                && handed == old(handed) && accepted == old(accepted)
              else if bytes[2] / 2 % 2 == 0 then
                && r == Answered(kept + [msg])
                && deferred == old(deferred) - {addr} && timers == old(timers) - {addr}
                && handed == old(handed)[addr := groups + [kept + [msg]]]
                && accepted == old(accepted)[addr := before + [msg]]
              else if exists p :: p in kept && p.data == bytes then
                && r == Deferred
                && deferred == old(deferred) && timers == old(timers)
                && handed == old(handed) && accepted == old(accepted)
              else
                && r == Deferred && handed == old(handed)
                && deferred == old(deferred)[addr := kept + [msg]]
                && timers == old(timers)[addr := Timer(now + delay, port)]
                && accepted == old(accepted)[addr := before + [msg]]
    {
      hide Keeping, Logged, GroupsOk, Truncated, Listed, ReadMessage, HeaderField;
      if |bytes| > MAX_MSG_ABSOLUTE {
        return Dropped;
      }
      if data == Some(bytes) && now - DUPLICATE_PACKET_SUPPRESSION_INTERVAL < lastTime && !lastHadQuQuestion {
        return Dropped;
      }
      var valid, hadQu, flags := Look(bytes, now, scope);
      data, lastTime, lastHadQuQuestion := Some(bytes), now, hadQu;
      if !valid {
        return Dropped;
      }
      ValidLength(bytes, now, scope);
      FlagsAre(bytes);
      if flags >= FLAGS_QR {
        return Response;
      }
      if !hasEntries {
        return Dropped;
      }
      ListedIs(deferred, addr);
      ListedIs(accepted, addr);
      ListedIs(handed, addr);
      r := HandleQueryOrDefer(Packet(bytes, now), addr, port, delay);
    }
  }

  /** The two header flags that matter, in the third byte. */
  lemma FlagsAre(bytes: seq<byte>)
    requires |bytes| >= 12
    ensures HeaderField(bytes, 1) >= FLAGS_QR <==> bytes[2] >= 128
    ensures Truncated(bytes) <==> bytes[2] / 2 % 2 == 1
  {
    var high, low: int := bytes[2], bytes[3];
    assert (high * 256 + low) / 512 == high / 2;
  }

  lemma ValidLength(bytes: seq<byte>, now: Millis, scope: Option<int>)
    requires ReadMessage(bytes, now, scope).valid
    ensures |bytes| >= 12
  {
  }

  /** The same datagram twice in a row: the second one is dropped if it comes less than a second after the first, unless
      the first asked for a unicast reply; otherwise it is looked at as any other. */
  method ReceiveTwice(listener: AsyncListener, bytes: seq<byte>, first: Millis, second: Millis, scope: Option<int>,
                      addr: Address, port: nat, hasEntries: bool, delay: Millis)
    returns (r: Reception, again: Reception)
    requires listener.Valid() && 400.0 <= delay <= 500.0
    requires |bytes| <= 8966 && listener.data != Some(bytes)
    modifies listener
    ensures listener.Valid() && listener.data == Some(bytes)
    ensures var quiet := !exists q :: q in ReadMessage(bytes, first, scope).questions && q.unique;
            if second - first < 1000.0 && quiet then again == Dropped && listener.lastTime == first
            else
              && listener.lastTime == second
              && (ReadMessage(bytes, second, scope).valid && |bytes| >= 12 && bytes[2] >= 128 ==> again == Response)
              && (ReadMessage(bytes, second, scope).valid && |bytes| >= 12 && bytes[2] < 128 && hasEntries ==>
                    again.Answered? || again.Deferred?)
  {
    hide ReadMessage;
    r := listener.DatagramReceived(bytes, first, scope, addr, port, hasEntries, delay);
    again := listener.DatagramReceived(bytes, second, scope, addr, port, hasEntries, delay);
  }

  /** Parsing a datagram, as far as the listener needs it. */
  method Look(bytes: seq<byte>, now: Millis, scope: Option<int>) returns (valid: bool, hadQu: bool, flags: nat)
    ensures valid == ReadMessage(bytes, now, scope).valid && flags == HeaderField(bytes, 1)
    ensures hadQu <==> exists q :: q in ReadMessage(bytes, now, scope).questions && q.unique
  {
    hide ReadQuestions, ReadOthers;
    var msg := new DNSIncoming(bytes, now, scope);
    valid, hadQu, flags := msg.valid, msg.hasQuQuestion, msg.flags;
  }
}
