/** Whole runs of a connected client's outgoing side: nothing is lost before it is
    acknowledged, and a delayed close waits for everything. */
module OutboxRuns {
  import opened Words
  import opened Wrappers
  import opened Clock
  import opened Messages
  import opened OutgoingQueues
  import opened OutboxProofs

  /** What can happen to a connected client, other than giving up on the peer, a
      DISCONNECT from it, or an immediate or graceful close by the application. */
  datatype Event =
    | Send(reliable: seq<Outgoing>, unreliable: seq<Outgoing>)
    | Control(m: Outgoing)
    | Datagram(packing: Packing, mtu: nat, now: uint32)
    | FlushUnreliable(k: nat)
    | TimeOut(now: uint32)
    | Acknowledged(number: uint16, channelId: nat, measured: uint32)
    | Configure(windowSize: nat)
    | DelayClose

  /** The client, with the reliable messages ever queued and ever acknowledged, and the
      unreliable ones ever queued and those that have been through the send loop. */
  datatype Run = Run(
    box: Outbox,
    disconnectNumber: uint16,
    queued: multiset<Identity>,
    acked: multiset<Identity>,
    posted: seq<Outgoing>,
    flushed: seq<Outgoing>)

  predicate Open(b: Outbox) {
    b.state == Connected || b.state == DelayingDisconnect
  }

  /** The application may call send at any time; the host itself queues control
      messages, which carry no data. */
  ghost predicate Enabled(r: Run, e: Event) {
    && Open(r.box)
    && match e
       case Send(reliable, _) => forall m :: m in reliable ==> m.New()
       case Control(m) => m.New() && m.data.None?
       case Datagram(p, mtu, _) => Fits(p, mtu)
       case FlushUnreliable(k) => k <= |r.box.unreliable|
       case TimeOut(now) => !CheckTimeouts(r.box, 0, now).1
       case Acknowledged(_, _, _) => true
       case Configure(windowSize) => windowSize <= MAX_WINDOW
       case DelayClose => true
  }

  function Effect(r: Run, e: Event): (r': Run)
    requires Open(r.box)
    requires e.Datagram? ==> Fits(e.packing, e.mtu)
    requires e.FlushUnreliable? ==> e.k <= |r.box.unreliable|
  {
    var b := r.box;
    match e
    case Send(reliable, unreliable) =>
      var b' := Submit(b, reliable, unreliable);
      r.(box := b', queued := r.queued + multiset(Keys(b'.outgoing[|b.outgoing|..])),
         posted := if b.state == Connected then r.posted + unreliable else r.posted)
    case Control(m) => r.(box := b.(outgoing := b.outgoing + [m]), queued := r.queued + multiset{m.Key()})
    case Datagram(p, mtu, now) => r.(box := Transmit(b, p, mtu, now).0)
    case FlushUnreliable(k) =>
      r.(box := CloseWhenDrained(b.(unreliable := b.unreliable[k..]), r.disconnectNumber), flushed := r.flushed + b.unreliable[..k])
    case TimeOut(now) => r.(box := CheckTimeouts(b, 0, now).0)
    case Configure(windowSize) => r.(box := b.(windowSize := windowSize))
    case Acknowledged(number, channelId, measured) =>
      r.(box := OnAcknowledge(b, number, channelId, measured, r.disconnectNumber),
         acked := match FindSent(b.sent, number, channelId)
                  case None => r.acked
                  case Some(i) => r.acked + multiset{b.sent[i].Key()})
    case DelayClose => r.(box := CloseLater(b, r.disconnectNumber))
  }

  ghost predicate ValidRun(r: Run, events: seq<Event>)
    decreases |events|
  {
    events == [] ||
    (Enabled(r, events[0]) && ValidRun(Effect(r, events[0]), events[1..]))
  }

  ghost function After(r: Run, events: seq<Event>): (r': Run)
    requires ValidRun(r, events)
    decreases |events|
  {
    if events == [] then r else After(Effect(r, events[0]), events[1..])
  }

  /** While open, the messages queued are those acknowledged and those in one of
      the two queues, and the figures agree; the unreliable ones are those that have
      been through the send loop, and then those still queued, in order. Once the
      DISCONNECT is queued, every reliable message has been acknowledged, and every
      unreliable one has been through the loop. */
  ghost predicate Kept(r: Run) {
    if Open(r.box) then Accounted(r.box) && r.queued == r.acked + Pending(r.box) && r.posted == r.flushed + r.box.unreliable
    else && r.box.state == Disconnecting && r.queued == r.acked && r.posted == r.flushed
         && r.box.outgoing == [DisconnectMessage(r.disconnectNumber)] && r.box.sent == []
  }

  lemma ClosingKeeps(r: Run)
    requires Kept(r) && Open(r.box)
    ensures Kept(r.(box := CloseWhenDrained(r.box, r.disconnectNumber)))
    ensures Kept(r.(box := CloseLater(r.box, r.disconnectNumber)))
  {
    if Drained(r.box) {
      assert Keys([]) == [];
      assert Pending(r.box) == multiset{};
    } else {
      assert Pending(r.box.(state := DelayingDisconnect)) == Pending(r.box);
    }
  }

  lemma EffectKeeps(r: Run, e: Event)
    requires Kept(r) && Enabled(r, e)
    ensures Kept(Effect(r, e))
  {
    var b := r.box;
    match e
    case Send(reliable, unreliable) => SendKeeps(r, reliable, unreliable);
    case Control(m) =>
      KeysConcat(b.outgoing, [m]);
      KeysOne(m);
    case Datagram(p, mtu, now) =>
      var k := TransmitKeeps(b, p, mtu, now);
    case FlushUnreliable(k) =>
      FlushKeepsAll(r, k);
    case TimeOut(now) =>
      CheckTimeoutsKeeps(b, 0, now);
    case Configure(windowSize) =>
      assert Pending(b.(windowSize := windowSize)) == Pending(b);
    case Acknowledged(_, _, _) => AckKeeps(r, e);
    case DelayClose =>
      ClosingKeeps(r);
  }

  lemma SendKeeps(r: Run, reliable: seq<Outgoing>, unreliable: seq<Outgoing>)
    requires Kept(r) && Enabled(r, Send(reliable, unreliable))
    ensures Kept(Effect(r, Send(reliable, unreliable)))
  {
    var b := r.box;
    if b.state == Connected {
      var b' := Submit(b, reliable, unreliable);
      assert b'.outgoing[|b.outgoing|..] == reliable;
      hide Kept, Keys;
      QueuedMore(r, reliable, unreliable);
    } else {
      KeysNone();
      assert b.outgoing[|b.outgoing|..] == [];
      assert r.queued + multiset(Keys([])) == r.queued;
      hide Kept, Keys;
    }
  }

  lemma QueuedMore(r: Run, reliable: seq<Outgoing>, unreliable: seq<Outgoing>)
    requires Kept(r) && Open(r.box)
    ensures Kept(r.(box := r.box.(outgoing := r.box.outgoing + reliable, unreliable := r.box.unreliable + unreliable),
                    queued := r.queued + multiset(Keys(reliable)), posted := r.posted + unreliable))
  {
    KeysConcat(r.box.outgoing, reliable);
    hide Keys, Total;
    assert r.posted + unreliable == r.flushed + (r.box.unreliable + unreliable);
  }

  lemma KeysNone()
    ensures Keys([]) == [] && multiset(Keys([])) == multiset{}
  {
  }

  lemma FlushKeepsAll(r: Run, k: nat)
    requires Kept(r) && Enabled(r, FlushUnreliable(k))
    ensures Kept(Effect(r, FlushUnreliable(k)))
  {
    var b := r.box;
    var b' := b.(unreliable := b.unreliable[k..]);
    SamePending(b, b');
    hide Keys, Total, Pending;
    assert b.unreliable == b.unreliable[..k] + b.unreliable[k..];
    assert r.posted == r.flushed + b.unreliable[..k] + b'.unreliable;
    ClosingKeeps(r.(box := b', flushed := r.flushed + b.unreliable[..k]));
  }

  lemma SamePending(b: Outbox, b': Outbox)
    requires b'.outgoing == b.outgoing && b'.sent == b.sent
    ensures Pending(b') == Pending(b)
  {
  }

  lemma AckKeeps(r: Run, e: Event)
    requires Kept(r) && Open(r.box) && e.Acknowledged?
    ensures Kept(Effect(r, e))
  {
    DisposeKeeps(r.box, e.number, e.channelId);
    var b := Dispose(r.box, e.number, e.channelId);
    HeardKeeps(b, e.measured);
    hide Dispose, Heard, Accounted, Pending;
    ClosingKeeps(Effect(r, e).(box := Heard(b, e.measured)));
  }

  /** Accounting over whole runs: every reliable message is acknowledged or in
      exactly one of the two queues, reliableDataInTransit is the payload of the
      sent queue, and nextTimeout belongs to its head. */
  lemma {:induction false} RunKeeps(r: Run, events: seq<Event>)
    requires Kept(r) && ValidRun(r, events)
    ensures Kept(After(r, events))
    decreases |events|
  {
    if events != [] {
      EffectKeeps(r, events[0]);
      RunKeeps(Effect(r, events[0]), events[1..]);
    }
  }

  /** A client that has just connected. */
  ghost predicate Fresh(r: Run) {
    && r.box.state == Connected && r.box.outgoing == [] && r.box.sent == [] && r.box.inTransit == 0
    && r.box.windowSize <= MAX_WINDOW && r.queued == r.acked == multiset{} && r.posted == r.flushed == r.box.unreliable == []
  }

  /** Delayed close loses nothing: when the DISCONNECT is queued, every reliable
      message queued before has been acknowledged, and every unreliable one has been
      through the send loop, in order. */
  lemma DelayedCloseLosesNothing(r: Run, events: seq<Event>)
    requires Fresh(r) && ValidRun(r, events)
    ensures var end := After(r, events);
            end.box.state == Disconnecting ==>
              end.acked == end.queued && end.flushed == end.posted && end.box.outgoing == [DisconnectMessage(r.disconnectNumber)]
  {
    assert Keys([]) == [];
    assert Kept(r);
    RunKeeps(r, events);
    NumberStays(r, events);
  }

  /** While the client is open an unreliable message leaves the queue only at its head,
      by the send loop: what was posted is what went through the loop, and then the
      queue. */
  lemma UnreliableInOrder(r: Run, events: seq<Event>)
    requires Fresh(r) && ValidRun(r, events)
    ensures var end := After(r, events);
            end.posted == end.flushed + (if Open(end.box) then end.box.unreliable else [])
  {
    assert Keys([]) == [];
    assert Kept(r);
    RunKeeps(r, events);
  }

  /** An open client told to close later delays the close if and only if one of its
      three queues holds something; else it closes, with nothing lost. */
  lemma DelaysExactly(b: Outbox, number: uint16)
    requires Open(b)
    ensures var c := CloseLater(b, number);
            && (c.state == DelayingDisconnect <==> b.outgoing != [] || b.sent != [] || b.unreliable != [])
            && (c.state == DelayingDisconnect ==> c == b.(state := DelayingDisconnect))
            && (c.state != DelayingDisconnect ==> c.state == Disconnecting && c.outgoing == [DisconnectMessage(number)])
  {
  }

  /** A delayed close is completed if and only if all three are empty. */
  lemma CompletesExactly(b: Outbox, number: uint16)
    requires b.state == DelayingDisconnect
    ensures var c := CloseWhenDrained(b, number);
            && (c.state == Disconnecting <==> b.outgoing == [] && b.sent == [] && b.unreliable == [])
            && (c.state != Disconnecting ==> c == b)
  {
  }

  lemma {:induction false} NumberStays(r: Run, events: seq<Event>)
    requires ValidRun(r, events)
    ensures After(r, events).disconnectNumber == r.disconnectNumber
    decreases |events|
  {
    if events != [] {
      NumberStays(Effect(r, events[0]), events[1..]);
    }
  }

  /** Once the close is delayed no application data enters, however often the
      application calls send: what is queued from then on carries no packet. */
  lemma {:induction false} NoDataWhileDelaying(r: Run, events: seq<Event>, id: Identity)
    requires Kept(r) && r.box.state != Connected && ValidRun(r, events) && id.data.Some?
    ensures After(r, events).box.state != Connected
    ensures After(r, events).queued[id] == r.queued[id]
    decreases |events|
  {
    if events != [] {
      EffectKeeps(r, events[0]);
      StateStays(r, events[0]);
      NoneQueued(r, events[0], id);
      NoDataWhileDelaying(Effect(r, events[0]), events[1..], id);
    }
  }

  /** A call to send adds to the queues if and only if the client is connected and the
      packet has messages for them. */
  lemma SendTakenExactly(r: Run, reliable: seq<Outgoing>, unreliable: seq<Outgoing>)
    requires Enabled(r, Send(reliable, unreliable))
    ensures Effect(r, Send(reliable, unreliable)).box != r.box <==>
            r.box.state == Connected && (reliable != [] || unreliable != [])
    ensures r.box.state == Connected ==>
              Effect(r, Send(reliable, unreliable)).queued == r.queued + multiset(Keys(reliable))
  {
    var b := r.box;
    var b' := Submit(b, reliable, unreliable);
    assert r.box.state == Connected ==> b'.outgoing[|b.outgoing|..] == reliable && |b'.unreliable| == |b.unreliable| + |unreliable|;
  }

  lemma NoneQueued(r: Run, e: Event, id: Identity)
    requires Kept(r) && Enabled(r, e) && r.box.state != Connected && id.data.Some?
    ensures Effect(r, e).queued[id] == r.queued[id]
  {
    if e.Send? {
      assert Keys(r.box.outgoing[|r.box.outgoing|..]) == [];
    }
  }

  lemma StateStays(r: Run, e: Event)
    requires Kept(r) && Enabled(r, e) && r.box.state != Connected
    ensures Effect(r, e).box.state != Connected
  {
    match e
    case Datagram(p, mtu, now) =>
      var k := TransmitKeeps(r.box, p, mtu, now);
    case TimeOut(now) =>
      CheckTimeoutsKeeps(r.box, 0, now);
    case _ =>
  }
}
