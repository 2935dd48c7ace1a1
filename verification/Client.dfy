/** GekkotaXudpClient: the record whose queues and counters the send and receive
    paths change in place. Each method is proved to do what Outbox, Throttle and
    Fragments specify. */
module Client {
  import opened Words
  import opened Wrappers
  import opened Clock
  import opened Messages
  import opened OutgoingQueues
  import OutboxProofs
  import Incoming
  import opened Throttle
  import opened Datagram
  import opened Fragments

  /** An acknowledgement waiting to be sent: what it acknowledges. */
  datatype Acknowledgement = Acknowledgement(kind: Kind, channelId: nat, sequenceNumber: uint16, echo: uint16)

  /** Where a packet's messages go: through acknowledgement, unsequenced, or plain unreliable. */
  datatype Delivery = Reliably | Unsequencedly | Unreliably

  function Advance(number: nat, steps: nat): (r: uint16) {
    (number + steps) % 0x1_0000
  }

  /** The messages queued for a reliable packet whose first number is `start`: one
      when it fits, else its fragments with consecutive numbers. */
  function PacketMessages(channelId: nat, p: Bytes, size: nat, start: nat): (r: seq<Outgoing>)
    requires 0 < size && |p| < 0x8000_0000
    ensures |r| == Span(p, size)
  {
    if |p| <= size then [PlainMessage(channelId, p, start)]
    else
      SpanBounds(p, size);
      FirstFragments(channelId, p, size, start, Span(p, size))
  }

  function PlainMessage(channelId: nat, p: Bytes, start: nat): Outgoing {
    Outgoing(channelId, ReliableData, start % 0x1_0000, 0, 0, 0, Some(Reliable(start % 0x1_0000, p)), 0, 0)
  }

  function FragmentMessage(channelId: nat, p: Bytes, size: nat, start: nat, f: nat): Outgoing
    requires 0 < size < |p| < 0x8000_0000 && f < Span(p, size)
  {
    Outgoing(channelId, DataFragment, (start + f) % 0x1_0000, 0, 0, 0, Some(FragmentOf(p, size, start, f)), 0, 0)
  }

  function FirstFragments(channelId: nat, p: Bytes, size: nat, start: nat, n: nat): (r: seq<Outgoing>)
    requires 0 < size < |p| < 0x8000_0000 && n <= Span(p, size)
    ensures |r| == n
    ensures forall f: nat :: f < n ==> r[f] == FragmentMessage(channelId, p, size, start, f)
  {
    if n == 0 then [] else FirstFragments(channelId, p, size, start, n - 1) + [FragmentMessage(channelId, p, size, start, n - 1)]
  }

  function UnsequencedMessage(channelId: nat, p: Bytes, group: uint16): Outgoing {
    Outgoing(channelId, UnsequencedData, 0, 0, 0, 0, Some(Unsequenced(group, p)), 0, 0)
  }

  function UnreliableMessage(channelId: nat, p: Bytes, reliableNumber: uint16, number: uint16): Outgoing {
    Outgoing(channelId, UnreliableData, reliableNumber, 0, 0, 0, Some(Unreliable(reliableNumber, number, p)), 0, 0)
  }

  /** The messages a packet becomes, for the reliable and for the unreliable queue. */
  function Submission(channelId: nat, p: Bytes, delivery: Delivery, size: nat, last: uint16, number: uint16, group: uint16)
    : (r: (seq<Outgoing>, seq<Outgoing>))
    requires 0 < size && |p| < 0x8000_0000
  {
    var first: int := last;
    if |p| > size || delivery == Reliably then (PacketMessages(channelId, p, size, first + 1), [])
    else if delivery == Unsequencedly then ([], [UnsequencedMessage(channelId, p, group)])
    else ([], [UnreliableMessage(channelId, p, last, number)])
  }

  /** None of them has been sent, and all carry the packet or a piece of it. */
  lemma SubmissionNew(channelId: nat, p: Bytes, delivery: Delivery, size: nat, last: uint16, number: uint16, group: uint16)
    requires 0 < size && |p| < 0x8000_0000
    ensures var (reliable, unreliable) := Submission(channelId, p, delivery, size, last, number, group);
            (forall m :: m in reliable ==> m.New()) && (forall m :: m in unreliable ==> m.New())
  {
    hide FragmentOf, Piece;
    if |p| > size {
      SpanBounds(p, size);
      hide Span;
    }
  }

  // ------------------------------------------------- a turn in the send loop

  function AfterAcknowledging(state: ClientState, s: seq<Acknowledgement>): ClientState {
    if exists i :: 0 <= i < |s| && s[i].kind == Disconnect then Zombie else state
  }

  lemma AcknowledgedOneMore(state: ClientState, s: seq<Acknowledgement>, a: Acknowledgement)
    ensures AfterAcknowledging(state, s + [a]) == if a.kind == Disconnect then Zombie else AfterAcknowledging(state, s)
  {
    var t := s + [a];
    assert t[|s|] == a;
    if i :| 0 <= i < |s| && s[i].kind == Disconnect {
      assert t[i].kind == Disconnect;
    }
  }

  /** The datagram after k acknowledgements. */
  function Acknowledged(k: nat): Packing {
    Packing(HEADER_SIZE + 10 * k, k, 1 + k)
  }

  datatype Turned = Turned(box: Outbox, packing: Packing, gaveUp: bool)

  /** What a turn does after the acknowledgements: timeouts when asked for, then
      reliable, then unreliable messages into what room is left. */
  function Turn(b: Outbox, p: Packing, f: Flush, throttle: uint32, mtu: nat, now: uint32, checkForTimeouts: bool,
                number: uint16): (r: Turned)
    requires Fits(p, mtu)
  {
    var (b1, gaveUp) := if checkForTimeouts && b.sent != [] && Compare(now, b.nextTimeout) >= 0
                        then CheckTimeouts(b, 0, now) else (b, false);
    if gaveUp then Turned(b1, p, true)
    else
      TransmitFits(b1, p, mtu, now);
      var (b2, p2, _) := Transmit(b1, p, mtu, now);
      if b2.unreliable == [] then Turned(b2, p2, false)
      else
        var (f3, p3, _) := FlushUnreliable(f.(queue := b2.unreliable), throttle, p2, mtu);
        Turned(CloseWhenDrained(b2.(unreliable := f3.queue), number), p3, false)
  }

  /** Whatever a turn does, the datagram never exceeds the client's MTU, 32 message
      slots or 65 buffers; the figures stay right; and unless the turn completes a
      delayed close, when nothing is left to lose, no reliable message is lost. */
  lemma TurnKeeps(b: Outbox, p: Packing, f: Flush, throttle: uint32, mtu: nat, now: uint32, checkForTimeouts: bool,
                  number: uint16)
    requires Fits(p, mtu) && OutboxProofs.Accounted(b)
    ensures var t := Turn(b, p, f, throttle, mtu, now, checkForTimeouts, number);
            && Fits(t.packing, mtu)
            && (t.box.state == b.state ==> OutboxProofs.Accounted(t.box) && OutboxProofs.Pending(t.box) == OutboxProofs.Pending(b))
            && (t.box.state != b.state ==>
                  b.state == DelayingDisconnect && OutboxProofs.Pending(b) == multiset{}
                  && t.box.outgoing == [DisconnectMessage(number)])
  {
    hide FlushUnreliable, CheckTimeouts, Transmit, OutboxProofs.Moved, OutboxProofs.Headers, OutboxProofs.Total;
    OutboxProofs.CheckTimeoutsKeeps(b, 0, now);
    var (b1, gaveUp) := if checkForTimeouts && b.sent != [] && Compare(now, b.nextTimeout) >= 0
                        then CheckTimeouts(b, 0, now) else (b, false);
    if !gaveUp {
      var k := OutboxProofs.TransmitKeeps(b1, p, mtu, now);
      var (b2, p2, _) := Transmit(b1, p, mtu, now);
      if b2.unreliable != [] {
        var f2 := f.(queue := b2.unreliable);
        var j := FlushKeeps(f2, throttle, p2, mtu);
        var b3 := b2.(unreliable := FlushUnreliable(f2, throttle, p2, mtu).0.queue);
        assert OutboxProofs.Pending(b3) == OutboxProofs.Pending(b2);
        if b3.state == DelayingDisconnect && Drained(b3) {
          assert OutboxProofs.Keys([]) == [];
        }
      }
    }
  }

  /** Nor does a turn stop early: when it has not given the connection up, what is left in
      either queue finds no room in the datagram, or none in the window. Unreliable
      messages leave their queue only at its head. */
  lemma TurnSends(b: Outbox, p: Packing, f: Flush, throttle: uint32, mtu: nat, now: uint32, checkForTimeouts: bool, number: uint16)
    returns (k: nat)
    requires Fits(p, mtu)
    ensures var t := Turn(b, p, f, throttle, mtu, now, checkForTimeouts, number);
            && (!t.gaveUp && t.box.state == b.state ==>
                  && t.packing.size <= mtu && (t.box.outgoing != [] ==> OutboxProofs.Blocked(t.box, t.packing, mtu))
                  && (t.box.unreliable != [] ==> NoRoom(t.box.unreliable[0], t.packing, mtu)))
            && k <= |b.unreliable| && t.box.unreliable == b.unreliable[k..]
  {
    hide FlushUnreliable, CheckTimeouts, Transmit, Size;
    k := 0;
    OutboxProofs.CheckLeaves(b, 0, now);
    var (b1, gaveUp) := if checkForTimeouts && b.sent != [] && Compare(now, b.nextTimeout) >= 0
                        then CheckTimeouts(b, 0, now) else (b, false);
    if !gaveUp {
      OutboxProofs.TransmitStops(b1, p, mtu, now);
      TransmitFits(b1, p, mtu, now);
      var (b2, p2, _) := Transmit(b1, p, mtu, now);
      if b2.unreliable != [] {
        var f2 := f.(queue := b2.unreliable);
        FlushStops(f2, throttle, p2, mtu);
        k := FlushKeeps(f2, throttle, p2, mtu);
      }
    }
  }

  /** Nor does it scan early or late: when asked for, and not before the clock has reached
      the expiry kept for the head, every message out of time leaves the sent queue, and
      otherwise none does; what is sent then goes behind the rest. */
  lemma TurnPrompt(b: Outbox, p: Packing, f: Flush, throttle: uint32, mtu: nat, now: uint32, checkForTimeouts: bool, number: uint16)
    requires Fits(p, mtu) && !Turn(b, p, f, throttle, mtu, now, checkForTimeouts, number).gaveUp
    ensures var t := Turn(b, p, f, throttle, mtu, now, checkForTimeouts, number);
            t.box.state == b.state ==>
              OutboxProofs.AppendedAt(if checkForTimeouts && b.sent != [] && Compare(now, b.nextTimeout) >= 0
                                      then OutboxProofs.InTime(b.sent, now) else b.sent, t.box.sent, now)
  {
    hide FlushUnreliable, CheckTimeouts, Transmit, Size;
    var (b1, gaveUp) := if checkForTimeouts && b.sent != [] && Compare(now, b.nextTimeout) >= 0
                        then CheckTimeouts(b, 0, now) else (b, false);
    if !gaveUp {
      if checkForTimeouts && b.sent != [] && Compare(now, b.nextTimeout) >= 0 {
        OutboxProofs.ScanExactly(b, 0, now);
        assert b.sent[0..] == b.sent;
      }
      OutboxProofs.TransmitAppends(b1, p, mtu, now);
      TransmitFits(b1, p, mtu, now);
    }
  }

  /** The message does not go into the datagram. */
  predicate NoRoom(m: Outgoing, p: Packing, mtu: nat)
    requires p.size <= mtu
  {
    p.messages >= 32 || p.buffers >= 64 || mtu - p.size < Size(m.kind) + (if m.data.Some? then |m.data.value.data| else 0)
  }

  lemma TransmitNothing(b: Outbox, p: Packing, mtu: nat, now: uint32)
    requires Fits(p, mtu) && b.outgoing == []
    ensures Transmit(b, p, mtu, now) == (b, p, false)
  {
  }

  class Client {
    var state: ClientState
    var mtu: nat
    var windowSize: nat
    var reliableDataInTransit: uint32
    var nextTimeout: uint32
    var earliestTimeout: uint32
    var roundTripTime: uint32
    var roundTripTimeVariance: uint32
    var packetThrottle: uint32
    var packetThrottleCounter: uint32
    var outgoingDataTotal: uint32
    var outgoingReliableSequenceNumber: uint16
    var outgoingUnsequencedGroup: uint16
    // per channel
    var channelReliable: seq<uint16>
    var channelUnreliable: seq<uint16>
    var acknowledgements: seq<Acknowledgement>
    var sentReliableMessages: seq<Outgoing>
    var sentUnreliableMessages: seq<Outgoing>
    var outgoingReliableMessages: seq<Outgoing>
    var outgoingUnreliableMessages: seq<Outgoing>

    function Box(): Outbox
      reads this
    {
      Outbox(state, outgoingReliableMessages, sentReliableMessages, outgoingUnreliableMessages,
                    reliableDataInTransit, windowSize, nextTimeout, earliestTimeout, roundTripTime, roundTripTimeVariance)
    }

    function Unsent(): Flush
      reads this
    {
      Flush(outgoingUnreliableMessages, sentUnreliableMessages, packetThrottleCounter)
    }

    /** The record as a reset leaves it. */
    ghost predicate AsNew()
      reads this
    {
      && Box() == Outbox(Disconnected, [], [], [], 0, MAX_WINDOW, 0, 0, 500, 0) && mtu == DEFAULT_MTU
      && packetThrottle == 32 && packetThrottleCounter == outgoingDataTotal == 0
      && outgoingReliableSequenceNumber == outgoingUnsequencedGroup == 0
      && channelReliable == channelUnreliable == [] && acknowledgements == [] && sentUnreliableMessages == []
    }

    constructor ()
      ensures AsNew()
    {
      state, mtu, windowSize := Disconnected, DEFAULT_MTU, MAX_WINDOW;
      reliableDataInTransit, nextTimeout, earliestTimeout := 0, 0, 0;
      roundTripTime, roundTripTimeVariance := 500, 0;
      packetThrottle, packetThrottleCounter, outgoingDataTotal := 32, 0, 0;
      outgoingReliableSequenceNumber, outgoingUnsequencedGroup := 0, 0;
      channelReliable, channelUnreliable, acknowledgements := [], [], [];
      sentReliableMessages, sentUnreliableMessages, outgoingReliableMessages, outgoingUnreliableMessages := [], [], [], [];
    }

    // ------------------------------------------------------------- sending

    method QueueReliable(m: Outgoing)
      modifies this`outgoingReliableMessages, this`outgoingDataTotal
      ensures outgoingReliableMessages == old(outgoingReliableMessages) + [m]
    {
      outgoingDataTotal := (outgoingDataTotal + Size(m.kind) + m.Length()) % WRAP;
      outgoingReliableMessages := outgoingReliableMessages + [m];
    }

    method QueueUnreliable(m: Outgoing)
      modifies this`outgoingUnreliableMessages, this`outgoingDataTotal
      ensures outgoingUnreliableMessages == old(outgoingUnreliableMessages) + [m]
    {
      outgoingDataTotal := (outgoingDataTotal + Size(m.kind) + m.Length()) % WRAP;
      outgoingUnreliableMessages := outgoingUnreliableMessages + [m];
    }

    /** Takes the next reliable number of a channel. */
    method NextReliableNumber(channelId: nat) returns (number: uint16)
      requires channelId < |channelReliable|
      modifies this`channelReliable
      ensures number == Advance(old(channelReliable)[channelId], 1)
      ensures channelReliable == old(channelReliable)[channelId := number]
    {
      number := Advance(channelReliable[channelId], 1);
      channelReliable := channelReliable[channelId := number];
    }

    /** Queues the f-th fragment of a packet whose first number follows `last`; the
        last fragment is shorter when the size does not divide the packet. */
    method SendFragment(channelId: nat, packet: Bytes, size: nat, ghost last: nat, startNumber: uint16,
                        count: uint32, f: nat, offset: nat, fragmentLength: nat) returns (length: nat)
      requires channelId < |channelReliable| && 0 < size < |packet| < 0x8000_0000
      requires AtFragment(packet, size, f, offset, fragmentLength) && offset < |packet|
      requires channelReliable[channelId] == Advance(last, f)
      requires startNumber == Advance(last, 1) && count == Span(packet, size)
      modifies this`outgoingReliableMessages, this`outgoingDataTotal, this`channelReliable
      ensures f < Span(packet, size) && AtFragment(packet, size, f + 1, offset + length, length)
      ensures outgoingReliableMessages
              == old(outgoingReliableMessages) + [FragmentMessage(channelId, packet, size, last + 1, f)]
      ensures channelReliable == old(channelReliable)[channelId := Advance(last, f + 1)]
    {
      hide Span, End, Offset;
      PieceLength(packet, size, f);
      SpanSmall(packet, size);
      length := if |packet| - offset < fragmentLength then |packet| - offset else fragmentLength;
      var number := NextReliableNumber(channelId);
      AdvanceTwice(last, f);
      var data := Fragment(number, startNumber, count, f, offset, |packet|, packet[offset..offset + length]);
      QueueReliable(Outgoing(channelId, DataFragment, number, 0, 0, 0, Some(data), 0, 0));
    }

    /** The fragmentation loop. */
    method SendFragments(channelId: nat, packet: Bytes, size: nat)
      requires channelId < |channelReliable| && 0 < size < |packet| < 0x8000_0000
      modifies this`outgoingReliableMessages, this`outgoingDataTotal, this`channelReliable
      ensures var last: int := old(channelReliable)[channelId];
              && outgoingReliableMessages
                 == old(outgoingReliableMessages) + FirstFragments(channelId, packet, size, last + 1, Span(packet, size))
              && channelReliable == old(channelReliable)[channelId := Advance(last, Span(packet, size))]
    {
      ghost var last: int, span := channelReliable[channelId], Span(packet, size);
      SpanSmall(packet, size);
      var startSequenceNumber := Advance(channelReliable[channelId], 1);
      var fragmentCount := (|packet| + size - 1) / size;
      var fragmentNumber: nat, fragmentOffset: nat, fragmentLength: nat := 0, 0, size;
      hide FragmentMessage, Advance, Span, AtFragment;
      FragmentLoopStart(packet, size, last);
      while fragmentOffset < |packet|
        invariant 0 <= fragmentNumber <= span && |channelReliable| == |old(channelReliable)|
        invariant AtFragment(packet, size, fragmentNumber, fragmentOffset, fragmentLength)
        invariant outgoingReliableMessages
                  == old(outgoingReliableMessages) + FirstFragments(channelId, packet, size, last + 1, fragmentNumber)
        invariant channelReliable == old(channelReliable)[channelId := Advance(last, fragmentNumber)]
        decreases span - fragmentNumber
      {
        fragmentLength := SendFragment(channelId, packet, size, last, startSequenceNumber, fragmentCount,
                                       fragmentNumber, fragmentOffset, fragmentLength);
        fragmentNumber := fragmentNumber + 1;
        fragmentOffset := fragmentOffset + fragmentLength;
      }
      FragmentLoopEnd(packet, size, fragmentNumber, fragmentOffset, fragmentLength);
    }

    /** A packet through acknowledgement: in one message, or cut into fragments. */
    method SendReliably(channelId: nat, packet: Bytes, size: nat)
      requires channelId < |channelReliable| && 0 < size && |packet| < 0x8000_0000
      modifies this`outgoingReliableMessages, this`outgoingDataTotal, this`channelReliable
      ensures var last: int := old(channelReliable)[channelId];
              && outgoingReliableMessages
                 == old(outgoingReliableMessages) + PacketMessages(channelId, packet, size, last + 1)
              && channelReliable == old(channelReliable)[channelId := Advance(last, Span(packet, size))]
    {
      hide FirstFragments;
      if |packet| > size {
        SendFragments(channelId, packet, size);
      } else {
        var number := NextReliableNumber(channelId);
        QueueReliable(Outgoing(channelId, ReliableData, number, 0, 0, 0, Some(Reliable(number, packet)), 0, 0));
      }
    }

    method SendUnsequenced(channelId: nat, packet: Bytes)
      modifies this`outgoingUnreliableMessages, this`outgoingDataTotal, this`outgoingUnsequencedGroup
      ensures outgoingUnsequencedGroup == Advance(old(outgoingUnsequencedGroup), 1)
      ensures outgoingUnreliableMessages
              == old(outgoingUnreliableMessages) + [UnsequencedMessage(channelId, packet, outgoingUnsequencedGroup)]
    {
      outgoingUnsequencedGroup := Advance(outgoingUnsequencedGroup, 1);
      QueueUnreliable(UnsequencedMessage(channelId, packet, outgoingUnsequencedGroup));
    }

    method SendUnreliably(channelId: nat, packet: Bytes)
      requires channelId < |channelReliable| == |channelUnreliable|
      modifies this`outgoingUnreliableMessages, this`outgoingDataTotal, this`channelUnreliable
      ensures channelUnreliable == old(channelUnreliable)[channelId := Advance(old(channelUnreliable)[channelId], 1)]
      ensures outgoingUnreliableMessages
              == old(outgoingUnreliableMessages)
                 + [UnreliableMessage(channelId, packet, channelReliable[channelId], channelUnreliable[channelId])]
    {
      channelUnreliable := channelUnreliable[channelId := Advance(channelUnreliable[channelId], 1)];
      QueueUnreliable(UnreliableMessage(channelId, packet, channelReliable[channelId], channelUnreliable[channelId]));
    }

    /** gekkota_xudpclient_send on a unicast client, for a packet as it goes on the
        wire. Only a connected client accepts it; a packet too long for one message
        becomes reliable. */
    method Send(channelId: nat, packet: Bytes, delivery: Delivery) returns (r: Result<()>)
      requires MIN_MTU <= mtu <= MAX_MTU && |channelReliable| == |channelUnreliable|
      modifies this`outgoingReliableMessages, this`outgoingUnreliableMessages, this`outgoingDataTotal,
               this`channelReliable, this`channelUnreliable, this`outgoingUnsequencedGroup
      ensures r == if |packet| > MAX_PACKET_SIZE then Err(BufferOverflow)
                   else if channelId >= |old(channelReliable)| then Err(ArgumentNotValid)
                   else if state != Connected then Err(ClientNotConnected)
                   else Ok(())
      ensures r.Err? ==> unchanged(this)
      ensures |packet| <= MAX_PACKET_SIZE && channelId < |old(channelReliable)| ==>
                var (reliable, unreliable) :=
                  Submission(channelId, packet, delivery, mtu - HEADER_SIZE - FRAGMENT_SIZE, old(channelReliable)[channelId],
                             Advance(old(channelUnreliable)[channelId], 1), Advance(old(outgoingUnsequencedGroup), 1));
                Box() == Submit(old(Box()), reliable, unreliable)
      ensures r.Ok? ==>
                var size, last: int := mtu - HEADER_SIZE - FRAGMENT_SIZE, old(channelReliable)[channelId];
                if |packet| > size || delivery == Reliably then
                  && channelReliable == old(channelReliable)[channelId := Advance(last, Span(packet, size))]
                  && unchanged(this`channelUnreliable, this`outgoingUnsequencedGroup)
                else if delivery == Unsequencedly then
                  && outgoingUnsequencedGroup == Advance(old(outgoingUnsequencedGroup), 1)
                  && unchanged(this`channelReliable, this`channelUnreliable)
                else
                  && channelUnreliable == old(channelUnreliable)[channelId := Advance(old(channelUnreliable)[channelId], 1)]
                  && unchanged(this`channelReliable, this`outgoingUnsequencedGroup)
    {
      hide PacketMessages, Span, Advance, UnsequencedMessage, UnreliableMessage;
      if |packet| > MAX_PACKET_SIZE {
        return Err(BufferOverflow);
      }
      if channelId >= |channelReliable| {
        return Err(ArgumentNotValid);
      }
      if state != Connected {
        return Err(ClientNotConnected);
      }
      var fragmentLength := mtu - HEADER_SIZE - FRAGMENT_SIZE;
      if |packet| > fragmentLength || delivery == Reliably {
        SendReliably(channelId, packet, fragmentLength);
      } else if delivery == Unsequencedly {
        SendUnsequenced(channelId, packet);
      } else {
        SendUnreliably(channelId, packet);
      }
      r := Ok(());
    }

    // -------------------------------------------------------- transmission

    /** The first acknowledgement is written; answering a DISCONNECT ends the client. */
    method AcknowledgeOne(d: Datagram, ghost done: seq<Acknowledgement>, ghost before: ClientState)
      requires acknowledgements != [] && state == AfterAcknowledging(before, done)
      requires d.Valid() && Fits(d.Filled(), mtu) && d.messageCount < MAX_MESSAGES && d.bufferCount < MAX_BUFFERS
      requires mtu - d.packetSize >= Size(Acknowledge)
      modifies this`acknowledgements, this`state, d, d.messages, d.buffers
      ensures d.Valid() && Fits(d.Filled(), mtu)
      ensures acknowledgements == old(acknowledgements)[1..]
      ensures d.Filled() == Packing(old(d.packetSize) + 10, old(d.messageCount) + 1, old(d.bufferCount) + 1)
      ensures state == AfterAcknowledging(before, done + [old(acknowledgements)[0]])
    {
      var a := acknowledgements[0];
      AcknowledgedOneMore(before, done, a);
      hide AfterAcknowledging;
      d.Put(Acknowledge, None);
      if a.kind == Disconnect {
        state := Zombie;
      }
      acknowledgements := acknowledgements[1..];
    }

    /** send_acknowledgements: a prefix of the queue, as much as fits. */
    method SendAcknowledgements(d: Datagram) returns (more: bool)
      requires d.Valid() && Fits(d.Filled(), mtu)
      modifies this`acknowledgements, this`state, d, d.messages, d.buffers
      ensures d.Valid() && Fits(d.Filled(), mtu)
      ensures var k := d.messageCount - old(d.messageCount);
              && 0 <= k <= |old(acknowledgements)| && acknowledgements == old(acknowledgements)[k..]
              && d.Filled() == Packing(old(d.packetSize) + 10 * k, old(d.messageCount) + k, old(d.bufferCount) + k)
              && state == AfterAcknowledging(old(state), old(acknowledgements)[..k])
      ensures more <==> acknowledgements != []
      ensures more ==> d.messageCount == MAX_MESSAGES || d.bufferCount == MAX_BUFFERS || mtu - d.packetSize < 10
    {
      more := false;
      ghost var queue, k: nat := acknowledgements, 0;
      assert AfterAcknowledging(state, queue[..0]) == state;
      hide AfterAcknowledging;
      while acknowledgements != []
        invariant d.Valid() && Fits(d.Filled(), mtu) && !more
        invariant 0 <= k <= |queue| && acknowledgements == queue[k..]
        invariant d.Filled() == Packing(old(d.packetSize) + 10 * k, old(d.messageCount) + k, old(d.bufferCount) + k)
        invariant state == AfterAcknowledging(old(state), queue[..k])
        decreases |acknowledgements|
      {
        if d.messageCount >= MAX_MESSAGES || d.bufferCount >= MAX_BUFFERS || mtu - d.packetSize < Size(Acknowledge) {
          more := true;
          break;
        }
        assert queue[..k + 1] == queue[..k] + [queue[k]];
        AcknowledgeOne(d, queue[..k], old(state));
        k := k + 1;
      }
    }

    /** send_reliable. */
    method SendReliable(d: Datagram, now: uint32) returns (more: bool)
      requires d.Valid() && Fits(d.Filled(), mtu)
      modifies this`outgoingReliableMessages, this`sentReliableMessages, this`reliableDataInTransit, this`nextTimeout,
               d, d.messages, d.buffers
      ensures d.Valid()
      ensures (Box(), d.Filled(), more) == Transmit(old(Box()), old(d.Filled()), mtu, now)
    {
      more := false;
      ghost var goal := Transmit(Box(), d.Filled(), mtu, now);
      while outgoingReliableMessages != []
        invariant d.Valid() && Fits(d.Filled(), mtu) && !more
        invariant Transmit(Box(), d.Filled(), mtu, now) == goal
        decreases |outgoingReliableMessages|
      {
        var m := outgoingReliableMessages[0];
        var size := Size(m.kind);
        if d.messageCount >= MAX_MESSAGES || d.bufferCount + 1 >= MAX_BUFFERS || mtu - d.packetSize < size {
          return true;
        }
        if m.data.Some? {
          if reliableDataInTransit + m.Length() > windowSize {
            break;
          }
          if mtu - d.packetSize < size + m.Length() {
            return true;
          }
        }
        SendOne(d, now);
      }
    }

    /** The head of the outgoing queue, stamped, goes to the sent queue and into the datagram. */
    method SendOne(d: Datagram, now: uint32)
      requires outgoingReliableMessages != [] && d.Valid() && Fits(d.Filled(), mtu)
      requires NextReliable(Box(), d.Filled(), mtu) == Ready
      modifies this`outgoingReliableMessages, this`sentReliableMessages, this`reliableDataInTransit, this`nextTimeout,
               d, d.messages, d.buffers
      ensures d.Valid() && Fits(d.Filled(), mtu)
      ensures Box() == MoveOne(old(Box()), now)
      ensures d.Filled() == PackOne(old(d.Filled()), old(outgoingReliableMessages)[0])
    {
      hide Plus, Size, Outgoing.Key, Stamp;
      var m := StampMessage(outgoingReliableMessages[0], now);
      if sentReliableMessages == [] {
        nextTimeout := Plus(now, m.timeout);
      }
      outgoingReliableMessages := outgoingReliableMessages[1..];
      sentReliableMessages := sentReliableMessages + [m];
      d.Put(m.kind, if m.data.Some? then Some(m.Length()) else None);
      reliableDataInTransit := Plus(reliableDataInTransit, m.Length());
    }

    /** The times a message is sent with; the history field says when it was first sent. */
    method StampMessage(m0: Outgoing, now: uint32) returns (m: Outgoing)
      ensures m == Stamp(m0, now, roundTripTime, roundTripTimeVariance) && m.kind == m0.kind && m.data == m0.data
    {
      m := m0;
      if m.timeout == 0 {
        var first := Plus(roundTripTime, 4 * roundTripTimeVariance);
        m := m.(timeout := first, timeoutLimit := TIMEOUT_LIMIT * first % WRAP);
      }
      m := m.(sentTime := now, firstSent := if m.timeouts == 0 then now else m.firstSent);
    }

    /** The head of the unreliable queue is dropped by the throttle or goes into the datagram. */
    method FlushOne(d: Datagram)
      requires outgoingUnreliableMessages != [] && d.Valid() && Fits(d.Filled(), mtu)
      requires HasRoom(outgoingUnreliableMessages[0], d.Filled(), mtu)
      modifies this`outgoingUnreliableMessages, this`sentUnreliableMessages, this`packetThrottleCounter,
               d, d.messages, d.buffers
      ensures d.Valid() && Fits(d.Filled(), mtu) && outgoingUnreliableMessages == old(outgoingUnreliableMessages)[1..]
      ensures FlushUnreliable(Unsent(), packetThrottle, d.Filled(), mtu)
              == FlushUnreliable(old(Unsent()), packetThrottle, old(d.Filled()), mtu)
    {
      var m := outgoingUnreliableMessages[0];
      outgoingUnreliableMessages := outgoingUnreliableMessages[1..];
      if m.data.Some? {
        packetThrottleCounter := NextCounter(packetThrottleCounter);
        if packetThrottleCounter > packetThrottle {
          return;
        }
        sentUnreliableMessages := sentUnreliableMessages + [m];
      }
      d.Put(m.kind, if m.data.Some? then Some(m.Length()) else None);
    }

    /** send_unreliable, with the check that completes a delayed close. */
    method SendUnreliable(d: Datagram) returns (more: bool)
      requires d.Valid() && Fits(d.Filled(), mtu)
      modifies this, d, d.messages, d.buffers
      ensures d.Valid() && mtu == old(mtu)
      ensures var (f', p', more') := FlushUnreliable(old(Unsent()), old(packetThrottle), old(d.Filled()), mtu);
              && d.Filled() == p' && more == more' && packetThrottleCounter == f'.counter
              && Box() == CloseWhenDrained(old(Box()).(unreliable := f'.queue), Advance(old(outgoingReliableSequenceNumber), 1))
    {
      more := false;
      ghost var goal := FlushUnreliable(Unsent(), packetThrottle, d.Filled(), mtu);
      while outgoingUnreliableMessages != []
        invariant d.Valid() && Fits(d.Filled(), mtu) && !more
        invariant Box() == old(Box()).(unreliable := outgoingUnreliableMessages)
        invariant mtu == old(mtu) && packetThrottle == old(packetThrottle)
        invariant outgoingReliableSequenceNumber == old(outgoingReliableSequenceNumber)
        invariant FlushUnreliable(Unsent(), packetThrottle, d.Filled(), mtu) == goal
        decreases |outgoingUnreliableMessages|
      {
        var m := outgoingUnreliableMessages[0];
        if !HasRoom(m, d.Filled(), mtu) {
          more := true;
          break;
        }
        FlushOne(d);
      }
      CloseIfDrained();
    }

    // ------------------------------------------------- timeouts and answers

    /** check_for_timeouts, up to the point where it gives the connection up. */
    method CheckForTimeouts(now: uint32) returns (gaveUp: bool)
      modifies this`outgoingReliableMessages, this`sentReliableMessages, this`reliableDataInTransit,
               this`nextTimeout, this`earliestTimeout
      ensures (Box(), gaveUp) == CheckTimeouts(old(Box()), 0, now)
    {
      ghost var goal := CheckTimeouts(Box(), 0, now);
      var i := 0;
      while i < |sentReliableMessages|
        invariant 0 <= i <= |sentReliableMessages| && CheckTimeouts(Box(), i, now) == goal
        decreases |sentReliableMessages| - i
      {
        var m := sentReliableMessages[i];
        if Lag(now, m.sentTime) < m.timeout {
          i := i + 1;
          continue;
        }
        if earliestTimeout == 0 || Compare(m.sentTime, earliestTimeout) < 0 {
          earliestTimeout := m.sentTime;
        }
        if earliestTimeout != 0 {
          var lag := Lag(now, earliestTimeout);
          if lag >= MAX_TIMEOUT || (m.timeout >= m.timeoutLimit && lag >= MIN_TIMEOUT) {
            return true;
          }
        }
        PutBack(i);
      }
      gaveUp := false;
    }

    /** A message that timed out goes back to the head of the outgoing queue, with twice the timeout. */
    method PutBack(i: nat)
      requires i < |sentReliableMessages|
      modifies this`outgoingReliableMessages, this`sentReliableMessages, this`reliableDataInTransit, this`nextTimeout
      ensures Box() == TimeOutOne(old(Box()), i).(earliestTimeout := earliestTimeout)
    {
      var m := sentReliableMessages[i];
      if m.data.Some? {
        reliableDataInTransit := Plus(reliableDataInTransit, 0 - m.Length());
      }
      // the history field counts the doublings
      m := m.(timeout := m.timeout * 2 % WRAP, timeouts := m.timeouts + 1);
      sentReliableMessages := RemoveAt(sentReliableMessages, i);
      outgoingReliableMessages := [m] + outgoingReliableMessages;
      if i == 0 && sentReliableMessages != [] {
        nextTimeout := Plus(sentReliableMessages[0].sentTime, sentReliableMessages[0].timeout);
      }
    }

    /** The search for an acknowledged message. */
    method FindAcknowledged(number: uint16, channelId: nat) returns (r: Option<nat>)
      ensures r == FindSent(sentReliableMessages, number, channelId)
    {
      var q := sentReliableMessages;
      var i := 0;
      while i < |q| && !(q[i].reliableNumber == number && q[i].channelId == channelId)
        invariant 0 <= i <= |q|
        invariant FindSent(q, number, channelId) ==
                  match FindSent(q[i..], number, channelId) case None => None case Some(j) => Some(i + j)
      {
        assert q[i..][1..] == q[i + 1..];
        i := i + 1;
      }
      r := if i == |q| then None else Some(i);
    }

    /** dispose_acknowledged_message: the kind of the message removed, if any. */
    method DisposeAcknowledgedMessage(number: uint16, channelId: nat) returns (kind: Option<Kind>)
      modifies this`sentReliableMessages, this`reliableDataInTransit, this`nextTimeout
      ensures Box() == Dispose(old(Box()), number, channelId)
      ensures kind == match FindSent(old(sentReliableMessages), number, channelId)
                      case None => None case Some(i) => Some(old(sentReliableMessages)[i].kind)
    {
      hide FindSent;
      var found := FindAcknowledged(number, channelId);
      if found.None? {
        return None;
      }
      var m := sentReliableMessages[found.value];
      sentReliableMessages := RemoveAt(sentReliableMessages, found.value);
      if m.data.Some? {
        reliableDataInTransit := Plus(reliableDataInTransit, 0 - m.Length());
      }
      if sentReliableMessages != [] {
        nextTimeout := Plus(sentReliableMessages[0].sentTime, sentReliableMessages[0].timeout);
      }
      kind := Some(m.kind);
    }

    /** The acknowledgement handler: `echo` is the send time that came back, and
        `direct` says that an event is delivered at once. An echo from the future
        changes nothing. False is the verdict "discarded". */
    method OnAcknowledgeMessage(number: uint16, channelId: nat, echo: uint16, now: uint32, direct: bool)
      returns (accepted: bool)
      requires state != Disconnected && state != Zombie
      modifies this
      ensures Measured(echo, now).None? ==> accepted && unchanged(this)
      ensures Measured(echo, now).Some? ==>
                Answered(old(Box()), number, channelId, Measured(echo, now).value, direct, accepted,
                         Advance(old(outgoingReliableSequenceNumber), 1))
    {
      hide Dispose, FindSent, Advance, AsNew, Renewed, Smoothed;
      var sentTime := RebuildSentTime(echo, now);
      accepted := true;
      if Compare(now, sentTime) < 0 {
        return;
      }
      var kind := Hear(number, channelId, Lag(now, sentTime));
      if state == AcknowledgingConnect {
        if kind != Some(ValidateConnect) {
          return false;
        }
        NotifyConnect(direct);
      } else if state == Disconnecting {
        if kind != Some(Disconnect) {
          return false;
        }
        NotifyDisconnect(direct);
      } else {
        CloseIfDrained();
      }
    }

    /** The part of the handler that is the same in every state. */
    method Hear(number: uint16, channelId: nat, measured: uint32) returns (kind: Option<Kind>)
      modifies this`earliestTimeout, this`roundTripTime, this`roundTripTimeVariance, this`sentReliableMessages,
               this`outgoingReliableMessages, this`reliableDataInTransit, this`nextTimeout
      ensures Box() == Heard(Dispose(old(Box()), number, channelId), measured)
      ensures kind == match FindSent(old(sentReliableMessages), number, channelId)
                      case None => None case Some(i) => Some(old(sentReliableMessages)[i].kind)
    {
      hide FindSent, Renewed, Smoothed;
      earliestTimeout := 0;
      UpdateEstimate(measured);
      kind := DisposeAcknowledgedMessage(number, channelId);
      // the history starts again
      sentReliableMessages, outgoingReliableMessages := Renewed(sentReliableMessages), Renewed(outgoingReliableMessages);
    }

    /** What an acknowledgement makes of the client, by the state it was in. */
    ghost predicate Answered(b: Outbox, number: uint16, channelId: nat, measured: uint32, direct: bool, accepted: bool,
                             disconnectNumber: uint16)
      reads this
    {
      var found := FindSent(b.sent, number, channelId);
      var left := Heard(Dispose(b, number, channelId), measured);
      match b.state
      case AcknowledgingConnect =>
        && accepted == (found.Some? && b.sent[found.value].kind == ValidateConnect)
        && Box() == if accepted then left.(state := if direct then Connected else ConnectionPending) else left
      case Disconnecting =>
        && accepted == (found.Some? && b.sent[found.value].kind == Disconnect)
        && if accepted && direct then AsNew() else Box() == if accepted then left.(state := Zombie) else left
      case _ => accepted && Box() == OnAcknowledge(b, number, channelId, measured, disconnectNumber)
    }

    /** The round trip estimate, as one more measurement leaves it. */
    method UpdateEstimate(measured: uint32)
      modifies this`roundTripTime, this`roundTripTimeVariance
      ensures (roundTripTime, roundTripTimeVariance) == Smoothed(old(roundTripTime), old(roundTripTimeVariance), measured)
    {
      roundTripTimeVariance := roundTripTimeVariance - roundTripTimeVariance / 4;
      if measured >= roundTripTime {
        roundTripTime := roundTripTime + (measured - roundTripTime) / 8;
        roundTripTimeVariance := roundTripTimeVariance + (measured - roundTripTime) / 4;
      } else {
        roundTripTime := roundTripTime - (roundTripTime - measured) / 8;
        roundTripTimeVariance := roundTripTimeVariance + (roundTripTime - measured) / 4;
      }
    }

    /** What completes a delayed close. */
    method CloseIfDrained()
      modifies this
      ensures Box() == CloseWhenDrained(old(Box()), Advance(old(outgoingReliableSequenceNumber), 1)) && mtu == old(mtu)
      ensures packetThrottleCounter == old(packetThrottleCounter)
    {
      if state == DelayingDisconnect && outgoingReliableMessages == [] && outgoingUnreliableMessages == []
         && sentReliableMessages == []
      {
        var r := CloseGracefully();
      }
    }

    /** notify_connect. */
    method NotifyConnect(direct: bool)
      modifies this`state
      ensures state == if direct then Connected else if old(state) == Connecting then ConnectionSucceeded else ConnectionPending
    {
      state := if direct then Connected else if state == Connecting then ConnectionSucceeded else ConnectionPending;
    }

    /** notify_disconnect: a client not known to the application is simply destroyed. */
    method NotifyDisconnect(direct: bool)
      requires state != Disconnected
      modifies this
      ensures if old(state) == AcknowledgingConnect || old(state) == ConnectionPending || direct then AsNew()
              else Box() == old(Box()).(state := Zombie)
    {
      if state == AcknowledgingConnect || state == ConnectionPending || direct {
        Destroy();
      } else {
        state := Zombie;
      }
    }

    /** gekkota_xudpclient_destroy. */
    method Destroy()
      modifies this
      ensures AsNew()
    {
      ClearMessageQueues();
      ResetTransmission();
      ResetLink();
    }

    method ResetTransmission()
      modifies this`windowSize, this`reliableDataInTransit, this`nextTimeout, this`earliestTimeout, this`roundTripTime,
               this`roundTripTimeVariance
      ensures windowSize == MAX_WINDOW && reliableDataInTransit == nextTimeout == earliestTimeout == 0
      ensures roundTripTime == 500 && roundTripTimeVariance == 0
    {
      windowSize, reliableDataInTransit, nextTimeout, earliestTimeout := MAX_WINDOW, 0, 0, 0;
      roundTripTime, roundTripTimeVariance := 500, 0;
    }

    method ResetLink()
      modifies this`state, this`mtu, this`packetThrottle, this`packetThrottleCounter, this`outgoingDataTotal,
               this`outgoingReliableSequenceNumber, this`outgoingUnsequencedGroup
      ensures state == Disconnected && mtu == DEFAULT_MTU && packetThrottle == 32 && packetThrottleCounter == 0
      ensures outgoingDataTotal == 0 && outgoingReliableSequenceNumber == outgoingUnsequencedGroup == 0
    {
      state, mtu, packetThrottle, packetThrottleCounter := Disconnected, DEFAULT_MTU, 32, 0;
      outgoingDataTotal, outgoingReliableSequenceNumber, outgoingUnsequencedGroup := 0, 0, 0;
    }

    /** clear_message_queues: what is queued is dropped, reliableDataInTransit is left as it was. */
    method ClearMessageQueues()
      modifies this`acknowledgements, this`sentReliableMessages, this`sentUnreliableMessages,
               this`outgoingReliableMessages, this`outgoingUnreliableMessages, this`channelReliable, this`channelUnreliable
      ensures acknowledgements == [] && channelReliable == channelUnreliable == []
      ensures sentReliableMessages == sentUnreliableMessages == outgoingReliableMessages == outgoingUnreliableMessages == []
    {
      acknowledgements, sentReliableMessages, sentUnreliableMessages := [], [], [];
      outgoingReliableMessages, outgoingUnreliableMessages := [], [];
      channelReliable, channelUnreliable := [], [];
    }

    /** close_gracefully. An open client queues a DISCONNECT that asks to be
        acknowledged; one that is not yet open sends it unsequenced and is destroyed. */
    method CloseGracefully() returns (r: Result<()>)
      modifies this
      ensures r == if old(state) in {Disconnecting, Disconnected, Zombie} then Err(ClientNotConnected) else Ok(())
      ensures r.Err? ==> unchanged(this)
      ensures old(state) == Connected || old(state) == DelayingDisconnect ==>
                && Box() == OutgoingQueues.CloseGracefully(old(Box()), Advance(old(outgoingReliableSequenceNumber), 1))
                && mtu == old(mtu) && packetThrottleCounter == old(packetThrottleCounter)
                && acknowledgements == [] && channelReliable == channelUnreliable == []
      ensures r.Ok? && old(state) != Connected && old(state) != DelayingDisconnect ==> AsNew()
    {
      hide AsNew, Advance;
      if state == Disconnecting || state == Disconnected || state == Zombie {
        return Err(ClientNotConnected);
      }
      r := Ok(());
      if state != Connected && state != DelayingDisconnect {
        Destroy();
      } else {
        QueueDisconnect();
      }
    }

    method QueueDisconnect()
      requires state == Connected || state == DelayingDisconnect
      modifies this
      ensures Box() == OutgoingQueues.CloseGracefully(old(Box()), Advance(old(outgoingReliableSequenceNumber), 1))
      ensures mtu == old(mtu) && packetThrottleCounter == old(packetThrottleCounter)
      ensures acknowledgements == [] && channelReliable == channelUnreliable == []
    {
      ClearMessageQueues();
      outgoingReliableSequenceNumber := Advance(outgoingReliableSequenceNumber, 1);
      QueueReliable(DisconnectMessage(outgoingReliableSequenceNumber));
      state := Disconnecting;
    }

    /** close_later. */
    method CloseLater() returns (r: Result<()>)
      modifies this
      ensures r == if old(state) in {Disconnecting, Disconnected, Zombie} then Err(ClientNotConnected) else Ok(())
      ensures r.Err? ==> unchanged(this)
      ensures old(state) == Connected || old(state) == DelayingDisconnect ==>
                Box() == OutgoingQueues.CloseLater(old(Box()), Advance(old(outgoingReliableSequenceNumber), 1))
      ensures r.Ok? && old(state) != Connected && old(state) != DelayingDisconnect ==> AsNew()
    {
      hide AsNew;
      if (state == Connected || state == DelayingDisconnect)
         && !(outgoingReliableMessages == [] && outgoingUnreliableMessages == [] && sentReliableMessages == [])
      {
        state := DelayingDisconnect;
        r := Ok(());
      } else {
        r := CloseGracefully();
      }
    }

    /** _gekkota_xudp_acknowledge: queues an acknowledgement when one is due. */
    method AnswerMessage(a: Acknowledgement, asks: bool, stamped: bool) returns (queued: bool)
      modifies this`acknowledgements, this`outgoingDataTotal
      ensures queued == Incoming.Answers(a.kind, asks, stamped, state)
      ensures acknowledgements == old(acknowledgements) + (if queued then [a] else [])
    {
      if !asks || !stamped || state == Disconnecting || state == AcknowledgingConnect {
        return false;
      }
      if state == AcknowledgingDisconnect && a.kind != Disconnect {
        return false;
      }
      outgoingDataTotal := (outgoingDataTotal + Size(Kind.Acknowledge)) % WRAP;
      acknowledgements := acknowledgements + [a];
      queued := true;
    }

    /** A turn after the acknowledgements. */
    method SendMessages(d: Datagram, now: uint32, checkForTimeouts: bool) returns (gaveUp: bool)
      requires d.Valid() && Fits(d.Filled(), mtu)
      modifies this, d, d.messages, d.buffers
      ensures d.Valid()
      ensures Turned(Box(), d.Filled(), gaveUp)
              == Turn(old(Box()), old(d.Filled()), old(Unsent()), old(packetThrottle), old(mtu), now, checkForTimeouts,
                      Advance(old(outgoingReliableSequenceNumber), 1))
    {
      hide FlushUnreliable, CheckTimeouts, Transmit, CloseWhenDrained, Sum, Advance, Compare;
      gaveUp := false;
      if checkForTimeouts && sentReliableMessages != [] && Compare(now, nextTimeout) >= 0 {
        gaveUp := CheckForTimeouts(now);
        if gaveUp {
          return;
        }
      }
      TransmitFits(Box(), d.Filled(), mtu, now);
      if outgoingReliableMessages != [] {
        var more := SendReliable(d, now);
      } else {
        TransmitNothing(Box(), d.Filled(), mtu, now);
      }
      if outgoingUnreliableMessages != [] {
        var more := SendUnreliable(d);
      }
    }

    /** One client's turn in the send loop: acknowledgements, timeouts, reliable and
        unreliable messages share one datagram. `taken` is how many of the waiting
        acknowledgements were written: all of them, unless the datagram was full. */
    method BuildDatagram(d: Datagram, now: uint32, checkForTimeouts: bool) returns (gaveUp: bool, ghost taken: nat)
      requires d.Valid() && HEADER_SIZE <= mtu
      modifies this, d, d.messages, d.buffers
      ensures d.Valid() && d.packetSize == HEADER_SIZE + Sum(d.buffers[1..d.bufferCount])
      ensures taken <= |old(acknowledgements)| && Fits(Acknowledged(taken), old(mtu))
      ensures taken == |old(acknowledgements)| || taken == MAX_MESSAGES || !Fits(Acknowledged(taken + 1), old(mtu))
      ensures Turned(Box(), d.Filled(), gaveUp)
              == Turn(old(Box()).(state := AfterAcknowledging(old(state), old(acknowledgements)[..taken])),
                      Acknowledged(taken), old(Unsent()), old(packetThrottle), old(mtu), now, checkForTimeouts,
                      Advance(old(outgoingReliableSequenceNumber), 1))
    {
      hide Turn, AfterAcknowledging, Sum, Advance;
      d.Reset();
      var more := SendAcknowledgements(d);
      taken := d.messageCount;
      gaveUp := SendMessages(d, now, checkForTimeouts);
    }
  }

  lemma AdvanceTwice(last: nat, f: nat)
    ensures Advance(Advance(last, f), 1) == Advance(last, f + 1) == (last + 1 + f) % 0x1_0000
  {
  }

  /** How long the loop makes fragment f, and where that leaves the offset. */
  lemma PieceLength(p: Bytes, size: nat, f: nat)
    requires 0 < size < |p| && f < Span(p, size)
    ensures var o := Offset(f, size);
            var length := if |p| - o < size then |p| - o else size;
            && o < |p| && o + length == End(p, size, f)
            && (f + 1 < Span(p, size) ==> length == size && Offset(f + 1, size) == o + length < |p|)
            && (f + 1 == Span(p, size) ==> o + length == |p|)
  {
    hide Span, Offset, End;
    PieceInside(p, size, f);
    MulStep(f, size);
    if f + 1 < Span(p, size) {
      PieceInside(p, size, f + 1);
    } else {
      SpanBounds(p, size);
    }
  }

  /** Where the fragmentation loop stands: before fragment f, or past the last one. */
  predicate AtFragment(p: Bytes, size: nat, f: nat, offset: nat, length: nat)
    requires 0 < size < |p|
  {
    && f <= Span(p, size)
    && (f < Span(p, size) ==> offset == Offset(f, size) < |p| && length == size)
    && (f == Span(p, size) ==> offset >= |p|)
  }

  lemma FragmentLoopStart(p: Bytes, size: nat, last: uint16)
    requires 0 < size < |p|
    ensures AtFragment(p, size, 0, 0, size) && Advance(last, 0) == last
    ensures (|p| + size - 1) / size == Span(p, size)
  {
    SpanBounds(p, size);
  }

  lemma FragmentLoopEnd(p: Bytes, size: nat, f: nat, offset: nat, length: nat)
    requires 0 < size < |p| && AtFragment(p, size, f, offset, length) && offset >= |p|
    ensures f == Span(p, size)
  {
  }

  lemma {:induction false} TransmitFits(b: Outbox, p: Packing, mtu: nat, now: uint32)
    requires Fits(p, mtu)
    ensures Fits(Transmit(b, p, mtu, now).1, mtu)
    decreases |b.outgoing|
  {
    if NextReliable(b, p, mtu) == Ready {
      TransmitFits(MoveOne(b, now), PackOne(p, b.outgoing[0]), mtu, now);
    }
  }
}
