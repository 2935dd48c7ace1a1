/** The incoming half of GekkotaChannel: the handlers as methods that change the
    channel in place, each proved to do what Incoming specifies. */
module Channel {
  import opened Words
  import opened Wrappers
  import opened Messages
  import opened Sequence
  import opened Bitmap
  import opened Incoming

  class Channel {
    var incomingReliableSequenceNumber: uint16
    var incomingUnreliableSequenceNumber: uint16
    var incomingReliableMessages: seq<Entry>
    var incomingUnreliableMessages: seq<Entry>

    ghost function State(): Queues
      reads this
    {
      Queues(incomingReliableSequenceNumber, incomingUnreliableSequenceNumber,
             incomingReliableMessages, incomingUnreliableMessages)
    }

    constructor ()
      ensures State() == Queues(0, 0, [], [])
    {
      incomingReliableSequenceNumber, incomingUnreliableSequenceNumber := 0, 0;
      incomingReliableMessages, incomingUnreliableMessages := [], [];
    }

    /** Scans the reliable queue from its tail for the place of number n. */
    static method ScanReliable(q: seq<Entry>, number: uint32) returns (slot: Option<nat>)
      ensures slot == ReliableSlot(q, |q|, number)
    {
      var n, k := number, |q|;
      while k > 0
        invariant 0 <= k <= |q| && 0 <= n < 0x1_0000_0000
        invariant ReliableSlot(q, |q|, number) == ReliableSlot(q, k, n)
      {
        var e := q[k - 1].reliableNumber;
        if n >= 0x1_0000 && e < HIGH {
          n := n - 0x1_0000;
        }
        if e <= n {
          if e < n {
            return Some(k);
          }
          return None;
        }
        k := k - 1;
      }
      slot := Some(0);
    }

    /** The same for the unreliable queue, skipping unsequenced messages. */
    static method ScanUnreliable(q: seq<Entry>, number: uint32) returns (slot: Option<nat>)
      ensures slot == UnreliableSlot(q, |q|, number)
    {
      var n, k := number, |q|;
      while k > 0
        invariant 0 <= k <= |q| && 0 <= n < 0x1_0000_0000
        invariant UnreliableSlot(q, |q|, number) == UnreliableSlot(q, k, n)
      {
        if q[k - 1].kind == UnreliableData {
          var e := q[k - 1].unreliableNumber;
          if n >= 0x1_0000 && e < HIGH {
            n := n - 0x1_0000;
          }
          if e <= n {
            if e < n {
              return Some(k);
            }
            return None;
          }
        }
        k := k - 1;
      }
      slot := Some(0);
    }

    method QueueIncomingMessage(m: DataMessage, packet: Bytes, count: uint32, state: ClientState)
      returns (position: Option<nat>)
      modifies this
      ensures var r := Enqueue(old(State()), m, packet, count, state);
              if r.None? then position == None && State() == old(State())
              else position == Some(r.value.1) && State() == r.value.0
    {
      position := None;
      if state == DelayingDisconnect {
        return;
      }
      if !m.Unsequenced? && IsOld(incomingReliableSequenceNumber, m.sequenceNumber) {
        return;
      }
      if m.Unsequenced? {
        position := Some(0);
      } else if m.Unreliable? {
        var n := Adjust(incomingUnreliableSequenceNumber, m.unreliableNumber);
        if n <= incomingUnreliableSequenceNumber || (incomingUnreliableSequenceNumber < LOW && m.unreliableNumber >= HIGH) {
          return;
        }
        position := ScanUnreliable(incomingUnreliableMessages, n);
      } else {
        var n := Adjust(incomingReliableSequenceNumber, m.sequenceNumber);
        if n == incomingReliableSequenceNumber {
          return;
        }
        position := ScanReliable(incomingReliableMessages, n);
      }
      if position.Some? {
        var e := NewEntry(m, packet, count);
        if m.Reliable? || m.Fragment? {
          incomingReliableMessages := Insert(incomingReliableMessages, position.value, e);
        } else {
          incomingUnreliableMessages := Insert(incomingUnreliableMessages, position.value, e);
        }
      }
    }

    /** Searches the reliable queue from its tail for the packet whose first
        fragment has number `start`; -1 when there is none. */
    static method FindStartMessage(q: seq<Entry>, start: uint16) returns (i: int)
      ensures i == match FindStart(q, |q|, start) case Some(k) => k case None => -1
    {
      i := |q| - 1;
      while i >= 0 && !(q[i].kind == DataFragment && q[i].reliableNumber == start)
        invariant -1 <= i < |q| && FindStart(q, i + 1, start) == FindStart(q, |q|, start)
      {
        i := i - 1;
      }
    }

    /** Copies a fragment into the i-th packet of the queue, once. */
    method CopyFragment(i: nat, number: nat, offset: nat, data: Bytes)
      requires i < |incomingReliableMessages|
      requires number < 32 * |incomingReliableMessages[i].bitmap|
      requires offset + |data| <= |incomingReliableMessages[i].packet|
      modifies this`incomingReliableMessages
      ensures var q := old(incomingReliableMessages);
              incomingReliableMessages == q[i := Absorb(q[i], number, offset, data)]
    {
      var e := incomingReliableMessages[i];
      if !Bit(e.bitmap, number) {
        e := e.(remaining := e.remaining - 1);
        e := e.(bitmap := SetBit(e.bitmap, number));
        e := e.(packet := Splice(e.packet, offset, data));
        incomingReliableMessages := incomingReliableMessages[i := e];
      } else {
        assert incomingReliableMessages == incomingReliableMessages[i := e];
      }
    }

    /** The handler for a fragment: finds or makes the packet it belongs to, and
        copies it in unless its bit is already set. */
    method OnDataFragment(m: DataMessage, blank: Bytes, state: ClientState) returns (verdict: Verdict)
      requires m.Fragment? && WellFormed(incomingReliableMessages) && |blank| == m.total
      requires m.offset + |m.data| < 0x1_0000_0000
      modifies this
      ensures (verdict, State()) == OnFragment(old(State()), m, blank, state)
    {
      hide Absorb, IsOld, Bit;
      if IsOld(incomingReliableSequenceNumber, m.startNumber) {
        return Accepted;
      }
      if m.offset >= m.total || m.offset + |m.data| > m.total || m.number >= m.count {
        return Discarded;
      }
      var i := FindStartMessage(incomingReliableMessages, m.startNumber);
      if i < 0 {
        var position := QueueIncomingMessage(StartMessage(m), blank, m.count, state);
        if position.None? {
          return Failed;
        }
        i := position.value;
        assert incomingReliableMessages[i] == NewEntry(StartMessage(m), blank, m.count);
      } else if m.total != |incomingReliableMessages[i].packet| || m.count != incomingReliableMessages[i].count {
        return Discarded;
      }
      hide Enqueue;
      CopyFragment(i, m.number, m.offset, m.data);
      verdict := Accepted;
    }

    /** gekkota_xudpclient_receive on a unicast client, apart from inflation. */
    method Take() returns (delivery: Delivery)
      modifies this
      ensures (delivery, State()) == Receive(old(State()))
    {
      if incomingUnreliableMessages != [] {
        var e := incomingUnreliableMessages[0];
        if e.kind != UnreliableData || e.reliableNumber == incomingReliableSequenceNumber {
          if e.kind == UnreliableData {
            incomingUnreliableSequenceNumber := e.unreliableNumber;
          }
          incomingUnreliableMessages := incomingUnreliableMessages[1..];
          return FromUnreliable(e);
        }
      }
      if incomingReliableMessages == [] {
        return Nothing;
      }
      var e := incomingReliableMessages[0];
      if e.remaining > 0 || e.reliableNumber != (incomingReliableSequenceNumber + 1) % 0x1_0000 {
        return Nothing;
      }
      incomingReliableSequenceNumber := e.reliableNumber;
      if e.count > 0 {
        incomingReliableSequenceNumber := (incomingReliableSequenceNumber + e.count - 1) % 0x1_0000;
      }
      incomingReliableMessages := incomingReliableMessages[1..];
      delivery := FromReliable(e.packet);
    }
  }
}
