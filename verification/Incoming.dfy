/** The receiving side of a channel: the sorted queues of gekkota_xudpclient.c
    and the message handlers of gekkota_xudp.c that fill them. */
module Incoming {
  import opened Words
  import opened Wrappers
  import opened Messages
  import opened Sequence
  import opened Bitmap

  /** A queued message; for a fragmented packet, the packet being put together. */
  datatype Entry = Entry(
    kind: Kind,
    reliableNumber: uint16,
    unreliableNumber: uint16,
    count: uint32,
    remaining: int,
    bitmap: seq<uint32>,
    packet: Bytes)

  datatype Queues = Queues(
    lastReliable: uint16,
    lastUnreliable: uint16,
    reliable: seq<Entry>,
    unreliable: seq<Entry>)

  // A handler's verdict on a message: accepted, silently dropped, or an error.
  datatype Verdict = Accepted | Discarded | Failed

  datatype Delivery = Nothing | FromReliable(packet: Bytes) | FromUnreliable(entry: Entry)

  function Insert(q: seq<Entry>, k: nat, e: Entry): (r: seq<Entry>)
    requires k <= |q|
  {
    q[..k] + [e] + q[k..]
  }

  /** Where a reliable message numbered n goes among the last k entries looked at
      from the back; None when it is there already. The adjusted number comes
      back down as soon as an entry below the high end is met. */
  function ReliableSlot(q: seq<Entry>, k: nat, n: uint32): (r: Option<nat>)
    requires k <= |q|
    ensures r.Some? ==> r.value <= k
  {
    if k == 0 then Some(0)
    else
      var e := q[k - 1].reliableNumber;
      var n' := if n >= 0x1_0000 && e < HIGH then n - 0x1_0000 else n;
      if e <= n' then (if e < n' then Some(k) else None)
      else ReliableSlot(q, k - 1, n')
  }

  /** The same among unreliable messages; unsequenced ones are passed over. */
  function UnreliableSlot(q: seq<Entry>, k: nat, n: uint32): (r: Option<nat>)
    requires k <= |q|
    ensures r.Some? ==> r.value <= k
  {
    if k == 0 then Some(0)
    else if q[k - 1].kind != UnreliableData then UnreliableSlot(q, k - 1, n)
    else
      var e := q[k - 1].unreliableNumber;
      var n' := if n >= 0x1_0000 && e < HIGH then n - 0x1_0000 else n;
      if e <= n' then (if e < n' then Some(k) else None)
      else UnreliableSlot(q, k - 1, n')
  }

  /** The entry made for a message, with a packet to hold `packet` and, for
      fragments, a clear bitmap. */
  function NewEntry(m: DataMessage, packet: Bytes, count: uint32): Entry {
    Entry(m.Kind(),
          if m.Unsequenced? then 0 else m.sequenceNumber,
          if m.Unreliable? then m.unreliableNumber else 0,
          count, count, ClearBitmap(count), packet)
  }

  /** Queues a message, an unsequenced one before all others; None is the C code's -1.
      The second result is the new entry's position in its queue. */
  function Enqueue(q: Queues, m: DataMessage, packet: Bytes, count: uint32, state: ClientState): (r: Option<(Queues, nat)>)
    ensures r.Some? && (m.Reliable? || m.Fragment?) ==>
              r.value.1 <= |q.reliable| && r.value.0 == q.(reliable := Insert(q.reliable, r.value.1, NewEntry(m, packet, count)))
    ensures r.Some? && (m.Unreliable? || m.Unsequenced?) ==>
              r.value.1 <= |q.unreliable| && r.value.0 == q.(unreliable := Insert(q.unreliable, r.value.1, NewEntry(m, packet, count)))
  {
    if state == DelayingDisconnect then None
    else if !m.Unsequenced? && IsOld(q.lastReliable, m.sequenceNumber) then None
    else
      match m
      case Unsequenced(_, _) =>
        Some((q.(unreliable := Insert(q.unreliable, 0, NewEntry(m, packet, count))), 0))
      case Unreliable(_, n, _) =>
        if Adjust(q.lastUnreliable, n) <= q.lastUnreliable || (q.lastUnreliable < LOW && n >= HIGH) then None
        else
          (match UnreliableSlot(q.unreliable, |q.unreliable|, Adjust(q.lastUnreliable, n))
           case None => None
           case Some(k) => Some((q.(unreliable := Insert(q.unreliable, k, NewEntry(m, packet, count))), k)))
      case _ =>
        if Adjust(q.lastReliable, m.sequenceNumber) == q.lastReliable then None
        else
          (match ReliableSlot(q.reliable, |q.reliable|, Adjust(q.lastReliable, m.sequenceNumber))
           case None => None
           case Some(k) => Some((q.(reliable := Insert(q.reliable, k, NewEntry(m, packet, count))), k)))
  }

  /** The last entry that collects the fragments starting at `start`. */
  function FindStart(q: seq<Entry>, k: nat, start: uint16): (r: Option<nat>)
    requires k <= |q|
    ensures r.Some? ==> r.value < k && q[r.value].kind == DataFragment && q[r.value].reliableNumber == start
  {
    if k == 0 then None
    else if q[k - 1].kind == DataFragment && q[k - 1].reliableNumber == start then Some(k - 1)
    else FindStart(q, k - 1, start)
  }

  /** It is the last one, and there is none when it says so. */
  lemma {:induction false} FindStartLast(q: seq<Entry>, k: nat, start: uint16)
    requires k <= |q|
    ensures var r := FindStart(q, k, start);
            forall i :: (if r.Some? then r.value + 1 else 0) <= i < k ==>
              !(q[i].kind == DataFragment && q[i].reliableNumber == start)
  {
    if k > 0 && !(q[k - 1].kind == DataFragment && q[k - 1].reliableNumber == start) {
      FindStartLast(q, k - 1, start);
    }
  }

  function Splice(packet: Bytes, offset: nat, data: Bytes): (r: Bytes)
    requires offset + |data| <= |packet|
    ensures |r| == |packet|
  {
    packet[..offset] + data + packet[offset + |data|..]
  }

  /** A fragment goes into its packet unless its bit is set already. */
  function Absorb(e: Entry, number: nat, offset: nat, data: Bytes): (r: Entry)
    requires number < 32 * |e.bitmap| && offset + |data| <= |e.packet|
  {
    if Bit(e.bitmap, number) then e
    else e.(remaining := e.remaining - 1, bitmap := SetBit(e.bitmap, number), packet := Splice(e.packet, offset, data))
  }

  /** The entries of the reliable queue are consistent: bitmaps are as long as the
      counts require. */
  predicate WellFormed(q: seq<Entry>) {
    forall i :: 0 <= i < |q| ==> |q[i].bitmap| == WordCount(q[i].count)
  }

  /** The entry of the whole packet, named by the number of its first fragment. */
  function StartMessage(m: DataMessage): DataMessage
    requires m.Fragment?
  {
    Fragment(m.startNumber, m.startNumber, m.count, m.number, m.offset, m.total, m.data)
  }

  /** The data-fragment handler on a connected client. `blank` is what the memory
      of a new packet holds. */
  function OnFragment(q: Queues, m: DataMessage, blank: Bytes, state: ClientState): (r: (Verdict, Queues))
    requires m.Fragment? && WellFormed(q.reliable) && |blank| == m.total
    // the receiver adds these two as 32-bit numbers
    requires m.offset + |m.data| < 0x1_0000_0000
  {
    if IsOld(q.lastReliable, m.startNumber) then (Accepted, q)
    else if m.offset >= m.total || m.offset + |m.data| > m.total || m.number >= m.count then (Discarded, q)
    else
      match FindStart(q.reliable, |q.reliable|, m.startNumber)
      case Some(i) =>
        var e := q.reliable[i];
        if m.total != |e.packet| || m.count != e.count then (Discarded, q)
        else (Accepted, q.(reliable := q.reliable[i := Absorb(e, m.number, m.offset, m.data)]))
      case None =>
        match Enqueue(q, StartMessage(m), blank, m.count, state)
        case None => (Failed, q)
        case Some((q', i)) =>
          (Accepted, q'.(reliable := q'.reliable[i := Absorb(q'.reliable[i], m.number, m.offset, m.data)]))
  }

  /** The four data handlers. They act only on a connected client, and an empty
      plain message cannot be made into a packet. A plain message that was queued
      is reported with the code that means it was dropped. */
  function OnData(q: Queues, m: DataMessage, blank: Bytes, state: ClientState): (r: (Verdict, Queues))
    requires m.Fragment? ==> |blank| == m.total && m.offset + |m.data| < 0x1_0000_0000
    requires WellFormed(q.reliable)
  {
    if state != Connected && state != DelayingDisconnect then (if m.Reliable? then Failed else Discarded, q)
    else if m.Fragment? then OnFragment(q, m, blank, state)
    else if m.data == [] then (Failed, q)
    else
      match Enqueue(q, m, m.data, 0, state)
      case None => (Failed, q)
      case Some((q', _)) => (Discarded, q')
  }

  // ------------------------------------------------------ acknowledgement

  /** Whether a message its handler accepted is acknowledged: it must ask for it, the
      datagram must carry its send time, and the client's state must allow it. */
  predicate Answers(kind: Kind, asks: bool, stamped: bool, state: ClientState) {
    && asks && stamped
    && match state
       case Disconnecting | AcknowledgingConnect => false
       case AcknowledgingDisconnect => kind == Disconnect
       case _ => true
  }

  predicate Asks(m: DataMessage) {
    m.Reliable? || m.Fragment?
  }

  predicate Answered(q: Queues, m: DataMessage, blank: Bytes, state: ClientState, stamped: bool)
    requires m.Fragment? ==> |blank| == m.total && m.offset + |m.data| < 0x1_0000_0000
    requires WellFormed(q.reliable)
  {
    OnData(q, m, blank, state).0 == Accepted && Answers(m.Kind(), Asks(m), stamped, state)
  }

  /** In every state: a closing or opening client acknowledges nothing, one that has been
      told to disconnect only a repeated DISCONNECT, and any other whatever asks for it in
      a datagram that carries its send time. */
  lemma AnswersExactly(kind: Kind, asks: bool, stamped: bool, state: ClientState)
    ensures Answers(kind, asks, stamped, state) <==>
            && asks && stamped && state != Disconnecting && state != AcknowledgingConnect
            && (state == AcknowledgingDisconnect ==> kind == Disconnect)
  {
  }

  /** A data message is acknowledged if and only if it is a fragment, the client is
      open, and the fragment is of a packet already delivered, or lies within its
      packet and that packet is being collected with the same length and count, or
      is a new one a connected client finds a place for. So no plain message is ever
      acknowledged, although reliable ones ask for it. */
  lemma AnsweredExactly(q: Queues, m: DataMessage, blank: Bytes, state: ClientState, stamped: bool)
    requires m.Fragment? ==> |blank| == m.total && m.offset + |m.data| < 0x1_0000_0000
    requires WellFormed(q.reliable)
    ensures Answered(q, m, blank, state, stamped) <==>
            && stamped && m.Fragment? && (state == Connected || state == DelayingDisconnect)
            && (|| IsOld(q.lastReliable, m.startNumber)
                || (&& m.offset < m.total && m.offset + |m.data| <= m.total && m.number < m.count
                    && var found := FindStart(q.reliable, |q.reliable|, m.startNumber);
                       if found.Some? then
                         |q.reliable[found.value].packet| == m.total && q.reliable[found.value].count == m.count
                       else
                         && state == Connected && Adjust(q.lastReliable, m.startNumber) != q.lastReliable
                         && ReliableSlot(q.reliable, |q.reliable|, Adjust(q.lastReliable, m.startNumber)).Some?))
  {
    hide IsOld, Adjust, ReliableSlot, UnreliableSlot, FindStart, Absorb;
  }

  /** The verdict on every message. A client that is not open fails a reliable one and drops
      the others. A plain message counts as dropped when it was queued, and fails when it
      was not. A fragment is dropped when it does not lie within its packet or contradicts
      the one being collected, and fails when a new packet finds no place. */
  lemma VerdictExactly(q: Queues, m: DataMessage, blank: Bytes, state: ClientState)
    requires m.Fragment? ==> |blank| == m.total && m.offset + |m.data| < 0x1_0000_0000
    requires WellFormed(q.reliable)
    ensures var (v, q') := OnData(q, m, blank, state);
            && (state != Connected && state != DelayingDisconnect ==> q' == q && v == if m.Reliable? then Failed else Discarded)
            && (state == Connected || state == DelayingDisconnect ==>
                  if m.Fragment? then
                    && var fits := m.offset < m.total && m.offset + |m.data| <= m.total && m.number < m.count;
                       var found := FindStart(q.reliable, |q.reliable|, m.startNumber);
                    && (v == Discarded <==>
                          && !IsOld(q.lastReliable, m.startNumber)
                          && (!fits || (found.Some? && (|q.reliable[found.value].packet| != m.total || q.reliable[found.value].count != m.count))))
                    && (v == Failed <==>
                          !IsOld(q.lastReliable, m.startNumber) && fits && found.None?
                          && Enqueue(q, StartMessage(m), blank, m.count, state).None?)
                    && (v != Accepted ==> q' == q)
                  else
                    && v != Accepted && (v == Failed <==> q' == q)
                    && (v == Discarded <==> |q'.reliable| + |q'.unreliable| == |q.reliable| + |q.unreliable| + 1))
  {
    hide IsOld, Adjust, ReliableSlot, UnreliableSlot, FindStart, Absorb;
  }

  /** Takes the next packet off the queues: an unreliable one that belongs to the
      current reliable number, or an unsequenced one; else the next reliable one
      if it is complete. */
  function Receive(q: Queues): (r: (Delivery, Queues)) {
    if q.unreliable != []
       && (q.unreliable[0].kind == UnreliableData ==> q.unreliable[0].reliableNumber == q.lastReliable)
    then
      var e := q.unreliable[0];
      (FromUnreliable(e),
       q.(lastUnreliable := if e.kind == UnreliableData then e.unreliableNumber else q.lastUnreliable,
          unreliable := q.unreliable[1..]))
    else if q.reliable == [] then (Nothing, q)
    else
      var e := q.reliable[0];
      if e.remaining > 0 || e.reliableNumber != (q.lastReliable + 1) % 0x1_0000 then (Nothing, q)
      else
        (FromReliable(e.packet),
         q.(lastReliable := if e.count > 0 then (e.reliableNumber + e.count - 1) % 0x1_0000 else e.reliableNumber,
            reliable := q.reliable[1..]))
  }
}
