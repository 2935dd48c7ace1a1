/** What a client does with its outgoing reliable messages: transmission into a
    datagram, timeouts, acknowledgement and closing (gekkota_xudp.c and
    gekkota_xudpclient.c), as functions on the queues' contents. */
module OutgoingQueues {
  import opened Words
  import opened Wrappers
  import opened Clock
  import opened Messages

  const CONTROL_CHANNEL := 0xFF
  const TIMEOUT_LIMIT := 32
  const MIN_TIMEOUT := 5000
  const MAX_TIMEOUT := 30000
  const MAX_WINDOW := 32768

  /** An outgoing message. The last two are history, and count from when the peer was
      last heard: how often the message has timed out, and when it was first sent. */
  datatype Outgoing = Outgoing(
    channelId: nat,
    kind: Kind,
    reliableNumber: uint16,
    sentTime: uint32,
    timeout: uint32,
    timeoutLimit: uint32,
    data: Option<DataMessage>,
    timeouts: nat,
    firstSent: uint32)
  {
    /** The bytes of payload: fragmentLength, or nothing without a packet. */
    function Length(): nat {
      if data.Some? then |data.value.data| else 0
    }

    /** Has not been sent yet. */
    predicate New() {
      timeout == 0 && timeouts == 0
    }

    /** What identifies the message through retransmissions. */
    function Key(): Identity {
      Identity(channelId, kind, reliableNumber, data)
    }
  }

  datatype Identity = Identity(channelId: nat, kind: Kind, reliableNumber: uint16, data: Option<DataMessage>)

  datatype Outbox = Outbox(
    state: ClientState,
    outgoing: seq<Outgoing>,
    sent: seq<Outgoing>,
    unreliable: seq<Outgoing>,
    inTransit: uint32,
    windowSize: nat,
    nextTimeout: uint32,
    earliestTimeout: uint32,
    roundTripTime: uint32,
    variance: uint32)

  /** How full the datagram being built is. */
  datatype Packing = Packing(size: nat, messages: nat, buffers: nat)

  const EMPTY_PACKING := Packing(HEADER_SIZE, 0, 1)

  predicate Fits(p: Packing, mtu: nat) {
    p.size <= mtu && p.messages <= MAX_MESSAGES && p.buffers <= MAX_BUFFERS
  }

  // ------------------------------------------------------- the application

  /** gekkota_xudpclient_send as the queues see it: only a connected client takes the
      messages of a packet. */
  function Submit(b: Outbox, reliable: seq<Outgoing>, unreliable: seq<Outgoing>): (r: Outbox) {
    if b.state == Connected
    then b.(outgoing := b.outgoing + reliable, unreliable := b.unreliable + unreliable)
    else b
  }

  // ------------------------------------------------------- transmission

  // Why the transmission loop stops, or that it takes one more message.
  datatype Next = Empty | Full | WindowClosed | Ready

  function NextReliable(b: Outbox, p: Packing, mtu: nat): Next
    requires p.size <= mtu
  {
    if b.outgoing == [] then Empty
    else
      var m := b.outgoing[0];
      if p.messages >= MAX_MESSAGES || p.buffers + 1 >= MAX_BUFFERS || mtu - p.size < Size(m.kind) then Full
      else if m.data.None? then Ready
      else if b.inTransit + m.Length() > b.windowSize then WindowClosed
      else if mtu - p.size < Size(m.kind) + m.Length() then Full
      else Ready
  }

  /** The message as sent at `now`; its first timeout comes from the round trip time. */
  function Stamp(m: Outgoing, now: uint32, roundTripTime: uint32, variance: uint32): (r: Outgoing)
    ensures r.Key() == m.Key() && r.sentTime == now && r.timeouts == m.timeouts
  {
    var first := Plus(roundTripTime, 4 * variance);
    var m' := m.(sentTime := now, firstSent := if m.timeouts == 0 then now else m.firstSent);
    if m.timeout == 0 then m'.(timeout := first, timeoutLimit := TIMEOUT_LIMIT * first % WRAP) else m'
  }

  /** The head of the outgoing queue goes to the end of the sent queue. */
  function MoveOne(b: Outbox, now: uint32): (r: Outbox)
    requires b.outgoing != []
  {
    var m := Stamp(b.outgoing[0], now, b.roundTripTime, b.variance);
    b.(outgoing := b.outgoing[1..],
       sent := b.sent + [m],
       inTransit := Plus(b.inTransit, m.Length()),
       nextTimeout := if b.sent == [] then Plus(now, m.timeout) else b.nextTimeout)
  }

  function PackOne(p: Packing, m: Outgoing): Packing {
    Packing(p.size + Size(m.kind) + m.Length(), p.messages + 1, p.buffers + (if m.data.Some? then 2 else 1))
  }

  /** The whole loop of send_reliable; the boolean asks for another datagram. */
  function Transmit(b: Outbox, p: Packing, mtu: nat, now: uint32): (r: (Outbox, Packing, bool))
    requires p.size <= mtu
    decreases |b.outgoing|
  {
    match NextReliable(b, p, mtu)
    case Empty => (b, p, false)
    case WindowClosed => (b, p, false)
    case Full => (b, p, true)
    case Ready => Transmit(MoveOne(b, now), PackOne(p, b.outgoing[0]), mtu, now)
  }

  // ------------------------------------------------------------ timeouts

  predicate Expired(m: Outgoing, now: uint32) {
    Lag(now, m.sentTime) >= m.timeout
  }

  /** The earliest send time among messages that have timed out since the peer was last heard. */
  function Earliest(b: Outbox, m: Outgoing): uint32 {
    if b.earliestTimeout == 0 || Compare(m.sentTime, b.earliestTimeout) < 0 then m.sentTime else b.earliestTimeout
  }

  predicate GivesUp(earliest: uint32, m: Outgoing, now: uint32) {
    earliest != 0 &&
    (Lag(now, earliest) >= MAX_TIMEOUT || (m.timeout >= m.timeoutLimit && Lag(now, earliest) >= MIN_TIMEOUT))
  }

  function Expiry(m: Outgoing): uint32 {
    Plus(m.sentTime, m.timeout)
  }

  function BackOff(m: Outgoing): (r: Outgoing)
    ensures r.Key() == m.Key()
  {
    m.(timeout := m.timeout * 2 % WRAP, timeouts := m.timeouts + 1)
  }

  /** The i-th sent message has timed out: back to the head of the outgoing queue. */
  function TimeOutOne(b: Outbox, i: nat): (r: Outbox)
    requires i < |b.sent|
  {
    var m, sent := b.sent[i], RemoveAt(b.sent, i);
    b.(outgoing := [BackOff(m)] + b.outgoing,
       sent := sent,
       inTransit := Plus(b.inTransit, 0 - m.Length()),
       nextTimeout := if i == 0 && sent != [] then Expiry(sent[0]) else b.nextTimeout,
       earliestTimeout := Earliest(b, m))
  }

  /** The scan of check_for_timeouts from the i-th sent message on; the boolean
      says that the connection is given up. */
  function CheckTimeouts(b: Outbox, i: nat, now: uint32): (r: (Outbox, bool))
    requires i <= |b.sent|
    decreases |b.sent| - i
  {
    if i == |b.sent| then (b, false)
    else
      var m := b.sent[i];
      if !Expired(m, now) then CheckTimeouts(b, i + 1, now)
      else if GivesUp(Earliest(b, m), m, now) then (b.(earliestTimeout := Earliest(b, m)), true)
      else CheckTimeouts(TimeOutOne(b, i), i, now)
  }

  // ------------------------------------------------------ acknowledgement

  function FindSent(s: seq<Outgoing>, number: uint16, channelId: nat): (r: Option<nat>)
    ensures r.Some? ==> r.value < |s| && s[r.value].reliableNumber == number && s[r.value].channelId == channelId
    ensures r.None? ==> forall m :: m in s ==> !(m.reliableNumber == number && m.channelId == channelId)
    decreases |s|
  {
    if s == [] then None
    else if s[0].reliableNumber == number && s[0].channelId == channelId then Some(0)
    else match FindSent(s[1..], number, channelId) case None => None case Some(i) => Some(i + 1)
  }

  /** dispose_acknowledged_message. */
  function Dispose(b: Outbox, number: uint16, channelId: nat): (r: Outbox) {
    match FindSent(b.sent, number, channelId)
    case None => b
    case Some(i) =>
      var m, sent := b.sent[i], RemoveAt(b.sent, i);
      b.(sent := sent,
         inTransit := Plus(b.inTransit, 0 - m.Length()),
         nextTimeout := if sent != [] then Expiry(sent[0]) else b.nextTimeout)
  }

  // -------------------------------------------------------------- closing

  predicate Drained(b: Outbox) {
    b.outgoing == [] && b.sent == [] && b.unreliable == []
  }

  function DisconnectMessage(number: uint16): Outgoing {
    Outgoing(CONTROL_CHANNEL, Disconnect, number, 0, 0, 0, None, 0, 0)
  }

  /** close_gracefully on a connected unicast client: the queues are cleared and a
      DISCONNECT to be acknowledged is queued. */
  function CloseGracefully(b: Outbox, number: uint16): Outbox
    requires b.state == Connected || b.state == DelayingDisconnect
  {
    b.(state := Disconnecting, outgoing := [DisconnectMessage(number)], sent := [], unreliable := [])
  }

  /** close_later. */
  function CloseLater(b: Outbox, number: uint16): Outbox
    requires b.state == Connected || b.state == DelayingDisconnect
  {
    if Drained(b) then CloseGracefully(b, number) else b.(state := DelayingDisconnect)
  }

  /** The check at the end of send_unreliable and of the acknowledgement handler. */
  function CloseWhenDrained(b: Outbox, number: uint16): Outbox {
    if b.state == DelayingDisconnect && Drained(b) then CloseGracefully(b, number) else b
  }

  /** The round trip time measured by an echo, unless the echo lies in the future. */
  function Measured(echo: uint16, now: uint32): (r: Option<uint32>)
    ensures r.Some? ==> r.value < OVERFLOW
  {
    var sentTime := RebuildSentTime(echo, now);
    if Compare(now, sentTime) < 0 then None else Some(Lag(now, sentTime))
  }

  /** The estimate of round trip time and variance after one more measurement. */
  function Smoothed(roundTripTime: uint32, variance: uint32, measured: uint32): (r: (uint32, uint32)) {
    var v := variance - variance / 4;
    if measured >= roundTripTime then
      var t := roundTripTime + (measured - roundTripTime) / 8;
      (t, v + (measured - t) / 4)
    else
      var t := roundTripTime - (roundTripTime - measured) / 8;
      (t, v + (t - measured) / 4)
  }

  /** The history starts again. */
  function Renewed(s: seq<Outgoing>): (r: seq<Outgoing>)
    ensures |r| == |s|
  {
    seq(|s|, i requires 0 <= i < |s| => s[i].(timeouts := 0, firstSent := s[i].sentTime))
  }

  /** The client has heard from its peer. */
  function Heard(b: Outbox, measured: uint32): Outbox {
    var (t, v) := Smoothed(b.roundTripTime, b.variance, measured);
    b.(earliestTimeout := 0, roundTripTime := t, variance := v, outgoing := Renewed(b.outgoing), sent := Renewed(b.sent))
  }

  /** An acknowledgement for a message on a connected client. */
  function OnAcknowledge(b: Outbox, number: uint16, channelId: nat, measured: uint32, disconnectNumber: uint16): Outbox {
    CloseWhenDrained(Heard(Dispose(b, number, channelId), measured), disconnectNumber)
  }
}
