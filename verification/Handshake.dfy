/** Opening a connection: CONNECT, VALIDATE_CONNECT and its acknowledgement
    (gekkota_xudp.c), between any number of initiators and one responder. */
module Handshake {
  import opened Words
  import opened Wrappers
  import opened Messages

  const CONTROL := 0xFF
  const NOBODY := 0xFFFF

  datatype Endpoint = Endpoint(address: nat, port: uint16)
  datatype Tuning = Tuning(interval: uint32, acceleration: uint32, deceleration: uint32)

  /** What a CONNECT proposes. */
  datatype Offer = Offer(session: nat, endpoint: Endpoint, clientId: uint16, channelCount: nat, compression: nat,
                         tuning: Tuning, mtu: uint16)

  /** Messages with what their datagrams say of sender and addressee. OtherMessage is
      anything else that asks to be acknowledged. */
  datatype Message =
    | ConnectMessage(offer: Offer)
    | ValidateMessage(session: nat, to: uint16, clientId: uint16, channelCount: nat, compression: nat, tuning: Tuning,
                      mtu: uint16)
    | AckMessage(session: nat, to: uint16, address: nat, number: uint16, channelId: nat)
    | OtherMessage(session: nat, to: uint16)

  /** The initiator's record; `owed` says that the acknowledgement of VALIDATE_CONNECT
      is queued. `validated` and `offer` are history. */
  datatype Initiator = Initiator(
    state: ClientState,
    localClientId: uint16,
    remoteClientId: uint16,
    channelCount: nat,
    compression: nat,
    tuning: Tuning,
    mtu: uint16,
    owed: bool,
    validated: bool,
    offer: Offer)

  /** A slot of the responder's client array; its localClientId is its index.
      `awaited` says that its VALIDATE_CONNECT is in the sent queue. */
  datatype Slot = Slot(
    state: ClientState,
    session: nat,
    endpoint: Endpoint,
    remoteClientId: uint16,
    channelCount: nat,
    compression: nat,
    tuning: Tuning,
    mtu: uint16,
    awaited: bool)

  const FREE := Slot(Disconnected, 0, Endpoint(0, 0), NOBODY, 0, 0, Tuning(0, 0, 0), DEFAULT_MTU, false)

  function Clamp(mtu: uint16): (r: uint16)
    ensures MIN_MTU <= r <= MAX_MTU
  {
    if mtu < MIN_MTU then MIN_MTU else if mtu > MAX_MTU then MAX_MTU else mtu
  }

  // ----------------------------------------------------------- the responder

  predicate Taken(c: Slot, o: Offer) {
    c.state != Disconnected && c.endpoint == o.endpoint && c.session == o.session
  }

  function SlotFor(o: Offer): Slot {
    Slot(AcknowledgingConnect, o.session, o.endpoint, o.clientId, o.channelCount, o.compression, o.tuning, Clamp(o.mtu), false)
  }

  function FirstFree(s: seq<Slot>, i: nat): (r: nat)
    requires i <= |s|
    ensures i <= r <= |s| && (r < |s| ==> s[r].state == Disconnected)
    ensures forall k :: i <= k < r ==> s[k].state != Disconnected
    decreases |s| - i
  {
    if i == |s| || s[i].state == Disconnected then i else FirstFree(s, i + 1)
  }

  /** The slot a CONNECT takes, unless it is a repeated one or all are taken. */
  function SlotTaken(s: seq<Slot>, o: Offer): (r: Option<nat>)
    ensures r.Some? ==> r.value < |s| && s[r.value].state == Disconnected
  {
    if exists i :: 0 <= i < |s| && Taken(s[i], o) then None
    else if FirstFree(s, 0) == |s| then None else Some(FirstFree(s, 0))
  }

  function OnConnect(s: seq<Slot>, o: Offer): (r: seq<Slot>)
    ensures |r| == |s|
  {
    match SlotTaken(s, o) case None => s case Some(j) => s[j := SlotFor(o)]
  }

  /** The slot a datagram from `address` reaches. */
  predicate Reaches(s: seq<Slot>, session: nat, to: uint16, address: nat) {
    && to < |s| && s[to].state != Disconnected && s[to].state != Zombie
    && s[to].endpoint.address == address && s[to].session == session
  }

  /** An acknowledgement; `direct` says that the event is delivered at once. The
      VALIDATE_CONNECT is the slot's first control message. */
  function OnAck(s: seq<Slot>, m: Message, direct: bool): (r: seq<Slot>)
    requires m.AckMessage?
    ensures |r| == |s|
  {
    if !Reaches(s, m.session, m.to, m.address) then s
    else
      var c := s[m.to];
      if c.state == AcknowledgingConnect && c.awaited && m.number == 1 && m.channelId == CONTROL
      then s[m.to := c.(state := if direct then Connected else ConnectionPending, awaited := false)]
      else s
  }

  function ValidateFrom(s: seq<Slot>, j: uint16): Message
    requires j < |s|
  {
    var c := s[j];
    ValidateMessage(c.session, c.remoteClientId, j, c.channelCount, c.compression, c.tuning, c.mtu)
  }

  // ----------------------------------------------------------- the initiator

  predicate Matches(i: Initiator, m: Message)
    requires m.ValidateMessage?
  {
    m.channelCount == i.channelCount && m.tuning == i.tuning && m.compression == i.compression
  }

  /** The VALIDATE_CONNECT handler. Only a connecting client answers it; terms that
      do not match end the attempt. */
  function OnValidate(i: Initiator, m: Message, direct: bool): (r: Initiator)
    requires m.ValidateMessage?
  {
    if i.state != Connecting then i
    else if !Matches(i, m) then i.(state := Zombie)
    else
      i.(state := if direct then Connected else ConnectionSucceeded,
         remoteClientId := m.clientId,
         mtu := if Clamp(m.mtu) < i.mtu then Clamp(m.mtu) else i.mtu,
         owed := true,
         validated := true)
  }

  /** The acknowledgement of VALIDATE_CONNECT, the slot's first control message. */
  function AnswerOf(i: Initiator, session: nat): Message {
    AckMessage(session, i.remoteClientId, i.offer.endpoint.address, 1, CONTROL)
  }

  // -------------------------------------------------------------- the system

  // Slot j accepted offer o.
  datatype Acceptance = Acceptance(slot: nat, offer: Offer)

  /** The wire holds everything ever sent. */
  datatype System = System(initiators: map<nat, Initiator>, slots: seq<Slot>, wire: set<Message>, accepted: set<Acceptance>)

  datatype Event =
    | Dial(offer: Offer)
    | ConnectArrives(m: Message)
    | SendValidate(j: uint16)
    | ValidateTimesOut(j: uint16)
    | ValidateArrives(m: Message, direct: bool)
    | SendAnswer(session: nat)
    | SendAck(session: nat, number: uint16, channelId: nat)
    | AckArrives(m: Message, direct: bool)
    | SendOther(j: uint16)
    | DispatchInitiator(session: nat)
    | DispatchSlot(j: uint16)
    | CloseInitiator(session: nat, state: ClientState)
    | CloseSlot(j: uint16, state: ClientState)
    | Retune(session: nat, tuning: Tuning)

  predicate Open(state: ClientState) {
    state == Connected || state == DelayingDisconnect
  }

  /** The states a closing client passes through or ends in; the first two need an
      open connection. */
  predicate MayClose(from: ClientState, to: ClientState) {
    || ((to == DelayingDisconnect || to == AcknowledgingDisconnect) && Open(from))
    || to == Disconnecting || to == Zombie || to == Disconnected
  }

  predicate Alive(state: ClientState) {
    state != Disconnected && state != Zombie
  }

  /** Past the handshake, from the responder's side. */
  predicate Past(c: Slot) {
    c.state != Disconnected && c.state != AcknowledgingConnect
  }

  /** Sessions are unique, every initiator offers the host's MTU, and anything on the
      wire can arrive at any time. */
  predicate Enabled(y: System, e: Event) {
    match e
    case Dial(o) => o.session !in y.initiators && o.mtu == DEFAULT_MTU
    case ConnectArrives(m) => m.ConnectMessage? && m in y.wire
    case SendValidate(j) => j < |y.slots| && y.slots[j].state == AcknowledgingConnect
    case ValidateTimesOut(j) => j < |y.slots|
    case ValidateArrives(m, _) => m.ValidateMessage? && m in y.wire
    case SendAnswer(s) => s in y.initiators && Alive(y.initiators[s].state) && y.initiators[s].owed
    case SendAck(s, number, channelId) =>
      && s in y.initiators && Alive(y.initiators[s].state) && OtherMessage(s, y.initiators[s].localClientId) in y.wire
      && !(number == 1 && channelId == CONTROL)
    case AckArrives(m, _) => m.AckMessage? && m in y.wire
    case SendOther(j) => j < |y.slots| && Past(y.slots[j])
    case DispatchInitiator(s) => s in y.initiators && y.initiators[s].state == ConnectionSucceeded
    case DispatchSlot(j) => j < |y.slots| && y.slots[j].state == ConnectionPending
    case CloseInitiator(s, state) => s in y.initiators && MayClose(y.initiators[s].state, state)
    case CloseSlot(j, state) =>
      && j < |y.slots| && MayClose(y.slots[j].state, state)
      && (state == Disconnected || Past(y.slots[j]))
    case Retune(s, _) => s in y.initiators
  }

  function Effect(y: System, e: Event): (r: System)
    requires Enabled(y, e)
  {
    match e
    case Dial(o) =>
      y.(initiators := y.initiators[o.session := Initiator(Connecting, o.clientId, NOBODY, o.channelCount, o.compression, o.tuning,
                                                           o.mtu, false, false, o)],
         wire := y.wire + {ConnectMessage(o)})
    case ConnectArrives(m) =>
      y.(slots := OnConnect(y.slots, m.offer),
         accepted := match SlotTaken(y.slots, m.offer) case None => y.accepted case Some(j) => y.accepted + {Acceptance(j, m.offer)})
    case SendValidate(j) =>
      y.(wire := y.wire + {ValidateFrom(y.slots, j)}, slots := y.slots[j := y.slots[j].(awaited := true)])
    case ValidateTimesOut(j) => y.(slots := y.slots[j := y.slots[j].(awaited := false)])
    case ValidateArrives(m, direct) =>
      if m.session in y.initiators && y.initiators[m.session].localClientId == m.to && Alive(y.initiators[m.session].state)
      then y.(initiators := y.initiators[m.session := OnValidate(y.initiators[m.session], m, direct)])
      else y
    case SendAnswer(s) =>
      var i := y.initiators[s];
      y.(wire := y.wire + {AnswerOf(i, s)}, initiators := y.initiators[s := i.(owed := false)])
    case SendAck(s, number, channelId) =>
      var i := y.initiators[s];
      y.(wire := y.wire + {AckMessage(s, i.remoteClientId, i.offer.endpoint.address, number, channelId)})
    case AckArrives(m, direct) => y.(slots := OnAck(y.slots, m, direct))
    case SendOther(j) => y.(wire := y.wire + {OtherMessage(y.slots[j].session, y.slots[j].remoteClientId)})
    case DispatchInitiator(s) => y.(initiators := y.initiators[s := y.initiators[s].(state := Connected)])
    case DispatchSlot(j) => y.(slots := y.slots[j := y.slots[j].(state := Connected)])
    case CloseInitiator(s, state) => y.(initiators := y.initiators[s := y.initiators[s].(state := state)])
    case CloseSlot(j, state) =>
      y.(slots := y.slots[j := if state == Disconnected then FREE else y.slots[j].(state := state)])
    case Retune(s, tuning) => y.(initiators := y.initiators[s := y.initiators[s].(tuning := tuning)])
  }

  predicate ValidRun(y: System, events: seq<Event>)
    decreases |events|
  {
    events == [] || (Enabled(y, events[0]) && ValidRun(Effect(y, events[0]), events[1..]))
  }

  function After(y: System, events: seq<Event>): System
    requires ValidRun(y, events)
    decreases |events|
  {
    if events == [] then y else After(Effect(y, events[0]), events[1..])
  }

  // ----------------------------------------------------------- the invariant

  ghost predicate GoodInitiator(y: System, s: nat)
    requires s in y.initiators
  {
    var i := y.initiators[s];
    && i.offer.session == s && i.mtu == i.offer.mtu == DEFAULT_MTU && i.localClientId == i.offer.clientId
    && i.channelCount == i.offer.channelCount && i.compression == i.offer.compression
    && (i.owed ==> i.validated)
    && if i.validated then i.state != Connecting && Acceptance(i.remoteClientId, i.offer) in y.accepted
       else (i.state == Connecting || i.state == Disconnecting || i.state == Zombie || i.state == Disconnected)
  }

  ghost predicate GoodSlot(y: System, j: nat)
    requires j < |y.slots|
  {
    var c := y.slots[j];
    c.state != Disconnected ==>
      && c.session in y.initiators && j < NOBODY
      && var o := y.initiators[c.session].offer;
         && Acceptance(j, o) in y.accepted
         && c.endpoint == o.endpoint && c.remoteClientId == o.clientId && c.channelCount == o.channelCount
         && c.compression == o.compression && c.mtu == Clamp(o.mtu)
         && (Past(c) ==> y.initiators[c.session].validated && y.initiators[c.session].remoteClientId == j)
  }

  ghost predicate GoodMessage(y: System, m: Message) {
    match m
    case ConnectMessage(o) => o.session in y.initiators && y.initiators[o.session].offer == o
    case ValidateMessage(s, to, clientId, channelCount, compression, _, mtu) =>
      && s in y.initiators
      && var o := y.initiators[s].offer;
         && Acceptance(clientId, o) in y.accepted && to == o.clientId && channelCount == o.channelCount
         && compression == o.compression && mtu == Clamp(o.mtu)
    case AckMessage(s, to, _, _, _) => s in y.initiators && y.initiators[s].validated && y.initiators[s].remoteClientId == to
    case OtherMessage(s, _) => s in y.initiators && y.initiators[s].validated
  }

  ghost predicate OneSlotEach(s: seq<Slot>) {
    forall i, j :: 0 <= i < j < |s| && s[i].state != Disconnected && s[j].state != Disconnected ==>
      !(s[i].endpoint == s[j].endpoint && s[i].session == s[j].session)
  }

  ghost predicate Inv(y: System) {
    && |y.slots| <= NOBODY
    && (forall s :: s in y.initiators ==> GoodInitiator(y, s))
    && (forall j: nat :: j < |y.slots| ==> GoodSlot(y, j))
    && (forall m :: m in y.wire ==> GoodMessage(y, m))
    && OneSlotEach(y.slots)
  }

  /** What later states keep of earlier ones. */
  ghost predicate Grows(y: System, z: System) {
    && y.accepted <= z.accepted
    && forall s :: s in y.initiators ==>
         && s in z.initiators && z.initiators[s].offer == y.initiators[s].offer
         && (y.initiators[s].validated ==> z.initiators[s].validated && z.initiators[s].remoteClientId == y.initiators[s].remoteClientId)
  }

  /** No step takes anything back. */
  lemma EffectGrows(y: System, e: Event)
    requires Inv(y) && Enabled(y, e)
    ensures Grows(y, Effect(y, e))
  {
    hide OneSlotEach, GoodSlot, GoodMessage, OnConnect, OnAck, SlotTaken, Clamp;
    if e.ValidateArrives? && e.m.session in y.initiators {
      assert GoodInitiator(y, e.m.session);
    }
  }

  lemma MessageStays(y: System, z: System, m: Message)
    requires GoodMessage(y, m) && Grows(y, z)
    ensures GoodMessage(z, m)
  {
  }

  lemma SlotStays(y: System, z: System, j: nat)
    requires j < |y.slots| && j < |z.slots| && GoodSlot(y, j) && Grows(y, z) && z.slots[j] == y.slots[j]
    ensures GoodSlot(z, j)
  {
  }

  lemma InitiatorStays(y: System, z: System, s: nat)
    requires s in y.initiators && s in z.initiators && GoodInitiator(y, s) && Grows(y, z) && z.initiators[s] == y.initiators[s]
    ensures GoodInitiator(z, s)
  {
  }

  /** What was there and has not changed stays good, so a step has to account only
      for what it changes. */
  lemma StepKeeps(y: System, z: System)
    requires Inv(y) && Grows(y, z) && |z.slots| == |y.slots|
    requires forall s :: s in z.initiators ==> (s in y.initiators && z.initiators[s] == y.initiators[s]) || GoodInitiator(z, s)
    requires forall j: nat :: j < |z.slots| ==> z.slots[j] == y.slots[j] || GoodSlot(z, j)
    requires forall m :: m in z.wire ==> m in y.wire || GoodMessage(z, m)
    requires OneSlotEach(z.slots)
    ensures Inv(z)
  {
    hide GoodInitiator, GoodSlot, GoodMessage, Grows;
    forall s | s in z.initiators
      ensures GoodInitiator(z, s)
    {
      if s in y.initiators && z.initiators[s] == y.initiators[s] {
        InitiatorStays(y, z, s);
      }
    }
    forall j: nat | j < |z.slots|
      ensures GoodSlot(z, j)
    {
      if z.slots[j] == y.slots[j] {
        SlotStays(y, z, j);
      }
    }
    forall m | m in z.wire
      ensures GoodMessage(z, m)
    {
      if m in y.wire {
        MessageStays(y, z, m);
      }
    }
  }

  lemma SameSlotsOne(s: seq<Slot>, j: nat, c: Slot)
    requires OneSlotEach(s) && j < |s|
    requires c.state == Disconnected || (s[j].state != Disconnected && c.endpoint == s[j].endpoint && c.session == s[j].session)
    ensures OneSlotEach(s[j := c])
  {
  }

  /** A CONNECT never takes a second slot for the same attempt. */
  lemma ConnectTakesOne(s: seq<Slot>, o: Offer)
    requires OneSlotEach(s)
    ensures OneSlotEach(OnConnect(s, o))
    ensures (exists i :: 0 <= i < |s| && Taken(s[i], o)) ==> OnConnect(s, o) == s
  {
  }

  lemma ConnectArrivesKeeps(y: System, m: Message)
    requires Inv(y) && m.ConnectMessage? && m in y.wire
    ensures Inv(Effect(y, ConnectArrives(m)))
  {
    var z := Effect(y, ConnectArrives(m));
    EffectGrows(y, ConnectArrives(m));
    ConnectTakesOne(y.slots, m.offer);
    assert GoodMessage(y, m);
    hide OneSlotEach, GoodInitiator, SlotTaken;
    StepKeeps(y, z);
  }

  lemma ValidateArrivesKeeps(y: System, m: Message, direct: bool)
    requires Inv(y) && m.ValidateMessage? && m in y.wire
    ensures Inv(Effect(y, ValidateArrives(m, direct)))
  {
    var z := Effect(y, ValidateArrives(m, direct));
    EffectGrows(y, ValidateArrives(m, direct));
    if z != y {
      assert GoodMessage(y, m) && GoodInitiator(y, m.session);
      assert GoodInitiator(z, m.session);
      hide OneSlotEach, GoodSlot, GoodInitiator, Effect;
      StepKeeps(y, z);
    }
  }

  lemma AckArrivesKeeps(y: System, m: Message, direct: bool)
    requires Inv(y) && m.AckMessage? && m in y.wire
    ensures Inv(Effect(y, AckArrives(m, direct)))
  {
    var z := Effect(y, AckArrives(m, direct));
    EffectGrows(y, AckArrives(m, direct));
    if z.slots != y.slots {
      assert GoodMessage(y, m) && GoodSlot(y, m.to);
      assert GoodSlot(z, m.to);
      SameSlotsOne(y.slots, m.to, z.slots[m.to]);
      hide OneSlotEach, GoodInitiator, GoodSlot, GoodMessage;
      StepKeeps(y, z);
    } else {
      hide OneSlotEach, GoodInitiator, GoodSlot, GoodMessage;
      StepKeeps(y, z);
    }
  }

  lemma SlotEventKeeps(y: System, e: Event)
    requires Inv(y) && Enabled(y, e)
    requires e.SendValidate? || e.ValidateTimesOut? || e.SendOther? || e.DispatchSlot? || e.CloseSlot?
    ensures Inv(Effect(y, e))
  {
    var z := Effect(y, e);
    EffectGrows(y, e);
    assert GoodSlot(y, e.j);
    assert GoodSlot(z, e.j);
    if e.SendValidate? {
      assert GoodMessage(z, ValidateFrom(y.slots, e.j));
    }
    if !e.SendOther? {
      if y.slots[e.j].state == Disconnected {
        assert z.slots[e.j].state == Disconnected;
      }
      SameSlotsOne(y.slots, e.j, z.slots[e.j]);
    }
    hide OneSlotEach, GoodInitiator, GoodSlot;
    StepKeeps(y, z);
  }

  lemma InitiatorEventKeeps(y: System, e: Event)
    requires Inv(y) && Enabled(y, e)
    requires e.Dial? || e.SendAnswer? || e.SendAck? || e.DispatchInitiator? || e.CloseInitiator? || e.Retune?
    ensures Inv(Effect(y, e))
  {
    var z := Effect(y, e);
    EffectGrows(y, e);
    var s := if e.Dial? then e.offer.session else e.session;
    if s in y.initiators {
      assert GoodInitiator(y, s);
    }
    if e.SendAck? {
      var m := OtherMessage(s, y.initiators[s].localClientId);
      assert m in y.wire ==> GoodMessage(y, m);
    }
    assert GoodInitiator(z, s);
    hide OneSlotEach, GoodInitiator, GoodSlot;
    StepKeeps(y, z);
  }

  lemma EventKeeps(y: System, e: Event)
    requires Inv(y) && Enabled(y, e)
    ensures Inv(Effect(y, e))
  {
    hide Inv, Effect;
    match e
    case ConnectArrives(m) => ConnectArrivesKeeps(y, m);
    case ValidateArrives(m, direct) => ValidateArrivesKeeps(y, m, direct);
    case AckArrives(m, direct) => AckArrivesKeeps(y, m, direct);
    case SendValidate(_) => SlotEventKeeps(y, e);
    case ValidateTimesOut(_) => SlotEventKeeps(y, e);
    case SendOther(_) => SlotEventKeeps(y, e);
    case DispatchSlot(_) => SlotEventKeeps(y, e);
    case CloseSlot(_, _) => SlotEventKeeps(y, e);
    case _ => InitiatorEventKeeps(y, e);
  }

  lemma {:induction false} RunKeeps(y: System, events: seq<Event>)
    requires Inv(y) && ValidRun(y, events)
    ensures Inv(After(y, events))
    decreases |events|
  {
    if events != [] {
      hide Inv, Enabled, Effect;
      EventKeeps(y, events[0]);
      RunKeeps(Effect(y, events[0]), events[1..]);
    }
  }

  // ------------------------------------------------------------ the theorems

  function Start(clientCount: nat): System {
    System(map[], seq(clientCount, _ => FREE), {}, {})
  }

  lemma Reachable(clientCount: nat, events: seq<Event>)
    requires clientCount <= NOBODY && ValidRun(Start(clientCount), events)
    ensures Inv(After(Start(clientCount), events))
  {
    assert Inv(Start(clientCount));
    RunKeeps(Start(clientCount), events);
  }

  /** An initiator whose connection has succeeded, or is open: the responder's slot
      that it names accepted this very session with the same number of channels,
      compression level and MTU. */
  lemma InitiatorConnectedSafely(clientCount: nat, events: seq<Event>, session: nat)
    requires clientCount <= NOBODY && ValidRun(Start(clientCount), events)
    requires var y := After(Start(clientCount), events);
             session in y.initiators
             && (y.initiators[session].state == ConnectionSucceeded || Open(y.initiators[session].state))
    ensures var y := After(Start(clientCount), events);
            var i := y.initiators[session];
            exists a :: a in y.accepted && a.slot == i.remoteClientId && a.offer.session == session
                        && a.offer.clientId == i.localClientId
                        && SlotFor(a.offer).channelCount == i.channelCount && SlotFor(a.offer).compression == i.compression
                        && SlotFor(a.offer).mtu == i.mtu
  {
    Reachable(clientCount, events);
    var y := After(Start(clientCount), events);
    assert GoodInitiator(y, session);
    var a := Acceptance(y.initiators[session].remoteClientId, y.initiators[session].offer);
    assert a in y.accepted;
  }

  /** A slot of the responder that has left the handshake belongs to an initiator
      that validated this very session, the two name each other and agree on channels,
      compression level and MTU; and no attempt ever holds two slots. */
  lemma ResponderConnectedSafely(clientCount: nat, events: seq<Event>)
    requires clientCount <= NOBODY && ValidRun(Start(clientCount), events)
    ensures var y := After(Start(clientCount), events);
            && (forall j :: 0 <= j < |y.slots| && Past(y.slots[j]) ==>
                  var c := y.slots[j];
                  && c.session in y.initiators
                  && var i := y.initiators[c.session];
                     i.validated && i.remoteClientId == j && c.remoteClientId == i.localClientId
                     && i.channelCount == c.channelCount && i.compression == c.compression
                     && i.mtu == c.mtu)
            && OneSlotEach(y.slots)
  {
    Reachable(clientCount, events);
    var y := After(Start(clientCount), events);
    forall j | 0 <= j < |y.slots| && Past(y.slots[j])
      ensures GoodSlot(y, j) && GoodInitiator(y, y.slots[j].session)
    {
      assert GoodSlot(y, j);
    }
  }

  ghost predicate Steps(y: System, e: Event, z: System) {
    Enabled(y, e) && z == Effect(y, e)
  }

  /** The responder's half of a handshake, from an offer on the wire ... */
  lemma OfferAnswered(o: Offer) returns (y1: System, y2: System, y3: System)
    requires o.mtu == DEFAULT_MTU
    ensures Steps(Start(1), Dial(o), y1) && Steps(y1, ConnectArrives(ConnectMessage(o)), y2) && Steps(y2, SendValidate(0), y3)
    ensures y3.slots == [SlotFor(o).(awaited := true)] && y3.initiators.Keys == {o.session}
    ensures y3.initiators[o.session].state == Connecting && y3.initiators[o.session].localClientId == o.clientId
    ensures y3.initiators[o.session].offer == o && Matches(y3.initiators[o.session], ValidateFrom([SlotFor(o)], 0))
    ensures ValidateFrom([SlotFor(o)], 0) in y3.wire
  {
    var y0 := Start(1);
    assert y0.slots == [FREE];
    y1 := Effect(y0, Dial(o));
    assert SlotTaken(y1.slots, o) == Some(0) && OnConnect(y1.slots, o) == [SlotFor(o)];
    y2 := Effect(y1, ConnectArrives(ConnectMessage(o)));
    assert y2.slots == [SlotFor(o)];
    y3 := Effect(y2, SendValidate(0));
  }

  /** ... and the rest, from the answer on the wire. */
  lemma AnswerAcknowledged(o: Offer, y3: System) returns (y4: System, y5: System, y6: System)
    requires y3.slots == [SlotFor(o).(awaited := true)] && o.session in y3.initiators
    requires y3.initiators[o.session].state == Connecting && y3.initiators[o.session].localClientId == o.clientId
    requires y3.initiators[o.session].offer == o && Matches(y3.initiators[o.session], ValidateFrom([SlotFor(o)], 0))
    requires ValidateFrom([SlotFor(o)], 0) in y3.wire
    ensures Steps(y3, ValidateArrives(ValidateFrom([SlotFor(o)], 0), true), y4)
    ensures Steps(y4, SendAnswer(o.session), y5)
    ensures Steps(y5, AckArrives(AckMessage(o.session, 0, o.endpoint.address, 1, CONTROL), true), y6)
    ensures |y6.slots| == 1 && y6.slots[0].state == Connected
    ensures |y5.slots| == 1 && y5.slots[0].state == AcknowledgingConnect
    ensures AckMessage(o.session, 0, o.endpoint.address, 1, CONTROL) in y5.wire
    ensures o.session in y5.initiators && y5.initiators[o.session].state == Connected && !y5.initiators[o.session].owed
    ensures o.session in y6.initiators && y6.initiators[o.session].state == Connected
  {
    hide Clamp;
    y4 := Effect(y3, ValidateArrives(ValidateFrom([SlotFor(o)], 0), true));
    y5 := Effect(y4, SendAnswer(o.session));
    assert AckMessage(o.session, 0, o.endpoint.address, 1, CONTROL) in y5.wire;
    y6 := Effect(y5, AckArrives(AckMessage(o.session, 0, o.endpoint.address, 1, CONTROL), true));
  }

  /** The handshake does go through: a fresh offer, carried by these six events,
      leaves both sides connected. */
  lemma HandshakeCompletes(o: Offer)
    requires o.mtu == DEFAULT_MTU
    ensures var v := ValidateFrom([SlotFor(o)], 0);
            var events := [Dial(o), ConnectArrives(ConnectMessage(o)), SendValidate(0), ValidateArrives(v, true),
                           SendAnswer(o.session),
                           AckArrives(AckMessage(o.session, 0, o.endpoint.address, 1, CONTROL), true)];
            && ValidRun(Start(1), events)
            && var y := After(Start(1), events);
               && |y.slots| == 1 && y.slots[0].state == Connected
               && o.session in y.initiators && y.initiators[o.session].state == Connected
  {
    var y1, y2, y3 := OfferAnswered(o);
    var y4, y5, y6 := AnswerAcknowledged(o, y3);
    var v := ValidateFrom([SlotFor(o)], 0);
    var a := AckMessage(o.session, 0, o.endpoint.address, 1, CONTROL);
    hide Effect, Start, Enabled, ValidateFrom, SlotFor;
    var e1, e2, e3, e4, e5, e6 := Dial(o), ConnectArrives(ConnectMessage(o)), SendValidate(0), ValidateArrives(v, true),
                                  SendAnswer(o.session), AckArrives(a, true);
    RunOne(y5, y6, e6, []);
    RunOne(y4, y5, e5, [e6]);
    RunOne(y3, y4, e4, [e5, e6]);
    RunOne(y2, y3, e3, [e4, e5, e6]);
    RunOne(y1, y2, e2, [e3, e4, e5, e6]);
    RunOne(Start(1), y1, e1, [e2, e3, e4, e5, e6]);
  }

  /** A CONNECT takes a slot if and only if no live one has its endpoint and session and
      some slot is free. It takes the first free one, with what it offers and the MTU
      brought into range, and leaves the others alone. */
  lemma ConnectExactly(s: seq<Slot>, o: Offer)
    ensures var t := OnConnect(s, o);
            && (t != s <==>
                  && (forall i :: 0 <= i < |s| && s[i].state != Disconnected ==> !(s[i].endpoint == o.endpoint && s[i].session == o.session))
                  && exists i :: 0 <= i < |s| && s[i].state == Disconnected)
            && (t != s ==> exists j :: TakesSlot(s, t, o, j))
  {
    if OnConnect(s, o) != s {
      assert TakesSlot(s, OnConnect(s, o), o, SlotTaken(s, o).value);
    }
  }

  predicate TakesSlot(s: seq<Slot>, t: seq<Slot>, o: Offer, j: nat) {
    && j < |s| && s[j].state == Disconnected && (forall i :: 0 <= i < j ==> s[i].state != Disconnected)
    && t == s[j := Slot(AcknowledgingConnect, o.session, o.endpoint, o.clientId, o.channelCount, o.compression, o.tuning,
                        if o.mtu < 576 then 576 else if o.mtu > 4096 then 4096 else o.mtu, false)]
  }

  /** A VALIDATE_CONNECT connects a connecting initiator if and only if it agrees with what
      was proposed, in every term; else it ends the attempt. Any other state ignores it. */
  lemma ValidateExactly(i: Initiator, m: Message, direct: bool)
    requires m.ValidateMessage?
    ensures var r := OnValidate(i, m, direct);
            if i.state != Connecting then r == i
            else if m.channelCount == i.channelCount && m.compression == i.compression && m.tuning.interval == i.tuning.interval
                    && m.tuning.acceleration == i.tuning.acceleration && m.tuning.deceleration == i.tuning.deceleration
            then
              && r.state == (if direct then Connected else ConnectionSucceeded) && r.remoteClientId == m.clientId && r.owed
              && r.mtu <= i.mtu && (r.mtu == i.mtu || r.mtu == m.mtu || r.mtu == 576 || r.mtu == 4096)
              && (576 <= m.mtu <= 4096 ==> r.mtu == if m.mtu < i.mtu then m.mtu else i.mtu)
            else r == i.(state := Zombie)
  {
  }

  // --------------------------------------------------------- the single answer

  /** How often the initiator's acknowledgement of VALIDATE_CONNECT is sent. */
  function Answers(events: seq<Event>, s: nat): (r: nat)
    decreases |events|
  {
    if events == [] then 0 else (if events[0] == SendAnswer(s) then 1 else 0) + Answers(events[1..], s)
  }

  /** How often it still can be. */
  function AnswersLeft(y: System, s: nat): nat {
    if s !in y.initiators || y.initiators[s].state == Connecting || y.initiators[s].owed then 1 else 0
  }

  lemma {:induction false} AnsweredOnce(y: System, events: seq<Event>, s: nat)
    requires Inv(y) && ValidRun(y, events)
    ensures Answers(events, s) + AnswersLeft(After(y, events), s) <= AnswersLeft(y, s)
    decreases |events|
  {
    if events != [] {
      EventKeeps(y, events[0]);
      AnswerSpent(y, events[0], s);
      hide Enabled, Effect, AnswersLeft, Inv;
      AnsweredOnce(Effect(y, events[0]), events[1..], s);
    }
  }

  lemma AnswerSpent(y: System, e: Event, s: nat)
    requires Inv(y) && Enabled(y, e)
    ensures AnswersLeft(Effect(y, e), s) + (if e == SendAnswer(s) then 1 else 0) <= AnswersLeft(y, s)
  {
    if s in y.initiators {
      assert GoodInitiator(y, s);
    }
    hide OnConnect, OnAck, SlotTaken, OneSlotEach, GoodSlot, GoodMessage, GoodInitiator, Clamp;
  }

  predicate AnswerArrives(e: Event, s: nat) {
    e.AckArrives? && e.m.AckMessage? && e.m.session == s && e.m.number == 1 && e.m.channelId == CONTROL
  }

  ghost predicate NonePast(y: System, s: nat) {
    forall j :: 0 <= j < |y.slots| && y.slots[j].session == s ==> !Past(y.slots[j])
  }

  lemma StaysInHandshake(y: System, e: Event, s: nat)
    requires NonePast(y, s) && Enabled(y, e) && !AnswerArrives(e, s)
    ensures NonePast(Effect(y, e), s)
  {
    hide OnValidate, Clamp;
  }

  lemma {:induction false} WithoutAnswer(y: System, events: seq<Event>, s: nat)
    requires NonePast(y, s) && ValidRun(y, events) && forall k :: 0 <= k < |events| ==> !AnswerArrives(events[k], s)
    ensures NonePast(After(y, events), s)
    decreases |events|
  {
    if events != [] {
      StaysInHandshake(y, events[0], s);
      hide Enabled, Effect, NonePast;
      WithoutAnswer(Effect(y, events[0]), events[1..], s);
    }
  }

  /** Over all runs: the initiator acknowledges VALIDATE_CONNECT at most once, however
      often that arrives, and no slot leaves the handshake of its session unless this
      acknowledgement arrives. */
  lemma OneAnswer(clientCount: nat, events: seq<Event>, s: nat)
    requires clientCount <= NOBODY && ValidRun(Start(clientCount), events)
    ensures Answers(events, s) <= 1
    ensures (forall k :: 0 <= k < |events| ==> !AnswerArrives(events[k], s)) ==> NonePast(After(Start(clientCount), events), s)
  {
    assert Inv(Start(clientCount));
    AnsweredOnce(Start(clientCount), events, s);
    hide After, ValidRun, Inv;
    if forall k :: 0 <= k < |events| ==> !AnswerArrives(events[k], s) {
      WithoutAnswer(Start(clientCount), events, s);
    }
  }

  /** So a lost answer is final: after these five events the initiator is connected and
      the slot waits, and whatever follows, if the one answer sent does not arrive, no
      other is sent and no slot of the session leaves the handshake. */
  lemma LostAnswer(o: Offer, rest: seq<Event>)
    requires o.mtu == DEFAULT_MTU
    ensures var v := ValidateFrom([SlotFor(o)], 0);
            var events := [Dial(o), ConnectArrives(ConnectMessage(o)), SendValidate(0), ValidateArrives(v, true), SendAnswer(o.session)];
            && ValidRun(Start(1), events)
            && var y := After(Start(1), events);
               && |y.slots| == 1 && y.slots[0].state == AcknowledgingConnect
               && o.session in y.initiators && y.initiators[o.session].state == Connected
               && (ValidRun(y, rest) && (forall k :: 0 <= k < |rest| ==> !AnswerArrives(rest[k], o.session)) ==>
                     Answers(rest, o.session) == 0 && NonePast(After(y, rest), o.session))
  {
    var y := AnswerSent(o);
    hide *;
    if ValidRun(y, rest) && forall k :: 0 <= k < |rest| ==> !AnswerArrives(rest[k], o.session) {
      LostAfter(y, rest, o.session);
    }
  }

  /** The other half: when the answer arrives at a slot in the handshake, the slot leaves
      it if and only if its VALIDATE_CONNECT is in the sent queue. */
  lemma AnswerTakesOut(y: System, m: Message, direct: bool)
    requires Enabled(y, AckArrives(m, direct)) && AnswerArrives(AckArrives(m, direct), m.session)
    requires Reaches(y.slots, m.session, m.to, m.address) && y.slots[m.to].state == AcknowledgingConnect
    ensures var c := Effect(y, AckArrives(m, direct)).slots[m.to];
            && (Past(c) <==> y.slots[m.to].awaited)
            && (Past(c) ==> c.state == if direct then Connected else ConnectionPending)
            && (!Past(c) ==> c == y.slots[m.to])
  {
  }

  /** It may come too late: when VALIDATE_CONNECT has timed out and has not been sent
      again yet, the arriving answer is lost all the same, and whatever follows without
      a further copy of it arriving, the slot stays in the handshake. */
  lemma AnswerTooLate(o: Offer, rest: seq<Event>)
    requires o.mtu == DEFAULT_MTU
    ensures var v, a := ValidateFrom([SlotFor(o)], 0), AckMessage(o.session, 0, o.endpoint.address, 1, CONTROL);
            var events := [Dial(o), ConnectArrives(ConnectMessage(o)), SendValidate(0), ValidateArrives(v, true), SendAnswer(o.session)];
            && ValidRun(Start(1), events)
            && var y := After(Start(1), events);
               && ValidRun(y, [ValidateTimesOut(0), AckArrives(a, true)])
               && var z := After(y, [ValidateTimesOut(0), AckArrives(a, true)]);
                  && |z.slots| == 1 && z.slots[0].state == AcknowledgingConnect
                  && o.session in z.initiators && z.initiators[o.session].state == Connected
                  && (ValidRun(z, rest) && (forall k :: 0 <= k < |rest| ==> !AnswerArrives(rest[k], o.session)) ==>
                        Answers(rest, o.session) == 0 && NonePast(After(z, rest), o.session))
  {
    var y := AnswerSent(o);
    var z := AnswerIgnored(o, y);
    hide *;
    if ValidRun(z, rest) && forall k :: 0 <= k < |rest| ==> !AnswerArrives(rest[k], o.session) {
      LostAfter(z, rest, o.session);
    }
  }

  lemma AnswerIgnored(o: Offer, y: System) returns (z: System)
    requires Inv(y) && NonePast(y, o.session) && AnswersLeft(y, o.session) == 0
    requires |y.slots| == 1 && y.slots[0].state == AcknowledgingConnect
    requires o.session in y.initiators && y.initiators[o.session].state == Connected
    requires AckMessage(o.session, 0, o.endpoint.address, 1, CONTROL) in y.wire
    ensures var a := AckMessage(o.session, 0, o.endpoint.address, 1, CONTROL);
            ValidRun(y, [ValidateTimesOut(0), AckArrives(a, true)]) && z == After(y, [ValidateTimesOut(0), AckArrives(a, true)])
    ensures |z.slots| == 1 && z.slots[0].state == AcknowledgingConnect
    ensures o.session in z.initiators && z.initiators[o.session].state == Connected
    ensures Inv(z) && NonePast(z, o.session) && AnswersLeft(z, o.session) == 0
  {
    var e, f := ValidateTimesOut(0), AckArrives(AckMessage(o.session, 0, o.endpoint.address, 1, CONTROL), true);
    var y1 := Effect(y, e);
    z := Effect(y1, f);
    hide Inv, AnswersLeft;
    EventKeeps(y, e);
    EventKeeps(y1, f);
    AnswerSpent(y, e, o.session);
    AnswerSpent(y1, f, o.session);
    RunOne(y1, z, f, []);
    RunOne(y, y1, e, [f]);
    assert [e] + [f] == [e, f];
  }

  lemma LostAfter(y: System, rest: seq<Event>, s: nat)
    requires Inv(y) && NonePast(y, s) && AnswersLeft(y, s) == 0
    requires ValidRun(y, rest) && forall k :: 0 <= k < |rest| ==> !AnswerArrives(rest[k], s)
    ensures Answers(rest, s) == 0 && NonePast(After(y, rest), s)
  {
    WithoutAnswer(y, rest, s);
    AnsweredOnce(y, rest, s);
  }

  lemma AnswerSent(o: Offer) returns (y: System)
    requires o.mtu == DEFAULT_MTU
    ensures var v := ValidateFrom([SlotFor(o)], 0);
            var events := [Dial(o), ConnectArrives(ConnectMessage(o)), SendValidate(0), ValidateArrives(v, true), SendAnswer(o.session)];
            ValidRun(Start(1), events) && y == After(Start(1), events)
    ensures |y.slots| == 1 && y.slots[0].state == AcknowledgingConnect
    ensures o.session in y.initiators && y.initiators[o.session].state == Connected
    ensures Inv(y) && NonePast(y, o.session) && AnswersLeft(y, o.session) == 0
    ensures AckMessage(o.session, 0, o.endpoint.address, 1, CONTROL) in y.wire
  {
    var y1, y2, y3 := OfferAnswered(o);
    var y4, y5, y6 := AnswerAcknowledged(o, y3);
    var v := ValidateFrom([SlotFor(o)], 0);
    FiveKeep(y1, y2, y3, y4, y5, o, v);
    y := y5;
    hide Effect, Start, Enabled, ValidateFrom, SlotFor, Inv;
    var e1, e2, e3, e4, e5 := Dial(o), ConnectArrives(ConnectMessage(o)), SendValidate(0), ValidateArrives(v, true), SendAnswer(o.session);
    RunOne(y4, y5, e5, []);
    RunOne(y3, y4, e4, [e5]);
    RunOne(y2, y3, e3, [e4, e5]);
    RunOne(y1, y2, e2, [e3, e4, e5]);
    RunOne(Start(1), y1, e1, [e2, e3, e4, e5]);
  }

  lemma FiveKeep(y1: System, y2: System, y3: System, y4: System, y5: System, o: Offer, v: Message)
    requires Steps(Start(1), Dial(o), y1) && Steps(y1, ConnectArrives(ConnectMessage(o)), y2) && Steps(y2, SendValidate(0), y3)
    requires Steps(y3, ValidateArrives(v, true), y4) && Steps(y4, SendAnswer(o.session), y5)
    ensures Inv(y5)
  {
    assert Inv(Start(1));
    hide Inv, Enabled, Effect, Start;
    EventKeeps(Start(1), Dial(o));
    EventKeeps(y1, ConnectArrives(ConnectMessage(o)));
    EventKeeps(y2, SendValidate(0));
    EventKeeps(y3, ValidateArrives(v, true));
    EventKeeps(y4, SendAnswer(o.session));
  }

  lemma RunOne(y: System, z: System, e: Event, rest: seq<Event>)
    requires Enabled(y, e) && z == Effect(y, e) && ValidRun(z, rest)
    ensures ValidRun(y, [e] + rest) && After(y, [e] + rest) == After(z, rest)
  {
    assert ([e] + rest)[1..] == rest;
  }

  // ------------------------------------------------------------ the handlers

  /** The responder's array of clients, changed in place. */
  class Responder {
    const clients: array<Slot>

    constructor (clientCount: nat)
      ensures fresh(clients) && clients[..] == Start(clientCount).slots
    {
      clients := new Slot[clientCount](_ => FREE);
    }

    /** The CONNECT handler: true when the offer is taken up and to be answered. */
    method OnConnectMessage(o: Offer) returns (answered: bool)
      modifies clients
      ensures clients[..] == OnConnect(old(clients[..]), o)
      ensures answered <==> SlotTaken(old(clients[..]), o).Some?
    {
      answered := false;
      var i := 0;
      while i < clients.Length
        invariant 0 <= i <= clients.Length
        invariant forall k :: 0 <= k < i ==> !Taken(clients[k], o)
      {
        if clients[i].state != Disconnected && clients[i].endpoint == o.endpoint && clients[i].session == o.session {
          assert Taken(clients[..][i], o);
          return;
        }
        i := i + 1;
      }
      i := 0;
      while i < clients.Length && clients[i].state != Disconnected
        invariant 0 <= i <= clients.Length
        invariant FirstFree(clients[..], 0) == FirstFree(clients[..], i)
      {
        i := i + 1;
      }
      if i < clients.Length {
        clients[i] := Slot(AcknowledgingConnect, o.session, o.endpoint, o.clientId, o.channelCount, o.compression, o.tuning,
                           Clamp(o.mtu), false);
        answered := true;
      }
    }

    /** The part of the ACKNOWLEDGE handler that completes a handshake. */
    method OnAcknowledgeMessage(m: Message, direct: bool)
      requires m.AckMessage?
      modifies clients
      ensures clients[..] == OnAck(old(clients[..]), m, direct)
    {
      if m.to >= clients.Length {
        return;
      }
      var c := clients[m.to];
      if c.state == Disconnected || c.state == Zombie || c.endpoint.address != m.address || c.session != m.session {
        return;
      }
      if c.state == AcknowledgingConnect && c.awaited && m.number == 1 && m.channelId == CONTROL {
        c := c.(awaited := false);
        clients[m.to] := c.(state := if direct then Connected else ConnectionPending);
      }
    }
  }

  /** The initiator's client record, changed in place. */
  class Dialer {
    var client: Initiator

    constructor (o: Offer)
      requires o.mtu == DEFAULT_MTU
      ensures client == Effect(System(map[], [], {}, {}), Dial(o)).initiators[o.session]
    {
      client := Initiator(Connecting, o.clientId, NOBODY, o.channelCount, o.compression, o.tuning, o.mtu, false, false, o);
    }

    /** The VALIDATE_CONNECT handler; only the first valid one is acknowledged. */
    method OnValidateConnectMessage(m: Message, direct: bool) returns (acknowledged: bool)
      requires m.ValidateMessage?
      modifies this
      ensures client == OnValidate(old(client), m, direct)
      ensures acknowledged <==> old(client).state == Connecting && Matches(old(client), m)
    {
      if client.state != Connecting {
        return false;
      }
      if m.channelCount != client.channelCount || m.tuning != client.tuning || m.compression != client.compression {
        client := client.(state := Zombie);
        return false;
      }
      client := client.(remoteClientId := m.clientId);
      var mtu := m.mtu;
      if mtu < MIN_MTU {
        mtu := MIN_MTU;
      } else if mtu > MAX_MTU {
        mtu := MAX_MTU;
      }
      if mtu < client.mtu {
        client := client.(mtu := mtu);
      }
      client := client.(state := if direct then Connected else ConnectionSucceeded, owed := true, validated := true);
      acknowledged := true;
    }
  }
}
