/** A delayed close that goes through: a packet in two fragments, sent, received,
    acknowledged, and then the DISCONNECT. */
module DelayedCloseRun {
  import opened Words
  import opened Wrappers
  import opened Messages
  import opened Sequence
  import opened Bitmap
  import opened Incoming
  import opened OutgoingQueues
  import opened Fragments
  import opened Client
  import opened Completeness
  import opened EndToEnd
  import opened Transport
  import T = Transport
  import O = OutboxRuns
  import OutboxProofs
  import opened DelayedClose

  const SIZE := DEFAULT_MTU - HEADER_SIZE - FRAGMENT_SIZE

  /** A client that has just connected. */
  function NewRun(): O.Run {
    O.Run(Outbox(Connected, [], [], [], 0, MAX_WINDOW, 0, 0, 500, 0), 2, multiset{}, multiset{}, [], [])
  }

  ghost function NewTalk(): Talk {
    Talk(Opened(SIZE), NewRun())
  }

  function First(): Copy {
    OfFragment(0, 0)
  }

  function Second(): Copy {
    OfFragment(0, 1)
  }

  /** What happens, the clock standing still. */
  ghost function Events(blank: Bytes, p: Bytes): seq<DelayedClose.Event> {
    [SendPacket(p), Local(O.Datagram(EMPTY_PACKING, DEFAULT_MTU, 0)), Local(O.Datagram(EMPTY_PACKING, DEFAULT_MTU, 0)), Local(O.DelayClose),
     Network(Arrive(First(), blank, Connected)), Network(Arrive(Second(), blank, Connected)), Answer(First(), 500), Answer(Second(), 500)]
  }

  predicate TwoPieces(p: Bytes) {
    SIZE < |p| <= 2 * SIZE
  }

  lemma TwoSpan(p: Bytes)
    requires TwoPieces(p)
    ensures Span(p, SIZE) == 2
    ensures forall f: nat :: f < 2 ==> |Piece(p, SIZE, f)| <= SIZE
    ensures |Piece(p, SIZE, 0)| == SIZE
  {
    PieceInside(p, SIZE, 0);
    PieceInside(p, SIZE, 1);
  }

  // ------------------------------------------------------------ the network

  ghost function Sent(p: Bytes): Sender {
    Sender(SIZE, [p], [], {})
  }

  lemma SentNumbered(p: Bytes)
    requires TwoPieces(p)
    ensures T.Enabled(Opened(SIZE), SendReliable(p)) && T.Effect(Opened(SIZE), SendReliable(p)) == Opened(SIZE).(sender := Sent(p))
    ensures Numbered(Sent(p)) && OnWire(Sent(p), First()) && OnWire(Sent(p), Second()) && Start([p], SIZE, 0) == 1
    ensures NumberOf(Sent(p), First()) == 1 && NumberOf(Sent(p), Second()) == 2
  {
    TwoSpan(p);
    assert [] + [p] == [p];
    assert Start([p], SIZE, 1) == 3;
  }

  /** The receiver with the packet sent and the given queue. */
  ghost function Receiving(p: Bytes, q: Queues, heard: set<Copy>, answered: set<Copy>): System {
    System(Sent(p), Receiver(q, [], [], []), heard, answered)
  }

  /** The first fragment is accepted and opens an entry for the packet. */
  lemma FirstArrives(p: Bytes, blank: Bytes) returns (e: Entry)
    requires TwoPieces(p) && |blank| == |p|
    ensures var x, y := Arrive(First(), blank, Connected), Receiving(p, Queues(0, 0, [], []), {}, {});
            T.Enabled(y, x) && T.Effect(y, x) == Receiving(p, Queues(0, 0, [e], []), {First()}, {First()})
    ensures e.kind == DataFragment && e.reliableNumber == 1 && e.count == 2 && |e.packet| == |p| && WellFormed([e])
  {
    SentNumbered(p);
    TwoSpan(p);
    FragmentSmall(Sent(p), First());
    var q, m := Queues(0, 0, [], []), MessageOf(Sent(p), First());
    assert m.startNumber == 1;
    FirstFragmentQueued(q, m, blank);
    AnsweredExactly(q, m, blank, Connected, true);
    var n := NewEntry(StartMessage(m), blank, m.count);
    e := Absorb(n, m.number, m.offset, m.data);
    assert Insert([], 0, n)[0 := e] == [e];
    hide Answered, Piece, Span;
  }

  /** The second fragment finds it. */
  lemma SecondArrives(p: Bytes, blank: Bytes, e: Entry) returns (q: Queues)
    requires TwoPieces(p) && |blank| == |p|
    requires e.kind == DataFragment && e.reliableNumber == 1 && e.count == 2 && |e.packet| == |p| && WellFormed([e])
    ensures var x, y := Arrive(Second(), blank, Connected), Receiving(p, Queues(0, 0, [e], []), {First()}, {First()});
            T.Enabled(y, x) && T.Effect(y, x) == Receiving(p, q, {First(), Second()}, {First(), Second()})
  {
    SentNumbered(p);
    TwoSpan(p);
    FragmentSmall(Sent(p), Second());
    var q0, m := Queues(0, 0, [e], []), MessageOf(Sent(p), Second());
    assert m.startNumber == 1;
    assert FindStart(q0.reliable, 1, 1) == Some(0);
    AnsweredExactly(q0, m, blank, Connected, true);
    q := OnData(q0, m, blank, Connected).1;
    hide Answered, Piece, Span, OnData;
  }

  // ----------------------------------------------------------- the sender

  predicate Fragmental(m: Outgoing, ch: nat, number: nat) {
    && m.channelId == ch && m.reliableNumber == number && m.kind == DataFragment
    && m.data.Some? && |m.data.value.data| <= SIZE
  }

  lemma Messages2(p: Bytes, ch: nat)
    requires TwoPieces(p)
    ensures T.Enabled(NewTalk().y, SendReliable(p))
    ensures var ms := NextMessages(NewTalk(), ch, p);
            |ms| == 2 && Fragmental(ms[0], ch, 1) && Fragmental(ms[1], ch, 2) && ms[0].Length() == SIZE
  {
    SentNumbered(p);
    TwoSpan(p);
    NextCount(NewTalk(), ch, p);
    NextNamed(NewTalk(), ch, p, 0);
    NextNamed(NewTalk(), ch, p, 1);
    FragmentSmall(Sent(p), First());
    FragmentSmall(Sent(p), Second());
    hide NextMessages, Span, Piece, Start;
  }

  /** A datagram takes the first fragment, and has no room for a second one. */
  lemma DatagramTakes(b: Outbox, ch: nat, number: nat)
    requires b.outgoing != [] && Fragmental(b.outgoing[0], ch, number)
    requires b.inTransit + SIZE <= b.windowSize && (|b.outgoing| == 1 || b.outgoing[0].Length() == SIZE)
    ensures Transmit(b, EMPTY_PACKING, DEFAULT_MTU, 0).0 == MoveOne(b, 0)
  {
    var m := b.outgoing[0];
    var c, q := MoveOne(b, 0), PackOne(EMPTY_PACKING, m);
    assert NextReliable(b, EMPTY_PACKING, DEFAULT_MTU) == Ready;
    assert NextReliable(c, q, DEFAULT_MTU) == if c.outgoing == [] then Empty else Full;
    assert Transmit(c, q, DEFAULT_MTU, 0).0 == c;
    hide Stamp;
  }

  /** Both fragments in flight, and nothing else. */
  predicate BothSent(b: Outbox, ch: nat) {
    && b.outgoing == [] && b.unreliable == [] && |b.sent| == 2
    && b.sent[0].channelId == b.sent[1].channelId == ch && b.sent[0].reliableNumber == 1 && b.sent[1].reliableNumber == 2
  }

  lemma BothGo(o: O.Run, ch: nat) returns (o1: O.Run, o2: O.Run)
    requires var b := o.box;
             && b.state == Connected && b.sent == [] && b.unreliable == [] && b.inTransit == 0 && b.windowSize == MAX_WINDOW
             && |b.outgoing| == 2 && Fragmental(b.outgoing[0], ch, 1) && Fragmental(b.outgoing[1], ch, 2) && b.outgoing[0].Length() == SIZE
    ensures var d := O.Datagram(EMPTY_PACKING, DEFAULT_MTU, 0);
            && O.Enabled(o, d) && o1 == O.Effect(o, d) && O.Enabled(o1, d) && o2 == O.Effect(o1, d)
    ensures o2.box.state == Connected && BothSent(o2.box, ch)
  {
    var b := o.box;
    DatagramTakes(b, ch, 1);
    var b1 := MoveOne(b, 0);
    assert b1.outgoing == [b.outgoing[1]];
    DatagramTakes(b1, ch, 2);
    hide Transmit;
    o1 := o.(box := b1);
    o2 := o.(box := MoveOne(b1, 0));
  }

  /** The first answer leaves one message, the second none, and the close completes. */
  lemma AnswersClose(o: O.Run, ch: nat) returns (o1: O.Run, o2: O.Run)
    requires o.box.state == DelayingDisconnect && BothSent(o.box, ch)
    ensures o1 == O.Effect(o, O.Acknowledged(1, ch, 500)) && O.Open(o1.box)
    ensures o2 == O.Effect(o1, O.Acknowledged(2, ch, 500)) && o2.box.state == Disconnecting
  {
    var b := o.box;
    assert FindSent(b.sent, 1, ch) == Some(0);
    var d := Dispose(b, 1, ch);
    assert d.sent == [b.sent[1]];
    o1 := O.Effect(o, O.Acknowledged(1, ch, 500));
    var h := Heard(d, 500);
    assert |h.sent| == 1 && h.sent[0].channelId == ch && h.sent[0].reliableNumber == 2;
    assert o1.box == h;
    LastAnswerCloses(o1, ch);
    o2 := O.Effect(o1, O.Acknowledged(2, ch, 500));
  }

  lemma LastAnswerCloses(o: O.Run, ch: nat)
    requires o.box.state == DelayingDisconnect && o.box.outgoing == [] && o.box.unreliable == []
    requires |o.box.sent| == 1 && o.box.sent[0].channelId == ch && o.box.sent[0].reliableNumber == 2
    ensures O.Effect(o, O.Acknowledged(2, ch, 500)).box.state == Disconnecting
  {
    var b := o.box;
    assert FindSent(b.sent, 2, ch) == Some(0);
    assert Dispose(b, 2, ch).sent == [];
    assert Renewed([]) == [];
  }

  // ------------------------------------------------------------- together

  lemma Prepend(t: Talk, u: Talk, ch: nat, e: DelayedClose.Event, rest: seq<DelayedClose.Event>)
    requires DelayedClose.Enabled(t, ch, e) && u == DelayedClose.Effect(t, ch, e) && DelayedClose.ValidRun(u, ch, rest)
    ensures DelayedClose.ValidRun(t, ch, [e] + rest) && DelayedClose.After(t, ch, [e] + rest) == DelayedClose.After(u, ch, rest)
  {
    assert ([e] + rest)[1..] == rest;
  }

  lemma SendsFirst(p: Bytes, ch: nat) returns (o: O.Run)
    requires TwoPieces(p)
    ensures DelayedClose.Enabled(NewTalk(), ch, SendPacket(p))
    ensures DelayedClose.Effect(NewTalk(), ch, SendPacket(p)) == Talk(Receiving(p, Queues(0, 0, [], []), {}, {}), o)
    ensures var b := o.box;
             && b.state == Connected && b.sent == [] && b.unreliable == [] && b.inTransit == 0 && b.windowSize == MAX_WINDOW
             && |b.outgoing| == 2 && Fragmental(b.outgoing[0], ch, 1) && Fragmental(b.outgoing[1], ch, 2) && b.outgoing[0].Length() == SIZE
  {
    SentNumbered(p);
    Messages2(p, ch);
    var ms := NextMessages(NewTalk(), ch, p);
    o := O.Effect(NewRun(), O.Send(ms, []));
    assert [] + ms == ms;
    hide NextMessages, OutboxProofs.Keys;
  }

  /** The run: a packet of two fragments on a new connection is sent, the close delayed,
      the fragments arrive and are answered, and with the second answer the DISCONNECT
      is queued. */
  lemma CloseCompletes(p: Bytes, blank: Bytes, ch: nat)
    requires TwoPieces(p) && |blank| == |p|
    ensures Starts(NewTalk(), SIZE) && DelayedClose.ValidRun(NewTalk(), ch, Events(blank, p))
    ensures DelayedClose.After(NewTalk(), ch, Events(blank, p)).out.box.state == Disconnecting
    ensures DelayedClose.After(NewTalk(), ch, Events(blank, p)).y.sender.packets == [p]
  {
    NewTalkStarts();
    hide T.Enabled, T.Effect, O.Effect, O.Enabled, O.Fresh, DelayedClose.ValidRun, DelayedClose.After, DelayedClose.Enabled,
         DelayedClose.Effect, Tail, BothSent, Opened;
    var o1 := SendsFirst(p, ch);
    var o2, o3 := BothGo(o1, ch);
    var o4 := Delays(o3, ch);
    var o5, o6 := AnswersClose(o4, ch);
    var e := FirstArrives(p, blank);
    var q := SecondArrives(p, blank, e);
    SentNumbered(p);
    var y1, y2 := Receiving(p, Queues(0, 0, [], []), {}, {}), Receiving(p, Queues(0, 0, [e], []), {First()}, {First()});
    var y3 := Receiving(p, q, {First(), Second()}, {First(), Second()});
    Last4(o4, o5, o6, y1, y2, y3, p, blank, ch);
    First4(o1, o2, o3, o4, y1, p, blank, ch);
  }

  lemma NewTalkStarts()
    ensures Starts(NewTalk(), SIZE)
  {
  }

  lemma Delays(o: O.Run, ch: nat) returns (o': O.Run)
    requires o.box.state == Connected && BothSent(o.box, ch)
    ensures O.Enabled(o, O.DelayClose) && o' == O.Effect(o, O.DelayClose)
    ensures o'.box.state == DelayingDisconnect && O.Open(o'.box) && BothSent(o'.box, ch)
  {
    o' := O.Effect(o, O.DelayClose);
  }

  ghost function Tail(blank: Bytes): seq<DelayedClose.Event> {
    [Network(Arrive(First(), blank, Connected)), Network(Arrive(Second(), blank, Connected)), Answer(First(), 500), Answer(Second(), 500)]
  }

  lemma Last4(o4: O.Run, o5: O.Run, o6: O.Run, y1: System, y2: System, y3: System, p: Bytes, blank: Bytes, ch: nat)
    requires T.Enabled(y1, Arrive(First(), blank, Connected)) && y2 == T.Effect(y1, Arrive(First(), blank, Connected))
    requires T.Enabled(y2, Arrive(Second(), blank, Connected)) && y3 == T.Effect(y2, Arrive(Second(), blank, Connected))
    requires y3.answered == {First(), Second()} && y3.sender == Sent(p) && Numbered(Sent(p))
    requires OnWire(Sent(p), First()) && OnWire(Sent(p), Second())
    requires NumberOf(Sent(p), First()) == 1 && NumberOf(Sent(p), Second()) == 2
    requires O.Open(o4.box) && o5 == O.Effect(o4, O.Acknowledged(1, ch, 500)) && O.Open(o5.box)
    requires o6 == O.Effect(o5, O.Acknowledged(2, ch, 500))
    ensures DelayedClose.ValidRun(Talk(y1, o4), ch, Tail(blank)) && DelayedClose.After(Talk(y1, o4), ch, Tail(blank)) == Talk(y3, o6)
  {
    var e := Tail(blank);
    hide T.Enabled, T.Effect, O.Effect, NumberOf;
    Prepend(Talk(y3, o5), Talk(y3, o6), ch, e[3], []);
    Prepend(Talk(y3, o4), Talk(y3, o5), ch, e[2], [e[3]]);
    Prepend(Talk(y2, o4), Talk(y3, o4), ch, e[1], [e[2], e[3]]);
    Prepend(Talk(y1, o4), Talk(y2, o4), ch, e[0], [e[1], e[2], e[3]]);
  }

  lemma First4(o1: O.Run, o2: O.Run, o3: O.Run, o4: O.Run, y1: System, p: Bytes, blank: Bytes, ch: nat)
    requires DelayedClose.Enabled(NewTalk(), ch, SendPacket(p)) && DelayedClose.Effect(NewTalk(), ch, SendPacket(p)) == Talk(y1, o1)
    requires var d := O.Datagram(EMPTY_PACKING, DEFAULT_MTU, 0);
             O.Enabled(o1, d) && o2 == O.Effect(o1, d) && O.Enabled(o2, d) && o3 == O.Effect(o2, d)
    requires O.Enabled(o3, O.DelayClose) && o4 == O.Effect(o3, O.DelayClose)
    requires DelayedClose.ValidRun(Talk(y1, o4), ch, Tail(blank))
    ensures DelayedClose.ValidRun(NewTalk(), ch, Events(blank, p))
    ensures DelayedClose.After(NewTalk(), ch, Events(blank, p)) == DelayedClose.After(Talk(y1, o4), ch, Tail(blank))
  {
    var d, t := O.Datagram(EMPTY_PACKING, DEFAULT_MTU, 0), Tail(blank);
    hide T.Enabled, T.Effect, O.Effect, O.Enabled, DelayedClose.ValidRun, DelayedClose.After, DelayedClose.Enabled, DelayedClose.Effect, Tail;
    PrependLocal(y1, o3, o4, ch, O.DelayClose, t);
    PrependLocal(y1, o2, o3, ch, d, [Local(O.DelayClose)] + t);
    PrependLocal(y1, o1, o2, ch, d, [Local(d)] + ([Local(O.DelayClose)] + t));
    Prepend(NewTalk(), Talk(y1, o1), ch, SendPacket(p), [Local(d)] + ([Local(d)] + ([Local(O.DelayClose)] + t)));
    EventsInParts(p, blank);
  }

  lemma PrependLocal(y: System, o: O.Run, o': O.Run, ch: nat, x: O.Event, rest: seq<DelayedClose.Event>)
    requires x.Datagram? || x.DelayClose?
    requires O.Enabled(o, x) && o' == O.Effect(o, x) && DelayedClose.ValidRun(Talk(y, o'), ch, rest)
    ensures DelayedClose.ValidRun(Talk(y, o), ch, [Local(x)] + rest)
    ensures DelayedClose.After(Talk(y, o), ch, [Local(x)] + rest) == DelayedClose.After(Talk(y, o'), ch, rest)
  {
    hide T.Enabled, T.Effect, O.Effect, DelayedClose.ValidRun, DelayedClose.After;
    Prepend(Talk(y, o), Talk(y, o'), ch, Local(x), rest);
  }

  lemma EventsInParts(p: Bytes, blank: Bytes)
    ensures var d := Local(O.Datagram(EMPTY_PACKING, DEFAULT_MTU, 0));
            Events(blank, p) == [SendPacket(p)] + ([d] + ([d] + ([Local(O.DelayClose)] + Tail(blank))))
  {
  }
}
