/** Runs in which the instant 0 of the clock keeps a client from giving up in time. */
module InstantZeroRuns {
  import opened Words
  import opened Wrappers
  import opened Clock
  import opened Bitmap
  import opened Messages
  import opened OutgoingQueues
  import opened Retransmission
  import opened InstantZero

  // ------------------------------------------------ reached from a new client

  /** A ping with the first timeout of a new client. */
  function Ping500(number: uint16, at: uint32, timeout: uint32, timeouts: nat, first: uint32): Outgoing {
    Outgoing(CONTROL_CHANNEL, Ping, number, at, timeout, 16000, None, timeouts, first)
  }

  function NewPing(number: uint16): Outgoing {
    Outgoing(CONTROL_CHANNEL, Ping, number, 0, 0, 0, None, 0, 0)
  }

  /** A connected client with the round trip estimate of a new one. */
  function Box500(outgoing: seq<Outgoing>, sent: seq<Outgoing>, next: uint32, earliest: uint32): Outbox {
    Outbox(Connected, outgoing, sent, [], 0, MAX_WINDOW, next, earliest, 500, 0)
  }

  // 500 and 499 ms before instant 0.
  const EARLY: uint32 := WRAP - 500
  const SOON: uint32 := WRAP - 499

  function SendAt(now: uint32): Event {
    Send(EMPTY_PACKING, DEFAULT_MTU, now)
  }

  function FromNewEvents(): seq<Event> {
    [] + [Queue(NewPing(1)), SendAt(EARLY)] + [Queue(NewPing(2)), SendAt(SOON)] + [Queue(NewPing(3)), SendAt(0)]
    + [Check(0), SendAt(0)] + [Acknowledged(2, CONTROL_CHANNEL, 499, 0), Queue(NewPing(4))] + [SendAt(1), Check(501)] + [SendAt(501)]
  }

  /** What they lead to: the fourth message has waited since instant 1. */
  function FromNewEnd(): Outbox {
    Box500([], [Ping500(1, 0, 1000, 0, 0), Ping500(4, 501, 1000, 1, 1), Ping500(3, 501, 1000, 1, 0)], 1000, 1)
  }

  ghost predicate Goes(b: Outbox, e: Event, b': Outbox, clock: nat, clock': nat) {
    Step(b, e, b', EARLY, clock, clock')
  }

  /** The two ends of a step of a run. */
  ghost predicate Step(b: Outbox, e: Event, b': Outbox, base: uint32, clock: nat, clock': nat) {
    Enabled(b, e, base, clock) && b' == Effect(b, e) && clock' == Tick(e, base, clock)
  }

  lemma TwoSteps(start: Outbox, events: seq<Event>, base: uint32, clock: nat, b: Outbox, c: nat, e: Event, b1: Outbox, c1: nat,
                 e1: Event, b2: Outbox, c2: nat)
    requires Leads(start, events, base, clock, b, c) && Step(b, e, b1, base, c, c1) && Step(b1, e1, b2, base, c1, c2)
    ensures Leads(start, events + [e, e1], base, clock, b2, c2)
  {
    hide Leads, Enabled, Effect, Tick;
    LeadsOn(start, events, base, clock, b, c, e);
    LeadsOn(start, events + [e], base, clock, b1, c1, e1);
    assert events + [e] + [e1] == events + [e, e1];
  }

  /** It takes no more than a client that has just connected: four pings, one of them
      acknowledged, 13 events. A scan at 30001 then lets the connection live although
      the fourth ping has waited for 30 seconds. */
  lemma LateFromNew()
    ensures Calm(Box500([], [], 0, 0), EARLY, 0) && |FromNewEvents()| == 13
    ensures Leads(Box500([], [], 0, 0), FromNewEvents(), EARLY, 0, FromNewEnd(), 1001)
    ensures Scans(FromNewEnd(), 30001, EARLY, 1001) && !Prompt(FromNewEnd(), 30001)
    ensures Overdue(FromNewEnd().sent[1], 30001)
  {
    FromNewRun();
    FromNewScan();
  }

  lemma FromNewScan()
    ensures Scans(FromNewEnd(), 30001, EARLY, 1001) && Overdue(FromNewEnd().sent[1], 30001)
    ensures !CheckTimeouts(FromNewEnd(), 0, 30001).1
  {
    var b := FromNewEnd();
    var b1 := TimeOutOne(b, 0);
    assert b1.sent == b.sent[1..];
    var b2 := TimeOutOne(b1, 0);
    assert b2.sent == b.sent[2..];
    var b3 := TimeOutOne(b2, 0);
    assert b3.sent == [];
    assert CheckTimeouts(b3, 0, 30001) == (b3, false);
    assert CheckTimeouts(b2, 0, 30001) == CheckTimeouts(b3, 0, 30001);
    assert CheckTimeouts(b1, 0, 30001) == CheckTimeouts(b2, 0, 30001);
  }

  lemma FromNewRun()
    ensures Leads(Box500([], [], 0, 0), FromNewEvents(), EARLY, 0, FromNewEnd(), 1001)
  {
    hide Leads, Box500, NewPing, SendAt, First, Second, Third, FirstAgain, FromNewEnd;
    var s3 := Sending();
    var s5 := AtZero(s3);
    AfterZero(s5);
  }

  lemma Sending() returns (events: seq<Event>)
    ensures events == [] + [Queue(NewPing(1)), SendAt(EARLY)] + [Queue(NewPing(2)), SendAt(SOON)] + [Queue(NewPing(3)), SendAt(0)]
    ensures Leads(Box500([], [], 0, 0), events, EARLY, 0, Box500([], [First(), Second(), Third()], 0, 0), 500)
  {
    var f1, f2, f3 := First(), Second(), Third();
    LeadsNowhere();
    hide Leads, Box500, NewPing, SendAt;
    assert [] + [f1] == [f1] && [f1] + [f2] == [f1, f2] && [f1, f2] + [f3] == [f1, f2, f3];
    events := QueuedAndSent([], 1, [], f1, EARLY, 0, 0, 0);
    events := QueuedAndSent(events, 2, [f1], f2, SOON, 0, 0, 0);
    events := QueuedAndSent(events, 3, [f1, f2], f3, 0, 0, 0, 1);
  }

  lemma LeadsTwo(events: seq<Event>, b: Outbox, c: nat, e: Event, b1: Outbox, c1: nat, e1: Event, b2: Outbox, c2: nat)
    requires Leads(Box500([], [], 0, 0), events, EARLY, 0, b, c) && Goes(b, e, b1, c, c1) && Goes(b1, e1, b2, c1, c2)
    ensures Leads(Box500([], [], 0, 0), events + [e, e1], EARLY, 0, b2, c2)
  {
    hide Leads, Step, Box500;
    TwoSteps(Box500([], [], 0, 0), events, EARLY, 0, b, c, e, b1, c1, e1, b2, c2);
  }

  lemma LeadsOne(events: seq<Event>, b: Outbox, c: nat, e: Event, b1: Outbox, c1: nat)
    requires Leads(Box500([], [], 0, 0), events, EARLY, 0, b, c) && Goes(b, e, b1, c, c1)
    ensures Leads(Box500([], [], 0, 0), events + [e], EARLY, 0, b1, c1)
  {
    hide Leads, Enabled, Effect, Tick, Box500;
    LeadsOn(Box500([], [], 0, 0), events, EARLY, 0, b, c, e);
  }

  function First(): Outgoing {
    Ping500(1, EARLY, 500, 0, EARLY)
  }

  function Second(): Outgoing {
    Ping500(2, SOON, 500, 0, SOON)
  }

  function Third(): Outgoing {
    Ping500(3, 0, 500, 0, 0)
  }

  function FirstAgain(): Outgoing {
    Ping500(1, 0, 1000, 0, 0)
  }

  lemma LeadsNowhere()
    ensures Leads(Box500([], [], 0, 0), [], EARLY, 0, Box500([], [], 0, 0), 0)
  {
  }

  /** A new ping is queued and sent. */
  lemma QueuedAndSent(events: seq<Event>, number: uint16, sent: seq<Outgoing>, m: Outgoing, now: uint32, next: uint32, next': uint32,
                      clock: nat) returns (events': seq<Event>)
    requires Leads(Box500([], [], 0, 0), events, EARLY, 0, Box500([], sent, next, 0), clock)
    requires m == Ping500(number, now, 500, 0, now) && clock <= Since(EARLY, now) < OVERFLOW
    requires next' == if sent == [] then Plus(now, 500) else next
    ensures events' == events + [Queue(NewPing(number)), SendAt(now)]
    ensures Leads(Box500([], [], 0, 0), events', EARLY, 0, Box500([], sent + [m], next', 0), Since(EARLY, now))
  {
    var n := NewPing(number);
    Queues(n, sent, next, clock);
    Sends(n, sent, m, now, next, 0, clock);
    events' := events + [Queue(n), SendAt(now)];
    hide Goes, Leads, Box500, SendAt, Since;
    LeadsTwo(events, Box500([], sent, next, 0), clock, Queue(n), Box500([n], sent, next, 0), clock,
             SendAt(now), Box500([], sent + [m], next', 0), Since(EARLY, now));
  }

  lemma AtZero(events: seq<Event>) returns (events': seq<Event>)
    requires Leads(Box500([], [], 0, 0), events, EARLY, 0, Box500([], [First(), Second(), Third()], 0, 0), 500)
    ensures events' == events + [Check(0), SendAt(0)] + [Acknowledged(2, CONTROL_CHANNEL, 499, 0), Queue(NewPing(4))]
    ensures Leads(Box500([], [], 0, 0), events', EARLY, 0, Box500([NewPing(4)], [Third(), FirstAgain()], 500, 0), 500)
  {
    var f1, f2, f3, k1 := First(), Second(), Third(), FirstAgain();
    var g1, h1 := Ping500(1, EARLY, 1000, 1, EARLY), Ping500(1, 0, 1000, 1, EARLY);
    CheckAtZero(f1, f2, f3);
    Sends(g1, [f2, f3], h1, 0, 1, EARLY, 500);
    assert [f2, f3] + [h1] == [f2, f3, h1];
    HearsBack(f2, f3, h1);
    Queues(NewPing(4), [f3, k1], 500, 500);
    var e := events + [Check(0), SendAt(0)];
    events' := e + [Acknowledged(2, CONTROL_CHANNEL, 499, 0), Queue(NewPing(4))];
    hide Goes, Leads, Box500, SendAt, Ping500, NewPing;
    LeadsTwo(events, Box500([], [f1, f2, f3], 0, 0), 500, Check(0), Box500([g1], [f2, f3], 1, EARLY), 500,
             SendAt(0), Box500([], [f2, f3, h1], 1, EARLY), 500);
    LeadsTwo(e, Box500([], [f2, f3, h1], 1, EARLY), 500, Acknowledged(2, CONTROL_CHANNEL, 499, 0), Box500([], [f3, k1], 500, 0), 500,
             Queue(NewPing(4)), Box500([NewPing(4)], [f3, k1], 500, 0), 500);
  }

  function Fourth(): Outgoing {
    Ping500(4, 1, 500, 0, 1)
  }

  lemma FourthSent()
    ensures Goes(Box500([NewPing(4)], [Third(), FirstAgain()], 500, 0), SendAt(1),
                 Box500([], [Third(), FirstAgain(), Fourth()], 500, 0), 500, 501)
  {
    Sends(NewPing(4), [Third(), FirstAgain()], Fourth(), 1, 500, 0, 500);
    assert [Third(), FirstAgain()] + [Fourth()] == [Third(), FirstAgain(), Fourth()];
    hide Goes;
  }

  lemma AfterZero(events: seq<Event>)
    requires Leads(Box500([], [], 0, 0), events, EARLY, 0, Box500([NewPing(4)], [Third(), FirstAgain()], 500, 0), 500)
    ensures Leads(Box500([], [], 0, 0), events + [SendAt(1), Check(501)] + [SendAt(501)], EARLY, 0, FromNewEnd(), 1001)
  {
    var f3, k1, f4 := Third(), FirstAgain(), Fourth();
    var g4, g3 := Ping500(4, 1, 1000, 1, 1), Ping500(3, 0, 1000, 1, 0);
    hide Goes, Leads, Box500, SendAt, NewPing, FromNewEnd;
    FourthSent();
    CheckAt501(f3, k1, f4);
    SendsTwo(g4, g3, k1);
    hide *;
    LeadsTwo(events, Box500([NewPing(4)], [f3, k1], 500, 0), 500, SendAt(1), Box500([], [f3, k1, f4], 500, 0), 501,
             Check(501), Box500([g4, g3], [k1], 1000, 1), 1001);
    LeadsOne(events + [SendAt(1), Check(501)], Box500([g4, g3], [k1], 1000, 1), 1001, SendAt(501), FromNewEnd(), 1001);
  }

  lemma Queues(m: Outgoing, sent: seq<Outgoing>, next: uint32, clock: nat)
    requires m == NewPing(m.reliableNumber)
    ensures Goes(Box500([], sent, next, 0), Queue(m), Box500([m], sent, next, 0), clock, clock)
  {
  }

  /** The only waiting message is sent. */
  lemma Sends(m: Outgoing, sent: seq<Outgoing>, m': Outgoing, now: uint32, next: uint32, earliest: uint32, clock: nat)
    requires m.kind == Ping && m.data.None? && m' == Stamp(m, now, 500, 0) && clock <= Since(EARLY, now) < OVERFLOW
    ensures Goes(Box500([m], sent, next, earliest), SendAt(now),
                 Box500([], sent + [m'], if sent == [] then Plus(now, m'.timeout) else next, earliest), clock, Since(EARLY, now))
  {
    var b := Box500([m], sent, next, earliest);
    var c := MoveOne(b, now);
    assert c.outgoing == [];
    assert Transmit(c, PackOne(EMPTY_PACKING, m), DEFAULT_MTU, now).0 == c;
    assert Transmit(b, EMPTY_PACKING, DEFAULT_MTU, now).0 == c;
    hide Transmit, Stamp, Since;
  }

  lemma CheckAtZero(f1: Outgoing, f2: Outgoing, f3: Outgoing)
    requires f1 == Ping500(1, EARLY, 500, 0, EARLY) && f2 == Ping500(2, SOON, 500, 0, SOON) && f3 == Ping500(3, 0, 500, 0, 0)
    ensures Goes(Box500([], [f1, f2, f3], 0, 0), Check(0), Box500([Ping500(1, EARLY, 1000, 1, EARLY)], [f2, f3], 1, EARLY), 500, 500)
  {
    var b := Box500([], [f1, f2, f3], 0, 0);
    var c := TimeOutOne(b, 0);
    assert c.sent == [f2, f3];
    assert c == Box500([Ping500(1, EARLY, 1000, 1, EARLY)], [f2, f3], 1, EARLY);
    assert CheckTimeouts(c, 2, 0) == (c, false);
    assert CheckTimeouts(c, 0, 0) == CheckTimeouts(c, 1, 0) == CheckTimeouts(c, 2, 0);
    assert CheckTimeouts(b, 0, 0) == CheckTimeouts(c, 0, 0);
  }

  lemma HearsBack(f2: Outgoing, f3: Outgoing, h1: Outgoing)
    requires f2 == Ping500(2, SOON, 500, 0, SOON) && f3 == Ping500(3, 0, 500, 0, 0) && h1 == Ping500(1, 0, 1000, 1, EARLY)
    ensures Goes(Box500([], [f2, f3, h1], 1, EARLY), Acknowledged(2, CONTROL_CHANNEL, 499, 0),
                 Box500([], [f3, Ping500(1, 0, 1000, 0, 0)], 500, 0), 500, 500)
  {
    var k1 := Ping500(1, 0, 1000, 0, 0);
    hide Goes;
    assert f2.reliableNumber == 2 && f2.channelId == CONTROL_CHANNEL && f2.data.None?;
    Disposes(f2, f3, h1);
    HearsAgain(f3, h1);
    hide Ping500;
    HearGoes(Box500([], [f2, f3, h1], 1, EARLY), Box500([], [f3, h1], 500, EARLY), Box500([], [f3, k1], 500, 0));
  }

  lemma HearGoes(b: Outbox, d: Outbox, h: Outbox)
    requires d == Dispose(b, 2, CONTROL_CHANNEL) && h == Heard(d, 499) && b.state == h.state == Connected
    ensures Goes(b, Acknowledged(2, CONTROL_CHANNEL, 499, 0), h, 500, 500)
  {
    hide Dispose, Heard;
  }

  lemma Disposes(f2: Outgoing, f3: Outgoing, h1: Outgoing)
    requires f2.reliableNumber == 2 && f2.channelId == CONTROL_CHANNEL && f2.data.None? && f3 == Ping500(3, 0, 500, 0, 0)
    ensures Dispose(Box500([], [f2, f3, h1], 1, EARLY), 2, CONTROL_CHANNEL) == Box500([], [f3, h1], 500, EARLY)
  {
    var s := [f2, f3, h1];
    assert s[0] == f2 && FindSent(s, 2, CONTROL_CHANNEL) == Some(0);
    hide FindSent;
    assert RemoveAt(s, 0) == [f3, h1];
  }

  lemma HearsAgain(f3: Outgoing, h1: Outgoing)
    requires f3 == Ping500(3, 0, 500, 0, 0) && h1 == Ping500(1, 0, 1000, 1, EARLY)
    ensures Heard(Box500([], [f3, h1], 500, EARLY), 499) == Box500([], [f3, Ping500(1, 0, 1000, 0, 0)], 500, 0)
  {
    assert Renewed([f3, h1]) == [f3, Ping500(1, 0, 1000, 0, 0)] && Renewed([]) == [];
    assert Smoothed(500, 0, 499) == (500, 0);
  }

  lemma CheckAt501(f3: Outgoing, k1: Outgoing, f4: Outgoing)
    requires f3 == Ping500(3, 0, 500, 0, 0) && k1 == Ping500(1, 0, 1000, 0, 0) && f4 == Ping500(4, 1, 500, 0, 1)
    ensures Goes(Box500([], [f3, k1, f4], 500, 0), Check(501),
                 Box500([Ping500(4, 1, 1000, 1, 1), Ping500(3, 0, 1000, 1, 0)], [k1], 1000, 1), 501, 1001)
  {
    var b := Box500([], [f3, k1, f4], 500, 0);
    var c := TimeOutOne(b, 0);
    assert c.sent == [k1, f4];
    var d := TimeOutOne(c, 1);
    assert d.sent == [k1];
    assert d == Box500([Ping500(4, 1, 1000, 1, 1), Ping500(3, 0, 1000, 1, 0)], [k1], 1000, 1);
    assert CheckTimeouts(d, 1, 501) == (d, false);
    assert CheckTimeouts(c, 0, 501) == CheckTimeouts(c, 1, 501) == CheckTimeouts(d, 1, 501);
    assert CheckTimeouts(b, 0, 501) == CheckTimeouts(c, 0, 501);
  }

  lemma SendsTwo(g4: Outgoing, g3: Outgoing, k1: Outgoing)
    requires g4 == Ping500(4, 1, 1000, 1, 1) && g3 == Ping500(3, 0, 1000, 1, 0) && k1 == Ping500(1, 0, 1000, 0, 0)
    ensures Goes(Box500([g4, g3], [k1], 1000, 1), SendAt(501), FromNewEnd(), 1001, 1001)
  {
    var b := Box500([g4, g3], [k1], 1000, 1);
    var c := MoveOne(b, 501);
    assert c.outgoing == [g3];
    var d := MoveOne(c, 501);
    assert d.outgoing == [] && d.sent == FromNewEnd().sent;
    TwoPings(b, c, d, 501);
    hide Transmit;
  }

  /** Two pings go into one datagram. */
  lemma TwoPings(b: Outbox, c: Outbox, d: Outbox, now: uint32)
    requires |b.outgoing| == 2 && c == MoveOne(b, now) && c.outgoing == b.outgoing[1..] && d == MoveOne(c, now)
    requires forall m :: m in b.outgoing ==> m.kind == Ping && m.data.None?
    ensures Transmit(b, EMPTY_PACKING, DEFAULT_MTU, now).0 == d
  {
    var p := PackOne(EMPTY_PACKING, b.outgoing[0]);
    var q := PackOne(p, c.outgoing[0]);
    assert b.outgoing[0] in b.outgoing && b.outgoing[1] in b.outgoing;
    hide Stamp, Plus;
    assert d.outgoing == [];
    assert Transmit(d, q, DEFAULT_MTU, now).0 == d;
    assert Transmit(c, p, DEFAULT_MTU, now).0 == d;
    assert Transmit(b, EMPTY_PACKING, DEFAULT_MTU, now).0 == d;
  }

  // ------------------------------------------- the bound on retransmissions

  function Ping12000(number: uint16, at: uint32, timeout: uint32, timeouts: nat, first: uint32): Outgoing {
    Outgoing(CONTROL_CHANNEL, Ping, number, at, timeout, 384000, None, timeouts, first)
  }

  function Box12000(outgoing: seq<Outgoing>, sent: seq<Outgoing>, next: uint32, earliest: uint32): Outbox {
    Outbox(Connected, outgoing, sent, [], 0, MAX_WINDOW, next, earliest, 12000, 0)
  }

  /** Two pings sent at instant 0, the second with the longer timeout, and a third sent
      after them. */
  function Uneven(): Outbox {
    Box12000([], [Ping12000(1, 0, 12000, 0, 0), Ping12000(2, 0, 30000, 0, 0), Ping12000(3, 1, 12000, 0, 1)], 12000, 0)
  }

  function UnevenEvents(): seq<Event> {
    [] + [Check(12001), SendAt(12001)] + [Check(30000), SendAt(30000)] + [Check(36001)]
  }

  /** The third survives a second timeout 36 seconds after it was first sent, which no
      message survives while Falling holds. */
  lemma UnevenSurvives()
    ensures Calm(Uneven(), 0, 1) && ValidRun(Uneven(), UnevenEvents(), 0, 1) && !Falling(Uneven().sent)
    ensures var m := Ping12000(3, 12001, 48000, 2, 1);
            Retransmitted(After(Uneven(), UnevenEvents()), m, 12000) && !Survivable(12000, 2, Slack(m.firstSent))
  {
    UnevenCalm();
    UnevenFirstHalf();
    UnevenSecondHalf();
    UnevenEnd();
    hide Calm, Leads, Ping12000, Box12000, Uneven, UnevenLast, Retransmitted, Survivable, Falling;
    LeadsMeans(Uneven(), UnevenEvents(), 0, 1, UnevenLast(), 36001);
  }

  /** Half way: the first and the third have timed out and been sent again. */
  function UnevenMiddle(): Outbox {
    Box12000([], [Ping12000(2, 0, 30000, 0, 0), Ping12000(3, 12001, 24000, 1, 1), Ping12000(1, 12001, 24000, 1, 0)], 30000, 1)
  }

  function UnevenLast(): Outbox {
    Box12000([Ping12000(1, 12001, 48000, 2, 0), Ping12000(3, 12001, 48000, 2, 1)], [Ping12000(2, 30000, 60000, 1, 0)], 90000, 12001)
  }

  lemma UnevenFirstHalf()
    ensures Leads(Uneven(), [] + [Check(12001), SendAt(12001)], 0, 1, UnevenMiddle(), 12001)
  {
    var m1, x1, a1 := Ping12000(2, 0, 30000, 0, 0), Ping12000(3, 1, 24000, 1, 1), Ping12000(1, 0, 24000, 1, 0);
    hide Step, Enabled, Effect;
    UnevenFirst(Ping12000(1, 0, 12000, 0, 0), m1, Ping12000(3, 1, 12000, 0, 1), x1, a1);
    UnevenSend(m1, x1, a1, Ping12000(3, 12001, 24000, 1, 1), Ping12000(1, 12001, 24000, 1, 0));
    assert Leads(Uneven(), [], 0, 1, Uneven(), 1);
    hide Leads, Uneven;
    TwoSteps(Uneven(), [], 0, 1, Uneven(), 1, Check(12001), Box12000([x1, a1], [m1], 30000, 1), 12001,
             SendAt(12001), UnevenMiddle(), 12001);
  }

  lemma UnevenSecondHalf()
    requires Leads(Uneven(), [] + [Check(12001), SendAt(12001)], 0, 1, UnevenMiddle(), 12001)
    ensures Leads(Uneven(), UnevenEvents(), 0, 1, UnevenLast(), 36001)
  {
    var x2, a2, m2 := Ping12000(3, 12001, 24000, 1, 1), Ping12000(1, 12001, 24000, 1, 0), Ping12000(2, 0, 60000, 1, 0);
    var m3 := Ping12000(2, 30000, 60000, 1, 0);
    hide Step, Enabled, Effect, Leads, Uneven;
    UnevenSecond(Ping12000(2, 0, 30000, 0, 0), x2, a2, m2);
    UnevenSendBack(x2, a2, m2, m3);
    UnevenThird(x2, a2, m3, Ping12000(3, 12001, 48000, 2, 1), Ping12000(1, 12001, 48000, 2, 0));
    var e := [] + [Check(12001), SendAt(12001)];
    var b := Box12000([], [x2, a2, m3], 36001, 0);
    TwoSteps(Uneven(), e, 0, 1, UnevenMiddle(), 12001, Check(30000), Box12000([m2], [x2, a2], 36001, 0), 30000, SendAt(30000), b, 30000);
    LastStep(Uneven(), e + [Check(30000), SendAt(30000)], 0, 1, b, 30000, Check(36001), UnevenLast(), 36001);
  }

  lemma LastStep(start: Outbox, events: seq<Event>, base: uint32, clock: nat, b: Outbox, c: nat, e: Event, b1: Outbox, c1: nat)
    requires Leads(start, events, base, clock, b, c) && Step(b, e, b1, base, c, c1)
    ensures Leads(start, events + [e], base, clock, b1, c1)
  {
    hide Leads, Enabled, Effect, Tick;
    LeadsOn(start, events, base, clock, b, c, e);
  }

  lemma LeadsMeans(start: Outbox, events: seq<Event>, base: uint32, clock: nat, b: Outbox, now: nat)
    requires Leads(start, events, base, clock, b, now)
    ensures ValidRun(start, events, base, clock) && After(start, events) == b
  {
  }

  lemma UnevenCalm()
    ensures Calm(Uneven(), 0, 1) && !Falling(Uneven().sent)
  {
    var s := Uneven().sent;
    assert s[0].timeout == 12000 && s[1].timeout == 30000;
  }

  lemma UnevenEnd()
    ensures Retransmitted(UnevenLast(), Ping12000(3, 12001, 48000, 2, 1), 12000) && !Survivable(12000, 2, Slack(1))
  {
    var b, x := UnevenLast(), Ping12000(3, 12001, 48000, 2, 1);
    assert Pow2(2) == 4;
    assert b.outgoing[1] == x && x in b.outgoing + b.sent;
  }

  lemma UnevenFirst(a: Outgoing, m1: Outgoing, x: Outgoing, x1: Outgoing, a1: Outgoing)
    requires a == Ping12000(1, 0, 12000, 0, 0) && m1 == Ping12000(2, 0, 30000, 0, 0) && x == Ping12000(3, 1, 12000, 0, 1)
    requires x1 == BackOff(x) && a1 == BackOff(a)
    ensures Step(Uneven(), Check(12001), Box12000([x1, a1], [m1], 30000, 1), 0, 1, 12001)
  {
    var b := Uneven();
    var c := TimeOutOne(b, 0);
    assert c.sent == [m1, x];
    var d := TimeOutOne(c, 1);
    assert d.sent == [m1];
    assert d == Box12000([x1, a1], [m1], 30000, 1);
    assert CheckTimeouts(d, 1, 12001) == (d, false);
    assert CheckTimeouts(c, 0, 12001) == CheckTimeouts(c, 1, 12001) == CheckTimeouts(d, 1, 12001);
    assert CheckTimeouts(b, 0, 12001) == CheckTimeouts(c, 0, 12001);
  }

  lemma UnevenSend(m1: Outgoing, x1: Outgoing, a1: Outgoing, x2: Outgoing, a2: Outgoing)
    requires x1 == Ping12000(3, 1, 24000, 1, 1) && a1 == Ping12000(1, 0, 24000, 1, 0)
    requires x2 == x1.(sentTime := 12001) && a2 == a1.(sentTime := 12001)
    ensures Step(Box12000([x1, a1], [m1], 30000, 1), SendAt(12001), Box12000([], [m1, x2, a2], 30000, 1), 0, 12001, 12001)
  {
    var b := Box12000([x1, a1], [m1], 30000, 1);
    var c := MoveOne(b, 12001);
    assert c.outgoing == [a1];
    var d := MoveOne(c, 12001);
    assert d.outgoing == [] && d.sent == [m1, x2, a2];
    TwoPings(b, c, d, 12001);
    hide Transmit;
  }

  lemma UnevenSecond(m1: Outgoing, x2: Outgoing, a2: Outgoing, m2: Outgoing)
    requires m1 == Ping12000(2, 0, 30000, 0, 0) && m2 == BackOff(m1)
    requires x2 == Ping12000(3, 12001, 24000, 1, 1) && a2 == Ping12000(1, 12001, 24000, 1, 0)
    ensures Step(Box12000([], [m1, x2, a2], 30000, 1), Check(30000), Box12000([m2], [x2, a2], 36001, 0), 0, 12001, 30000)
  {
    var b := Box12000([], [m1, x2, a2], 30000, 1);
    var c := TimeOutOne(b, 0);
    assert c.sent == [x2, a2];
    assert c == Box12000([m2], [x2, a2], 36001, 0);
    assert CheckTimeouts(c, 2, 30000) == (c, false);
    assert CheckTimeouts(c, 0, 30000) == CheckTimeouts(c, 1, 30000) == CheckTimeouts(c, 2, 30000);
    assert CheckTimeouts(b, 0, 30000) == CheckTimeouts(c, 0, 30000);
  }

  lemma UnevenSendBack(x2: Outgoing, a2: Outgoing, m2: Outgoing, m3: Outgoing)
    requires m2 == Ping12000(2, 0, 60000, 1, 0) && m3 == m2.(sentTime := 30000)
    ensures Step(Box12000([m2], [x2, a2], 36001, 0), SendAt(30000), Box12000([], [x2, a2, m3], 36001, 0), 0, 30000, 30000)
  {
    var b := Box12000([m2], [x2, a2], 36001, 0);
    var c := MoveOne(b, 30000);
    assert c.outgoing == [] && c.sent == [x2, a2, m3];
    assert Transmit(c, PackOne(EMPTY_PACKING, m2), DEFAULT_MTU, 30000).0 == c;
    assert Transmit(b, EMPTY_PACKING, DEFAULT_MTU, 30000).0 == c;
  }

  lemma UnevenThird(x2: Outgoing, a2: Outgoing, m3: Outgoing, x3: Outgoing, a3: Outgoing)
    requires x2 == Ping12000(3, 12001, 24000, 1, 1) && a2 == Ping12000(1, 12001, 24000, 1, 0)
    requires m3 == Ping12000(2, 30000, 60000, 1, 0) && x3 == BackOff(x2) && a3 == BackOff(a2)
    ensures Step(Box12000([], [x2, a2, m3], 36001, 0), Check(36001), Box12000([a3, x3], [m3], 90000, 12001), 0, 30000, 36001)
  {
    var b := Box12000([], [x2, a2, m3], 36001, 0);
    var c := TimeOutOne(b, 0);
    assert c.sent == [a2, m3];
    var d := TimeOutOne(c, 0);
    assert d.sent == [m3];
    assert d == Box12000([a3, x3], [m3], 90000, 12001);
    assert CheckTimeouts(d, 1, 36001) == (d, false);
    assert CheckTimeouts(d, 0, 36001) == CheckTimeouts(d, 1, 36001);
    assert CheckTimeouts(c, 0, 36001) == CheckTimeouts(d, 0, 36001);
    assert CheckTimeouts(b, 0, 36001) == CheckTimeouts(c, 0, 36001);
  }
}
