/** The bound on retransmissions is exact: runs that reach it. */
module Survival {
  import opened Words
  import opened Wrappers
  import opened Clock
  import opened Bitmap
  import opened Messages
  import opened OutgoingQueues
  import opened Retransmission

  /** A lone message, not yet sent: the CONNECT of a client. */
  function LoneBox(r: uint32): Outbox {
    Outbox(Connecting, [Outgoing(CONTROL_CHANNEL, Connect, 1, 0, 0, 0, None, 0, 0)], [], [], 0, MAX_WINDOW, 0, 0, r, 0)
  }

  /** When it is sent for the k-th time, counting from 0. */
  function LoneTime(r: uint32, first: uint32, k: nat): uint32 {
    Plus(first, r * (Pow2(k) - 1))
  }

  function LoneClock(r: uint32, k: nat): int {
    r * (Pow2(k) - 1)
  }

  /** It is sent and times out k times, as soon as it can. */
  function LoneEvents(r: uint32, first: uint32, k: nat): (s: seq<Event>) {
    if k == 0 then []
    else LoneEvents(r, first, k - 1)
         + [Send(EMPTY_PACKING, DEFAULT_MTU, LoneTime(r, first, k - 1)), Check(LoneTime(r, first, k))]
  }

  ghost predicate Lone(b: Outbox, r: uint32, first: uint32, k: nat) {
    && b.state == Connecting && b.sent == [] && b.roundTripTime == r && b.variance == 0 && |b.outgoing| == 1
    && (var m := b.outgoing[0];
        && m.kind == Connect && m.data.None? && m.timeouts == k
        && if k == 0 then m.timeout == 0
           else Doubled(m, r) && m.timeoutLimit == TIMEOUT_LIMIT * r % WRAP && m.firstSent == first)
    && b.earliestTimeout == (if k == 0 || (first == 0 && k == 1) then 0 else if first != 0 then first else LoneTime(r, 0, 1))
  }

  lemma LoneTimes(r: uint32, first: uint32, k: nat)
    requires 1 <= r && r * (Pow2(k + 1) - 1) < OVERFLOW
    ensures Since(first, LoneTime(r, first, k)) == r * (Pow2(k) - 1)
    ensures Since(first, LoneTime(r, first, k + 1)) == r * (Pow2(k + 1) - 1) == r * (Pow2(k) - 1) + r * Pow2(k)
    ensures 0 <= r * (Pow2(k) - 1) <= r * (Pow2(k + 1) - 1)
  {
    PowStep(k);
    DoubleProduct(r, k);
    Distribute(r, Pow2(k), 1);
    Distribute(r, Pow2(k + 1), 1);
    AtLeast(r, Pow2(k) - 1, 0);
    SincePlus(first, r * (Pow2(k) - 1));
    SincePlus(first, r * (Pow2(k + 1) - 1));
  }

  lemma SincePlus(first: uint32, d: nat)
    requires d < WRAP
    ensures Since(first, Plus(first, d)) == d
  {
  }

  /** Once more sent and timed out. */
  lemma LoneStep(b: Outbox, r: uint32, first: uint32, k: nat, now: uint32, later: uint32)
    requires 1 <= r && Lone(b, r, first, k) && Survivable(r, k + 1, Slack(first)) && r * (Pow2(k + 1) - 1) < OVERFLOW
    requires now == LoneTime(r, first, k) && later == LoneTime(r, first, k + 1)
    ensures Since(first, now) == LoneClock(r, k) && Since(first, later) == LoneClock(r, k + 1)
    ensures var b' := Effect(b, Send(EMPTY_PACKING, DEFAULT_MTU, now));
            && Enabled(b, Send(EMPTY_PACKING, DEFAULT_MTU, now), first, Since(first, now)) && |b'.sent| == 1
            && Enabled(b', Check(later), first, Since(first, now))
            && Lone(Effect(b', Check(later)), r, first, k + 1) && Effect(b', Check(later)).sent == []
  {
    LoneTimes(r, first, k);
    LoneSends(b, r, first, k, now);
    var b' := Effect(b, Send(EMPTY_PACKING, DEFAULT_MTU, now));
    LoneSentDue(b', r, first, k, now, later);
    assert b.state == Connecting;
    hide Lone, LoneSent, LoneTime, Pow2, Since, Plus, ScanDue;
    LoneTimesOut(b', r, first, k, now, later);
    hide Survivable, Slack, Transmit, CheckTimeouts;
  }

  lemma LoneSentDue(b: Outbox, r: uint32, first: uint32, k: nat, now: uint32, later: uint32)
    requires 1 <= r && r * (Pow2(k + 1) - 1) < OVERFLOW && LoneSent(b, r, first, k, now)
    requires now == LoneTime(r, first, k) && later == LoneTime(r, first, k + 1)
    ensures |b.sent| == 1 && b.state == Connecting && ScanDue(b, later)
  {
    LoneDue(first, r, k, now, later);
    hide LoneTime, Pow2, Plus;
  }

  lemma LoneDue(first: uint32, r: uint32, k: nat, now: uint32, later: uint32)
    requires 1 <= r && r * (Pow2(k + 1) - 1) < OVERFLOW
    requires now == LoneTime(r, first, k) && later == LoneTime(r, first, k + 1)
    ensures Plus(now, r * Pow2(k)) == later && Compare(later, later) == 0
  {
    LoneTimes(r, first, k);
    PlusPlus(first, r * (Pow2(k) - 1), r * Pow2(k));
    hide Pow2, Plus, Since;
  }

  lemma PlusPlus(a: uint32, b: nat, c: nat)
    requires b + c < OVERFLOW
    ensures Plus(Plus(a, b), c) == Plus(a, b + c)
  {
  }

  lemma LoneSends(b: Outbox, r: uint32, first: uint32, k: nat, now: uint32)
    requires 1 <= r && Lone(b, r, first, k) && now == LoneTime(r, first, k)
    ensures LoneSent(Effect(b, Send(EMPTY_PACKING, DEFAULT_MTU, now)), r, first, k, now)
  {
    hide LoneTime;
    LoneFirst(r, first);
    var b1 := MoveOne(b, now);
    assert b1.outgoing == [] && b1.sent == [b1.sent[0]];
    assert Transmit(b1, PackOne(EMPTY_PACKING, b.outgoing[0]), DEFAULT_MTU, now).0 == b1;
    assert Transmit(b, EMPTY_PACKING, DEFAULT_MTU, now).0 == b1;
    hide Transmit;
    PowOne(0);
    PlusSmall(r, 0);
    hide Pow2;
  }

  /** A lone message in flight since `now`, with k timeouts behind it. */
  ghost predicate LoneSent(b: Outbox, r: uint32, first: uint32, k: nat, now: uint32) {
    && b.state == Connecting && |b.sent| == 1 && b.outgoing == [] && b.roundTripTime == r && b.variance == 0
    && b.nextTimeout == Plus(now, b.sent[0].timeout)
    && (var m := b.sent[0];
        && Doubled(m, r) && m.timeoutLimit == TIMEOUT_LIMIT * r % WRAP && m.timeouts == k && m.sentTime == now && m.kind == Connect && m.data.None?
        && m.firstSent == (if k == 0 then now else first))
    && b.earliestTimeout == (if k == 0 || (first == 0 && k == 1) then 0 else if first != 0 then first else LoneTime(r, 0, 1))
  }

  lemma LoneTimesOut(b: Outbox, r: uint32, first: uint32, k: nat, now: uint32, later: uint32)
    requires 1 <= r && Survivable(r, k + 1, Slack(first)) && r * (Pow2(k + 1) - 1) < OVERFLOW
    requires now == LoneTime(r, first, k) && later == LoneTime(r, first, k + 1) && LoneSent(b, r, first, k, now)
    ensures !CheckTimeouts(b, 0, later).1 && Lone(CheckTimeouts(b, 0, later).0, r, first, k + 1)
    ensures CheckTimeouts(b, 0, later).0.sent == []
  {
    LoneSurvives(b, r, first, k, now, later);
    LoneBackedOff(b, r, first, k, now);
    var b' := TimeOutOne(b, 0);
    hide LoneTime, Pow2, Lag, GivesUp, Expired, TimeOutOne, Lone, LoneSent, Earliest;
    assert b'.sent == [];
    assert CheckTimeouts(b', 0, later) == (b', false);
  }

  lemma LoneSurvives(b: Outbox, r: uint32, first: uint32, k: nat, now: uint32, later: uint32)
    requires 1 <= r && Survivable(r, k + 1, Slack(first)) && r * (Pow2(k + 1) - 1) < OVERFLOW
    requires now == LoneTime(r, first, k) && later == LoneTime(r, first, k + 1) && LoneSent(b, r, first, k, now)
    ensures Expired(b.sent[0], later) && !GivesUp(Earliest(b, b.sent[0]), b.sent[0], later)
  {
    LoneTimes(r, first, k);
    LoneEarliest(b, r, first, k, now);
    Elapsed(first, now, later, r * (Pow2(k + 1) - 1));
    hide Earliest, Lag, LoneTime;
    var e := Earliest(b, b.sent[0]);
    if e != 0 {
      LoneLag(r, first, k, e, later);
      LoneLimit(r, k, Slack(first), Lag(later, e));
      AtLeast(r, Pow2(k + 1) - 1, 1);
      PowStep(k);
    }
    hide Pow2, Since, Survivable;
  }

  lemma LoneBackedOff(b: Outbox, r: uint32, first: uint32, k: nat, now: uint32)
    requires 1 <= r && r * (Pow2(k + 1) - 1) < OVERFLOW && now == LoneTime(r, first, k) && LoneSent(b, r, first, k, now)
    ensures Lone(TimeOutOne(b, 0), r, first, k + 1) && TimeOutOne(b, 0).sent == []
  {
    LoneEarliest(b, r, first, k, now);
    DoubledOnce(b.sent[0], r);
    PowOne(k);
    hide Earliest, LoneTime, Pow2, Doubled;
    var m, b' := b.sent[0], TimeOutOne(b, 0);
    assert RemoveAt(b.sent, 0) == [] && b'.outgoing == [BackOff(m)];
  }

  lemma DoubledOnce(m: Outgoing, r: uint32)
    requires Doubled(m, r) && r * (Pow2(m.timeouts + 1) - 1) < OVERFLOW
    ensures Doubled(BackOff(m), r)
  {
    DoubleProduct(r, m.timeouts);
    Distribute(r, Pow2(m.timeouts + 1), 1);
    hide Pow2;
  }

  /** What is recorded when it times out for the (k + 1)-th time. */
  lemma LoneEarliest(b: Outbox, r: uint32, first: uint32, k: nat, now: uint32)
    requires 1 <= r && r * (Pow2(k + 1) - 1) < OVERFLOW && now == LoneTime(r, first, k) && |b.sent| == 1 && b.sent[0].sentTime == now
    requires b.earliestTimeout == (if k == 0 || (first == 0 && k == 1) then 0 else if first != 0 then first else LoneTime(r, 0, 1))
    ensures Earliest(b, b.sent[0]) ==
            if first == 0 && k == 0 then 0 else if first != 0 then first else LoneTime(r, 0, 1)
    ensures k == 0 ==> now == first
  {
    PowOne(k);
    LoneTimes(r, first, k);
    LoneFirst(r, first);
    hide LoneTime, Since, Minus;
    if k > 0 {
      PowMono(1, k);
      AtLeast(r, Pow2(k) - 1, 1);
      AtLeast(r, Pow2(k + 1) - 1, 1);
      hide Pow2;
      if b.earliestTimeout != 0 {
        LagAndCompareExact(first, now, b.earliestTimeout);
        hide Compare;
      } else {
        LoneFirst(r, 0);
      }
    }
  }

  lemma LoneFirst(r: uint32, first: uint32)
    ensures LoneTime(r, first, 0) == first && LoneTime(r, 0, 1) == r && Since(first, first) == 0 && Since(0, r) == r
  {
    PowOne(0);
  }

  lemma LoneLag(r: uint32, first: uint32, k: nat, e: uint32, later: uint32)
    requires 1 <= r && r * (Pow2(k + 1) - 1) < OVERFLOW && later == LoneTime(r, first, k + 1)
    requires e == if first != 0 then first else LoneTime(r, 0, 1)
    ensures Lag(later, e) == r * (Pow2(k + 1) - Slack(first)) >= 0
  {
    LoneTimes(r, first, k);
    PowOne(0);
    PowStep(k);
    AtLeast(r, Pow2(k + 1) - 1, 1);
    SincePlus(0, r);
    Distribute(r, Pow2(k + 1), 1);
    Distribute(r, Pow2(k + 1), 2);
    Elapsed(first, e, later, r * (Pow2(k + 1) - 1));
  }

  lemma LoneLimit(r: uint32, k: nat, slack: nat, lag: nat)
    requires 1 <= r && 1 <= slack <= 2 && lag == r * (Pow2(k + 1) - slack) && Survivable(r, k + 1, slack)
    ensures lag < MAX_TIMEOUT
    ensures r * Pow2(k) >= TIMEOUT_LIMIT * r % WRAP && r < OVERFLOW ==> lag < MIN_TIMEOUT
  {
    if k + 1 <= 5 {
      PowMono(k, 4);
      assert Pow2(4) == 16;
      AtLeast(r, 16, Pow2(k));
    }
  }

  lemma RunTwo(b: Outbox, events: seq<Event>, x: Event, y: Event, base: uint32, clock: nat)
    requires ValidRun(b, events, base, clock)
    requires FallingRun(b, events)
    requires var a, now := After(b, events), ClockAfter(events, base, clock);
             && Enabled(a, x, base, now) && Enabled(Effect(a, x), y, base, Tick(x, base, now))
             && Falling(Effect(a, x).sent) && Falling(Effect(Effect(a, x), y).sent)
    ensures ValidRun(b, events + [x, y], base, clock) && FallingRun(b, events + [x, y])
    ensures After(b, events + [x, y]) == Effect(Effect(After(b, events), x), y)
    ensures ClockAfter(events + [x, y], base, clock) == Tick(y, base, Tick(x, base, ClockAfter(events, base, clock)))
  {
    var one, two := events + [x], events + [x, y];
    assert one[..|one| - 1] == events && two[..|two| - 1] == one;
    hide Enabled, Effect, Tick, Falling;
  }

  /** The lone message survives k timeouts, for every k that can be survived. */
  lemma {:induction false} LoneRun(r: uint32, first: uint32, k: nat)
    requires 1 <= r < OVERFLOW && Survivable(r, k, Slack(first))
    ensures ValidRun(LoneBox(r), LoneEvents(r, first, k), first, 0) && FallingRun(LoneBox(r), LoneEvents(r, first, k))
    ensures Lone(After(LoneBox(r), LoneEvents(r, first, k)), r, first, k)
    ensures ClockAfter(LoneEvents(r, first, k), first, 0) == LoneClock(r, k)
    decreases k
  {
    PowOne(0);
    if k > 0 {
      SurvivedBefore(r, k - 1, Slack(first));
      LoneRun(r, first, k - 1);
      hide *;
      LoneOnceMore(r, first, k - 1);
    }
  }

  lemma LoneOnceMore(r: uint32, first: uint32, k: nat)
    requires 1 <= r < OVERFLOW && Survivable(r, k + 1, Slack(first))
    requires ValidRun(LoneBox(r), LoneEvents(r, first, k), first, 0) && FallingRun(LoneBox(r), LoneEvents(r, first, k))
    requires Lone(After(LoneBox(r), LoneEvents(r, first, k)), r, first, k)
    requires ClockAfter(LoneEvents(r, first, k), first, 0) == LoneClock(r, k)
    ensures ValidRun(LoneBox(r), LoneEvents(r, first, k + 1), first, 0) && FallingRun(LoneBox(r), LoneEvents(r, first, k + 1))
    ensures Lone(After(LoneBox(r), LoneEvents(r, first, k + 1)), r, first, k + 1)
    ensures ClockAfter(LoneEvents(r, first, k + 1), first, 0) == LoneClock(r, k + 1)
  {
    hide Survivable, Pow2, Lone, LoneBox, After, ValidRun, FallingRun, Falling, ClockAfter, Enabled, Effect, Tick, LoneTime;
    var events, b := LoneEvents(r, first, k), LoneBox(r);
    var x, y := Send(EMPTY_PACKING, DEFAULT_MTU, LoneTime(r, first, k)), Check(LoneTime(r, first, k + 1));
    assert LoneEvents(r, first, k + 1) == events + [x, y];
    LoneInDay(r, k, Slack(first));
    LoneStep(After(b, events), r, first, k, LoneTime(r, first, k), LoneTime(r, first, k + 1));
    LoneTicks(x, y, first);
    FewFalling(Effect(After(b, events), x).sent);
    FewFalling(Effect(Effect(After(b, events), x), y).sent);
    hide *;
    RunTwo(b, events, x, y, first, 0);
  }

  lemma LoneTicks(x: Event, y: Event, base: uint32)
    requires x.Send? && y.Check?
    ensures Tick(x, base, 0) == Since(base, x.now) && Tick(y, base, 0) == Since(base, y.now)
    ensures forall c: nat :: Tick(x, base, c) == Tick(x, base, 0) && Tick(y, base, c) == Tick(y, base, 0)
  {
  }

  lemma FewFalling(s: seq<Outgoing>)
    requires |s| <= 1
    ensures Falling(s)
  {
  }

  lemma LoneInDay(r: nat, k: nat, slack: nat)
    requires 1 <= r < OVERFLOW && 1 <= slack <= 2 && Survivable(r, k + 1, slack)
    ensures r * (Pow2(k + 1) - 1) < OVERFLOW
  {
    PowOne(k);
    Distribute(r, Pow2(k + 1), 1);
    Distribute(r, Pow2(k + 1), 2);
    if k > 0 {
      PowMono(2, k + 1);
      assert Pow2(2) == 4;
      AtLeast(r, Pow2(k + 1) - 2, 2);
    }
  }

  /** Some message, with timeout r when the peer was last heard and first sent since
      at the given instant, survives k timeouts in some run. */
  ghost predicate Survives(r: nat, first: uint32, k: nat) {
    exists b: Outbox, events: seq<Event>, base: uint32, clock: nat, m: Outgoing ::
      SurvivesIn(b, events, base, clock, m, r, first, k)
  }

  ghost predicate SurvivesIn(b: Outbox, events: seq<Event>, base: uint32, clock: nat, m: Outgoing, r: nat, first: uint32, k: nat) {
    && Calm(b, base, clock) && ValidRun(b, events, base, clock) && FallingRun(b, events) && Retransmitted(After(b, events), m, r)
    && m.firstSent == first && m.timeouts == k
  }

  /** The bound is exact: k timeouts are survived in some run if and only if the wait
      r * (2^k - 1), or r * (2^k - 2) for a message first sent at instant 0, does not
      end the connection. */
  lemma SurvivesExactly(r: uint32, first: uint32, k: nat)
    requires 1 <= r < OVERFLOW && k >= 1
    ensures Survives(r, first, k) <==> Survivable(r, k, Slack(first))
  {
    if Survivable(r, k, Slack(first)) {
      LoneRun(r, first, k);
      LoneCalm(r, first);
      var b := After(LoneBox(r), LoneEvents(r, first, k));
      var m := b.outgoing[0];
      PowStep(k);
      AtLeast(r, Pow2(k), 1);
      hide After, ValidRun, FallingRun, Calm, Pow2, LoneEvents, LoneBox;
      assert b.outgoing == [m] && m in b.outgoing + b.sent;
      assert SurvivesIn(LoneBox(r), LoneEvents(r, first, k), first, 0, m, r, first, k);
    }
    if Survives(r, first, k) {
      var b: Outbox, events: seq<Event>, base: uint32, clock: nat, m: Outgoing :|
        SurvivesIn(b, events, base, clock, m, r, first, k);
      BoundedRetransmission(b, events, base, clock, m, r);
    }
  }

  lemma LoneCalm(r: uint32, first: uint32)
    requires 1 <= r < OVERFLOW
    ensures Calm(LoneBox(r), first, 0)
  {
    PlusSmall(r, 0);
  }

  /** When five timeouts are the most: exactly from 80 ms on, or from 81 ms on for a
      message first sent at instant 0. */
  lemma FiveTimeoutsExactly(r: uint32, first: uint32)
    requires 1 <= r < OVERFLOW
    ensures (forall k {:trigger Survives(r, first, k)} :: k > 5 ==> !Survives(r, first, k)) <==> r >= 79 + Slack(first)
  {
    assert Pow2(6) == 64;
    SurvivesExactly(r, first, 6);
    forall k | k > 5
      ensures Survives(r, first, k) ==> Survivable(r, k, Slack(first))
    {
      SurvivesExactly(r, first, k);
    }
    if r >= 79 + Slack(first) {
      forall k | k > 5
        ensures !Survives(r, first, k)
      {
        TooLong(r, k, Slack(first));
      }
    } else {
      SixSurvive(r, Slack(first));
    }
  }

  lemma SixSurvive(r: nat, slack: nat)
    requires 1 <= r < 79 + slack && 1 <= slack <= 2
    ensures Survivable(r, 6, slack)
  {
    assert Pow2(6) == 64;
    AtLeast(64 - slack, 78 + slack, r);
  }

  /** The run in which a message with a first timeout of 80 ms survives six: it is
      first sent at instant 0, and again at 80, 240, 560, 1200 and 2480. */
  lemma SixthTimeoutSurvived()
    ensures var b, events := LoneBox(80), LoneEvents(80, 0, 6);
            && ValidRun(b, events, 0, 0) && |events| == 12
            && events[0] == Send(EMPTY_PACKING, DEFAULT_MTU, 0) && events[11] == Check(5040)
            && |After(b, events).outgoing| == 1 && After(b, events).outgoing[0].timeouts == 6
  {
    SixSurvive(80, 2);
    LoneSurvivor(80, 0, 6);
    hide Lone, LoneBox, LoneEvents, After, ValidRun, FallingRun;
    LoneEventsEnds(80, 0, 6);
    SixthTime();
    LoneFirst(80, 0);
    hide *;
  }

  lemma LoneSurvivor(r: uint32, first: uint32, k: nat)
    requires 1 <= r < OVERFLOW && Survivable(r, k, Slack(first))
    ensures ValidRun(LoneBox(r), LoneEvents(r, first, k), first, 0) && FallingRun(LoneBox(r), LoneEvents(r, first, k))
    ensures var b := After(LoneBox(r), LoneEvents(r, first, k));
            |b.outgoing| == 1 && b.outgoing[0].timeouts == k
  {
    LoneRun(r, first, k);
    hide LoneBox, LoneEvents, After, ValidRun, FallingRun;
  }

  lemma SixthTime()
    ensures LoneTime(80, 0, 6) == 5040
  {
    assert Pow2(6) == 64;
  }

  lemma {:induction false} LoneEventsEnds(r: uint32, first: uint32, k: nat)
    requires k >= 1
    ensures |LoneEvents(r, first, k)| == 2 * k
    ensures LoneEvents(r, first, k)[0] == Send(EMPTY_PACKING, DEFAULT_MTU, LoneTime(r, first, 0))
    ensures LoneEvents(r, first, k)[2 * k - 1] == Check(LoneTime(r, first, k))
    decreases k
  {
    hide LoneTime;
    if k == 1 {
      assert LoneEvents(r, first, 0) == [];
    } else {
      LoneEventsEnds(r, first, k - 1);
    }
  }
}
