/** How often a message can time out in any run at all, whatever is in flight from the
    instant 0 of the clock. */
module Outlasting {
  import opened Words
  import opened Wrappers
  import opened Clock
  import opened Bitmap
  import opened Messages
  import opened OutgoingQueues
  import opened Retransmission
  import opened InstantZero
  import Survival

  /** A timeout that is survived was not long enough to end the connection by itself:
      every recorded time is at least as old as the message's last sending. The first
      timeout of a message sent at instant 0 is not recorded. */
  predicate Bearable(r: nat, k: nat) {
    k <= 1 || r * Pow2(k - 1) < (if k <= 5 then MAX_TIMEOUT else MIN_TIMEOUT)
  }

  ghost predicate Backed(m: Outgoing) {
    if m.timeout == 0 then m.timeouts == 0
    else m.timeout <= LONGEST && exists r :: Doubled(m, r) && Bearable(r, m.timeouts)
  }

  /** Something has been recorded before instant 0, which nothing takes back. */
  predicate Before(earliest: uint32, base: uint32) {
    earliest != 0 && Since(base, earliest) < Since(base, 0)
  }

  ghost predicate QueuedOk(m: Outgoing, earliest: uint32, base: uint32, clock: nat) {
    Backed(m) && (m.timeouts > 0 && clock <= Since(base, 0) ==> Before(earliest, base))
  }

  ghost predicate FlyingOk(m: Outgoing, earliest: uint32, base: uint32, clock: nat) {
    && Backed(m) && m.timeout != 0 && Since(base, m.sentTime) <= clock
    && (m.timeouts > 0 && m.sentTime == 0 ==> Before(earliest, base))
  }

  /** What holds of a client in every run. */
  ghost predicate Steady(b: Outbox, base: uint32, clock: nat) {
    && clock < OVERFLOW && Estimated(b) && (b.earliestTimeout != 0 ==> Since(base, b.earliestTimeout) <= clock)
    && (forall i {:trigger b.outgoing[i]} :: 0 <= i < |b.outgoing| ==> QueuedOk(b.outgoing[i], b.earliestTimeout, base, clock))
    && (forall i {:trigger b.sent[i]} :: 0 <= i < |b.sent| ==> FlyingOk(b.sent[i], b.earliestTimeout, base, clock))
  }

  // -------------------------------------------------------------- the steps

  lemma OnceMore(r: nat, k: nat, lag: nat, limit: nat)
    requires r * Pow2(k) <= lag < MAX_TIMEOUT && limit <= TIMEOUT_LIMIT * r && (r * Pow2(k) < limit || lag < MIN_TIMEOUT)
    ensures Bearable(r, k + 1)
  {
    if k >= 5 {
      PowMono(5, k);
      assert Pow2(5) == 32;
      AtLeast(r, Pow2(k), 32);
    }
  }

  /** The record that a timeout leaves is no younger than the message's last sending,
      and stays before instant 0 if it was. */
  lemma EarliestOlder(b: Outbox, m: Outgoing, base: uint32, clock: nat)
    requires clock < OVERFLOW && Since(base, m.sentTime) <= clock
    requires b.earliestTimeout != 0 ==> Since(base, b.earliestTimeout) <= clock
    ensures var e := Earliest(b, m);
            && (e != 0 ==> Since(base, e) <= Since(base, m.sentTime))
            && (e == 0 ==> m.sentTime == 0 && !Before(b.earliestTimeout, base))
            && (Before(b.earliestTimeout, base) ==> Before(e, base))
            && (e != 0 && Since(base, m.sentTime) < Since(base, 0) ==> Before(e, base))
  {
    if b.earliestTimeout != 0 {
      LagAndCompareExact(base, m.sentTime, b.earliestTimeout);
    }
    hide Compare;
  }

  lemma TimeoutBacked(b: Outbox, m: Outgoing, base: uint32, now: uint32)
    requires Since(base, now) < OVERFLOW && FlyingOk(m, b.earliestTimeout, base, Since(base, now))
    requires b.earliestTimeout != 0 ==> Since(base, b.earliestTimeout) <= Since(base, now)
    requires Expired(m, now) && !GivesUp(Earliest(b, m), m, now)
    ensures Backed(BackOff(m)) && BackOff(m).timeout != 0
    ensures Since(base, m.sentTime) < Since(base, now)
  {
    hide Pow2, Lag, Since, Earliest, Bearable, Before;
    var r :| Doubled(m, r) && Bearable(r, m.timeouts);
    var k, e, clock := m.timeouts, Earliest(b, m), Since(base, now);
    EarliestOlder(b, m, base, clock);
    Elapsed(base, m.sentTime, now, clock);
    DoubleProduct(r, k);
    ShortTimeout(r, k, Lag(now, m.sentTime));
    if e == 0 {
      BearsOne(r);
    } else {
      Elapsed(base, e, now, clock);
      OnceMore(r, k, Lag(now, e), m.timeoutLimit);
    }
    assert Doubled(BackOff(m), r) && Bearable(r, k + 1);
  }

  lemma BearsOne(r: nat)
    ensures Bearable(r, 0) && Bearable(r, 1)
  {
  }

  lemma QueuedStay(s: seq<Outgoing>, e: uint32, e': uint32, base: uint32, clock: nat, clock': nat)
    requires forall i :: 0 <= i < |s| ==> QueuedOk(s[i], e, base, clock)
    requires clock <= clock' && (Before(e, base) ==> Before(e', base))
    ensures forall i :: 0 <= i < |s| ==> QueuedOk(s[i], e', base, clock')
  {
    hide Backed, Before, Since;
  }

  lemma FlyingStay(s: seq<Outgoing>, e: uint32, e': uint32, base: uint32, clock: nat, clock': nat)
    requires forall i :: 0 <= i < |s| ==> FlyingOk(s[i], e, base, clock)
    requires clock <= clock' && (Before(e, base) ==> Before(e', base))
    ensures forall i :: 0 <= i < |s| ==> FlyingOk(s[i], e', base, clock')
  {
    hide Backed, Before, Since;
  }

  lemma TimeGoesOn(b: Outbox, base: uint32, clock: nat, clock': nat)
    requires Steady(b, base, clock) && clock <= clock' < OVERFLOW
    ensures Steady(b, base, clock')
  {
    QueuedStay(b.outgoing, b.earliestTimeout, b.earliestTimeout, base, clock, clock');
    FlyingStay(b.sent, b.earliestTimeout, b.earliestTimeout, base, clock, clock');
    hide QueuedOk, FlyingOk;
  }

  lemma StampBacked(b: Outbox, m: Outgoing, m': Outgoing, base: uint32, now: uint32)
    requires m' == Stamp(m, now, b.roundTripTime, b.variance) && Estimated(b)
    requires QueuedOk(m, b.earliestTimeout, base, Since(base, now))
    ensures FlyingOk(m', b.earliestTimeout, base, Since(base, now))
  {
    PowOne(0);
    PlusSmall(b.roundTripTime, 4 * b.variance);
    hide Since, Before;
    if m.timeout == 0 {
      assert Doubled(m', m'.timeout) && Bearable(m'.timeout, 0);
    } else {
      var r :| Doubled(m, r) && Bearable(r, m.timeouts);
      assert Doubled(m', r);
    }
  }

  lemma MoveOneStaysSteady(b: Outbox, base: uint32, now: uint32)
    requires Steady(b, base, Since(base, now)) && b.outgoing != []
    ensures Steady(MoveOne(b, now), base, Since(base, now))
  {
    var b' := MoveOne(b, now);
    assert QueuedOk(b.outgoing[0], b.earliestTimeout, base, Since(base, now));
    StampBacked(b, b.outgoing[0], b'.sent[|b.sent|], base, now);
    assert forall i :: 0 <= i < |b'.outgoing| ==> b'.outgoing[i] == b.outgoing[i + 1];
    hide QueuedOk, FlyingOk, Stamp, Since;
  }

  lemma {:induction false} TransmitStaysSteady(b: Outbox, p: Packing, mtu: nat, base: uint32, now: uint32)
    requires Steady(b, base, Since(base, now)) && p.size <= mtu
    ensures Steady(Transmit(b, p, mtu, now).0, base, Since(base, now))
    decreases |b.outgoing|
  {
    if NextReliable(b, p, mtu) == Ready {
      MoveOneStaysSteady(b, base, now);
      hide Steady;
      TransmitStaysSteady(MoveOne(b, now), PackOne(p, b.outgoing[0]), mtu, base, now);
    }
  }

  lemma TimeOutOneStaysSteady(b: Outbox, i: nat, base: uint32, now: uint32)
    requires Steady(b, base, Since(base, now)) && i < |b.sent|
    requires Expired(b.sent[i], now) && !GivesUp(Earliest(b, b.sent[i]), b.sent[i], now)
    ensures Steady(TimeOutOne(b, i), base, Since(base, now))
  {
    var m, e, e', clock := b.sent[i], b.earliestTimeout, Earliest(b, b.sent[i]), Since(base, now);
    var rest := RemoveAt(b.sent, i);
    assert FlyingOk(m, e, base, clock);
    TimeoutBacked(b, m, base, now);
    EarliestOlder(b, m, base, clock);
    QueuedStay(b.outgoing, e, e', base, clock, clock);
    FlyingStay(b.sent, e, e', base, clock, clock);
    assert QueuedOk(BackOff(m), e', base, clock);
    hide Since, Earliest, QueuedOk, FlyingOk, Expired, GivesUp, Before;
    assert forall j :: 0 <= j < |rest| ==> rest[j] == b.sent[if j < i then j else j + 1];
  }

  lemma {:induction false} CheckStaysSteady(b: Outbox, i: nat, base: uint32, now: uint32)
    requires Steady(b, base, Since(base, now)) && i <= |b.sent| && !CheckTimeouts(b, i, now).1
    ensures Steady(CheckTimeouts(b, i, now).0, base, Since(base, now))
    decreases |b.sent| - i
  {
    if i < |b.sent| {
      if !Expired(b.sent[i], now) {
        CheckStaysSteady(b, i + 1, base, now);
      } else {
        TimeOutOneStaysSteady(b, i, base, now);
        hide Steady;
        CheckStaysSteady(TimeOutOne(b, i), i, base, now);
      }
    }
  }

  lemma RenewedBacked(m: Outgoing)
    requires Backed(m)
    ensures Backed(m.(timeouts := 0, firstSent := m.sentTime))
  {
    PowOne(0);
    var m' := m.(timeouts := 0, firstSent := m.sentTime);
    if m.timeout != 0 {
      var r :| Doubled(m, r) && Bearable(r, m.timeouts);
      PowStep(m.timeouts);
      AtLeast(r, Pow2(m.timeouts), 1);
      assert Doubled(m', m.timeout) && Bearable(m.timeout, 0);
    }
  }

  lemma HeardStaysSteady(b: Outbox, measured: uint32, base: uint32, clock: nat)
    requires Steady(b, base, clock) && measured < OVERFLOW
    ensures Steady(Heard(b, measured), base, clock)
  {
    var h := Heard(b, measured);
    SmoothedWithinDay(b.roundTripTime, b.variance, measured);
    forall i | 0 <= i < |h.sent|
      ensures FlyingOk(h.sent[i], 0, base, clock)
    {
      assert FlyingOk(b.sent[i], b.earliestTimeout, base, clock);
      RenewedBacked(b.sent[i]);
      hide Backed, Since;
    }
    forall i | 0 <= i < |h.outgoing|
      ensures QueuedOk(h.outgoing[i], 0, base, clock)
    {
      assert QueuedOk(b.outgoing[i], b.earliestTimeout, base, clock);
      RenewedBacked(b.outgoing[i]);
      hide Backed, Since;
    }
    hide Smoothed, QueuedOk, FlyingOk;
  }

  lemma DisposeStaysSteady(b: Outbox, number: uint16, channelId: nat, base: uint32, clock: nat)
    requires Steady(b, base, clock)
    ensures Steady(Dispose(b, number, channelId), base, clock)
  {
    match FindSent(b.sent, number, channelId)
    case None =>
    case Some(i) =>
      var rest := RemoveAt(b.sent, i);
      assert forall j :: 0 <= j < |rest| ==> rest[j] == b.sent[if j < i then j else j + 1];
      hide FindSent, FlyingOk, QueuedOk, Since;
  }

  lemma QueueStaysSteady(b: Outbox, m: Outgoing, base: uint32, clock: nat)
    requires Steady(b, base, clock) && m.New()
    ensures Steady(b.(outgoing := b.outgoing + [m]), base, clock)
  {
    assert QueuedOk(m, b.earliestTimeout, base, clock);
    hide Backed, FlyingOk, QueuedOk, Since;
  }

  lemma CloseStaysSteady(b: Outbox, number: uint16, base: uint32, clock: nat)
    requires Steady(b, base, clock)
    ensures Steady(CloseWhenDrained(b, number), base, clock)
    ensures b.state == Connected || b.state == DelayingDisconnect ==> Steady(CloseGracefully(b, number), base, clock)
  {
    QueueStaysSteady(b.(outgoing := [], sent := []), DisconnectMessage(number), base, clock);
    assert [] + [DisconnectMessage(number)] == [DisconnectMessage(number)];
    hide FlyingOk, QueuedOk;
  }

  lemma EffectStaysSteady(b: Outbox, e: Event, base: uint32, clock: nat)
    requires Steady(b, base, clock) && Enabled(b, e, base, clock)
    ensures Steady(Effect(b, e), base, Tick(e, base, clock))
  {
    match e
    case Queue(m) => QueueStaysSteady(b, m, base, clock);
    case Send(p, mtu, now) =>
      TimeGoesOn(b, base, clock, Since(base, now));
      TransmitStaysSteady(b, p, mtu, base, now);
    case Check(now) =>
      TimeGoesOn(b, base, clock, Since(base, now));
      CheckStaysSteady(b, 0, base, now);
    case Acknowledged(number, channelId, measured, disconnectNumber) =>
      DisposeStaysSteady(b, number, channelId, base, clock);
      HeardStaysSteady(Dispose(b, number, channelId), measured, base, clock);
      CloseStaysSteady(Heard(Dispose(b, number, channelId), measured), disconnectNumber, base, clock);
      hide Dispose, Heard;
    case Close(number) => CloseStaysSteady(b, number, base, clock);
    case Other(_, _, _) =>
      hide FlyingOk, QueuedOk;
  }

  lemma {:induction false} RunStaysSteady(b: Outbox, events: seq<Event>, base: uint32, clock: nat)
    requires Steady(b, base, clock) && ValidRun(b, events, base, clock)
    ensures Steady(After(b, events), base, ClockAfter(events, base, clock))
    decreases |events|
  {
    if events != [] {
      var before := events[..|events| - 1];
      hide Steady, Enabled, Effect;
      RunStaysSteady(b, before, base, clock);
      EffectStaysSteady(After(b, before), events[|events| - 1], base, ClockAfter(before, base, clock));
    }
  }

  lemma CalmIsSteady(b: Outbox, base: uint32, clock: nat)
    requires Calm(b, base, clock)
    ensures Steady(b, base, clock)
  {
    forall i | 0 <= i < |b.sent|
      ensures FlyingOk(b.sent[i], b.earliestTimeout, base, clock)
    {
      assert InFlight(b.sent[i], base, clock);
      RestedBacked(b.sent[i]);
      hide Backed, Since;
    }
    forall i | 0 <= i < |b.outgoing|
      ensures QueuedOk(b.outgoing[i], b.earliestTimeout, base, clock)
    {
      assert Rested(b.outgoing[i]);
      RestedBacked(b.outgoing[i]);
      hide Backed, Since;
    }
    hide Ordered, FlyingOk, QueuedOk, InFlight;
  }

  lemma RestedBacked(m: Outgoing)
    requires Rested(m)
    ensures Backed(m)
  {
    PowOne(0);
    if m.timeout != 0 {
      assert Doubled(m, m.timeout) && Bearable(m.timeout, 0);
    }
  }

  // -------------------------------------------------------------- the bound

  /** The numbers: never a fourteenth timeout, nor a seventh from 79 ms on. */
  lemma BearableFew(r: nat, k: nat)
    requires r >= 1 && Bearable(r, k)
    ensures k <= 13 && (r >= 79 ==> k <= 6)
  {
    assert Pow2(6) == 64 && Pow2(7) == 128 && Pow2(13) == 8192;
    if k > 13 {
      PowMono(13, k - 1);
      Product(r, Pow2(k - 1), 1, 8192);
    } else if k > 6 && r >= 79 {
      PowMono(6, k - 1);
      Product(r, Pow2(k - 1), 79, 64);
    }
    hide Pow2;
  }

  /** Over all runs, whatever is in flight from instant 0: a message still being
      retransmitted has timed out, since the peer was last heard, only as often as is
      bearable: at most 13 times, and at most 6 when its timeout was 79 ms or more. */
  lemma AlwaysBounded(b: Outbox, events: seq<Event>, base: uint32, clock: nat, m: Outgoing, r: nat)
    requires Calm(b, base, clock) && ValidRun(b, events, base, clock) && Retransmitted(After(b, events), m, r)
    ensures Bearable(r, m.timeouts)
    ensures m.timeouts <= 13 && (r >= 79 ==> m.timeouts <= 6)
  {
    CalmIsSteady(b, base, clock);
    RunStaysSteady(b, events, base, clock);
    var a, now := After(b, events), ClockAfter(events, base, clock);
    hide After, ValidRun, ClockAfter, Since, Calm;
    MemberBacked(a, m, base, now);
    var q :| Doubled(m, q) && Bearable(q, m.timeouts);
    Cancel(q, r, m.timeouts);
    BearableFew(r, m.timeouts);
  }

  lemma MemberBacked(b: Outbox, m: Outgoing, base: uint32, clock: nat)
    requires Steady(b, base, clock) && m in b.outgoing + b.sent
    ensures Backed(m)
  {
    hide Backed;
    if m in b.sent {
      var i :| 0 <= i < |b.sent| && b.sent[i] == m;
    } else {
      var i :| 0 <= i < |b.outgoing| && b.outgoing[i] == m;
    }
  }

  /** A run that ends before instant 0 comes, or never meets it, asks for no more. */
  lemma {:induction false} UnmetFalls(b: Outbox, events: seq<Event>, base: uint32, clock: nat)
    requires Calm(b, base, clock) && ValidRun(b, events, base, clock) && ClockAfter(events, base, clock) < Since(base, 0)
    ensures FallingRun(b, events)
    decreases |events|
  {
    CalmIsSteady(b, base, clock);
    RunStaysSteady(b, events, base, clock);
    hide Calm, Since, After, Effect, Backed;
    NoneFromZero(After(b, events), base, ClockAfter(events, base, clock));
    if events != [] {
      var before := events[..|events| - 1];
      assert ClockAfter(before, base, clock) <= ClockAfter(events, base, clock);
      UnmetFalls(b, before, base, clock);
    }
  }

  lemma NoneFromZero(b: Outbox, base: uint32, clock: nat)
    requires Steady(b, base, clock) && clock < Since(base, 0)
    ensures Falling(b.sent)
  {
    forall i | 0 <= i < |b.sent|
      ensures b.sent[i].sentTime != 0
    {
      assert FlyingOk(b.sent[i], b.earliestTimeout, base, clock);
    }
  }

  // ------------------------------------------------------------ it is reached

  /** Some message, with timeout r when the peer was last heard, survives k timeouts in
      some run. */
  ghost predicate Outlasts(r: nat, k: nat) {
    exists b: Outbox, events: seq<Event>, base: uint32, clock: nat, m: Outgoing :: OutlastsIn(b, events, base, clock, m, r, k)
  }

  ghost predicate OutlastsIn(b: Outbox, events: seq<Event>, base: uint32, clock: nat, m: Outgoing, r: nat, k: nat) {
    Calm(b, base, clock) && ValidRun(b, events, base, clock) && Retransmitted(After(b, events), m, r) && m.timeouts == k
  }

  /** When a message first sent at instant 1 times out for the i-th time, as soon as it
      can. */
  function At(r: nat, i: nat): (t: int) {
    1 + r * (Pow2(i) - 1)
  }

  lemma AtNext(r: nat, i: nat)
    requires r >= 1
    ensures At(r, i + 1) == At(r, i) + r * Pow2(i) && At(r, i) >= 1 && r * Pow2(i) >= 1
  {
    PowStep(i);
    Distribute(r, Pow2(i), 1);
    Distribute(r, Pow2(i + 1), 1);
    DoubleProduct(r, i);
    AtLeast(r, Pow2(i) - 1, 0);
  }

  lemma {:induction false} AtMono(r: nat, i: nat, j: nat)
    requires r >= 1 && i <= j
    ensures 1 <= At(r, i) <= At(r, j) && (i < j ==> At(r, i) < At(r, j))
    decreases j
  {
    AtNext(r, i);
    if i < j {
      AtMono(r, i, j - 1);
      AtNext(r, j - 1);
      hide At;
    }
  }

  /** The timeouts before the k-th are bearable too, and all end within two minutes. */
  lemma BearableBefore(r: nat, i: nat, k: nat)
    requires r >= 1 && k >= 2 && i < k && Bearable(r, k)
    ensures r * Pow2(i) < MAX_TIMEOUT && (i >= 5 ==> r * Pow2(i) < MIN_TIMEOUT) && At(r, i + 1) < 2 * MAX_TIMEOUT
    ensures r < MAX_TIMEOUT
  {
    PowMono(i, k - 1);
    AtLeast(r, Pow2(k - 1), Pow2(i));
    PowStep(i);
    DoubleProduct(r, i);
    Distribute(r, Pow2(i + 1), 1);
    hide Pow2;
  }

  /** Small times are as they are. */
  predicate Timely(r: nat, n: nat) {
    r >= 1 && TIMEOUT_LIMIT * r < WRAP && forall i: nat {:trigger At(r, i)} :: i <= n ==> 1 <= At(r, i) < OVERFLOW
  }

  /** Messages sent at instant 0, each to time out together with the one that keeps
      being retransmitted. */
  function Zs(r: nat, i: nat, n: nat): (s: seq<Outgoing>)
    requires i <= n && Timely(r, n)
    ensures |s| == n - i
  {
    seq(n - i, j requires 0 <= j < n - i => PingSent(2, 0, At(r, i + 1 + j)))
  }

  function Tried(r: nat, i: nat, n: nat): Outgoing
    requires i <= n && Timely(r, n) && r * Pow2(i) < WRAP
  {
    Outgoing(CONTROL_CHANNEL, Ping, 1, At(r, i), r * Pow2(i), TIMEOUT_LIMIT * r, None, i, 1)
  }

  /** Between the i-th timeout and the next. */
  ghost predicate Chain(b: Outbox, r: nat, i: nat, n: nat) {
    && i < n && Timely(r, n) && r * Pow2(i) < WRAP && b.state == Connected
    && b.sent == Zs(r, i, n) + [Tried(r, i, n)] && b.nextTimeout == At(r, i + 1)
    && b.earliestTimeout == if i == 0 then 0 else At(r, i - 1)
  }

  lemma SkipUnexpired(b: Outbox, i: nat, now: uint32)
    requires i < |b.sent| && forall j :: i <= j < |b.sent| - 1 ==> !Expired(b.sent[j], now)
    ensures CheckTimeouts(b, i, now) == CheckTimeouts(b, |b.sent| - 1, now)
    decreases |b.sent| - i
  {
    if i < |b.sent| - 1 {
      SkipUnexpired(b, i + 1, now);
    }
  }

  /** The head takes back what was recorded. */
  lemma HeadTakesBack(b: Outbox, r: nat, i: nat, n: nat)
    requires Chain(b, r, i, n) && i + 1 < n
    ensures var now, c := At(r, i + 1), TimeOutOne(b, 0);
            && CheckTimeouts(b, 0, now) == CheckTimeouts(c, 0, now) && ScanDue(b, now)
            && c.sent == Zs(r, i + 1, n) + [Tried(r, i, n)] && c.earliestTimeout == 0 && c.nextTimeout == At(r, i + 2)
            && c.state == Connected
  {
    var now := At(r, i + 1);
    AtNext(r, i);
    AtNext(r, i + 1);
    if i > 0 {
      AtNext(r, i - 1);
      LagSmall(At(r, i - 1), 0);
    }
    LagSmall(now, 0);
    LagSmall(now, now);
    hide Lag, Compare, Pow2, At;
    assert b.sent[0] == PingSent(2, 0, now);
    var rest := RemoveAt(b.sent, 0);
    assert rest == Zs(r, i + 1, n) + [Tried(r, i, n)];
    assert rest[0] == PingSent(2, 0, At(r, i + 2));
    PlusSmall(0, At(r, i + 2));
  }

  /** So the last one is measured by its own last sending alone. */
  lemma TriedTimesOut(c: Outbox, r: nat, i: nat, n: nat)
    requires i + 1 < n && Timely(r, n) && r * Pow2(i) < MAX_TIMEOUT && (i >= 5 ==> r * Pow2(i) < MIN_TIMEOUT)
    requires c.sent == Zs(r, i + 1, n) + [Tried(r, i, n)] && c.earliestTimeout == 0
    ensures var now, d := At(r, i + 1), TimeOutOne(c, n - i - 1);
            && CheckTimeouts(c, 0, now) == (d, false) && d.sent == Zs(r, i + 1, n) && d.earliestTimeout == At(r, i)
            && d.outgoing == [BackOff(Tried(r, i, n))] + c.outgoing && d.nextTimeout == c.nextTimeout && d.state == c.state
  {
    var now, x, last := At(r, i + 1), Tried(r, i, n), n - i - 1;
    AtNext(r, i);
    LagSmall(now, 0);
    LagSmall(now, At(r, i));
    NotAtLimit(r, i);
    hide Lag, Compare, Pow2, Timely;
    forall j | 0 <= j < last
      ensures !Expired(c.sent[j], now)
    {
      AtMono(r, i + 1, i + 2 + j);
      assert c.sent[j] == PingSent(2, 0, At(r, i + 2 + j));
      hide At;
    }
    hide At;
    SkipUnexpired(c, 0, now);
    assert c.sent[last] == x && Expired(x, now) && !GivesUp(At(r, i), x, now);
    var d := TimeOutOne(c, last);
    assert d.sent == Zs(r, i + 1, n);
    assert CheckTimeouts(d, last, now) == (d, false);
  }

  lemma NotAtLimit(r: nat, i: nat)
    requires r >= 1
    ensures i < 5 ==> r * Pow2(i) < TIMEOUT_LIMIT * r
  {
    if i < 5 {
      PowMono(i, 4);
      assert Pow2(4) == 16;
      AtLeast(r, 16, Pow2(i));
    }
  }

  lemma TriedAgain(d: Outbox, r: nat, i: nat, n: nat, rest: seq<Outgoing>)
    requires i + 1 < n && Timely(r, n) && r * Pow2(i) < MAX_TIMEOUT
    requires d.state == Connected && d.sent == Zs(r, i + 1, n) && d.outgoing == [BackOff(Tried(r, i, n))] + rest
    requires d.earliestTimeout == At(r, i) && d.nextTimeout == At(r, i + 2)
    ensures Chain(Effect(d, Send(ONE_MORE, DEFAULT_MTU, At(r, i + 1))), r, i + 1, n)
  {
    var now := At(r, i + 1);
    DoubleProduct(r, i);
    hide Pow2, At;
    var c := MoveOne(d, now);
    assert c.sent == Zs(r, i + 1, n) + [Tried(r, i + 1, n)];
    assert NextReliable(d, ONE_MORE, DEFAULT_MTU) == Ready;
    assert Transmit(c, PackOne(ONE_MORE, d.outgoing[0]), DEFAULT_MTU, now).0 == c;
    assert Transmit(d, ONE_MORE, DEFAULT_MTU, now).0 == c;
  }

  lemma ChainStep(start: Outbox, events: seq<Event>, b: Outbox, r: nat, i: nat, n: nat) returns (events': seq<Event>, b': Outbox)
    requires Leads(start, events, 0, 1, b, At(r, i)) && Chain(b, r, i, n) && i + 1 < n
    requires r * Pow2(i) < MAX_TIMEOUT && (i >= 5 ==> r * Pow2(i) < MIN_TIMEOUT)
    ensures Leads(start, events', 0, 1, b', At(r, i + 1)) && Chain(b', r, i + 1, n)
  {
    var now: uint32 := At(r, i + 1);
    AtNext(r, i);
    HeadTakesBack(b, r, i, n);
    var c := TimeOutOne(b, 0);
    TriedTimesOut(c, r, i, n);
    var d := TimeOutOne(c, n - i - 1);
    TriedAgain(d, r, i, n, c.outgoing);
    b' := Effect(d, Send(ONE_MORE, DEFAULT_MTU, now));
    events' := events + [Check(now)] + [Send(ONE_MORE, DEFAULT_MTU, now)];
    assert b.state == Connected && d.state == Connected && At(r, i) <= now;
    hide Leads, CheckTimeouts, TimeOutOne, Transmit, Chain, ScanDue, At, Pow2, Zs, Tried;
    CheckThenSend(start, events, b, d, At(r, i), now);
  }

  lemma CheckThenSend(start: Outbox, events: seq<Event>, b: Outbox, d: Outbox, c: nat, now: uint32)
    requires Leads(start, events, 0, 1, b, c) && c <= now < OVERFLOW && b.state == d.state == Connected
    requires ScanDue(b, now) && CheckTimeouts(b, 0, now) == (d, false)
    ensures Leads(start, events + [Check(now)] + [Send(ONE_MORE, DEFAULT_MTU, now)], 0, 1,
                  Effect(d, Send(ONE_MORE, DEFAULT_MTU, now)), now)
  {
    hide Leads, ScanDue, CheckTimeouts, Transmit;
    LeadsOn(start, events, 0, 1, b, c, Check(now));
    LeadsOn(start, events + [Check(now)], 0, 1, d, now, Send(ONE_MORE, DEFAULT_MTU, now));
  }

  lemma {:induction false} ChainRun(r: uint32, i: nat, k: nat) returns (events: seq<Event>, b: Outbox)
    requires r >= 1 && k >= 2 && i <= k && Bearable(r, k) && Timely(r, k + 1) && r * Pow2(0) < WRAP
    ensures Leads(FlyingBox(Zs(r, 0, k + 1) + [Tried(r, 0, k + 1)]), events, 0, 1, b, At(r, i)) && Chain(b, r, i, k + 1)
    decreases i
  {
    var start := FlyingBox(Zs(r, 0, k + 1) + [Tried(r, 0, k + 1)]);
    if i == 0 {
      events, b := [], start;
      AtNext(r, 0);
      PlusSmall(0, At(r, 1));
      assert start.sent[0] == PingSent(2, 0, At(r, 1));
    } else {
      BearableBefore(r, i - 1, k);
      events, b := ChainRun(r, i - 1, k);
      hide Leads, Chain, Bearable, At, Pow2, Zs, Tried, FlyingBox;
      events, b := ChainStep(start, events, b, r, i - 1, k + 1);
    }
  }

  lemma ChainTimely(r: uint32, k: nat)
    requires r >= 1 && k >= 2 && Bearable(r, k)
    ensures Timely(r, k + 1) && r * Pow2(0) < WRAP
  {
    forall i: nat | i <= k + 1
      ensures 1 <= At(r, i) < OVERFLOW
    {
      AtMono(r, 0, i);
      AtMono(r, i, k + 1);
      AtNext(r, k);
      BearableBefore(r, k - 1, k);
      DoubleProduct(r, k - 1);
      hide At, Pow2;
    }
    BearableBefore(r, 0, k);
    PowOne(0);
  }

  lemma ChainCalm(r: uint32, n: nat)
    requires n >= 1 && Timely(r, n) && r * Pow2(0) < WRAP
    ensures Calm(FlyingBox(Zs(r, 0, n) + [Tried(r, 0, n)]), 0, 1)
  {
    var s := Zs(r, 0, n) + [Tried(r, 0, n)];
    TriedRests(r, n);
    assert s[n].sentTime == 1;
    hide Timely, Tried;
    forall j | 0 <= j < n
      ensures s[j].sentTime == 0 && InFlight(s[j], 0, 1)
    {
      ZRests(r, 1 + j, n);
      assert s[j] == PingSent(2, 0, At(r, 1 + j));
    }
    hide At, Pow2, Zs, PingSent, InFlight;
  }

  lemma ZRests(r: nat, j: nat, n: nat)
    requires j <= n && Timely(r, n)
    ensures 1 <= At(r, j) < OVERFLOW && InFlight(PingSent(2, 0, At(r, j)), 0, 1)
  {
    hide At;
  }

  lemma TriedRests(r: nat, n: nat)
    requires Timely(r, n) && r * Pow2(0) < WRAP
    ensures At(r, 0) == 1 && InFlight(Tried(r, 0, n), 0, 1) && Tried(r, 0, n).sentTime == 1
  {
    PowOne(0);
    hide Pow2;
  }

  /** The last of the messages in flight has timed out k times. */
  lemma ChainEnd(b: Outbox, r: nat, k: nat)
    requires Chain(b, r, k, k + 1)
    ensures Retransmitted(b, b.sent[1], r) && b.sent[1].timeouts == k
  {
    var m := Tried(r, k, k + 1);
    assert b.sent[1] == m && m in b.outgoing + b.sent;
    PowStep(k);
    AtLeast(r, Pow2(k), 1);
    hide At;
  }

  lemma OutlastsOne(r: uint32)
    requires 1 <= r < OVERFLOW
    ensures Outlasts(r, 1)
  {
    PowOne(0);
    assert Survivable(r, 1, Slack(0));
    Survival.LoneRun(r, 0, 1);
    Survival.LoneCalm(r, 0);
    var start, events := Survival.LoneBox(r), Survival.LoneEvents(r, 0, 1);
    var b := After(start, events);
    var m := b.outgoing[0];
    hide After, ValidRun, Calm, Survival.LoneEvents, Survival.LoneBox;
    assert b.outgoing == [m] && m in b.outgoing + b.sent;
    assert OutlastsIn(start, events, 0, 0, m, r, 1);
  }

  lemma OutlastsMore(r: uint32, k: nat)
    requires r >= 1 && k >= 2 && Bearable(r, k)
    ensures Outlasts(r, k)
  {
    ChainTimely(r, k);
    ChainCalm(r, k + 1);
    var events, b := ChainRun(r, k, k);
    ChainEnd(b, r, k);
    var start := FlyingBox(Zs(r, 0, k + 1) + [Tried(r, 0, k + 1)]);
    hide After, ValidRun, Calm, Chain, Zs, Tried, FlyingBox, Retransmitted;
    assert OutlastsIn(start, events, 0, 1, b.sent[1], r, k);
  }

  /** The bound over all runs is exact. */
  lemma OutlastsExactly(r: uint32, k: nat)
    requires 1 <= r < OVERFLOW && k >= 1
    ensures Outlasts(r, k) <==> Bearable(r, k)
  {
    if Outlasts(r, k) {
      var b: Outbox, events: seq<Event>, base: uint32, clock: nat, m: Outgoing :| OutlastsIn(b, events, base, clock, m, r, k);
      AlwaysBounded(b, events, base, clock, m, r);
    }
    if Bearable(r, k) {
      if k == 1 {
        OutlastsOne(r);
      } else {
        OutlastsMore(r, k);
      }
    }
  }

  /** Over all runs six timeouts are the most exactly from 79 ms on, and thirteen are
      the most for any message, and reached. */
  lemma SixTimeoutsExactly(r: uint32)
    requires 1 <= r < OVERFLOW
    ensures (forall k {:trigger Outlasts(r, k)} :: k > 6 ==> !Outlasts(r, k)) <==> r >= 79
    ensures (forall k {:trigger Outlasts(r, k)} :: k > 13 ==> !Outlasts(r, k)) && Outlasts(1, 13)
  {
    assert Pow2(6) == 64 && Pow2(12) == 4096;
    OutlastsExactly(r, 7);
    OutlastsExactly(1, 13);
    forall k | k > 6
      ensures Outlasts(r, k) ==> k <= 13 && r < 79
    {
      OutlastsExactly(r, k);
      if Bearable(r, k) {
        BearableFew(r, k);
      }
      hide Outlasts, Bearable;
    }
    hide Outlasts;
  }
}
