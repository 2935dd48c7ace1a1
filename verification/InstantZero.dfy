/** What the instant 0 of the clock does to giving up: 0 also stands for "nothing has
    timed out yet". */
module InstantZero {
  import opened Words
  import opened Wrappers
  import opened Clock
  import opened Messages
  import opened OutgoingQueues
  import opened Retransmission

  // -------------------------------------------------- what keeps Falling true

  lemma FallingAppend(s: seq<Outgoing>, m: Outgoing)
    requires Falling(s) && m.sentTime != 0
    ensures Falling(s + [m])
  {
  }

  lemma FallingRemove(s: seq<Outgoing>, i: nat)
    requires Falling(s) && i < |s|
    ensures Falling(RemoveAt(s, i))
  {
    var t := RemoveAt(s, i);
    assert forall j :: 0 <= j < |t| ==> t[j] == s[if j < i then j else j + 1];
  }

  lemma FallingRenewed(s: seq<Outgoing>)
    requires Falling(s)
    ensures Falling(Renewed(s))
  {
  }

  lemma {:induction false} FallingTransmit(b: Outbox, p: Packing, mtu: nat, now: uint32)
    requires Falling(b.sent) && now != 0 && p.size <= mtu
    ensures Falling(Transmit(b, p, mtu, now).0.sent)
    decreases |b.outgoing|
  {
    if NextReliable(b, p, mtu) == Ready {
      FallingAppend(b.sent, Stamp(b.outgoing[0], now, b.roundTripTime, b.variance));
      hide Falling, Stamp;
      FallingTransmit(MoveOne(b, now), PackOne(p, b.outgoing[0]), mtu, now);
    }
  }

  lemma {:induction false} FallingCheck(b: Outbox, i: nat, now: uint32)
    requires Falling(b.sent) && i <= |b.sent|
    ensures Falling(CheckTimeouts(b, i, now).0.sent)
    decreases |b.sent| - i
  {
    hide Falling;
    if i < |b.sent| {
      var m := b.sent[i];
      if !Expired(m, now) {
        FallingCheck(b, i + 1, now);
      } else if !GivesUp(Earliest(b, m), m, now) {
        FallingRemove(b.sent, i);
        FallingCheck(TimeOutOne(b, i), i, now);
      }
    }
  }

  /** Instant 0 is over, or does not come. */
  predicate ZeroOver(base: uint32, clock: nat) {
    Since(base, 0) < clock || Since(base, 0) >= OVERFLOW
  }

  lemma FallingStep(b: Outbox, e: Event, base: uint32, clock: nat)
    requires Falling(b.sent) && Enabled(b, e, base, clock) && ZeroOver(base, clock)
    ensures Falling(Effect(b, e).sent) && Tick(e, base, clock) >= clock
  {
    hide Falling;
    match e
    case Queue(_) =>
    case Send(p, mtu, now) => FallingTransmit(b, p, mtu, now);
    case Check(now) => FallingCheck(b, 0, now);
    case Acknowledged(number, channelId, measured, _) =>
      var d := Dispose(b, number, channelId);
      if FindSent(b.sent, number, channelId).Some? {
        FallingRemove(b.sent, FindSent(b.sent, number, channelId).value);
      }
      FallingRenewed(d.sent);
      FallingNone();
      hide Dispose, Smoothed;
    case Close(_) => FallingNone();
    case Other(_, _, _) =>
  }

  lemma FallingNone()
    ensures Falling([])
  {
  }

  /** Once instant 0 is over Falling is a matter of the start alone. */
  lemma {:induction false} FallingStays(b: Outbox, events: seq<Event>, base: uint32, clock: nat)
    requires Falling(b.sent) && ValidRun(b, events, base, clock) && ZeroOver(base, clock)
    ensures FallingRun(b, events) && ClockAfter(events, base, clock) >= clock
    decreases |events|
  {
    if events != [] {
      var before := events[..|events| - 1];
      hide Enabled, Effect, Falling, Tick;
      FallingStays(b, before, base, clock);
      FallingStep(After(b, before), events[|events| - 1], base, ClockAfter(before, base, clock));
    }
  }

  // ------------------------------------------------------ the exact condition

  /** The messages in flight that were sent at instant 0. */
  function Zeros(s: seq<Outgoing>): (r: seq<Outgoing>)
    decreases |s|
  {
    if s == [] then []
    else Zeros(s[..|s| - 1]) + (if s[|s| - 1].sentTime == 0 then [s[|s| - 1]] else [])
  }

  ghost predicate NotLonger(s: seq<Outgoing>, m: Outgoing) {
    forall x :: x in s && x.sentTime == 0 ==> m.timeout <= x.timeout || m.timeout <= 2
  }

  lemma FallingLast(s: seq<Outgoing>, m: Outgoing)
    ensures Falling(s + [m]) <==> Falling(s) && (m.sentTime == 0 ==> NotLonger(s, m))
  {
    var t := s + [m];
    assert t[|s|] == m;
    assert forall i :: 0 <= i < |s| ==> t[i] == s[i] && s[i] in s;
    if Falling(t) {
      forall i, j | 0 <= i < j < |s| && s[i].sentTime == 0 && s[j].sentTime == 0
        ensures s[j].timeout <= s[i].timeout || s[j].timeout <= 2
      {
        assert t[i] == s[i] && t[j] == s[j];
      }
    }
  }

  lemma {:induction false} ZerosMembers(s: seq<Outgoing>)
    ensures forall x :: x in Zeros(s) <==> x in s && x.sentTime == 0
    decreases |s|
  {
    if s != [] {
      var before, m := s[..|s| - 1], s[|s| - 1];
      assert s == before + [m];
      ZerosMembers(before);
    }
  }

  lemma SameNotLonger(s: seq<Outgoing>, m: Outgoing)
    ensures NotLonger(Zeros(s), m) <==> NotLonger(s, m)
  {
    ZerosMembers(s);
    hide Zeros;
  }

  lemma {:induction false} ZerosFalling(s: seq<Outgoing>)
    ensures Falling(Zeros(s)) <==> Falling(s)
    decreases |s|
  {
    if s != [] {
      var before, m := s[..|s| - 1], s[|s| - 1];
      assert s == before + [m];
      hide Falling, NotLonger;
      ZerosFalling(before);
      FallingLast(before, m);
      FallingLast(Zeros(before), m);
      SameNotLonger(before, m);
      ZerosStep(before, m);
      hide Zeros;
    }
  }

  lemma ZerosStep(s: seq<Outgoing>, m: Outgoing)
    ensures Zeros(s + [m]) == if m.sentTime == 0 then Zeros(s) + [m] else Zeros(s)
  {
    var t := s + [m];
    assert t[..|t| - 1] == s;
  }

  lemma {:induction false} ZerosAll(s: seq<Outgoing>)
    requires forall i :: 0 <= i < |s| ==> s[i].sentTime == 0
    ensures Zeros(s) == s
    decreases |s|
  {
    if s != [] {
      assert s == s[..|s| - 1] + [s[|s| - 1]];
      ZerosAll(s[..|s| - 1]);
    }
  }

  /** From every calm client with these messages in flight from instant 0, in every
      run, a scan for timeouts gives the connection up when a message is overdue. */
  ghost predicate AlwaysPrompt(z: seq<Outgoing>) {
    forall b: Outbox, events: seq<Event>, base: uint32, clock: nat, now: uint32 ::
      Comes(b, events, base, clock, now, z) ==> Prompt(After(b, events), now)
  }

  ghost predicate Comes(b: Outbox, events: seq<Event>, base: uint32, clock: nat, now: uint32, z: seq<Outgoing>) {
    && Calm(b, base, clock) && Since(base, 0) < clock && Zeros(b.sent) == z
    && ValidRun(b, events, base, clock) && Scans(After(b, events), now, base, ClockAfter(events, base, clock))
  }

  /** Messages sent at instant 0 that have not timed out since, with timeouts that end
      within the day. */
  predicate SentAtZero(z: seq<Outgoing>) {
    forall i :: 0 <= i < |z| ==>
      z[i].sentTime == 0 && InFlight(z[i], 0, 0) && z[i].timeout < OVERFLOW - MAX_TIMEOUT
  }

  /** The exact condition on the messages sent at instant 0. */
  lemma FallingExactly(z: seq<Outgoing>)
    requires SentAtZero(z)
    ensures AlwaysPrompt(z) <==> Falling(z)
  {
    if Falling(z) {
      forall b: Outbox, events: seq<Event>, base: uint32, clock: nat, now: uint32 | Comes(b, events, base, clock, now, z)
        ensures Prompt(After(b, events), now)
      {
        ZerosFalling(b.sent);
        FallingStays(b, events, base, clock);
        GivesUpInTime(b, events, base, clock, now);
      }
    } else {
      Late(z);
    }
  }

  // ------------------------------------------------------------ the other half

  function PingSent(number: uint16, at: uint32, timeout: uint32): Outgoing {
    Outgoing(CONTROL_CHANNEL, Ping, number, at, timeout, TIMEOUT_LIMIT * timeout % WRAP, None, 0, at)
  }

  /** A connected client with nothing but s in flight. */
  ghost predicate Flying(b: Outbox, s: seq<Outgoing>) {
    && b.state == Connected && b.outgoing == [] && b.unreliable == [] && b.sent == s && b.earliestTimeout == 0
    && b.roundTripTime == 500 && b.variance == 0 && Due(b)
  }

  function FlyingBox(s: seq<Outgoing>): Outbox {
    Outbox(Connected, [], s, [], 0, MAX_WINDOW, if s == [] then 0 else Expiry(s[0]), 0, 500, 0)
  }

  lemma LagSmall(now: uint32, time: uint32)
    requires time <= now < OVERFLOW
    ensures Lag(now, time) == now - time && Compare(now, time) >= 0 && (time < now ==> Compare(time, now) < 0)
  {
  }

  /** A run that leads to a state and a time. */
  ghost predicate Leads(start: Outbox, events: seq<Event>, base: uint32, clock: nat, b: Outbox, now: nat) {
    ValidRun(start, events, base, clock) && After(start, events) == b && ClockAfter(events, base, clock) == now
  }

  lemma LeadsOn(start: Outbox, events: seq<Event>, base: uint32, clock: nat, b: Outbox, now: nat, e: Event)
    requires Leads(start, events, base, clock, b, now) && Enabled(b, e, base, now)
    ensures Leads(start, events + [e], base, clock, Effect(b, e), Tick(e, base, now))
  {
    var one := events + [e];
    assert one[..|one| - 1] == events;
    hide Enabled, Effect, Tick;
  }

  predicate AllRested(s: seq<Outgoing>) {
    forall k :: 0 <= k < |s| ==> s[k].timeouts == 0 && s[k].firstSent == s[k].sentTime
  }

  lemma AckHead(b: Outbox, s: seq<Outgoing>)
    requires Flying(b, s) && s != [] && AllRested(s)
    ensures Flying(Effect(b, Acknowledged(s[0].reliableNumber, s[0].channelId, 500, 0)), s[1..])
  {
    assert FindSent(s, s[0].reliableNumber, s[0].channelId) == Some(0);
    assert RemoveAt(s, 0) == s[1..];
    assert Renewed(s[1..]) == s[1..];
  }

  /** Acknowledgements that take the first i messages out. */
  lemma {:induction false} AckHeads(s: seq<Outgoing>, i: nat, clock: nat) returns (events: seq<Event>, b: Outbox)
    requires i <= |s| && AllRested(s)
    ensures Leads(FlyingBox(s), events, 0, clock, b, clock) && Flying(b, s[i..])
  {
    if i == 0 {
      events, b := [], FlyingBox(s);
    } else {
      events, b := AckHeads(s, i - 1, clock);
      var t := s[i - 1..];
      var e := Acknowledged(t[0].reliableNumber, t[0].channelId, 500, 0);
      AckHead(b, t);
      assert t[1..] == s[i..];
      hide Flying, Leads, Effect;
      LeadsOn(FlyingBox(s), events, 0, clock, b, clock, e);
      events, b := events + [e], Effect(b, e);
    }
  }

  /** What a scan leaves alone. */
  predicate Alike(a: Outbox, b: Outbox) {
    a.state == b.state && a.roundTripTime == b.roundTripTime && a.variance == b.variance
  }

  /** The first n messages, sent at instant 0, time out without a record. */
  lemma {:induction false} HeadsExpire(b: Outbox, n: nat, now: uint32) returns (b': Outbox)
    requires n <= |b.sent| && b.earliestTimeout == 0 && Due(b)
    requires forall k :: 0 <= k < n ==> b.sent[k].sentTime == 0 && Expired(b.sent[k], now)
    ensures CheckTimeouts(b, 0, now) == CheckTimeouts(b', 0, now)
    ensures b'.sent == b.sent[n..] && b'.earliestTimeout == 0 && Due(b') && Alike(b, b')
    decreases n
  {
    b' := b;
    if n > 0 {
      var c := TimeOutOne(b, 0);
      assert c.sent == b.sent[1..];
      hide Expired;
      b' := HeadsExpire(c, n - 1, now);
    }
  }

  /** A scan from position i of messages sent at instant 0, with nothing recorded, and a
      last one x that has timed out. */
  lemma {:induction false} ZeroScan(b: Outbox, i: nat, now: uint32, x: Outgoing)
    requires i < |b.sent| && b.earliestTimeout == 0 && b.sent[|b.sent| - 1] == x
    requires forall k :: 0 <= k < |b.sent| - 1 ==> b.sent[k].sentTime == 0
    requires Expired(x, now) && x.sentTime != 0 && !GivesUp(x.sentTime, x, now)
    ensures var (b', gaveUp) := CheckTimeouts(b, i, now);
            && !gaveUp && b'.earliestTimeout == x.sentTime && b'.outgoing != [] && b'.outgoing[0] == BackOff(x) && Alike(b, b')
            && (forall k :: 0 <= k < |b'.sent| ==> b'.sent[k].sentTime == 0)
            && (i > 0 ==> b'.sent != [] && b'.sent[0] == b.sent[0] && b'.nextTimeout == b.nextTimeout)
    decreases |b.sent| - i
  {
    var n := |b.sent| - 1;
    if i == n {
      var c := TimeOutOne(b, n);
      assert c.sent == b.sent[..n];
      assert CheckTimeouts(c, n, now) == (c, false);
      hide Expired;
    } else if !Expired(b.sent[i], now) {
      ZeroScan(b, i + 1, now, x);
    } else {
      var c := TimeOutOne(b, i);
      assert forall k :: 0 <= k < n ==> c.sent[k] == b.sent[if k < i then k else k + 1];
      hide Expired;
      ZeroScan(c, i, now, x);
    }
  }

  // A datagram with room for one message. Of what several clients leave behind only
  // the last one's request for another datagram counts, so the rest may stay queued.
  const ONE_MORE := Packing(HEADER_SIZE, 31, 1)

  /** The state after the scan at T - 1, T being when the head times out. */
  ghost predicate Recording(b: Outbox, x: Outgoing, head: Outgoing) {
    && b.state == Connected && b.earliestTimeout == x.sentTime && b.outgoing != [] && b.outgoing[0] == BackOff(x)
    && b.sent != [] && b.sent[0] == head && b.nextTimeout == Expiry(head)
    && (forall k :: 0 <= k < |b.sent| ==> b.sent[k].sentTime == 0)
  }

  lemma FirstScan(b: Outbox, z: seq<Outgoing>, n: nat, x: Outgoing, time: uint32)
    requires 3 <= time < OVERFLOW - MAX_TIMEOUT && Flying(b, z + [x]) && x == PingSent(1, time - 2, 1)
    requires AllZero(z) && 0 < n < |z| && z[n].timeout == time && AllBelow(z, n, time)
    ensures Scans(b, time - 1, 0, time - 2)
    ensures !CheckTimeouts(b, 0, time - 1).1 && Recording(CheckTimeouts(b, 0, time - 1).0, x, z[n])
  {
    var now, s := time - 1, z + [x];
    LagSmall(now, 0);
    LagSmall(now, time - 2);
    assert s[0] == z[0] && z[0].timeout < time;
    LagSmall(now, z[0].timeout);
    assert Scans(b, now, 0, time - 2);
    hide Lag, Compare;
    assert forall k :: 0 <= k < n ==> s[k] == z[k] && Expired(s[k], now);
    var c := HeadsExpire(b, n, now);
    assert c.sent == z[n..] + [x];
    RestScan(c, z[n..], x, now, time);
    hide CheckTimeouts, Expired, Recording;
  }

  predicate AllZero(z: seq<Outgoing>) {
    forall k :: 0 <= k < |z| ==> z[k].sentTime == 0
  }

  predicate AllBelow(z: seq<Outgoing>, n: nat, time: nat) {
    n <= |z| && forall k :: 0 <= k < n ==> z[k].timeout < time
  }

  lemma RestScan(c: Outbox, t: seq<Outgoing>, x: Outgoing, now: uint32, time: uint32)
    requires 3 <= time < OVERFLOW - MAX_TIMEOUT && now == time - 1 && x == PingSent(1, time - 2, 1)
    requires t != [] && AllZero(t) && t[0].timeout == time && c.sent == t + [x] && c.earliestTimeout == 0 && Due(c)
    requires c.state == Connected
    ensures !CheckTimeouts(c, 0, now).1 && Recording(CheckTimeouts(c, 0, now).0, x, t[0])
  {
    LagSmall(now, 0);
    LagSmall(now, time - 2);
    hide Lag, Compare;
    assert c.sent[0] == t[0] && !Expired(t[0], now);
    assert CheckTimeouts(c, 0, now) == CheckTimeouts(c, 1, now);
    hide CheckTimeouts;
    assert forall k :: 0 <= k < |c.sent| - 1 ==> c.sent[k] == t[k];
    ZeroScan(c, 1, now, x);
  }

  lemma SendOneMore(b: Outbox, x: Outgoing, head: Outgoing, time: uint32)
    requires 3 <= time < OVERFLOW - MAX_TIMEOUT && x == PingSent(1, time - 2, 1) && Recording(b, x, head)
    ensures var b' := Effect(b, Send(ONE_MORE, DEFAULT_MTU, time - 1));
            && b'.sent == b.sent + [BackOff(x).(sentTime := time - 1)] && b'.nextTimeout == b.nextTimeout
            && b'.earliestTimeout == b.earliestTimeout && b'.state == Connected
  {
    var now := time - 1;
    assert NextReliable(b, ONE_MORE, DEFAULT_MTU) == Ready;
    var c := MoveOne(b, now);
    assert Transmit(c, PackOne(ONE_MORE, b.outgoing[0]), DEFAULT_MTU, now).0 == c;
    assert Transmit(b, ONE_MORE, DEFAULT_MTU, now).0 == c;
  }

  /** The scan half a minute after x was first sent takes the record back at its
      first message. */
  lemma SecondScan(b: Outbox, x: Outgoing, head: Outgoing, time: uint32)
    requires 3 <= time < OVERFLOW - MAX_TIMEOUT && x == PingSent(1, time - 2, 1)
    requires |b.sent| >= 2 && b.sent[|b.sent| - 1] == BackOff(x).(sentTime := time - 1)
    requires forall k :: 0 <= k < |b.sent| - 1 ==> b.sent[k].sentTime == 0
    requires b.state == Connected && b.earliestTimeout == time - 2 && b.sent[0].timeout == time && b.nextTimeout == time
    ensures Scans(b, time + 29998, 0, time - 1) && !Prompt(b, time + 29998)
  {
    var now, x' := time + 29998, b.sent[|b.sent| - 1];
    LagSmall(now, 0);
    LagSmall(now, time);
    LagSmall(now, time - 1);
    LagSmall(now, time - 2);
    LagSmall(time - 2, 0);
    hide Lag, Compare;
    assert Overdue(x', now);
    var c := TimeOutOne(b, 0);
    assert c.sent == b.sent[1..];
    assert CheckTimeouts(b, 0, now) == CheckTimeouts(c, 0, now);
    hide CheckTimeouts;
    ZeroScan(c, 0, now, x');
  }

  /** Where Falling fails: from the i-th message on, the n-th has a longer timeout than
      those before it. */
  lemma Breaks(z: seq<Outgoing>) returns (i: nat, n: nat)
    requires SentAtZero(z) && !Falling(z)
    ensures i + n < |z| && n > 0 && z[i..][n].timeout >= 3 && AllBelow(z[i..], n, z[i..][n].timeout)
  {
    var j: nat;
    i, j :| 0 <= i < j < |z| && z[j].timeout > z[i].timeout && z[j].timeout > 2;
    n := 1;
    var t := z[i..];
    while !(t[n].timeout > t[0].timeout && t[n].timeout > 2)
      invariant 0 < n <= j - i
      invariant forall k :: 0 < k < n ==> t[k].timeout <= t[0].timeout || t[k].timeout <= 2
      decreases j - n
    {
      n := n + 1;
    }
  }

  lemma FlyingCalm(z: seq<Outgoing>, x: Outgoing, time: uint32)
    requires SentAtZero(z) && 3 <= time < OVERFLOW && x == PingSent(1, time - 2, 1)
    ensures Calm(FlyingBox(z + [x]), 0, time - 2) && Zeros(z + [x]) == z && AllRested(z + [x])
  {
    var s := z + [x];
    assert s[..|s| - 1] == z && s[|s| - 1] == x;
    ZerosAll(z);
    forall k | 0 <= k < |s|
      ensures InFlight(s[k], 0, time - 2)
    {
      if k < |z| {
        assert s[k] == z[k];
      }
    }
    assert forall k :: 0 <= k < |z| ==> s[k].sentTime == 0;
  }

  /** The run in which an overdue message does not end the connection. */
  lemma Late(z: seq<Outgoing>)
    requires SentAtZero(z) && !Falling(z)
    ensures !AlwaysPrompt(z)
  {
    var i, n := Breaks(z);
    var time: uint32 := z[i..][n].timeout;
    var x := PingSent(1, time - 2, 1);
    var s := z + [x];
    FlyingCalm(z, x, time);
    assert AllZero(z[i..]);
    hide *;
    var events, b := LateRun(z, i, n, x, time);
    LateComes(s, z, events, b, time);
  }

  lemma LateComes(s: seq<Outgoing>, z: seq<Outgoing>, events: seq<Event>, b: Outbox, time: uint32)
    requires 3 <= time < OVERFLOW - MAX_TIMEOUT && Calm(FlyingBox(s), 0, time - 2) && Zeros(s) == z
    requires Leads(FlyingBox(s), events, 0, time - 2, b, time - 1)
    requires Scans(b, time + 29998, 0, time - 1) && !Prompt(b, time + 29998)
    ensures !AlwaysPrompt(z)
  {
    hide Prompt, Scans, Calm, Zeros, After, ValidRun, ClockAfter;
    var c: nat, now: uint32 := time - 2, time + 29998;
    assert Comes(FlyingBox(s), events, 0, c, now, z);
  }

  lemma LateRun(z: seq<Outgoing>, i: nat, n: nat, x: Outgoing, time: uint32) returns (events: seq<Event>, b: Outbox)
    requires i + n < |z| && n > 0 && z[i..][n].timeout == time && 3 <= time < OVERFLOW - MAX_TIMEOUT
    requires x == PingSent(1, time - 2, 1) && AllZero(z[i..]) && AllBelow(z[i..], n, time) && AllRested(z + [x])
    ensures Leads(FlyingBox(z + [x]), events, 0, time - 2, b, time - 1)
    ensures Scans(b, time + 29998, 0, time - 1) && !Prompt(b, time + 29998)
  {
    var s := z + [x];
    hide *;
    var b0;
    events, b0 := AckHeads(s, i, time - 2);
    assert s[i..] == z[i..] + [x];
    events, b := LateSteps(s, events, b0, z[i..], n, x, time);
  }

  lemma LateSteps(s: seq<Outgoing>, before: seq<Event>, b0: Outbox, t: seq<Outgoing>, n: nat, x: Outgoing, time: uint32)
    returns (events: seq<Event>, b: Outbox)
    requires 0 < n < |t| && t[n].timeout == time && 3 <= time < OVERFLOW - MAX_TIMEOUT
    requires x == PingSent(1, time - 2, 1) && AllZero(t) && AllBelow(t, n, time)
    requires Leads(FlyingBox(s), before, 0, time - 2, b0, time - 2) && Flying(b0, t + [x])
    ensures Leads(FlyingBox(s), events, 0, time - 2, b, time - 1)
    ensures Scans(b, time + 29998, 0, time - 1) && !Prompt(b, time + 29998)
  {
    hide Leads, Scans, Prompt, CheckTimeouts, Effect, Flying, Recording, FlyingBox;
    FirstScan(b0, t, n, x, time);
    var check, send := Check(time - 1), Send(ONE_MORE, DEFAULT_MTU, time - 1);
    var b1 := CheckTimeouts(b0, 0, time - 1).0;
    CheckStep(s, before, b0, b1, time);
    b := Effect(b1, send);
    SendOneMore(b1, x, t[n], time);
    SendStep(s, before + [check], b1, b, x, t[n], time);
    AfterSending(b1, b, x, t[n], time);
    events := before + [check] + [send];
  }

  lemma CheckStep(s: seq<Outgoing>, before: seq<Event>, b0: Outbox, b1: Outbox, time: uint32)
    requires 3 <= time < OVERFLOW && Leads(FlyingBox(s), before, 0, time - 2, b0, time - 2)
    requires Scans(b0, time - 1, 0, time - 2) && !CheckTimeouts(b0, 0, time - 1).1 && b1 == CheckTimeouts(b0, 0, time - 1).0
    ensures Leads(FlyingBox(s), before + [Check(time - 1)], 0, time - 2, b1, time - 1)
  {
    hide Leads, FlyingBox, CheckTimeouts, ScanDue;
    LeadsOn(FlyingBox(s), before, 0, time - 2, b0, time - 2, Check(time - 1));
  }

  lemma SendStep(s: seq<Outgoing>, before: seq<Event>, b1: Outbox, b: Outbox, x: Outgoing, head: Outgoing, time: uint32)
    requires 3 <= time < OVERFLOW && Leads(FlyingBox(s), before, 0, time - 2, b1, time - 1)
    requires Recording(b1, x, head) && b == Effect(b1, Send(ONE_MORE, DEFAULT_MTU, time - 1))
    ensures Leads(FlyingBox(s), before + [Send(ONE_MORE, DEFAULT_MTU, time - 1)], 0, time - 2, b, time - 1)
  {
    hide Leads, FlyingBox, Effect;
    LeadsOn(FlyingBox(s), before, 0, time - 2, b1, time - 1, Send(ONE_MORE, DEFAULT_MTU, time - 1));
  }

  lemma AfterSending(b1: Outbox, b: Outbox, x: Outgoing, head: Outgoing, time: uint32)
    requires 3 <= time < OVERFLOW - MAX_TIMEOUT && x == PingSent(1, time - 2, 1) && Recording(b1, x, head)
    requires head.timeout == time && b.sent == b1.sent + [BackOff(x).(sentTime := time - 1)] && b.nextTimeout == b1.nextTimeout
    requires b.earliestTimeout == b1.earliestTimeout && b.state == Connected
    ensures Scans(b, time + 29998, 0, time - 1) && !Prompt(b, time + 29998)
  {
    assert b1.sent[0].sentTime == 0;
    PlusSmall(0, time);
    hide Prompt, Scans, Plus;
    SecondScan(b, x, head, time);
  }
}
