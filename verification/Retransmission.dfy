/** How long a message can be retransmitted while the peer stays silent, whatever the
    state of the client. */
module Retransmission {
  import opened Words
  import opened Wrappers
  import opened Clock
  import opened Bitmap
  import opened Messages
  import opened OutgoingQueues

  // A timeout longer than this would seem over to the comparison of times.
  const LONGEST := WRAP - OVERFLOW

  /** At its k-th timeout since the peer was last heard a message has waited
      r * (2^k - 1), r being its timeout at that time; r less when it was first sent at the instant 0, because the timeout
      of a message sent then is not recorded. */
  function Slack(first: uint32): (r: nat)
    ensures 1 <= r <= 2
  {
    if first == 0 then 2 else 1
  }

  /** A wait that does not end the connection at the k-th timeout: below the longest,
      and below the least once the timeout has been doubled five times. */
  predicate Survivable(r: nat, k: nat, slack: nat) {
    k == 0 ||
    (r * (Pow2(k) - slack) < MAX_TIMEOUT && (k <= 5 || r * (Pow2(k) - slack) < MIN_TIMEOUT))
  }

  /** The message's timeout is r, doubled once per timeout; its limit was set by a
      first timeout that was not longer. */
  ghost predicate Doubled(m: Outgoing, r: nat) {
    1 <= r < WRAP && m.timeoutLimit <= TIMEOUT_LIMIT * r && m.timeout == r * Pow2(m.timeouts)
  }

  /** How long the client has been waiting, by the recorded earliest timeout, when
      the message was sent again or, before that, by `since`. */
  ghost predicate Waited(m: Outgoing, r: nat, earliest: uint32, base: uint32, since: nat) {
    m.timeouts > 0 ==>
      if m.firstSent == 0 && m.timeouts == 1 then Since(base, 0) + r <= since
      else
        && earliest != 0 && Since(base, earliest) + (m.timeout - r * Slack(m.firstSent)) <= since
        && (m.firstSent != 0 ==> Since(base, earliest) <= Since(base, m.firstSent))
  }

  ghost predicate BackedOffBy(m: Outgoing, r: nat, earliest: uint32, base: uint32, since: nat) {
    Doubled(m, r) && Survivable(r, m.timeouts, Slack(m.firstSent)) && Waited(m, r, earliest, base, since)
  }

  /** Either not sent yet, or backed off no more often than can be survived. */
  ghost predicate BackedOff(m: Outgoing, earliest: uint32, base: uint32, since: nat) {
    if m.timeout == 0 then m.timeouts == 0
    else m.timeout <= LONGEST && exists r :: BackedOffBy(m, r, earliest, base, since)
  }

  /** A message waiting to be sent. */
  ghost predicate WaitingOk(m: Outgoing, earliest: uint32, base: uint32, clock: nat) {
    && BackedOff(m, earliest, base, clock)
    && (m.timeouts > 0 ==> Since(base, m.firstSent) <= clock)
  }

  ghost predicate SentOk(m: Outgoing, earliest: uint32, base: uint32, clock: nat) {
    && m.timeout != 0 && Since(base, m.firstSent) <= Since(base, m.sentTime) <= clock
    && (m.timeouts == 0 ==> m.firstSent == m.sentTime)
    && BackedOff(m, earliest, base, Since(base, m.sentTime))
  }

  /** The round trip estimate stays within a day. */
  predicate Estimated(b: Outbox) {
    1 <= b.roundTripTime <= OVERFLOW && b.variance <= OVERFLOW
  }

  ghost predicate Ordered(s: seq<Outgoing>, base: uint32) {
    forall i, j :: 0 <= i < j < |s| ==> Since(base, s[i].sentTime) <= Since(base, s[j].sentTime)
  }

  /** A message sent at instant 0 takes no recorded time back. */
  ghost predicate Recorded(s: seq<Outgoing>, earliest: uint32, base: uint32) {
    forall i :: 0 <= i < |s| && s[i].sentTime == 0 ==> earliest == 0 || Since(base, earliest) < Since(base, 0)
  }

  /** The next scan is due when the first message in flight times out. */
  predicate Due(b: Outbox) {
    b.sent != [] ==> b.nextTimeout == Expiry(b.sent[0])
  }

  /** The state of a client that has heard nothing for a while; times are counted
      from `base` and have reached `clock`. */
  ghost predicate Silent(b: Outbox, base: uint32, clock: nat) {
    && clock < OVERFLOW && Estimated(b) && Due(b)
    && (b.earliestTimeout != 0 ==> Since(base, b.earliestTimeout) <= clock)
    && (forall i {:trigger b.outgoing[i]} :: 0 <= i < |b.outgoing| ==> WaitingOk(b.outgoing[i], b.earliestTimeout, base, clock))
    && (forall i {:trigger b.sent[i]} :: 0 <= i < |b.sent| ==> SentOk(b.sent[i], b.earliestTimeout, base, clock))
    && Ordered(b.sent, base) && Recorded(b.sent, b.earliestTimeout, base)
  }

  // --------------------------------------------------------------- instant 0

  /** Of the messages in flight that were sent at instant 0, none has a longer timeout
      than one sent before it; two milliseconds are as good as one. */
  predicate Falling(s: seq<Outgoing>) {
    forall i, j {:trigger s[i], s[j]} :: 0 <= i < j < |s| && s[i].sentTime == 0 && s[j].sentTime == 0 ==>
      s[j].timeout <= s[i].timeout || s[j].timeout <= 2
  }

  /** A scan that loses no record: there is one already, or the scan makes one from
      before instant 0, or it does not come upon a message sent after instant 0 while
      one sent then stays in flight. */
  ghost predicate Clear(b: Outbox, base: uint32, now: uint32) {
    || b.earliestTimeout != 0
    || (b.sent != [] && Since(base, b.sent[0].sentTime) < Since(base, 0) && Expired(b.sent[0], now))
    || (forall j :: 0 <= j < |b.sent| && b.sent[j].sentTime == 0 ==> Expired(b.sent[j], now))
    || (forall j :: 0 <= j < |b.sent| && Since(base, 0) < Since(base, b.sent[j].sentTime) ==> !Expired(b.sent[j], now))
  }

  /** The host looks for timeouts only then. */
  predicate ScanDue(b: Outbox, now: uint32) {
    b.sent != [] && Compare(now, b.nextTimeout) >= 0
  }

  /** When a scan is due the first message in flight has timed out. */
  lemma DueExpires(b: Outbox, base: uint32, now: uint32)
    requires Silent(b, base, Since(base, now)) && Since(base, now) < OVERFLOW && ScanDue(b, now)
    ensures Expired(b.sent[0], now) && Lag(now, b.sent[0].sentTime) == Since(base, now) - Since(base, b.sent[0].sentTime)
  {
    var m := b.sent[0];
    assert SentOk(m, b.earliestTimeout, base, Since(base, now));
    Elapsed(base, m.sentTime, now, Since(base, now));
    NotYet(base, m.sentTime, m.timeout, now);
    hide Since, Lag, BackedOff, Ordered, Recorded;
  }

  lemma NotYet(base: uint32, sent: uint32, timeout: uint32, now: uint32)
    requires Since(base, sent) <= Since(base, now) < OVERFLOW && timeout <= LONGEST
    requires Compare(now, Plus(sent, timeout)) >= 0
    ensures Since(base, now) - Since(base, sent) >= timeout
  {
    var d := Since(base, now) - Since(base, sent);
    MinusSince(base, now, sent);
    assert Minus(now, sent) == d;
    if d < timeout {
      MinusPlus(now, sent, timeout);
    }
  }

  lemma MinusPlus(now: uint32, sent: uint32, timeout: uint32)
    requires Minus(now, sent) < timeout
    ensures Minus(now, Plus(sent, timeout)) == Minus(now, sent) - timeout + WRAP
  {
    var a, b := now - sent, sent + timeout;
    assert a % WRAP == if a >= 0 then a else a + WRAP;
    assert b % WRAP == if b < WRAP then b else b - WRAP;
    var c := now - b % WRAP;
    assert c % WRAP == if c >= 0 then c else c + WRAP;
  }

  lemma FallingClear(b: Outbox, base: uint32, now: uint32)
    requires Silent(b, base, Since(base, now)) && Since(base, now) < OVERFLOW && ScanDue(b, now) && Falling(b.sent)
    ensures Clear(b, base, now)
  {
    DueExpires(b, base, now);
    var clock, h := Since(base, now), b.sent[0];
    hide BackedOff, ScanDue, Recorded;
    if h.sentTime == 0 {
      forall j | 0 <= j < |b.sent| && b.sent[j].sentTime == 0 && clock - Since(base, 0) >= 2
        ensures Expired(b.sent[j], now)
      {
        assert b.sent[j].timeout <= h.timeout || b.sent[j].timeout <= 2;
        hide Since, Lag;
      }
      forall j | 0 <= j < |b.sent| && Since(base, 0) < Since(base, b.sent[j].sentTime) && clock - Since(base, 0) < 2
        ensures !Expired(b.sent[j], now)
      {
        LaterNotYet(b, base, now, j);
      }
    } else if Since(base, h.sentTime) >= Since(base, 0) {
      SinceInjective(base, h.sentTime, 0);
      forall j | 0 <= j < |b.sent|
        ensures b.sent[j].sentTime != 0
      {
        assert Since(base, h.sentTime) <= Since(base, b.sent[j].sentTime);
      }
    }
  }

  lemma LaterNotYet(b: Outbox, base: uint32, now: uint32, j: nat)
    requires Silent(b, base, Since(base, now)) && j < |b.sent| && Since(base, b.sent[j].sentTime) == Since(base, now)
    ensures !Expired(b.sent[j], now)
  {
    assert SentOk(b.sent[j], b.earliestTimeout, base, Since(base, now));
    Elapsed(base, b.sent[j].sentTime, now, Since(base, now));
    hide Since, Lag, BackedOff;
  }

  // ------------------------------------------------------------- arithmetic

  lemma PowStep(k: nat)
    ensures Pow2(k + 1) == 2 * Pow2(k) && Pow2(k) >= 1
  {
  }

  lemma {:induction false} PowMono(j: nat, k: nat)
    requires j <= k
    ensures Pow2(j) <= Pow2(k)
    decreases k
  {
    if j < k {
      PowMono(j, k - 1);
    }
  }

  lemma AtLeast(r: nat, p: int, q: int)
    requires p >= q
    ensures r * p >= r * q
  {
  }

  lemma DoubleProduct(r: nat, k: nat)
    ensures r * Pow2(k + 1) == 2 * (r * Pow2(k)) && r <= r * Pow2(k)
  {
    PowStep(k);
    assert r * (2 * Pow2(k)) == 2 * (r * Pow2(k));
    AtLeast(r, Pow2(k), 1);
  }

  lemma Distribute(r: nat, p: int, q: int)
    ensures r * (p - q) == r * p - r * q
  {
  }

  lemma TooLong(r: nat, k: nat, slack: nat)
    requires r >= 1 && 1 <= slack <= 2
    ensures k > 12 ==> r * (Pow2(k) - slack) >= MIN_TIMEOUT
    ensures k > 5 && r >= 79 + slack ==> r * (Pow2(k) - slack) >= MIN_TIMEOUT
  {
    assert Pow2(6) == 64 && Pow2(7) == 128 && Pow2(13) == 8192;
    if k > 12 {
      PowMono(13, k);
      Product(r, Pow2(k) - slack, 1, 8190);
    } else if k > 5 && r >= 79 + slack {
      PowMono(6, k);
      Product(r, Pow2(k) - slack, if slack == 1 then 80 else 81, if slack == 1 then 63 else 62);
    }
    hide Pow2;
  }

  lemma Product(a: nat, b: int, c: nat, d: nat)
    requires a >= c && b >= d
    ensures a * b >= c * d
  {
    AtLeast(a, b, d);
    AtLeast(d, a, c);
  }

  /** The numbers: no message survives a thirteenth timeout, nor a sixth when its
      timeout was 80 ms, or 81 ms if it was first sent at instant 0. */
  lemma FewTimeouts(r: nat, k: nat, slack: nat)
    requires r >= 1 && 1 <= slack <= 2 && Survivable(r, k, slack)
    ensures k <= 12 && (r >= 79 + slack ==> k <= 5)
  {
    TooLong(r, k, slack);
  }

  lemma SurvivedBefore(r: nat, k: nat, slack: nat)
    requires slack <= 2 && Survivable(r, k + 1, slack)
    ensures Survivable(r, k, slack)
  {
    PowStep(k);
    AtLeast(r, Pow2(k + 1) - slack, Pow2(k) - slack);
  }

  /** One more timeout, at a lag that does not end the connection. */
  lemma LagSurvived(r: nat, k: nat, slack: nat, lag: nat, limit: nat)
    requires 1 <= r < WRAP && 1 <= slack <= 2 && lag >= r * (Pow2(k + 1) - slack)
    requires limit <= TIMEOUT_LIMIT * r && lag < MAX_TIMEOUT && (r * Pow2(k) < limit || lag < MIN_TIMEOUT)
    ensures Survivable(r, k + 1, slack)
  {
    if k >= 5 {
      PowMono(5, k);
      assert Pow2(5) == 32;
      PowStep(k);
      AtLeast(r, Pow2(k + 1) - slack, 62);
      AtLeast(r, Pow2(k), 32);
    }
  }

  // --------------------------------------------------------------- one step

  /** Distances on the clock, for two times of the run. */
  lemma Elapsed(base: uint32, earlier: uint32, now: uint32, clock: nat)
    requires Since(base, earlier) <= Since(base, now) == clock < OVERFLOW
    ensures Lag(now, earlier) == clock - Since(base, earlier)
  {
    LagAndCompareExact(base, now, earlier);
  }

  lemma EarliestIsEarlier(b: Outbox, m: Outgoing, base: uint32, clock: nat)
    requires Since(base, m.sentTime) <= clock < OVERFLOW
    requires b.earliestTimeout != 0 ==> Since(base, b.earliestTimeout) <= clock
    requires m.sentTime == 0 ==> b.earliestTimeout == 0 || Since(base, b.earliestTimeout) < Since(base, 0)
    ensures Earliest(b, m) == 0 <==> b.earliestTimeout == 0 && m.sentTime == 0
    ensures Earliest(b, m) != 0 ==> Since(base, Earliest(b, m)) <= Since(base, m.sentTime)
    ensures b.earliestTimeout != 0 ==> Since(base, Earliest(b, m)) <= Since(base, b.earliestTimeout)
    ensures Earliest(b, m) == m.sentTime || Earliest(b, m) == b.earliestTimeout
  {
    if b.earliestTimeout != 0 {
      LagAndCompareExact(base, m.sentTime, b.earliestTimeout);
    }
  }

  /** A message that times out without the connection being given up has been
      backed off few enough times, and has waited for it. */
  lemma TimeoutKeepsBound(b: Outbox, m: Outgoing, base: uint32, now: uint32) returns (r: nat)
    requires Since(base, now) < OVERFLOW && SentOk(m, b.earliestTimeout, base, Since(base, now))
    requires b.earliestTimeout != 0 ==> Since(base, b.earliestTimeout) <= Since(base, now)
    requires m.sentTime == 0 ==> b.earliestTimeout == 0 || Since(base, b.earliestTimeout) < Since(base, 0)
    requires Expired(m, now) && !GivesUp(Earliest(b, m), m, now)
    ensures BackOff(m).timeout == 2 * m.timeout <= LONGEST
    ensures BackedOffBy(BackOff(m), r, Earliest(b, m), base, Since(base, now))
  {
    hide Pow2, Lag, Since, Earliest, Survivable;
    r :| BackedOffBy(m, r, b.earliestTimeout, base, Since(base, m.sentTime));
    var clock, k, e := Since(base, now), m.timeouts, Earliest(b, m);
    EarliestIsEarlier(b, m, base, clock);
    Elapsed(base, m.sentTime, now, clock);
    BackOffDoubled(m, r, Lag(now, m.sentTime));
    DoubleProduct(r, k);
    Distribute(r, Pow2(k + 1), Slack(m.firstSent));
    PowOne(k);
    if e == 0 {
      FirstLost(r);
    } else {
      Elapsed(base, e, now, clock);
      LagSurvived(r, k, Slack(m.firstSent), Lag(now, e), m.timeoutLimit);
    }
  }

  lemma BackOffDoubled(m: Outgoing, r: nat, lag: nat)
    requires Doubled(m, r) && m.timeout <= lag < OVERFLOW
    ensures Doubled(BackOff(m), r) && BackOff(m).timeout == 2 * m.timeout <= LONGEST
  {
    DoubleProduct(r, m.timeouts);
    ShortTimeout(r, m.timeouts, lag);
    hide Pow2;
  }

  lemma PowOne(k: nat)
    ensures k == 0 ==> Pow2(k) == 1 && Pow2(k + 1) == 2
    ensures k == 1 ==> Pow2(k) == 2
  {
  }

  lemma FirstLost(r: nat)
    ensures Survivable(r, 1, 2)
  {
    assert Pow2(1) == 2;
  }

  lemma ShortTimeout(r: nat, k: nat, lag: nat)
    requires r * Pow2(k) <= lag < OVERFLOW
    ensures 2 * (r * Pow2(k)) <= LONGEST
  {
  }

  /** The timeout that cannot be survived is the one that gives the connection up. */
  lemma LastTimeoutGivesUp(b: Outbox, m: Outgoing, base: uint32, now: uint32, r: nat)
    requires Since(base, now) < OVERFLOW && SentOk(m, b.earliestTimeout, base, Since(base, now)) && Doubled(m, r)
    requires b.earliestTimeout != 0 ==> Since(base, b.earliestTimeout) <= Since(base, now)
    requires m.sentTime == 0 ==> b.earliestTimeout == 0 || Since(base, b.earliestTimeout) < Since(base, 0)
    requires Expired(m, now) && !Survivable(r, m.timeouts + 1, Slack(m.firstSent))
    ensures GivesUp(Earliest(b, m), m, now)
  {
    if !GivesUp(Earliest(b, m), m, now) {
      var r' := TimeoutKeepsBound(b, m, base, now);
      SameFirst(m, r, r');
    }
  }

  lemma SameFirst(m: Outgoing, r: nat, r': nat)
    requires m.timeout == r * Pow2(m.timeouts) && 2 * m.timeout == r' * Pow2(m.timeouts + 1)
    ensures r == r'
  {
    PowStep(m.timeouts);
    DoubleProduct(r', m.timeouts);
    var p := Pow2(m.timeouts);
    assert r * p == r' * p;
  }

  // -------------------------------------------------------------- all steps

  lemma WaitsLonger(m: Outgoing, e: uint32, e': uint32, base: uint32, since: nat, since': nat)
    requires BackedOff(m, e, base, since) && since <= since'
    requires e != 0 ==> e' != 0 && Since(base, e') <= Since(base, e)
    ensures BackedOff(m, e', base, since')
  {
    if m.timeout != 0 {
      var r :| BackedOffBy(m, r, e, base, since);
      assert BackedOffBy(m, r, e', base, since');
    }
  }

  lemma AllWaitLonger(s: seq<Outgoing>, e: uint32, e': uint32, base: uint32, since: nat, since': nat)
    requires forall i :: 0 <= i < |s| ==> WaitingOk(s[i], e, base, since)
    requires since <= since' && (e != 0 ==> e' != 0 && Since(base, e') <= Since(base, e))
    ensures forall i :: 0 <= i < |s| ==> WaitingOk(s[i], e', base, since')
  {
    forall i | 0 <= i < |s|
      ensures WaitingOk(s[i], e', base, since')
    {
      WaitsLonger(s[i], e, e', base, since, since');
    }
  }

  lemma AllSentStay(s: seq<Outgoing>, e: uint32, e': uint32, base: uint32, clock: nat, clock': nat)
    requires forall i :: 0 <= i < |s| ==> SentOk(s[i], e, base, clock)
    requires clock <= clock' && (e != 0 ==> e' != 0 && Since(base, e') <= Since(base, e))
    ensures forall i :: 0 <= i < |s| ==> SentOk(s[i], e', base, clock')
  {
    forall i | 0 <= i < |s|
      ensures SentOk(s[i], e', base, clock')
    {
      WaitsLonger(s[i], e, e', base, Since(base, s[i].sentTime), Since(base, s[i].sentTime));
    }
  }

  /** Time passing leaves the state as it was. */
  lemma TimePasses(b: Outbox, base: uint32, clock: nat, clock': nat)
    requires Silent(b, base, clock) && clock <= clock' < OVERFLOW
    ensures Silent(b, base, clock')
  {
    AllWaitLonger(b.outgoing, b.earliestTimeout, b.earliestTimeout, base, clock, clock');
    AllSentStay(b.sent, b.earliestTimeout, b.earliestTimeout, base, clock, clock');
  }

  lemma MoveOneStaysSilent(b: Outbox, base: uint32, now: uint32)
    requires Silent(b, base, Since(base, now)) && b.outgoing != []
    ensures Silent(MoveOne(b, now), base, Since(base, now))
  {
    hide Pow2, BackedOff, Since;
    var b', e, clock := MoveOne(b, now), b.earliestTimeout, Since(base, now);
    var m, m' := b.outgoing[0], b'.sent[|b.sent|];
    assert WaitingOk(m, e, base, clock);
    StampOk(b, m, m', base, now);
    Appended(b.sent, m', e, base, clock);
    assert forall i :: 0 <= i < |b'.outgoing| ==> b'.outgoing[i] == b.outgoing[i + 1];
    assert b.sent != [] ==> b'.sent[0] == b.sent[0];
    hide WaitingOk, SentOk, Recorded, Ordered, Stamp;
  }

  lemma Appended(s: seq<Outgoing>, m: Outgoing, e: uint32, base: uint32, clock: nat)
    requires forall i :: 0 <= i < |s| ==> SentOk(s[i], e, base, clock)
    requires Ordered(s, base) && Recorded(s, e, base)
    requires SentOk(m, e, base, clock) && Since(base, m.sentTime) == clock && (e != 0 ==> Since(base, e) <= clock)
    ensures forall i :: 0 <= i < |s + [m]| ==> SentOk((s + [m])[i], e, base, clock)
    ensures Ordered(s + [m], base) && Recorded(s + [m], e, base)
  {
    if m.sentTime == 0 && e != 0 {
      SinceInjective(base, e, 0);
    }
    hide BackedOff, Since;
  }

  lemma StampOk(b: Outbox, m: Outgoing, m': Outgoing, base: uint32, now: uint32)
    requires m' == Stamp(m, now, b.roundTripTime, b.variance) && Estimated(b)
    requires WaitingOk(m, b.earliestTimeout, base, Since(base, now))
    ensures SentOk(m', b.earliestTimeout, base, Since(base, now))
  {
    PowOne(0);
    PlusSmall(b.roundTripTime, 4 * b.variance);
    hide Since;
    if m.timeouts == 0 {
      assert Doubled(m', m'.timeout) by {
        if m.timeout != 0 {
          var r :| BackedOffBy(m, r, b.earliestTimeout, base, Since(base, now));
        }
      }
      assert BackedOffBy(m', m'.timeout, b.earliestTimeout, base, Since(base, now));
    } else {
      var r :| BackedOffBy(m, r, b.earliestTimeout, base, Since(base, now));
      assert BackedOffBy(m', r, b.earliestTimeout, base, Since(base, now));
    }
  }

  lemma {:induction false} TransmitStaysSilent(b: Outbox, p: Packing, mtu: nat, base: uint32, now: uint32)
    requires Silent(b, base, Since(base, now)) && p.size <= mtu
    ensures Silent(Transmit(b, p, mtu, now).0, base, Since(base, now))
    decreases |b.outgoing|
  {
    if NextReliable(b, p, mtu) == Ready {
      MoveOneStaysSilent(b, base, now);
      hide Silent;
      TransmitStaysSilent(MoveOne(b, now), PackOne(p, b.outgoing[0]), mtu, base, now);
    }
  }

  /** The scan looks at the older messages first. */
  lemma StaysRecorded(b: Outbox, i: nat, base: uint32, now: uint32)
    requires Silent(b, base, Since(base, now)) && i < |b.sent| && Expired(b.sent[i], now) && Clear(b, base, now)
    requires forall j :: 0 <= j < i ==> !Expired(b.sent[j], now)
    ensures Recorded(RemoveAt(b.sent, i), Earliest(b, b.sent[i]), base)
  {
    var m, clock := b.sent[i], Since(base, now);
    EarliestIsEarlier(b, m, base, clock);
    forall j | 0 <= j < |b.sent| && j != i && b.sent[j].sentTime == 0
      ensures Earliest(b, m) == 0 || Since(base, Earliest(b, m)) < Since(base, 0)
    {
      if b.earliestTimeout == 0 && m.sentTime != 0 {
        SinceInjective(base, m.sentTime, 0);
        hide Since, Earliest, Expired;
        assert i < j ==> Since(base, m.sentTime) <= Since(base, 0);
      }
    }
    hide Silent, Earliest;
    assert forall j :: 0 <= j < |RemoveAt(b.sent, i)| ==> RemoveAt(b.sent, i)[j] == b.sent[if j < i then j else j + 1];
  }

  lemma StaysClear(b: Outbox, i: nat, base: uint32, now: uint32)
    requires Silent(b, base, Since(base, now)) && i < |b.sent| && Expired(b.sent[i], now) && Clear(b, base, now)
    requires forall j :: 0 <= j < i ==> !Expired(b.sent[j], now)
    ensures Clear(TimeOutOne(b, i), base, now)
  {
    var rest := RemoveAt(b.sent, i);
    EarliestIsEarlier(b, b.sent[i], base, Since(base, now));
    hide Silent, Earliest, Since, Expired;
    assert forall j :: 0 <= j < |rest| ==> rest[j] == b.sent[if j < i then j else j + 1];
  }

  lemma TimeOutOneStaysSilent(b: Outbox, i: nat, base: uint32, now: uint32)
    requires Silent(b, base, Since(base, now)) && i < |b.sent| && Clear(b, base, now)
    requires Expired(b.sent[i], now) && !GivesUp(Earliest(b, b.sent[i]), b.sent[i], now)
    requires forall j :: 0 <= j < i ==> !Expired(b.sent[j], now)
    ensures Silent(TimeOutOne(b, i), base, Since(base, now)) && Clear(TimeOutOne(b, i), base, now)
  {
    var m, e, e', clock := b.sent[i], b.earliestTimeout, Earliest(b, b.sent[i]), Since(base, now);
    var rest := RemoveAt(b.sent, i);
    EarliestIsEarlier(b, m, base, clock);
    StaysRecorded(b, i, base, now);
    StaysClear(b, i, base, now);
    var r := TimeoutKeepsBound(b, m, base, now);
    AllWaitLonger(b.outgoing, e, e', base, clock, clock);
    AllSentStay(b.sent, e, e', base, clock, clock);
    assert WaitingOk(BackOff(m), e', base, clock);
    hide Pow2, Since, Earliest, BackedOff, SentOk, WaitingOk, Expired, GivesUp, Recorded, Clear;
    assert forall j :: 0 <= j < |rest| ==> rest[j] == b.sent[if j < i then j else j + 1];
  }

  lemma {:induction false} CheckStaysSilent(b: Outbox, i: nat, base: uint32, now: uint32)
    requires Silent(b, base, Since(base, now)) && i <= |b.sent| && Clear(b, base, now) && !CheckTimeouts(b, i, now).1
    requires forall j :: 0 <= j < i ==> !Expired(b.sent[j], now)
    ensures Silent(CheckTimeouts(b, i, now).0, base, Since(base, now))
    decreases |b.sent| - i
  {
    if i < |b.sent| {
      if !Expired(b.sent[i], now) {
        CheckStaysSilent(b, i + 1, base, now);
      } else {
        TimeOutOneStaysSilent(b, i, base, now);
        hide Silent, Clear;
        CheckStaysSilent(TimeOutOne(b, i), i, base, now);
      }
    }
  }

  // --------------------------------------------------------- giving up in time

  /** It has timed out and waited too long: 30 seconds since it was first sent, or 5
      when its timeout has reached the limit. Nothing is said of messages first sent
      at instant 0, whose first timeout is not recorded. */
  predicate Overdue(m: Outgoing, now: uint32) {
    && m.firstSent != 0 && Expired(m, now)
    && (Lag(now, m.firstSent) >= MAX_TIMEOUT || (m.timeout >= m.timeoutLimit && Lag(now, m.firstSent) >= MIN_TIMEOUT))
  }

  /** A scan for timeouts gives the connection up when a message is overdue. */
  predicate Prompt(b: Outbox, now: uint32) {
    (exists i :: 0 <= i < |b.sent| && Overdue(b.sent[i], now)) ==> CheckTimeouts(b, 0, now).1
  }

  lemma OverdueGivesUp(b: Outbox, m: Outgoing, base: uint32, now: uint32)
    requires Since(base, now) < OVERFLOW && SentOk(m, b.earliestTimeout, base, Since(base, now))
    requires b.earliestTimeout != 0 ==> Since(base, b.earliestTimeout) <= Since(base, now)
    requires m.sentTime == 0 ==> b.earliestTimeout == 0 || Since(base, b.earliestTimeout) < Since(base, 0)
    requires Overdue(m, now)
    ensures GivesUp(Earliest(b, m), m, now)
  {
    var clock, e := Since(base, now), Earliest(b, m);
    EarliestIsEarlier(b, m, base, clock);
    var r :| BackedOffBy(m, r, b.earliestTimeout, base, Since(base, m.sentTime));
    hide Pow2, Earliest, Survivable, Doubled, Expired;
    Elapsed(base, m.firstSent, now, clock);
    assert e != 0 && Since(base, e) <= Since(base, m.firstSent);
    Elapsed(base, e, now, clock);
    hide Since, Lag;
  }

  lemma {:induction false} CheckIsPrompt(b: Outbox, i: nat, j: nat, base: uint32, now: uint32)
    requires Silent(b, base, Since(base, now)) && Clear(b, base, now) && i <= j < |b.sent| && Overdue(b.sent[j], now)
    requires forall k :: 0 <= k < i ==> !Expired(b.sent[k], now)
    ensures CheckTimeouts(b, i, now).1
    decreases |b.sent| - i
  {
    var m := b.sent[i];
    if !Expired(m, now) {
      CheckIsPrompt(b, i + 1, j, base, now);
    } else if i == j {
      assert SentOk(m, b.earliestTimeout, base, Since(base, now));
      OverdueGivesUp(b, m, base, now);
    } else if !GivesUp(Earliest(b, m), m, now) {
      TimeOutOneStaysSilent(b, i, base, now);
      var c := TimeOutOne(b, i);
      assert c.sent == RemoveAt(b.sent, i) && c.sent[j - 1] == b.sent[j];
      assert forall k :: 0 <= k < i ==> c.sent[k] == b.sent[k];
      hide Silent, Clear, Overdue, Since, TimeOutOne, Expired, GivesUp, Earliest;
      CheckIsPrompt(c, i, j - 1, base, now);
    }
  }

  /** When a scan is due and Falling holds, an overdue message ends the connection. */
  lemma FallingIsPrompt(b: Outbox, base: uint32, now: uint32)
    requires Silent(b, base, Since(base, now)) && Since(base, now) < OVERFLOW && ScanDue(b, now) && Falling(b.sent)
    ensures Prompt(b, now)
  {
    FallingClear(b, base, now);
    if j :| 0 <= j < |b.sent| && Overdue(b.sent[j], now) {
      CheckIsPrompt(b, 0, j, base, now);
    }
  }

  // -------------------------------------------------------- hearing the peer

  /** A client that has just heard from its peer: nothing is recorded, and no message
      has timed out since. */
  ghost predicate Calm(b: Outbox, base: uint32, clock: nat) {
    && clock < OVERFLOW && Estimated(b) && Due(b) && b.earliestTimeout == 0
    && (forall i :: 0 <= i < |b.outgoing| ==> Rested(b.outgoing[i]))
    && (forall i :: 0 <= i < |b.sent| ==> InFlight(b.sent[i], base, clock))
    && Ordered(b.sent, base)
  }

  predicate Rested(m: Outgoing) {
    m.timeouts == 0 && m.timeout <= LONGEST && (m.timeout != 0 ==> m.timeoutLimit <= TIMEOUT_LIMIT * m.timeout)
  }

  predicate InFlight(m: Outgoing, base: uint32, clock: nat) {
    Rested(m) && m.timeout != 0 && m.firstSent == m.sentTime && Since(base, m.sentTime) <= clock
  }

  lemma RestedIsBackedOff(m: Outgoing, earliest: uint32, base: uint32, since: nat)
    requires Rested(m)
    ensures BackedOff(m, earliest, base, since)
  {
    PowOne(0);
    if m.timeout != 0 {
      assert BackedOffBy(m, m.timeout, earliest, base, since);
    }
  }

  lemma CalmIsSilent(b: Outbox, base: uint32, clock: nat)
    requires Calm(b, base, clock)
    ensures Silent(b, base, clock)
  {
    forall i | 0 <= i < |b.sent|
      ensures SentOk(b.sent[i], b.earliestTimeout, base, clock)
    {
      assert InFlight(b.sent[i], base, clock);
      RestedIsBackedOff(b.sent[i], b.earliestTimeout, base, Since(base, b.sent[i].sentTime));
      hide BackedOff, Since;
    }
    forall i | 0 <= i < |b.outgoing|
      ensures WaitingOk(b.outgoing[i], b.earliestTimeout, base, clock)
    {
      assert Rested(b.outgoing[i]);
      RestedIsBackedOff(b.outgoing[i], b.earliestTimeout, base, clock);
    }
    hide Ordered, SentOk, WaitingOk, InFlight;
  }

  /** Whatever has timed out before, hearing from the peer makes the client calm. */
  lemma HeardIsCalm(b: Outbox, measured: uint32, base: uint32, clock: nat)
    requires Silent(b, base, clock) && measured < OVERFLOW
    ensures Calm(Heard(b, measured), base, clock)
  {
    var h := Heard(b, measured);
    SmoothedWithinDay(b.roundTripTime, b.variance, measured);
    forall i | 0 <= i < |h.sent|
      ensures InFlight(h.sent[i], base, clock)
    {
      assert SentOk(b.sent[i], b.earliestTimeout, base, clock);
      BackedOffRests(b.sent[i], b.earliestTimeout, base, Since(base, b.sent[i].sentTime));
      hide BackedOff, Since;
    }
    forall i | 0 <= i < |h.outgoing|
      ensures Rested(h.outgoing[i])
    {
      assert WaitingOk(b.outgoing[i], b.earliestTimeout, base, clock);
      BackedOffRests(b.outgoing[i], b.earliestTimeout, base, clock);
      hide BackedOff, Since;
    }
    hide Smoothed, InFlight, Rested, SentOk, WaitingOk;
  }

  lemma BackedOffRests(m: Outgoing, earliest: uint32, base: uint32, since: nat)
    requires BackedOff(m, earliest, base, since)
    ensures Rested(m.(timeouts := 0, firstSent := m.sentTime))
  {
    if m.timeout != 0 {
      var r :| BackedOffBy(m, r, earliest, base, since);
      PowStep(m.timeouts);
      AtLeast(r, Pow2(m.timeouts), 1);
    }
  }

  lemma SmoothedWithinDay(roundTripTime: uint32, variance: uint32, measured: uint32)
    requires 1 <= roundTripTime <= OVERFLOW && variance <= OVERFLOW && measured <= OVERFLOW
    ensures var (t, v) := Smoothed(roundTripTime, variance, measured); 1 <= t <= OVERFLOW && v <= OVERFLOW
  {
  }

  /** The estimate moves an eighth of the way to what was measured, rounding towards
      where it was; three quarters of the variance stay, and a quarter of the distance
      left is added. */
  lemma SmoothedExactly(roundTripTime: uint32, variance: uint32, measured: uint32)
    ensures var (t, v) := Smoothed(roundTripTime, variance, measured);
            && (if measured >= roundTripTime
                then roundTripTime <= t && 8 * (t - roundTripTime) <= measured - roundTripTime < 8 * (t - roundTripTime) + 8
                else t <= roundTripTime && 8 * (roundTripTime - t) <= roundTripTime - measured < 8 * (roundTripTime - t) + 8)
            && var d := if measured >= t then measured - t else t - measured;
               3 * variance + d - 3 <= 4 * v <= 3 * variance + d + 3
  {
  }

  /** The measurement is the time the exchange took, below 0x8000 ms. */
  lemma MeasuredExact(sent: uint32, now: uint32)
    requires Minus(now, sent) < 0x8000
    ensures Measured(sent % 0x1_0000, now) == Some(Minus(now, sent))
  {
    RebuildExact(sent, now);
    hide RebuildSentTime;
  }

  /** After a measurement, a message sent for the first time is given at least as long an
      answer, unless the variance was zero and the distance left is no multiple of four. */
  lemma AwaitsMeasured(m: Outgoing, now: uint32, roundTripTime: uint32, variance: uint32, measured: uint32)
    requires m.New() && 1 <= roundTripTime <= OVERFLOW && variance <= OVERFLOW && measured <= OVERFLOW
    ensures var (t, v) := Smoothed(roundTripTime, variance, measured);
            var timeout := Stamp(m, now, t, v).timeout;
            && timeout >= t
            && (timeout >= measured <==> variance > 0 || measured <= t || (measured - t) % 4 == 0)
  {
    var (t, v) := Smoothed(roundTripTime, variance, measured);
    SmoothedWithinDay(roundTripTime, variance, measured);
    PlusSmall(t, 4 * v);
    if measured > t && variance == 0 {
      assert v == (measured - t) / 4;
    }
  }

  lemma DisposeStaysSilent(b: Outbox, number: uint16, channelId: nat, base: uint32, clock: nat)
    requires Silent(b, base, clock)
    ensures Silent(Dispose(b, number, channelId), base, clock)
  {
    match FindSent(b.sent, number, channelId)
    case None =>
    case Some(i) =>
      var rest := RemoveAt(b.sent, i);
      OrderedRemove(b.sent, i, b.earliestTimeout, base);
      assert forall j :: 0 <= j < |rest| ==> rest[j] == b.sent[if j < i then j else j + 1];
      hide FindSent, SentOk, WaitingOk, Since, Ordered, Recorded;
  }

  lemma OrderedRemove(s: seq<Outgoing>, i: nat, earliest: uint32, base: uint32)
    requires i < |s| && Ordered(s, base) && Recorded(s, earliest, base)
    ensures Ordered(RemoveAt(s, i), base) && Recorded(RemoveAt(s, i), earliest, base)
  {
    var rest := RemoveAt(s, i);
    assert forall j :: 0 <= j < |rest| ==> rest[j] == s[if j < i then j else j + 1];
    hide Since;
  }

  // ------------------------------------------------------------------- runs

  /** What can happen to a client, in any state: messages are queued, sent and timed
      out, the peer acknowledges one, the connection is closed gracefully, and what
      does not concern the reliable queues changes. */
  datatype Event =
    | Queue(m: Outgoing)
    | Send(packing: Packing, mtu: nat, now: uint32)
    | Check(now: uint32)
    | Acknowledged(number: uint16, channelId: nat, measured: uint32, disconnectNumber: uint16)
    | Close(number: uint16)
    | Other(state: ClientState, unreliable: seq<Outgoing>, windowSize: nat)

  predicate Live(state: ClientState) {
    state != Disconnected && state != Zombie
  }

  /** The clock never goes back, and stays within a day of the start. A check is made
      when one is due, and the run ends when it gives the connection up. */
  ghost predicate Enabled(b: Outbox, e: Event, base: uint32, clock: nat) {
    match e
    case Queue(m) => m.New()
    case Send(p, mtu, now) => Live(b.state) && p.size <= mtu && clock <= Since(base, now) < OVERFLOW
    case Check(now) => Scans(b, now, base, clock) && !CheckTimeouts(b, 0, now).1
    case Acknowledged(_, _, measured, _) => Live(b.state) && measured < OVERFLOW
    case Close(_) => b.state == Connected || b.state == DelayingDisconnect
    case Other(_, _, _) => true
  }

  predicate Scans(b: Outbox, now: uint32, base: uint32, clock: nat) {
    Live(b.state) && ScanDue(b, now) && clock <= Since(base, now) < OVERFLOW
  }

  function Effect(b: Outbox, e: Event): (r: Outbox) {
    match e
    case Queue(m) => b.(outgoing := b.outgoing + [m])
    case Send(p, mtu, now) => if p.size <= mtu then Transmit(b, p, mtu, now).0 else b
    case Check(now) => CheckTimeouts(b, 0, now).0
    case Acknowledged(number, channelId, measured, disconnectNumber) =>
      OnAcknowledge(b, number, channelId, measured, disconnectNumber)
    case Close(number) =>
      if b.state == Connected || b.state == DelayingDisconnect then CloseGracefully(b, number) else b
    case Other(state, unreliable, windowSize) => b.(state := state, unreliable := unreliable, windowSize := windowSize)
  }

  function Tick(e: Event, base: uint32, clock: nat): nat {
    match e
    case Send(_, _, now) => Since(base, now)
    case Check(now) => Since(base, now)
    case _ => clock
  }

  function After(b: Outbox, events: seq<Event>): (r: Outbox)
    decreases |events|
  {
    if events == [] then b else Effect(After(b, events[..|events| - 1]), events[|events| - 1])
  }

  function ClockAfter(events: seq<Event>, base: uint32, clock: nat): (r: nat)
    decreases |events|
  {
    if events == [] then clock
    else Tick(events[|events| - 1], base, ClockAfter(events[..|events| - 1], base, clock))
  }

  ghost predicate ValidRun(b: Outbox, events: seq<Event>, base: uint32, clock: nat)
    decreases |events|
  {
    events == [] ||
    (var before := events[..|events| - 1];
     ValidRun(b, before, base, clock)
     && Enabled(After(b, before), events[|events| - 1], base, ClockAfter(before, base, clock)))
  }

  /** Falling holds in every state the run goes through. */
  ghost predicate FallingRun(b: Outbox, events: seq<Event>)
    decreases |events|
  {
    Falling(After(b, events).sent) && (events != [] ==> FallingRun(b, events[..|events| - 1]))
  }

  lemma QueueStaysSilent(b: Outbox, m: Outgoing, base: uint32, clock: nat)
    requires Silent(b, base, clock) && m.New()
    ensures Silent(b.(outgoing := b.outgoing + [m]), base, clock)
  {
    assert WaitingOk(m, b.earliestTimeout, base, clock);
    hide BackedOff, SentOk, WaitingOk, Since;
  }

  lemma AcknowledgedStaysSilent(b: Outbox, number: uint16, channelId: nat, measured: uint32, disconnectNumber: uint16,
                                base: uint32, clock: nat)
    requires Silent(b, base, clock) && measured < OVERFLOW
    ensures Silent(OnAcknowledge(b, number, channelId, measured, disconnectNumber), base, clock)
  {
    DisposeStaysSilent(b, number, channelId, base, clock);
    var d := Dispose(b, number, channelId);
    HeardIsCalm(d, measured, base, clock);
    var h := Heard(d, measured);
    CalmIsSilent(h, base, clock);
    CloseStaysSilent(h, disconnectNumber, base, clock);
    hide Dispose, Heard;
  }

  lemma CloseStaysSilent(b: Outbox, number: uint16, base: uint32, clock: nat)
    requires Silent(b, base, clock)
    ensures Silent(CloseWhenDrained(b, number), base, clock)
    ensures b.state == Connected || b.state == DelayingDisconnect ==> Silent(CloseGracefully(b, number), base, clock)
  {
    QueueStaysSilent(b.(outgoing := [], sent := []), DisconnectMessage(number), base, clock);
    assert [] + [DisconnectMessage(number)] == [DisconnectMessage(number)];
    hide SentOk, WaitingOk;
  }

  lemma EffectStaysSilent(b: Outbox, e: Event, base: uint32, clock: nat)
    requires Silent(b, base, clock) && Enabled(b, e, base, clock) && Falling(b.sent)
    ensures Silent(Effect(b, e), base, Tick(e, base, clock))
  {
    match e
    case Queue(m) => QueueStaysSilent(b, m, base, clock);
    case Send(p, mtu, now) =>
      TimePasses(b, base, clock, Since(base, now));
      TransmitStaysSilent(b, p, mtu, base, now);
    case Check(now) =>
      TimePasses(b, base, clock, Since(base, now));
      FallingClear(b, base, now);
      CheckStaysSilent(b, 0, base, now);
    case Acknowledged(number, channelId, measured, disconnectNumber) =>
      AcknowledgedStaysSilent(b, number, channelId, measured, disconnectNumber, base, clock);
    case Close(number) => CloseStaysSilent(b, number, base, clock);
    case Other(_, _, _) =>
      hide SentOk, WaitingOk;
  }

  lemma {:induction false} RunStaysSilent(b: Outbox, events: seq<Event>, base: uint32, clock: nat)
    requires Silent(b, base, clock) && ValidRun(b, events, base, clock)
    requires events != [] ==> FallingRun(b, events[..|events| - 1])
    ensures Silent(After(b, events), base, ClockAfter(events, base, clock))
    decreases |events|
  {
    if events != [] {
      var before := events[..|events| - 1];
      hide Silent, Enabled, Effect, Falling;
      RunStaysSilent(b, before, base, clock);
      EffectStaysSilent(After(b, before), events[|events| - 1], base, ClockAfter(before, base, clock));
    }
  }

  // -------------------------------------------------------------- the theorems

  /** Over all runs, in whatever states of the client, from one that has just heard from
      its peer or is new: while Falling holds, any scan for timeouts gives the connection
      up when a message is overdue. */
  lemma GivesUpInTime(b: Outbox, events: seq<Event>, base: uint32, clock: nat, now: uint32)
    requires Calm(b, base, clock) && ValidRun(b, events, base, clock) && FallingRun(b, events)
    requires Scans(After(b, events), now, base, ClockAfter(events, base, clock))
    ensures Prompt(After(b, events), now)
  {
    CalmIsSilent(b, base, clock);
    RunStaysSilent(b, events, base, clock);
    var a, c := After(b, events), ClockAfter(events, base, clock);
    hide ValidRun, After, ClockAfter, Calm, Prompt;
    TimePasses(a, base, c, Since(base, now));
    FallingIsPrompt(a, base, now);
  }

  /** A message of the two queues that has been sent, with its timeout when the peer
      was last heard. */
  ghost predicate Retransmitted(b: Outbox, m: Outgoing, r: nat) {
    m in b.outgoing + b.sent && m.timeout != 0 && Doubled(m, r)
  }

  /** So a message still being retransmitted has timed out, since the peer was last
      heard, only as often as can be survived: at most 12 times; at most 5 when its
      timeout was 80 ms or more, or 81 ms if it was first sent at instant 0. */
  lemma BoundedRetransmission(b: Outbox, events: seq<Event>, base: uint32, clock: nat, m: Outgoing, r: nat)
    requires Calm(b, base, clock) && ValidRun(b, events, base, clock) && FallingRun(b, events)
    requires Retransmitted(After(b, events), m, r)
    ensures Survivable(r, m.timeouts, Slack(m.firstSent))
    ensures m.timeouts <= 12 && (r >= 79 + Slack(m.firstSent) ==> m.timeouts <= 5)
  {
    CalmIsSilent(b, base, clock);
    RunStaysSilent(b, events, base, clock);
    var a, now := After(b, events), ClockAfter(events, base, clock);
    hide After, ValidRun, ClockAfter, Since, Calm, Falling;
    var since: nat := BackedSince(a, m, base, now);
    var q :| BackedOffBy(m, q, a.earliestTimeout, base, since);
    FewTimeouts(q, m.timeouts, Slack(m.firstSent));
    Cancel(q, r, m.timeouts);
  }

  lemma BackedSince(b: Outbox, m: Outgoing, base: uint32, clock: nat) returns (since: nat)
    requires Silent(b, base, clock) && m in b.outgoing + b.sent
    ensures BackedOff(m, b.earliestTimeout, base, since)
  {
    if m in b.sent {
      var i :| 0 <= i < |b.sent| && b.sent[i] == m;
      since := Since(base, m.sentTime);
    } else {
      var i :| 0 <= i < |b.outgoing| && b.outgoing[i] == m;
      since := clock;
    }
  }

  lemma Cancel(q: nat, r: nat, k: nat)
    requires q * Pow2(k) == r * Pow2(k)
    ensures q == r
  {
    PowStep(k);
    var p := Pow2(k);
    assert q * p == r * p;
  }
}
