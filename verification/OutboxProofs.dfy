/** What every step keeps of a client's outgoing queues, and what whole runs do. */
module OutboxProofs {
  import opened Words
  import opened Wrappers
  import opened Clock
  import opened Messages
  import opened OutgoingQueues

  function Total(s: seq<Outgoing>): (r: nat)
    decreases |s|
  {
    if s == [] then 0 else s[0].Length() + Total(s[1..])
  }

  function Keys(s: seq<Outgoing>): (r: seq<Identity>)
    ensures |r| == |s|
  {
    seq(|s|, i requires 0 <= i < |s| => s[i].Key())
  }

  /** The reliable messages not yet acknowledged. */
  function Pending(b: Outbox): multiset<Identity> {
    multiset(Keys(b.outgoing)) + multiset(Keys(b.sent))
  }

  /** The cached figures agree with the queues. */
  ghost predicate Accounted(b: Outbox) {
    && b.inTransit == Total(b.sent) <= MAX_WINDOW && b.windowSize <= MAX_WINDOW
    && (b.sent != [] ==> b.nextTimeout == Expiry(b.sent[0]))
  }

  lemma {:induction false} TotalConcat(a: seq<Outgoing>, b: seq<Outgoing>)
    ensures Total(a + b) == Total(a) + Total(b)
    decreases |a|
  {
    if a == [] {
      assert a + b == b;
    } else {
      assert (a + b)[1..] == a[1..] + b;
      TotalConcat(a[1..], b);
    }
  }

  lemma TotalOne(m: Outgoing)
    ensures Total([m]) == m.Length()
  {
    assert [m][1..] == [];
  }

  lemma Around(s: seq<Outgoing>, i: nat)
    requires i < |s|
    ensures s == s[..i] + ([s[i]] + s[i + 1..])
  {
  }

  lemma TotalRemove(s: seq<Outgoing>, i: nat)
    requires i < |s|
    ensures Total(s) == Total(RemoveAt(s, i)) + s[i].Length()
  {
    Around(s, i);
    TotalMiddle(s[..i], s[i], s[i + 1..]);
  }

  lemma TotalMiddle(a: seq<Outgoing>, m: Outgoing, c: seq<Outgoing>)
    ensures Total(a + ([m] + c)) == Total(a + c) + m.Length()
  {
    TotalConcat(a, [m] + c);
    TotalConcat([m], c);
    TotalOne(m);
    TotalConcat(a, c);
  }

  lemma KeysConcat(a: seq<Outgoing>, b: seq<Outgoing>)
    ensures Keys(a + b) == Keys(a) + Keys(b)
    ensures multiset(Keys(a + b)) == multiset(Keys(a)) + multiset(Keys(b))
  {
    assert Keys(a + b) == Keys(a) + Keys(b);
  }

  lemma KeysOne(m: Outgoing)
    ensures multiset(Keys([m])) == multiset{m.Key()}
  {
    assert Keys([m]) == [m.Key()];
  }

  lemma KeysRemove(s: seq<Outgoing>, i: nat)
    requires i < |s|
    ensures multiset(Keys(s)) == multiset(Keys(RemoveAt(s, i))) + multiset{s[i].Key()}
  {
    Around(s, i);
    KeysMiddle(s[..i], s[i], s[i + 1..]);
  }

  lemma KeysMiddle(a: seq<Outgoing>, m: Outgoing, c: seq<Outgoing>)
    ensures multiset(Keys(a + ([m] + c))) == multiset(Keys(a + c)) + multiset{m.Key()}
  {
    hide Keys;
    KeysConcat(a, [m] + c);
    KeysConcat([m], c);
    KeysOne(m);
    KeysConcat(a, c);
  }

  // ------------------------------------------------------- single steps

  lemma MoveOneKeeps(b: Outbox, p: Packing, mtu: nat, now: uint32)
    requires Accounted(b) && p.size <= mtu && NextReliable(b, p, mtu) == Ready
    ensures Accounted(MoveOne(b, now)) && Pending(MoveOne(b, now)) == Pending(b)
    ensures MoveOne(b, now).inTransit == b.inTransit + b.outgoing[0].Length()
  {
    var m := Stamp(b.outgoing[0], now, b.roundTripTime, b.variance);
    PlusSmall(b.inTransit, m.Length());
    hide Plus;
    TotalConcat(b.sent, [m]);
    TotalOne(m);
    assert b.outgoing == [b.outgoing[0]] + b.outgoing[1..];
    KeysConcat([b.outgoing[0]], b.outgoing[1..]);
    KeysConcat(b.sent, [m]);
    KeysOne(m);
    KeysOne(b.outgoing[0]);
  }

  /** The messages moved by a transmission are a prefix of the outgoing queue, in order. */
  ghost predicate Moved(b: Outbox, r: Outbox, k: nat) {
    && k <= |b.outgoing| && r.outgoing == b.outgoing[k..]
    && Keys(r.sent) == Keys(b.sent + b.outgoing[..k])
  }

  /** send_reliable: a prefix of the outgoing queue moves to the end of the sent
      queue; nothing is lost; the figures stay right; the window is respected; the
      datagram is not overfilled; and the loop stops only when the queue is empty,
      the window is closed for the next message, or the datagram is full. */
  lemma {:induction false} TransmitKeeps(b: Outbox, p: Packing, mtu: nat, now: uint32) returns (k: nat)
    requires Accounted(b) && Fits(p, mtu)
    ensures var (b', p', more) := Transmit(b, p, mtu, now);
            && Accounted(b') && Pending(b') == Pending(b)
            && Moved(b, b', k)
            && (b'.inTransit <= b.windowSize || b'.inTransit == b.inTransit)
            && Fits(p', mtu)
            && p'.messages == p.messages + k
            && p'.size == p.size + Headers(b.outgoing[..k]) + (b'.inTransit - b.inTransit)
            && (NextReliable(b', p', mtu) == Full <==> more) && NextReliable(b', p', mtu) != Ready
            && b' == b.(outgoing := b'.outgoing, sent := b'.sent, inTransit := b'.inTransit, nextTimeout := b'.nextTimeout)
    decreases |b.outgoing|
  {
    if NextReliable(b, p, mtu) == Ready {
      hide Plus, Stamp, Total, Keys, Pending, Moved;
      var b1 := MoveOne(b, now);
      MoveOneKeeps(b, p, mtu, now);
      var j := TransmitKeeps(b1, PackOne(p, b.outgoing[0]), mtu, now);
      k := j + 1;
      MovedStep(b, b1, Transmit(b, p, mtu, now).0, now, j);
      HeadersStep(b.outgoing, j);
    } else {
      k := 0;
      assert b.sent + b.outgoing[..0] == b.sent;
    }
  }

  /** And it does not stop earlier: when something is left, all slots or buffers are
      taken, or the rest of the datagram or of the window is too small for it. */
  lemma {:induction false} TransmitStops(b: Outbox, p: Packing, mtu: nat, now: uint32)
    requires p.size <= mtu
    ensures var (b', p', more) := Transmit(b, p, mtu, now);
            && p'.size <= mtu && p.messages <= p'.messages && p.buffers <= p'.buffers && p.size <= p'.size
            && (b'.outgoing != [] ==> Blocked(b', p', mtu))
            && b'.unreliable == b.unreliable && b'.state == b.state
    decreases |b.outgoing|
  {
    if NextReliable(b, p, mtu) == Ready {
      hide Stamp, Plus;
      TransmitStops(MoveOne(b, now), PackOne(p, b.outgoing[0]), mtu, now);
    }
  }

  /** Messages are sent after those in flight, which stay as they are. */
  lemma {:induction false} TransmitAppends(b: Outbox, p: Packing, mtu: nat, now: uint32)
    requires p.size <= mtu
    ensures AppendedAt(b.sent, Transmit(b, p, mtu, now).0.sent, now)
    decreases |b.outgoing|
  {
    if NextReliable(b, p, mtu) == Ready {
      hide Plus;
      TransmitAppends(MoveOne(b, now), PackOne(p, b.outgoing[0]), mtu, now);
    }
  }

  predicate AppendedAt(s: seq<Outgoing>, t: seq<Outgoing>, now: uint32) {
    s <= t && forall i :: |s| <= i < |t| ==> t[i].sentTime == now
  }

  /** There is no room for the next message. */
  predicate Blocked(b: Outbox, p: Packing, mtu: nat)
    requires b.outgoing != []
  {
    var m := b.outgoing[0];
    var length := if m.data.Some? then |m.data.value.data| else 0;
    || p.messages >= 32 || p.buffers >= 64 || mtu - p.size < Size(m.kind) + length
    || (m.data.Some? && b.inTransit + length > b.windowSize)
  }

  function Headers(s: seq<Outgoing>): (r: nat)
    decreases |s|
  {
    if s == [] then 0 else Size(s[0].kind) + Headers(s[1..])
  }

  lemma HeadersStep(s: seq<Outgoing>, j: nat)
    requires s != [] && j + 1 <= |s|
    ensures Headers(s[..j + 1]) == Size(s[0].kind) + Headers(s[1..][..j])
  {
    assert s[..j + 1][1..] == s[1..][..j];
  }

  lemma MovedStep(b: Outbox, b1: Outbox, r: Outbox, now: uint32, j: nat)
    requires b.outgoing != [] && b1 == MoveOne(b, now) && Moved(b1, r, j)
    ensures Moved(b, r, j + 1)
  {
    var m := Stamp(b.outgoing[0], now, b.roundTripTime, b.variance);
    assert Keys(b1.sent + b1.outgoing[..j]) == Keys(b.sent + b.outgoing[..j + 1]) by {
      var x, y := b1.sent + b1.outgoing[..j], b.sent + b.outgoing[..j + 1];
      forall i | 0 <= i < |x|
        ensures x[i].Key() == y[i].Key()
      {
      }
    }
  }

  lemma TimeOutOneKeeps(b: Outbox, i: nat)
    requires i < |b.sent| && Accounted(b)
    ensures Accounted(TimeOutOne(b, i)) && Pending(TimeOutOne(b, i)) == Pending(b)
    ensures TimeOutOne(b, i).inTransit == b.inTransit - b.sent[i].Length()
  {
    TimeOutOneCounts(b, i);
    TimeOutOnePends(b, i);
    hide Accounted, Pending, TimeOutOne;
  }

  lemma TimeOutOneCounts(b: Outbox, i: nat)
    requires i < |b.sent| && Accounted(b)
    ensures Accounted(TimeOutOne(b, i)) && TimeOutOne(b, i).inTransit == b.inTransit - b.sent[i].Length()
  {
    TotalRemove(b.sent, i);
    PlusSmall(b.inTransit, 0 - b.sent[i].Length());
    hide Plus, Earliest, BackOff;
  }

  lemma TimeOutOnePends(b: Outbox, i: nat)
    requires i < |b.sent|
    ensures Pending(TimeOutOne(b, i)) == Pending(b)
  {
    var m := b.sent[i];
    KeysRemove(b.sent, i);
    KeysConcat([BackOff(m)], b.outgoing);
    KeysOne(BackOff(m));
    hide Plus, Keys, RemoveAt, Earliest, BackOff;
  }

  /** check_for_timeouts loses nothing and keeps the figures right. */
  lemma {:induction false} CheckTimeoutsKeeps(b: Outbox, i: nat, now: uint32)
    requires i <= |b.sent| && Accounted(b)
    ensures var (b', gaveUp) := CheckTimeouts(b, i, now);
            && Accounted(b') && Pending(b') == Pending(b) && b'.inTransit <= b.inTransit
            && b' == b.(outgoing := b'.outgoing, sent := b'.sent, inTransit := b'.inTransit,
                        nextTimeout := b'.nextTimeout, earliestTimeout := b'.earliestTimeout)
    decreases |b.sent| - i
  {
    if i < |b.sent| {
      var m := b.sent[i];
      if !Expired(m, now) {
        CheckTimeoutsKeeps(b, i + 1, now);
      } else if !GivesUp(Earliest(b, m), m, now) {
        TimeOutOneKeeps(b, i);
        CheckTimeoutsKeeps(TimeOutOne(b, i), i, now);
      }
    }
  }

  /** A scan touches only what it is for. */
  lemma {:induction false} CheckLeaves(b: Outbox, i: nat, now: uint32)
    requires i <= |b.sent|
    ensures CheckTimeouts(b, i, now).0.unreliable == b.unreliable && CheckTimeouts(b, i, now).0.state == b.state
    decreases |b.sent| - i
  {
    hide Expired, GivesUp, Earliest;
    if i < |b.sent| {
      CheckLeaves(b, i + 1, now);
      if Expired(b.sent[i], now) && !GivesUp(Earliest(b, b.sent[i]), b.sent[i], now) {
        CheckLeaves(TimeOutOne(b, i), i, now);
      }
    }
  }

  /** The messages of s that have not timed out, in order. */
  function InTime(s: seq<Outgoing>, now: uint32): (r: seq<Outgoing>) {
    if s == [] then [] else (if Lag(now, s[0].sentTime) < s[0].timeout then [s[0]] else []) + InTime(s[1..], now)
  }

  /** Those that have, last first, with twice the timeout. */
  function OutOfTime(s: seq<Outgoing>, now: uint32): (r: seq<Outgoing>) {
    if s == [] then []
    else
      OutOfTime(s[1..], now)
      + (if Lag(now, s[0].sentTime) < s[0].timeout then []
         else [s[0].(timeout := 2 * s[0].timeout % WRAP, timeouts := s[0].timeouts + 1)])
  }

  /** A scan that does not give the connection up puts exactly the messages that have
      timed out back at the head of the outgoing queue, and leaves the others in flight. */
  lemma {:induction false} ScanExactly(b: Outbox, i: nat, now: uint32)
    requires i <= |b.sent| && !CheckTimeouts(b, i, now).1
    ensures CheckTimeouts(b, i, now).0.sent == b.sent[..i] + InTime(b.sent[i..], now)
    ensures CheckTimeouts(b, i, now).0.outgoing == OutOfTime(b.sent[i..], now) + b.outgoing
    decreases |b.sent| - i
  {
    if i < |b.sent| {
      ScanStep(b, i, now);
      hide CheckTimeouts, TimeOutOne, BackOff, Expired, InTime, OutOfTime;
      if !Expired(b.sent[i], now) {
        ScanExactly(b, i + 1, now);
        ScannedIn(b, i, now, CheckTimeouts(b, i + 1, now).0);
      } else {
        TimedOut(b, i);
        ScanExactly(TimeOutOne(b, i), i, now);
        ScannedOut(b, i, now, TimeOutOne(b, i), CheckTimeouts(TimeOutOne(b, i), i, now).0);
      }
    } else {
      assert b.sent[i..] == [] && b.sent[..i] == b.sent;
    }
  }

  lemma ScannedIn(b: Outbox, i: nat, now: uint32, r: Outbox)
    requires i < |b.sent| && !Expired(b.sent[i], now)
    requires r.sent == b.sent[..i + 1] + InTime(b.sent[i + 1..], now)
    requires r.outgoing == OutOfTime(b.sent[i + 1..], now) + b.outgoing
    ensures r.sent == b.sent[..i] + InTime(b.sent[i..], now)
    ensures r.outgoing == OutOfTime(b.sent[i..], now) + b.outgoing
  {
    InTimeStep(b.sent, i, now);
    hide Expired, InTime, OutOfTime, BackOff;
    var rest := InTime(b.sent[i + 1..], now);
    assert b.sent[..i + 1] + rest == b.sent[..i] + ([b.sent[i]] + rest);
    assert OutOfTime(b.sent[i + 1..], now) + [] == OutOfTime(b.sent[i + 1..], now);
  }

  lemma ScannedOut(b: Outbox, i: nat, now: uint32, c: Outbox, r: Outbox)
    requires i < |b.sent| && Expired(b.sent[i], now) && i <= |c.sent|
    requires c.outgoing == [BackOff(b.sent[i])] + b.outgoing && c.sent[..i] == b.sent[..i] && c.sent[i..] == b.sent[i + 1..]
    requires r.sent == c.sent[..i] + InTime(c.sent[i..], now) && r.outgoing == OutOfTime(c.sent[i..], now) + c.outgoing
    ensures r.sent == b.sent[..i] + InTime(b.sent[i..], now)
    ensures r.outgoing == OutOfTime(b.sent[i..], now) + b.outgoing
  {
    InTimeStep(b.sent, i, now);
    hide Expired, InTime, OutOfTime, BackOff;
    var late, m := OutOfTime(b.sent[i + 1..], now), BackOff(b.sent[i]);
    assert late + ([m] + b.outgoing) == late + [m] + b.outgoing;
    assert [] + InTime(b.sent[i + 1..], now) == InTime(b.sent[i + 1..], now);
  }

  lemma ScanStep(b: Outbox, i: nat, now: uint32)
    requires i < |b.sent| && !CheckTimeouts(b, i, now).1
    ensures CheckTimeouts(b, i, now) ==
            if Expired(b.sent[i], now) then CheckTimeouts(TimeOutOne(b, i), i, now) else CheckTimeouts(b, i + 1, now)
  {
    hide Expired, GivesUp, Earliest, TimeOutOne;
  }

  /** The next message of the scan is in time or not. */
  lemma InTimeStep(s: seq<Outgoing>, i: nat, now: uint32)
    requires i < |s|
    ensures InTime(s[i..], now) == (if Expired(s[i], now) then [] else [s[i]]) + InTime(s[i + 1..], now)
    ensures OutOfTime(s[i..], now) == OutOfTime(s[i + 1..], now) + (if Expired(s[i], now) then [BackOff(s[i])] else [])
  {
    hide Lag;
    assert s[i..][0] == s[i] && s[i..][1..] == s[i + 1..];
  }

  lemma TimedOut(b: Outbox, i: nat)
    requires i < |b.sent|
    ensures var c := TimeOutOne(b, i);
            && c.outgoing == [BackOff(b.sent[i])] + b.outgoing && |c.sent| == |b.sent| - 1
            && c.sent[..i] == b.sent[..i] && c.sent[i..] == b.sent[i + 1..]
  {
    hide Earliest, Plus;
  }

  /** Closing leaves a DISCONNECT under the next number of the control channel and nothing
      else to be sent or acknowledged, and neither the window nor the smallest datagram
      keeps it back. */
  lemma ClosingLeavesOne(b: Outbox, number: uint16, mtu: nat)
    requires (b.state == Connected || b.state == DelayingDisconnect) && mtu >= MIN_MTU
    ensures var r := CloseGracefully(b, number);
            && r.state == Disconnecting && r.unreliable == []
            && Pending(r) == multiset{Identity(0xFF, Disconnect, number, None)}
            && |r.outgoing| == 1 && r.outgoing[0].New() && r.outgoing[0].Length() == 0
            && NextReliable(r, EMPTY_PACKING, mtu) == Ready
  {
    var r := CloseGracefully(b, number);
    assert Keys(r.outgoing) == [Identity(0xFF, Disconnect, number, None)] && Keys(r.sent) == [];
  }

  /** An acknowledgement removes exactly the message it names, from the sent queue
      only, or nothing. */
  lemma DisposeKeeps(b: Outbox, number: uint16, channelId: nat)
    requires Accounted(b)
    ensures var b' := Dispose(b, number, channelId);
            && Accounted(b') && b'.outgoing == b.outgoing && b'.inTransit <= b.inTransit
            && match FindSent(b.sent, number, channelId)
               case None => b' == b
               case Some(i) => Pending(b) == Pending(b') + multiset{b.sent[i].Key()}
  {
    match FindSent(b.sent, number, channelId)
    case None =>
    case Some(i) =>
      TotalRemove(b.sent, i);
      PlusSmall(b.inTransit, 0 - b.sent[i].Length());
      hide Plus;
      KeysRemove(b.sent, i);
  }

  /** Hearing from the peer moves no message. */
  lemma HeardKeeps(b: Outbox, measured: uint32)
    requires Accounted(b)
    ensures Accounted(Heard(b, measured)) && Pending(Heard(b, measured)) == Pending(b)
  {
    RenewedKeys(b.outgoing);
    RenewedKeys(b.sent);
    RenewedTotal(b.sent);
    hide Smoothed, Total, Keys;
  }

  lemma RenewedKeys(s: seq<Outgoing>)
    ensures Keys(Renewed(s)) == Keys(s)
  {
  }

  lemma {:induction false} RenewedTotal(s: seq<Outgoing>)
    ensures Total(Renewed(s)) == Total(s)
    decreases |s|
  {
    if s != [] {
      assert Renewed(s)[1..] == Renewed(s[1..]);
      RenewedTotal(s[1..]);
    }
  }
}
