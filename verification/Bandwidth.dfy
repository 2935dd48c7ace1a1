/** Sharing the outgoing bandwidth among the connected clients once a second
    (throttle_bandwidth in gekkota_xudp.c). */
module Bandwidth {
  import opened Words
  import opened Messages
  import opened Clock
  import opened Throttle

  const INTERVAL := 1000
  const UNLIMITED := 0xFFFF_FFFF

  /** The fields of a client's record that take part. */
  datatype Peer = Peer(
    state: ClientState,
    incomingBandwidth: uint32,
    outgoingDataTotal: uint32,
    incomingDataTotal: uint32,
    packetThrottle: uint32,
    packetThrottleLimit: uint32,
    throttleEpoch: uint32)

  predicate Participates(c: Peer) {
    c.state == Connected || c.state == DelayingDisconnect
  }

  /** A participant whose limit has not been set at this instant. */
  predicate Open(c: Peer, now: uint32) {
    Participates(c) && c.throttleEpoch != now
  }

  // ----------------------------------------------------------------- totals

  function Participants(s: seq<Peer>): (r: nat)
    ensures r <= |s|
    decreases |s|
  {
    if s == [] then 0 else Participants(s[..|s| - 1]) + (if Participates(s[|s| - 1]) then 1 else 0)
  }

  /** What the participants queued since the last time. */
  function DataTotal(s: seq<Peer>): (r: nat)
    decreases |s|
  {
    if s == [] then 0 else DataTotal(s[..|s| - 1]) + (if Participates(s[|s| - 1]) then s[|s| - 1].outgoingDataTotal else 0)
  }

  function OpenData(s: seq<Peer>, now: uint32): (r: nat)
    decreases |s|
  {
    if s == [] then 0 else OpenData(s[..|s| - 1], now) + (if Open(s[|s| - 1], now) then s[|s| - 1].outgoingDataTotal else 0)
  }

  // --------------------------------------------------------------- one pass

  /** The throttle out of 32 that lets `data` through a bandwidth. */
  function Share(bandwidth: int, data: int): (r: int)
    requires bandwidth >= 1
  {
    if data < bandwidth then SCALE else bandwidth * SCALE / data
  }

  /** At this throttle the client would send more than the bandwidth it is compared
      with: the host's incoming one. */
  predicate Exceeds(c: Peer, throttle: int, bandwidth: nat, now: uint32) {
    Open(c, now) && c.incomingBandwidth != 0 && throttle * c.outgoingDataTotal / SCALE > bandwidth
  }

  function WithLimit(c: Peer, limit: uint32): (r: Peer) {
    c.(packetThrottleLimit := limit, packetThrottle := if c.packetThrottle > limit then limit else c.packetThrottle)
  }

  function CapLimit(data: uint32, bandwidth: nat): (r: nat)
    requires data > 0
  {
    if bandwidth * SCALE / data == 0 then 1 else bandwidth * SCALE / data
  }

  function CapOne(c: Peer, throttle: int, bandwidth: nat, now: uint32): (r: Peer)
    requires 0 <= throttle <= SCALE
  {
    if Exceeds(c, throttle, bandwidth, now) then
      CapFits(c.outgoingDataTotal, throttle, bandwidth);
      WithLimit(c, CapLimit(c.outgoingDataTotal, bandwidth)).(throttleEpoch := now)
    else c
  }

  function Capped(s: seq<Peer>, throttle: int, bandwidth: nat, now: uint32): (r: seq<Peer>)
    requires 0 <= throttle <= SCALE
    ensures |r| == |s|
  {
    seq(|s|, i requires 0 <= i < |s| => CapOne(s[i], throttle, bandwidth, now))
  }

  /** How many clients are capped, and how much they had queued. */
  function Caps(s: seq<Peer>, throttle: int, bandwidth: nat, now: uint32): (r: nat)
    ensures r <= |s|
    decreases |s|
  {
    if s == [] then 0
    else Caps(s[..|s| - 1], throttle, bandwidth, now) + (if Exceeds(s[|s| - 1], throttle, bandwidth, now) then 1 else 0)
  }

  function CappedData(s: seq<Peer>, throttle: int, bandwidth: nat, now: uint32): (r: nat)
    decreases |s|
  {
    if s == [] then 0
    else CappedData(s[..|s| - 1], throttle, bandwidth, now)
         + (if Exceeds(s[|s| - 1], throttle, bandwidth, now) then s[|s| - 1].outgoingDataTotal else 0)
  }

  function Settled(s: seq<Peer>, throttle: uint32, now: uint32): (r: seq<Peer>)
    ensures |r| == |s|
  {
    seq(|s|, i requires 0 <= i < |s| => if Open(s[i], now) then WithLimit(s[i], throttle) else s[i])
  }

  function Cleared(s: seq<Peer>): (r: seq<Peer>)
    ensures |r| == |s|
  {
    seq(|s|, i requires 0 <= i < |s| => s[i].(incomingDataTotal := 0, outgoingDataTotal := 0))
  }

  // ------------------------------------------------------------- arithmetic

  lemma MulLe(a: int, b: int, c: int)
    requires a <= b && c >= 0
    ensures a * c <= b * c
  {
  }

  lemma MulLeInverse(a: int, b: int, c: int)
    requires a * c <= b * c && c > 0
    ensures a <= b
  {
    if a > b {
      MulLe(b + 1, a, c);
    }
  }

  lemma DivFits(n: int, d: int)
    requires d > 0 && n >= 0
    ensures 0 <= n / d && (n / d) * d <= n
    ensures n < (n / d) * d + d
  {
  }

  lemma DivAtLeast(n: int, d: int, q: int)
    requires d > 0 && q * d <= n
    ensures q <= n / d
  {
    if n / d < q {
      MulLe(n / d + 1, q, d);
    }
  }

  lemma ShareFits(b: int, d: int)
    requires b >= 1 && d >= 0
    ensures 0 <= Share(b, d) <= SCALE && Share(b, d) * d <= SCALE * b
  {
    if d >= b {
      DivFits(b * SCALE, d);
      MulLeInverse(Share(b, d), SCALE, d);
    }
  }

  /** Taking the same from the bandwidth and the data never raises the share. */
  lemma ShareFalls(b: int, d: int, x: int)
    requires b - x >= 1 && x >= 0 && d >= x
    ensures Share(b - x, d - x) <= Share(b, d)
  {
    if d >= b {
      var t := Share(b - x, d - x);
      ShareFits(b - x, d - x);
      MulLe(t, SCALE, x);
      assert t * d == t * (d - x) + t * x;
      DivAtLeast(b * SCALE, d, t);
    } else {
      ShareFits(b - x, d - x);
    }
  }

  /** A client that exceeds has data, its 32-bit product does not wrap, and its limit is at most 32. */
  lemma CapFits(data: uint32, throttle: int, bandwidth: nat)
    requires 0 <= throttle <= SCALE && throttle * data / SCALE > bandwidth
    ensures data > bandwidth && SCALE * (bandwidth + 1) <= throttle * data <= SCALE * data
    ensures 1 <= CapLimit(data, bandwidth) <= SCALE
  {
    MulLe(throttle, SCALE, data);
    DivFits(throttle * data, SCALE);
    DivFits(bandwidth * SCALE, data);
    if CapLimit(data, bandwidth) > SCALE {
      MulLe(SCALE + 1, CapLimit(data, bandwidth), data);
    }
  }

  // -------------------------------------------------------------- the passes

  lemma Prefix(s: seq<Peer>, throttle: int, bandwidth: nat, now: uint32)
    requires s != [] && 0 <= throttle <= SCALE
    ensures Capped(s, throttle, bandwidth, now)[..|s| - 1] == Capped(s[..|s| - 1], throttle, bandwidth, now)
    ensures Capped(s, throttle, bandwidth, now)[|s| - 1] == CapOne(s[|s| - 1], throttle, bandwidth, now)
  {
  }

  /** Together the capped clients' bandwidths, and one more each, fit in their part of the share. */
  lemma {:induction false} CapsCost(s: seq<Peer>, throttle: int, bandwidth: nat, now: uint32)
    requires 0 <= throttle <= SCALE
    ensures SCALE * (Caps(s, throttle, bandwidth, now) * (bandwidth + 1)) <= throttle * CappedData(s, throttle, bandwidth, now)
    decreases |s|
  {
    if s != [] {
      var t, c := s[..|s| - 1], s[|s| - 1];
      CapsCost(t, throttle, bandwidth, now);
      var n, x := Caps(t, throttle, bandwidth, now), CappedData(t, throttle, bandwidth, now);
      if Exceeds(c, throttle, bandwidth, now) {
        CapFits(c.outgoingDataTotal, throttle, bandwidth);
        CostStep(n, bandwidth + 1, throttle, x, c.outgoingDataTotal);
      }
    }
  }

  lemma CostStep(n: int, k: int, t: int, x: int, y: int)
    requires SCALE * (n * k) <= t * x && SCALE * k <= t * y
    ensures SCALE * ((n + 1) * k) <= t * (x + y)
  {
    assert (n + 1) * k == n * k + k;
    assert t * (x + y) == t * x + t * y;
  }

  /** A pass moves the capped clients' data out of the open data. */
  lemma {:induction false} PassData(s: seq<Peer>, throttle: int, bandwidth: nat, now: uint32)
    requires 0 <= throttle <= SCALE
    ensures OpenData(s, now) == CappedData(s, throttle, bandwidth, now) + OpenData(Capped(s, throttle, bandwidth, now), now)
    ensures OpenData(s, now) <= DataTotal(s)
    decreases |s|
  {
    if s != [] {
      PassData(s[..|s| - 1], throttle, bandwidth, now);
      Prefix(s, throttle, bandwidth, now);
    }
  }

  lemma {:induction false} CapsGrow(s: seq<Peer>, throttle: int, bandwidth: nat, now: uint32, i: nat)
    requires i <= |s|
    ensures Caps(s[..i], throttle, bandwidth, now) <= Caps(s, throttle, bandwidth, now)
    ensures Caps(s, throttle, bandwidth, now) <= Participants(s)
    decreases |s|
  {
    if i == |s| {
      assert s[..i] == s;
    }
    if s != [] {
      var t := s[..|s| - 1];
      CapsGrow(t, throttle, bandwidth, now, if i < |s| then i else |s| - 1);
      if i < |s| {
        assert t[..i] == s[..i];
      }
    }
  }

  lemma {:induction false} DataMember(s: seq<Peer>, i: nat)
    requires i < |s| && Participates(s[i])
    ensures s[i].outgoingDataTotal <= DataTotal(s)
    decreases |s|
  {
    if i < |s| - 1 {
      DataMember(s[..|s| - 1], i);
    }
  }

  /** However many clients are capped in one pass, neither total runs out: the
      bandwidth left is at least one for each of them, and the data left still
      covers the clients that stay open. */
  lemma PassFits(s: seq<Peer>, b: int, d: int, bandwidth: nat, now: uint32)
    requires b >= 1 && d >= OpenData(s, now)
    ensures 0 <= Share(b, d) <= SCALE
    ensures var n := Caps(s, Share(b, d), bandwidth, now);
            && n * bandwidth + n <= b
            && 0 <= n * bandwidth <= d - OpenData(Capped(s, Share(b, d), bandwidth, now), now)
  {
    ShareFits(b, d);
    var t := Share(b, d);
    var n, x := Caps(s, t, bandwidth, now), CappedData(s, t, bandwidth, now);
    CapsCost(s, t, bandwidth, now);
    PassData(s, t, bandwidth, now);
    hide Caps, CappedData, OpenData, Capped, Share;
    PassProducts(n, bandwidth, t, x, d, b);
  }

  lemma PassProducts(n: nat, bandwidth: nat, t: int, x: nat, d: int, b: int)
    requires SCALE * (n * (bandwidth + 1)) <= t * x && 0 <= t <= SCALE && x <= d && t * d <= SCALE * b
    ensures n * bandwidth + n <= b && 0 <= n * bandwidth && n * bandwidth + n <= x
  {
    MulStep(bandwidth, n);
    MulLe(x, d, t);
    MulLe(t, SCALE, x);
    CostBounds(n * (bandwidth + 1), t, x, d, b);
  }

  lemma CostBounds(cost: int, t: int, x: int, d: int, b: int)
    requires SCALE * cost <= t * x && x * t <= d * t && t * d <= SCALE * b && t * x <= SCALE * x
    ensures cost <= b && cost <= x
  {
  }

  /** A second pass at a throttle no higher caps nobody. */
  lemma {:induction false} NoMoreCaps(s: seq<Peer>, throttle: int, lower: int, bandwidth: nat, now: uint32)
    requires 0 <= lower <= throttle <= SCALE
    ensures Caps(Capped(s, throttle, bandwidth, now), lower, bandwidth, now) == 0
    ensures Capped(Capped(s, throttle, bandwidth, now), lower, bandwidth, now) == Capped(s, throttle, bandwidth, now)
    decreases |s|
  {
    forall i | 0 <= i < |s|
      ensures !Exceeds(CapOne(s[i], throttle, bandwidth, now), lower, bandwidth, now)
    {
      LowerNotExceeds(s[i], throttle, lower, bandwidth, now);
    }
    NoneExceeds(Capped(s, throttle, bandwidth, now), lower, bandwidth, now);
  }

  lemma {:induction false} NoneExceeds(s: seq<Peer>, throttle: int, bandwidth: nat, now: uint32)
    requires forall i :: 0 <= i < |s| ==> !Exceeds(s[i], throttle, bandwidth, now)
    ensures Caps(s, throttle, bandwidth, now) == 0
    decreases |s|
  {
    if s != [] {
      NoneExceeds(s[..|s| - 1], throttle, bandwidth, now);
    }
  }

  lemma LowerNotExceeds(c: Peer, throttle: int, lower: int, bandwidth: nat, now: uint32)
    requires 0 <= lower <= throttle <= SCALE
    ensures !Exceeds(CapOne(c, throttle, bandwidth, now), lower, bandwidth, now)
  {
    MulLe(lower, throttle, c.outgoingDataTotal);
  }

  /** When every participant was capped nobody is left to settle. */
  lemma {:induction false} AllCapped(s: seq<Peer>, throttle: int, bandwidth: nat, now: uint32, i: nat)
    requires 0 <= throttle <= SCALE && i < |s|
    requires Caps(s, throttle, bandwidth, now) == Participants(s)
    ensures !Open(CapOne(s[i], throttle, bandwidth, now), now)
    decreases |s|
  {
    CapsGrow(s[..|s| - 1], throttle, bandwidth, now, 0);
    if i < |s| - 1 {
      AllCapped(s[..|s| - 1], throttle, bandwidth, now, i);
    }
  }

  // ------------------------------------------------------ the whole function

  /** The host's figures for one sharing: what it may send, what it may receive,
      which is what each client is compared with, and what is queued. */
  datatype Figures = Figures(budget: int, own: nat, data: nat)

  /** The throttle of the first pass. */
  function First(f: Figures): (r: int)
    requires f.budget >= 1
    ensures 0 <= r <= SCALE
  {
    ShareFits(f.budget, f.data);
    Share(f.budget, f.data)
  }

  /** The throttle of whoever was not capped. */
  function Second(s: seq<Peer>, f: Figures, now: uint32): (r: int)
    requires f.budget >= 1 && f.data == DataTotal(s)
    ensures 0 <= r <= First(f)
  {
    var x := Caps(s, First(f), f.own, now) * f.own;
    LeftOver(s, f, now);
    ShareFits(f.budget - x, f.data - x);
    ShareFalls(f.budget, f.data, x);
    Share(f.budget - x, f.data - x)
  }

  lemma LeftOver(s: seq<Peer>, f: Figures, now: uint32)
    requires f.budget >= 1 && f.data == DataTotal(s)
    ensures var n := Caps(s, First(f), f.own, now);
            && 0 <= n * f.own && f.budget - n * f.own >= 1 && f.budget - n * f.own >= n
            && f.data - n * f.own >= OpenData(Capped(s, First(f), f.own, now), now)
  {
    PassData(s, 0, f.own, now);
    PassFits(s, f.budget, f.data, f.own, now);
  }

  /** What the sharing does to the clients: those that exceed at the first throttle
      are capped, the others get the share of what is left. */
  function Shared(s: seq<Peer>, f: Figures, now: uint32): (r: seq<Peer>)
    requires f.budget >= 1 && f.data == DataTotal(s)
    ensures |r| == |s|
  {
    Settled(Capped(s, First(f), f.own, now), Second(s, f, now), now)
  }

  // ---------------------------------------------------- the budget is respected

  /** What the limits in t let the clients of s send, in 32nds. */
  function Promised(s: seq<Peer>, t: seq<Peer>, now: uint32): (r: nat)
    requires |s| == |t|
    decreases |s|
  {
    if s == [] then 0
    else
      var i := |s| - 1;
      Promised(s[..i], t[..i], now) + (if Open(s[i], now) then t[i].packetThrottleLimit * s[i].outgoingDataTotal else 0)
  }

  /** The data of the clients whose limit of 0 was raised to 1. */
  function Raised(s: seq<Peer>, throttle: int, bandwidth: nat, now: uint32): (r: nat)
    decreases |s|
  {
    if s == [] then 0
    else
      var c := s[|s| - 1];
      Raised(s[..|s| - 1], throttle, bandwidth, now)
      + (if Exceeds(c, throttle, bandwidth, now) && bandwidth * SCALE < c.outgoingDataTotal then c.outgoingDataTotal else 0)
  }

  lemma OnePromise(c: Peer, throttle: int, second: uint32, bandwidth: nat, now: uint32)
    requires 0 <= throttle <= SCALE && Open(c, now)
    ensures var r := CapOne(c, throttle, bandwidth, now);
            var limit := if Open(r, now) then second else r.packetThrottleLimit;
            limit * c.outgoingDataTotal <=
              if !Exceeds(c, throttle, bandwidth, now) then second * c.outgoingDataTotal
              else SCALE * bandwidth + (if bandwidth * SCALE < c.outgoingDataTotal then c.outgoingDataTotal else 0)
  {
    if Exceeds(c, throttle, bandwidth, now) {
      CapFits(c.outgoingDataTotal, throttle, bandwidth);
      DivFits(bandwidth * SCALE, c.outgoingDataTotal);
      if bandwidth * SCALE >= c.outgoingDataTotal {
        DivAtLeast(bandwidth * SCALE, c.outgoingDataTotal, 1);
      }
    }
  }

  lemma {:induction false} PromisedBound(s: seq<Peer>, throttle: int, second: uint32, bandwidth: nat, now: uint32)
    requires 0 <= throttle <= SCALE
    ensures var t := Capped(s, throttle, bandwidth, now);
            Promised(s, Settled(t, second, now), now)
            <= SCALE * (Caps(s, throttle, bandwidth, now) * bandwidth) + Raised(s, throttle, bandwidth, now)
               + second * OpenData(t, now)
    decreases |s|
  {
    if s != [] {
      var i := |s| - 1;
      var c, t := s[i], Capped(s, throttle, bandwidth, now);
      PromisedBound(s[..i], throttle, second, bandwidth, now);
      Prefix(s, throttle, bandwidth, now);
      assert Settled(t, second, now)[..i] == Settled(t[..i], second, now);
      if Open(c, now) {
        OnePromise(c, throttle, second, bandwidth, now);
        hide CapOne;
        MulStep(Caps(s[..i], throttle, bandwidth, now), bandwidth);
        MulSum(second, OpenData(t[..i], now), c.outgoingDataTotal);
      }
    }
  }

  lemma MulStep(n: int, k: int)
    ensures (n + 1) * k == n * k + k
  {
  }

  lemma MulSum(t: int, x: int, y: int)
    ensures t * (x + y) == t * x + t * y
  {
  }

  /** The limits handed out respect the budget: summed over the clients, limit times
      queued data is at most 32 times the budget, apart from the data of the clients
      whose limit was raised from 0 to 1. */
  lemma BudgetRespected(s: seq<Peer>, f: Figures, now: uint32)
    requires f.budget >= 1 && f.data == DataTotal(s)
    ensures Promised(s, Shared(s, f, now), now) <= SCALE * f.budget + Raised(s, First(f), f.own, now)
  {
    LeftOver(s, f, now);
    var n, open := Caps(s, First(f), f.own, now), OpenData(Capped(s, First(f), f.own, now), now);
    var x := n * f.own;
    var second := Second(s, f, now);
    assert second * (f.data - x) <= SCALE * (f.budget - x) by {
      ShareFits(f.budget - x, f.data - x);
    }
    PromisedBound(s, First(f), second, f.own, now);
    MulLe(open, f.data - x, second);
    hide Promised, Capped, Settled, Raised, Caps, OpenData, First, Second, DataTotal;
    var promised, raised := Promised(s, Shared(s, f, now), now), Raised(s, First(f), f.own, now);
    PromiseSum(promised, raised, x, second, open, f.data - x, f.budget);
  }

  lemma PromiseSum(promised: int, raised: int, x: int, second: int, open: int, left: int, budget: int)
    requires promised <= SCALE * x + raised + second * open
    requires open * second <= left * second && second * left <= SCALE * (budget - x)
    ensures promised <= SCALE * budget + raised
  {
  }

  /** No limit lets a client whose bandwidth is known exceed what it is compared
      with, unless it is the least limit; and no throttle is above its limit. */
  lemma NobodyExceeds(s: seq<Peer>, f: Figures, now: uint32, i: nat)
    requires f.budget >= 1 && f.data == DataTotal(s) && i < |s| && Open(s[i], now)
    ensures var c := Shared(s, f, now)[i];
            && c.packetThrottle <= c.packetThrottleLimit <= SCALE
            && (s[i].incomingBandwidth != 0 && c.packetThrottleLimit != 1 ==>
                  c.packetThrottleLimit * s[i].outgoingDataTotal / SCALE <= f.own)
  {
    hide DataTotal;
    var c, t := s[i], First(f);
    if Exceeds(c, t, f.own, now) {
      CapFits(c.outgoingDataTotal, t, f.own);
      DivFits(f.own * SCALE, c.outgoingDataTotal);
    } else {
      LowerNotExceeds(c, t, Second(s, f, now), f.own, now);
    }
  }

  // --------------------------------------------------- nothing is given away

  /** The largest throttle at which the data goes through the bandwidth. */
  ghost predicate Most(t: int, bandwidth: int, data: int) {
    0 <= t <= SCALE && t * data <= SCALE * bandwidth && (t == SCALE || (t + 1) * data > SCALE * bandwidth)
  }

  lemma ShareIsMost(bandwidth: int, data: int)
    requires bandwidth >= 1 && data >= 0
    ensures Most(Share(bandwidth, data), bandwidth, data)
  {
    if data >= bandwidth {
      FloorMost(bandwidth * SCALE, data);
      ShareFits(bandwidth, data);
    }
  }

  lemma FloorMost(x: int, d: int)
    requires d > 0 && x >= 0
    ensures x / d * d <= x < (x / d + 1) * d
  {
    MulStep(x / d, d);
  }

  /** How many of the clients have been capped in this sharing. */
  function NewlyCapped(s: seq<Peer>, shared: seq<Peer>, now: uint32): (r: nat)
    requires |shared| == |s|
    decreases |s|
  {
    if s == [] then 0
    else NewlyCapped(s[..|s| - 1], shared[..|s| - 1], now)
         + (if Open(s[|s| - 1], now) && shared[|s| - 1].throttleEpoch == now then 1 else 0)
  }

  lemma {:induction false} NewlyCappedCount(s: seq<Peer>, throttle: int, second: uint32, bandwidth: nat, now: uint32)
    requires 0 <= throttle <= SCALE
    ensures NewlyCapped(s, Settled(Capped(s, throttle, bandwidth, now), second, now), now) == Caps(s, throttle, bandwidth, now)
    decreases |s|
  {
    if s != [] {
      var before, i := s[..|s| - 1], |s| - 1;
      var t := Settled(Capped(s, throttle, bandwidth, now), second, now);
      NewlyCappedCount(before, throttle, second, bandwidth, now);
      assert t[..i] == Settled(Capped(before, throttle, bandwidth, now), second, now);
      CappedEpoch(s[i], throttle, second, bandwidth, now);
      hide CapOne, Exceeds, Caps;
      assert Caps(s, throttle, bandwidth, now) == Caps(before, throttle, bandwidth, now) + (if Exceeds(s[i], throttle, bandwidth, now) then 1 else 0) by {
        CapsStep(s, i, throttle, bandwidth, now);
        assert s[..i + 1] == s;
      }
    }
  }

  lemma CappedEpoch(c: Peer, throttle: int, second: uint32, bandwidth: nat, now: uint32)
    requires 0 <= throttle <= SCALE
    ensures var r := CapOne(c, throttle, bandwidth, now);
            var t := if Open(r, now) then WithLimit(r, second) else r;
            Open(c, now) && t.throttleEpoch == now <==> Exceeds(c, throttle, bandwidth, now)
  {
    hide CapLimit;
  }

  /** The sharing is the largest possible. With the first throttle the most that the whole
      budget allows, a client is capped if and only if its bandwidth is known and it would
      exceed the figure it is compared with; it then gets the most that figure allows, or
      the least limit. Every other client gets the most that is left by those capped. Who
      does not take part is left alone, and no throttle is above its limit. */
  lemma SharesMost(s: seq<Peer>, f: Figures, now: uint32, i: nat) returns (first: int)
    requires f.budget >= 1 && f.data == DataTotal(s) && i < |s|
    ensures Most(first, f.budget, f.data)
    ensures var shared := Shared(s, f, now);
            var c, t, n := shared[i], shared[i].packetThrottleLimit, NewlyCapped(s, shared, now);
            if !(Participates(s[i]) && s[i].throttleEpoch != now) then c == s[i]
            else
              && c.packetThrottle == (if s[i].packetThrottle > t then t else s[i].packetThrottle)
              && (c.throttleEpoch == now <==> s[i].incomingBandwidth != 0 && first * s[i].outgoingDataTotal / SCALE > f.own)
              && if c.throttleEpoch == now
                 then t >= 1 && (t + 1) * s[i].outgoingDataTotal > SCALE * f.own && (t == 1 || t * s[i].outgoingDataTotal <= SCALE * f.own)
                 else c.throttleEpoch == s[i].throttleEpoch && Most(t, f.budget - n * f.own, f.data - n * f.own)
  {
    first := First(f);
    ShareIsMost(f.budget, f.data);
    var second := Second(s, f, now);
    NewlyCappedCount(s, first, second, f.own, now);
    SecondIsMost(s, f, now);
    OneShared(s[i], first, second, f.own, now);
    assert Shared(s, f, now) == Settled(Capped(s, first, f.own, now), second, now);
    hide First, Second, Most, Shared, Exceeds, Open, WithLimit, DataTotal, NewlyCapped, Caps, CapOne;
    SettledAt(s, i, first, second, f.own, now);
    hide Settled, Capped;
  }

  lemma SettledAt(s: seq<Peer>, i: nat, throttle: int, second: uint32, bandwidth: nat, now: uint32)
    requires i < |s| && 0 <= throttle <= SCALE
    ensures Settled(Capped(s, throttle, bandwidth, now), second, now)[i] == Finally(s[i], throttle, second, bandwidth, now)
  {
    hide CapOne;
  }

  /** What the sharing makes of one client. */
  function Finally(c: Peer, throttle: int, second: uint32, bandwidth: nat, now: uint32): Peer
    requires 0 <= throttle <= SCALE
  {
    var r := CapOne(c, throttle, bandwidth, now);
    if Open(r, now) then WithLimit(r, second) else r
  }

  lemma OneShared(c: Peer, throttle: int, second: uint32, bandwidth: nat, now: uint32)
    requires 0 <= throttle <= SCALE
    ensures var r := Finally(c, throttle, second, bandwidth, now);
            var t := r.packetThrottleLimit;
            if !(Participates(c) && c.throttleEpoch != now) then r == c
            else
              && r.packetThrottle == (if c.packetThrottle > t then t else c.packetThrottle)
              && (r.throttleEpoch == now <==> c.incomingBandwidth != 0 && throttle * c.outgoingDataTotal / SCALE > bandwidth)
              && if r.throttleEpoch == now
                 then t >= 1 && (t + 1) * c.outgoingDataTotal > SCALE * bandwidth && (t == 1 || t * c.outgoingDataTotal <= SCALE * bandwidth)
                 else r.throttleEpoch == c.throttleEpoch && t == second
  {
    if Exceeds(c, throttle, bandwidth, now) {
      CapIsMost(c, throttle, bandwidth, now);
    }
  }

  lemma SecondIsMost(s: seq<Peer>, f: Figures, now: uint32)
    requires f.budget >= 1 && f.data == DataTotal(s)
    ensures var n := Caps(s, First(f), f.own, now);
            Most(Second(s, f, now), f.budget - n * f.own, f.data - n * f.own)
  {
    LeftOver(s, f, now);
    var n := Caps(s, First(f), f.own, now);
    ShareIsMost(f.budget - n * f.own, f.data - n * f.own);
    hide Most, Caps, DataTotal, Share, OpenData;
  }

  lemma CapIsMost(c: Peer, throttle: int, bandwidth: nat, now: uint32)
    requires 0 <= throttle <= SCALE && Exceeds(c, throttle, bandwidth, now)
    ensures var t := CapOne(c, throttle, bandwidth, now).packetThrottleLimit;
            t >= 1 && (t + 1) * c.outgoingDataTotal > SCALE * bandwidth && (t == 1 || t * c.outgoingDataTotal <= SCALE * bandwidth)
  {
    CapFits(c.outgoingDataTotal, throttle, bandwidth);
    FloorMost(bandwidth * SCALE, c.outgoingDataTotal);
    MulLe(1, 2, c.outgoingDataTotal);
  }

  /** What is shared out is what the elapsed time allows, in whole units. */
  lemma FiguresExact(s: seq<Peer>, outgoing: uint32, incoming: uint32, elapsed: uint32)
    ensures var f := FiguresAt(s, outgoing, incoming, elapsed);
            && (if outgoing == 0 then f.budget == 0xFFFF_FFFF else 1000 * f.budget <= outgoing * elapsed < 1000 * (f.budget + 1))
            && 1000 * f.own <= incoming * elapsed < 1000 * (f.own + 1) && f.data == DataTotal(s)
  {
  }

  /** Client i is not promised more than its own incoming bandwidth, in the time since
      the last sharing, unless by the least limit. */
  ghost predicate Respects(s: seq<Peer>, outgoing: uint32, incoming: uint32, elapsed: uint32, now: uint32, i: nat) {
    var f := FiguresAt(s, outgoing, incoming, elapsed);
    f.budget >= 1 && i < |s| && Open(s[i], now) ==>
      var c := Shared(s, f, now)[i];
      c.packetThrottleLimit == 1 || c.packetThrottleLimit * s[i].outgoingDataTotal / SCALE <= s[i].incomingBandwidth * elapsed / 1000
  }

  /** A client's own bandwidth is respected whoever else takes part if and only if the
      host's incoming one, which the code compares it with, is not larger. */
  lemma OwnRespectedExactly(host: uint32, own: uint32, elapsed: uint32)
    requires own >= 1 && elapsed >= INTERVAL && host * elapsed < WRAP
    ensures (forall s: seq<Peer>, outgoing: uint32, now: uint32, i: nat {:trigger Respects(s, outgoing, host, elapsed, now, i)} ::
               i < |s| && s[i].incomingBandwidth == own ==> Respects(s, outgoing, host, elapsed, now, i)) <==> host <= own
  {
    if host <= own {
      MulLe(host, own, elapsed);
      forall s: seq<Peer>, outgoing: uint32, now: uint32, i: nat | i < |s| && s[i].incomingBandwidth == own
        ensures Respects(s, outgoing, host, elapsed, now, i)
      {
        if Open(s[i], now) && FiguresAt(s, outgoing, host, elapsed).budget >= 1 {
          NobodyExceeds(s, FiguresAt(s, outgoing, host, elapsed), now, i);
          hide Shared;
        }
      }
    } else {
      OwnExceeded(host, own, elapsed);
      var s := Greedy(host, own, elapsed);
      assert s[0].incomingBandwidth == own;
    }
  }

  /** One client, whose queued data is just what the host can receive. */
  function Greedy(host: uint32, own: uint32, elapsed: uint32): seq<Peer>
    requires host * elapsed < WRAP
  {
    [Peer(Connected, own, host * elapsed / 1000, 0, SCALE, SCALE, 1)]
  }

  lemma OwnExceeded(host: uint32, own: uint32, elapsed: uint32)
    requires 1 <= own < host && elapsed >= INTERVAL && host * elapsed < WRAP
    ensures !Respects(Greedy(host, own, elapsed), 0, host, elapsed, 0, 0)
  {
    var h: uint32 := host * elapsed / 1000;
    OwnLess(host, own, elapsed);
    var c := Peer(Connected, own, h, 0, SCALE, SCALE, 1);
    var s, f := [c], Figures(UNLIMITED, h, h);
    assert s[..0] == [];
    assert DataTotal(s) == DataTotal([]) + h;
    assert f == FiguresAt(s, 0, host, elapsed);
    GreedyShare(c, h, f);
  }

  lemma OwnLess(host: uint32, own: uint32, elapsed: uint32)
    requires own < host && elapsed >= INTERVAL
    ensures own * elapsed / 1000 < host * elapsed / 1000
  {
    MulLe(own + 1, host, elapsed);
    assert own * elapsed + elapsed == (own + 1) * elapsed;
  }

  lemma GreedyShare(c: Peer, h: uint32, f: Figures)
    requires h < UNLIMITED && f == Figures(UNLIMITED, h, h)
    requires c == Peer(Connected, c.incomingBandwidth, h, 0, SCALE, SCALE, 1)
    ensures Shared([c], f, 0) == [WithLimit(c, SCALE)]
  {
    var s := [c];
    assert s[..0] == [];
    assert First(f) == SCALE && !Exceeds(c, SCALE, h, 0);
    assert Caps(s, SCALE, h, 0) == Caps([], SCALE, h, 0);
    assert Capped(s, SCALE, h, 0) == s;
    NoneLeft(s, SCALE, h, 0);
    assert Second(s, f, 0) == SCALE;
  }

  // ------------------------------------------------------------- the program

  /** The products of the pass fit in 32 bits. */
  predicate Small(s: seq<Peer>) {
    forall i :: 0 <= i < |s| && Participates(s[i]) ==> SCALE * s[i].outgoingDataTotal < WRAP
  }

  lemma SmallData(s: seq<Peer>)
    requires SCALE * DataTotal(s) < WRAP
    ensures Small(s)
  {
    forall i | 0 <= i < |s| && Participates(s[i])
      ensures SCALE * s[i].outgoingDataTotal < WRAP
    {
      DataMember(s, i);
    }
  }

  function Spent(s: seq<Peer>, throttle: int, bandwidth: nat, now: uint32): int {
    Caps(s, throttle, bandwidth, now) * bandwidth
  }

  lemma CapsStep(s: seq<Peer>, i: nat, throttle: int, bandwidth: nat, now: uint32)
    requires i < |s|
    ensures Caps(s[..i + 1], throttle, bandwidth, now)
            == Caps(s[..i], throttle, bandwidth, now) + (if Exceeds(s[i], throttle, bandwidth, now) then 1 else 0)
    ensures Caps(s[..i + 1], throttle, bandwidth, now) <= Caps(s, throttle, bandwidth, now)
    ensures Spent(s[..i + 1], throttle, bandwidth, now)
            == Spent(s[..i], throttle, bandwidth, now) + (if Exceeds(s[i], throttle, bandwidth, now) then bandwidth else 0)
    ensures 0 <= Spent(s[..i], throttle, bandwidth, now)
    ensures Spent(s[..i + 1], throttle, bandwidth, now) <= Spent(s, throttle, bandwidth, now)
  {
    assert s[..i + 1][..i] == s[..i];
    CapsGrow(s, throttle, bandwidth, now, i + 1);
    MulStep(Caps(s[..i], throttle, bandwidth, now), bandwidth);
    MulLe(Caps(s[..i + 1], throttle, bandwidth, now), Caps(s, throttle, bandwidth, now), bandwidth);
  }

  // What is left to share out, and among how many.
  datatype Left = Left(bandwidth: int, data: int, remaining: int)

  /** Where a round of the loop stands: before client i, the clients being `cs`. */
  ghost predicate Capping(s: seq<Peer>, i: nat, cs: seq<Peer>, throttle: int, bandwidth: nat, now: uint32, adjusted: bool,
                          start: Left, left: Left)
  {
    && 0 <= throttle <= SCALE && i <= |s| && cs == Capped(s[..i], throttle, bandwidth, now) + s[i..]
    && (var n, x := Caps(s[..i], throttle, bandwidth, now), Spent(s[..i], throttle, bandwidth, now);
        (adjusted <==> n > 0) && left == Left(start.bandwidth - x, start.data - x, start.remaining - n))
  }

  /** There is enough for the whole round. */
  ghost predicate Enough(s: seq<Peer>, throttle: int, bandwidth: nat, now: uint32, start: Left) {
    && Small(s) && Spent(s, throttle, bandwidth, now) <= start.bandwidth && Spent(s, throttle, bandwidth, now) <= start.data
    && Caps(s, throttle, bandwidth, now) <= start.remaining
  }

  lemma CappingStarts(s: seq<Peer>, throttle: nat, bandwidth: nat, now: uint32, start: Left)
    requires throttle <= SCALE && Small(s)
    requires var n := Caps(s, throttle, bandwidth, now);
             n * bandwidth <= start.bandwidth && n * bandwidth <= start.data && n <= start.remaining
    ensures Capping(s, 0, s, throttle, bandwidth, now, false, start, start) && Enough(s, throttle, bandwidth, now, start)
  {
    assert s[..0] == [];
  }

  lemma CappingStep(s: seq<Peer>, i: nat, cs: seq<Peer>, throttle: int, bandwidth: nat, now: uint32, adjusted: bool, start: Left, left: Left)
    requires Capping(s, i, cs, throttle, bandwidth, now, adjusted, start, left) && Enough(s, throttle, bandwidth, now, start) && i < |s|
    ensures |cs| == |s| && cs[i] == s[i] && Small(cs)
    ensures var over := Exceeds(s[i], throttle, bandwidth, now);
            && (over ==> left.bandwidth >= bandwidth && left.data >= bandwidth && left.remaining >= 1)
            && Capping(s, i + 1, cs[i := CapOne(s[i], throttle, bandwidth, now)], throttle, bandwidth, now, adjusted || over, start,
                       if over then Left(left.bandwidth - bandwidth, left.data - bandwidth, left.remaining - 1) else left)
  {
    CapsStep(s, i, throttle, bandwidth, now);
    HalfSmall(s, i, throttle, bandwidth, now);
    HalfStep(s, i, throttle, bandwidth, now);
    hide Caps, Exceeds, CapOne, Small, Spent;
  }

  lemma CappingThrottle(s: seq<Peer>, i: nat, cs: seq<Peer>, throttle: int, bandwidth: nat, now: uint32, adjusted: bool, start: Left, left: Left)
    requires Capping(s, i, cs, throttle, bandwidth, now, adjusted, start, left)
    ensures 0 <= throttle <= SCALE
  {
  }

  lemma CappingEnds(s: seq<Peer>, cs: seq<Peer>, throttle: int, bandwidth: nat, now: uint32, adjusted: bool, start: Left, left: Left)
    requires Capping(s, |s|, cs, throttle, bandwidth, now, adjusted, start, left)
    ensures cs == Capped(s, throttle, bandwidth, now)
    ensures var n := Caps(s, throttle, bandwidth, now);
            (adjusted <==> n > 0) && left == Left(start.bandwidth - n * bandwidth, start.data - n * bandwidth, start.remaining - n)
  {
    assert s[..|s|] == s;
  }

  class Host {
    const clients: array<Peer>
    var outgoingBandwidth: uint32
    var incomingBandwidth: uint32
    var bandwidthThrottleEpoch: uint32

    constructor (clients: array<Peer>, outgoingBandwidth: uint32, incomingBandwidth: uint32, now: uint32)
      ensures this.clients == clients && this.outgoingBandwidth == outgoingBandwidth
      ensures this.incomingBandwidth == incomingBandwidth && bandwidthThrottleEpoch == now
    {
      this.clients, this.outgoingBandwidth := clients, outgoingBandwidth;
      this.incomingBandwidth, bandwidthThrottleEpoch := incomingBandwidth, now;
    }

    method Count() returns (clientsTotal: nat, dataTotal: uint32)
      requires DataTotal(clients[..]) < WRAP
      ensures clientsTotal == Participants(clients[..]) && dataTotal == DataTotal(clients[..])
    {
      var sum, i := 0, 0;
      clientsTotal := 0;
      while i < clients.Length
        invariant 0 <= i <= clients.Length
        invariant clientsTotal == Participants(clients[..i]) && sum == DataTotal(clients[..i])
      {
        assert clients[..i + 1][..i] == clients[..i];
        if Participates(clients[i]) {
          clientsTotal := clientsTotal + 1;
          sum := sum + clients[i].outgoingDataTotal;
        }
        i := i + 1;
      }
      assert clients[..i] == clients[..];
      dataTotal := sum;
    }

    /** Caps one client if it exceeds. */
    method CapClient(i: nat, throttle: nat, clientBandwidth: uint32, now: uint32) returns (capped: bool)
      requires i < clients.Length && throttle <= SCALE && Small(clients[..])
      modifies clients
      ensures capped <==> Exceeds(old(clients[i]), throttle, clientBandwidth, now)
      ensures clients[..] == old(clients[..])[i := CapOne(old(clients[i]), throttle, clientBandwidth, now)]
    {
      var c := clients[i];
      if !Participates(c) || c.incomingBandwidth == 0 || c.throttleEpoch == now {
        return false;
      }
      assert c == clients[..][i];
      MulLe(throttle, SCALE, c.outgoingDataTotal);
      var product: uint32 := throttle * c.outgoingDataTotal;
      if product / SCALE <= clientBandwidth {
        return false;
      }
      CapFits(c.outgoingDataTotal, throttle, clientBandwidth);
      var scaled: uint32 := clientBandwidth * SCALE;
      var limit: uint32 := scaled / c.outgoingDataTotal;
      if limit == 0 {
        limit := 1;
      }
      c := c.(packetThrottleLimit := limit);
      if c.packetThrottle > limit {
        c := c.(packetThrottle := limit);
      }
      clients[i] := c.(throttleEpoch := now);
      capped := true;
    }

    /** One round of the loop: neither total runs below zero on the way. */
    method CapClients(throttle: nat, clientBandwidth: uint32, now: uint32, bandwidth: uint32, dataTotal: uint32, remaining: nat)
      returns (adjusted: bool, bandwidthLeft: uint32, dataLeft: uint32, remainingLeft: nat)
      requires throttle <= SCALE && Small(clients[..])
      requires var n := Caps(clients[..], throttle, clientBandwidth, now);
               n * clientBandwidth <= bandwidth && n * clientBandwidth <= dataTotal && n <= remaining
      modifies clients
      ensures clients[..] == Capped(old(clients[..]), throttle, clientBandwidth, now)
      ensures var n := Caps(old(clients[..]), throttle, clientBandwidth, now);
              && (adjusted <==> n > 0) && bandwidthLeft == bandwidth - n * clientBandwidth
              && dataLeft == dataTotal - n * clientBandwidth && remainingLeft == remaining - n
    {
      ghost var s, start := clients[..], Left(bandwidth, dataTotal, remaining);
      adjusted, bandwidthLeft, dataLeft, remainingLeft := false, bandwidth, dataTotal, remaining;
      var i := 0;
      CappingStarts(s, throttle, clientBandwidth, now, start);
      hide Capping, Caps, Capped, Small, Enough;
      while i < clients.Length
        invariant 0 <= i <= clients.Length
        invariant Capping(s, i, clients[..], throttle, clientBandwidth, now, adjusted, start, Left(bandwidthLeft, dataLeft, remainingLeft))
      {
        adjusted, bandwidthLeft, dataLeft, remainingLeft :=
          CapNext(i, throttle, clientBandwidth, now, adjusted, bandwidthLeft, dataLeft, remainingLeft, s, start);
        i := i + 1;
      }
      CappingEnds(s, clients[..], throttle, clientBandwidth, now, adjusted, start, Left(bandwidthLeft, dataLeft, remainingLeft));
    }

    /** The loop's step. */
    method CapNext(i: nat, throttle: nat, clientBandwidth: uint32, now: uint32, adjusted0: bool, bandwidth: uint32, dataTotal: uint32,
                   remaining: nat, ghost s: seq<Peer>, ghost start: Left)
      returns (adjusted: bool, bandwidthLeft: uint32, dataLeft: uint32, remainingLeft: nat)
      requires i < clients.Length == |s| && Enough(s, throttle, clientBandwidth, now, start)
      requires Capping(s, i, clients[..], throttle, clientBandwidth, now, adjusted0, start, Left(bandwidth, dataTotal, remaining))
      modifies clients
      ensures Capping(s, i + 1, clients[..], throttle, clientBandwidth, now, adjusted, start, Left(bandwidthLeft, dataLeft, remainingLeft))
    {
      ghost var cs := clients[..];
      CappingStep(s, i, cs, throttle, clientBandwidth, now, adjusted0, start, Left(bandwidth, dataTotal, remaining));
      CappingThrottle(s, i, cs, throttle, clientBandwidth, now, adjusted0, start, Left(bandwidth, dataTotal, remaining));
      hide Capping, Exceeds, CapOne, Small, Enough;
      assert clients[i] == cs[i];
      adjusted, bandwidthLeft, dataLeft, remainingLeft := adjusted0, bandwidth, dataTotal, remaining;
      var capped := CapClient(i, throttle, clientBandwidth, now);
      if capped {
        adjusted, remainingLeft := true, remaining - 1;
        bandwidthLeft, dataLeft := bandwidth - clientBandwidth, dataTotal - clientBandwidth;
      }
    }

    /** The clients left open get what is left. */
    method SettleClients(throttle: uint32, now: uint32)
      modifies clients
      ensures clients[..] == Settled(old(clients[..]), throttle, now)
    {
      ghost var s := clients[..];
      var i := 0;
      while i < clients.Length
        invariant 0 <= i <= clients.Length
        invariant clients[..i] == Settled(s, throttle, now)[..i] && clients[i..] == s[i..]
      {
        assert clients[i] == clients[i..][0] == s[i];
        var c := clients[i];
        if Open(c, now) {
          c := c.(packetThrottleLimit := throttle);
          if c.packetThrottle > throttle {
            c := c.(packetThrottle := throttle);
          }
          clients[i] := c;
        }
        i := i + 1;
      }
    }

    method ClearTotals()
      modifies clients
      ensures clients[..] == Cleared(old(clients[..]))
    {
      ghost var s := clients[..];
      var i := 0;
      while i < clients.Length
        invariant 0 <= i <= clients.Length
        invariant clients[..i] == Cleared(s)[..i] && clients[i..] == s[i..]
      {
        assert clients[i] == clients[i..][0] == s[i];
        clients[i] := clients[i].(incomingDataTotal := 0, outgoingDataTotal := 0);
        i := i + 1;
      }
    }

    /** throttle_bandwidth, up to the announcements. Once a second, when somebody is
        connected, the limits become what Shared says; otherwise nothing changes.
        There must be no 32-bit overflow. */
    method ThrottleBandwidth(currentTime: uint32)
      requires var elapsed := (currentTime - bandwidthThrottleEpoch) % WRAP;
               && outgoingBandwidth * elapsed < WRAP && incomingBandwidth * elapsed < WRAP
               && SCALE * DataTotal(clients[..]) < WRAP
      modifies this`bandwidthThrottleEpoch, clients
      ensures var elapsed, s := (currentTime - old(bandwidthThrottleEpoch)) % WRAP, old(clients[..]);
              if elapsed < INTERVAL || Participants(s) == 0 then
                clients[..] == s && bandwidthThrottleEpoch == old(bandwidthThrottleEpoch)
              else
                var f := FiguresAt(s, outgoingBandwidth, incomingBandwidth, elapsed);
                && f.budget >= 1 && clients[..] == Cleared(Shared(s, f, currentTime))
                && bandwidthThrottleEpoch == currentTime
    {
      var elapsedTime: uint32 := (currentTime - bandwidthThrottleEpoch) % WRAP;
      if elapsedTime < INTERVAL {
        return;
      }
      var clientsTotal, dataTotal := Count();
      if clientsTotal == 0 {
        return;
      }
      var bandwidth: uint32 := UNLIMITED;
      if outgoingBandwidth != 0 {
        BudgetPositive(outgoingBandwidth, elapsedTime);
        bandwidth := outgoingBandwidth * elapsedTime / 1000;
      }
      var clientBandwidth: uint32 := incomingBandwidth * elapsedTime / 1000;
      ghost var f := Figures(bandwidth, clientBandwidth, dataTotal);
      assert f == FiguresAt(clients[..], outgoingBandwidth, incomingBandwidth, elapsedTime);
      FillLimits(clientsTotal, bandwidth, dataTotal, clientBandwidth, currentTime, f);
      bandwidthThrottleEpoch := currentTime;
      ClearTotals();
    }

    /** The water-filling loop and the settling after it. */
    method FillLimits(clientsTotal: nat, budget: uint32, data: uint32, clientBandwidth: uint32, currentTime: uint32,
                      ghost f: Figures)
      requires f == Figures(budget, clientBandwidth, data) && budget >= 1 && data == DataTotal(clients[..])
      requires SCALE * data < WRAP && clientsTotal == Participants(clients[..]) > 0
      modifies clients
      ensures clients[..] == Shared(old(clients[..]), f, currentTime)
    {
      hide Round, Shared, Caps, Capped, DataTotal, Participants, First, Second;
      ghost var s, first := clients[..], true;
      var bandwidth: uint32, dataTotal: uint32 := budget, data;
      var clientsRemaining, throttle, adjust := clientsTotal, 0, true;
      FillStarts(s, f, currentTime);
      while clientsRemaining > 0 && adjust
        invariant Round(first, adjust, throttle, bandwidth, dataTotal, clientsRemaining, s, clients[..], f, currentTime)
        invariant Small(clients[..])
        decreases clientsRemaining, first, adjust
      {
        ghost var before := clients[..];
        RoundKeeps(first, throttle, bandwidth, dataTotal, clientsRemaining, s, before, f, currentTime);
        throttle := if dataTotal < bandwidth then SCALE else bandwidth * SCALE / dataTotal;
        StaysSmall(before, throttle, clientBandwidth, currentTime);
        adjust, bandwidth, dataTotal, clientsRemaining :=
          CapClients(throttle, clientBandwidth, currentTime, bandwidth, dataTotal, clientsRemaining);
        first := false;
      }
      FillEnds(first, adjust, throttle, bandwidth, dataTotal, clientsRemaining, s, clients[..], f, currentTime);
      if clientsRemaining > 0 {
        SettleClients(throttle, currentTime);
      }
    }
  }

  /** What the figures of one sharing are. */
  function FiguresAt(s: seq<Peer>, outgoing: uint32, incoming: uint32, elapsed: uint32): (f: Figures) {
    Figures(if outgoing == 0 then UNLIMITED else outgoing * elapsed / 1000, incoming * elapsed / 1000, DataTotal(s))
  }

  lemma BudgetPositive(outgoing: uint32, elapsed: uint32)
    requires outgoing > 0 && elapsed >= INTERVAL
    ensures outgoing * elapsed / 1000 >= 1
  {
    MulLe(1, outgoing, elapsed);
  }

  /** Where the loop stands: before the first round, or after it. */
  ghost predicate Round(first: bool, adjust: bool, throttle: int, bandwidth: int, data: int, remaining: int,
                        s: seq<Peer>, now: seq<Peer>, f: Figures, at: uint32)
    requires f.budget >= 1 && f.data == DataTotal(s)
  {
    var n := Caps(s, First(f), f.own, at);
    if first then adjust && now == s && bandwidth == f.budget && data == f.data && remaining == Participants(s)
    else
      && now == Capped(s, First(f), f.own, at) && bandwidth == f.budget - n * f.own && data == f.data - n * f.own
      && remaining == Participants(s) - n
      && (!adjust ==> throttle == Second(s, f, at))
  }

  /** What a round needs and leaves; only the first caps anybody. */
  lemma RoundKeeps(first: bool, throttle: int, bandwidth: int, data: int, remaining: int,
                   s: seq<Peer>, now: seq<Peer>, f: Figures, at: uint32)
    requires f.budget >= 1 && f.data == DataTotal(s) && Round(first, true, throttle, bandwidth, data, remaining, s, now, f, at)
    ensures bandwidth >= 1 && 0 <= Share(bandwidth, data) <= SCALE
    ensures var t := Share(bandwidth, data);
            var n := Caps(now, t, f.own, at);
            && n * f.own <= bandwidth && n * f.own <= data && n <= remaining && (!first ==> n == 0)
            && Round(false, n > 0, t, bandwidth - n * f.own, data - n * f.own, remaining - n,
                     s, Capped(now, t, f.own, at), f, at)
  {
    LeftOver(s, f, at);
    CapsGrow(s, First(f), f.own, at, 0);
    var n := Caps(s, First(f), f.own, at);
    if first {
      SecondAlone(s, f, at);
      assert Share(bandwidth, data) == First(f);
    } else {
      NoMoreCaps(s, First(f), Second(s, f, at), f.own, at);
      assert Share(bandwidth, data) == Second(s, f, at);
      NoneLeft(now, Second(s, f, at), f.own, at);
    }
    hide OpenData, Share, Caps, Capped, DataTotal, Participants, First, Second;
  }

  lemma NoneLeft(s: seq<Peer>, throttle: int, bandwidth: nat, now: uint32)
    ensures Caps(s, throttle, bandwidth, now) == 0 ==> Caps(s, throttle, bandwidth, now) * bandwidth == 0
  {
  }

  /** With nobody capped there is no second throttle. */
  lemma SecondAlone(s: seq<Peer>, f: Figures, now: uint32)
    requires f.budget >= 1 && f.data == DataTotal(s)
    ensures Caps(s, First(f), f.own, now) == 0 ==> Second(s, f, now) == First(f)
  {
    hide OpenData, Share, Caps, DataTotal;
    if Caps(s, First(f), f.own, now) == 0 {
      assert Caps(s, First(f), f.own, now) * f.own == 0;
    }
  }

  lemma FillStarts(s: seq<Peer>, f: Figures, at: uint32)
    requires f.budget >= 1 && f.data == DataTotal(s) && SCALE * f.data < WRAP
    ensures Round(true, true, 0, f.budget, f.data, Participants(s), s, s, f, at) && Small(s)
  {
    SmallData(s);
  }

  lemma StaysSmall(s: seq<Peer>, throttle: int, bandwidth: nat, now: uint32)
    requires 0 <= throttle <= SCALE && Small(s)
    ensures Small(Capped(s, throttle, bandwidth, now))
  {
  }

  /** When the loop ends, settling whoever is left completes the sharing. */
  lemma FillEnds(first: bool, adjust: bool, throttle: int, bandwidth: int, data: int, remaining: int,
                 s: seq<Peer>, now: seq<Peer>, f: Figures, at: uint32)
    requires f.budget >= 1 && f.data == DataTotal(s) && Round(first, adjust, throttle, bandwidth, data, remaining, s, now, f, at)
    requires !(remaining > 0 && adjust) && (first ==> Participants(s) > 0)
    ensures remaining > 0 ==> 0 <= throttle <= SCALE && Settled(now, throttle, at) == Shared(s, f, at)
    ensures remaining <= 0 ==> now == Shared(s, f, at)
  {
    CapsGrow(s, First(f), f.own, at, 0);
    if remaining <= 0 {
      forall i | 0 <= i < |s|
        ensures !Open(now[i], at)
      {
        AllCapped(s, First(f), f.own, at, i);
      }
    }
  }

  lemma HalfSmall(s: seq<Peer>, i: nat, throttle: int, bandwidth: nat, now: uint32)
    requires i <= |s| && 0 <= throttle <= SCALE && Small(s)
    ensures Small(Capped(s[..i], throttle, bandwidth, now) + s[i..])
  {
  }

  lemma HalfStep(s: seq<Peer>, i: nat, throttle: int, bandwidth: nat, now: uint32)
    requires i < |s| && 0 <= throttle <= SCALE
    ensures (Capped(s[..i], throttle, bandwidth, now) + s[i..])[i := CapOne(s[i], throttle, bandwidth, now)]
            == Capped(s[..i + 1], throttle, bandwidth, now) + s[i + 1..]
  {
  }
}
