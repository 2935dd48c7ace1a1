/** Unreliable messages: the throttle that drops some of them, and how the rest
    are packed (send_unreliable in gekkota_xudp.c). */
module Throttle {
  import opened Words
  import opened Wrappers
  import opened Clock
  import opened Messages
  import opened OutgoingQueues

  const SCALE := 32
  const STEP := 7

  /** What the loop works on: the queue, the messages kept for this datagram, and
      the throttle counter. */
  datatype Flush = Flush(queue: seq<Outgoing>, kept: seq<Outgoing>, counter: uint32)

  function NextCounter(counter: uint32): (r: uint32)
    ensures r < SCALE
  {
    (counter + STEP) % WRAP % SCALE
  }

  function HasRoom(m: Outgoing, p: Packing, mtu: nat): bool
    requires p.size <= mtu
  {
    p.messages < MAX_MESSAGES && p.buffers + 1 < MAX_BUFFERS && Size(m.kind) + m.Length() <= mtu - p.size
  }

  /** The whole loop; the boolean asks for another datagram. A message without a
      packet is never dropped, and is not kept once it is written. */
  function FlushUnreliable(f: Flush, throttle: uint32, p: Packing, mtu: nat): (r: (Flush, Packing, bool))
    requires p.size <= mtu
    decreases |f.queue|
  {
    if f.queue == [] then (f, p, false)
    else
      var m, rest := f.queue[0], f.queue[1..];
      if !HasRoom(m, p, mtu) then (f, p, true)
      else if m.data.None? then FlushUnreliable(Flush(rest, f.kept, f.counter), throttle, PackOne(p, m), mtu)
      else
        var c := NextCounter(f.counter);
        if c > throttle then FlushUnreliable(Flush(rest, f.kept, c), throttle, p, mtu)
        else FlushUnreliable(Flush(rest, f.kept + [m], c), throttle, PackOne(p, m), mtu)
  }

  /** The loop stops only when the queue is empty, or has no room for the next message. */
  lemma {:induction false} FlushStops(f: Flush, throttle: uint32, p: Packing, mtu: nat)
    requires p.size <= mtu
    ensures var (f', p', more) := FlushUnreliable(f, throttle, p, mtu);
            && p'.size <= mtu && p.size <= p'.size && p.messages <= p'.messages && p.buffers <= p'.buffers
            && (f'.queue != [] ==>
                  var length := if f'.queue[0].data.Some? then |f'.queue[0].data.value.data| else 0;
                  p'.messages >= 32 || p'.buffers >= 64 || mtu - p'.size < Size(f'.queue[0].kind) + length)
    decreases |f.queue|
  {
    if f.queue != [] && HasRoom(f.queue[0], p, mtu) {
      hide NextCounter;
      var m, rest := f.queue[0], f.queue[1..];
      if m.data.None? {
        FlushStops(Flush(rest, f.kept, f.counter), throttle, PackOne(p, m), mtu);
      } else {
        var c := NextCounter(f.counter);
        FlushStops(Flush(rest, f.kept, c), throttle, p, mtu);
        FlushStops(Flush(rest, f.kept + [m], c), throttle, PackOne(p, m), mtu);
      }
    }
  }

  /** The counter after i packet-bearing messages. */
  function CounterAfter(counter: uint32, i: nat): (r: uint32)
  {
    if i == 0 then counter else NextCounter(CounterAfter(counter, i - 1))
  }

  /** The packet-bearing messages of s that the throttle lets through. */
  function Admitted(s: seq<Outgoing>, counter: uint32, throttle: uint32): (r: seq<Outgoing>)
    decreases |s|
  {
    if s == [] then []
    else if s[0].data.None? then Admitted(s[1..], counter, throttle)
    else
      var c := NextCounter(counter);
      (if c <= throttle then [s[0]] else []) + Admitted(s[1..], c, throttle)
  }

  function Packets(s: seq<Outgoing>): (r: nat)
    decreases |s|
  {
    if s == [] then 0 else (if s[0].data.Some? then 1 else 0) + Packets(s[1..])
  }

  /** The loop takes a prefix of the queue, keeps exactly what the throttle admits
      of it, in order, and does not overfill the datagram. */
  lemma {:induction false} FlushKeeps(f: Flush, throttle: uint32, p: Packing, mtu: nat) returns (k: nat)
    requires Fits(p, mtu)
    ensures var (f', p', more) := FlushUnreliable(f, throttle, p, mtu);
            && k <= |f.queue| && f'.queue == f.queue[k..]
            && f'.kept == f.kept + Admitted(f.queue[..k], f.counter, throttle)
            && f'.counter == CounterAfter(f.counter, Packets(f.queue[..k]))
            && Fits(p', mtu)
            && (more <==> f'.queue != [] && !HasRoom(f'.queue[0], p', mtu))
            && (!more ==> f'.queue == [])
    decreases |f.queue|
  {
    k := 0;
    hide CounterAfter, NextCounter;
    if f.queue == [] || !HasRoom(f.queue[0], p, mtu) {
      assert f.kept + [] == f.kept;
      CounterNone(f.counter);
    } else {
      var m, rest := f.queue[0], f.queue[1..];
      var c := if m.data.None? then f.counter else NextCounter(f.counter);
      var kept := if m.data.Some? && c <= throttle then f.kept + [m] else f.kept;
      var p1 := if m.data.Some? && c > throttle then p else PackOne(p, m);
      var j := FlushKeeps(Flush(rest, kept, c), throttle, p1, mtu);
      k := j + 1;
      var took := f.queue[..k];
      assert took[0] == m && took[1..] == rest[..j];
      if m.data.Some? {
        CounterFirst(f.counter, Packets(rest[..j]));
      }
    }
  }

  lemma CounterNone(counter: uint32)
    ensures CounterAfter(counter, 0) == counter
  {
  }

  lemma {:induction false} CounterFirst(counter: uint32, i: nat)
    ensures CounterAfter(NextCounter(counter), i) == CounterAfter(counter, i + 1)
  {
    if i > 0 {
      CounterFirst(counter, i - 1);
    }
  }

  // ------------------------------------------------------------- the rate

  /** How many of the next n packet-bearing messages are let through. */
  function LetThrough(counter: uint32, throttle: uint32, n: nat): (r: nat)
  {
    if n == 0 then 0
    else LetThrough(counter, throttle, n - 1) + (if CounterAfter(counter, n) <= throttle then 1 else 0)
  }

  /** How many of the next n counters are v. */
  function Hits(counter: uint32, v: nat, n: nat): (r: nat)
  {
    if n == 0 then 0 else Hits(counter, v, n - 1) + (if CounterAfter(counter, n) == v then 1 else 0)
  }

  lemma {:induction false} CounterForm(counter: uint32, i: nat)
    requires i > 0
    ensures CounterAfter(counter, i) == (counter + STEP * i) % SCALE
    decreases i
  {
    var before := if i == 1 then counter else CounterAfter(counter, i - 1);
    if i > 1 {
      CounterForm(counter, i - 1);
      AddResidue(counter + STEP * (i - 1), STEP);
    }
    WrapResidue(before + STEP);
  }

  lemma AddResidue(x: nat, y: nat)
    ensures (x % SCALE + y) % SCALE == (x + y) % SCALE
  {
    var q := x / SCALE;
    assert x == SCALE * q + x % SCALE;
  }

  lemma WrapResidue(x: nat)
    ensures x % WRAP % SCALE == x % SCALE
  {
    var q, r := x / WRAP, x % WRAP;
    assert x == SCALE * (0x800_0000 * q) + r;
  }

  lemma Congruent(x: int, v: nat)
    requires v < SCALE
    ensures x % SCALE == v <==> (x - v) % SCALE == 0
  {
    var q := x / SCALE;
    assert x == SCALE * q + x % SCALE;
    if (x - v) % SCALE == 0 {
      var k := (x - v) / SCALE;
      assert x == SCALE * k + v;
    }
  }

  /** 7 has an inverse modulo 32, namely 23. */
  lemma Invertible(d: int)
    ensures (STEP * d) % SCALE == 0 <==> d % SCALE == 0
  {
    var q := STEP * d / SCALE;
    if (STEP * d) % SCALE == 0 {
      assert STEP * d == SCALE * q;
      assert d == SCALE * (23 * q - 5 * d);
    }
    if d % SCALE == 0 {
      var k := d / SCALE;
      assert STEP * d == SCALE * (STEP * k);
    }
  }

  /** The one place among the next 32 where the counter is v. */
  function HitPlace(counter: uint32, v: nat): (at: nat)
    ensures 1 <= at <= SCALE
  {
    (23 * (v - counter) - 1) % SCALE + 1
  }

  lemma HitPlaceHits(counter: uint32, v: nat)
    ensures (counter + STEP * HitPlace(counter, v) - v) % SCALE == 0
  {
    var w := 23 * (v - counter);
    var k := (w - 1) / SCALE;
    assert HitPlace(counter, v) == w - SCALE * k;
    hide HitPlace;
    assert counter + STEP * HitPlace(counter, v) - v == SCALE * (5 * (v - counter) - STEP * k);
    Multiple(5 * (v - counter) - STEP * k);
  }

  lemma Multiple(x: int)
    ensures SCALE * x % SCALE == 0
  {
  }

  lemma HitAt(counter: uint32, v: nat, i: nat)
    requires v < SCALE && 1 <= i <= SCALE
    ensures CounterAfter(counter, i) == v <==> i == HitPlace(counter, v)
  {
    hide HitPlace, CounterAfter;
    var at := HitPlace(counter, v);
    CounterForm(counter, i);
    HitPlaceHits(counter, v);
    SameResidue(counter, v, i, at);
  }

  lemma SameResidue(counter: uint32, v: nat, i: nat, at: nat)
    requires v < SCALE && 1 <= i <= SCALE && 1 <= at <= SCALE
    requires (counter + STEP * at - v) % SCALE == 0
    ensures (counter + STEP * i) % SCALE == v <==> i == at
  {
    Congruent(counter + STEP * i, v);
    Invertible(i - at);
    SumResidue(counter + STEP * at - v, STEP * (i - at));
    assert counter + STEP * i - v == (counter + STEP * at - v) + STEP * (i - at);
    NearResidue(i - at);
  }

  lemma NearResidue(d: int)
    requires -SCALE < d < SCALE
    ensures d % SCALE == 0 <==> d == 0
  {
  }

  lemma SumResidue(x: int, y: int)
    requires x % SCALE == 0
    ensures (x + y) % SCALE == 0 <==> y % SCALE == 0
  {
    var k := x / SCALE;
    assert x == SCALE * k;
    Congruent(y, 0);
    if y % SCALE == 0 {
      var j := y / SCALE;
      assert x + y == SCALE * (k + j);
    }
    if (x + y) % SCALE == 0 {
      var j := (x + y) / SCALE;
      assert y == SCALE * (j - k);
    }
  }

  lemma {:induction false} HitsForm(counter: uint32, v: nat, n: nat)
    requires v < SCALE && n <= SCALE
    ensures Hits(counter, v, n) == if HitPlace(counter, v) <= n then 1 else 0
  {
    if n > 0 {
      HitsForm(counter, v, n - 1);
      HitAt(counter, v, n);
    }
  }

  /** Raising the throttle by one lets through the messages that hit the new value. */
  lemma {:induction false} LetThroughStep(counter: uint32, throttle: uint32, n: nat)
    requires throttle > 0
    ensures LetThrough(counter, throttle, n) == LetThrough(counter, throttle - 1, n) + Hits(counter, throttle, n)
  {
    if n > 0 {
      LetThroughStep(counter, throttle, n - 1);
    }
  }

  lemma {:induction false} LetThroughZero(counter: uint32, n: nat)
    ensures LetThrough(counter, 0, n) == Hits(counter, 0, n)
  {
    if n > 0 {
      LetThroughZero(counter, n - 1);
    }
  }

  lemma {:induction false} LetThroughAll(counter: uint32, throttle: uint32, n: nat)
    requires throttle >= SCALE - 1
    ensures LetThrough(counter, throttle, n) == n
  {
    if n > 0 {
      LetThroughAll(counter, throttle, n - 1);
    }
  }

  /** The throttle's rate is exact: of any 32 consecutive packet-bearing messages,
      from any counter, min(t + 1, 32) are sent. */
  lemma {:induction false} RateExact(counter: uint32, throttle: uint32)
    ensures LetThrough(counter, throttle, SCALE) == if throttle + 1 < SCALE then throttle + 1 else SCALE
    decreases throttle
  {
    if throttle >= SCALE - 1 {
      LetThroughAll(counter, throttle, SCALE);
    } else if throttle == 0 {
      LetThroughZero(counter, SCALE);
      HitsForm(counter, 0, SCALE);
    } else {
      RateExact(counter, throttle - 1);
      LetThroughStep(counter, throttle, SCALE);
      HitsForm(counter, throttle, SCALE);
    }
  }

  /** The messages admitted are as many as the counter lets through. */
  lemma {:induction false} AdmittedCount(s: seq<Outgoing>, counter: uint32, throttle: uint32)
    ensures |Admitted(s, counter, throttle)| == LetThrough(counter, throttle, Packets(s))
    decreases |s|
  {
    if s != [] {
      if s[0].data.None? {
        AdmittedCount(s[1..], counter, throttle);
      } else {
        AdmittedCount(s[1..], NextCounter(counter), throttle);
        LetThroughFirst(counter, throttle, Packets(s[1..]));
      }
    }
  }

  lemma {:induction false} LetThroughFirst(counter: uint32, throttle: uint32, n: nat)
    ensures LetThrough(counter, throttle, n + 1)
            == (if NextCounter(counter) <= throttle then 1 else 0) + LetThrough(NextCounter(counter), throttle, n)
  {
    if n == 0 {
      assert CounterAfter(counter, 1) == NextCounter(CounterAfter(counter, 0));
    } else {
      LetThroughFirst(counter, throttle, n - 1);
      CounterFirst(counter, n);
    }
  }

  /** So any 32 packets taken from the queue lose exactly the others. */
  lemma ThrottledBatch(s: seq<Outgoing>, counter: uint32, throttle: uint32)
    requires Packets(s) == SCALE
    ensures |Admitted(s, counter, throttle)| == if throttle + 1 < SCALE then throttle + 1 else SCALE
  {
    AdmittedCount(s, counter, throttle);
    RateExact(counter, throttle);
  }
}
