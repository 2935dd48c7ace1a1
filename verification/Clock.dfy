/** The 32-bit millisecond clock of gekkota_time.c and gekkota_time.h, and the
    16-bit send times echoed in acknowledgements. Times wrap around. */
module Clock {
  import opened Words

  const WRAP := 0x1_0000_0000
  const OVERFLOW := 86400000

  function Plus(a: uint32, b: int): (r: uint32) {
    (a + b) % WRAP
  }

  lemma PlusSmall(a: uint32, b: int)
    requires 0 <= a + b < WRAP
    ensures Plus(a, b) == a + b
  {
  }

  function Minus(a: uint32, b: uint32): (r: uint32) {
    (a - b) % WRAP
  }

  /** gekkota_time_get_lag on unsigned 32-bit times. */
  function Lag(time1: uint32, time2: uint32): uint32 {
    if Minus(time1, time2) >= OVERFLOW then Minus(time2, time1) else Minus(time1, time2)
  }

  /** gekkota_time_compare: negative, zero or positive. */
  function Compare(time1: uint32, time2: uint32): int {
    if Minus(time1, time2) >= OVERFLOW then -1
    else if Minus(time2, time1) >= OVERFLOW then 1
    else 0
  }

  /** How far a time lies after `base`, wherever the clock wraps. */
  function Since(base: uint32, time: uint32): (r: nat) {
    Minus(time, base)
  }

  /** Within a day of a common base, lag is the distance and comparison the order,
      also across the wrap of the 32-bit clock. */
  lemma LagAndCompareExact(base: uint32, time1: uint32, time2: uint32)
    requires Since(base, time1) < OVERFLOW && Since(base, time2) < OVERFLOW
    ensures Lag(time1, time2) == if Since(base, time1) >= Since(base, time2)
                                 then Since(base, time1) - Since(base, time2)
                                 else Since(base, time2) - Since(base, time1)
    ensures Compare(time1, time2) < 0 <==> Since(base, time1) < Since(base, time2)
    ensures Compare(time1, time2) == 0 <==> time1 == time2
  {
    var d := Since(base, time1) - Since(base, time2);
    MinusSince(base, time1, time2);
    MinusSince(base, time2, time1);
    SinceInjective(base, time1, time2);
  }

  lemma MinusSince(base: uint32, time1: uint32, time2: uint32)
    ensures Minus(time1, time2) == (Since(base, time1) - Since(base, time2)) % WRAP
  {
    var a, b := time1 - base, time2 - base;
    assert a % WRAP == if a >= 0 then a else a + WRAP;
    assert b % WRAP == if b >= 0 then b else b + WRAP;
  }

  lemma SinceInjective(base: uint32, time1: uint32, time2: uint32)
    ensures Since(base, time1) == Since(base, time2) <==> time1 == time2
  {
  }

  // ------------------------------------------------ echoed send times

  /** The 32-bit send time as rebuilt from its low 16 bits. */
  function RebuildSentTime(echo: uint16, now: uint32): (r: uint32) {
    var sentTime := echo + now / 0x1_0000 * 0x1_0000;
    if sentTime % 0x1_0000 / 0x8000 > now % 0x1_0000 / 0x8000 then (sentTime - 0x1_0000) % WRAP else sentTime
  }

  /** The rebuilt time is the true one whenever the message was under way for less
      than 0x8000 milliseconds ... */
  lemma RebuildExact(sent: uint32, now: uint32)
    requires Minus(now, sent) < 0x8000
    ensures RebuildSentTime(sent % 0x1_0000, now) == sent
  {
    RebuildExactWhen(sent, now);
    var c, t := now % 0x1_0000, sent % 0x1_0000;
    SplitMinus(sent, now);
  }

  lemma SplitMinus(sent: uint32, now: uint32)
    ensures (now % 0x1_0000 - sent % 0x1_0000) % 0x1_0000 == Minus(now, sent) % 0x1_0000
  {
    var a, b, c, d := now / 0x1_0000, now % 0x1_0000, sent / 0x1_0000, sent % 0x1_0000;
    assert now == a * 0x1_0000 + b && sent == c * 0x1_0000 + d;
    MinusHalves(now, sent, a, b, c, d);
  }

  /** ... and, for messages sent up to about 24 days ago, exactly when less than
      0x1_0000 ms have passed and the low half of the clock either has not wrapped
      since or has gone from its upper to its lower half. */
  lemma RebuildExactWhen(sent: uint32, now: uint32)
    requires Minus(now, sent) < 0x8000_0000
    ensures RebuildSentTime(sent % 0x1_0000, now) == sent <==>
            && Minus(now, sent) < 0x1_0000
            && (sent % 0x1_0000 <= now % 0x1_0000 || (sent % 0x1_0000 >= 0x8000 && now % 0x1_0000 < 0x8000))
  {
    var a, b, c, d := now / 0x1_0000, now % 0x1_0000, sent / 0x1_0000, sent % 0x1_0000;
    assert now == a * 0x1_0000 + b && sent == c * 0x1_0000 + d;
    RebuildParts(a, b, d);
    MinusHalves(now, sent, a, b, c, d);
    hide RebuildSentTime, Minus;
  }

  /** The distance of two times, by their high and low halves. */
  lemma MinusHalves(now: uint32, sent: uint32, a: nat, b: nat, c: nat, d: nat)
    requires now == a * 0x1_0000 + b && sent == c * 0x1_0000 + d && a < 0x1_0000 && b < 0x1_0000 && c < 0x1_0000 && d < 0x1_0000
    ensures Minus(now, sent) == (if now >= sent then a - c else a - c + 0x1_0000) * 0x1_0000 + (b - d)
  {
  }

  lemma RebuildParts(high: nat, low: nat, echo: nat)
    requires high < 0x1_0000 && low < 0x1_0000 && echo < 0x1_0000
    ensures var now := high * 0x1_0000 + low;
            RebuildSentTime(echo, now) ==
              if echo >= 0x8000 && low < 0x8000
              then (if high > 0 then (high - 1) * 0x1_0000 + echo else 0xFFFF * 0x1_0000 + echo)
              else high * 0x1_0000 + echo
  {
    var now := high * 0x1_0000 + low;
    assert now / 0x1_0000 == high && now % 0x1_0000 == low;
    assert (echo + high * 0x1_0000) % 0x1_0000 == echo;
  }
}
