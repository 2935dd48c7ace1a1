/** 16-bit sequence numbers that wrap around, as the receiver compares them
    (gekkota_xudpclient.c and gekkota_xudp.c). */
module Sequence {
  import opened Words

  const HIGH := 0xF000
  const LOW := 0x1000

  /** A number at the low end counts as wrapped when the last one was at the high end. */
  function Adjust(last: uint16, number: uint16): (r: uint32) {
    if last >= HIGH && number < LOW then number + 0x1_0000 else number
  }

  /** The receiver's test for a message that precedes the last one delivered. */
  predicate IsOld(last: uint16, number: uint16) {
    Adjust(last, number) < last || (last < LOW && number >= HIGH)
  }

  /** The test agrees with the unbounded numbers for every message less than
      0x1000 away from the last one delivered, ahead or behind. */
  lemma OldTestExact(last: nat, number: nat)
    requires last - LOW < number < last + LOW
    ensures IsOld(last % 0x1_0000, number % 0x1_0000) <==> number < last
    ensures Adjust(last % 0x1_0000, number % 0x1_0000) == last % 0x1_0000 <==> number == last
  {
    OldTestExactWhen(last, number);
    NearParts(last, number);
  }

  lemma NearParts(last: nat, number: nat)
    requires last - 0x8000 < number < last + 0x8000
    ensures var l, n := last % 0x1_0000, number % 0x1_0000;
            n - l == number - last || n - l == number - last - 0x1_0000 || n - l == number - last + 0x1_0000
  {
    var l, n, a, b := last % 0x1_0000, number % 0x1_0000, last / 0x1_0000, number / 0x1_0000;
    assert last == a * 0x1_0000 + l && number == b * 0x1_0000 + n;
    assert a - 1 <= b <= a + 1;
  }

  /** Among messages less than 0x8000 away, exactly when no wrap lies between the
      two numbers, or both are within 0x1000 of the wrap that does. */
  lemma OldTestExactWhen(last: nat, number: nat)
    requires last - 0x8000 < number < last + 0x8000
    ensures var l, n := last % 0x1_0000, number % 0x1_0000;
            (IsOld(l, n) <==> number < last) <==>
            || last / 0x1_0000 == number / 0x1_0000
            || (number > last && l >= HIGH && n < LOW)
            || (number < last && l < LOW && n >= HIGH)
  {
    var l, n, a, b := last % 0x1_0000, number % 0x1_0000, last / 0x1_0000, number / 0x1_0000;
    assert last == a * 0x1_0000 + l && number == b * 0x1_0000 + n;
    assert a - 1 <= b <= a + 1;
  }
}
