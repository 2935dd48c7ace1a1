/** The table-driven checksum of gekkota_crc32.c, and the polynomial division
    over GF(2) it is meant to compute. Message bytes enter the register at its
    low end, with no zeros appended after the message. */
module Crc32 {
  import opened Polynomial

  const POLYNOMIAL: bv32 := 0x04C11DB7
  const INITIAL: bv32 := 0xFFFF_FFFF
  const TOP: bv32 := 0x8000_0000
  const TABLE_LENGTH := 256

  /** One step of the register: multiply by x, modulo the generator. */
  function Shift(crc: bv32): bv32 {
    if crc & TOP != 0 then (crc << 1) ^ POLYNOMIAL else crc << 1
  }

  function Shifts(crc: bv32, k: nat): bv32 {
    if k == 0 then crc else Shift(Shifts(crc, k - 1))
  }

  /** The table entry for a byte. */
  function Entry(byte: bv8): bv32 {
    Shifts((byte as bv32) << 24, 8)
  }

  /** The register after one more message byte. */
  function Step(crc: bv32, byte: bv8): bv32 {
    ((crc << 8) | (byte as bv32)) ^ Entry((crc >> 24) as bv8)
  }

  function Run(crc: bv32, message: seq<bv8>): bv32
    decreases |message|
  {
    if message == [] then crc else Run(Step(crc, message[0]), message[1..])
  }

  function Checksum(message: seq<bv8>): bv32 {
    !Run(INITIAL, message)
  }

  function Flatten(buffers: seq<seq<bv8>>): seq<bv8> {
    if buffers == [] then [] else buffers[0] + Flatten(buffers[1..])
  }

  // ------------------------------------------------- the program's state

  class Calculator {
    const lookupTable: array<bv32>
    var isLookupTableInitialized: bool

    ghost predicate TableBelow(n: nat)
      reads lookupTable
    {
      lookupTable.Length == TABLE_LENGTH
      && forall b: bv8 {:trigger Entry(b)} :: (b as int) < n ==> lookupTable[b as int] == Entry(b)
    }

    ghost predicate Valid()
      reads this, lookupTable
    {
      TableBelow(if isLookupTableInitialized then TABLE_LENGTH else 0)
    }

    constructor ()
      ensures Valid() && fresh(lookupTable)
    {
      lookupTable := new bv32[TABLE_LENGTH];
      isLookupTableInitialized := false;
    }

    static method TableEntry(byte: bv8) returns (crc: bv32)
      ensures crc == Entry(byte)
    {
      crc := (byte as bv32) << 24;
      ghost var start := crc;
      for offset := 0 to 8
        invariant crc == Shifts(start, offset)
      {
        crc := ShiftOnce(crc);
      }
    }

    static method ShiftOnce(crc0: bv32) returns (crc: bv32)
      ensures crc == Shift(crc0)
    {
      if crc0 & TOP != 0 {
        crc := (crc0 << 1) ^ POLYNOMIAL;
      } else {
        crc := crc0 << 1;
      }
    }

    method InitializeLookupTable()
      requires Valid()
      modifies this`isLookupTableInitialized, lookupTable
      ensures Valid() && isLookupTableInitialized
    {
      for byte := 0 to TABLE_LENGTH
        invariant TableBelow(byte)
      {
        var crc := TableEntry(byte as bv8);
        lookupTable[byte] := crc;
      }
      isLookupTableInitialized := true;
    }

    /** One buffer's bytes enter the register. */
    method AddBuffer(crc0: bv32, buffer: seq<bv8>) returns (crc: bv32)
      requires Valid() && isLookupTableInitialized
      ensures crc == Run(crc0, buffer)
    {
      hide Run, Entry, Step, Shifts;
      crc := crc0;
      assert buffer[0..] == buffer;
      for head := 0 to |buffer|
        invariant Run(crc, buffer[head..]) == Run(crc0, buffer)
      {
        RunByte(crc, buffer, head);
        StepByTable(crc, buffer[head]);
        crc := ((crc << 8) | (buffer[head] as bv32)) ^ lookupTable[(crc >> 24) as int];
      }
      RunNothing(crc, buffer);
    }

    lemma StepByTable(crc: bv32, byte: bv8)
      requires Valid() && isLookupTableInitialized
      ensures (crc >> 24) as int < TABLE_LENGTH
      ensures ((crc << 8) | (byte as bv32)) ^ lookupTable[(crc >> 24) as int] == Step(crc, byte)
    {
      hide Entry;
      var top := (crc >> 24) as bv8;
      assert (crc >> 24) as int == top as int;
      assert lookupTable[top as int] == Entry(top);
    }

    /** The checksum of a list of buffers is that of their concatenation. */
    method Calculate(buffers: seq<seq<bv8>>) returns (checksum: bv32)
      requires Valid()
      modifies this`isLookupTableInitialized, lookupTable
      ensures Valid()
      ensures checksum == Checksum(Flatten(buffers))
    {
      hide Run;
      if !isLookupTableInitialized {
        InitializeLookupTable();
      }
      var crc := INITIAL;
      for i := 0 to |buffers|
        invariant Valid() && isLookupTableInitialized
        invariant Run(crc, Flatten(buffers[i..])) == Run(INITIAL, Flatten(buffers))
      {
        assert buffers[i..][1..] == buffers[i + 1..];
        RunConcat(crc, buffers[i], Flatten(buffers[i + 1..]));
        crc := AddBuffer(crc, buffers[i]);
      }
      RunNothing(crc, []);
      checksum := !crc;
    }
  }

  lemma RunByte(crc: bv32, buffer: seq<bv8>, head: nat)
    requires head < |buffer|
    ensures Run(crc, buffer[head..]) == Run(Step(crc, buffer[head]), buffer[head + 1..])
  {
    hide Step;
    assert buffer[head..][1..] == buffer[head + 1..];
  }

  lemma RunNothing(crc: bv32, buffer: seq<bv8>)
    ensures Run(crc, buffer[|buffer|..]) == crc && Run(crc, []) == crc
  {
  }

  /** A message in two parts. */
  lemma {:induction false} RunConcat(crc: bv32, a: seq<bv8>, b: seq<bv8>)
    ensures Run(crc, a + b) == Run(Run(crc, a), b)
    decreases |a|
  {
    hide Step;
    if a == [] {
      assert a + b == b;
    } else {
      assert (a + b)[0] == a[0] && (a + b)[1..] == a[1..] + b;
      RunConcat(Step(crc, a[0]), a[1..], b);
    }
  }

  // ------------------------------------------------- words as polynomials

  function Octet(x: bv32, k: nat): bv8
    requires k < 4
  {
    if k == 0 then (x >> 24) as bv8
    else if k == 1 then ((x >> 16) & 0xFF) as bv8
    else if k == 2 then ((x >> 8) & 0xFF) as bv8
    else (x & 0xFF) as bv8
  }

  function Bits(x: bv32): (r: Poly)
    ensures |r| == DEGREE
  {
    ByteBits(Octet(x, 0)) + ByteBits(Octet(x, 1)) + ByteBits(Octet(x, 2)) + ByteBits(Octet(x, 3))
  }

  function ByteBits(b: bv8): (r: Poly)
    ensures |r| == 8
  {
    [b & 0x80 != 0, b & 0x40 != 0, b & 0x20 != 0, b & 0x10 != 0,
     b & 0x08 != 0, b & 0x04 != 0, b & 0x02 != 0, b & 0x01 != 0]
  }

  function MessageBits(message: seq<bv8>): (r: Poly)
    ensures |r| == 8 * |message|
    decreases |message|
  {
    if message == [] then [] else ByteBits(message[0]) + MessageBits(message[1..])
  }

  lemma OctetXor(x: bv32, y: bv32)
    ensures Octet(x ^ y, 0) == Octet(x, 0) ^ Octet(y, 0)
    ensures Octet(x ^ y, 1) == Octet(x, 1) ^ Octet(y, 1)
    ensures Octet(x ^ y, 2) == Octet(x, 2) ^ Octet(y, 2)
    ensures Octet(x ^ y, 3) == Octet(x, 3) ^ Octet(y, 3)
  {
  }

  lemma MaskXor(x: bv8, y: bv8, m: bv8)
    requires m & (m - 1) == 0
    ensures (x ^ y) & m != 0 <==> (x & m != 0) != (y & m != 0)
  {
  }

  lemma AddEight(a: Poly, b: Poly)
    requires |a| == |b| == 8
    ensures Add(a, b) == [a[0] != b[0], a[1] != b[1], a[2] != b[2], a[3] != b[3],
                          a[4] != b[4], a[5] != b[5], a[6] != b[6], a[7] != b[7]]
  {
    var s := Add(a, b);
    assert s == [s[0], s[1], s[2], s[3], s[4], s[5], s[6], s[7]];
  }

  lemma ByteBitsXor(x: bv8, y: bv8)
    ensures ByteBits(x ^ y) == Add(ByteBits(x), ByteBits(y))
  {
    hide Add;
    AddEight(ByteBits(x), ByteBits(y));
    MaskXor(x, y, 0x80);
    MaskXor(x, y, 0x40);
    MaskXor(x, y, 0x20);
    MaskXor(x, y, 0x10);
    MaskXor(x, y, 0x08);
    MaskXor(x, y, 0x04);
    MaskXor(x, y, 0x02);
    MaskXor(x, y, 0x01);
  }

  lemma FourWay(a: Poly, b: Poly, c: Poly, d: Poly, a': Poly, b': Poly, c': Poly, d': Poly)
    requires |a| == |a'| && |b| == |b'| && |c| == |c'| && |d| == |d'|
    ensures Add(a + b + c + d, a' + b' + c' + d') == Add(a, a') + Add(b, b') + Add(c, c') + Add(d, d')
  {
  }

  lemma BitsXor(x: bv32, y: bv32)
    ensures Bits(x ^ y) == Add(Bits(x), Bits(y))
  {
    hide ByteBits, Octet, Add;
    OctetXor(x, y);
    ByteBitsXor(Octet(x, 0), Octet(y, 0));
    ByteBitsXor(Octet(x, 1), Octet(y, 1));
    ByteBitsXor(Octet(x, 2), Octet(y, 2));
    ByteBitsXor(Octet(x, 3), Octet(y, 3));
    FourWay(ByteBits(Octet(x, 0)), ByteBits(Octet(x, 1)), ByteBits(Octet(x, 2)), ByteBits(Octet(x, 3)),
            ByteBits(Octet(y, 0)), ByteBits(Octet(y, 1)), ByteBits(Octet(y, 2)), ByteBits(Octet(y, 3)));
  }

  lemma OctetShift(x: bv32)
    ensures Octet(x << 1, 0) == (Octet(x, 0) << 1) | (Octet(x, 1) >> 7)
    ensures Octet(x << 1, 1) == (Octet(x, 1) << 1) | (Octet(x, 2) >> 7)
    ensures Octet(x << 1, 2) == (Octet(x, 2) << 1) | (Octet(x, 3) >> 7)
    ensures Octet(x << 1, 3) == (Octet(x, 3) << 1) | (0 >> 7)
  {
  }

  lemma ByteBitsShift(b: bv8, c: bv8)
    ensures ByteBits((b << 1) | (c >> 7)) == ByteBits(b)[1..] + [ByteBits(c)[0]]
  {
  }

  /** Four octets, each taking in the top bit of the next one. */
  lemma OctetsShift(a: bv8, b: bv8, c: bv8, d: bv8)
    ensures ByteBits((a << 1) | (b >> 7)) + ByteBits((b << 1) | (c >> 7)) + ByteBits((c << 1) | (d >> 7)) + ByteBits((d << 1) | (0 >> 7))
            == (ByteBits(a) + ByteBits(b) + ByteBits(c) + ByteBits(d))[1..] + [false]
  {
    assert ByteBits(0)[0] == false;
    hide ByteBits;
    ByteBitsShift(a, b);
    ByteBitsShift(b, c);
    ByteBitsShift(c, d);
    ByteBitsShift(d, 0);
    Carry(ByteBits(a), ByteBits(b), ByteBits(c), ByteBits(d), ByteBits(0)[0]);
  }

  lemma BitsShift(x: bv32)
    ensures Bits(x << 1) == Bits(x)[1..] + [false]
  {
    hide ByteBits, Octet;
    OctetShift(x);
    OctetsShift(Octet(x, 0), Octet(x, 1), Octet(x, 2), Octet(x, 3));
  }

  lemma Carry(a: Poly, b: Poly, c: Poly, d: Poly, low: bool)
    requires |a| == |b| == |c| == |d| == 8
    ensures (a[1..] + [b[0]]) + (b[1..] + [c[0]]) + (c[1..] + [d[0]]) + (d[1..] + [low])
            == (a + b + c + d)[1..] + [low]
  {
  }

  lemma OctetTake(x: bv32, b: bv8)
    ensures Octet((x << 8) | (b as bv32), 0) == Octet(x, 1)
    ensures Octet((x << 8) | (b as bv32), 1) == Octet(x, 2)
    ensures Octet((x << 8) | (b as bv32), 2) == Octet(x, 3)
    ensures Octet((x << 8) | (b as bv32), 3) == b
  {
  }

  lemma BitsTake(x: bv32, b: bv8)
    ensures Bits((x << 8) | (b as bv32)) == Bits(x)[8..] + ByteBits(b)
  {
    hide ByteBits, Octet;
    OctetTake(x, b);
  }

  lemma BitsTop(x: bv32)
    ensures ByteBits((x >> 24) as bv8) == Bits(x)[..8]
  {
  }

  lemma OctetHigh(b: bv8)
    ensures Octet((b as bv32) << 24, 0) == b
    ensures Octet((b as bv32) << 24, 1) == Octet((b as bv32) << 24, 2) == Octet((b as bv32) << 24, 3) == 0
  {
  }

  lemma BitsHigh(b: bv8)
    ensures Bits((b as bv32) << 24) == ByteBits(b) + Zeros(24)
  {
    assert ByteBits(0) == Zeros(8);
    hide ByteBits, Octet;
    OctetHigh(b);
    assert Zeros(8) + Zeros(8) + Zeros(8) == Zeros(24);
  }

  lemma ByteBitsInjective(x: bv8, y: bv8)
    requires ByteBits(x) == ByteBits(y)
    ensures x == y
  {
  }

  // ------------------------------------------------------- main results

  lemma ShiftIsFeed(x: bv32)
    ensures Bits(Shift(x)) == Feed(Bits(x), false)
  {
    BitsShift(x);
    BitsXor(x << 1, POLYNOMIAL);
    PolynomialIsGenerator();
    FeedFalse(Bits(x));
    hide Bits;
    assert Bits(x)[0] == (x & TOP != 0) by { TopIsFirst(x); }
  }

  lemma TopIsFirst(x: bv32)
    ensures Bits(x)[0] == (x & TOP != 0)
  {
  }

  lemma PolynomialIsGenerator()
    ensures Bits(POLYNOMIAL) == GENERATOR
  {
  }

  lemma FeedFalse(r: Poly)
    requires |r| == DEGREE
    ensures Feed(r, false) == if r[0] then Add(r[1..] + [false], GENERATOR) else r[1..] + [false]
  {
  }

  lemma {:induction false} ShiftsIsSerial(x: bv32, k: nat)
    ensures Bits(Shifts(x, k)) == Serial(Bits(x), Zeros(k))
  {
    hide Bits, Shift, Feed;
    if k > 0 {
      ShiftsIsSerial(x, k - 1);
      ShiftIsFeed(Shifts(x, k - 1));
      SerialConcat(Bits(x), Zeros(k - 1), [false]);
      assert Zeros(k) == Zeros(k - 1) + [false];
      SerialOne(Serial(Bits(x), Zeros(k - 1)), false);
    }
  }

  lemma SerialOne(r: Poly, bit: bool)
    requires |r| == DEGREE
    ensures Serial(r, [bit]) == Feed(r, bit)
  {
    assert [bit][1..] == [];
  }

  /** The table step takes in the eight bits of a byte. */
  lemma StepIsSerial(crc: bv32, byte: bv8)
    ensures Bits(Step(crc, byte)) == Serial(Bits(crc), ByteBits(byte))
  {
    hide Bits, ByteBits, Shifts, Serial, Add;
    var top := (crc >> 24) as bv8;
    BitsXor((crc << 8) | (byte as bv32), Entry(top));
    BitsTake(crc, byte);
    BitsTop(crc);
    ShiftsIsSerial((top as bv32) << 24, 8);
    BitsHigh(top);
    TableStep(Bits(crc), ByteBits(byte));
  }

  lemma {:induction false} RunIsSerial(crc: bv32, message: seq<bv8>)
    ensures Bits(Run(crc, message)) == Serial(Bits(crc), MessageBits(message))
    decreases |message|
  {
    hide Bits, ByteBits, Step, Feed;
    if message != [] {
      StepIsSerial(crc, message[0]);
      RunIsSerial(Step(crc, message[0]), message[1..]);
      SerialConcat(Bits(crc), ByteBits(message[0]), MessageBits(message[1..]));
    }
  }

  function Ones(): (r: Poly)
    ensures |r| == DEGREE
  {
    seq(DEGREE, _ => true)
  }

  lemma InitialIsOnes()
    ensures Bits(INITIAL) == Ones()
  {
  }

  lemma DoubleComplement(x: bv32)
    ensures !!x == x
  {
  }

  /** The checksum's complement is the remainder of dividing 32 one bits followed
      by the message's bits by the generator. */
  lemma ChecksumIsRemainder(message: seq<bv8>)
    ensures Bits(!Checksum(message)) == Remainder(Ones() + MessageBits(message))
  {
    InitialIsOnes();
    hide Bits, ByteBits, Run, Remainder;
    RunIsSerial(INITIAL, message);
    SerialIsRemainder(Bits(INITIAL), MessageBits(message));
    DoubleComplement(Run(INITIAL, message));
  }

  /** Two messages that agree except inside a window of at most 32 consecutive
      bits have different checksums. */
  lemma BurstChangesChecksum(m1: seq<bv8>, m2: seq<bv8>, before: Poly, x: Poly, y: Poly, after: Poly)
    requires MessageBits(m1) == before + x + after && MessageBits(m2) == before + y + after
    requires |x| == |y| <= 32 && m1 != m2
    ensures Checksum(m1) != Checksum(m2)
  {
    hide Bits, ByteBits;
    assert x != y by {
      if x == y {
        MessageBitsInjective(m1, m2);
      }
    }
    BurstDetected(Bits(INITIAL), before, x, y, after);
    RunIsSerial(INITIAL, m1);
    RunIsSerial(INITIAL, m2);
    NotInjective(Run(INITIAL, m1), Run(INITIAL, m2));
  }

  lemma NotInjective(x: bv32, y: bv32)
    ensures !x == !y ==> x == y
  {
  }

  lemma {:induction false} MessageBitsInjective(m1: seq<bv8>, m2: seq<bv8>)
    requires MessageBits(m1) == MessageBits(m2)
    ensures m1 == m2
    decreases |m1|
  {
    hide ByteBits;
    if m1 != [] {
      assert MessageBits(m1)[..8] == ByteBits(m1[0]) && MessageBits(m2)[..8] == ByteBits(m2[0]);
      assert MessageBits(m1)[8..] == MessageBits(m1[1..]) && MessageBits(m2)[8..] == MessageBits(m2[1..]);
      ByteBitsInjective(m1[0], m2[0]);
      MessageBitsInjective(m1[1..], m2[1..]);
      assert m1 == [m1[0]] + m1[1..] && m2 == [m2[0]] + m2[1..];
    }
  }

  /** In particular for messages of equal length that differ only inside a window
      of at most four consecutive bytes. */
  lemma ByteBurstChangesChecksum(before: seq<bv8>, x: seq<bv8>, y: seq<bv8>, after: seq<bv8>)
    requires |x| == |y| <= 4 && x != y
    ensures Checksum(before + x + after) != Checksum(before + y + after)
  {
    hide Bits, ByteBits, Run;
    MessageBitsConcat(before, x);
    MessageBitsConcat(before, y);
    MessageBitsConcat(before + x, after);
    MessageBitsConcat(before + y, after);
    assert before + x + after != before + y + after by {
      assert (before + x + after)[|before|..|before| + |x|] == x;
      assert (before + y + after)[|before|..|before| + |y|] == y;
    }
    BurstChangesChecksum(before + x + after, before + y + after,
                         MessageBits(before), MessageBits(x), MessageBits(y), MessageBits(after));
  }

  lemma {:induction false} MessageBitsConcat(a: seq<bv8>, b: seq<bv8>)
    ensures MessageBits(a + b) == MessageBits(a) + MessageBits(b)
    decreases |a|
  {
    hide ByteBits;
    if a == [] {
      assert a + b == b;
    } else {
      assert (a + b)[1..] == a[1..] + b;
      MessageBitsConcat(a[1..], b);
    }
  }
}
