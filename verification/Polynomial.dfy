/** Polynomials over GF(2) as coefficient lists, most significant first, and
    their division by the degree-32 generator of section 3.2.9 of IEEE 802.3. */
module Polynomial {
  type Poly = seq<bool>

  const DEGREE := 32

  // x^26 + x^23 + x^22 + x^16 + x^12 + x^11 + x^10 + x^8 + x^7 + x^5 + x^4 + x^2 + x + 1;
  // the leading x^32 is implicit.
  const GENERATOR: Poly :=
    [false, false, false, false, false, true, false, false,
     true, true, false, false, false, false, false, true,
     false, false, false, true, true, true, false, true,
     true, false, true, true, false, true, true, true]

  function Zeros(n: nat): (r: Poly)
    ensures |r| == n
  {
    seq(n, _ => false)
  }

  function Add(a: Poly, b: Poly): (r: Poly)
    requires |a| == |b|
    ensures |r| == |a|
  {
    seq(|a|, i requires 0 <= i < |a| => a[i] != b[i])
  }

  /** The generator, or nothing, under a leading coefficient `lead`. */
  function Multiple(lead: bool): (r: Poly)
    ensures |r| == DEGREE
  {
    if lead then GENERATOR else Zeros(DEGREE)
  }

  /** What a division step subtracts below a leading coefficient: the generator,
      lined up at the front of `n` coefficients. */
  function Shifted(lead: bool, n: nat): (r: Poly)
    requires n >= DEGREE
    ensures |r| == n
  {
    Multiple(lead) + Zeros(n - DEGREE)
  }

  /** Schoolbook long division: cancel the leading coefficient with the generator
      lined up under it until 32 coefficients are left. */
  function Remainder(p: Poly): (r: Poly)
    requires |p| >= DEGREE
    ensures |r| == DEGREE
    decreases |p|
  {
    if |p| == DEGREE then p
    else Remainder(Add(p[1..], Shifted(p[0], |p| - 1)))
  }

  /** The product of `q` and the generator. */
  function Product(q: Poly): (r: Poly)
    ensures |r| == |q| + DEGREE
    decreases |q|
  {
    if q == [] then Zeros(DEGREE)
    else Add([q[0]] + Shifted(q[0], |q| - 1 + DEGREE), [false] + Product(q[1..]))
  }

  /** p = q * G + r */
  ghost predicate Divides(p: Poly, q: Poly, r: Poly)
    requires |p| == |q| + DEGREE && |r| == DEGREE
  {
    p == Add(Product(q), Zeros(|q|) + r)
  }

  /** A 32-bit register that takes in one message bit at its low end. */
  function Feed(r: Poly, bit: bool): (r': Poly)
    requires |r| == DEGREE
    ensures |r'| == DEGREE
  {
    Add(r[1..] + [bit], Multiple(r[0]))
  }

  function Serial(r: Poly, m: Poly): (r': Poly)
    requires |r| == DEGREE
    ensures |r'| == DEGREE
    decreases |m|
  {
    if m == [] then r else Serial(Feed(r, m[0]), m[1..])
  }

  // ------------------------------------------------------------ division

  lemma AddCancels(a: Poly, b: Poly, c: Poly)
    requires |a| == |b| == |c|
    ensures a == Add(b, c) <==> Add(a, b) == c
  {
    if Add(a, b) == c {
      assert forall i :: 0 <= i < |a| ==> a[i] == (b[i] != Add(a, b)[i]);
    }
  }

  lemma AddUnderLead(lead: bool, a: Poly, b: Poly, c: Poly)
    requires |a| == |b| == |c|
    ensures Add(Add([lead] + a, [false] + b), [false] + c) == [lead] + Add(a, Add(b, c))
  {
    var left, right := Add(Add([lead] + a, [false] + b), [false] + c), [lead] + Add(a, Add(b, c));
    forall i | 0 <= i < |left|
      ensures left[i] == right[i]
    {
      assert left[i] == ((([lead] + a)[i] != ([false] + b)[i]) != ([false] + c)[i]);
    }
  }

  lemma ZerosUnderLead(n: nat, r: Poly)
    requires n > 0
    ensures Zeros(n) + r == [false] + (Zeros(n - 1) + r)
  {
  }

  lemma ProductUnfold(q: Poly)
    requires q != []
    ensures Product(q) == Add([q[0]] + Shifted(q[0], |q| - 1 + DEGREE), [false] + Product(q[1..]))
  {
  }

  /** Product and remainder with the leading coefficient split off. */
  lemma ProductStep(q: Poly, r: Poly)
    requires q != [] && |r| == DEGREE
    ensures Add(Product(q), Zeros(|q|) + r)
            == [q[0]] + Add(Shifted(q[0], |q| - 1 + DEGREE), Add(Product(q[1..]), Zeros(|q| - 1) + r))
  {
    hide Product, Add, Zeros, Shifted;
    var a, b, c := Shifted(q[0], |q| - 1 + DEGREE), Product(q[1..]), Zeros(|q| - 1) + r;
    assert |b| == |q[1..]| + DEGREE;
    ProductUnfold(q);
    ZerosUnderLead(|q|, r);
    AddUnderLead(q[0], a, b, c);
  }

  /** One step of long division takes one coefficient off the quotient. */
  lemma DivisionStep(p: Poly, q: Poly, r: Poly)
    requires q != [] && |p| == |q| + DEGREE && |r| == DEGREE
    ensures Divides(p, q, r) <==>
            q[0] == p[0] && Divides(Add(p[1..], Shifted(p[0], |p| - 1)), q[1..], r)
  {
    hide Product, Add, Shifted;
    ProductStep(q, r);
    var rest := Add(Product(q[1..]), Zeros(|q| - 1) + r);
    assert p == [p[0]] + p[1..];
    AddCancels(p[1..], Shifted(p[0], |p| - 1), rest);
    var sum := [q[0]] + Add(Shifted(q[0], |q| - 1 + DEGREE), rest);
    assert sum[0] == q[0] && sum[1..] == Add(Shifted(q[0], |q| - 1 + DEGREE), rest);
  }

  /** Remainder is the remainder: it comes with a quotient. */
  lemma {:induction false} DivisionIdentity(p: Poly) returns (q: Poly)
    requires |p| >= DEGREE
    ensures |q| == |p| - DEGREE && Divides(p, q, Remainder(p))
    decreases |p|
  {
    if |p| == DEGREE {
      q := [];
      assert p == Add(Product(q), Zeros(0) + p);
    } else {
      var q' := DivisionIdentity(Add(p[1..], Shifted(p[0], |p| - 1)));
      q := [p[0]] + q';
      assert q[1..] == q';
      DivisionStep(p, q, Remainder(p));
    }
  }

  /** ... and it is the only one: no other polynomial of degree below 32 differs
      from p by a multiple of the generator. */
  lemma {:induction false} RemainderUnique(p: Poly, q: Poly, r: Poly)
    requires |p| == |q| + DEGREE && |r| == DEGREE && Divides(p, q, r)
    ensures r == Remainder(p)
    decreases |p|
  {
    if q == [] {
      assert Add(Product(q), Zeros(0) + r) == r;
    } else {
      DivisionStep(p, q, r);
      RemainderUnique(Add(p[1..], Shifted(p[0], |p| - 1)), q[1..], r);
    }
  }

  /** Feeding a message bit by bit into a register is long division of the
      register's contents followed by the message. */
  lemma {:induction false} SerialIsRemainder(r: Poly, m: Poly)
    requires |r| == DEGREE
    ensures Serial(r, m) == Remainder(r + m)
    decreases |m|
  {
    if m == [] {
      assert r + m == r;
    } else {
      var p := r + m;
      assert Add(p[1..], Shifted(p[0], |p| - 1)) == Feed(r, m[0]) + m[1..];
      SerialIsRemainder(Feed(r, m[0]), m[1..]);
    }
  }

  // ------------------------------------------------------------ linearity

  lemma FeedLinear(a: Poly, b: Poly, s: bool, t: bool)
    requires |a| == |b| == DEGREE
    ensures Feed(Add(a, b), s != t) == Add(Feed(a, s), Feed(b, t))
  {
  }

  lemma {:induction false} SerialLinear(a: Poly, b: Poly, m: Poly, n: Poly)
    requires |a| == |b| == DEGREE && |m| == |n|
    ensures Serial(Add(a, b), Add(m, n)) == Add(Serial(a, m), Serial(b, n))
    decreases |m|
  {
    if m != [] {
      FeedLinear(a, b, m[0], n[0]);
      assert Add(m, n)[1..] == Add(m[1..], n[1..]);
      SerialLinear(Feed(a, m[0]), Feed(b, n[0]), m[1..], n[1..]);
    }
  }

  lemma {:induction false} SerialConcat(r: Poly, m: Poly, n: Poly)
    requires |r| == DEGREE
    ensures Serial(r, m + n) == Serial(Serial(r, m), n)
    decreases |m|
  {
    if m == [] {
      assert m + n == n;
    } else {
      assert (m + n)[1..] == m[1..] + n;
      SerialConcat(Feed(r, m[0]), m[1..], n);
    }
  }

  lemma FeedZeros(k: nat, x: Poly, bit: bool)
    requires k > 0 && k + |x| == DEGREE
    ensures Feed(Zeros(k) + x, bit) == Zeros(k - 1) + (x + [bit])
  {
    assert (Zeros(k) + x)[1..] == Zeros(k - 1) + x;
  }

  /** While zeros are shifted out nothing is cancelled. */
  lemma {:induction false} SerialZeros(x: Poly, m: Poly)
    requires |x| + |m| == DEGREE
    ensures Serial(Zeros(|m|) + x, m) == x + m
    decreases |m|
  {
    hide Feed;
    if m == [] {
      assert Zeros(0) + x == x + m;
    } else {
      FeedZeros(|m|, x, m[0]);
      SerialZeros(x + [m[0]], m[1..]);
      assert (x + [m[0]]) + m[1..] == x + m;
    }
  }

  /** Eight bits at once: the table step of the byte-wise algorithm. */
  lemma TableStep(r: Poly, w: Poly)
    requires |r| == DEGREE && |w| == 8
    ensures Serial(r, w) == Add(r[8..] + w, Serial(r[..8] + Zeros(24), Zeros(8)))
  {
    var high, low := r[..8] + Zeros(24), Zeros(8) + r[8..];
    assert r == Add(low, high);
    assert w == Add(w, Zeros(8));
    SerialLinear(low, high, w, Zeros(8));
    SerialZeros(r[8..], w);
  }

  /** The generator's constant term is one, so no bit step loses information. */
  lemma FeedInjective(a: Poly, b: Poly, bit: bool)
    requires |a| == |b| == DEGREE && Feed(a, bit) == Feed(b, bit)
    ensures a == b
  {
    assert Feed(a, bit)[31] == (bit != a[0]);
    assert Feed(b, bit)[31] == (bit != b[0]);
    forall i | 0 < i < DEGREE
      ensures a[i] == b[i]
    {
      assert Feed(a, bit)[i - 1] == (a[i] != Multiple(a[0])[i - 1]);
      assert Feed(b, bit)[i - 1] == (b[i] != Multiple(b[0])[i - 1]);
    }
  }

  lemma {:induction false} SerialInjective(a: Poly, b: Poly, m: Poly)
    requires |a| == |b| == DEGREE && Serial(a, m) == Serial(b, m)
    ensures a == b
    decreases |m|
  {
    if m != [] {
      SerialInjective(Feed(a, m[0]), Feed(b, m[0]), m[1..]);
      FeedInjective(a, b, m[0]);
    }
  }

  /** Burst detection: two messages that differ only inside a window of at most
      32 bits never leave the same register, whatever surrounds the window. */
  lemma BurstDetected(r: Poly, before: Poly, x: Poly, y: Poly, after: Poly)
    requires |r| == DEGREE && |x| == |y| <= DEGREE && x != y
    ensures Serial(r, before + x + after) != Serial(r, before + y + after)
  {
    var u := Serial(r, before);
    SerialConcat(r, before + x, after);
    SerialConcat(r, before + y, after);
    SerialConcat(r, before, x);
    SerialConcat(r, before, y);
    if Serial(u, x) == Serial(u, y) {
      WindowDiffers(u, x, y);
    } else if Serial(Serial(u, x), after) == Serial(Serial(u, y), after) {
      SerialInjective(Serial(u, x), Serial(u, y), after);
    }
  }

  lemma WindowDiffers(u: Poly, x: Poly, y: Poly)
    requires |u| == DEGREE && |x| == |y| <= DEGREE && x != y
    ensures Serial(u, x) != Serial(u, y)
  {
    var d := Add(x, y);
    SerialLinear(u, u, x, y);
    var none := Zeros(DEGREE - |d|);
    assert Add(u, u) == Zeros(|d|) + none;
    SerialZeros(none, d);
    var i :| 0 <= i < |x| && x[i] != y[i];
    assert (none + d)[DEGREE - |d| + i];
  }
}
