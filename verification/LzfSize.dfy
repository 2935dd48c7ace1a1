/** How many bytes the compressor of gekkota_lzf.c writes. */
module LzfSize {
  import opened Words
  import opened LzfFormat
  import opened LzfGreedy

  /** x literals in runs of 32, each run with its length byte. */
  function Cost(x: nat): nat {
    x + (x + MAX_LITERAL - 1) / MAX_LITERAL
  }

  /** What is written in the end if no further match comes. */
  function Bound(s: seq<byte>, st: State): nat
    requires st.literal <= st.i <= |s|
  {
    |st.out| + Cost(st.literal + |s| - st.i)
  }

  ghost predicate Shrunk(s: seq<byte>, st: State, next: State) {
    st.literal <= st.i <= |s| && next.literal <= next.i <= |s| && Bound(s, next) < Bound(s, st)
  }

  lemma LitBound(s: seq<byte>, st: State)
    requires st.literal <= st.i < |s| && st.literal < MAX_LITERAL
    ensures Bound(s, Lit(s, st)) == Bound(s, st)
  {
    var x := st.literal + |s| - st.i;
    if st.literal + 1 == MAX_LITERAL {
      assert |Pending(s, st.i + 1, MAX_LITERAL)| == 33;
      assert Cost(x) == Cost(x - 32) + 33;
    }
  }

  /** What a match saves: a longer one than three bytes always something, one of three bytes
      the byte it is shorter by, unless cutting the literals in two costs that again. */
  predicate Gain(s: seq<byte>, i: nat, literal: nat, length: nat)
    requires i + length <= |s|
  {
    || length > 3 || literal == 0
    || (|s| - i - length) % MAX_LITERAL == 0 || literal + 3 + (|s| - i - length) % MAX_LITERAL > MAX_LITERAL
  }

  lemma MatchBound(s: seq<byte>, st: State, index: int -> int, p: nat)
    requires Good(s, st, index) && Usable(s, p, st.i)
    ensures Bound(s, Match(s, st, index, p)) <= Bound(s, st)
    ensures Shrunk(s, st, Match(s, st, index, p)) <==> Gain(s, st.i, st.literal, Extended(s, p, st.i, 3))
  {
    var length := Extended(s, p, st.i, 3);
    var rest := |s| - st.i - length;
    CostSplit(st.literal, length, rest);
    PendingSize(s, st.i, st.literal);
    TokenSize(st.i - p - 1, length);
    hide Usable, Extended, Pending, ReferenceToken, Entered;
    var next := Match(s, st, index, p);
  }

  lemma CostSplit(literal: nat, length: nat, rest: nat)
    requires literal < MAX_LITERAL && length >= 3
    ensures Cost(literal + length + rest) >= literal + length + Cost(rest)
    ensures length == 3 && literal > 0 ==>
              (Cost(literal + 3 + rest) == literal + 3 + Cost(rest) <==>
               !(rest % MAX_LITERAL == 0 || literal + 3 + rest % MAX_LITERAL > MAX_LITERAL))
  {
  }

  lemma PendingSize(s: seq<byte>, i: nat, literal: nat)
    requires literal <= i <= |s| && literal <= MAX_LITERAL
    ensures |Pending(s, i, literal)| == if literal == 0 then 0 else literal + 1
  {
  }

  lemma TokenSize(offset: nat, length: nat)
    requires offset < MAX_OFFSET && 3 <= length <= MAX_REFERENCE
    ensures |ReferenceToken(offset, length)| == if length < 9 then 2 else 3
  {
  }

  /** The step writes a match that saves something. */
  ghost predicate Gains(s: seq<byte>, st: State, index: int -> int)
    requires Good(s, st, index) && st.i < |s|
  {
    && st.i + 2 < |s|
    && var p := st.table[index(Next(st.value, s, st.i))];
    Usable(s, p, st.i) && Gain(s, st.i, st.literal, Extended(s, p, st.i, 3))
  }

  /** Some step from here on does. */
  ghost predicate GainsLater(s: seq<byte>, st: State, index: int -> int)
    requires Good(s, st, index)
    decreases |s| - st.i
  {
    st.i < |s| && (Gains(s, st, index) || GainsLater(s, Step(s, st, index), index))
  }

  lemma StepBound(s: seq<byte>, st: State, index: int -> int)
    requires Good(s, st, index) && st.i < |s|
    ensures Bound(s, Step(s, st, index)) <= Bound(s, st)
    ensures Shrunk(s, st, Step(s, st, index)) <==> Gains(s, st, index)
  {
    hide Next, Lit, Match, Usable, Bound, Gain, Extended;
    if st.i + 2 >= |s| {
      LitBound(s, st);
    } else {
      var v := Next(st.value, s, st.i);
      var looked := st.(value := v, table := st.table[index(v) := st.i]);
      SameBound(s, st, looked);
      if Usable(s, st.table[index(v)], st.i) {
        Positive(s, st.table[index(v)], st.i);
        MatchBound(s, looked, index, st.table[index(v)]);
      } else {
        LitBound(s, looked);
      }
    }
  }

  lemma Positive(s: seq<byte>, p: int, i: nat)
    requires Usable(s, p, i)
    ensures 0 < p < i
  {
  }

  lemma SameBound(s: seq<byte>, st: State, looked: State)
    requires st.literal <= st.i <= |s| && looked.(value := st.value, table := st.table) == st
    ensures looked.literal <= looked.i && Bound(s, looked) == Bound(s, st)
  {
  }

  lemma {:induction false} RunBound(s: seq<byte>, st: State, index: int -> int)
    requires Good(s, st, index)
    ensures |Finished(s, Run(s, st, index))| <= Bound(s, st)
    ensures |Finished(s, Run(s, st, index))| < Bound(s, st) <==> GainsLater(s, st, index)
    decreases |s| - st.i
  {
    hide Step, Good, Gains;
    GoodAt(s, st, index);
    if st.i == |s| {
      PendingSize(s, st.i, st.literal);
    } else {
      StepBound(s, st, index);
      GoodAt(s, Step(s, st, index), index);
      hide Bound;
      RunBound(s, Step(s, st, index), index);
    }
  }

  lemma GoodAt(s: seq<byte>, st: State, index: int -> int)
    requires Good(s, st, index)
    ensures st.literal <= st.i <= |s| && st.literal < MAX_LITERAL
  {
  }

  /** The first position that repeats, and it does so for four bytes. */
  ghost predicate FirstRepeat(s: seq<byte>, index: int -> int, q: nat, p: nat) {
    && RepeatsAt(s, index, q, p) && p + 5 < |s| && s[q + 3] == s[p + 3]
    && forall r: nat :: r < p ==> !MatchedAt(s, index, r)
  }

  lemma {:induction false} FirstShrinks(s: seq<byte>, st: State, index: int -> int, q: nat, p: nat)
    requires Plain(s, st, index) && st.i <= p && FirstRepeat(s, index, q, p)
    ensures |Finished(s, Run(s, st, index))| < Bound(s, st)
    decreases p - st.i
  {
    hide Step, Plain, RepeatsAt, Bound, Finished;
    PlainGood(s, st, index);
    BeforeEnd(s, index, q, p);
    TabMatches(s, st, index);
    hide Usable, MatchedAt;
    if st.i < p {
      assert !MatchedAt(s, index, st.i);
      LitPlain(s, st, index);
      LitStepBound(s, st, index);
      FirstShrinks(s, Step(s, st, index), index, q, p);
    } else {
      LongStep(s, st, index, q);
      RunBound(s, Step(s, st, index), index);
    }
  }

  lemma BeforeEnd(s: seq<byte>, index: int -> int, q: nat, p: nat)
    requires RepeatsAt(s, index, q, p)
    ensures p < |s| && MatchedAt(s, index, p)
  {
  }

  lemma LitStepBound(s: seq<byte>, st: State, index: int -> int)
    requires Plain(s, st, index) && st.i < |s|
    requires st.i + 2 < |s| ==> !Usable(s, st.table[index(Rolled(s, st.i))], st.i)
    ensures Bound(s, Step(s, st, index)) == Bound(s, st)
  {
    hide Tab, Literals, Lit, Usable, Bound, Rolled, Next;
    if st.i + 2 >= |s| {
      LitBound(s, st);
    } else {
      var v := Next(st.value, s, st.i);
      var looked := st.(value := v, table := st.table[index(v) := st.i]);
      SameBound(s, st, looked);
      LitBound(s, looked);
    }
  }

  /** The table holds the position repeated, and the match is longer than three bytes. */
  lemma LongStep(s: seq<byte>, st: State, index: int -> int, q: nat)
    requires Plain(s, st, index) && FirstRepeat(s, index, q, st.i)
    ensures st.i < |s| && Shrunk(s, st, Step(s, st, index))
  {
    var k := index(Rolled(s, st.i));
    assert TabAt(s, index, st.table[k], k, st.i);
    assert st.table[k] == q;
    assert Usable(s, q, st.i) && Extended(s, q, st.i, 3) > 3;
    assert Gain(s, st.i, st.literal, Extended(s, q, st.i, 3));
    var v := Next(st.value, s, st.i);
    hide Tab, Rolled, TabAt, FirstRepeat, Literals, Next, Usable, Extended, Match, Bound, Gain;
    var looked := st.(value := v, table := st.table[index(v) := st.i]);
    SameBound(s, st, looked);
    MatchBound(s, looked, index, q);
  }

  /** The stream is below the worst case if and only if one of its matches saves something;
      it is never above. */
  lemma ShrinksExactly(s: seq<byte>, index: int -> int, n: nat)
    requires |s| >= 2 && Indexes(index, n)
    ensures |Tokens(s, index, n)| + TRAILER <= WorstLength(|s|)
    ensures Good(s, Start(s, n), index)
    ensures |Tokens(s, index, n)| + TRAILER < WorstLength(|s|) <==> GainsLater(s, Start(s, n), index)
  {
    StartPlain(s, index, n);
    PlainGood(s, Start(s, n), index);
    RunBound(s, Start(s, n), index);
    hide Run, Plain, GainsLater;
  }

  /** It is below if the first repeat goes on for four bytes. */
  lemma ShrinksWhen(s: seq<byte>, index: int -> int, n: nat, q: nat, p: nat)
    requires |s| >= 2 && Indexes(index, n) && FirstRepeat(s, index, q, p)
    ensures |Tokens(s, index, n)| + TRAILER < WorstLength(|s|)
  {
    StartPlain(s, index, n);
    PlainGood(s, Start(s, n), index);
    FirstShrinks(s, Start(s, n), index, q, p);
    hide Plain, FirstRepeat, Run;
  }

  /** Three bytes are not enough: seven equal bytes repeat at position 2 and are written
      in the worst length. */
  lemma ThreeDoNotShrink(c: byte, index: int -> int, n: nat)
    requires Indexes(index, n)
    ensures Repeats(Equal(7, c), index)
    ensures |Tokens(Equal(7, c), index, n)| + TRAILER == WorstLength(7)
  {
    EqualTokens(7, c, index, n);
    assert Tail(c, 5) == Piece(3) + Tail(c, 2);
    CompressesExactly(Equal(7, c), index, n);
    var t := Tokens(Equal(7, c), index, n);
    assert t[3..] == Tail(c, 5);
    assert HasReference(t[3..]);
  }

  /** From eight on they shrink: n equal bytes take about three for every 264. */
  lemma EqualSize(n: nat, c: byte, index: int -> int, m: nat)
    requires n >= 7 && Indexes(index, m)
    ensures |Tokens(Equal(n, c), index, m)| + TRAILER <= 3 * ((n - 2) / 264) + 13
    ensures |Tokens(Equal(n, c), index, m)| + TRAILER < WorstLength(n) <==> n > 7
  {
    EqualTokens(n, c, index, m);
    TailLength(c, n - 2);
    if n < 12 {
      assert |Tail(c, n - 2)| == 5;
    }
  }
}
