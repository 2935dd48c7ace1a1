/** What the compressor of gekkota_lzf.c writes, byte by byte: at every position it
    follows the last one entered under the same index, if that repeats there. */
module LzfGreedy {
  import opened Words
  import opened Wrappers
  import opened LzfFormat

  /** The rolling 32-bit value over the last bytes read. */
  function First(data: seq<byte>, i: nat): int
    requires i + 1 < |data|
  {
    data[i] as int * 256 + data[i + 1] as int
  }

  function Next(value: int, data: seq<byte>, i: nat): int
    requires i + 2 < |data|
  {
    (value * 256 + data[i + 2] as int) % 0x1_0000_0000
  }

  /** Position p can be referred to from position i. */
  predicate Usable(s: seq<byte>, p: int, i: nat) {
    0 < p < i && i - p <= MAX_OFFSET && i + 4 < |s| && SameTriple(s, p, i)
  }

  function Longest(s: seq<byte>, i: nat): int {
    if |s| - i - 2 > MAX_REFERENCE then MAX_REFERENCE else |s| - i - 2
  }

  /** How far the match goes, from `length` on. */
  function Extended(s: seq<byte>, p: nat, i: nat, length: nat): (r: nat)
    requires p < i && i + length <= |s|
    ensures length <= r && i + r <= |s| && (length <= Longest(s, i) ==> r <= Longest(s, i))
    decreases |s| - length
  {
    if length < Longest(s, i) && s[p + length] == s[i + length] then Extended(s, p, i, length + 1) else length
  }

  /** The pending literals as a token. */
  function Pending(s: seq<byte>, i: nat, literal: nat): (r: seq<byte>)
    requires literal <= i <= |s| && literal <= MAX_LITERAL
  {
    if literal == 0 then [] else [literal - 1] + s[i - literal..i]
  }

  /** Where the loop stands: before position i, with some literals pending. */
  datatype State = State(i: nat, literal: nat, value: int, table: seq<int>, out: seq<byte>)

  ghost predicate Indexes(index: int -> int, n: nat) {
    forall v :: 0 <= index(v) < n
  }

  ghost predicate Good(s: seq<byte>, st: State, index: int -> int) {
    st.literal <= st.i <= |s| && st.literal < MAX_LITERAL && Indexes(index, |st.table|)
  }

  function Lit(s: seq<byte>, st: State): (r: State)
    requires st.literal <= st.i < |s| && st.literal < MAX_LITERAL
    ensures r.literal <= r.i == st.i + 1 && r.literal < MAX_LITERAL && |r.table| == |st.table|
  {
    if st.literal + 1 == MAX_LITERAL then st.(i := st.i + 1, literal := 0, out := st.out + Pending(s, st.i + 1, MAX_LITERAL))
    else st.(i := st.i + 1, literal := st.literal + 1)
  }

  /** The table and the rolling value with the last two positions before `end` entered. */
  ghost function Entered(s: seq<byte>, table: seq<int>, end: nat, index: int -> int): (r: (seq<int>, int))
    requires 3 <= end && end + 2 <= |s| && Indexes(index, |table|)
    ensures |r.0| == |table|
  {
    var v := Next(First(s, end - 2), s, end - 2);
    var w := Next(v, s, end - 1);
    (table[index(v) := end - 2][index(w) := end - 1], w)
  }

  /** What is written for the match at i with position p. */
  function MatchTokens(s: seq<byte>, i: nat, literal: nat, p: nat): seq<byte>
    requires literal <= i && literal <= MAX_LITERAL && Usable(s, p, i)
  {
    Pending(s, i, literal) + ReferenceToken(i - p - 1, Extended(s, p, i, 3))
  }

  /** A match is written, and its last two positions are entered. */
  ghost function Match(s: seq<byte>, st: State, index: int -> int, p: nat): (r: State)
    requires Good(s, st, index) && Usable(s, p, st.i)
    ensures Good(s, r, index) && r.i >= st.i + 3 && |r.table| == |st.table|
  {
    var end := st.i + Extended(s, p, st.i, 3);
    var (table, value) := Entered(s, st.table, end, index);
    State(end, 0, value, table, st.out + MatchTokens(s, st.i, st.literal, p))
  }

  ghost function Step(s: seq<byte>, st: State, index: int -> int): (r: State)
    requires Good(s, st, index) && st.i < |s|
    ensures Good(s, r, index) && r.i > st.i && |r.table| == |st.table|
  {
    if st.i + 2 < |s| then
      var v := Next(st.value, s, st.i);
      var p := st.table[index(v)];
      var looked := st.(value := v, table := st.table[index(v) := st.i]);
      if Usable(s, p, st.i) then Match(s, looked, index, p) else Lit(s, looked)
    else Lit(s, st)
  }

  ghost predicate Stepped(s: seq<byte>, st: State, index: int -> int, next: State) {
    Good(s, st, index) && st.i < |s| && next == Step(s, st, index)
  }

  ghost function Run(s: seq<byte>, st: State, index: int -> int): (r: State)
    requires Good(s, st, index)
    ensures Good(s, r, index) && r.i == |s|
    decreases |s| - st.i
  {
    if st.i == |s| then st else Run(s, Step(s, st, index), index)
  }

  ghost function Start(s: seq<byte>, n: nat): State
    requires |s| >= 2
  {
    State(0, 0, First(s, 0), seq(n, _ => 0), [])
  }

  ghost function Finished(s: seq<byte>, st: State): seq<byte>
    requires st.literal <= st.i == |s| && st.literal < MAX_LITERAL
  {
    st.out + Pending(s, |s|, st.literal)
  }

  /** The token stream written for s, with a table of n entries. */
  ghost function Tokens(s: seq<byte>, index: int -> int, n: nat): seq<byte>
    requires |s| >= 2 && Indexes(index, n)
  {
    Finished(s, Run(s, Start(s, n), index))
  }

  /** A step that follows a reference. */
  lemma FollowStep(s: seq<byte>, st: State, index: int -> int)
    requires Good(s, st, index) && st.i + 2 < |s| && Usable(s, st.table[index(Next(st.value, s, st.i))], st.i)
    ensures var v := Next(st.value, s, st.i);
            var looked := st.(value := v, table := st.table[index(v) := st.i]);
            && Good(s, looked, index)
            && Step(s, st, index) == Match(s, looked, index, st.table[index(v)])
  {
    hide Next, Match, Usable;
  }

  /** A step that does not. */
  lemma PassStep(s: seq<byte>, st: State, index: int -> int)
    requires Good(s, st, index) && st.i + 2 < |s| && !Usable(s, st.table[index(Next(st.value, s, st.i))], st.i)
    ensures var v := Next(st.value, s, st.i);
            Step(s, st, index) == Lit(s, st.(value := v, table := st.table[index(v) := st.i]))
  {
    hide Next, Lit, Usable;
  }

  lemma EndStep(s: seq<byte>, st: State, index: int -> int)
    requires Good(s, st, index) && st.i < |s| <= st.i + 2
    ensures Step(s, st, index) == Lit(s, st)
  {
  }

  lemma RunStep(s: seq<byte>, st: State, index: int -> int, next: State)
    requires Good(s, st, index) && st.i < |s| && next == Step(s, st, index)
    ensures Good(s, next, index) && Run(s, st, index) == Run(s, next, index)
  {
    hide Step;
  }

  // ------------------------------------------------ when anything is compressed

  /** The value a position is entered under before any match: its three bytes and the one
      before. */
  function Rolled(s: seq<byte>, p: nat): (v: int)
    requires p + 2 < |s|
    ensures 0 <= v < 0x1_0000_0000
  {
    var z: int, a: int, b: int, c: int := if p == 0 then 0 else s[p - 1], s[p], s[p + 1], s[p + 2];
    z * 0x100_0000 + a * 0x1_0000 + b * 0x100 + c
  }

  lemma RolledNext(s: seq<byte>, p: nat)
    requires p + 2 < |s|
    ensures p == 0 ==> Next(First(s, 0), s, 0) == Rolled(s, 0)
    ensures p > 0 ==> Next(Rolled(s, p - 1), s, p) == Rolled(s, p)
  {
    if p > 0 {
      var z: int := if p == 1 then 0 else s[p - 2];
      var a: int, b: int, c: int, d: int := s[p - 1], s[p], s[p + 1], s[p + 2];
      var v := a * 0x100_0000 + b * 0x1_0000 + c * 0x100 + d;
      assert Rolled(s, p - 1) * 256 + d == z * 0x1_0000_0000 + v;
    }
  }

  /** q is the last position before p under p's index. */
  ghost predicate LastBefore(s: seq<byte>, index: int -> int, q: nat, p: nat) {
    && q < p && p + 2 < |s| && index(Rolled(s, q)) == index(Rolled(s, p))
    && forall r {:trigger Rolled(s, r)} :: q < r < p ==> index(Rolled(s, r)) != index(Rolled(s, p))
  }

  /** At some position, not the last four, the last earlier one under the same index is
      not the very first and within reach, and has the same three bytes. */
  ghost predicate Repeats(s: seq<byte>, index: int -> int) {
    exists q: nat, p: nat :: RepeatsAt(s, index, q, p)
  }

  ghost predicate RepeatsAt(s: seq<byte>, index: int -> int, q: nat, p: nat) {
    && 0 < q < p && p + 4 < |s| && p - q <= MAX_OFFSET && LastBefore(s, index, q, p)
    && s[q] == s[p] && s[q + 1] == s[p + 1] && s[q + 2] == s[p + 2]
  }

  /** The stream contains a back reference. */
  predicate HasReference(enc: seq<byte>) {
    enc != [] && (enc[0] >= 32 || (enc[0] + 2 <= |enc| && HasReference(enc[enc[0] + 2..])))
  }

  /** The stream consists of whole literal tokens. */
  predicate Literals(enc: seq<byte>) {
    enc == [] || (enc[0] < 32 && enc[0] + 2 <= |enc| && Literals(enc[enc[0] + 2..]))
  }

  lemma {:induction false} LiteralsThen(a: seq<byte>, b: seq<byte>)
    requires Literals(a)
    ensures HasReference(a + b) <==> HasReference(b)
    ensures Literals(b) ==> Literals(a + b)
    decreases |a|
  {
    if a == [] {
      assert a + b == b;
    } else {
      var k := a[0] as int + 2;
      assert (a + b)[k..] == a[k..] + b;
      LiteralsThen(a[k..], b);
    }
  }

  lemma {:induction false} ReferenceThen(a: seq<byte>, b: seq<byte>)
    requires HasReference(a)
    ensures HasReference(a + b)
    decreases |a|
  {
    if a[0] < 32 {
      var k := a[0] as int + 2;
      assert (a + b)[k..] == a[k..] + b;
      ReferenceThen(a[k..], b);
    }
  }

  lemma {:induction false} LiteralsHaveNone(a: seq<byte>)
    requires Literals(a)
    ensures !HasReference(a)
    decreases |a|
  {
    if a != [] {
      LiteralsHaveNone(a[a[0] as int + 2..]);
    }
  }

  lemma PendingLiteral(s: seq<byte>, i: nat, literal: nat)
    requires literal <= i <= |s| && literal <= MAX_LITERAL
    ensures Literals(Pending(s, i, literal))
  {
    var t := Pending(s, i, literal);
    if literal > 0 {
      assert t[literal + 1..] == [];
    }
  }

  lemma TokenRefers(offset: nat, length: nat)
    requires offset < MAX_OFFSET && 3 <= length <= MAX_REFERENCE
    ensures HasReference(ReferenceToken(offset, length))
  {
    ReferenceTokenFields(offset, length);
  }

  /** Nothing written is taken back. */
  lemma {:induction false} RunExtends(s: seq<byte>, st: State, index: int -> int) returns (more: seq<byte>)
    requires Good(s, st, index)
    ensures Run(s, st, index).out == st.out + more
    decreases |s| - st.i
  {
    hide Step, Good, Pending;
    more := [];
    if st.i < |s| {
      AtMostEnd(s, st, index);
      var a := StepExtends(s, st, index);
      var b := RunExtends(s, Step(s, st, index), index);
      more := a + b;
      assert st.out + a + b == st.out + (a + b);
    } else {
      AtMostEnd(s, st, index);
    }
  }

  lemma AtMostEnd(s: seq<byte>, st: State, index: int -> int)
    requires Good(s, st, index)
    ensures st.i <= |s|
  {
  }

  lemma StepExtends(s: seq<byte>, st: State, index: int -> int) returns (more: seq<byte>)
    requires Good(s, st, index) && st.i < |s|
    ensures Step(s, st, index).out == st.out + more
  {
    var next := Step(s, st, index);
    more := next.out[|st.out|..];
    hide ReferenceToken, Extended, Usable, Next, Pending;
  }

  /** The table before any match: under every index the last position entered. */
  ghost predicate Tab(s: seq<byte>, index: int -> int, table: seq<int>, i: nat) {
    forall k {:trigger table[k]} :: 0 <= k < |table| ==> TabAt(s, index, table[k], k, i)
  }

  ghost predicate TabAt(s: seq<byte>, index: int -> int, p: int, k: int, i: nat) {
    && 0 <= p && (p > 0 ==> p < i && p + 2 < |s| && index(Rolled(s, p)) == k)
    && forall r: nat {:trigger Rolled(s, r)} :: p < r < i && r + 2 < |s| ==> index(Rolled(s, r)) != k
  }

  /** No match has been taken yet. */
  ghost predicate Plain(s: seq<byte>, st: State, index: int -> int) {
    && Good(s, st, index) && Literals(st.out) && Tab(s, index, st.table, st.i)
    && (st.i + 2 < |s| ==> Next(st.value, s, st.i) == Rolled(s, st.i))
  }

  lemma StartPlain(s: seq<byte>, index: int -> int, n: nat)
    requires |s| >= 2 && Indexes(index, n)
    ensures Plain(s, Start(s, n), index)
  {
    if |s| > 2 {
      RolledNext(s, 0);
    }
  }

  /** One position without a match. */
  lemma LitPlain(s: seq<byte>, st: State, index: int -> int)
    requires Plain(s, st, index) && st.i < |s|
    requires st.i + 2 < |s| ==> !Usable(s, st.table[index(Rolled(s, st.i))], st.i)
    ensures Plain(s, Step(s, st, index), index) && Step(s, st, index).i == st.i + 1
  {
    var next := Step(s, st, index);
    LitLiterals(s, st);
    TabNext(s, st.table, index, st.i);
    if st.i + 3 < |s| {
      RolledNext(s, st.i + 1);
    }
    hide Tab, Rolled, Next, Literals, Pending, Usable;
  }

  lemma LitLiterals(s: seq<byte>, st: State)
    requires st.literal <= st.i < |s| && st.literal < MAX_LITERAL && Literals(st.out)
    ensures Literals(Lit(s, st).out)
  {
    PendingLiteral(s, st.i + 1, st.literal + 1);
    LiteralsThen(st.out, Pending(s, st.i + 1, st.literal + 1));
  }

  lemma TabNext(s: seq<byte>, table: seq<int>, index: int -> int, i: nat)
    requires Tab(s, index, table, i) && Indexes(index, |table|)
    ensures i + 2 < |s| ==> Tab(s, index, table[index(Rolled(s, i)) := i], i + 1)
    ensures i + 2 >= |s| ==> Tab(s, index, table, i + 1)
  {
  }

  /** Without a match at all the stream is literals; with one it has a reference. */
  lemma {:induction false} PlainRun(s: seq<byte>, st: State, index: int -> int)
    requires Plain(s, st, index)
    ensures (exists p :: st.i <= p && MatchedAt(s, index, p)) <==> HasReference(Finished(s, Run(s, st, index)))
    decreases |s| - st.i
  {
    hide HasReference, Step, Plain, Finished, MatchedAt;
    PlainGood(s, st, index);
    if st.i == |s| {
      PlainEnd(s, st, index);
    } else {
      TabMatches(s, st, index);
      hide Usable;
      if MatchedAt(s, index, st.i) {
        MatchRefers(s, st, index);
      } else {
        LitPlain(s, st, index);
        PlainRun(s, Step(s, st, index), index);
      }
    }
  }

  lemma PlainGood(s: seq<byte>, st: State, index: int -> int)
    requires Plain(s, st, index)
    ensures Good(s, st, index)
  {
  }

  lemma PlainEnd(s: seq<byte>, st: State, index: int -> int)
    requires Plain(s, st, index) && st.i == |s|
    ensures !HasReference(Finished(s, st)) && forall p :: st.i <= p ==> !MatchedAt(s, index, p)
  {
    PendingLiteral(s, |s|, st.literal);
    LiteralsThen(st.out, Pending(s, |s|, st.literal));
    LiteralsHaveNone(st.out + Pending(s, |s|, st.literal));
    hide Tab, Pending, Literals;
  }

  ghost predicate MatchedAt(s: seq<byte>, index: int -> int, p: nat) {
    exists q: nat :: RepeatsAt(s, index, q, p)
  }

  /** What the table holds is usable exactly when the source repeats there. */
  lemma TabMatches(s: seq<byte>, st: State, index: int -> int)
    requires Plain(s, st, index) && st.i < |s|
    ensures MatchedAt(s, index, st.i) <==> st.i + 2 < |s| && Usable(s, st.table[index(Rolled(s, st.i))], st.i)
  {
    if st.i + 2 < |s| {
      var k := index(Rolled(s, st.i));
      assert TabAt(s, index, st.table[k], k, st.i);
      hide Rolled, Tab, Literals;
      if Usable(s, st.table[k], st.i) {
        assert RepeatsAt(s, index, st.table[k], st.i);
      }
      if q: nat :| RepeatsAt(s, index, q, st.i) {
        assert q == st.table[k];
      }
    }
  }

  lemma MatchRefers(s: seq<byte>, st: State, index: int -> int)
    requires Plain(s, st, index) && st.i + 2 < |s| && Usable(s, st.table[index(Rolled(s, st.i))], st.i)
    ensures HasReference(Finished(s, Run(s, st, index)))
  {
    MatchStepRefers(s, st, index);
    hide Step, Plain, Tab, Usable, HasReference;
    RefersForEver(s, Step(s, st, index), index);
  }

  lemma MatchStepRefers(s: seq<byte>, st: State, index: int -> int)
    requires Plain(s, st, index) && st.i + 2 < |s| && Usable(s, st.table[index(Rolled(s, st.i))], st.i)
    ensures HasReference(Step(s, st, index).out)
  {
    var p := st.table[index(Rolled(s, st.i))];
    var length := Extended(s, p, st.i, 3);
    var lits, token := Pending(s, st.i, st.literal), ReferenceToken(st.i - p - 1, length);
    assert Step(s, st, index).out == st.out + lits + token;
    hide Step, Tab, Rolled, Usable, Extended, Next;
    PendingLiteral(s, st.i, st.literal);
    LiteralsThen(st.out, lits);
    TokenRefers(st.i - p - 1, length);
    LiteralsThen(st.out + lits, token);
  }

  lemma RefersForEver(s: seq<byte>, st: State, index: int -> int)
    requires Good(s, st, index) && HasReference(st.out)
    ensures HasReference(Finished(s, Run(s, st, index)))
  {
    hide HasReference, Run;
    var more := RunExtends(s, st, index);
    var end := Run(s, st, index);
    ReferenceThen(st.out, more + Pending(s, |s|, end.literal));
    assert st.out + (more + Pending(s, |s|, end.literal)) == st.out + more + Pending(s, |s|, end.literal);
  }

  /** For any index function and any table: the stream contains a back reference if and
      only if the source repeats. */
  lemma CompressesExactly(s: seq<byte>, index: int -> int, n: nat)
    requires |s| >= 2 && Indexes(index, n)
    ensures HasReference(Tokens(s, index, n)) <==> Repeats(s, index)
  {
    StartPlain(s, index, n);
    PlainRun(s, Start(s, n), index);
    hide HasReference, Run, RepeatsAt;
    if q: nat, p: nat :| RepeatsAt(s, index, q, p) {
      assert MatchedAt(s, index, p);
    }
  }

  // ------------------------------------------------------------- equal bytes

  function Equal(n: nat, c: byte): (s: seq<byte>)
    ensures |s| == n
  {
    seq(n, _ => c)
  }

  /** The rolling value over equal bytes. */
  function Steady(c: byte): int {
    c * 0x101_0101
  }

  lemma SteadyNext(n: nat, c: byte, i: nat)
    requires i + 2 < n
    ensures First(Equal(n, c), i) == c * 0x101
    ensures Next(c * 0x101, Equal(n, c), i) == c * 0x1_0101 && Next(c * 0x1_0101, Equal(n, c), i) == Steady(c)
    ensures Next(Steady(c), Equal(n, c), i) == Steady(c)
  {
    var s, x: int := Equal(n, c), c;
    assert s[i] == s[i + 1] == s[i + 2] == c;
    assert Steady(c) * 256 + x == x * 0x1_0000_0000 + Steady(c);
  }

  /** How many of the last d of them, more than four, one reference takes. */
  function Stretch(d: nat): (r: nat)
    requires d > 4
    ensures 3 <= r <= d - 2
  {
    if d - 2 > 264 then 264 else d - 2
  }

  /** The reference to the byte before. */
  function Piece(length: nat): (r: seq<byte>)
    requires 3 <= length <= 264
    ensures |r| <= 3
  {
    if length < 9 then [32 * (length - 2), 0] else [224, length - 9, 0]
  }

  /** What is written for the last d of them, when the one before has been entered: two
      or three bytes for every 264, and the last ones as literals. */
  function Tail(c: byte, d: nat): (r: seq<byte>)
    requires d >= 2
    decreases d
  {
    if d <= 4 then [d - 1] + Equal(d, c)
    else Piece(Stretch(d)) + Tail(c, d - Stretch(d))
  }

  lemma {:induction false} EqualExtends(n: nat, c: byte, p: nat, i: nat, length: nat)
    requires p < i && i + 4 < n && length <= Longest(Equal(n, c), i)
    ensures Extended(Equal(n, c), p, i, length) == Longest(Equal(n, c), i)
    decreases n - length
  {
    if length < Longest(Equal(n, c), i) {
      EqualExtends(n, c, p, i, length + 1);
    }
  }

  /** Between two matches. */
  ghost predicate Between(st: State, n: nat, c: byte, index: int -> int) {
    && Good(Equal(n, c), st, index) && 2 <= st.i <= n - 2 && st.literal == 0
    && st.value == Steady(c) && st.table[index(Steady(c))] == st.i - 1
  }

  lemma TailMore(out: seq<byte>, c: byte, d: nat)
    requires d > 4
    ensures out + Tail(c, d) == out + Piece(Stretch(d)) + Tail(c, d - Stretch(d))
  {
  }

  lemma {:induction false} EqualRun(st: State, n: nat, c: byte, index: int -> int)
    requires Between(st, n, c, index)
    ensures Finished(Equal(n, c), Run(Equal(n, c), st, index)) == st.out + Tail(c, n - st.i)
    decreases n - st.i
  {
    if n - st.i <= 4 {
      EqualEnd(st, n, c, index);
    } else {
      var next := EqualMatch(st, n, c, index);
      RunStep(Equal(n, c), st, index, next);
      TailMore(st.out, c, n - st.i);
      hide Step, Run, Tail, Piece;
      EqualRun(next, n, c, index);
    }
  }

  lemma EqualMatch(st: State, n: nat, c: byte, index: int -> int) returns (next: State)
    requires Between(st, n, c, index) && n - st.i > 4
    ensures next == Step(Equal(n, c), st, index) && Between(next, n, c, index)
    ensures next.i == st.i + Stretch(n - st.i) && next.out == st.out + Piece(Stretch(n - st.i))
  {
    var s := Equal(n, c);
    SteadyNext(n, c, st.i);
    EqualExtends(n, c, st.i - 1, st.i, 3);
    next := Step(s, st, index);
    SteadyNext(n, c, next.i - 2);
    assert s[next.i - 1 + 2] == c;
    NextAgain(n, c, next.i - 1);
    hide Next, First, Extended;
    assert st.out + [] == st.out;
  }

  lemma NextAgain(n: nat, c: byte, i: nat)
    requires i + 2 < n
    ensures Next(c * 0x1_0101, Equal(n, c), i) == Steady(c)
  {
    SteadyNext(n, c, i);
  }

  /** The last two to four bytes are literals. */
  lemma EqualEnd(st: State, n: nat, c: byte, index: int -> int)
    requires Between(st, n, c, index) && n - st.i <= 4
    ensures Finished(Equal(n, c), Run(Equal(n, c), st, index)) == st.out + Tail(c, n - st.i)
  {
    var s := Equal(n, c);
    var end := LitsOnly(st, n, c, index);
    hide Run, Step;
    assert s[st.i..n] == Equal(n - st.i, c);
  }

  lemma {:induction false} LitsOnly(st: State, n: nat, c: byte, index: int -> int) returns (end: State)
    requires Good(Equal(n, c), st, index) && n - st.i <= 4 && st.i <= n && st.literal + (n - st.i) < MAX_LITERAL
    ensures end == Run(Equal(n, c), st, index) && end.i == n && end.literal == st.literal + (n - st.i) && end.out == st.out
    decreases n - st.i
  {
    if st.i == n {
      end := st;
    } else {
      var next := Step(Equal(n, c), st, index);
      assert next.i == st.i + 1 && next.literal == st.literal + 1 && next.out == st.out;
      hide Step;
      end := LitsOnly(next, n, c, index);
    }
  }

  /** Whatever the index function: n equal bytes, seven or more, are written as two
      literals and then in references of 264. */
  lemma EqualTokens(n: nat, c: byte, index: int -> int, m: nat)
    requires n >= 7 && Indexes(index, m)
    ensures Tokens(Equal(n, c), index, m) == [1, c, c] + Tail(c, n - 2)
  {
    var s := Equal(n, c);
    var one := EqualStep0(n, c, index, m);
    var two := EqualStep1(one, n, c, index);
    hide Step, Indexes;
    EqualFirst(two, n, c, index);
    assert Run(s, Start(s, m), index) == Run(s, one, index);
  }

  lemma EqualStep0(n: nat, c: byte, index: int -> int, m: nat) returns (one: State)
    requires n >= 7 && Indexes(index, m)
    ensures Good(Equal(n, c), Start(Equal(n, c), m), index) && one == Step(Equal(n, c), Start(Equal(n, c), m), index)
    ensures Good(Equal(n, c), one, index) && one.i == 1 && one.literal == 1 && one.value == c * 0x1_0101 && one.out == []
    ensures one.table[index(Steady(c))] == 0
  {
    SteadyNext(n, c, 0);
    hide Next, First, SameTriple;
    one := Step(Equal(n, c), Start(Equal(n, c), m), index);
  }

  lemma EqualStep1(one: State, n: nat, c: byte, index: int -> int) returns (two: State)
    requires Good(Equal(n, c), one, index) && n >= 7
    requires one.i == 1 && one.literal == 1 && one.value == c * 0x1_0101 && one.out == [] && one.table[index(Steady(c))] == 0
    ensures two == Step(Equal(n, c), one, index)
    ensures Good(Equal(n, c), two, index) && two.i == 2 && two.literal == 2 && two.value == Steady(c) && two.out == []
    ensures two.table[index(Steady(c))] == 1
  {
    SteadyNext(n, c, 1);
    hide Next, First, SameTriple;
    two := Step(Equal(n, c), one, index);
  }

  /** The first match, with the two literals before it. */
  lemma EqualFirst(st: State, n: nat, c: byte, index: int -> int)
    requires Good(Equal(n, c), st, index) && n >= 7 && st.i == 2 && st.literal == 2 && st.value == Steady(c) && st.out == []
    requires st.table[index(Steady(c))] == 1
    ensures Finished(Equal(n, c), Run(Equal(n, c), st, index)) == [1, c, c] + Tail(c, n - 2)
  {
    var s := Equal(n, c);
    var next := Step(s, st, index);
    var flushed := st.(literal := 0, out := [1, c, c]);
    assert s[0..2] == [c, c];
    assert Pending(s, 2, 2) == [1, c, c];
    SameStep(st, n, c, index);
    hide Step;
    assert Run(s, flushed, index) == Run(s, st, index);
    EqualRun(flushed, n, c, index);
  }

  lemma SameStep(st: State, n: nat, c: byte, index: int -> int)
    requires Good(Equal(n, c), st, index) && n >= 7 && st.i == 2 && st.literal == 2 && st.value == Steady(c) && st.out == []
    requires st.table[index(Steady(c))] == 1 && Pending(Equal(n, c), 2, 2) == [1, c, c]
    ensures Step(Equal(n, c), st, index) == Step(Equal(n, c), st.(literal := 0, out := [1, c, c]), index)
  {
    SteadyNext(n, c, 2);
    hide Next, First, Extended;
    assert [] + [1, c, c] == [1, c, c] && [1, c, c] + [] == [1, c, c];
  }

  /** That is about three bytes for every 264. */
  lemma {:induction false} TailLength(c: byte, d: nat)
    requires d >= 2
    ensures |Tail(c, d)| <= 3 * (d / 264) + 6
    decreases d
  {
    if d > 4 {
      TailLength(c, d - Stretch(d));
    }
  }
}
