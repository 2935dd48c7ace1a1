/** Streams that show which positions the compressor enters after a match. */
module LzfSamples {
  import opened Words
  import opened LzfFormat
  import opened LzfGreedy

  /** A table index: the low 13 bits. */
  function Low(v: int): int {
    v % 8192
  }

  ghost predicate Ready(s: seq<byte>, st: State) {
    Good(s, st, Low) && |st.table| == 8192 && st.i < |s|
  }

  lemma LowIndexes()
    ensures Indexes(Low, 8192)
  {
  }

  /** The position is entered and becomes a literal. */
  lemma Passes(s: seq<byte>, st: State, v: nat, next: State)
    requires Ready(s, st) && st.i + 2 < |s| && st.literal < 31
    requires Next(st.value, s, st.i) == v && !Usable(s, st.table[Low(v)], st.i)
    requires next == State(st.i + 1, st.literal + 1, v, st.table[Low(v) := st.i], st.out)
    ensures Run(s, st, Low) == Run(s, next, Low) && Good(s, next, Low) && |next.table| == 8192
  {
    hide Usable, Next, Low;
    assert Step(s, st, Low) == next;
  }

  /** The position refers back to p; the last two of the match are entered. */
  lemma Refers(s: seq<byte>, st: State, v: nat, p: nat, length: nat, a: nat, b: nat, next: State)
    requires Ready(s, st) && st.i + 2 < |s| && Next(st.value, s, st.i) == v && st.table[Low(v)] == p && Usable(s, p, st.i)
    requires Extended(s, p, st.i, 3) == length && st.i + length + 2 <= |s| && 3 <= length < 9
    requires Next(First(s, st.i + length - 2), s, st.i + length - 2) == a && Next(a, s, st.i + length - 1) == b
    requires next == State(st.i + length, 0, b, st.table[Low(v) := st.i][Low(a) := st.i + length - 2][Low(b) := st.i + length - 1],
                           st.out + Pending(s, st.i, st.literal) + ReferenceToken(st.i - p - 1, length))
    ensures Run(s, st, Low) == Run(s, next, Low) && Good(s, next, Low) && |next.table| == 8192
  {
    hide Usable, Next, Low, First, Extended, ReferenceToken, Pending, Run;
    var looked := st.(value := v, table := st.table[Low(v) := st.i]);
    assert Match(s, looked, Low, p) == next;
    StepMatches(s, st, v, p);
    RunOnce(s, st, next);
  }

  lemma StepMatches(s: seq<byte>, st: State, v: nat, p: nat)
    requires Ready(s, st) && st.i + 2 < |s| && Next(st.value, s, st.i) == v && st.table[Low(v)] == p && Usable(s, p, st.i)
    ensures Good(s, st.(value := v, table := st.table[Low(v) := st.i]), Low)
    ensures Step(s, st, Low) == Match(s, st.(value := v, table := st.table[Low(v) := st.i]), Low, p)
  {
    hide Match, Usable, Next, Low;
  }

  lemma RunOnce(s: seq<byte>, st: State, next: State)
    requires Ready(s, st) && next == Step(s, st, Low)
    ensures Run(s, st, Low) == Run(s, next, Low) && Good(s, next, Low) && |next.table| == 8192
  {
    hide Step;
  }

  /** The last two positions are literals. */
  lemma Closes(s: seq<byte>, st: State)
    requires Ready(s, st) && st.i + 2 == |s| && st.literal < 30
    ensures Finished(s, Run(s, st, Low)) == st.out + Pending(s, |s|, st.literal + 2)
  {
    var a := Step(s, st, Low);
    assert a == st.(i := st.i + 1, literal := st.literal + 1);
    var b := Step(s, a, Low);
    assert b == st.(i := st.i + 2, literal := st.literal + 2);
    assert Run(s, a, Low) == b;
  }

  /** The first eight bytes of both samples. */
  predicate Sample(s: seq<byte>) {
    |s| == 17 && s[..8] == [1, 1, 1, 1, 1, 1, 2, 3]
  }

  function Zeros(): seq<int> {
    seq(8192, _ => 0)
  }

  /** The state after the first match: the positions 4 and 5 have been entered. */
  function Opened(): State {
    State(6, 0, 16843267, Zeros()[257 := 0][257 := 1][257 := 2][258 := 4][515 := 5], [1, 1, 1, 64, 0])
  }

  lemma SampleOpens(s: seq<byte>)
    requires Sample(s)
    ensures Ready(s, Opened()) && Tokens(s, Low, 8192) == Finished(s, Run(s, Opened(), Low))
  {
    LowIndexes();
    var st2 := SamplePasses(s);
    SampleRefers(s, st2);
    hide Run, Opened;
  }

  lemma SamplePasses(s: seq<byte>) returns (st2: State)
    requires Sample(s) && Indexes(Low, 8192)
    ensures st2 == State(2, 2, 16843009, Zeros()[257 := 0][257 := 1], []) && Good(s, st2, Low)
    ensures Good(s, Start(s, 8192), Low) && Run(s, Start(s, 8192), Low) == Run(s, st2, Low)
  {
    var z := Zeros();
    hide Run;
    assert s[0] == s[1] == s[2] == s[3] == 1;
    var st0, st1 := Start(s, 8192), State(1, 1, 65793, z[257 := 0], []);
    Passes(s, st0, 65793, st1);
    st2 := State(2, 2, 16843009, z[257 := 0][257 := 1], []);
    Passes(s, st1, 16843009, st2);
  }

  lemma SampleRefers(s: seq<byte>, st2: State)
    requires Sample(s) && Good(s, st2, Low) && st2 == State(2, 2, 16843009, Zeros()[257 := 0][257 := 1], [])
    ensures Ready(s, Opened()) && Run(s, st2, Low) == Run(s, Opened(), Low)
  {
    hide Run, Zeros;
    assert s[0] == s[1] == s[2] == s[3] == s[4] == s[5] == 1 && s[6] == 2 && s[7] == 3;
    SampleExtends(s);
    assert s[0..2] == [1, 1];
    Refers(s, st2, 16843009, 1, 4, 65794, 16843267, Opened());
  }

  lemma SampleExtends(s: seq<byte>)
    requires Sample(s)
    ensures Extended(s, 1, 2, 3) == 4
  {
    assert s[0] == s[1] == s[2] == s[3] == s[4] == s[5] == 1 && s[6] == 2;
    assert Extended(s, 1, 2, 4) == 4;
  }

  const FIRST: seq<byte> := [1, 1, 1, 1, 1, 1, 2, 3, 4, 1, 1, 2, 3, 5, 6, 7, 8]
  const SECOND: seq<byte> := [1, 1, 1, 1, 1, 1, 2, 3, 4, 9, 1, 2, 3, 5, 6, 7, 8]

  /** The last but one position of the first match is followed. */
  lemma FirstSample()
    ensures Tokens(FIRST, Low, 8192) == [1, 1, 1, 64, 0, 2, 2, 3, 4, 64, 4, 3, 5, 6, 7, 8]
  {
    SampleOpens(FIRST);
    var st9 := FirstPasses();
    FirstRefers(st9);
    hide Run, Opened;
  }

  lemma FirstPasses() returns (st9: State)
    requires Good(FIRST, Opened(), Low)
    ensures st9 == State(9, 3, 50594049, Opened().table[772 := 6][1025 := 7][257 := 8], Opened().out) && Good(FIRST, st9, Low)
    ensures Run(FIRST, Opened(), Low) == Run(FIRST, st9, Low)
  {
    var s := FIRST;
    hide Run;
    var t := Opened().table;
    var st7 := State(7, 1, 16909060, t[772 := 6], Opened().out);
    Passes(s, Opened(), 16909060, st7);
    var st8 := State(8, 2, 33752065, t[772 := 6][1025 := 7], Opened().out);
    Passes(s, st7, 33752065, st8);
    st9 := State(9, 3, 50594049, t[772 := 6][1025 := 7][257 := 8], Opened().out);
    Passes(s, st8, 50594049, st9);
  }

  lemma FirstRefers(st: State)
    requires st == State(9, 3, 50594049, Opened().table[772 := 6][1025 := 7][257 := 8], Opened().out) && Good(FIRST, st, Low)
    ensures Finished(FIRST, Run(FIRST, st, Low)) == [1, 1, 1, 64, 0, 2, 2, 3, 4, 64, 4, 3, 5, 6, 7, 8]
  {
    var s := FIRST;
    assert Extended(s, 4, 9, 3) == 4 by {
      assert Extended(s, 4, 9, 4) == 4;
    }
    assert s[6..9] == [2, 3, 4];
    var st13 := State(13, 0, 33752326, st.table[258 := 9][773 := 11][1286 := 12], [1, 1, 1, 64, 0, 2, 2, 3, 4, 64, 4]);
    Refers(s, st, 67174658, 4, 4, 131845, 33752326, st13);
    hide Run, Opened, Extended, Finished;
    LastFour(s, st13);
    assert [1, 1, 1, 64, 0, 2, 2, 3, 4, 64, 4] + [3, 5, 6, 7, 8] == [1, 1, 1, 64, 0, 2, 2, 3, 4, 64, 4, 3, 5, 6, 7, 8];
  }

  /** The last four bytes are literals in both. */
  lemma LastFour(s: seq<byte>, st: State)
    requires |s| == 17 && s[11..] == [2, 3, 5, 6, 7, 8] && st.i == 13 && st.literal == 0 && st.value == 33752326
    requires Good(s, st, Low) && |st.table| == 8192
    ensures Finished(s, Run(s, st, Low)) == st.out + [3, 5, 6, 7, 8]
  {
    assert s[13] == s[11..][2] && s[14] == s[11..][3] && s[15] == s[11..][4] && s[16] == s[11..][5];
    var st14 := State(14, 1, 50660871, st.table[1543 := 13], st.out);
    Passes(s, st, 50660871, st14);
    var st15 := State(15, 2, 84281096, st14.table[1800 := 14], st.out);
    Passes(s, st14, 84281096, st15);
    Closes(s, st15);
    assert s[13..17] == [5, 6, 7, 8];
    hide Run;
  }

  /** And so is the last one. */
  lemma SecondSample()
    ensures Tokens(SECOND, Low, 8192) == [1, 1, 1, 64, 0, 3, 2, 3, 4, 9, 32, 4, 3, 5, 6, 7, 8]
  {
    SampleOpens(SECOND);
    var st8 := SecondPasses();
    var st10 := SecondPassesOn(st8);
    SecondRefers(st10);
    hide Run, Opened;
  }

  lemma SecondPasses() returns (st8: State)
    requires Good(SECOND, Opened(), Low)
    ensures st8 == State(8, 2, 33752073, Opened().table[772 := 6][1033 := 7], Opened().out) && Good(SECOND, st8, Low)
    ensures Run(SECOND, Opened(), Low) == Run(SECOND, st8, Low)
  {
    var s := SECOND;
    hide Run;
    var t := Opened().table;
    var st7 := State(7, 1, 16909060, t[772 := 6], Opened().out);
    Passes(s, Opened(), 16909060, st7);
    st8 := State(8, 2, 33752073, t[772 := 6][1033 := 7], Opened().out);
    Passes(s, st7, 33752073, st8);
  }

  lemma SecondPassesOn(st8: State) returns (st10: State)
    requires st8 == State(8, 2, 33752073, Opened().table[772 := 6][1033 := 7], Opened().out) && Good(SECOND, st8, Low)
    ensures st10 == State(10, 4, 67698946, Opened().table[772 := 6][1033 := 7][2305 := 8][258 := 9], Opened().out) && Good(SECOND, st10, Low)
    ensures Run(SECOND, st8, Low) == Run(SECOND, st10, Low)
  {
    var s := SECOND;
    hide Run;
    var t := Opened().table;
    var st9 := State(9, 3, 50596097, t[772 := 6][1033 := 7][2305 := 8], Opened().out);
    Passes(s, st8, 50596097, st9);
    st10 := State(10, 4, 67698946, t[772 := 6][1033 := 7][2305 := 8][258 := 9], Opened().out);
    Passes(s, st9, 67698946, st10);
  }

  lemma SecondRefers(st: State)
    requires st == State(10, 4, 67698946, Opened().table[772 := 6][1033 := 7][2305 := 8][258 := 9], Opened().out) && Good(SECOND, st, Low)
    ensures Finished(SECOND, Run(SECOND, st, Low)) == [1, 1, 1, 64, 0, 3, 2, 3, 4, 9, 32, 4, 3, 5, 6, 7, 8]
  {
    var s := SECOND;
    assert Extended(s, 5, 10, 3) == 3;
    assert s[6..10] == [2, 3, 4, 9];
    var st13 := State(13, 0, 33752326, st.table[515 := 10][773 := 11][1286 := 12], [1, 1, 1, 64, 0, 3, 2, 3, 4, 9, 32, 4]);
    Refers(s, st, 151060995, 5, 3, 131845, 33752326, st13);
    hide Run, Opened, Extended, Finished;
    LastFour(s, st13);
    assert [1, 1, 1, 64, 0, 3, 2, 3, 4, 9, 32, 4] + [3, 5, 6, 7, 8] == [1, 1, 1, 64, 0, 3, 2, 3, 4, 9, 32, 4, 3, 5, 6, 7, 8];
  }
}
