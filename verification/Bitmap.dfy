/** The fragment bitmap: 32 flags to a word, set by or-ing in a shifted one. */
module Bitmap {
  import opened Words

  function Pow2(k: nat): (r: nat)
    ensures r > 0
  {
    if k == 0 then 1 else 2 * Pow2(k - 1)
  }

  /** w & (1 << k) != 0 */
  predicate WordBit(w: nat, k: nat) {
    if k == 0 then w % 2 == 1 else WordBit(w / 2, k - 1)
  }

  predicate Bit(words: seq<uint32>, f: nat)
    requires f < 32 * |words|
  {
    WordBit(words[f / 32], f % 32)
  }

  function WordCount(count: nat): nat {
    (count + 31) / 32
  }

  function ClearBitmap(count: nat): (r: seq<uint32>)
    ensures |r| == WordCount(count) && count <= 32 * |r|
  {
    seq(WordCount(count), _ => 0)
  }

  /** Or-ing a one into a clear bit adds its weight. */
  lemma {:induction false} SetWordBit(w: nat, k: nat, j: nat)
    requires !WordBit(w, k)
    ensures WordBit(w + Pow2(k), j) <==> j == k || WordBit(w, j)
    decreases k
  {
    if k == 0 {
      if j > 0 {
        assert (w + 1) / 2 == w / 2;
      }
    } else {
      assert (w + 2 * Pow2(k - 1)) / 2 == w / 2 + Pow2(k - 1);
      assert (w + 2 * Pow2(k - 1)) % 2 == w % 2;
      if j > 0 {
        SetWordBit(w / 2, k - 1, j - 1);
      }
    }
  }

  lemma {:induction false} SetWordBound(w: nat, k: nat, n: nat)
    requires !WordBit(w, k) && k < n && w < Pow2(n)
    ensures w + Pow2(k) < Pow2(n)
    decreases k
  {
    if k == 0 {
      assert Pow2(n) == 2 * Pow2(n - 1);
    } else {
      SetWordBound(w / 2, k - 1, n - 1);
      assert w / 2 + Pow2(k - 1) < Pow2(n - 1);
    }
  }

  lemma ZeroBits(k: nat)
    ensures !WordBit(0, k)
  {
  }

  lemma Pow32()
    ensures Pow2(32) == 0x1_0000_0000
  {
    assert Pow2(8) == 256;
    assert Pow2(16) == 0x1_0000;
    assert Pow2(24) == 0x100_0000;
  }

  function SetBit(words: seq<uint32>, f: nat): (r: seq<uint32>)
    requires f < 32 * |words| && !Bit(words, f)
    ensures |r| == |words|
  {
    Pow32();
    SetWordBound(words[f / 32], f % 32, 32);
    words[f / 32 := words[f / 32] + Pow2(f % 32)]
  }

  lemma SetBitEffect(words: seq<uint32>, f: nat, g: nat)
    requires f < 32 * |words| && g < 32 * |words| && !Bit(words, f)
    ensures Bit(SetBit(words, f), g) <==> g == f || Bit(words, g)
  {
    if f / 32 == g / 32 {
      SetWordBit(words[f / 32], f % 32, g % 32);
    }
  }

  /** How many of the first `count` flags are still clear. */
  function ClearCount(words: seq<uint32>, count: nat): (r: nat)
    requires count <= 32 * |words|
    ensures r <= count
  {
    if count == 0 then 0
    else ClearCount(words, count - 1) + (if Bit(words, count - 1) then 0 else 1)
  }

  lemma {:induction false} ClearCountSet(words: seq<uint32>, f: nat, count: nat)
    requires f < 32 * |words| && count <= 32 * |words| && !Bit(words, f)
    ensures ClearCount(SetBit(words, f), count) == ClearCount(words, count) - (if f < count then 1 else 0)
  {
    if count > 0 {
      ClearCountSet(words, f, count - 1);
      SetBitEffect(words, f, count - 1);
    }
  }

  lemma {:induction false} ClearCountZero(words: seq<uint32>, count: nat)
    requires count <= 32 * |words|
    ensures ClearCount(words, count) == 0 <==> forall f: nat :: f < count ==> Bit(words, f)
  {
    if count > 0 {
      ClearCountZero(words, count - 1);
    }
  }

  lemma {:induction false} ClearCountFresh(count: nat, n: nat)
    requires n <= count
    ensures ClearCount(ClearBitmap(count), n) == n
  {
    if n > 0 {
      ClearCountFresh(count, n - 1);
      ZeroBits((n - 1) % 32);
    }
  }
}
