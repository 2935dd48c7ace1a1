/** The compressed format of gekkota_lzf.c, as a decoder over byte sequences.
    Everything the compressor and the decompressor promise is stated against it. */
module LzfFormat {
  import opened Words
  import opened Wrappers

  const MAX_LITERAL := 32
  const MAX_OFFSET := 8192
  const MAX_REFERENCE := 264
  // The length trailer: a 32-bit number in network byte order.
  const TRAILER := 4

  /** `out` followed by `n` more bytes, copied one at a time from position `from`;
      the copy may run over bytes it has itself written. */
  function Replicate(out: seq<byte>, from: nat, n: nat): (r: seq<byte>)
    requires from < |out|
    ensures |r| == |out| + n && out <= r
    decreases n
  {
    if n == 0 then out else Replicate(out + [out[from]], from + 1, n - 1)
  }

  /** One token at the front of `enc`: how many bytes it takes and the output
      after it. None when the token is cut short or points before the output. */
  function DecodeToken(enc: seq<byte>, out: seq<byte>): (r: Option<(nat, seq<byte>)>)
    requires enc != []
    ensures r.Some? ==> 0 < r.value.0 <= |enc| && |out| < |r.value.1| && out <= r.value.1
  {
    var value := enc[0];
    if value < MAX_LITERAL then
      if |enc| < value + 2 then None else Some((value + 2, out + enc[1..value + 2]))
    else
      var size := if value / 32 == 7 then 3 else 2;
      if |enc| < size then None else
      var length := value / 32 + (if size == 3 then enc[1] else 0);
      var reference := |out| - value % 32 * 256 - 1 - enc[size - 1];
      if reference < 0 then None else Some((size, Replicate(out, reference, length + 2)))
  }

  /** The meaning of a whole token stream that continues the output `out`. */
  function Decode(enc: seq<byte>, out: seq<byte>): (r: Option<seq<byte>>)
    decreases |enc|
  {
    if enc == [] then Some(out)
    else
      match DecodeToken(enc, out)
      case None => None
      case Some((size, out')) => Decode(enc[size..], out')
  }

  /** What the decompressor's loop does with input `enc` and a buffer of `n`
      bytes: at least one token, until the buffer is full or the input is used
      up. None when it would read or write outside its buffers. */
  function InflateRun(enc: seq<byte>, out: seq<byte>, n: nat): (r: Option<seq<byte>>)
    ensures r.Some? ==> |r.value| <= n && out <= r.value
    decreases |enc|
  {
    if enc == [] then None
    else
      match DecodeToken(enc, out)
      case None => None
      case Some((size, out')) =>
        if |out'| > n then None
        else if |out'| < n && size < |enc| then InflateRun(enc[size..], out', n)
        else Some(out')
  }

  function BigEndian(n: nat): (r: seq<byte>)
    requires n < 0x1_0000_0000
    ensures |r| == TRAILER
  {
    [n / 0x100_0000, n / 0x1_0000 % 256, n / 256 % 256, n % 256]
  }

  /** The original length as read back from the trailer, as a signed 32-bit number. */
  function InflatedLength(enc: seq<byte>): (r: Result<int>)
  {
    if enc == [] then Err(ZeroLengthBuffer)
    else if |enc| < TRAILER + 1 then Err(BufferTooSmall)
    else
      var t := enc[|enc| - TRAILER..];
      var a: int, b: int, c: int, d: int := t[0], t[1], t[2], t[3];
      var n := a * 0x100_0000 + b * 0x1_0000 + c * 0x100 + d;
      Ok(if n < 0x8000_0000 then n else n - 0x1_0000_0000)
  }

  /** The size the library computes for the output buffer. */
  function MaxDeflatedLength(n: nat): (r: nat)
  {
    (1001 * n + 999) / 1000 + 12
  }

  /** The most the compressor can write for `n` bytes, trailer included. */
  function WorstLength(n: nat): nat
  {
    n + (n + MAX_LITERAL - 1) / MAX_LITERAL + TRAILER
  }

  predicate SameTriple(s: seq<byte>, p: nat, q: nat)
    requires p + 2 < |s| && q + 2 < |s|
  {
    s[p] == s[q] && s[p + 1] == s[q + 1] && s[p + 2] == s[q + 2]
  }

  /** No three bytes occur twice within the reach of a back reference. */
  ghost predicate Incompressible(s: seq<byte>)
  {
    forall p: nat, q: nat {:trigger SameTriple(s, p, q)} ::
      p < q && q + 2 < |s| && q - p <= MAX_OFFSET ==> !SameTriple(s, p, q)
  }

  // ---------------------------------------------------------------- lemmas

  /** Bytes after a complete token do not change what it decodes to. */
  lemma DecodeTokenPrefix(a: seq<byte>, b: seq<byte>, out: seq<byte>)
    requires a != [] && DecodeToken(a, out).Some?
    ensures DecodeToken(a + b, out) == DecodeToken(a, out)
  {
    var value := a[0];
    if value < MAX_LITERAL {
      assert (a + b)[1..value + 2] == a[1..value + 2];
    }
  }

  /** A token appended to a decodable stream continues its output. */
  lemma {:induction false} DecodeAppend(a: seq<byte>, token: seq<byte>, out: seq<byte>)
    requires Decode(a, out).Some? && token != []
    requires DecodeToken(token, Decode(a, out).value).Some?
    requires DecodeToken(token, Decode(a, out).value).value.0 == |token|
    ensures Decode(a + token, out) == Some(DecodeToken(token, Decode(a, out).value).value.1)
    decreases |a|
  {
    if a == [] {
      assert a + token == token;
      assert token[|token|..] == [];
    } else {
      var (size, out') := DecodeToken(a, out).value;
      DecodeTokenPrefix(a, token, out);
      assert (a + token)[size..] == a[size..] + token;
      DecodeAppend(a[size..], token, out');
    }
  }

  /** Copying from `distance` bytes back reproduces the source wherever the
      source repeats itself at that distance, also when the ranges overlap. */
  lemma {:induction false} ReplicateMatch(s: seq<byte>, distance: nat, i: nat, n: nat)
    requires 0 < distance <= i && i + n <= |s|
    requires s[i - distance..i - distance + n] == s[i..i + n]
    ensures Replicate(s[..i], i - distance, n) == s[..i + n]
    decreases n
  {
    if n > 0 {
      assert s[i - distance..i - distance + n][0] == s[i..i + n][0];
      assert s[..i] + [s[..i][i - distance]] == s[..i + 1];
      assert s[i + 1 - distance..i - distance + n] == s[i - distance..i - distance + n][1..];
      assert s[i + 1..i + n] == s[i..i + n][1..];
      ReplicateMatch(s, distance, i + 1, n - 1);
    }
  }

  /** A literal token stands for the bytes it carries. */
  lemma LiteralToken(s: seq<byte>, i: nat, count: nat)
    requires 0 < count <= MAX_LITERAL && i + count <= |s|
    ensures DecodeToken([count - 1] + s[i..i + count], s[..i]) == Some((count + 1, s[..i + count]))
  {
    var token: seq<byte> := [count - 1] + s[i..i + count];
    assert token[1..count + 1] == s[i..i + count];
    assert s[..i] + s[i..i + count] == s[..i + count];
  }

  /** The two- or three-byte reference token for `length` bytes at distance `offset + 1`. */
  function ReferenceToken(offset: nat, length: nat): (r: seq<byte>)
    requires offset < MAX_OFFSET && 3 <= length <= MAX_REFERENCE
    ensures |r| == if length < 9 then 2 else 3
  {
    if length < 9 then [offset / 256 + (length - 2) * 32, offset % 256]
    else [offset / 256 + 7 * 32, length - 9, offset % 256]
  }

  lemma ReferenceTokenFields(offset: nat, length: nat)
    requires offset < MAX_OFFSET && 3 <= length <= MAX_REFERENCE
    ensures var t := ReferenceToken(offset, length);
            && t[0] / 32 == (if length < 9 then length - 2 else 7)
            && t[0] % 32 * 256 + t[|t| - 1] as int == offset
            && (length >= 9 ==> t[1] == length - 9)
  {
    var high, field := offset / 256, if length < 9 then length - 2 else 7;
    var first: int := ReferenceToken(offset, length)[0];
    assert first == high + field * 32;
    assert first / 32 == field && first % 32 == high;
  }

  /** A reference token stands for the bytes the match covers. */
  lemma ReferenceTokenDecodes(s: seq<byte>, distance: nat, i: nat, length: nat)
    requires 0 < distance <= i && distance <= MAX_OFFSET
    requires 3 <= length <= MAX_REFERENCE && i + length <= |s|
    requires s[i - distance..i - distance + length] == s[i..i + length]
    ensures var token := ReferenceToken(distance - 1, length);
            DecodeToken(token, s[..i]) == Some((|token|, s[..i + length]))
  {
    ReferenceTokenFields(distance - 1, length);
    hide ReferenceToken;
    ReplicateMatch(s, distance, i, length);
  }

  /** Round trip on the format: a stream that decodes to `s`, followed by any
      trailer, makes the decompressor's loop fill a buffer of exactly |s| bytes
      with `s` and stop there. */
  lemma {:induction false} InflateRunDecodes(enc: seq<byte>, trailer: seq<byte>, out: seq<byte>, s: seq<byte>)
    requires enc != [] && Decode(enc, out) == Some(s)
    ensures InflateRun(enc + trailer, out, |s|) == Some(s)
    decreases |enc|
  {
    var (size, out') := DecodeToken(enc, out).value;
    DecodeTokenPrefix(enc, trailer, out);
    assert (enc + trailer)[size..] == enc[size..] + trailer;
    if enc[size..] != [] {
      DecodeGrows(enc[size..], out');
      InflateRunDecodes(enc[size..], trailer, out', s);
    }
  }

  /** Decoding a non-empty stream always adds to the output. */
  lemma {:induction false} DecodeGrows(enc: seq<byte>, out: seq<byte>)
    requires Decode(enc, out).Some?
    ensures out <= Decode(enc, out).value
    ensures enc != [] ==> |out| < |Decode(enc, out).value|
    decreases |enc|
  {
    if enc != [] {
      var (size, out') := DecodeToken(enc, out).value;
      DecodeGrows(enc[size..], out');
    }
  }

  /** The trailer reads back as the length it was written for. */
  lemma TrailerRoundTrip(enc: seq<byte>, n: nat)
    requires n < 0x8000_0000 && enc != []
    ensures InflatedLength(enc + BigEndian(n)) == Ok(n)
  {
    Digits(n);
    hide BigEndian;
    var t := BigEndian(n);
    assert (enc + t)[|enc + t| - TRAILER..] == t;
  }

  lemma Digits(n: nat)
    requires n < 0x8000_0000
    ensures var t := BigEndian(n);
            var a: int, b: int, c: int, d: int := t[0], t[1], t[2], t[3];
            n == a * 0x100_0000 + b * 0x1_0000 + c * 0x100 + d
  {
    var x := n / 256;
    var y := n / 0x1_0000;
    assert n == 256 * x + n % 256;
    assert x == 256 * y + x % 256;
    assert y == 256 * (n / 0x100_0000) + y % 256;
  }

  // ------------------------------------------- the library's buffer size

  /** An input on which no back reference is ever found, of any length. */
  function Stubborn(k: nat): (b: byte)
  {
    if k % 3 == 0 then k / 3 % 64
    else if k % 3 == 1 then 64 + k / 3 / 64 % 64
    else 128
  }

  lemma StubbornIncompressible(n: nat)
    ensures Incompressible(seq(n, k requires 0 <= k => Stubborn(k)))
  {
    var s := seq(n, k requires 0 <= k => Stubborn(k));
    forall p: nat, q: nat | p < q && q + 2 < |s| && q - p <= MAX_OFFSET
      ensures !SameTriple(s, p, q)
    {
      StubbornTriple(p, q);
    }
  }

  lemma GroupsDiffer(x: nat, y: nat)
    requires x < y <= x + 2731
    ensures x % 64 != y % 64 || x / 64 % 64 != y / 64 % 64
  {
    if x % 64 == y % 64 {
      assert y / 64 - x / 64 == (y - x) / 64;
    }
  }

  lemma NextGroup(x: nat, y: nat)
    requires (x + 1) % 64 == (y + 1) % 64
    ensures x % 64 == y % 64
  {
    NextInGroup(x);
    NextInGroup(y);
  }

  lemma NextInGroup(x: nat)
    ensures (x + 1) % 64 == if x % 64 == 63 then 0 else x % 64 + 1
  {
    var d, m := x / 64, x % 64;
    assert x == 64 * d + m;
    if m == 63 {
      assert x + 1 == 64 * (d + 1);
    } else {
      assert x + 1 == 64 * d + (m + 1);
    }
  }

  lemma StubbornGroup(x: nat)
    ensures Stubborn(3 * x) == x % 64
    ensures Stubborn(3 * x + 1) == 64 + x / 64 % 64
    ensures Stubborn(3 * x + 2) == 128
  {
    assert (3 * x) / 3 == x && (3 * x + 1) / 3 == x;
  }

  lemma StubbornPhase(p: nat)
    ensures Stubborn(p) < 64 <==> p % 3 == 0
    ensures 64 <= Stubborn(p) < 128 <==> p % 3 == 1
  {
  }

  predicate SameStubborn(p: nat, q: nat) {
    Stubborn(p) == Stubborn(q) && Stubborn(p + 1) == Stubborn(q + 1) && Stubborn(p + 2) == Stubborn(q + 2)
  }

  /** Three bytes at the same phase of two nearby groups are not all the same. */
  lemma SamePhase0(x: nat, y: nat)
    requires x < y <= x + 2731
    ensures !SameStubborn(3 * x, 3 * y)
  {
    StubbornGroup(x);
    StubbornGroup(y);
    GroupsDiffer(x, y);
  }

  lemma SamePhase1(x: nat, y: nat)
    requires x < y <= x + 2731
    ensures !SameStubborn(3 * x + 1, 3 * y + 1)
  {
    StubbornGroup(x);
    StubbornGroup(y);
    StubbornGroup(x + 1);
    StubbornGroup(y + 1);
    if (x + 1) % 64 == (y + 1) % 64 {
      NextGroup(x, y);
    }
    GroupsDiffer(x, y);
    assert 3 * (x + 1) == 3 * x + 3 && 3 * (y + 1) == 3 * y + 3;
  }

  lemma SamePhase2(x: nat, y: nat)
    requires x < y <= x + 2731
    ensures !SameStubborn(3 * x + 2, 3 * y + 2)
  {
    StubbornGroup(x + 1);
    StubbornGroup(y + 1);
    GroupsDiffer(x + 1, y + 1);
    assert 3 * (x + 1) == 3 * x + 3 && 3 * (y + 1) == 3 * y + 3;
  }

  lemma StubbornTriple(p: nat, q: nat)
    requires p < q && q - p <= MAX_OFFSET
    ensures !SameStubborn(p, q)
  {
    StubbornPhase(p);
    StubbornPhase(q);
    if p % 3 == q % 3 {
      var x, y := p / 3, q / 3;
      assert p == 3 * x + p % 3 && q == 3 * y + p % 3;
      if p % 3 == 0 { SamePhase0(x, y); } else if p % 3 == 1 { SamePhase1(x, y); } else { SamePhase2(x, y); }
    }
  }

  /** The library's size formula is large enough for every input of length n
      exactly when n is at most 288; beyond that an incompressible input, which
      the compressor turns into WorstLength(n) bytes, does not fit. */
  lemma LibrarySizeSuffices(n: nat)
    requires n >= 2
    ensures WorstLength(n) <= MaxDeflatedLength(n) <==> n <= 288
    ensures n > 288 ==>
      exists s: seq<byte> :: |s| == n && Incompressible(s) && MaxDeflatedLength(|s|) < WorstLength(|s|)
  {
    if n > 288 {
      StubbornIncompressible(n);
      var s := seq(n, k requires 0 <= k => Stubborn(k));
      assert |s| == n;
    }
  }
}
