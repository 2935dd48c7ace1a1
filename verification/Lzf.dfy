/** The compressor and the decompressor of gekkota_lzf.c over byte arrays. */
module Lzf {
  import opened Words
  import opened Wrappers
  import opened LzfFormat
  import opened LzfGreedy

  const FASTEST := 13
  const BEST := 18

  /** 1 << level, for the levels the library accepts. */
  function TableLength(level: int): nat
    requires FASTEST <= level <= BEST
  {
    [8192, 16384, 32768, 65536, 131072, 262144][level - FASTEST]
  }

  class Compressor {
    var hashTable: array<int>
    // The table index computed from a rolling value: any function into the table.
    const index: int -> int

    ghost predicate Valid()
      reads this
    {
      forall v :: 0 <= index(v) < hashTable.Length
    }

    constructor (level: int, index: int -> int)
      requires FASTEST <= level <= BEST
      requires forall v :: 0 <= index(v) < TableLength(level)
      ensures Valid() && fresh(hashTable) && this.index == index
    {
      this.index := index;
      hashTable := new int[TableLength(level)];
    }

    /** Every table entry is an earlier position, or zero. */
    ghost predicate TableBelow(i: nat)
      reads this, hashTable
    {
      forall k :: 0 <= k < hashTable.Length ==> 0 <= hashTable[k] && (hashTable[k] == 0 || hashTable[k] < i)
    }

    /** deflated[..j] is a complete token stream for source[..i]. */
    ghost predicate Written(source: array<byte>, deflated: array<byte>, i: nat, j: nat)
      reads source, deflated
    {
      i <= source.Length && j <= deflated.Length && Decode(deflated[..j], []) == Some(source[..i])
    }

    /** The last `literal` bytes before i are pending, the others written within the budget. */
    ghost predicate Ready(source: array<byte>, deflated: array<byte>, i: nat, literal: nat, j: nat)
      reads source, deflated
    {
      && literal <= i && literal < MAX_LITERAL
      && Written(source, deflated, i - literal, j) && 32 * j <= 33 * (i - literal)
    }

    /** source[i..i + length] repeats what stands `distance` bytes before it. */
    ghost predicate Matches(source: array<byte>, i: nat, distance: nat, length: nat)
      reads source
    {
      && 0 < distance <= i && i + length <= source.Length
      && source[..][i - distance..i - distance + length] == source[..][i..i + length]
    }

    /** Writes the pending literals source[i - literal..i] as one token at deflated[j..]. */
    method EmitLiterals(source: array<byte>, deflated: array<byte>, i: nat, literal: nat, j: nat)
      returns (j': nat)
      requires source != deflated && 0 < literal <= MAX_LITERAL && literal <= i <= source.Length
      requires j + literal + 1 <= deflated.Length
      modifies deflated
      ensures j' == j + literal + 1
      ensures deflated[..j'] == old(deflated[..j]) + ([literal - 1] + source[i - literal..i])
    {
      deflated[j] := literal - 1;
      j' := j + 1;
      var k := 0 - literal;
      while k != 0
        invariant 0 - literal <= k <= 0 && j' == j + 1 + literal + k
        invariant deflated[..j] == old(deflated[..j]) && deflated[j] == literal - 1
        invariant deflated[j + 1..j'] == source[i - literal..i + k]
      {
        deflated[j'] := source[i + k];
        j', k := j' + 1, k + 1;
      }
      assert deflated[..j'] == deflated[..j] + ([deflated[j]] + deflated[j + 1..j']);
    }

    /** Pending literals turned into a token bring the written stream up to position i. */
    method FlushLiterals(source: array<byte>, deflated: array<byte>, i: nat, literal: nat, j: nat)
      returns (j': nat)
      requires source != deflated && 0 < literal <= MAX_LITERAL && literal <= i
      requires j + literal + 1 <= deflated.Length && i <= source.Length && Written(source, deflated, i - literal, j)
      modifies deflated
      ensures j' == j + literal + 1 && Written(source, deflated, i, j')
      ensures deflated[..j'] == old(deflated[..j]) + Pending(source[..], i, literal)
    {
      ghost var s, enc := source[..], deflated[..j];
      assert s[..i - literal] == source[..i - literal];
      LiteralAppended(s, enc, i, literal);
      j' := EmitLiterals(source, deflated, i, literal, j);
      assert s[i - literal..i] == source[i - literal..i] && s[..i] == source[..i];
    }

    /** The pending literals, if there are any. */
    method FlushPending(source: array<byte>, deflated: array<byte>, i: nat, literal: nat, j: nat)
      returns (j': nat)
      requires source != deflated && i <= source.Length && j + literal + 1 <= deflated.Length && Ready(source, deflated, i, literal, j)
      modifies deflated
      ensures j' == (if literal == 0 then j else j + literal + 1) && Written(source, deflated, i, j')
      ensures deflated[..j'] == old(deflated[..j]) + Pending(source[..], i, literal)
    {
      hide Written, Pending;
      j' := j;
      if literal != 0 {
        j' := FlushLiterals(source, deflated, i, literal, j);
      } else {
        PendingNone(source[..], i);
        assert deflated[..j] + [] == deflated[..j];
      }
    }

    /** Writes one back reference at deflated[j..]. */
    method EmitReference(deflated: array<byte>, j: nat, offset: nat, length: nat) returns (j': nat)
      requires offset < MAX_OFFSET && 3 <= length <= MAX_REFERENCE
      requires j + (if length < 9 then 2 else 3) <= deflated.Length
      modifies deflated
      ensures j' == j + |ReferenceToken(offset, length)|
      ensures deflated[..j'] == old(deflated[..j]) + ReferenceToken(offset, length)
    {
      j' := j;
      if length - 2 < 7 {
        deflated[j'] := offset / 256 + (length - 2) * 32;
        j' := j' + 1;
      } else {
        deflated[j'] := offset / 256 + 7 * 32;
        j' := j' + 1;
        deflated[j'] := length - 2 - 7;
        j' := j' + 1;
      }
      deflated[j'] := offset % 256;
      j' := j' + 1;
    }

    /** A match written as a back reference extends the written stream over it. */
    method WriteReference(source: array<byte>, deflated: array<byte>, i: nat, distance: nat, length: nat, j: nat)
      returns (j': nat)
      requires source != deflated && distance <= MAX_OFFSET && 3 <= length <= MAX_REFERENCE
      requires Matches(source, i, distance, length)
      requires j + (if length < 9 then 2 else 3) <= deflated.Length && Written(source, deflated, i, j)
      modifies deflated
      ensures j' == j + (if length < 9 then 2 else 3) && Written(source, deflated, i + length, j')
      ensures deflated[..j'] == old(deflated[..j]) + ReferenceToken(distance - 1, length)
    {
      ghost var s, enc := source[..], deflated[..j];
      assert s[..i] == source[..i];
      ReferenceAppended(s, enc, i, distance, length);
      j' := EmitReference(deflated, j, distance - 1, length);
      assert s[..i + length] == source[..i + length];
    }

    /** The length of the match between source[reference..] and source[i..],
        whose first three bytes are known to agree. */
    method ExtendMatch(source: array<byte>, reference: nat, i: nat) returns (length: nat)
      requires reference < i && i + 4 < source.Length
      requires SameTriple(source[..], reference, i)
      ensures 3 <= length <= MAX_REFERENCE && i + length + 2 <= source.Length
      ensures Matches(source, i, i - reference, length)
      ensures length == MAX_REFERENCE || i + length + 2 == source.Length
              || source[reference + length] != source[i + length]
      ensures length == Extended(source[..], reference, i, 3)
    {
      var maxLength := source.Length - i - 2;
      if maxLength > MAX_REFERENCE {
        maxLength := MAX_REFERENCE;
      }
      length := 3;
      while length < maxLength && source[reference + length] == source[i + length]
        invariant 3 <= length <= maxLength
        invariant source[reference..reference + length] == source[i..i + length]
        invariant Extended(source[..], reference, i, length) == Extended(source[..], reference, i, 3)
      {
        length := length + 1;
      }
      assert source[..][reference..reference + length] == source[reference..reference + length];
      assert source[..][i..i + length] == source[i..i + length];
    }

    /** Writes the pending literals, if any, and then the match at position i. */
    method EmitMatch(source: array<byte>, deflated: array<byte>, reference: nat, i: nat, literal: nat, j: nat)
      returns (i': nat, j': nat)
      requires source != deflated && WorstLength(source.Length) <= deflated.Length
      requires Usable(source[..], reference, i) && Ready(source, deflated, i, literal, j)
      modifies deflated
      ensures i + 3 <= i' <= source.Length - 2 && Ready(source, deflated, i', 0, j')
      ensures i' == i + Extended(source[..], reference, i, 3) && i' - i <= MAX_REFERENCE
      ensures deflated[..j'] == old(deflated[..j]) + MatchTokens(source[..], i, literal, reference)
    {
      hide Written, Extended, ReferenceToken, Pending;
      var length := ExtendMatch(source, reference, i);
      hide Matches;
      hide SameTriple;
      hide WorstLength;
      assert j + literal + 4 <= deflated.Length by {
        RoomForMatch(source.Length, i, literal, j);
      }
      ghost var out, flushed := deflated[..j], Pending(source[..], i, literal);
      j' := FlushPending(source, deflated, i, literal, j);
      j' := WriteReference(source, deflated, i, i - reference, length, j');
      i' := i + length;
      assert out + flushed + ReferenceToken(i - reference - 1, length) == out + (flushed + ReferenceToken(i - reference - 1, length));
    }

    /** Enters the last two positions of a match in the table. */
    method Rehash(source: array<byte>, i': nat) returns (value: int)
      requires Valid() && source.Length >= i' + 2 && i' >= 3 && TableBelow(i' - 2)
      modifies hashTable
      ensures TableBelow(i')
      ensures (hashTable[..], value) == Entered(source[..], old(hashTable[..]), i', index)
    {
      hide Next, First;
      var i := i' - 2;
      value := First(source[..], i);
      value := Next(value, source[..], i);
      hashTable[index(value)] := i;
      i := i + 1;
      value := Next(value, source[..], i);
      hashTable[index(value)] := i;
    }

    /** Compresses `source`. On success the output decodes back to the source,
        ends with the source length, and is within the worst case; on an
        incompressible source it is exactly the worst case. A buffer the size
        check lets through must really be large enough: that is the caller's part. */
    method Deflate(source: array<byte>, deflated: array<byte>) returns (r: Result<nat>)
      requires Valid()
      requires source != deflated && source.Length < 0x8000_0000
      // the first rolling value reads two bytes
      requires source.Length != 1
      requires MaxDeflatedLength(source.Length) <= deflated.Length ==> WorstLength(source.Length) <= deflated.Length
      modifies deflated, hashTable
      ensures r.Ok? <==> source.Length > 0 && MaxDeflatedLength(source.Length) <= deflated.Length
      ensures deflated.Length == 0 ==> r == Err(ZeroLengthBuffer)
      ensures r.Ok? ==> TRAILER < r.value <= WorstLength(source.Length) <= deflated.Length
      ensures r.Ok? ==> Decode(deflated[..r.value - TRAILER], []) == Some(source[..])
      ensures r.Ok? ==> deflated[..r.value - TRAILER] == Tokens(source[..], index, hashTable.Length)
      ensures r.Ok? ==> deflated[r.value - TRAILER..r.value] == BigEndian(source.Length)
      ensures r.Ok? && Incompressible(source[..]) ==> r.value == WorstLength(source.Length)
    {
      if deflated.Length == 0 {
        return Err(ZeroLengthBuffer);
      }
      if source.Length == 0 || deflated.Length < MaxDeflatedLength(source.Length) {
        return Err(BufferTooSmall);
      }
      hide Decode, Incompressible, WorstLength, MaxDeflatedLength, Tokens;
      var j := WriteStream(source, deflated);
      r := Ok(j + TRAILER);
    }

    /** The tokens and the trailer. */
    method WriteStream(source: array<byte>, deflated: array<byte>) returns (j: nat)
      requires Valid() && source != deflated && 2 <= source.Length < 0x8000_0000
      requires WorstLength(source.Length) <= deflated.Length
      modifies deflated, hashTable
      ensures 0 < j && j + TRAILER <= WorstLength(source.Length) <= deflated.Length
      ensures Decode(deflated[..j], []) == Some(source[..]) && deflated[..j] == Tokens(source[..], index, hashTable.Length)
      ensures deflated[j..j + TRAILER] == BigEndian(source.Length)
      ensures Incompressible(source[..]) ==> j + TRAILER == WorstLength(source.Length)
    {
      j := DeflateTokens(source, deflated);
      assert source[..source.Length] == source[..];
      assert deflated[..j] != [] by { assert Decode([], []) == Some([]); }
      hide Decode, Incompressible, WorstLength, Tokens;
      PutTrailer(source, deflated, j);
    }

    method PutTrailer(source: array<byte>, deflated: array<byte>, j: nat)
      requires source != deflated && source.Length < 0x8000_0000 && j + TRAILER <= deflated.Length
      modifies deflated
      ensures deflated[..j] == old(deflated[..j]) && deflated[j..j + TRAILER] == BigEndian(source.Length)
    {
      var t := BigEndian(source.Length);
      deflated[j], deflated[j + 1], deflated[j + 2], deflated[j + 3] := t[0], t[1], t[2], t[3];
    }

    /** Reads the next byte into the rolling value and swaps position i into the
        table entry it selects. */
    method Lookup(source: array<byte>, i: nat, value: int) returns (value': int, reference: nat)
      requires Valid() && TableBelow(i) && i + 2 < source.Length
      modifies hashTable
      ensures (forall k :: i < k ==> TableBelow(k)) && (reference == 0 || reference < i)
      ensures value' == Next(value, source[..], i) && reference == old(hashTable[..])[index(value')]
      ensures hashTable[..] == old(hashTable[..])[index(value') := i]
    {
      value' := Next(value, source[..], i);
      var k := index(value');
      reference := hashTable[k];
      hashTable[k] := i;
    }

    /** Looks position i up in the table and writes the match there, if there is
        one, together with the literals before it. */
    method TryMatch(source: array<byte>, deflated: array<byte>, i: nat, literal: nat, j: nat, value: int)
      returns (found: bool, i': nat, j': nat, value': int)
      requires Valid() && TableBelow(i) && i + 2 < source.Length
      requires source != deflated && WorstLength(source.Length) <= deflated.Length
      requires Ready(source, deflated, i, literal, j)
      modifies deflated, hashTable
      ensures if found then i < i' <= source.Length && Ready(source, deflated, i', 0, j') && TableBelow(i')
              else i' == i && j' == j && Ready(source, deflated, i, literal, j) && TableBelow(i + 1)
      ensures found ==> !Incompressible(source[..])
      ensures found <==> Usable(source[..], old(hashTable[..])[index(Next(value, source[..], i))], i)
      ensures var st := State(i, literal, value, old(hashTable[..]), old(deflated[..j]));
              Good(source[..], st, index)
              && if found then State(i', 0, value', hashTable[..], deflated[..j']) == Step(source[..], st, index)
                 else value' == Next(value, source[..], i) && hashTable[..] == old(hashTable[..])[index(value') := i]
                      && deflated[..j'] == old(deflated[..j])
    {
      hide Written, First, TableBelow, Next;
      ghost var s, st := source[..], State(i, literal, value, hashTable[..], deflated[..j]);
      assert Good(s, st, index);
      var reference;
      value', reference := Lookup(source, i, value);
      i', j' := i, j;
      var offset := i - reference - 1;
      found := offset < MAX_OFFSET && i + 4 < source.Length && reference > 0 && SameTriple(source[..], reference, i);
      if found {
        FollowStep(s, st, index);
        hide SameTriple, Step, Extended, Pending, Incompressible, Match;
        i', j', value' := FollowMatch(source, deflated, reference, i, literal, j, value');
      }
    }

    /** Writes the match found and enters its last two positions. */
    method FollowMatch(source: array<byte>, deflated: array<byte>, reference: nat, i: nat, literal: nat, j: nat, ghost value: int)
      returns (i': nat, j': nat, value': int)
      requires source != deflated && WorstLength(source.Length) <= deflated.Length
      requires Valid() && TableBelow(i + 1) && Usable(source[..], reference, i)
      requires Ready(source, deflated, i, literal, j)
      modifies deflated, hashTable
      ensures i < i' <= source.Length && Ready(source, deflated, i', 0, j') && TableBelow(i')
      ensures !Incompressible(source[..])
      ensures var st := State(i, literal, value, old(hashTable[..]), old(deflated[..j]));
              Good(source[..], st, index)
              && State(i', 0, value', hashTable[..], deflated[..j']) == Match(source[..], st, index, reference)
    {
      ghost var s, st := source[..], State(i, literal, value, hashTable[..], deflated[..j]);
      assert Good(s, st, index) && !Incompressible(s);
      assert hashTable as object != deflated && hashTable as object != source;
      hide Written, Incompressible, First, Next, Extended, MatchTokens, Entered, SameTriple, WorstLength, Good;
      i', j' := EmitMatch(source, deflated, reference, i, literal, j);
      assert TableBelow(i' - 2);
      hide TableBelow;
      value' := Rehash(source, i');
    }

    method ClearTable()
      modifies hashTable
      ensures TableBelow(0) && hashTable[..] == seq(hashTable.Length, _ => 0)
    {
      forall k | 0 <= k < hashTable.Length {
        hashTable[k] := 0;
      }
    }

    /** Adds position i to the pending literals; a full run of 32 is written out. */
    method TakeLiteral(source: array<byte>, deflated: array<byte>, i: nat, literal: nat, j: nat, ghost v: int, ghost t: seq<int>)
      returns (literal': nat, j': nat)
      requires source != deflated && i < source.Length && WorstLength(source.Length) <= deflated.Length
      requires Ready(source, deflated, i, literal, j)
      modifies deflated
      ensures if literal == MAX_LITERAL - 1 then literal' == 0 && j' == j + 33 else literal' == literal + 1 && j' == j
      ensures literal <= i && literal < MAX_LITERAL && j <= deflated.Length && Ready(source, deflated, i + 1, literal', j')
      ensures Lit(source[..], State(i, literal, v, t, old(deflated[..j]))) == State(i + 1, literal', v, t, deflated[..j'])
    {
      hide Written, Pending;
      literal', j' := literal + 1, j;
      if literal' == MAX_LITERAL {
        j' := FlushLiterals(source, deflated, i + 1, literal', j);
        literal' := 0;
      }
    }

    /** One round of the compression loop: a match, or one more literal. */
    method Advance(source: array<byte>, deflated: array<byte>, i: nat, literal: nat, j: nat, value: int)
      returns (i': nat, literal': nat, j': nat, value': int)
      requires Valid() && TableBelow(i) && i < source.Length && source != deflated && WorstLength(source.Length) <= deflated.Length
      requires Ready(source, deflated, i, literal, j)
      modifies deflated, hashTable
      ensures i < i' <= source.Length && Ready(source, deflated, i', literal', j') && TableBelow(i')
      ensures Full(source[..], i, literal, j) ==> Full(source[..], i', literal', j')
      ensures Stepped(source[..], State(i, literal, value, old(hashTable[..]), old(deflated[..j])), index,
                      State(i', literal', value', hashTable[..], deflated[..j']))
    {
      assert hashTable as object != deflated && hashTable as object != source;
      hide Ready, Incompressible, Full, TableBelow, First, Next, Step, Lit, Pending, Usable;
      ghost var s, st := source[..], State(i, literal, value, hashTable[..], deflated[..j]);
      assert Good(s, st, index);
      i', j', value' := i, j, value;
      assert TableBelow(i + 1) by { BelowNext(i); }
      if i < source.Length - 2 {
        var found;
        found, i', j', value' := TryMatch(source, deflated, i, literal, j, value);
        if found {
          literal' := 0;
          FullAnyway(source[..], i', 0, j');
          return;
        }
        PassStep(s, st, index);
      } else {
        EndStep(s, st, index);
      }
      hide Good, WorstLength;
      literal', j' := TakeLiteral(source, deflated, i, literal, j, value', hashTable[..]);
      i' := i + 1;
      FullNext(source[..], i, literal, j);
    }

    /** Nothing has been saved on an incompressible source. */
    ghost predicate Full(s: seq<byte>, i: nat, literal: nat, j: nat) {
      Incompressible(s) ==> 32 * j == 33 * (i - literal)
    }

    lemma FullAnyway(s: seq<byte>, i: nat, literal: nat, j: nat)
      requires !Incompressible(s)
      ensures Full(s, i, literal, j)
    {
    }

    lemma FullNext(s: seq<byte>, i: nat, literal: nat, j: nat)
      requires literal < MAX_LITERAL
      ensures Full(s, i, literal, j) ==>
                if literal == MAX_LITERAL - 1 then Full(s, i + 1, 0, j + 33) else Full(s, i + 1, literal + 1, j)
    {
      hide Incompressible;
    }

    lemma BelowNext(i: nat)
      requires TableBelow(i)
      ensures TableBelow(i + 1)
    {
    }

    /** The compression loop. */
    method DeflateTokens(source: array<byte>, deflated: array<byte>) returns (j: nat)
      requires Valid() && source != deflated && source.Length >= 2
      requires WorstLength(source.Length) <= deflated.Length
      modifies deflated, hashTable
      ensures j + TRAILER <= WorstLength(source.Length)
      ensures Written(source, deflated, source.Length, j)
      ensures Incompressible(source[..]) ==> j + TRAILER == WorstLength(source.Length)
      ensures deflated[..j] == Tokens(source[..], index, hashTable.Length)
    {
      assert hashTable as object != deflated && hashTable as object != source;
      var n := source.Length;
      ClearTable();
      assert Written(source, deflated, 0, 0) by {
        assert deflated[..0] == [] && source[..0] == [];
      }
      hide Written, Incompressible, TableBelow, First, Next, Step, Run, Pending;
      var i, literal := 0, 0;
      j := 0;
      var value := First(source[..], i);
      ghost var s := source[..];
      ghost var goal := Run(s, Start(s, hashTable.Length), index);
      assert deflated[..0] == [];
      while i != n
        invariant 0 <= i <= n && 0 <= literal && Ready(source, deflated, i, literal, j) && TableBelow(i)
        invariant Full(s, i, literal, j)
        invariant source[..] == s && Good(s, State(i, literal, value, hashTable[..], deflated[..j]), index)
        invariant Run(s, State(i, literal, value, hashTable[..], deflated[..j]), index) == goal
        decreases n - i
      {
        ghost var st := State(i, literal, value, hashTable[..], deflated[..j]);
        i, literal, j, value := Advance(source, deflated, i, literal, j, value);
        RunStep(s, st, index, State(i, literal, value, hashTable[..], deflated[..j]));
      }
      RunEnd(s, State(i, literal, value, hashTable[..], deflated[..j]), index);
      PendingNone(s, i);
      assert deflated[..j] + [] == deflated[..j];
      if literal != 0 {
        j := FlushLiterals(source, deflated, i, literal, j);
      }
    }

    /** Decompresses `source` into `inflated`. A stream that the size check lets
        through must be well formed for this buffer: the loop itself checks nothing. */
    method Inflate(source: array<byte>, inflated: array<byte>) returns (r: Result<int>)
      requires source != inflated
      requires InflatedLength(source[..]).Ok? && 0 <= InflatedLength(source[..]).value <= inflated.Length && inflated.Length > 0 ==>
                 InflateRun(source[..], [], inflated.Length).Some?
      modifies inflated
      ensures r.Ok? <==> inflated.Length > 0 && InflatedLength(source[..]).Ok?
                         && 0 <= InflatedLength(source[..]).value <= inflated.Length
      ensures inflated.Length == 0 ==> r == Err(ZeroLengthBuffer)
      ensures r.Ok? ==> r == InflatedLength(old(source[..]))
      ensures r.Ok? ==> var out := InflateRun(old(source[..]), [], inflated.Length).value;
                        inflated[..] == out + old(inflated[..])[|out|..]
      ensures r.Err? ==> inflated[..] == old(inflated[..])
    {
      if inflated.Length == 0 {
        return Err(ZeroLengthBuffer);
      }
      var length := InflatedLength(source[..]);
      // a failed or negative length is a huge unsigned one
      if length.Err? || length.value < 0 || inflated.Length < length.value {
        return Err(BufferOverflow);
      }
      var j := InflateTokens(source, inflated);
      r := length;
    }

    /** The decompression loop: at least one token, until the buffer is full or
        the input is used up. */
    method InflateTokens(source: array<byte>, inflated: array<byte>) returns (j: nat)
      requires source != inflated
      requires InflateRun(source[..], [], inflated.Length).Some?
      modifies inflated
      ensures j <= inflated.Length
      ensures InflateRun(source[..], [], inflated.Length) == Some(inflated[..j])
      ensures forall k :: j <= k < inflated.Length ==> inflated[k] == old(inflated[k])
    {
      hide InflateRun, DecodeToken;
      var i := 0;
      j := 0;
      var more := true;
      ghost var enc, goal := source[..], InflateRun(source[..], [], inflated.Length);
      assert enc[0..] == enc && inflated[..0] == [];
      while more
        invariant 0 <= i <= source.Length && 0 <= j <= inflated.Length
        invariant source[..] == enc
        invariant more ==> InflateRun(enc[i..], inflated[..j], inflated.Length) == goal
        invariant !more ==> goal == Some(inflated[..j])
        invariant forall k :: j <= k < inflated.Length ==> inflated[k] == old(inflated[k])
        decreases source.Length - i, more
      {
        InflateRunStep(enc, i, inflated[..j], inflated.Length);
        assert source[i..] == enc[i..];
        i, j := InflateToken(source, inflated, i, j);
        more := j < inflated.Length && i < source.Length;
      }
    }

    /** One round of the decompression loop: the token at source[i0..]. */
    method InflateToken(source: array<byte>, inflated: array<byte>, i0: nat, j0: nat) returns (i: nat, j: nat)
      requires source != inflated && i0 < source.Length && j0 <= inflated.Length
      requires DecodeToken(source[i0..], inflated[..j0]).Some?
      requires |DecodeToken(source[i0..], inflated[..j0]).value.1| <= inflated.Length
      modifies inflated
      ensures i0 < i <= source.Length && j0 < j <= inflated.Length
      ensures DecodeToken(source[i0..], old(inflated[..j0])) == Some((i - i0, inflated[..j]))
      ensures forall k :: j <= k < inflated.Length ==> inflated[k] == old(inflated[k])
    {
      i := i0;
      var value: int := source[i];
      i := i + 1;
      if value < 32 {
        assert source[i0..][1..value + 2] == source[i..i + value + 1];
        j := CopyLiterals(source, inflated, i, j0, value + 1);
        i := i + value + 1;
      } else {
        var length := value / 32;
        var reference: int := j0 - value % 32 * 256 - 1;
        if length == 7 {
          length := length + source[i];
          i := i + 1;
        }
        reference := reference - source[i];
        i := i + 1;
        // two copies, then at least one more: length + 2 in all
        j := CopyReference(inflated, reference, j0, length + 2);
      }
    }

    method CopyLiterals(source: array<byte>, inflated: array<byte>, i: nat, j0: nat, count: nat) returns (j: nat)
      requires source != inflated && i + count <= source.Length && j0 + count <= inflated.Length
      modifies inflated
      ensures j == j0 + count
      ensures inflated[..j] == old(inflated[..j0]) + source[i..i + count]
      ensures forall k :: j <= k < inflated.Length ==> inflated[k] == old(inflated[k])
    {
      j := j0;
      for k := 0 to count
        invariant j == j0 + k
        invariant inflated[..j] == old(inflated[..j0]) + source[i..i + k]
        invariant forall k :: j <= k < inflated.Length ==> inflated[k] == old(inflated[k])
      {
        inflated[j] := source[i + k];
        j := j + 1;
      }
    }

    method CopyReference(inflated: array<byte>, reference: nat, j0: nat, count: nat) returns (j: nat)
      requires reference < j0 && j0 + count <= inflated.Length
      modifies inflated
      ensures j == j0 + count
      ensures inflated[..j] == Replicate(old(inflated[..j0]), reference, count)
      ensures forall k :: j <= k < inflated.Length ==> inflated[k] == old(inflated[k])
    {
      j := j0;
      for k := 0 to count
        invariant j == j0 + k
        invariant Replicate(inflated[..j], reference + k, count - k) == Replicate(old(inflated[..j0]), reference, count)
        invariant forall k :: j <= k < inflated.Length ==> inflated[k] == old(inflated[k])
      {
        ghost var before := inflated[..j];
        inflated[j] := inflated[reference + k];
        assert inflated[..j + 1] == before + [before[reference + k]];
        j := j + 1;
      }
    }

    /** Inflates a packet into a buffer of the length its trailer gives. */
    method InflatePacket(packet: array<byte>, ghost s: seq<byte>) returns (copy: array<byte>)
      requires InflatedLength(packet[..]) == Ok(|s|) && s != []
      requires InflateRun(packet[..], [], |s|) == Some(s)
      ensures fresh(copy) && copy[..] == s
    {
      hide InflatedLength, InflateRun;
      var length := InflatedLength(packet[..]);
      copy := new byte[length.value];
      var r := Inflate(packet, copy);
      assert copy[..] == s;
    }

    /** What the transport does with a compressed packet: deflate into a buffer,
        hand over the bytes written, and inflate them into a buffer of the length
        read from the trailer. Whatever the index function, the bytes come back. */
    method RoundTrip(source: array<byte>, deflated: array<byte>) returns (copy: array<byte>)
      requires Valid() && source != deflated
      requires 2 <= source.Length < 0x8000_0000
      requires MaxDeflatedLength(source.Length) <= deflated.Length && WorstLength(source.Length) <= deflated.Length
      modifies deflated, hashTable
      ensures fresh(copy) && copy[..] == source[..]
    {
      hide Decode, InflateRun, InflatedLength, BigEndian, Valid;
      ghost var s := source[..];
      var written := Deflate(source, deflated);
      var w := written.value;
      assert source[..] == s;
      ghost var body := deflated[..w - TRAILER];
      var packet := new byte[w](k requires 0 <= k < deflated.Length reads deflated => deflated[k]);
      assert packet[..] == deflated[..w];
      assert deflated[..w] == body + deflated[w - TRAILER..w];
      StreamRoundTrip(body, s);
      copy := InflatePacket(packet, s);
      assert source[..] == s;
    }
  }

  lemma RunEnd(s: seq<byte>, st: State, index: int -> int)
    requires Good(s, st, index) && st.i == |s|
    ensures Run(s, st, index) == st
  {
  }

  lemma PendingNone(s: seq<byte>, i: nat)
    requires i <= |s|
    ensures Pending(s, i, 0) == []
  {
  }

  /** A complete stream with its trailer inflates to what it stands for. */
  lemma StreamRoundTrip(body: seq<byte>, s: seq<byte>)
    requires Decode(body, []) == Some(s) && 0 < |s| < 0x8000_0000
    ensures InflatedLength(body + BigEndian(|s|)) == Ok(|s|)
    ensures InflateRun(body + BigEndian(|s|), [], |s|) == Some(s)
  {
    TrailerRoundTrip(body, |s|);
    InflateRunDecodes(body, BigEndian(|s|), [], s);
  }

  /** Within the budget kept by the loop there is room for the pending literals and a reference. */
  lemma RoomForMatch(n: nat, i: nat, literal: nat, j: nat)
    requires literal <= i && i + 4 < n && 32 * j <= 33 * (i - literal)
    ensures j + literal + 4 <= WorstLength(n)
  {
  }

  /** Writing a back reference extends the decoded output over the match. */
  lemma ReferenceAppended(s: seq<byte>, enc: seq<byte>, i: nat, distance: nat, length: nat)
    requires 0 < distance <= i && distance <= MAX_OFFSET
    requires 3 <= length <= MAX_REFERENCE && i + length <= |s|
    requires s[i - distance..i - distance + length] == s[i..i + length]
    requires Decode(enc, []) == Some(s[..i])
    ensures Decode(enc + ReferenceToken(distance - 1, length), []) == Some(s[..i + length])
  {
    ReferenceTokenDecodes(s, distance, i, length);
    DecodeAppend(enc, ReferenceToken(distance - 1, length), []);
  }

  /** One round of the loop, on slices of the input. */
  lemma InflateRunStep(enc: seq<byte>, i: nat, out: seq<byte>, n: nat)
    requires i <= |enc| && InflateRun(enc[i..], out, n).Some?
    ensures i < |enc| && DecodeToken(enc[i..], out).Some?
    ensures var (size, out') := DecodeToken(enc[i..], out).value;
            && |out'| <= n
            && InflateRun(enc[i..], out, n) ==
               if |out'| < n && i + size < |enc| then InflateRun(enc[i + size..], out', n) else Some(out')
  {
    var (size, out') := DecodeToken(enc[i..], out).value;
    assert enc[i..][size..] == enc[i + size..];
  }

  /** Writing the pending literals brings the decoded output up to position i. */
  lemma LiteralAppended(s: seq<byte>, enc: seq<byte>, i: nat, literal: nat)
    requires 0 < literal <= MAX_LITERAL && literal <= i <= |s|
    requires Decode(enc, []) == Some(s[..i - literal])
    ensures Decode(enc + ([literal - 1] + s[i - literal..i]), []) == Some(s[..i])
  {
    LiteralToken(s, i - literal, literal);
    DecodeAppend(enc, [literal - 1] + s[i - literal..i], []);
  }
}
