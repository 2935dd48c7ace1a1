/** Cutting a packet into fragments and putting it together again. */
module Fragments {
  import opened Words
  import opened Messages
  import opened Bitmap
  import opened Incoming

  /** How many sequence numbers a reliable packet takes. */
  function Span(p: Bytes, size: nat): (r: nat)
    requires size > 0
  {
    if |p| <= size then 1 else (|p| + size - 1) / size
  }

  function Offset(f: nat, size: nat): (r: nat) {
    f * size
  }

  /** Where piece f ends. */
  function End(p: Bytes, size: nat, f: nat): (r: nat)
    ensures r <= |p|
  {
    if Offset(f + 1, size) < |p| then Offset(f + 1, size) else |p|
  }

  function Piece(p: Bytes, size: nat, f: nat): (r: Bytes)
    requires 0 < size < |p| && f < Span(p, size)
    ensures Offset(f, size) + |r| == End(p, size, f)
  {
    PieceInside(p, size, f);
    p[Offset(f, size)..End(p, size, f)]
  }

  lemma MulStep(f: nat, size: nat)
    ensures Offset(f + 1, size) == Offset(f, size) + size
  {
  }

  lemma {:induction false} MulMono(f: nat, g: nat, size: nat)
    requires f <= g
    ensures Offset(f, size) <= Offset(g, size)
    decreases g - f
  {
    if f < g {
      MulMono(f, g - 1, size);
      MulStep(g - 1, size);
    }
  }

  /** fragmentCount pieces are just enough. */
  lemma SpanBounds(p: Bytes, size: nat)
    requires 0 < size < |p|
    ensures Span(p, size) >= 2
    ensures Offset(Span(p, size) - 1, size) < |p| <= Offset(Span(p, size), size)
  {
    var n := |p| + size - 1;
    var q, r := n / size, n % size;
    assert n == Offset(q, size) + r;
    assert n >= 2 * size;
    assert q >= 2;
    MulStep(q - 1, size);
  }

  lemma PieceInside(p: Bytes, size: nat, f: nat)
    requires 0 < size < |p| && f < Span(p, size)
    ensures Offset(f, size) < End(p, size, f) <= |p|
    ensures End(p, size, f) == if f + 1 == Span(p, size) then |p| else Offset(f + 1, size)
  {
    SpanBounds(p, size);
    MulMono(f, Span(p, size) - 1, size);
    MulStep(f, size);
    if f + 1 < Span(p, size) {
      MulMono(f + 1, Span(p, size) - 1, size);
    }
  }

  /** The f-th fragment of packet p whose first number is `start`. */
  function FragmentOf(p: Bytes, size: nat, start: nat, f: nat): (m: DataMessage)
    requires 0 < size < |p| < 0x8000_0000 && f < Span(p, size)
    ensures m.Fragment?
  {
    SpanBounds(p, size);
    PieceInside(p, size, f);
    SpanSmall(p, size);
    Fragment((start + f) % 0x1_0000, start % 0x1_0000, Span(p, size), f, Offset(f, size), |p|, Piece(p, size, f))
  }

  lemma SpanSmall(p: Bytes, size: nat)
    requires 0 < size < |p|
    ensures Span(p, size) <= |p|
  {
    SpanBounds(p, size);
    MulMono(1, size, Span(p, size) - 1);
  }

  function Joined(p: Bytes, size: nat, f: nat): (r: Bytes)
    requires 0 < size < |p| && f <= Span(p, size)
  {
    if f == 0 then [] else Joined(p, size, f - 1) + Piece(p, size, f - 1)
  }

  /** The pieces, in order, are the packet: none overlaps another, none is missing. */
  lemma PiecesCover(p: Bytes, size: nat)
    requires 0 < size < |p|
    ensures Joined(p, size, Span(p, size)) == p
  {
    SpanBounds(p, size);
    var last := Span(p, size) - 1;
    PiecesCoverUpTo(p, size, last);
    PieceInside(p, size, last);
  }

  lemma {:induction false} PiecesCoverUpTo(p: Bytes, size: nat, f: nat)
    requires 0 < size < |p| && f < Span(p, size)
    ensures Offset(f, size) <= |p| && Joined(p, size, f) == p[..Offset(f, size)]
  {
    PieceInside(p, size, f);
    if f == 0 {
      assert Offset(0, size) == 0;
    } else {
      PiecesCoverUpTo(p, size, f - 1);
      PieceInside(p, size, f - 1);
    }
  }

  // --------------------------------------------------------- reassembly

  /** The piece of packet p that fragment f carries stands in the buffer. */
  predicate Placed(p: Bytes, size: nat, packet: Bytes, f: nat)
    requires 0 < size < |p| == |packet| && f < Span(p, size)
  {
    PieceInside(p, size, f);
    packet[Offset(f, size)..End(p, size, f)] == p[Offset(f, size)..End(p, size, f)]
  }

  /** e collects the fragments of p: every piece whose bit is set is in place, and
      `remaining` counts the clear bits. */
  ghost predicate Reassembling(e: Entry, p: Bytes, size: nat)
    requires 0 < size < |p|
  {
    && |e.packet| == |p| && e.count == Span(p, size) && |e.bitmap| == WordCount(e.count)
    && e.remaining == ClearCount(e.bitmap, e.count)
    && forall f: nat :: f < e.count && Bit(e.bitmap, f) ==> Placed(p, size, e.packet, f)
  }

  lemma NewEntryReassembles(m: DataMessage, p: Bytes, size: nat, blank: Bytes)
    requires 0 < size < |p| == |blank| && m.Fragment? && m.count == Span(p, size)
    ensures Reassembling(NewEntry(m, blank, m.count), p, size)
  {
    ClearCountFresh(m.count, m.count);
    ClearCountZero(ClearBitmap(m.count), m.count);
    forall f: nat | f < m.count
      ensures !Bit(ClearBitmap(m.count), f)
    {
      ZeroBits(f % 32);
    }
  }

  lemma SpliceKeeps(packet: Bytes, offset: nat, data: Bytes, a: nat, b: nat)
    requires offset + |data| <= |packet| && a <= b <= |packet|
    requires b <= offset || offset + |data| <= a
    ensures Splice(packet, offset, data)[a..b] == packet[a..b]
  {
  }

  lemma PiecesDisjoint(p: Bytes, size: nat, f: nat, g: nat)
    requires 0 < size < |p| && f < g < Span(p, size)
    ensures End(p, size, f) <= Offset(g, size)
  {
    PieceInside(p, size, f);
    MulMono(f + 1, g, size);
  }

  lemma SplicePlaces(p: Bytes, size: nat, packet: Bytes, f: nat, g: nat)
    requires 0 < size < |p| == |packet| && f < Span(p, size) && g < Span(p, size)
    requires g == f || Placed(p, size, packet, g)
    ensures Placed(p, size, Splice(packet, Offset(f, size), Piece(p, size, f)), g)
  {
    PieceInside(p, size, f);
    PieceInside(p, size, g);
    if g == f {
      assert Splice(packet, Offset(f, size), Piece(p, size, f))[Offset(f, size)..End(p, size, f)] == Piece(p, size, f);
    } else {
      if f < g { PiecesDisjoint(p, size, f, g); } else { PiecesDisjoint(p, size, g, f); }
      SpliceKeeps(packet, Offset(f, size), Piece(p, size, f), Offset(g, size), End(p, size, g));
    }
  }

  /** Any fragment of p, new or repeated, leaves the entry consistent. */
  lemma AbsorbKeeps(e: Entry, p: Bytes, size: nat, f: nat)
    requires 0 < size < |p| && Reassembling(e, p, size) && f < Span(p, size)
    ensures Reassembling(Absorb(e, f, Offset(f, size), Piece(p, size, f)), p, size)
  {
    if !Bit(e.bitmap, f) {
      var e' := Absorb(e, f, Offset(f, size), Piece(p, size, f));
      ClearCountSet(e.bitmap, f, e.count);
      forall g: nat | g < e.count && Bit(e'.bitmap, g)
        ensures Placed(p, size, e'.packet, g)
      {
        SetBitEffect(e.bitmap, f, g);
        SplicePlaces(p, size, e.packet, f, g);
      }
    }
  }

  /** Every byte belongs to a piece. */
  lemma PieceOf(p: Bytes, size: nat, x: nat)
    requires 0 < size < |p| && x < |p|
    ensures x / size < Span(p, size) && Offset(x / size, size) <= x < End(p, size, x / size)
  {
    var f := x / size;
    assert x == Offset(f, size) + x % size;
    MulStep(f, size);
    SpanBounds(p, size);
    if f >= Span(p, size) {
      MulMono(Span(p, size), f, size);
    }
  }

  /** When no fragment is missing the buffer is the packet. */
  lemma CompletePacket(e: Entry, p: Bytes, size: nat)
    requires 0 < size < |p| && Reassembling(e, p, size) && e.remaining == 0
    ensures e.packet == p
  {
    ClearCountZero(e.bitmap, e.count);
    forall x | 0 <= x < |p|
      ensures e.packet[x] == p[x]
    {
      var f := x / size;
      PieceOf(p, size, x);
      assert Placed(p, size, e.packet, f);
      var o := Offset(f, size);
      assert e.packet[o..End(p, size, f)][x - o] == p[o..End(p, size, f)][x - o];
    }
  }

  /** The entry after fragments arrived in the given order. */
  function AbsorbAll(e: Entry, p: Bytes, size: nat, order: seq<nat>): (r: Entry)
    requires 0 < size < |p| && |e.packet| == |p| && |e.bitmap| == WordCount(Span(p, size))
    requires forall i :: 0 <= i < |order| ==> order[i] < Span(p, size)
    ensures |r.packet| == |p| && |r.bitmap| == |e.bitmap|
    decreases |order|
  {
    if order == [] then e
    else
      var rest, f := order[..|order| - 1], order[|order| - 1];
      var before := AbsorbAll(e, p, size, rest);
      PieceInside(p, size, f);
      Absorb(before, f, Offset(f, size), Piece(p, size, f))
  }

  /** Reassembly undoes fragmentation whatever the order of arrival and however
      often a fragment is repeated: the number of missing fragments is the number
      of clear bits, a bit is set exactly when its fragment has arrived, and when
      none is missing the buffer is the original packet. */
  lemma {:induction false} ReassemblyAnyOrder(m: DataMessage, p: Bytes, size: nat, blank: Bytes, order: seq<nat>)
    requires 0 < size < |p| == |blank| && m.Fragment? && m.count == Span(p, size)
    requires forall i :: 0 <= i < |order| ==> order[i] < Span(p, size)
    ensures var e := AbsorbAll(NewEntry(m, blank, m.count), p, size, order);
            && Reassembling(e, p, size)
            && (forall f: nat :: f < Span(p, size) ==> (Bit(e.bitmap, f) <==> f in order))
            && (e.remaining == 0 <==> forall f: nat :: f < Span(p, size) ==> f in order)
            && (e.remaining == 0 ==> e.packet == p)
    decreases |order|
  {
    var start := NewEntry(m, blank, m.count);
    var e := AbsorbAll(start, p, size, order);
    NewEntryReassembles(m, p, size, blank);
    if order == [] {
      forall f: nat | f < Span(p, size)
        ensures !Bit(e.bitmap, f)
      {
        ZeroBits(f % 32);
      }
    } else {
      var rest, f := order[..|order| - 1], order[|order| - 1];
      ReassemblyAnyOrder(m, p, size, blank, rest);
      var before := AbsorbAll(start, p, size, rest);
      PieceInside(p, size, f);
      AbsorbKeeps(before, p, size, f);
      assert order == rest + [f];
      forall g: nat | g < Span(p, size)
        ensures Bit(e.bitmap, g) <==> g in order
      {
        if !Bit(before.bitmap, f) {
          SetBitEffect(before.bitmap, f, g);
        }
      }
    }
    ClearCountZero(e.bitmap, e.count);
    if e.remaining == 0 {
      CompletePacket(e, p, size);
    }
  }
}
