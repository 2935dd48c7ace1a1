/** When the reliable queue stays in order although its numbers wrap around. */
module QueueOrder {
  import opened Words
  import opened Wrappers
  import opened Messages
  import opened Sequence
  import opened Incoming

  const RANGE := 0x1_0000

  predicate Increasing(t: seq<nat>) {
    forall i, j :: 0 <= i < j < |t| ==> t[i] < t[j]
  }

  /** Insertion by the unbounded numbers `t` behind the 16-bit ones: where number
      n belongs among the first k, or None when it is among them. */
  function TrueSlot(t: seq<nat>, k: nat, n: nat): (r: Option<nat>)
    requires k <= |t|
    ensures r.Some? ==> r.value <= k
  {
    if k == 0 then Some(0)
    else if t[k - 1] <= n then (if t[k - 1] < n then Some(k) else None)
    else TrueSlot(t, k - 1, n)
  }

  /** It is sorted insertion without duplicates. */
  lemma {:induction false} TrueSlotSorts(t: seq<nat>, k: nat, n: nat)
    requires k <= |t| && Increasing(t)
    ensures match TrueSlot(t, k, n)
            case Some(s) => (forall i :: 0 <= i < s ==> t[i] < n) && (forall i :: s <= i < k ==> n < t[i])
            case None => exists i :: 0 <= i < k && t[i] == n
  {
    if k > 0 && t[k - 1] > n {
      TrueSlotSorts(t, k - 1, n);
    }
  }

  /** The queue holds the 16-bit forms of the numbers t. */
  ghost predicate Represents(q: seq<Entry>, t: seq<nat>) {
    |q| == |t| && forall i :: 0 <= i < |q| ==> q[i].reliableNumber == t[i] % RANGE
  }

  /** Within one turn of the 16-bit numbers the scan is true insertion. */
  lemma {:induction false} PlainScan(q: seq<Entry>, t: seq<nat>, k: nat, n: uint32, base: nat)
    requires k <= |q| == |t| && n < RANGE
    requires forall i :: 0 <= i < k ==> q[i].reliableNumber == t[i] - base
    ensures ReliableSlot(q, k, n) == TrueSlot(t, k, base + n)
  {
    if k > 0 {
      PlainScan(q, t, k - 1, n, base);
    }
  }

  /** Entries from the high end never stop the scan of a low number. */
  lemma {:induction false} ScanPastHigh(q: seq<Entry>, k: nat, n: uint32)
    requires k <= |q| && n < LOW
    requires forall i :: 0 <= i < k ==> q[i].reliableNumber >= HIGH
    ensures ReliableSlot(q, k, n) == Some(0)
  {
    if k > 0 {
      ScanPastHigh(q, k - 1, n);
    }
  }

  /** Scanning down through the entries after the wrap, w of them being before it. */
  lemma {:induction false} ScanLows(q: seq<Entry>, t: seq<nat>, k: nat, n: uint32, base: nat, w: nat)
    requires w <= k <= |q| == |t| && n < LOW && Increasing(t)
    requires forall i :: 0 <= i < w ==> q[i].reliableNumber >= HIGH && t[i] < base
    requires forall i :: w <= i < k ==> q[i].reliableNumber == t[i] - base
    ensures ReliableSlot(q, k, n) == if w < k && t[w] <= base + n then TrueSlot(t, k, base + n) else Some(0)
    ensures !(w < k && t[w] <= base + n) ==> TrueSlot(t, k, base + n) == Some(w)
  {
    if k == w {
      ScanPastHigh(q, k, n);
    } else {
      ScanLows(q, t, k - 1, n, base, w);
    }
  }

  /** A number in the window ahead of `last` has wrapped past 0xFFFF. */
  predicate Wrapped(last: nat, n: nat) {
    n / RANGE > last / RANGE
  }

  /** The numbers in the window that have not wrapped come first. */
  lemma Turn(last: nat, t: seq<nat>) returns (w: nat)
    requires Increasing(t) && forall i :: 0 <= i < |t| ==> last < t[i] < last + LOW
    ensures w <= |t|
    ensures forall i :: 0 <= i < |t| ==> (Wrapped(last, t[i]) <==> w <= i)
  {
    w := 0;
    while w < |t| && !Wrapped(last, t[w])
      invariant w <= |t| && forall i :: 0 <= i < w ==> !Wrapped(last, t[i])
    {
      w := w + 1;
    }
  }

  lemma WindowParts(last: nat, n: nat)
    requires last < n < last + LOW
    ensures var base := last / RANGE * RANGE;
            if Wrapped(last, n) then n % RANGE == n - base - RANGE && n % RANGE < LOW && last % RANGE >= HIGH && n >= base + RANGE
            else n % RANGE == n - base && base <= n < base + RANGE
    ensures !Wrapped(last, n) && last % RANGE >= HIGH ==> n % RANGE >= HIGH
  {
    var a, b, c, d := last / RANGE, last % RANGE, n / RANGE, n % RANGE;
    assert last == a * RANGE + b && n == c * RANGE + d;
    assert a <= c <= a + 1;
  }

  /** What is known of the entries when the first w of them lie before the wrap. */
  ghost predicate TurnsAt(q: seq<Entry>, t: seq<nat>, base: nat, w: nat) {
    && w <= |t| == |q|
    && (forall i :: 0 <= i < w ==> q[i].reliableNumber == t[i] - base && t[i] < base + RANGE)
    && (forall i :: w <= i < |t| ==> q[i].reliableNumber == t[i] - base - RANGE && q[i].reliableNumber < LOW)
  }

  lemma EntriesTurn(q: seq<Entry>, t: seq<nat>, last: nat) returns (w: nat)
    requires Represents(q, t) && Increasing(t)
    requires forall i :: 0 <= i < |t| ==> last < t[i] < last + LOW
    ensures TurnsAt(q, t, last / RANGE * RANGE, w)
    ensures forall i :: 0 <= i < |t| ==> (Wrapped(last, t[i]) <==> w <= i)
    ensures last % RANGE >= HIGH ==> forall i :: 0 <= i < w ==> q[i].reliableNumber >= HIGH
    ensures w < |t| ==> last % RANGE >= HIGH
  {
    w := Turn(last, t);
    forall i | 0 <= i < |t|
      ensures if i < w then q[i].reliableNumber == t[i] - last / RANGE * RANGE && t[i] < last / RANGE * RANGE + RANGE
              else q[i].reliableNumber == t[i] - last / RANGE * RANGE - RANGE && q[i].reliableNumber < LOW && last % RANGE >= HIGH
      ensures last % RANGE >= HIGH && i < w ==> q[i].reliableNumber >= HIGH
    {
      WindowParts(last, t[i]);
    }
    if w < |t| {
      WindowParts(last, t[w]);
    }
  }

  lemma PlaceUnwrapped(q: seq<Entry>, t: seq<nat>, base: nat, w: nat, m: uint32)
    requires TurnsAt(q, t, base, w) && Increasing(t) && m < RANGE && (w < |t| ==> m >= HIGH)
    ensures ReliableSlot(q, |q|, m) == TrueSlot(t, |t|, base + m) <==> w == |t|
  {
    if w == |t| {
      PlainScan(q, t, |q|, m, base);
    } else {
      UnwrappedMeetsWrapped(q, t, m, base + m);
    }
  }

  lemma PlaceWrapped(q: seq<Entry>, t: seq<nat>, base: nat, w: nat, m: uint32)
    requires TurnsAt(q, t, base, w) && Increasing(t) && m < LOW
    requires forall i :: 0 <= i < w ==> q[i].reliableNumber >= HIGH
    ensures ReliableSlot(q, |q|, m + RANGE) == TrueSlot(t, |t|, base + RANGE + m) <==>
            w == |t| || w == 0 || t[w] <= base + RANGE + m
  {
    if w == |t| {
      WrappedGoesLast(q, t, m + RANGE, base + RANGE + m);
    } else {
      assert ReliableSlot(q, |q|, m + RANGE) == ReliableSlot(q, |q|, m);
      ScanLows(q, t, |q|, m, base + RANGE, w);
      if t[w] <= base + RANGE + m && w > 0 {
        TrueSlotSorts(t, |t|, base + RANGE + m);
      }
    }
  }

  lemma TurnForms(t: seq<nat>, last: nat, w: nat, n: nat)
    requires Increasing(t) && w <= |t|
    requires forall i :: 0 <= i < |t| ==> (Wrapped(last, t[i]) <==> w <= i)
    ensures (forall i :: 0 <= i < |t| ==> !Wrapped(last, t[i])) <==> w == |t|
    ensures (forall i :: 0 <= i < |t| ==> Wrapped(last, t[i])) <==> w == 0 || t == []
    ensures (exists i :: 0 <= i < |t| && Wrapped(last, t[i]) && t[i] <= n) <==> w < |t| && t[w] <= n
  {
    hide Wrapped;
    assert w < |t| ==> Wrapped(last, t[w]);
    assert 0 < w ==> !Wrapped(last, t[0]);
  }

  /** A number before the wrap meets no entry after it; and a number after the wrap meets
      none after it, or one that does not exceed it, or none before it. */
  ghost predicate WrapLiesRight(t: seq<nat>, last: nat, n: nat) {
    if !Wrapped(last, n) then forall i :: 0 <= i < |t| ==> !Wrapped(last, t[i])
    else || (forall i :: 0 <= i < |t| ==> !Wrapped(last, t[i]))
         || (forall i :: 0 <= i < |t| ==> Wrapped(last, t[i]))
         || (exists i :: 0 <= i < |t| && Wrapped(last, t[i]) && t[i] <= n)
  }

  /** For any queue in order and any number in the window of 0x1000 ahead of the
      last one delivered, the code finds the right place, or the duplicate,
      exactly when the wrap lies right. */
  lemma PlacementExactWhen(q: seq<Entry>, t: seq<nat>, last: nat, n: nat)
    requires Represents(q, t) && Increasing(t)
    requires forall i :: 0 <= i < |t| ==> last < t[i] < last + LOW
    requires last < n < last + LOW
    ensures ReliableSlot(q, |q|, Adjust(last % RANGE, n % RANGE)) == TrueSlot(t, |t|, n) <==> WrapLiesRight(t, last, n)
  {
    hide ReliableSlot, TrueSlot, Represents, Increasing, Wrapped, Adjust;
    var w := EntriesTurn(q, t, last);
    var base := last / RANGE * RANGE;
    AdjustedParts(last, n);
    TurnForms(t, last, w, n);
    if !Wrapped(last, n) {
      PlaceUnwrapped(q, t, base, w, n % RANGE);
    } else {
      PlaceWrapped(q, t, base, w, n % RANGE);
    }
  }

  lemma AdjustedParts(last: nat, n: nat)
    requires last < n < last + LOW
    ensures var base := last / RANGE * RANGE;
            if Wrapped(last, n)
            then Adjust(last % RANGE, n % RANGE) == n % RANGE + RANGE && n == base + RANGE + n % RANGE && n % RANGE < LOW && last % RANGE >= HIGH
            else Adjust(last % RANGE, n % RANGE) == n % RANGE && n == base + n % RANGE && (last % RANGE >= HIGH ==> n % RANGE >= HIGH)
  {
    WindowParts(last, n);
    hide Wrapped;
  }

  lemma UnwrappedMeetsWrapped(q: seq<Entry>, t: seq<nat>, m: uint32, n: nat)
    requires |q| == |t| > 0 && m < RANGE && q[|q| - 1].reliableNumber < LOW && m >= HIGH && t[|t| - 1] > n
    ensures ReliableSlot(q, |q|, m) == Some(|q|) != TrueSlot(t, |t|, n)
  {
  }

  lemma WrappedGoesLast(q: seq<Entry>, t: seq<nat>, m: uint32, n: nat)
    requires |q| == |t| && m >= RANGE && (q != [] ==> q[|q| - 1].reliableNumber >= HIGH && t[|t| - 1] < n)
    ensures ReliableSlot(q, |q|, m) == Some(|q|) == TrueSlot(t, |t|, n)
  {
  }

  /** The queue does go wrong: with 0xFFF0 delivered and 0x0003 waiting, 0xFFF1 is
      put behind it; and with 0xFFF1 and 0x0003 waiting, a second 0xFFF1 is queued. */
  lemma PlacementFails(low: Entry, high: Entry)
    requires low.reliableNumber == 0x0003 && high.reliableNumber == 0xFFF1
    ensures ReliableSlot([low], 1, Adjust(0xFFF0, 0xFFF1)) == Some(1)
    ensures ReliableSlot([high, low], 2, Adjust(0xFFF0, 0xFFF1)) == Some(2)
  {
  }

  lemma WrappedOnWire(last: nat, n: nat)
    requires last < n < last + LOW
    ensures Wrapped(last, n) <==> n % RANGE < last % RANGE
    ensures n % RANGE != last % RANGE
  {
    var a, b, c, d := last / RANGE, last % RANGE, n / RANGE, n % RANGE;
    assert last == a * RANGE + b && n == c * RANGE + d;
    assert a <= c <= a + 1;
  }

  lemma WrappedOrder(last: nat, n: nat, k: nat)
    requires last < n < last + LOW && last < k < last + LOW && Wrapped(last, n) && Wrapped(last, k)
    ensures k <= n <==> k % RANGE <= n % RANGE
  {
    WindowParts(last, n);
    WindowParts(last, k);
  }

  /** The same by the 16-bit numbers the receiver has: those below the last one
      delivered have wrapped. */
  lemma PlacementExactOnWire(q: seq<Entry>, t: seq<nat>, last: nat, n: nat)
    requires Represents(q, t) && Increasing(t)
    requires forall i :: 0 <= i < |t| ==> last < t[i] < last + LOW
    requires last < n < last + LOW
    ensures var l, x := last % RANGE, n % RANGE;
            ReliableSlot(q, |q|, Adjust(l, x)) == TrueSlot(t, |t|, n) <==>
            if x > l then forall i :: 0 <= i < |q| ==> q[i].reliableNumber > l
            else || (forall i :: 0 <= i < |q| ==> q[i].reliableNumber > l)
                 || (forall i :: 0 <= i < |q| ==> q[i].reliableNumber < l)
                 || (exists i :: 0 <= i < |q| && q[i].reliableNumber < l && q[i].reliableNumber <= x)
  {
    PlacementExactWhen(q, t, last, n);
    WrappedOnWire(last, n);
    hide ReliableSlot, TrueSlot, Adjust, Increasing;
    forall i | 0 <= i < |q|
      ensures Wrapped(last, t[i]) <==> q[i].reliableNumber < last % RANGE
      ensures q[i].reliableNumber != last % RANGE
      ensures Wrapped(last, t[i]) && Wrapped(last, n) ==> (t[i] <= n <==> q[i].reliableNumber <= n % RANGE)
    {
      WrappedOnWire(last, t[i]);
      if Wrapped(last, t[i]) && Wrapped(last, n) {
        WrappedOrder(last, n, t[i]);
      }
    }
    hide Wrapped;
  }

  // ----------------------------------------------------- the unreliable queue

  /** The sequenced messages of an unreliable queue, by their unreliable numbers. */
  function Sequenced(q: seq<Entry>): (r: seq<Entry>) {
    if q == [] then []
    else
      var e := q[|q| - 1];
      Sequenced(q[..|q| - 1]) + (if e.kind == UnreliableData then [e.(reliableNumber := e.unreliableNumber)] else [])
  }

  /** The same place in both queues, or none in either. */
  ghost predicate PlacedAlike(q: seq<Entry>, late: Option<nat>, slot: Option<nat>) {
    match late
    case None => slot == None
    case Some(j) => j <= |q| && slot == Some(|Sequenced(q[..j])|)
  }

  /** The scan passes over unsequenced messages, and otherwise is that of the reliable
      queue. */
  lemma {:induction false} LateScan(q: seq<Entry>, k: nat, n: uint32)
    requires k <= |q|
    ensures PlacedAlike(q, UnreliableSlot(q, k, n), ReliableSlot(Sequenced(q[..k]), |Sequenced(q[..k])|, n))
  {
    if k == 0 {
      assert q[..0] == [];
    } else {
      var e, rest, all := q[k - 1], Sequenced(q[..k - 1]), Sequenced(q[..k]);
      assert q[..k][..k - 1] == q[..k - 1];
      if e.kind != UnreliableData {
        LateScan(q, k - 1, n);
        assert all == rest;
      } else {
        assert all[..|rest|] == rest;
        var n' := if n >= 0x1_0000 && e.unreliableNumber < HIGH then n - 0x1_0000 else n;
        LateScan(q, k - 1, n');
        SlotOfFront(all, |rest|, n');
      }
    }
  }

  lemma {:induction false} SlotOfFront(q: seq<Entry>, k: nat, n: uint32)
    requires k <= |q|
    ensures ReliableSlot(q, k, n) == ReliableSlot(q[..k], k, n)
    decreases k
  {
    if k > 0 {
      var e := q[k - 1].reliableNumber;
      var n' := if n >= 0x1_0000 && e < HIGH then n - 0x1_0000 else n;
      SlotOfFront(q, k - 1, n');
      SlotOfFront(q[..k], k - 1, n');
      assert q[..k][..k - 1] == q[..k - 1];
    }
  }

  /** So unreliable messages find their place exactly when reliable ones would. */
  lemma LatePlacementExact(q: seq<Entry>, t: seq<nat>, last: nat, n: nat)
    requires Represents(Sequenced(q), t) && Increasing(t)
    requires forall i :: 0 <= i < |t| ==> last < t[i] < last + LOW
    requires last < n < last + LOW
    ensures PlacedAlike(q, UnreliableSlot(q, |q|, Adjust(last % RANGE, n % RANGE)), TrueSlot(t, |t|, n)) <==> WrapLiesRight(t, last, n)
  {
    PlacementExactWhen(Sequenced(q), t, last, n);
    assert q[..|q|] == q;
    LateScan(q, |q|, Adjust(last % RANGE, n % RANGE));
    hide ReliableSlot, UnreliableSlot, TrueSlot, Adjust, Wrapped, WrapLiesRight, Increasing, Represents, Sequenced;
  }
}
