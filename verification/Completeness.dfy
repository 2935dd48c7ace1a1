/** The receiver withholds nothing: what it has not delivered, it has not heard. */
module Completeness {
  import opened Words
  import opened Wrappers
  import opened Messages
  import opened Sequence
  import opened Bitmap
  import opened Incoming
  import opened Fragments
  import opened QueueOrder
  import opened Transport

  /** Entry b is entry a with perhaps more fragments in place. */
  ghost predicate Extends(a: Entry, b: Entry) {
    && b.reliableNumber == a.reliableNumber && b.kind == a.kind && |b.bitmap| == |a.bitmap|
    && forall f: nat :: f < 32 * |a.bitmap| && Bit(a.bitmap, f) ==> Bit(b.bitmap, f)
  }

  lemma AbsorbExtends(e: Entry, number: nat, offset: nat, data: Bytes)
    requires number < 32 * |e.bitmap| && offset + |data| <= |e.packet|
    ensures Extends(e, Absorb(e, number, offset, data)) && Bit(Absorb(e, number, offset, data).bitmap, number)
  {
    if !Bit(e.bitmap, number) {
      forall f: nat | f < 32 * |e.bitmap|
        ensures Bit(SetBit(e.bitmap, number), f) <==> f == number || Bit(e.bitmap, f)
      {
        SetBitEffect(e.bitmap, number, f);
      }
    }
  }

  /** No message makes the receiver forget an entry or a fragment. */
  lemma EntryStays(q: Queues, m: DataMessage, blank: Bytes, state: ClientState, i: nat) returns (i': nat)
    requires m.Fragment? ==> |blank| == m.total && m.offset + |m.data| < 0x1_0000_0000
    requires WellFormed(q.reliable) && i < |q.reliable|
    ensures var t := OnData(q, m, blank, state).1.reliable;
            i' < |t| && Extends(q.reliable[i], t[i'])
  {
    hide IsOld, Adjust, ReliableSlot, UnreliableSlot, FindStart, Absorb, Bit;
    i' := i;
    var q' := OnData(q, m, blank, state).1;
    if q'.reliable != q.reliable {
      if m.Fragment? {
        i' := FragmentStays(q, m, blank, state, i);
      } else {
        var j := Enqueue(q, m, m.data, 0, state).value.1;
        i' := if i < j then i else i + 1;
      }
    }
  }

  lemma FragmentStays(q: Queues, m: DataMessage, blank: Bytes, state: ClientState, i: nat) returns (i': nat)
    requires m.Fragment? && |blank| == m.total && m.offset + |m.data| < 0x1_0000_0000
    requires WellFormed(q.reliable) && i < |q.reliable|
    ensures var t := OnFragment(q, m, blank, state).1.reliable;
            i' < |t| && Extends(q.reliable[i], t[i'])
  {
    hide IsOld, Adjust, ReliableSlot, UnreliableSlot, Absorb, Bit, Extends;
    i' := i;
    Reflexive(q.reliable[i]);
    match FindStart(q.reliable, |q.reliable|, m.startNumber)
    case Some(k) =>
      var e := q.reliable[k];
      hide FindStart;
      if m.offset + |m.data| <= |e.packet| && m.number < m.count == e.count {
        AbsorbExtends(e, m.number, m.offset, m.data);
      }
    case None =>
      var r := Enqueue(q, StartMessage(m), blank, m.count, state);
      hide Enqueue, FindStart;
      if r.Some? && OnFragment(q, m, blank, state).1 != q {
        i' := InsertStays(q.reliable, r.value.1, r.value.0.reliable[r.value.1], OnFragment(q, m, blank, state).1.reliable, i);
      }
  }

  lemma InsertStays(q: seq<Entry>, j: nat, e: Entry, t: seq<Entry>, i: nat) returns (i': nat)
    requires j <= |q| && i < |q| && |t| == |q| + 1 && t == Insert(q, j, e)[j := t[j]]
    ensures i' < |t| && t[i'] == q[i]
  {
    i' := if i < j then i else i + 1;
  }

  lemma Reflexive(e: Entry)
    ensures Extends(e, e)
  {
  }

  /** Piece f of the k-th packet is in the queue. */
  ghost predicate Has(s: Sender, q: Queues, k: nat, f: nat)
    requires Numbered(s) && k < |s.packets|
  {
    exists i :: 0 <= i < |q.reliable| && HasAt(s, q, k, f, i)
  }

  ghost predicate HasAt(s: Sender, q: Queues, k: nat, f: nat, i: nat)
    requires Numbered(s) && k < |s.packets| && i < |q.reliable|
  {
    var e := q.reliable[i];
    && e.reliableNumber == Start(s.packets, s.size, k)
    && (e.kind == ReliableData || (f < 32 * |e.bitmap| && Bit(e.bitmap, f)))
  }

  lemma HasStays(s: Sender, q: Queues, m: DataMessage, blank: Bytes, state: ClientState, k: nat, f: nat)
    requires m.Fragment? ==> |blank| == m.total && m.offset + |m.data| < 0x1_0000_0000
    requires WellFormed(q.reliable) && Numbered(s) && k < |s.packets| && Has(s, q, k, f)
    ensures Has(s, OnData(q, m, blank, state).1, k, f)
  {
    hide OnData, Start;
    var i :| 0 <= i < |q.reliable| && HasAt(s, q, k, f, i);
    var i' := EntryStays(q, m, blank, state, i);
    assert HasAt(s, OnData(q, m, blank, state).1, k, f, i');
  }

  /** A queued packet is found by its number. */
  lemma OwnerHas(s: Sender, q: Queues, d: nat, owners: seq<nat>, k: nat) returns (i: nat)
    requires Numbered(s) && Owned(s, q, d, owners) && k < |s.packets| && TrueSlot(owners, |owners|, k).None?
    ensures i < |owners| && owners[i] == k && Holds(q.reliable[i], s.packets[k], s.size, Start(s.packets, s.size, k))
  {
    TrueSlotSorts(owners, |owners|, k);
    i :| 0 <= i < |owners| && owners[i] == k;
  }

  /** A connected receiver that hears a reliable message it has not delivered has it
      in its queue afterwards, whether it was there already or not. */
  lemma PacketHeard(s: Sender, q: Queues, d: nat, owners: seq<nat>, k: nat, blank: Bytes)
    requires Numbered(s) && Owned(s, q, d, owners) && OnWire(s, OfPacket(k)) && WellFormed(q.reliable)
    requires k >= d && s.packets[k] != []
    ensures Has(s, OnData(q, MessageOf(s, OfPacket(k)), blank, Connected).1, k, 0)
  {
    var m := MessageOf(s, OfPacket(k));
    OldExactly(s, q.lastReliable, d, k);
    SlotByOwner(s, q, d, owners, |owners|, k);
    assert m.Reliable? && m.sequenceNumber == Start(s.packets, s.size, k) && m.data != [];
    hide MessageOf;
    PlainQueued(q, m, blank);
    hide OnData;
    match TrueSlot(owners, |owners|, k)
    case None =>
      var i := OwnerHas(s, q, d, owners, k);
      hide Start, IsOld, ReliableSlot, Owned, Holds;
      PlainHas(s, q, k, i);
    case Some(j) =>
      hide Start, IsOld, ReliableSlot, Owned;
      assert HasAt(s, OnData(q, m, blank, Connected).1, k, 0, j);
  }

  /** What the handler does with a plain reliable message that is not old. */
  lemma PlainQueued(q: Queues, m: DataMessage, blank: Bytes)
    requires m.Reliable? && m.data != [] && WellFormed(q.reliable)
    requires !IsOld(q.lastReliable, m.sequenceNumber)
    requires Adjust(q.lastReliable, m.sequenceNumber) == m.sequenceNumber > q.lastReliable
    ensures OnData(q, m, blank, Connected).1 ==
            match ReliableSlot(q.reliable, |q.reliable|, m.sequenceNumber)
            case None => q
            case Some(j) => q.(reliable := Insert(q.reliable, j, NewEntry(m, m.data, 0)))
  {
    hide IsOld, Adjust, ReliableSlot;
  }

  lemma PlainHas(s: Sender, q: Queues, k: nat, i: nat)
    requires Numbered(s) && k < |s.packets| && |s.packets[k]| <= s.size && i < |q.reliable|
    requires Holds(q.reliable[i], s.packets[k], s.size, Start(s.packets, s.size, k))
    ensures Has(s, q, k, 0)
  {
    assert HasAt(s, q, k, 0, i);
  }

  lemma FragmentHeard(s: Sender, q: Queues, d: nat, owners: seq<nat>, k: nat, f: nat, blank: Bytes)
    requires Numbered(s) && Owned(s, q, d, owners) && OnWire(s, OfFragment(k, f)) && WellFormed(q.reliable)
    requires k >= d && |blank| == |s.packets[k]|
    ensures FragmentFits(s, OfFragment(k, f), blank)
    ensures Has(s, OnData(q, MessageOf(s, OfFragment(k, f)), blank, Connected).1, k, f)
  {
    var m := MessageOf(s, OfFragment(k, f));
    FragmentSmall(s, OfFragment(k, f));
    assert FragmentFits(s, OfFragment(k, f), blank);
    hide Start, OnFragment, Owned, Has;
    match FindStart(q.reliable, |q.reliable|, m.startNumber)
    case Some(i) => LaterFragmentHeard(s, q, d, owners, k, f, blank, Connected, i);
    case None => FirstFragmentHeard(s, q, d, owners, k, f, blank);
  }

  lemma LaterFragmentHeard(s: Sender, q: Queues, d: nat, owners: seq<nat>, k: nat, f: nat, blank: Bytes, state: ClientState, i: nat)
    requires Numbered(s) && Owned(s, q, d, owners) && OnWire(s, OfFragment(k, f)) && WellFormed(q.reliable)
    requires k >= d && |blank| == |s.packets[k]|
    requires FindStart(q.reliable, |q.reliable|, MessageOf(s, OfFragment(k, f)).startNumber) == Some(i)
    ensures FragmentFits(s, OfFragment(k, f), blank)
    ensures Has(s, OnFragment(q, MessageOf(s, OfFragment(k, f)), blank, state).1, k, f)
  {
    var m := MessageOf(s, OfFragment(k, f));
    OwnPlace(s, q, d, owners, k, f, i);
    hide IsOld, FindStart, Start, MessageOf, Owned, Numbered, Bit;
    LaterFragment(q, m, blank, state, i);
    AbsorbExtends(q.reliable[i], f, m.offset, m.data);
    hide OnFragment, Absorb;
    assert HasAt(s, OnFragment(q, m, blank, state).1, k, f, i);
  }

  /** A fragment found in the queue belongs to the packet collected there. */
  lemma OwnPlace(s: Sender, q: Queues, d: nat, owners: seq<nat>, k: nat, f: nat, i: nat)
    requires Numbered(s) && Owned(s, q, d, owners) && OnWire(s, OfFragment(k, f)) && k >= d
    requires FindStart(q.reliable, |q.reliable|, MessageOf(s, OfFragment(k, f)).startNumber) == Some(i)
    ensures var m := MessageOf(s, OfFragment(k, f));
            && m.Fragment? && m.number == f < m.count && m.startNumber == Start(s.packets, s.size, k)
            && m.offset < m.total && m.offset + |m.data| <= m.total == |s.packets[k]|
            && !IsOld(q.lastReliable, m.startNumber) && q.reliable[i].reliableNumber == m.startNumber
            && m.total == |q.reliable[i].packet| && m.count == q.reliable[i].count && f < 32 * |q.reliable[i].bitmap|
  {
    hide IsOld, FindStart, Piece, Offset, Holds, Increasing;
    FragmentSmall(s, OfFragment(k, f));
    StartNumber(s, k, f);
    hide MessageOf;
    OldExactly(s, q.lastReliable, d, k);
    AbsorbedByOwner(s, q, d, owners, k, f, i);
    hide Start, Owned, Numbered;
  }

  lemma StartNumber(s: Sender, k: nat, f: nat)
    requires Numbered(s) && OnWire(s, OfFragment(k, f))
    ensures MessageOf(s, OfFragment(k, f)).startNumber == Start(s.packets, s.size, k)
  {
    StartSmall(s, k);
    hide Start;
  }

  lemma FirstFragmentHeard(s: Sender, q: Queues, d: nat, owners: seq<nat>, k: nat, f: nat, blank: Bytes)
    requires Numbered(s) && Owned(s, q, d, owners) && OnWire(s, OfFragment(k, f)) && WellFormed(q.reliable)
    requires k >= d && |blank| == |s.packets[k]|
    requires FindStart(q.reliable, |q.reliable|, MessageOf(s, OfFragment(k, f)).startNumber).None?
    ensures FragmentFits(s, OfFragment(k, f), blank)
    ensures Has(s, OnFragment(q, MessageOf(s, OfFragment(k, f)), blank, Connected).1, k, f)
  {
    var m := MessageOf(s, OfFragment(k, f));
    NewPlace(s, q, d, owners, k, f);
    FindStartLast(q.reliable, |q.reliable|, m.startNumber);
    hide IsOld, Adjust, Start, Bit, ReliableSlot, TrueSlot;
    var j := NewSlot(s, q, d, owners, k);
    NewFragmentEntry(s, q, d, owners, j, k, f, m, blank);
    FirstFragmentQueued(q, m, blank);
    var e := NewEntry(StartMessage(m), blank, m.count);
    AbsorbExtends(e, f, m.offset, m.data);
    hide OnFragment, Owned, Absorb, MessageOf;
    HasNew(s, q, k, f, j, e, Absorb(e, f, m.offset, m.data));
  }

  lemma HasNew(s: Sender, q: Queues, k: nat, f: nat, j: nat, e: Entry, e': Entry)
    requires Numbered(s) && k < |s.packets| && j <= |q.reliable|
    requires e'.reliableNumber == Start(s.packets, s.size, k) && f < 32 * |e'.bitmap| && Bit(e'.bitmap, f)
    ensures Has(s, q.(reliable := Insert(q.reliable, j, e)[j := e']), k, f)
  {
    assert HasAt(s, q.(reliable := Insert(q.reliable, j, e)[j := e']), k, f, j);
  }

  /** A packet that is collected nowhere has a place of its own. */
  lemma NewSlot(s: Sender, q: Queues, d: nat, owners: seq<nat>, k: nat) returns (j: nat)
    requires Numbered(s) && Owned(s, q, d, owners) && k < |s.packets| && |s.packets[k]| > s.size
    requires forall i :: 0 <= i < |q.reliable| ==>
               !(q.reliable[i].kind == DataFragment && q.reliable[i].reliableNumber == Start(s.packets, s.size, k))
    ensures j <= |owners| && TrueSlot(owners, |owners|, k) == Some(j)
  {
    var slot := TrueSlot(owners, |owners|, k);
    if slot.None? {
      var i := OwnerHas(s, q, d, owners, k);
    }
    j := slot.value;
  }

  // ----------------------------------------------------------------- runs

  predicate Carries(c: Copy) {
    c.OfPacket? || c.OfFragment?
  }

  function PieceOfCopy(c: Copy): nat {
    if c.OfFragment? then c.f else 0
  }

  /** A reliable message heard is delivered, or its piece is in the queue. An empty
      packet is never accepted. */
  ghost predicate Kept(y: System, c: Copy)
    requires Numbered(y.sender) && Carries(c)
  {
    && OnWire(y.sender, c)
    && (c.k >= |y.receiver.delivered| && y.sender.packets[c.k] != [] ==>
          Has(y.sender, y.receiver.queues, c.k, PieceOfCopy(c)))
  }

  ghost predicate Remembers(y: System) {
    && Numbered(y.sender)
    && (forall c :: c in y.heard && Carries(c) ==> Kept(y, c))
    && (forall c :: c in y.answered ==> c.OfFragment? && Kept(y, c))
  }

  lemma ArriveRemembers(y: System, owners: seq<nat>, e: Event)
    requires Inv(y, owners) && Enabled(y, e) && e.Arrive? && Remembers(y)
    ensures Remembers(Effect(y, e))
  {
    FragmentSmall(y.sender, e.copy);
    var z, m := Effect(y, e), MessageOf(y.sender, e.copy);
    AnsweredExactly(y.receiver.queues, m, e.blank, e.state, true);
    hide Answered, Kept, OnData;
    forall c | c in z.heard && Carries(c)
      ensures Kept(z, c)
    {
      if c in y.heard {
        OldKept(y, e, c);
      } else {
        NewKept(y, owners, e);
      }
    }
    forall c | c in z.answered
      ensures c.OfFragment? && Kept(z, c)
    {
      if c in y.answered {
        OldKept(y, e, c);
      } else {
        AnsweredKept(y, owners, e);
      }
    }
  }

  lemma OldKept(y: System, e: Event, c: Copy)
    requires Numbered(y.sender) && Enabled(y, e) && e.Arrive? && Carries(c) && Kept(y, c)
    ensures Kept(Effect(y, e), c)
  {
    FragmentSmall(y.sender, e.copy);
    hide OnData, Has, Answered;
    if c.k >= |y.receiver.delivered| && y.sender.packets[c.k] != [] {
      HasStays(y.sender, y.receiver.queues, MessageOf(y.sender, e.copy), e.blank, e.state, c.k, PieceOfCopy(c));
    }
  }

  lemma NewKept(y: System, owners: seq<nat>, e: Event)
    requires Inv(y, owners) && Enabled(y, e) && e.Arrive? && e.state == Connected && Carries(e.copy)
    ensures Kept(Effect(y, e), e.copy)
  {
    var s, q, d := y.sender, y.receiver.queues, |y.receiver.delivered|;
    hide OnData, Has, Answered;
    if e.copy.k >= d && s.packets[e.copy.k] != [] {
      match e.copy
      case OfPacket(k) => PacketHeard(s, q, d, owners, k, e.blank);
      case OfFragment(k, f) => FragmentHeard(s, q, d, owners, k, f, e.blank);
    }
  }

  /** A fragment is acknowledged only when it is delivered or in the queue, also
      while the close of the client is being delayed. */
  lemma AnsweredKept(y: System, owners: seq<nat>, e: Event)
    requires Inv(y, owners) && Enabled(y, e) && e.Arrive? && e.copy.OfFragment?
    requires FragmentFits(y.sender, e.copy, e.blank)
             && Answered(y.receiver.queues, MessageOf(y.sender, e.copy), e.blank, e.state, true)
    ensures Kept(Effect(y, e), e.copy)
  {
    var s, q, d := y.sender, y.receiver.queues, |y.receiver.delivered|;
    if e.state == Connected {
      NewKept(y, owners, e);
    } else {
      hide OnData, Has, Answered, MessageOf, Owned;
      if e.copy.k >= d {
        AnsweredHas(s, q, d, owners, e.copy.k, e.copy.f, e.blank, e.state);
      }
    }
  }

  lemma AnsweredHas(s: Sender, q: Queues, d: nat, owners: seq<nat>, k: nat, f: nat, blank: Bytes, state: ClientState)
    requires Numbered(s) && Owned(s, q, d, owners) && OnWire(s, OfFragment(k, f)) && WellFormed(q.reliable)
    requires k >= d && |blank| == |s.packets[k]| && state != Connected
    requires FragmentFits(s, OfFragment(k, f), blank) && Answered(q, MessageOf(s, OfFragment(k, f)), blank, state, true)
    ensures Has(s, OnData(q, MessageOf(s, OfFragment(k, f)), blank, state).1, k, f)
  {
    AnsweredCollected(s, q, OfFragment(k, f), blank, state);
    StartNumber(s, k, f);
    OldExactly(s, q.lastReliable, d, k);
    hide OnFragment, OnData, Has, Answered, FindStart, IsOld, Adjust, Owned, Start, MessageOf;
    var i := FindStart(q.reliable, |q.reliable|, MessageOf(s, OfFragment(k, f)).startNumber).value;
    LaterFragmentHeard(s, q, d, owners, k, f, blank, state, i);
  }

  /** While a close is delayed only fragments of packets already collected, or
      delivered, are answered. */
  lemma AnsweredCollected(s: Sender, q: Queues, c: Copy, blank: Bytes, state: ClientState)
    requires Numbered(s) && OnWire(s, c) && c.OfFragment? && WellFormed(q.reliable) && state != Connected
    requires FragmentFits(s, c, blank) && Answered(q, MessageOf(s, c), blank, state, true)
    ensures var m := MessageOf(s, c);
            && m.Fragment? && state == DelayingDisconnect && m.startNumber == Start(s.packets, s.size, c.k) % 0x1_0000
            && OnData(q, m, blank, state) == OnFragment(q, m, blank, state)
            && (IsOld(q.lastReliable, m.startNumber) || FindStart(q.reliable, |q.reliable|, m.startNumber).Some?)
  {
    AnsweredExactly(q, MessageOf(s, c), blank, state, true);
    FragmentSmall(s, c);
    hide OnFragment, FindStart, IsOld;
  }

  lemma TakeRemembers(y: System, owners: seq<nat>)
    requires Inv(y, owners) && Remembers(y)
    ensures Remembers(y.(receiver := Deliver(y.receiver)))
  {
    var s, q, z := y.sender, y.receiver.queues, y.(receiver := Deliver(y.receiver));
    forall c | c in z.heard + z.answered && Carries(c)
      ensures Kept(z, c)
    {
      assert Kept(y, c);
      if c.k >= |z.receiver.delivered| && s.packets[c.k] != [] {
        var i :| 0 <= i < |q.reliable| && HasAt(s, q, c.k, PieceOfCopy(c), i);
        TakeKeepsEntry(y, owners, c.k, PieceOfCopy(c), i);
      }
    }
  }

  lemma TakeKeepsEntry(y: System, owners: seq<nat>, k: nat, f: nat, i: nat)
    requires Inv(y, owners) && |Deliver(y.receiver).delivered| <= k < |y.sender.packets|
    requires i < |y.receiver.queues.reliable| && HasAt(y.sender, y.receiver.queues, k, f, i)
    ensures Has(y.sender, Deliver(y.receiver).queues, k, f)
  {
    var s, q, z := y.sender, y.receiver.queues, Deliver(y.receiver);
    if Receive(q).0.FromReliable? {
      NotNext(s, q, |y.receiver.delivered|, owners, k, i);
      hide Start, Inv, Numbered;
      assert HasAt(s, z.queues, k, f, i - 1);
    } else {
      hide Start, Inv, Numbered;
      assert HasAt(s, z.queues, k, f, i);
    }
  }

  /** An entry for a later packet is not the one delivered. */
  lemma NotNext(s: Sender, q: Queues, d: nat, owners: seq<nat>, k: nat, i: nat)
    requires Numbered(s) && Owned(s, q, d, owners) && Receive(q).0.FromReliable? && d < k < |s.packets|
    requires i < |q.reliable| && q.reliable[i].reliableNumber == Start(s.packets, s.size, k)
    ensures i > 0
  {
    NextDelivered(s, q, d, owners);
    StartSmall(s, d);
    StartMono(s.packets, s.size, d, k);
    hide Start, Numbered, Owned;
  }

  lemma SendRemembers(y: System, e: Event)
    requires Remembers(y) && Enabled(y, e) && (e.SendReliable? || e.SendUnreliable? || e.SendUnsequenced?)
    ensures Remembers(Effect(y, e))
  {
    var s, q, z := y.sender, y.receiver.queues, Effect(y, e);
    forall c | c in z.heard + z.answered && Carries(c)
      ensures Kept(z, c)
    {
      assert Kept(y, c);
      if e.SendReliable? {
        StartPrefix(s.packets, e.packet, s.size, c.k);
      }
      hide Start, Numbered;
      if c.k >= |y.receiver.delivered| && s.packets[c.k] != [] {
        var i :| 0 <= i < |q.reliable| && HasAt(s, q, c.k, PieceOfCopy(c), i);
        assert HasAt(z.sender, q, c.k, PieceOfCopy(c), i);
      }
    }
  }

  lemma {:induction false} RunRemembers(y: System, owners: seq<nat>, events: seq<Event>) returns (owners': seq<nat>)
    requires Inv(y, owners) && Remembers(y) && ValidRun(y, events)
    ensures Inv(After(y, events), owners') && Remembers(After(y, events))
    decreases |events|
  {
    owners' := owners;
    if events != [] {
      var e := events[0];
      if e.Arrive? {
        ArriveRemembers(y, owners, e);
      } else if e.Take? {
        TakeRemembers(y, owners);
      } else {
        SendRemembers(y, e);
      }
      owners' := EffectKeeps(y, owners, e);
      hide Inv, Effect, Enabled, Remembers;
      owners' := RunRemembers(Effect(y, e), owners', events[1..]);
    }
  }

  /** With every piece of the next packet in the queue there is something to deliver. */
  lemma NextDeliverable(s: Sender, q: Queues, d: nat, owners: seq<nat>)
    requires Numbered(s) && Owned(s, q, d, owners) && d < |s.packets|
    requires forall f: nat :: f < Span(s.packets[d], s.size) ==> Has(s, q, d, f)
    ensures Receive(q).0 != Nothing
  {
    var p := s.packets[d];
    SpanPositive(p, s.size);
    StartSmall(s, d);
    hide Bit, Span;
    assert Has(s, q, d, 0);
    var i :| 0 <= i < |q.reliable| && HasAt(s, q, d, 0, i);
    OnlyFirst(s, q, d, owners, i);
    var e := q.reliable[0];
    if |p| > s.size {
      forall f: nat | f < Span(p, s.size)
        ensures f < 32 * |e.bitmap| && Bit(e.bitmap, f)
      {
        assert Has(s, q, d, f);
        var j :| 0 <= j < |q.reliable| && HasAt(s, q, d, f, j);
        OnlyFirst(s, q, d, owners, j);
      }
      NoneMissing(e, p, s.size);
    }
    hide Start, Reassembling, Numbered;
  }

  lemma NoneMissing(e: Entry, p: Bytes, size: nat)
    requires 0 < size < |p| && Reassembling(e, p, size)
    requires forall f: nat :: f < Span(p, size) ==> f < 32 * |e.bitmap| && Bit(e.bitmap, f)
    ensures e.remaining == 0
  {
    ClearCountZero(e.bitmap, e.count);
  }

  lemma OnlyFirst(s: Sender, q: Queues, d: nat, owners: seq<nat>, i: nat)
    requires Numbered(s) && Owned(s, q, d, owners) && d < |s.packets| && i < |owners|
    requires q.reliable[i].reliableNumber == Start(s.packets, s.size, d)
    ensures i == 0 && owners[0] == d
  {
    SamePlace(s, owners[i], d);
    hide Start, Holds;
    assert owners[0] >= d;
  }

  /** The receiver withholds nothing: when it has nothing to deliver although not
      every packet sent has been delivered, the next packet is empty, or some
      message of it has never arrived while the client was connected. So a receiver
      that has been drained has delivered the longest run of packets heard in full. */
  lemma NothingWithheld(size: nat, events: seq<Event>)
    requires size > 0 && ValidRun(Opened(size), events)
    ensures var y := After(Opened(size), events);
            var d := |y.receiver.delivered|;
            Receive(y.receiver.queues).0 == Nothing && d < |y.sender.packets| && y.sender.packets[d] != [] ==>
              exists c :: Carries(c) && c.k == d && Numbered(y.sender) && OnWire(y.sender, c) && c !in y.heard
  {
    var owners := RunRemembers(Opened(size), [], events);
    var y := After(Opened(size), events);
    var s, q, d := y.sender, y.receiver.queues, |y.receiver.delivered|;
    if d < |s.packets| && s.packets[d] != [] {
      if |s.packets[d]| <= s.size {
        assert OnWire(s, OfPacket(d));
        AllHeardPlain(y, owners);
      } else {
        AllHeardPieces(y, owners);
      }
    }
  }

  /** Over all runs: what has been acknowledged has been received. Every copy answered
      is a fragment, and its packet is delivered or the fragment is in place in the
      queue. No copy of a plain packet is ever answered. */
  lemma AnsweredMeansReceived(size: nat, events: seq<Event>, c: Copy)
    requires size > 0 && ValidRun(Opened(size), events) && c in After(Opened(size), events).answered
    ensures var y := After(Opened(size), events);
            && c.OfFragment? && Numbered(y.sender) && OnWire(y.sender, c)
            && (c.k < |y.receiver.delivered| || Has(y.sender, y.receiver.queues, c.k, c.f))
  {
    var owners := RunRemembers(Opened(size), [], events);
    var y := After(Opened(size), events);
    assert Kept(y, c);
  }

  lemma AllHeardPlain(y: System, owners: seq<nat>)
    requires Inv(y, owners) && Remembers(y)
    requires var d := |y.receiver.delivered|;
             d < |y.sender.packets| && y.sender.packets[d] != [] && |y.sender.packets[d]| <= y.sender.size
    ensures OfPacket(|y.receiver.delivered|) !in y.heard || Receive(y.receiver.queues).0 != Nothing
  {
    var s, q, d := y.sender, y.receiver.queues, |y.receiver.delivered|;
    if OfPacket(d) in y.heard {
      assert Kept(y, OfPacket(d));
      NextDeliverable(s, q, d, owners);
    }
  }

  lemma AllHeardPieces(y: System, owners: seq<nat>)
    requires Inv(y, owners) && Remembers(y)
    requires var d := |y.receiver.delivered|; d < |y.sender.packets| && |y.sender.packets[d]| > y.sender.size
    ensures Receive(y.receiver.queues).0 != Nothing
            || exists c :: Carries(c) && c.k == |y.receiver.delivered| && OnWire(y.sender, c) && c !in y.heard
  {
    var s, q, d := y.sender, y.receiver.queues, |y.receiver.delivered|;
    var span := Span(s.packets[d], s.size);
    if f: nat :| f < span && OfFragment(d, f) !in y.heard {
      assert OnWire(s, OfFragment(d, f));
    } else {
      forall f: nat | f < span
        ensures Has(s, q, d, f)
      {
        assert OfFragment(d, f) in y.heard;
        assert Kept(y, OfFragment(d, f));
      }
      NextDeliverable(s, q, d, owners);
    }
  }
}
