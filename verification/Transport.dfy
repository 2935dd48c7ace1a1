/** A channel end to end: one peer's sends and the other's queues, with a network
    between them that loses, duplicates and reorders. */
module Transport {
  import opened Words
  import opened Wrappers
  import opened Messages
  import opened Sequence
  import opened Bitmap
  import opened Incoming
  import opened Fragments
  import opened QueueOrder

  // An unreliable packet, with how many reliable packets were sent before it.
  datatype Late = Late(after: nat, data: Bytes)

  /** All the packets the application has sent on the channel. */
  datatype Sender = Sender(size: nat, packets: seq<Bytes>, late: seq<Late>, loose: set<Bytes>)

  // An unreliable packet as delivered: its number, how many reliable packets had
  // been delivered before it, and its data.
  datatype Arrival = Arrival(number: nat, after: nat, data: Bytes)

  datatype Receiver = Receiver(queues: Queues, delivered: seq<Bytes>, arrivals: seq<Arrival>, loose: seq<Bytes>)

  /** The two ends; `heard` is the copies that have arrived while the receiving
      client was connected, `answered` those it has acknowledged. */
  datatype System = System(sender: Sender, receiver: Receiver, heard: set<Copy>, answered: set<Copy>)

  /** The first sequence number of the k-th reliable packet. */
  function Start(packets: seq<Bytes>, size: nat, k: nat): (r: nat)
    requires size > 0 && k <= |packets|
    ensures r >= 1
  {
    if k == 0 then 1 else Start(packets, size, k - 1) + Span(packets[k - 1], size)
  }

  /** The sequence numbers used stay below 0xF000. */
  ghost predicate Numbered(s: Sender) {
    && s.size > 0 && Start(s.packets, s.size, |s.packets|) <= HIGH && |s.late| < HIGH
    && (forall k :: 0 <= k < |s.packets| ==> |s.packets[k]| <= MAX_PACKET_SIZE)
    && (forall u :: 0 <= u < |s.late| ==> s.late[u].after <= |s.packets|)
  }

  // ----------------------------------------------------------- the network

  /** A copy of a message that is or was on its way. */
  datatype Copy = OfPacket(k: nat) | OfFragment(k: nat, f: nat) | OfLate(u: nat) | OfLoose(group: uint16, data: Bytes)

  ghost predicate OnWire(s: Sender, c: Copy)
    requires Numbered(s)
  {
    match c
    case OfPacket(k) => k < |s.packets| && |s.packets[k]| <= s.size
    case OfFragment(k, f) => k < |s.packets| && s.size < |s.packets[k]| && f < Span(s.packets[k], s.size)
    case OfLate(u) => u < |s.late|
    case OfLoose(_, data) => data in s.loose
  }

  /** The message a copy is. */
  ghost function MessageOf(s: Sender, c: Copy): (m: DataMessage)
    requires Numbered(s) && OnWire(s, c)
  {
    match c
    case OfPacket(k) => Reliable(Start(s.packets, s.size, k) % 0x1_0000, s.packets[k])
    case OfFragment(k, f) => FragmentOf(s.packets[k], s.size, Start(s.packets, s.size, k), f)
    case OfLate(u) => Unreliable((Start(s.packets, s.size, s.late[u].after) - 1) % 0x1_0000, (u + 1) % 0x1_0000, s.late[u].data)
    case OfLoose(group, data) => Unsequenced(group, data)
  }

  datatype Event =
    | SendReliable(packet: Bytes)
    | SendUnreliable(data: Bytes)
    | SendUnsequenced(data: Bytes)
    | Arrive(copy: Copy, blank: Bytes, state: ClientState)
    | Take

  /** Anything ever sent can arrive at any time, any number of times, or never;
      `blank` is what the memory of a new packet holds. */
  ghost predicate Enabled(s: System, e: Event) {
    Numbered(s.sender) &&
    match e
    case SendReliable(p) => Numbered(s.sender.(packets := s.sender.packets + [p]))
    case SendUnreliable(_) => |s.sender.late| + 1 < HIGH
    case SendUnsequenced(_) => true
    case Arrive(c, blank, state) =>
      OnWire(s.sender, c) && WellFormed(s.receiver.queues.reliable)
      && (c.OfFragment? ==> |blank| == |s.sender.packets[c.k]|)
    case Take => true
  }

  ghost function Deliver(r: Receiver): Receiver {
    var (d, q) := Receive(r.queues);
    match d
    case Nothing => r.(queues := q)
    case FromReliable(p) => r.(queues := q, delivered := r.delivered + [p])
    case FromUnreliable(e) =>
      if e.kind == UnreliableData
      then r.(queues := q, arrivals := r.arrivals + [Arrival(e.unreliableNumber, |r.delivered|, e.packet)])
      else r.(queues := q, loose := r.loose + [e.packet])
  }

  ghost function Effect(s: System, e: Event): System
    requires Enabled(s, e)
  {
    var x := s.sender;
    match e
    case SendReliable(p) => s.(sender := x.(packets := x.packets + [p]))
    case SendUnreliable(data) => s.(sender := x.(late := x.late + [Late(|x.packets|, data)]))
    case SendUnsequenced(data) => s.(sender := x.(loose := x.loose + {data}))
    case Arrive(c, blank, state) =>
      FragmentSmall(x, c);
      s.(receiver := s.receiver.(queues := OnData(s.receiver.queues, MessageOf(x, c), blank, state).1),
         heard := if state == Connected then s.heard + {c} else s.heard,
         answered := if Answered(s.receiver.queues, MessageOf(x, c), blank, state, true) then s.answered + {c} else s.answered)
    case Take => s.(receiver := Deliver(s.receiver))
  }

  /** The receiver's 32-bit check of a genuine fragment does not wrap. */
  lemma FragmentSmall(s: Sender, c: Copy)
    requires Numbered(s) && OnWire(s, c)
    ensures c.OfFragment? ==>
              var m := MessageOf(s, c);
              && m.Fragment? && m.total == |s.packets[c.k]| && m.count == Span(s.packets[c.k], s.size)
              && m.number == c.f < m.count && m.offset < m.total && m.offset + |m.data| <= m.total < 0x1_0000_0000
              && m.startNumber == Start(s.packets, s.size, c.k) % 0x1_0000
              && m.offset == Offset(c.f, s.size) && m.data == Piece(s.packets[c.k], s.size, c.f)
  {
    if c.OfFragment? {
      PieceInside(s.packets[c.k], s.size, c.f);
    }
  }

  ghost predicate ValidRun(s: System, events: seq<Event>)
    decreases |events|
  {
    events == [] || (Enabled(s, events[0]) && ValidRun(Effect(s, events[0]), events[1..]))
  }

  ghost function After(s: System, events: seq<Event>): System
    requires ValidRun(s, events)
    decreases |events|
  {
    if events == [] then s else After(Effect(s, events[0]), events[1..])
  }

  // ------------------------------------------------------------ the numbers

  lemma {:induction false} StartMono(packets: seq<Bytes>, size: nat, j: nat, k: nat)
    requires size > 0 && j < k <= |packets|
    ensures Start(packets, size, j) + Span(packets[j], size) <= Start(packets, size, k)
    ensures Start(packets, size, j) < Start(packets, size, k)
    decreases k - j
  {
    SpanPositive(packets[j], size);
    SpanPositive(packets[k - 1], size);
    if j + 1 < k {
      StartMono(packets, size, j, k - 1);
    }
  }

  lemma SpanPositive(p: Bytes, size: nat)
    requires size > 0
    ensures Span(p, size) >= 1 && (|p| > size ==> Span(p, size) >= 2)
  {
    if |p| > size {
      SpanBounds(p, size);
    }
  }

  lemma {:induction false} StartPrefix(packets: seq<Bytes>, p: Bytes, size: nat, k: nat)
    requires size > 0 && k <= |packets|
    ensures Start(packets + [p], size, k) == Start(packets, size, k)
  {
    if k > 0 {
      StartPrefix(packets, p, size, k - 1);
    }
  }

  lemma StartSmall(s: Sender, k: nat)
    requires Numbered(s) && k <= |s.packets|
    ensures Start(s.packets, s.size, k) <= HIGH
    ensures k < |s.packets| ==> Start(s.packets, s.size, k) + Span(s.packets[k], s.size) <= HIGH
    ensures k < |s.packets| ==> Start(s.packets, s.size, k) < HIGH
  {
    if k < |s.packets| {
      StartMono(s.packets, s.size, k, |s.packets|);
    }
  }

  // ------------------------------------------------- the reliable invariant

  /** Entry e is for packet p, whose first number is `start`. */
  ghost predicate Holds(e: Entry, p: Bytes, size: nat, start: nat)
    requires size > 0
  {
    && e.reliableNumber == start
    && if |p| <= size then e.kind == ReliableData && e.count == 0 && e.remaining == 0 && e.bitmap == [] && e.packet == p
       else e.kind == DataFragment && Reassembling(e, p, size)
  }

  /** The i-th entry of the reliable queue is for packet owners[i]; all of them come
      after the d packets delivered, and in order. */
  ghost predicate Owned(s: Sender, q: Queues, d: nat, owners: seq<nat>)
    requires Numbered(s)
  {
    && d <= |s.packets| && q.lastReliable == Start(s.packets, s.size, d) - 1
    && |owners| == |q.reliable| && Increasing(owners)
    && forall i :: 0 <= i < |owners| ==>
         d <= owners[i] < |s.packets| && Holds(q.reliable[i], s.packets[owners[i]], s.size, Start(s.packets, s.size, owners[i]))
  }

  /** The scan for a packet's place by its number is insertion by position. */
  lemma {:induction false} SlotByOwner(s: Sender, q: Queues, d: nat, owners: seq<nat>, j: nat, k: nat)
    requires Numbered(s) && Owned(s, q, d, owners) && j <= |owners| && k < |s.packets|
    requires Start(s.packets, s.size, k) < HIGH
    ensures ReliableSlot(q.reliable, j, Start(s.packets, s.size, k)) == TrueSlot(owners, j, k)
  {
    if j > 0 {
      StartSmall(s, k);
      if owners[j - 1] < k {
        StartMono(s.packets, s.size, owners[j - 1], k);
      } else if owners[j - 1] > k {
        StartMono(s.packets, s.size, k, owners[j - 1]);
      }
      SlotByOwner(s, q, d, owners, j - 1, k);
    }
  }

  lemma InsertOwner(owners: seq<nat>, j: nat, k: nat)
    requires Increasing(owners) && TrueSlot(owners, |owners|, k) == Some(j)
    ensures j <= |owners| && Increasing(owners[..j] + [k] + owners[j..])
  {
    TrueSlotSorts(owners, |owners|, k);
  }

  lemma OwnedInsert(s: Sender, q: Queues, d: nat, owners: seq<nat>, j: nat, k: nat, e: Entry)
    requires Numbered(s) && Owned(s, q, d, owners) && d <= k < |s.packets|
    requires TrueSlot(owners, |owners|, k) == Some(j)
    requires Holds(e, s.packets[k], s.size, Start(s.packets, s.size, k))
    ensures j <= |owners|
    ensures Owned(s, q.(reliable := Insert(q.reliable, j, e)), d, owners[..j] + [k] + owners[j..])
  {
    hide Start, Holds;
    InsertOwner(owners, j, k);
    hide Increasing;
  }

  /** Where number Start(k) stands relative to the last one delivered. */
  lemma OldExactly(s: Sender, last: uint16, d: nat, k: nat)
    requires Numbered(s) && d <= |s.packets| && k < |s.packets| && last == Start(s.packets, s.size, d) - 1
    ensures Start(s.packets, s.size, k) < HIGH
    ensures Adjust(last, Start(s.packets, s.size, k)) == Start(s.packets, s.size, k)
    ensures k < d ==> Start(s.packets, s.size, k) <= last && (|s.packets[k]| > s.size ==> IsOld(last, Start(s.packets, s.size, k)))
    ensures k >= d ==> Start(s.packets, s.size, k) > last && !IsOld(last, Start(s.packets, s.size, k))
  {
    StartSmall(s, k);
    StartSmall(s, d);
    PlainNumbers(last, Start(s.packets, s.size, k));
    hide Adjust, IsOld, Numbered;
    SpanPositive(s.packets[k], s.size);
    if k < d {
      StartMono(s.packets, s.size, k, d);
    } else if d < k {
      StartMono(s.packets, s.size, d, k);
    }
  }

  /** Below 0xF000 numbers compare as they are. */
  lemma PlainNumbers(last: uint16, n: uint16)
    requires last < HIGH && n < HIGH
    ensures Adjust(last, n) == n && (IsOld(last, n) <==> n < last)
  {
  }

  /** A plain reliable message: queued in its place, or refused. */
  lemma PacketArrives(s: Sender, q: Queues, d: nat, owners: seq<nat>, k: nat, blank: Bytes, state: ClientState)
    returns (owners': seq<nat>)
    requires Numbered(s) && Owned(s, q, d, owners) && OnWire(s, OfPacket(k)) && WellFormed(q.reliable)
    ensures Owned(s, OnData(q, MessageOf(s, OfPacket(k)), blank, state).1, d, owners')
  {
    var m := MessageOf(s, OfPacket(k));
    OldExactly(s, q.lastReliable, d, k);
    SlotByOwner(s, q, d, owners, |owners|, k);
    hide Start, IsOld, ReliableSlot, TrueSlot, Owned;
    owners' := owners;
    if k >= d {
      match TrueSlot(owners, |owners|, k)
      case None =>
      case Some(j) =>
        PlainHolds(m.data, m.sequenceNumber, s.size);
        OwnedInsert(s, q, d, owners, j, k, NewEntry(m, m.data, 0));
        if OnData(q, m, blank, state).1 != q {
          owners' := owners[..j] + [k] + owners[j..];
        }
    }
  }

  lemma PlainHolds(p: Bytes, start: uint16, size: nat)
    requires |p| <= size && size > 0
    ensures Holds(NewEntry(Reliable(start, p), p, 0), p, size, start)
  {
  }

  /** A fragment: absorbed by the packet it belongs to, which is queued in its place
      when this is the first of its fragments to arrive. */
  lemma FragmentArrives(s: Sender, q: Queues, d: nat, owners: seq<nat>, k: nat, f: nat, blank: Bytes, state: ClientState)
    returns (owners': seq<nat>)
    requires Numbered(s) && Owned(s, q, d, owners) && OnWire(s, OfFragment(k, f)) && WellFormed(q.reliable)
    requires |blank| == |s.packets[k]|
    ensures FragmentFits(s, OfFragment(k, f), blank)
    ensures Owned(s, OnData(q, MessageOf(s, OfFragment(k, f)), blank, state).1, d, owners')
  {
    var m := MessageOf(s, OfFragment(k, f));
    FragmentSmall(s, OfFragment(k, f));
    assert FragmentFits(s, OfFragment(k, f), blank);
    OldExactly(s, q.lastReliable, d, k);
    assert m.startNumber == Start(s.packets, s.size, k);
    owners' := owners;
    var found := FindStart(q.reliable, |q.reliable|, m.startNumber);
    hide Start, MessageOf, FragmentFits, OnFragment, Owned;
    if state == Connected || state == DelayingDisconnect {
      if k < d {
        OldFragment(q, m, blank, state);
      } else if found.Some? {
        AbsorbedByOwner(s, q, d, owners, k, f, found.value);
        LaterFragment(q, m, blank, state, found.value);
      } else if state == Connected {
        owners' := FirstFragmentArrives(s, q, d, owners, k, f, blank);
      } else {
        RefusedFragment(q, m, blank);
      }
    }
  }

  lemma OldFragment(q: Queues, m: DataMessage, blank: Bytes, state: ClientState)
    requires m.Fragment? && WellFormed(q.reliable) && |blank| == m.total && m.offset + |m.data| < 0x1_0000_0000
    requires IsOld(q.lastReliable, m.startNumber)
    ensures OnFragment(q, m, blank, state).1 == q
  {
  }

  /** A client that delays its close takes no new packets. */
  lemma RefusedFragment(q: Queues, m: DataMessage, blank: Bytes)
    requires m.Fragment? && WellFormed(q.reliable) && |blank| == m.total && m.offset + |m.data| < 0x1_0000_0000
    requires FindStart(q.reliable, |q.reliable|, m.startNumber).None?
    ensures OnFragment(q, m, blank, DelayingDisconnect).1 == q
  {
  }

  /** What the handler does with a fragment of a packet it already collects. */
  lemma LaterFragment(q: Queues, m: DataMessage, blank: Bytes, state: ClientState, i: nat)
    requires m.Fragment? && WellFormed(q.reliable) && |blank| == m.total
    requires m.number < m.count && m.offset < m.total && m.offset + |m.data| <= m.total
    requires !IsOld(q.lastReliable, m.startNumber) && FindStart(q.reliable, |q.reliable|, m.startNumber) == Some(i)
    requires m.total == |q.reliable[i].packet| && m.count == q.reliable[i].count
    ensures m.number < 32 * |q.reliable[i].bitmap|
    ensures OnFragment(q, m, blank, state).1
            == q.(reliable := q.reliable[i := Absorb(q.reliable[i], m.number, m.offset, m.data)])
  {
    hide Absorb, IsOld;
  }

  ghost predicate FragmentFits(s: Sender, c: Copy, blank: Bytes)
    requires Numbered(s) && OnWire(s, c)
  {
    var m := MessageOf(s, c);
    m.Fragment? ==> |blank| == m.total && m.offset + |m.data| < 0x1_0000_0000
  }

  lemma AbsorbedByOwner(s: Sender, q: Queues, d: nat, owners: seq<nat>, k: nat, f: nat, i: nat)
    requires Numbered(s) && Owned(s, q, d, owners) && OnWire(s, OfFragment(k, f))
    requires i < |q.reliable| && q.reliable[i].kind == DataFragment
    requires q.reliable[i].reliableNumber == Start(s.packets, s.size, k)
    ensures owners[i] == k && |q.reliable[i].packet| == |s.packets[k]| && q.reliable[i].count == Span(s.packets[k], s.size)
    ensures f < 32 * |q.reliable[i].bitmap|
    ensures Offset(f, s.size) + |Piece(s.packets[k], s.size, f)| <= |q.reliable[i].packet|
    ensures var e := Absorb(q.reliable[i], f, Offset(f, s.size), Piece(s.packets[k], s.size, f));
            Owned(s, q.(reliable := q.reliable[i := e]), d, owners)
  {
    var p := s.packets[k];
    if owners[i] < k {
      StartMono(s.packets, s.size, owners[i], k);
    } else if owners[i] > k {
      StartMono(s.packets, s.size, k, owners[i]);
    }
    PieceInside(p, s.size, f);
    AbsorbKeeps(q.reliable[i], p, s.size, f);
  }

  lemma FirstFragmentArrives(s: Sender, q: Queues, d: nat, owners: seq<nat>, k: nat, f: nat, blank: Bytes)
    returns (owners': seq<nat>)
    requires Numbered(s) && Owned(s, q, d, owners) && OnWire(s, OfFragment(k, f)) && WellFormed(q.reliable)
    requires |blank| == |s.packets[k]| && k >= d
    requires FindStart(q.reliable, |q.reliable|, MessageOf(s, OfFragment(k, f)).startNumber).None?
    ensures FragmentFits(s, OfFragment(k, f), blank)
    ensures Owned(s, OnFragment(q, MessageOf(s, OfFragment(k, f)), blank, Connected).1, d, owners')
  {
    var m := MessageOf(s, OfFragment(k, f));
    NewPlace(s, q, d, owners, k, f);
    assert FragmentFits(s, OfFragment(k, f), blank);
    hide MessageOf, Owned, Numbered, FragmentFits, OnWire;
    FirstFragmentQueued(q, m, blank);
    hide OnFragment, ReliableSlot, TrueSlot, Absorb, FindStart, IsOld, Adjust;
    owners' := owners;
    match TrueSlot(owners, |owners|, k)
    case None =>
    case Some(j) =>
      NewFragmentEntry(s, q, d, owners, j, k, f, m, blank);
      owners' := owners[..j] + [k] + owners[j..];
  }

  /** An undelivered packet's first number is not old, and its place is by its position. */
  lemma NewPlace(s: Sender, q: Queues, d: nat, owners: seq<nat>, k: nat, f: nat)
    requires Numbered(s) && Owned(s, q, d, owners) && OnWire(s, OfFragment(k, f)) && k >= d
    ensures var m := MessageOf(s, OfFragment(k, f));
            && m.Fragment? && m.number == f < m.count && m.startNumber == Start(s.packets, s.size, k)
            && m.offset < m.total && m.offset + |m.data| <= m.total == |s.packets[k]|
            && !IsOld(q.lastReliable, m.startNumber)
            && Adjust(q.lastReliable, m.startNumber) == m.startNumber > q.lastReliable
            && ReliableSlot(q.reliable, |q.reliable|, m.startNumber) == TrueSlot(owners, |owners|, k)
  {
    hide IsOld, Adjust, ReliableSlot, TrueSlot, Piece, Offset, Holds, Increasing;
    FragmentSmall(s, OfFragment(k, f));
    OldExactly(s, q.lastReliable, d, k);
    SlotByOwner(s, q, d, owners, |owners|, k);
    var m := MessageOf(s, OfFragment(k, f));
    assert |owners| == |q.reliable| && m.startNumber == Start(s.packets, s.size, k);
    hide Start, MessageOf, Owned, Numbered;
  }

  /** What the handler does with a fragment of a new packet. */
  lemma FirstFragmentQueued(q: Queues, m: DataMessage, blank: Bytes)
    requires m.Fragment? && WellFormed(q.reliable) && |blank| == m.total
    requires m.number < m.count && m.offset < m.total && m.offset + |m.data| <= m.total
    requires !IsOld(q.lastReliable, m.startNumber) && Adjust(q.lastReliable, m.startNumber) == m.startNumber > q.lastReliable
    requires FindStart(q.reliable, |q.reliable|, m.startNumber).None?
    ensures OnFragment(q, m, blank, Connected).1 ==
            match ReliableSlot(q.reliable, |q.reliable|, m.startNumber)
            case None => q
            case Some(j) =>
              var e := NewEntry(StartMessage(m), blank, m.count);
              q.(reliable := Insert(q.reliable, j, e)[j := Absorb(e, m.number, m.offset, m.data)])
  {
    hide Absorb, FindStart, IsOld, Adjust, ReliableSlot;
  }

  lemma NewFragmentHolds(p: Bytes, size: nat, start: uint16, f: nat, blank: Bytes)
    requires 0 < size < |p| < 0x8000_0000 && f < Span(p, size) && |blank| == |p|
    ensures var m := FragmentOf(p, size, start, f);
            Holds(NewEntry(StartMessage(m), blank, m.count), p, size, start)
  {
    hide Span, Offset, Piece, Reassembling;
    var m := FragmentOf(p, size, start, f);
    NewEntryReassembles(StartMessage(m), p, size, blank);
  }

  lemma NewFragmentEntry(s: Sender, q: Queues, d: nat, owners: seq<nat>, j: nat, k: nat, f: nat, m: DataMessage, blank: Bytes)
    requires Numbered(s) && Owned(s, q, d, owners) && OnWire(s, OfFragment(k, f)) && d <= k
    requires m == MessageOf(s, OfFragment(k, f)) && |blank| == |s.packets[k]|
    requires TrueSlot(owners, |owners|, k) == Some(j)
    ensures j <= |q.reliable| && m.Fragment?
    ensures var e := NewEntry(StartMessage(m), blank, m.count);
            && m.number < 32 * |e.bitmap| && m.offset + |m.data| <= |e.packet|
            && Owned(s, q.(reliable := Insert(q.reliable, j, e)[j := Absorb(e, m.number, m.offset, m.data)]), d,
                     owners[..j] + [k] + owners[j..])
  {
    var e := NewEntry(StartMessage(m), blank, m.count);
    FragmentSmall(s, OfFragment(k, f));
    StartSmall(s, k);
    NewFragmentHolds(s.packets[k], s.size, Start(s.packets, s.size, k), f, blank);
    hide Holds, Absorb, Offset, Piece;
    OwnedInsert(s, q, d, owners, j, k, e);
    hide Start, Owned;
    AbsorbedByOwner(s, q.(reliable := Insert(q.reliable, j, e)), d, owners[..j] + [k] + owners[j..], k, f, j);
  }

  /** Another reliable packet is sent. */
  lemma OwnedGrows(s: Sender, p: Bytes, q: Queues, d: nat, owners: seq<nat>)
    requires Numbered(s) && Numbered(s.(packets := s.packets + [p])) && Owned(s, q, d, owners)
    ensures Owned(s.(packets := s.packets + [p]), q, d, owners)
  {
    hide Holds, Increasing;
    forall i | 0 <= i < |owners|
      ensures Start(s.packets + [p], s.size, owners[i]) == Start(s.packets, s.size, owners[i])
    {
      StartPrefix(s.packets, p, s.size, owners[i]);
    }
    StartPrefix(s.packets, p, s.size, d);
  }

  /** A reliable packet is delivered only when it is the next one, whole. */
  lemma NextDelivered(s: Sender, q: Queues, d: nat, owners: seq<nat>)
    requires Numbered(s) && Owned(s, q, d, owners) && Receive(q).0.FromReliable?
    ensures d < |s.packets| && Receive(q).0.packet == s.packets[d]
    ensures owners != [] && Owned(s, Receive(q).1, d + 1, owners[1..])
  {
    var e, k := q.reliable[0], owners[0];
    var p := s.packets[k];
    StartSmall(s, k);
    StartSmall(s, d);
    if k > d {
      StartMono(s.packets, s.size, d, k);
    }
    assert k == d;
    WholePacket(e, p, s.size, Start(s.packets, s.size, d));
    assert Start(s.packets, s.size, d + 1) == Start(s.packets, s.size, d) + Span(p, s.size);
    hide Start, Holds, Span;
  }

  lemma WholePacket(e: Entry, p: Bytes, size: nat, start: nat)
    requires size > 0 && Holds(e, p, size, start) && e.remaining <= 0
    ensures e.packet == p && (if e.count > 0 then e.count == Span(p, size) else Span(p, size) == 1)
  {
    if |p| > size {
      CompletePacket(e, p, size);
      SpanPositive(p, size);
    }
  }

  // ----------------------------------------------------- unreliable messages

  /** An entry of the unreliable queue is for a packet that was sent. */
  ghost predicate LateEntry(s: Sender, e: Entry)
    requires Numbered(s)
  {
    if e.kind == UnreliableData then
      && 1 <= e.unreliableNumber <= |s.late| && e.packet == s.late[e.unreliableNumber - 1].data
      && e.reliableNumber == Start(s.packets, s.size, s.late[e.unreliableNumber - 1].after) - 1
    else e.kind == UnsequencedData && e.packet in s.loose
  }

  /** Sequenced entries are in order and after the last one delivered. */
  ghost predicate LateOrder(t: seq<Entry>, last: nat) {
    && (forall i :: 0 <= i < |t| && t[i].kind == UnreliableData ==> last < t[i].unreliableNumber)
    && (forall i, j :: 0 <= i < j < |t| && t[i].kind == UnreliableData && t[j].kind == UnreliableData ==>
          t[i].unreliableNumber < t[j].unreliableNumber)
  }

  ghost predicate LateQueue(s: Sender, q: Queues)
    requires Numbered(s)
  {
    && q.lastUnreliable < HIGH && LateOrder(q.unreliable, q.lastUnreliable)
    && forall i :: 0 <= i < |q.unreliable| ==> LateEntry(s, q.unreliable[i])
  }

  /** The scan is sorted insertion that passes over unsequenced entries. */
  lemma {:induction false} LateSlotSorts(t: seq<Entry>, k: nat, n: uint16, last: nat)
    requires k <= |t| && LateOrder(t, last)
    ensures match UnreliableSlot(t, k, n)
            case None => true
            case Some(j) =>
              && (forall i :: 0 <= i < j && t[i].kind == UnreliableData ==> t[i].unreliableNumber < n)
              && (forall i :: j <= i < k && t[i].kind == UnreliableData ==> n < t[i].unreliableNumber)
  {
    if k > 0 && (t[k - 1].kind != UnreliableData || t[k - 1].unreliableNumber > n) {
      LateSlotSorts(t, k - 1, n, last);
    }
  }

  lemma LateInsert(t: seq<Entry>, j: nat, e: Entry, last: nat)
    requires j <= |t| && LateOrder(t, last) && (e.kind == UnreliableData ==> last < e.unreliableNumber)
    requires e.kind == UnreliableData ==>
               && (forall i :: 0 <= i < j && t[i].kind == UnreliableData ==> t[i].unreliableNumber < e.unreliableNumber)
               && (forall i :: j <= i < |t| && t[i].kind == UnreliableData ==> e.unreliableNumber < t[i].unreliableNumber)
    ensures LateOrder(Insert(t, j, e), last)
  {
  }

  lemma LateArrives(s: Sender, q: Queues, u: nat, blank: Bytes, state: ClientState)
    requires Numbered(s) && LateQueue(s, q) && u < |s.late| && WellFormed(q.reliable)
    ensures LateQueue(s, OnData(q, MessageOf(s, OfLate(u)), blank, state).1)
  {
    var m := MessageOf(s, OfLate(u));
    StartSmall(s, s.late[u].after);
    var e := NewEntry(m, m.data, 0);
    assert LateEntry(s, e);
    LateQueued(q, m, blank, state);
    hide OnData, MessageOf, LateEntry, NewEntry;
    match UnreliableSlot(q.unreliable, |q.unreliable|, u + 1)
    case None =>
    case Some(j) =>
      LateSlotSorts(q.unreliable, |q.unreliable|, u + 1, q.lastUnreliable);
      if q.lastUnreliable < u + 1 {
        LateInsert(q.unreliable, j, e, q.lastUnreliable);
        hide LateOrder, UnreliableSlot;
      }
  }

  /** What the handler does with an unreliable message whose number is below 0xF000. */
  lemma LateQueued(q: Queues, m: DataMessage, blank: Bytes, state: ClientState)
    requires m.Unreliable? && m.unreliableNumber < HIGH && q.lastUnreliable < HIGH && WellFormed(q.reliable)
    ensures var q', slot := OnData(q, m, blank, state).1, UnreliableSlot(q.unreliable, |q.unreliable|, m.unreliableNumber);
            || q' == q
            || (slot.Some? && q.lastUnreliable < m.unreliableNumber
                && q' == q.(unreliable := Insert(q.unreliable, slot.value, NewEntry(m, m.data, 0))))
  {
    hide IsOld, UnreliableSlot;
  }

  lemma LooseArrives(s: Sender, q: Queues, c: Copy, blank: Bytes, state: ClientState)
    requires Numbered(s) && LateQueue(s, q) && c.OfLoose? && OnWire(s, c) && WellFormed(q.reliable)
    ensures LateQueue(s, OnData(q, MessageOf(s, c), blank, state).1)
  {
    var m := MessageOf(s, c);
    hide Start, LateOrder;
    LateInsert(q.unreliable, 0, NewEntry(m, m.data, 0), q.lastUnreliable);
  }

  /** What has been delivered unreliably: sent packets, each at its place among the
      reliable ones, in the order sent. */
  ghost predicate Arrived(s: Sender, r: Receiver) {
    && (forall i :: 0 <= i < |r.arrivals| ==>
          var a := r.arrivals[i];
          1 <= a.number <= |s.late| && s.late[a.number - 1] == Late(a.after, a.data) && a.number <= r.queues.lastUnreliable)
    && (forall i, j :: 0 <= i < j < |r.arrivals| ==> r.arrivals[i].number < r.arrivals[j].number)
    && (forall i :: 0 <= i < |r.loose| ==> r.loose[i] in s.loose)
  }

  lemma LateDelivered(s: Sender, r: Receiver, owners: seq<nat>)
    requires Numbered(s) && Owned(s, r.queues, |r.delivered|, owners) && LateQueue(s, r.queues) && Arrived(s, r)
    requires Receive(r.queues).0.FromUnreliable?
    ensures LateQueue(s, Deliver(r).queues) && Arrived(s, Deliver(r)) && Owned(s, Deliver(r).queues, |r.delivered|, owners)
  {
    var e := r.queues.unreliable[0];
    if e.kind == UnreliableData {
      SamePlace(s, s.late[e.unreliableNumber - 1].after, |r.delivered|);
    }
    hide Start, Holds, Increasing, Numbered;
  }

  lemma {:induction false} SamePlace(s: Sender, j: nat, k: nat)
    requires Numbered(s) && j <= |s.packets| && k <= |s.packets|
    ensures Start(s.packets, s.size, j) == Start(s.packets, s.size, k) ==> j == k
  {
    if j < k {
      StartMono(s.packets, s.size, j, k);
    } else if k < j {
      StartMono(s.packets, s.size, k, j);
    }
  }

  // ----------------------------------------------------------------- runs

  ghost predicate Inv(y: System, owners: seq<nat>) {
    var s, r := y.sender, y.receiver;
    && Numbered(s) && Owned(s, r.queues, |r.delivered|, owners)
    && r.delivered == s.packets[..|r.delivered|]
    && LateQueue(s, r.queues) && Arrived(s, r)
  }

  lemma ArriveKeeps(y: System, owners: seq<nat>, e: Event) returns (owners': seq<nat>)
    requires Inv(y, owners) && Enabled(y, e) && e.Arrive?
    ensures Inv(Effect(y, e), owners')
  {
    var s, q, d := y.sender, y.receiver.queues, |y.receiver.delivered|;
    FragmentSmall(s, e.copy);
    var m := MessageOf(s, e.copy);
    OnDataTouches(q, m, e.blank, e.state);
    owners' := owners;
    match e.copy
    case OfPacket(k) => owners' := PacketArrives(s, q, d, owners, k, e.blank, e.state);
    case OfFragment(k, f) => owners' := FragmentArrives(s, q, d, owners, k, f, e.blank, e.state);
    case OfLate(u) => LateArrives(s, q, u, e.blank, e.state);
    case OfLoose(_, _) => LooseArrives(s, q, e.copy, e.blank, e.state);
  }

  /** A message changes the queue of its own sort only. */
  lemma OnDataTouches(q: Queues, m: DataMessage, blank: Bytes, state: ClientState)
    requires m.Fragment? ==> |blank| == m.total && m.offset + |m.data| < 0x1_0000_0000
    requires WellFormed(q.reliable)
    ensures var q' := OnData(q, m, blank, state).1;
            if m.Reliable? || m.Fragment? then q' == q.(reliable := q'.reliable) else q' == q.(unreliable := q'.unreliable)
  {
    hide Absorb, IsOld, Adjust, ReliableSlot, UnreliableSlot, FindStart;
  }

  lemma SendKeeps(y: System, owners: seq<nat>, e: Event)
    requires Inv(y, owners) && Enabled(y, e) && (e.SendReliable? || e.SendUnreliable? || e.SendUnsequenced?)
    ensures Inv(Effect(y, e), owners)
  {
    var s, q := y.sender, y.receiver.queues;
    hide LateOrder, Holds, Increasing;
    match e
    case SendReliable(p) =>
      OwnedGrows(s, p, q, |y.receiver.delivered|, owners);
      hide Owned;
      LateQueueGrows(s, p, q);
    case SendUnreliable(data) =>
    case SendUnsequenced(data) =>
  }

  lemma LateQueueGrows(s: Sender, p: Bytes, q: Queues)
    requires Numbered(s) && Numbered(s.(packets := s.packets + [p])) && LateQueue(s, q)
    ensures LateQueue(s.(packets := s.packets + [p]), q)
  {
    hide LateOrder;
    forall u | 0 <= u < |s.late|
      ensures Start(s.packets + [p], s.size, s.late[u].after) == Start(s.packets, s.size, s.late[u].after)
    {
      StartPrefix(s.packets, p, s.size, s.late[u].after);
    }
  }

  lemma TakeKeeps(y: System, owners: seq<nat>) returns (owners': seq<nat>)
    requires Inv(y, owners)
    ensures Inv(y.(receiver := Deliver(y.receiver)), owners')
  {
    var s, r := y.sender, y.receiver;
    owners' := owners;
    match Receive(r.queues).0
    case Nothing =>
    case FromReliable(p) =>
      NextDelivered(s, r.queues, |r.delivered|, owners);
      owners' := owners[1..];
      hide Owned, LateOrder, LateEntry, Numbered;
    case FromUnreliable(e) =>
      LateDelivered(s, r, owners);
      hide Owned, LateQueue, Arrived, Numbered;
  }

  lemma EffectKeeps(y: System, owners: seq<nat>, e: Event) returns (owners': seq<nat>)
    requires Inv(y, owners) && Enabled(y, e)
    ensures Inv(Effect(y, e), owners')
  {
    owners' := owners;
    if e.Arrive? {
      owners' := ArriveKeeps(y, owners, e);
    } else if e.Take? {
      owners' := TakeKeeps(y, owners);
    } else {
      SendKeeps(y, owners, e);
    }
  }

  lemma {:induction false} RunKeeps(y: System, owners: seq<nat>, events: seq<Event>) returns (owners': seq<nat>)
    requires Inv(y, owners) && ValidRun(y, events)
    ensures Inv(After(y, events), owners')
    decreases |events|
  {
    owners' := owners;
    if events != [] {
      owners' := EffectKeeps(y, owners, events[0]);
      hide Inv, Effect, Enabled;
      owners' := RunKeeps(Effect(y, events[0]), owners', events[1..]);
    }
  }

  /** A channel that has just been opened. */
  ghost function Opened(size: nat): System {
    System(Sender(size, [], [], {}), Receiver(Queues(0, 0, [], []), [], [], []), {}, {})
  }

  /** Reliable delivery is always a prefix: whatever is lost, repeated or reordered,
      the packets delivered are the first ones sent, in order, each once and whole,
      and the queue of those waiting is strictly increasing and above the last
      number delivered. */
  lemma DeliveredIsPrefix(size: nat, events: seq<Event>)
    requires size > 0 && ValidRun(Opened(size), events)
    ensures var y := After(Opened(size), events);
            && y.receiver.delivered <= y.sender.packets
            && (forall i :: 0 <= i < |y.receiver.queues.reliable| ==>
                  y.receiver.queues.lastReliable < y.receiver.queues.reliable[i].reliableNumber)
            && (forall i, j :: 0 <= i < j < |y.receiver.queues.reliable| ==>
                  y.receiver.queues.reliable[i].reliableNumber < y.receiver.queues.reliable[j].reliableNumber)
  {
    var owners := RunKeeps(Opened(size), [], events);
    QueueSorted(After(Opened(size), events), owners);
  }

  lemma QueueSorted(y: System, owners: seq<nat>)
    requires Inv(y, owners)
    ensures var q := y.receiver.queues;
            && (forall i :: 0 <= i < |q.reliable| ==> q.lastReliable < q.reliable[i].reliableNumber)
            && (forall i, j :: 0 <= i < j < |q.reliable| ==> q.reliable[i].reliableNumber < q.reliable[j].reliableNumber)
  {
    var s, q, d := y.sender, y.receiver.queues, |y.receiver.delivered|;
    hide Reassembling;
    forall i | 0 <= i < |q.reliable|
      ensures q.lastReliable < q.reliable[i].reliableNumber
    {
      if d < owners[i] {
        StartMono(s.packets, s.size, d, owners[i]);
      }
    }
    forall i, j | 0 <= i < j < |q.reliable|
      ensures q.reliable[i].reliableNumber < q.reliable[j].reliableNumber
    {
      StartMono(s.packets, s.size, owners[i], owners[j]);
    }
  }

  /** Unreliable packets may be lost, but those delivered were sent, come in the
      order sent, none twice, and each comes after exactly the reliable packets that
      were sent before it. Unsequenced packets delivered were sent. */
  lemma UnreliableInOrder(size: nat, events: seq<Event>)
    requires size > 0 && ValidRun(Opened(size), events)
    ensures var y := After(Opened(size), events);
            && (forall i :: 0 <= i < |y.receiver.arrivals| ==>
                  var a := y.receiver.arrivals[i];
                  1 <= a.number <= |y.sender.late| && y.sender.late[a.number - 1] == Late(a.after, a.data))
            && (forall i, j :: 0 <= i < j < |y.receiver.arrivals| ==>
                  y.receiver.arrivals[i].number < y.receiver.arrivals[j].number)
            && (forall i :: 0 <= i < |y.receiver.loose| ==> y.receiver.loose[i] in y.sender.loose)
  {
    var owners := RunKeeps(Opened(size), [], events);
  }
}
