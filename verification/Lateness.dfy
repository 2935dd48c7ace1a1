/** What becomes of unreliable and unsequenced messages that are heard. */
module Lateness {
  import opened Words
  import opened Wrappers
  import opened Messages
  import opened Sequence
  import opened Bitmap
  import opened Incoming
  import opened Fragments
  import opened QueueOrder
  import opened Transport
  import opened Completeness

  // --------------------------------------------------------- what is accepted

  /** The number follows the last one delivered. */
  predicate Ahead(last: uint16, number: uint16) {
    (last >= HIGH && number < LOW) || (number > last && !(last < LOW && number >= HIGH))
  }

  /** By unbounded numbers, for every message less than 0x1000 away. */
  lemma AheadExact(last: nat, number: nat)
    requires last - LOW < number < last + LOW
    ensures Ahead(last % 0x1_0000, number % 0x1_0000) <==> number > last
  {
    NearParts(last, number);
  }

  predicate Queued(t: seq<Entry>, number: nat) {
    exists i :: 0 <= i < |t| && t[i].kind == UnreliableData && t[i].unreliableNumber == number
  }

  /** Among queued numbers that have not wrapped the scan finds a number exactly when it
      is there ... */
  lemma {:induction false} SlotFinds(t: seq<Entry>, k: nat, n: uint16, last: nat)
    requires k <= |t| && LateOrder(t, last)
    ensures UnreliableSlot(t, k, n).None? <==>
            exists i :: 0 <= i < k && t[i].kind == UnreliableData && t[i].unreliableNumber == n
  {
    if k > 0 {
      SlotFinds(t, k - 1, n, last);
    }
  }

  /** ... and one that has wrapped goes behind them all. */
  lemma {:induction false} SlotWrapped(t: seq<Entry>, k: nat, n: uint32, last: nat)
    requires k <= |t| && LateOrder(t, last) && last >= HIGH && 0x1_0000 <= n < 0x1_0000 + LOW
    ensures match UnreliableSlot(t, k, n)
            case None => false
            case Some(j) => forall i :: j <= i < k ==> t[i].kind != UnreliableData
  {
    if k > 0 {
      SlotWrapped(t, k - 1, n, last);
    }
  }

  /** The entry for an unreliable message. */
  predicate IsEntryOf(e: Entry, m: DataMessage) {
    && m.Unreliable? && e.kind == UnreliableData && e.unreliableNumber == m.unreliableNumber
    && e.reliableNumber == m.sequenceNumber && e.packet == m.data
  }

  /** An unreliable message is queued if and only if the client is connected, the packet
      is not empty, its reliable number is not old, its own number is ahead of the last
      one delivered, and it is not queued already. It goes behind all that precede it and
      before all that follow. */
  lemma LateAcceptedExactly(q: Queues, m: DataMessage, blank: Bytes, state: ClientState)
    requires m.Unreliable? && WellFormed(q.reliable) && LateOrder(q.unreliable, q.lastUnreliable)
    ensures var q' := OnData(q, m, blank, state).1;
            && (q' != q <==> && state == Connected && m.data != [] && !IsOld(q.lastReliable, m.sequenceNumber)
                             && Ahead(q.lastUnreliable, m.unreliableNumber) && !Queued(q.unreliable, m.unreliableNumber))
            && (q' != q ==> exists j, e :: InsertedAt(q, q', j, e, m))
  {
    var n := Adjust(q.lastUnreliable, m.unreliableNumber);
    if q.lastUnreliable >= HIGH && m.unreliableNumber < LOW {
      SlotWrapped(q.unreliable, |q.unreliable|, n, q.lastUnreliable);
    } else {
      SlotFinds(q.unreliable, |q.unreliable|, n, q.lastUnreliable);
      LateSlotSorts(q.unreliable, |q.unreliable|, n, q.lastUnreliable);
    }
    var q', slot := OnData(q, m, blank, state).1, UnreliableSlot(q.unreliable, |q.unreliable|, n);
    hide UnreliableSlot, IsOld;
    if q' != q {
      assert InsertedAt(q, q', slot.value, NewEntry(m, m.data, 0), m);
    }
  }

  ghost predicate InsertedAt(q: Queues, q': Queues, j: nat, e: Entry, m: DataMessage) {
    && j <= |q.unreliable| && q' == q.(unreliable := Insert(q.unreliable, j, e)) && IsEntryOf(e, m)
    && (forall i :: j <= i < |q.unreliable| && q.unreliable[i].kind == UnreliableData ==>
          m.unreliableNumber < q.unreliable[i].unreliableNumber && !(q.lastUnreliable >= HIGH && m.unreliableNumber < LOW))
    && (forall i :: 0 <= i < j && q.unreliable[i].kind == UnreliableData ==>
          q.unreliable[i].unreliableNumber < m.unreliableNumber || (q.lastUnreliable >= HIGH && m.unreliableNumber < LOW))
  }

  /** The same by unbounded numbers, each less than 0x1000 away from the last one
      delivered of its sort. */
  lemma LateAcceptedByNumbers(q: Queues, m: DataMessage, blank: Bytes, state: ClientState, lastReliable: nat, reliable: nat,
                              lastUnreliable: nat, number: nat)
    requires m.Unreliable? && WellFormed(q.reliable) && LateOrder(q.unreliable, q.lastUnreliable)
    requires q.lastReliable == lastReliable % 0x1_0000 && m.sequenceNumber == reliable % 0x1_0000
    requires q.lastUnreliable == lastUnreliable % 0x1_0000 && m.unreliableNumber == number % 0x1_0000
    requires lastReliable - LOW < reliable < lastReliable + LOW && lastUnreliable - LOW < number < lastUnreliable + LOW
    ensures OnData(q, m, blank, state).1 != q <==>
            && state == Connected && m.data != [] && reliable >= lastReliable && number > lastUnreliable
            && !Queued(q.unreliable, m.unreliableNumber)
  {
    LateAcceptedExactly(q, m, blank, state);
    OldTestExact(lastReliable, reliable);
    AheadExact(lastUnreliable, number);
    hide OnData, IsOld, Ahead, Queued, LateOrder;
  }

  /** An unsequenced message is always queued, before all others. */
  lemma LooseAccepted(q: Queues, group: uint16, data: Bytes, blank: Bytes)
    requires WellFormed(q.reliable) && data != []
    ensures exists e: Entry :: e.kind == UnsequencedData && e.packet == data
                        && OnData(q, Unsequenced(group, data), blank, Connected).1 == q.(unreliable := [e] + q.unreliable)
  {
    var e := NewEntry(Unsequenced(group, data), data, 0);
    assert Insert(q.unreliable, 0, e) == [e] + q.unreliable;
  }

  /** What is taken next: an unsequenced packet at the head always, an unreliable one
      exactly when the reliable packets sent before it have been taken. */
  lemma LateTakenExactly(q: Queues)
    requires q.unreliable != []
    ensures Receive(q).0.FromUnreliable? <==>
            q.unreliable[0].kind != UnreliableData || q.unreliable[0].reliableNumber == q.lastReliable
    ensures Receive(q).0.FromUnreliable? ==>
              Receive(q).0.entry == q.unreliable[0] && Receive(q).1.unreliable == q.unreliable[1..]
              && Receive(q).1.reliable == q.reliable && Receive(q).1.lastReliable == q.lastReliable
  {
  }

  // ------------------------------------------------------------------- runs

  /** The k-th unreliable packet has been delivered, or is queued; or a later one has
      been delivered before it could be queued, or a later reliable one. */
  ghost predicate LateKept(y: System, u: nat) {
    && u < |y.sender.late|
    && (|| y.sender.late[u].data == []
        || (exists i :: 0 <= i < |y.receiver.arrivals| && y.receiver.arrivals[i].number >= u + 1)
        || Queued(y.receiver.queues.unreliable, u + 1)
        || |y.receiver.delivered| > y.sender.late[u].after)
  }

  ghost predicate LooseKept(y: System, data: Bytes) {
    data == [] || data in y.receiver.loose || LooseQueued(y.receiver.queues.unreliable, data)
  }

  ghost predicate LooseQueued(t: seq<Entry>, data: Bytes) {
    exists i :: 0 <= i < |t| && t[i].kind == UnsequencedData && t[i].packet == data
  }

  /** The last unreliable number is that of the last packet delivered; the queued ones
      belong to reliable packets that are still to come or are the last taken. */
  ghost predicate InStep(y: System) {
    var s, r := y.sender, y.receiver;
    && (forall u, v :: 0 <= u < v < |s.late| ==> s.late[u].after <= s.late[v].after)
    && (forall u :: 0 <= u < |s.late| ==> s.late[u].after <= |s.packets|)
    && r.queues.lastUnreliable == (if r.arrivals == [] then 0 else r.arrivals[|r.arrivals| - 1].number)
    && Belong(s, r.queues.unreliable, |r.delivered|)
  }

  ghost predicate Belong(s: Sender, t: seq<Entry>, d: nat) {
    forall i :: 0 <= i < |t| && t[i].kind == UnreliableData ==>
      1 <= t[i].unreliableNumber <= |s.late| && s.late[t[i].unreliableNumber - 1].after >= d
  }

  lemma BelongInsert(s: Sender, t: seq<Entry>, j: nat, x: Entry, d: nat)
    requires Belong(s, t, d) && j <= |t|
    requires x.kind == UnreliableData ==> 1 <= x.unreliableNumber <= |s.late| && s.late[x.unreliableNumber - 1].after >= d
    ensures Belong(s, Insert(t, j, x), d)
  {
    var r := Insert(t, j, x);
    assert forall i :: 0 <= i < |r| ==> r[i] == (if i < j then t[i] else if i == j then x else t[i - 1]);
  }

  ghost predicate LateRemembers(y: System) {
    && InStep(y)
    && (forall c :: c in y.heard && c.OfLate? ==> LateKept(y, c.u))
    && (forall c :: c in y.heard && c.OfLoose? ==> LooseKept(y, c.data))
  }

  lemma InsertKeepsQueued(t: seq<Entry>, j: nat, e: Entry, number: nat, data: Bytes)
    requires j <= |t|
    ensures Queued(t, number) ==> Queued(Insert(t, j, e), number)
    ensures LooseQueued(t, data) ==> LooseQueued(Insert(t, j, e), data)
    ensures e.kind == UnreliableData ==> Queued(Insert(t, j, e), e.unreliableNumber)
    ensures e.kind == UnsequencedData ==> LooseQueued(Insert(t, j, e), e.packet)
  {
    var r := Insert(t, j, e);
    assert r[j] == e;
    forall i | 0 <= i < |t|
      ensures t[i] == r[if i < j then i else i + 1]
    {
    }
  }

  /** Old by its reliable number is what belongs to a reliable packet before the last
      one taken. */
  lemma OldBehind(s: Sender, last: uint16, d: nat, after: nat)
    requires Numbered(s) && d <= |s.packets| && after <= |s.packets| && last == Start(s.packets, s.size, d) - 1
    ensures Start(s.packets, s.size, after) <= HIGH
    ensures IsOld(last, Start(s.packets, s.size, after) - 1) <==> after < d
  {
    StartSmall(s, d);
    StartSmall(s, after);
    if after < d {
      StartMono(s.packets, s.size, after, d);
    } else if d < after {
      StartMono(s.packets, s.size, d, after);
    }
    hide Start;
  }

  /** An unreliable message arrives. */
  lemma LateComes(y: System, owners: seq<nat>, u: nat, blank: Bytes, state: ClientState) returns (j: nat, e: Entry)
    requires Inv(y, owners) && InStep(y) && u < |y.sender.late| && WellFormed(y.receiver.queues.reliable)
    ensures var q, m := y.receiver.queues, MessageOf(y.sender, OfLate(u));
            var q' := OnData(q, m, blank, state).1;
            q' == q || (j <= |q.unreliable| && q' == q.(unreliable := Insert(q.unreliable, j, e)) && e.kind == UnreliableData
                        && e.unreliableNumber == u + 1 && y.sender.late[u].after >= |y.receiver.delivered|)
    ensures var q, m := y.receiver.queues, MessageOf(y.sender, OfLate(u));
            var q' := OnData(q, m, blank, state).1;
            q' == q && state == Connected ==>
              || y.sender.late[u].data == [] || y.sender.late[u].after < |y.receiver.delivered|
              || u + 1 <= q.lastUnreliable || Queued(q.unreliable, u + 1)
  {
    var s, q := y.sender, y.receiver.queues;
    var m := MessageOf(s, OfLate(u));
    OldBehind(s, q.lastReliable, |y.receiver.delivered|, s.late[u].after);
    assert m.Unreliable? && m.unreliableNumber == u + 1 && m.data == s.late[u].data
           && m.sequenceNumber == Start(s.packets, s.size, s.late[u].after) - 1;
    LateAcceptedExactly(q, m, blank, state);
    hide OnData, MessageOf, Start, IsOld, Queued, LateOrder, Owned, Arrived;
    j, e := 0, NewEntry(m, m.data, 0);
    if OnData(q, m, blank, state).1 != q {
      j, e :| InsertedAt(q, OnData(q, m, blank, state).1, j, e, m);
    }
  }

  /** Nothing queued is lost. */
  ghost predicate Grown(t: seq<Entry>, t': seq<Entry>) {
    && (forall number {:trigger Queued(t', number)} :: Queued(t, number) ==> Queued(t', number))
    && (forall data {:trigger LooseQueued(t', data)} :: LooseQueued(t, data) ==> LooseQueued(t', data))
  }

  lemma InsertGrows(t: seq<Entry>, j: nat, e: Entry)
    requires j <= |t|
    ensures Grown(t, Insert(t, j, e))
  {
    hide Queued, LooseQueued;
    forall number: nat
      ensures Queued(t, number) ==> Queued(Insert(t, j, e), number)
    {
      InsertKeepsQueued(t, j, e, number, []);
    }
    forall data: Bytes
      ensures LooseQueued(t, data) ==> LooseQueued(Insert(t, j, e), data)
    {
      InsertKeepsQueued(t, j, e, 0, data);
    }
  }

  lemma SameGrows(t: seq<Entry>)
    ensures Grown(t, t)
  {
  }

  /** An arrival that takes nothing away. */
  lemma ArrivalRemembers(y: System, z: System, c: Copy)
    requires LateRemembers(y) && InStep(z) && z.sender == y.sender && z.receiver == y.receiver.(queues := z.receiver.queues)
    requires Grown(y.receiver.queues.unreliable, z.receiver.queues.unreliable) && z.heard <= y.heard + {c}
    requires c in z.heard && c.OfLate? ==> LateKept(z, c.u)
    requires c in z.heard && c.OfLoose? ==> LooseKept(z, c.data)
    ensures LateRemembers(z)
  {
    hide Queued, LooseQueued, InStep;
  }

  lemma LateArrivalRemembers(y: System, owners: seq<nat>, e: Event)
    requires Inv(y, owners) && LateRemembers(y) && Enabled(y, e) && e.Arrive? && e.copy.OfLate?
    ensures LateRemembers(Effect(y, e))
  {
    var q, u := y.receiver.queues, e.copy.u;
    var j, x := LateComes(y, owners, u, e.blank, e.state);
    var z := Effect(y, e);
    FragmentSmall(y.sender, e.copy);
    var q' := z.receiver.queues;
    hide OnData, MessageOf, Start, Inv, Answered, Numbered, LateKept, LooseKept, Queued, LooseQueued, Grown;
    StepStays(y, z, j, x);
    if q' != q {
      InsertGrows(q.unreliable, j, x);
      InsertKeepsQueued(q.unreliable, j, x, u + 1, []);
    } else {
      SameGrows(q.unreliable);
    }
    LateHeardKept(y, z, u);
    hide InStep, LateRemembers;
    ArrivalRemembers(y, z, e.copy);
  }

  /** The packet just heard is kept. */
  lemma LateHeardKept(y: System, z: System, u: nat)
    requires InStep(y) && z.sender == y.sender && z.receiver == y.receiver.(queues := z.receiver.queues) && u < |y.sender.late|
    ensures || Queued(z.receiver.queues.unreliable, u + 1) || y.sender.late[u].data == []
            || y.sender.late[u].after < |y.receiver.delivered| || u + 1 <= y.receiver.queues.lastUnreliable
            ==> LateKept(z, u)
  {
    var r := y.receiver;
    if u + 1 <= r.queues.lastUnreliable {
      assert r.arrivals[|r.arrivals| - 1].number >= u + 1;
    }
  }

  lemma LooseArrivalRemembers(y: System, owners: seq<nat>, e: Event)
    requires Inv(y, owners) && LateRemembers(y) && Enabled(y, e) && e.Arrive? && e.copy.OfLoose?
    ensures LateRemembers(Effect(y, e))
  {
    var q, data := y.receiver.queues, e.copy.data;
    var x := LooseComes(y, e.copy, e.blank, e.state);
    var z := Effect(y, e);
    FragmentSmall(y.sender, e.copy);
    var q' := z.receiver.queues;
    hide OnData, MessageOf, Start, Inv, Answered, Numbered, LateKept, Queued, LooseQueued, Grown;
    StepStays(y, z, 0, x);
    if q' != q {
      InsertGrows(q.unreliable, 0, x);
      InsertKeepsQueued(q.unreliable, 0, x, 0, data);
    } else {
      SameGrows(q.unreliable);
    }
    hide InStep, LateRemembers;
    ArrivalRemembers(y, z, e.copy);
  }

  lemma LooseComes(y: System, c: Copy, blank: Bytes, state: ClientState) returns (e: Entry)
    requires Numbered(y.sender) && c.OfLoose? && OnWire(y.sender, c) && WellFormed(y.receiver.queues.reliable)
    ensures e.kind == UnsequencedData && e.packet == c.data
    ensures var q, m := y.receiver.queues, MessageOf(y.sender, c);
            var q' := OnData(q, m, blank, state).1;
            q' == q || q' == q.(unreliable := Insert(q.unreliable, 0, e))
    ensures var q, m := y.receiver.queues, MessageOf(y.sender, c);
            state == Connected && c.data != [] ==> OnData(q, m, blank, state).1 == q.(unreliable := Insert(q.unreliable, 0, e))
  {
    e := NewEntry(MessageOf(y.sender, c), c.data, 0);
    hide Start;
  }

  lemma ReliableArrivalRemembers(y: System, owners: seq<nat>, e: Event)
    requires Inv(y, owners) && LateRemembers(y) && Enabled(y, e) && e.Arrive? && Carries(e.copy)
    ensures LateRemembers(Effect(y, e))
  {
    var q, m := y.receiver.queues, MessageOf(y.sender, e.copy);
    FragmentSmall(y.sender, e.copy);
    OnDataTouches(q, m, e.blank, e.state);
    var z := Effect(y, e);
    assert m.Reliable? || m.Fragment?;
    hide OnData, MessageOf, Start, Inv, Answered, Numbered, LateKept, LooseKept, Grown;
    SameGrows(q.unreliable);
    StepStays(y, z, 0, Entry(UnsequencedData, 0, 0, 0, 0, [], []));
    hide InStep, LateRemembers;
    ArrivalRemembers(y, z, e.copy);
  }

  // ----------------------------------------------------------------- taking

  /** The queued packets are for reliable ones not taken yet when the head is not taken. */
  lemma BlockedLater(y: System, owners: seq<nat>)
    requires Inv(y, owners) && InStep(y) && !Receive(y.receiver.queues).0.FromUnreliable?
    ensures forall i :: 0 <= i < |y.receiver.queues.unreliable| && y.receiver.queues.unreliable[i].kind == UnreliableData ==>
              y.sender.late[y.receiver.queues.unreliable[i].unreliableNumber - 1].after > |y.receiver.delivered|
    ensures y.receiver.queues.unreliable != [] ==> y.receiver.queues.unreliable[0].kind == UnreliableData
  {
    var s, q, d := y.sender, y.receiver.queues, |y.receiver.delivered|;
    if q.unreliable != [] {
      LateTakenExactly(q);
      var h := q.unreliable[0];
      assert LateEntry(s, h);
      assert s.late[h.unreliableNumber - 1].after != d;
      hide Receive, Start, Holds, LateEntry, Arrived;
    }
  }

  lemma TakeReliableRemembers(y: System, owners: seq<nat>)
    requires Inv(y, owners) && LateRemembers(y) && Receive(y.receiver.queues).0.FromReliable?
    ensures LateRemembers(y.(receiver := Deliver(y.receiver)))
  {
    BlockedLater(y, owners);
    var z := y.(receiver := Deliver(y.receiver));
    TakeReliableInStep(y, owners, z);
    hide Inv, InStep, Queued, LooseQueued;
  }

  lemma TakeReliableInStep(y: System, owners: seq<nat>, z: System)
    requires Inv(y, owners) && InStep(y) && Receive(y.receiver.queues).0.FromReliable?
    requires z == y.(receiver := Deliver(y.receiver))
    ensures InStep(z)
  {
    BlockedLater(y, owners);
    hide Inv;
  }

  lemma TakeUnreliableRemembers(y: System, owners: seq<nat>)
    requires Inv(y, owners) && LateRemembers(y) && Receive(y.receiver.queues).0.FromUnreliable?
    ensures LateRemembers(y.(receiver := Deliver(y.receiver)))
  {
    var z := y.(receiver := Deliver(y.receiver));
    TakeInStep(y, owners, z);
    TakesHead(y, z);
    hide Receive, Deliver, Inv, InStep, HeadTaken, LateKept, LooseKept;
    forall c | c in z.heard && c.OfLate?
      ensures LateKept(z, c.u)
    {
      HeadKeepsLate(y, z, c.u);
    }
    forall c | c in z.heard && c.OfLoose?
      ensures LooseKept(z, c.data)
    {
      HeadKeepsLoose(y, z, c.data);
    }
  }

  lemma TakeInStep(y: System, owners: seq<nat>, z: System)
    requires Inv(y, owners) && InStep(y) && Receive(y.receiver.queues).0.FromUnreliable?
    requires z == y.(receiver := Deliver(y.receiver))
    ensures InStep(z)
  {
    LateTakenExactly(y.receiver.queues);
    var t, t' := y.receiver.queues.unreliable, z.receiver.queues.unreliable;
    assert forall i :: 0 <= i < |t'| ==> t'[i] == t[i + 1];
    hide Inv;
  }

  /** What the head was is among what has arrived. */
  ghost predicate HeadTaken(y: System, z: System) {
    var q, r, a := y.receiver.queues, y.receiver, z.receiver;
    && q.unreliable != [] && a.queues.unreliable == q.unreliable[1..] && z.sender == y.sender && a.delivered == r.delivered
    && if q.unreliable[0].kind == UnreliableData
       then a.loose == r.loose && |a.arrivals| == |r.arrivals| + 1 && a.arrivals[..|r.arrivals|] == r.arrivals
            && a.arrivals[|r.arrivals|].number == q.unreliable[0].unreliableNumber
       else a.arrivals == r.arrivals && a.loose == r.loose + [q.unreliable[0].packet]
  }

  lemma TakesHead(y: System, z: System)
    requires Receive(y.receiver.queues).0.FromUnreliable? && z == y.(receiver := Deliver(y.receiver))
    ensures HeadTaken(y, z)
  {
  }

  lemma HeadKeepsLate(y: System, z: System, u: nat)
    requires HeadTaken(y, z) && LateKept(y, u)
    ensures LateKept(z, u)
  {
    var t, t' := y.receiver.queues.unreliable, z.receiver.queues.unreliable;
    if i :| 0 <= i < |y.receiver.arrivals| && y.receiver.arrivals[i].number >= u + 1 {
      assert z.receiver.arrivals[i] == y.receiver.arrivals[i];
    } else if Queued(t, u + 1) {
      var i :| 0 <= i < |t| && t[i].kind == UnreliableData && t[i].unreliableNumber == u + 1;
      if i > 0 {
        assert t'[i - 1] == t[i];
      } else {
        assert z.receiver.arrivals[|y.receiver.arrivals|].number == u + 1;
      }
    }
  }

  lemma HeadKeepsLoose(y: System, z: System, data: Bytes)
    requires HeadTaken(y, z) && LooseKept(y, data)
    ensures LooseKept(z, data)
  {
    var t, t' := y.receiver.queues.unreliable, z.receiver.queues.unreliable;
    if LooseQueued(t, data) {
      var i :| 0 <= i < |t| && t[i].kind == UnsequencedData && t[i].packet == data;
      if i > 0 {
        assert t'[i - 1] == t[i];
      }
    }
  }

  lemma SendLateRemembers(y: System, e: Event)
    requires LateRemembers(y) && Enabled(y, e) && (e.SendReliable? || e.SendUnreliable? || e.SendUnsequenced?)
    ensures LateRemembers(Effect(y, e))
  {
    var z := Effect(y, e);
    assert forall c :: c in z.heard && c.OfLate? ==> LateKept(y, c.u) && z.sender.late[c.u] == y.sender.late[c.u];
    hide Queued, LooseQueued;
  }

  lemma EventRemembersLate(y: System, owners: seq<nat>, e: Event)
    requires Inv(y, owners) && LateRemembers(y) && Enabled(y, e)
    ensures LateRemembers(Effect(y, e))
  {
    if e.Arrive? {
      match e.copy
      case OfLate(_) => LateArrivalRemembers(y, owners, e);
      case OfLoose(_, _) => LooseArrivalRemembers(y, owners, e);
      case _ => ReliableArrivalRemembers(y, owners, e);
    } else if e.Take? {
      match Receive(y.receiver.queues).0
      case Nothing => TakeNothing(y);
      case FromReliable(_) => TakeReliableRemembers(y, owners);
      case FromUnreliable(_) => TakeUnreliableRemembers(y, owners);
    } else {
      SendLateRemembers(y, e);
    }
    hide Inv, LateRemembers, Receive, Deliver;
  }

  lemma TakeNothing(y: System)
    requires Receive(y.receiver.queues).0 == Nothing
    ensures y.(receiver := Deliver(y.receiver)) == y
  {
  }

  lemma {:induction false} RunRemembersLate(y: System, owners: seq<nat>, events: seq<Event>) returns (owners': seq<nat>)
    requires Inv(y, owners) && LateRemembers(y) && ValidRun(y, events)
    ensures Inv(After(y, events), owners') && LateRemembers(After(y, events))
    decreases |events|
  {
    owners' := owners;
    if events != [] {
      hide Inv, LateRemembers, Effect, Enabled;
      EventRemembersLate(y, owners, events[0]);
      owners' := EffectKeeps(y, owners, events[0]);
      owners' := RunRemembersLate(Effect(y, events[0]), owners', events[1..]);
    }
  }

  // -------------------------------------------------------------- the theorem

  lemma ReachableLate(size: nat, events: seq<Event>) returns (owners: seq<nat>)
    requires size > 0 && ValidRun(Opened(size), events)
    ensures Inv(After(Opened(size), events), owners) && LateRemembers(After(Opened(size), events))
  {
    assert Inv(Opened(size), []);
    owners := RunRemembersLate(Opened(size), [], events);
  }

  /** Over all runs: an unreliable packet that is heard, and is not empty, has been
      delivered or is queued, unless a later unreliable packet was delivered first, or a
      reliable one sent after it. */
  lemma LateHeard(size: nat, events: seq<Event>, u: nat)
    requires size > 0 && ValidRun(Opened(size), events) && OfLate(u) in After(Opened(size), events).heard
    ensures var y := After(Opened(size), events);
            && u < |y.sender.late|
            && (|| y.sender.late[u].data == []
                || (exists i :: 0 <= i < |y.receiver.arrivals| && y.receiver.arrivals[i].number >= u + 1)
                || Queued(y.receiver.queues.unreliable, u + 1)
                || |y.receiver.delivered| > y.sender.late[u].after)
  {
    var owners := ReachableLate(size, events);
  }

  /** And when nothing can be taken, such a packet is queued only as long as reliable
      packets sent before it are missing. An unsequenced one that is heard has been
      delivered, or waits behind such a packet. */
  lemma NothingLateWithheld(size: nat, events: seq<Event>)
    requires size > 0 && ValidRun(Opened(size), events)
    requires Receive(After(Opened(size), events).receiver.queues).0 == Nothing
    ensures var y := After(Opened(size), events);
            forall u: nat :: OfLate(u) in y.heard ==>
              && u < |y.sender.late|
              && (|| y.sender.late[u].data == []
                  || (exists i :: 0 <= i < |y.receiver.arrivals| && y.receiver.arrivals[i].number >= u + 1)
                  || y.sender.late[u].after != |y.receiver.delivered|)
    ensures var y := After(Opened(size), events);
            forall group, data :: OfLoose(group, data) in y.heard && data != [] && data !in y.receiver.loose ==>
              y.receiver.queues.unreliable != [] && BlockedHead(y)
  {
    var owners := ReachableLate(size, events);
    var y := After(Opened(size), events);
    BlockedLater(y, owners);
    hide Inv, Receive, Opened, After, ValidRun, LateKept, LooseKept;
    forall u: nat | OfLate(u) in y.heard
      ensures u < |y.sender.late| && (|| y.sender.late[u].data == []
                                      || (exists i :: 0 <= i < |y.receiver.arrivals| && y.receiver.arrivals[i].number >= u + 1)
                                      || y.sender.late[u].after != |y.receiver.delivered|)
    {
      LateStuck(y, u);
    }
    forall group: uint16, data: Bytes | OfLoose(group, data) in y.heard && data != [] && data !in y.receiver.loose
      ensures y.receiver.queues.unreliable != [] && BlockedHead(y)
    {
      LooseStuck(y, data);
    }
  }

  ghost predicate NoneDue(y: System) {
    var t := y.receiver.queues.unreliable;
    forall i :: 0 <= i < |t| && t[i].kind == UnreliableData && 1 <= t[i].unreliableNumber <= |y.sender.late| ==>
      y.sender.late[t[i].unreliableNumber - 1].after > |y.receiver.delivered|
  }

  lemma LateStuck(y: System, u: nat)
    requires LateKept(y, u) && NoneDue(y)
    ensures u < |y.sender.late| && (|| y.sender.late[u].data == []
                                    || (exists i :: 0 <= i < |y.receiver.arrivals| && y.receiver.arrivals[i].number >= u + 1)
                                    || y.sender.late[u].after != |y.receiver.delivered|)
  {
  }

  lemma LooseStuck(y: System, data: Bytes)
    requires LooseKept(y, data) && data != [] && data !in y.receiver.loose && NoneDue(y) && InStep(y)
    requires y.receiver.queues.unreliable != [] ==> y.receiver.queues.unreliable[0].kind == UnreliableData
    ensures y.receiver.queues.unreliable != [] && BlockedHead(y)
  {
  }

  /** The first entry is for reliable packets that are missing. */
  ghost predicate BlockedHead(y: System) {
    var t := y.receiver.queues.unreliable;
    && t != [] && t[0].kind == UnreliableData && 1 <= t[0].unreliableNumber <= |y.sender.late|
    && y.sender.late[t[0].unreliableNumber - 1].after > |y.receiver.delivered|
  }

  /** Nothing but an entry more. */
  lemma StepStays(y: System, z: System, j: nat, x: Entry)
    requires InStep(y) && z.sender == y.sender && z.receiver == y.receiver.(queues := z.receiver.queues)
    requires var q, q' := y.receiver.queues, z.receiver.queues;
             || q' == q
             || (&& j <= |q.unreliable| && q' == q.(unreliable := Insert(q.unreliable, j, x))
                 && (x.kind == UnreliableData ==> 1 <= x.unreliableNumber <= |y.sender.late|
                                                  && y.sender.late[x.unreliableNumber - 1].after >= |y.receiver.delivered|))
             || (q'.unreliable == q.unreliable && q'.lastUnreliable == q.lastUnreliable)
    ensures InStep(z)
  {
    var t, t' := y.receiver.queues.unreliable, z.receiver.queues.unreliable;
    hide Belong;
    if t' != t {
      BelongInsert(y.sender, t, j, x, |y.receiver.delivered|);
    }
  }
}
