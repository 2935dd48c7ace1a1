/** A channel that stops at the wrap of its sequence numbers. */
module Stall {
  import opened Words
  import opened Wrappers
  import opened Messages
  import opened Sequence
  import opened Bitmap
  import opened Incoming

  /** The head of the queue has wrapped although the next number has not. */
  predicate Stuck(q: Queues) {
    && HIGH <= q.lastReliable < 0xFFFF && WellFormed(q.reliable)
    && q.reliable != [] && q.reliable[0].reliableNumber < LOW
  }

  lemma {:induction false} SlotBehindHead(q: seq<Entry>, k: nat, n: uint32)
    requires 1 <= k <= |q| && q[0].reliableNumber < LOW && HIGH <= n < 0x1_0000
    ensures ReliableSlot(q, k, n) != Some(0)
  {
    if k > 1 {
      SlotBehindHead(q, k - 1, n);
    }
  }

  /** Whatever arrives goes behind the head, or has wrapped itself. */
  lemma EnqueueStaysStuck(q: Queues, m: DataMessage, packet: Bytes, count: uint32, state: ClientState)
    requires Stuck(q) && Enqueue(q, m, packet, count, state).Some?
    ensures Stuck(Enqueue(q, m, packet, count, state).value.0)
  {
    if m.Reliable? || m.Fragment? {
      if m.sequenceNumber >= LOW {
        SlotBehindHead(q.reliable, |q.reliable|, m.sequenceNumber);
      }
      hide ReliableSlot;
    }
  }

  lemma StaysStuck(q: Queues, m: DataMessage, blank: Bytes, state: ClientState)
    requires m.Fragment? ==> |blank| == m.total && m.offset + |m.data| < 0x1_0000_0000
    requires Stuck(q)
    ensures Stuck(OnData(q, m, blank, state).1)
  {
    if m.Fragment? {
      var r := Enqueue(q, StartMessage(m), blank, m.count, state);
      if r.Some? {
        EnqueueStaysStuck(q, StartMessage(m), blank, m.count, state);
      }
      hide Enqueue, IsOld, FindStart, Bit, SetBit;
    } else {
      var r := Enqueue(q, m, m.data, 0, state);
      if r.Some? {
        EnqueueStaysStuck(q, m, m.data, 0, state);
      }
      hide Enqueue;
    }
  }

  lemma NothingReliable(q: Queues)
    requires Stuck(q)
    ensures !Receive(q).0.FromReliable? && Stuck(Receive(q).1)
  {
  }

  // Something arrives, or the application takes a packet.
  datatype Step = Arrive(m: DataMessage, blank: Bytes, state: ClientState) | Take

  predicate Possible(x: Step) {
    x.Arrive? && x.m.Fragment? ==> |x.blank| == x.m.total && x.m.offset + |x.m.data| < 0x1_0000_0000
  }

  function Reliables(d: Delivery): seq<Bytes> {
    match d case FromReliable(p) => [p] case _ => []
  }

  /** The reliable packets taken from a channel over a run of steps. */
  function Taken(q: Queues, steps: seq<Step>): (r: seq<Bytes>)
    requires Stuck(q) && forall i :: 0 <= i < |steps| ==> Possible(steps[i])
    decreases |steps|
  {
    if steps == [] then []
    else if steps[0].Arrive? then
      assert Possible(steps[0]);
      StaysStuck(q, steps[0].m, steps[0].blank, steps[0].state);
      Taken(OnData(q, steps[0].m, steps[0].blank, steps[0].state).1, steps[1..])
    else
      NothingReliable(q);
      var (d, q') := Receive(q);
      Reliables(d) + Taken(q', steps[1..])
  }

  /** Such a channel never delivers a reliable packet again, whatever arrives. */
  lemma {:induction false} StuckForever(q: Queues, steps: seq<Step>)
    requires Stuck(q) && forall i :: 0 <= i < |steps| ==> Possible(steps[i])
    ensures Taken(q, steps) == []
    decreases |steps|
  {
    if steps != [] {
      if steps[0].Arrive? {
        assert Possible(steps[0]);
        StaysStuck(q, steps[0].m, steps[0].blank, steps[0].state);
        StuckForever(OnData(q, steps[0].m, steps[0].blank, steps[0].state).1, steps[1..]);
      } else {
        NothingReliable(q);
        StuckForever(Receive(q).1, steps[1..]);
      }
    }
  }

  /** It takes one message that overtakes the wrap: with nothing queued and the next
      number not wrapped yet, a plain message stops the channel exactly when its own
      number has wrapped. */
  lemma OvertakingStops(q: Queues, number: uint16, p: Bytes)
    requires q.reliable == [] && HIGH <= q.lastReliable < 0xFFFF && p != []
    ensures Stuck(OnData(q, Reliable(number, p), [], Connected).1) <==> number < LOW
  {
  }
}
