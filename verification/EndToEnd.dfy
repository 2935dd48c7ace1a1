/** What a client queues is what the transport carries. */
module EndToEnd {
  import opened Words
  import opened Wrappers
  import opened Messages
  import opened OutgoingQueues
  import opened Fragments
  import opened Client
  import opened Transport
  import Completeness

  /** The copies of the k-th reliable packet that travel. */
  function CopyOf(s: Sender, k: nat, f: nat): Copy
    requires k < |s.packets|
  {
    if |s.packets[k]| <= s.size then OfPacket(k) else OfFragment(k, f)
  }

  /** The messages Send queues for the k-th reliable packet of a channel are exactly
      the packet's copies, one for each of its sequence numbers, and the channel's
      counter is left just before the first number of the next packet. */
  lemma QueuedAsCarried(s: Sender, channelId: nat, k: nat)
    requires Numbered(s) && k < |s.packets|
    ensures var p, start := s.packets[k], Start(s.packets, s.size, k);
            var queued := PacketMessages(channelId, p, s.size, start);
            && |queued| == Span(p, s.size)
            && (forall f: nat :: f < |queued| ==>
                  && OnWire(s, CopyOf(s, k, f))
                  && queued[f].data == Some(MessageOf(s, CopyOf(s, k, f)))
                  && queued[f].reliableNumber == start + f)
            && Advance(start - 1, Span(p, s.size)) == Start(s.packets, s.size, k + 1) - 1
  {
    var p, start := s.packets[k], Start(s.packets, s.size, k);
    StartSmall(s, k);
    StartSmall(s, k + 1);
    assert Start(s.packets, s.size, k + 1) == start + Span(p, s.size);
    hide PacketMessages, MessageOf, OnWire, CopyOf, Span;
    forall f: nat | f < Span(p, s.size)
      ensures OnWire(s, CopyOf(s, k, f))
      ensures var m := PacketMessages(channelId, p, s.size, start)[f];
              m.data == Some(MessageOf(s, CopyOf(s, k, f))) && m.reliableNumber == start + f
    {
      OneCarried(s, channelId, k, f);
    }
  }

  lemma OneCarried(s: Sender, channelId: nat, k: nat, f: nat)
    requires Numbered(s) && k < |s.packets| && f < Span(s.packets[k], s.size)
    ensures OnWire(s, CopyOf(s, k, f))
    ensures var start := Start(s.packets, s.size, k);
            var m := PacketMessages(channelId, s.packets[k], s.size, start)[f];
            m.data == Some(MessageOf(s, CopyOf(s, k, f))) && m.reliableNumber == start + f
  {
    var p, start := s.packets[k], Start(s.packets, s.size, k);
    StartSmall(s, k);
    var span := Span(p, s.size);
    assert start + f < 0x1_0000 && (|p| <= s.size ==> f == 0);
    SmallNumber(start + f);
    SmallNumber(start);
    hide Start, Span, FragmentOf, Numbered;
    if |p| > s.size {
      SpanBounds(p, s.size);
      var queued := FirstFragments(channelId, p, s.size, start, span);
      assert PacketMessages(channelId, p, s.size, start) == queued;
      hide PacketMessages, FirstFragments;
      assert queued[f] == FragmentMessage(channelId, p, s.size, start, f);
    }
  }

  lemma SmallNumber(n: nat)
    requires n < 0x1_0000
    ensures n % 0x1_0000 == n
  {
  }

  /** The message queued for the u-th unreliable packet carries the channel's
      reliable counter at that moment and the packet's own number. */
  lemma UnreliableQueuedAsCarried(s: Sender, channelId: nat, u: nat)
    requires Numbered(s) && u < |s.late|
    ensures UnreliableMessage(channelId, s.late[u].data, (Start(s.packets, s.size, s.late[u].after) - 1) % 0x1_0000, u + 1).data
            == Some(MessageOf(s, OfLate(u)))
  {
    hide Start;
  }

  /** An unsequenced packet that fits is queued as its copy on the wire, with the number of
      its group; one that does not fit is sent reliably instead. */
  lemma UnsequencedQueuedAsCarried(s: Sender, channelId: nat, p: Bytes, last: uint16, number: uint16, group: uint16)
    requires Numbered(s) && p in s.loose && |p| < 0x8000_0000
    ensures var (reliable, unreliable) := Submission(channelId, p, Unsequencedly, s.size, last, number, group);
            if |p| <= s.size then
              && reliable == [] && |unreliable| == 1 && unreliable[0].data == Some(MessageOf(s, OfLoose(group, p)))
              && unreliable[0].kind == UnsequencedData && unreliable[0].channelId == channelId
            else unreliable == [] && reliable == PacketMessages(channelId, p, s.size, (last as int) + 1)
  {
    hide Start, PacketMessages;
  }

  /** The number a reliable copy is sent and acknowledged under. */
  ghost function NumberOf(s: Sender, c: Copy): nat
    requires Numbered(s) && OnWire(s, c) && Completeness.Carries(c)
  {
    Start(s.packets, s.size, c.k) + Completeness.PieceOfCopy(c)
  }

  /** It is the number in the message, and it names the copy. */
  lemma NumberNamesCopy(s: Sender, c: Copy, e: Copy)
    requires Numbered(s) && OnWire(s, c) && OnWire(s, e) && Completeness.Carries(c) && Completeness.Carries(e)
    ensures MessageOf(s, c).sequenceNumber == NumberOf(s, c)
    ensures NumberOf(s, c) == NumberOf(s, e) ==> c == e
  {
    StartSmall(s, c.k);
    SmallNumber(NumberOf(s, c));
    if c.k < e.k {
      SpanPositive(s.packets[c.k], s.size);
      StartMono(s.packets, s.size, c.k, e.k);
    } else if e.k < c.k {
      SpanPositive(s.packets[e.k], s.size);
      StartMono(s.packets, s.size, e.k, c.k);
    }
    hide Start, Span, FragmentOf;
  }

  /** Over all runs: when a number has been acknowledged, the message the sender keeps
      under it, whichever it is, has been received: its packet is delivered, or its
      fragment is in place in the receiver's queue. */
  lemma AcknowledgedMeansReceived(size: nat, events: seq<Event>, answered: Copy, c: Copy)
    requires size > 0 && ValidRun(Opened(size), events)
    requires answered in After(Opened(size), events).answered
    requires var s := After(Opened(size), events).sender;
             && Numbered(s) && OnWire(s, answered) && OnWire(s, c) && Completeness.Carries(answered) && Completeness.Carries(c)
             && NumberOf(s, c) == NumberOf(s, answered)
    ensures var y := After(Opened(size), events);
            c.k < |y.receiver.delivered|
            || Completeness.Has(y.sender, y.receiver.queues, c.k, Completeness.PieceOfCopy(c))
  {
    Completeness.AnsweredMeansReceived(size, events, answered);
    NumberNamesCopy(After(Opened(size), events).sender, c, answered);
  }
}
