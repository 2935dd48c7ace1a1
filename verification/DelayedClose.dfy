/** Both ends of a channel together: the sender's queues, the network, and the receiver
    whose answers alone acknowledge what the channel carries. */
module DelayedClose {
  import opened Words
  import opened Wrappers
  import opened Messages
  import opened OutgoingQueues
  import opened Fragments
  import opened Client
  import opened Completeness
  import opened EndToEnd
  import T = Transport
  import opened Transport
  import O = OutboxRuns
  import OutboxProofs

  /** The channel's two ends and the sending client's queues, which other channels and
      the host's control messages share. */
  datatype Talk = Talk(y: System, out: O.Run)

  datatype Event =
    | SendPacket(packet: Bytes)
    | Network(there: T.Event)
    | Local(here: O.Event)
    | Answer(copy: Copy, measured: uint32)
    | OtherAnswer(number: uint16, channelId: nat, measured: uint32)

  /** Local events and answers for others do not concern the channel; its own answers
      are those the receiver has given. */
  ghost predicate Enabled(t: Talk, ch: nat, e: Event) {
    match e
    case SendPacket(p) => O.Open(t.out.box) && T.Enabled(t.y, SendReliable(p))
    case Network(x) => T.Enabled(t.y, x) && !x.SendReliable?
    case Local(x) =>
      && O.Enabled(t.out, x) && !x.Acknowledged?
      && (x.Send? ==> forall m :: m in x.reliable ==> m.channelId != ch)
      && (x.Control? ==> x.m.channelId != ch)
    case Answer(c, _) =>
      && O.Open(t.out.box) && c in t.y.answered
      && Numbered(t.y.sender) && Carries(c) && OnWire(t.y.sender, c) && NumberOf(t.y.sender, c) < 0x1_0000
    case OtherAnswer(_, channelId, _) => O.Open(t.out.box) && channelId != ch
  }

  /** The messages of the next packet. */
  ghost function NextMessages(t: Talk, ch: nat, p: Bytes): seq<Outgoing>
    requires T.Enabled(t.y, SendReliable(p))
  {
    var s := t.y.sender;
    PacketMessages(ch, p, s.size, Start(s.packets, s.size, |s.packets|))
  }

  ghost function Effect(t: Talk, ch: nat, e: Event): Talk
    requires Enabled(t, ch, e)
  {
    match e
    case SendPacket(p) =>
      if t.out.box.state != Connected then t
      else Talk(T.Effect(t.y, SendReliable(p)), O.Effect(t.out, O.Send(NextMessages(t, ch, p), [])))
    case Network(x) => t.(y := T.Effect(t.y, x))
    case Local(x) => t.(out := O.Effect(t.out, x))
    case Answer(c, measured) => t.(out := O.Effect(t.out, O.Acknowledged(NumberOf(t.y.sender, c), ch, measured)))
    case OtherAnswer(number, channelId, measured) => t.(out := O.Effect(t.out, O.Acknowledged(number, channelId, measured)))
  }

  ghost predicate ValidRun(t: Talk, ch: nat, events: seq<Event>)
    decreases |events|
  {
    events == [] || (Enabled(t, ch, events[0]) && ValidRun(Effect(t, ch, events[0]), ch, events[1..]))
  }

  ghost function After(t: Talk, ch: nat, events: seq<Event>): Talk
    requires ValidRun(t, ch, events)
    decreases |events|
  {
    if events == [] then t else After(Effect(t, ch, events[0]), ch, events[1..])
  }

  // ----------------------------------------------------------- the invariant

  /** What the sender keeps of a copy. */
  ghost function IdOf(s: Sender, ch: nat, c: Copy): Identity
    requires Numbered(s) && OnWire(s, c) && Carries(c)
  {
    Identity(ch, if c.OfPacket? then ReliableData else DataFragment, NumberOf(s, c) % 0x1_0000, Some(MessageOf(s, c)))
  }

  ghost predicate Names(s: Sender, ch: nat, id: Identity, c: Copy) {
    Numbered(s) && Carries(c) && OnWire(s, c) && id == IdOf(s, ch, c)
  }

  /** Every message of the channel ever queued is a copy, and every acknowledged one a
      copy the receiver has answered. */
  ghost predicate Queued(s: Sender, ch: nat, queued: multiset<Identity>) {
    && (forall id :: id in queued && id.channelId == ch ==> exists c :: Names(s, ch, id, c))
    && (forall c :: Carries(c) && Numbered(s) && OnWire(s, c) ==> IdOf(s, ch, c) in queued)
  }

  ghost predicate Acked(s: Sender, ch: nat, acked: multiset<Identity>, answered: set<Copy>) {
    forall id :: id in acked && id.channelId == ch ==> exists c :: Names(s, ch, id, c) && c in answered
  }

  ghost predicate Good(t: Talk, ch: nat) {
    && Numbered(t.y.sender) && O.Kept(t.out)
    && Queued(t.y.sender, ch, t.out.queued) && Acked(t.y.sender, ch, t.out.acked, t.y.answered)
  }

  /** A copy stays the same whatever else is sent. */
  lemma NamesStay(s: Sender, z: Sender, ch: nat, id: Identity, c: Copy)
    requires Names(s, ch, id, c) && Numbered(z) && z.size == s.size
    requires z.packets == s.packets || (|z.packets| == |s.packets| + 1 && z.packets[..|s.packets|] == s.packets)
    ensures Names(z, ch, id, c)
  {
    if z.packets != s.packets {
      var p := z.packets[|s.packets|];
      assert z.packets == s.packets + [p];
      StartPrefix(s.packets, p, s.size, c.k);
    }
    hide Start, FragmentOf, Span;
  }

  // -------------------------------------------------------------- the steps

  lemma NextNamed(t: Talk, ch: nat, p: Bytes, f: nat)
    requires T.Enabled(t.y, SendReliable(p)) && f < |NextMessages(t, ch, p)|
    ensures var z, k := T.Effect(t.y, SendReliable(p)).sender, |t.y.sender.packets|;
            Names(z, ch, NextMessages(t, ch, p)[f].Key(), CopyOf(z, k, f))
  {
    var s, k := t.y.sender, |t.y.sender.packets|;
    var z := T.Effect(t.y, SendReliable(p)).sender;
    StartPrefix(s.packets, p, s.size, k);
    QueuedAsCarried(z, ch, k);
    hide Start;
    NextKind(ch, p, s.size, Start(s.packets, s.size, k), f);
    var c := CopyOf(z, k, f);
    NumberNamesCopy(z, c, c);
    StartSmall(z, k + 1);
    hide PacketMessages, MessageOf, Span;
  }

  lemma NextKind(ch: nat, p: Bytes, size: nat, start: nat, f: nat)
    requires 0 < size && |p| < 0x8000_0000 && f < |PacketMessages(ch, p, size, start)|
    ensures var m := PacketMessages(ch, p, size, start)[f];
            m.channelId == ch && m.New() && m.kind == (if |p| <= size then ReliableData else DataFragment)
  {
    if |p| > size {
      SpanBounds(p, size);
      assert FirstFragments(ch, p, size, start, Span(p, size))[f] == FragmentMessage(ch, p, size, start, f);
    }
    hide Span, FragmentOf;
  }

  lemma NextNew(t: Talk, ch: nat, p: Bytes)
    requires T.Enabled(t.y, SendReliable(p)) && O.Open(t.out.box)
    ensures O.Enabled(t.out, O.Send(NextMessages(t, ch, p), []))
  {
    var s := t.y.sender;
    var ms := NextMessages(t, ch, p);
    forall m | m in ms
      ensures m.New()
    {
      var f :| 0 <= f < |ms| && ms[f] == m;
      NextKind(ch, p, s.size, Start(s.packets, s.size, |s.packets|), f);
      hide Start, PacketMessages;
    }
  }

  lemma SendKeeps(t: Talk, ch: nat, p: Bytes)
    requires Good(t, ch) && Enabled(t, ch, SendPacket(p)) && t.out.box.state == Connected
    ensures Good(Effect(t, ch, SendPacket(p)), ch)
  {
    var u := Effect(t, ch, SendPacket(p));
    var s, z, ms := t.y.sender, u.y.sender, NextMessages(t, ch, p);
    NextNew(t, ch, p);
    O.EffectKeeps(t.out, O.Send(ms, []));
    O.SendTakenExactly(t.out, ms, []);
    AckedStays(s, z, ch, t.out.acked, t.y.answered);
    hide O.Kept, O.Effect, O.Enabled, NextMessages;
    QueuedNext(t, ch, p);
    hide Queued, Acked;
  }

  lemma AckedStays(s: Sender, z: Sender, ch: nat, acked: multiset<Identity>, answered: set<Copy>)
    requires Acked(s, ch, acked, answered) && Numbered(z) && z.size == s.size
    requires z.packets == s.packets || (|z.packets| == |s.packets| + 1 && z.packets[..|s.packets|] == s.packets)
    ensures Acked(z, ch, acked, answered)
  {
    hide Names;
    forall id | id in acked && id.channelId == ch
      ensures exists c :: Names(z, ch, id, c) && c in answered
    {
      var c :| Names(s, ch, id, c) && c in answered;
      NamesStay(s, z, ch, id, c);
    }
  }

  lemma QueuedNext(t: Talk, ch: nat, p: Bytes)
    requires Numbered(t.y.sender) && T.Enabled(t.y, SendReliable(p)) && Queued(t.y.sender, ch, t.out.queued)
    ensures Queued(T.Effect(t.y, SendReliable(p)).sender, ch, t.out.queued + multiset(OutboxProofs.Keys(NextMessages(t, ch, p))))
  {
    var s, z, ms := t.y.sender, T.Effect(t.y, SendReliable(p)).sender, NextMessages(t, ch, p);
    var keys, k := OutboxProofs.Keys(ms), |s.packets|;
    var queued := t.out.queued + multiset(keys);
    hide NextMessages, Names, T.Enabled;
    forall id | id in queued && id.channelId == ch
      ensures exists c :: Names(z, ch, id, c)
    {
      if id in t.out.queued {
        var c :| Names(s, ch, id, c);
        NamesStay(s, z, ch, id, c);
      } else {
        var f :| 0 <= f < |keys| && keys[f] == id;
        NextNamed(t, ch, p, f);
      }
    }
    forall c | Carries(c) && Numbered(z) && OnWire(z, c)
      ensures IdOf(z, ch, c) in queued
    {
      CopyQueued(t, ch, p, c);
    }
  }

  lemma CopyQueued(t: Talk, ch: nat, p: Bytes, c: Copy)
    requires Numbered(t.y.sender) && T.Enabled(t.y, SendReliable(p)) && Queued(t.y.sender, ch, t.out.queued)
    requires Carries(c) && OnWire(T.Effect(t.y, SendReliable(p)).sender, c)
    ensures IdOf(T.Effect(t.y, SendReliable(p)).sender, ch, c)
            in t.out.queued + multiset(OutboxProofs.Keys(NextMessages(t, ch, p)))
  {
    var s, z, ms := t.y.sender, T.Effect(t.y, SendReliable(p)).sender, NextMessages(t, ch, p);
    var keys, k := OutboxProofs.Keys(ms), |s.packets|;
    hide NextMessages, IdOf, MessageOf, Start;
    if c.k < k {
      NamesStay(s, z, ch, IdOf(s, ch, c), c);
    } else {
      var f := PieceOfCopy(c);
      NextCount(t, ch, p);
      assert c == CopyOf(z, k, f) && f < |ms|;
      NextNamed(t, ch, p, f);
      assert keys[f] == ms[f].Key();
      assert keys[f] in multiset(keys);
    }
  }

  lemma NextCount(t: Talk, ch: nat, p: Bytes)
    requires T.Enabled(t.y, SendReliable(p))
    ensures |NextMessages(t, ch, p)| == Span(p, t.y.sender.size) >= 1
  {
    SpanPositive(p, t.y.sender.size);
  }

  lemma NetworkKeeps(t: Talk, ch: nat, x: T.Event)
    requires Good(t, ch) && Enabled(t, ch, Network(x))
    ensures Good(Effect(t, ch, Network(x)), ch)
  {
    var u := Effect(t, ch, Network(x));
    NetworkSender(t.y, x);
    AckedStays(t.y.sender, u.y.sender, ch, t.out.acked, t.y.answered);
    hide O.Kept, T.Effect;
    var s, z := t.y.sender, u.y.sender;
    forall id | id in t.out.queued && id.channelId == ch
      ensures exists c :: Names(z, ch, id, c)
    {
      var c :| Names(s, ch, id, c);
      NamesStay(s, z, ch, id, c);
    }
    forall c | Carries(c) && Numbered(z) && OnWire(z, c)
      ensures IdOf(z, ch, c) in t.out.queued
    {
      assert OnWire(s, c);
      NamesStay(s, z, ch, IdOf(s, ch, c), c);
    }
  }

  lemma NetworkSender(y: System, x: T.Event)
    requires T.Enabled(y, x) && !x.SendReliable?
    ensures var z := T.Effect(y, x);
            Numbered(z.sender) && z.sender.packets == y.sender.packets && z.sender.size == y.sender.size && y.answered <= z.answered
  {
    hide MessageOf, Start;
  }

  /** Nothing of the channel is queued or acknowledged by the client's other events. */
  lemma LocalKeeps(t: Talk, ch: nat, x: O.Event)
    requires Good(t, ch) && Enabled(t, ch, Local(x))
    ensures Good(Effect(t, ch, Local(x)), ch)
  {
    hide O.Kept, O.Effect, Names, O.Enabled;
    O.EffectKeeps(t.out, x);
    LocalQueued(t.out, ch, x);
  }

  lemma LocalQueued(o: O.Run, ch: nat, x: O.Event)
    requires O.Enabled(o, x) && !x.Acknowledged?
    requires x.Send? ==> forall m :: m in x.reliable ==> m.channelId != ch
    requires x.Control? ==> x.m.channelId != ch
    ensures var o' := O.Effect(o, x);
            && o'.acked == o.acked && o.queued <= o'.queued
            && forall id :: id in o'.queued && id.channelId == ch ==> id in o.queued
  {
    if x.Send? {
      var added := Submit(o.box, x.reliable, x.unreliable).outgoing[|o.box.outgoing|..];
      assert added == if o.box.state == Connected then x.reliable else [];
      var keys := OutboxProofs.Keys(added);
      forall id: Identity | id in multiset(keys)
        ensures id.channelId != ch
      {
        var f :| 0 <= f < |keys| && keys[f] == id;
        assert added[f] in x.reliable;
      }
    }
  }

  /** What an acknowledgement does to the record of what was acknowledged. */
  lemma AcknowledgedOnly(o: O.Run, number: uint16, channelId: nat, measured: uint32)
    requires O.Open(o.box)
    ensures var o' := O.Effect(o, O.Acknowledged(number, channelId, measured));
            && o'.queued == o.queued
            && match FindSent(o.box.sent, number, channelId)
               case None => o'.acked == o.acked
               case Some(i) => o'.acked == o.acked + multiset{o.box.sent[i].Key()}
  {
    hide OnAcknowledge, FindSent;
  }

  lemma AnswerKeeps(t: Talk, ch: nat, c: Copy, measured: uint32)
    requires Good(t, ch) && Enabled(t, ch, Answer(c, measured))
    ensures Good(Effect(t, ch, Answer(c, measured)), ch)
  {
    var s, b, n := t.y.sender, t.out.box, NumberOf(t.y.sender, c);
    hide O.Kept, O.Effect, Names, Queued, FindSent;
    O.EffectKeeps(t.out, O.Acknowledged(n, ch, measured));
    AcknowledgedOnly(t.out, n, ch, measured);
    match FindSent(b.sent, n, ch)
    case None =>
    case Some(i) =>
      SentQueued(t.out, i);
      OwnAnswered(s, ch, t.out.queued, b.sent[i].Key(), c);
      AckedMore(s, ch, t.out.acked, t.y.answered, b.sent[i].Key(), c);
      hide NumberOf, Acked, Carries, OnWire;
  }

  lemma AckedMore(s: Sender, ch: nat, acked: multiset<Identity>, answered: set<Copy>, id: Identity, c: Copy)
    requires Acked(s, ch, acked, answered) && Names(s, ch, id, c) && c in answered
    ensures Acked(s, ch, acked + multiset{id}, answered)
  {
    hide Names;
  }

  /** The message an answer to copy c removes is c itself. */
  lemma OwnAnswered(s: Sender, ch: nat, queued: multiset<Identity>, id: Identity, c: Copy)
    requires Queued(s, ch, queued) && id in queued && id.channelId == ch
    requires Numbered(s) && Carries(c) && OnWire(s, c) && id.reliableNumber == NumberOf(s, c)
    ensures Names(s, ch, id, c)
  {
    hide Names, NumberOf, OnWire, Carries, Numbered;
    NumberSmall(s, c);
    SmallNumber(NumberOf(s, c));
    var e :| Names(s, ch, id, e);
    SameName(s, ch, id, e, c);
  }

  /** The number in what the sender keeps names the copy. */
  lemma SameName(s: Sender, ch: nat, id: Identity, e: Copy, c: Copy)
    requires Names(s, ch, id, e) && Carries(c) && OnWire(s, c) && id.reliableNumber == NumberOf(s, c) % 0x1_0000
    ensures c == e
  {
    hide MessageOf, NumberOf, OnWire, Numbered, Carries;
    NumberSmall(s, e);
    NumberSmall(s, c);
    SmallNumber(NumberOf(s, e));
    SmallNumber(NumberOf(s, c));
    hide IdOf;
    NumberNamesCopy(s, c, e);
  }

  lemma NumberSmall(s: Sender, c: Copy)
    requires Numbered(s) && OnWire(s, c) && Carries(c)
    ensures NumberOf(s, c) < 0x1_0000
  {
    StartSmall(s, c.k);
    SpanPositive(s.packets[c.k], s.size);
  }

  lemma SentQueued(o: O.Run, i: nat)
    requires O.Kept(o) && O.Open(o.box) && i < |o.box.sent|
    ensures o.box.sent[i].Key() in o.queued
  {
    var keys := OutboxProofs.Keys(o.box.sent);
    assert keys[i] in multiset(keys);
  }

  lemma OtherAnswerKeeps(t: Talk, ch: nat, number: uint16, channelId: nat, measured: uint32)
    requires Good(t, ch) && Enabled(t, ch, OtherAnswer(number, channelId, measured))
    ensures Good(Effect(t, ch, OtherAnswer(number, channelId, measured)), ch)
  {
    hide O.Kept, O.Effect, Names, Queued, FindSent;
    O.EffectKeeps(t.out, O.Acknowledged(number, channelId, measured));
    AcknowledgedOnly(t.out, number, channelId, measured);
  }

  lemma EventKeeps(t: Talk, ch: nat, e: Event)
    requires Good(t, ch) && Enabled(t, ch, e)
    ensures Good(Effect(t, ch, e), ch)
  {
    match e
    case SendPacket(p) =>
      if t.out.box.state == Connected {
        SendKeeps(t, ch, p);
      }
    case Network(x) => NetworkKeeps(t, ch, x);
    case Local(x) => LocalKeeps(t, ch, x);
    case Answer(c, measured) => AnswerKeeps(t, ch, c, measured);
    case OtherAnswer(number, channelId, measured) => OtherAnswerKeeps(t, ch, number, channelId, measured);
  }

  /** The transport runs along with the rest. */
  lemma EventRemembers(t: Talk, ch: nat, owners: seq<nat>, e: Event) returns (owners': seq<nat>)
    requires Inv(t.y, owners) && Remembers(t.y) && Enabled(t, ch, e)
    ensures Inv(Effect(t, ch, e).y, owners') && Remembers(Effect(t, ch, e).y)
  {
    owners' := owners;
    hide Inv, Remembers, T.Effect, T.Enabled, O.Effect, O.Enabled;
    match e
    case SendPacket(p) =>
      if t.out.box.state == Connected {
        owners' := RunRemembers(t.y, owners, [SendReliable(p)]);
        OneEvent(t.y, SendReliable(p));
      }
    case Network(x) =>
      owners' := RunRemembers(t.y, owners, [x]);
      OneEvent(t.y, x);
    case _ =>
  }

  lemma OneEvent(y: System, x: T.Event)
    requires T.Enabled(y, x)
    ensures T.ValidRun(y, [x]) && T.After(y, [x]) == T.Effect(y, x)
  {
  }

  lemma {:induction false} RunKeeps(t: Talk, ch: nat, owners: seq<nat>, events: seq<Event>) returns (owners': seq<nat>)
    requires Good(t, ch) && Inv(t.y, owners) && Remembers(t.y) && ValidRun(t, ch, events)
    ensures var u := After(t, ch, events); Good(u, ch) && Inv(u.y, owners') && Remembers(u.y)
    decreases |events|
  {
    owners' := owners;
    if events != [] {
      hide Good, Inv, Remembers, Enabled, Effect;
      EventKeeps(t, ch, events[0]);
      owners' := EventRemembers(t, ch, owners, events[0]);
      owners' := RunKeeps(Effect(t, ch, events[0]), ch, owners', events[1..]);
    }
  }

  // ----------------------------------------------------------- the theorems

  /** A client that has just connected, and nothing sent on the channel. */
  ghost predicate Starts(t: Talk, size: nat) {
    size > 0 && t.y == Opened(size) && O.Fresh(t.out)
  }

  lemma StartGood(t: Talk, ch: nat, size: nat)
    requires Starts(t, size)
    ensures Good(t, ch)
  {
    assert OutboxProofs.Keys([]) == [];
    assert O.Kept(t.out);
  }

  lemma StartInv(t: Talk, size: nat)
    requires Starts(t, size)
    ensures Inv(t.y, []) && Remembers(t.y)
  {
  }

  lemma Reachable(t: Talk, ch: nat, size: nat, events: seq<Event>)
    requires Starts(t, size) && ValidRun(t, ch, events)
    ensures Good(After(t, ch, events), ch) && Remembers(After(t, ch, events).y)
  {
    StartGood(t, ch, size);
    StartInv(t, size);
    hide Good, Starts, Inv, Remembers;
    var owners := RunKeeps(t, ch, [], events);
  }

  /** The packet's message or fragment has been received: the packet is delivered, or
      the piece is in place in the receiver's queue. */
  ghost predicate Received(y: System, c: Copy)
    requires Numbered(y.sender) && Carries(c) && OnWire(y.sender, c)
  {
    c.k < |y.receiver.delivered| || Has(y.sender, y.receiver.queues, c.k, PieceOfCopy(c))
  }

  /** Over all runs in which only the receiver's answers acknowledge: whatever message of
      the channel the sender has dropped as acknowledged is a fragment that has been
      received. */
  lemma AckedIsReceived(t: Talk, ch: nat, size: nat, events: seq<Event>, id: Identity)
    requires Starts(t, size) && ValidRun(t, ch, events)
    requires id in After(t, ch, events).out.acked && id.channelId == ch
    ensures var y := After(t, ch, events).y;
            exists c: Copy :: c.OfFragment? && Names(y.sender, ch, id, c) && Received(y, c)
  {
    Reachable(t, ch, size, events);
    var y := After(t, ch, events).y;
    var c :| Names(y.sender, ch, id, c) && c in y.answered;
    RememberedReceived(y, c);
  }

  /** A delayed close loses nothing: when its DISCONNECT is queued, every packet ever sent
      on the channel was sent in fragments, and every one of them has been received. */
  lemma ClosedMeansReceived(t: Talk, ch: nat, size: nat, events: seq<Event>, c: Copy)
    requires Starts(t, size) && ValidRun(t, ch, events)
    requires var u := After(t, ch, events);
             u.out.box.state == Disconnecting && Numbered(u.y.sender) && Carries(c) && OnWire(u.y.sender, c)
    ensures c.OfFragment? && Received(After(t, ch, events).y, c)
  {
    Reachable(t, ch, size, events);
    var u := After(t, ch, events);
    var s, id := u.y.sender, IdOf(u.y.sender, ch, c);
    assert id in u.out.queued && u.out.queued == u.out.acked;
    hide O.Kept, Names, NumberOf, MessageOf;
    assert id.channelId == ch && id.reliableNumber == NumberOf(s, c) % 0x1_0000;
    var e :| Names(s, ch, id, e) && e in u.y.answered;
    SameName(s, ch, id, e, c);
    RememberedReceived(u.y, c);
  }

  lemma RememberedReceived(y: System, c: Copy)
    requires Remembers(y) && c in y.answered && Carries(c) && OnWire(y.sender, c)
    ensures c.OfFragment? && Received(y, c)
  {
    assert Kept(y, c);
  }

  /** So a client that has sent a single packet in one piece never closes when told to
      close later: no run queues the DISCONNECT. */
  lemma PlainNeverCloses(t: Talk, ch: nat, size: nat, events: seq<Event>, k: nat)
    requires Starts(t, size) && ValidRun(t, ch, events)
    requires k < |After(t, ch, events).y.sender.packets| && |After(t, ch, events).y.sender.packets[k]| <= size
    ensures O.Open(After(t, ch, events).out.box)
  {
    Reachable(t, ch, size, events);
    SizeStays(t, ch, events);
    if After(t, ch, events).out.box.state == Disconnecting {
      ClosedMeansReceived(t, ch, size, events, OfPacket(k));
    }
  }

  lemma {:induction false} SizeStays(t: Talk, ch: nat, events: seq<Event>)
    requires ValidRun(t, ch, events)
    ensures After(t, ch, events).y.sender.size == t.y.sender.size
    decreases |events|
  {
    if events != [] {
      SizeStep(t, ch, events[0]);
      hide Enabled, Effect;
      SizeStays(Effect(t, ch, events[0]), ch, events[1..]);
    }
  }

  lemma SizeStep(t: Talk, ch: nat, e: Event)
    requires Enabled(t, ch, e)
    ensures Effect(t, ch, e).y.sender.size == t.y.sender.size
  {
    hide O.Effect, O.Enabled;
  }
}
