/** What many calls of the dispatcher do when nothing arrives between them: every packet
    is handed over once, in order, and nothing else changes. */
module DispatchRuns {
  import opened Words
  import opened Wrappers
  import opened Messages
  import opened Incoming
  import opened Dispatch

  // --------------------------------------------- a channel, taken from again and again

  /** The channel after m packets have been taken. */
  function Rest(q: Queues, m: nat): Queues
    decreases m
  {
    if m == 0 then q else Rest(Receive(q).1, m - 1)
  }

  /** The packets taken. */
  function TakenFrom(q: Queues, m: nat): (r: seq<Bytes>)
    decreases m
  {
    if m == 0 then []
    else (if Receive(q).0 == Nothing then [] else [PacketOf(Receive(q).0)]) + TakenFrom(Receive(q).1, m - 1)
  }

  function Entries(q: Queues): nat {
    |q.reliable| + |q.unreliable|
  }

  lemma ReceiveTakesOne(q: Queues)
    ensures Entries(Receive(q).1) == Entries(q) - (if Receive(q).0 == Nothing then 0 else 1)
    ensures Receive(q).0 == Nothing ==> Receive(q).1 == q
  {
  }

  // ------------------------------------------------------------------ one call

  predicate Pending(c: Slot) {
    c.state == ConnectionPending || c.state == ConnectionSucceeded
  }

  /** One packet is taken off a channel of a connected client, and nothing else changes. */
  ghost predicate Takes(s: seq<Slot>, s': seq<Slot>, i: nat, k: nat, p: Bytes) {
    && i < |s| && s[i].state == Connected && k < |s[i].channels|
    && Receive(s[i].channels[k]).0 != Nothing && PacketOf(Receive(s[i].channels[k]).0) == p
    && s' == s[i := Slot(Connected, s[i].channels[k := Receive(s[i].channels[k]).1])]
  }

  /** What an event says of the clients before and after the call. */
  ghost predicate Step(s: seq<Slot>, e: Event, s': seq<Slot>, inflates: Bytes -> bool) {
    match e
    case NoEvent => s' == s
    case ConnectEvent(i) => i < |s| && Pending(s[i]) && s' == s[i := Slot(Connected, s[i].channels)]
    case DisconnectEvent(i) => i < |s| && s[i].state == Zombie && s' == s[i := Slot(Disconnected, [])]
    case ReceiveEvent(i, k, p) => Takes(s, s', i, k, p) && inflates(p)
    case Failure(i) => exists k, p :: Takes(s, s', i, k, p) && !inflates(p)
  }

  /** A call does what its event says, and without an event there was nothing to do for
      anybody. */
  lemma {:induction false} CallSteps(s: seq<Slot>, last: nat, k: nat, inflates: Bytes -> bool)
    requires last < |s| && 1 <= k <= |s| + 1
    ensures Step(s, Scan(s, last, k, inflates).0, Scan(s, last, k, inflates).1, inflates)
    decreases |s| + 1 - k
  {
    if k <= |s| {
      var i := At(last, k, |s|);
      hide Receive;
      if Visit(s[i], i, inflates).None? {
        CallSteps(s, last, k + 1, inflates);
      } else {
        VisitSteps(s, i, inflates);
      }
    }
  }

  lemma VisitSteps(s: seq<Slot>, i: nat, inflates: Bytes -> bool)
    requires i < |s| && Visit(s[i], i, inflates).Some?
    ensures var (e, c) := Visit(s[i], i, inflates).value; Step(s, e, s[i := c], inflates)
  {
    hide Receive;
    var (e, c) := Visit(s[i], i, inflates).value;
    if e.Failure? {
      var k := FirstChannel(s[i].channels, 0).value;
      var p := PacketOf(Receive(s[i].channels[k]).0);
      assert Takes(s, s[i := c], i, k, p);
    }
  }

  /** Nothing to report: nobody has just connected or ended, and no channel of a connected
      client has anything to take. */
  lemma NoEventNothing(s: seq<Slot>, last: nat, inflates: Bytes -> bool)
    requires last < |s|
    ensures Scan(s, last, 1, inflates).0 == NoEvent <==>
            forall i :: 0 <= i < |s| ==> Quiet(s[i])
  {
    if Scan(s, last, 1, inflates).0 == NoEvent {
      NothingMissed(s, last, 1, inflates);
      forall i | 0 <= i < |s|
        ensures Quiet(s[i])
      {
        assert Visit(s[i], i, inflates).None?;
      }
    } else {
      CallSteps(s, last, 1, inflates);
      var e := Scan(s, last, 1, inflates).0;
      assert !Quiet(s[e.client]);
    }
  }

  predicate Quiet(c: Slot) {
    && !Pending(c) && c.state != Zombie
    && (c.state == Connected ==> forall k :: 0 <= k < |c.channels| ==> Receive(c.channels[k]).0 == Nothing)
  }

  predicate NoneBefore(channels: seq<Queues>, k: nat)
    requires k <= |channels|
  {
    forall h :: 0 <= h < k ==> Receive(channels[h]).0 == Nothing
  }

  /** The event is the first in turn: the clients between the last one serviced and its own
      have nothing to report, nor have the channels before the one it takes from; and the
      turn moves on with a DISCONNECT or a packet only. */
  lemma {:induction false} FirstInTurn(s: seq<Slot>, last: nat, k: nat, inflates: Bytes -> bool)
    requires last < |s| && 1 <= k <= |s| + 1
    ensures var (e, _, last') := Scan(s, last, k, inflates);
            && (e != NoEvent ==> e.client < |s| && forall h :: k <= h <= Distance(last, e.client, |s|) ==> Quiet(s[At(last, h, |s|)]))
            && last' == (if e.DisconnectEvent? || e.ReceiveEvent? then e.client else last)
            && (e.ReceiveEvent? ==> e.channel < |s[e.client].channels| && NoneBefore(s[e.client].channels, e.channel))
    decreases |s| + 1 - k
  {
    if k <= |s| {
      var i := At(last, k, |s|);
      AtDistance(last, k, |s|);
      hide Receive, At, Distance;
      if Visit(s[i], i, inflates).None? {
        FirstInTurn(s, last, k + 1, inflates);
        assert Quiet(s[i]);
      }
    }
  }

  // ----------------------------------------------------------------- many calls

  // The events of a number of calls, and the clients afterwards.
  datatype Log = Log(events: seq<Event>, clients: seq<Slot>)

  function Calls(s: seq<Slot>, last: nat, n: nat, inflates: Bytes -> bool): (r: Log)
    requires last < |s|
    ensures |r.events| == n && |r.clients| == |s|
    decreases n
  {
    if n == 0 then Log([], s)
    else
      var (e, s', last') := Scan(s, last, 1, inflates);
      var rest := Calls(s', last', n - 1, inflates);
      Log([e] + rest.events, rest.clients)
  }

  /** The packets reported for a channel of a client. */
  function Reported(events: seq<Event>, i: nat, k: nat): (r: seq<Bytes>) {
    if events == [] then []
    else (if events[0].ReceiveEvent? && events[0].client == i && events[0].channel == k then [events[0].packet] else [])
         + Reported(events[1..], i, k)
  }

  function Inflating(s: seq<Bytes>, inflates: Bytes -> bool): (r: seq<Bytes>) {
    if s == [] then [] else (if inflates(s[0]) then [s[0]] else []) + Inflating(s[1..], inflates)
  }

  function Count(events: seq<Event>, e: Event): (r: nat) {
    if events == [] then 0 else (if events[0] == e then 1 else 0) + Count(events[1..], e)
  }

  /** Packets taken, whether reported or lost because they do not inflate. */
  function Packets(events: seq<Event>): (r: nat) {
    if events == [] then 0 else (if events[0].ReceiveEvent? || events[0].Failure? then 1 else 0) + Packets(events[1..])
  }

  /** The client is there for the application, now or as soon as it is told. */
  predicate There(c: Slot) {
    c.state == Connected || Pending(c)
  }

  /** The packets reported for a channel are, in order and each once, those that taking
      m times from it yields, except what does not inflate; and the channel is what is
      left. */
  ghost predicate HandedOver(q: Queues, m: nat, reported: seq<Bytes>, rest: Queues, inflates: Bytes -> bool) {
    && |TakenFrom(q, m)| == m && reported == Inflating(TakenFrom(q, m), inflates) && rest == Rest(q, m)
  }

  lemma {:induction false} ChannelHandedOver(s: seq<Slot>, last: nat, n: nat, i: nat, k: nat, inflates: Bytes -> bool) returns (m: nat)
    requires last < |s| && i < |s| && There(s[i]) && k < |s[i].channels|
    ensures var r := Calls(s, last, n, inflates);
            && There(r.clients[i]) && |r.clients[i].channels| == |s[i].channels| && m <= n
            && HandedOver(s[i].channels[k], m, Reported(r.events, i, k), r.clients[i].channels[k], inflates)
    decreases n
  {
    if n == 0 {
      m := 0;
    } else {
      var (e, s', last') := Scan(s, last, 1, inflates);
      CallSteps(s, last, 1, inflates);
      hide Scan, HandedOver, Reported, Step;
      var took := StepChannel(s, e, s', i, k, inflates);
      m := ChannelHandedOver(s', last', n - 1, i, k, inflates);
      var rest := Calls(s', last', n - 1, inflates);
      ReportedMore(e, rest.events, i, k);
      var q := s[i].channels[k];
      if took {
        TakenMore(q, m, Reported(rest.events, i, k), rest.clients[i].channels[k], inflates);
        m := m + 1;
      }
      hide Receive;
    }
  }

  lemma ReportedMore(e: Event, rest: seq<Event>, i: nat, k: nat)
    ensures Reported([e] + rest, i, k)
            == (if e.ReceiveEvent? && e.client == i && e.channel == k then [e.packet] else []) + Reported(rest, i, k)
    ensures !(e.ReceiveEvent? && e.client == i && e.channel == k) ==> Reported([e] + rest, i, k) == Reported(rest, i, k)
  {
    assert ([e] + rest)[0] == e && ([e] + rest)[1..] == rest;
  }

  lemma TakenMore(q: Queues, m: nat, reported: seq<Bytes>, rest: Queues, inflates: Bytes -> bool)
    requires Receive(q).0 != Nothing && HandedOver(Receive(q).1, m, reported, rest, inflates)
    ensures var p := PacketOf(Receive(q).0);
            HandedOver(q, m + 1, (if inflates(p) then [p] else []) + reported, rest, inflates)
    ensures !inflates(PacketOf(Receive(q).0)) ==> HandedOver(q, m + 1, reported, rest, inflates)
  {
    hide Receive;
    var t := TakenFrom(q, m + 1);
    assert t[0] == PacketOf(Receive(q).0) && t[1..] == TakenFrom(Receive(q).1, m);
    assert [] + reported == reported;
  }

  /** What one call does to a channel: a packet is taken off it, and reported if it
      inflates; or the channel stays as it is, and nothing is reported for it. */
  lemma StepChannel(s: seq<Slot>, e: Event, s': seq<Slot>, i: nat, k: nat, inflates: Bytes -> bool) returns (took: bool)
    requires Step(s, e, s', inflates) && |s'| == |s| && i < |s| && There(s[i]) && k < |s[i].channels|
    ensures There(s'[i]) && |s'[i].channels| == |s[i].channels|
    ensures var q := s[i].channels[k];
            var mine := e.ReceiveEvent? && e.client == i && e.channel == k;
            if took then
              && Receive(q).0 != Nothing && s'[i].channels[k] == Receive(q).1
              && (mine <==> inflates(PacketOf(Receive(q).0))) && (mine ==> e.packet == PacketOf(Receive(q).0))
            else !mine && s'[i].channels[k] == q
  {
    hide Receive;
    took := false;
    if e.ReceiveEvent? {
      took := e.client == i && e.channel == k;
    } else if e.Failure? {
      var h, p :| Takes(s, s', e.client, h, p) && !inflates(p);
      took := e.client == i && h == k;
    }
  }

  /** Every packet taken is one entry less, over all clients and channels, and nothing
      else takes one away, if no client has ended. */
  lemma {:induction false} EntriesFall(s: seq<Slot>, last: nat, n: nat, inflates: Bytes -> bool)
    requires last < |s| && forall i :: 0 <= i < |s| ==> s[i].state != Zombie
    ensures var r := Calls(s, last, n, inflates);
            Total(r.clients) + Packets(r.events) == Total(s) && forall i :: 0 <= i < |s| ==> r.clients[i].state != Zombie
    decreases n
  {
    if n > 0 {
      var (e, s', last') := Scan(s, last, 1, inflates);
      CallSteps(s, last, 1, inflates);
      hide Scan, Receive, Total;
      StepTotal(s, e, s', inflates);
      EntriesFall(s', last', n - 1, inflates);
      var rest := Calls(s', last', n - 1, inflates).events;
      assert ([e] + rest)[0] == e && ([e] + rest)[1..] == rest;
    }
  }

  function Held(channels: seq<Queues>): (r: nat) {
    if channels == [] then 0 else Entries(channels[0]) + Held(channels[1..])
  }

  function Total(s: seq<Slot>): (r: nat) {
    if s == [] then 0 else Held(s[0].channels) + Total(s[1..])
  }

  lemma {:induction false} HeldUpdate(channels: seq<Queues>, k: nat, q: Queues)
    requires k < |channels|
    ensures Held(channels[k := q]) + Entries(channels[k]) == Held(channels) + Entries(q)
  {
    if k > 0 {
      assert channels[k := q][1..] == channels[1..][k - 1 := q];
      HeldUpdate(channels[1..], k - 1, q);
    } else {
      assert channels[k := q][1..] == channels[1..];
    }
  }

  lemma {:induction false} TotalUpdate(s: seq<Slot>, i: nat, c: Slot)
    requires i < |s|
    ensures Total(s[i := c]) + Held(s[i].channels) == Total(s) + Held(c.channels)
  {
    if i > 0 {
      assert s[i := c][1..] == s[1..][i - 1 := c];
      TotalUpdate(s[1..], i - 1, c);
    } else {
      assert s[i := c][1..] == s[1..];
    }
  }

  lemma TakesTotal(s: seq<Slot>, s': seq<Slot>, i: nat, k: nat, p: Bytes)
    requires Takes(s, s', i, k, p)
    ensures Total(s') + 1 == Total(s)
  {
    var q := s[i].channels[k];
    ReceiveTakesOne(q);
    HeldUpdate(s[i].channels, k, Receive(q).1);
    TotalUpdate(s, i, Slot(Connected, s[i].channels[k := Receive(q).1]));
    hide Receive, Held, Total;
  }

  lemma StepTotal(s: seq<Slot>, e: Event, s': seq<Slot>, inflates: Bytes -> bool)
    requires Step(s, e, s', inflates) && |s'| == |s| && forall i :: 0 <= i < |s| ==> s[i].state != Zombie
    ensures Total(s') + (if e.ReceiveEvent? || e.Failure? then 1 else 0) == Total(s)
    ensures forall i :: 0 <= i < |s| ==> s'[i].state != Zombie
  {
    hide Receive, Total;
    match e
    case ReceiveEvent(i, k, p) => TakesTotal(s, s', i, k, p);
    case Failure(i) =>
      var k, p :| Takes(s, s', i, k, p) && !inflates(p);
      TakesTotal(s, s', i, k, p);
    case ConnectEvent(i) => TotalUpdate(s, i, Slot(Connected, s[i].channels));
    case _ =>
  }

  /** Each client yields at most one CONNECT and at most one DISCONNECT event, and only if
      it has just connected or has ended; and a client that is neither there nor ended is
      left alone. */
  lemma {:induction false} ToldOnce(s: seq<Slot>, last: nat, n: nat, i: nat, inflates: Bytes -> bool)
    requires last < |s| && i < |s|
    ensures var r := Calls(s, last, n, inflates);
            && Count(r.events, ConnectEvent(i)) <= (if Pending(s[i]) then 1 else 0)
            && Count(r.events, DisconnectEvent(i)) <= (if s[i].state == Zombie then 1 else 0)
            && (!There(s[i]) && s[i].state != Zombie ==> r.clients[i] == s[i])
            && (s[i].state == Zombie ==> r.clients[i] == s[i] || r.clients[i] == Slot(Disconnected, []))
    decreases n
  {
    if n > 0 {
      var (e, s', last') := Scan(s, last, 1, inflates);
      CallSteps(s, last, 1, inflates);
      hide Scan, Receive;
      ToldOnce(s', last', n - 1, i, inflates);
      var rest := Calls(s', last', n - 1, inflates).events;
      assert ([e] + rest)[0] == e && ([e] + rest)[1..] == rest;
      StepTells(s, e, s', i, inflates);
      hide Step;
    }
  }

  lemma StepTells(s: seq<Slot>, e: Event, s': seq<Slot>, i: nat, inflates: Bytes -> bool)
    requires Step(s, e, s', inflates) && |s'| == |s| && i < |s|
    ensures (if Pending(s'[i]) then 1 else 0) + (if e == ConnectEvent(i) then 1 else 0) <= (if Pending(s[i]) then 1 else 0)
    ensures (if s'[i].state == Zombie then 1 else 0) + (if e == DisconnectEvent(i) then 1 else 0) <= (if s[i].state == Zombie then 1 else 0)
    ensures !There(s[i]) && s[i].state != Zombie ==> s'[i] == s[i]
    ensures s[i].state == Zombie ==> s'[i] == s[i] || s'[i] == Slot(Disconnected, [])
  {
    hide Receive;
    if e.Failure? {
      var k, p :| Takes(s, s', e.client, k, p) && !inflates(p);
    }
  }
}
