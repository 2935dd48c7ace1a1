/** Handing events to the application: the round robin over the clients
    (dispatch in gekkota_xudp.c). */
module Dispatch {
  import opened Words
  import opened Wrappers
  import opened Messages
  import opened Incoming

  /** What dispatching sees of a client: its state and its channels' incoming queues. */
  datatype Slot = Slot(state: ClientState, channels: seq<Queues>)

  datatype Event =
    | NoEvent
    | ConnectEvent(client: nat)
    | DisconnectEvent(client: nat)
    | ReceiveEvent(client: nat, channel: nat, packet: Bytes)
    | Failure(client: nat)

  /** The first channel from k on with something to deliver. */
  function FirstChannel(s: seq<Queues>, k: nat): (r: Option<nat>)
    requires k <= |s|
    ensures r.Some? ==> k <= r.value < |s| && Receive(s[r.value]).0 != Nothing
    ensures forall j :: k <= j < (if r.Some? then r.value else |s|) ==> Receive(s[j]).0 == Nothing
    decreases |s| - k
  {
    if k == |s| then None else if Receive(s[k]).0 != Nothing then Some(k) else FirstChannel(s, k + 1)
  }

  function PacketOf(d: Delivery): Bytes
    requires d != Nothing
  {
    match d case FromReliable(p) => p case FromUnreliable(e) => e.packet
  }

  /** What visiting client i yields, if anything, and what it makes of the client.
      `inflates` says which packets can be inflated; the others are an error. */
  function Visit(c: Slot, i: nat, inflates: Bytes -> bool): (r: Option<(Event, Slot)>) {
    match c.state
    case ConnectionPending | ConnectionSucceeded => Some((ConnectEvent(i), c.(state := Connected)))
    case Zombie => Some((DisconnectEvent(i), Slot(Disconnected, [])))
    case Connected =>
      (match FirstChannel(c.channels, 0)
       case None => None
       case Some(k) =>
         var (d, q) := Receive(c.channels[k]);
         var e := if inflates(PacketOf(d)) then ReceiveEvent(i, k, PacketOf(d)) else Failure(i);
         Some((e, c.(channels := c.channels[k := q]))))
    case _ => None
  }

  /** The k-th client after the last one serviced, going round. */
  function At(last: nat, k: nat, n: nat): (r: nat)
    requires last < n && k <= n
    ensures r < n
  {
    if last + k < n then last + k else last + k - n
  }

  /** The rest of a call that has already looked at k - 1 clients after the last one
      serviced: the event, the clients, and the last one serviced. */
  function Scan(s: seq<Slot>, last: nat, k: nat, inflates: Bytes -> bool): (r: (Event, seq<Slot>, nat))
    requires last < |s| && 1 <= k <= |s| + 1
    ensures |r.1| == |s| && r.2 < |s|
    decreases |s| + 1 - k
  {
    if k > |s| then (NoEvent, s, last)
    else
      var i := At(last, k, |s|);
      match Visit(s[i], i, inflates)
      case None => Scan(s, last, k + 1, inflates)
      case Some((e, c)) => (e, s[i := c], if e.DisconnectEvent? || e.ReceiveEvent? then i else last)
  }

  // ---------------------------------------------------------------- fairness

  /** How many clients stand between the last one serviced and client c. */
  function Distance(last: nat, c: nat, n: nat): (r: nat)
    requires last < n && c < n
    ensures r < n
  {
    if c > last then c - last - 1 else c + n - last - 1
  }

  /** The next packet of client c can be delivered. */
  predicate Deliverable(s: seq<Slot>, c: nat, inflates: Bytes -> bool)
    requires c < |s|
  {
    var v := Visit(s[c], c, inflates);
    s[c].state == Connected && v.Some? && v.value.0.ReceiveEvent?
  }

  lemma AtDistance(last: nat, k: nat, n: nat)
    requires last < n && 1 <= k <= n
    ensures Distance(last, At(last, k, n), n) == k - 1
  {
  }

  /** No client is looked at twice in a call. */
  lemma AtOnce(last: nat, j: nat, k: nat, n: nat)
    requires last < n && 1 <= j < k <= n
    ensures At(last, j, n) != At(last, k, n)
  {
    AtDistance(last, j, n);
    AtDistance(last, k, n);
  }

  /** An event for another client before client c in the round brings c closer. */
  lemma Closer(last: nat, e: nat, c: nat, n: nat)
    requires last < n && e < n && c < n && Distance(last, e, n) < Distance(last, c, n)
    ensures Distance(e, c, n) == Distance(last, c, n) - Distance(last, e, n) - 1
  {
  }

  /** With a deliverable client c, a call always yields an event, for c itself or for
      one of the clients before it. */
  lemma {:induction false} ScanFair(s: seq<Slot>, last: nat, k: nat, c: nat, inflates: Bytes -> bool)
    requires last < |s| && c < |s| && 1 <= k <= Distance(last, c, |s|) + 1 && Deliverable(s, c, inflates)
    ensures var (e, _, last') := Scan(s, last, k, inflates);
            && e != NoEvent && e.client < |s|
            && Visit(s[e.client], e.client, inflates).Some? && Visit(s[e.client], e.client, inflates).value.0 == e
            && (e.client == c ==> e.ReceiveEvent?)
            && (e.client != c ==> k - 1 <= Distance(last, e.client, |s|) < Distance(last, c, |s|))
            && last' == if e.ReceiveEvent? || e.DisconnectEvent? then e.client else last
    decreases |s| + 1 - k
  {
    var i := At(last, k, |s|);
    AtDistance(last, k, |s|);
    if Visit(s[i], i, inflates).None? {
      ScanFair(s, last, k + 1, c, inflates);
    } else if i != c {
      SameDistance(last, i, c, |s|);
    }
  }

  lemma SameDistance(last: nat, i: nat, c: nat, n: nat)
    requires last < n && i < n && c < n && i != c
    ensures Distance(last, i, n) != Distance(last, c, n)
  {
  }

  /** The packet or disconnect events for other clients, until client c is served,
      when `rounds` is what the clients are at each call. */
  function OthersServed(rounds: seq<seq<Slot>>, last: nat, c: nat, inflates: Bytes -> bool): (r: nat)
    requires forall i :: 0 <= i < |rounds| ==> |rounds[i]| > last
    requires forall i, j :: 0 <= i < |rounds| && 0 <= j < |rounds| ==> |rounds[i]| == |rounds[j]|
    decreases |rounds|
  {
    if rounds == [] then 0
    else
      var (e, _, last') := Scan(rounds[0], last, 1, inflates);
      if e.ReceiveEvent? && e.client == c then 0
      else (if e.ReceiveEvent? || e.DisconnectEvent? then 1 else 0) + OthersServed(rounds[1..], last', c, inflates)
  }

  /** Fairness: however the clients change between the calls, a connected client that
      stays deliverable is served after at most clientCount - 1 RECEIVE or
      DISCONNECT events for others. */
  lemma {:induction false} ServedInTurn(rounds: seq<seq<Slot>>, last: nat, c: nat, n: nat, inflates: Bytes -> bool)
    requires last < n && c < n
    requires forall i :: 0 <= i < |rounds| ==> |rounds[i]| == n && Deliverable(rounds[i], c, inflates)
    ensures OthersServed(rounds, last, c, inflates) <= Distance(last, c, n) <= n - 1
    decreases |rounds|
  {
    if rounds != [] {
      var (e, _, last') := Scan(rounds[0], last, 1, inflates);
      ScanFair(rounds[0], last, 1, c, inflates);
      hide Scan, Deliverable, Visit;
      if e.client != c {
        if e.ReceiveEvent? || e.DisconnectEvent? {
          Closer(last, e.client, c, n);
        }
        ServedInTurn(rounds[1..], last', c, n, inflates);
      }
    }
  }

  /** Client c is served by one of the calls. */
  predicate Served(rounds: seq<seq<Slot>>, last: nat, c: nat, inflates: Bytes -> bool)
    requires forall i :: 0 <= i < |rounds| ==> |rounds[i]| > last
    requires forall i, j :: 0 <= i < |rounds| && 0 <= j < |rounds| ==> |rounds[i]| == |rounds[j]|
    decreases |rounds|
  {
    rounds != [] &&
    (var (e, _, last') := Scan(rounds[0], last, 1, inflates);
     (e.ReceiveEvent? && e.client == c) || Served(rounds[1..], last', c, inflates))
  }

  /** Visiting the client yields an event that does not move the last one serviced: it
      has just connected, or its next packet does not inflate. */
  predicate Stalls(s: seq<Slot>, d: nat, inflates: Bytes -> bool)
    requires d < |s|
  {
    var c := s[d];
    || c.state == ConnectionPending || c.state == ConnectionSucceeded
    || (&& c.state == Connected && FirstChannel(c.channels, 0).Some?
        && !inflates(PacketOf(Receive(c.channels[FirstChannel(c.channels, 0).value]).0)))
  }

  /** What the clients are at each of a number of calls: client c is deliverable every
      time, and of the others only those given ever stall. */
  ghost predicate Rounds(rounds: seq<seq<Slot>>, c: nat, n: nat, stallers: set<nat>, inflates: Bytes -> bool)
    requires c < n
  {
    forall i :: 0 <= i < |rounds| ==> Round(rounds[i], c, n, stallers, inflates)
  }

  ghost predicate Round(s: seq<Slot>, c: nat, n: nat, stallers: set<nat>, inflates: Bytes -> bool)
    requires c < n
  {
    && |s| == n && Deliverable(s, c, inflates)
    && forall d {:trigger d in stallers} {:trigger s[d]} :: 0 <= d < n && Stalls(s, d, inflates) ==> d in stallers
  }

  /** However the clients change, client c is served within n calls. */
  ghost predicate AlwaysServed(last: nat, c: nat, n: nat, stallers: set<nat>, inflates: Bytes -> bool)
    requires last < n && c < n
  {
    forall rounds: seq<seq<Slot>> {:trigger Rounds(rounds, c, n, stallers, inflates)} ::
      Rounds(rounds, c, n, stallers, inflates) && |rounds| >= n ==> Served(rounds, last, c, inflates)
  }

  lemma StaysBehind(last: nat, e: nat, c: nat, d: nat, n: nat)
    requires last < n && e < n && c < n && d < n
    requires Distance(last, e, n) < Distance(last, c, n) < Distance(last, d, n)
    ensures Distance(e, c, n) < Distance(e, d, n)
  {
  }

  /** The call moves on: its event is for c, or for a client before it that is the last
      one serviced afterwards. */
  lemma MovesOn(s: seq<Slot>, last: nat, c: nat, n: nat, stallers: set<nat>, inflates: Bytes -> bool)
    requires last < n && c < n && Round(s, c, n, stallers, inflates)
    requires forall d :: d in stallers && d < n ==> Distance(last, c, n) < Distance(last, d, n)
    ensures var (e, _, last') := Scan(s, last, 1, inflates);
            && e != NoEvent && e.client < n
            && if e.client == c then e.ReceiveEvent?
               else last' == e.client && Distance(last, e.client, n) < Distance(last, c, n)
  {
    ScanFair(s, last, 1, c, inflates);
    var e := Scan(s, last, 1, inflates).0;
    assert !Stalls(s, e.client, inflates);
    hide Scan, Distance, FirstChannel, Receive;
  }

  lemma {:induction false} ServedSoon(rounds: seq<seq<Slot>>, last: nat, c: nat, n: nat, stallers: set<nat>, inflates: Bytes -> bool)
    requires last < n && c < n && Rounds(rounds, c, n, stallers, inflates) && |rounds| > Distance(last, c, n)
    requires forall d :: d in stallers && d < n ==> Distance(last, c, n) < Distance(last, d, n)
    ensures Served(rounds, last, c, inflates)
    decreases |rounds|
  {
    var s, rest := rounds[0], rounds[1..];
    MovesOn(s, last, c, n, stallers, inflates);
    var (e, _, last') := Scan(s, last, 1, inflates);
    hide Scan, Round;
    if e.client != c {
      Closer(last, e.client, c, n);
      forall d | d in stallers && d < n
        ensures Distance(last', c, n) < Distance(last', d, n)
      {
        StaysBehind(last, e.client, c, d, n);
      }
      hide Distance;
      ServedSoon(rest, last', c, n, stallers, inflates);
    }
  }

  /** The exact condition for client c to be served within clientCount calls, however
      the clients change: of those that may stall, none comes before it. */
  lemma ServedExactly(last: nat, c: nat, n: nat, stallers: set<nat>, inflates: Bytes -> bool, good: Bytes, bad: Bytes)
    requires last < n && c < n && inflates(good) && !inflates(bad)
    requires forall d :: d in stallers ==> d < n && d != c
    ensures AlwaysServed(last, c, n, stallers, inflates) <==>
            forall d :: d in stallers ==> Distance(last, c, n) < Distance(last, d, n)
  {
    if forall d :: d in stallers ==> Distance(last, c, n) < Distance(last, d, n) {
      forall rounds: seq<seq<Slot>> | Rounds(rounds, c, n, stallers, inflates) && |rounds| >= n
        ensures Served(rounds, last, c, inflates)
      {
        ServedSoon(rounds, last, c, n, stallers, inflates);
      }
    } else {
      var d :| d in stallers && Distance(last, d, n) <= Distance(last, c, n);
      SameDistance(last, d, c, n);
      Starved(last, c, d, n, good, bad, inflates, n);
      StarvedRound(c, d, n, stallers, good, bad, inflates);
      assert Rounds(seq(n, _ => OneStalls(c, d, n, good, bad)), c, n, stallers, inflates);
    }
  }

  /** A connected client with one unsequenced packet waiting. */
  function Waiting(p: Bytes): Slot {
    Slot(Connected, [Queues(0, 0, [], [Entry(UnsequencedData, 0, 0, 0, 0, [], p)])])
  }

  function Idle(n: nat): (r: seq<Slot>)
    ensures |r| == n
  {
    seq(n, _ => Slot(Disconnected, []))
  }

  /** Client c has a good packet waiting and client d one that does not inflate. */
  function OneStalls(c: nat, d: nat, n: nat, good: Bytes, bad: Bytes): (s: seq<Slot>)
    requires c < n && d < n
    ensures |s| == n
  {
    Idle(n)[c := Waiting(good)][d := Waiting(bad)]
  }

  lemma StarvedRound(c: nat, d: nat, n: nat, stallers: set<nat>, good: Bytes, bad: Bytes, inflates: Bytes -> bool)
    requires c < n && d < n && c != d && d in stallers && inflates(good) && !inflates(bad)
    ensures Round(OneStalls(c, d, n, good, bad), c, n, stallers, inflates)
  {
    WaitingVisit(good, c, inflates);
  }

  /** What the call finds first is client d. */
  lemma {:induction false} FindsStaller(last: nat, c: nat, d: nat, n: nat, k: nat, good: Bytes, bad: Bytes, inflates: Bytes -> bool)
    requires last < n && c < n && d < n && !inflates(bad)
    requires 1 <= k <= Distance(last, d, n) + 1 <= Distance(last, c, n)
    ensures var (e, _, last') := Scan(OneStalls(c, d, n, good, bad), last, k, inflates); e == Failure(d) && last' == last
    decreases n + 1 - k
  {
    var i, s := At(last, k, n), OneStalls(c, d, n, good, bad);
    AtDistance(last, k, n);
    WaitingVisit(bad, d, inflates);
    if i != d {
      SameDistance(last, i, d, n);
      assert s[i] == Slot(Disconnected, []);
      hide OneStalls, Distance;
      FindsStaller(last, c, d, n, k + 1, good, bad, inflates);
    }
  }

  /** A client that comes before c and is sent a packet that does not inflate before each
      call keeps c from being served, for any number of calls. */
  lemma {:induction false} Starved(last: nat, c: nat, d: nat, n: nat, good: Bytes, bad: Bytes, inflates: Bytes -> bool, calls: nat)
    requires last < n && c < n && d < n && Distance(last, d, n) < Distance(last, c, n) && !inflates(bad)
    ensures !Served(seq(calls, _ => OneStalls(c, d, n, good, bad)), last, c, inflates)
    decreases calls
  {
    if calls > 0 {
      var s := OneStalls(c, d, n, good, bad);
      var rounds := seq(calls, _ => s);
      assert rounds[0] == s && rounds[1..] == seq(calls - 1, _ => s);
      FindsStaller(last, c, d, n, 1, good, bad, inflates);
      hide OneStalls, Distance, Scan;
      Starved(last, c, d, n, good, bad, inflates, calls - 1);
    }
  }

  lemma WaitingVisit(p: Bytes, i: nat, inflates: Bytes -> bool)
    ensures var v := Visit(Waiting(p), i, inflates);
            v.Some? && v.value.0 == if inflates(p) then ReceiveEvent(i, 0, p) else Failure(i)
  {
  }

  /** A call that yields nothing found nothing to yield anywhere, and leaves the clients alone. */
  lemma {:induction false} NothingMissed(s: seq<Slot>, last: nat, k: nat, inflates: Bytes -> bool)
    requires last < |s| && 1 <= k <= |s| + 1 && Scan(s, last, k, inflates).0 == NoEvent
    ensures Scan(s, last, k, inflates).1 == s
    ensures forall i :: 0 <= i < |s| && Distance(last, i, |s|) >= k - 1 ==> Visit(s[i], i, inflates).None?
    decreases |s| + 1 - k
  {
    if k <= |s| {
      var at := At(last, k, |s|);
      AtDistance(last, k, |s|);
      NothingMissed(s, last, k + 1, inflates);
      forall i | 0 <= i < |s| && Distance(last, i, |s|) >= k - 1
        ensures Visit(s[i], i, inflates).None?
      {
        if i != at {
          SameDistance(last, i, at, |s|);
        }
      }
    }
  }

  // -------------------------------------------------------------- the program

  class Dispatcher {
    const clients: array<Slot>
    var lastServicedClient: nat
    var reconfigureBandwidth: bool

    ghost predicate Valid()
      reads this
    {
      lastServicedClient < clients.Length
    }

    constructor (clientCount: nat)
      requires clientCount > 0
      ensures Valid() && fresh(clients) && clients.Length == clientCount && lastServicedClient == 0
    {
      clients := new Slot[clientCount](_ => Slot(Disconnected, []));
      lastServicedClient, reconfigureBandwidth := 0, false;
    }

    /** The scan over a connected client's channels. */
    method ReceiveFrom(i: nat, inflates: Bytes -> bool) returns (e: Event)
      requires i < clients.Length && clients[i].state == Connected
      modifies clients
      ensures var v := Visit(old(clients[i]), i, inflates);
              if v.None? then e == NoEvent && clients[..] == old(clients[..])
              else e == v.value.0 && clients[..] == old(clients[..])[i := v.value.1]
    {
      var c := clients[i];
      var k := 0;
      while k < |c.channels|
        invariant 0 <= k <= |c.channels| && FirstChannel(c.channels, 0) == FirstChannel(c.channels, k)
      {
        if c.channels[k].reliable != [] || c.channels[k].unreliable != [] {
          var (d, q) := Receive(c.channels[k]);
          if d != Nothing {
            clients[i] := c.(channels := c.channels[k := q]);
            return if inflates(PacketOf(d)) then ReceiveEvent(i, k, PacketOf(d)) else Failure(i);
          }
        }
        k := k + 1;
      }
      e := NoEvent;
    }

    /** Looks at one client. */
    method VisitClient(i: nat, inflates: Bytes -> bool) returns (e: Event)
      requires Valid() && i < clients.Length
      modifies this, clients
      ensures Valid()
      ensures var v := Visit(old(clients[i]), i, inflates);
              if v.None? then e == NoEvent && clients[..] == old(clients[..])
              else e == v.value.0 && e != NoEvent && clients[..] == old(clients[..])[i := v.value.1]
      ensures lastServicedClient == if e.DisconnectEvent? || e.ReceiveEvent? then i else old(lastServicedClient)
      ensures reconfigureBandwidth == (old(reconfigureBandwidth) || e.DisconnectEvent?)
    {
      if clients[i].state == ConnectionPending || clients[i].state == ConnectionSucceeded {
        clients[i] := clients[i].(state := Connected);
        return ConnectEvent(i);
      }
      if clients[i].state == Zombie {
        reconfigureBandwidth := true;
        clients[i] := Slot(Disconnected, []);
        lastServicedClient := i;
        return DisconnectEvent(i);
      }
      if clients[i].state != Connected {
        return NoEvent;
      }
      e := ReceiveFrom(i, inflates);
      if e.ReceiveEvent? {
        lastServicedClient := i;
      }
    }

    /** One call: every client is looked at once at most, starting after the one
        serviced last; `visited` is the clients looked at. */
    method Dispatch(inflates: Bytes -> bool) returns (e: Event, ghost visited: seq<nat>)
      requires Valid()
      modifies this, clients
      ensures Valid()
      ensures (e, clients[..], lastServicedClient) == Scan(old(clients[..]), old(lastServicedClient), 1, inflates)
      ensures |visited| <= clients.Length
      ensures forall j :: 0 <= j < |visited| ==> visited[j] == At(old(lastServicedClient), j + 1, clients.Length)
      ensures reconfigureBandwidth == (old(reconfigureBandwidth) || e.DisconnectEvent?)
    {
      hide Visit;
      ghost var s, last, n := clients[..], lastServicedClient, clients.Length;
      var client := lastServicedClient;
      visited := [];
      while true
        invariant |visited| < n && clients[..] == s && lastServicedClient == last < n
        invariant client == At(last, |visited|, n) && reconfigureBandwidth == old(reconfigureBandwidth)
        invariant forall j :: 0 <= j < |visited| ==> visited[j] == At(last, j + 1, n)
        invariant Scan(s, last, 1, inflates) == Scan(s, last, |visited| + 1, inflates)
        decreases n - |visited|
      {
        client := client + 1;
        if client >= clients.Length {
          client := 0;
        }
        visited := visited + [client];
        assert clients[client] == s[client];
        LastAt(last, |visited|, n);
        e := VisitClient(client, inflates);
        if e != NoEvent {
          return;
        }
        if client == lastServicedClient {
          break;
        }
      }
      e := NoEvent;
    }
  }

  lemma LastAt(last: nat, k: nat, n: nat)
    requires last < n && 1 <= k <= n
    ensures At(last, k, n) == last <==> k == n
  {
    AtDistance(last, k, n);
  }
}
