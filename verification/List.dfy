/** The intrusive circular list of gekkota_list.c: every queue of the transport
    and both lists of the allocator are made of these nodes. */
module List {
  import opened Wrappers

  class Node {
    var next: Node?
    var previous: Node?

    constructor ()
      ensures next == null && previous == null
    {
      next, previous := null, null;
    }
  }

  type Links = map<Node, Node?>

  predicate Distinct(ring: seq<Node>) {
    forall i, j :: 0 <= i < j < |ring| ==> ring[i] != ring[j]
  }

  function Succ(ring: seq<Node>, i: nat): (r: nat)
    requires i < |ring|
    ensures r < |ring|
  {
    if i + 1 == |ring| then 0 else i + 1
  }

  function Pred(ring: seq<Node>, i: nat): (r: nat)
    requires i < |ring|
    ensures r < |ring| && Succ(ring, r) == i
  {
    if i == 0 then |ring| - 1 else i - 1
  }

  /** The i-th node points to the one after it, and that one points back. */
  predicate LinkedAt(ring: seq<Node>, next: Links, previous: Links, i: nat)
    requires i < |ring|
  {
    var a, b := ring[i], ring[Succ(ring, i)];
    a in next && b in previous && next[a] == b && previous[b] == a
  }

  /** The links spell out the ring, in both directions. */
  ghost predicate Linked(ring: seq<Node>, next: Links, previous: Links)
  {
    Distinct(ring) && forall i: nat :: i < |ring| ==> LinkedAt(ring, next, previous, i)
  }

  ghost function NextOf(ring: seq<Node>): (r: Links)
    reads ring
  {
    map x | x in ring :: x.next
  }

  ghost function PreviousOf(ring: seq<Node>): (r: Links)
    reads ring
  {
    map x | x in ring :: x.previous
  }

  function InsertAt(ring: seq<Node>, p: nat, element: Node): (r: seq<Node>)
    requires p <= |ring|
    ensures |r| == |ring| + 1
  {
    ring[..p] + [element] + ring[p..]
  }

  /** Where an insertion before the k-th node of the ring lands. */
  function Slot(ring: seq<Node>, k: nat): (p: nat)
    requires k < |ring|
    ensures 0 < p <= |ring|
  {
    if k == 0 then |ring| else k
  }

  /** Four link updates are insertion before the k-th node. */
  lemma InsertLinks(ring: seq<Node>, next: Links, previous: Links, k: nat, element: Node)
    requires Linked(ring, next, previous) && k < |ring| && element !in ring
    ensures Linked(InsertAt(ring, Slot(ring, k), element),
                   next[element := ring[k]][ring[Pred(ring, k)] := element],
                   previous[element := ring[Pred(ring, k)]][ring[k] := element])
  {
    var p, before := Slot(ring, k), Pred(ring, k);
    var now := InsertAt(ring, p, element);
    var next' := next[element := ring[k]][ring[before] := element];
    var previous' := previous[element := ring[before]][ring[k] := element];
    assert Distinct(now);
    forall i: nat | i < |now|
      ensures LinkedAt(now, next', previous', i)
    {
      if i == p {
        assert now[Succ(now, p)] == ring[k];
      } else {
        var o := if i < p then i else i - 1;
        assert now[i] == ring[o] && LinkedAt(ring, next, previous, o);
        if o == before {
          assert Succ(now, i) == p;
        } else {
          assert Succ(ring, o) != k && now[Succ(now, i)] == ring[Succ(ring, o)];
        }
      }
    }
  }

  /** Two link updates take the k-th node out of the ring. */
  lemma RemoveLinks(ring: seq<Node>, next: Links, previous: Links, k: nat)
    requires Linked(ring, next, previous) && 0 < k < |ring|
    ensures Linked(RemoveAt(ring, k),
                   next[ring[k - 1] := ring[Succ(ring, k)]],
                   previous[ring[Succ(ring, k)] := ring[k - 1]])
  {
    var now, after := RemoveAt(ring, k), Succ(ring, k);
    var next' := next[ring[k - 1] := ring[after]];
    var previous' := previous[ring[after] := ring[k - 1]];
    assert Distinct(now);
    forall i: nat | i < |now|
      ensures LinkedAt(now, next', previous', i)
    {
      var o := if i < k then i else i + 1;
      assert now[i] == ring[o] && LinkedAt(ring, next, previous, o);
      if o == k - 1 {
        assert now[Succ(now, i)] == ring[after];
      } else {
        assert Succ(ring, o) != k && Succ(ring, o) != after && now[Succ(now, i)] == ring[Succ(ring, o)];
      }
    }
  }

  lemma Neighbours(ring: seq<Node>, next: Links, previous: Links, k: nat)
    requires Linked(ring, next, previous) && k < |ring|
    ensures ring[k] in next && next[ring[k]] == ring[Succ(ring, k)]
    ensures ring[k] in previous && previous[ring[k]] == ring[Pred(ring, k)]
  {
    assert LinkedAt(ring, next, previous, k) && LinkedAt(ring, next, previous, Pred(ring, k));
  }

  lemma RemoveMembers(ring: seq<Node>, k: nat)
    requires k < |ring| && Distinct(ring)
    ensures forall x :: x in RemoveAt(ring, k) ==> x in ring && x != ring[k]
  {
  }

  /** Only the links of the ring's own nodes matter. */
  lemma LinkedRestrict(ring: seq<Node>, next: Links, previous: Links, next': Links, previous': Links)
    requires Linked(ring, next, previous)
    requires forall x :: x in ring && x in next ==> x in next' && next'[x] == next[x]
    requires forall x :: x in ring && x in previous ==> x in previous' && previous'[x] == previous[x]
    ensures Linked(ring, next', previous')
  {
    forall i: nat | i < |ring|
      ensures LinkedAt(ring, next', previous', i)
    {
      assert LinkedAt(ring, next, previous, i);
      assert ring[i] in ring && ring[Succ(ring, i)] in ring;
    }
  }

  class List {
    const sentinel: Node
    // the sentinel followed by the elements in order
    ghost var ring: seq<Node>

    ghost predicate Valid()
      reads this, ring
      ensures Valid() ==> |ring| > 0 && ring[0] == sentinel && Distinct(ring)
    {
      |ring| > 0 && ring[0] == sentinel && Linked(ring, NextOf(ring), PreviousOf(ring))
    }

    ghost function Elements(): (r: seq<Node>)
      reads this
      requires |ring| > 0
    {
      ring[1..]
    }

    /** A list whose sentinel points to itself: the effect of gekkota_list_clear. */
    constructor ()
      ensures Valid() && Elements() == [] && fresh(sentinel)
    {
      sentinel := new Node();
      ring := [sentinel];
      new;
      sentinel.next, sentinel.previous := sentinel, sentinel;
    }

    method IsEmpty() returns (empty: bool)
      requires Valid()
      ensures empty <==> Elements() == []
    {
      assert LinkedAt(ring, NextOf(ring), PreviousOf(ring), 0);
      empty := sentinel.next == sentinel;
    }

    method Head() returns (head: Node)
      requires Valid()
      ensures head == if Elements() == [] then sentinel else Elements()[0]
    {
      assert LinkedAt(ring, NextOf(ring), PreviousOf(ring), 0);
      head := sentinel.next;
    }

    /** Inserts an element before the k-th node of the ring; before the sentinel,
        node 0, means at the end. An element that is linked already, or whose
        links were never cleared, is refused. */
    method Insert(position: Node, element: Node, ghost k: nat) returns (r: Result<Node>)
      requires Valid() && k < |ring| && ring[k] == position
      requires element.next == element.previous == null ==> element !in ring
      modifies this, ring, element
      ensures Valid()
      ensures r.Ok? <==> old(element.next == element.previous == null)
      ensures r.Ok? ==> r.value == element && element.next != null
      ensures r.Ok? ==> ring == InsertAt(old(ring), Slot(old(ring), k), element)
      ensures r.Err? ==> ring == old(ring) && element.next == old(element.next) && element.previous == old(element.previous)
    {
      if element.previous != null || element.next != null {
        return Err(OperationNotValid);
      }
      ghost var was, next, previous := ring, NextOf(ring), PreviousOf(ring);
      ghost var before := was[Pred(was, k)];
      Neighbours(was, next, previous, k);
      Neighbours(was, next, previous, Pred(was, k));
      InsertLinks(was, next, previous, k, element);
      assert InsertAt(was, Slot(was, k), element)[0] == was[0];
      hide Linked, LinkedAt, InsertAt, Slot;
      element.previous := position.previous;
      element.next := position;
      element.previous.next := element;
      position.previous := element;
      ring := InsertAt(was, Slot(was, k), element);
      LinkedRestrict(ring, next[element := position][before := element], previous[element := before][position := element],
                     NextOf(ring), PreviousOf(ring));
      r := Ok(element);
    }

    /** gekkota_list_add: insertion before the sentinel. */
    method Add(element: Node) returns (r: Result<Node>)
      requires Valid()
      requires element.next == element.previous == null ==> element !in ring
      modifies this, ring, element
      ensures Valid()
      ensures r.Ok? <==> old(element.next == element.previous == null)
      ensures r.Ok? ==> Elements() == old(Elements()) + [element] && element.next != null
      ensures r.Err? ==> ring == old(ring) && element.next == old(element.next) && element.previous == old(element.previous)
    {
      r := Insert(sentinel, element, 0);
    }

    /** The two link updates of a removal. */
    static method Unlink(position: Node)
      requires position.previous != null && position.next != null
      requires position.previous != position && position.next != position
      modifies position, position.previous, position.next
      ensures position.next == null && position.previous == null
      ensures old(position.previous).next == old(position.next) && old(position.next).previous == old(position.previous)
      ensures old(position.previous) != old(position.next) ==>
                && old(position.previous).previous == old(position.previous.previous)
                && old(position.next).next == old(position.next.next)
    {
      position.previous.next := position.next;
      position.next.previous := position.previous;
      position.previous, position.next := null, null;
    }

    /** Removes a node from whichever ring it is in; here the k-th of this one.
        Only links are read: the list itself plays no part at run time. */
    static method Remove(ghost list: List, position: Node, ghost k: nat)
      requires list.Valid() && 0 < k < |list.ring| && list.ring[k] == position
      modifies list, list.ring
      ensures list.Valid() && list.ring == RemoveAt(old(list.ring), k)
      ensures position.next == null && position.previous == null
    {
      ghost var was, next, previous := list.ring, NextOf(list.ring), PreviousOf(list.ring);
      ghost var before, after := was[k - 1], was[Succ(was, k)];
      Neighbours(was, next, previous, k);
      RemoveLinks(was, next, previous, k);
      RemoveMembers(was, k);
      assert RemoveAt(was, k)[0] == was[0];
      hide Linked, LinkedAt, RemoveAt;
      Unlink(position);
      list.ring := RemoveAt(was, k);
      LinkedRestrict(list.ring, next[before := after], previous[after := before], NextOf(list.ring), PreviousOf(list.ring));
    }

    method GetCount() returns (count: nat)
      requires Valid()
      ensures count == |Elements()|
    {
      count := 0;
      var position := sentinel.next;
      assert LinkedAt(ring, NextOf(ring), PreviousOf(ring), 0);
      while position != sentinel
        invariant count < |ring| && position == ring[Succ(ring, count)]
        decreases |ring| - count
      {
        count := count + 1;
        assert LinkedAt(ring, NextOf(ring), PreviousOf(ring), count);
        position := position.next;
      }
    }
  }

  /** A list none of whose links changed is still the same list. */
  twostate lemma Untouched(list: List)
    requires old(list.Valid()) && list.ring == old(list.ring)
    requires forall x :: x in list.ring ==> x.next == old(x.next) && x.previous == old(x.previous)
    ensures list.Valid()
  {
    assert NextOf(list.ring) == old(NextOf(list.ring));
    assert PreviousOf(list.ring) == old(PreviousOf(list.ring));
  }
}
