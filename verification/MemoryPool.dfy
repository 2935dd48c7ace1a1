/** The block pool of gekkota_memory.c: two lists that share out the blocks. */
module MemoryPool {
  import opened Wrappers
  import opened List

  const DEFAULT_BLOCK_SIZE := 256

  // Where an allocation was served from.
  datatype Memory = Pooled(block: Node) | Malloced

  /** The pool as values: the free blocks in order, and those handed out. */
  datatype Pool = Pool(free: seq<Node>, live: seq<Node>)

  datatype Request = Alloc | Free(block: Node)

  function Without(s: seq<Node>, x: Node): (r: seq<Node>)
    decreases |s|
  {
    if s == [] then []
    else if s[0] == x then s[1..]
    else [s[0]] + Without(s[1..], x)
  }

  /** One pool operation. Freeing a block unlinks it from whichever list it is in. */
  function Step(p: Pool, request: Request): (r: Pool)
  {
    match request
    case Alloc =>
      if p.free == [] then p else Pool(p.free[1..], p.live + [p.free[0]])
    case Free(x) =>
      if x in p.live then Pool(p.free + [x], Without(p.live, x))
      else if x in p.free then Pool(Without(p.free, x) + [x], p.live)
      else p
  }

  function Run(p: Pool, requests: seq<Request>): (r: Pool)
    decreases |requests|
  {
    if requests == [] then p else Run(Step(p, requests[0]), requests[1..])
  }

  /** Every block is in exactly one of the lists, once. */
  ghost predicate Partition(p: Pool, blocks: set<Node>)
  {
    && Distinct(p.free + p.live)
    && (set x | x in p.free + p.live) == blocks
  }

  lemma {:induction false} WithoutAt(s: seq<Node>, k: nat)
    requires k < |s| && Distinct(s)
    ensures Without(s, s[k]) == RemoveAt(s, k)
    decreases |s|
  {
    if k > 0 {
      assert s[0] != s[k];
      WithoutAt(s[1..], k - 1);
      assert RemoveAt(s, k) == [s[0]] + RemoveAt(s[1..], k - 1);
    }
  }

  lemma IndexOf(s: seq<Node>, x: Node) returns (k: nat)
    requires x in s
    ensures k < |s| && s[k] == x
  {
    k :| 0 <= k < |s| && s[k] == x;
  }

  /** Moving the k-th element to the end keeps a list's elements distinct and the same. */
  lemma MoveToEnd(s: seq<Node>, k: nat)
    requires k < |s| && Distinct(s)
    ensures Distinct(RemoveAt(s, k) + [s[k]])
    ensures forall x :: x in RemoveAt(s, k) + [s[k]] <==> x in s
  {
    var r := RemoveAt(s, k) + [s[k]];
    forall x | x in s
      ensures x in r
    {
      var i := IndexOf(s, x);
      assert r[if i < k then i else if i == k then |s| - 1 else i - 1] == x;
    }
  }

  lemma Rotate(a: seq<Node>, b: seq<Node>)
    requires Distinct(a + b)
    ensures Distinct(b + a)
  {
    forall i, j | 0 <= i < j < |b + a|
      ensures (b + a)[i] != (b + a)[j]
    {
      var i', j' := if i < |b| then |a| + i else i - |b|, if j < |b| then |a| + j else j - |b|;
      assert (a + b)[i'] == (b + a)[i] && (a + b)[j'] == (b + a)[j];
    }
  }

  /** Moving one element to the end of the other list, or of its own. */
  lemma MovePartition(p: Pool, q: Pool, k: nat, blocks: set<Node>)
    requires Partition(p, blocks) && k < |p.live + p.free|
    requires q.live + q.free == RemoveAt(p.live + p.free, k) + [(p.live + p.free)[k]]
    ensures Partition(q, blocks)
  {
    var s, t := p.live + p.free, q.live + q.free;
    Rotate(p.free, p.live);
    MoveToEnd(s, k);
    Rotate(q.live, q.free);
    hide Distinct, RemoveAt;
    assert forall x :: x in q.free + q.live <==> x in t;
    assert forall x :: x in p.free + p.live <==> x in s;
  }

  lemma DistinctParts(a: seq<Node>, b: seq<Node>)
    requires Distinct(a + b)
    ensures Distinct(a) && Distinct(b)
  {
    assert forall i, j :: 0 <= i < j < |a| ==> (a + b)[i] == a[i] && (a + b)[j] == a[j];
    forall i, j | 0 <= i < j < |b|
      ensures b[i] != b[j]
    {
      assert (a + b)[|a| + i] == b[i] && (a + b)[|a| + j] == b[j];
    }
  }

  lemma StepKeepsPartition(p: Pool, request: Request, blocks: set<Node>)
    requires Partition(p, blocks)
    ensures Partition(Step(p, request), blocks)
  {
    match request
    case Alloc =>
      if p.free != [] {
        AllocPartition(p, blocks);
      }
    case Free(x) =>
      if x in p.live || x in p.free {
        DistinctParts(p.free, p.live);
        FreePartition(p, x, blocks);
      }
  }

  lemma RemoveFront(a: seq<Node>, b: seq<Node>, k: nat)
    requires k < |a|
    ensures RemoveAt(a + b, k) == RemoveAt(a, k) + b && (a + b)[k] == a[k]
  {
  }

  lemma RemoveBack(a: seq<Node>, b: seq<Node>, k: nat)
    requires k < |b|
    ensures RemoveAt(a + b, |a| + k) == a + RemoveAt(b, k) && (a + b)[|a| + k] == b[k]
  {
  }

  lemma FreePartition(p: Pool, x: Node, blocks: set<Node>)
    requires Partition(p, blocks) && (x in p.live || x in p.free)
    requires Distinct(p.live) && Distinct(p.free)
    ensures Partition(Step(p, Free(x)), blocks)
  {
    hide Distinct, Partition, RemoveAt, Without;
    var q := Step(p, Free(x));
    if x in p.live {
      var k := IndexOf(p.live, x);
      WithoutAt(p.live, k);
      RemoveFront(p.live, p.free, k);
      assert q.live + q.free == RemoveAt(p.live, k) + p.free + [x];
      MovePartition(p, q, k, blocks);
    } else {
      var k := IndexOf(p.free, x);
      WithoutAt(p.free, k);
      RemoveBack(p.live, p.free, k);
      assert q.live + q.free == p.live + RemoveAt(p.free, k) + [x];
      MovePartition(p, q, |p.live| + k, blocks);
    }
  }

  lemma AllocPartition(p: Pool, blocks: set<Node>)
    requires Partition(p, blocks) && p.free != []
    ensures Partition(Step(p, Alloc), blocks)
  {
    var s, q := p.free + p.live, Step(p, Alloc);
    MoveToEnd(s, 0);
    assert q.free + q.live == RemoveAt(s, 0) + [s[0]];
  }

  /** Over any run of allocations and frees, double frees and foreign addresses
      included, the two lists go on sharing out the same blocks. */
  lemma {:induction false} RunKeepsPartition(p: Pool, requests: seq<Request>, blocks: set<Node>)
    requires Partition(p, blocks)
    ensures Partition(Run(p, requests), blocks)
    decreases |requests|
  {
    if requests != [] {
      StepKeepsPartition(p, requests[0], blocks);
      RunKeepsPartition(Step(p, requests[0]), requests[1..], blocks);
    }
  }

  /** The block an allocation hands out after any run is not one that is live. */
  lemma NoLiveBlockTwice(p: Pool, requests: seq<Request>, blocks: set<Node>)
    requires Partition(p, blocks)
    ensures var q := Run(p, requests);
            q.free != [] ==> q.free[0] in blocks && q.free[0] !in q.live
                             && Step(q, Alloc).live == q.live + [q.free[0]]
  {
    RunKeepsPartition(p, requests, blocks);
    var q := Run(p, requests);
    if q.free != [] {
      var s := q.free + q.live;
      assert s[0] == q.free[0] && s[0] in s;
      forall i | 0 <= i < |q.live|
        ensures q.live[i] != q.free[0]
      {
        assert s[|q.free| + i] == q.live[i];
      }
    }
  }

  function Allocs(n: nat): (r: seq<Request>)
    ensures |r| == n
  {
    if n == 0 then [] else [Alloc] + Allocs(n - 1)
  }

  /** Allocations take the free blocks in order, as long as there are any. */
  lemma {:induction false} ServedInOrder(p: Pool, n: nat)
    requires n <= |p.free|
    ensures Run(p, Allocs(n)) == Pool(p.free[n..], p.live + p.free[..n])
    decreases n
  {
    if n > 0 {
      ServedInOrder(Step(p, Alloc), n - 1);
      assert Allocs(n)[1..] == Allocs(n - 1);
      assert p.live + [p.free[0]] + p.free[1..][..n - 1] == p.live + p.free[..n];
    }
  }

  /** A block given back is served again, after those free already: it is live again if and
      only if more allocations follow than blocks were free. */
  lemma FreedIsServed(p: Pool, x: Node, n: nat, blocks: set<Node>)
    requires Partition(p, blocks) && x in p.live && n <= |p.free| + 1
    ensures var q := Run(p, [Free(x)] + Allocs(n));
            && (x in q.live <==> n == |p.free| + 1) && (x in q.free <==> n <= |p.free|)
            && q.free == (p.free + [x])[n..]
  {
    StepKeepsPartition(p, Free(x), blocks);
    var q := Step(p, Free(x));
    assert ([Free(x)] + Allocs(n))[1..] == Allocs(n);
    ServedInOrder(q, n);
    var r := Run(q, Allocs(n));
    LastOnly(q, x);
    assert x !in q.live && x !in q.free[..|p.free|];
    hide Partition, Run, Without;
    if n == |p.free| + 1 {
      assert r.live[|r.live| - 1] == x;
    } else {
      assert r.free[|r.free| - 1] == x;
    }
  }

  lemma LastOnly(q: Pool, x: Node)
    requires Distinct(q.free + q.live) && q.free != [] && q.free[|q.free| - 1] == x
    ensures x !in q.live && x !in q.free[..|q.free| - 1]
  {
    var s := q.free + q.live;
    forall i | 0 <= i < |q.live|
      ensures q.live[i] != x
    {
      assert s[|q.free| + i] == q.live[i] && s[|q.free| - 1] == x;
    }
    forall i | 0 <= i < |q.free| - 1
      ensures q.free[i] != x
    {
      assert s[i] == q.free[i] && s[|q.free| - 1] == x;
    }
  }

  lemma RemoveTail(s: seq<Node>, k: nat)
    requires k + 1 < |s|
    ensures RemoveAt(s, k + 1)[1..] == RemoveAt(s[1..], k) && RemoveAt(s, k + 1)[0] == s[0]
  {
  }

  lemma DistinctTail(s: seq<Node>)
    requires Distinct(s) && s != []
    ensures Distinct(s[1..])
  {
  }

  /** The blocks whose links were zero, in order: the only ones the list accepts. */
  function Zeroed(blocks: seq<Node>): (r: seq<Node>)
    reads blocks
    decreases |blocks|
  {
    if blocks == [] then []
    else
      var x := blocks[|blocks| - 1];
      Zeroed(blocks[..|blocks| - 1]) + (if x.next == x.previous == null then [x] else [])
  }

  lemma {:induction false} ZeroedMembers(blocks: seq<Node>)
    requires Distinct(blocks)
    ensures Distinct(Zeroed(blocks))
    ensures forall y :: y in Zeroed(blocks) <==> y in blocks && y.next == y.previous == null
    decreases |blocks|
  {
    if blocks == [] {
    } else {
      var rest, x := blocks[..|blocks| - 1], blocks[|blocks| - 1];
      assert Distinct(rest) by {
        assert forall i, j :: 0 <= i < j < |rest| ==> rest[i] == blocks[i] && rest[j] == blocks[j];
      }
      ZeroedMembers(rest);
      assert blocks == rest + [x];
      forall i | 0 <= i < |rest|
        ensures rest[i] != x
      {
        assert rest[i] == blocks[i];
      }
    }
  }

  /** A new heap owns exactly the blocks whose links were zero. */
  lemma NewHeapPartition(blocks: seq<Node>)
    requires Distinct(blocks)
    ensures Partition(Pool(Zeroed(blocks), []), set x | x in Zeroed(blocks))
    ensures forall y :: y in Zeroed(blocks) <==> y in blocks && y.next == y.previous == null
  {
    ZeroedMembers(blocks);
    assert Zeroed(blocks) + [] == Zeroed(blocks);
  }

  class FastHeap {
    const blockSize: nat
    const allocatedBlocks: List
    const freeBlocks: List

    ghost predicate Valid()
      reads this, allocatedBlocks, freeBlocks, allocatedBlocks.ring, freeBlocks.ring
    {
      && allocatedBlocks != freeBlocks && allocatedBlocks.Valid() && freeBlocks.Valid()
      && (forall x :: x in allocatedBlocks.ring ==> x !in freeBlocks.ring)
    }

    ghost function Contents(): (r: Pool)
      reads this, allocatedBlocks, freeBlocks
      requires |allocatedBlocks.ring| > 0 && |freeBlocks.ring| > 0
    {
      Pool(freeBlocks.Elements(), allocatedBlocks.Elements())
    }

    /** A heap with both lists cleared. */
    constructor (blockSize: nat)
      ensures Valid() && fresh(allocatedBlocks) && fresh(freeBlocks)
      ensures Contents() == Pool([], []) && fresh(freeBlocks.ring) && fresh(allocatedBlocks.ring)
      ensures this.blockSize == if blockSize > 0 then blockSize else DEFAULT_BLOCK_SIZE
    {
      this.blockSize := if blockSize > 0 then blockSize else DEFAULT_BLOCK_SIZE;
      allocatedBlocks := new List();
      freeBlocks := new List();
    }

    /** Cuts the heap's memory into blocks and enters them as free. The memory comes
        with whatever links it held; only blocks whose links are zero are entered. */
    method Populate(blocks: seq<Node>)
      requires Valid() && Distinct(blocks) && Contents() == Pool([], [])
      requires forall x :: x in blocks ==> x !in freeBlocks.ring && x !in allocatedBlocks.ring
      modifies freeBlocks, freeBlocks.ring, blocks
      ensures Valid() && Contents() == Pool(old(Zeroed(blocks)), [])
    {
      hide List.Valid, Linked;
      for i := 0 to |blocks|
        invariant Valid()
        invariant Contents() == Pool(old(Zeroed(blocks[..i])), [])
        invariant allocatedBlocks.ring == old(allocatedBlocks.ring)
        invariant forall j :: 0 <= j < |freeBlocks.ring| ==>
          freeBlocks.ring[j] in old(freeBlocks.ring) || (freeBlocks.ring[j] in blocks[..i] && freeBlocks.ring[j] in blocks)
        invariant forall j {:trigger blocks[j]} :: i <= j < |blocks| ==>
          blocks[j].next == old(blocks[j].next) && blocks[j].previous == old(blocks[j].previous)
      {
        assert blocks[..i + 1][..i] == blocks[..i];
        assert blocks[i] !in blocks[..i];
        Enter(blocks[i]);
        assert forall x :: x in blocks[..i] ==> x in blocks[..i + 1];
        assert blocks[i] == blocks[..i + 1][i];
      }
      assert blocks[..|blocks|] == blocks;
    }

    /** Adds a block to the free list, unless its links are not zero. */
    method Enter(block: Node)
      requires Valid() && block !in freeBlocks.ring && block !in allocatedBlocks.ring
      modifies freeBlocks, freeBlocks.ring, block
      ensures Valid() && allocatedBlocks.ring == old(allocatedBlocks.ring)
      ensures forall j :: 0 <= j < |freeBlocks.ring| ==> freeBlocks.ring[j] in old(freeBlocks.ring) || freeBlocks.ring[j] == block
      ensures Contents().live == old(Contents()).live
      ensures Contents().free == old(Contents()).free + (if old(block.next == block.previous == null) then [block] else [])
    {
      hide List.Valid, Linked, Distinct;
      var added := freeBlocks.Add(block);
      Untouched(allocatedBlocks);
      assert freeBlocks.ring == [freeBlocks.sentinel] + freeBlocks.Elements();
      assert old(freeBlocks.ring) == [freeBlocks.sentinel] + old(freeBlocks.Elements());
    }

    /** Serves a request from the pool when the block size allows it and a block is free. */
    method Allocate(size: nat) returns (r: Result<Memory>)
      requires Valid()
      modifies allocatedBlocks, freeBlocks, allocatedBlocks.ring, freeBlocks.ring
      ensures Valid()
      ensures size == 0 <==> r == Err(ArgumentNotValid)
      ensures var pooled := 0 < size <= blockSize && old(Contents()).free != [];
              && (r == Ok(Malloced) <==> size > 0 && !pooled)
              && (pooled ==> r == Ok(Pooled(old(Contents()).free[0])))
              && Contents() == if pooled then Step(old(Contents()), Alloc) else old(Contents())
    {
      hide List.Valid, Distinct;
      if size < 1 {
        return Err(ArgumentNotValid);
      }
      var empty := freeBlocks.IsEmpty();
      if size > blockSize || empty {
        return Ok(Malloced);
      }
      var head := freeBlocks.Head();
      assert head in freeBlocks.ring && head !in allocatedBlocks.ring;
      List.Remove(freeBlocks, head, 1);
      Untouched(allocatedBlocks);
      RemoveMembers(old(freeBlocks.ring), 1);
      label removed:
      var added := allocatedBlocks.Add(head);
      Untouched@removed(freeBlocks);
      r := Ok(Pooled(head));
    }

    /** Returns a block of the pool. */
    method Release(block: Node)
      requires Valid() && (block in Contents().free || block in Contents().live)
      modifies allocatedBlocks, freeBlocks, allocatedBlocks.ring, freeBlocks.ring
      ensures Valid() && Contents() == Step(old(Contents()), Free(block))
    {
      hide List.Valid, Linked, Distinct, Without, RemoveAt, InsertAt;
      ghost var live := block in Contents().live;
      ghost var owner := if live then allocatedBlocks else freeBlocks;
      ghost var k := IndexOf(owner.Elements(), block);
      assert owner.ring[k + 1] == block && block in owner.ring;
      DistinctTail(owner.ring);
      WithoutAt(owner.Elements(), k);
      List.Remove(owner, block, k + 1);
      RemoveMembers(old(owner.ring), k + 1);
      RemoveTail(old(owner.ring), k);
      if live {
        Untouched(freeBlocks);
      } else {
        Untouched(allocatedBlocks);
      }
      assert forall j :: 0 <= j < |freeBlocks.ring| ==> freeBlocks.ring[j] in old(freeBlocks.ring);
      assert block in old(allocatedBlocks.ring) || block in old(freeBlocks.ring);
      label removed:
      var added := freeBlocks.Add(block);
      Untouched@removed(allocatedBlocks);
    }
  }
}
