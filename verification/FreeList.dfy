/**
The free list of src/memorypool.hpp. A chunk is named by its index in the chunk
array; the first word of a free chunk is its next pointer, NULL ends the list.
*/
module FreeList {

  const NULL: int := -1

  ghost predicate Distinct(s: seq<nat>) {
    forall i, j :: 0 <= i < j < |s| ==> s[i] != s[j]
  }

  /** The free chunks s and the handed-out chunks a are the chunks below n, each in one of the two and once. */
  ghost predicate Partition(s: seq<nat>, a: set<nat>, n: nat) {
    && Distinct(s)
    && (forall i :: 0 <= i < |s| ==> s[i] < n && s[i] !in a)
    && (forall c: nat :: c in a ==> c < n)
    && (forall c: nat :: c < n ==> c in s || c in a)
  }

  /** The chunk at index i of the list s, or NULL behind its end. */
  function ChunkAt(s: seq<nat>, i: nat): int {
    if i < |s| then s[i] else NULL
  }

  function ChunksBelow(n: nat): (s: set<nat>)
    ensures forall c: nat :: c in s <==> c < n
    ensures |s| == n
  {
    if n == 0 then {} else ChunksBelow(n - 1) + {n - 1}
  }

  lemma AllFree(all: seq<nat>)
    requires forall i :: 0 <= i < |all| ==> all[i] == i
    ensures Partition(all, {}, |all|)
  {
    forall c: nat | c < |all| ensures c in all {
      assert all[c] == c;
    }
  }

  lemma AllocateKeepsPartition(s: seq<nat>, a: set<nat>, n: nat)
    requires Partition(s, a, n) && s != []
    ensures Partition(s[1..], a + {s[0]}, n)
  {
    assert forall c :: c in s <==> c == s[0] || c in s[1..];
  }

  lemma FreeKeepsPartition(s: seq<nat>, a: set<nat>, n: nat, chunk: nat)
    requires Partition(s, a, n) && chunk in a
    ensures Partition([chunk] + s, a - {chunk}, n)
  {
    assert forall c :: c in [chunk] + s <==> c == chunk || c in s;
    assert forall i :: 0 <= i < |s| ==> s[i] != chunk;
  }

  // Runs

  datatype Pool = Pool(free: seq<nat>, taken: set<nat>)

  datatype Op = Allocate | Return(chunk: nat)

  /** A caller gives back only what it was handed; allocating is always allowed. */
  predicate Allowed(p: Pool, op: Op) {
    op.Return? ==> op.chunk in p.taken
  }

  function After(p: Pool, op: Op): Pool
    requires Allowed(p, op)
  {
    match op
    case Allocate => if p.free == [] then p else Pool(p.free[1..], p.taken + {p.free[0]})
    case Return(chunk) => Pool([chunk] + p.free, p.taken - {chunk})
  }

  predicate CanRun(p: Pool, ops: seq<Op>)
    decreases |ops|
  {
    ops == [] || (Allowed(p, ops[0]) && CanRun(After(p, ops[0]), ops[1..]))
  }

  function Run(p: Pool, ops: seq<Op>): Pool
    requires CanRun(p, ops)
    decreases |ops|
  {
    if ops == [] then p else Run(After(p, ops[0]), ops[1..])
  }

  /** Over any run each chunk is free or handed out, never both and never twice, and none is lost. */
  lemma {:induction false} RunKeepsPartition(p: Pool, ops: seq<Op>, n: nat)
    requires Partition(p.free, p.taken, n) && CanRun(p, ops)
    ensures var q := Run(p, ops); Partition(q.free, q.taken, n) && |q.free| + |q.taken| == n
    decreases |ops|
  {
    if ops == [] {
      NothingIsLost(p.free, p.taken, n);
    } else {
      match ops[0] {
        case Allocate => if p.free != [] { AllocateKeepsPartition(p.free, p.taken, n); }
        case Return(chunk) => FreeKeepsPartition(p.free, p.taken, n, chunk);
      }
      RunKeepsPartition(After(p, ops[0]), ops[1..], n);
    }
  }

  /** What a run has taken out of the list and put back. */
  function Allocations(p: Pool, ops: seq<Op>): nat
    requires CanRun(p, ops)
    decreases |ops|
  {
    if ops == [] then 0
    else (if ops[0].Allocate? && p.free != [] then 1 else 0) + Allocations(After(p, ops[0]), ops[1..])
  }

  function Returns(ops: seq<Op>): nat {
    if ops == [] then 0 else (if ops[0].Return? then 1 else 0) + Returns(ops[1..])
  }

  /** Over any run the free chunks are the ones at the start, less the successful allocations, plus the returns. */
  lemma {:induction false} FreeChunksAreCounted(p: Pool, ops: seq<Op>)
    requires CanRun(p, ops)
    ensures |Run(p, ops).free| == |p.free| - Allocations(p, ops) + Returns(ops)
    decreases |ops|
  {
    if ops != [] {
      FreeChunksAreCounted(After(p, ops[0]), ops[1..]);
    }
  }

  /** A chunk that was given back is the next one to be handed out, so an allocation after a return succeeds. */
  lemma ReturnedChunkIsNext(p: Pool, chunk: nat)
    requires chunk in p.taken
    ensures var q := After(p, Return(chunk)); q.free != [] && After(q, Allocate) == p.(taken := p.taken - {chunk} + {chunk})
  {
    var q := After(p, Return(chunk));
    assert q.free[1..] == p.free;
  }

  class List {
    var next: array<int>
    var first: int                 // m_first
    ghost var free: seq<nat>       // the list from m_first on
    ghost var taken: set<nat>

    ghost predicate Valid()
      reads this, next
    {
      && Partition(free, taken, next.Length)
      && first == ChunkAt(free, 0)
      && (forall i :: 0 <= i < |free| ==> next[free[i]] == ChunkAt(free, i + 1))
    }

    /** Links all chunks from the last to the first. The loop compares against the first chunk, so n must not be zero. */
    constructor (n: nat)
      requires n > 0
      ensures Valid() && fresh(next) && next.Length == n
      ensures |free| == n && (forall i :: 0 <= i < n ==> free[i] == i) && taken == {}
    {
      var chunks := new int[n];
      var iter := n;
      var prev := NULL;
      while iter > 0
        invariant 0 <= iter <= n
        invariant prev == if iter < n then iter else NULL
        invariant forall c :: iter <= c < n ==> chunks[c] == if c + 1 < n then c + 1 else NULL
      {
        iter := iter - 1;
        chunks[iter] := prev;
        prev := iter;
      }
      next := chunks;
      first := 0;
      ghost var all: seq<nat> := seq(n, i => i);
      AllFree(all);
      free := all;
      taken := {};
    }

    predicate Empty()
      reads this
    {
      first == NULL
    }

    lemma EmptyMeansNoneFree()
      requires Valid()
      ensures Empty() <==> free == []
    {
    }

    /** try_allocate: null exactly when every chunk is handed out, else a chunk that is not. */
    method TryAllocate() returns (chunk: int)
      requires Valid()
      modifies this
      ensures Valid() && next == old(next)
      ensures Pool(free, taken) == After(Pool(old(free), old(taken)), Allocate)
      ensures chunk == NULL <==> old(free) == []
      ensures chunk == NULL ==> free == [] && taken == old(taken) == ChunksBelow(next.Length)
      ensures chunk != NULL ==> 0 <= chunk < next.Length && chunk !in old(taken)
      ensures chunk != NULL ==> old(free) == [chunk] + free && taken == old(taken) + {chunk}
    {
      if first == NULL {
        return NULL;
      }
      chunk := first;
      assert free[0] == chunk;
      AllocateKeepsPartition(free, taken, next.Length);
      first := next[first];
      free := free[1..];
      taken := taken + {chunk as nat};
    }

    /** free: the caller hands back a chunk it got from TryAllocate. */
    method Free(chunk: nat)
      requires Valid() && chunk in taken
      modifies this, next
      ensures Valid() && next == old(next)
      ensures Pool(free, taken) == After(Pool(old(free), old(taken)), Return(chunk))
      ensures free == [chunk] + old(free) && taken == old(taken) - {chunk}
    {
      FreeKeepsPartition(free, taken, next.Length, chunk);
      next[chunk] := first;
      first := chunk;
      free := [chunk] + free;
      taken := taken - {chunk};
    }
  }

  /** Nothing is lost: the lengths of the free list and of the handed-out set add up to the number of chunks. */
  lemma {:induction false} NothingIsLost(s: seq<nat>, a: set<nat>, n: nat)
    requires Partition(s, a, n)
    ensures |s| + |a| == n
    decreases |s|
  {
    if s == [] {
      assert a == ChunksBelow(n);
    } else {
      assert forall c :: c in s <==> c == s[0] || c in s[1..];
      NothingIsLost(s[1..], a + {s[0]}, n);
    }
  }
}
