/** The slab pool of pool/slab_pool.go over its queue object, for calls that run without interruption.
    `SlabRace` covers every interleaving. */
module SlabPool {
  import opened Bits
  import opened Buffers
  import opened LockFreeQueue
  import opened Options

  const DEFAULT_CAPACITY: nat := 4096

  datatype Stats = Stats(totalAlloc: int, totalFree: int, inUse: int, numa: multiset<int>)

  /** The books of a pool with free buffers q: every buffer allocated is free, in use or dropped. */
  ghost predicate Balanced(q: seq<Buffer>, alloc: nat, free: nat, numa: Option<multiset<int>>, reuses: nat,
      out: set<nat>, released: set<nat>) {
    && |q| + reuses == free
    && (if numa.Some? then |numa.value| == alloc else alloc == 0)
    && alloc == |q| + |out| + |released|
    && Distinct(q, out, released, alloc)
  }

  /** The node counts with one more for a node, from a first map if there was none. */
  function Recorded(numa: Option<multiset<int>>, node: int): Option<multiset<int>> {
    Some((if numa.Some? then numa.value else multiset{}) + multiset{node})
  }

  ghost predicate Distinct(q: seq<Buffer>, out: set<nat>, released: set<nat>, alloc: nat) {
    && (forall i :: 0 <= i < |q| ==> q[i].id < alloc && q[i].id !in out && q[i].id !in released)
    && (forall i, j :: 0 <= i < j < |q| ==> q[i].id != q[j].id)
    && (forall id :: id in out ==> id < alloc && id !in released)
    && (forall id :: id in released ==> id < alloc)
  }

  lemma Take(q: seq<Buffer>, alloc: nat, free: nat, numa: Option<multiset<int>>, reuses: nat, out: set<nat>,
      released: set<nat>)
    requires q != [] && Balanced(q, alloc, free, numa, reuses, out, released)
    ensures Balanced(q[1..], alloc, free, numa, reuses + 1, out + {q[0].id}, released)
  {
  }

  lemma Allocate(alloc: nat, free: nat, numa: Option<multiset<int>>, node: int, reuses: nat, out: set<nat>,
      released: set<nat>)
    requires Balanced([], alloc, free, numa, reuses, out, released)
    ensures Balanced([], alloc + 1, free, Recorded(numa, node), reuses, out + {alloc}, released)
  {
  }

  lemma Return(q: seq<Buffer>, b: Buffer, alloc: nat, free: nat, numa: Option<multiset<int>>, reuses: nat,
      out: set<nat>, released: set<nat>)
    requires b.id in out && Balanced(q, alloc, free, numa, reuses, out, released)
    ensures Balanced(q + [b], alloc, free + 1, numa, reuses, out - {b.id}, released)
    ensures Balanced(q, alloc, free, numa, reuses, out - {b.id}, released + {b.id})
  {
  }

  class SlabPool {
    const me: nat
    const size: nat
    const queue: Queue<Buffer>
    var totalAlloc: nat
    var totalFree: nat
    var numaStats: Option<multiset<int>>
    /** Gets served from the queue, buffers in the users' hands, and buffers dropped because the queue was full. */
    ghost var reuses: nat
    ghost var out: set<nat>
    ghost var released: set<nat>

    ghost predicate Valid()
      reads this, queue, queue.cells
    {
      queue.Valid() && Balanced(queue.Contents(), totalAlloc, totalFree, numaStats, reuses, out, released)
    }

    constructor (me: nat, size: nat, w: nat)
      requires 3 <= w <= 64 && DEFAULT_CAPACITY <= Pow2(w - 2)
      ensures Valid() && fresh(queue) && fresh(queue.cells) && this.me == me && this.size == size
      ensures queue.Contents() == [] && out == {} && released == {} && totalAlloc == 0 && totalFree == 0
      ensures queue.cells.Length >= 1
    {
      this.me, this.size := me, size;
      var made := NewQueue(DEFAULT_CAPACITY, Buffer(0, Nil, 0, None, 0), w);
      queue := made.value;
      totalAlloc, totalFree, numaStats := 0, 0, None;
      reuses, out, released := 0, {}, {};
    }

    /** The oldest free buffer as it came back, or a new one of full length; never one that a user has. */
    method Get(numaNode: int) returns (b: Buffer)
      requires Valid()
      modifies this`totalAlloc, this`numaStats, this`reuses, this`out, queue`head, queue.cells
      ensures Valid() && b.id !in old(out) && b.id !in released && out == old(out) + {b.id}
      ensures var q := old(queue.Contents());
        if q != [] then
          && b == q[0] && queue.Contents() == q[1..] && reuses == old(reuses) + 1
          && totalAlloc == old(totalAlloc) && numaStats == old(numaStats)
        else
          && b == Buffer(old(totalAlloc), View(0, size), numaNode, Some(me), size)
          && queue.Contents() == [] && totalAlloc == old(totalAlloc) + 1 && reuses == old(reuses)
          && numaStats == Recorded(old(numaStats), numaNode)
    {
      ghost var q := queue.Contents();
      var buf, ok := queue.Dequeue(Buffer(0, Nil, 0, None, 0));
      if ok {
        Take(q, totalAlloc, totalFree, numaStats, reuses, out, released);
        reuses, out := reuses + 1, out + {buf.id};
        return buf;
      }
      b := Fresh(numaNode);
    }

    /** The slow path of Get. */
    method Fresh(numaNode: int) returns (b: Buffer)
      requires Valid() && queue.Contents() == []
      modifies this`totalAlloc, this`numaStats, this`out
      ensures Valid() && b.id !in old(out) && b.id !in released && out == old(out) + {b.id} && queue.Contents() == []
      ensures b == Buffer(old(totalAlloc), View(0, size), numaNode, Some(me), size) && totalAlloc == old(totalAlloc) + 1
      ensures numaStats == Recorded(old(numaStats), numaNode)
    {
      Allocate(totalAlloc, totalFree, numaStats, numaNode, reuses, out, released);
      b := Buffer(totalAlloc, View(0, size), numaNode, None, 0);
      b := b.(pool := Some(me), sizeClass := size);
      totalAlloc := totalAlloc + 1;
      if numaStats.None? {
        numaStats := Some(multiset{});
      }
      numaStats := Some(numaStats.value + multiset{numaNode});
      out := out + {b.id};
    }

    /** The buffer goes to the back of the queue, or is dropped if the queue is full. */
    method Put(b: Buffer)
      requires Valid() && b.id in out
      modifies this`totalFree, this`out, this`released, queue`tail, queue.cells
      ensures Valid() && out == old(out) - {b.id}
      ensures if |old(queue.Contents())| < queue.cells.Length
        then queue.Contents() == old(queue.Contents()) + [b] && totalFree == old(totalFree) + 1 && released == old(released)
        else queue.Contents() == old(queue.Contents()) && totalFree == old(totalFree) && released == old(released) + {b.id}
    {
      Return(queue.Contents(), b, totalAlloc, totalFree, numaStats, reuses, out, released);
      var ok := queue.Enqueue(b);
      out := out - {b.id};
      if ok {
        totalFree := totalFree + 1;
      } else {
        released := released + {b.id};
      }
    }

    /** The node counts add up to the allocations; InUse is the buffers in use plus those dropped less the
        reuses, so it is right exactly if as many were dropped as reused. */
    method GetStats() returns (s: Stats)
      requires Valid()
      ensures s.totalAlloc == totalAlloc && s.totalFree == totalFree && |s.numa| == s.totalAlloc
      ensures s.inUse == |out| + |released| - reuses
      ensures s.inUse == |out| <==> |released| == reuses
    {
      var numa := if numaStats.Some? then numaStats.value else multiset{};
      s := Stats(totalAlloc, totalFree, totalAlloc - totalFree, numa);
    }
  }

  /** A buffer is taken, given back and taken again: one is in use, and Stats says none is. */
  method ReuseIsNotCounted(w: nat) returns (s: Stats, pool: SlabPool)
    requires 3 <= w <= 64 && DEFAULT_CAPACITY <= Pow2(w - 2)
    ensures pool.Valid() && |pool.out| == 1 && s.inUse == 0
  {
    pool := new SlabPool(0, 64, w);
    var b := pool.Get(0);
    pool.Put(b);
    b := pool.Get(0);
    s := pool.GetStats();
  }

  /** A user cuts a buffer to n bytes and gives it back: the next user gets n bytes of a class of `size`. */
  method SliceComesBackShort(size: nat, n: nat, w: nat) returns (b: Buffer)
    requires n <= size && 3 <= w <= 64 && DEFAULT_CAPACITY <= Pow2(w - 2)
    ensures b.sizeClass == size && Len(b.data) == n
  {
    var pool := new SlabPool(0, size, w);
    b := pool.Get(0);
    pool.Put(Slice(b, 0, n));
    b := pool.Get(0);
  }
}
