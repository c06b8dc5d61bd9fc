/** The queue object of core/concurrency/lock_free_queue.go with its cells in an array, for calls
    that run without interruption.  `Mpmc` covers every interleaving. */
module LockFreeQueue {
  import opened Bits
  import opened Mpmc
  import opened Options

  /** No operation in flight: the published positions are head .. tail-1, every other cell is free. */
  ghost predicate Ring<T>(cs: seq<Cell<T>>, head: nat, tail: nat) {
    && |cs| >= 2 && head <= tail <= head + |cs|
    && (forall p: nat :: head <= p < tail ==> cs[Rem(p, |cs|)].sequence == p + 1)
    && (forall p: nat :: tail <= p < head + |cs| ==> cs[Rem(p, |cs|)].sequence == p)
  }

  ghost function Window<T>(cs: seq<Cell<T>>, head: nat, tail: nat): (q: seq<T>)
    requires cs != [] && head <= tail
    ensures |q| == tail - head
  {
    seq(tail - head, i requires 0 <= i < tail - head => cs[Rem(head + i, |cs|)].data)
  }

  /** The cell under the tail is free exactly if the ring is not full. */
  lemma TailCell<T>(cs: seq<Cell<T>>, head: nat, tail: nat)
    requires Ring(cs, head, tail)
    ensures cs[Rem(tail, |cs|)].sequence == tail <==> tail < head + |cs|
    ensures cs[Rem(tail, |cs|)].sequence <= tail
  {
    if tail == head + |cs| { assert Rem(head + |cs|, |cs|) == Rem(head, |cs|); }
  }

  lemma PushCell<T>(cs: seq<Cell<T>>, head: nat, tail: nat, val: T)
    requires Ring(cs, head, tail) && tail < head + |cs|
    ensures var cs' := cs[Rem(tail, |cs|) := Cell(tail + 1, val)];
      Ring(cs', head, tail + 1) && Window(cs', head, tail + 1) == Window(cs, head, tail) + [val]
  {
    forall q: nat | q != tail && head <= q < head + |cs| ensures Rem(q, |cs|) != Rem(tail, |cs|) {
      RemApart(tail, q, |cs|);
    }
  }

  lemma PopCell<T>(cs: seq<Cell<T>>, head: nat, tail: nat)
    requires Ring(cs, head, tail) && head < tail
    ensures var cs' := cs[Rem(head, |cs|) := Cell(head + |cs|, cs[Rem(head, |cs|)].data)];
      Ring(cs', head + 1, tail) && Window(cs', head + 1, tail) == Window(cs, head, tail)[1..]
  {
    forall q: nat | head < q < head + |cs| ensures Rem(q, |cs|) != Rem(head, |cs|) {
      RemApart(head, q, |cs|);
    }
    assert Rem(head + |cs|, |cs|) == Rem(head, |cs|);
  }

  class Queue<T> {
    var head: nat
    var tail: nat
    const mask: nat
    const cells: array<Cell<T>>
    ghost const k: nat

    ghost predicate Valid()
      reads this, cells
    {
      k >= 1 && cells.Length == Pow2(k) && mask == Pow2(k) - 1 && Ring(cells[..], head, tail)
    }

    ghost function Contents(): (s: seq<T>)
      requires Valid()
      reads this, cells
    {
      Window(cells[..], head, tail)
    }

    lemma IndexIs(p: nat)
      requires Valid()
      ensures And(p, mask) == Rem(p, cells.Length)
    {
      AndMask(p, k);
    }

    constructor (size: nat, zero: T, ghost j: nat)
      requires j >= 1 && size == Pow2(j)
      ensures Valid() && fresh(cells) && Contents() == [] && cells.Length == size
    {
      mask := size - 1;
      k := j;
      head, tail := 0, 0;
      var cs := new Cell<T>[size](_ => Cell(0, zero));
      cells := cs;
      new;
      var i := 0;
      while i < size
        modifies cells
        invariant i <= size && forall p: nat :: p < i ==> cells[p].sequence == p
      {
        cells[i] := cells[i].(sequence := i);
        i := i + 1;
      }
    }

    method Enqueue(val: T) returns (ok: bool)
      requires Valid()
      modifies this`tail, cells
      ensures Valid()
      ensures ok <==> |old(Contents())| < cells.Length
      ensures Contents() == if ok then old(Contents()) + [val] else old(Contents())
    {
      IndexIs(tail);
      TailCell(cells[..], head, tail);
      var t, index := tail, And(tail, mask);
      assert cells[..][index] == cells[index];
      var dif := cells[index].sequence - t;
      assert dif <= 0;
      if dif == 0 {
        PushCell(cells[..], head, t, val);
        tail := t + 1;
        cells[index] := cells[index].(data := val);
        cells[index] := cells[index].(sequence := t + 1);
        assert cells[index] == Cell(t + 1, val);
        assert cells[..] == old(cells[..])[index := Cell(t + 1, val)];
        ok := true;
      } else {
        ok := false;
      }
    }

    method Dequeue(zero: T) returns (item: T, ok: bool)
      requires Valid()
      modifies this`head, cells
      ensures Valid()
      ensures ok <==> old(Contents()) != []
      ensures Contents() == if ok then old(Contents())[1..] else old(Contents())
      ensures item == if ok then old(Contents())[0] else zero
    {
      IndexIs(head);
      var h, index := head, And(head, mask);
      assert cells[..][index] == cells[index];
      var dif := cells[index].sequence - (h + 1);
      assert dif <= 0;
      if dif == 0 {
        PopCell(cells[..], h, tail);
        head := h + 1;
        item := cells[index].data;
        cells[index] := cells[index].(sequence := h + mask + 1);
        assert cells[..] == old(cells[..])[index := Cell(h + cells.Length, item)];
        ok := true;
      } else {
        item, ok := zero, false;
      }
    }
  }

  /** NewLockFreeQueue for ints of w bits: None where its rounding loop does not end. */
  method NewQueue<T>(capacity: int, zero: T, w: nat) returns (q: Option<Queue<T>>)
    requires w >= 3
    ensures q.None? <==> capacity > Pow2(w - 2)
    ensures q.Some? ==> fresh(q.value) && fresh(q.value.cells) && q.value.Valid() && q.value.Contents() == []
    ensures q.Some? ==> q.value.cells.Length == CeilPow2(if capacity < 2 then 2 else capacity)
  {
    var size := RoundByShift(capacity, w);
    if size.None? { return None; }
    ghost var j := BitLen((if capacity < 2 then 2 else capacity) - 1);
    assert Pow2(0) == 1;
    var made := new Queue(size.value, zero, j);
    q := Some(made);
  }
}
