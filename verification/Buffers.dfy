/** The buffer value of api/buffer.go: a view of some memory that remembers its pool and size class. */
module Buffers {
  import opened Options

  /** A Go slice of the buffer's memory: nil, or the bytes from .. to-1. */
  datatype Data = Nil | View(from: nat, to: nat)

  /** `id` names the allocation the buffer descends from. */
  datatype Buffer = Buffer(id: nat, data: Data, numa: int, pool: Option<nat>, sizeClass: nat)

  function Len(d: Data): int {
    if d.Nil? then 0 else d.to - d.from
  }

  function Slice(b: Buffer, from: int, to: int): Buffer {
    if from < 0 || to > Len(b.data) || from > to then b.(data := Nil)
    else if b.data.Nil? then b
    else b.(data := View(b.data.from + from, b.data.from + to))
  }

  /** The bytes of a view of memory m. */
  function Bytes<T>(m: seq<T>, d: Data): seq<T>
    requires d.View? ==> d.from <= d.to <= |m|
  {
    if d.Nil? then [] else m[d.from .. d.to]
  }

  predicate Within(d: Data, n: nat) {
    d.View? ==> d.from <= d.to <= n
  }

  /** A slice is the same part of the same bytes, never reaches outside the view it was cut from, and goes
      back to the same pool under the same class; out of range it is empty. */
  lemma SliceIsPart<T>(b: Buffer, m: seq<T>, from: int, to: int)
    requires Within(b.data, |m|)
    ensures var c := Slice(b, from, to);
      && c.id == b.id && c.pool == b.pool && c.sizeClass == b.sizeClass && c.numa == b.numa
      && Within(c.data, |m|)
      && Bytes(m, c.data) == (if 0 <= from <= to <= |Bytes(m, b.data)| then Bytes(m, b.data)[from .. to] else [])
  {
    if b.data.View? && 0 <= from <= to <= Len(b.data) { PartOfPart(m, b.data.from, b.data.to, from, to); }
  }

  lemma PartOfPart<T>(m: seq<T>, lo: nat, hi: nat, from: nat, to: nat)
    requires lo <= hi <= |m| && from <= to <= hi - lo
    ensures m[lo .. hi][from .. to] == m[lo + from .. lo + to]
  {
    var part, direct := m[lo .. hi][from .. to], m[lo + from .. lo + to];
    forall i | 0 <= i < to - from ensures part[i] == direct[i] {
      assert part[i] == m[lo .. hi][from + i];
    }
  }

  /** Slicing twice is slicing once. */
  lemma SliceOfSlice(b: Buffer, f: int, t: int, g: int, u: int)
    requires Within(b.data, if b.data.View? then b.data.to else 0)
    requires 0 <= f <= t <= Len(b.data) && 0 <= g <= u <= t - f
    ensures Slice(Slice(b, f, t), g, u) == Slice(b, f + g, f + u)
  {
  }

  // ---- queues of buffers ------------------------------------------------------------------------------

  predicate Has(q: seq<Buffer>, id: nat) {
    exists i :: 0 <= i < |q| && q[i].id == id
  }

  predicate NoDup(q: seq<Buffer>) {
    forall i, j :: 0 <= i < j < |q| ==> q[i].id != q[j].id
  }

  lemma HasTail(q: seq<Buffer>, id: nat)
    requires q != [] && NoDup(q)
    ensures Has(q[1..], id) <==> Has(q, id) && id != q[0].id
  {
    if Has(q, id) && id != q[0].id {
      var i :| 0 <= i < |q| && q[i].id == id;
      assert q[1..][i - 1].id == id;
    }
  }

  lemma HasPush(q: seq<Buffer>, b: Buffer, id: nat)
    ensures Has(q + [b], id) <==> Has(q, id) || id == b.id
  {
    assert (q + [b])[|q|] == b;
    if Has(q, id) {
      var i :| 0 <= i < |q| && q[i].id == id;
      assert (q + [b])[i].id == id;
    }
  }
}
