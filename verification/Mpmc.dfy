/** The bounded multi-producer multi-consumer queue of core/concurrency/lock_free_queue.go
    (and core/concurrency/ring.go, which runs the same protocol), one transition per atomic
    load, compare-and-swap, data access and sequence store.  Counters are unbounded naturals
    (MpmcWords has them in words); any number of threads may be in the middle of an operation. */
module Mpmc {
  import opened Bits
  import opened Runs

  type Tid = nat

  datatype Cell<T> = Cell(sequence: nat, data: T)

  /** Where a thread stands inside `Enqueue` or `Dequeue`.  `base` is the value the shared counter
      had when the operation began and `retries` the number of times its loop went round: both are
      bookkeeping for the progress theorem. */
  datatype Local<T> =
    | EnqStart(val: T, base: nat, retries: nat)
    | EnqTail(val: T, base: nat, retries: nat, pos: nat)
    | EnqSeq(val: T, base: nat, retries: nat, pos: nat, seen: nat)
    | EnqWon(val: T, pos: nat)
    | EnqWrote(pos: nat)
    | DeqStart(base: nat, retries: nat)
    | DeqHead(base: nat, retries: nat, pos: nat)
    | DeqSeq(base: nat, retries: nat, pos: nat, seen: nat)
    | DeqWon(pos: nat)
    | DeqRead(pos: nat, item: T)

  /** `enqueued[p]` is the value of the enqueue that won position p; `writer` and `reader` say which
      thread holds a position between its winning swap and its sequence store; `returned[p]` is the
      value handed to the caller of the dequeue that won position p. */
  datatype State<T> = State(
    n: nat, head: nat, tail: nat, cells: seq<Cell<T>>, threads: map<Tid, Local<T>>,
    enqueued: seq<T>, returned: map<nat, T>, writer: map<nat, Tid>, reader: map<nat, Tid>)

  ghost predicate Init<T(!new)>(s: State<T>) {
    && s.n >= 2 && s.head == 0 && s.tail == 0 && |s.cells| == s.n
    && (forall i :: 0 <= i < s.n ==> s.cells[i].sequence == i)
    && s.threads == map[] && s.enqueued == [] && s.returned == map[]
    && s.writer == map[] && s.reader == map[]
  }

  /** The cell of position p: index `p & mask`, which is the remainder by n (Bits.AndMask). */
  function At<T>(s: State<T>, p: nat): Cell<T>
    requires s.n > 0 && |s.cells| == s.n
  {
    s.cells[Rem(p, s.n)]
  }

  function Goto<T>(s: State<T>, t: Tid, l: Local<T>): State<T> {
    s.(threads := s.threads[t := l])
  }

  function Leave<T>(s: State<T>, t: Tid): State<T> {
    s.(threads := s.threads - {t})
  }

  function Stored<T>(s: State<T>, p: nat, c: Cell<T>): seq<Cell<T>>
    requires s.n > 0 && |s.cells| == s.n
  {
    s.cells[Rem(p, s.n) := c]
  }

  function BeginEnqueue<T>(s: State<T>, t: Tid, v: T): State<T> {
    Goto(s, t, EnqStart(v, s.tail, 0))
  }

  function BeginDequeue<T>(s: State<T>, t: Tid): State<T> {
    Goto(s, t, DeqStart(s.head, 0))
  }

  function WinTail<T>(s: State<T>, t: Tid, v: T, p: nat): State<T> {
    s.(threads := s.threads[t := EnqWon(v, p)], tail := p + 1, enqueued := s.enqueued + [v], writer := s.writer[p := t])
  }

  function WriteData<T>(s: State<T>, t: Tid, v: T, p: nat): State<T>
    requires s.n > 0 && |s.cells| == s.n
  {
    s.(threads := s.threads[t := EnqWrote(p)], cells := Stored(s, p, At(s, p).(data := v)))
  }

  function Publish<T>(s: State<T>, t: Tid, p: nat): State<T>
    requires s.n > 0 && |s.cells| == s.n
  {
    s.(threads := s.threads - {t}, cells := Stored(s, p, At(s, p).(sequence := p + 1)), writer := s.writer - {p})
  }

  function WinHead<T>(s: State<T>, t: Tid, p: nat): State<T> {
    s.(threads := s.threads[t := DeqWon(p)], head := p + 1, reader := s.reader[p := t])
  }

  function Free<T>(s: State<T>, t: Tid, p: nat, item: T): State<T>
    requires s.n > 0 && |s.cells| == s.n
  {
    s.(threads := s.threads - {t}, cells := Stored(s, p, At(s, p).(sequence := p + s.n)),
       reader := s.reader - {p}, returned := s.returned[p := item])
  }

  predicate InEnqueue<T>(l: Local<T>) {
    l.EnqStart? || l.EnqTail? || l.EnqSeq? || l.EnqWon? || l.EnqWrote?
  }

  function AdvanceEnqueue<T>(s: State<T>, t: Tid, l: Local<T>): State<T>
    requires s.n > 0 && |s.cells| == s.n && InEnqueue(l)
  {
    match l
    case EnqStart(v, b, r) => Goto(s, t, EnqTail(v, b, r, s.tail))
    case EnqTail(v, b, r, p) => Goto(s, t, EnqSeq(v, b, r, p, At(s, p).sequence))
    case EnqSeq(v, b, r, p, seen) =>
      if seen == p then
        if s.tail == p then WinTail(s, t, v, p) else Goto(s, t, EnqStart(v, b, r + 1))
      else if seen < p then Leave(s, t)
      else Goto(s, t, EnqStart(v, b, r + 1))
    case EnqWon(v, p) => WriteData(s, t, v, p)
    case EnqWrote(p) => Publish(s, t, p)
  }

  function AdvanceDequeue<T>(s: State<T>, t: Tid, l: Local<T>): State<T>
    requires s.n > 0 && |s.cells| == s.n && !InEnqueue(l)
  {
    match l
    case DeqStart(b, r) => Goto(s, t, DeqHead(b, r, s.head))
    case DeqHead(b, r, p) => Goto(s, t, DeqSeq(b, r, p, At(s, p).sequence))
    case DeqSeq(b, r, p, seen) =>
      if seen == p + 1 then
        if s.head == p then WinHead(s, t, p) else Goto(s, t, DeqStart(b, r + 1))
      else if seen < p + 1 then Leave(s, t)
      else Goto(s, t, DeqStart(b, r + 1))
    case DeqWon(p) => Goto(s, t, DeqRead(p, At(s, p).data))
    case DeqRead(p, item) => Free(s, t, p, item)
  }

  /** The next atomic action of a thread that is inside an operation. */
  function Advance<T>(s: State<T>, t: Tid): (s': State<T>)
    requires s.n > 0 && |s.cells| == s.n && t in s.threads
  {
    var l := s.threads[t];
    if InEnqueue(l) then AdvanceEnqueue(s, t, l) else AdvanceDequeue(s, t, l)
  }

  ghost predicate StepBy<T(!new)>(s: State<T>, t: Tid, s': State<T>)
    requires s.n > 0 && |s.cells| == s.n
  {
    if t in s.threads then s' == Advance(s, t)
    else s' == BeginDequeue(s, t) || exists v :: s' == BeginEnqueue(s, t, v)
  }

  // ---- the invariant -----------------------------------------------------------------------

  ghost predicate Shape<T>(s: State<T>) {
    s.n >= 2 && |s.cells| == s.n && s.head <= s.tail <= s.head + s.n && |s.enqueued| == s.tail
  }

  /** The n positions from `head` on own the n cells, and a cell's sequence number says which phase
      of which lap it is in: being filled (p), published (p+1), free for p (p), or still being
      drained from the lap before (p-n+1). */
  ghost predicate CellOk<T>(s: State<T>, p: nat)
    requires Shape(s) && s.head <= p < s.head + s.n
  {
    var c := At(s, p);
    if p < s.tail then
      if p in s.writer then c.sequence == p else c.sequence == p + 1 && c.data == s.enqueued[p]
    else if p >= s.n && p - s.n in s.reader then c.sequence == p - s.n + 1 && c.data == s.enqueued[p - s.n]
    else c.sequence == p
  }

  ghost predicate CellsOk<T>(s: State<T>)
    requires Shape(s)
  {
    forall p: nat :: s.head <= p < s.head + s.n ==> CellOk(s, p)
  }

  ghost predicate Filling<T>(l: Local<T>, p: nat) {
    (l.EnqWon? || l.EnqWrote?) && l.pos == p
  }

  ghost predicate Draining<T>(l: Local<T>, p: nat) {
    (l.DeqWon? || l.DeqRead?) && l.pos == p
  }

  ghost predicate HoldersOk<T>(s: State<T>) {
    && (forall p: nat :: p in s.writer ==>
          s.head <= p < s.tail && s.writer[p] in s.threads && Filling(s.threads[s.writer[p]], p))
    && (forall p: nat :: p in s.reader ==>
          p < s.head && s.tail <= p + s.n && s.reader[p] in s.threads && Draining(s.threads[s.reader[p]], p))
  }

  ghost predicate ThreadOk<T>(s: State<T>, t: Tid)
    requires Shape(s) && t in s.threads
  {
    match s.threads[t]
    case EnqStart(v, b, r) => b + r <= s.tail
    case EnqTail(v, b, r, p) => b + r <= p <= s.tail
    case EnqSeq(v, b, r, p, seen) => b + r <= p <= s.tail && seen <= At(s, p).sequence
    case EnqWon(v, p) => p in s.writer && s.writer[p] == t && p < s.tail && s.enqueued[p] == v
    case EnqWrote(p) => p in s.writer && s.writer[p] == t && p < s.tail && At(s, p).data == s.enqueued[p]
    case DeqStart(b, r) => b + r <= s.head
    case DeqHead(b, r, p) => b + r <= p <= s.head
    case DeqSeq(b, r, p, seen) => b + r <= p <= s.head && seen <= At(s, p).sequence
    case DeqWon(p) => p in s.reader && s.reader[p] == t
    case DeqRead(p, item) => p in s.reader && s.reader[p] == t && p < s.tail && item == s.enqueued[p]
  }

  ghost predicate ThreadsOk<T>(s: State<T>)
    requires Shape(s)
  {
    forall t :: t in s.threads ==> ThreadOk(s, t)
  }

  /** Every position a dequeue has won is either still held by that dequeue or was returned, with the
      value the enqueue of that position brought. */
  ghost predicate ReturnedOk<T>(s: State<T>)
    requires Shape(s)
  {
    && (forall p: nat :: p in s.returned <==> p < s.head && p !in s.reader)
    && (forall p: nat :: p in s.returned ==> s.returned[p] == s.enqueued[p])
  }

  ghost predicate Inv<T>(s: State<T>) {
    Shape(s) && CellsOk(s) && HoldersOk(s) && ThreadsOk(s) && ReturnedOk(s)
  }

  // ---- cells --------------------------------------------------------------------------------

  /** Below the window a cell has moved on: its sequence number is past every position it served. */
  lemma {:induction false} PastSequence<T>(s: State<T>, q: nat)
    requires Shape(s) && CellsOk(s)
    requires q < s.head
    ensures At(s, q).sequence > q
    decreases s.head - q
  {
    assert Rem(q + s.n, s.n) == Rem(q, s.n);
    if q + s.n < s.head { PastSequence(s, q + s.n); } else { assert CellOk(s, q + s.n); }
  }

  lemma WindowRems<T>(s: State<T>, p: nat)
    requires Shape(s)
    ensures forall q: nat :: q != p && q < p + s.n && p < q + s.n ==> Rem(q, s.n) != Rem(p, s.n)
  {
    forall q: nat | q != p && q < p + s.n && p < q + s.n ensures Rem(q, s.n) != Rem(p, s.n) {
      RemApart(p, q, s.n);
    }
  }

  // ---- every step keeps the invariant ------------------------------------------------------

  lemma InitInv<T(!new)>(s: State<T>)
    requires Init(s)
    ensures Inv(s)
  {
  }

  /** A step that moves thread t and nothing else. */
  ghost predicate OnlyMoves<T>(s: State<T>, t: Tid, s': State<T>) {
    && s' == s.(threads := s'.threads)
    && forall u :: u != t ==> (u in s'.threads <==> u in s.threads) && (u in s.threads ==> s'.threads[u] == s.threads[u])
  }

  lemma SharedKept<T>(s: State<T>, t: Tid, s': State<T>)
    requires Shape(s) && CellsOk(s) && ReturnedOk(s) && OnlyMoves(s, t, s')
    ensures Shape(s') && CellsOk(s') && ReturnedOk(s')
  {
    forall p: nat | s.head <= p < s.head + s.n ensures CellOk(s', p) { assert CellOk(s, p); }
  }

  lemma ThreadsKept<T>(s: State<T>, t: Tid, s': State<T>)
    requires Shape(s) && ThreadsOk(s) && OnlyMoves(s, t, s') && (t in s'.threads ==> Shape(s') && ThreadOk(s', t))
    ensures Shape(s') && ThreadsOk(s')
  {
    forall u | u in s'.threads ensures ThreadOk(s', u) { assert u != t ==> ThreadOk(s, u); }
  }

  lemma HoldersKept<T>(s: State<T>, t: Tid, s': State<T>)
    requires HoldersOk(s) && OnlyMoves(s, t, s')
    requires forall p: nat :: t in s.threads && Filling(s.threads[t], p) ==> t in s'.threads && Filling(s'.threads[t], p)
    requires forall p: nat :: t in s.threads && Draining(s.threads[t], p) ==> t in s'.threads && Draining(s'.threads[t], p)
    ensures HoldersOk(s')
  {
  }

  lemma LocalStep<T>(s: State<T>, t: Tid, l: Local<T>, s': State<T>)
    requires Inv(s) && s' == Goto(s, t, l)
    requires t in s.threads ==> forall p: nat :: !Filling(s.threads[t], p) && !Draining(s.threads[t], p)
    requires ThreadOk(s', t)
    ensures Inv(s')
  {
    SharedKept(s, t, s');
    ThreadsKept(s, t, s');
    HoldersKept(s, t, s');
  }

  lemma LeaveStep<T>(s: State<T>, t: Tid)
    requires Inv(s) && t in s.threads && forall p: nat :: !Filling(s.threads[t], p) && !Draining(s.threads[t], p)
    ensures Inv(Leave(s, t))
  {
    var s' := Leave(s, t);
    SharedKept(s, t, s');
    ThreadsKept(s, t, s');
    HoldersKept(s, t, s');
  }

  /** At the counter's current value a cell's sequence number is never ahead of it. */
  lemma TailSequence<T>(s: State<T>)
    requires Shape(s) && CellsOk(s)
    ensures At(s, s.tail).sequence <= s.tail
    ensures At(s, s.tail).sequence == s.tail ==> s.tail < s.head + s.n
  {
    if s.tail < s.head + s.n {
      assert CellOk(s, s.tail);
    } else {
      assert CellOk(s, s.head);
      assert Rem(s.head + s.n, s.n) == Rem(s.head, s.n);
    }
  }

  lemma HeadSequence<T>(s: State<T>)
    requires Shape(s) && CellsOk(s)
    ensures At(s, s.head).sequence <= s.head + 1
    ensures At(s, s.head).sequence == s.head + 1 ==> s.head < s.tail && s.head !in s.writer
  {
    assert CellOk(s, s.head);
  }

  // A winning swap on `tail`.

  ghost predicate WinsTail<T>(s: State<T>, t: Tid) {
    Inv(s) && t in s.threads && s.threads[t].EnqSeq? && s.threads[t].seen == s.threads[t].pos == s.tail
  }

  lemma WinTailFree<T>(s: State<T>, t: Tid)
    requires WinsTail(s, t)
    ensures At(s, s.tail).sequence == s.tail && s.tail < s.head + s.n
    ensures s.tail >= s.n ==> s.tail - s.n !in s.reader
  {
    assert ThreadOk(s, t);
    TailSequence(s);
    assert CellOk(s, s.tail);
  }

  lemma WinTailHolders<T>(s: State<T>, t: Tid)
    requires WinsTail(s, t)
    ensures var s' := WinTail(s, t, s.threads[t].val, s.tail); Shape(s') && HoldersOk(s') && ReturnedOk(s')
  {
    var s' := WinTail(s, t, s.threads[t].val, s.tail);
    WinTailFree(s, t);
    forall p: nat | p in s.reader ensures s'.tail <= p + s.n { assert p != s.tail - s.n; }
  }

  lemma WinTailCells<T>(s: State<T>, t: Tid)
    requires WinsTail(s, t)
    ensures var s' := WinTail(s, t, s.threads[t].val, s.tail); Shape(s') && CellsOk(s')
  {
    var s' := WinTail(s, t, s.threads[t].val, s.tail);
    WinTailFree(s, t);
    forall q: nat | s'.head <= q < s'.head + s'.n ensures CellOk(s', q) { assert CellOk(s, q); }
  }

  lemma WinTailThreads<T>(s: State<T>, t: Tid)
    requires WinsTail(s, t)
    ensures var s' := WinTail(s, t, s.threads[t].val, s.tail); Shape(s') && ThreadsOk(s')
  {
    var s' := WinTail(s, t, s.threads[t].val, s.tail);
    WinTailFree(s, t);
    forall u | u in s'.threads ensures ThreadOk(s', u) { assert u != t ==> ThreadOk(s, u); }
  }

  // A winning swap on `head`.

  ghost predicate WinsHead<T>(s: State<T>, t: Tid) {
    && Inv(s) && t in s.threads && s.threads[t].DeqSeq?
    && s.threads[t].seen == s.threads[t].pos + 1 && s.threads[t].pos == s.head
  }

  lemma WinHeadPublished<T>(s: State<T>, t: Tid)
    requires WinsHead(s, t)
    ensures s.head < s.tail && s.head !in s.writer && s.head !in s.reader
    ensures At(s, s.head) == Cell(s.head + 1, s.enqueued[s.head])
  {
    assert ThreadOk(s, t);
    HeadSequence(s);
    assert CellOk(s, s.head);
  }

  lemma WinHeadHolders<T>(s: State<T>, t: Tid)
    requires WinsHead(s, t)
    ensures Shape(WinHead(s, t, s.head)) && HoldersOk(WinHead(s, t, s.head)) && ReturnedOk(WinHead(s, t, s.head))
  {
    var s' := WinHead(s, t, s.head);
    WinHeadPublished(s, t);
    forall p: nat | p in s.writer ensures s'.head <= p { assert p != s.head; }
  }

  lemma WinHeadThreads<T>(s: State<T>, t: Tid)
    requires WinsHead(s, t)
    ensures Shape(WinHead(s, t, s.head)) && ThreadsOk(WinHead(s, t, s.head))
  {
    var s' := WinHead(s, t, s.head);
    WinHeadPublished(s, t);
    forall u | u in s'.threads ensures ThreadOk(s', u) { assert u != t ==> ThreadOk(s, u); }
  }

  lemma WinHeadLastCell<T>(s: State<T>, t: Tid)
    requires WinsHead(s, t)
    ensures Shape(WinHead(s, t, s.head)) && CellOk(WinHead(s, t, s.head), s.head + s.n)
  {
    WinHeadPublished(s, t);
    assert Rem(s.head + s.n, s.n) == Rem(s.head, s.n);
  }

  lemma WinHeadCells<T>(s: State<T>, t: Tid)
    requires WinsHead(s, t)
    ensures Shape(WinHead(s, t, s.head)) && CellsOk(WinHead(s, t, s.head))
  {
    var s' := WinHead(s, t, s.head);
    WinHeadPublished(s, t);
    WinHeadLastCell(s, t);
    forall q: nat | s'.head <= q < s.head + s.n ensures CellOk(s', q) { assert CellOk(s, q); }
  }

  // Between the swap and the sequence store the holder of position p is alone on its cell.

  ghost predicate Holds<T>(s: State<T>, t: Tid, p: nat) {
    t in s.threads && (Filling(s.threads[t], p) || Draining(s.threads[t], p))
  }

  /** Two threads that hold positions hold different cells. */
  lemma HoldersDiffer<T>(s: State<T>, t: Tid, p: nat, u: Tid, q: nat)
    requires Inv(s) && Holds(s, t, p) && Holds(s, u, q) && t != u
    ensures Rem(p, s.n) != Rem(q, s.n)
  {
    assert ThreadOk(s, t) && ThreadOk(s, u);
    WindowRems(s, p);
  }

  /** A store by the holder of p leaves every other position of the window alone. */
  lemma StoreElsewhere<T>(s: State<T>, t: Tid, p: nat, c: Cell<T>)
    requires Inv(s) && Holds(s, t, p)
    ensures s.tail <= p + s.n && p < s.tail
    ensures forall q: nat :: s.head <= q < s.head + s.n && q != p && q != p + s.n
              ==> Stored(s, p, c)[Rem(q, s.n)] == At(s, q)
    ensures forall u, q: nat :: u != t && Holds(s, u, q) ==> Stored(s, p, c)[Rem(q, s.n)] == At(s, q)
  {
    assert ThreadOk(s, t);
    assert s.tail <= p + s.n && p < s.tail;
    WindowRems(s, p);
    WindowRems(s, p + s.n);
    assert Rem(p + s.n, s.n) == Rem(p, s.n);
    forall u, q: nat | u != t && Holds(s, u, q) ensures Stored(s, p, c)[Rem(q, s.n)] == At(s, q) {
      HoldersDiffer(s, t, p, u, q);
    }
  }

  lemma WriteDataCells<T>(s: State<T>, t: Tid)
    requires Inv(s) && t in s.threads && s.threads[t].EnqWon?
    ensures var s' := WriteData(s, t, s.threads[t].val, s.threads[t].pos); Shape(s') && CellsOk(s')
  {
    var p := s.threads[t].pos;
    var s' := WriteData(s, t, s.threads[t].val, p);
    assert ThreadOk(s, t) && CellOk(s, p);
    StoreElsewhere(s, t, p, At(s, p).(data := s.threads[t].val));
    forall q: nat | s.head <= q < s.head + s.n ensures CellOk(s', q) { assert CellOk(s, q); }
  }

  lemma WriteDataThreads<T>(s: State<T>, t: Tid)
    requires Inv(s) && t in s.threads && s.threads[t].EnqWon?
    ensures var s' := WriteData(s, t, s.threads[t].val, s.threads[t].pos); Shape(s') && ThreadsOk(s')
  {
    var p := s.threads[t].pos;
    var s' := WriteData(s, t, s.threads[t].val, p);
    assert ThreadOk(s, t);
    StoreElsewhere(s, t, p, At(s, p).(data := s.threads[t].val));
    forall u | u in s'.threads ensures ThreadOk(s', u) {
      assert u != t ==> ThreadOk(s, u);
      assert s.threads[u].EnqWrote? ==> Holds(s, u, s.threads[u].pos);
    }
  }

  lemma WriteDataInv<T>(s: State<T>, t: Tid)
    requires Inv(s) && t in s.threads && s.threads[t].EnqWon?
    ensures Inv(WriteData(s, t, s.threads[t].val, s.threads[t].pos))
  {
    WriteDataCells(s, t);
    WriteDataThreads(s, t);
    assert ThreadOk(s, t);
  }

  lemma PublishCells<T>(s: State<T>, t: Tid)
    requires Inv(s) && t in s.threads && s.threads[t].EnqWrote?
    ensures Shape(Publish(s, t, s.threads[t].pos)) && CellsOk(Publish(s, t, s.threads[t].pos))
  {
    var s', p := Publish(s, t, s.threads[t].pos), s.threads[t].pos;
    assert ThreadOk(s, t) && CellOk(s, p);
    StoreElsewhere(s, t, p, At(s, p).(sequence := p + 1));
    forall q: nat | s.head <= q < s.head + s.n ensures CellOk(s', q) { assert CellOk(s, q); }
  }

  lemma PublishThreads<T>(s: State<T>, t: Tid)
    requires Inv(s) && t in s.threads && s.threads[t].EnqWrote?
    ensures Shape(Publish(s, t, s.threads[t].pos)) && ThreadsOk(Publish(s, t, s.threads[t].pos))
  {
    var s', p := Publish(s, t, s.threads[t].pos), s.threads[t].pos;
    assert ThreadOk(s, t) && CellOk(s, p);
    StoreElsewhere(s, t, p, At(s, p).(sequence := p + 1));
    forall u | u in s'.threads ensures ThreadOk(s', u) {
      assert ThreadOk(s, u);
      assert s.threads[u].EnqWrote? ==> Holds(s, u, s.threads[u].pos);
    }
  }

  lemma PublishInv<T>(s: State<T>, t: Tid)
    requires Inv(s) && t in s.threads && s.threads[t].EnqWrote?
    ensures Inv(Publish(s, t, s.threads[t].pos))
  {
    PublishCells(s, t);
    PublishThreads(s, t);
    assert ThreadOk(s, t);
  }

  lemma ReadData<T>(s: State<T>, t: Tid)
    requires Inv(s) && t in s.threads && s.threads[t].DeqWon?
    ensures s.threads[t].pos < s.tail && At(s, s.threads[t].pos).data == s.enqueued[s.threads[t].pos]
  {
    var p := s.threads[t].pos;
    assert ThreadOk(s, t) && CellOk(s, p + s.n);
    assert Rem(p + s.n, s.n) == Rem(p, s.n);
  }

  lemma ReadDataInv<T>(s: State<T>, t: Tid)
    requires Inv(s) && t in s.threads && s.threads[t].DeqWon?
    ensures Inv(Goto(s, t, DeqRead(s.threads[t].pos, At(s, s.threads[t].pos).data)))
  {
    var s' := Goto(s, t, DeqRead(s.threads[t].pos, At(s, s.threads[t].pos).data));
    ReadData(s, t);
    assert ThreadOk(s, t);
    SharedKept(s, t, s');
    ThreadsKept(s, t, s');
    HoldersKept(s, t, s');
  }

  lemma FreeSequence<T>(s: State<T>, t: Tid)
    requires Inv(s) && t in s.threads && s.threads[t].DeqRead?
    ensures At(s, s.threads[t].pos).sequence == s.threads[t].pos + 1
    ensures var p := s.threads[t].pos; s.head <= p + s.n && s.tail <= p + s.n && p < s.head && p in s.reader && s.reader[p] == t
  {
    var p := s.threads[t].pos;
    assert ThreadOk(s, t) && CellOk(s, p + s.n);
    assert Rem(p + s.n, s.n) == Rem(p, s.n);
  }

  lemma FreeOwnCell<T>(s: State<T>, t: Tid, p: nat)
    requires Inv(s) && t in s.threads && s.threads[t].DeqRead? && p == s.threads[t].pos && p + s.n < s.head + s.n
    ensures var s' := Free(s, t, p, s.threads[t].item); Shape(s') && s.head <= p + s.n && CellOk(s', p + s.n)
  {
    FreeSequence(s, t);
    assert Rem(p + s.n, s.n) == Rem(p, s.n);
  }

  lemma FreeOtherCell<T>(s: State<T>, t: Tid, p: nat, q: nat)
    requires Inv(s) && t in s.threads && s.threads[t].DeqRead? && p == s.threads[t].pos
    requires s.head <= q < s.head + s.n && q != p + s.n
    ensures var s' := Free(s, t, p, s.threads[t].item); Shape(s') && CellOk(s', q)
  {
    FreeSequence(s, t);
    StoreElsewhere(s, t, p, At(s, p).(sequence := p + s.n));
    assert CellOk(s, q);
  }

  lemma FreeCell<T>(s: State<T>, t: Tid, p: nat, q: nat)
    requires Inv(s) && t in s.threads && s.threads[t].DeqRead? && p == s.threads[t].pos && s.head <= q < s.head + s.n
    ensures var s' := Free(s, t, p, s.threads[t].item); Shape(s') && CellOk(s', q)
  {
    if q == p + s.n { FreeOwnCell(s, t, p); } else { FreeOtherCell(s, t, p, q); }
  }

  lemma FreeCells<T>(s: State<T>, t: Tid)
    requires Inv(s) && t in s.threads && s.threads[t].DeqRead?
    ensures var s' := Free(s, t, s.threads[t].pos, s.threads[t].item); Shape(s') && CellsOk(s')
  {
    var s' := Free(s, t, s.threads[t].pos, s.threads[t].item);
    forall q: nat | s.head <= q < s.head + s.n ensures Shape(s') && CellOk(s', q) { FreeCell(s, t, s.threads[t].pos, q); }
  }

  lemma FreeThreads<T>(s: State<T>, t: Tid)
    requires Inv(s) && t in s.threads && s.threads[t].DeqRead?
    ensures var s' := Free(s, t, s.threads[t].pos, s.threads[t].item); Shape(s') && ThreadsOk(s')
  {
    var s', p := Free(s, t, s.threads[t].pos, s.threads[t].item), s.threads[t].pos;
    FreeSequence(s, t);
    StoreElsewhere(s, t, p, At(s, p).(sequence := p + s.n));
    forall u | u in s'.threads ensures ThreadOk(s', u) {
      assert ThreadOk(s, u);
      assert s.threads[u].EnqWrote? ==> Holds(s, u, s.threads[u].pos);
    }
  }

  lemma FreeInv<T>(s: State<T>, t: Tid)
    requires Inv(s) && t in s.threads && s.threads[t].DeqRead?
    ensures Inv(Free(s, t, s.threads[t].pos, s.threads[t].item))
  {
    FreeCells(s, t);
    FreeThreads(s, t);
    FreeSequence(s, t);
    assert ThreadOk(s, t);
  }

  /** Going round a loop again means the shared counter has moved past the position that was read. */
  lemma RetryMeansProgress<T>(s: State<T>, t: Tid)
    requires Inv(s) && t in s.threads
    ensures var s', l := Advance(s, t), s.threads[t];
      && (l.EnqSeq? && t in s'.threads && s'.threads[t].EnqStart? ==> s.tail > l.pos)
      && (l.DeqSeq? && t in s'.threads && s'.threads[t].DeqStart? ==> s.head > l.pos)
  {
    assert ThreadOk(s, t);
    TailSequence(s);
    HeadSequence(s);
  }

  ghost predicate Unshared<T>(s: State<T>, t: Tid) {
    && t in s.threads && !s.threads[t].EnqWon? && !s.threads[t].EnqWrote? && !s.threads[t].DeqWon? && !s.threads[t].DeqRead?
    && (s.threads[t].EnqSeq? ==> !(s.threads[t].seen == s.threads[t].pos == s.tail))
    && (s.threads[t].DeqSeq? ==> !(s.threads[t].seen == s.threads[t].pos + 1 && s.threads[t].pos == s.head))
  }

  /** The loads, the failed swaps and the refusals change nothing but their own thread's place. */
  lemma UnsharedStep<T>(s: State<T>, t: Tid)
    requires s.n > 0 && |s.cells| == s.n && Unshared(s, t)
    ensures var s' := Advance(s, t);
      if t in s'.threads then s' == Goto(s, t, s'.threads[t]) else s' == Leave(s, t)
  {
  }

  lemma UnsharedEnqueue<T>(s: State<T>, t: Tid, l: Local<T>)
    requires Shape(s) && CellsOk(s) && Unshared(s, t) && ThreadOk(s, t) && l == s.threads[t] && InEnqueue(l)
    ensures var s' := AdvanceEnqueue(s, t, l); t in s'.threads ==> Shape(s') && ThreadOk(s', t)
  {
    TailSequence(s);
  }

  lemma UnsharedDequeue<T>(s: State<T>, t: Tid, l: Local<T>)
    requires Shape(s) && CellsOk(s) && Unshared(s, t) && ThreadOk(s, t) && l == s.threads[t] && !InEnqueue(l)
    ensures var s' := AdvanceDequeue(s, t, l); t in s'.threads ==> Shape(s') && ThreadOk(s', t)
  {
    HeadSequence(s);
  }

  lemma UnsharedThread<T>(s: State<T>, t: Tid)
    requires Inv(s) && Unshared(s, t)
    ensures t in Advance(s, t).threads ==> Shape(Advance(s, t)) && ThreadOk(Advance(s, t), t)
  {
    if InEnqueue(s.threads[t]) { UnsharedEnqueue(s, t, s.threads[t]); } else { UnsharedDequeue(s, t, s.threads[t]); }
  }

  lemma UnsharedInv<T>(s: State<T>, t: Tid)
    requires Inv(s) && Unshared(s, t)
    ensures Inv(Advance(s, t))
  {
    var s' := Advance(s, t);
    UnsharedStep(s, t);
    UnsharedThread(s, t);
    if t in s'.threads { LocalStep(s, t, s'.threads[t], s'); } else { LeaveStep(s, t); }
  }

  lemma EnqueueInv<T>(s: State<T>, t: Tid)
    requires Inv(s) && t in s.threads && InEnqueue(s.threads[t])
    ensures Inv(Advance(s, t))
  {
    if s.threads[t].EnqWon? {
      WriteDataInv(s, t);
    } else if s.threads[t].EnqWrote? {
      PublishInv(s, t);
    } else if WinsTail(s, t) {
      WinTailHolders(s, t);
      WinTailCells(s, t);
      WinTailThreads(s, t);
    } else {
      UnsharedInv(s, t);
    }
  }

  lemma DequeueInv<T>(s: State<T>, t: Tid)
    requires Inv(s) && t in s.threads && !InEnqueue(s.threads[t])
    ensures Inv(Advance(s, t))
  {
    if s.threads[t].DeqWon? {
      ReadDataInv(s, t);
    } else if s.threads[t].DeqRead? {
      FreeInv(s, t);
    } else if WinsHead(s, t) {
      WinHeadHolders(s, t);
      WinHeadCells(s, t);
      WinHeadThreads(s, t);
    } else {
      UnsharedInv(s, t);
    }
  }

  lemma StepInv<T(!new)>(s: State<T>, t: Tid, s': State<T>)
    requires Inv(s) && StepBy(s, t, s')
    ensures Inv(s')
  {
    if t !in s.threads {
      LocalStep(s, t, s'.threads[t], s');
    } else if InEnqueue(s.threads[t]) {
      EnqueueInv(s, t);
    } else {
      DequeueInv(s, t);
    }
  }

  // ---- runs --------------------------------------------------------------------------------

  ghost predicate Moves<T(!new)>(s: State<T>, t: Tid, s': State<T>) {
    s.n > 0 && |s.cells| == s.n && StepBy(s, t, s')
  }

  lemma RunInv<T(!new)>(run: seq<State<T>>, turns: seq<Tid>, i: nat)
    requires IsRun(Init, Moves, run, turns) && i < |run|
    ensures Inv(run[i])
  {
    forall s: State<T> | Init(s) ensures Inv(s) { InitInv(s); }
    forall s: State<T>, t, s' | Inv(s) && Moves(s, t, s') ensures Inv(s') { StepInv(s, t, s'); }
    Invariant(Init, Moves, Inv, run, turns, i);
  }

  /** The two logs only grow: a position is won once on each side and keeps its value. */
  ghost predicate Extends<T>(s: State<T>, s': State<T>) {
    && s.n == s'.n && s.head <= s'.head && s.tail <= s'.tail && s.enqueued <= s'.enqueued
    && forall p: nat :: p in s.returned ==> p in s'.returned && s'.returned[p] == s.returned[p]
  }

  lemma EnqueueExtends<T>(s: State<T>, t: Tid)
    requires Shape(s) && t in s.threads && InEnqueue(s.threads[t])
    ensures Extends(s, AdvanceEnqueue(s, t, s.threads[t]))
  {
    assert AdvanceEnqueue(s, t, s.threads[t]).returned == s.returned;
  }

  lemma DequeueExtends<T>(s: State<T>, t: Tid)
    requires Shape(s) && ReturnedOk(s) && t in s.threads && !InEnqueue(s.threads[t]) && ThreadOk(s, t)
    ensures Extends(s, AdvanceDequeue(s, t, s.threads[t]))
  {
    assert AdvanceDequeue(s, t, s.threads[t]).enqueued == s.enqueued;
  }

  lemma StepExtends<T(!new)>(s: State<T>, t: Tid, s': State<T>)
    requires Inv(s) && StepBy(s, t, s')
    ensures Extends(s, s')
  {
    if t in s.threads {
      assert ThreadOk(s, t);
      if InEnqueue(s.threads[t]) { EnqueueExtends(s, t); } else { DequeueExtends(s, t); }
    }
  }

  lemma NextExtends<T(!new)>(run: seq<State<T>>, turns: seq<Tid>, i: nat)
    requires IsRun(Init, Moves, run, turns) && i < |turns|
    ensures Extends(run[i], run[i + 1])
  {
    RunInv(run, turns, i);
    assert StepAt(Moves, run, turns, i);
    StepExtends(run[i], turns[i], run[i + 1]);
  }

  lemma ExtendsOn<T>(a: State<T>, b: State<T>, c: State<T>)
    requires Extends(a, b) && Extends(b, c)
    ensures Extends(a, c)
  {
  }

  lemma {:induction false} RunExtends<T(!new)>(run: seq<State<T>>, turns: seq<Tid>, i: nat, j: nat)
    requires IsRun(Init, Moves, run, turns) && i <= j < |run|
    ensures Extends(run[i], run[j])
    decreases j
  {
    if i < j {
      RunExtends(run, turns, i, j - 1);
      NextExtends(run, turns, j - 1);
      ExtendsOn(run[i], run[j - 1], run[j]);
    }
  }

  /** What the callers got from positions 0 .. k-1, in the order of the winning swaps on `head`. */
  ghost function Delivered<T>(s: State<T>, k: nat): seq<T>
    requires forall p: nat :: p < k ==> p in s.returned
  {
    seq(k, p requires 0 <= p < k => s.returned[p])
  }

  /** First in, first out, with nothing lost, duplicated or invented: in every interleaving the value
      returned for a position is the one enqueued there, every position below `head` is returned or
      in the hands of exactly one dequeue, and whatever prefix of the wins on `head` has returned is
      the same prefix of the wins on `tail`. */
  lemma Fifo<T(!new)>(run: seq<State<T>>, turns: seq<Tid>, i: nat, k: nat)
    requires IsRun(Init, Moves, run, turns) && i < |run|
    requires k <= run[i].head && forall p: nat :: p < k ==> p !in run[i].reader
    ensures k <= |run[i].enqueued| && forall p: nat :: p < k ==> p in run[i].returned
    ensures forall p: nat :: p in run[i].returned ==> p < |run[i].enqueued| && run[i].returned[p] == run[i].enqueued[p]
    ensures forall p: nat :: p < run[i].head ==> (p in run[i].returned <==> !exists t :: Holds(run[i], t, p))
    ensures forall p: nat, t, u :: Holds(run[i], t, p) && Holds(run[i], u, p) ==> t == u
    ensures Delivered(run[i], k) == run[i].enqueued[..k]
  {
    var s := run[i];
    RunInv(run, turns, i);
    forall p: nat, t, u | Holds(s, t, p) && Holds(s, u, p) ensures t == u {
      if t != u { HoldersDiffer(s, t, p, u, p); }
    }
    forall p: nat | p < s.head ensures p in s.returned <==> !exists t :: Holds(s, t, p) {
      if p in s.reader { assert Holds(s, s.reader[p], p); }
      forall t | Holds(s, t, p) ensures p in s.reader { assert ThreadOk(s, t); }
    }
  }

  /** With no operation in flight the callers hold exactly the first `head` enqueued values and the
      cells hold the other `tail - head`. */
  lemma Quiescent<T(!new)>(run: seq<State<T>>, turns: seq<Tid>, i: nat)
    requires IsRun(Init, Moves, run, turns) && i < |run| && run[i].threads == map[]
    ensures run[i].head <= run[i].tail == |run[i].enqueued|
    ensures forall p: nat :: p < run[i].head ==> p in run[i].returned
    ensures Delivered(run[i], run[i].head) == run[i].enqueued[..run[i].head]
    ensures run[i].tail - run[i].head <= run[i].n == |run[i].cells|
    ensures forall p: nat :: run[i].head <= p < run[i].tail
              ==> At(run[i], p) == Cell(p + 1, run[i].enqueued[p])
  {
    RunInv(run, turns, i);
    assert run[i].reader == map[] && run[i].writer == map[];
    forall p: nat | run[i].head <= p < run[i].tail ensures At(run[i], p) == Cell(p + 1, run[i].enqueued[p]) {
      assert CellOk(run[i], p);
    }
    Fifo(run, turns, i, run[i].head);
  }

  // ---- the queue the protocol implements -------------------------------------------------------

  /** What a step means to a FIFO queue.  Operations take effect at their winning swap, refusals at the load
      of the sequence number that causes them. */
  datatype Event<T> = Silent | Put(item: T) | Got(item: T) | RefusedPut | RefusedGet

  ghost function Queue<T>(s: State<T>): seq<T>
    requires Shape(s)
  {
    s.enqueued[s.head..s.tail]
  }

  function EventOf<T>(s: State<T>, t: Tid): Event<T>
    requires Shape(s)
  {
    if t !in s.threads then Silent else
    var l := s.threads[t];
    if l.EnqSeq? && l.seen == l.pos == s.tail then Put(l.val)
    else if l.DeqSeq? && l.seen == l.pos + 1 && l.pos == s.head < s.tail then Got(s.enqueued[s.head])
    else if l.EnqTail? && At(s, l.pos).sequence < l.pos then RefusedPut
    else if l.DeqHead? && At(s, l.pos).sequence < l.pos + 1 then RefusedGet
    else Silent
  }

  /** A queue of capacity n.  A put may also be refused while a get is in flight, and a get while a put is. */
  ghost predicate FifoStep<T>(n: nat, q: seq<T>, e: Event<T>, q': seq<T>, getting: bool, putting: bool) {
    match e
    case Silent => q' == q
    case Put(x) => |q| < n && q' == q + [x]
    case Got(x) => q != [] && x == q[0] && q' == q[1..]
    case RefusedPut => q' == q && (|q| == n || getting)
    case RefusedGet => q' == q && (q == [] || putting)
  }

  ghost predicate Refines<T>(s: State<T>, t: Tid, s': State<T>) {
    Shape(s) && Shape(s') && FifoStep(s.n, Queue(s), EventOf(s, t), Queue(s'), s.reader != map[], s.writer != map[])
  }

  lemma WinTailRefines<T>(s: State<T>, t: Tid)
    requires WinsTail(s, t)
    ensures Refines(s, t, WinTail(s, t, s.threads[t].val, s.tail))
  {
    WinTailFree(s, t);
    var s' := WinTail(s, t, s.threads[t].val, s.tail);
    assert s'.enqueued[s'.head..s'.tail] == s.enqueued[s.head..s.tail] + [s.threads[t].val];
  }

  lemma WinHeadRefines<T>(s: State<T>, t: Tid)
    requires WinsHead(s, t)
    ensures Refines(s, t, WinHead(s, t, s.head))
  {
    WinHeadPublished(s, t);
    assert s.enqueued[s.head + 1..s.tail] == Queue(s)[1..] && Queue(s)[0] == s.enqueued[s.head];
  }

  ghost predicate SameQueue<T>(s: State<T>, s': State<T>) {
    s'.head == s.head && s'.tail == s.tail && s'.enqueued == s.enqueued && s'.n == s.n
  }

  lemma OtherEnqueue<T>(s: State<T>, t: Tid, l: Local<T>)
    requires Shape(s) && InEnqueue(l) && !(l.EnqSeq? && l.seen == l.pos == s.tail)
    ensures SameQueue(s, AdvanceEnqueue(s, t, l))
  {
  }

  lemma OtherDequeue<T>(s: State<T>, t: Tid, l: Local<T>)
    requires Shape(s) && !InEnqueue(l) && !(l.DeqSeq? && l.seen == l.pos + 1 && l.pos == s.head)
    ensures SameQueue(s, AdvanceDequeue(s, t, l))
  {
  }

  /** A step that wins nothing leaves both counters and the log alone. */
  lemma OtherStep<T(!new)>(s: State<T>, t: Tid, s': State<T>)
    requires Inv(s) && StepBy(s, t, s') && !WinsTail(s, t) && !WinsHead(s, t)
    ensures SameQueue(s, s')
  {
    if t in s.threads {
      if InEnqueue(s.threads[t]) { OtherEnqueue(s, t, s.threads[t]); } else { OtherDequeue(s, t, s.threads[t]); }
    }
  }

  lemma RefusedRefines<T>(s: State<T>, t: Tid)
    requires Inv(s) && !WinsTail(s, t) && !WinsHead(s, t)
    ensures FifoStep(s.n, Queue(s), EventOf(s, t), Queue(s), s.reader != map[], s.writer != map[])
  {
    if t in s.threads && s.threads[t].EnqTail? { FullMeansHeld(s, t); }
    if t in s.threads && s.threads[t].DeqHead? { EmptyMeansUnpublished(s, t); }
  }

  /** Every atomic step of every thread is one operation of a bounded FIFO queue or none. */
  lemma StepRefines<T(!new)>(s: State<T>, t: Tid, s': State<T>)
    requires Inv(s) && StepBy(s, t, s')
    ensures Inv(s') && FifoStep(s.n, Queue(s), EventOf(s, t), Queue(s'), s.reader != map[], s.writer != map[])
  {
    StepInv(s, t, s');
    StepIsRefined(s, t, s');
  }

  lemma StepIsRefined<T(!new)>(s: State<T>, t: Tid, s': State<T>)
    requires Inv(s) && StepBy(s, t, s') && Shape(s')
    ensures Refines(s, t, s')
  {
    if WinsTail(s, t) {
      WinTailRefines(s, t);
    } else if WinsHead(s, t) {
      WinHeadRefines(s, t);
    } else {
      OtherStep(s, t, s');
      RefusedRefines(s, t);
    }
  }

  /** Every interleaving is a history of a FIFO queue of capacity n, and what a get takes off the queue is
      what its caller is later given. */
  lemma Linearizable<T(!new)>(run: seq<State<T>>, turns: seq<Tid>, i: nat, j: nat)
    requires IsRun(Init, Moves, run, turns) && i < |turns| && i < j < |run|
    ensures Inv(run[0]) && Queue(run[0]) == [] && Inv(run[i]) && Inv(run[i + 1])
    ensures FifoStep(run[i].n, Queue(run[i]), EventOf(run[i], turns[i]), Queue(run[i + 1]),
                     run[i].reader != map[], run[i].writer != map[])
    ensures EventOf(run[i], turns[i]).Got? && run[i].head in run[j].returned ==>
      run[j].returned[run[i].head] == EventOf(run[i], turns[i]).item
  {
    RunInv(run, turns, 0);
    RunInv(run, turns, i);
    RunInv(run, turns, j);
    assert StepAt(Moves, run, turns, i);
    StepRefines(run[i], turns[i], run[i + 1]);
    RunExtends(run, turns, i, j);
  }

  lemma EnqueuerMovesAlone<T>(s: State<T>, u: Tid, l: Local<T>, t: Tid)
    requires s.n > 0 && |s.cells| == s.n && InEnqueue(l) && t != u && t in s.threads
    ensures var s' := AdvanceEnqueue(s, u, l); t in s'.threads && s'.threads[t] == s.threads[t]
  {
  }

  lemma DequeuerMovesAlone<T>(s: State<T>, u: Tid, l: Local<T>, t: Tid)
    requires s.n > 0 && |s.cells| == s.n && !InEnqueue(l) && t != u && t in s.threads
    ensures var s' := AdvanceDequeue(s, u, l); t in s'.threads && s'.threads[t] == s.threads[t]
  {
  }

  lemma OwnThreadOnly<T(!new)>(s: State<T>, u: Tid, s': State<T>, t: Tid)
    requires s.n > 0 && |s.cells| == s.n && StepBy(s, u, s') && t != u && t in s.threads
    ensures t in s'.threads && s'.threads[t] == s.threads[t]
  {
    if u in s.threads {
      if InEnqueue(s.threads[u]) {
        EnqueuerMovesAlone(s, u, s.threads[u], t);
      } else {
        DequeuerMovesAlone(s, u, s.threads[u], t);
      }
    }
  }

  lemma OwnCellOnly<T(!new)>(s: State<T>, u: Tid, l: Local<T>)
    requires s.n > 0 && |s.cells| == s.n && u in s.threads && l == s.threads[u]
    ensures Advance(s, u).n == s.n
    ensures var cells := Advance(s, u).cells;
      && |cells| == s.n
      && if l.EnqWon? || l.EnqWrote? || l.DeqRead? then cells == Stored(s, l.pos, cells[Rem(l.pos, s.n)]) else cells == s.cells
  {
  }

  /** A step moves its own thread only, and writes at most the one cell its thread holds. */
  lemma StepFootprint<T(!new)>(s: State<T>, u: Tid, s': State<T>)
    requires s.n > 0 && |s.cells| == s.n && StepBy(s, u, s')
    ensures s'.n == s.n && |s'.cells| == s.n
    ensures forall t :: t != u && t in s.threads ==> t in s'.threads && s'.threads[t] == s.threads[t]
    ensures s'.cells == s.cells ||
            exists p: nat, c :: Holds(s, u, p) && s'.cells == Stored(s, p, c)
  {
    forall t | t != u && t in s.threads ensures t in s'.threads && s'.threads[t] == s.threads[t] {
      OwnThreadOnly(s, u, s', t);
    }
    if u in s.threads {
      var l := s.threads[u];
      OwnCellOnly(s, u, l);
      if l.EnqWon? || l.EnqWrote? || l.DeqRead? { assert Holds(s, u, l.pos); }
    }
  }

  /** From a winning swap to the matching sequence store no other thread touches the cell: the cell
      and the hold survive every step of another thread, and such a step reads the data of another cell. */
  lemma HeldCellIsPrivate<T(!new)>(s: State<T>, t: Tid, p: nat, u: Tid, s': State<T>)
    requires Inv(s) && Holds(s, t, p) && u != t && StepBy(s, u, s')
    ensures s'.n == s.n && |s'.cells| == s.n && At(s', p) == At(s, p) && Holds(s', t, p)
    ensures u in s.threads && s.threads[u].DeqWon? ==> Rem(s.threads[u].pos, s.n) != Rem(p, s.n)
  {
    StepFootprint(s, u, s');
    if s'.cells != s.cells {
      var q: nat, c :| Holds(s, u, q) && s'.cells == Stored(s, q, c);
      HoldersDiffer(s, t, p, u, q);
    }
    if u in s.threads && s.threads[u].DeqWon? { HoldersDiffer(s, t, p, u, s.threads[u].pos); }
  }

  /** A loop goes round no more often than other threads' operations succeeded since it began. */
  lemma RetriesBounded<T(!new)>(run: seq<State<T>>, turns: seq<Tid>, i: nat, t: Tid)
    requires IsRun(Init, Moves, run, turns) && i < |run| && t in run[i].threads
    ensures var l := run[i].threads[t];
      && (l.EnqStart? || l.EnqTail? || l.EnqSeq? ==> l.retries <= run[i].tail - l.base)
      && (l.DeqStart? || l.DeqHead? || l.DeqSeq? ==> l.retries <= run[i].head - l.base)
  {
    RunInv(run, turns, i);
    assert ThreadOk(run[i], t);
  }

  /** `Enqueue` reports full exactly on the sequence number it loads here: it is behind the position
      only if that position is the current tail and its cell still belongs to the lap before, either
      unread (the queue is full) or being read. */
  lemma FullMeansHeld<T>(s: State<T>, t: Tid)
    requires Inv(s) && t in s.threads && s.threads[t].EnqTail?
    ensures At(s, s.threads[t].pos).sequence < s.threads[t].pos <==>
            s.threads[t].pos == s.tail && (s.tail == s.head + s.n || (s.tail >= s.n && s.tail - s.n in s.reader))
  {
    var p := s.threads[t].pos;
    assert ThreadOk(s, t);
    if p < s.head {
      PastSequence(s, p);
    } else if p < s.head + s.n {
      assert CellOk(s, p);
    } else {
      assert CellOk(s, s.head) && Rem(s.head + s.n, s.n) == Rem(s.head, s.n);
    }
  }

  /** `Dequeue` reports empty exactly when the position it loads here is the current head and is not
      published: nobody has enqueued there, or its enqueue is not finished. */
  lemma EmptyMeansUnpublished<T>(s: State<T>, t: Tid)
    requires Inv(s) && t in s.threads && s.threads[t].DeqHead?
    ensures At(s, s.threads[t].pos).sequence < s.threads[t].pos + 1 <==>
            s.threads[t].pos == s.head && (s.head == s.tail || s.head in s.writer)
  {
    var p := s.threads[t].pos;
    assert ThreadOk(s, t);
    if p < s.head { PastSequence(s, p); } else { assert CellOk(s, p); }
  }

  /** A call gives up exactly on such a number: with any other it wins, or goes round again. */
  lemma GivesUpIffBehind<T>(s: State<T>, t: Tid)
    requires Shape(s) && t in s.threads
    ensures s.threads[t].EnqSeq? ==> (t !in Advance(s, t).threads <==> s.threads[t].seen < s.threads[t].pos)
    ensures s.threads[t].DeqSeq? ==> (t !in Advance(s, t).threads <==> s.threads[t].seen < s.threads[t].pos + 1)
  {
  }

  /** With nobody else inside an operation, refusals mean exactly n items and exactly none. */
  lemma LoneRefusals<T>(s: State<T>, t: Tid)
    requires Inv(s) && s.threads.Keys == {t}
    ensures s.threads[t].EnqTail? && s.threads[t].pos == s.tail ==>
              (At(s, s.tail).sequence < s.tail <==> s.tail - s.head == s.n)
    ensures s.threads[t].DeqHead? && s.threads[t].pos == s.head ==>
              (At(s, s.head).sequence < s.head + 1 <==> s.tail - s.head == 0)
  {
    if s.threads[t].EnqTail? { FullMeansHeld(s, t); }
    if s.threads[t].DeqHead? { EmptyMeansUnpublished(s, t); }
  }
}
