/** The single-producer single-consumer ring of internal/concurrency/ring.go, one transition per
    counter load, data access and counter store, with the counters each side reads possibly stale.  Counters
    are unbounded here; SpscWords has them in words. */
module Spsc {
  import opened Bits
  import opened Runs

  /** The producer inside Enqueue.  `full` records whether the queue was full at the load of head. */
  datatype Producer<T> =
    | PIdle
    | PStart(item: T)
    | PHead(item: T, h: nat, full: bool)
    | PBoth(item: T, h: nat, t: nat, full: bool)
    | PWrote(item: T, t: nat)

  /** The consumer inside Dequeue.  `none` records whether the queue was empty at the load of tail. */
  datatype Consumer<T> =
    | CIdle
    | CStart
    | CHead(h: nat)
    | CBoth(h: nat, t: nat, none: bool)
    | CRead(h: nat, item: T)

  /** `put` and `got` are the items published and returned so far. */
  datatype State<T> = State(
    n: nat, head: nat, tail: nat, data: seq<T>, prod: Producer<T>, cons: Consumer<T>, put: seq<T>, got: seq<T>)

  datatype Action<T> = CallEnqueue(item: T) | Produce | CallDequeue | Consume

  /** What a step means to a bounded queue; a refusal takes effect at the load that causes it. */
  datatype Event<T> = Silent | Put(item: T) | RefusedPut | Got(item: T) | RefusedGet

  ghost predicate Init<T>(s: State<T>) {
    && s.n >= 1 && s.head == 0 && s.tail == 0 && |s.data| == s.n && s.prod == PIdle && s.cons == CIdle
    && s.put == [] && s.got == []
  }

  predicate Enabled<T>(s: State<T>, a: Action<T>) {
    match a
    case CallEnqueue(_) => s.prod.PIdle?
    case Produce => !s.prod.PIdle?
    case CallDequeue => s.cons.CIdle?
    case Consume => !s.cons.CIdle?
  }

  function ProduceStep<T>(s: State<T>): State<T>
    requires s.n > 0 && |s.data| == s.n && !s.prod.PIdle?
  {
    match s.prod
    case PStart(x) => s.(prod := PHead(x, s.head, s.tail - s.head >= s.n))
    case PHead(x, h, full) => s.(prod := PBoth(x, h, s.tail, full))
    case PBoth(x, h, t, full) =>
      if t - h >= s.n then s.(prod := PIdle)
      else s.(data := s.data[Rem(t, s.n) := x], prod := PWrote(x, t))
    case PWrote(x, t) => s.(tail := t + 1, put := s.put + [x], prod := PIdle)
  }

  function ConsumeStep<T>(s: State<T>): State<T>
    requires s.n > 0 && |s.data| == s.n && !s.cons.CIdle?
  {
    match s.cons
    case CStart => s.(cons := CHead(s.head))
    case CHead(h) => s.(cons := CBoth(h, s.tail, s.head >= s.tail))
    case CBoth(h, t, none) =>
      if h >= t then s.(cons := CIdle)
      else s.(cons := CRead(h, s.data[Rem(h, s.n)]))
    case CRead(h, x) => s.(head := h + 1, got := s.got + [x], cons := CIdle)
  }

  function Next<T>(s: State<T>, a: Action<T>): State<T>
    requires s.n > 0 && |s.data| == s.n && Enabled(s, a)
  {
    match a
    case CallEnqueue(x) => s.(prod := PStart(x))
    case Produce => ProduceStep(s)
    case CallDequeue => s.(cons := CStart)
    case Consume => ConsumeStep(s)
  }

  function EventOf<T>(s: State<T>, a: Action<T>): Event<T> {
    if a == Produce && s.prod.PStart? && s.tail - s.head >= s.n then RefusedPut
    else if a == Produce && s.prod.PWrote? then Put(s.prod.item)
    else if a == Consume && s.cons.CHead? && s.head >= s.tail then RefusedGet
    else if a == Consume && s.cons.CRead? then Got(s.cons.item)
    else Silent
  }

  /** The specification: a FIFO queue of capacity n. */
  ghost predicate FifoStep<T>(n: nat, q: seq<T>, e: Event<T>, q': seq<T>) {
    match e
    case Silent => q' == q
    case Put(x) => |q| < n && q' == q + [x]
    case RefusedPut => |q| == n && q' == q
    case Got(x) => q != [] && x == q[0] && q' == q[1..]
    case RefusedGet => q == [] && q' == q
  }

  ghost predicate Inv<T>(s: State<T>) {
    && s.n >= 1 && |s.data| == s.n && s.head <= s.tail <= s.head + s.n
    && |s.put| == s.tail && |s.got| == s.head && s.got <= s.put
    && (forall p: nat :: s.head <= p < s.tail ==> s.data[Rem(p, s.n)] == s.put[p])
    && (match s.prod
        case PIdle => true
        case PStart(_) => true
        case PHead(x, h, full) => h <= s.head && s.tail <= h + s.n && full == (s.tail - h >= s.n)
        case PBoth(x, h, t, full) => h <= s.head && t == s.tail <= h + s.n && full == (t - h >= s.n)
        case PWrote(x, t) => t == s.tail < s.head + s.n && s.data[Rem(t, s.n)] == x)
    && (match s.cons
        case CIdle => true
        case CStart => true
        case CHead(h) => h == s.head
        case CBoth(h, t, none) => h == s.head && h <= t <= s.tail && none == (h >= t)
        case CRead(h, x) => h == s.head < s.tail && x == s.put[h])
  }

  ghost function Queue<T>(s: State<T>): seq<T>
    requires Inv(s)
  {
    s.put[s.head..s.tail]
  }

  lemma ProduceRefines<T>(s: State<T>)
    requires Inv(s) && !s.prod.PIdle?
    ensures var s' := ProduceStep(s); Inv(s') && FifoStep(s.n, Queue(s), EventOf(s, Produce), Queue(s'))
  {
    if s.prod.PBoth? && !s.prod.full {
      forall p: nat | s.head <= p < s.tail ensures Rem(p, s.n) != Rem(s.tail, s.n) { RemDiffer(p, s.tail, s.n); }
    }
  }

  lemma ConsumeRefines<T>(s: State<T>)
    requires Inv(s) && !s.cons.CIdle?
    ensures var s' := ConsumeStep(s); Inv(s') && FifoStep(s.n, Queue(s), EventOf(s, Consume), Queue(s'))
  {
  }

  lemma StepRefines<T>(s: State<T>, a: Action<T>)
    requires Inv(s) && Enabled(s, a)
    ensures Inv(Next(s, a)) && FifoStep(s.n, Queue(s), EventOf(s, a), Queue(Next(s, a)))
  {
    match a
    case CallEnqueue(_) =>
    case Produce => ProduceRefines(s);
    case CallDequeue =>
    case Consume => ConsumeRefines(s);
  }

  /** A call answers "full" or "empty" exactly if the queue was so at the load it is decided by. */
  lemma RefusalsAreHonest<T>(s: State<T>)
    requires Inv(s)
    ensures s.prod.PBoth? ==> (ProduceStep(s).prod.PIdle? <==> s.prod.full)
    ensures s.cons.CBoth? ==> (ConsumeStep(s).cons.CIdle? <==> s.cons.none)
  {
  }

  // ---- runs ----------------------------------------------------------------------------------

  ghost predicate Moves<T>(s: State<T>, a: Action<T>, s': State<T>) {
    s.n > 0 && |s.data| == s.n && Enabled(s, a) && s' == Next(s, a)
  }

  lemma RunInv<T(!new)>(run: seq<State<T>>, acts: seq<Action<T>>, i: nat)
    requires IsRun(Init, Moves, run, acts) && i < |run|
    ensures Inv(run[i]) && run[i].n == run[0].n
  {
    var inv := (s: State<T>) => Inv(s) && s.n == run[0].n;
    var init := (s: State<T>) => s == run[0];
    forall s, a, s' | inv(s) && Moves(s, a, s') ensures inv(s') { StepRefines(s, a); }
    Invariant(init, Moves, inv, run, acts, i);
  }

  /** Every interleaving is linearizable to a bounded FIFO queue: each step is one operation of the queue
      or none, at an instant inside the call it belongs to, and what was returned is a prefix of what was
      published. */
  lemma Linearizable<T(!new)>(run: seq<State<T>>, acts: seq<Action<T>>, i: nat)
    requires IsRun(Init, Moves, run, acts) && i < |run|
    ensures Inv(run[i]) && run[i].n == run[0].n && Queue(run[0]) == [] && run[i].got <= run[i].put
    ensures i > 0 ==> Inv(run[i - 1]) && FifoStep(run[0].n, Queue(run[i - 1]), EventOf(run[i - 1], acts[i - 1]), Queue(run[i]))
  {
    RunInv(run, acts, i);
    if i > 0 {
      RunInv(run, acts, i - 1);
      assert StepAt(Moves, run, acts, i - 1);
      StepRefines(run[i - 1], acts[i - 1]);
    }
  }
}
