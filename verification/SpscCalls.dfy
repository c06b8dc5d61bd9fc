/** Whole calls of the ring of internal/concurrency/ring.go, from their first step to their answer: each is one
    operation of the bounded queue, at one instant inside the call. */
module SpscCalls {
  import opened Runs
  import opened Spsc

  /** The queue operations of the producer's steps from j to k - 1, or of the consumer's. */
  ghost function Events<T>(run: seq<State<T>>, acts: seq<Action<T>>, j: nat, k: nat, side: Action<T>): seq<Event<T>>
    requires |run| == |acts| + 1 && j <= k <= |acts|
    decreases k
  {
    if j == k then [] else
    var e := EventOf(run[k - 1], acts[k - 1]);
    Events(run, acts, j, k - 1, side) + (if acts[k - 1] == side && !e.Silent? then [e] else [])
  }

  // ---- Enqueue ---------------------------------------------------------------------------------------

  /** What an Enqueue of x has done when the producer stands at p. */
  ghost predicate EnqueueDone<T>(p: Producer<T>, x: T, events: seq<Event<T>>) {
    match p
    case PIdle => false
    case PStart(y) => y == x && events == []
    case PHead(y, _, full) => y == x && events == (if full then [RefusedPut] else [])
    case PBoth(y, _, _, full) => y == x && events == (if full then [RefusedPut] else [])
    case PWrote(y, _) => y == x && events == []
  }

  lemma EnqueueGoesOn<T>(s: State<T>, x: T, events: seq<Event<T>>)
    requires Inv(s) && EnqueueDone(s.prod, x, events)
    ensures var e, s' := EventOf(s, Produce), ProduceStep(s);
      var events' := events + (if e.Silent? then [] else [e]);
      if s'.prod.PIdle? then events' == [if s.prod.PWrote? then Put(x) else RefusedPut] else EnqueueDone(s'.prod, x, events')
  {
  }

  /** The Enqueue that began at step j is still going on in state k. */
  ghost predicate InEnqueue<T>(run: seq<State<T>>, acts: seq<Action<T>>, j: nat, k: nat) {
    && |run| == |acts| + 1 && j < k < |run| && acts[j].CallEnqueue?
    && forall i :: j < i <= k ==> !run[i].prod.PIdle?
  }

  lemma {:induction false} EnqueueSoFar<T(!new)>(run: seq<State<T>>, acts: seq<Action<T>>, j: nat, k: nat)
    requires IsRun(Init, Moves, run, acts) && InEnqueue(run, acts, j, k)
    ensures EnqueueDone(run[k].prod, acts[j].item, Events(run, acts, j + 1, k, Produce))
    decreases k
  {
    assert StepAt(Moves, run, acts, k - 1);
    if k > j + 1 {
      EnqueueSoFar(run, acts, j, k - 1);
      RunInv(run, acts, k - 1);
      if acts[k - 1] == Produce {
        EnqueueGoesOn(run[k - 1], acts[j].item, Events(run, acts, j + 1, k - 1, Produce));
      }
    }
  }

  /** An Enqueue that returns at step k is one operation of the queue: if it stored its item, the put of that very
      item, and else a refused put. */
  lemma EnqueueIsOneEvent<T(!new)>(run: seq<State<T>>, acts: seq<Action<T>>, j: nat, k: nat)
    requires IsRun(Init, Moves, run, acts) && InEnqueue(run, acts, j, k) && k < |acts| && run[k + 1].prod.PIdle?
    ensures Events(run, acts, j + 1, k + 1, Produce) == [if run[k].prod.PWrote? then Put(acts[j].item) else RefusedPut]
  {
    EnqueueSoFar(run, acts, j, k);
    RunInv(run, acts, k);
    assert StepAt(Moves, run, acts, k);
    EnqueueGoesOn(run[k], acts[j].item, Events(run, acts, j + 1, k, Produce));
  }

  // ---- Dequeue ---------------------------------------------------------------------------------------

  ghost predicate DequeueDone<T>(c: Consumer<T>, events: seq<Event<T>>) {
    match c
    case CIdle => false
    case CStart => events == []
    case CHead(_) => events == []
    case CBoth(_, _, none) => events == (if none then [RefusedGet] else [])
    case CRead(_, _) => events == []
  }

  lemma DequeueGoesOn<T>(s: State<T>, events: seq<Event<T>>)
    requires Inv(s) && DequeueDone(s.cons, events)
    ensures var e, s' := EventOf(s, Consume), ConsumeStep(s);
      var events' := events + (if e.Silent? then [] else [e]);
      if s'.cons.CIdle? then events' == [if s.cons.CRead? then Got(s.cons.item) else RefusedGet] else DequeueDone(s'.cons, events')
  {
  }

  ghost predicate InDequeue<T>(run: seq<State<T>>, acts: seq<Action<T>>, j: nat, k: nat) {
    && |run| == |acts| + 1 && j < k < |run| && acts[j].CallDequeue?
    && forall i :: j < i <= k ==> !run[i].cons.CIdle?
  }

  lemma {:induction false} DequeueSoFar<T(!new)>(run: seq<State<T>>, acts: seq<Action<T>>, j: nat, k: nat)
    requires IsRun(Init, Moves, run, acts) && InDequeue(run, acts, j, k)
    ensures DequeueDone(run[k].cons, Events(run, acts, j + 1, k, Consume))
    decreases k
  {
    assert StepAt(Moves, run, acts, k - 1);
    if k > j + 1 {
      DequeueSoFar(run, acts, j, k - 1);
      RunInv(run, acts, k - 1);
      if acts[k - 1] == Consume {
        DequeueGoesOn(run[k - 1], Events(run, acts, j + 1, k - 1, Consume));
      }
    }
  }

  /** A Dequeue that returns at step k is one operation of the queue: if it returns an item, the get of that item,
      and else a refused get. */
  lemma DequeueIsOneEvent<T(!new)>(run: seq<State<T>>, acts: seq<Action<T>>, j: nat, k: nat)
    requires IsRun(Init, Moves, run, acts) && InDequeue(run, acts, j, k) && k < |acts| && run[k + 1].cons.CIdle?
    ensures Events(run, acts, j + 1, k + 1, Consume) == [if run[k].cons.CRead? then Got(run[k].cons.item) else RefusedGet]
  {
    DequeueSoFar(run, acts, j, k);
    RunInv(run, acts, k);
    assert StepAt(Moves, run, acts, k);
    DequeueGoesOn(run[k], Events(run, acts, j + 1, k, Consume));
  }
}
