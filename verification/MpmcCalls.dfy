/** Whole calls of the queue of core/concurrency/lock_free_queue.go, from their first step to their answer: each
    is one operation of the bounded queue, at one instant inside the call. */
module MpmcCalls {
  import opened Mpmc
  import opened Options
  import opened Runs

  /** A call and what it returns. */
  datatype Call<T> = Enqueue(val: T) | Dequeue

  datatype Answer<T> = Stored(ok: bool) | Taken(item: Option<T>)

  /** The call whose first step this is. */
  ghost predicate Begins<T>(s: State<T>, t: Tid, s': State<T>, call: Call<T>) {
    && t !in s.threads && t in s'.threads
    && match call
       case Enqueue(v) => s'.threads[t].EnqStart? && s'.threads[t].val == v
       case Dequeue => s'.threads[t].DeqStart?
  }

  /** What a thread that is about to leave from here returns. */
  function AnswerAt<T>(l: Local<T>): Answer<T> {
    match l
    case EnqWrote(_) => Stored(true)
    case DeqRead(_, x) => Taken(Some(x))
    case _ => if InEnqueue(l) then Stored(false) else Taken(None)
  }

  /** Thread t is inside one call from state j + 1 to state k. */
  ghost predicate Inside<T(!new)>(run: seq<State<T>>, turns: seq<Tid>, j: nat, k: nat, t: Tid, call: Call<T>) {
    && |run| == |turns| + 1 && j < k < |run| && turns[j] == t && Begins(run[j], t, run[j + 1], call)
    && forall i :: j < i <= k ==> t in run[i].threads
  }

  /** The operations of the bounded queue that t's steps from j to k - 1 stand for. */
  ghost function Events<T(!new)>(run: seq<State<T>>, turns: seq<Tid>, j: nat, k: nat, t: Tid): seq<Event<T>>
    requires |run| == |turns| + 1 && j <= k < |run| && forall i :: j <= i < k ==> Shape(run[i])
    decreases k
  {
    if j == k then [] else
    var e := EventOf(run[k - 1], turns[k - 1]);
    Events(run, turns, j, k - 1, t) + (if turns[k - 1] == t && !e.Silent? then [e] else [])
  }

  /** What a call has done when its thread stands at l. */
  ghost predicate Done<T>(l: Local<T>, call: Call<T>, enqueued: seq<T>, events: seq<Event<T>>) {
    match l
    case EnqStart(v, _, _) => call == Enqueue(v) && events == []
    case EnqTail(v, _, _, _) => call == Enqueue(v) && events == []
    case EnqSeq(v, _, _, p, seen) => call == Enqueue(v) && events == (if seen < p then [RefusedPut] else [])
    case EnqWon(v, _) => call == Enqueue(v) && events == [Event.Put(v)]
    case EnqWrote(_) => call.Enqueue? && events == [Event.Put(call.val)]
    case DeqStart(_, _) => call == Dequeue && events == []
    case DeqHead(_, _, _) => call == Dequeue && events == []
    case DeqSeq(_, _, p, seen) => call == Dequeue && events == (if seen < p + 1 then [RefusedGet] else [])
    case DeqWon(p) => call == Dequeue && p < |enqueued| && events == [Got(enqueued[p])]
    case DeqRead(p, x) => call == Dequeue && events == [Got(x)]
  }

  /** The one operation a finished call stands for. */
  function Meaning<T>(call: Call<T>, answer: Answer<T>): Option<Event<T>> {
    match answer
    case Stored(ok) => if !call.Enqueue? then None else if ok then Some(Event.Put(call.val)) else Some(RefusedPut)
    case Taken(item) => if !call.Dequeue? then None else if item.Some? then Some(Got(item.value)) else Some(RefusedGet)
  }

  lemma EnqueueDoes<T(!new)>(s: State<T>, t: Tid, call: Call<T>, events: seq<Event<T>>)
    requires Shape(s) && t in s.threads && InEnqueue(s.threads[t]) && Done(s.threads[t], call, s.enqueued, events)
    ensures var e, s' := EventOf(s, t), AdvanceEnqueue(s, t, s.threads[t]);
      var events' := events + (if e.Silent? then [] else [e]);
      if t in s'.threads then Done(s'.threads[t], call, s'.enqueued, events')
      else |events'| == 1 && Meaning(call, AnswerAt(s.threads[t])) == Some(events'[0])
  {
    var l := s.threads[t];
    if l.EnqSeq? {
      SwapDoes(s, t, call, events);
    } else if !l.EnqTail? {
      assert events + [] == events;
    }
  }

  lemma SwapDoes<T(!new)>(s: State<T>, t: Tid, call: Call<T>, events: seq<Event<T>>)
    requires Shape(s) && t in s.threads && s.threads[t].EnqSeq? && Done(s.threads[t], call, s.enqueued, events)
    ensures var e, s' := EventOf(s, t), AdvanceEnqueue(s, t, s.threads[t]);
      var events' := events + (if e.Silent? then [] else [e]);
      if t in s'.threads then Done(s'.threads[t], call, s'.enqueued, events')
      else |events'| == 1 && Meaning(call, AnswerAt(s.threads[t])) == Some(events'[0])
  {
  }

  lemma DequeueDoes<T(!new)>(s: State<T>, t: Tid, call: Call<T>, events: seq<Event<T>>)
    requires Inv(s) && t in s.threads && !InEnqueue(s.threads[t]) && Done(s.threads[t], call, s.enqueued, events)
    ensures var e, s' := EventOf(s, t), AdvanceDequeue(s, t, s.threads[t]);
      var events' := events + (if e.Silent? then [] else [e]);
      if t in s'.threads then Done(s'.threads[t], call, s'.enqueued, events')
      else |events'| == 1 && Meaning(call, AnswerAt(s.threads[t])) == Some(events'[0])
  {
    assert ThreadOk(s, t);
    if s.threads[t].DeqWon? { ReadData(s, t); }
    if WinsHead(s, t) { WinHeadPublished(s, t); }
  }

  lemma OwnStep<T(!new)>(s: State<T>, t: Tid, call: Call<T>, events: seq<Event<T>>)
    requires Inv(s) && t in s.threads && Done(s.threads[t], call, s.enqueued, events)
    ensures var e, s' := EventOf(s, t), Advance(s, t);
      var events' := events + (if e.Silent? then [] else [e]);
      if t in s'.threads then Done(s'.threads[t], call, s'.enqueued, events')
      else |events'| == 1 && Meaning(call, AnswerAt(s.threads[t])) == Some(events'[0])
  {
    if InEnqueue(s.threads[t]) { EnqueueDoes(s, t, call, events); } else { DequeueDoes(s, t, call, events); }
  }

  lemma OthersStep<T(!new)>(s: State<T>, u: Tid, s': State<T>, t: Tid, call: Call<T>, events: seq<Event<T>>)
    requires Inv(s) && StepBy(s, u, s') && t != u && t in s.threads && Done(s.threads[t], call, s.enqueued, events)
    ensures t in s'.threads && Done(s'.threads[t], call, s'.enqueued, events)
  {
    OwnThreadOnly(s, u, s', t);
    StepExtends(s, u, s');
  }

  lemma OneMore<T(!new)>(s: State<T>, u: Tid, s': State<T>, t: Tid, call: Call<T>, events: seq<Event<T>>)
    requires Inv(s) && StepBy(s, u, s') && t in s.threads && t in s'.threads && Done(s.threads[t], call, s.enqueued, events)
    ensures var e := EventOf(s, u);
      Done(s'.threads[t], call, s'.enqueued, events + (if u == t && !e.Silent? then [e] else []))
  {
    if u == t {
      OwnStep(s, t, call, events);
    } else {
      OthersStep(s, u, s', t, call, events);
      assert events + [] == events;
    }
  }

  lemma {:induction false} SoFar<T(!new)>(run: seq<State<T>>, turns: seq<Tid>, j: nat, k: nat, t: Tid, call: Call<T>)
    requires IsRun(Init, Moves, run, turns) && Inside(run, turns, j, k, t, call)
    ensures forall i :: j < i <= k ==> Shape(run[i])
    ensures Done(run[k].threads[t], call, run[k].enqueued, Events(run, turns, j + 1, k, t))
    decreases k
  {
    forall i | j < i <= k ensures Shape(run[i]) { RunInv(run, turns, i); }
    if k > j + 1 {
      SoFar(run, turns, j, k - 1, t, call);
      RunInv(run, turns, k - 1);
      assert StepAt(Moves, run, turns, k - 1);
      OneMore(run[k - 1], turns[k - 1], run[k], t, call, Events(run, turns, j + 1, k - 1, t));
    }
  }

  /** In every interleaving, a call that began at step j and ends at step k is exactly one operation of the
      bounded queue, at one of its own steps in between: an Enqueue that reports true is the put of the very
      value it was called with and one that reports full is a refused put; a Dequeue that returns an item is the
      get of that item and one that reports empty is a refused get. */
  lemma OneEventPerCall<T(!new)>(run: seq<State<T>>, turns: seq<Tid>, j: nat, k: nat, t: Tid, call: Call<T>)
    requires IsRun(Init, Moves, run, turns) && Inside(run, turns, j, k, t, call)
    requires k < |turns| && turns[k] == t && t !in run[k + 1].threads
    ensures forall i :: j < i <= k ==> Shape(run[i])
    ensures var events := Events(run, turns, j + 1, k + 1, t);
      |events| == 1 && Meaning(call, AnswerAt(run[k].threads[t])) == Some(events[0])
  {
    SoFar(run, turns, j, k, t, call);
    RunInv(run, turns, k);
    assert StepAt(Moves, run, turns, k);
    OwnStep(run[k], t, call, Events(run, turns, j + 1, k, t));
  }
}
