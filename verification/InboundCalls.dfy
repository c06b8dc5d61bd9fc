/** Whole calls of enqueueIncoming of highlevel/conn.go in every run of Inbound, why a buffer is released or dropped,
    and who can be made to wait. */
module InboundCalls {
  import opened Buffers
  import opened Inbound
  import opened Runs

  // ---- enqueueIncoming ---------------------------------------------------------------------------------

  /** The call with the buffer x that t began at step j is still going on in state k. */
  ghost predicate Enqueueing(states: seq<State>, actions: seq<Action>, j: nat, k: nat, t: Tid, x: Buffer) {
    && |states| == |actions| + 1 && j < k < |states| && actions[j] == Begin(t, x)
    && forall i :: j < i <= k ==> t in states[i].box.producers
  }

  /** At a step between j and k incoming was full. */
  ghost predicate WasFull(states: seq<State>, j: nat, k: nat) {
    exists i: nat :: j < i < k && k < |states| && |states[i].box.incoming| >= states[i].cap
  }

  ghost predicate SoFar(states: seq<State>, j: nat, k: nat, t: Tid, x: Buffer)
    requires k < |states| && t in states[k].box.producers
  {
    var s := states[k];
    match s.box.producers[t]
    case PTry(y) => y == x
    case PStart(y) => y == x && s.queued && WasFull(states, j, k)
    case PSpill(y) => y == x && s.queued && WasFull(states, j, k) && !s.box.worker.WNone?
  }

  lemma OthersLeave(s: State, a: Action, t: Tid)
    requires Enabled(s, a) && t in s.box.producers && !(a.ProducerStep? && a.t == t)
    ensures var s' := Next(s, a);
      && t in s'.box.producers && s'.box.producers[t] == s.box.producers[t]
      && s'.queued == s.queued && (s'.box.worker.WNone? ==> s.box.worker.WNone?)
  {
  }

  lemma FullStays(states: seq<State>, j: nat, k: nat)
    requires WasFull(states, j, k) && k + 1 < |states|
    ensures WasFull(states, j, k + 1)
  {
  }

  lemma GoesOn(states: seq<State>, j: nat, k: nat, t: Tid, x: Buffer, onDone: bool)
    requires j < k && k + 1 < |states| && Enabled(states[k], ProducerStep(t, onDone)) && SoFar(states, j, k, t, x)
    requires states[k + 1] == Next(states[k], ProducerStep(t, onDone)) && t in states[k + 1].box.producers
    ensures SoFar(states, j, k + 1, t, x)
  {
    if states[k].box.producers[t].PTry? {
      assert |states[k].box.incoming| >= states[k].cap;
    } else {
      FullStays(states, j, k);
    }
  }

  lemma {:induction false} Follows(states: seq<State>, actions: seq<Action>, j: nat, k: nat, t: Tid, x: Buffer)
    requires IsRun(Init, Moves, states, actions) && Enqueueing(states, actions, j, k, t, x)
    ensures SoFar(states, j, k, t, x)
    decreases k
  {
    assert StepAt(Moves, states, actions, k - 1);
    if k > j + 1 {
      Follows(states, actions, j, k - 1, t, x);
      var a := actions[k - 1];
      if a.ProducerStep? && a.t == t {
        GoesOn(states, j, k - 1, t, x, a.onDone);
      } else {
        OthersLeave(states[k - 1], a, t);
        if !states[k].box.producers[t].PTry? { FullStays(states, j, k - 1); }
      }
    }
  }

  /** A call of enqueueIncoming with x ends in exactly one of three ways: x is added at the end of incoming, which had
      room; or at the end of the overflow queue, which had room, with the worker started, after incoming had been
      full during the call; or it is released, because there is no queue or `done` is closed. */
  lemma EnqueueComesTo(states: seq<State>, actions: seq<Action>, j: nat, k: nat, t: Tid, x: Buffer)
    requires IsRun(Init, Moves, states, actions) && Enqueueing(states, actions, j, k, t, x)
    requires k < |actions| && t !in states[k + 1].box.producers
    ensures var s, b, b' := states[k], states[k].box, states[k + 1].box;
      || (s.queued && |b.incoming| < s.cap
          && b'.incoming == b.incoming + [x] && b'.overflow == b.overflow && b'.released == b.released)
      || (s.queued && (|b.overflow| < 2048 || |b.overflow| < 8 * s.cap) && !b'.worker.WNone? && WasFull(states, j, k)
          && b'.overflow == b.overflow + [x] && b'.incoming == b.incoming && b'.released == b.released)
      || ((!s.queued || s.done)
          && b'.released == b.released + {x.id} && b'.incoming == b.incoming && b'.overflow == b.overflow)
  {
    Follows(states, actions, j, k, t, x);
    assert StepAt(Moves, states, actions, k);
    var a := actions[k];
    if !(a.ProducerStep? && a.t == t) { OthersLeave(states[k], a, t); }
  }

  // ---- why a buffer is released or dropped -----------------------------------------------------------------

  /** The worker stops only when `done` is closed, Close ends by closing it, and nothing is released while the
      connection has a queue, is open and `done` is not closed. */
  ghost predicate Reasons(s: State) {
    && (s.box.worker.WDrain? || s.box.worker.WGone? ==> s.done)
    && (s.closer.CClosed? ==> s.done)
    && (s.queued && !s.done && s.closer.COpen? ==> s.box.released == {})
  }

  lemma ReasonsStep(s: State, a: Action)
    requires Reasons(s) && Enabled(s, a)
    ensures Reasons(Next(s, a))
  {
  }

  lemma {:induction false} RunReasons(states: seq<State>, actions: seq<Action>, k: nat)
    requires IsRun(Init, Moves, states, actions) && k < |states|
    ensures Reasons(states[k])
  {
    forall s, a, s' | Reasons(s) && Moves(s, a, s') ensures Reasons(s') { ReasonsStep(s, a); }
    Invariant(Init, Moves, Reasons, states, actions, k);
  }

  /** In every run, as long as a connection with a queue is open and its `done` not closed, every buffer that arrived
      is with its producer, in one of the queues, in the worker's hand, with a reader, or was without data. */
  lemma NothingIsReleasedWhileOpen(states: seq<State>, actions: seq<Action>, k: nat, id: nat)
    requires IsRun(Init, Moves, states, actions) && k < |states| && id in states[k].box.place
    requires states[k].queued && !states[k].done && states[k].closer.COpen?
    ensures var b := states[k].box;
      || (exists t :: At(b, id, With(t))) || At(b, id, Incoming) || At(b, id, Overflow) || At(b, id, Hand)
      || At(b, id, Delivered) || At(b, id, Dropped)
  {
    RunReasons(states, actions, k);
    EachBufferInOnePlace(states, actions, k, id);
    RunInv(states, actions, k);
    assert At(states[k].box, id, states[k].box.place[id]);
  }

  /** A buffer is taken out of incoming only from its front: delivered by a reader if it has data, released by Close
      if it has, and dropped by either if it has none. */
  lemma TakenFromTheFront(states: seq<State>, actions: seq<Action>, k: nat)
    requires IsRun(Init, Moves, states, actions) && k < |actions|
    ensures var s, s' := states[k], states[k + 1];
      if s'.received == s.received then s'.box.delivered == s.box.delivered && s'.box.dropped == s.box.dropped
      else s.box.incoming != [] && var x := s.box.incoming[0];
        && s'.box.incoming == s.box.incoming[1..] && s'.received == s.received + [x]
        && s'.box.delivered == s.box.delivered + (if actions[k].Read? && x.data.View? then [x.id] else [])
        && s'.box.dropped == s.box.dropped + (if x.data.Nil? then {x.id} else {})
        && s'.box.released == s.box.released + (if !actions[k].Read? && x.data.View? then {x.id} else {})
        && (!actions[k].Read? ==> s.closer.CDrain?)
  {
    assert StepAt(Moves, states, actions, k);
    TakeStep(states[k], actions[k]);
  }

  lemma TakeStep(s: State, a: Action)
    requires Enabled(s, a)
    ensures var s' := Next(s, a);
      if s'.received == s.received then s'.box.delivered == s.box.delivered && s'.box.dropped == s.box.dropped
      else s.box.incoming != [] && var x := s.box.incoming[0];
        && s'.box.incoming == s.box.incoming[1..] && s'.received == s.received + [x]
        && s'.box.delivered == s.box.delivered + (if a.Read? && x.data.View? then [x.id] else [])
        && s'.box.dropped == s.box.dropped + (if x.data.Nil? then {x.id} else {})
        && s'.box.released == s.box.released + (if !a.Read? && x.data.View? then {x.id} else {})
        && (!a.Read? ==> s.closer.CDrain?)
  {
  }

  /** Close leaves its drain only with incoming empty, and when it is through `done` is closed. */
  lemma CloseDrains(states: seq<State>, actions: seq<Action>, k: nat)
    requires IsRun(Init, Moves, states, actions) && k < |actions|
    ensures states[k].closer.CDrain? && !states[k + 1].closer.CDrain? ==>
      states[k + 1].closer.CUnderlying? && (states[k].queued ==> states[k].box.incoming == [])
    ensures states[k].closer.CClosed? ==> states[k].done
  {
    assert StepAt(Moves, states, actions, k);
    RunReasons(states, actions, k);
  }

  // ---- who can be made to wait ------------------------------------------------------------------------------

  /** A call of enqueueIncoming waits exactly at the spill, with the overflow queue full, which holds 2048 buffers or eight
      times what incoming holds, and `done` not closed. */
  lemma WaitsIff(s: State, t: Tid)
    requires t in s.box.producers
    ensures !(exists onDone :: Enabled(s, ProducerStep(t, onDone))) <==>
      s.box.producers[t].PSpill? && |s.box.overflow| >= 2048 && |s.box.overflow| >= 8 * s.cap && !s.done
  {
    assert s.done || !s.box.producers[t].PSpill? ==> Enabled(s, ProducerStep(t, true));
    assert |s.box.overflow| < SpillCap(s.cap) ==> Enabled(s, ProducerStep(t, false));
  }

  /** The worker waits exactly for a buffer, or for room in incoming, with `done` not closed. */
  lemma WorkerWaitsIff(s: State)
    requires !s.box.worker.WNone? && !s.box.worker.WGone?
    ensures !(exists onDone :: WorkerEnabled(s, onDone)) <==>
      !s.done && ((s.box.worker.WSelect? && s.box.overflow == []) || (s.box.worker.WHold? && |s.box.incoming| >= s.cap))
  {
    assert s.done ==> WorkerEnabled(s, true);
    assert s.box.worker.WDrain? || (s.box.worker.WSelect? && s.box.overflow != []) ==> WorkerEnabled(s, false);
    assert s.box.worker.WHold? && |s.box.incoming| < s.cap ==> WorkerEnabled(s, false);
  }
}
