/** Whole calls of SendFrame and Close of protocol/connection.go, from their first step to their return, in every
    interleaving of SendRace, and who of them can be made to wait. */
module SendCalls {
  import opened Runs
  import opened SendRace

  /** The goroutine whose call takes this step, or the send loop. */
  function Owner<T>(a: Action<T>): Who {
    match a
    case BeginSend(t, _) => ByCaller(t)
    case BeginClose(t) => ByCaller(t)
    case Call(t, _) => ByCaller(t)
    case HandOver(t, _) => ByCaller(t)
    case LoopStep(i, _, _) => ByLoop(i)
  }

  /** A call of t began at step j and t is still in it in state k. */
  ghost predicate Inside<T>(states: seq<State<T>>, actions: seq<Action<T>>, j: nat, k: nat, t: Tid) {
    && |states| == |actions| + 1 && j < k < |states|
    && (actions[j].BeginSend? || actions[j].BeginClose?) && actions[j].t == t
    && forall i :: j < i <= k ==> t in states[i].callers
  }

  /** Step k is the last of the call that t began at step j. */
  ghost predicate Ends<T>(states: seq<State<T>>, actions: seq<Action<T>>, j: nat, k: nat, t: Tid) {
    Inside(states, actions, j, k, t) && k < |actions| && t !in states[k + 1].callers
  }

  /** What is known of a call in progress that began with this action. */
  ghost predicate Follows<T>(s: State<T>, t: Tid, first: Action<T>) {
    && t in s.callers
    && (first.BeginSend? ==> InSend(s.callers[t]) && s.callers[t].f == first.f)
    && (first.BeginClose? ==> !InSend(s.callers[t]) && (!s.callers[t].CSwapClosed? ==> s.closed))
  }

  lemma CloseLeaves<T>(s: State<T>, u: Tid, c: Caller<T>)
    requires !InSend(c)
    ensures var s' := CloseStep(s, u, c);
      && (s.closed ==> s'.closed) && s'.loops == s.loops && s'.lost == s.lost && s'.accepted == s.accepted
      && (s'.callers == s.callers - {u} || (u in s'.callers && s'.callers == s.callers[u := s'.callers[u]]))
  {
  }

  lemma LoopLeaves<T>(s: State<T>, i: nat, fails: bool, written: nat)
    requires Enabled(s, LoopStep(i, fails, written))
    ensures var s' := LoopNext(s, i, fails, written); s'.callers == s.callers && (s.closed ==> s'.closed)
  {
    if Pumping(s.loops[i]) { PumpLeavesClose(s, i, s.loops[i], fails, written); }
  }

  lemma OthersLeave<T>(s: State<T>, a: Action<T>, t: Tid)
    requires Enabled(s, a) && t in s.callers && Owner(a) != ByCaller(t)
    ensures var s' := Next(s, a); t in s'.callers && s'.callers[t] == s.callers[t] && (s.closed ==> s'.closed)
  {
    match a
    case Call(u, useDone) =>
      if InSend(s.callers[u]) { SendLeavesClose(s, u, s.callers[u], useDone); } else { CloseLeaves(s, u, s.callers[u]); }
    case LoopStep(i, fails, written) => LoopLeaves(s, i, fails, written);
    case _ =>
  }

  lemma OwnFollows<T>(s: State<T>, a: Action<T>, t: Tid, first: Action<T>)
    requires Enabled(s, a) && Follows(s, t, first) && Owner(a) == ByCaller(t) && t in Next(s, a).callers
    requires (first.BeginSend? || first.BeginClose?) && first.t == t
    ensures Follows(Next(s, a), t, first)
  {
  }

  lemma {:induction false} CallFollows<T(!new)>(states: seq<State<T>>, actions: seq<Action<T>>, j: nat, k: nat, t: Tid)
    requires IsRun(Init, Moves, states, actions) && Inside(states, actions, j, k, t)
    ensures Follows(states[k], t, actions[j])
    decreases k
  {
    assert StepAt(Moves, states, actions, k - 1);
    if k > j + 1 {
      CallFollows(states, actions, j, k - 1, t);
      if Owner(actions[k - 1]) == ByCaller(t) {
        OwnFollows(states[k - 1], actions[k - 1], t, actions[j]);
      } else {
        OthersLeave(states[k - 1], actions[k - 1], t);
      }
    }
  }

  /** Before its last step a call queues nothing. */
  lemma EarlierStep<T>(s: State<T>, a: Action<T>, t: Tid)
    requires Enabled(s, a) && t in s.callers && Owner(a) == ByCaller(t) && t in Next(s, a).callers
    ensures Next(s, a).accepted == s.accepted && Next(s, a).outbox == s.outbox && Next(s, a).wire == s.wire
  {
  }

  lemma LastStep<T>(s: State<T>, a: Action<T>, t: Tid, f: T)
    requires Inv(s) && Enabled(s, a) && t in s.callers && InSend(s.callers[t]) && s.callers[t].f == f
    requires t !in Next(s, a).callers
    ensures Owner(a) == ByCaller(t) && Next(s, a).wire == s.wire
    ensures (Next(s, a).accepted == s.accepted + [f] && s.callers[t].SSelect?)
      || (s.closed && Next(s, a) == Return(s, t))
  {
    if Owner(a) != ByCaller(t) { OthersLeave(s, a, t); }
  }

  /** A SendFrame of the frame f that returns has, with its last step, put f and nothing else at the end of the
      accepted frames, and else the connection was closed and the call changed nothing; none of its steps before
      queues or writes anything. */
  lemma SendQueuesOrIsClosed<T(!new)>(states: seq<State<T>>, actions: seq<Action<T>>, j: nat, k: nat, t: Tid)
    requires IsRun(Init, Moves, states, actions) && Ends(states, actions, j, k, t) && actions[j].BeginSend?
    ensures Owner(actions[k]) == ByCaller(t)
    ensures states[k + 1].accepted == states[k].accepted + [actions[j].f]
      || (states[k].closed && states[k + 1] == Return(states[k], t))
    ensures forall i :: j < i < k && Owner(actions[i]) == ByCaller(t) ==>
      states[i + 1].accepted == states[i].accepted && states[i + 1].outbox == states[i].outbox
  {
    CallFollows(states, actions, j, k, t);
    RunInv(states, actions, k);
    assert StepAt(Moves, states, actions, k);
    LastStep(states[k], actions[k], t, actions[j].f);
    forall i | j < i < k && Owner(actions[i]) == ByCaller(t)
      ensures states[i + 1].accepted == states[i].accepted && states[i + 1].outbox == states[i].outbox
    {
      assert StepAt(Moves, states, actions, i);
      EarlierStep(states[i], actions[i], t);
    }
  }

  lemma LastOfClose<T>(s: State<T>, a: Action<T>, t: Tid)
    requires Enabled(s, a) && t in s.callers && !InSend(s.callers[t]) && t !in Next(s, a).callers
    requires !s.callers[t].CSwapClosed? ==> s.closed
    ensures Next(s, a).closed
  {
    if Owner(a) != ByCaller(t) { OthersLeave(s, a, t); }
  }

  lemma ClosedOnce<T>(s: State<T>)
    requires Inv(s) && s.closed && s.closer == Nobody
    ensures s.doneCloses == 1 && s.transportCloses == 1
  {
  }

  /** When a Close returns the connection is closed, and unless whoever won the flag is still at it, `done` and the
      transport have been closed, each once. */
  lemma CloseCloses<T(!new)>(states: seq<State<T>>, actions: seq<Action<T>>, j: nat, k: nat, t: Tid)
    requires IsRun(Init, Moves, states, actions) && Ends(states, actions, j, k, t) && actions[j].BeginClose?
    ensures var s := states[k + 1]; s.closed && (s.closer == Nobody ==> s.doneCloses == 1 && s.transportCloses == 1)
  {
    CallFollows(states, actions, j, k, t);
    assert StepAt(Moves, states, actions, k);
    LastOfClose(states[k], actions[k], t);
    if states[k + 1].closer == Nobody {
      RunInv(states, actions, k + 1);
      ClosedOnce(states[k + 1]);
    }
  }

  // ---- the loop's end --------------------------------------------------------------------------

  /** The loop stops only on a closed connection, and a frame is lost only on one that is closed or about to be. */
  ghost predicate EndsClosed<T>(s: State<T>) {
    && (forall i :: 0 <= i < |s.loops| && s.loops[i].LExited? ==> s.closed)
    && (s.lost != [] ==> s.closed || exists i :: 0 <= i < |s.loops| && s.loops[i].LSwapClosed?)
  }

  lemma EndsClosedLoop<T>(s: State<T>, i: nat, fails: bool, written: nat)
    requires Inv(s) && EndsClosed(s) && Enabled(s, LoopStep(i, fails, written))
    ensures EndsClosed(LoopNext(s, i, fails, written))
  {
    var s' := LoopNext(s, i, fails, written);
    assert i == 0 && |s'.loops| == 1;
    if s'.lost != [] && !s'.closed { assert s'.loops[0].LSwapClosed?; }
  }

  lemma EndsClosedCall<T>(s: State<T>, a: Action<T>)
    requires Inv(s) && EndsClosed(s) && Enabled(s, a) && !a.LoopStep?
    ensures EndsClosed(Next(s, a))
  {
    var s' := Next(s, a);
    CallKeepsLost(s, a);
    assert forall i :: 0 <= i < |s.loops| && (s.loops[i].LExited? || s.loops[i].LSwapClosed?) ==> s'.loops[i] == s.loops[i];
  }

  lemma CallKeepsLost<T>(s: State<T>, a: Action<T>)
    requires Enabled(s, a) && !a.LoopStep?
    ensures var s' := Next(s, a); s'.lost == s.lost && (s.closed ==> s'.closed)
    ensures var s' := Next(s, a);
      || s'.loops == s.loops || s'.loops == s.loops + [LReady]
      || (exists i: nat, b ::
          i < |s.loops| && !s.loops[i].LExited? && !s.loops[i].LSwapClosed? && s'.loops == s.loops[i := LTaking(b)])
  {
    match a
    case Call(u, useDone) =>
      if InSend(s.callers[u]) {
        SendLeavesClose(s, u, s.callers[u], useDone);
        assert SendStep(s, u, s.callers[u], useDone).lost == s.lost;
      } else {
        CloseLeaves(s, u, s.callers[u]);
      }
    case HandOver(u, i) => assert Next(s, a).loops == s.loops[i := LTaking(Batch(s.loops[i]) + [s.callers[u].f])];
    case _ =>
  }

  lemma RunEndsClosed<T(!new)>(states: seq<State<T>>, actions: seq<Action<T>>, k: nat)
    requires IsRun(Init, Moves, states, actions) && k < |states|
    ensures Inv(states[k]) && EndsClosed(states[k])
  {
    forall s: State<T>, a, s' | (Inv(s) && EndsClosed(s)) && Moves(s, a, s')
      ensures Inv(s') && EndsClosed(s')
    {
      StepInv(s, a);
      if a.LoopStep? { EndsClosedLoop(s, a.i, a.fails, a.written); } else { EndsClosedCall(s, a); }
    }
    Invariant(Init, Moves, s => Inv(s) && EndsClosed(s), states, actions, k);
  }

  lemma OneLoopAtMost<T>(s: State<T>, i: nat)
    requires Inv(s) && i < |s.loops|
    ensures |s.loops| == 1 && |Batch(s.loops[i])| <= 32
  {
  }

  lemma TakesAll<T>(s: State<T>, fails: bool, written: nat)
    requires Enabled(s, LoopStep(0, fails, written)) && s.loops[0].LTaking? && |s.loops[0].batch| <= 32
    ensures var l := LoopNext(s, 0, fails, written).loops[0];
      l.LSending? ==> l.batch == s.loops[0].batch && (|l.batch| == 32 || s.outbox == [])
  {
  }

  /** The loop sends a batch that is full or with nothing more in the outbox. */
  lemma BatchIsAllThereIs<T(!new)>(states: seq<State<T>>, actions: seq<Action<T>>, k: nat, i: nat)
    requires IsRun(Init, Moves, states, actions) && k < |actions| && i < |states[k].loops|
    requires states[k].loops[i].LTaking? && i < |states[k + 1].loops| && states[k + 1].loops[i].LSending?
    ensures states[k + 1].loops[i].batch == states[k].loops[i].batch
    ensures |states[k].loops[i].batch| == 32 || states[k].outbox == []
  {
    assert |states[k].loops| == 1 && |Batch(states[k].loops[i])| <= 32 by {
      RunInv(states, actions, k);
      OneLoopAtMost(states[k], i);
    }
    assert StepAt(Moves, states, actions, k);
    var a := actions[k];
    if a.LoopStep? { TakesAll(states[k], a.fails, a.written); } else { CallsDoNotSend(states[k], a, i); }
  }

  lemma CallsDoNotSend<T>(s: State<T>, a: Action<T>, i: nat)
    requires Enabled(s, a) && !a.LoopStep? && i < |s.loops| && !s.loops[i].LSending?
    ensures i < |Next(s, a).loops| && !Next(s, a).loops[i].LSending?
  {
    CallKeepsLost(s, a);
  }

  // ---- who can be made to wait ---------------------------------------------------------------------

  ghost predicate CanMove<T(!new)>(s: State<T>, who: Who) {
    exists a: Action<T> :: Owner(a) == who && !a.BeginSend? && !a.BeginClose? && Enabled(s, a)
  }

  /** The loop receives from the outbox. */
  predicate TakesMore<T>(l: Loop<T>) {
    l.LReady? || (l.LTaking? && |l.batch| < 32)
  }

  /** A call waits only at the select of SendFrame, with no room in the outbox, no loop ready to take the frame
      from it directly and `done` not closed. */
  lemma CallerWaitsIff<T(!new)>(states: seq<State<T>>, actions: seq<Action<T>>, k: nat, t: Tid)
    requires IsRun(Init, Moves, states, actions) && k < |states| && t in states[k].callers
    ensures var s := states[k]; !CanMove(s, ByCaller(t)) <==>
      && s.callers[t].SSelect? && s.doneCloses == 0 && |s.outbox| >= s.cap
      && (s.cap == 0 ==> s.outbox != [] || s.loops == [] || !TakesMore(s.loops[0]))
  {
    RunInv(states, actions, k);
    var s := states[k];
    assert Owner<T>(Call(t, true)) == ByCaller(t) && Owner<T>(Call(t, false)) == ByCaller(t);
    assert Owner<T>(HandOver(t, 0)) == ByCaller(t);
    if !s.callers[t].SSelect? { assert Enabled(s, Call(t, true)); }
    if s.doneCloses > 0 { assert Enabled(s, Call(t, true)); }
    if |s.outbox| < s.cap { assert Enabled(s, Call(t, false)); }
    if s.cap == 0 && s.outbox == [] && s.loops != [] && s.callers[t].SSelect? {
      if TakesMore(s.loops[0]) { assert Enabled(s, HandOver(t, 0)); }
    }
  }

  /** The loop waits only for a frame, while `done` is not closed, and for nothing once it has stopped, which it
      does only on a closed connection. */
  lemma LoopWaitsIff<T(!new)>(states: seq<State<T>>, actions: seq<Action<T>>, k: nat, i: nat)
    requires IsRun(Init, Moves, states, actions) && k < |states| && i < |states[k].loops|
    ensures var s := states[k]; !CanMove(s, ByLoop(i)) <==>
      (s.loops[i].LReady? && s.outbox == [] && s.doneCloses == 0) || s.loops[i].LExited?
    ensures states[k].loops[i].LExited? ==> states[k].closed
  {
    RunEndsClosed(states, actions, k);
    var s := states[k];
    assert Owner<T>(LoopStep(i, true, 0)) == ByLoop(i) && Owner<T>(LoopStep(i, false, 0)) == ByLoop(i);
    if !s.loops[i].LExited? {
      if s.outbox != [] || !s.loops[i].LReady? { assert Enabled(s, LoopStep(i, false, 0)); }
      if s.doneCloses > 0 { assert Enabled(s, LoopStep(i, true, 0)); }
    }
  }

  /** A step of the loop, and of nobody else. */
  ghost predicate LoopAlone<T>(s: State<T>, a: Action<T>, s': State<T>) {
    a.LoopStep? && Moves(s, a, s')
  }

  function Rank<T>(l: Loop<T>): nat {
    match l
    case LTaking(_) => 5
    case LSending(_) => 4
    case LSwapClosed => 3
    case LCloseDone => 3
    case LCloseTransport => 2
    case LReady => 1
    case LExited => 0
  }

  /** With `done` closed the loop can always go on, to less. */
  lemma StopsSooner<T>(s: State<T>)
    requires s.loops != [] && !s.loops[0].LExited? && s.doneCloses > 0 && s.closed
    ensures Enabled(s, LoopStep(0, true, 0))
    ensures var s' := LoopNext(s, 0, true, 0);
      && s'.loops != [] && s'.doneCloses > 0 && s'.closed
      && (|s'.outbox| < |s.outbox| || (s'.outbox == s.outbox && Rank(s'.loops[0]) < Rank(s.loops[0])))
  {
  }

  lemma {:induction false} StopsFrom<T(!new)>(s0: State<T>, s: State<T>) returns (end: State<T>)
    requires CanReach(LoopAlone, s0, s) && s.loops != [] && s.doneCloses > 0 && s.closed
    ensures CanReach(LoopAlone, s0, end) && end.loops != [] && end.loops[0].LExited?
    decreases |s.outbox|, Rank(s.loops[0])
  {
    if s.loops[0].LExited? {
      end := s;
    } else {
      StopsSooner(s);
      var a: Action<T> := LoopStep(0, true, 0);
      GoOn(LoopAlone, s0, s, a, Next(s, a));
      end := StopsFrom(s0, Next(s, a));
    }
  }

  /** From every state of every run in which `done` is closed, the loop's own steps can stop it. */
  lemma LoopCanStop<T(!new)>(states: seq<State<T>>, actions: seq<Action<T>>, k: nat) returns (end: State<T>)
    requires IsRun(Init, Moves, states, actions) && k < |states| && states[k].loops != [] && states[k].doneCloses > 0
    ensures CanReach(LoopAlone, states[k], end) && end.loops != [] && end.loops[0].LExited?
  {
    RunInv(states, actions, k);
    Stay(LoopAlone, states[k]);
    end := StopsFrom(states[k], states[k]);
  }
}
