/** Whole calls of core/concurrency/executor.go in every run of Executor: what a Submit comes to, what a Resize
    leaves, and how a worker that is told to stop goes. */
module ExecutorCalls {
  import opened Executor
  import opened ExecutorCrew
  import opened ExecutorTasks
  import opened Runs
  import SubmitPanic

  // ---- Submit ------------------------------------------------------------------------------------------

  /** The Submit of x that t began at step j is still going on in state k. */
  ghost predicate Submitting(states: seq<State>, actions: seq<Action>, j: nat, k: nat, t: Tid, x: Task) {
    && |states| == |actions| + 1 && j < k < |states| && actions[j] == BeginSubmit(t, x)
    && forall i :: j < i <= k ==> t in states[i].box.subs
  }

  /** The queue was in the slice at a step from j to k - 1. */
  ghost predicate WasListed(states: seq<State>, j: nat, k: nat, u: Uid) {
    exists i: nat :: j <= i < k && i < |states| && u in states[i].crew.queues
  }

  /** A local queue that was in the slice refused at a step from j to k - 1: it was full, or its worker had just taken
      a task. */
  ghost predicate WasRefused(states: seq<State>, j: nat, k: nat) {
    exists i: nat, u :: j <= i < k && i < |states| && MayLookFull(states[i], u) && WasListed(states, j, i, u)
  }

  ghost predicate SubmitSoFar(states: seq<State>, j: nat, k: nat, t: Tid, x: Task)
    requires k < |states| && t in states[k].box.subs
  {
    var c := states[k].box.subs[t];
    c.x == x && (c.SPush? ==> WasListed(states, j, k, c.u)) && (c.SOverflow? ==> WasRefused(states, j, k))
  }

  lemma StillSoFar(states: seq<State>, j: nat, k: nat, t: Tid, x: Task)
    requires k + 1 < |states| && t in states[k].box.subs && SubmitSoFar(states, j, k, t, x)
    requires t in states[k + 1].box.subs && states[k + 1].box.subs[t] == states[k].box.subs[t]
    ensures SubmitSoFar(states, j, k + 1, t, x)
  {
    if states[k].box.subs[t].SOverflow? {
      var i: nat, u :| j <= i < k && i < |states| && MayLookFull(states[i], u) && WasListed(states, j, i, u);
      assert WasRefused(states, j, k + 1);
    }
  }

  lemma SubmitGoesOn(states: seq<State>, j: nat, k: nat, t: Tid, x: Task, nano: nat, ok: bool)
    requires j <= k && k + 1 < |states| && t in states[k].box.subs && t in states[k + 1].box.subs
    requires SubmitSoFar(states, j, k, t, x) && SubmitEnabled(states[k], states[k].box.subs[t], ok)
    requires states[k + 1].box == SubmitNext(states[k], t, states[k].box.subs[t], nano, ok)
    ensures SubmitSoFar(states, j, k + 1, t, x)
  {
    var c, c' := states[k].box.subs[t], states[k + 1].box.subs[t];
    if c'.SPush? { assert c'.u in states[k].crew.queues; }
    if c'.SOverflow? { assert MayLookFull(states[k], c.u) && WasListed(states, j, k, c.u); }
  }

  lemma {:induction false} SubmitFollows(states: seq<State>, actions: seq<Action>, j: nat, k: nat, t: Tid, x: Task)
    requires IsRun(Init, Moves, states, actions) && Submitting(states, actions, j, k, t, x)
    ensures SubmitSoFar(states, j, k, t, x)
    decreases k
  {
    assert StepAt(Moves, states, actions, k - 1);
    if k > j + 1 {
      SubmitFollows(states, actions, j, k - 1, t, x);
      var a := actions[k - 1];
      if a.SubmitStep? && a.t == t {
        SubmitGoesOn(states, j, k - 1, t, x, a.nano, a.ok);
      } else {
        SubmitPanic.OthersLeave(states[k - 1], a, t);
        StillSoFar(states, j, k - 1, t, x);
      }
    }
  }

  /** What the last step of a Submit of x does: it puts x at the end of the local queue it has picked, at the end of
      the global queue, or nowhere, because it panics or the global queue is full. */
  datatype Outcome = InLocal(u: Uid) | InGlobal | Panics | Full

  ghost predicate Comes(s: State, x: Task, o: Outcome, s': State) {
    match o
    case InLocal(u) =>
      && u < |s.box.local| && s'.box.local == s.box.local[u := s.box.local[u] + [x]]
      && s'.box.global == s.box.global && s'.box.panicked == s.box.panicked
    case InGlobal =>
      && |s.box.global| < s.globalCap && s'.box.global == s.box.global + [x]
      && s'.box.local == s.box.local && s'.box.panicked == s.box.panicked
    case Panics =>
      s'.box.panicked == s.box.panicked + {x} && s'.box.local == s.box.local && s'.box.global == s.box.global
    case Full =>
      && |s.box.global| >= s.globalCap
      && s'.box.local == s.box.local && s'.box.global == s.box.global && s'.box.panicked == s.box.panicked
  }

  /** The outcome the last step has. */
  function OutcomeOf(s: State, c: Submit): Outcome {
    match c
    case SPush(_, u) => InLocal(u)
    case SOverflow(_) => if |s.box.global| < s.globalCap then InGlobal else Full
    case _ => Panics
  }

  lemma SubmitEnds(s: State, t: Tid, nano: nat, ok: bool)
    requires t in s.box.subs && SubmitEnabled(s, s.box.subs[t], ok)
    requires t !in SubmitNext(s, t, s.box.subs[t], nano, ok).subs
    ensures Comes(s, s.box.subs[t].x, OutcomeOf(s, s.box.subs[t]), s.(box := SubmitNext(s, t, s.box.subs[t], nano, ok)))
  {
  }

  /** A Submit of x ends in exactly one of four ways: x is at the end of a local queue that was in the slice during the
      call, at the end of the global queue, or nowhere, because the call panicked on the shortened slice or because
      the global queue was full; and it comes to the global queue only after a local queue has refused. */
  lemma SubmitComesTo(states: seq<State>, actions: seq<Action>, j: nat, k: nat, t: Tid, x: Task) returns (o: Outcome)
    requires IsRun(Init, Moves, states, actions) && Submitting(states, actions, j, k, t, x)
    requires k < |actions| && t !in states[k + 1].box.subs
    ensures Comes(states[k], x, o, states[k + 1]) && (o.InLocal? ==> WasListed(states, j, k, o.u))
    ensures o.InGlobal? || o.Full? ==> WasRefused(states, j, k)
    ensures x in states[k + 1].box.place <==> o.InLocal? || o.InGlobal?
    ensures x in states[k + 1].box.panicked <==> o.Panics?
  {
    SubmitFollows(states, actions, j, k, t, x);
    RunInv(states, actions, k);
    assert StepAt(Moves, states, actions, k);
    var a := actions[k];
    if !(a.SubmitStep? && a.t == t) { SubmitPanic.OthersLeave(states[k], a, t); }
    o := OutcomeOf(states[k], states[k].box.subs[t]);
    SubmitEnds(states[k], t, a.nano, a.ok);
  }

  // ---- Resize ------------------------------------------------------------------------------------------

  /** The number of workers a request asks for. */
  function Target(request: int): nat {
    if request <= 0 then 1 else request
  }

  /** The manager is at work on this target, or has reached it. */
  predicate Toward(c: Crew, n: nat) {
    match c.mgr
    case MIdle => |c.workers| == |c.queues| == n
    case m => m.n == n
  }

  lemma BeginToward(c: Crew, request: int)
    requires CrewInv(c) && c.mgr.MIdle?
    ensures Toward(BeginResize(c, request), Target(request))
  {
  }

  lemma ManageToward(c: Crew, n: nat)
    requires CrewInv(c) && CanManage(c) && Toward(c, n)
    ensures Toward(Manage(c), n)
  {
  }

  lemma {:induction false} ResizeSoFar(states: seq<State>, actions: seq<Action>, j: nat, k: nat)
    requires IsRun(Init, Moves, states, actions) && j < k < |states| && actions[j].Resize?
    requires forall i :: j < i < k ==> !actions[i].Resize?
    ensures Toward(states[k].crew, Target(actions[j].request))
    decreases k
  {
    RunInv(states, actions, k - 1);
    assert StepAt(Moves, states, actions, k - 1);
    if k == j + 1 {
      BeginToward(states[j].crew, actions[j].request);
    } else {
      ResizeSoFar(states, actions, j, k - 1);
      if actions[k - 1].ManageStep? { ManageToward(states[k - 1].crew, Target(actions[j].request)); }
    }
  }

  /** Whenever the manager is through with a Resize, and until the next one, there are as many workers and queues as
      it asked for, and one if it asked for none or fewer. */
  lemma ResizeReaches(states: seq<State>, actions: seq<Action>, j: nat, k: nat)
    requires IsRun(Init, Moves, states, actions) && j < k < |states| && actions[j].Resize? && states[k].crew.mgr.MIdle?
    requires forall i :: j < i < k ==> !actions[i].Resize?
    ensures |states[k].crew.workers| == |states[k].crew.queues| == if actions[j].request <= 0 then 1 else actions[j].request
  {
    ResizeSoFar(states, actions, j, k);
  }

  // ---- a worker that is told to stop -----------------------------------------------------------------------

  predicate ToldToStop(s: State, u: Uid) {
    u < |s.crew.ctl| && s.crew.ctl[u].stopCloses > 0
  }

  /** How many tasks a worker that was told to stop may still take. */
  function MayTake(pc: Pc): nat {
    match pc
    case WLocal => 1
    case WGlobal => 1
    case WNew => 1
    case _ => 0
  }

  predicate Takes(s: State, a: Action, u: Uid) {
    && a.WorkerStep? && a.u == u && a.took && u < |s.crew.ctl|
    && (s.crew.ctl[u].pc.WLocal? || s.crew.ctl[u].pc.WGlobal?)
  }

  /** The tasks u took at the steps from j to k - 1. */
  function Taken(states: seq<State>, actions: seq<Action>, j: nat, k: nat, u: Uid): nat
    requires |states| == |actions| + 1 && j <= k <= |actions|
    decreases k
  {
    if j == k then 0 else Taken(states, actions, j, k - 1, u) + (if Takes(states[k - 1], actions[k - 1], u) then 1 else 0)
  }

  lemma ToldStep(s: State, a: Action, u: Uid)
    requires CrewInv(s.crew) && Enabled(s, a) && ToldToStop(s, u)
    ensures ToldToStop(Next(s, a), u) && !s.crew.ctl[u].pc.WNew?
    ensures MayTake(Next(s, a).crew.ctl[u].pc) + (if Takes(s, a, u) then 1 else 0) <= MayTake(s.crew.ctl[u].pc)
    ensures Next(s, a).crew.ctl[u].pc.WCheck? ==> s.crew.ctl[u].pc.WCheck? || s.crew.ctl[u].pc.WRun?
  {
    assert s.crew.mgr.MAddWorker? ==> s.crew.queues[|s.crew.queues| - 1] == |s.crew.ctl| - 1;
  }

  /** A worker that was told to stop goes round its loop again only after a task. */
  lemma ToldGoesRoundOnlyAfterATask(states: seq<State>, actions: seq<Action>, k: nat, u: Uid)
    requires IsRun(Init, Moves, states, actions) && k < |actions| && ToldToStop(states[k], u)
    ensures ToldToStop(states[k + 1], u)
    ensures states[k + 1].crew.ctl[u].pc.WCheck? && !states[k].crew.ctl[u].pc.WCheck? ==> u in states[k].box.hand
  {
    RunInv(states, actions, k);
    assert StepAt(Moves, states, actions, k);
    ToldStep(states[k], actions[k], u);
  }

  /** A worker that was told to stop takes at most one more task, in every run. */
  lemma {:induction false} ToldTakesAtMostOne(states: seq<State>, actions: seq<Action>, j: nat, k: nat, u: Uid)
    requires IsRun(Init, Moves, states, actions) && j <= k <= |actions| && ToldToStop(states[j], u)
    ensures ToldToStop(states[k], u) && Taken(states, actions, j, k, u) + MayTake(states[k].crew.ctl[u].pc) <= 1
    decreases k
  {
    if j < k {
      ToldTakesAtMostOne(states, actions, j, k - 1, u);
      RunInv(states, actions, k - 1);
      assert StepAt(Moves, states, actions, k - 1);
      ToldStep(states[k - 1], actions[k - 1], u);
    }
  }

  /** A step of worker u, and of nobody else. */
  ghost predicate AloneBy(u: Uid, s: State, a: Action, s': State) {
    a.WorkerStep? && a.u == u && Moves(s, a, s')
  }

  function Way(pc: Pc): nat {
    match pc
    case WGone => 0
    case WLeave => 1
    case WCheck => 2
    case WGlobal => 3
    case WLocal => 4
    case WRun => 5
    case WNew => 6
  }

  lemma {:induction false} ToldGoes(s0: State, s: State, u: Uid) returns (end: State)
    requires CanReach((x, a, y) => AloneBy(u, x, a, y), s0, s) && Inv(s) && ToldToStop(s, u)
    ensures CanReach((x, a, y) => AloneBy(u, x, a, y), s0, end) && u < |end.crew.ctl| && end.crew.ctl[u].pc.WGone?
    decreases Way(s.crew.ctl[u].pc)
  {
    if s.crew.ctl[u].pc.WGone? {
      end := s;
    } else {
      ToldStep(s, WorkerStep(u, false), u);
      StepInv(s, WorkerStep(u, false));
      GoOn((x, a, y) => AloneBy(u, x, a, y), s0, s, WorkerStep(u, false), Next(s, WorkerStep(u, false)));
      end := ToldGoes(s0, Next(s, WorkerStep(u, false)), u);
    }
  }

  /** A worker that was told to stop can leave by its own steps alone, so the manager's wait for it can end. */
  lemma ToldCanLeave(states: seq<State>, actions: seq<Action>, k: nat, u: Uid) returns (end: State)
    requires IsRun(Init, Moves, states, actions) && k < |states| && ToldToStop(states[k], u)
    ensures CanReach((x, a, y) => AloneBy(u, x, a, y), states[k], end) && u < |end.crew.ctl| && end.crew.ctl[u].pc.WGone?
  {
    RunInv(states, actions, k);
    Stay((x, a, y) => AloneBy(u, x, a, y), states[k]);
    end := ToldGoes(states[k], states[k], u);
  }
}
