/** The executor of core/concurrency/executor.go as steps of its goroutines: submitters, workers and the
    one resize manager, from NewExecutor up to (not including) Close.  Workers and their local queues are
    named by the order of their creation; `workers` and `queues` are the two slices.  A local queue is the
    bounded FIFO of `Mpmc.Linearizable`, whose pushes may also be refused while its worker, which takes a slot with
    a task, has not left it, and whose pops may also come back empty-handed while a push is in flight. */
module Executor {
  import opened Bits
  import opened ExecutorCrew
  import opened ExecutorTasks
  import opened Runs

  const LOCAL_CAP: nat := 1024

  // ---- the whole executor -------------------------------------------------------------------------

  datatype State = State(crew: Crew, box: Box, globalCap: nat)

  /** `nano` is the clock reading of Submit, `ok` whether the local push succeeds. */
  datatype Action =
    | BeginSubmit(t: Tid, x: Task)
    | SubmitStep(t: Tid, nano: nat, ok: bool)
    | Resize(request: int)
    | ManageStep
    | WorkerStep(u: Uid, took: bool)

  /** NewExecutor with at least one worker. */
  ghost predicate Init(s: State) {
    var n := |s.crew.workers|;
    && n >= 1 && |s.crew.ctl| == n && s.globalCap == n * 4
    && s.crew.workers == s.crew.queues && s.crew.mgr == MIdle
    && (forall k: nat :: k < n ==> s.crew.workers[k] == k && s.crew.ctl[k] == Control(k, WCheck, 0))
    && |s.box.local| == n && (forall k :: 0 <= k < n ==> s.box.local[k] == [])
    && s.box.global == [] && s.box.hand == map[] && s.box.done == [] && s.box.subs == map[]
    && s.box.seen == {} && s.box.place == map[] && s.box.panicked == {}
  }

  predicate MayLookFull(s: State, u: Uid) {
    || (u < |s.box.local| && |s.box.local[u]| >= LOCAL_CAP)
    || (u < |s.crew.ctl| && s.crew.ctl[u].pc.WRun?)
  }

  predicate SubmitEnabled(s: State, c: Submit, ok: bool) {
    && (c.SPick? ==> s.crew.queues != [])
    && (c.SPush? ==> c.u < |s.box.local| && if ok then |s.box.local[c.u]| < LOCAL_CAP else MayLookFull(s, c.u))
  }

  predicate WorkerEnabled(s: State, u: Uid, took: bool) {
    && u < |s.crew.ctl| && u < |s.box.local|
    && var w := s.crew.ctl[u];
      && !w.pc.WNew? && !w.pc.WGone?
      && (w.pc.WLocal? && took ==> s.box.local[u] != [])
      && (w.pc.WGlobal? ==> if took then s.box.global != [] else w.stopCloses > 0 || s.box.global == [])
      && (w.pc.WRun? ==> u in s.box.hand)
  }

  predicate Enabled(s: State, a: Action) {
    match a
    case BeginSubmit(t, x) => t !in s.box.subs && x !in s.box.seen
    case SubmitStep(t, _, ok) => t in s.box.subs && SubmitEnabled(s, s.box.subs[t], ok)
    case Resize(_) => s.crew.mgr.MIdle?
    case ManageStep => CanManage(s.crew)
    case WorkerStep(u, took) => WorkerEnabled(s, u, took)
  }

  /** The slice is read twice without the mutex, once for its length and once for the element: if it was
      cut in between, the index is out of range and Submit panics. */
  function SubmitNext(s: State, t: Tid, c: Submit, nano: nat, ok: bool): Box
    requires SubmitEnabled(s, c, ok)
  {
    var b := s.box;
    match c
    case SPick(x) => b.(subs := b.subs[t := SLook(x, Rem(nano, |s.crew.queues|))])
    case SLook(x, idx) =>
      if idx < |s.crew.queues| then b.(subs := b.subs[t := SPush(x, s.crew.queues[idx])])
      else b.(subs := b.subs - {t}, panicked := b.panicked + {x})
    case SPush(x, u) => if ok then PushLocal(b, t, x, u) else b.(subs := b.subs[t := SOverflow(x)])
    case SOverflow(x) => if |b.global| < s.globalCap then PushGlobal(b, t, x) else b.(subs := b.subs - {t})
  }

  function WorkerNext(s: State, u: Uid, took: bool): Box
    requires WorkerEnabled(s, u, took)
  {
    var pc := s.crew.ctl[u].pc;
    if pc.WLocal? && took then TakeLocal(s.box, u)
    else if pc.WGlobal? && took then TakeGlobal(s.box, u)
    else if pc.WRun? then Finish(s.box, u)
    else s.box
  }

  function Next(s: State, a: Action): State
    requires Enabled(s, a)
  {
    match a
    case BeginSubmit(t, x) => s.(box := s.box.(subs := s.box.subs[t := SPick(x)], seen := s.box.seen + {x}))
    case SubmitStep(t, nano, ok) => s.(box := SubmitNext(s, t, s.box.subs[t], nano, ok))
    case Resize(request) => s.(crew := BeginResize(s.crew, request))
    case ManageStep =>
      var c := Manage(s.crew);
      s.(crew := c, box := if |c.ctl| > |s.crew.ctl| then s.box.(local := s.box.local + [[]]) else s.box)
    case WorkerStep(u, took) => s.(crew := Work(s.crew, u, took), box := WorkerNext(s, u, took))
  }

  /** The queues belong to the workers, and a worker holds a task exactly while it runs one. */
  ghost predicate Linked(s: State) {
    && |s.box.local| == |s.crew.ctl|
    && (forall u: Uid :: u in s.box.hand <==> u < |s.crew.ctl| && s.crew.ctl[u].pc.WRun?)
    && (forall t :: t in s.box.subs && s.box.subs[t].SPush? ==> s.box.subs[t].u < |s.box.local|)
  }

  ghost predicate Inv(s: State) {
    CrewInv(s.crew) && BoxInv(s.box) && Linked(s)
  }

  lemma InitInv(s: State)
    requires Init(s)
    ensures Inv(s)
  {
    forall x, p ensures !At(s.box, x, p) {
    }
  }

  lemma SubmitInv(s: State, t: Tid, nano: nat, ok: bool)
    requires Inv(s) && Enabled(s, SubmitStep(t, nano, ok))
    ensures Inv(Next(s, SubmitStep(t, nano, ok)))
  {
    SubmitBox(s, t, nano, ok);
    SubmitLinked(s, t, nano, ok);
  }

  lemma SubmitLinked(s: State, t: Tid, nano: nat, ok: bool)
    requires Slots(s.crew) && Linked(s) && t in s.box.subs && SubmitEnabled(s, s.box.subs[t], ok)
    ensures Linked(s.(box := SubmitNext(s, t, s.box.subs[t], nano, ok)))
  {
    var b' := SubmitNext(s, t, s.box.subs[t], nano, ok);
    assert |b'.local| == |s.box.local| && b'.hand == s.box.hand;
  }

  lemma SubmitBox(s: State, t: Tid, nano: nat, ok: bool)
    requires BoxInv(s.box) && t in s.box.subs && SubmitEnabled(s, s.box.subs[t], ok)
    ensures BoxInv(SubmitNext(s, t, s.box.subs[t], nano, ok))
  {
    var c, b := s.box.subs[t], s.box;
    assert b.seen + {c.x} == b.seen;
    match c
    case SPick(x) => AdvanceKeeps(b, t, SLook(x, Rem(nano, |s.crew.queues|)));
    case SLook(x, idx) =>
      if idx < |s.crew.queues| { AdvanceKeeps(b, t, SPush(x, s.crew.queues[idx])); } else { PanicKeeps(b, t); }
    case SPush(x, u) => if ok { PushLocalKeeps(b, t, u); } else { AdvanceKeeps(b, t, SOverflow(x)); }
    case SOverflow(x) => if |b.global| < s.globalCap { PushGlobalKeeps(b, t); } else { WithdrawKeeps(b, t); }
  }

  lemma WorkerBox(s: State, u: Uid, took: bool)
    requires BoxInv(s.box) && Linked(s) && WorkerEnabled(s, u, took)
    ensures BoxInv(WorkerNext(s, u, took))
  {
    var pc := s.crew.ctl[u].pc;
    if pc.WLocal? && took {
      TakeLocalKeeps(s.box, u);
    } else if pc.WGlobal? && took {
      TakeGlobalKeeps(s.box, u);
    } else if pc.WRun? {
      FinishKeeps(s.box, u);
    }
  }

  lemma WorkerLinked(s: State, u: Uid, took: bool)
    requires Linked(s) && WorkerEnabled(s, u, took)
    ensures Linked(s.(crew := Work(s.crew, u, took), box := WorkerNext(s, u, took)))
  {
  }

  lemma WorkerInv(s: State, u: Uid, took: bool)
    requires Inv(s) && Enabled(s, WorkerStep(u, took))
    ensures Inv(Next(s, WorkerStep(u, took)))
  {
    WorkKeeps(s.crew, u, took);
    WorkerBox(s, u, took);
    WorkerLinked(s, u, took);
  }

  lemma ManageGrowth(c: Crew)
    requires CrewInv(c) && CanManage(c)
    ensures var c' := Manage(c);
      && |c.ctl| <= |c'.ctl| <= |c.ctl| + 1
      && (|c'.ctl| > |c.ctl| ==> c'.ctl[|c.ctl|].pc.WNew?)
      && forall u: Uid :: u < |c.ctl| ==> (c'.ctl[u].pc.WRun? <==> c.ctl[u].pc.WRun?)
  {
  }

  lemma ManageInv(s: State)
    requires Inv(s) && Enabled(s, ManageStep)
    ensures Inv(Next(s, ManageStep))
  {
    ManageKeeps(s.crew);
    NewQueueKeeps(s.box);
    ManageGrowth(s.crew);
  }

  lemma StepInv(s: State, a: Action)
    requires Inv(s) && Enabled(s, a)
    ensures Inv(Next(s, a))
  {
    match a
    case BeginSubmit(t, x) => AdvanceKeeps(s.box, t, SPick(x));
    case SubmitStep(t, nano, ok) => SubmitInv(s, t, nano, ok);
    case Resize(request) => BeginKeeps(s.crew, request);
    case ManageStep => ManageInv(s);
    case WorkerStep(u, took) => WorkerInv(s, u, took);
  }

  // ---- runs -----------------------------------------------------------------------------------------

  ghost predicate Moves(s: State, a: Action, s': State) {
    Enabled(s, a) && s' == Next(s, a)
  }

  lemma RunInv(states: seq<State>, actions: seq<Action>, k: nat)
    requires IsRun(Init, Moves, states, actions) && k < |states|
    ensures Inv(states[k])
  {
    forall s | Init(s) ensures Inv(s) { InitInv(s); }
    forall s, a, s' | Inv(s) && Moves(s, a, s') ensures Inv(s') { StepInv(s, a); }
    Invariant(Init, Moves, Inv, states, actions, k);
  }
}
