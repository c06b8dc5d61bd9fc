/** What can still become of the tasks in the executor's queues, and runs that go wrong. */
module ExecutorFuture {
  import opened Executor
  import opened ExecutorCrew
  import opened ExecutorTasks
  import opened ExecutorRuns
  import opened Runs

  // ---- which queued tasks can still be run ------------------------------------------------------------

  predicate IsDone(s: State, x: Task) {
    x in s.box.place && s.box.place[x].Done?
  }

  ghost predicate CanBeRun(s: State, x: Task) {
    exists s' :: CanReach(Moves, s, s') && IsDone(s', x)
  }

  /** The number of steps to the worker's next find, in its own queue or else in the global one. */
  function Rank(pc: Pc, localFirst: bool): nat {
    match pc
    case WLocal => if localFirst then 0 else 1
    case WCheck => if localFirst then 1 else 2
    case WRun => if localFirst then 2 else 3
    case WGlobal => if localFirst then 3 else 0
    case _ => 4
  }

  predicate Serving(s: State, u: Uid) {
    && u < |s.crew.ctl| && u < |s.box.local|
    && s.crew.ctl[u].stopCloses == 0 && !s.crew.ctl[u].pc.WNew?
  }

  /** The task waits for a worker that was not told to stop. */
  ghost predicate Waits(s: State, u: Uid, x: Task) {
    && Inv(s) && Serving(s, u) && x in s.box.place
    && (s.box.place[x] == Local(u) || s.box.place[x] == Global || s.box.place[x] == Hand(u))
  }

  /** The worker's own next step; it takes the first task whenever it finds one. */
  function Own(s: State, u: Uid): Action
    requires u < |s.crew.ctl| && u < |s.box.local|
  {
    var pc := s.crew.ctl[u].pc;
    WorkerStep(u, (pc.WLocal? && s.box.local[u] != []) || (pc.WGlobal? && s.box.global != []))
  }

  function Backlog(s: State, u: Uid): nat
    requires u < |s.box.local|
  {
    |s.box.local[u]| + |s.box.global|
  }

  function Distance(s: State, u: Uid): nat
    requires Serving(s, u)
  {
    Rank(s.crew.ctl[u].pc, s.box.local[u] != [])
  }

  predicate Closer(s: State, s': State, u: Uid)
    requires Serving(s, u)
  {
    && Serving(s', u)
    && (Backlog(s', u) < Backlog(s, u) || (Backlog(s', u) == Backlog(s, u) && Distance(s', u) < Distance(s, u)))
  }

  lemma OwnProgress(s: State, u: Uid)
    requires Inv(s) && Serving(s, u) && (s.box.local[u] != [] || s.box.global != [] || u in s.box.hand)
    ensures Enabled(s, Own(s, u))
    ensures s.box.local[u] != [] || s.box.global != [] ==> Closer(s, Next(s, Own(s, u)), u)
  {
  }

  lemma OwnStep(s: State, u: Uid, x: Task)
    requires Waits(s, u, x)
    ensures Enabled(s, Own(s, u))
    ensures var s' := Next(s, Own(s, u));
      x in s'.box.place && (s'.box.place[x].Done? || (Waits(s', u, x) && (s.box.place[x].Hand? || Closer(s, s', u))))
    ensures s.box.place[x].Hand? ==> Next(s, Own(s, u)).box.place[x].Done?
  {
    assert At(s.box, x, s.box.place[x]);
    OwnProgress(s, u);
    StepInv(s, Own(s, u));
    StepMoves(s, Own(s, u), x);
  }

  lemma {:induction false} IsServed(s0: State, s: State, u: Uid, x: Task)
    requires Waits(s, u, x) && CanReach(Moves, s0, s)
    ensures CanBeRun(s0, x)
    decreases Backlog(s, u), Distance(s, u)
  {
    OwnStep(s, u, x);
    var a, s' := Own(s, u), Next(s, Own(s, u));
    GoOn(Moves, s0, s, a, s');
    if !IsDone(s', x) { IsServed(s0, s', u, x); }
  }

  /** Not served yet only because its worker is about to be hired: the manager hires it first. */
  lemma IsHired(s: State, u: Uid, x: Task)
    requires Inv(s) && At(s.box, x, Local(u)) && s.crew.ctl[u].pc.WNew?
    ensures CanBeRun(s, x)
  {
    Stay(Moves, s);
    var s' := Next(s, ManageStep);
    StepInv(s, ManageStep);
    GoOn(Moves, s, s, ManageStep, s');
    assert At(s'.box, x, Local(u));
    IsServed(s, s', u, x);
  }

  /** The worker was told to stop after its last look at the stop channel and finds the task first. */
  predicate LastTake(s: State, u: Uid, x: Task)
    requires u < |s.crew.ctl| && u < |s.box.local|
  {
    s.crew.ctl[u].pc.WLocal? && s.box.local[u] != [] && s.box.local[u][0] == x
  }

  lemma IsTakenLast(s: State, u: Uid, x: Task)
    requires Inv(s) && At(s.box, x, Local(u)) && LastTake(s, u, x)
    ensures CanBeRun(s, x)
  {
    Stay(Moves, s);
    var s1 := Next(s, WorkerStep(u, true));
    StepInv(s, WorkerStep(u, true));
    GoOn(Moves, s, s, WorkerStep(u, true), s1);
    assert s1.box.hand[u] == x && At(s1.box, x, Hand(u));
    var s2 := Next(s1, WorkerStep(u, true));
    GoOn(Moves, s, s1, WorkerStep(u, true), s2);
    assert IsDone(s2, x);
  }

  /** The worker has been told to stop and will not come back to the task. */
  ghost predicate Abandoned(s: State, u: Uid, x: Task) {
    && Inv(s) && u < |s.crew.ctl| && s.crew.ctl[u].stopCloses > 0
    && x in s.box.place && s.box.place[x] == Local(u) && !LastTake(s, u, x)
  }

  lemma ToldStays(s: State, a: Action, u: Uid)
    requires Enabled(s, a) && u < |s.crew.ctl| && s.crew.ctl[u].stopCloses > 0
    ensures var c' := Next(s, a).crew;
      u < |c'.ctl| && c'.ctl[u].stopCloses > 0 && (c'.ctl[u].pc.WLocal? ==> s.crew.ctl[u].pc.WLocal? || s.crew.ctl[u].pc.WNew?)
  {
  }

  /** Only its worker takes a task out of a local queue, and only the first. */
  lemma LeavesByTake(s: State, a: Action, u: Uid, x: Task)
    requires Inv(s) && Enabled(s, a) && u < |s.crew.ctl| && x in s.box.place && s.box.place[x] == Local(u)
    ensures LastTake(s, u, x) || (x in Next(s, a).box.place && Next(s, a).box.place[x] == Local(u))
  {
    StepMoves(s, a, x);
    if a.WorkerStep? && a.u == u {
      assert u in s.box.hand ==> At(s.box, s.box.hand[u], Hand(u));
      assert s.box.global != [] ==> At(s.box, s.box.global[0], Global);
    }
  }

  lemma AbandonedStep(s: State, a: Action, u: Uid, x: Task)
    requires Abandoned(s, u, x) && Enabled(s, a)
    ensures Abandoned(Next(s, a), u, x)
  {
    StepInv(s, a);
    ToldStays(s, a, u);
    LeavesByTake(s, a, u, x);
    QueuesAreFifo(s, a, u);
    assert At(s.box, x, Local(u));
  }

  lemma NeverRun(s: State, s': State, u: Uid, x: Task)
    requires Abandoned(s, u, x) && CanReach(Moves, s, s')
    ensures !IsDone(s', x)
  {
    var inv := (z: State) => Abandoned(z, u, x);
    forall z, a, z' | inv(z) && Moves(z, a, z') ensures inv(z') { AbandonedStep(z, a, u, x); }
    Keeps(Moves, inv, s, s');
  }

  /** In every state of every run, with or without a resize under way, a task in a local queue can still be run
      if and only if the queue's worker has not been told to stop, or is just about to look into its queue and
      the task is the first there. */
  lemma LocalTaskRunsIff(states: seq<State>, actions: seq<Action>, k: nat, x: Task, u: Uid)
    requires IsRun(Init, Moves, states, actions) && k < |states| && At(states[k].box, x, Local(u))
    ensures var s := states[k];
      && u < |s.crew.ctl|
      && (CanBeRun(s, x) <==> s.crew.ctl[u].stopCloses == 0 || (s.crew.ctl[u].pc.WLocal? && s.box.local[u][0] == x))
  {
    RunInv(states, actions, k);
    var s := states[k];
    assert x in s.box.place && s.box.place[x] == Local(u);
    if s.crew.ctl[u].stopCloses == 0 {
      Stay(Moves, s);
      if s.crew.ctl[u].pc.WNew? { IsHired(s, u, x); } else { IsServed(s, s, u, x); }
    } else if LastTake(s, u, x) {
      IsTakenLast(s, u, x);
    } else {
      forall s' | CanReach(Moves, s, s') ensures !IsDone(s', x) { NeverRun(s, s', u, x); }
    }
  }

  /** With the mutex free: if and only if the worker is in the slice, so shrinking strands exactly what the
      retired workers had not taken. */
  lemma IdleLocalTaskRunsIff(states: seq<State>, actions: seq<Action>, k: nat, x: Task, u: Uid)
    requires IsRun(Init, Moves, states, actions) && k < |states| && states[k].crew.mgr.MIdle?
    requires At(states[k].box, x, Local(u))
    ensures CanBeRun(states[k], x) <==> u in states[k].crew.workers
  {
    RunInv(states, actions, k);
    LocalTaskRunsIff(states, actions, k, x, u);
    var c := states[k].crew;
    if u in c.workers {
      var i :| 0 <= i < |c.workers| && c.workers[i] == u;
      assert c.queues[i] == u;
    }
  }

  /** A task in the global queue can always be run: the first worker is never told to stop. */
  lemma GlobalTaskRuns(states: seq<State>, actions: seq<Action>, k: nat, x: Task)
    requires IsRun(Init, Moves, states, actions) && k < |states| && At(states[k].box, x, Global)
    ensures CanBeRun(states[k], x)
  {
    RunInv(states, actions, k);
    var s := states[k];
    var u := s.crew.queues[0];
    assert !Told(s.crew.mgr, 0) && s.crew.ctl[u].stopCloses == 0;
    Stay(Moves, s);
    IsServed(s, s, u, x);
  }

  // ---- runs in which shrinking strands a task and makes Submit panic --------------------------------------

  /** Two workers: worker 0 at the top of its loop, worker 1 and the manager as given. */
  function Pair(pc: Pc, stops: nat, m: Manager): Crew {
    Crew([0, 1], [0, 1], [Control(0, WCheck, 0), Control(1, pc, stops)], m)
  }

  /** Task 7 with its submitter or in worker 1's queue. */
  function Holding(subs: map<Tid, Submit>, q: seq<Task>, place: map<Task, Place>): Box {
    Box([[], q], [], map[], [], subs, {7}, place, {})
  }

  function Looking(): Box {
    Holding(map[0 := SLook(7, 1)], [], map[])
  }

  function Queued(): Box {
    Holding(map[], [7], map[7 := Local(1)])
  }

  lemma TaskIsSubmitted()
    ensures Reachable(Init, Moves, State(Pair(WCheck, 0, MIdle), Holding(map[0 := SPick(7)], [], map[]), 8))
  {
    var c := Pair(WCheck, 0, MIdle);
    var s0 := State(c, Box([[], []], [], map[], [], map[], {}, map[], {}), 8);
    Start(Init, Moves, s0);
    Extend(Init, Moves, s0, BeginSubmit(0, 7), State(c, Holding(map[0 := SPick(7)], [], map[]), 8));
  }

  lemma LengthIsRead()
    ensures Reachable(Init, Moves, State(Pair(WCheck, 0, MIdle), Looking(), 8))
  {
    TaskIsSubmitted();
    var c := Pair(WCheck, 0, MIdle);
    var s1 := State(c, Holding(map[0 := SPick(7)], [], map[]), 8);
    Extend(Init, Moves, s1, SubmitStep(0, 1, true), State(c, Looking(), 8));
  }

  lemma ElementIsRead()
    ensures Reachable(Init, Moves, State(Pair(WCheck, 0, MIdle), Holding(map[0 := SPush(7, 1)], [], map[]), 8))
  {
    LengthIsRead();
    var c := Pair(WCheck, 0, MIdle);
    Extend(Init, Moves, State(c, Looking(), 8), SubmitStep(0, 0, true), State(c, Holding(map[0 := SPush(7, 1)], [], map[]), 8));
  }

  lemma TaskIsQueued()
    ensures Reachable(Init, Moves, State(Pair(WCheck, 0, MIdle), Queued(), 8))
  {
    ElementIsRead();
    var c, b := Pair(WCheck, 0, MIdle), Holding(map[0 := SPush(7, 1)], [], map[]);
    var one: map<Tid, Submit> := map[0 := SPush(7, 1)];
    assert one - {0} == map[];
    assert [] + [7] == [7 as Task];
    assert PushLocal(b, 0, 7, 1) == Queued();
    Extend(Init, Moves, State(c, b, 8), SubmitStep(0, 0, true), State(c, Queued(), 8));
  }

  /** The resize to one worker, whatever the tasks are doing. */
  lemma ResizeBegins(b: Box)
    requires |b.local| == 2 && Reachable(Init, Moves, State(Pair(WCheck, 0, MIdle), b, 8))
    ensures Reachable(Init, Moves, State(Pair(WCheck, 0, MClose(1, 1)), b, 8))
  {
    var s := State(Pair(WCheck, 0, MIdle), b, 8);
    Extend(Init, Moves, s, Resize(1), State(Pair(WCheck, 0, MClose(1, 1)), b, 8));
  }

  /** A step of the manager, whatever the tasks are doing. */
  lemma Managed(c: Crew, c': Crew, b: Box)
    requires CanManage(c) && Manage(c) == c' && |c'.ctl| == |c.ctl| && Reachable(Init, Moves, State(c, b, 8))
    ensures Reachable(Init, Moves, State(c', b, 8))
  {
    Extend(Init, Moves, State(c, b, 8), ManageStep, State(c', b, 8));
  }

  lemma WorkerIsTold(b: Box)
    requires |b.local| == 2 && Reachable(Init, Moves, State(Pair(WCheck, 0, MClose(1, 1)), b, 8))
    ensures Reachable(Init, Moves, State(Pair(WCheck, 1, MWait(1, 1)), b, 8))
  {
    Managed(Pair(WCheck, 0, MClose(1, 1)), Pair(WCheck, 1, MClose(2, 1)), b);
    Managed(Pair(WCheck, 1, MClose(2, 1)), Pair(WCheck, 1, MWait(1, 1)), b);
  }

  /** Worker 1 leaves before it looks at its queue. */
  lemma WorkerIsStopped(b: Box)
    requires |b.local| == 2 && Reachable(Init, Moves, State(Pair(WCheck, 1, MWait(1, 1)), b, 8))
    ensures Reachable(Init, Moves, State(Pair(WGone, 1, MWait(1, 1)), b, 8))
  {
    var s4 := State(Pair(WLeave, 1, MWait(1, 1)), b, 8);
    Extend(Init, Moves, State(Pair(WCheck, 1, MWait(1, 1)), b, 8), WorkerStep(1, false), s4);
    Extend(Init, Moves, s4, WorkerStep(1, false), State(Pair(WGone, 1, MWait(1, 1)), b, 8));
  }

  lemma WaitIsOver(b: Box)
    requires |b.local| == 2 && Reachable(Init, Moves, State(Pair(WGone, 1, MWait(1, 1)), b, 8))
    ensures Reachable(Init, Moves, State(Pair(WGone, 1, MCutWorkers(1)), b, 8))
  {
    Managed(Pair(WGone, 1, MWait(1, 1)), Pair(WGone, 1, MWait(2, 1)), b);
    Managed(Pair(WGone, 1, MWait(2, 1)), Pair(WGone, 1, MCutWorkers(1)), b);
  }

  function Shrunk(b: Box): State {
    State(Crew([0], [0], [Control(0, WCheck, 0), Control(1, WGone, 1)], MIdle), b, 8)
  }

  lemma PoolShrinks(b: Box)
    requires |b.local| == 2 && Reachable(Init, Moves, State(Pair(WCheck, 0, MIdle), b, 8))
    ensures Reachable(Init, Moves, Shrunk(b))
  {
    ResizeBegins(b);
    WorkerIsTold(b);
    WorkerIsStopped(b);
    WaitIsOver(b);
    SlicesAreCut(b);
  }

  lemma SlicesAreCut(b: Box)
    requires |b.local| == 2 && Reachable(Init, Moves, State(Pair(WGone, 1, MCutWorkers(1)), b, 8))
    ensures Reachable(Init, Moves, Shrunk(b))
  {
    var c := Pair(WGone, 1, MCutQueues(1)).(workers := [0]);
    Managed(Pair(WGone, 1, MCutWorkers(1)), c, b);
    Managed(c, Shrunk(b).crew, b);
  }

  /** Task 7 goes to worker 1's queue, then the pool is resized to one worker: the resize is over and the
      task lies in a retired queue for good. */
  lemma ShrinkStrandsATask() returns (s: State)
    ensures Reachable(Init, Moves, s) && s.crew.mgr.MIdle? && s.crew.workers == [0]
    ensures 7 in s.box.place && s.box.place[7] == Local(1) && !CanBeRun(s, 7)
  {
    TaskIsQueued();
    PoolShrinks(Queued());
    s := Shrunk(Queued());
    var states: seq<State>, actions: seq<Action> :| IsRun(Init, Moves, states, actions) && states[|actions|] == s;
    IdleLocalTaskRunsIff(states, actions, |actions|, 7, 1);
  }

  /** Submit reads the length 2 and picks index 1, the pool is resized to one worker, and the read of
      element 1 panics. */
  lemma ShrinkMakesSubmitPanic() returns (s: State)
    ensures Reachable(Init, Moves, s) && 7 in s.box.panicked
  {
    LengthIsRead();
    PoolShrinks(Looking());
    s := Next(Shrunk(Looking()), SubmitStep(0, 0, true));
    Extend(Init, Moves, Shrunk(Looking()), SubmitStep(0, 0, true), s);
  }
}
