/** What holds in every run of the executor. */
module ExecutorRuns {
  import opened Executor
  import opened ExecutorCrew
  import opened ExecutorTasks
  import opened Runs

  predicate OnDuty(w: Control, i: nat) {
    w.id == i && w.stopCloses == 0 && !w.pc.WNew? && !w.pc.WLeave? && !w.pc.WGone?
  }

  /** No stop channel is ever closed twice, there is always a queue to submit to, and whenever the mutex is
      free every slot i of the two slices is worker i with its own queue, running and not told to stop. */
  lemma CrewIsSound(states: seq<State>, actions: seq<Action>, k: nat)
    requires IsRun(Init, Moves, states, actions) && k < |states|
    ensures var c := states[k].crew;
      && (forall u: Uid :: u < |c.ctl| ==> c.ctl[u].stopCloses <= 1)
      && |c.workers| >= 1 && |c.queues| >= 1
      && (c.mgr.MIdle? ==>
        && c.workers == c.queues
        && forall i: nat :: i < |c.workers| ==> c.workers[i] < |c.ctl| && OnDuty(c.ctl[c.workers[i]], i))
  {
    RunInv(states, actions, k);
    var c := states[k].crew;
    forall u: Uid | u < |c.ctl| ensures c.ctl[u].stopCloses <= 1 {
      if u in c.queues {
        var i :| 0 <= i < |c.queues| && c.queues[i] == u;
        assert c.ctl[c.queues[i]].stopCloses <= 1;
      }
    }
  }

  /** A task is somewhere if and only if it was accepted, then in one place only, and there only once. */
  lemma EachTaskInOnePlace(states: seq<State>, actions: seq<Action>, k: nat, x: Task)
    requires IsRun(Init, Moves, states, actions) && k < |states|
    ensures var b := states[k].box;
      && (x in b.place <==> exists p :: At(b, x, p))
      && (forall p, q :: At(b, x, p) && At(b, x, q) ==> p == q)
      && NoDup(b.global) && NoDup(b.done) && forall u :: 0 <= u < |b.local| ==> NoDup(b.local[u])
  {
    RunInv(states, actions, k);
    var b := states[k].box;
    if x in b.place { assert At(b, x, b.place[x]); }
  }

  /** The only ways a task moves: from its submitter into a local or the global queue, from a queue into
      the hand of a worker (a local queue only into its own worker's), and from there to done. */
  lemma StepMoves(s: State, a: Action, x: Task)
    requires Inv(s) && Enabled(s, a)
    ensures var b, b' := s.box, Next(s, a).box;
      && (x in b.place ==> x in b'.place)
      && (x in b.place && b'.place[x] != b.place[x] ==>
        && a.WorkerStep?
        && (if b.place[x].Hand? then b.place[x].u == a.u && b'.place[x] == Done
            else !b.place[x].Done? && b'.place[x] == Hand(a.u) && (b.place[x].Local? ==> b.place[x].u == a.u)))
      && (x !in b.place && x in b'.place ==> a.SubmitStep? && b.subs[a.t].x == x)
      && (x !in b.place && x in b'.place ==> !b'.place[x].Hand? && !b'.place[x].Done?)
  {
    var b := s.box;
    if a.WorkerStep? {
      var u := a.u;
      assert u < |b.local| && b.local[u] != [] ==> At(b, b.local[u][0], Local(u));
      assert b.global != [] ==> At(b, b.global[0], Global);
      assert u in b.hand ==> At(b, b.hand[u], Hand(u));
    }
  }

  /** Queues are FIFO: a submission only adds at the end, and the only removal is of the first task, by a
      worker that then holds it (from a local queue, its own worker). */
  lemma QueuesAreFifo(s: State, a: Action, u: Uid)
    requires Inv(s) && Enabled(s, a) && u < |s.box.local|
    ensures var b, b' := s.box, Next(s, a).box;
      && u < |b'.local|
      && (b.local[u] <= b'.local[u]
          || (a.WorkerStep? && a.u == u && u in b'.hand && b.local[u] == [b'.hand[u]] + b'.local[u]))
      && (b.global <= b'.global || (a.WorkerStep? && a.u in b'.hand && b.global == [b'.hand[a.u]] + b'.global))
  {
    if a.WorkerStep? { WorkerTakesFirst(s, a.u, a.took, u); }
  }

  lemma WorkerTakesFirst(s: State, v: Uid, took: bool, u: Uid)
    requires WorkerEnabled(s, v, took) && u < |s.box.local|
    ensures var b, b' := s.box, WorkerNext(s, v, took);
      && u < |b'.local|
      && (b'.local[u] == b.local[u] || (v == u && u in b'.hand && b.local[u] == [b'.hand[u]] + b'.local[u]))
      && (b'.global == b.global || (v in b'.hand && b.global == [b'.hand[v]] + b'.global))
  {
  }

  ghost predicate Gone(s: State, u: Uid) {
    u < |s.crew.ctl| && u < |s.box.local| && s.crew.ctl[u].pc.WGone?
  }

  lemma GoneCrew(s: State, a: Action, u: Uid)
    requires Inv(s) && Enabled(s, a) && Gone(s, u)
    ensures u < |Next(s, a).crew.ctl| && Next(s, a).crew.ctl[u].pc.WGone?
  {
  }

  lemma GoneStays(s: State, a: Action, u: Uid)
    requires Inv(s) && Enabled(s, a) && Gone(s, u)
    ensures Gone(Next(s, a), u) && s.box.local[u] <= Next(s, a).box.local[u]
  {
    GoneCrew(s, a, u);
    QueuesAreFifo(s, a, u);
  }

  lemma GoneInRun(states: seq<State>, actions: seq<Action>, k: nat, u: Uid)
    requires IsRun(Init, Moves, states, actions) && k < |actions| && Gone(states[k], u)
    ensures Gone(states[k + 1], u) && states[k].box.local[u] <= states[k + 1].box.local[u]
  {
    RunInv(states, actions, k);
    assert StepAt(Moves, states, actions, k);
    GoneStays(states[k], actions[k], u);
  }

  /** What a worker leaves in its queue when it is retired is never run: from then on the queue only grows,
      by submitters that had picked it before the slice was cut. */
  lemma {:induction false} RetiredQueueIsStranded(states: seq<State>, actions: seq<Action>, j: nat, k: nat, u: Uid)
    requires IsRun(Init, Moves, states, actions) && j <= k < |states| && Gone(states[j], u)
    ensures Gone(states[k], u) && states[j].box.local[u] <= states[k].box.local[u]
  {
    if j < k {
      RetiredQueueIsStranded(states, actions, j, k - 1, u);
      GoneInRun(states, actions, k - 1, u);
    }
  }

  /** Nothing but the other parties holds a goroutine up: a submitter always has a next step (in particular
      the length it divides by is never zero), and so has every worker that was started and has not left. */
  lemma NobodyIsStuck(s: State, t: Tid, u: Uid)
    requires Inv(s)
    ensures t in s.box.subs ==> forall nano :: Enabled(s, SubmitStep(t, nano, false)) || Enabled(s, SubmitStep(t, nano, true))
    ensures u < |s.crew.ctl| && !s.crew.ctl[u].pc.WNew? && !s.crew.ctl[u].pc.WGone? ==>
      Enabled(s, WorkerStep(u, false)) || Enabled(s, WorkerStep(u, true))
  {
  }
}
