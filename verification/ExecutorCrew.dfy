/** The workers of core/concurrency/executor.go, the two slices that list them and the resize manager. */
module ExecutorCrew {
  /** Workers and their local queues are named by the order of their creation. */
  type Uid = nat

  // ---- the crew: workers, slices and the resize manager -----------------------------------------

  datatype Pc = WNew | WCheck | WLocal | WGlobal | WRun | WLeave | WGone

  datatype Control = Control(id: nat, pc: Pc, stopCloses: nat)

  datatype Manager =
    | MIdle
    | MAddQueue(i: nat, n: nat)
    | MAddWorker(i: nat, n: nat)
    | MClose(i: nat, n: nat)
    | MWait(i: nat, n: nat)
    | MCutWorkers(n: nat)
    | MCutQueues(n: nat)

  datatype Crew = Crew(workers: seq<Uid>, queues: seq<Uid>, ctl: seq<Control>, mgr: Manager)

  /** The manager takes the mutex and picks its branch. */
  function BeginResize(c: Crew, request: int): Crew {
    var n := if request <= 0 then 1 else request;
    var current := |c.workers|;
    if n > current then c.(mgr := MAddQueue(current, n))
    else if n < current then c.(mgr := MClose(n, n))
    else c
  }

  /** Receiving from stoppedCh waits until the worker has closed it. */
  predicate CanManage(c: Crew) {
    && !c.mgr.MIdle?
    && (c.mgr.MWait? && c.mgr.i < |c.workers| ==> c.workers[c.mgr.i] < |c.ctl| && c.ctl[c.workers[c.mgr.i]].pc.WGone?)
    && (c.mgr.MClose? && c.mgr.i < |c.workers| ==> c.workers[c.mgr.i] < |c.ctl|)
    && (c.mgr.MAddWorker? ==> c.ctl != [])
    && (c.mgr.MCutWorkers? ==> c.mgr.n <= |c.workers|)
    && (c.mgr.MCutQueues? ==> c.mgr.n <= |c.queues|)
  }

  function Grow(c: Crew, i: nat, n: nat): Crew {
    if i < n then c.(queues := c.queues + [|c.ctl|], ctl := c.ctl + [Control(i, WNew, 0)], mgr := MAddWorker(i, n))
    else c.(mgr := MIdle)
  }

  function Hire(c: Crew, i: nat, n: nat): Crew
    requires c.ctl != []
  {
    var u := |c.ctl| - 1;
    c.(workers := c.workers + [u], ctl := c.ctl[u := c.ctl[u].(pc := WCheck)], mgr := MAddQueue(i + 1, n))
  }

  function CloseStop(c: Crew, i: nat, n: nat): Crew
    requires i < |c.workers| ==> c.workers[i] < |c.ctl|
  {
    if i < |c.workers| then
      var u := c.workers[i];
      c.(ctl := c.ctl[u := c.ctl[u].(stopCloses := c.ctl[u].stopCloses + 1)], mgr := MClose(i + 1, n))
    else c.(mgr := MWait(n, n))
  }

  function Manage(c: Crew): Crew
    requires CanManage(c)
  {
    match c.mgr
    case MIdle => c
    case MAddQueue(i, n) => Grow(c, i, n)
    case MAddWorker(i, n) => Hire(c, i, n)
    case MClose(i, n) => CloseStop(c, i, n)
    case MWait(i, n) => c.(mgr := if i < |c.workers| then MWait(i + 1, n) else MCutWorkers(n))
    case MCutWorkers(n) => c.(workers := c.workers[..n], mgr := MCutQueues(n))
    case MCutQueues(n) => c.(queues := c.queues[..n], mgr := MIdle)
  }

  /** The worker's loop, up to the tasks it takes: `took` says that it found one. */
  function NextPc(w: Control, took: bool): Pc {
    match w.pc
    case WNew => WNew
    case WCheck => if w.stopCloses > 0 then WLeave else WLocal
    case WLocal => if took then WRun else WGlobal
    case WGlobal => if took then WRun else if w.stopCloses > 0 then WLeave else WCheck
    case WRun => WCheck
    case WLeave => WGone
    case WGone => WGone
  }

  function Work(c: Crew, u: Uid, took: bool): Crew
    requires u < |c.ctl|
  {
    c.(ctl := c.ctl[u := c.ctl[u].(pc := NextPc(c.ctl[u], took))])
  }

  // ---- the crew's invariant ---------------------------------------------------------------------

  /** How far the manager is with slot k: told to stop, and known to have exited. */
  predicate Told(m: Manager, k: nat) {
    match m
    case MClose(i, n) => n <= k < i
    case MWait(_, n) => n <= k
    case MCutWorkers(n) => n <= k
    case MCutQueues(n) => n <= k
    case _ => false
  }

  predicate Awaited(m: Manager, k: nat) {
    match m
    case MWait(i, n) => n <= k < i
    case MCutWorkers(n) => n <= k
    case MCutQueues(n) => n <= k
    case _ => false
  }

  /** The slices as the manager's position says: queue i belongs to worker i. */
  ghost predicate Slices(c: Crew) {
    && 1 <= |c.workers| <= |c.queues|
    && c.workers == c.queues[..|c.workers|]
    && match c.mgr
       case MIdle => |c.queues| == |c.workers|
       case MAddQueue(i, n) => |c.queues| == |c.workers| == i <= n
       case MAddWorker(i, n) => |c.workers| == i < n && |c.queues| == i + 1 && c.queues[i] == |c.ctl| - 1
       case MClose(i, n) => |c.queues| == |c.workers| && 1 <= n <= i <= |c.workers|
       case MWait(i, n) => |c.queues| == |c.workers| && 1 <= n <= i <= |c.workers|
       case MCutWorkers(n) => |c.queues| == |c.workers| && 1 <= n <= |c.workers|
       case MCutQueues(n) => |c.workers| == n
  }

  ghost predicate Slots(c: Crew) {
    && (forall k :: 0 <= k < |c.queues| ==> c.queues[k] < |c.ctl| && c.ctl[c.queues[k]].id == k)
    && (forall j, k :: 0 <= j < k < |c.queues| ==> c.queues[j] != c.queues[k])
  }

  ghost predicate Stops(c: Crew)
    requires Slots(c)
  {
    && (forall k: nat :: k < |c.queues| ==> c.ctl[c.queues[k]].stopCloses == if Told(c.mgr, k) then 1 else 0)
    && (forall k: nat :: k < |c.queues| && Awaited(c.mgr, k) ==> c.ctl[c.queues[k]].pc.WGone?)
    && (forall u: Uid :: u < |c.ctl| && u !in c.queues ==> c.ctl[u].stopCloses == 1 && c.ctl[u].pc.WGone?)
    && (forall u: Uid :: u < |c.ctl| && c.ctl[u].stopCloses == 0 ==> !c.ctl[u].pc.WLeave? && !c.ctl[u].pc.WGone?)
    && (forall u: Uid :: u < |c.ctl| ==> (c.ctl[u].pc.WNew? <==> c.mgr.MAddWorker? && u == |c.ctl| - 1))
  }

  ghost predicate CrewInv(c: Crew) {
    Slices(c) && Slots(c) && Stops(c)
  }

  lemma BeginKeeps(c: Crew, request: int)
    requires CrewInv(c) && c.mgr.MIdle?
    ensures CrewInv(BeginResize(c, request))
  {
  }

  lemma GrowSlots(c: Crew, i: nat, n: nat)
    requires Slots(c) && |c.queues| == i < n
    ensures Slots(Grow(c, i, n))
  {
    var c' := Grow(c, i, n);
    assert forall k :: 0 <= k < |c.queues| ==> c'.queues[k] == c.queues[k] && c'.ctl[c.queues[k]] == c.ctl[c.queues[k]];
  }

  lemma GrowKeeps(c: Crew, i: nat, n: nat)
    requires CrewInv(c) && c.mgr == MAddQueue(i, n)
    ensures CrewInv(Grow(c, i, n))
  {
    if i < n {
      GrowSlots(c, i, n);
      var c' := Grow(c, i, n);
      assert c'.queues[..|c.queues|] == c.queues && c'.queues[|c.queues|] == |c.ctl|;
    }
  }

  lemma HireKeeps(c: Crew, i: nat, n: nat)
    requires CrewInv(c) && c.mgr == MAddWorker(i, n) && c.ctl != []
    ensures CrewInv(Hire(c, i, n))
  {
  }

  lemma CloseStopSlots(c: Crew, i: nat, n: nat)
    requires Slices(c) && Slots(c) && c.mgr == MClose(i, n)
    ensures Slices(CloseStop(c, i, n)) && Slots(CloseStop(c, i, n))
  {
  }

  lemma CloseStopKeeps(c: Crew, i: nat, n: nat)
    requires CrewInv(c) && c.mgr == MClose(i, n)
    ensures CrewInv(CloseStop(c, i, n))
  {
    CloseStopSlots(c, i, n);
  }

  lemma WaitKeeps(c: Crew)
    requires CrewInv(c) && c.mgr.MWait? && CanManage(c)
    ensures CrewInv(Manage(c))
  {
  }

  lemma CutWorkersKeeps(c: Crew)
    requires CrewInv(c) && c.mgr.MCutWorkers?
    ensures CrewInv(Manage(c))
  {
  }

  lemma CutQueuesKeeps(c: Crew)
    requires CrewInv(c) && c.mgr.MCutQueues?
    ensures CrewInv(Manage(c))
  {
  }

  lemma ManageKeeps(c: Crew)
    requires CrewInv(c) && CanManage(c)
    ensures CrewInv(Manage(c))
  {
    match c.mgr
    case MIdle =>
    case MAddQueue(i, n) => GrowKeeps(c, i, n);
    case MAddWorker(i, n) => HireKeeps(c, i, n);
    case MClose(i, n) => CloseStopKeeps(c, i, n);
    case MWait(_, _) => WaitKeeps(c);
    case MCutWorkers(_) => CutWorkersKeeps(c);
    case MCutQueues(_) => CutQueuesKeeps(c);
  }

  lemma WorkSlots(c: Crew, u: Uid, took: bool)
    requires Slices(c) && Slots(c) && u < |c.ctl|
    ensures Slices(Work(c, u, took)) && Slots(Work(c, u, took))
  {
  }

  lemma WorkKeeps(c: Crew, u: Uid, took: bool)
    requires CrewInv(c) && u < |c.ctl|
    ensures CrewInv(Work(c, u, took))
  {
    WorkSlots(c, u, took);
  }

  /** The manager can always go on, unless it waits for a worker it has told to stop. */
  lemma ManagerProgress(c: Crew)
    requires CrewInv(c) && !c.mgr.MIdle?
    ensures CanManage(c) || (c.mgr.MWait? && c.mgr.i < |c.workers| && c.ctl[c.workers[c.mgr.i]].stopCloses == 1)
  {
    assert forall k: nat :: k < |c.workers| ==> c.workers[k] == c.queues[k];
  }
}
