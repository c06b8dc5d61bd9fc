/** Which handlers an event of internal/concurrency/eventloop.go reaches: over every run of EventLoop, from the Push
    that accepted the event and the Register and Unregister calls around it to the calls made for it. */
module EventDelivery {
  import opened EventLoop
  import opened Runs

  /** The slice of handlers in place. */
  function Current<Ev>(s: State<Ev>): seq<Handler>
    requires s.stored != []
  {
    s.stored[|s.stored| - 1]
  }

  // ---- which slice a batch gets --------------------------------------------------------------------------

  /** Before state k, at state l, Run loaded this slice as the one in place, with the first n events accepted. */
  ghost predicate LoadedAt<Ev>(states: seq<State<Ev>>, l: nat, k: nat, snap: seq<Handler>, n: nat) {
    && l < k && l < |states| && states[l].pc.RLoad? && n <= |states[l].accepted|
    && states[l].stored != [] && Current(states[l]) == snap
  }

  ghost predicate Loaded<Ev>(states: seq<State<Ev>>, k: nat, snap: seq<Handler>, n: nat) {
    exists l: nat :: LoadedAt(states, l, k, snap, n)
  }

  ghost predicate Fresh<Ev>(states: seq<State<Ev>>, k: nat)
    requires k < |states|
  {
    && (forall i: nat :: i < |states[k].done| ==> Loaded(states, k, states[k].done[i].snap, i + 1))
    && (states[k].pc.RCall? ==> Loaded(states, k, states[k].pc.snap, |states[k].done| + |InHand(states[k].pc)|))
  }

  lemma StillLoaded<Ev>(states: seq<State<Ev>>, k: nat, snap: seq<Handler>, n: nat, m: nat)
    requires Loaded(states, k, snap, n) && m <= n
    ensures Loaded(states, k + 1, snap, m)
  {
    var l: nat :| LoadedAt(states, l, k, snap, n);
    assert LoadedAt(states, l, k + 1, snap, m);
  }

  lemma DoneStaysFresh<Ev>(states: seq<State<Ev>>, k: nat)
    requires k + 1 < |states| && Fresh(states, k)
    ensures forall i: nat :: i < |states[k].done| ==> Loaded(states, k + 1, states[k].done[i].snap, i + 1)
  {
    forall i: nat | i < |states[k].done|
      ensures Loaded(states, k + 1, states[k].done[i].snap, i + 1)
    {
      StillLoaded(states, k, states[k].done[i].snap, i + 1, i + 1);
    }
  }

  lemma FreshCall<Ev>(states: seq<State<Ev>>, k: nat)
    requires k + 1 < |states| && Fresh(states, k) && InOrder(states[k]) && states[k].pc.RCall?
    requires var pc := states[k].pc; states[k + 1] == Call(states[k], pc.batch, pc.snap, pc.e, pc.h)
    ensures Fresh(states, k + 1)
  {
    var s, pc := states[k], states[k].pc;
    DoneStaysFresh(states, k);
    var n := |s.done| + |InHand(pc)|;
    StillLoaded(states, k, pc.snap, n, n);
    if pc.e < |pc.batch| { StillLoaded(states, k, pc.snap, n, |s.done| + 1); }
  }

  lemma FreshLoad<Ev>(states: seq<State<Ev>>, k: nat, c: Choice)
    requires k + 1 < |states| && Fresh(states, k) && Inv(states[k]) && states[k].pc.RLoad?
    requires states[k + 1] == RunStep(states[k], c)
    ensures Fresh(states, k + 1)
  {
    DoneStaysFresh(states, k);
    assert LoadedAt(states, k, k + 1, states[k + 1].pc.snap, |states[k + 1].done| + |InHand(states[k + 1].pc)|);
  }

  lemma FreshElse<Ev>(states: seq<State<Ev>>, k: nat)
    requires k + 1 < |states| && Fresh(states, k) && states[k + 1].done == states[k].done
    requires states[k + 1].pc == states[k].pc || !states[k + 1].pc.RCall?
    ensures Fresh(states, k + 1)
  {
    DoneStaysFresh(states, k);
    if states[k + 1].pc.RCall? {
      var pc, n := states[k].pc, |states[k].done| + |InHand(states[k].pc)|;
      StillLoaded(states, k, pc.snap, n, n);
    }
  }

  /** No other step delivers anything or loads a slice. */
  lemma OtherSteps<Ev>(s: State<Ev>, a: Action<Ev>)
    requires Enabled(s, a) && !(a.Run? && (s.pc.RCall? || s.pc.RLoad?))
    ensures var s' := Next(s, a); s'.done == s.done && (s'.pc == s.pc || !s'.pc.RCall?)
  {
  }

  lemma FreshStep<Ev>(states: seq<State<Ev>>, k: nat, a: Action<Ev>)
    requires k + 1 < |states| && Fresh(states, k) && Inv(states[k]) && Moves(states[k], a, states[k + 1])
    ensures Fresh(states, k + 1)
  {
    if a.Run? && states[k].pc.RCall? {
      FreshCall(states, k);
    } else if a.Run? && states[k].pc.RLoad? {
      FreshLoad(states, k, a.choice);
    } else {
      OtherSteps(states[k], a);
      FreshElse(states, k);
    }
  }

  lemma {:induction false} RunFresh<Ev(!new)>(states: seq<State<Ev>>, actions: seq<Action<Ev>>, k: nat)
    requires IsRun(Init, Moves, states, actions) && k < |states|
    ensures Fresh(states, k)
  {
    if k > 0 {
      RunFresh(states, actions, k - 1);
      RunInv(states, actions, k - 1);
      assert StepAt(Moves, states, actions, k - 1);
      FreshStep(states, k - 1, actions[k - 1]);
    }
  }

  // ---- from Push to delivery -------------------------------------------------------------------------------

  lemma AcceptedStep<Ev>(s: State<Ev>, a: Action<Ev>)
    requires Enabled(s, a)
    ensures Next(s, a).accepted == s.accepted + (if a.Push? && a.ok then [a.ev] else [])
  {
  }

  lemma {:induction false} AcceptedGrows<Ev(!new)>(states: seq<State<Ev>>, actions: seq<Action<Ev>>, j: nat, k: nat)
    requires IsRun(Init, Moves, states, actions) && j <= k < |states|
    ensures states[j].accepted <= states[k].accepted
    decreases k
  {
    if j < k {
      AcceptedGrows(states, actions, j, k - 1);
      assert StepAt(Moves, states, actions, k - 1);
      AcceptedStep(states[k - 1], actions[k - 1]);
    }
  }

  /** Step p is the Push that made ev the i-th accepted event. */
  ghost predicate PushedAt<Ev>(states: seq<State<Ev>>, actions: seq<Action<Ev>>, p: nat, i: nat, ev: Ev) {
    p < |actions| && |states| == |actions| + 1 && actions[p] == Push(ev, true) && |states[p].accepted| == i
  }

  /** An event keeps its place among the accepted ones, and before its Push that place was not taken. */
  lemma KeepsItsPlace<Ev(!new)>(states: seq<State<Ev>>, actions: seq<Action<Ev>>, p: nat, i: nat, ev: Ev, k: nat)
    requires IsRun(Init, Moves, states, actions) && PushedAt(states, actions, p, i, ev) && k < |states|
    ensures p < k ==> i < |states[k].accepted| && states[k].accepted[i] == ev
    ensures k <= p ==> |states[k].accepted| <= i
  {
    if p < k {
      assert StepAt(Moves, states, actions, p);
      AcceptedStep(states[p], actions[p]);
      AcceptedGrows(states, actions, p + 1, k);
      assert states[p + 1].accepted[i] == ev;
    } else {
      AcceptedGrows(states, actions, k, p);
    }
  }

  /** A Push is refused only after Stop, and then changes nothing. */
  lemma RefusedOnlyAfterStop<Ev(!new)>(states: seq<State<Ev>>, actions: seq<Action<Ev>>, p: nat)
    requires IsRun(Init, Moves, states, actions) && p < |actions| && actions[p].Push? && !actions[p].ok
    ensures states[p].quit && states[p + 1] == states[p]
  {
    assert StepAt(Moves, states, actions, p);
  }

  /** A Push waits exactly as long as the inbox is full and the loop not stopped; an inbox without a buffer holds the one
      event being handed over. */
  lemma PushWaitsIff<Ev(!new)>(states: seq<State<Ev>>, actions: seq<Action<Ev>>, k: nat, ev: Ev)
    requires IsRun(Init, Moves, states, actions) && k < |states|
    ensures !(exists ok :: Enabled(states[k], Push(ev, ok))) <==>
      |states[k].inbox| == (if states[k].cap == 0 then 1 else states[k].cap) && !states[k].quit
  {
    RunInv(states, actions, k);
    var s := states[k];
    assert s.quit ==> Enabled(s, Push(ev, false));
    assert |s.inbox| < Limit(s.cap) ==> Enabled(s, Push(ev, true));
  }

  lemma DeliveredIsAccepted<Ev>(s: State<Ev>, i: nat)
    requires InOrder(s) && i < |s.done|
    ensures i < |s.accepted| && s.accepted[i] == s.done[i].ev
  {
    assert Events(s.done)[i] == s.done[i].ev;
  }

  /** The i-th event accepted is the i-th delivered, and goes to the slice that was in place at a moment after its
      Push, when Run loaded it. */
  lemma DeliveredFresh<Ev(!new)>(states: seq<State<Ev>>, actions: seq<Action<Ev>>, p: nat, i: nat, ev: Ev, k: nat)
      returns (l: nat)
    requires IsRun(Init, Moves, states, actions) && PushedAt(states, actions, p, i, ev)
    requires k < |states| && i < |states[k].done|
    ensures p < l < k && states[l].pc.RLoad? && states[l].stored != []
    ensures states[k].done[i].ev == ev && states[k].done[i].snap == Current(states[l])
  {
    RunInv(states, actions, k);
    DeliveredIsAccepted(states[k], i);
    KeepsItsPlace(states, actions, p, i, ev, k);
    RunFresh(states, actions, k);
    var snap, n := states[k].done[i].snap, i + 1;
    assert Loaded(states, k, snap, n);
    l :| LoadedAt(states, l, k, snap, n);
    KeepsItsPlace(states, actions, p, i, ev, l);
  }

  // ---- the calls made for one event --------------------------------------------------------------------------

  lemma {:induction false} ExpandPrefix<Ev>(ds: seq<Delivery<Ev>>, i: nat)
    requires i <= |ds|
    ensures Expand(ds[..i]) <= Expand(ds)
    decreases |ds|
  {
    if i < |ds| {
      ExpandPrefix(ds[..|ds| - 1], i);
      assert ds[..|ds| - 1][..i] == ds[..i];
    } else {
      assert ds[..i] == ds;
    }
  }

  /** The calls made for the i-th delivered event: those after the calls for the ones before it. */
  function Made<Ev>(s: State<Ev>, i: nat): seq<(Ev, Handler)>
    requires Called(s) && i < |s.done|
  {
    ExpandPrefix(s.done, i);
    ExpandPrefix(s.done, i + 1);
    ExpandNext(s.done, i);
    s.calls[|Expand(s.done[..i])|..|Expand(s.done[..i + 1])|]
  }

  lemma ExpandNext<Ev>(ds: seq<Delivery<Ev>>, i: nat)
    requires i < |ds|
    ensures Expand(ds[..i + 1]) == Expand(ds[..i]) + CallsFor(ds[i].ev, ds[i].snap)
  {
    assert ds[..i + 1][..i] == ds[..i];
  }

  lemma MiddleOf<T>(a: seq<T>, b: seq<T>, all: seq<T>)
    requires a + b <= all
    ensures all[|a|..|a + b|] == b
  {
  }

  lemma MadeIs<Ev>(s: State<Ev>, i: nat)
    requires Called(s) && i < |s.done|
    ensures Made(s, i) == CallsFor(s.done[i].ev, s.done[i].snap)
  {
    ExpandNext(s.done, i);
    ExpandPrefix(s.done, i + 1);
    MiddleOf(Expand(s.done[..i]), CallsFor(s.done[i].ev, s.done[i].snap), s.calls);
  }

  lemma {:induction false} CallsCount<Ev>(ev: Ev, snap: seq<Handler>, h: Handler)
    ensures multiset(CallsFor(ev, snap))[(ev, h)] == multiset(snap)[h]
  {
    if snap != [] {
      var n := |snap| - 1;
      CallsCount(ev, snap[..n], h);
      CountLast(snap, h);
      assert CallsFor(ev, snap) == CallsFor(ev, snap[..n]) + [(ev, snap[n])];
    }
  }

  // ---- who is registered ---------------------------------------------------------------------------------------

  /** How often h is registered after these steps: once more with every Register, not at all after an Unregister. */
  function Registered<Ev>(actions: seq<Action<Ev>>, h: Handler): nat {
    if actions == [] then 0 else
    var before, last := Registered(actions[..|actions| - 1], h), actions[|actions| - 1];
    if last.Register? && last.hd == h then before + 1 else if last.Unregister? && last.hd == h then 0 else before
  }

  lemma CurrentStep<Ev>(s: State<Ev>, a: Action<Ev>, h: Handler)
    requires Enabled(s, a)
    ensures var s' := Next(s, a);
      && s'.stored != []
      && multiset(Current(s'))[h] == if a.Register? && a.hd == h then multiset(Current(s))[h] + 1
                                     else if a.Unregister? && a.hd == h then 0 else multiset(Current(s))[h]
  {
    match a
    case Register(g) => CountLast(Current(s) + [g], h); assert (Current(s) + [g])[..|Current(s)|] == Current(s);
    case Unregister(g) => WithoutRemovesAll(Current(s), g, h);
    case Run(c) => assert Next(s, a).stored == s.stored;
    case _ =>
  }

  /** The slice in place holds every handler as often as it is registered. */
  lemma {:induction false} CurrentIsRegistered<Ev(!new)>(states: seq<State<Ev>>, actions: seq<Action<Ev>>, k: nat, h: Handler)
    requires IsRun(Init, Moves, states, actions) && k < |states|
    ensures states[k].stored != [] && multiset(Current(states[k]))[h] == Registered(actions[..k], h)
    decreases k
  {
    if k > 0 {
      CurrentIsRegistered(states, actions, k - 1, h);
      assert StepAt(Moves, states, actions, k - 1);
      CurrentStep(states[k - 1], actions[k - 1], h);
      assert actions[..k][..k - 1] == actions[..k - 1];
    }
  }

  /** Nothing about h happens from step j to step k - 1. */
  ghost predicate Steady<Ev>(actions: seq<Action<Ev>>, j: nat, k: nat, h: Handler) {
    forall m :: j <= m < k && m < |actions| ==> actions[m] != Register(h) && actions[m] != Unregister(h)
  }

  lemma {:induction false} SteadyRegistered<Ev>(actions: seq<Action<Ev>>, j: nat, k: nat, h: Handler)
    requires j <= k <= |actions| && Steady(actions, j, k, h)
    ensures Registered(actions[..k], h) == Registered(actions[..j], h)
    decreases k
  {
    if j < k {
      SteadyRegistered(actions, j, k - 1, h);
      assert actions[..k][..k - 1] == actions[..k - 1];
      assert actions[k - 1] != Register(h) && actions[k - 1] != Unregister(h);
    }
  }

  /** The calls made for an event are all for it, and h is among them as often as it was registered at a moment
      between the event's Push and its delivery. */
  lemma CalledAsRegistered<Ev(!new)>(
      states: seq<State<Ev>>, actions: seq<Action<Ev>>, p: nat, i: nat, ev: Ev, k: nat, h: Handler) returns (l: nat)
    requires IsRun(Init, Moves, states, actions) && PushedAt(states, actions, p, i, ev)
    requires k < |states| && i < |states[k].done|
    ensures p < l < k && Called(states[k])
    ensures forall c :: c in Made(states[k], i) ==> c.0 == ev
    ensures multiset(Made(states[k], i))[(ev, h)] == Registered(actions[..l], h)
  {
    l := DeliveredFresh(states, actions, p, i, ev, k);
    RunInv(states, actions, k);
    MadeIs(states[k], i);
    CallsCount(ev, states[k].done[i].snap, h);
    CurrentIsRegistered(states, actions, l, h);
  }

  /** A handler about which nothing changes between an event's Push and its delivery is called for the event exactly
      once for every time it was registered when the event was pushed. */
  lemma SteadyHandlerIsCalled<Ev(!new)>(
      states: seq<State<Ev>>, actions: seq<Action<Ev>>, p: nat, i: nat, ev: Ev, k: nat, h: Handler)
    requires IsRun(Init, Moves, states, actions) && PushedAt(states, actions, p, i, ev)
    requires k < |states| && i < |states[k].done| && Steady(actions, p, k, h)
    ensures Called(states[k]) && multiset(Made(states[k], i))[(ev, h)] == Registered(actions[..p], h)
  {
    var l := CalledAsRegistered(states, actions, p, i, ev, k, h);
    SteadyRegistered(actions, p, l, h);
  }

  // ---- every event can be delivered ------------------------------------------------------------------------------

  /** A step of Run, and nobody else's. */
  ghost predicate Alone<Ev>(s: State<Ev>, a: Action<Ev>, s': State<Ev>) {
    a.Run? && Moves(s, a, s')
  }

  function Rank<Ev>(pc: Pc<Ev>): nat {
    match pc
    case RTop => 5
    case RDrain(_, _) => 4
    case RCheck(_) => 3
    case RLoad(_) => 2
    case RCall(batch, _, e, _) => if e < |batch| then 1 else 6
    case _ => 0
  }

  function CallsLeft<Ev>(pc: Pc<Ev>): nat {
    if pc.RCall? && pc.h <= |pc.snap| then |pc.snap| - pc.h else 0
  }

  /** s' has less to do than s. */
  ghost predicate Less<Ev>(s: State<Ev>, s': State<Ev>) {
    && |s'.inbox| <= |s.inbox|
    && (|s'.inbox| == |s.inbox| ==> |InHand(s'.pc)| <= |InHand(s.pc)|)
    && (|s'.inbox| == |s.inbox| && |InHand(s'.pc)| == |InHand(s.pc)| ==>
      Rank(s'.pc) < Rank(s.pc) || (Rank(s'.pc) == Rank(s.pc) && CallsLeft(s'.pc) < CallsLeft(s.pc)))
  }

  lemma CallGetsOn<Ev>(s: State<Ev>)
    requires s.pc.RCall? && s.pc.e <= |s.pc.batch| && s.pc.h <= |s.pc.snap|
    ensures Less(s, Call(s, s.pc.batch, s.pc.snap, s.pc.e, s.pc.h))
  {
  }

  /** Unless it waits with nothing in the inbox, Run has a step that gets on with its work. */
  lemma GetsOn<Ev>(s: State<Ev>)
    requires Inv(s) && !s.pc.RExited? && !(s.pc.RWait? && s.inbox == [])
    ensures Enabled(s, Run(Receive))
    ensures var s' := Next(s, Run(Receive)); !s'.pc.RExited? && s'.accepted == s.accepted && Less(s, s')
  {
    if s.pc.RCall? { CallGetsOn(s); }
  }

  ghost predicate AllDelivered<Ev>(s: State<Ev>) {
    s.pc.RWait? && s.accepted == Events(s.done) && s.calls == Expand(s.done)
  }

  lemma {:induction false} DeliversAll<Ev(!new)>(s0: State<Ev>, s: State<Ev>) returns (end: State<Ev>)
    requires CanReach(Alone, s0, s) && Inv(s) && !s.pc.RExited?
    ensures CanReach(Alone, s0, end) && end.accepted == s.accepted && AllDelivered(end)
    decreases |s.inbox|, |InHand(s.pc)|, Rank(s.pc), CallsLeft(s.pc)
  {
    if s.pc.RWait? && s.inbox == [] {
      end := s;
    } else {
      GetsOn(s);
      var s' := Next(s, Run(Receive));
      StepInv(s, Run(Receive));
      GoOn(Alone, s0, s, Run(Receive), s');
      end := DeliversAll(s0, s');
    }
  }

  /** From every state of every run, unless Run has returned, its own steps alone can deliver every accepted
      event. */
  lemma AllCanBeDelivered<Ev(!new)>(states: seq<State<Ev>>, actions: seq<Action<Ev>>, k: nat) returns (end: State<Ev>)
    requires IsRun(Init, Moves, states, actions) && k < |states| && !states[k].pc.RExited?
    ensures CanReach(Alone, states[k], end) && end.accepted == states[k].accepted && AllDelivered(end)
  {
    RunInv(states, actions, k);
    Stay(Alone, states[k]);
    end := DeliversAll(states[k], states[k]);
  }

  /** Run returns only after Stop. */
  lemma {:induction false} ExitsOnlyAfterStop<Ev(!new)>(states: seq<State<Ev>>, actions: seq<Action<Ev>>, k: nat)
    requires IsRun(Init, Moves, states, actions) && k < |states|
    ensures states[k].pc.RExited? ==> states[k].quit
    ensures states[k].quit <==> exists m :: 0 <= m < k && actions[m].Stop?
    decreases k
  {
    if k > 0 {
      ExitsOnlyAfterStop(states, actions, k - 1);
      assert StepAt(Moves, states, actions, k - 1);
      QuitStep(states[k - 1], actions[k - 1]);
    }
  }

  /** What a step says about the looks at the inbox. */
  ghost predicate Looks<Ev>(s: State<Ev>, a: Action<Ev>, s': State<Ev>) {
    && (s'.pc.RWait? && !s.pc.RWait? ==> s.pc == RCheck([]))
    && (s.pc.RWait? && a.Run? ==> !s'.pc.RWait?)
    && (s'.pc == RCheck([]) && s.pc != RCheck([]) ==> s.pc == RDrain(0, []) && (s.inbox == [] || s.batchSize == 0))
  }

  lemma DrainLooks<Ev>(s: State<Ev>, c: Choice)
    requires Bounded(s) && s.pc.RDrain?
    ensures Looks(s, Run(c), Drain(s, s.pc.i, s.pc.batch))
  {
  }

  lemma RunLooks<Ev>(s: State<Ev>, c: Choice)
    requires Bounded(s) && Enabled(s, Run(c))
    ensures Looks(s, Run(c), RunStep(s, c))
  {
    if s.pc.RDrain? { DrainLooks(s, c); }
  }

  /** Run begins to wait only after a look at the inbox that found nothing, unless its batches are of no event, and looks
      again after every wait. */
  lemma WaitsOnlyAfterLooking<Ev(!new)>(states: seq<State<Ev>>, actions: seq<Action<Ev>>, k: nat)
    requires IsRun(Init, Moves, states, actions) && k < |actions|
    ensures Looks(states[k], actions[k], states[k + 1])
  {
    RunInv(states, actions, k);
    assert StepAt(Moves, states, actions, k);
    if actions[k].Run? { RunLooks(states[k], actions[k].choice); }
  }

  lemma QuitStep<Ev>(s: State<Ev>, a: Action<Ev>)
    requires Enabled(s, a)
    ensures var s' := Next(s, a); s'.quit == (s.quit || a.Stop?) && (s'.pc.RExited? && !s.pc.RExited? ==> s.quit)
  {
  }
}
