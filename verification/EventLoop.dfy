/** The event loop of internal/concurrency/eventloop.go: Run as the steps of one goroutine, against any
    number of goroutines pushing events, registering and unregistering handlers, and stopping the loop. */
module EventLoop {
  import opened Bits
  import opened Runs

  type Handler = nat

  const MAX_BACKOFF: nat := 1_000_000

  /** Where Run is: clearing the batch, draining, looking at the batch, waiting, loading the handlers,
      calling handler h for event e of the batch, or out. */
  datatype Pc<Ev> =
    | RTop
    | RDrain(i: nat, batch: seq<Ev>)
    | RCheck(batch: seq<Ev>)
    | RWait
    | RLoad(batch: seq<Ev>)
    | RCall(batch: seq<Ev>, snap: seq<Handler>, e: nat, h: nat)
    | RExited

  /** An event given to all handlers of a snapshot, in the n-th batch. */
  datatype Delivery<Ev> = Delivery(ev: Ev, snap: seq<Handler>, n: nat)

  /** `stored` lists the handler slices ever stored, the current one last; `accepted` the events whose Push
      returned true; `calls` the calls of HandleEvent; `idle` the timeouts since the backoff was reset. */
  datatype State<Ev> = State(
    pc: Pc<Ev>, inbox: seq<Ev>, cap: nat, batchSize: nat, backoff: int, quit: bool, stored: seq<seq<Handler>>,
    accepted: seq<Ev>, done: seq<Delivery<Ev>>, calls: seq<(Ev, Handler)>, batches: nat, idle: nat)

  datatype Choice = Quit | Receive | Timeout

  datatype Action<Ev> =
    | Push(ev: Ev, ok: bool)
    | Register(hd: Handler)
    | Unregister(hd: Handler)
    | Stop
    | Run(choice: Choice)

  // ---- the handler slice ------------------------------------------------------------------------------

  function Without(hs: seq<Handler>, h: Handler): seq<Handler> {
    if hs == [] then [] else Without(hs[..|hs| - 1], h) + (if hs[|hs| - 1] != h then [hs[|hs| - 1]] else [])
  }

  /** The new slice of RegisterHandler, filled by copying the old one. */
  method CopyAppend(handlers: seq<Handler>, h: Handler) returns (copied: array<Handler>)
    ensures fresh(copied) && copied[..] == handlers + [h]
  {
    copied := new Handler[|handlers| + 1](_ => h);
    var i := 0;
    while i < |handlers|
      invariant i <= |handlers| && copied[..i] == handlers[..i] && copied[|handlers|] == h
    {
      copied[i] := handlers[i];
      i := i + 1;
    }
  }

  /** The filtering loop of UnregisterHandler. */
  method Filter(hs: seq<Handler>, h: Handler) returns (kept: seq<Handler>)
    ensures kept == Without(hs, h)
  {
    kept := [];
    var i := 0;
    while i < |hs|
      invariant i <= |hs| && kept == Without(hs[..i], h)
    {
      assert hs[..i + 1][..i] == hs[..i];
      if hs[i] != h {
        kept := kept + [hs[i]];
      }
      i := i + 1;
    }
    assert hs[..|hs|] == hs;
  }

  /** Exactly the occurrences of h go. */
  lemma {:induction false} WithoutRemovesAll(hs: seq<Handler>, h: Handler, g: Handler)
    ensures multiset(Without(hs, h))[g] == if g == h then 0 else multiset(hs)[g]
  {
    if hs != [] {
      var n := |hs| - 1;
      WithoutRemovesAll(hs[..n], h, g);
      CountLast(hs, g);
      if hs[n] != h { CountLast(Without(hs, h), g); }
    }
  }

  lemma CountLast(hs: seq<Handler>, g: Handler)
    requires hs != []
    ensures multiset(hs)[g] == multiset(hs[..|hs| - 1])[g] + (if hs[|hs| - 1] == g then 1 else 0)
  {
    assert hs == hs[..|hs| - 1] + [hs[|hs| - 1]];
  }

  /** Unregistering undoes registering, and leaves the slice as it was if h was not in it. */
  lemma {:induction false} WithoutUndoes(hs: seq<Handler>, h: Handler)
    ensures Without(hs + [h], h) == Without(hs, h)
    ensures h !in hs ==> Without(hs, h) == hs
  {
    assert (hs + [h])[..|hs|] == hs;
    if hs != [] {
      var n := |hs| - 1;
      WithoutUndoes(hs[..n], h);
      assert hs == hs[..n] + [hs[n]];
    }
  }

  // ---- steps ------------------------------------------------------------------------------------------

  ghost predicate Init<Ev>(s: State<Ev>) {
    && s.pc.RTop? && s.inbox == [] && s.backoff == 1 && !s.quit && s.stored == [[]]
    && s.accepted == [] && s.done == [] && s.calls == [] && s.batches == 0 && s.idle == 0
  }

  /** On an unbuffered channel the one event being handed over counts as the inbox. */
  predicate Room<Ev>(s: State<Ev>) {
    |s.inbox| < (if s.cap == 0 then 1 else s.cap)
  }

  predicate Enabled<Ev>(s: State<Ev>, a: Action<Ev>) {
    && s.stored != []
    && match a
       case Push(_, ok) => if ok then Room(s) else s.quit
       case Register(_) => true
       case Unregister(_) => true
       case Stop => true
       case Run(c) =>
         && !s.pc.RExited?
         && (s.pc.RWait? ==> (c.Quit? ==> s.quit) && (c.Receive? ==> s.inbox != []))
  }

  function Doubled(b: int): int {
    if b * 2 > MAX_BACKOFF then MAX_BACKOFF else b * 2
  }

  function Drain<Ev>(s: State<Ev>, i: nat, batch: seq<Ev>): State<Ev> {
    if i < s.batchSize && s.inbox != [] then s.(pc := RDrain(i + 1, batch + [s.inbox[0]]), inbox := s.inbox[1..])
    else s.(pc := RCheck(batch))
  }

  function Wait<Ev>(s: State<Ev>, c: Choice): State<Ev>
    requires c.Receive? ==> s.inbox != []
  {
    match c
    case Quit => s.(pc := RExited)
    case Receive => s.(pc := RLoad([s.inbox[0]]), inbox := s.inbox[1..], backoff := 1, idle := 0)
    case Timeout => s.(pc := RTop, backoff := Doubled(s.backoff), idle := s.idle + 1)
  }

  function Call<Ev>(s: State<Ev>, b: seq<Ev>, snap: seq<Handler>, e: nat, h: nat): State<Ev> {
    if e >= |b| then s.(pc := RTop, backoff := 1, idle := 0)
    else if h < |snap| then s.(pc := RCall(b, snap, e, h + 1), calls := s.calls + [(b[e], snap[h])])
    else s.(pc := RCall(b, snap, e + 1, 0), done := s.done + [Delivery(b[e], snap, s.batches)])
  }

  function RunStep<Ev>(s: State<Ev>, c: Choice): State<Ev>
    requires s.stored != [] && (s.pc.RWait? && c.Receive? ==> s.inbox != [])
  {
    match s.pc
    case RTop => s.(pc := RDrain(0, []))
    case RDrain(i, batch) => Drain(s, i, batch)
    case RCheck(batch) => s.(pc := if batch == [] then RWait else RLoad(batch))
    case RWait => Wait(s, c)
    case RLoad(batch) => s.(pc := RCall(batch, s.stored[|s.stored| - 1], 0, 0), batches := s.batches + 1)
    case RCall(b, snap, e, h) => Call(s, b, snap, e, h)
    case RExited => s
  }

  function Next<Ev>(s: State<Ev>, a: Action<Ev>): State<Ev>
    requires Enabled(s, a)
  {
    match a
    case Push(ev, ok) => if ok then s.(inbox := s.inbox + [ev], accepted := s.accepted + [ev]) else s
    case Register(h) => s.(stored := s.stored + [s.stored[|s.stored| - 1] + [h]])
    case Unregister(h) => s.(stored := s.stored + [Without(s.stored[|s.stored| - 1], h)])
    case Stop => s.(quit := true)
    case Run(c) => RunStep(s, c)
  }

  // ---- what every run keeps -----------------------------------------------------------------------------

  function Events<Ev>(ds: seq<Delivery<Ev>>): seq<Ev> {
    seq(|ds|, i requires 0 <= i < |ds| => ds[i].ev)
  }

  /** Taken from the inbox and not yet given to all handlers. */
  function InHand<Ev>(pc: Pc<Ev>): seq<Ev> {
    match pc
    case RDrain(_, batch) => batch
    case RCheck(batch) => batch
    case RLoad(batch) => batch
    case RCall(batch, _, e, _) => if e <= |batch| then batch[e..] else []
    case _ => []
  }

  /** One call for each handler of the snapshot, in order. */
  function CallsFor<Ev>(ev: Ev, snap: seq<Handler>): seq<(Ev, Handler)> {
    seq(|snap|, i requires 0 <= i < |snap| => (ev, snap[i]))
  }

  function Expand<Ev>(ds: seq<Delivery<Ev>>): seq<(Ev, Handler)> {
    if ds == [] then [] else Expand(ds[..|ds| - 1]) + CallsFor(ds[|ds| - 1].ev, ds[|ds| - 1].snap)
  }

  /** The calls made so far for the event being dispatched. */
  function Partial<Ev>(pc: Pc<Ev>): seq<(Ev, Handler)> {
    if pc.RCall? && pc.e < |pc.batch| && pc.h <= |pc.snap| then CallsFor(pc.batch[pc.e], pc.snap[..pc.h]) else []
  }

  ghost predicate InOrder<Ev>(s: State<Ev>) {
    && s.accepted == Events(s.done) + InHand(s.pc) + s.inbox
    && (s.pc.RCall? ==> s.pc.e <= |s.pc.batch|)
  }

  ghost predicate Called<Ev>(s: State<Ev>) {
    && s.calls == Expand(s.done) + Partial(s.pc)
    && (s.pc.RCall? ==> s.pc.h <= |s.pc.snap| && (s.pc.e >= |s.pc.batch| ==> s.pc.h == 0))
  }

  /** All events of one batch go to the same snapshot, which is one of the slices stored. */
  ghost predicate OneSnapshot<Ev>(s: State<Ev>) {
    && s.stored != []
    && (forall i :: 0 <= i < |s.done| ==> s.done[i].n <= s.batches && s.done[i].snap in s.stored)
    && (forall i, j :: 0 <= i < j < |s.done| && s.done[i].n == s.done[j].n ==> s.done[i].snap == s.done[j].snap)
    && (s.pc.RCall? ==> s.pc.snap in s.stored)
    && (s.pc.RCall? ==> forall i :: 0 <= i < |s.done| && s.done[i].n == s.batches ==> s.done[i].snap == s.pc.snap)
  }

  function Limit(batchSize: nat): nat {
    if batchSize == 0 then 1 else batchSize
  }

  ghost predicate Bounded<Ev>(s: State<Ev>) {
    && |s.inbox| <= Limit(s.cap)
    && (s.pc.RDrain? ==> |s.pc.batch| == s.pc.i <= s.batchSize)
    && (s.pc.RCheck? ==> |s.pc.batch| <= s.batchSize)
    && (s.pc.RLoad? || s.pc.RCall? ==> 1 <= |s.pc.batch| <= Limit(s.batchSize))
  }

  /** The backoff doubles with every timeout up to its maximum. */
  ghost predicate BackedOff<Ev>(s: State<Ev>) {
    s.backoff == (if Pow2(s.idle) <= MAX_BACKOFF then Pow2(s.idle) else MAX_BACKOFF)
  }

  ghost predicate Inv<Ev>(s: State<Ev>) {
    InOrder(s) && Called(s) && OneSnapshot(s) && Bounded(s) && BackedOff(s)
  }

  lemma EventsAppend<Ev>(ds: seq<Delivery<Ev>>, d: Delivery<Ev>)
    ensures Events(ds + [d]) == Events(ds) + [d.ev]
  {
  }

  /** Moving the first element of c to the end of b keeps a + b + c. */
  lemma Shift<T>(a: seq<T>, b: seq<T>, c: seq<T>)
    requires c != []
    ensures a + b + c == a + (b + [c[0]]) + c[1..]
    ensures a + b + c == (a + b + [c[0]]) + c[1..]
  {
    assert c == [c[0]] + c[1..];
  }

  lemma InOrderDrain<Ev>(s: State<Ev>)
    requires InOrder(s) && s.pc.RDrain?
    ensures InOrder(Drain(s, s.pc.i, s.pc.batch))
  {
    if s.inbox != [] { Shift(Events(s.done), s.pc.batch, s.inbox); }
  }

  lemma InOrderWait<Ev>(s: State<Ev>, c: Choice)
    requires InOrder(s) && s.pc.RWait? && (c.Receive? ==> s.inbox != [])
    ensures InOrder(Wait(s, c))
  {
    if s.inbox != [] { Shift(Events(s.done), [], s.inbox); }
  }

  lemma PassOne<T>(a: seq<T>, b: seq<T>, e: nat)
    requires e < |b|
    ensures a + b[e..] == (a + [b[e]]) + b[e + 1..]
  {
    assert b[e..] == [b[e]] + b[e + 1..];
  }

  lemma InOrderCall<Ev>(s: State<Ev>)
    requires InOrder(s) && s.pc.RCall?
    ensures InOrder(Call(s, s.pc.batch, s.pc.snap, s.pc.e, s.pc.h))
  {
    var pc := s.pc;
    if pc.e < |pc.batch| {
      EventsAppend(s.done, Delivery(pc.batch[pc.e], pc.snap, s.batches));
      PassOne(Events(s.done), pc.batch, pc.e);
    }
  }

  lemma InOrderStep<Ev>(s: State<Ev>, a: Action<Ev>)
    requires InOrder(s) && Enabled(s, a)
    ensures InOrder(Next(s, a))
  {
    if a.Run? {
      if s.pc.RDrain? {
        InOrderDrain(s);
      } else if s.pc.RWait? {
        InOrderWait(s, a.choice);
      } else if s.pc.RCall? {
        InOrderCall(s);
      }
    }
  }

  lemma CalledCall<Ev>(s: State<Ev>)
    requires Called(s) && s.pc.RCall?
    ensures Called(Call(s, s.pc.batch, s.pc.snap, s.pc.e, s.pc.h))
  {
    var pc := s.pc;
    if pc.e < |pc.batch| {
      if pc.h < |pc.snap| { CalledNext(s); } else { CalledLast(s); }
    }
  }

  lemma CalledNext<Ev>(s: State<Ev>)
    requires Called(s) && s.pc.RCall? && s.pc.e < |s.pc.batch| && s.pc.h < |s.pc.snap|
    ensures Called(Call(s, s.pc.batch, s.pc.snap, s.pc.e, s.pc.h))
  {
    OneMoreCall(Expand(s.done), s.pc.batch[s.pc.e], s.pc.snap, s.pc.h);
  }

  lemma CalledLast<Ev>(s: State<Ev>)
    requires Called(s) && s.pc.RCall? && s.pc.e < |s.pc.batch| && s.pc.h == |s.pc.snap|
    ensures Called(Call(s, s.pc.batch, s.pc.snap, s.pc.e, s.pc.h))
  {
    var pc, d := s.pc, Delivery(s.pc.batch[s.pc.e], s.pc.snap, s.batches);
    LastCall(s.done, d);
    assert pc.snap[..pc.h] == pc.snap;
    assert Expand(s.done + [d]) + [] == Expand(s.done + [d]);
    assert Partial(RCall(pc.batch, pc.snap, pc.e + 1, 0)) == [];
  }

  lemma OneMoreCall<Ev>(before: seq<(Ev, Handler)>, ev: Ev, snap: seq<Handler>, h: nat)
    requires h < |snap|
    ensures before + CallsFor(ev, snap[..h + 1]) == (before + CallsFor(ev, snap[..h])) + [(ev, snap[h])]
  {
  }

  lemma LastCall<Ev>(ds: seq<Delivery<Ev>>, d: Delivery<Ev>)
    ensures Expand(ds + [d]) == Expand(ds) + CallsFor(d.ev, d.snap)
  {
    assert (ds + [d])[..|ds|] == ds;
  }

  lemma CalledRun<Ev>(s: State<Ev>, c: Choice)
    requires Called(s) && Enabled(s, Run(c)) && !s.pc.RCall?
    ensures Called(RunStep(s, c))
  {
    var s' := RunStep(s, c);
    assert s'.calls == s.calls && s'.done == s.done && Partial(s'.pc) == [];
  }

  lemma CalledStep<Ev>(s: State<Ev>, a: Action<Ev>)
    requires Called(s) && Enabled(s, a)
    ensures Called(Next(s, a))
  {
    if a.Run? {
      if s.pc.RCall? { CalledCall(s); } else { CalledRun(s, a.choice); }
    }
  }

  lemma OneSnapshotCall<Ev>(s: State<Ev>)
    requires OneSnapshot(s) && s.pc.RCall?
    ensures OneSnapshot(Call(s, s.pc.batch, s.pc.snap, s.pc.e, s.pc.h))
  {
  }

  lemma OneSnapshotRun<Ev>(s: State<Ev>, c: Choice)
    requires OneSnapshot(s) && Enabled(s, Run(c)) && !s.pc.RCall?
    ensures OneSnapshot(RunStep(s, c))
  {
    var s' := RunStep(s, c);
    assert s'.done == s.done && s'.stored == s.stored;
  }

  lemma OneSnapshotStep<Ev>(s: State<Ev>, a: Action<Ev>)
    requires OneSnapshot(s) && Enabled(s, a)
    ensures OneSnapshot(Next(s, a))
  {
    if a.Run? {
      if s.pc.RCall? { OneSnapshotCall(s); } else { OneSnapshotRun(s, a.choice); }
    }
  }

  lemma BackoffDoubles(idle: nat)
    ensures var b := if Pow2(idle) <= MAX_BACKOFF then Pow2(idle) else MAX_BACKOFF;
      Doubled(b) == if Pow2(idle + 1) <= MAX_BACKOFF then Pow2(idle + 1) else MAX_BACKOFF
  {
  }

  lemma BoundedDrain<Ev>(s: State<Ev>)
    requires Bounded(s) && s.pc.RDrain?
    ensures Bounded(Drain(s, s.pc.i, s.pc.batch))
  {
  }

  lemma BoundedRun<Ev>(s: State<Ev>, c: Choice)
    requires Bounded(s) && Enabled(s, Run(c))
    ensures Bounded(RunStep(s, c))
  {
    if s.pc.RDrain? { BoundedDrain(s); }
  }

  lemma BoundedStep<Ev>(s: State<Ev>, a: Action<Ev>)
    requires Bounded(s) && Enabled(s, a)
    ensures Bounded(Next(s, a))
  {
    if a.Run? { BoundedRun(s, a.choice); }
  }

  lemma BackedOffStep<Ev>(s: State<Ev>, a: Action<Ev>)
    requires BackedOff(s) && Enabled(s, a)
    ensures BackedOff(Next(s, a))
  {
    BackoffDoubles(s.idle);
    assert Pow2(0) == 1;
  }

  // ---- runs -------------------------------------------------------------------------------------------

  ghost predicate Moves<Ev>(s: State<Ev>, a: Action<Ev>, s': State<Ev>) {
    Enabled(s, a) && s' == Next(s, a)
  }

  lemma StepInv<Ev>(s: State<Ev>, a: Action<Ev>)
    requires Inv(s) && Enabled(s, a)
    ensures Inv(Next(s, a))
  {
    InOrderStep(s, a);
    CalledStep(s, a);
    OneSnapshotStep(s, a);
    BoundedStep(s, a);
    BackedOffStep(s, a);
  }

  lemma InitInv<Ev>(s: State<Ev>)
    requires Init(s)
    ensures Inv(s)
  {
    assert Pow2(0) == 1;
  }

  lemma RunInv<Ev(!new)>(states: seq<State<Ev>>, actions: seq<Action<Ev>>, k: nat)
    requires IsRun(Init, Moves, states, actions) && k < |states|
    ensures Inv(states[k])
  {
    forall s: State<Ev> | Init(s) ensures Inv(s) { InitInv(s); }
    forall s: State<Ev>, a, s' | Inv(s) && Moves(s, a, s') ensures Inv(s') { StepInv(s, a); }
    Invariant(Init, Moves, Inv, states, actions, k);
  }

  /** In every state of every run the accepted events are, in order, those delivered, those in the batch
      and those in the inbox; every delivered event was given once to each handler of one stored slice, the
      same for its whole batch, in the order of acceptance; batches stay in their bounds; and the backoff
      is two to the number of timeouts since it was reset, up to its maximum. */
  lemma RunIsSafe<Ev(!new)>(states: seq<State<Ev>>, actions: seq<Action<Ev>>, k: nat)
    requires IsRun(Init, Moves, states, actions) && k < |states|
    ensures var s := states[k];
      && s.accepted == Events(s.done) + InHand(s.pc) + s.inbox
      && s.calls == Expand(s.done) + Partial(s.pc)
      && (forall i :: 0 <= i < |s.done| ==> s.done[i].snap in s.stored)
      && (forall i, j :: 0 <= i < j < |s.done| && s.done[i].n == s.done[j].n ==> s.done[i].snap == s.done[j].snap)
      && |InHand(s.pc)| <= Limit(s.batchSize) && |s.inbox| <= Limit(s.cap)
      && 1 <= s.backoff <= 1_000_000
      && s.backoff == (if Pow2(s.idle) <= 1_000_000 then Pow2(s.idle) else 1_000_000)
  {
    RunInv(states, actions, k);
  }

  /** Only the goroutine in Run calls handlers, and when it waits with an empty inbox every accepted event
      has been given to its handlers. */
  lemma IdleMeansDelivered<Ev(!new)>(states: seq<State<Ev>>, actions: seq<Action<Ev>>, k: nat)
    requires IsRun(Init, Moves, states, actions) && k < |states| && states[k].pc.RWait? && states[k].inbox == []
    ensures states[k].accepted == Events(states[k].done) && states[k].calls == Expand(states[k].done)
  {
    RunInv(states, actions, k);
  }
}
