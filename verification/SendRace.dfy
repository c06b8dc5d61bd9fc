/** SendFrame, Close and sendLoop of protocol/connection.go racing on one connection, one transition per
    atomic flag access, channel operation and transport call.  The send loop is started by SendFrame
    alone; the last section says when Start may be called too. */
module SendRace {
  import opened Runs

  type Tid = nat

  const MAX_BATCH: nat := 32

  /** `late` records whether the closed flag was already set when the call began. */
  datatype Caller<T> =
    | SCheckClosed(f: T, late: bool)
    | SCheckRunning(f: T, late: bool)
    | SSwapRunning(f: T, late: bool)
    | SSpawn(f: T, late: bool)
    | SCheckAgain(f: T, late: bool)
    | SSelect(f: T, late: bool)
    | SDirect(f: T, late: bool)
    | CSwapClosed
    | CCloseDone
    | CCloseTransport

  datatype Loop<T> =
    | LReady
    | LTaking(batch: seq<T>)
    | LSending(batch: seq<T>)
    | LSwapClosed
    | LCloseDone
    | LCloseTransport
    | LExited

  datatype Who = ByCaller(t: Tid) | ByLoop(i: nat) | Nobody

  /** `accepted` lists the frames put into the outbox, `wire` those sent, `lost` what was not
      written whole of a batch whose send failed.  `starter` and `closer` say who is between winning a flag and acting on it. */
  datatype State<T> = State(
    closed: bool, running: bool, doneCloses: nat, transportCloses: nat, cap: nat,
    outbox: seq<T>, callers: map<Tid, Caller<T>>, loops: seq<Loop<T>>,
    accepted: seq<T>, wire: seq<T>, lost: seq<T>, starter: Who, closer: Who)

  /** `fails` says that the loop's select takes `done`, or that its send fails after `written` whole frames.
      On an outbox without a buffer a frame goes straight from the caller's select to the loop's. */
  datatype Action<T> =
    | BeginSend(t: Tid, f: T)
    | BeginClose(t: Tid)
    | Call(t: Tid, useDone: bool)
    | LoopStep(i: nat, fails: bool, written: nat)
    | HandOver(t: Tid, i: nat)

  ghost predicate Init<T>(s: State<T>) {
    && !s.closed && !s.running && s.doneCloses == 0 && s.transportCloses == 0
    && s.outbox == [] && s.callers == map[] && s.loops == [] && s.accepted == [] && s.wire == [] && s.lost == []
    && s.starter == Nobody && s.closer == Nobody
  }

  predicate Enabled<T>(s: State<T>, a: Action<T>) {
    match a
    case BeginSend(t, _) => t !in s.callers
    case BeginClose(t) => t !in s.callers
    case Call(t, useDone) =>
      t in s.callers && (s.callers[t].SSelect? ==> if useDone then s.doneCloses > 0 else |s.outbox| < s.cap)
    case LoopStep(i, fails, written) =>
      && i < |s.loops| && !s.loops[i].LExited?
      && (s.loops[i].LReady? ==> if fails then s.doneCloses > 0 else s.outbox != [])
      && (s.loops[i].LSending? ==> written <= |s.loops[i].batch|)
    case HandOver(t, i) =>
      && s.cap == 0 && s.outbox == [] && t in s.callers && s.callers[t].SSelect?
      && i < |s.loops| && (s.loops[i].LReady? || (s.loops[i].LTaking? && |s.loops[i].batch| < MAX_BATCH))
  }

  function Goto<T>(s: State<T>, t: Tid, c: Caller<T>): State<T> {
    s.(callers := s.callers[t := c])
  }

  function Return<T>(s: State<T>, t: Tid): State<T> {
    s.(callers := s.callers - {t})
  }

  predicate InSend<T>(c: Caller<T>) {
    !c.CSwapClosed? && !c.CCloseDone? && !c.CCloseTransport?
  }

  function SendStep<T>(s: State<T>, t: Tid, c: Caller<T>, useDone: bool): State<T>
    requires InSend(c)
  {
    match c
    case SCheckClosed(f, late) => if s.closed then Return(s, t) else Goto(s, t, SCheckRunning(f, late))
    case SCheckRunning(f, late) => Goto(s, t, if s.running then SCheckAgain(f, late) else SSwapRunning(f, late))
    case SSwapRunning(f, late) =>
      if s.running then Goto(s, t, SCheckAgain(f, late))
      else s.(callers := s.callers[t := SSpawn(f, late)], running := true, starter := ByCaller(t))
    case SSpawn(f, late) =>
      s.(callers := s.callers[t := SCheckAgain(f, late)], loops := s.loops + [LReady], starter := Nobody)
    case SCheckAgain(f, late) => if s.running then Goto(s, t, SSelect(f, late)) else Goto(s, t, SDirect(f, late))
    case SSelect(f, _) =>
      if useDone then Return(s, t)
      else s.(callers := s.callers - {t}, outbox := s.outbox + [f], accepted := s.accepted + [f])
    case SDirect(f, _) => s.(callers := s.callers - {t}, wire := s.wire + [f])
  }

  function CloseStep<T>(s: State<T>, t: Tid, c: Caller<T>): State<T>
    requires !InSend(c)
  {
    match c
    case CSwapClosed =>
      if s.closed then Return(s, t) else s.(callers := s.callers[t := CCloseDone], closed := true, closer := ByCaller(t))
    case CCloseDone => s.(callers := s.callers[t := CCloseTransport], doneCloses := s.doneCloses + 1)
    case CCloseTransport => s.(callers := s.callers - {t}, transportCloses := s.transportCloses + 1, closer := Nobody)
  }

  function Become<T>(s: State<T>, i: nat, l: Loop<T>): State<T>
    requires i < |s.loops|
  {
    s.(loops := s.loops[i := l])
  }

  predicate Pumping<T>(l: Loop<T>) {
    l.LReady? || l.LTaking? || l.LSending?
  }

  function PumpStep<T>(s: State<T>, i: nat, l: Loop<T>, fails: bool, written: nat): State<T>
    requires i < |s.loops| && Pumping(l) && (l.LReady? && !fails ==> s.outbox != [])
    requires l.LSending? ==> written <= |l.batch|
  {
    match l
    case LReady =>
      if fails then Become(s, i, LExited) else Become(s, i, LTaking([s.outbox[0]])).(outbox := s.outbox[1..])
    case LTaking(b) =>
      if |b| < MAX_BATCH && s.outbox != [] then Become(s, i, LTaking(b + [s.outbox[0]])).(outbox := s.outbox[1..])
      else Become(s, i, LSending(b))
    case LSending(b) =>
      if fails then Become(s, i, LSwapClosed).(wire := s.wire + b[..written], lost := s.lost + b[written..])
      else Become(s, i, LReady).(wire := s.wire + b)
  }

  function LoopCloseStep<T>(s: State<T>, i: nat, l: Loop<T>): State<T>
    requires i < |s.loops| && !Pumping(l) && !l.LExited?
  {
    match l
    case LSwapClosed =>
      if s.closed then Become(s, i, LExited) else Become(s, i, LCloseDone).(closed := true, closer := ByLoop(i))
    case LCloseDone => Become(s, i, LCloseTransport).(doneCloses := s.doneCloses + 1)
    case LCloseTransport => Become(s, i, LExited).(transportCloses := s.transportCloses + 1, closer := Nobody)
  }

  function LoopNext<T>(s: State<T>, i: nat, fails: bool, written: nat): State<T>
    requires Enabled(s, LoopStep(i, fails, written))
  {
    if Pumping(s.loops[i]) then PumpStep(s, i, s.loops[i], fails, written) else LoopCloseStep(s, i, s.loops[i])
  }

  /** What the loop has taken and not yet sent. */
  function Batch<T>(l: Loop<T>): seq<T> {
    if l.LTaking? || l.LSending? then l.batch else []
  }

  function Handed<T>(s: State<T>, t: Tid, f: T, i: nat): State<T>
    requires i < |s.loops|
  {
    Become(Return(s, t), i, LTaking(Batch(s.loops[i]) + [f])).(accepted := s.accepted + [f])
  }

  function Next<T>(s: State<T>, a: Action<T>): State<T>
    requires Enabled(s, a)
  {
    match a
    case BeginSend(t, f) => Goto(s, t, SCheckClosed(f, s.closed))
    case BeginClose(t) => Goto(s, t, CSwapClosed)
    case Call(t, useDone) =>
      if InSend(s.callers[t]) then SendStep(s, t, s.callers[t], useDone) else CloseStep(s, t, s.callers[t])
    case LoopStep(i, fails, written) => LoopNext(s, i, fails, written)
    case HandOver(t, i) => Handed(s, t, s.callers[t].f, i)
  }

  // ---- the invariant -------------------------------------------------------------------------

  /** The running flag was won once, and its winner starts the only loop. */
  ghost predicate OneLoop<T>(s: State<T>) {
    && |s.loops| == (if s.running && s.starter == Nobody then 1 else 0)
    && (s.starter != Nobody ==> s.running && s.starter.ByCaller? && s.starter.t in s.callers && s.callers[s.starter.t].SSpawn?)
    && (forall t :: t in s.callers && s.callers[t].SSpawn? ==> s.starter == ByCaller(t))
    && (forall t :: t in s.callers && (s.callers[t].SCheckAgain? || s.callers[t].SSelect?) ==> s.running)
    && (forall t :: t in s.callers ==> !s.callers[t].SDirect?)
  }

  ghost predicate ClosingCaller<T>(s: State<T>, c: Caller<T>) {
    (c.CCloseDone? && s.doneCloses == 0) || (c.CCloseTransport? && s.transportCloses == 0 && s.doneCloses == 1)
  }

  ghost predicate ClosingLoop<T>(s: State<T>, l: Loop<T>) {
    (l.LCloseDone? && s.doneCloses == 0) || (l.LCloseTransport? && s.transportCloses == 0 && s.doneCloses == 1)
  }

  /** The closed flag was won once, and its winner closes `done` and then the transport. */
  ghost predicate OneClose<T>(s: State<T>) {
    && s.transportCloses <= s.doneCloses <= (if s.closed then 1 else 0)
    && (forall t :: t in s.callers && (s.callers[t].CCloseDone? || s.callers[t].CCloseTransport?) ==> s.closer == ByCaller(t))
    && (forall i :: 0 <= i < |s.loops| && (s.loops[i].LCloseDone? || s.loops[i].LCloseTransport?) ==> s.closer == ByLoop(i))
    && (s.closer.ByCaller? ==> s.closer.t in s.callers && ClosingCaller(s, s.callers[s.closer.t]))
    && (s.closer.ByLoop? ==> s.closer.i < |s.loops| && ClosingLoop(s, s.loops[s.closer.i]))
    && (s.closer != Nobody ==> s.closed)
    && (s.closed && s.closer == Nobody ==> s.transportCloses == 1)
  }

  function InHand<T>(s: State<T>): seq<T> {
    if |s.loops| == 1 then Batch(s.loops[0]) else []
  }

  ghost predicate WireOrder<T>(s: State<T>) {
    && s.accepted == s.wire + s.lost + InHand(s) + s.outbox
    && (s.lost != [] ==> |s.loops| == 1 && !Pumping(s.loops[0]))
    && (forall i :: 0 <= i < |s.loops| ==> |Batch(s.loops[i])| <= MAX_BATCH)
  }

  /** A SendFrame that began after the flag was set gets no further than its first test. */
  ghost predicate NoLateSend<T>(s: State<T>) {
    forall t :: t in s.callers ==>
      (s.callers[t].SCheckClosed? && s.callers[t].late ==> s.closed)
      && (InSend(s.callers[t]) && !s.callers[t].SCheckClosed? ==> !s.callers[t].late)
  }

  ghost predicate Inv<T>(s: State<T>) {
    OneLoop(s) && OneClose(s) && WireOrder(s) && NoLateSend(s)
  }

  /** A step of a caller that is outside the start protocol. */
  lemma OneLoopApart<T>(s: State<T>, t: Tid, s': State<T>)
    requires OneLoop(s) && s'.running == s.running && s'.starter == s.starter && |s'.loops| == |s.loops|
    requires forall u :: u != t ==> (u in s'.callers <==> u in s.callers) && (u in s.callers ==> s'.callers[u] == s.callers[u])
    requires t in s.callers ==> !s.callers[t].SSpawn?
    requires t in s'.callers ==> !s'.callers[t].SSpawn? && !s'.callers[t].SDirect?
    requires t in s'.callers && (s'.callers[t].SCheckAgain? || s'.callers[t].SSelect?) ==> s.running
    ensures OneLoop(s')
  {
  }

  lemma OneLoopSend<T>(s: State<T>, t: Tid, useDone: bool)
    requires OneLoop(s) && Enabled(s, Call(t, useDone)) && InSend(s.callers[t])
    ensures OneLoop(SendStep(s, t, s.callers[t], useDone))
  {
    var c := s.callers[t];
    if !c.SSpawn? && !(c.SSwapRunning? && !s.running) {
      OneLoopApart(s, t, SendStep(s, t, c, useDone));
    }
  }

  /** A step that is outside the close protocol. */
  lemma OneCloseApart<T>(s: State<T>, t: Tid, s': State<T>)
    requires OneClose(s) && s'.closed == s.closed && s'.closer == s.closer
    requires s'.doneCloses == s.doneCloses && s'.transportCloses == s.transportCloses
    requires s'.loops == s.loops || s'.loops == s.loops + [LReady]
    requires forall u :: u != t ==> (u in s'.callers <==> u in s.callers) && (u in s.callers ==> s'.callers[u] == s.callers[u])
    requires t in s.callers ==> !s.callers[t].CCloseDone? && !s.callers[t].CCloseTransport?
    requires t in s'.callers ==> !s'.callers[t].CCloseDone? && !s'.callers[t].CCloseTransport?
    ensures OneClose(s')
  {
  }

  lemma SendLeavesClose<T>(s: State<T>, t: Tid, c: Caller<T>, useDone: bool)
    requires InSend(c)
    ensures var s' := SendStep(s, t, c, useDone);
      && s'.closed == s.closed && s'.closer == s.closer
      && s'.doneCloses == s.doneCloses && s'.transportCloses == s.transportCloses
      && (s'.loops == s.loops || s'.loops == s.loops + [LReady])
      && (s'.callers == s.callers - {t} || (t in s'.callers && InSend(s'.callers[t]) && s'.callers == s.callers[t := s'.callers[t]]))
  {
  }

  lemma OneCloseSend<T>(s: State<T>, t: Tid, useDone: bool)
    requires OneClose(s) && Enabled(s, Call(t, useDone)) && InSend(s.callers[t])
    ensures OneClose(SendStep(s, t, s.callers[t], useDone))
  {
    SendLeavesClose(s, t, s.callers[t], useDone);
    OneCloseApart(s, t, SendStep(s, t, s.callers[t], useDone));
  }

  lemma OneCloseClose<T>(s: State<T>, t: Tid)
    requires OneClose(s) && t in s.callers && !InSend(s.callers[t])
    ensures OneClose(CloseStep(s, t, s.callers[t]))
  {
  }

  /** A step of the loop that is outside the close protocol. */
  lemma OneCloseBeside<T>(s: State<T>, i: nat, s': State<T>)
    requires OneClose(s) && s'.closed == s.closed && s'.closer == s.closer && s'.callers == s.callers
    requires s'.doneCloses == s.doneCloses && s'.transportCloses == s.transportCloses
    requires i < |s.loops| && !s.loops[i].LCloseDone? && !s.loops[i].LCloseTransport?
    requires |s'.loops| == |s.loops| && !s'.loops[i].LCloseDone? && !s'.loops[i].LCloseTransport?
    requires forall k :: 0 <= k < |s.loops| && k != i ==> s'.loops[k] == s.loops[k]
    ensures OneClose(s')
  {
  }

  lemma PumpLeavesClose<T>(s: State<T>, i: nat, l: Loop<T>, fails: bool, written: nat)
    requires i < |s.loops| && Pumping(l) && (l.LReady? && !fails ==> s.outbox != []) && (l.LSending? ==> written <= |l.batch|)
    ensures var s' := PumpStep(s, i, l, fails, written);
      && s'.closed == s.closed && s'.closer == s.closer && s'.callers == s.callers
      && s'.doneCloses == s.doneCloses && s'.transportCloses == s.transportCloses
      && |s'.loops| == |s.loops| && !s'.loops[i].LCloseDone? && !s'.loops[i].LCloseTransport?
      && s'.loops == s.loops[i := s'.loops[i]]
  {
  }

  lemma OneClosePump<T>(s: State<T>, i: nat, fails: bool, written: nat)
    requires OneClose(s) && Enabled(s, LoopStep(i, fails, written)) && Pumping(s.loops[i])
    ensures OneClose(PumpStep(s, i, s.loops[i], fails, written))
  {
    PumpLeavesClose(s, i, s.loops[i], fails, written);
    OneCloseBeside(s, i, PumpStep(s, i, s.loops[i], fails, written));
  }

  lemma OneCloseLoop<T>(s: State<T>, i: nat, fails: bool, written: nat)
    requires OneClose(s) && Enabled(s, LoopStep(i, fails, written)) && !Pumping(s.loops[i])
    ensures OneClose(LoopCloseStep(s, i, s.loops[i]))
  {
  }

  lemma WireOrderSend<T>(s: State<T>, t: Tid, useDone: bool)
    requires WireOrder(s) && OneLoop(s) && Enabled(s, Call(t, useDone)) && InSend(s.callers[t])
    ensures WireOrder(SendStep(s, t, s.callers[t], useDone))
  {
  }

  /** Moving the first queued frame to the end of the batch, or the batch to the wire, keeps the order. */
  lemma Take<T>(w: seq<T>, b: seq<T>, o: seq<T>)
    requires o != []
    ensures w + b + o == w + (b + [o[0]]) + o[1..]
  {
    assert o == [o[0]] + o[1..];
  }

  lemma Drop<T>(w: seq<T>, b: seq<T>, o: seq<T>, m: nat)
    requires m <= |b|
    ensures w + [] + b + o == (w + b) + [] + [] + o
    ensures w + [] + b + o == (w + b[..m]) + ([] + b[m..]) + [] + o
  {
    assert b == b[..m] + b[m..];
  }

  lemma WireOrderTake<T>(s: State<T>, i: nat, fails: bool, written: nat)
    requires WireOrder(s) && OneLoop(s) && Enabled(s, LoopStep(i, fails, written)) && (s.loops[i].LReady? || s.loops[i].LTaking?)
    ensures WireOrder(PumpStep(s, i, s.loops[i], fails, written))
  {
    if s.outbox != [] {
      Take(s.wire + s.lost, InHand(s), s.outbox);
    }
  }

  lemma WireOrderWrite<T>(s: State<T>, i: nat, fails: bool, written: nat)
    requires WireOrder(s) && OneLoop(s) && Enabled(s, LoopStep(i, fails, written)) && s.loops[i].LSending?
    ensures WireOrder(PumpStep(s, i, s.loops[i], fails, written))
  {
    Drop(s.wire, s.loops[i].batch, s.outbox, written);
  }

  lemma WireOrderLoop<T>(s: State<T>, i: nat, fails: bool, written: nat)
    requires WireOrder(s) && OneLoop(s) && Enabled(s, LoopStep(i, fails, written)) && !Pumping(s.loops[i])
    ensures WireOrder(LoopCloseStep(s, i, s.loops[i]))
  {
  }

  lemma SendInv<T>(s: State<T>, t: Tid, useDone: bool)
    requires Inv(s) && Enabled(s, Call(t, useDone)) && InSend(s.callers[t])
    ensures Inv(SendStep(s, t, s.callers[t], useDone))
  {
    OneLoopSend(s, t, useDone);
    OneCloseSend(s, t, useDone);
    WireOrderSend(s, t, useDone);
    NoLateSendStep(s, t, useDone);
  }

  lemma NoLateSendStep<T>(s: State<T>, t: Tid, useDone: bool)
    requires NoLateSend(s) && t in s.callers && InSend(s.callers[t])
    ensures NoLateSend(SendStep(s, t, s.callers[t], useDone))
  {
  }

  lemma CloseKeepsRest<T>(s: State<T>, t: Tid, c: Caller<T>)
    requires WireOrder(s) && NoLateSend(s) && t in s.callers && c == s.callers[t] && !InSend(c)
    ensures WireOrder(CloseStep(s, t, c)) && NoLateSend(CloseStep(s, t, c))
  {
  }

  lemma CloseInv<T>(s: State<T>, t: Tid)
    requires Inv(s) && t in s.callers && !InSend(s.callers[t])
    ensures Inv(CloseStep(s, t, s.callers[t]))
  {
    OneLoopApart(s, t, CloseStep(s, t, s.callers[t]));
    OneCloseClose(s, t);
    CloseKeepsRest(s, t, s.callers[t]);
  }

  lemma LoopLeavesCallers<T>(s: State<T>, i: nat, fails: bool, written: nat)
    requires OneLoop(s) && NoLateSend(s) && Enabled(s, LoopStep(i, fails, written))
    ensures OneLoop(LoopNext(s, i, fails, written)) && NoLateSend(LoopNext(s, i, fails, written))
  {
    var s' := LoopNext(s, i, fails, written);
    assert s'.callers == s.callers && s'.running == s.running && s'.starter == s.starter && |s'.loops| == |s.loops|;
  }

  lemma LoopInv<T>(s: State<T>, i: nat, fails: bool, written: nat)
    requires Inv(s) && Enabled(s, LoopStep(i, fails, written))
    ensures Inv(LoopNext(s, i, fails, written))
  {
    LoopLeavesCallers(s, i, fails, written);
    if Pumping(s.loops[i]) {
      OneClosePump(s, i, fails, written);
      if s.loops[i].LSending? { WireOrderWrite(s, i, fails, written); } else { WireOrderTake(s, i, fails, written); }
    } else {
      OneCloseLoop(s, i, fails, written);
      WireOrderLoop(s, i, fails, written);
    }
  }

  lemma HandOverInv<T>(s: State<T>, t: Tid, i: nat)
    requires Inv(s) && Enabled(s, HandOver(t, i))
    ensures Inv(Next(s, HandOver(t, i)))
  {
    var s' := Next(s, HandOver(t, i));
    OneLoopApart(s, t, s');
    OneCloseApart(s, t, Return(s, t));
    OneCloseBeside(Return(s, t), i, s');
    HandOverOrder(s, t, i);
    assert NoLateSend(s');
  }

  lemma HandOverOrder<T>(s: State<T>, t: Tid, i: nat)
    requires OneLoop(s) && WireOrder(s) && Enabled(s, HandOver(t, i))
    ensures WireOrder(Next(s, HandOver(t, i)))
  {
    assert s.lost == [] && i == 0;
  }

  lemma BeginInv<T>(s: State<T>, t: Tid, c: Caller<T>)
    requires Inv(s) && t !in s.callers && (c.CSwapClosed? || (c.SCheckClosed? && c.late == s.closed))
    ensures Inv(Goto(s, t, c))
  {
    OneLoopApart(s, t, Goto(s, t, c));
    OneCloseApart(s, t, Goto(s, t, c));
  }

  lemma StepInv<T>(s: State<T>, a: Action<T>)
    requires Inv(s) && Enabled(s, a)
    ensures Inv(Next(s, a))
  {
    match a
    case BeginSend(t, f) => BeginInv(s, t, SCheckClosed(f, s.closed));
    case BeginClose(t) => BeginInv(s, t, CSwapClosed);
    case Call(t, useDone) => if InSend(s.callers[t]) { SendInv(s, t, useDone); } else { CloseInv(s, t); }
    case LoopStep(i, fails, written) => LoopInv(s, i, fails, written);
    case HandOver(t, i) => HandOverInv(s, t, i);
  }

  // ---- runs ----------------------------------------------------------------------------------

  ghost predicate Moves<T>(s: State<T>, a: Action<T>, s': State<T>) {
    Enabled(s, a) && s' == Next(s, a)
  }

  lemma RunInv<T(!new)>(states: seq<State<T>>, actions: seq<Action<T>>, k: nat)
    requires IsRun(Init, Moves, states, actions) && k < |states|
    ensures Inv(states[k])
  {
    forall s: State<T>, a, s' | Inv(s) && Moves(s, a, s') ensures Inv(s') { StepInv(s, a); }
    Invariant(Init, Moves, Inv, states, actions, k);
  }

  /** In every state of every run there is at most one send loop, `done` and the transport were closed
      at most once and only after the flag was set, the frames on the wire are the first accepted ones in
      order, and what is not on the wire is, in order, what a failed send did not write of its batch, the
      batch in the loop's hand and the outbox. */
  lemma RunIsSafe<T(!new)>(states: seq<State<T>>, actions: seq<Action<T>>, k: nat)
    requires IsRun(Init, Moves, states, actions) && k < |states|
    ensures var s := states[k];
      && |s.loops| <= 1
      && s.transportCloses <= s.doneCloses <= (if s.closed then 1 else 0)
      && s.wire <= s.accepted
      && s.accepted == s.wire + s.lost + InHand(s) + s.outbox
      && (s.lost != [] ==> InHand(s) == [])
  {
    RunInv(states, actions, k);
  }

  /** A SendFrame that began after the closed flag was set changes nothing but its own progress: it never
      starts a loop, enqueues or writes to the transport. */
  lemma LateSendDoesNothing<T(!new)>(states: seq<State<T>>, actions: seq<Action<T>>, k: nat)
    requires IsRun(Init, Moves, states, actions) && k < |actions| && (actions[k].Call? || actions[k].HandOver?)
    requires actions[k].t in states[k].callers && InSend(states[k].callers[actions[k].t]) && states[k].callers[actions[k].t].late
    ensures actions[k].Call? && states[k + 1] == Return(states[k], actions[k].t)
  {
    RunInv(states, actions, k);
    assert StepAt(Moves, states, actions, k);
  }

  /** No SendFrame ever takes the branch that writes to the transport itself, so only the loop writes. */
  lemma OnlyTheLoopWrites<T(!new)>(states: seq<State<T>>, actions: seq<Action<T>>, k: nat)
    requires IsRun(Init, Moves, states, actions) && k < |actions|
    ensures states[k + 1].wire != states[k].wire ==>
      && actions[k].LoopStep? && actions[k].i == 0 && |states[k].loops| == 1 && states[k].loops[0].LSending?
      && 1 <= |states[k].loops[0].batch| <= 32 && actions[k].written <= |states[k].loops[0].batch|
      && states[k + 1].wire == states[k].wire +
        (if actions[k].fails then states[k].loops[0].batch[..actions[k].written] else states[k].loops[0].batch)
  {
    RunInv(states, actions, k);
    assert StepAt(Moves, states, actions, k);
    if actions[k].Call? { CallLeavesWire(states[k], actions[k].t, actions[k].useDone); }
  }

  lemma CallLeavesWire<T>(s: State<T>, t: Tid, useDone: bool)
    requires OneLoop(s) && Enabled(s, Call(t, useDone))
    ensures Next(s, Call(t, useDone)).wire == s.wire
  {
  }

  // ---- Start -------------------------------------------------------------------------------------

  /** Start sets the running flag and starts a loop without looking. */
  function Started<T>(s: State<T>): State<T> {
    s.(running := true, loops := s.loops + [LReady])
  }

  /** Calling Start is safe exactly if no SendFrame has won the running flag: then everything above goes on
      to hold, and otherwise there is a second loop, now or when the winner gets to start its own. */
  lemma StartIsSafeIff<T(!new)>(states: seq<State<T>>, actions: seq<Action<T>>, k: nat)
    requires IsRun(Init, Moves, states, actions) && k < |states|
    ensures Inv(Started(states[k])) <==> !states[k].running
    ensures |Started(states[k]).loops| + (if states[k].starter == Nobody then 0 else 1)
      == if states[k].running then 2 else 1
  {
    RunInv(states, actions, k);
    var s := states[k];
    if !s.running { assert OneClose(Started(s)); }
  }

  /** A connection in the middle of its first SendFrame. */
  function First(c: Caller<nat>, running: bool, loops: seq<Loop<nat>>, starter: Who): State<nat> {
    State(false, running, 0, 0, 1, [], map[0 := c], loops, [], [], [], starter, Nobody)
  }

  lemma FirstSendBegins()
    ensures Reachable(Init, Moves, First(SCheckClosed(5, false), false, [], Nobody))
  {
    var s0 := State(false, false, 0, 0, 1, [], map[], [], [], [], [], Nobody, Nobody);
    Start(Init, Moves, s0);
    Extend(Init, Moves, s0, BeginSend(0, 5), First(SCheckClosed(5, false), false, [], Nobody));
  }

  lemma FirstSendTests()
    ensures Reachable(Init, Moves, First(SSwapRunning(5, false), false, [], Nobody))
  {
    FirstSendBegins();
    var s1, s2 := First(SCheckClosed(5, false), false, [], Nobody), First(SCheckRunning(5, false), false, [], Nobody);
    Extend(Init, Moves, s1, Call(0, false), s2);
    Extend(Init, Moves, s2, Call(0, false), First(SSwapRunning(5, false), false, [], Nobody));
  }

  /** A SendFrame has started its loop, and then Start starts another. */
  lemma StartAfterSendRunsTwo() returns (s: State<nat>)
    ensures Reachable(Init, Moves, s) && |s.loops| == 1 && |Started(s).loops| == 2
  {
    FirstSendTests();
    var s3, s4 := First(SSwapRunning(5, false), false, [], Nobody), First(SSpawn(5, false), true, [], ByCaller(0));
    s := First(SCheckAgain(5, false), true, [LReady], Nobody);
    Extend(Init, Moves, s3, Call(0, false), s4);
    Extend(Init, Moves, s4, Call(0, false), s);
  }
}
