/** The inbound queue of highlevel/conn.go: enqueueIncoming, the overflow worker, readers and Close racing on
    one connection.  Buffers are numbered by their arrival. */
module Inbound {
  import opened Buffers
  import opened Options
  import opened Runs

  type Tid = nat

  /** A call of enqueueIncoming: before the fast path, before starting the worker, before the spill. */
  datatype Producer = PTry(b: Buffer) | PStart(b: Buffer) | PSpill(b: Buffer)

  datatype Worker = WNone | WSelect | WHold(b: Buffer) | WDrain | WGone

  /** The one execution of Close's body: the closed flag is clear exactly at COpen. */
  datatype Closer = COpen | CDrain | CUnderlying | CClosed

  datatype Place = Incoming | Overflow | Hand | With(t: Tid) | Delivered | Released | Dropped

  datatype Box = Box(
    incoming: seq<Buffer>, overflow: seq<Buffer>, worker: Worker, producers: map<Tid, Producer>,
    delivered: seq<nat>, released: set<nat>, dropped: set<nat>, place: map<nat, Place>)

  // ---- ownership --------------------------------------------------------------------------------------

  predicate At(b: Box, id: nat, p: Place) {
    match p
    case Incoming => Has(b.incoming, id)
    case Overflow => Has(b.overflow, id)
    case Hand => b.worker.WHold? && b.worker.b.id == id
    case With(t) => t in b.producers && b.producers[t].b.id == id
    case Delivered => id in b.delivered
    case Released => id in b.released
    case Dropped => id in b.dropped
  }

  ghost predicate Owned(b: Box) {
    && (forall id, p :: At(b, id, p) <==> id in b.place && b.place[id] == p)
    && NoDup(b.incoming) && NoDup(b.overflow)
    && (forall i, j :: 0 <= i < j < |b.delivered| ==> b.delivered[i] != b.delivered[j])
  }

  function Arrive(b: Box, t: Tid, x: Buffer): Box {
    b.(producers := b.producers[t := PTry(x)], place := b.place[x.id := With(t)])
  }

  function Fast(b: Box, t: Tid, x: Buffer): Box {
    b.(incoming := b.incoming + [x], producers := b.producers - {t}, place := b.place[x.id := Incoming])
  }

  function Spill(b: Box, t: Tid, x: Buffer): Box {
    b.(overflow := b.overflow + [x], producers := b.producers - {t}, place := b.place[x.id := Overflow])
  }

  function GiveUp(b: Box, t: Tid, x: Buffer): Box {
    b.(producers := b.producers - {t}, released := b.released + {x.id}, place := b.place[x.id := Released])
  }

  function Pick(b: Box): Box
    requires b.overflow != []
  {
    b.(overflow := b.overflow[1..], worker := WHold(b.overflow[0]), place := b.place[b.overflow[0].id := Hand])
  }

  function Forward(b: Box, x: Buffer): Box {
    b.(incoming := b.incoming + [x], worker := WSelect, place := b.place[x.id := Incoming])
  }

  function LetGo(b: Box, x: Buffer): Box {
    b.(worker := WGone, released := b.released + {x.id}, place := b.place[x.id := Released])
  }

  function ReleaseSpilled(b: Box): Box
    requires b.overflow != []
  {
    var id := b.overflow[0].id;
    b.(overflow := b.overflow[1..], released := b.released + {id}, place := b.place[id := Released])
  }

  /** A receive from incoming: a reader keeps a buffer with data, Close releases it; either drops one without. */
  function Receive(b: Box, byReader: bool): Box
    requires b.incoming != []
  {
    var x, b' := b.incoming[0], b.(incoming := b.incoming[1..]);
    if x.data.Nil? then b'.(dropped := b.dropped + {x.id}, place := b.place[x.id := Dropped])
    else if byReader then b'.(delivered := b.delivered + [x.id], place := b.place[x.id := Delivered])
    else b'.(released := b.released + {x.id}, place := b.place[x.id := Released])
  }

  lemma ArriveKeeps(b: Box, t: Tid, x: Buffer)
    requires Owned(b) && t !in b.producers && x.id !in b.place
    ensures Owned(Arrive(b, t, x))
  {
    var b' := Arrive(b, t, x);
    forall id, p ensures At(b', id, p) <==> id in b'.place && b'.place[id] == p {
      assert At(b, id, p) <==> id in b.place && b.place[id] == p;
    }
  }

  /** The three ways a producer lets its buffer go. */
  lemma ProducerKeeps(b: Box, t: Tid)
    requires Owned(b) && t in b.producers
    ensures var x := b.producers[t].b; Owned(Fast(b, t, x)) && Owned(Spill(b, t, x)) && Owned(GiveUp(b, t, x))
  {
    var x := b.producers[t].b;
    assert At(b, x.id, With(t)) && !At(b, x.id, Incoming) && !At(b, x.id, Overflow);
    var f, s, g := Fast(b, t, x), Spill(b, t, x), GiveUp(b, t, x);
    forall id, p
      ensures At(f, id, p) <==> id in f.place && f.place[id] == p
      ensures At(s, id, p) <==> id in s.place && s.place[id] == p
      ensures At(g, id, p) <==> id in g.place && g.place[id] == p
    {
      assert At(b, id, p) <==> id in b.place && b.place[id] == p;
      HasPush(b.incoming, x, id);
      HasPush(b.overflow, x, id);
    }
  }

  lemma PickKeeps(b: Box)
    requires Owned(b) && b.overflow != [] && !b.worker.WHold?
    ensures Owned(Pick(b)) && Owned(ReleaseSpilled(b))
  {
    assert At(b, b.overflow[0].id, Overflow);
    var p', r := Pick(b), ReleaseSpilled(b);
    forall id, p
      ensures At(p', id, p) <==> id in p'.place && p'.place[id] == p
      ensures At(r, id, p) <==> id in r.place && r.place[id] == p
    {
      assert At(b, id, p) <==> id in b.place && b.place[id] == p;
      HasTail(b.overflow, id);
    }
  }

  lemma HoldKeeps(b: Box)
    requires Owned(b) && b.worker.WHold?
    ensures Owned(Forward(b, b.worker.b)) && Owned(LetGo(b, b.worker.b))
  {
    var x := b.worker.b;
    assert At(b, x.id, Hand) && !At(b, x.id, Incoming);
    var f, g := Forward(b, x), LetGo(b, x);
    forall id, p
      ensures At(f, id, p) <==> id in f.place && f.place[id] == p
      ensures At(g, id, p) <==> id in g.place && g.place[id] == p
    {
      assert At(b, id, p) <==> id in b.place && b.place[id] == p;
      HasPush(b.incoming, x, id);
    }
  }

  lemma ReceiveKeeps(b: Box, byReader: bool)
    requires Owned(b) && b.incoming != []
    ensures Owned(Receive(b, byReader))
  {
    var x := b.incoming[0];
    assert At(b, x.id, Incoming) && !At(b, x.id, Delivered);
    var b' := Receive(b, byReader);
    forall id, p ensures At(b', id, p) <==> id in b'.place && b'.place[id] == p {
      assert At(b, id, p) <==> id in b.place && b.place[id] == p;
      HasTail(b.incoming, id);
    }
  }

  // ---- steps ------------------------------------------------------------------------------------------

  /** `queued` is false on a connection without an inbound queue; `done` is the underlying connection's
      channel; `readers` counts the calls of readBuffer that found the closed flag clear and wait on incoming.
      `entered` lists the buffers in the order in which they were put into either queue, `received`
      those taken out of incoming; `passed` has the pairs (x, y) of which y took the fast path while x was in
      the overflow queue or the worker's hand. */
  datatype State = State(
    box: Box, cap: nat, queued: bool, done: bool, closer: Closer, readers: nat, entered: seq<Buffer>,
    received: seq<Buffer>, passed: set<(Buffer, Buffer)>)

  datatype Action =
    | Begin(t: Tid, x: Buffer)
    | ProducerStep(t: Tid, onDone: bool)
    | WorkerStep(onDone: bool)
    | BeginRead
    | Read
    | QuitRead
    | BeginClose
    | CloseStep
    | PeerGone

  function SpillCap(cap: nat): nat {
    if cap * 8 < 2048 then 2048 else cap * 8
  }

  ghost predicate Init(s: State) {
    && s.box == Box([], [], WNone, map[], [], {}, {}, map[])
    && s.cap >= 1 && !s.done && s.closer.COpen? && s.readers == 0 && s.entered == [] && s.received == [] && s.passed == {}
  }

  predicate WorkerEnabled(s: State, onDone: bool) {
    match s.box.worker
    case WNone => false
    case WSelect => if onDone then s.done else s.box.overflow != []
    case WHold(_) => if onDone then s.done else |s.box.incoming| < s.cap
    case WDrain => true
    case WGone => false
  }

  /** A reader must find the closed flag clear; once past it, it waits for a buffer, its timer or `done`. */
  predicate Enabled(s: State, a: Action) {
    match a
    case Begin(t, x) => t !in s.box.producers && x.id !in s.box.place
    case ProducerStep(t, onDone) =>
      && t in s.box.producers
      && (s.box.producers[t].PSpill? ==> if onDone then s.done else |s.box.overflow| < SpillCap(s.cap))
    case WorkerStep(onDone) => WorkerEnabled(s, onDone)
    case BeginRead => s.queued && s.closer.COpen?
    case Read => s.readers > 0 && s.box.incoming != []
    case QuitRead => s.readers > 0
    case BeginClose => s.closer.COpen?
    case CloseStep => s.closer.CDrain? || s.closer.CUnderlying?
    case PeerGone => true
  }

  /** Who is ahead of a buffer on the fast path without being in incoming. */
  function Waiting(b: Box): seq<Buffer> {
    (if b.worker.WHold? then [b.worker.b] else []) + b.overflow
  }

  function FastPath(s: State, t: Tid, x: Buffer): State {
    s.(box := Fast(s.box, t, x), entered := s.entered + [x], passed := s.passed + Passing(Waiting(s.box), x))
  }

  function ProducerNext(s: State, t: Tid, p: Producer, onDone: bool): State {
    var b := s.box;
    match p
    case PTry(x) =>
      if !s.queued then s.(box := GiveUp(b, t, x))
      else if |b.incoming| < s.cap then FastPath(s, t, x)
      else s.(box := b.(producers := b.producers[t := PStart(x)]))
    case PStart(x) =>
      s.(box := b.(producers := b.producers[t := PSpill(x)], worker := if b.worker.WNone? then WSelect else b.worker))
    case PSpill(x) =>
      if onDone then s.(box := GiveUp(b, t, x)) else s.(box := Spill(b, t, x), entered := s.entered + [x])
  }

  function WorkerNext(s: State, onDone: bool): Box
    requires WorkerEnabled(s, onDone)
  {
    var b := s.box;
    match b.worker
    case WSelect => if onDone then b.(worker := WDrain) else Pick(b)
    case WHold(x) => if onDone then LetGo(b, x) else Forward(b, x)
    case WDrain => if b.overflow != [] then ReleaseSpilled(b) else b.(worker := WGone)
  }

  function CloseNext(s: State): State {
    if s.closer.CDrain? then
      if s.queued && s.box.incoming != [] then
        s.(box := Receive(s.box, false), received := s.received + [s.box.incoming[0]])
      else s.(closer := CUnderlying)
    else s.(closer := CClosed, done := true)
  }

  function Next(s: State, a: Action): State
    requires Enabled(s, a)
  {
    match a
    case Begin(t, x) => s.(box := Arrive(s.box, t, x))
    case ProducerStep(t, onDone) => ProducerNext(s, t, s.box.producers[t], onDone)
    case WorkerStep(onDone) => s.(box := WorkerNext(s, onDone))
    case BeginRead => s.(readers := s.readers + 1)
    case Read => s.(box := Receive(s.box, true), readers := s.readers - 1, received := s.received + [s.box.incoming[0]])
    case QuitRead => s.(readers := s.readers - 1)
    case BeginClose => s.(closer := CDrain)
    case CloseStep => CloseNext(s)
    case PeerGone => s.(done := true)
  }

  lemma OwnedProducer(s: State, t: Tid, onDone: bool)
    requires Owned(s.box) && Enabled(s, ProducerStep(t, onDone))
    ensures Owned(Next(s, ProducerStep(t, onDone)).box)
  {
    ProducerKeeps(s.box, t);
    var b' := Next(s, ProducerStep(t, onDone)).box;
    if t in b'.producers {
      forall id, p ensures At(b', id, p) <==> At(s.box, id, p) {
      }
    }
  }

  lemma OwnedWorker(s: State, onDone: bool)
    requires Owned(s.box) && WorkerEnabled(s, onDone)
    ensures Owned(WorkerNext(s, onDone))
  {
    var b := s.box;
    if b.worker.WHold? {
      HoldKeeps(b);
    } else if b.overflow != [] {
      PickKeeps(b);
    }
    forall id, p ensures !b.worker.WHold? ==> (At(b.(worker := WDrain), id, p) <==> At(b, id, p)) {
    }
    forall id, p ensures !b.worker.WHold? ==> (At(b.(worker := WGone), id, p) <==> At(b, id, p)) {
    }
  }

  lemma OwnedStep(s: State, a: Action)
    requires Owned(s.box) && Enabled(s, a)
    ensures Owned(Next(s, a).box)
  {
    match a
    case Begin(t, x) => ArriveKeeps(s.box, t, x);
    case ProducerStep(t, onDone) => OwnedProducer(s, t, onDone);
    case WorkerStep(onDone) => OwnedWorker(s, onDone);
    case BeginRead =>
    case Read => ReceiveKeeps(s.box, true);
    case QuitRead =>
    case BeginClose =>
    case CloseStep => if s.box.incoming != [] { ReceiveKeeps(s.box, false); }
    case PeerGone =>
  }

  // ---- order ------------------------------------------------------------------------------------------

  /** All buffers that entered and were not released behind the worker, as they come or will come out if
      nothing else happens. */
  function Line(s: State): seq<Buffer> {
    s.received + s.box.incoming + Waiting(s.box)
  }

  /** The worker has released nothing yet. */
  predicate Forwarding(s: State) {
    !s.box.worker.WDrain? && !s.box.worker.WGone?
  }

  ghost predicate Before(q: seq<Buffer>, x: Buffer, y: Buffer) {
    exists i, j :: 0 <= i < j < |q| && q[i] == x && q[j] == y
  }

  /** Of a before b in line: b entered first exactly if a passed it. */
  ghost predicate PairOk(a: Buffer, b: Buffer, entered: seq<Buffer>, passed: set<(Buffer, Buffer)>) {
    a != b && (Before(entered, b, a) <==> (b, a) in passed) && (a, b) !in passed
  }

  ghost predicate Logged(entered: seq<Buffer>, passed: set<(Buffer, Buffer)>) {
    forall x, y :: (x, y) in passed ==> Before(entered, x, y)
  }

  ghost predicate Ordered(line: seq<Buffer>, entered: seq<Buffer>, passed: set<(Buffer, Buffer)>) {
    && (forall i :: 0 <= i < |line| ==> line[i] in entered)
    && (forall i, j :: 0 <= i < j < |line| ==> PairOk(line[i], line[j], entered, passed))
  }

  ghost predicate InOrder(s: State) {
    && (s.box.overflow != [] ==> !s.box.worker.WNone?)
    && (Forwarding(s) && s.passed == {} ==> Line(s) == s.entered)
    && Logged(s.entered, s.passed) && Ordered(Line(s), s.entered, s.passed)
  }

  lemma BeforePush(q: seq<Buffer>, z: Buffer, x: Buffer, y: Buffer)
    requires z !in q
    ensures Before(q + [z], x, y) <==> Before(q, x, y) || (y == z && x in q)
  {
    var q' := q + [z];
    if Before(q, x, y) {
      var i, j :| 0 <= i < j < |q| && q[i] == x && q[j] == y;
      assert q'[i] == x && q'[j] == y;
    } else if y == z && x in q {
      var i :| 0 <= i < |q| && q[i] == x;
      assert q'[i] == x && q'[|q|] == y;
    }
  }

  /** The pairs made when y takes the fast path past the waiting ones. */
  function Passing(w: seq<Buffer>, y: Buffer): set<(Buffer, Buffer)> {
    set x | x in w :: (x, y)
  }

  lemma LoggedInsert(w: seq<Buffer>, z: Buffer, entered: seq<Buffer>, passed: set<(Buffer, Buffer)>)
    requires Logged(entered, passed) && z !in entered && forall x :: x in w ==> x in entered
    ensures Logged(entered + [z], passed + Passing(w, z))
  {
    forall x, y | (x, y) in passed + Passing(w, z) ensures Before(entered + [z], x, y) { BeforePush(entered, z, x, y); }
  }

  lemma OldPair(a: Buffer, b: Buffer, w: seq<Buffer>, z: Buffer, entered: seq<Buffer>, passed: set<(Buffer, Buffer)>)
    requires z !in entered && a in entered && b in entered && PairOk(a, b, entered, passed)
    ensures PairOk(a, b, entered + [z], passed + Passing(w, z))
  {
    BeforePush(entered, z, b, a);
  }

  /** The newcomer is behind those not waiting and ahead of those waiting. */
  lemma NewPair(a: Buffer, w: seq<Buffer>, z: Buffer, entered: seq<Buffer>, passed: set<(Buffer, Buffer)>)
    requires Logged(entered, passed) && z !in entered && a in entered
    ensures a !in w ==> PairOk(a, z, entered + [z], passed + Passing(w, z))
    ensures a in w ==> PairOk(z, a, entered + [z], passed + Passing(w, z))
  {
    BeforePush(entered, z, z, a);
    BeforePush(entered, z, a, z);
    assert !Before(entered, z, a) && !Before(entered, a, z);
  }

  lemma OrderedInsert(a: seq<Buffer>, w: seq<Buffer>, z: Buffer, entered: seq<Buffer>, passed: set<(Buffer, Buffer)>)
    requires Ordered(a + w, entered, passed) && Logged(entered, passed) && z !in entered
    ensures Ordered(a + [z] + w, entered + [z], passed + Passing(w, z))
  {
    var had, line := a + w, a + [z] + w;
    forall i | 0 <= i < |line| ensures line[i] in entered + [z] {
      if i != |a| { assert line[i] == had[if i < |a| then i else i - 1]; }
    }
    forall i, j | 0 <= i < j < |line| ensures PairOk(line[i], line[j], entered + [z], passed + Passing(w, z)) {
      var i', j' := if i <= |a| then i else i - 1, if j <= |a| then j else j - 1;
      if i == |a| {
        assert line[j] == had[j'] == w[j' - |a|];
        NewPair(had[j'], w, z, entered, passed);
      } else if j == |a| {
        assert line[i] == had[i];
        NotBehind(a, w, i, entered, passed);
        NewPair(had[i], w, z, entered, passed);
      } else {
        assert line[i] == had[i'] && line[j] == had[j'];
        OldPair(had[i'], had[j'], w, z, entered, passed);
      }
    }
  }

  lemma NotBehind(a: seq<Buffer>, w: seq<Buffer>, i: nat, entered: seq<Buffer>, passed: set<(Buffer, Buffer)>)
    requires Ordered(a + w, entered, passed) && i < |a|
    ensures a[i] !in w
  {
    forall k | 0 <= k < |w| ensures w[k] != a[i] {
      assert (a + w)[i] == a[i] && (a + w)[|a| + k] == w[k];
      assert PairOk((a + w)[i], (a + w)[|a| + k], entered, passed);
    }
  }

  lemma OrderedDrop(a: seq<Buffer>, z: Buffer, w: seq<Buffer>, entered: seq<Buffer>, passed: set<(Buffer, Buffer)>)
    requires Ordered(a + [z] + w, entered, passed)
    ensures Ordered(a + w, entered, passed)
  {
    var had, line := a + [z] + w, a + w;
    forall i | 0 <= i < |line| ensures line[i] in entered {
      assert line[i] == had[if i < |a| then i else i + 1];
    }
    forall i, j | 0 <= i < j < |line| ensures PairOk(line[i], line[j], entered, passed) {
      var i', j' := if i < |a| then i else i + 1, if j < |a| then j else j + 1;
      assert line[i] == had[i'] && line[j] == had[j'];
      assert PairOk(had[i'], had[j'], entered, passed);
    }
  }

  lemma InOrderFast(s: State, t: Tid, x: Buffer)
    requires InOrder(s) && x !in s.entered
    ensures InOrder(FastPath(s, t, x))
  {
    var s', a, w := FastPath(s, t, x), s.received + s.box.incoming, Waiting(s.box);
    assert Line(s') == a + [x] + w && Waiting(s'.box) == w;
    assert forall i :: 0 <= i < |w| ==> w[i] == Line(s)[|a| + i];
    OrderedInsert(a, w, x, s.entered, s.passed);
    LoggedInsert(w, x, s.entered, s.passed);
    if w != [] { assert (w[0], x) in s'.passed; }
  }

  lemma InOrderSpill(s: State, t: Tid, x: Buffer)
    requires InOrder(s) && !s.box.worker.WNone? && x !in s.entered
    ensures InOrder(s.(box := Spill(s.box, t, x), entered := s.entered + [x]))
  {
    var s' := s.(box := Spill(s.box, t, x), entered := s.entered + [x]);
    assert Waiting(s'.box) == Waiting(s.box) + [x];
    assert Line(s') == Line(s) + [x] + [] && Line(s) + [] == Line(s) && s.passed + Passing([], x) == s.passed;
    OrderedInsert(Line(s), [], x, s.entered, s.passed);
    LoggedInsert([], x, s.entered, s.passed);
  }

  /** A producer past the start of the worker finds it started. */
  ghost predicate Started(b: Box) {
    forall t :: t in b.producers && b.producers[t].PSpill? ==> !b.worker.WNone?
  }

  lemma StartedStep(s: State, a: Action)
    requires Started(s.box) && Enabled(s, a)
    ensures Started(Next(s, a).box)
  {
  }

  lemma InOrderReceive(s: State, byReader: bool, readers: nat)
    requires InOrder(s) && s.box.incoming != []
    ensures InOrder(s.(box := Receive(s.box, byReader), readers := readers, received := s.received + [s.box.incoming[0]]))
  {
    var s' := s.(readers := readers, box := Receive(s.box, byReader), received := s.received + [s.box.incoming[0]]);
    assert s'.box.worker == s.box.worker && s'.box.overflow == s.box.overflow && s'.box.incoming == s.box.incoming[1..];
    MoveFirst(s.received, s.box.incoming);
    assert Line(s') == Line(s);
  }

  lemma MoveFirst(a: seq<Buffer>, b: seq<Buffer>)
    requires b != []
    ensures (a + [b[0]]) + b[1..] == a + b
  {
  }

  lemma SplitFirst(a: seq<Buffer>, q: seq<Buffer>)
    requires q != []
    ensures a + q == a + [q[0]] + q[1..]
  {
    assert q == [q[0]] + q[1..];
  }

  /** A worker's step that leaves the line as it is, or one that takes a buffer out of it. */
  lemma InOrderSame(s: State, b': Box)
    requires InOrder(s) && (b'.overflow != [] ==> !b'.worker.WNone?)
    requires b'.incoming + Waiting(b') == s.box.incoming + Waiting(s.box)
    requires b'.worker.WDrain? || b'.worker.WGone? || Forwarding(s)
    ensures InOrder(s.(box := b'))
  {
    assert s.received + b'.incoming + Waiting(b') == s.received + (b'.incoming + Waiting(b'));
    assert Line(s) == s.received + (s.box.incoming + Waiting(s.box));
  }

  lemma InOrderLess(s: State, b': Box)
    requires InOrder(s) && (b'.worker.WDrain? || b'.worker.WGone?) && b'.incoming == s.box.incoming
    requires Waiting(s.box) != [] && Waiting(b') == Waiting(s.box)[1..]
    ensures InOrder(s.(box := b'))
  {
    var a, w := s.received + s.box.incoming, Waiting(s.box);
    SplitFirst(a, w);
    OrderedDrop(a, w[0], w[1..], s.entered, s.passed);
  }

  /** The step leaves the line as it is, or takes its first waiting buffer out for good. */
  ghost predicate LineMoves(b: Box, b': Box) {
    || b'.incoming + Waiting(b') == b.incoming + Waiting(b)
    || ((b'.worker.WDrain? || b'.worker.WGone?) && b'.incoming == b.incoming && Waiting(b) != [] && Waiting(b') == Waiting(b)[1..])
  }

  lemma WaitingIs(b: Box)
    ensures Waiting(b) == if b.worker.WHold? then [b.worker.b] + b.overflow else b.overflow
  {
  }

  lemma MoveOne(a: seq<Buffer>, x: Buffer, q: seq<Buffer>)
    ensures (a + [x]) + q == a + ([x] + q) && ([x] + q)[1..] == q
  {
  }

  lemma ForwardMoves(b: Box)
    requires b.worker.WHold?
    ensures LineMoves(b, Forward(b, b.worker.b))
  {
    WaitingIs(b);
    WaitingIs(Forward(b, b.worker.b));
    MoveOne(b.incoming, b.worker.b, b.overflow);
  }

  lemma LetGoMoves(b: Box)
    requires b.worker.WHold?
    ensures LineMoves(b, LetGo(b, b.worker.b))
  {
    WaitingIs(b);
    WaitingIs(LetGo(b, b.worker.b));
    MoveOne(b.incoming, b.worker.b, b.overflow);
  }

  lemma PickMoves(b: Box)
    requires b.overflow != [] && !b.worker.WHold?
    ensures LineMoves(b, Pick(b)) && (b.worker.WDrain? ==> LineMoves(b, ReleaseSpilled(b)))
  {
    WaitingIs(b);
    WaitingIs(Pick(b));
    WaitingIs(ReleaseSpilled(b));
    assert b.overflow == [b.overflow[0]] + b.overflow[1..];
  }

  lemma WaitingMoves(s: State, onDone: bool)
    requires WorkerEnabled(s, onDone)
    ensures LineMoves(s.box, WorkerNext(s, onDone))
  {
    if s.box.worker.WHold? {
      if onDone { LetGoMoves(s.box); } else { ForwardMoves(s.box); }
    } else if s.box.overflow != [] && (s.box.worker.WDrain? || !onDone) {
      PickMoves(s.box);
    }
  }

  lemma InOrderWorker(s: State, onDone: bool)
    requires InOrder(s) && WorkerEnabled(s, onDone)
    ensures InOrder(s.(box := WorkerNext(s, onDone)))
  {
    var b, b' := s.box, WorkerNext(s, onDone);
    WaitingMoves(s, onDone);
    if b'.incoming + Waiting(b') == b.incoming + Waiting(b) { InOrderSame(s, b'); } else { InOrderLess(s, b'); }
  }

  lemma InOrderProducer(s: State, t: Tid, onDone: bool)
    requires InOrder(s) && Started(s.box) && Owned(s.box) && EnteredOnce(s) && Enabled(s, ProducerStep(t, onDone))
    ensures InOrder(Next(s, ProducerStep(t, onDone)))
  {
    NotEntered(s, t);
    var p, b := s.box.producers[t], s.box;
    if p.PTry? && s.queued && |b.incoming| < s.cap {
      InOrderFast(s, t, p.b);
    } else if p.PSpill? && !onDone {
      InOrderSpill(s, t, p.b);
    } else {
      InOrderSame(s, Next(s, ProducerStep(t, onDone)).box);
    }
  }

  lemma InOrderStep(s: State, a: Action)
    requires InOrder(s) && Started(s.box) && Owned(s.box) && EnteredOnce(s) && Enabled(s, a)
    ensures InOrder(Next(s, a))
  {
    match a
    case Begin(t, x) => assert Line(Next(s, a)) == Line(s) && Waiting(Next(s, a).box) == Waiting(s.box);
    case ProducerStep(t, onDone) => InOrderProducer(s, t, onDone);
    case WorkerStep(onDone) => InOrderWorker(s, onDone);
    case BeginRead =>
    case Read => InOrderReceive(s, true, s.readers - 1);
    case QuitRead =>
    case BeginClose =>
    case CloseStep => if s.box.incoming != [] { InOrderReceive(s, false, s.readers); }
    case PeerGone =>
  }

  /** Every buffer enters at most once. */
  ghost predicate Once(entered: seq<Buffer>, place: map<nat, Place>) {
    NoDup(entered) && forall i :: 0 <= i < |entered| ==> entered[i].id in place && !place[entered[i].id].With?
  }

  ghost predicate EnteredOnce(s: State) {
    Once(s.entered, s.box.place)
  }

  lemma OncePush(entered: seq<Buffer>, place: map<nat, Place>, x: Buffer, p: Place)
    requires Once(entered, place) && !p.With? && forall i :: 0 <= i < |entered| ==> entered[i].id != x.id
    ensures Once(entered + [x], place[x.id := p])
  {
  }

  lemma OnceMove(entered: seq<Buffer>, place: map<nat, Place>, id: nat, p: Place)
    requires Once(entered, place) && (!p.With? || id !in place)
    ensures Once(entered, place[id := p])
  {
  }

  lemma NotEntered(s: State, t: Tid)
    requires EnteredOnce(s) && Owned(s.box) && t in s.box.producers
    ensures forall i :: 0 <= i < |s.entered| ==> s.entered[i].id != s.box.producers[t].b.id
  {
    assert At(s.box, s.box.producers[t].b.id, With(t));
  }

  lemma EnteredOnceProducer(s: State, t: Tid, onDone: bool)
    requires EnteredOnce(s) && Owned(s.box) && Enabled(s, ProducerStep(t, onDone))
    ensures EnteredOnce(Next(s, ProducerStep(t, onDone)))
  {
    var x := s.box.producers[t].b;
    NotEntered(s, t);
    OncePush(s.entered, s.box.place, x, Incoming);
    OncePush(s.entered, s.box.place, x, Overflow);
    OnceMove(s.entered, s.box.place, x.id, Released);
  }

  lemma EnteredOnceWorker(s: State, onDone: bool)
    requires EnteredOnce(s) && WorkerEnabled(s, onDone)
    ensures Once(s.entered, WorkerNext(s, onDone).place)
  {
    var b := s.box;
    if b.overflow != [] {
      OnceMove(s.entered, b.place, b.overflow[0].id, Hand);
      OnceMove(s.entered, b.place, b.overflow[0].id, Released);
    }
    if b.worker.WHold? {
      OnceMove(s.entered, b.place, b.worker.b.id, Incoming);
      OnceMove(s.entered, b.place, b.worker.b.id, Released);
    }
  }

  lemma EnteredOnceStep(s: State, a: Action)
    requires EnteredOnce(s) && Owned(s.box) && Enabled(s, a)
    ensures EnteredOnce(Next(s, a))
  {
    if a.ProducerStep? { EnteredOnceProducer(s, a.t, a.onDone); }
    if a.WorkerStep? { EnteredOnceWorker(s, a.onDone); }
    if a.Begin? { OnceMove(s.entered, s.box.place, a.x.id, With(a.t)); }
  }

  /** Without an inbound queue nothing is ever queued. */
  ghost predicate Queueless(s: State) {
    !s.queued ==>
      && s.box.incoming == [] && s.box.overflow == [] && !s.box.worker.WHold?
      && forall t :: t in s.box.producers ==> s.box.producers[t].PTry?
  }

  lemma QueuelessStep(s: State, a: Action)
    requires Queueless(s) && Enabled(s, a)
    ensures Queueless(Next(s, a))
  {
  }

  lemma BoundedStep(s: State, a: Action)
    requires |s.box.incoming| <= s.cap && Enabled(s, a)
    ensures var s' := Next(s, a); |s'.box.incoming| <= s'.cap == s.cap
  {
  }

  // ---- runs -------------------------------------------------------------------------------------------

  ghost predicate Inv(s: State) {
    && |s.box.incoming| <= s.cap && s.cap >= 1 && Owned(s.box) && Started(s.box) && InOrder(s) && EnteredOnce(s)
    && Queueless(s)
  }

  ghost predicate Moves(s: State, a: Action, s': State) {
    Enabled(s, a) && s' == Next(s, a)
  }

  lemma InitInv(s: State)
    requires Init(s)
    ensures Inv(s)
  {
    forall id, p ensures !At(s.box, id, p) {
    }
  }

  lemma StepInv(s: State, a: Action)
    requires Inv(s) && Enabled(s, a)
    ensures Inv(Next(s, a))
  {
    OwnedStep(s, a);
    StartedStep(s, a);
    InOrderStep(s, a);
    EnteredOnceStep(s, a);
    QueuelessStep(s, a);
    BoundedStep(s, a);
  }

  lemma RunInv(states: seq<State>, actions: seq<Action>, k: nat)
    requires IsRun(Init, Moves, states, actions) && k < |states|
    ensures Inv(states[k])
  {
    forall s | Init(s) ensures Inv(s) { InitInv(s); }
    forall s, a, s' | Inv(s) && Moves(s, a, s') ensures Inv(s') { StepInv(s, a); }
    Invariant(Init, Moves, Inv, states, actions, k);
  }

  /** A buffer that has arrived is in exactly one of incoming, overflow, the worker's hand, its producer's
      call, the readers' hands and the released and dropped ones, and there only once. */
  lemma EachBufferInOnePlace(states: seq<State>, actions: seq<Action>, k: nat, id: nat)
    requires IsRun(Init, Moves, states, actions) && k < |states|
    ensures var b := states[k].box;
      && (id in b.place <==> exists p :: At(b, id, p))
      && (forall p, q :: At(b, id, p) && At(b, id, q) ==> p == q)
      && NoDup(b.incoming) && NoDup(b.overflow)
      && (forall i, j :: 0 <= i < j < |b.delivered| ==> b.delivered[i] != b.delivered[j])
  {
    RunInv(states, actions, k);
    var b := states[k].box;
    if id in b.place { assert At(b, id, b.place[id]); }
  }

  lemma OutStays(s: State, a: Action, id: nat)
    requires Enabled(s, a)
    ensures id in s.box.delivered ==> id in Next(s, a).box.delivered
    ensures id in s.box.released ==> id in Next(s, a).box.released
    ensures id in s.box.dropped ==> id in Next(s, a).box.dropped
  {
  }

  /** What was delivered is never released by the queue and what was released is never delivered, now or in
      any later state. */
  lemma {:induction false} DeliveredIsFinal(states: seq<State>, actions: seq<Action>, j: nat, k: nat, id: nat)
    requires IsRun(Init, Moves, states, actions) && j <= k < |states|
    ensures id in states[j].box.delivered ==> id in states[k].box.delivered && id !in states[k].box.released
    ensures id in states[j].box.released ==> id in states[k].box.released && id !in states[k].box.delivered
  {
    RunInv(states, actions, k);
    var b := states[k].box;
    assert id in b.delivered <==> At(b, id, Delivered);
    assert id in b.released <==> At(b, id, Released);
    if j < k {
      DeliveredIsFinal(states, actions, j, k - 1, id);
      assert StepAt(Moves, states, actions, k - 1);
      OutStays(states[k - 1], actions[k - 1], id);
    }
  }

  /** In every state of every run: of two buffers taken out of incoming, the later one had entered first if
      and only if the other took the fast path while it was waiting behind the worker. */
  lemma ReorderedIffPassed(states: seq<State>, actions: seq<Action>, k: nat, i: nat, j: nat)
    requires IsRun(Init, Moves, states, actions) && k < |states| && i < j < |states[k].received|
    ensures var s := states[k]; var y, x := s.received[i], s.received[j];
      x != y && x in s.entered && y in s.entered && (Before(s.entered, x, y) <==> (x, y) in s.passed)
  {
    RunInv(states, actions, k);
    var s := states[k];
    assert s.received[i] == Line(s)[i] && s.received[j] == Line(s)[j];
    assert PairOk(Line(s)[i], Line(s)[j], s.entered, s.passed);
  }

  /** As long as the worker has released nothing, all buffers come out in the order in which they entered if
      and only if none ever took the fast path while another was waiting behind the worker. */
  lemma OrderIffNotOvertaken(states: seq<State>, actions: seq<Action>, k: nat)
    requires IsRun(Init, Moves, states, actions) && k < |states| && Forwarding(states[k])
    ensures Line(states[k]) == states[k].entered <==> states[k].passed == {}
    ensures states[k].passed == {} ==> states[k].received <= states[k].entered
  {
    RunInv(states, actions, k);
    var s := states[k];
    if s.passed != {} {
      var p :| p in s.passed;
      assert (p.0, p.1) in s.passed;
      var i, j :| 0 <= i < j < |s.entered| && s.entered[i] == p.0 && s.entered[j] == p.1;
      assert |Line(s)| == |s.entered| && Line(s)[i] == p.0 && Line(s)[j] == p.1 ==> PairOk(Line(s)[i], Line(s)[j], s.entered, s.passed);
    }
  }

  // ---- a run in which a buffer is overtaken -------------------------------------------------------------

  function B(i: nat): Buffer {
    Buffer(i, View(0, 1), 0, None, 0)
  }

  /** A queue with room for one buffer. */
  function Narrow(b: Box, entered: seq<Buffer>, received: seq<Buffer>): State {
    State(b, 1, true, false, COpen, 0, entered, received, {})
  }

  function Filled(): State {
    Narrow(Box([B(0)], [], WNone, map[], [], {}, {}, map[0 := Incoming]), [B(0)], [])
  }

  function Spilling(p: Producer, w: Worker): State {
    Narrow(Box([B(0)], [], w, map[0 := p], [], {}, {}, map[0 := Incoming, 1 := With(0)]), [B(0)], [])
  }

  function Spilled(): State {
    Narrow(Box([], [B(1)], WSelect, map[], [0], {}, {}, map[0 := Delivered, 1 := Overflow]), [B(0), B(1)], [B(0)])
  }

  lemma FirstFills()
    ensures Reachable(Init, Moves, Filled())
  {
    var s0 := Narrow(Box([], [], WNone, map[], [], {}, {}, map[]), [], []);
    var s1 := Narrow(Box([], [], WNone, map[0 := PTry(B(0))], [], {}, {}, map[0 := With(0)]), [], []);
    Start(Init, Moves, s0);
    Extend(Init, Moves, s0, Begin(0, B(0)), s1);
    Extend(Init, Moves, s1, ProducerStep(0, false), Filled());
  }

  lemma SecondStartsWorker()
    ensures Reachable(Init, Moves, Spilling(PSpill(B(1)), WSelect))
  {
    FirstFills();
    Extend(Init, Moves, Filled(), Begin(0, B(1)), Spilling(PTry(B(1)), WNone));
    Extend(Init, Moves, Spilling(PTry(B(1)), WNone), ProducerStep(0, false), Spilling(PStart(B(1)), WNone));
    Extend(Init, Moves, Spilling(PStart(B(1)), WNone), ProducerStep(0, false), Spilling(PSpill(B(1)), WSelect));
  }

  lemma SecondSpills()
    ensures Reachable(Init, Moves, Spilled())
  {
    SecondStartsWorker();
    var s4 := Spilling(PSpill(B(1)), WSelect);
    var s5 := Next(s4, ProducerStep(0, false));
    Extend(Init, Moves, s4, ProducerStep(0, false), s5);
    var one: map<Tid, Producer> := map[0 := PSpill(B(1))];
    assert one - {0} == map[];
    assert s5.box.incoming == [B(0)] && s5.box.overflow == [B(1)] && s5.box.place == map[0 := Incoming, 1 := Overflow];
    Extend(Init, Moves, s5, BeginRead, s5.(readers := 1));
    Extend(Init, Moves, s5.(readers := 1), Read, Spilled());
  }

  /** The second buffer spills, the first is read, and the third takes the fast path past the second. */
  lemma ThirdOvertakesSecond() returns (s: State)
    ensures Reachable(Init, Moves, s) && s.entered == [B(0), B(1), B(2)] && Line(s) == [B(0), B(2), B(1)]
  {
    SecondSpills();
    var s7 := Next(Spilled(), Begin(0, B(2)));
    s := Next(s7, ProducerStep(0, false));
    Extend(Init, Moves, Spilled(), Begin(0, B(2)), s7);
    Extend(Init, Moves, s7, ProducerStep(0, false), s);
  }
}
