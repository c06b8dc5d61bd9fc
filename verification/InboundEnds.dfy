/** Which inbound buffers can still be delivered or released, and runs that leave one behind. */
module InboundEnds {
  import opened Buffers
  import opened Inbound
  import opened Options
  import opened Runs

  predicate Settled(s: State, id: nat) {
    id in s.box.place && (s.box.place[id].Delivered? || s.box.place[id].Released? || s.box.place[id].Dropped?)
  }

  ghost predicate CanSettle(s: State, id: nat) {
    exists s' :: CanReach(Moves, s, s') && Settled(s', id)
  }

  ghost predicate CanBeReleased(s: State, id: nat) {
    exists s' :: CanReach(Moves, s, s') && id in s'.box.released
  }

  ghost predicate CanBeDelivered(s: State, id: nat) {
    exists s' :: CanReach(Moves, s, s') && id in s'.box.delivered
  }

  /** Close is past its drain. */
  predicate Drained(s: State) {
    s.closer.CUnderlying? || s.closer.CClosed?
  }

  /** One step further on the way from s0. */
  lemma Onward(s0: State, s: State, a: Action) returns (s': State)
    requires CanReach(Moves, s0, s) && Inv(s) && Enabled(s, a)
    ensures s' == Next(s, a) && CanReach(Moves, s0, s') && Inv(s')
  {
    s' := Next(s, a);
    StepInv(s, a);
    GoOn(Moves, s0, s, a, s');
  }

  // ---- the overflow queue -----------------------------------------------------------------------------

  lemma DrainStep(s: State, id: nat)
    requires Inv(s) && s.box.worker.WDrain? && At(s.box, id, Overflow)
    ensures Enabled(s, WorkerStep(true)) && s.box.overflow != []
    ensures var s' := Next(s, WorkerStep(true));
      Settled(s', id) || (s'.box.worker.WDrain? && At(s'.box, id, Overflow) && |s'.box.overflow| < |s.box.overflow|)
  {
    HasTail(s.box.overflow, id);
    assert At(Next(s, WorkerStep(true)).box, id, Overflow) <==> Has(s.box.overflow[1..], id);
  }

  lemma {:induction false} DrainSettles(s0: State, s: State, id: nat)
    requires CanReach(Moves, s0, s) && Inv(s) && s.box.worker.WDrain? && At(s.box, id, Overflow)
    ensures CanSettle(s0, id)
    decreases |s.box.overflow|
  {
    DrainStep(s, id);
    var s' := Onward(s0, s, WorkerStep(true));
    if !Settled(s', id) { DrainSettles(s0, s', id); }
  }

  lemma SelectSettles(s0: State, s: State, id: nat)
    requires CanReach(Moves, s0, s) && Inv(s) && s.box.worker.WSelect? && At(s.box, id, Overflow)
    ensures CanSettle(s0, id)
  {
    var s1 := Onward(s0, s, PeerGone);
    var s2 := Onward(s0, s1, WorkerStep(true));
    DrainSettles(s0, s2, id);
  }

  /** Nobody will ever make room for the buffer in the worker's hand. */
  predicate Blocked(s: State) {
    s.box.worker.WHold? && |s.box.incoming| >= s.cap && Drained(s) && s.readers == 0
  }

  lemma ForwardSettles(s0: State, s: State, id: nat)
    requires CanReach(Moves, s0, s) && Inv(s) && s.box.worker.WHold? && At(s.box, id, Overflow)
    requires |s.box.incoming| < s.cap
    ensures CanSettle(s0, id)
  {
    var s' := Onward(s0, s, WorkerStep(false));
    SelectSettles(s0, s', id);
  }

  /** A reader makes room in incoming, or else Close's drain. */
  lemma RoomIsMade(s0: State, s: State) returns (s': State)
    requires CanReach(Moves, s0, s) && Inv(s) && |s.box.incoming| == s.cap && (s.readers > 0 || s.closer.CDrain?)
    ensures CanReach(Moves, s0, s') && Inv(s') && |s'.box.incoming| < s'.cap
    ensures s'.box.worker == s.box.worker && s'.box.overflow == s.box.overflow
  {
    assert s.box.incoming != [];
    if s.readers > 0 { s' := Onward(s0, s, Read); } else { s' := Onward(s0, s, CloseStep); }
  }

  lemma HoldSettles(s0: State, s: State, id: nat)
    requires CanReach(Moves, s0, s) && Inv(s) && s.box.worker.WHold? && At(s.box, id, Overflow) && !Blocked(s)
    ensures CanSettle(s0, id)
  {
    if |s.box.incoming| < s.cap {
      ForwardSettles(s0, s, id);
    } else {
      var s1 := s;
      if s.closer.COpen? { s1 := Onward(s0, s, BeginClose); }
      var s2 := RoomIsMade(s0, s1);
      ForwardSettles(s0, s2, id);
    }
  }

  /** The buffer is behind a worker that has left or can only leave. */
  ghost predicate Stranded(s: State, id: nat) {
    Inv(s) && At(s.box, id, Overflow) && (s.box.worker.WGone? || Blocked(s))
  }

  lemma StrandedStep(s: State, a: Action, id: nat)
    requires Stranded(s, id) && Enabled(s, a)
    ensures Stranded(Next(s, a), id)
  {
    StepInv(s, a);
    if a.ProducerStep? { HasPush(s.box.overflow, s.box.producers[a.t].b, id); }
  }

  lemma StrandedStays(s: State, s': State, id: nat)
    requires Stranded(s, id) && CanReach(Moves, s, s')
    ensures !Settled(s', id)
  {
    var inv := (z: State) => Stranded(z, id);
    forall z, a, z' | inv(z) && Moves(z, a, z') ensures inv(z') { StrandedStep(z, a, id); }
    Keeps(Moves, inv, s, s');
    assert At(s'.box, id, Overflow);
  }

  /** A buffer in the overflow queue can still be delivered or released if and only if the worker has not left
      and is not blocked: once Close's drain is over and the last reader is gone, a worker in front of a full
      incoming can only let go of the buffer in its hand and leave the rest. */
  lemma OverflowSettlesIff(states: seq<State>, actions: seq<Action>, k: nat, id: nat)
    requires IsRun(Init, Moves, states, actions) && k < |states| && At(states[k].box, id, Overflow)
    ensures CanSettle(states[k], id) <==> !states[k].box.worker.WGone? && !Blocked(states[k])
  {
    RunInv(states, actions, k);
    var s := states[k];
    Stay(Moves, s);
    if s.box.worker.WGone? || Blocked(s) {
      forall s' | CanReach(Moves, s, s') ensures !Settled(s', id) { StrandedStays(s, s', id); }
    } else if s.box.worker.WHold? {
      HoldSettles(s, s, id);
    } else if s.box.worker.WSelect? {
      SelectSettles(s, s, id);
    } else {
      DrainSettles(s, s, id);
    }
  }

  // ---- incoming ---------------------------------------------------------------------------------------

  /** A buffer leaves incoming by a reader's hand or by Close's. */
  lemma IncomingMoves(s: State, a: Action, id: nat)
    requires Enabled(s, a) && NoDup(s.box.incoming) && Has(s.box.incoming, id)
    ensures var b' := Next(s, a).box;
      || Has(b'.incoming, id)
      || (a.Read? && (id in b'.delivered || id in b'.dropped))
      || (a.CloseStep? && s.closer.CDrain? && (id in b'.released || id in b'.dropped))
  {
    var b := s.box;
    if a.Read? || (a.CloseStep? && s.closer.CDrain? && s.queued) { HasTail(b.incoming, id); }
    if a.ProducerStep? { HasPush(b.incoming, b.producers[a.t].b, id); }
    if a.WorkerStep? && b.worker.WHold? { HasPush(b.incoming, b.worker.b, id); }
  }

  /** Close's drain reaches every buffer that is in incoming. */
  lemma {:induction false} CloseSettles(s0: State, s: State, i: nat)
    requires CanReach(Moves, s0, s) && Inv(s) && s.closer.CDrain? && i < |s.box.incoming|
    ensures CanSettle(s0, s.box.incoming[i].id)
    ensures !s.box.incoming[i].data.Nil? ==> CanBeReleased(s0, s.box.incoming[i].id)
    decreases i
  {
    var s' := Onward(s0, s, CloseStep);
    if i > 0 {
      assert s'.box.incoming[i - 1] == s.box.incoming[i];
      CloseSettles(s0, s', i - 1);
    } else {
      assert Settled(s', s.box.incoming[0].id);
    }
  }

  lemma OpenSettles(s: State, i: nat)
    requires Inv(s) && !Drained(s) && i < |s.box.incoming|
    ensures CanSettle(s, s.box.incoming[i].id)
    ensures !s.box.incoming[i].data.Nil? ==> CanBeReleased(s, s.box.incoming[i].id)
  {
    Stay(Moves, s);
    if s.closer.COpen? {
      var s' := Onward(s, s, BeginClose);
      CloseSettles(s, s', i);
    } else {
      CloseSettles(s, s, i);
    }
  }

  /** A reader that is there, or comes because the connection is open, takes the first buffer. */
  lemma ReaderTakes(s0: State, s: State) returns (s': State)
    requires CanReach(Moves, s0, s) && Inv(s) && s.box.incoming != [] && (s.readers > 0 || s.closer.COpen?)
    ensures CanReach(Moves, s0, s') && Inv(s') && s'.box == Receive(s.box, true)
    ensures if s.closer.COpen? then s'.closer.COpen? else s'.readers == s.readers - 1
  {
    var s1 := s;
    if s.closer.COpen? { s1 := Onward(s0, s, BeginRead); }
    s' := Onward(s0, s1, Read);
  }

  /** As many readers as it takes reach it too. */
  lemma {:induction false} ReadersReach(s0: State, s: State, i: nat)
    requires CanReach(Moves, s0, s) && Inv(s) && i < |s.box.incoming| && (i < s.readers || s.closer.COpen?)
    ensures CanSettle(s0, s.box.incoming[i].id)
    ensures !s.box.incoming[i].data.Nil? ==> CanBeDelivered(s0, s.box.incoming[i].id)
    decreases i
  {
    var s' := ReaderTakes(s0, s);
    if i > 0 {
      assert s'.box.incoming[i - 1] == s.box.incoming[i];
      ReadersReach(s0, s', i - 1);
    } else {
      assert Settled(s', s.box.incoming[0].id);
    }
  }

  /** During the drain one reader is enough: Close takes out what is in front. */
  lemma {:induction false} OneReaderReaches(s0: State, s: State, i: nat)
    requires CanReach(Moves, s0, s) && Inv(s) && s.closer.CDrain? && s.readers > 0
    requires i < |s.box.incoming| && !s.box.incoming[i].data.Nil?
    ensures CanBeDelivered(s0, s.box.incoming[i].id)
    decreases i
  {
    if i == 0 {
      ReadersReach(s0, s, 0);
    } else {
      var s' := Onward(s0, s, CloseStep);
      assert s'.box.incoming[i - 1] == s.box.incoming[i];
      OneReaderReaches(s0, s', i - 1);
    }
  }

  ghost predicate AtIndex(s: State, id: nat, i: nat) {
    i < |s.box.incoming| && s.box.incoming[i].id == id
  }

  /** Past the drain, behind more buffers than there are readers. */
  ghost predicate LeftBehind(s: State, id: nat) {
    Inv(s) && Drained(s) && exists i: nat :: AtIndex(s, id, i) && i >= s.readers
  }

  lemma IndexMoves(s: State, a: Action, id: nat, i: nat)
    requires Enabled(s, a) && Drained(s) && AtIndex(s, id, i) && i >= s.readers
    ensures var s' := Next(s, a); Drained(s') && exists j: nat :: AtIndex(s', id, j) && j >= s'.readers
  {
    var j := if a.Read? then i - 1 else i;
    assert AtIndex(Next(s, a), id, j);
  }

  lemma LeftBehindStep(s: State, a: Action, id: nat)
    requires LeftBehind(s, id) && Enabled(s, a)
    ensures LeftBehind(Next(s, a), id)
  {
    StepInv(s, a);
    var i: nat :| AtIndex(s, id, i) && i >= s.readers;
    IndexMoves(s, a, id, i);
  }

  lemma LeftBehindStays(s: State, s': State, id: nat)
    requires LeftBehind(s, id) && CanReach(Moves, s, s')
    ensures Inv(s') && At(s'.box, id, Incoming)
  {
    var inv := (z: State) => LeftBehind(z, id);
    forall z, a, z' | inv(z) && Moves(z, a, z') ensures inv(z') { LeftBehindStep(z, a, id); }
    Keeps(Moves, inv, s, s');
  }

  /** A buffer in incoming can still be delivered, released or dropped if and only if Close is not past its
      drain or there are readers enough to come to it: no reader comes after Close has begun. */
  lemma IncomingSettlesIff(states: seq<State>, actions: seq<Action>, k: nat, i: nat)
    requires IsRun(Init, Moves, states, actions) && k < |states| && i < |states[k].box.incoming|
    ensures CanSettle(states[k], states[k].box.incoming[i].id) <==> !Drained(states[k]) || i < states[k].readers
  {
    RunInv(states, actions, k);
    var s := states[k];
    var id := s.box.incoming[i].id;
    Stay(Moves, s);
    if !Drained(s) {
      OpenSettles(s, i);
    } else if i < s.readers {
      ReadersReach(s, s, i);
    } else {
      assert AtIndex(s, id, i);
      forall s' | CanReach(Moves, s, s') ensures !Settled(s', id) {
        LeftBehindStays(s, s', id);
        assert At(s'.box, id, Incoming);
      }
    }
  }

  lemma UniquePlace(s: State, id: nat)
    requires Inv(s) && (Has(s.box.incoming, id) || id in s.box.released || id in s.box.delivered || id in s.box.dropped)
    ensures Has(s.box.incoming, id) ==> id !in s.box.delivered && id !in s.box.released
    ensures id in s.box.dropped ==> id !in s.box.delivered && id !in s.box.released
    ensures id in s.box.released <==> At(s.box, id, Released)
    ensures id in s.box.delivered ==> id !in s.box.released
  {
    assert Has(s.box.incoming, id) <==> At(s.box, id, Incoming);
    assert id in s.box.dropped <==> At(s.box, id, Dropped);
    assert id in s.box.delivered <==> At(s.box, id, Delivered);
    assert id in s.box.released <==> At(s.box, id, Released);
  }

  /** During the drain without readers, the buffer is in incoming or was taken out by Close. */
  ghost predicate Unread(s: State, id: nat) {
    && Inv(s) && !s.closer.COpen? && s.readers == 0
    && (Has(s.box.incoming, id) || id in s.box.released || id in s.box.dropped)
  }

  lemma UnreadStep(s: State, a: Action, id: nat)
    requires Unread(s, id) && Enabled(s, a)
    ensures Unread(Next(s, a), id)
  {
    StepInv(s, a);
    OutStays(s, a, id);
    if Has(s.box.incoming, id) { IncomingMoves(s, a, id); }
  }

  lemma UnreadStays(s: State, s': State, id: nat)
    requires Unread(s, id) && CanReach(Moves, s, s')
    ensures id !in s'.box.delivered
  {
    var inv := (z: State) => Unread(z, id);
    forall z, a, z' | inv(z) && Moves(z, a, z') ensures inv(z') { UnreadStep(z, a, id); }
    Keeps(Moves, inv, s, s');
    UniquePlace(s', id);
  }

  /** A buffer with data can still be delivered if and only if the connection is open, or Close is draining and
      a reader is waiting, or the drain is over and readers enough to come to it are waiting. */
  lemma IncomingDeliveredIff(states: seq<State>, actions: seq<Action>, k: nat, i: nat)
    requires IsRun(Init, Moves, states, actions) && k < |states|
    requires i < |states[k].box.incoming| && !states[k].box.incoming[i].data.Nil?
    ensures CanBeDelivered(states[k], states[k].box.incoming[i].id) <==>
      match states[k].closer
      case COpen => true
      case CDrain => states[k].readers > 0
      case _ => i < states[k].readers
  {
    RunInv(states, actions, k);
    var s := states[k];
    var id := s.box.incoming[i].id;
    Stay(Moves, s);
    if s.closer.COpen? || i < s.readers {
      ReadersReach(s, s, i);
    } else if s.closer.CDrain? && s.readers > 0 {
      OneReaderReaches(s, s, i);
    } else if s.closer.CDrain? {
      assert At(s.box, id, Incoming);
      forall s' | CanReach(Moves, s, s') ensures id !in s'.box.delivered { UnreadStays(s, s', id); }
    } else {
      assert AtIndex(s, id, i);
      forall s' | CanReach(Moves, s, s') ensures id !in s'.box.delivered {
        LeftBehindStays(s, s', id);
        assert !At(s'.box, id, Delivered);
      }
    }
  }

  /** After the drain nothing that is in incoming, or was read from it, is released. */
  ghost predicate Unreleased(s: State, id: nat) {
    Inv(s) && Drained(s) && (Has(s.box.incoming, id) || id in s.box.delivered || id in s.box.dropped)
  }

  lemma UnreleasedStep(s: State, a: Action, id: nat)
    requires Unreleased(s, id) && Enabled(s, a)
    ensures Unreleased(Next(s, a), id)
  {
    StepInv(s, a);
    OutStays(s, a, id);
    if Has(s.box.incoming, id) { IncomingMoves(s, a, id); }
  }

  lemma UnreleasedStays(s: State, s': State, id: nat)
    requires Unreleased(s, id) && CanReach(Moves, s, s')
    ensures id !in s'.box.released
  {
    var inv := (z: State) => Unreleased(z, id);
    forall z, a, z' | inv(z) && Moves(z, a, z') ensures inv(z') { UnreleasedStep(z, a, id); }
    Keeps(Moves, inv, s, s');
    UniquePlace(s', id);
  }

  /** A buffer with data in incoming can still be released by the queue if and only if Close has not finished
      its drain. */
  lemma IncomingReleasedIff(states: seq<State>, actions: seq<Action>, k: nat, i: nat)
    requires IsRun(Init, Moves, states, actions) && k < |states|
    requires i < |states[k].box.incoming| && !states[k].box.incoming[i].data.Nil?
    ensures CanBeReleased(states[k], states[k].box.incoming[i].id) <==> !Drained(states[k])
  {
    RunInv(states, actions, k);
    var s := states[k];
    var id := s.box.incoming[i].id;
    if Drained(s) {
      assert At(s.box, id, Incoming);
      forall s' | CanReach(Moves, s, s') ensures id !in s'.box.released { UnreleasedStays(s, s', id); }
    } else {
      OpenSettles(s, i);
    }
  }

  // ---- the worker's hand and the producers ----------------------------------------------------------------

  lemma HandSettles(s: State, id: nat)
    requires Inv(s) && At(s.box, id, Hand)
    ensures CanSettle(s, id)
  {
    Stay(Moves, s);
    var s1 := Onward(s, s, PeerGone);
    var s2 := Onward(s, s1, WorkerStep(true));
    assert Settled(s2, id);
  }

  /** A producer past the fast path releases its buffer once the peer has gone. */
  lemma SpillerSettles(s0: State, s: State, t: Tid)
    requires CanReach(Moves, s0, s) && Inv(s) && t in s.box.producers && !s.box.producers[t].PTry?
    ensures CanSettle(s0, s.box.producers[t].b.id)
  {
    var s1 := Onward(s0, s, PeerGone);
    var s2 := s1;
    if s.box.producers[t].PStart? { s2 := Onward(s0, s1, ProducerStep(t, true)); }
    var s3 := Onward(s0, s2, ProducerStep(t, true));
    assert Settled(s3, s.box.producers[t].b.id);
  }

  lemma {:induction false} UpperBound(m: set<nat>) returns (n: nat)
    ensures n !in m && forall x :: x in m ==> x < n
  {
    if m == {} {
      n := 0;
    } else {
      var x :| x in m;
      var n' := UpperBound(m - {x});
      n := if n' > x then n' else x + 1;
      assert forall y :: y in m ==> y == x || y in m - {x};
    }
  }

  /** Another buffer takes the fast path. */
  lemma FillOne(s0: State, s: State, t: Tid) returns (s': State)
    requires CanReach(Moves, s0, s) && Inv(s) && s.queued && |s.box.incoming| < s.cap && t in s.box.producers
    ensures CanReach(Moves, s0, s') && Inv(s') && s'.queued && s'.cap == s.cap && |s'.box.incoming| == |s.box.incoming| + 1
    ensures t in s'.box.producers && s'.box.producers[t] == s.box.producers[t]
  {
    var u := UpperBound(s.box.producers.Keys);
    var n := UpperBound(s.box.place.Keys);
    var s1 := Onward(s0, s, Begin(u, B(n)));
    s' := Onward(s0, s1, ProducerStep(u, false));
  }

  lemma {:induction false} TrySettles(s0: State, s: State, t: Tid)
    requires CanReach(Moves, s0, s) && Inv(s) && t in s.box.producers && s.box.producers[t].PTry?
    ensures CanSettle(s0, s.box.producers[t].b.id)
    decreases s.cap - |s.box.incoming|
  {
    if s.queued && |s.box.incoming| < s.cap {
      var s' := FillOne(s0, s, t);
      TrySettles(s0, s', t);
    } else {
      var s' := Onward(s0, s, ProducerStep(t, true));
      if s.queued { SpillerSettles(s0, s', t); } else { assert Settled(s', s.box.producers[t].b.id); }
    }
  }

  /** The one other way to end: in the overflow queue or in incoming with nobody left to come. */
  ghost predicate Lost(s: State, id: nat) {
    || (At(s.box, id, Overflow) && (s.box.worker.WGone? || Blocked(s)))
    || (Drained(s) && exists i: nat :: AtIndex(s, id, i) && i >= s.readers)
  }

  /** In every state of every run, an inbound buffer can still be delivered, released or dropped if and only
      if it is not lost already. */
  lemma SettlesIffNotLost(states: seq<State>, actions: seq<Action>, k: nat, id: nat)
    requires IsRun(Init, Moves, states, actions) && k < |states| && id in states[k].box.place
    ensures CanSettle(states[k], id) <==> !Lost(states[k], id)
  {
    RunInv(states, actions, k);
    var s := states[k];
    Stay(Moves, s);
    assert At(s.box, id, s.box.place[id]);
    match s.box.place[id]
    case Incoming =>
      var i :| 0 <= i < |s.box.incoming| && s.box.incoming[i].id == id;
      assert AtIndex(s, id, i);
      OneIndex(s, id, i);
      IncomingSettlesIff(states, actions, k, i);
    case Overflow =>
      NoIndex(s, id);
      OverflowSettlesIff(states, actions, k, id);
    case Hand =>
      NoIndex(s, id);
      HandSettles(s, id);
    case With(t) =>
      NoIndex(s, id);
      if s.box.producers[t].PTry? { TrySettles(s, s, t); } else { SpillerSettles(s, s, t); }
    case _ =>
      NoIndex(s, id);
      assert Settled(s, id);
  }

  lemma OneIndex(s: State, id: nat, i: nat)
    requires Inv(s) && AtIndex(s, id, i)
    ensures !At(s.box, id, Overflow) && forall j: nat :: AtIndex(s, id, j) ==> j == i
  {
    assert At(s.box, id, Incoming);
  }

  lemma NoIndex(s: State, id: nat)
    requires Inv(s) && id in s.box.place && !s.box.place[id].Incoming?
    ensures (forall i: nat :: !AtIndex(s, id, i)) && (At(s.box, id, Overflow) <==> s.box.place[id].Overflow?)
  {
    assert !At(s.box, id, Incoming);
  }

  // ---- a run in which the worker strands a buffer -----------------------------------------------------------

  function Crowded(overflow: seq<Buffer>, w: Worker, ps: map<Tid, Producer>, place: map<nat, Place>, entered: seq<Buffer>): State {
    Narrow(Box([B(0)], overflow, w, ps, [], {}, {}, place), entered, [])
  }

  function TwoIn(): seq<Buffer> {
    [B(0), B(1)]
  }

  function Third(p: Producer): State {
    Crowded([], WHold(B(1)), map[0 := p], map[0 := Incoming, 1 := Hand, 2 := With(0)], TwoIn())
  }

  lemma SecondIsHeld()
    ensures Reachable(Init, Moves, Crowded([], WHold(B(1)), map[], map[0 := Incoming, 1 := Hand], TwoIn()))
  {
    SecondStartsWorker();
    var s4 := Spilling(PSpill(B(1)), WSelect);
    var s5 := Crowded([B(1)], WSelect, map[], map[0 := Incoming, 1 := Overflow], TwoIn());
    var one: map<Tid, Producer> := map[0 := PSpill(B(1))];
    assert one - {0} == map[];
    Extend(Init, Moves, s4, ProducerStep(0, false), s5);
    Extend(Init, Moves, s5, WorkerStep(false), Crowded([], WHold(B(1)), map[], map[0 := Incoming, 1 := Hand], TwoIn()));
  }

  lemma ThirdArrives()
    ensures Reachable(Init, Moves, Third(PSpill(B(2))))
  {
    SecondIsHeld();
    var s6 := Crowded([], WHold(B(1)), map[], map[0 := Incoming, 1 := Hand], TwoIn());
    Extend(Init, Moves, s6, Begin(0, B(2)), Third(PTry(B(2))));
    Extend(Init, Moves, Third(PTry(B(2))), ProducerStep(0, false), Third(PStart(B(2))));
    Extend(Init, Moves, Third(PStart(B(2))), ProducerStep(0, false), Third(PSpill(B(2))));
  }

  function ThreeIn(): seq<Buffer> {
    [B(0), B(1), B(2)]
  }

  /** The third buffer spills while the worker holds the second. */
  function Behind(): State {
    Crowded([B(2)], WHold(B(1)), map[], map[0 := Incoming, 1 := Hand, 2 := Overflow], ThreeIn())
  }

  lemma ThirdSpills()
    ensures Reachable(Init, Moves, Behind())
  {
    ThirdArrives();
    var one: map<Tid, Producer> := map[0 := PSpill(B(2))];
    assert one - {0} == map[];
    assert TwoIn() + [B(2)] == ThreeIn();
    Extend(Init, Moves, Third(PSpill(B(2))), ProducerStep(0, false), Behind());
  }

  lemma LostForGood(s: State, id: nat)
    requires Reachable(Init, Moves, s) && id in s.box.place && Lost(s, id)
    ensures !CanSettle(s, id)
  {
    var states: seq<State>, actions: seq<Action> :| IsRun(Init, Moves, states, actions) && states[|actions|] == s;
    SettlesIffNotLost(states, actions, |actions|, id);
  }

  /** The peer goes, and the worker releases the second and leaves: the third is in the overflow queue for
      good. */
  lemma WorkerStrandsThird() returns (s: State)
    ensures Reachable(Init, Moves, s) && s.box.worker.WGone? && s.box.overflow == [B(2)] && !CanSettle(s, 2)
  {
    ThirdSpills();
    var s1 := Next(Behind(), PeerGone);
    s := Next(s1, WorkerStep(true));
    Extend(Init, Moves, Behind(), PeerGone, s1);
    Extend(Init, Moves, s1, WorkerStep(true), s);
    assert s.box.overflow[0].id == 2;
    LostForGood(s, 2);
  }

  function Closing(c: Closer): State {
    State(Box([], [B(2)], WHold(B(1)), map[], [], {0}, {}, map[0 := Released, 1 := Hand, 2 := Overflow]),
          1, true, false, c, 0, ThreeIn(), [B(0)], {})
  }

  lemma CloseDrains()
    ensures Reachable(Init, Moves, Closing(CUnderlying))
  {
    ThirdSpills();
    var s1 := Behind().(closer := CDrain);
    Extend(Init, Moves, Behind(), BeginClose, s1);
    Extend(Init, Moves, s1, CloseStep, Closing(CDrain));
    Extend(Init, Moves, Closing(CDrain), CloseStep, Closing(CUnderlying));
  }

  /** Close empties incoming, and before it closes the underlying connection a fourth buffer takes the fast
      path: the worker is still there, but nobody will ever take the fourth buffer out of its way.  Neither
      that one nor the third can be delivered or released any more. */
  lemma CloseStrandsTwo() returns (s: State)
    ensures Reachable(Init, Moves, s) && s.box.worker.WHold? && s.box.incoming == [B(3)] && s.box.overflow == [B(2)]
    ensures !CanSettle(s, 2) && !CanSettle(s, 3)
  {
    CloseDrains();
    var s1 := Next(Closing(CUnderlying), Begin(0, B(3)));
    s := Next(s1, ProducerStep(0, false));
    Extend(Init, Moves, Closing(CUnderlying), Begin(0, B(3)), s1);
    Extend(Init, Moves, s1, ProducerStep(0, false), s);
    assert s.box.overflow[0].id == 2 && AtIndex(s, 3, 0);
    LostForGood(s, 2);
    LostForGood(s, 3);
  }
}
