/** Whole calls of Get and Put of pool/slab_pool.go in every interleaving of SlabRace. */
module SlabCalls {
  import opened Buffers
  import opened Options
  import opened Runs
  import opened SlabRace

  // ---- Get ------------------------------------------------------------------------------------------

  /** The Get for `node` that t began at step j is still going on in state k. */
  ghost predicate InGet(states: seq<State>, actions: seq<Action>, j: nat, k: nat, t: Tid, node: int) {
    && |states| == |actions| + 1 && j < k < |states| && actions[j] == BeginGet(t, node)
    && forall i :: j < i <= k ==> t in states[i].own.gets
  }

  /** At a step between j and k the oldest free buffer was taken off the queue, and it was b. */
  ghost predicate TookFirst(states: seq<State>, j: nat, k: nat, b: Buffer) {
    exists i: nat :: j < i < k && k < |states| && states[i].own.queue != [] && states[i].own.queue[0] == b
      && states[i + 1].own.queue == states[i].own.queue[1..]
  }

  /** At a step between j and k the queue was empty, or a Put was in flight. */
  ghost predicate FoundNone(states: seq<State>, j: nat, k: nat) {
    exists i: nat :: j < i < k && k < |states| && MayLookEmpty(states[i].own)
  }

  /** A new block of this pool for this node. */
  predicate NewBlock(s: State, b: Buffer, node: int) {
    b == Buffer(b.id, View(0, s.size), node, Some(s.me), s.size)
  }

  ghost predicate GetSoFar(states: seq<State>, j: nat, k: nat, t: Tid, node: int)
    requires k < |states| && t in states[k].own.gets
  {
    match states[k].own.gets[t]
    case GDequeue(n) => n == node
    case GTaken(b) => TookFirst(states, j, k, b)
    case GAlloc(n) => n == node && FoundNone(states, j, k)
    case g => NewBlock(states[k], g.b, node) && FoundNone(states, j, k)
  }

  lemma NoneStays(states: seq<State>, j: nat, k: nat)
    requires FoundNone(states, j, k) && k + 1 < |states|
    ensures FoundNone(states, j, k + 1)
  {
  }

  lemma FirstStays(states: seq<State>, j: nat, k: nat, b: Buffer)
    requires TookFirst(states, j, k, b) && k + 1 < |states|
    ensures TookFirst(states, j, k + 1, b)
  {
  }

  lemma GetGoesOn(states: seq<State>, j: nat, k: nat, t: Tid, node: int, hit: bool)
    requires j < k && k + 1 < |states| && t in states[k].own.gets && Enabled(states[k], GetStep(t, hit))
    requires states[k + 1] == Next(states[k], GetStep(t, hit)) && t in states[k + 1].own.gets
    requires GetSoFar(states, j, k, t, node)
    ensures GetSoFar(states, j, k + 1, t, node)
  {
    var g := states[k].own.gets[t];
    if g.GDequeue? {
      if hit { assert TookFirst(states, j, k + 1, states[k].own.queue[0]); } else { assert FoundNone(states, j, k + 1); }
    } else {
      NoneStays(states, j, k);
    }
  }

  lemma OthersGet(states: seq<State>, j: nat, k: nat, t: Tid, node: int, a: Action)
    requires k + 1 < |states| && t in states[k].own.gets && Enabled(states[k], a) && states[k + 1] == Next(states[k], a)
    requires GetSoFar(states, j, k, t, node) && !(a.GetStep? && a.t == t) && !(a.BeginGet? && a.t == t)
    ensures t in states[k + 1].own.gets && GetSoFar(states, j, k + 1, t, node)
  {
    OthersLeaveGet(states[k], a, t);
    if states[k].own.gets[t].GTaken? {
      FirstStays(states, j, k, states[k].own.gets[t].b);
    } else if !states[k].own.gets[t].GDequeue? {
      NoneStays(states, j, k);
    }
  }

  lemma OthersLeaveGet(s: State, a: Action, t: Tid)
    requires Enabled(s, a) && t in s.own.gets && !(a.GetStep? && a.t == t)
    ensures var s' := Next(s, a); t in s'.own.gets && s'.own.gets[t] == s.own.gets[t] && s'.me == s.me && s'.size == s.size
  {
  }

  lemma {:induction false} GetFollows(states: seq<State>, actions: seq<Action>, j: nat, k: nat, t: Tid, node: int)
    requires IsRun(Init, Moves, states, actions) && InGet(states, actions, j, k, t, node)
    ensures GetSoFar(states, j, k, t, node)
    decreases k
  {
    assert StepAt(Moves, states, actions, k - 1);
    if k > j + 1 {
      GetFollows(states, actions, j, k - 1, t, node);
      var a := actions[k - 1];
      if a.GetStep? && a.t == t {
        GetGoesOn(states, j, k - 1, t, node, a.hit);
      } else {
        OthersGet(states, j, k - 1, t, node, a);
      }
    }
  }

  /** One more count for this node in one of the maps, and none elsewhere. */
  ghost predicate CountsOne(n: Numa, node: int, n': Numa) {
    exists m: nat :: m < |n.maps| && n' == n.(maps := n.maps[m := n.maps[m] + multiset{node}])
  }

  /** A Get for a node ends with one more buffer in the users' hands.  Either it is the one that was the oldest free
      buffer at a moment inside the call, and was taken off the queue then, or it is a new block for that node, which
      is counted for that node, and at a moment inside the call the queue was empty or a Put was in flight. */
  lemma GetComesTo(states: seq<State>, actions: seq<Action>, j: nat, k: nat, t: Tid, node: int) returns (b: Buffer)
    requires IsRun(Init, Moves, states, actions) && InGet(states, actions, j, k, t, node)
    requires k < |actions| && t !in states[k + 1].own.gets
    ensures b.id !in states[k].own.out && states[k + 1].own.out == states[k].own.out[b.id := b]
    ensures (TookFirst(states, j, k, b) && states[k + 1].numa == states[k].numa)
      || (NewBlock(states[k], b, node) && FoundNone(states, j, k) && CountsOne(states[k].numa, node, states[k + 1].numa))
  {
    GetFollows(states, actions, j, k, t, node);
    RunInv(states, actions, k);
    assert StepAt(Moves, states, actions, k);
    var s, a := states[k], actions[k];
    if !(a.GetStep? && a.t == t) { OthersLeaveGet(s, a, t); }
    b := s.own.gets[t].b;
    assert At(s.own, b.id, Getter(t)) && (b.id in s.own.out ==> At(s.own, b.id, Out));
  }

  // ---- Put ------------------------------------------------------------------------------------------

  ghost predicate InPut(states: seq<State>, actions: seq<Action>, j: nat, k: nat, t: Tid, id: nat) {
    && |states| == |actions| + 1 && j < k < |states| && actions[j] == BeginPut(t, id) && id in states[j].own.out
    && forall i :: j < i <= k ==> t in states[i].own.puts
  }

  /** At a step between j and k the buffer b was added at the end of the queue. */
  ghost predicate Added(states: seq<State>, j: nat, k: nat, b: Buffer) {
    exists i: nat :: j < i < k && k < |states| && states[i + 1].own.queue == states[i].own.queue + [b]
  }

  ghost predicate PutSoFar(states: seq<State>, j: nat, k: nat, t: Tid, b: Buffer)
    requires k < |states| && t in states[k].own.puts
  {
    match states[k].own.puts[t]
    case PEnqueue(c) => c == b
    case PCount => Added(states, j, k, b)
  }

  lemma OthersLeavePut(s: State, a: Action, t: Tid)
    requires Enabled(s, a) && t in s.own.puts && !(a.PutStep? && a.t == t)
    ensures t in Next(s, a).own.puts && Next(s, a).own.puts[t] == s.own.puts[t]
  {
  }

  lemma {:induction false} PutFollows(states: seq<State>, actions: seq<Action>, j: nat, k: nat, t: Tid, id: nat)
    requires IsRun(Init, Moves, states, actions) && InPut(states, actions, j, k, t, id)
    ensures PutSoFar(states, j, k, t, states[j].own.out[id])
    decreases k
  {
    assert StepAt(Moves, states, actions, k - 1);
    if k > j + 1 {
      PutFollows(states, actions, j, k - 1, t, id);
      var b, a := states[j].own.out[id], actions[k - 1];
      if a.PutStep? && a.t == t {
        assert states[k].own.queue == states[k - 1].own.queue + [b];
      } else {
        OthersLeavePut(states[k - 1], a, t);
        if states[k].own.puts[t].PCount? { AddedStays(states, j, k - 1, b); }
      }
    }
  }

  lemma AddedStays(states: seq<State>, j: nat, k: nat, b: Buffer)
    requires Added(states, j, k, b) && k + 1 < |states|
    ensures Added(states, j, k + 1, b)
  {
  }

  /** A Put of a buffer either adds it, as it is, at the end of the queue at a moment inside the call and counts one
      more free, or drops it, and then the queue was full or a Get in flight. */
  lemma PutComesTo(states: seq<State>, actions: seq<Action>, j: nat, k: nat, t: Tid, id: nat)
    requires IsRun(Init, Moves, states, actions) && InPut(states, actions, j, k, t, id)
    requires k < |actions| && t !in states[k + 1].own.puts
    ensures var b, s, s' := states[j].own.out[id], states[k], states[k + 1];
      || (Added(states, j, k, b) && s'.tally.totalFree == s.tally.totalFree + 1 && s'.own.released == s.own.released)
      || (MayLookFull(s.own, s.cap) && s'.own.released == s.own.released + {b.id} && s'.tally == s.tally)
  {
    PutFollows(states, actions, j, k, t, id);
    assert StepAt(Moves, states, actions, k);
    var a := actions[k];
    if !(a.PutStep? && a.t == t) { OthersLeavePut(states[k], a, t); }
  }

  /** No Get and no Put is ever held up. */
  lemma NobodyWaits(states: seq<State>, actions: seq<Action>, k: nat, t: Tid)
    requires IsRun(Init, Moves, states, actions) && k < |states|
    ensures t in states[k].own.gets ==> exists hit :: Enabled(states[k], GetStep(t, hit))
    ensures t in states[k].own.puts ==> exists ok :: Enabled(states[k], PutStep(t, ok))
  {
    RunInv(states, actions, k);
    var s := states[k];
    if t in s.own.gets { assert Enabled(s, GetStep(t, s.own.queue != [])); }
    if t in s.own.puts { assert Enabled(s, PutStep(t, |s.own.queue| < s.cap)); }
  }
}
