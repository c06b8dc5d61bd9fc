/** The size classes and the lazily created pools of pool/bufferpool.go. */
module PoolManager {
  import opened Runs

  // ---- size classes -----------------------------------------------------------------------------------

  const SIZE_CLASSES: seq<int> := [
    2 * 1024, 4 * 1024, 8 * 1024, 16 * 1024, 32 * 1024, 64 * 1024, 128 * 1024, 256 * 1024, 512 * 1024, 1024 * 1024]

  /** The least class that holds the size, or the biggest class if none does. */
  method SizeClassUpperBound(size: int) returns (c: int)
    ensures c in SIZE_CLASSES
    ensures size <= 1024 * 1024 ==> size <= c && forall d :: d in SIZE_CLASSES && size <= d ==> c <= d
    ensures size > 1024 * 1024 ==> c == 1024 * 1024
  {
    var i := 0;
    while i < |SIZE_CLASSES|
      invariant i <= |SIZE_CLASSES|
      invariant forall j :: 0 <= j < i ==> SIZE_CLASSES[j] < size
    {
      c := SIZE_CLASSES[i];
      if size <= c {
        return;
      }
      i := i + 1;
    }
    c := SIZE_CLASSES[|SIZE_CLASSES| - 1];
  }

  // ---- getOrCreatePool, racing --------------------------------------------------------------------------

  type Tid = nat

  /** A call: before its look under the read lock, or before its section under the write lock. */
  datatype Asking = Look(size: int) | Insist(size: int)

  /** Pools are numbered by creation; `answers` lists the pools returned with the class asked for. */
  datatype State = State(pools: map<int, nat>, created: nat, calls: map<Tid, Asking>, answers: seq<(int, nat)>)

  datatype Action = Ask(t: Tid, size: int) | Step(t: Tid)

  predicate Enabled(s: State, a: Action) {
    match a
    case Ask(t, _) => t !in s.calls
    case Step(t) => t in s.calls
  }

  function Answer(s: State, t: Tid, c: int): State
    requires c in s.pools
  {
    s.(calls := s.calls - {t}, answers := s.answers + [(c, s.pools[c])])
  }

  function Created(s: State, c: int): State {
    s.(pools := s.pools[c := s.created], created := s.created + 1)
  }

  function Next(s: State, a: Action): State
    requires Enabled(s, a)
  {
    match a
    case Ask(t, c) => s.(calls := s.calls[t := Look(c)])
    case Step(t) =>
      var c := s.calls[t].size;
      if c in s.pools then Answer(s, t, c)
      else if s.calls[t].Look? then s.(calls := s.calls[t := Insist(c)])
      else Answer(Created(s, c), t, c)
  }

  /** Every pool created is in the map, each for one class. */
  ghost predicate Listed(s: State) {
    && (forall c :: c in s.pools ==> s.pools[c] < s.created)
    && (forall c, d :: c in s.pools && d in s.pools && s.pools[c] == s.pools[d] ==> c == d)
    && |s.pools| == s.created
  }

  /** Every answer is still the map's. */
  ghost predicate Answered(s: State) {
    forall i :: 0 <= i < |s.answers| ==> s.answers[i].0 in s.pools && s.answers[i].1 == s.pools[s.answers[i].0]
  }

  ghost predicate Inv(s: State) {
    Listed(s) && Answered(s)
  }

  ghost predicate Init(s: State) {
    s == State(map[], 0, map[], [])
  }

  ghost predicate Moves(s: State, a: Action, s': State) {
    Enabled(s, a) && s' == Next(s, a)
  }

  lemma AnswerInv(s: State, t: Tid, c: int)
    requires Inv(s) && c in s.pools
    ensures Inv(Answer(s, t, c))
  {
  }

  lemma CreateInv(s: State, c: int)
    requires Inv(s) && c !in s.pools
    ensures Inv(Created(s, c))
  {
    assert s.pools[c := s.created].Keys == s.pools.Keys + {c};
  }

  lemma StepInv(s: State, a: Action)
    requires Inv(s) && Enabled(s, a)
    ensures Inv(Next(s, a))
  {
    if a.Step? {
      var c := s.calls[a.t].size;
      if c in s.pools {
        AnswerInv(s, a.t, c);
      } else if s.calls[a.t].Insist? {
        CreateInv(s, c);
        AnswerInv(Created(s, c), a.t, c);
      }
    }
  }

  /** In every interleaving all calls for one class get the same pool, calls for different classes get
      different ones, and no more pools are created than there are classes asked for. */
  lemma OnePoolPerClass(states: seq<State>, actions: seq<Action>, k: nat, i: nat, j: nat)
    requires IsRun(Init, Moves, states, actions) && k < |states| && i < |states[k].answers| && j < |states[k].answers|
    ensures states[k].answers[i].0 == states[k].answers[j].0 <==> states[k].answers[i].1 == states[k].answers[j].1
    ensures states[k].created == |states[k].pools|
  {
    forall s, a, s' | Inv(s) && Moves(s, a, s') ensures Inv(s') { StepInv(s, a); }
    Invariant(Init, Moves, Inv, states, actions, k);
  }

  // ---- whole calls -------------------------------------------------------------------------------------------

  predicate StepOf(a: Action, t: Tid) {
    a.t == t
  }

  lemma OthersLeave(s: State, a: Action, t: Tid)
    requires Enabled(s, a) && t in s.calls && !StepOf(a, t)
    ensures t in Next(s, a).calls && Next(s, a).calls[t] == s.calls[t]
  {
  }

  lemma {:induction false} CallFollows(states: seq<State>, actions: seq<Action>, j: nat, k: nat, t: Tid, size: int)
    requires IsRun(Init, Moves, states, actions) && j < k < |states| && actions[j] == Ask(t, size)
    requires forall i :: j < i <= k ==> t in states[i].calls
    ensures states[k].calls[t].size == size
    decreases k
  {
    assert StepAt(Moves, states, actions, k - 1);
    if k > j + 1 {
      CallFollows(states, actions, j, k - 1, t, size);
      if !StepOf(actions[k - 1], t) { OthersLeave(states[k - 1], actions[k - 1], t); }
    }
  }

  /** A call that asked for a class at step j and returns at step k is answered with the pool that the map then has
      for that class, and that pool is the one it had before if it had one. */
  lemma CallGetsItsClass(states: seq<State>, actions: seq<Action>, j: nat, k: nat, t: Tid, size: int)
    requires IsRun(Init, Moves, states, actions) && j < k < |actions| && actions[j] == Ask(t, size)
    requires (forall i :: j < i <= k ==> t in states[i].calls) && t !in states[k + 1].calls
    ensures size in states[k + 1].pools && states[k + 1].answers == states[k].answers + [(size, states[k + 1].pools[size])]
    ensures forall c :: c in states[k].pools ==> c in states[k + 1].pools && states[k + 1].pools[c] == states[k].pools[c]
  {
    CallFollows(states, actions, j, k, t, size);
    assert StepAt(Moves, states, actions, k);
    if !StepOf(actions[k], t) { OthersLeave(states[k], actions[k], t); }
  }

  ghost predicate Asked(actions: seq<Action>, k: nat, c: int) {
    exists i: nat :: i < k && i < |actions| && actions[i].Ask? && actions[i].size == c
  }

  /** A pool is created only for a class that was asked for. */
  lemma {:induction false} OnlyWhatWasAsked(states: seq<State>, actions: seq<Action>, k: nat, c: int)
    requires IsRun(Init, Moves, states, actions) && k < |states|
    ensures c in states[k].pools ==> Asked(actions, k, c)
    ensures forall t :: t in states[k].calls && states[k].calls[t].size == c ==> Asked(actions, k, c)
    decreases k
  {
    if k > 0 {
      OnlyWhatWasAsked(states, actions, k - 1, c);
      assert StepAt(Moves, states, actions, k - 1);
      if Asked(actions, k - 1, c) {
        assert Asked(actions, k, c);
      } else if actions[k - 1].Ask? && actions[k - 1].size == c {
        assert actions[k - 1].size == c;
      }
    }
  }
}
