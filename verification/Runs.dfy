/** Runs of a state machine given by its first states and its steps. */
module Runs {
  /** actions[k] leads from states[k] to states[k + 1]. */
  ghost predicate StepAt<S, A>(step: (S, A, S) -> bool, states: seq<S>, actions: seq<A>, k: nat)
    requires k < |actions| && |states| == |actions| + 1
  {
    step(states[k], actions[k], states[k + 1])
  }

  ghost predicate IsPath<S, A>(step: (S, A, S) -> bool, states: seq<S>, actions: seq<A>) {
    && |states| == |actions| + 1
    && forall k: nat :: k < |actions| ==> StepAt(step, states, actions, k)
  }

  ghost predicate IsRun<S, A>(init: S -> bool, step: (S, A, S) -> bool, states: seq<S>, actions: seq<A>) {
    IsPath(step, states, actions) && init(states[0])
  }

  ghost predicate Reachable<S(!new), A(!new)>(init: S -> bool, step: (S, A, S) -> bool, s: S) {
    exists states: seq<S>, actions: seq<A> :: IsRun(init, step, states, actions) && states[|actions|] == s
  }

  /** What holds at first and is kept by every step holds in every state of every run. */
  lemma {:induction false} Invariant<S(!new), A(!new)>(
      init: S -> bool, step: (S, A, S) -> bool, inv: S -> bool, states: seq<S>, actions: seq<A>, k: nat)
    requires IsRun(init, step, states, actions) && k < |states|
    requires forall s :: init(s) ==> inv(s)
    requires forall s, a, s' :: inv(s) && step(s, a, s') ==> inv(s')
    ensures inv(states[k])
  {
    if k > 0 {
      Invariant(init, step, inv, states, actions, k - 1);
      assert StepAt(step, states, actions, k - 1);
    }
  }

  lemma Longer<S(!new), A(!new)>(step: (S, A, S) -> bool, states: seq<S>, actions: seq<A>, a: A, s': S)
    requires IsPath(step, states, actions) && step(states[|actions|], a, s')
    ensures IsPath(step, states + [s'], actions + [a])
  {
    forall k: nat | k < |actions| + 1 ensures StepAt(step, states + [s'], actions + [a], k) {
      assert k < |actions| ==> StepAt(step, states, actions, k);
    }
  }

  lemma Start<S(!new), A(!new)>(init: S -> bool, step: (S, A, S) -> bool, s: S)
    requires init(s)
    ensures Reachable(init, step, s)
  {
    var none: seq<A> := [];
    assert IsRun(init, step, [s], none);
  }

  lemma Extend<S(!new), A(!new)>(init: S -> bool, step: (S, A, S) -> bool, s: S, a: A, s': S)
    requires Reachable(init, step, s) && step(s, a, s')
    ensures Reachable(init, step, s')
  {
    var states: seq<S>, actions: seq<A> :| IsRun(init, step, states, actions) && states[|actions|] == s;
    Longer(step, states, actions, a, s');
    assert IsRun(init, step, states + [s'], actions + [a]);
  }

  /** A machine that another one can follow step by step, unless a step is bad, is followed up to the first bad
      step. */
  lemma {:induction false} Simulate<S(!new), W(!new), A(!new)>(
      init: S -> bool, step: (S, A, S) -> bool, wstep: (W, A, W) -> bool, rel: (S, W) -> bool, bad: (S, A) -> bool,
      s0: S, ws: seq<W>, actions: seq<A>) returns (states: seq<S>)
    requires IsPath(wstep, ws, actions) && init(s0) && rel(s0, ws[0])
    requires forall s, w, a, w' :: rel(s, w) && wstep(w, a, w') && !bad(s, a) ==> exists s' :: step(s, a, s') && rel(s', w')
    ensures 1 <= |states| <= |ws| && IsRun(init, step, states, actions[..|states| - 1])
    ensures forall k :: 0 <= k < |states| ==> rel(states[k], ws[k])
    ensures |states| < |ws| ==> bad(states[|states| - 1], actions[|states| - 1])
    decreases |actions|
  {
    var n := |actions|;
    if n == 0 {
      states := [s0];
    } else {
      Shorter(wstep, ws, actions);
      states := Simulate(init, step, wstep, rel, bad, s0, ws[..n], actions[..n - 1]);
      assert actions[..n - 1][..|states| - 1] == actions[..|states| - 1];
      if |states| == n && !bad(states[n - 1], actions[n - 1]) {
        assert StepAt(wstep, ws, actions, n - 1);
        var s' :| step(states[n - 1], actions[n - 1], s') && rel(s', ws[n]);
        Longer(step, states, actions[..n - 1], actions[n - 1], s');
        assert actions[..n - 1] + [actions[n - 1]] == actions[..n];
        states := states + [s'];
      }
    }
  }

  lemma Shorter<S(!new), A(!new)>(step: (S, A, S) -> bool, states: seq<S>, actions: seq<A>)
    requires IsPath(step, states, actions) && actions != []
    ensures IsPath(step, states[..|actions|], actions[..|actions| - 1])
  {
    var fewer, first := states[..|actions|], actions[..|actions| - 1];
    forall k: nat | k < |first| ensures StepAt(step, fewer, first, k) {
      assert StepAt(step, states, actions, k);
    }
  }

  // ---- what can still happen --------------------------------------------------------------------

  ghost predicate CanReach<S(!new), A(!new)>(step: (S, A, S) -> bool, s: S, s': S) {
    exists states: seq<S>, actions: seq<A> ::
      IsPath(step, states, actions) && states[0] == s && states[|actions|] == s'
  }

  lemma Stay<S(!new), A(!new)>(step: (S, A, S) -> bool, s: S)
    ensures CanReach(step, s, s)
  {
    var none: seq<A> := [];
    assert IsPath(step, [s], none);
  }

  lemma GoOn<S(!new), A(!new)>(step: (S, A, S) -> bool, s: S, m: S, a: A, s': S)
    requires CanReach(step, s, m) && step(m, a, s')
    ensures CanReach(step, s, s')
  {
    var states: seq<S>, actions: seq<A> :|
      IsPath(step, states, actions) && states[0] == s && states[|actions|] == m;
    Longer(step, states, actions, a, s');
    assert (states + [s'])[0] == s && (states + [s'])[|actions + [a]|] == s';
  }

  /** What every step keeps still holds wherever one can get. */
  lemma Keeps<S(!new), A(!new)>(step: (S, A, S) -> bool, inv: S -> bool, s: S, s': S)
    requires CanReach(step, s, s') && inv(s)
    requires forall x, a, y :: inv(x) && step(x, a, y) ==> inv(y)
    ensures inv(s')
  {
    var states: seq<S>, actions: seq<A> :|
      IsPath(step, states, actions) && states[0] == s && states[|actions|] == s';
    Invariant(inv, step, inv, states, actions, |actions|);
  }
}
