/** When the two unsynchronised reads of the queue slice make Submit panic. */
module SubmitPanic {
  import opened Bits
  import opened Executor
  import opened ExecutorCrew
  import opened ExecutorTasks
  import opened Runs

  /** The step cuts the queue slice to at most `idx` queues. */
  predicate Cuts(s: State, a: Action, idx: nat) {
    a.ManageStep? && s.crew.mgr.MCutQueues? && s.crew.mgr.n <= idx
  }

  lemma OnlyCutsShorten(s: State, a: Action, idx: nat)
    requires Inv(s) && Enabled(s, a)
    ensures Cuts(s, a, idx) ==> |Next(s, a).crew.queues| <= idx
    ensures idx < |s.crew.queues| && !Cuts(s, a, idx) ==> idx < |Next(s, a).crew.queues|
  {
  }

  /** Action c cuts the slice to at most `idx` queues, and it has not grown past them up to state k. */
  ghost predicate CutForGood(states: seq<State>, actions: seq<Action>, c: nat, k: nat, idx: nat)
    requires |states| == |actions| + 1 && c < k < |states|
  {
    Cuts(states[c], actions[c], idx) && forall j :: c < j <= k ==> |states[j].crew.queues| <= idx
  }

  lemma {:induction false} LastCut(states: seq<State>, actions: seq<Action>, i: nat, k: nat, idx: nat) returns (c: nat)
    requires IsRun(Init, Moves, states, actions) && i < k < |states|
    requires |states[k].crew.queues| <= idx < |states[i].crew.queues|
    ensures i <= c < k && CutForGood(states, actions, c, k, idx)
  {
    RunInv(states, actions, k - 1);
    assert StepAt(Moves, states, actions, k - 1);
    OnlyCutsShorten(states[k - 1], actions[k - 1], idx);
    if idx < |states[k - 1].crew.queues| {
      c := k - 1;
    } else {
      c := LastCut(states, actions, i, k - 1, idx);
    }
  }

  lemma OthersLeave(s: State, a: Action, t: Tid)
    requires Enabled(s, a) && t in s.box.subs && !(a.SubmitStep? && a.t == t)
    ensures t in Next(s, a).box.subs && Next(s, a).box.subs[t] == s.box.subs[t]
  {
  }

  /** One call of Submit: action i reads the length of the slice and action k its element. */
  ghost predicate ReadsTwice(states: seq<State>, actions: seq<Action>, i: nat, k: nat, t: Tid, x: Task)
    requires |states| == |actions| + 1
  {
    && i < k < |actions| && actions[i].SubmitStep? && actions[i].t == t && actions[k].SubmitStep? && actions[k].t == t
    && t in states[i].box.subs && states[i].box.subs[t] == SPick(x)
    && forall j :: i < j < k ==> !(actions[j].SubmitStep? && actions[j].t == t)
  }

  lemma {:induction false} IndexIsKept(
      states: seq<State>, actions: seq<Action>, i: nat, j: nat, k: nat, t: Tid, x: Task) returns (idx: nat)
    requires IsRun(Init, Moves, states, actions) && ReadsTwice(states, actions, i, k, t, x) && i < j <= k
    ensures t in states[j].box.subs && states[j].box.subs[t] == SLook(x, idx) && idx < |states[i].crew.queues|
  {
    assert StepAt(Moves, states, actions, j - 1);
    if j - 1 == i {
      idx := Rem(actions[i].nano, |states[i].crew.queues|);
    } else {
      idx := IndexIsKept(states, actions, i, j - 1, k, t, x);
      OthersLeave(states[j - 1], actions[j - 1], t);
    }
  }

  /** In every run, the second read of Submit panics if and only if the slice was cut to its index or below
      since the first read and has not grown past the index again; otherwise it finds a queue. */
  lemma SubmitPanicsIff(states: seq<State>, actions: seq<Action>, i: nat, k: nat, t: Tid, x: Task) returns (idx: nat)
    requires IsRun(Init, Moves, states, actions) && ReadsTwice(states, actions, i, k, t, x)
    ensures t in states[k].box.subs && states[k].box.subs[t] == SLook(x, idx)
    ensures x in states[k + 1].box.panicked <==> exists c :: i < c < k && CutForGood(states, actions, c, k, idx)
    ensures x !in states[k + 1].box.panicked ==>
      t in states[k + 1].box.subs && states[k + 1].box.subs[t].SPush? && states[k + 1].box.subs[t].u in states[k].crew.queues
  {
    idx := IndexIsKept(states, actions, i, k, k, t, x);
    RunInv(states, actions, i);
    RunInv(states, actions, k);
    assert StepAt(Moves, states, actions, i) && StepAt(Moves, states, actions, k);
    if |states[k].crew.queues| <= idx {
      var c := LastCut(states, actions, i, k, idx);
      assert c != i;
    }
  }

  /** With no shrink between its two reads, Submit does not panic. */
  lemma NoShrinkNoPanic(states: seq<State>, actions: seq<Action>, i: nat, k: nat, t: Tid, x: Task)
    requires IsRun(Init, Moves, states, actions) && ReadsTwice(states, actions, i, k, t, x)
    requires forall c :: i < c < k ==> !states[c].crew.mgr.MCutQueues?
    ensures x !in states[k + 1].box.panicked
  {
    var idx := SubmitPanicsIff(states, actions, i, k, t, x);
  }
}
