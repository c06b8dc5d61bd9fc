/** The tasks of core/concurrency/executor.go: where each one is, and how it moves. */
module ExecutorTasks {
  import opened ExecutorCrew

  type Task = nat
  type Tid = nat

  datatype Submit =
    | SPick(x: Task)
    | SLook(x: Task, idx: nat)
    | SPush(x: Task, u: Uid)
    | SOverflow(x: Task)

  /** Where an accepted task is.  A local queue belongs to its worker for good, in the slice or not. */
  datatype Place = Local(u: Uid) | Global | Hand(u: Uid) | Done

  /** `hand` holds the task each busy worker runs; `done` lists the tasks that were run; `place` records
      the last move of each accepted task, `seen` the tasks submitted so far and `panicked` those whose
      Submit panicked. */
  datatype Box = Box(
    local: seq<seq<Task>>, global: seq<Task>, hand: map<Uid, Task>, done: seq<Task>,
    subs: map<Tid, Submit>, seen: set<Task>, place: map<Task, Place>, panicked: set<Task>)

  predicate At(b: Box, x: Task, p: Place) {
    match p
    case Local(u) => u < |b.local| && x in b.local[u]
    case Global => x in b.global
    case Hand(u) => u in b.hand && b.hand[u] == x
    case Done => x in b.done
  }

  predicate NoDup(q: seq<Task>) {
    forall i, j :: 0 <= i < j < |q| ==> q[i] != q[j]
  }

  ghost predicate Places(b: Box) {
    && (forall x, p :: At(b, x, p) <==> x in b.place && b.place[x] == p)
    && (forall u :: 0 <= u < |b.local| ==> NoDup(b.local[u]))
    && NoDup(b.global) && NoDup(b.done)
  }

  /** A task still with its submitter is in no queue, and no two submitters hold the same task. */
  ghost predicate Submitters(b: Box) {
    && (forall t :: t in b.subs ==> b.subs[t].x in b.seen && b.subs[t].x !in b.place && b.subs[t].x !in b.panicked)
    && (forall t, r :: t in b.subs && r in b.subs && b.subs[t].x == b.subs[r].x ==> t == r)
    && b.place.Keys <= b.seen && b.panicked <= b.seen && b.panicked !! b.place.Keys
  }

  ghost predicate BoxInv(b: Box) {
    Places(b) && Submitters(b)
  }

  function PushLocal(b: Box, t: Tid, x: Task, u: Uid): Box
    requires u < |b.local|
  {
    b.(local := b.local[u := b.local[u] + [x]], place := b.place[x := Local(u)], subs := b.subs - {t})
  }

  function PushGlobal(b: Box, t: Tid, x: Task): Box {
    b.(global := b.global + [x], place := b.place[x := Global], subs := b.subs - {t})
  }

  function TakeLocal(b: Box, u: Uid): Box
    requires u < |b.local| && b.local[u] != []
  {
    var x := b.local[u][0];
    b.(local := b.local[u := b.local[u][1..]], hand := b.hand[u := x], place := b.place[x := Hand(u)])
  }

  function TakeGlobal(b: Box, u: Uid): Box
    requires b.global != []
  {
    var x := b.global[0];
    b.(global := b.global[1..], hand := b.hand[u := x], place := b.place[x := Hand(u)])
  }

  function Finish(b: Box, u: Uid): Box
    requires u in b.hand
  {
    var x := b.hand[u];
    b.(hand := b.hand - {u}, done := b.done + [x], place := b.place[x := Done])
  }

  lemma PushLocalKeeps(b: Box, t: Tid, u: Uid)
    requires BoxInv(b) && t in b.subs && u < |b.local|
    ensures BoxInv(PushLocal(b, t, b.subs[t].x, u))
  {
    var x := b.subs[t].x;
    assert !At(b, x, Local(u));
    var b' := PushLocal(b, t, x, u);
    forall y, p ensures At(b', y, p) <==> y in b'.place && b'.place[y] == p {
      assert At(b, y, p) <==> y in b.place && b.place[y] == p;
    }
  }

  lemma PushGlobalKeeps(b: Box, t: Tid)
    requires BoxInv(b) && t in b.subs
    ensures BoxInv(PushGlobal(b, t, b.subs[t].x))
  {
    var x := b.subs[t].x;
    assert !At(b, x, Global);
    var b' := PushGlobal(b, t, x);
    forall y, p ensures At(b', y, p) <==> y in b'.place && b'.place[y] == p {
      assert At(b, y, p) <==> y in b.place && b.place[y] == p;
    }
  }

  lemma TakeLocalKeeps(b: Box, u: Uid)
    requires BoxInv(b) && u < |b.local| && b.local[u] != [] && u !in b.hand
    ensures BoxInv(TakeLocal(b, u))
  {
    var x := b.local[u][0];
    assert At(b, x, Local(u));
    var b' := TakeLocal(b, u);
    forall y, p ensures At(b', y, p) <==> y in b'.place && b'.place[y] == p {
      assert At(b, y, p) <==> y in b.place && b.place[y] == p;
      Tail(b.local[u], y);
    }
  }

  lemma Tail(q: seq<Task>, y: Task)
    requires q != [] && NoDup(q)
    ensures NoDup(q[1..]) && (y in q[1..] <==> y in q && y != q[0])
  {
    if y in q && y != q[0] {
      var i :| 0 <= i < |q| && q[i] == y;
      assert q[1..][i - 1] == y;
    }
  }

  lemma TakeGlobalKeeps(b: Box, u: Uid)
    requires BoxInv(b) && b.global != [] && u !in b.hand
    ensures BoxInv(TakeGlobal(b, u))
  {
    var x := b.global[0];
    assert At(b, x, Global);
    var b' := TakeGlobal(b, u);
    forall y, p ensures At(b', y, p) <==> y in b'.place && b'.place[y] == p {
      assert At(b, y, p) <==> y in b.place && b.place[y] == p;
      Tail(b.global, y);
    }
  }

  lemma FinishKeeps(b: Box, u: Uid)
    requires BoxInv(b) && u in b.hand
    ensures BoxInv(Finish(b, u))
  {
    var x := b.hand[u];
    assert At(b, x, Hand(u)) && !At(b, x, Done);
    var b' := Finish(b, u);
    forall y, p ensures At(b', y, p) <==> y in b'.place && b'.place[y] == p {
      assert At(b, y, p) <==> y in b.place && b.place[y] == p;
    }
  }

  lemma WithdrawKeeps(b: Box, t: Tid)
    requires BoxInv(b)
    ensures BoxInv(b.(subs := b.subs - {t}))
  {
    var b' := b.(subs := b.subs - {t});
    forall y, p ensures At(b', y, p) <==> At(b, y, p) {
    }
  }

  lemma PanicKeeps(b: Box, t: Tid)
    requires BoxInv(b) && t in b.subs
    ensures BoxInv(b.(subs := b.subs - {t}, panicked := b.panicked + {b.subs[t].x}))
  {
    var b' := b.(subs := b.subs - {t}, panicked := b.panicked + {b.subs[t].x});
    forall y, p ensures At(b', y, p) <==> At(b, y, p) {
    }
  }

  lemma AdvanceKeeps(b: Box, t: Tid, c: Submit)
    requires BoxInv(b) && (if t in b.subs then c.x == b.subs[t].x else c.x !in b.seen)
    ensures BoxInv(b.(subs := b.subs[t := c], seen := b.seen + {c.x}))
  {
    var b' := b.(subs := b.subs[t := c], seen := b.seen + {c.x});
    forall y, p ensures At(b', y, p) <==> At(b, y, p) {
    }
  }

  lemma NewQueueKeeps(b: Box)
    requires BoxInv(b)
    ensures BoxInv(b.(local := b.local + [[]]))
  {
    var b' := b.(local := b.local + [[]]);
    forall y, p ensures At(b', y, p) <==> At(b, y, p) {
    }
  }
}
