/** The sharded session manager of internal/session/store.go over an arbitrary hash function. */
module Sessions {
  import opened Bits
  import opened Options

  /** `closes` counts how often the done channel was closed: a second time would panic. */
  class Session {
    const id: string
    var fired: bool
    var closes: nat

    ghost predicate Valid()
      reads this
    {
      closes == if fired then 1 else 0
    }

    constructor (id: string)
      ensures this.id == id && Valid() && !fired
    {
      this.id := id;
      fired, closes := false, 0;
    }

    /** However often it is called, the channel is closed once. */
    method Cancel()
      requires Valid()
      modifies this
      ensures Valid() && closes == 1
    {
      if !fired {
        fired := true;
        closes := closes + 1;
      }
    }
  }

  ghost predicate Sharded(shards: seq<map<string, Session>>, table: map<string, Session>, index: string -> nat) {
    && (forall i, id :: 0 <= i < |shards| && id in shards[i] ==> index(id) == i)
    && (forall id :: id in table <==> index(id) < |shards| && id in shards[index(id)])
    && (forall id :: id in table ==> table[id] == shards[index(id)][id] && table[id].id == id)
  }

  lemma ShardedInsert(shards: seq<map<string, Session>>, table: map<string, Session>, index: string -> nat, s: Session)
    requires Sharded(shards, table, index) && index(s.id) < |shards|
    ensures var i := index(s.id); Sharded(shards[i := shards[i][s.id := s]], table[s.id := s], index)
  {
  }

  lemma ShardedRemove(shards: seq<map<string, Session>>, table: map<string, Session>, index: string -> nat, id: string)
    requires Sharded(shards, table, index) && index(id) < |shards|
    ensures var i := index(id); Sharded(shards[i := shards[i] - {id}], table - {id}, index)
  {
  }

  /** Every session of the table once, in any order, and nothing else. */
  ghost predicate Lists(visited: seq<Session>, table: map<string, Session>) {
    && (forall i :: 0 <= i < |visited| ==> visited[i].id in table && visited[i] == table[visited[i].id])
    && (forall i, j :: 0 <= i < j < |visited| ==> visited[i].id != visited[j].id)
    && (forall id :: id in table ==> table[id] in visited)
  }

  class SessionManager {
    const hash: string -> nat
    const mask: nat
    ghost const k: nat
    var shards: seq<map<string, Session>>
    /** The one flat map that the shards stand for. */
    ghost var table: map<string, Session>
    /** The sessions Delete has cancelled. */
    ghost var cancelled: set<Session>

    function Index(id: string): nat {
      And(hash(id), mask)
    }

    /** Every shard holds exactly the sessions of the table that hash to it, under their own ids. */
    ghost predicate Valid()
      reads this
    {
      |shards| == Pow2(k) && mask == Pow2(k) - 1 && Sharded(shards, table, Index)
    }

    lemma InRange(id: string)
      requires mask == Pow2(k) - 1
      ensures Index(id) == Rem(hash(id), Pow2(k)) < Pow2(k)
    {
      AndMask(hash(id), k);
    }

    /** The count is taken modulo the width w of the unsigned word (32 in the source); no shard comes
        of a count whose next power of two does not fit, and the manager is then useless. */
    constructor (shardCount: int, hash: string -> nat, w: nat)
      requires 5 <= w <= 32
      ensures this.hash == hash && table == map[] && cancelled == {}
      ensures var v := Rem(if shardCount <= 0 then 16 else shardCount, Pow2(w));
        if 1 <= v && 2 * v <= Pow2(w) then Valid() && |shards| == CeilPow2(v) else shards == []
    {
      var count := if shardCount <= 0 then 16 else shardCount;
      var v := Rem(count, Pow2(w));
      var m := NextPowerOfTwo32(v, w);
      this.hash := hash;
      mask := if m == 0 then Pow2(w) - 1 else m - 1;
      k := if v == 0 then 0 else BitLen(v - 1);
      shards := seq(m, _ => map[]);
      table, cancelled := map[], {};
    }

    /** The session there is, or a new one; everything else stays. */
    method Create(id: string) returns (s: Session)
      requires Valid()
      modifies this`shards, this`table
      ensures Valid() && table == old(table)[id := s]
      ensures if id in old(table) then s == old(table)[id] else fresh(s) && s.Valid() && !s.fired
    {
      InRange(id);
      var i := Index(id);
      if id in shards[i] {
        s := shards[i][id];
        assert table == table[id := s];
        return;
      }
      s := new Session(id);
      ShardedInsert(shards, table, Index, s);
      shards := shards[i := shards[i][id := s]];
      table := table[id := s];
    }

    method Get(id: string) returns (s: Option<Session>)
      requires Valid()
      ensures s == if id in table then Some(table[id]) else None
    {
      InRange(id);
      var i := Index(id);
      s := if id in shards[i] then Some(shards[i][id]) else None;
    }

    /** Removes the session and cancels it, and touches no other. */
    method Delete(id: string)
      requires Valid() && (id in table ==> table[id].Valid())
      modifies this`shards, this`table, this`cancelled, if id in table then {table[id]} else {}
      ensures Valid() && table == old(table) - {id}
      ensures cancelled == old(cancelled) + (if id in old(table) then {old(table)[id]} else {})
      ensures id in old(table) ==> old(table)[id].Valid() && old(table)[id].closes == 1
    {
      InRange(id);
      var i := Index(id);
      if id in shards[i] {
        shards[i][id].Cancel();
        Remove(id, i);
      } else {
        assert table == table - {id};
      }
    }

    /** delete(sh.sessions, id). */
    method Remove(id: string, i: nat)
      requires Valid() && i == Index(id) < |shards| && id in shards[i]
      modifies this`shards, this`table, this`cancelled
      ensures Valid() && id in old(table) && table == old(table) - {id} && cancelled == old(cancelled) + {old(table)[id]}
    {
      ShardedRemove(shards, table, Index, id);
      shards := shards[i := shards[i] - {id}];
      table, cancelled := table - {id}, cancelled + {table[id]};
    }

    /** Calls the callback, here recorded, once for every live session. */
    method Range() returns (visited: seq<Session>)
      requires Valid()
      ensures Lists(visited, table)
    {
      visited := [];
      var i := 0;
      while i < |shards|
        invariant i <= |shards|
        invariant Visited(visited, i, {})
      {
        visited := RangeShard(i, visited);
        i := i + 1;
      }
      forall id | id in table ensures table[id] in visited {
        InRange(id);
      }
    }

    /** Exactly the sessions of the first n shards, and of shard n those with ids in `part`, in any order. */
    ghost predicate Visited(visited: seq<Session>, n: nat, part: set<string>)
      reads this
    {
      && (forall i :: 0 <= i < |visited| ==> visited[i].id in table && visited[i] == table[visited[i].id])
      && (forall i :: 0 <= i < |visited| ==> Index(visited[i].id) < n || (Index(visited[i].id) == n && visited[i].id in part))
      && (forall i, j :: 0 <= i < j < |visited| ==> visited[i].id != visited[j].id)
      && (forall id :: id in table && (Index(id) < n || (Index(id) == n && id in part)) ==> table[id] in visited)
    }

    lemma VisitOne(visited: seq<Session>, n: nat, done: set<string>, id: string)
      requires Valid() && n < |shards| && id in shards[n] && id !in done && Visited(visited, n, done)
      ensures Visited(visited + [shards[n][id]], n, done + {id})
    {
      var s := shards[n][id];
      assert s == table[id];
      assert (visited + [s])[|visited|] == s;
    }

    method RangeShard(n: nat, before: seq<Session>) returns (visited: seq<Session>)
      requires Valid() && n < |shards| && Visited(before, n, {})
      ensures Visited(visited, n + 1, {})
    {
      visited := before;
      var todo, done: set<string> := shards[n].Keys, {};
      while todo != {}
        invariant todo !! done && todo + done == shards[n].Keys
        invariant Visited(visited, n, done)
        decreases todo
      {
        var id :| id in todo;
        VisitOne(visited, n, done, id);
        visited := visited + [shards[n][id]];
        todo, done := todo - {id}, done + {id};
      }
    }
  }

  // ---- any sequence of calls ------------------------------------------------------------------------

  datatype Op = Create(id: string) | Get(id: string) | Delete(id: string) | Range

  /** What a call returns, and for Range the sessions its callback was given. */
  datatype Answer = Made(s: Session) | Found(o: Option<Session>) | Deleted | Ranged(visited: seq<Session>)

  /** One flat map and the sessions that were cancelled. */
  datatype Flat = Flat(live: map<string, Session>, cancelled: set<Session>)

  /** What a call on the flat map may answer and do. */
  ghost predicate FlatStep(f: Flat, op: Op, a: Answer, f': Flat) {
    match op
    case Create(id) =>
      && a.Made? && f' == f.(live := f.live[id := a.s])
      && (if id in f.live then a.s == f.live[id] else a.s.id == id && a.s !in f.live.Values && a.s !in f.cancelled)
    case Get(id) => a == Found(if id in f.live then Some(f.live[id]) else None) && f' == f
    case Delete(id) =>
      a == Deleted && f' == Flat(f.live - {id}, f.cancelled + (if id in f.live then {f.live[id]} else {}))
    case Range => a.Ranged? && Lists(a.visited, f.live) && f' == f
  }

  ghost predicate History(flats: seq<Flat>, ops: seq<Op>, answers: seq<Answer>) {
    && |flats| == |ops| + 1 && |answers| == |ops|
    && forall i: nat :: i < |ops| ==> HistoryStep(flats, ops, answers, i)
  }

  ghost predicate HistoryStep(flats: seq<Flat>, ops: seq<Op>, answers: seq<Answer>, i: nat)
    requires |flats| == |ops| + 1 && |answers| == |ops| && i < |ops|
  {
    FlatStep(flats[i], ops[i], answers[i], flats[i + 1])
  }

  ghost function FlatOf(m: SessionManager): Flat
    reads m
  {
    Flat(m.table, m.cancelled)
  }

  /** The manager's sessions are open exactly as long as they are in the table. */
  ghost predicate Consistent(m: SessionManager)
    reads m, m.table.Values, m.cancelled
  {
    && m.Valid()
    && (forall id :: id in m.table ==> m.table[id].Valid() && !m.table[id].fired && m.table[id] !in m.cancelled)
    && (forall s :: s in m.cancelled ==> s.Valid() && s.closes == 1)
  }

  method ApplyCreate(m: SessionManager, id: string) returns (a: Answer)
    requires Consistent(m)
    modifies m
    ensures Consistent(m) && FlatStep(old(FlatOf(m)), Create(id), a, FlatOf(m))
    ensures forall s :: s in m.table.Values ==> s in old(m.table.Values) || fresh(s)
  {
    var s := m.Create(id);
    a := Made(s);
  }

  method ApplyDelete(m: SessionManager, id: string) returns (a: Answer)
    requires Consistent(m)
    modifies m, m.table.Values
    ensures Consistent(m) && FlatStep(old(FlatOf(m)), Delete(id), a, FlatOf(m))
    ensures forall s :: s in m.table.Values ==> s in old(m.table.Values)
  {
    m.Delete(id);
    a := Deleted;
  }

  method Apply(m: SessionManager, op: Op) returns (a: Answer)
    requires Consistent(m)
    modifies m, m.table.Values
    ensures Consistent(m) && FlatStep(old(FlatOf(m)), op, a, FlatOf(m))
    ensures forall s :: s in m.table.Values ==> s in old(m.table.Values) || fresh(s)
  {
    match op
    case Create(id) => a := ApplyCreate(m, id);
    case Get(id) =>
      var o := m.Get(id);
      a := Found(o);
    case Delete(id) => a := ApplyDelete(m, id);
    case Range =>
      var visited := m.Range();
      a := Ranged(visited);
  }

  lemma HistoryGrows(f: Flat, op: Op, a: Answer, flats: seq<Flat>, ops: seq<Op>, answers: seq<Answer>)
    requires History(flats, ops, answers) && FlatStep(f, op, a, flats[0])
    ensures History([f] + flats, [op] + ops, [a] + answers)
  {
    forall i: nat | i < |ops| + 1 ensures HistoryStep([f] + flats, [op] + ops, [a] + answers, i) {
      assert i > 0 ==> HistoryStep(flats, ops, answers, i - 1);
    }
  }

  /** Under every sequence of calls the manager answers as one flat map would, whatever the hash: every
      returned session, lookup and listing is the flat map's, and a session is cancelled exactly when a
      Delete takes it out. */
  method Replay(m: SessionManager, ops: seq<Op>) returns (answers: seq<Answer>, ghost flats: seq<Flat>)
    requires Consistent(m)
    modifies m, m.table.Values
    ensures Consistent(m) && History(flats, ops, answers) && flats[0] == old(FlatOf(m)) && flats[|ops|] == FlatOf(m)
    decreases |ops|
  {
    if ops == [] {
      answers, flats := [], [FlatOf(m)];
    } else {
      ghost var f := FlatOf(m);
      var a := Apply(m, ops[0]);
      answers, flats := Replay(m, ops[1..]);
      HistoryGrows(f, ops[0], a, flats, ops[1..], answers);
      assert [ops[0]] + ops[1..] == ops;
      answers, flats := [a] + answers, [f] + flats;
    }
  }

  /** On the flat map: creating twice gives one session, and a deleted one is found no more. */
  lemma FlatLaws(f0: Flat, f1: Flat, f2: Flat, id: string, a: Answer, b: Answer)
    requires FlatStep(f0, Create(id), a, f1)
    ensures FlatStep(f1, Create(id), b, f2) ==> b == a && f2 == f1
    ensures FlatStep(f1, Get(id), b, f2) ==> b == Found(Some(a.s))
    ensures FlatStep(f1, Delete(id), b, f2) ==> a.s in f2.cancelled && id !in f2.live
  {
  }
}
