/** Get and Put of pool/slab_pool.go racing from any number of goroutines, with the pool's queue taken as
    the bounded FIFO of `Mpmc.Linearizable`: it is full only if it is, or while a Dequeue that has taken its item is
    in flight, and empty only if it is, or while an Enqueue that has added its item is (`Mpmc.FullMeansHeld`,
    `Mpmc.EmptyMeansUnpublished`). */
module SlabRace {
  import opened Buffers
  import opened Options
  import opened Runs

  type Tid = nat

  datatype Getting =
    | GDequeue(node: int)
    | GTaken(b: Buffer)
    | GAlloc(node: int)
    | GCount(b: Buffer)
    | GLoad(b: Buffer)
    | GStore(b: Buffer)
    | GRecord(b: Buffer, m: nat)

  datatype Putting = PEnqueue(b: Buffer) | PCount

  datatype Place = Free | Getter(t: Tid) | Out | Putter(t: Tid) | Released

  /** `out` holds the buffers in the users' hands; `place` records the last move of each buffer allocated,
      and there have been `alloc` of them. */
  datatype Owners = Owners(
    queue: seq<Buffer>, gets: map<Tid, Getting>, puts: map<Tid, Putting>, out: map<nat, Buffer>, released: set<nat>,
    place: map<nat, Place>, alloc: nat)

  /** The atomic counters, and how many Gets were served from the queue. */
  datatype Tally = Tally(totalAlloc: nat, totalFree: nat, reuses: nat)

  /** Per-node counts are multisets of nodes.  Every map ever stored is kept; `ptr` is the one in place. */
  datatype Numa = Numa(ptr: Option<nat>, maps: seq<multiset<int>>)

  datatype State = State(me: nat, size: nat, cap: nat, own: Owners, tally: Tally, numa: Numa)

  datatype Action =
    | BeginGet(t: Tid, node: int)
    | GetStep(t: Tid, hit: bool)
    | BeginPut(t: Tid, id: nat)
    | PutStep(t: Tid, ok: bool)
    | Cut(id: nat, from: int, to: int)

  ghost predicate Init(s: State) {
    && s.own == Owners([], map[], map[], map[], {}, map[], 0)
    && s.tally == Tally(0, 0, 0) && s.numa == Numa(None, [])
  }

  // ---- ownership ------------------------------------------------------------------------------------

  predicate Holds(g: Getting) {
    !g.GDequeue? && !g.GAlloc?
  }

  predicate At(o: Owners, id: nat, p: Place) {
    match p
    case Free => Has(o.queue, id)
    case Getter(t) => t in o.gets && Holds(o.gets[t]) && o.gets[t].b.id == id
    case Out => id in o.out
    case Putter(t) => t in o.puts && o.puts[t].PEnqueue? && o.puts[t].b.id == id
    case Released => id in o.released
  }

  ghost predicate Owned(o: Owners) {
    && (forall id, p :: At(o, id, p) <==> id in o.place && o.place[id] == p)
    && NoDup(o.queue)
    && (forall id :: id in o.out ==> o.out[id].id == id)
    && (forall id: nat :: id in o.place <==> id < o.alloc)
  }

  function Hit(o: Owners, t: Tid): Owners
    requires o.queue != []
  {
    var b := o.queue[0];
    o.(queue := o.queue[1..], gets := o.gets[t := GTaken(b)], place := o.place[b.id := Getter(t)])
  }

  function Allocate(o: Owners, t: Tid, b: Buffer): Owners {
    o.(gets := o.gets[t := GCount(b)], alloc := o.alloc + 1, place := o.place[o.alloc := Getter(t)])
  }

  function Advance(o: Owners, t: Tid, g: Getting): Owners {
    o.(gets := o.gets[t := g])
  }

  function Hand(o: Owners, t: Tid, b: Buffer): Owners {
    o.(gets := o.gets - {t}, out := o.out[b.id := b], place := o.place[b.id := Out])
  }

  function Release(o: Owners, t: Tid, id: nat): Owners
    requires id in o.out
  {
    o.(out := o.out - {id}, puts := o.puts[t := PEnqueue(o.out[id])], place := o.place[id := Putter(t)])
  }

  function Enqueue(o: Owners, t: Tid, b: Buffer): Owners {
    o.(queue := o.queue + [b], puts := o.puts[t := PCount], place := o.place[b.id := Free])
  }

  function Discard(o: Owners, t: Tid, b: Buffer): Owners {
    o.(released := o.released + {b.id}, puts := o.puts - {t}, place := o.place[b.id := Released])
  }

  lemma HitKeeps(o: Owners, t: Tid)
    requires Owned(o) && o.queue != [] && t in o.gets && !Holds(o.gets[t])
    ensures Owned(Hit(o, t))
  {
    var o', b := Hit(o, t), o.queue[0];
    assert At(o, b.id, Free);
    forall id, p ensures At(o', id, p) <==> id in o'.place && o'.place[id] == p {
      assert At(o, id, p) <==> id in o.place && o.place[id] == p;
      HasTail(o.queue, id);
    }
  }

  lemma AllocateKeeps(o: Owners, t: Tid, b: Buffer)
    requires Owned(o) && t in o.gets && !Holds(o.gets[t]) && b.id == o.alloc
    ensures Owned(Allocate(o, t, b))
  {
    var o' := Allocate(o, t, b);
    forall id, p ensures At(o', id, p) <==> id in o'.place && o'.place[id] == p {
      assert At(o, id, p) <==> id in o.place && o.place[id] == p;
    }
  }

  lemma AdvanceKeeps(o: Owners, t: Tid, g: Getting)
    requires Owned(o)
    requires if Holds(g) then t in o.gets && Holds(o.gets[t]) && g.b.id == o.gets[t].b.id else t in o.gets ==> !Holds(o.gets[t])
    ensures Owned(Advance(o, t, g))
  {
    var o' := Advance(o, t, g);
    forall id, p ensures At(o', id, p) <==> At(o, id, p) {
    }
  }

  lemma HandKeeps(o: Owners, t: Tid)
    requires Owned(o) && t in o.gets && Holds(o.gets[t])
    ensures Owned(Hand(o, t, o.gets[t].b))
  {
    var b := o.gets[t].b;
    var o' := Hand(o, t, b);
    assert At(o, b.id, Getter(t));
    forall id, p ensures At(o', id, p) <==> id in o'.place && o'.place[id] == p {
      assert At(o, id, p) <==> id in o.place && o.place[id] == p;
    }
  }

  lemma ReleaseKeeps(o: Owners, t: Tid, id: nat)
    requires Owned(o) && id in o.out && t !in o.puts
    ensures Owned(Release(o, t, id))
  {
    var o' := Release(o, t, id);
    assert At(o, id, Out);
    forall i, p ensures At(o', i, p) <==> i in o'.place && o'.place[i] == p {
      assert At(o, i, p) <==> i in o.place && o.place[i] == p;
    }
  }

  lemma EnqueueKeeps(o: Owners, t: Tid)
    requires Owned(o) && t in o.puts && o.puts[t].PEnqueue?
    ensures Owned(Enqueue(o, t, o.puts[t].b))
  {
    var b := o.puts[t].b;
    var o' := Enqueue(o, t, b);
    assert At(o, b.id, Putter(t)) && !At(o, b.id, Free);
    forall i, p ensures At(o', i, p) <==> i in o'.place && o'.place[i] == p {
      assert At(o, i, p) <==> i in o.place && o.place[i] == p;
      HasPush(o.queue, b, i);
    }
  }

  lemma DiscardKeeps(o: Owners, t: Tid)
    requires Owned(o) && t in o.puts && o.puts[t].PEnqueue?
    ensures Owned(Discard(o, t, o.puts[t].b))
  {
    var b := o.puts[t].b;
    var o' := Discard(o, t, b);
    assert At(o, b.id, Putter(t));
    forall i, p ensures At(o', i, p) <==> i in o'.place && o'.place[i] == p {
      assert At(o, i, p) <==> i in o.place && o.place[i] == p;
    }
  }

  // ---- steps ----------------------------------------------------------------------------------------

  predicate MayLookEmpty(o: Owners) {
    o.queue == [] || exists u :: u in o.puts && o.puts[u].PCount?
  }

  predicate MayLookFull(o: Owners, cap: nat) {
    |o.queue| >= cap || exists u :: u in o.gets && o.gets[u].GTaken?
  }

  predicate Enabled(s: State, a: Action) {
    match a
    case BeginGet(t, _) => t !in s.own.gets
    case GetStep(t, hit) =>
      && t in s.own.gets
      && (s.own.gets[t].GDequeue? ==> if hit then s.own.queue != [] else MayLookEmpty(s.own))
      && (s.own.gets[t].GRecord? ==> s.own.gets[t].m < |s.numa.maps|)
    case BeginPut(t, id) => t !in s.own.puts && id in s.own.out && s.own.out[id].pool == Some(s.me)
    case PutStep(t, ok) =>
      t in s.own.puts && (s.own.puts[t].PEnqueue? ==> if ok then |s.own.queue| < s.cap else MayLookFull(s.own, s.cap))
    case Cut(id, _, _) => id in s.own.out
  }

  function GetNext(s: State, t: Tid, g: Getting, hit: bool): State
    requires g.GDequeue? && hit ==> s.own.queue != []
    requires g.GRecord? ==> g.m < |s.numa.maps|
  {
    var o := s.own;
    match g
    case GDequeue(node) =>
      if hit then s.(own := Hit(o, t), tally := s.tally.(reuses := s.tally.reuses + 1))
      else s.(own := Advance(o, t, GAlloc(node)))
    case GTaken(b) => s.(own := Hand(o, t, b))
    case GAlloc(node) => s.(own := Allocate(o, t, Buffer(o.alloc, View(0, s.size), node, Some(s.me), s.size)))
    case GCount(b) => s.(own := Advance(o, t, GLoad(b)), tally := s.tally.(totalAlloc := s.tally.totalAlloc + 1))
    case GLoad(b) => s.(own := Advance(o, t, if s.numa.ptr.None? then GStore(b) else GRecord(b, s.numa.ptr.value)))
    case GStore(b) =>
      var m := |s.numa.maps|;
      s.(own := Advance(o, t, GRecord(b, m)), numa := Numa(Some(m), s.numa.maps + [multiset{}]))
    case GRecord(b, m) =>
      s.(own := Hand(o, t, b), numa := s.numa.(maps := s.numa.maps[m := s.numa.maps[m] + multiset{b.numa}]))
  }

  function PutNext(s: State, t: Tid, p: Putting, ok: bool): State {
    match p
    case PEnqueue(b) => s.(own := if ok then Enqueue(s.own, t, b) else Discard(s.own, t, b))
    case PCount => s.(own := s.own.(puts := s.own.puts - {t}), tally := s.tally.(totalFree := s.tally.totalFree + 1))
  }

  function Next(s: State, a: Action): State
    requires Enabled(s, a)
  {
    match a
    case BeginGet(t, node) => s.(own := Advance(s.own, t, GDequeue(node)))
    case GetStep(t, hit) => GetNext(s, t, s.own.gets[t], hit)
    case BeginPut(t, id) => s.(own := Release(s.own, t, id))
    case PutStep(t, ok) => PutNext(s, t, s.own.puts[t], ok)
    case Cut(id, from, to) => s.(own := s.own.(out := s.own.out[id := Slice(s.own.out[id], from, to)]))
  }

  lemma OwnedStep(s: State, a: Action)
    requires Owned(s.own) && Enabled(s, a)
    ensures Owned(Next(s, a).own)
  {
    var o := s.own;
    match a
    case BeginGet(t, node) => AdvanceKeeps(o, t, GDequeue(node));
    case GetStep(t, hit) => OwnedGet(s, t, hit);
    case BeginPut(t, id) => ReleaseKeeps(o, t, id);
    case PutStep(t, ok) =>
      if o.puts[t].PCount? {
        assert forall id, p :: At(Next(s, a).own, id, p) <==> At(o, id, p);
      } else if ok {
        EnqueueKeeps(o, t);
      } else {
        DiscardKeeps(o, t);
      }
    case Cut(id, _, _) => assert forall i, p :: At(Next(s, a).own, i, p) <==> At(o, i, p);
  }

  lemma OwnedGet(s: State, t: Tid, hit: bool)
    requires Owned(s.own) && Enabled(s, GetStep(t, hit))
    ensures Owned(Next(s, GetStep(t, hit)).own)
  {
    var o := s.own;
    match o.gets[t]
    case GDequeue(node) => if hit { HitKeeps(o, t); } else { AdvanceKeeps(o, t, GAlloc(node)); }
    case GTaken(_) => HandKeeps(o, t);
    case GAlloc(node) => AllocateKeeps(o, t, Buffer(o.alloc, View(0, s.size), node, Some(s.me), s.size));
    case GCount(b) => AdvanceKeeps(o, t, GLoad(b));
    case GLoad(b) => AdvanceKeeps(o, t, if s.numa.ptr.None? then GStore(b) else GRecord(b, s.numa.ptr.value));
    case GStore(b) => AdvanceKeeps(o, t, GRecord(b, |s.numa.maps|));
    case GRecord(_, _) => HandKeeps(o, t);
  }

  // ---- pool and class -------------------------------------------------------------------------------

  /** The buffer belongs to this pool and is a view of one of its blocks. */
  predicate Ours(me: nat, size: nat, b: Buffer) {
    b.pool == Some(me) && b.sizeClass == size && Within(b.data, size)
  }

  /** The buffer has the length of its class. */
  predicate Whole(s: State, b: Buffer) {
    Len(b.data) == s.size
  }

  /** What a Get has in its hand is ours, and whole if it was allocated. */
  predicate Got(me: nat, size: nat, g: Getting) {
    Holds(g) ==> Ours(me, size, g.b) && (g.GTaken? || Len(g.b.data) == size)
  }

  ghost predicate Marked(o: Owners, me: nat, size: nat) {
    && (forall i :: 0 <= i < |o.queue| ==> Ours(me, size, o.queue[i]))
    && (forall t :: t in o.gets ==> Got(me, size, o.gets[t]))
    && (forall id :: id in o.out ==> Ours(me, size, o.out[id]))
    && (forall t :: t in o.puts && o.puts[t].PEnqueue? ==> Ours(me, size, o.puts[t].b))
  }

  ghost predicate Branded(s: State) {
    Marked(s.own, s.me, s.size) && |s.own.queue| <= s.cap
  }

  lemma MarkedAdvance(o: Owners, me: nat, size: nat, t: Tid, g: Getting)
    requires Marked(o, me, size) && Got(me, size, g)
    ensures Marked(Advance(o, t, g), me, size)
  {
  }

  lemma MarkedOut(o: Owners, me: nat, size: nat, t: Tid, b: Buffer)
    requires Marked(o, me, size) && Ours(me, size, b)
    ensures Marked(Hand(o, t, b), me, size)
  {
  }

  lemma MarkedHit(o: Owners, me: nat, size: nat, t: Tid)
    requires Marked(o, me, size) && o.queue != []
    ensures Marked(Hit(o, t), me, size)
  {
  }

  lemma MarkedPut(o: Owners, me: nat, size: nat, t: Tid, b: Buffer)
    requires Marked(o, me, size) && Ours(me, size, b)
    ensures Marked(Enqueue(o, t, b), me, size) && Marked(Discard(o, t, b), me, size)
    ensures b.id in o.out && b == o.out[b.id] ==> Marked(Release(o, t, b.id), me, size)
  {
  }

  lemma MarkedCut(o: Owners, me: nat, size: nat, id: nat, b: Buffer)
    requires Marked(o, me, size) && Ours(me, size, b)
    ensures Marked(o.(out := o.out[id := b]), me, size)
  {
  }

  lemma BrandedGet(s: State, t: Tid, hit: bool)
    requires Branded(s) && Enabled(s, GetStep(t, hit))
    ensures Branded(Next(s, GetStep(t, hit)))
  {
    var o, g, s' := s.own, s.own.gets[t], Next(s, GetStep(t, hit));
    if g.GDequeue? && hit {
      MarkedHit(o, s.me, s.size, t);
    } else if g.GRecord? || g.GTaken? {
      MarkedOut(o, s.me, s.size, t, g.b);
    } else {
      MarkedAdvance(o, s.me, s.size, t, s'.own.gets[t]);
    }
  }

  lemma BrandedStep(s: State, a: Action)
    requires Owned(s.own) && Branded(s) && Enabled(s, a)
    ensures Branded(Next(s, a))
  {
    var o := s.own;
    match a
    case BeginGet(t, node) => MarkedAdvance(o, s.me, s.size, t, GDequeue(node));
    case GetStep(t, hit) => BrandedGet(s, t, hit);
    case BeginPut(t, id) => MarkedPut(o, s.me, s.size, t, o.out[id]);
    case PutStep(t, _) => if o.puts[t].PEnqueue? { MarkedPut(o, s.me, s.size, t, o.puts[t].b); }
    case Cut(id, from, to) => MarkedCut(o, s.me, s.size, id, Slice(o.out[id], from, to));
  }

  // ---- the counters ---------------------------------------------------------------------------------

  ghost function Uncounted(gets: map<Tid, Getting>): set<Tid> {
    set t | t in gets && gets[t].GCount?
  }

  ghost function Unrecorded(gets: map<Tid, Getting>): set<Tid> {
    set t | t in gets && MustRecord(gets[t])
  }

  ghost function Unfreed(puts: map<Tid, Putting>): set<Tid> {
    set t | t in puts && puts[t].PCount?
  }

  /** All the counts ever recorded, orphaned maps included. */
  ghost function Recorded(maps: seq<multiset<int>>): nat {
    if maps == [] then 0 else Recorded(maps[..|maps| - 1]) + |maps[|maps| - 1]|
  }

  ghost predicate Counted(s: State) {
    && |s.own.queue| + s.tally.reuses == s.tally.totalFree + |Unfreed(s.own.puts)|
    && s.tally.totalAlloc + |Uncounted(s.own.gets)| == s.own.alloc
    && Recorded(s.numa.maps) + |Unrecorded(s.own.gets)| == s.tally.totalAlloc
  }

  ghost predicate Pointed(s: State) {
    && (s.numa.ptr.None? <==> s.numa.maps == [])
    && (s.numa.ptr.Some? ==> s.numa.ptr.value == |s.numa.maps| - 1)
    && (forall t :: t in s.own.gets && s.own.gets[t].GRecord? ==> s.own.gets[t].m < |s.numa.maps|)
  }

  lemma PointedStep(s: State, a: Action)
    requires Pointed(s) && Enabled(s, a)
    ensures Pointed(Next(s, a))
  {
  }

  /** A map with no count yet has a Get about to record in it. */
  ghost predicate Used(s: State) {
    forall m: nat :: m < |s.numa.maps| && s.numa.maps[m] == multiset{} ==> RecordsIn(s.own.gets, m)
  }

  ghost predicate RecordsIn(gets: map<Tid, Getting>, m: nat) {
    exists t :: t in gets && gets[t].GRecord? && gets[t].m == m
  }

  lemma UsedGet(s: State, t: Tid, hit: bool)
    requires Used(s) && Enabled(s, GetStep(t, hit))
    ensures Used(Next(s, GetStep(t, hit)))
  {
    var s' := Next(s, GetStep(t, hit));
    forall m: nat | m < |s'.numa.maps| && s'.numa.maps[m] == multiset{} ensures RecordsIn(s'.own.gets, m) {
      if m < |s.numa.maps| {
        assert s.numa.maps[m] == multiset{};
        var u :| u in s.own.gets && s.own.gets[u].GRecord? && s.own.gets[u].m == m;
        assert u != t;
        assert u in s'.own.gets && s'.own.gets[u] == s.own.gets[u];
      } else {
        assert s'.own.gets[t].GRecord? && s'.own.gets[t].m == m;
      }
    }
  }

  lemma UsedStep(s: State, a: Action)
    requires Used(s) && Enabled(s, a)
    ensures Used(Next(s, a))
  {
    if a.GetStep? {
      UsedGet(s, a.t, a.hit);
    } else {
      var s' := Next(s, a);
      forall m: nat | m < |s'.numa.maps| && s'.numa.maps[m] == multiset{} ensures RecordsIn(s'.own.gets, m) {
        var u :| u in s.own.gets && s.own.gets[u].GRecord? && s.own.gets[u].m == m;
        assert u in s'.own.gets && s'.own.gets[u] == s.own.gets[u];
      }
    }
  }

  lemma {:induction false} RecordedUpdate(maps: seq<multiset<int>>, m: nat, n: int)
    requires m < |maps|
    ensures Recorded(maps[m := maps[m] + multiset{n}]) == Recorded(maps) + 1
  {
    var maps' := maps[m := maps[m] + multiset{n}];
    if m < |maps| - 1 {
      RecordedUpdate(maps[..|maps| - 1], m, n);
      assert maps'[..|maps| - 1] == maps[..|maps| - 1][m := maps[m] + multiset{n}];
    } else {
      assert maps'[..|maps| - 1] == maps[..|maps| - 1];
    }
  }

  function One(c: bool): nat {
    if c then 1 else 0
  }

  predicate MustRecord(g: Getting) {
    g.GLoad? || g.GStore? || g.GRecord?
  }

  /** How the sets of operations caught between a move and its count change when one of them moves. */
  lemma GetMoves(gets: map<Tid, Getting>, t: Tid, g: Getting)
    ensures |Uncounted(gets[t := g])| == |Uncounted(gets)| - One(t in gets && gets[t].GCount?) + One(g.GCount?)
    ensures |Unrecorded(gets[t := g])| == |Unrecorded(gets)| - One(t in gets && MustRecord(gets[t])) + One(MustRecord(g))
  {
    UncountedMoves(gets, t, g);
    UnrecordedMoves(gets, t, g);
  }

  lemma OneApart(a: set<Tid>, b: set<Tid>, t: Tid)
    requires a - {t} == b - {t}
    ensures |b| == |a| - One(t in a) + One(t in b)
  {
    assert |a - {t}| == |a| - One(t in a);
    assert |b - {t}| == |b| - One(t in b);
  }

  lemma UncountedMoves(gets: map<Tid, Getting>, t: Tid, g: Getting)
    ensures |Uncounted(gets[t := g])| == |Uncounted(gets)| - One(t in gets && gets[t].GCount?) + One(g.GCount?)
  {
    var before, after := Uncounted(gets), Uncounted(gets[t := g]);
    assert t in before <==> t in gets && gets[t].GCount?;
    assert after - {t} == before - {t} && (t in after <==> g.GCount?);
    OneApart(before, after, t);
  }

  lemma UnrecordedMoves(gets: map<Tid, Getting>, t: Tid, g: Getting)
    ensures |Unrecorded(gets[t := g])| == |Unrecorded(gets)| - One(t in gets && MustRecord(gets[t])) + One(MustRecord(g))
  {
    var before, after := Unrecorded(gets), Unrecorded(gets[t := g]);
    assert t in before <==> t in gets && MustRecord(gets[t]);
    assert after - {t} == before - {t} && (t in after <==> MustRecord(g));
    OneApart(before, after, t);
  }

  lemma GetEnds(gets: map<Tid, Getting>, t: Tid)
    requires t in gets
    ensures |Uncounted(gets - {t})| == |Uncounted(gets)| - One(gets[t].GCount?)
    ensures |Unrecorded(gets - {t})| == |Unrecorded(gets)| - One(MustRecord(gets[t]))
  {
    assert Uncounted(gets - {t}) == Uncounted(gets) - {t};
    assert Unrecorded(gets - {t}) == Unrecorded(gets) - {t};
  }

  lemma PutMoves(puts: map<Tid, Putting>, t: Tid, p: Putting)
    ensures |Unfreed(puts[t := p])| == |Unfreed(puts)| - One(t in puts && puts[t].PCount?) + One(p.PCount?)
  {
    var before, after := Unfreed(puts), Unfreed(puts[t := p]);
    assert t in before <==> t in puts && puts[t].PCount?;
    assert after - {t} == before - {t} && (t in after <==> p.PCount?);
    OneApart(before, after, t);
  }

  lemma PutEnds(puts: map<Tid, Putting>, t: Tid)
    requires t in puts
    ensures |Unfreed(puts - {t})| == |Unfreed(puts)| - One(puts[t].PCount?)
  {
    assert Unfreed(puts - {t}) == Unfreed(puts) - {t};
  }

  lemma CountedNuma(s: State, t: Tid, hit: bool)
    requires Counted(s) && Pointed(s) && Enabled(s, GetStep(t, hit)) && (s.own.gets[t].GStore? || s.own.gets[t].GRecord?)
    ensures Counted(Next(s, GetStep(t, hit)))
  {
    var g, maps := s.own.gets[t], s.numa.maps;
    if g.GStore? {
      GetMoves(s.own.gets, t, GRecord(g.b, |maps|));
      RecordedAppend(maps);
    } else {
      GetEnds(s.own.gets, t);
      RecordedUpdate(maps, g.m, g.b.numa);
    }
  }

  lemma RecordedAppend(maps: seq<multiset<int>>)
    ensures Recorded(maps + [multiset{}]) == Recorded(maps)
  {
    assert (maps + [multiset{}])[..|maps|] == maps;
  }

  lemma CountedGet(s: State, t: Tid, hit: bool)
    requires Counted(s) && Enabled(s, GetStep(t, hit)) && !s.own.gets[t].GStore? && !s.own.gets[t].GRecord?
    ensures Counted(Next(s, GetStep(t, hit)))
  {
    var g, s' := s.own.gets[t], Next(s, GetStep(t, hit));
    if g.GTaken? {
      GetEnds(s.own.gets, t);
    } else {
      GetMoves(s.own.gets, t, s'.own.gets[t]);
    }
  }

  lemma CountedStep(s: State, a: Action)
    requires Counted(s) && Pointed(s) && Enabled(s, a)
    ensures Counted(Next(s, a))
  {
    var o := s.own;
    match a
    case BeginGet(t, node) => GetMoves(o.gets, t, GDequeue(node));
    case GetStep(t, hit) => if o.gets[t].GStore? || o.gets[t].GRecord? { CountedNuma(s, t, hit); } else { CountedGet(s, t, hit); }
    case BeginPut(t, id) => PutMoves(o.puts, t, PEnqueue(o.out[id]));
    case PutStep(t, ok) =>
      PutMoves(o.puts, t, PCount);
      PutEnds(o.puts, t);
    case Cut(_, _, _) =>
  }

  // ---- runs -----------------------------------------------------------------------------------------

  ghost predicate Inv(s: State) {
    Owned(s.own) && Branded(s) && Counted(s) && Pointed(s) && Used(s)
  }

  ghost predicate Moves(s: State, a: Action, s': State) {
    Enabled(s, a) && s' == Next(s, a)
  }

  lemma StepInv(s: State, a: Action)
    requires Inv(s) && Enabled(s, a)
    ensures Inv(Next(s, a))
  {
    OwnedStep(s, a);
    BrandedStep(s, a);
    CountedStep(s, a);
    PointedStep(s, a);
    UsedStep(s, a);
  }

  lemma InitInv(s: State)
    requires Init(s)
    ensures Inv(s)
  {
    assert forall id, p :: !At(s.own, id, p);
    assert Uncounted(map[]) == {} && Unrecorded(map[]) == {} && Unfreed(map[]) == {};
  }

  lemma RunInv(states: seq<State>, actions: seq<Action>, k: nat)
    requires IsRun(Init, Moves, states, actions) && k < |states|
    ensures Inv(states[k])
  {
    forall s | Init(s) ensures Inv(s) { InitInv(s); }
    forall s, a, s' | Inv(s) && Moves(s, a, s') ensures Inv(s') { StepInv(s, a); }
    Invariant(Init, Moves, Inv, states, actions, k);
  }

  /** Every buffer ever allocated is in exactly one place, and only once in the queue. */
  lemma EachBufferInOnePlace(states: seq<State>, actions: seq<Action>, k: nat, id: nat)
    requires IsRun(Init, Moves, states, actions) && k < |states|
    ensures var o := states[k].own;
      && (id < o.alloc <==> exists p :: At(o, id, p))
      && (forall p, q :: At(o, id, p) && At(o, id, q) ==> p == q)
      && NoDup(o.queue)
  {
    RunInv(states, actions, k);
    var o := states[k].own;
    if id < o.alloc { assert At(o, id, o.place[id]); }
  }

  /** A buffer reaches a user only from the queue or fresh, never while another user has it, and what is
      in the queue or in use belongs to this pool and class whatever slicing was done to it. */
  lemma NeverHandedOutTwice(states: seq<State>, actions: seq<Action>, k: nat, id: nat)
    requires IsRun(Init, Moves, states, actions) && k < |actions| && actions[k].GetStep?
    requires id in states[k + 1].own.out && (id !in states[k].own.out || states[k + 1].own.out[id] != states[k].own.out[id])
    ensures id !in states[k].own.out && id !in states[k].own.released
    ensures Ours(states[k + 1].me, states[k + 1].size, states[k + 1].own.out[id])
  {
    RunInv(states, actions, k);
    RunInv(states, actions, k + 1);
    assert StepAt(Moves, states, actions, k);
    var o, g := states[k].own, states[k].own.gets[actions[k].t];
    assert o.queue != [] ==> At(o, o.queue[0].id, Free);
    assert Holds(g) ==> At(o, g.b.id, Getter(actions[k].t));
    assert id in o.out ==> At(o, id, Out);
    assert id in o.released ==> At(o, id, Released);
  }

  // ---- how long the buffers are -------------------------------------------------------------------------

  /** The buffer is with the pool: free, on its way back or just taken from the queue. */
  ghost predicate Pooled(o: Owners, b: Buffer) {
    || (exists i :: 0 <= i < |o.queue| && o.queue[i] == b)
    || (exists t :: t in o.puts && o.puts[t] == PEnqueue(b))
    || (exists t :: t in o.gets && o.gets[t] == GTaken(b))
  }

  /** What is with the pool was put there as it is. */
  lemma PooledBefore(s: State, a: Action, b: Buffer)
    requires Owned(s.own) && Enabled(s, a) && Pooled(Next(s, a).own, b)
    ensures Pooled(s.own, b) || (a.BeginPut? && a.id == b.id && s.own.out[a.id] == b)
  {
  }

  lemma PooledIsNotOut(o: Owners, b: Buffer)
    requires Owned(o) && Pooled(o, b)
    ensures b.id !in o.out
  {
    assert At(o, b.id, Out) <==> b.id in o.out;
    if exists i :: 0 <= i < |o.queue| && o.queue[i] == b {
      assert At(o, b.id, Free);
    } else if exists t :: t in o.puts && o.puts[t] == PEnqueue(b) {
      var t :| t in o.puts && o.puts[t] == PEnqueue(b);
      assert At(o, b.id, Putter(t));
    } else {
      var t :| t in o.gets && o.gets[t] == GTaken(b);
      assert At(o, b.id, Getter(t));
    }
  }

  predicate Puts(a: Action, id: nat) {
    a.BeginPut? && a.id == id
  }

  /** Action j put the buffer `id`, and nobody put it again before state k. */
  ghost predicate LastPut(states: seq<State>, actions: seq<Action>, j: nat, k: nat, id: nat)
    requires |states| == |actions| + 1 && k < |states|
  {
    j < k && Puts(actions[j], id) && id in states[j].own.out && forall i :: j < i < k ==> !Puts(actions[i], id)
  }

  lemma {:induction false} PooledWasPut(states: seq<State>, actions: seq<Action>, k: nat, b: Buffer) returns (j: nat)
    requires IsRun(Init, Moves, states, actions) && k < |states| && Pooled(states[k].own, b)
    ensures LastPut(states, actions, j, k, b.id) && states[j].own.out[b.id] == b
  {
    assert k > 0;
    var s, a := states[k - 1], actions[k - 1];
    RunInv(states, actions, k - 1);
    assert StepAt(Moves, states, actions, k - 1);
    PooledBefore(s, a, b);
    if Pooled(s.own, b) {
      PooledIsNotOut(s.own, b);
      j := PooledWasPut(states, actions, k - 1, b);
    } else {
      j := k - 1;
    }
  }

  /** Action k is the step of a Get that gives its caller the buffer `id`. */
  ghost predicate HandsOut(states: seq<State>, actions: seq<Action>, k: nat, id: nat)
    requires |states| == |actions| + 1
  {
    k < |actions| && actions[k].GetStep? && id !in states[k].own.out && id in states[k + 1].own.out
  }

  /** The Get allocated it. */
  predicate Allocates(s: State, t: Tid) {
    t in s.own.gets && s.own.gets[t].GRecord?
  }

  /** Every Get gives its caller a buffer it allocated, of full length, or exactly what the last Put of that
      buffer brought.  So what it gives has the length of its class if and only if it was allocated for
      this Get or was put back whole. */
  lemma GetGivesWhatWasPut(states: seq<State>, actions: seq<Action>, k: nat, id: nat) returns (j: nat)
    requires IsRun(Init, Moves, states, actions) && HandsOut(states, actions, k, id)
    ensures var s, b := states[k], states[k + 1].own.out[id];
      && (Allocates(s, actions[k].t) ==> Whole(s, b))
      && (!Allocates(s, actions[k].t) ==> LastPut(states, actions, j, k, id) && states[j].own.out[id] == b)
      && (Whole(s, b) <==> Allocates(s, actions[k].t) || (LastPut(states, actions, j, k, id) && Whole(s, states[j].own.out[id])))
  {
    RunInv(states, actions, k);
    assert StepAt(Moves, states, actions, k);
    var s, b := states[k], states[k + 1].own.out[id];
    j := 0;
    if !Allocates(s, actions[k].t) {
      assert s.own.gets[actions[k].t] == GTaken(b);
      j := PooledWasPut(states, actions, k, b);
    }
  }

  /** If no shortened buffer is ever put, every Get gives full length. */
  lemma WholePutsGiveWholeGets(states: seq<State>, actions: seq<Action>, k: nat, id: nat)
    requires IsRun(Init, Moves, states, actions) && HandsOut(states, actions, k, id)
    requires forall j :: 0 <= j < k && actions[j].BeginPut? && actions[j].id in states[j].own.out ==>
      Whole(states[k], states[j].own.out[actions[j].id])
    ensures Whole(states[k], states[k + 1].own.out[id])
  {
    var j := GetGivesWhatWasPut(states, actions, k, id);
  }

  // ---- what Stats reports -----------------------------------------------------------------------------

  ghost predicate Quiescent(s: State) {
    s.own.gets == map[] && s.own.puts == map[]
  }

  function InUse(s: State): int {
    s.tally.totalAlloc - s.tally.totalFree
  }

  /** What the visible map adds up to. */
  ghost function Visible(s: State): nat {
    if s.numa.ptr.Some? && s.numa.ptr.value < |s.numa.maps| then |s.numa.maps[s.numa.ptr.value]| else 0
  }

  ghost function Orphaned(s: State): nat {
    if s.numa.maps == [] then 0 else Recorded(s.numa.maps[..|s.numa.maps| - 1])
  }

  ghost function Below(n: nat): (r: set<nat>)
    ensures |r| == n && forall i: nat :: i in r <==> i < n
  {
    if n == 0 then {} else Below(n - 1) + {n - 1}
  }

  ghost function IdSet(q: seq<Buffer>): set<nat> {
    set i | 0 <= i < |q| :: q[i].id
  }

  lemma {:induction false} CountIds(q: seq<Buffer>)
    requires NoDup(q)
    ensures |IdSet(q)| == |q|
  {
    if q != [] {
      var n := |q| - 1;
      CountIds(q[..n]);
      assert IdSet(q) == IdSet(q[..n]) + {q[n].id};
    }
  }

  lemma OwnersAt(o: Owners, id: nat)
    requires Owned(o) && o.gets == map[] && o.puts == map[]
    ensures id < o.alloc <==> id in IdSet(o.queue) || id in o.out.Keys || id in o.released
    ensures !(id in IdSet(o.queue) && (id in o.out.Keys || id in o.released)) && !(id in o.out.Keys && id in o.released)
  {
    assert id in IdSet(o.queue) <==> At(o, id, Free);
    assert id in o.out <==> At(o, id, Out);
    assert id in o.released <==> At(o, id, Released);
    if id in o.place { assert At(o, id, o.place[id]); }
  }

  lemma CountOwners(o: Owners)
    requires Owned(o) && o.gets == map[] && o.puts == map[]
    ensures o.alloc == |o.queue| + |o.out| + |o.released|
  {
    CountIds(o.queue);
    forall id: nat { OwnersAt(o, id); }
    Partition(Below(o.alloc), IdSet(o.queue), o.out.Keys, o.released);
  }

  lemma Partition(all: set<nat>, a: set<nat>, b: set<nat>, c: set<nat>)
    requires forall id: nat :: id in all <==> id in a || id in b || id in c
    requires a !! b !! c
    ensures |all| == |a| + |b| + |c|
  {
    assert all == a + b + c;
  }

  /** With no call in flight: the queue holds the frees not yet reused, totalAlloc counts the buffers
      allocated, and InUse is off from the number in use by the buffers dropped less the reuses. */
  lemma QuiescentStats(states: seq<State>, actions: seq<Action>, k: nat)
    requires IsRun(Init, Moves, states, actions) && k < |states| && Quiescent(states[k])
    ensures var s := states[k];
      && |s.own.queue| == s.tally.totalFree - s.tally.reuses
      && s.tally.totalAlloc == s.own.alloc
      && InUse(s) == |s.own.out| + |s.own.released| - s.tally.reuses
      && (InUse(s) == |s.own.out| <==> |s.own.released| == s.tally.reuses)
  {
    RunInv(states, actions, k);
    var s := states[k];
    assert Uncounted(s.own.gets) == {} && Unfreed(s.own.puts) == {};
    CountOwners(s.own);
  }

  lemma {:induction false} RecordedSome(maps: seq<multiset<int>>)
    requires forall m :: 0 <= m < |maps| ==> maps[m] != multiset{}
    ensures Recorded(maps) >= |maps|
  {
    if maps != [] { RecordedSome(maps[..|maps| - 1]); }
  }

  /** With no call in flight the per-node counts add up to totalAlloc, those of maps that were replaced
      included; so the visible ones do exactly if at most one Get ever found no map and stored one. */
  lemma NumaStats(states: seq<State>, actions: seq<Action>, k: nat)
    requires IsRun(Init, Moves, states, actions) && k < |states| && Quiescent(states[k])
    ensures var s := states[k];
      && Visible(s) + Orphaned(s) == s.tally.totalAlloc
      && (Visible(s) == s.tally.totalAlloc <==> |s.numa.maps| <= 1)
  {
    RunInv(states, actions, k);
    var s := states[k];
    assert Unrecorded(s.own.gets) == {};
    forall m: nat | m < |s.numa.maps| ensures s.numa.maps[m] != multiset{} {
      assert !RecordsIn(s.own.gets, m);
    }
    if |s.numa.maps| > 1 { RecordedSome(s.numa.maps[..|s.numa.maps| - 1]); }
  }

  /** The first map is stored and nobody is about to store another. */
  ghost predicate WarmedUp(s: State) {
    |s.numa.maps| == 1 && forall t :: t in s.own.gets ==> !s.own.gets[t].GStore?
  }

  lemma StaysWarm(s: State, a: Action)
    requires WarmedUp(s) && Pointed(s) && Enabled(s, a)
    ensures WarmedUp(Next(s, a))
  {
  }

  lemma {:induction false} WarmRun(states: seq<State>, actions: seq<Action>, j: nat, k: nat)
    requires IsRun(Init, Moves, states, actions) && j <= k < |states| && WarmedUp(states[j])
    ensures WarmedUp(states[k])
  {
    if j < k {
      WarmRun(states, actions, j, k - 1);
      RunInv(states, actions, k - 1);
      assert StepAt(Moves, states, actions, k - 1);
      StaysWarm(states[k - 1], actions[k - 1]);
    }
  }

  /** Once one Get has stored the map and no other is about to, as after a first Get made before the pool
      is shared, the visible counts add up to totalAlloc whenever no call is in flight. */
  lemma WarmPoolCountsExactly(states: seq<State>, actions: seq<Action>, j: nat, k: nat)
    requires IsRun(Init, Moves, states, actions) && j <= k < |states| && WarmedUp(states[j]) && Quiescent(states[k])
    ensures Visible(states[k]) == states[k].tally.totalAlloc
  {
    WarmRun(states, actions, j, k);
    NumaStats(states, actions, k);
  }

  // ---- a run that loses a count -----------------------------------------------------------------------

  /** Buffer i of a pool of 64-byte blocks, allocated on node 0, and two Gets under way. */
  function Block(i: nat): Buffer {
    Buffer(i, View(0, 64), 0, Some(0), 64)
  }

  function Both(g: Getting, h: Getting, place: map<nat, Place>, alloc: nat, counted: nat, numa: Numa): State {
    State(0, 64, 4096, Owners([], map[0 := g, 1 := h], map[], map[], {}, place, alloc), Tally(counted, 0, 0), numa)
  }

  function Mine(): map<nat, Place> {
    map[0 := Getter(0), 1 := Getter(1)]
  }

  lemma BothBegin()
    ensures Reachable(Init, Moves, Both(GDequeue(0), GDequeue(0), map[], 0, 0, Numa(None, [])))
  {
    var o := Owners([], map[], map[], map[], {}, map[], 0);
    var s0 := State(0, 64, 4096, o, Tally(0, 0, 0), Numa(None, []));
    var s1 := s0.(own := o.(gets := map[0 := GDequeue(0)]));
    Start(Init, Moves, s0);
    Extend(Init, Moves, s0, BeginGet(0, 0), s1);
    Extend(Init, Moves, s1, BeginGet(1, 0), Both(GDequeue(0), GDequeue(0), map[], 0, 0, Numa(None, [])));
  }

  lemma BothMiss()
    ensures Reachable(Init, Moves, Both(GAlloc(0), GAlloc(0), map[], 0, 0, Numa(None, [])))
  {
    BothBegin();
    var n := Numa(None, []);
    var s1 := Both(GAlloc(0), GDequeue(0), map[], 0, 0, n);
    Extend(Init, Moves, Both(GDequeue(0), GDequeue(0), map[], 0, 0, n), GetStep(0, false), s1);
    Extend(Init, Moves, s1, GetStep(1, false), Both(GAlloc(0), GAlloc(0), map[], 0, 0, n));
  }

  lemma BothAllocate()
    ensures Reachable(Init, Moves, Both(GCount(Block(0)), GCount(Block(1)), Mine(), 2, 0, Numa(None, [])))
  {
    BothMiss();
    var n := Numa(None, []);
    var s1 := Both(GCount(Block(0)), GAlloc(0), map[0 := Getter(0)], 1, 0, n);
    Extend(Init, Moves, Both(GAlloc(0), GAlloc(0), map[], 0, 0, n), GetStep(0, false), s1);
    Extend(Init, Moves, s1, GetStep(1, false), Both(GCount(Block(0)), GCount(Block(1)), Mine(), 2, 0, n));
  }

  lemma BothCount()
    ensures Reachable(Init, Moves, Both(GLoad(Block(0)), GLoad(Block(1)), Mine(), 2, 2, Numa(None, [])))
  {
    BothAllocate();
    var n := Numa(None, []);
    var s1 := Both(GLoad(Block(0)), GCount(Block(1)), Mine(), 2, 1, n);
    Extend(Init, Moves, Both(GCount(Block(0)), GCount(Block(1)), Mine(), 2, 0, n), GetStep(0, false), s1);
    Extend(Init, Moves, s1, GetStep(1, false), Both(GLoad(Block(0)), GLoad(Block(1)), Mine(), 2, 2, n));
  }

  lemma BothLoadNil()
    ensures Reachable(Init, Moves, Both(GStore(Block(0)), GStore(Block(1)), Mine(), 2, 2, Numa(None, [])))
  {
    BothCount();
    var n := Numa(None, []);
    var s1 := Both(GStore(Block(0)), GLoad(Block(1)), Mine(), 2, 2, n);
    Extend(Init, Moves, Both(GLoad(Block(0)), GLoad(Block(1)), Mine(), 2, 2, n), GetStep(0, false), s1);
    Extend(Init, Moves, s1, GetStep(1, false), Both(GStore(Block(0)), GStore(Block(1)), Mine(), 2, 2, n));
  }

  function TwoMaps(): State {
    Both(GRecord(Block(0), 0), GRecord(Block(1), 1), Mine(), 2, 2, Numa(Some(1), [multiset{}, multiset{}]))
  }

  lemma BothStore()
    ensures Reachable(Init, Moves, TwoMaps())
  {
    BothLoadNil();
    var s1 := Both(GRecord(Block(0), 0), GStore(Block(1)), Mine(), 2, 2, Numa(Some(0), [multiset{}]));
    Extend(Init, Moves, Both(GStore(Block(0)), GStore(Block(1)), Mine(), 2, 2, Numa(None, [])), GetStep(0, false), s1);
    Extend(Init, Moves, s1, GetStep(1, false), TwoMaps());
  }

  /** Two first Gets both find no map and both store one: afterwards, with nothing in flight, two buffers
      were allocated and the visible counts add up to one. */
  lemma RacingFirstGetsLoseACount() returns (s: State)
    ensures Reachable(Init, Moves, s) && Quiescent(s) && s.tally.totalAlloc == 2 && Visible(s) == 1
  {
    BothStore();
    var s0 := TwoMaps();
    var s1 := Next(s0, GetStep(0, false));
    s := Next(s1, GetStep(1, false));
    Extend(Init, Moves, s0, GetStep(0, false), s1);
    Extend(Init, Moves, s1, GetStep(1, false), s);
    assert s.own.gets == map[];
  }
}
