/** The ring of internal/concurrency/ring.go with its counters in machine words, of which there are `words`:
    how far it follows the ring of module Spsc, and what becomes of it then.  A state is one of module Spsc
    whose counters are words; `put` and `got` list the items as before. */
module SpscWords {
  import opened Bits
  import opened Runs
  import opened Spsc

  // ---- arithmetic on words -----------------------------------------------------------------------------

  lemma {:induction false} RemAhead(h: nat, t: nat, words: nat)
    requires h <= t < h + words
    ensures Rem(t, words) == if Rem(h, words) + (t - h) < words then Rem(h, words) + (t - h)
                             else Rem(h, words) + (t - h) - words
    decreases h
  {
    if h >= words { RemAhead(h - words, t - words, words); }
  }

  /** t - h on words. */
  function WordsBetween(h: nat, t: nat, words: nat): int
    requires words > 0
  {
    if t >= h then t - h else t - h + words
  }

  /** A difference of words is exact however often the counters have wrapped. */
  lemma WrappedFullTest(h: nat, t: nat, words: nat)
    requires h <= t < h + words
    ensures WordsBetween(Rem(h, words), Rem(t, words), words) == t - h
  {
    RemAhead(h, t, words);
  }

  /** Comparing the words themselves tells whether the ring is empty exactly if it is empty, or tail has not
      wrapped ahead of head. */
  lemma WrappedEmptyTest(h: nat, t: nat, words: nat)
    requires h <= t < h + words
    ensures (Rem(h, words) >= Rem(t, words) <==> h >= t) <==> (h == t || Rem(h, words) + (t - h) < words)
  {
    RemAhead(h, t, words);
  }

  // ---- the machine on words -------------------------------------------------------------------------------

  ghost predicate WordsInit<T>(w: State<T>) {
    Init(w)
  }

  function ProduceOnWords<T>(s: State<T>, words: nat): State<T>
    requires words > 0 && s.n > 0 && |s.data| == s.n && !s.prod.PIdle?
  {
    match s.prod
    case PStart(x) => s.(prod := PHead(x, s.head, false))
    case PHead(x, h, _) => s.(prod := PBoth(x, h, s.tail, false))
    case PBoth(x, h, t, _) =>
      if WordsBetween(h, t, words) >= s.n then s.(prod := PIdle)
      else s.(data := s.data[Rem(t, s.n) := x], prod := PWrote(x, t))
    case PWrote(x, t) => s.(tail := Plus(t, 1, words), put := s.put + [x], prod := PIdle)
  }

  function ConsumeOnWords<T>(s: State<T>, words: nat): State<T>
    requires words > 0 && s.n > 0 && |s.data| == s.n && !s.cons.CIdle?
  {
    match s.cons
    case CStart => s.(cons := CHead(s.head))
    case CHead(h) => s.(cons := CBoth(h, s.tail, false))
    case CBoth(h, t, _) =>
      if h >= t then s.(cons := CIdle)
      else s.(cons := CRead(h, s.data[Rem(h, s.n)]))
    case CRead(h, x) => s.(head := Plus(h, 1, words), got := s.got + [x], cons := CIdle)
  }

  function NextOnWords<T>(s: State<T>, a: Action<T>, words: nat): State<T>
    requires words > 0 && s.n > 0 && |s.data| == s.n && Enabled(s, a)
  {
    match a
    case CallEnqueue(x) => s.(prod := PStart(x))
    case Produce => ProduceOnWords(s, words)
    case CallDequeue => s.(cons := CStart)
    case Consume => ConsumeOnWords(s, words)
  }

  ghost predicate StepOnWords<T>(s: State<T>, a: Action<T>, s': State<T>, words: nat) {
    words > 0 && s.n > 0 && |s.data| == s.n && Enabled(s, a) && s' == NextOnWords(s, a, words)
  }

  ghost function MovesOnWords<T>(words: nat): (State<T>, Action<T>, State<T>) -> bool {
    (s: State<T>, a: Action<T>, s': State<T>) => StepOnWords(s, a, s', words)
  }

  // ---- how far it follows the ring ---------------------------------------------------------------------------

  function ProducerOnWords<T>(p: Producer<T>, words: nat): Producer<T>
    requires words > 0
  {
    match p
    case PIdle => p
    case PStart(_) => p
    case PHead(x, h, _) => PHead(x, Rem(h, words), false)
    case PBoth(x, h, t, _) => PBoth(x, Rem(h, words), Rem(t, words), false)
    case PWrote(x, t) => PWrote(x, Rem(t, words))
  }

  function ConsumerOnWords<T>(c: Consumer<T>, words: nat): Consumer<T>
    requires words > 0
  {
    match c
    case CIdle => c
    case CStart => c
    case CHead(h) => CHead(Rem(h, words))
    case CBoth(h, t, _) => CBoth(Rem(h, words), Rem(t, words), false)
    case CRead(h, x) => CRead(Rem(h, words), x)
  }

  function OnWords<T>(s: State<T>, words: nat): State<T>
    requires words > 0
  {
    s.(head := Rem(s.head, words), tail := Rem(s.tail, words),
       prod := ProducerOnWords(s.prod, words), cons := ConsumerOnWords(s.cons, words))
  }

  /** Dequeue is about to decide on an item it does not see: tail has wrapped ahead of the head it read. */
  predicate Misled<T>(s: State<T>, a: Action<T>, words: nat)
    requires words > 0
  {
    a == Consume && s.cons.CBoth? && s.cons.h < s.cons.t && Rem(s.cons.h, words) + (s.cons.t - s.cons.h) >= words
  }

  lemma DecideFollows<T>(s: State<T>, words: nat)
    requires Inv(s) && s.prod.PBoth? && FitsWords(s.n, words)
    ensures words > 0 && ProduceOnWords(OnWords(s, words), words) == OnWords(ProduceStep(s), words)
  {
    SomeWords(s.n, words);
    var h, t := s.prod.h, s.prod.t;
    WrappedFullTest(h, t, words);
    RemOfWord(t, s.n, words);
    assert WordsBetween(Rem(h, words), Rem(t, words), words) >= s.n <==> t - h >= s.n;
  }

  lemma ProduceFollows<T>(s: State<T>, words: nat)
    requires Inv(s) && !s.prod.PIdle? && FitsWords(s.n, words)
    ensures words > 0 && ProduceOnWords(OnWords(s, words), words) == OnWords(ProduceStep(s), words)
  {
    SomeWords(s.n, words);
    match s.prod
    case PStart(_) =>
    case PHead(_, _, _) =>
    case PBoth(_, _, _, _) => DecideFollows(s, words);
    case PWrote(_, t) => PlusFollows(t, 1, words);
  }

  lemma ConsumeFollows<T>(s: State<T>, words: nat)
    requires Inv(s) && !s.cons.CIdle? && FitsWords(s.n, words)
    ensures words > 0
    ensures ConsumeOnWords(OnWords(s, words), words) == OnWords(ConsumeStep(s), words) <==> !Misled(s, Consume, words)
  {
    SomeWords(s.n, words);
    match s.cons
    case CStart =>
    case CHead(_) =>
    case CBoth(h, t, _) =>
      WrappedEmptyTest(h, t, words);
      RemOfWord(h, s.n, words);
    case CRead(h, _) => PlusFollows(h, 1, words);
  }

  /** A step on words is the step of the ring if and only if it is not a Dequeue that tail has wrapped
      ahead of. */
  lemma FollowsIff<T>(s: State<T>, a: Action<T>, words: nat)
    requires Inv(s) && Enabled(s, a) && FitsWords(s.n, words)
    ensures words > 0 && Enabled(OnWords(s, words), a)
    ensures NextOnWords(OnWords(s, words), a, words) == OnWords(Next(s, a), words) <==> !Misled(s, a, words)
  {
    match a
    case CallEnqueue(_) => SomeWords(s.n, words);
    case Produce => ProduceFollows(s, words);
    case CallDequeue => SomeWords(s.n, words);
    case Consume => ConsumeFollows(s, words);
  }

  /** What a state on words stands for. */
  ghost predicate StandsFor<T>(s: State<T>, w: State<T>, n: nat, words: nat) {
    Inv(s) && s.n == n && FitsWords(n, words) && words > 0 && w == OnWords(s, words)
  }

  lemma FollowStep<T>(s: State<T>, w: State<T>, a: Action<T>, n: nat, words: nat)
    requires StandsFor(s, w, n, words) && Enabled(w, a) && !Misled(s, a, words)
    ensures Enabled(s, a) && StandsFor(Next(s, a), NextOnWords(w, a, words), n, words)
  {
    FollowsIff(s, a, words);
    StepRefines(s, a);
  }

  /** Every run on words is a run of the ring, step by step, as long as no Dequeue is misled; the first that is
      refuses although there is an item. */
  lemma WordsFollow<T(!new)>(ws: seq<State<T>>, acts: seq<Action<T>>, words: nat) returns (run: seq<State<T>>)
    requires IsRun(WordsInit, MovesOnWords(words), ws, acts) && FitsWords(ws[0].n, words)
    ensures 1 <= |run| <= |ws| && IsRun(Init, Moves, run, acts[..|run| - 1]) && words > 0
    ensures forall i :: 0 <= i < |run| ==> Inv(run[i]) && ws[i] == OnWords(run[i], words)
    ensures |run| < |ws| ==>
      var j := |run| - 1; Misled(run[j], acts[j], words) && Queue(run[j]) != [] && ws[j + 1] == ws[j].(cons := CIdle)
  {
    SomeWords(ws[0].n, words);
    var n := ws[0].n;
    var rel := (s: State<T>, w: State<T>) => StandsFor(s, w, n, words);
    var bad := (s: State<T>, a: Action<T>) => Misled(s, a, words);
    forall s, w, a, w' | rel(s, w) && MovesOnWords(words)(w, a, w') && !bad(s, a)
      ensures exists s' :: Moves(s, a, s') && rel(s', w')
    {
      FollowStep(s, w, a, n, words);
      assert Moves(s, a, Next(s, a)) && rel(Next(s, a), w');
    }
    assert rel(ws[0], ws[0]);
    run := Simulate(Init, Moves, MovesOnWords(words), rel, bad, ws[0], ws, acts);
    assert forall i :: 0 <= i < |run| ==> rel(run[i], ws[i]);
    if |run| < |ws| {
      var j := |run| - 1;
      assert StepAt(MovesOnWords(words), ws, acts, j);
      MisledRefuses(run[j], words);
    }
  }

  lemma MisledRefuses<T>(s: State<T>, words: nat)
    requires Inv(s) && words > s.n && Misled(s, Consume, words)
    ensures ConsumeOnWords(OnWords(s, words), words) == OnWords(s, words).(cons := CIdle) && Queue(s) != []
  {
    WrappedEmptyTest(s.cons.h, s.cons.t, words);
  }

  // ---- and what becomes of it then ------------------------------------------------------------------------------

  /** head never wraps: the last word is as far as it gets. */
  ghost predicate HeadStays<T>(w: State<T>, words: nat) {
    && w.head < words && w.tail < words && |w.got| == w.head && |w.data| == w.n > 0
    && (match w.cons
        case CIdle => true
        case CStart => true
        case CHead(h) => h == w.head
        case CBoth(h, t, _) => h == w.head && t < words
        case CRead(h, _) => h == w.head && h + 1 < words)
    && (w.prod.PBoth? || w.prod.PWrote? ==> w.prod.t < words)
  }

  lemma HeadStaysStep<T>(w: State<T>, a: Action<T>, words: nat)
    requires HeadStays(w, words) && Enabled(w, a)
    ensures HeadStays(NextOnWords(w, a, words), words)
  {
  }

  /** However long it runs, the ring gives out fewer items than there are words: from then on every Dequeue
      refuses. */
  lemma GivesOutFewerThanWords<T(!new)>(ws: seq<State<T>>, acts: seq<Action<T>>, words: nat, i: nat)
    requires IsRun(WordsInit, MovesOnWords(words), ws, acts) && words > 0 && i < |ws|
    ensures |ws[i].got| < words
  {
    var inv := (w: State<T>) => HeadStays(w, words);
    forall w, a, w' | inv(w) && MovesOnWords(words)(w, a, w') ensures inv(w') { HeadStaysStep(w, a, words); }
    assert inv(ws[0]);
    Invariant(WordsInit, MovesOnWords(words), inv, ws, acts, i);
  }

  /** One item in the ring and nobody inside a call. */
  ghost predicate HoldsOne<T>(w: State<T>, n: nat, k: nat, words: nat) {
    && words > 0 && w.n == n > 0 && |w.data| == n && w.prod.PIdle? && w.cons.CIdle?
    && w.head == k < words && w.tail == Plus(k, 1, words) && |w.put| == k + 1 && |w.got| == k
  }

  ghost predicate Reached<T(!new)>(w: State<T>, words: nat) {
    Reachable(WordsInit, MovesOnWords(words), w)
  }

  lemma OneStep<T(!new)>(w: State<T>, a: Action<T>, w': State<T>, words: nat)
    requires Reached(w, words) && StepOnWords(w, a, w', words)
    ensures Reached(w', words)
  {
    assert MovesOnWords(words)(w, a, w');
    Extend(WordsInit, MovesOnWords(words), w, a, w');
  }

  lemma PutOne<T(!new)>(w: State<T>, x: T, words: nat) returns (w': State<T>)
    requires Reached(w, words) && words > w.n > 0 && |w.data| == w.n
    requires w.prod.PIdle? && w.head == w.tail < words
    ensures Reached(w', words) && |w'.data| == w.n
    ensures w' == w.(tail := Plus(w.tail, 1, words), put := w.put + [x], data := w'.data)
  {
    var w1, w2, w3 := w.(prod := PStart(x)), w.(prod := PHead(x, w.head, false)), w.(prod := PBoth(x, w.head, w.tail, false));
    var w4 := w.(data := w.data[Rem(w.tail, w.n) := x], prod := PWrote(x, w.tail));
    w' := w4.(tail := Plus(w.tail, 1, words), put := w.put + [x], prod := PIdle);
    OneStep(w, CallEnqueue(x), w1, words);
    OneStep(w1, Produce, w2, words);
    OneStep(w2, Produce, w3, words);
    OneStep(w3, Produce, w4, words);
    OneStep(w4, Produce, w', words);
  }

  lemma GetOne<T(!new)>(w: State<T>, n: nat, k: nat, words: nat) returns (w': State<T>)
    requires Reached(w, words) && HoldsOne(w, n, k, words) && k + 1 < words
    ensures Reached(w', words)
    ensures |w'.got| == k + 1 && w' == w.(head := k + 1, got := w'.got)
  {
    var x := w.data[Rem(k, n)];
    var w1, w2, w3 := w.(cons := CStart), w.(cons := CHead(k)), w.(cons := CBoth(k, k + 1, false));
    var w4 := w.(cons := CRead(k, x));
    w' := w.(head := k + 1, got := w.got + [x]);
    OneStep(w, CallDequeue, w1, words);
    OneStep(w1, Consume, w2, words);
    OneStep(w2, Consume, w3, words);
    OneStep(w3, Consume, w4, words);
    OneStep(w4, Consume, w', words);
  }

  /** Putting one and taking one, over and over, brings head to every word. */
  lemma {:induction false} ReachesWord<T(!new)>(w0: State<T>, x: T, k: nat, words: nat) returns (w: State<T>)
    requires Init(w0) && w0.n < words && k < words
    ensures Reached(w, words) && HoldsOne(w, w0.n, k, words)
    decreases k
  {
    if k == 0 {
      Start(WordsInit, MovesOnWords(words), w0);
      w := PutOne(w0, x, words);
    } else {
      var w1 := ReachesWord(w0, x, k - 1, words);
      var w2 := GetOne(w1, w0.n, k - 1, words);
      w := PutOne(w2, x, words);
    }
  }

  /** For every size and word length there is a run after which the ring has an item, nobody is inside a call,
      and no Dequeue will ever succeed again. */
  lemma RingDies<T(!new)>(w0: State<T>, x: T, words: nat) returns (w: State<T>)
    requires Init(w0) && w0.n < words
    ensures Reachable(WordsInit, MovesOnWords(words), w) && |w.put| == words && |w.got| == words - 1
    ensures w.prod.PIdle? && w.cons.CIdle?
    ensures forall w' :: CanReach(MovesOnWords(words), w, w') ==> w'.got == w.got
  {
    w := ReachesWord(w0, x, words - 1, words);
    var got := w.got;
    var inv := (z: State<T>) => HeadStays(z, words) && z.got == got;
    forall w' | CanReach(MovesOnWords(words), w, w') ensures w'.got == got {
      forall z, a, z' | inv(z) && MovesOnWords(words)(z, a, z') ensures inv(z') { HeadStaysStep(z, a, words); }
      Keeps(MovesOnWords(words), inv, w, w');
    }
  }
}
