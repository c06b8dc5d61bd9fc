/** A run of the queue of core/concurrency/lock_free_queue.go on words in which a thread sleeps until the counters
    have gone once round: it then wins a position of a full queue and writes over an item nobody has read. */
module MpmcSleeper {
  import opened Bits
  import opened Mpmc
  import opened MpmcWords
  import opened Runs

  /** The two machines side by side. */
  ghost predicate Both<T(!new)>(s: State<T>, w: Words<T>, words: nat) {
    && Reachable(Init, Moves, s) && Reachable(InitOnWords, MovesOnWords(words), w) && words > 2 * (s.n + 1)
    && StandsFor(s, w, s.n, words)
  }

  lemma Reached<T(!new)>(s: State<T>, w: Words<T>, t: Tid, s': State<T>, w': Words<T>, words: nat)
    requires Both(s, w, words) && Moves(s, t, s') && StepOnWords(w, t, w', words) && StandsFor(s', w', s.n, words)
    ensures Both(s', w', words)
  {
    Extend(Init, Moves, s, t, s');
    Extend(InitOnWords, MovesOnWords(words), w, t, w');
  }

  /** Thread t goes on. */
  lemma GoesOn<T(!new)>(s: State<T>, w: Words<T>, t: Tid, words: nat) returns (s': State<T>, w': Words<T>)
    requires Both(s, w, words) && t in s.threads && !Lags(s, t, words)
    ensures s' == Advance(s, t) && Both(s', w', words)
  {
    if Misjudges(s, t, words) { OnlyLaggardsMisjudge(s, t, words); }
    w' := AdvanceOnWords(w, t, words);
    s' := AnyStepMatches(s, w, t, w', s.n, words);
    Reached(s, w, t, s', w', words);
  }

  /** Thread t enters, at the place l. */
  lemma Entered<T(!new)>(s: State<T>, w: Words<T>, t: Tid, l: Local<T>, s': State<T>, words: nat)
    requires StandsFor(s, w, s.n, words) && s' == Goto(s, t, l) && Moves(s, t, s') && !l.EnqSeq? && !l.DeqSeq?
    ensures StandsFor(s', MpmcWords.Put(w, t, LocalOnWords(l, words)), s.n, words)
  {
    PutMatches(s, w, t, l, words);
    StepInv(s, t, s');
  }

  lemma BeginsPut<T(!new)>(s: State<T>, w: Words<T>, t: Tid, x: T, words: nat) returns (s': State<T>, w': Words<T>)
    requires Both(s, w, words) && t !in s.threads
    ensures s' == BeginEnqueue(s, t, x) && Both(s', w', words)
  {
    s', w' := BeginEnqueue(s, t, x), MpmcWords.Put(w, t, EnqStart(x, 0, 0));
    Entered(s, w, t, EnqStart(x, s.tail, 0), s', words);
    Reached(s, w, t, s', w', words);
  }

  lemma BeginsGet<T(!new)>(s: State<T>, w: Words<T>, t: Tid, words: nat) returns (s': State<T>, w': Words<T>)
    requires Both(s, w, words) && t !in s.threads
    ensures s' == BeginDequeue(s, t) && Both(s', w', words)
  {
    s', w' := BeginDequeue(s, t), MpmcWords.Put(w, t, DeqStart(0, 0));
    Entered(s, w, t, DeqStart(s.head, 0), s', words);
    Reached(s, w, t, s', w', words);
  }

  /** Thread 0 sleeps between its load of sequence 0 and its swap at position 0; nobody else is inside. */
  ghost predicate Asleep<T(!new)>(s: State<T>, w: Words<T>, v: T, words: nat) {
    Both(s, w, words) && s.threads == map[0 := EnqSeq(v, 0, 0, 0, 0)] && s.writer == map[] && s.reader == map[]
  }

  lemma FirstLoads<T(!new)>(s: State<T>, v: T)
    requires Init(s)
    ensures var s1 := BeginEnqueue(s, 0, v); 0 in s1.threads && var s2 := Advance(s1, 0);
      && s2.n == s.n && |s2.cells| == s.n && 0 in s2.threads && s2.threads[0].EnqTail?
      && Advance(s2, 0) == s.(threads := map[0 := EnqSeq(v, 0, 0, 0, 0)])
  {
    assert Rem(0, s.n) == 0;
  }

  lemma FallsAsleep<T(!new)>(s: State<T>, w: Words<T>, v: T, words: nat) returns (s': State<T>, w': Words<T>)
    requires Init(s) && Both(s, w, words)
    ensures Asleep(s', w', v, words) && s'.n == s.n && s'.head == s'.tail == 0
  {
    FirstLoads(s, v);
    var s1, w1 := BeginsPut(s, w, 0, v, words);
    var s2, w2 := GoesOn(s1, w1, 0, words);
    s', w' := GoesOn(s2, w2, 0, words);
  }

  // ---- another thread puts and gets -------------------------------------------------------------------------

  /** Thread 1 has loaded the tail and found its cell free. */
  function AboutToPut<T>(s: State<T>, x: T): State<T> {
    s.(threads := s.threads[1 := EnqSeq(x, s.tail, 0, s.tail, s.tail)])
  }

  lemma PutLoads<T>(s: State<T>, x: T)
    requires s.n > 0 && |s.cells| == s.n && 1 !in s.threads && At(s, s.tail).sequence == s.tail
    ensures var s1 := BeginEnqueue(s, 1, x); 1 in s1.threads && var s2 := Advance(s1, 1);
      && s2.n == s.n && |s2.cells| == s.n && 1 in s2.threads && s2.threads[1].EnqTail? && Advance(s2, 1) == AboutToPut(s, x)
  {
  }

  lemma PutBegins<T(!new)>(s: State<T>, w: Words<T>, x: T, words: nat) returns (w': Words<T>)
    requires Both(s, w, words) && 1 !in s.threads && At(s, s.tail).sequence == s.tail
    ensures Both(AboutToPut(s, x), w', words)
  {
    PutLoads(s, x);
    var s1, w1 := BeginsPut(s, w, 1, x, words);
    var s2, w2 := GoesOn(s1, w1, 1, words);
    var s3;
    s3, w' := GoesOn(s2, w2, 1, words);
  }

  /** The queue with one more item. */
  function WithItem<T>(s: State<T>, x: T): State<T>
    requires s.n > 0 && |s.cells| == s.n
  {
    s.(tail := s.tail + 1, enqueued := s.enqueued + [x], cells := Stored(s, s.tail, Cell(s.tail + 1, x)))
  }

  lemma PutStores<T>(s: State<T>, x: T)
    requires s.n > 0 && |s.cells| == s.n && 1 !in s.threads && s.writer == map[] && At(s, s.tail).sequence == s.tail
    ensures var s1 := Advance(AboutToPut(s, x), 1);
      && s1 == WinTail(AboutToPut(s, x), 1, x, s.tail) && var s2 := Advance(s1, 1);
      && s2 == WriteData(s1, 1, x, s.tail) && Advance(s2, 1) == WithItem(s, x)
  {
    var s2 := Advance(Advance(AboutToPut(s, x), 1), 1);
    assert s2.threads - {1} == s.threads && s2.writer - {s.tail} == map[];
  }

  lemma PutEnds<T(!new)>(s: State<T>, w0: Words<T>, x: T, words: nat) returns (w': Words<T>)
    requires Both(AboutToPut(s, x), w0, words) && 1 !in s.threads && s.writer == map[] && At(s, s.tail).sequence == s.tail
    ensures Both(WithItem(s, x), w', words)
  {
    PutStores(s, x);
    var s1, w1 := GoesOn(AboutToPut(s, x), w0, 1, words);
    var s2, w2 := GoesOn(s1, w1, 1, words);
    var s3;
    s3, w' := GoesOn(s2, w2, 1, words);
  }

  lemma TailIsFree<T>(s: State<T>)
    requires Inv(s) && s.reader == map[] && s.tail < s.head + s.n
    ensures At(s, s.tail).sequence == s.tail
  {
    assert CellOk(s, s.tail);
  }

  lemma PutOne<T(!new)>(s: State<T>, w: Words<T>, v: T, x: T, words: nat) returns (s': State<T>, w': Words<T>)
    requires Asleep(s, w, v, words) && s.tail < s.head + s.n
    ensures Asleep(s', w', v, words) && s'.n == s.n && s'.head == s.head && s'.tail == s.tail + 1
  {
    TailIsFree(s);
    var w0 := PutBegins(s, w, x, words);
    s' := WithItem(s, x);
    w' := PutEnds(s, w0, x, words);
  }

  function AboutToGet<T>(s: State<T>): State<T> {
    s.(threads := s.threads[1 := DeqSeq(s.head, 0, s.head, s.head + 1)])
  }

  lemma GetLoads<T>(s: State<T>)
    requires s.n > 0 && |s.cells| == s.n && 1 !in s.threads && At(s, s.head).sequence == s.head + 1
    ensures var s1 := BeginDequeue(s, 1); 1 in s1.threads && var s2 := Advance(s1, 1);
      && s2.n == s.n && |s2.cells| == s.n && 1 in s2.threads && s2.threads[1].DeqHead? && Advance(s2, 1) == AboutToGet(s)
  {
  }

  lemma GetBegins<T(!new)>(s: State<T>, w: Words<T>, words: nat) returns (w': Words<T>)
    requires Both(s, w, words) && 1 !in s.threads && At(s, s.head).sequence == s.head + 1
    ensures Both(AboutToGet(s), w', words)
  {
    GetLoads(s);
    var s1, w1 := BeginsGet(s, w, 1, words);
    var s2, w2 := GoesOn(s1, w1, 1, words);
    var s3;
    s3, w' := GoesOn(s2, w2, 1, words);
  }

  /** The queue with its first item returned. */
  function WithoutItem<T>(s: State<T>): State<T>
    requires s.n > 0 && |s.cells| == s.n
  {
    s.(head := s.head + 1, returned := s.returned[s.head := At(s, s.head).data],
       cells := Stored(s, s.head, At(s, s.head).(sequence := s.head + s.n)))
  }

  lemma GetStores<T>(s: State<T>)
    requires s.n > 0 && |s.cells| == s.n && 1 !in s.threads && s.reader == map[] && At(s, s.head).sequence == s.head + 1
    ensures var s1 := Advance(AboutToGet(s), 1);
      && s1 == WinHead(AboutToGet(s), 1, s.head) && var s2 := Advance(s1, 1);
      && s2 == Goto(s1, 1, DeqRead(s.head, At(s, s.head).data)) && Advance(s2, 1) == WithoutItem(s)
  {
    var s2 := Advance(Advance(AboutToGet(s), 1), 1);
    assert s2.threads - {1} == s.threads && s2.reader - {s.head} == map[];
  }

  lemma GetEnds<T(!new)>(s: State<T>, w0: Words<T>, words: nat) returns (w': Words<T>)
    requires Both(AboutToGet(s), w0, words) && 1 !in s.threads && s.reader == map[] && At(s, s.head).sequence == s.head + 1
    ensures Both(WithoutItem(s), w', words)
  {
    GetStores(s);
    var s1, w1 := GoesOn(AboutToGet(s), w0, 1, words);
    var s2, w2 := GoesOn(s1, w1, 1, words);
    var s3;
    s3, w' := GoesOn(s2, w2, 1, words);
  }

  lemma HeadIsPublished<T>(s: State<T>)
    requires Inv(s) && s.writer == map[] && s.head < s.tail
    ensures At(s, s.head).sequence == s.head + 1
  {
    assert CellOk(s, s.head);
  }

  lemma GetOne<T(!new)>(s: State<T>, w: Words<T>, v: T, words: nat) returns (s': State<T>, w': Words<T>)
    requires Asleep(s, w, v, words) && s.head < s.tail
    ensures Asleep(s', w', v, words) && s'.n == s.n && s'.head == s.head + 1 && s'.tail == s.tail
  {
    HeadIsPublished(s);
    var w0 := GetBegins(s, w, words);
    s' := WithoutItem(s);
    w' := GetEnds(s, w0, words);
  }

  // ---- until the counters have gone once round ----------------------------------------------------------------

  lemma {:induction false} Filled<T(!new)>(s: State<T>, w: Words<T>, v: T, x: T, words: nat) returns (s': State<T>, w': Words<T>)
    requires Asleep(s, w, v, words)
    ensures Asleep(s', w', v, words) && s'.n == s.n && s'.head == s.head && s'.tail == s.head + s.n
    decreases s.head + s.n - s.tail
  {
    if s.tail == s.head + s.n {
      s', w' := s, w;
    } else {
      var s1, w1 := PutOne(s, w, v, x, words);
      s', w' := Filled(s1, w1, v, x, words);
    }
  }

  lemma {:induction false} GoneRound<T(!new)>(s: State<T>, w: Words<T>, v: T, x: T, head: nat, words: nat)
    returns (s': State<T>, w': Words<T>)
    requires Asleep(s, w, v, words) && s.tail == s.head + s.n && s.head <= head
    ensures Asleep(s', w', v, words) && s'.n == s.n && s'.head == head && s'.tail == head + s.n
    decreases head - s.head
  {
    if s.head == head {
      s', w' := s, w;
    } else {
      var s1, w1 := GetOne(s, w, v, words);
      var s2, w2 := PutOne(s1, w1, v, x, words);
      s', w' := GoneRound(s2, w2, v, x, head, words);
    }
  }

  lemma StartsBoth<T(!new)>(w: Words<T>, words: nat) returns (s: State<T>)
    requires InitOnWords(w) && FitsWords(w.n, words) && words > 2 * (w.n + 1)
    ensures Init(s) && Both(s, w, words) && s.n == w.n
  {
    s := StartMatches(w, words);
    Start(Init, Moves, s);
    Start(InitOnWords, MovesOnWords(words), w);
  }

  lemma CellZero(n: nat, words: nat)
    requires FitsWords(n, words)
    ensures 0 < n < words && Rem(words, words) == 0 && Rem(words - n, words) == words - n && Rem(words - n, n) == 0
  {
    SomeWords(n, words);
    RemOfWord(words, n, words);
  }

  /** Thread 0's next step wins a position of a full queue, and the one after writes v over its first item. */
  ghost predicate Overwrites<T>(s: State<T>, w: Words<T>, v: T, words: nat)
    requires Shape(s)
  {
    && words > 0 && w.n > 0 && |w.cells| == w.n && 0 in w.threads
    && |Queue(s)| == w.n && CellAt(w, w.head).data == Queue(s)[0]
    && var w1 := AdvanceOnWords(w, 0, words);
      && w1.n == w.n == |w1.cells| && w1.head == w.head && 0 in w1.threads && w1.threads[0].EnqWon?
      && var w2 := AdvanceOnWords(w1, 0, words);
        |w2.cells| == w2.n == w.n && CellAt(w2, w.head).data == v
  }

  /** The sleeper wakes up on a full queue whose tail has come to its position again: on words its swap succeeds,
      and it writes over the oldest item, which nobody has read. */
  lemma SleeperOverwrites<T(!new)>(w0: Words<T>, v: T, x: T, words: nat) returns (s: State<T>, w: Words<T>)
    requires InitOnWords(w0) && FitsWords(w0.n, words) && words > 2 * (w0.n + 1)
    ensures Reachable(InitOnWords, MovesOnWords(words), w) && StandsFor(s, w, w0.n, words) && Overwrites(s, w, v, words)
  {
    var a := StartsBoth(w0, words);
    var b, wb := FallsAsleep(a, w0, v, words);
    var c, wc := Filled(b, wb, v, x, words);
    s, w := GoneRound(c, wc, v, x, words - w0.n, words);
    CellZero(w0.n, words);
    WakesUp(s, w, v, words);
  }

  lemma OldestItem<T(!new)>(s: State<T>, w: Words<T>, words: nat)
    requires StandsFor(s, w, s.n, words) && s.writer == map[] && s.head < s.tail && w.head == s.head
    ensures CellAt(w, w.head).data == Queue(s)[0]
  {
    assert CellOk(s, s.head);
    assert Queue(s)[0] == s.enqueued[s.head];
    assert w.cells[Rem(s.head, s.n)] == CellOnWords(At(s, s.head), words);
  }

  /** Two steps of thread 0 on words. */
  lemma Awakes<T>(w: Words<T>, v: T, words: nat)
    requires words > 0 && w.n > 0 && |w.cells| == w.n && 0 in w.threads && w.threads[0] == EnqSeq(v, 0, 0, 0, 0)
    requires w.tail == 0 && Rem(w.head, w.n) == 0
    ensures var w1 := AdvanceOnWords(w, 0, words);
      && w1.n == w.n == |w1.cells| && w1.head == w.head && 0 in w1.threads && w1.threads[0] == EnqWon(v, 0)
      && var w2 := AdvanceOnWords(w1, 0, words); |w2.cells| == w2.n == w.n && CellAt(w2, w.head).data == v
  {
    assert Rem(0, w.n) == 0 && Diff(0, 0, words) == 0;
  }

  lemma WakesUp<T(!new)>(s: State<T>, w: Words<T>, v: T, words: nat)
    requires Asleep(s, w, v, words) && s.tail == words && s.head == words - s.n && Rem(words - s.n, s.n) == 0
    ensures Overwrites(s, w, v, words)
  {
    CellZero(s.n, words);
    assert LocalOnWords(s.threads[0], words) == EnqSeq(v, 0, 0, 0, 0);
    OldestItem(s, w, words);
    Awakes(w, v, words);
  }
}
