/** The queue of core/concurrency/lock_free_queue.go with its counters and sequence numbers in machine words, of
    which there are `words`: how far it follows the queue of module Mpmc. */
module MpmcWords {
  import opened Bits
  import opened Mpmc
  import opened Runs

  /** A thread's `base` and `retries` are bookkeeping of module Mpmc and stay 0 here. */
  datatype Words<T> = Words(n: nat, head: nat, tail: nat, cells: seq<Cell<T>>, threads: map<Tid, Local<T>>)

  // ---- the machine on words -----------------------------------------------------------------------------

  ghost predicate InitOnWords<T>(w: Words<T>) {
    && w.n >= 2 && w.head == 0 && w.tail == 0 && |w.cells| == w.n && w.threads == map[]
    && forall i :: 0 <= i < w.n ==> w.cells[i].sequence == i
  }

  function CellAt<T>(w: Words<T>, p: nat): Cell<T>
    requires w.n > 0 && |w.cells| == w.n
  {
    w.cells[Rem(p, w.n)]
  }

  function Put<T>(w: Words<T>, t: Tid, l: Local<T>): Words<T> {
    w.(threads := w.threads[t := l])
  }

  function Store<T>(w: Words<T>, p: nat, c: Cell<T>): Words<T>
    requires w.n > 0 && |w.cells| == w.n
  {
    w.(cells := w.cells[Rem(p, w.n) := c])
  }

  /** int64(x) - int64(y). */
  function Diff(x: nat, y: nat, words: nat): int {
    if x < words && y < words then SignedDiff(x, y, words) else 0
  }

  /** What a thread makes of the difference and of the counter it is about to swap. */
  datatype Verdict = Wins | Refused | Again

  function Judge(diff: int, current: bool): Verdict {
    if diff == 0 then (if current then Wins else Again) else if diff < 0 then Refused else Again
  }

  /** What Enqueue does at position p on each verdict. */
  function SwapTail<T>(w: Words<T>, t: Tid, v: T, p: nat, verdict: Verdict, words: nat): Words<T> {
    match verdict
    case Wins => Put(w, t, EnqWon(v, p)).(tail := Plus(p, 1, words))
    case Refused => w.(threads := w.threads - {t})
    case Again => Put(w, t, EnqStart(v, 0, 0))
  }

  function SwapHead<T>(w: Words<T>, t: Tid, p: nat, verdict: Verdict, words: nat): Words<T> {
    match verdict
    case Wins => Put(w, t, DeqWon(p)).(head := Plus(p, 1, words))
    case Refused => w.(threads := w.threads - {t})
    case Again => Put(w, t, DeqStart(0, 0))
  }

  function EnqueueOnWords<T>(w: Words<T>, t: Tid, l: Local<T>, words: nat): Words<T>
    requires words > 0 && w.n > 0 && |w.cells| == w.n && InEnqueue(l)
  {
    match l
    case EnqStart(v, _, _) => Put(w, t, EnqTail(v, 0, 0, w.tail))
    case EnqTail(v, _, _, p) => Put(w, t, EnqSeq(v, 0, 0, p, CellAt(w, p).sequence))
    case EnqSeq(v, _, _, p, seen) => SwapTail(w, t, v, p, Judge(Diff(seen, p, words), w.tail == p), words)
    case EnqWon(v, p) => Store(Put(w, t, EnqWrote(p)), p, CellAt(w, p).(data := v))
    case EnqWrote(p) => Store(w.(threads := w.threads - {t}), p, CellAt(w, p).(sequence := Plus(p, 1, words)))
  }

  function DequeueOnWords<T>(w: Words<T>, t: Tid, l: Local<T>, words: nat): Words<T>
    requires words > 0 && w.n > 0 && |w.cells| == w.n && !InEnqueue(l)
  {
    match l
    case DeqStart(_, _) => Put(w, t, DeqHead(0, 0, w.head))
    case DeqHead(_, _, p) => Put(w, t, DeqSeq(0, 0, p, CellAt(w, p).sequence))
    case DeqSeq(_, _, p, seen) => SwapHead(w, t, p, Judge(Diff(seen, Plus(p, 1, words), words), w.head == p), words)
    case DeqWon(p) => Put(w, t, DeqRead(p, CellAt(w, p).data))
    case DeqRead(p, _) => Store(w.(threads := w.threads - {t}), p, CellAt(w, p).(sequence := Plus(p, w.n, words)))
  }

  function AdvanceOnWords<T>(w: Words<T>, t: Tid, words: nat): Words<T>
    requires words > 0 && w.n > 0 && |w.cells| == w.n && t in w.threads
  {
    if InEnqueue(w.threads[t]) then EnqueueOnWords(w, t, w.threads[t], words) else DequeueOnWords(w, t, w.threads[t], words)
  }

  ghost predicate StepOnWords<T(!new)>(w: Words<T>, t: Tid, w': Words<T>, words: nat) {
    && words > 0 && w.n > 0 && |w.cells| == w.n
    && if t in w.threads then w' == AdvanceOnWords(w, t, words)
       else w' == Put(w, t, DeqStart(0, 0)) || exists v :: w' == Put(w, t, EnqStart(v, 0, 0))
  }

  ghost function MovesOnWords<T(!new)>(words: nat): (Words<T>, Tid, Words<T>) -> bool {
    (w: Words<T>, t: Tid, w': Words<T>) => StepOnWords(w, t, w', words)
  }

  // ---- what a state on words stands for ---------------------------------------------------------------------

  function LocalOnWords<T>(l: Local<T>, words: nat): Local<T>
    requires words > 0
  {
    match l
    case EnqStart(v, _, _) => EnqStart(v, 0, 0)
    case EnqTail(v, _, _, p) => EnqTail(v, 0, 0, Rem(p, words))
    case EnqSeq(v, _, _, p, seen) => EnqSeq(v, 0, 0, Rem(p, words), Rem(seen, words))
    case EnqWon(v, p) => EnqWon(v, Rem(p, words))
    case EnqWrote(p) => EnqWrote(Rem(p, words))
    case DeqStart(_, _) => DeqStart(0, 0)
    case DeqHead(_, _, p) => DeqHead(0, 0, Rem(p, words))
    case DeqSeq(_, _, p, seen) => DeqSeq(0, 0, Rem(p, words), Rem(seen, words))
    case DeqWon(p) => DeqWon(Rem(p, words))
    case DeqRead(p, x) => DeqRead(Rem(p, words), x)
  }

  function CellOnWords<T>(c: Cell<T>, words: nat): Cell<T>
    requires words > 0
  {
    c.(sequence := Rem(c.sequence, words))
  }

  /** The words of a state: every counter, position and sequence number by its remainder. */
  ghost predicate Matches<T>(s: State<T>, w: Words<T>, words: nat) {
    && words > 0 && w.n == s.n && w.head == Rem(s.head, words) && w.tail == Rem(s.tail, words)
    && |w.cells| == |s.cells| && (forall i :: 0 <= i < |s.cells| ==> w.cells[i] == CellOnWords(s.cells[i], words))
    && (forall t :: t in w.threads <==> t in s.threads)
    && (forall t :: t in s.threads ==> w.threads[t] == LocalOnWords(s.threads[t], words))
  }

  lemma CellMatches<T>(s: State<T>, w: Words<T>, p: nat, words: nat)
    requires Matches(s, w, words) && Shape(s) && FitsWords(s.n, words)
    ensures s.n <= words && Rem(Rem(p, words), s.n) == Rem(p, s.n)
    ensures CellAt(w, Rem(p, words)) == CellOnWords(At(s, p), words)
  {
    SomeWords(s.n, words);
    RemOfWord(p, s.n, words);
  }

  // ---- how far apart a position and a sequence number can be ---------------------------------------------------

  lemma {:induction false} SequenceBelow<T>(s: State<T>, p: nat)
    requires Shape(s) && CellsOk(s) && p <= s.head + s.n
    ensures At(s, p).sequence <= s.head + s.n
    decreases s.head + s.n - p
  {
    if p < s.head {
      assert Rem(p + s.n, s.n) == Rem(p, s.n);
      SequenceBelow(s, p + s.n);
    } else if p < s.head + s.n {
      assert CellOk(s, p);
    } else {
      assert CellOk(s, s.head) && Rem(s.head + s.n, s.n) == Rem(s.head, s.n);
    }
  }

  lemma SequenceAbove<T>(s: State<T>, p: nat)
    requires Shape(s) && CellsOk(s) && p <= s.tail
    ensures At(s, p).sequence >= p - s.n
  {
    if p < s.head {
      PastSequence(s, p);
    } else if p < s.head + s.n {
      assert CellOk(s, p);
    } else {
      assert CellOk(s, s.head) && Rem(s.head + s.n, s.n) == Rem(s.head, s.n);
    }
  }

  /** A sequence number a thread has loaded is not a lap behind its position. */
  ghost predicate SeenOk<T>(s: State<T>) {
    forall t :: t in s.threads && (s.threads[t].EnqSeq? || s.threads[t].DeqSeq?) ==> s.threads[t].seen + s.n >= s.threads[t].pos
  }

  /** Where a step puts its thread: out of the queue or somewhere else, holding a loaded number only if it has
      just loaded it. */
  ghost predicate Moved<T>(s: State<T>, t: Tid, l: Local<T>, s': State<T>)
    requires s.n > 0 && |s.cells| == s.n
  {
    && s'.n == s.n
    && (s'.threads == s.threads - {t}
        || (&& t in s'.threads && s'.threads == s.threads[t := s'.threads[t]]
            && (s'.threads[t].EnqSeq? || s'.threads[t].DeqSeq? ==>
                && (l.EnqTail? || l.DeqHead?) && s'.threads[t].pos == l.pos
                && s'.threads[t].seen == At(s, l.pos).sequence)))
  }

  lemma EnqueuerMoved<T>(s: State<T>, t: Tid, l: Local<T>)
    requires s.n > 0 && |s.cells| == s.n && InEnqueue(l)
    ensures Moved(s, t, l, AdvanceEnqueue(s, t, l))
  {
  }

  lemma DequeuerMoved<T>(s: State<T>, t: Tid, l: Local<T>)
    requires s.n > 0 && |s.cells| == s.n && !InEnqueue(l)
    ensures Moved(s, t, l, AdvanceDequeue(s, t, l))
  {
  }

  lemma HasMoved<T>(s: State<T>, t: Tid)
    requires s.n > 0 && |s.cells| == s.n && t in s.threads
    ensures Moved(s, t, s.threads[t], Advance(s, t))
  {
    if InEnqueue(s.threads[t]) { EnqueuerMoved(s, t, s.threads[t]); } else { DequeuerMoved(s, t, s.threads[t]); }
  }

  lemma SeenOkMoved<T>(s: State<T>, t: Tid, l: Local<T>, s': State<T>)
    requires s.n > 0 && |s.cells| == s.n && SeenOk(s) && Moved(s, t, l, s')
    requires l.EnqTail? || l.DeqHead? ==> At(s, l.pos).sequence + s.n >= l.pos
    ensures SeenOk(s')
  {
  }

  lemma SeenOkStep<T>(s: State<T>, t: Tid)
    requires Inv(s) && SeenOk(s) && t in s.threads
    ensures SeenOk(Advance(s, t)) && Advance(s, t).n == s.n
  {
    var l := s.threads[t];
    assert ThreadOk(s, t);
    if l.EnqTail? || l.DeqHead? { SequenceAbove(s, l.pos); }
    HasMoved(s, t);
    SeenOkMoved(s, t, l, Advance(s, t));
  }

  /** The thread is at its test and swap, and on words it judges otherwise than on counters that never wrap. */
  predicate Misjudges<T>(s: State<T>, t: Tid, words: nat)
    requires words > 0
  {
    && t in s.threads
    && match s.threads[t]
       case EnqSeq(_, _, _, p, seen) =>
         Judge(Diff(Rem(seen, words), Rem(p, words), words), Rem(s.tail, words) == Rem(p, words)) != Judge(seen - p, s.tail == p)
       case DeqSeq(_, _, p, seen) =>
         Judge(Diff(Rem(seen, words), Plus(Rem(p, words), 1, words), words), Rem(s.head, words) == Rem(p, words)) !=
         Judge(seen - (p + 1), s.head == p)
       case _ => false
  }

  /** While the thread held its position, the counter it is about to swap has moved on by about half the words. */
  predicate Lags<T>(s: State<T>, t: Tid, words: nat) {
    && t in s.threads
    && match s.threads[t]
       case EnqSeq(_, _, _, p, _) => 2 * (s.tail - p + s.n + 1) >= words
       case DeqSeq(_, _, p, _) => 2 * (s.head - p + s.n + 1) >= words
       case _ => false
  }

  lemma TestsAgree(p: nat, seen: nat, counter: nat, target: nat, n: nat, words: nat)
    requires words > 0 && p <= counter && p <= target <= p + 1 && p <= seen + n && seen <= counter + n
    requires 2 * (counter - p + n + 1) < words
    ensures Diff(Rem(seen, words), Rem(target, words), words) == seen - target
    ensures Rem(counter, words) == Rem(p, words) <==> counter == p
  {
    WrappedDifference(seen, target, words);
    if counter != p { RemApart(p, counter, words); }
  }

  lemma EnqueueJudges<T>(s: State<T>, t: Tid, words: nat)
    requires Inv(s) && SeenOk(s) && t in s.threads && words > 0 && s.threads[t].EnqSeq? && !Lags(s, t, words)
    ensures !Misjudges(s, t, words)
  {
    var p, seen := s.threads[t].pos, s.threads[t].seen;
    assert ThreadOk(s, t);
    SequenceBelow(s, p);
    TestsAgree(p, seen, s.tail, p, s.n, words);
  }

  lemma DequeueJudges<T>(s: State<T>, t: Tid, words: nat)
    requires Inv(s) && SeenOk(s) && t in s.threads && words > 0 && s.threads[t].DeqSeq? && !Lags(s, t, words)
    ensures !Misjudges(s, t, words)
  {
    var p, seen := s.threads[t].pos, s.threads[t].seen;
    assert ThreadOk(s, t);
    SequenceBelow(s, p);
    PlusFollows(p, 1, words);
    TestsAgree(p, seen, s.head, p + 1, s.n, words);
  }

  /** Only a thread that lags misjudges, however often the counters have wrapped. */
  lemma OnlyLaggardsMisjudge<T>(s: State<T>, t: Tid, words: nat)
    requires Inv(s) && SeenOk(s) && t in s.threads && words > 0 && Misjudges(s, t, words)
    ensures Lags(s, t, words)
  {
    if !Lags(s, t, words) {
      if s.threads[t].EnqSeq? { EnqueueJudges(s, t, words); } else { DequeueJudges(s, t, words); }
    }
  }

  // ---- every step follows -----------------------------------------------------------------------------------

  lemma PutMatches<T>(s: State<T>, w: Words<T>, t: Tid, l: Local<T>, words: nat)
    requires Matches(s, w, words)
    ensures Matches(Goto(s, t, l), Put(w, t, LocalOnWords(l, words)), words)
  {
  }

  lemma LeaveMatches<T>(s: State<T>, w: Words<T>, t: Tid, words: nat)
    requires Matches(s, w, words)
    ensures Matches(Leave(s, t), w.(threads := w.threads - {t}), words)
  {
  }

  ghost predicate Ready<T>(s: State<T>, w: Words<T>, words: nat) {
    Matches(s, w, words) && s.n > 0 && |s.cells| == s.n
  }

  /** The position a thread holds, on words, and its cell. */
  ghost predicate Finds<T>(s: State<T>, w: Words<T>, p: nat, q: nat, words: nat) {
    Ready(s, w, words) && s.n <= words && q == Rem(p, words) && Rem(q, s.n) == Rem(p, s.n)
  }

  lemma EnqueueLoadMatches<T>(s: State<T>, w: Words<T>, t: Tid, l: Local<T>, words: nat)
    requires Ready(s, w, words) && (l.EnqStart? || l.EnqTail?)
    requires l.EnqTail? ==> Finds(s, w, l.pos, Rem(l.pos, words), words)
    ensures Matches(AdvanceEnqueue(s, t, l), EnqueueOnWords(w, t, LocalOnWords(l, words), words), words)
  {
    if l.EnqStart? {
      PutMatches(s, w, t, EnqTail(l.val, l.base, l.retries, s.tail), words);
    } else {
      PutMatches(s, w, t, EnqSeq(l.val, l.base, l.retries, l.pos, At(s, l.pos).sequence), words);
    }
  }

  lemma WinTailMatches<T>(s: State<T>, w: Words<T>, t: Tid, v: T, p: nat, q: nat, words: nat)
    requires Matches(s, w, words) && q == Rem(p, words)
    ensures Matches(WinTail(s, t, v, p), Put(w, t, EnqWon(v, q)).(tail := Plus(q, 1, words)), words)
  {
    PlusFollows(p, 1, words);
    PutMatches(s, w, t, EnqWon(v, p), words);
  }

  /** Where a verdict puts its thread. */
  ghost predicate PutBy<T>(threads: map<Tid, Local<T>>, t: Tid, verdict: Verdict) {
    match verdict
    case Wins => t in threads && (threads[t].EnqWon? || threads[t].DeqWon?)
    case Refused => t !in threads
    case Again => t in threads && (threads[t].EnqStart? || threads[t].DeqStart?)
  }

  lemma OneVerdict<T>(s: State<T>, w: Words<T>, t: Tid, a: Verdict, b: Verdict, words: nat)
    requires Matches(s, w, words) && PutBy(s.threads, t, a) && PutBy(w.threads, t, b)
    ensures a == b
  {
  }

  lemma MissTailFollows<T>(s: State<T>, w: Words<T>, t: Tid, l: Local<T>, q: nat, verdict: Verdict, words: nat)
    requires Ready(s, w, words) && l.EnqSeq? && verdict == Judge(l.seen - l.pos, s.tail == l.pos) && !verdict.Wins?
    ensures Matches(AdvanceEnqueue(s, t, l), SwapTail(w, t, l.val, q, verdict, words), words)
  {
    LeaveMatches(s, w, t, words);
    PutMatches(s, w, t, EnqStart(l.val, l.base, l.retries + 1), words);
  }

  lemma SwapTailFollows<T>(s: State<T>, w: Words<T>, t: Tid, l: Local<T>, q: nat, verdict: Verdict, words: nat)
    requires Ready(s, w, words) && l.EnqSeq? && q == Rem(l.pos, words) && verdict == Judge(l.seen - l.pos, s.tail == l.pos)
    ensures Matches(AdvanceEnqueue(s, t, l), SwapTail(w, t, l.val, q, verdict, words), words)
  {
    if verdict.Wins? {
      WinTailMatches(s, w, t, l.val, l.pos, q, words);
    } else {
      MissTailFollows(s, w, t, l, q, verdict, words);
    }
  }

  lemma TailVerdicts<T>(s: State<T>, w: Words<T>, t: Tid, l: Local<T>, q: nat, verdict: Verdict, words: nat)
    requires s.n > 0 && |s.cells| == s.n && l.EnqSeq?
    ensures PutBy(AdvanceEnqueue(s, t, l).threads, t, Judge(l.seen - l.pos, s.tail == l.pos))
    ensures PutBy(SwapTail(w, t, l.val, q, verdict, words).threads, t, verdict)
  {
  }

  lemma SwapTailMatches<T>(s: State<T>, w: Words<T>, t: Tid, l: Local<T>, q: nat, verdict: Verdict, words: nat)
    requires Ready(s, w, words) && l.EnqSeq? && q == Rem(l.pos, words)
    ensures Matches(AdvanceEnqueue(s, t, l), SwapTail(w, t, l.val, q, verdict, words), words)
      <==> verdict == Judge(l.seen - l.pos, s.tail == l.pos)
  {
    var s', w' := AdvanceEnqueue(s, t, l), SwapTail(w, t, l.val, q, verdict, words);
    TailVerdicts(s, w, t, l, q, verdict, words);
    if verdict == Judge(l.seen - l.pos, s.tail == l.pos) { SwapTailFollows(s, w, t, l, q, verdict, words); }
    if Matches(s', w', words) { OneVerdict(s', w', t, Judge(l.seen - l.pos, s.tail == l.pos), verdict, words); }
  }

  lemma WriteMatches<T>(s: State<T>, w: Words<T>, t: Tid, v: T, p: nat, q: nat, words: nat)
    requires Finds(s, w, p, q, words)
    ensures Matches(WriteData(s, t, v, p), EnqueueOnWords(w, t, EnqWon(v, q), words), words)
  {
    PutMatches(s, w, t, EnqWrote(p), words);
  }

  lemma PublishMatches<T>(s: State<T>, w: Words<T>, t: Tid, p: nat, q: nat, words: nat)
    requires Finds(s, w, p, q, words)
    ensures Matches(Publish(s, t, p), EnqueueOnWords(w, t, EnqWrote(q), words), words)
  {
    PlusFollows(p, 1, words);
    LeaveMatches(s, w, t, words);
  }

  lemma EnqueueMatches<T>(s: State<T>, w: Words<T>, t: Tid, l: Local<T>, words: nat)
    requires StandsFor(s, w, s.n, words) && t in s.threads && l == s.threads[t] && InEnqueue(l)
    ensures Matches(AdvanceEnqueue(s, t, l), EnqueueOnWords(w, t, LocalOnWords(l, words), words), words)
      <==> !Misjudges(s, t, words)
  {
    if !l.EnqStart? { CellMatches(s, w, l.pos, words); }
    match l
    case EnqStart(_, _, _) => EnqueueLoadMatches(s, w, t, l, words);
    case EnqTail(_, _, _, _) => EnqueueLoadMatches(s, w, t, l, words);
    case EnqSeq(_, _, _, p, seen) =>
      var q := Rem(p, words);
      SwapTailMatches(s, w, t, l, q, Judge(Diff(Rem(seen, words), q, words), w.tail == q), words);
    case EnqWon(v, p) => WriteMatches(s, w, t, v, p, Rem(p, words), words);
    case EnqWrote(p) => PublishMatches(s, w, t, p, Rem(p, words), words);
  }

  lemma DequeueLoadMatches<T>(s: State<T>, w: Words<T>, t: Tid, l: Local<T>, words: nat)
    requires Ready(s, w, words) && (l.DeqStart? || l.DeqHead?)
    requires l.DeqHead? ==> Finds(s, w, l.pos, Rem(l.pos, words), words)
    ensures Matches(AdvanceDequeue(s, t, l), DequeueOnWords(w, t, LocalOnWords(l, words), words), words)
  {
    if l.DeqStart? {
      PutMatches(s, w, t, DeqHead(l.base, l.retries, s.head), words);
    } else {
      PutMatches(s, w, t, DeqSeq(l.base, l.retries, l.pos, At(s, l.pos).sequence), words);
    }
  }

  lemma ReadMatches<T>(s: State<T>, w: Words<T>, t: Tid, p: nat, q: nat, words: nat)
    requires Finds(s, w, p, q, words)
    ensures Matches(Goto(s, t, DeqRead(p, At(s, p).data)), DequeueOnWords(w, t, DeqWon(q), words), words)
  {
    PutMatches(s, w, t, DeqRead(p, At(s, p).data), words);
  }

  lemma WinHeadMatches<T>(s: State<T>, w: Words<T>, t: Tid, p: nat, q: nat, words: nat)
    requires Matches(s, w, words) && q == Rem(p, words)
    ensures Matches(WinHead(s, t, p), Put(w, t, DeqWon(q)).(head := Plus(q, 1, words)), words)
  {
    PlusFollows(p, 1, words);
    PutMatches(s, w, t, DeqWon(p), words);
  }

  lemma MissHeadFollows<T>(s: State<T>, w: Words<T>, t: Tid, l: Local<T>, q: nat, verdict: Verdict, words: nat)
    requires Ready(s, w, words) && l.DeqSeq? && verdict == Judge(l.seen - (l.pos + 1), s.head == l.pos) && !verdict.Wins?
    ensures Matches(AdvanceDequeue(s, t, l), SwapHead(w, t, q, verdict, words), words)
  {
    LeaveMatches(s, w, t, words);
    PutMatches(s, w, t, DeqStart(l.base, l.retries + 1), words);
  }

  lemma SwapHeadFollows<T>(s: State<T>, w: Words<T>, t: Tid, l: Local<T>, q: nat, verdict: Verdict, words: nat)
    requires Ready(s, w, words) && l.DeqSeq? && q == Rem(l.pos, words) && verdict == Judge(l.seen - (l.pos + 1), s.head == l.pos)
    ensures Matches(AdvanceDequeue(s, t, l), SwapHead(w, t, q, verdict, words), words)
  {
    if verdict.Wins? {
      WinHeadMatches(s, w, t, l.pos, q, words);
    } else {
      MissHeadFollows(s, w, t, l, q, verdict, words);
    }
  }

  lemma HeadVerdicts<T>(s: State<T>, w: Words<T>, t: Tid, l: Local<T>, q: nat, verdict: Verdict, words: nat)
    requires s.n > 0 && |s.cells| == s.n && l.DeqSeq?
    ensures PutBy(AdvanceDequeue(s, t, l).threads, t, Judge(l.seen - (l.pos + 1), s.head == l.pos))
    ensures PutBy(SwapHead(w, t, q, verdict, words).threads, t, verdict)
  {
  }

  lemma SwapHeadMatches<T>(s: State<T>, w: Words<T>, t: Tid, l: Local<T>, q: nat, verdict: Verdict, words: nat)
    requires Ready(s, w, words) && l.DeqSeq? && q == Rem(l.pos, words)
    ensures Matches(AdvanceDequeue(s, t, l), SwapHead(w, t, q, verdict, words), words)
      <==> verdict == Judge(l.seen - (l.pos + 1), s.head == l.pos)
  {
    var s', w' := AdvanceDequeue(s, t, l), SwapHead(w, t, q, verdict, words);
    HeadVerdicts(s, w, t, l, q, verdict, words);
    if verdict == Judge(l.seen - (l.pos + 1), s.head == l.pos) { SwapHeadFollows(s, w, t, l, q, verdict, words); }
    if Matches(s', w', words) { OneVerdict(s', w', t, Judge(l.seen - (l.pos + 1), s.head == l.pos), verdict, words); }
  }

  lemma FreeMatches<T>(s: State<T>, w: Words<T>, t: Tid, p: nat, q: nat, x: T, words: nat)
    requires Finds(s, w, p, q, words)
    ensures Matches(Free(s, t, p, x), DequeueOnWords(w, t, DeqRead(q, x), words), words)
  {
    PlusFollows(p, s.n, words);
    LeaveMatches(s, w, t, words);
  }

  lemma DequeueMatches<T>(s: State<T>, w: Words<T>, t: Tid, l: Local<T>, words: nat)
    requires StandsFor(s, w, s.n, words) && t in s.threads && l == s.threads[t] && !InEnqueue(l)
    ensures Matches(AdvanceDequeue(s, t, l), DequeueOnWords(w, t, LocalOnWords(l, words), words), words)
      <==> !Misjudges(s, t, words)
  {
    if !l.DeqStart? { CellMatches(s, w, l.pos, words); }
    match l
    case DeqStart(_, _) => DequeueLoadMatches(s, w, t, l, words);
    case DeqHead(_, _, _) => DequeueLoadMatches(s, w, t, l, words);
    case DeqSeq(_, _, p, seen) =>
      var q := Rem(p, words);
      SwapHeadMatches(s, w, t, l, q, Judge(Diff(Rem(seen, words), Plus(q, 1, words), words), w.head == q), words);
    case DeqWon(p) => ReadMatches(s, w, t, p, Rem(p, words), words);
    case DeqRead(p, x) => FreeMatches(s, w, t, p, Rem(p, words), x, words);
  }

  // ---- whole runs ---------------------------------------------------------------------------------------------

  ghost predicate StandsFor<T>(s: State<T>, w: Words<T>, n: nat, words: nat) {
    Inv(s) && SeenOk(s) && s.n == n && FitsWords(n, words) && Matches(s, w, words)
  }

  /** A thread's step on words is its step on counters that never wrap, however often these have wrapped, if and
      only if it does not misjudge its test. */
  lemma StepMatchesIff<T>(s: State<T>, w: Words<T>, t: Tid, words: nat)
    requires StandsFor(s, w, s.n, words) && t in s.threads
    ensures t in w.threads && (Matches(Advance(s, t), AdvanceOnWords(w, t, words), words) <==> !Misjudges(s, t, words))
  {
    var l := s.threads[t];
    assert InEnqueue(LocalOnWords(l, words)) <==> InEnqueue(l);
    if InEnqueue(l) { EnqueueMatches(s, w, t, l, words); } else { DequeueMatches(s, w, t, l, words); }
  }

  lemma BeginMatches<T(!new)>(s: State<T>, w: Words<T>, t: Tid, w': Words<T>, words: nat) returns (s': State<T>)
    requires Ready(s, w, words) && t !in s.threads && StepOnWords(w, t, w', words)
    ensures Moves(s, t, s') && Matches(s', w', words) && s'.n == s.n
    ensures SeenOk(s) ==> SeenOk(s')
  {
    if w' == Put(w, t, DeqStart(0, 0)) {
      s' := BeginDequeue(s, t);
      PutMatches(s, w, t, DeqStart(s.head, 0), words);
    } else {
      var v :| w' == Put(w, t, EnqStart(v, 0, 0));
      s' := BeginEnqueue(s, t, v);
      PutMatches(s, w, t, EnqStart(v, s.tail, 0), words);
    }
  }

  lemma AnyStepMatches<T(!new)>(s: State<T>, w: Words<T>, t: Tid, w': Words<T>, n: nat, words: nat) returns (s': State<T>)
    requires StandsFor(s, w, n, words) && StepOnWords(w, t, w', words) && !Misjudges(s, t, words)
    ensures Moves(s, t, s') && StandsFor(s', w', n, words)
  {
    if t in s.threads {
      s' := Advance(s, t);
      StepMatchesIff(s, w, t, words);
      SeenOkStep(s, t);
    } else {
      s' := BeginMatches(s, w, t, w', words);
    }
    StepInv(s, t, s');
  }

  ghost function Standing<T>(n: nat, words: nat): (State<T>, Words<T>) -> bool {
    (s: State<T>, w: Words<T>) => StandsFor(s, w, n, words)
  }

  ghost function Misjudging<T>(words: nat): (State<T>, Tid) -> bool
    requires words > 0
  {
    (s: State<T>, t: Tid) => Misjudges(s, t, words)
  }

  lemma StartMatches<T(!new)>(w: Words<T>, words: nat) returns (s: State<T>)
    requires InitOnWords(w) && FitsWords(w.n, words)
    ensures Init(s) && StandsFor(s, w, w.n, words)
  {
    SomeWords(w.n, words);
    s := State(w.n, 0, 0, w.cells, map[], [], map[], map[], map[]);
    InitInv(s);
  }

  lemma StepFollows<T(!new)>(s: State<T>, w: Words<T>, t: Tid, w': Words<T>, n: nat, words: nat)
    requires words > 0 && Standing(n, words)(s, w) && MovesOnWords(words)(w, t, w') && !Misjudging(words)(s, t)
    ensures exists s' :: Moves(s, t, s') && Standing(n, words)(s', w')
  {
    var s' := AnyStepMatches(s, w, t, w', n, words);
    assert Moves(s, t, s') && Standing(n, words)(s', w');
  }

  lemma Follows<T(!new)>(ws: seq<Words<T>>, turns: seq<Tid>, n: nat, words: nat) returns (run: seq<State<T>>)
    requires IsRun(InitOnWords, MovesOnWords(words), ws, turns) && FitsWords(n, words) && n == ws[0].n && words > 0
    ensures 1 <= |run| <= |ws| && IsRun(Init, Moves, run, turns[..|run| - 1])
    ensures forall i :: 0 <= i < |run| ==> Standing(n, words)(run[i], ws[i])
    ensures |run| < |ws| ==> Misjudging(words)(run[|run| - 1], turns[|run| - 1])
  {
    var rel, bad := Standing<T>(n, words), Misjudging<T>(words);
    forall s, w, t, w' | rel(s, w) && MovesOnWords(words)(w, t, w') && !bad(s, t)
      ensures exists s' :: Moves(s, t, s') && rel(s', w')
    {
      StepFollows(s, w, t, w', n, words);
    }
    var s0 := StartMatches(ws[0], words);
    run := Simulate(Init, Moves, MovesOnWords(words), rel, bad, s0, ws, turns);
  }

  /** Every run on words, of any length, is an interleaving of module Mpmc, step by step, up to the first test
      that is misjudged; and only a thread that lags by about half the words misjudges: with 64-bit words, one
      that slept through 2^63 operations. */
  lemma WordsFollow<T(!new)>(ws: seq<Words<T>>, turns: seq<Tid>, words: nat) returns (run: seq<State<T>>)
    requires IsRun(InitOnWords, MovesOnWords(words), ws, turns) && FitsWords(ws[0].n, words)
    ensures 1 <= |run| <= |ws| && IsRun(Init, Moves, run, turns[..|run| - 1]) && words > 0
    ensures forall i :: 0 <= i < |run| ==> Matches(run[i], ws[i], words)
    ensures |run| < |ws| ==> var j := |run| - 1; Misjudges(run[j], turns[j], words) && Lags(run[j], turns[j], words)
  {
    SomeWords(ws[0].n, words);
    run := Follows(ws, turns, ws[0].n, words);
    forall i | 0 <= i < |run| ensures Matches(run[i], ws[i], words) {
      assert Standing(ws[0].n, words)(run[i], ws[i]);
    }
    if |run| < |ws| {
      var j := |run| - 1;
      assert Standing(ws[0].n, words)(run[j], ws[j]);
      OnlyLaggardsMisjudge(run[j], turns[j], words);
    }
  }
}
