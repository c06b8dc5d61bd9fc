/** WSConnection of protocol/connection.go: the receive loop with its control frames, the batching send
    loop, and both joined end to end.  The transport is a list of received chunks and a sink of bytes;
    channel operations are the ones that complete. */
module Connection {
  import opened Codec
  import opened Options
  import opened Reassembly
  import opened Wire
  import SendRace

  const OPCODE_CLOSE: byte := 0x8
  const OPCODE_PING: byte := 0x9
  const OPCODE_PONG: byte := 0xA

  // ---- what the receiver owes for a list of frames (sections 5.5.1 to 5.5.3 of RFC 6455) -------

  predicate IsData(f: Frame) {
    f.opcode != OPCODE_CLOSE && f.opcode != OPCODE_PING && f.opcode != OPCODE_PONG
  }

  function PongFor(f: Frame): Frame {
    Frame(true, OPCODE_PONG, false, f.payloadLen, NO_KEY, f.payload)
  }

  /** The application's frames, in order. */
  function Data(fs: seq<Frame>): seq<Frame> {
    if fs == [] then [] else
    var last := fs[|fs| - 1];
    Data(fs[..|fs| - 1]) + (if IsData(last) then [last] else [])
  }

  predicate HasClose(fs: seq<Frame>) {
    fs != [] && (HasClose(fs[..|fs| - 1]) || fs[|fs| - 1].opcode == OPCODE_CLOSE)
  }

  /** One Pong per Ping, in order, up to the first Close, whose echo comes last. */
  function Replies(fs: seq<Frame>): seq<Frame> {
    if fs == [] then [] else
    var front, last := fs[..|fs| - 1], fs[|fs| - 1];
    Replies(front) + Reply(last, HasClose(front))
  }

  /** One frame's share of the above. */
  function Reply(f: Frame, closed: bool): seq<Frame> {
    if closed then [] else if f.opcode == OPCODE_PING then [PongFor(f)]
    else if f.opcode == OPCODE_CLOSE then [f] else []
  }

  /** The frames dispatched before another goroutine's Close, if there was one, which came after the first
      `outside` of them. */
  function Until(fs: seq<Frame>, outside: Option<nat>): seq<Frame> {
    if outside.Some? && outside.value <= |fs| then fs[..outside.value] else fs
  }

  /** A Close frame was among them, or another goroutine closed the connection. */
  predicate Shut(fs: seq<Frame>, outside: Option<nat>) {
    HasClose(fs) || outside.Some?
  }

  /** A connection that had inbox0 and outbox0 has dispatched fs: once it is closed from outside it replies to
      nothing more. */
  ghost predicate Dispatched(inbox0: seq<Frame>, outbox0: seq<Frame>, fs: seq<Frame>, outside: Option<nat>,
      inbox: seq<Frame>, outbox: seq<Frame>, closed: bool) {
    && (outside.Some? ==> outside.value <= |fs|)
    && inbox == inbox0 + Data(fs) && outbox == outbox0 + Replies(Until(fs, outside)) && closed == Shut(fs, outside)
  }

  lemma NextFrame(fs: seq<Frame>, f: Frame)
    ensures Data(fs + [f]) == Data(fs) + (if IsData(f) then [f] else [])
    ensures Replies(fs + [f]) == Replies(fs) + Reply(f, HasClose(fs))
    ensures HasClose(fs + [f]) == (HasClose(fs) || f.opcode == OPCODE_CLOSE)
  {
    assert (fs + [f])[..|fs|] == fs;
  }

  lemma NextReply(fs: seq<Frame>, outside: Option<nat>, f: Frame)
    requires outside.Some? ==> outside.value <= |fs|
    ensures Replies(Until(fs + [f], outside)) == Replies(Until(fs, outside)) + Reply(f, Shut(fs, outside))
  {
    if outside.Some? {
      assert (fs + [f])[..outside.value] == fs[..outside.value];
    } else {
      NextFrame(fs, f);
    }
  }

  lemma DispatchNext(inbox0: seq<Frame>, outbox0: seq<Frame>, fs: seq<Frame>, outside: Option<nat>, f: Frame,
      inbox: seq<Frame>, outbox: seq<Frame>, closed: bool)
    requires Dispatched(inbox0, outbox0, fs, outside, inbox, outbox, closed)
    ensures Dispatched(inbox0, outbox0, fs + [f], outside, inbox + (if IsData(f) then [f] else []),
                       outbox + Reply(f, closed), closed || f.opcode == OPCODE_CLOSE)
  {
    NextFrame(fs, f);
    NextReply(fs, outside, f);
    Regroup(inbox0, Data(fs), if IsData(f) then [f] else []);
    Regroup(outbox0, Replies(Until(fs, outside)), Reply(f, closed));
  }

  /** Another goroutine closes the connection. */
  lemma DispatchOutside(inbox0: seq<Frame>, outbox0: seq<Frame>, fs: seq<Frame>, outside: Option<nat>,
      inbox: seq<Frame>, outbox: seq<Frame>)
    requires Dispatched(inbox0, outbox0, fs, outside, inbox, outbox, false)
    ensures Dispatched(inbox0, outbox0, fs, Some(|fs|), inbox, outbox, true)
  {
    assert fs[..|fs|] == fs;
  }

  lemma LastOf(a: seq<Frame>, b: seq<Frame>)
    requires b != []
    ensures (a + b)[..|a + b| - 1] == a + b[..|b| - 1] && (a + b)[|a + b| - 1] == b[|b| - 1]
  {
  }

  lemma {:induction false} DataConcat(a: seq<Frame>, b: seq<Frame>)
    ensures Data(a + b) == Data(a) + Data(b)
    decreases |b|
  {
    if b == [] {
      assert a + b == a;
    } else {
      LastOf(a, b);
      DataConcat(a, b[..|b| - 1]);
    }
  }

  lemma {:induction false} CloseConcat(a: seq<Frame>, b: seq<Frame>)
    ensures HasClose(a + b) == (HasClose(a) || HasClose(b))
    decreases |b|
  {
    if b == [] {
      assert a + b == a;
    } else {
      LastOf(a, b);
      CloseConcat(a, b[..|b| - 1]);
    }
  }

  lemma RepliesStep(a: seq<Frame>, b: seq<Frame>, f: Frame)
    requires Replies(a + b) == Replies(a) + Replies(b) && HasClose(a + b) == HasClose(b)
    ensures Replies((a + b) + [f]) == Replies(a) + Replies(b + [f])
  {
    NextFrame(a + b, f);
    NextFrame(b, f);
    Regroup(Replies(a), Replies(b), Reply(f, HasClose(b)));
  }

  lemma WithLast(a: seq<Frame>, b: seq<Frame>)
    requires b != []
    ensures var front, last := b[..|b| - 1], b[|b| - 1]; front + [last] == b && (a + front) + [last] == a + b
  {
  }

  lemma {:induction false} RepliesConcat(a: seq<Frame>, b: seq<Frame>)
    requires !HasClose(a)
    ensures Replies(a + b) == Replies(a) + Replies(b)
    decreases |b|
  {
    if b == [] {
      assert a + b == a;
    } else {
      RepliesConcat(a, b[..|b| - 1]);
      CloseConcat(a, b[..|b| - 1]);
      RepliesStep(a, b[..|b| - 1], b[|b| - 1]);
      WithLast(a, b);
    }
  }

  lemma Chained(x0: seq<Frame>, a: seq<Frame>, x1: seq<Frame>, b: seq<Frame>, x: seq<Frame>)
    requires x1 == x0 + a && x == x1 + b
    ensures x == x0 + (a + b)
  {
  }

  /** The place of an outside Close in a + b, of which it fell into b. */
  function Later(n: nat, outside: Option<nat>): Option<nat> {
    if outside.Some? then Some(n + outside.value) else None
  }

  lemma UntilLater(a: seq<Frame>, b: seq<Frame>, outside: Option<nat>)
    requires outside.Some? ==> outside.value <= |b|
    ensures Until(a + b, Later(|a|, outside)) == a + Until(b, outside)
  {
  }

  lemma DispatchAlso(inbox0: seq<Frame>, outbox0: seq<Frame>, a: seq<Frame>, inbox1: seq<Frame>, outbox1: seq<Frame>,
                     b: seq<Frame>, outside: Option<nat>, inbox: seq<Frame>, outbox: seq<Frame>, closed: bool)
    requires Dispatched(inbox0, outbox0, a, None, inbox1, outbox1, false)
    requires Dispatched(inbox1, outbox1, b, outside, inbox, outbox, closed)
    ensures Dispatched(inbox0, outbox0, a + b, Later(|a|, outside), inbox, outbox, closed)
  {
    DataConcat(a, b);
    CloseConcat(a, b);
    RepliesConcat(a, Until(b, outside));
    UntilLater(a, b, outside);
    Chained(inbox0, Data(a), inbox1, Data(b), inbox);
    Chained(outbox0, Replies(a), outbox1, Replies(Until(b, outside)), outbox);
  }

  // ---- the same, position by position ----------------------------------------------------------

  /** Section 5.5.3 of RFC 6455: a Ping is answered by a final, unmasked Pong with the Ping's payload, and a Close
      by itself. */
  predicate AnswerTo(f: Frame, r: Frame) {
    if f.opcode == 0x8 then r == f
    else r.isFinal && r.opcode == 0xA && !r.masked && r.maskKey == [0, 0, 0, 0] && r.payloadLen == f.payloadLen
         && r.payload == f.payload
  }

  /** The frame at i is owed an answer: it is a Ping or a Close and no Close came before it. */
  predicate Owed(fs: seq<Frame>, i: nat)
    requires i < |fs|
  {
    (fs[i].opcode == 0x9 || fs[i].opcode == 0x8) && forall j :: 0 <= j < i ==> fs[j].opcode != 0x8
  }

  predicate ForTheInbox(fs: seq<Frame>, i: nat)
    requires i < |fs|
  {
    fs[i].opcode != 0x8 && fs[i].opcode != 0x9 && fs[i].opcode != 0xA
  }

  predicate Increasing(at: seq<nat>, n: nat) {
    && (forall k :: 0 <= k < |at| ==> at[k] < n)
    && (forall k, l :: 0 <= k < l < |at| ==> at[k] < at[l])
  }

  ghost predicate AnsweredAt(fs: seq<Frame>, rs: seq<Frame>, at: seq<nat>) {
    && |at| == |rs| && Increasing(at, |fs|)
    && (forall i: nat :: i < |fs| ==> (i in at <==> Owed(fs, i)))
    && (forall k :: 0 <= k < |at| ==> AnswerTo(fs[at[k]], rs[k]))
  }

  ghost predicate DeliveredAt(fs: seq<Frame>, ds: seq<Frame>, at: seq<nat>) {
    && |at| == |ds| && Increasing(at, |fs|)
    && (forall i: nat :: i < |fs| ==> (i in at <==> ForTheInbox(fs, i)))
    && (forall k :: 0 <= k < |at| ==> fs[at[k]] == ds[k])
  }

  /** rs answers exactly the frames that are owed an answer, in their order. */
  ghost predicate Answers(fs: seq<Frame>, rs: seq<Frame>) {
    exists at: seq<nat> :: AnsweredAt(fs, rs, at)
  }

  /** ds is exactly the frames that are for the inbox, in their order. */
  ghost predicate Delivers(fs: seq<Frame>, ds: seq<Frame>) {
    exists at: seq<nat> :: DeliveredAt(fs, ds, at)
  }

  lemma {:induction false} CloseIsThere(fs: seq<Frame>)
    ensures HasClose(fs) <==> exists i :: 0 <= i < |fs| && fs[i].opcode == 0x8
  {
    if fs != [] {
      CloseIsThere(fs[..|fs| - 1]);
    }
  }

  lemma OwedPrefix(fs: seq<Frame>, f: Frame, i: nat)
    requires i < |fs|
    ensures Owed(fs + [f], i) == Owed(fs, i) && ForTheInbox(fs + [f], i) == ForTheInbox(fs, i)
  {
    assert forall j :: 0 <= j <= i ==> (fs + [f])[j] == fs[j];
  }

  lemma OwedLast(fs: seq<Frame>, f: Frame)
    ensures Owed(fs + [f], |fs|) == (Reply(f, HasClose(fs)) != [])
  {
    CloseIsThere(fs);
    var gs := fs + [f];
    assert gs[|fs|] == f && forall j :: 0 <= j < |fs| ==> gs[j] == fs[j];
  }

  lemma AnsweredNo(fs: seq<Frame>, f: Frame, rs: seq<Frame>, at: seq<nat>)
    requires AnsweredAt(fs, rs, at) && !Owed(fs + [f], |fs|)
    ensures AnsweredAt(fs + [f], rs, at)
  {
    forall i: nat | i < |fs + [f]|
      ensures i in at <==> Owed(fs + [f], i)
    {
      if i < |fs| { OwedPrefix(fs, f, i); }
    }
  }

  lemma AnsweredYes(fs: seq<Frame>, f: Frame, rs: seq<Frame>, at: seq<nat>, r: Frame)
    requires AnsweredAt(fs, rs, at) && Owed(fs + [f], |fs|) && AnswerTo(f, r)
    ensures AnsweredAt(fs + [f], rs + [r], at + [|fs|])
  {
    var gs, to := fs + [f], at + [|fs|];
    forall i: nat | i < |gs|
      ensures i in to <==> Owed(gs, i)
    {
      if i < |fs| { OwedPrefix(fs, f, i); }
    }
    forall k | 0 <= k < |to|
      ensures AnswerTo(gs[to[k]], (rs + [r])[k])
    {
      if k < |at| { assert gs[at[k]] == fs[at[k]]; }
    }
  }

  lemma AnsweredNext(fs: seq<Frame>, f: Frame, rs: seq<Frame>)
    requires Answers(fs, rs)
    ensures Answers(fs + [f], rs + Reply(f, HasClose(fs)))
  {
    var r, at :| r == Reply(f, HasClose(fs)) && AnsweredAt(fs, rs, at);
    OwedLast(fs, f);
    if r == [] {
      assert rs + r == rs;
      AnsweredNo(fs, f, rs, at);
    } else {
      AnsweredYes(fs, f, rs, at, r[0]);
      assert r == [r[0]];
    }
  }

  lemma DeliveredNext(fs: seq<Frame>, f: Frame, ds: seq<Frame>, at: seq<nat>)
    requires DeliveredAt(fs, ds, at)
    ensures DeliveredAt(fs + [f], ds + (if IsData(f) then [f] else []), if IsData(f) then at + [|fs|] else at)
  {
    var to := if IsData(f) then at + [|fs|] else at;
    forall i: nat | i < |fs + [f]|
      ensures i in to <==> ForTheInbox(fs + [f], i)
    {
      if i < |fs| { OwedPrefix(fs, f, i); }
    }
  }

  /** The replies are the answers owed, one for one and in order. */
  lemma {:induction false} RepliesAnswer(fs: seq<Frame>)
    ensures Answers(fs, Replies(fs))
  {
    if fs == [] {
      assert AnsweredAt(fs, Replies(fs), []);
    } else {
      var front, last := fs[..|fs| - 1], fs[|fs| - 1];
      assert front + [last] == fs;
      RepliesAnswer(front);
      AnsweredNext(front, last, Replies(front));
    }
  }

  /** The inbox is given the frames that are for it, one for one and in order. */
  lemma {:induction false} DataDelivers(fs: seq<Frame>)
    ensures Delivers(fs, Data(fs))
  {
    if fs == [] {
      assert DeliveredAt(fs, Data(fs), []);
    } else {
      var front, last := fs[..|fs| - 1], fs[|fs| - 1];
      assert front + [last] == fs;
      DataDelivers(front);
      var at :| DeliveredAt(front, Data(front), at);
      DeliveredNext(front, last, Data(front), at);
    }
  }

  /** What one round of recvLoop meets: the chunks Recv returns, its error, or `done` found closed at the top. */
  datatype Read = Got(raws: seq<seq<byte>>) | ReadError | ClosedElsewhere

  /** What is read before the first error or outside Close. */
  function Leading(events: seq<Read>): (r: seq<seq<seq<byte>>>)
    ensures |r| <= |events|
  {
    if events == [] || !events[0].Got? then [] else [events[0].raws] + Leading(events[1..])
  }

  lemma {:induction false} AllLeading(recvs: seq<seq<seq<byte>>>)
    ensures Leading(Map(r => Got(r), recvs)) == recvs
  {
    if recvs != [] {
      AllLeading(recvs[1..]);
      assert Map((r: seq<seq<byte>>) => Got(r), recvs)[1..] == Map((r: seq<seq<byte>>) => Got(r), recvs[1..]);
    }
  }

  class WSConnection {
    const dec: Decoder
    /** Whether a handler was set before the loops began. */
    const handler: bool
    var readBuf: seq<byte>
    var inbox: seq<Frame>
    /** The frames whose payloads the handler was given. */
    var handed: seq<Frame>
    var outbox: seq<Frame>
    var wire: seq<byte>
    var closed: bool
    /** The send loop has panicked, and the process with it. */
    var crashed: bool
    var sendRunning: bool
    /** How many send loops were started. */
    ghost var loops: nat

    ghost predicate Valid()
      reads this
    {
      && loops == (if sendRunning then 1 else 0)
      && handed == if handler then inbox else []
    }

    constructor (handler: bool)
      ensures Valid() && dec == Decode && PrefixStable(dec) && this.handler == handler
      ensures readBuf == [] && inbox == [] && outbox == [] && wire == [] && !closed && !crashed && !sendRunning
    {
      DecodeIsPrefixStable();
      dec, this.handler := Decode, handler;
      readBuf, inbox, handed, outbox, wire := [], [], [], [], [];
      closed, crashed, sendRunning, loops := false, false, false, 0;
    }

    /** A SendFrame that runs without interference: refused once closed; else it starts the send loop if
        nobody has, and finding it running queues the frame, so it never writes to the transport itself. */
    method SendFrame(f: Frame) returns (ok: bool)
      requires Valid()
      modifies this`outbox, this`sendRunning, this`loops
      ensures Valid() && ok == !closed
      ensures outbox == if ok then old(outbox) + [f] else old(outbox)
      ensures sendRunning == (old(sendRunning) || ok)
    {
      ok := !closed;
      if ok {
        if !sendRunning {
          sendRunning, loops := true, loops + 1;
        }
        outbox := outbox + [f];
      }
    }

    method HandleControl(f: Frame) returns (handled: bool)
      requires Valid()
      modifies this`outbox, this`closed, this`sendRunning, this`loops
      ensures Valid() && handled == !IsData(f)
      ensures closed == (old(closed) || f.opcode == OPCODE_CLOSE)
      ensures outbox == old(outbox) + Reply(f, old(closed))
      ensures !old(closed) && f.opcode == 0x9 ==>
        outbox == old(outbox) + [Frame(true, 0xA, false, f.payloadLen, [0, 0, 0, 0], f.payload)]
      ensures !old(closed) && f.opcode == 0x8 ==> outbox == old(outbox) + [f]
      ensures old(closed) || (f.opcode != 0x9 && f.opcode != 0x8) ==> outbox == old(outbox)
    {
      handled := true;
      if f.opcode == OPCODE_PING {
        var _ := SendFrame(PongFor(f));
      } else if f.opcode == OPCODE_CLOSE {
        var _ := SendFrame(f);
        closed := true;
      } else if f.opcode != OPCODE_PONG {
        handled := false;
      }
    }

    /** handleControl, then the select between the inbox and `done`, then the handler: once the connection is
        closed a frame for the inbox may lose the race. */
    method Dispatch(f: Frame) returns (kept: bool)
      requires Valid()
      modifies this`inbox, this`handed, this`outbox, this`closed, this`sendRunning, this`loops
      ensures Valid()
      ensures kept ==> inbox == old(inbox) + (if IsData(f) then [f] else [])
      ensures kept ==> outbox == old(outbox) + Reply(f, old(closed))
      ensures kept ==> closed == (old(closed) || f.opcode == OPCODE_CLOSE)
      ensures !kept ==> old(closed) && closed && inbox == old(inbox) && outbox == old(outbox)
    {
      kept := true;
      var wasClosed := closed;
      var handled := HandleControl(f);
      if !handled {
        var lost: bool := *;
        kept := !(wasClosed && lost);
        if kept {
          inbox := inbox + [f];
          if handler { handed := handed + [f]; }
        }
      }
    }

    method AppendAll(raws: seq<seq<byte>>)
      modifies this`readBuf
      ensures readBuf == old(readBuf) + Flatten(raws)
    {
      var i := 0;
      while i < |raws|
        invariant i <= |raws| && readBuf + Flatten(raws[i..]) == old(readBuf) + Flatten(raws)
      {
        AppendNext(readBuf, raws, i);
        readBuf := readBuf + raws[i];
        i := i + 1;
      }
    }

    /** One round of recvLoop: append what Recv returned, then decode and dispatch.  Unless the loop is `alone`,
        another goroutine may close the connection before any of the frames, `outside` says where.  The frames
        `done` are dispatched; they are all there are unless a Close came first. */
    method ReceiveOnce(raws: seq<seq<byte>>, alone: bool)
      returns (stop: Stop, ghost done: seq<Frame>, ghost outside: Option<nat>)
      requires Valid() && PrefixStable(dec) && !closed
      modifies this
      ensures Valid() && wire == old(wire) && (alone ==> outside.None?)
      ensures Round(Drain(dec, old(readBuf) + Flatten(raws)), done, stop, readBuf, closed)
      ensures Dispatched(old(inbox), old(outbox), done, outside, inbox, outbox, closed)
    {
      AppendAll(raws);
      stop, done, outside := DrainBuffer(alone);
    }

    method DrainBuffer(alone: bool) returns (stop: Stop, ghost done: seq<Frame>, ghost outside: Option<nat>)
      requires Valid() && PrefixStable(dec) && !closed
      modifies this`readBuf, this`inbox, this`handed, this`outbox, this`closed, this`sendRunning, this`loops
      ensures Valid() && (alone ==> outside.None?)
      ensures Round(Drain(dec, old(readBuf)), done, stop, readBuf, closed)
      ensures Dispatched(old(inbox), old(outbox), done, outside, inbox, outbox, closed)
    {
      done, outside := [], None;
      ghost var all := Drain(dec, readBuf);
      var more := true;
      stop := NeedMore;
      assert Draining(all, done);
      while more
        invariant Valid() && Dispatched(old(inbox), old(outbox), done, outside, inbox, outbox, closed)
        invariant alone ==> outside.None?
        invariant if more then Draining(all, done) else Round(all, done, stop, readBuf, closed)
        decreases more, |Drain(dec, readBuf).frames|
      {
        outside := CloseOutside(alone, done, outside, old(inbox), old(outbox));
        more, stop, done := DrainOne(all, done, outside, old(inbox), old(outbox));
      }
    }

    /** Another goroutine closes the connection here, or it does not. */
    method CloseOutside(alone: bool, ghost done: seq<Frame>, ghost outside: Option<nat>, ghost inbox0: seq<Frame>,
        ghost outbox0: seq<Frame>)
      returns (ghost outside': Option<nat>)
      requires Valid() && Dispatched(inbox0, outbox0, done, outside, inbox, outbox, closed)
      modifies this`closed
      ensures Valid() && Dispatched(inbox0, outbox0, done, outside', inbox, outbox, closed)
      ensures alone ==> outside' == outside
    {
      outside' := outside;
      var now: bool := *;
      if !alone && now && !closed {
        DispatchOutside(inbox0, outbox0, done, outside, inbox, outbox);
        closed, outside' := true, Some(|done|);
      }
    }

    method DrainOne(ghost all: Drained, ghost done: seq<Frame>, ghost outside: Option<nat>, ghost inbox0: seq<Frame>,
        ghost outbox0: seq<Frame>)
      returns (more: bool, stop: Stop, ghost done': seq<Frame>)
      requires Valid() && PrefixStable(dec) && Draining(all, done)
      requires Dispatched(inbox0, outbox0, done, outside, inbox, outbox, closed)
      modifies this`readBuf, this`inbox, this`handed, this`outbox, this`closed, this`sendRunning, this`loops
      ensures Valid() && Dispatched(inbox0, outbox0, done', outside, inbox, outbox, closed)
      ensures if more then Draining(all, done') else Round(all, done', stop, readBuf, closed)
      ensures more ==> |Drain(dec, readBuf).frames| < |old(Drain(dec, readBuf).frames)|
    {
      var d := dec(readBuf);
      DrainNext(dec, readBuf, done, all);
      if !d.Decoded? { return false, StopOf(d), done; }
      readBuf := readBuf[d.consumed..];
      DispatchNext(inbox0, outbox0, done, outside, d.frame, inbox, outbox, closed);
      var kept := Dispatch(d.frame);
      more, stop, done' := kept, NeedMore, if kept then done + [d.frame] else done;
    }

    /** The drain loop began on bytes that drain to `all` and has dispatched `done`. */
    ghost predicate Draining(all: Drained, done: seq<Frame>)
      requires PrefixStable(dec)
      reads this
    {
      Onto(done, Drain(dec, readBuf)) == all
    }

    /** recvLoop has dispatched `done` since it began with inbox0 and outbox0, with `left` still to come. */
    ghost predicate Looping(all: Drained, done: seq<Frame>, outside: Option<nat>, left: seq<seq<seq<byte>>>,
        inbox0: seq<Frame>, outbox0: seq<Frame>)
      requires PrefixStable(dec)
      reads this
    {
      && Dispatched(inbox0, outbox0, done, outside, inbox, outbox, Shut(done, outside))
      && (if closed then Outcome(dec, all, done, outside, readBuf, true, false)
          else outside.None? && Rounds(dec, all, done, Map(Flatten, left), readBuf))
    }

    method NextRound(raws: seq<seq<byte>>, alone: bool, ghost left: seq<seq<seq<byte>>>, ghost all: Drained,
        ghost done: seq<Frame>, ghost inbox0: seq<Frame>, ghost outbox0: seq<Frame>)
      returns (ghost done': seq<Frame>, ghost outside: Option<nat>)
      requires Valid() && PrefixStable(dec) && !closed && left != [] && left[0] == raws
      requires Looping(all, done, None, left, inbox0, outbox0)
      modifies this
      ensures Valid() && wire == old(wire) && Looping(all, done', outside, left[1..], inbox0, outbox0)
      ensures alone ==> outside.None?
    {
      assert Map(Flatten, left)[1..] == Map(Flatten, left[1..]);
      var stop, more, hit := ReceiveOnce(raws, alone);
      DispatchAlso(inbox0, outbox0, done, old(inbox), old(outbox), more, hit, inbox, outbox, closed);
      done', outside := done + more, Later(|done|, hit);
      if closed || stop != NeedMore {
        RoundEnds(dec, all, done, Map(Flatten, left), old(readBuf), more, hit, stop, readBuf);
        closed := true;
      } else {
        RoundGoesOn(dec, all, done, Map(Flatten, left), old(readBuf), more, readBuf);
      }
    }

    /** recvLoop over what happens to it, one round after the other, with another goroutine's Close at any moment
        unless the loop is `alone`.  It dispatches the frames of the whole stream read before the first error or
        Close, in order, however the stream was cut; a decode error, a read error or a Close ends it with the
        connection closed.  The outbox gains one answer for every Ping dispatched before the first Close and one for
        that Close, in order, the inbox every frame that is no control frame, and the handler, if there is one, is
        given what the inbox gets. */
    method RecvLoop(events: seq<Read>, alone: bool) returns (ghost done: seq<Frame>, ghost outside: Option<nat>)
      requires Valid() && PrefixStable(dec) && !closed && Settled(dec, readBuf)
      modifies this
      ensures Valid() && wire == old(wire) && (alone ==> outside.None?)
      ensures Outcome(dec, Drain(dec, old(readBuf) + Flatten(Map(Flatten, Leading(events)))), done, outside, readBuf,
                      closed, |Leading(events)| < |events|)
      ensures Dispatched(old(inbox), old(outbox), done, outside, inbox, outbox, Shut(done, outside))
      ensures old(outbox) <= outbox && Answers(Until(done, outside), outbox[|old(outbox)|..])
      ensures old(inbox) <= inbox && Delivers(done, inbox[|old(inbox)|..])
      ensures handed == if handler then old(handed) + inbox[|old(inbox)|..] else []
    {
      ghost var chunks := Map(Flatten, Leading(events));
      FeedIsDrain(dec, readBuf, chunks);
      done, outside := RunRounds(events, alone, Feed(dec, readBuf, chunks));
      RepliesAnswer(Until(done, outside));
      DataDelivers(done);
    }

    method RunRounds(events: seq<Read>, alone: bool, ghost all: Drained)
      returns (ghost done: seq<Frame>, ghost outside: Option<nat>)
      requires Valid() && PrefixStable(dec) && !closed && Settled(dec, readBuf)
      requires all == Feed(dec, readBuf, Map(Flatten, Leading(events)))
      modifies this
      ensures Valid() && wire == old(wire) && (alone ==> outside.None?)
      ensures Outcome(dec, all, done, outside, readBuf, closed, |Leading(events)| < |events|)
      ensures Dispatched(old(inbox), old(outbox), done, outside, inbox, outbox, Shut(done, outside))
    {
      var left;
      left, done, outside := RunUntil(events, alone, all);
      if !closed {
        NothingLeft(dec, all, done, readBuf, left != []);
        closed := left != [];
      } else {
        ClosedAnyway(dec, all, done, outside, readBuf, |Leading(events)| < |events|);
      }
    }

    /** The rounds up to the first failed read or Close; `left` is what was not met. */
    method RunUntil(events: seq<Read>, alone: bool, ghost all: Drained)
      returns (left: seq<Read>, ghost done: seq<Frame>, ghost outside: Option<nat>)
      requires Valid() && PrefixStable(dec) && !closed && Settled(dec, readBuf)
      requires all == Feed(dec, readBuf, Map(Flatten, Leading(events)))
      modifies this
      ensures Valid() && wire == old(wire) && (alone ==> outside.None?)
      ensures Looping(all, done, outside, Leading(left), old(inbox), old(outbox))
      ensures |Leading(events)| < |events| <==> |Leading(left)| < |left|
      ensures closed || Leading(left) == []
    {
      done, outside := [], None;
      left := events;
      assert Looping(all, done, None, Leading(left), inbox, outbox);
      while left != [] && left[0].Got? && !closed
        invariant Valid() && wire == old(wire) && (alone ==> outside.None?)
        invariant Looping(all, done, outside, Leading(left), old(inbox), old(outbox))
        invariant |Leading(events)| < |events| <==> |Leading(left)| < |left|
        decreases |left|
      {
        done, outside := NextRound(left[0].raws, alone, Leading(left), all, done, old(inbox), old(outbox));
        left := left[1..];
      }
    }

    /** RecvLoop when every read succeeds and nobody else closes. */
    method ReadAll(recvs: seq<seq<seq<byte>>>) returns (ghost done: seq<Frame>)
      requires Valid() && PrefixStable(dec) && !closed && Settled(dec, readBuf)
      modifies this
      ensures Valid() && wire == old(wire)
      ensures Outcome(dec, Drain(dec, old(readBuf) + Flatten(Map(Flatten, recvs))), done, None, readBuf, closed, false)
      ensures Dispatched(old(inbox), old(outbox), done, None, inbox, outbox, HasClose(done))
    {
      AllLeading(recvs);
      ghost var outside;
      done, outside := RecvLoop(Map(r => Got(r), recvs), true);
    }

    // ---- receiving without the loop ----------------------------------------------------------

    /** RecvZeroCopy while recvLoop is not running: every frame's payload, control frames included, cut to the
        pool buffer it gets, which for the i-th frame has lens(i) bytes.  A decode error later in the same read
        discards the frames decoded before it.  So every decoded payload is handed over whole exactly if
        the read succeeds, no error or panic follows in it and every payload fits its buffer. */
    method RecvDirect(recv: Option<seq<seq<byte>>>, lens: nat -> nat) returns (r: Direct)
      requires Valid() && PrefixStable(dec)
      modifies this`readBuf
      ensures recv.None? ==> r == NoRead && readBuf == old(readBuf)
      ensures recv.Some? ==> var d := Drain(dec, old(readBuf) + Flatten(recv.value));
        && readBuf == d.rest && r == DirectAnswer(d, lens)
        && (r == Payloads(Map((f: Frame) => f.payload, d.frames)) <==> d.stop == NeedMore && AllFit(d.frames, lens))
    {
      if recv.None? { return NoRead; }
      AppendAll(recv.value);
      AllFitIff(Drain(dec, readBuf).frames, lens);
      r := DrainDirect(lens);
    }

    method DrainDirect(lens: nat -> nat) returns (r: Direct)
      requires PrefixStable(dec)
      modifies this`readBuf
      ensures var d := Drain(dec, old(readBuf)); readBuf == d.rest && r == DirectAnswer(d, lens)
    {
      ghost var all := Drain(dec, readBuf);
      ghost var done: seq<Frame> := [];
      var result: seq<seq<byte>> := [];
      assert Draining(all, done);
      while true
        invariant Draining(all, done) && result == Cuts(done, lens)
        decreases |readBuf|
      {
        var d := dec(readBuf);
        DrainNext(dec, readBuf, done, all);
        if d.Incomplete? { return Payloads(result); }
        if d.Oversize? { return DecodeError; }
        if d.Panic? { return Crash; }
        CutsNext(done, d.frame, lens);
        result := result + [Front(d.frame.payload, lens(|result|))];
        done := done + [d.frame];
        readBuf := readBuf[d.consumed..];
      }
    }

    // ---- sending -------------------------------------------------------------------------------

    /** One round of sendLoop: m queued frames (at least one, at most 32) are taken, encoded and sent as one
        batch.  The first frame that cannot be encoded closes the connection or crashes the process, and nothing
        of the batch reaches the wire; a failed send closes it too and may have written any number of the
        batch's bytes. */
    method SendBatch(m: nat, sendOk: bool, written: nat) returns (sent: bool)
      requires Valid() && !crashed && 1 <= m <= |outbox| && m <= SendRace.MAX_BATCH
      modifies this`outbox, this`wire, this`closed, this`crashed
      ensures Valid() && outbox == old(outbox)[m..]
      ensures var t := EncodingOfAll(old(outbox)[..m]);
        && (sent <==> sendOk && t.Bytes?) && (crashed <==> t.Panicked?)
        && closed == (old(closed) || (!sent && !crashed))
        && wire == old(wire) + (if !t.Bytes? then [] else if sendOk then t.bytes else Front(t.bytes, written))
    {
      var frames := TakeFrames(m);
      var out := EncodeAll(frames);
      sent, crashed := sendOk && out.Bytes?, out.Panicked?;
      if out.Bytes? { wire := wire + (if sendOk then out.bytes else Front(out.bytes, written)); }
      if !sent && !crashed { closed := true; }
    }

    /** The first frame, then whatever else is queued up to the batch limit. */
    method TakeFrames(m: nat) returns (frames: seq<Frame>)
      requires Valid() && 1 <= m <= |outbox|
      modifies this`outbox
      ensures frames == old(outbox)[..m] && outbox == old(outbox)[m..]
    {
      frames := [outbox[0]];
      outbox := outbox[1..];
      while |frames| < m
        invariant 1 <= |frames| <= m && frames == old(outbox)[..|frames|] && outbox == old(outbox)[|frames|..]
      {
        frames := frames + [outbox[0]];
        outbox := outbox[1..];
      }
    }

    /** sendLoop began with `all` queued and wire0 written, and has sent `sent`. */
    ghost predicate Sending(sent: seq<Frame>, all: seq<Frame>, wire0: seq<byte>)
      reads this
    {
      Valid() && sent + outbox == all && EncodingOfAll(sent).Bytes? && wire == wire0 + EncodingOfAll(sent).bytes
    }

    predicate Down()
      reads this
    {
      closed || crashed
    }

    method SendNext(m: nat, sendOk: bool, written: nat, ghost sent: seq<Frame>, ghost all: seq<Frame>, ghost wire0: seq<byte>)
      returns (ghost sent': seq<Frame>)
      requires !Down() && 1 <= m <= |outbox| && m <= SendRace.MAX_BATCH && Sending(sent, all, wire0)
      modifies this`outbox, this`wire, this`closed, this`crashed
      ensures Valid() && |outbox| < |old(outbox)| && OnWire(wire0, all, wire)
      ensures !Down() ==> Sending(sent', all, wire0)
      ensures crashed <==> EncodingOfAll(sent + old(outbox)[..m]).Panicked?
      ensures closed ==> !sendOk || EncodingOfAll(sent + old(outbox)[..m]).Refused?
    {
      ghost var batch, rest := outbox[..m], outbox[m..];
      SplitAt(outbox, m);
      Regroup(sent, batch, rest);
      EncodingConcat(sent, batch);
      WiresJoin(wire0, sent, batch, rest, written);
      sent' := sent + batch;
      var ok := SendBatch(m, sendOk, written);
    }

    /** sendLoop until the outbox is empty or it fails, with batch sizes picked by the scheduler; the k-th send
        succeeds if sendOk(k) and else stops after written(k) bytes.  The wire always gets a front of the
        encodings of the outbox in order, and all of them unless a frame cannot be encoded or a send fails; the
        process crashes only on a masked frame that announces more bytes than it has. */
    method SendLoop(sendOk: nat -> bool, written: nat -> nat)
      requires Valid() && !Down()
      modifies this`outbox, this`wire, this`closed, this`crashed
      ensures Valid() && OnWire(old(wire), old(outbox), wire)
      ensures !Down() ==> var t := EncodingOfAll(old(outbox)); outbox == [] && t.Bytes? && wire == old(wire) + t.bytes
      ensures EncodingOfAll(old(outbox)).Bytes? && (forall k :: sendOk(k)) ==> !Down()
      ensures crashed ==> EncodingOfAll(old(outbox)).Panicked?
    {
      ghost var sent: seq<Frame> := [];
      ghost var all, wire0 := outbox, wire;
      var k := 0;
      NothingSent(wire, outbox);
      while outbox != [] && !Down()
        invariant Valid() && OnWire(wire0, all, wire) && (!Down() ==> Sending(sent, all, wire0))
        invariant closed ==> (exists j :: !sendOk(j)) || !EncodingOfAll(all).Bytes?
        invariant crashed ==> EncodingOfAll(all).Panicked?
        decreases |outbox|
      {
        var m :| 1 <= m <= |outbox| && m <= SendRace.MAX_BATCH;
        SplitAt(outbox, m);
        Regroup(sent, outbox[..m], outbox[m..]);
        FailureStays(sent + outbox[..m], outbox[m..]);
        sent := SendNext(m, sendOk(k), written(k), sent, all, wire0);
        k := k + 1;
      }
      assert sent + [] == sent;
    }
  }

  method SendAll(a: WSConnection)
    requires a.Valid() && !a.Down() && AllSendable(a.outbox)
    modifies a`outbox, a`wire, a`closed, a`crashed
    ensures a.Valid() && !a.Down() && a.outbox == [] && a.wire == old(a.wire) + WireOf(old(a.outbox))
  {
    SendableAll(a.outbox);
    a.SendLoop(_ => true, _ => 0);
  }

  // ---- what the encoder makes of a list of frames ----------------------------------------------------

  /** All the bytes, or what the first frame that cannot be encoded comes to. */
  function EncodingOfAll(fs: seq<Frame>): Encoding {
    if fs == [] then Bytes([]) else
    var front, last := EncodingOfAll(fs[..|fs| - 1]), fs[|fs| - 1];
    if !front.Bytes? then front else
    var e := EncodingOf(last, last.masked);
    if e.Bytes? then Bytes(front.bytes + e.bytes) else e
  }

  lemma {:induction false} EncodingConcat(a: seq<Frame>, b: seq<Frame>)
    ensures var x, y, z := EncodingOfAll(a), EncodingOfAll(b), EncodingOfAll(a + b);
      z == if !x.Bytes? then x else if !y.Bytes? then y else Bytes(x.bytes + y.bytes)
    decreases |b|
  {
    if b == [] {
      assert a + b == a;
    } else {
      var n := |b| - 1;
      LastOf(a, b);
      EncodingConcat(a, b[..n]);
      var x, y, e := EncodingOfAll(a), EncodingOfAll(b[..n]), EncodingOf(b[n], b[n].masked);
      if x.Bytes? && y.Bytes? && e.Bytes? { Regroup(x.bytes, y.bytes, e.bytes); }
    }
  }

  lemma NextEncoding(fs: seq<Frame>, f: Frame, front: Encoding, e: Encoding)
    requires front == EncodingOfAll(fs) && e == EncodingOf(f, f.masked)
    ensures EncodingOfAll(fs + [f]) ==
      if !front.Bytes? then front else if e.Bytes? then Bytes(front.bytes + e.bytes) else e
  {
    assert (fs + [f])[..|fs|] == fs;
  }

  lemma TakeOne<T>(s: seq<T>, i: nat)
    requires i < |s|
    ensures s[..i] + [s[i]] == s[..i + 1] && s[..i + 1] + s[i + 1..] == s
  {
  }

  lemma FlattenNext(parts: seq<seq<byte>>, i: nat)
    requires i < |parts|
    ensures Flatten(parts[..i]) + parts[i] == Flatten(parts[..i + 1])
  {
    TakeOne(parts, i);
    FlattenConcat(parts[..i], [parts[i]]);
    assert Flatten([parts[i]]) == parts[i] + Flatten([]);
  }

  /** The bytes are those of every frame, in order, if each can be encoded. */
  lemma {:induction false} AllEncoded(fs: seq<Frame>, parts: seq<seq<byte>>, n: nat)
    requires n <= |parts| == |fs| && forall i :: 0 <= i < n ==> EncodingOf(fs[i], fs[i].masked) == Bytes(parts[i])
    ensures EncodingOfAll(fs[..n]) == Bytes(Flatten(parts[..n]))
  {
    if n > 0 {
      AllEncoded(fs, parts, n - 1);
      NextEncoding(fs[..n - 1], fs[n - 1], Bytes(Flatten(parts[..n - 1])), Bytes(parts[n - 1]));
      TakeOne(fs, n - 1);
      FlattenNext(parts, n - 1);
    }
  }

  /** And if not, what comes of the list is what comes of the first frame that cannot. */
  lemma FirstFailure(fs: seq<Frame>, i: nat)
    requires i < |fs| && EncodingOfAll(fs[..i]).Bytes? && !EncodingOf(fs[i], fs[i].masked).Bytes?
    ensures EncodingOfAll(fs) == EncodingOf(fs[i], fs[i].masked)
  {
    NextEncoding(fs[..i], fs[i], EncodingOfAll(fs[..i]), EncodingOf(fs[i], fs[i].masked));
    TakeOne(fs, i);
    FailureStays(fs[..i + 1], fs[i + 1..]);
  }

  /** A failure at the front is that of the whole. */
  lemma FailureStays(a: seq<Frame>, b: seq<Frame>)
    ensures !EncodingOfAll(a).Bytes? ==> EncodingOfAll(a + b) == EncodingOfAll(a)
  {
    EncodingConcat(a, b);
  }

  /** On the wire is a front of the encodings of the frames, none beyond the first that cannot be encoded. */
  ghost predicate OnWire(wire0: seq<byte>, fs: seq<Frame>, wire: seq<byte>) {
    wire0 <= wire && exists n: nat :: n <= |fs| && EncodingOfAll(fs[..n]).Bytes? && wire <= wire0 + EncodingOfAll(fs[..n]).bytes
  }

  lemma NothingSent(wire: seq<byte>, fs: seq<Frame>)
    ensures OnWire(wire, fs, wire)
  {
    assert fs[..0] == [];
    assert EncodingOfAll(fs[..0]) == Bytes([]);
  }

  /** A batch sent whole, cut short or not at all leaves a front of the whole. */
  lemma WiresJoin(wire0: seq<byte>, sent: seq<Frame>, batch: seq<Frame>, rest: seq<Frame>, n: nat)
    requires EncodingOfAll(sent).Bytes?
    ensures var all, wire := sent + (batch + rest), wire0 + EncodingOfAll(sent).bytes;
      && OnWire(wire0, all, wire + [])
      && (EncodingOfAll(batch).Bytes? ==>
        && OnWire(wire0, all, wire + EncodingOfAll(batch).bytes) && OnWire(wire0, all, wire + Front(EncodingOfAll(batch).bytes, n))
        && wire + EncodingOfAll(batch).bytes == wire0 + (EncodingOfAll(sent).bytes + EncodingOfAll(batch).bytes))
  {
    var all := sent + (batch + rest);
    assert all[..|sent|] == sent && all[..|sent| + |batch|] == sent + batch;
    EncodingConcat(sent, batch);
    if EncodingOfAll(batch).Bytes? { CutShort(wire0, EncodingOfAll(sent).bytes, EncodingOfAll(batch).bytes, n); }
  }

  lemma CutShort(a: seq<byte>, b: seq<byte>, c: seq<byte>, n: nat)
    ensures a <= (a + b) + Front(c, n) <= a + (b + c) && (a + b) + c == a + (b + c) && (a + b) + [] == a + b
  {
  }

  /** Frames with the length they announce, within the limit, are all encoded. */
  lemma {:induction false} SendableAll(fs: seq<Frame>)
    requires AllSendable(fs)
    ensures EncodingOfAll(fs) == Bytes(WireOf(fs))
  {
    if fs != [] {
      SendableAll(fs[..|fs| - 1]);
      SendableEncodes(fs[|fs| - 1]);
      WireLast(fs);
    }
  }

  lemma WireLast(fs: seq<Frame>)
    requires fs != []
    ensures WireOf(fs) == WireOf(fs[..|fs| - 1]) + SentBytes(fs[|fs| - 1])
  {
    var front, last := fs[..|fs| - 1], [fs[|fs| - 1]];
    assert fs == front + last;
    WireConcat(front, last);
    assert Map(SentBytes, last) == [SentBytes(last[0])];
    assert Flatten([SentBytes(last[0])]) == SentBytes(last[0]) + Flatten([]);
  }

  lemma SendableEncodes(f: Frame)
    requires Sendable(f)
    ensures EncodingOf(f, f.masked) == Bytes(SentBytes(f))
  {
    assert f.payload[..|f.payload|] == f.payload && f.payload[|f.payload|..] == [];
  }

  /** The first n bytes, or all if there are not so many. */
  function Front(bytes: seq<byte>, n: nat): (r: seq<byte>)
    ensures r <= bytes && |r| <= n && (|r| == n || r == bytes)
  {
    if n < |bytes| then bytes[..n] else bytes
  }

  function Cuts(fs: seq<Frame>, lens: nat -> nat): (r: seq<seq<byte>>)
    ensures |r| == |fs|
  {
    seq(|fs|, i requires 0 <= i < |fs| => Front(fs[i].payload, lens(i)))
  }

  lemma CutsNext(fs: seq<Frame>, f: Frame, lens: nat -> nat)
    ensures Cuts(fs + [f], lens) == Cuts(fs, lens) + [Front(f.payload, lens(|fs|))]
  {
  }

  /** What RecvZeroCopy comes to in direct mode. */
  datatype Direct = NoRead | DecodeError | Crash | Payloads(payloads: seq<seq<byte>>)

  function DirectAnswer(d: Drained, lens: nat -> nat): Direct {
    if d.stop == NeedMore then Payloads(Cuts(d.frames, lens)) else if d.stop == Failed then DecodeError else Crash
  }

  ghost predicate AllFit(fs: seq<Frame>, lens: nat -> nat) {
    forall i: nat :: i < |fs| ==> |fs[i].payload| <= lens(i)
  }

  lemma AllFitIff(fs: seq<Frame>, lens: nat -> nat)
    ensures Cuts(fs, lens) == Map((f: Frame) => f.payload, fs) <==> AllFit(fs, lens)
  {
    if Cuts(fs, lens) == Map((f: Frame) => f.payload, fs) {
      forall i: nat | i < |fs| ensures |fs[i].payload| <= lens(i) {
        assert Cuts(fs, lens)[i] == Map((f: Frame) => f.payload, fs)[i];
      }
    }
  }

  ghost predicate AllSendable(fs: seq<Frame>) {
    forall i :: 0 <= i < |fs| ==> Sendable(fs[i])
  }

  lemma SplitAt(fs: seq<Frame>, m: nat)
    requires m <= |fs|
    ensures fs[..m] + fs[m..] == fs
  {
  }

  method EncodeAll(frames: seq<Frame>) returns (r: Encoding)
    ensures r == EncodingOfAll(frames)
  {
    var out: seq<byte> := [];
    var i := 0;
    while i < |frames|
      invariant i <= |frames| && EncodingOfAll(frames[..i]) == Bytes(out)
    {
      var data := EncodeToBuffer(frames[i], frames[i].masked);
      assert frames[..i + 1][..i] == frames[..i];
      if !data.Bytes? {
        FailureStays(frames[..i + 1], frames[i + 1..]);
        assert frames[..i + 1] + frames[i + 1..] == frames;
        return data;
      }
      out := out + data.bytes;
      i := i + 1;
    }
    assert frames[..i] == frames;
    r := Bytes(out);
  }

  /** Two connections joined by a transport that cuts the byte stream as it likes.  Everything a had
      queued arrives at b once, in order: the application's frames in the inbox, one Pong per Ping in the
      outbox, nothing left in the read buffer; and b stays open exactly if no Close was sent. */
  method Relay(a: WSConnection, b: WSConnection, recvs: seq<seq<seq<byte>>>) returns (ghost done: seq<Frame>)
    requires a != b && a.Valid() && b.Valid() && !a.Down() && !b.closed && b.dec == Decode
    requires a.wire == [] && b.readBuf == [] && AllSendable(a.outbox)
    requires Flatten(Map(Flatten, recvs)) == WireOf(a.outbox)
    modifies a, b
    ensures a.Valid() && b.Valid() && a.outbox == [] && a.wire == WireOf(old(a.outbox))
    ensures done <= Map(Arrived, old(a.outbox)) && b.closed == HasClose(done)
    ensures b.inbox == old(b.inbox) + Data(done) && b.outbox == old(b.outbox) + Replies(done)
    ensures !b.closed ==> done == Map(Arrived, old(a.outbox)) && b.readBuf == []
  {
    DrainWire(a.outbox);
    DecodeIsPrefixStable();
    SendAll(a);
    done := b.ReadAll(recvs);
    assert [] + Flatten(Map(Flatten, recvs)) == Flatten(Map(Flatten, recvs));
  }

  // ---- what direct mode loses -------------------------------------------------------------------

  /** A text frame "A", then the header of a frame of 2^20 + 1 bytes. */
  const GOOD: seq<byte> := [0x81, 0x01, 0x41]
  const TOO_BIG: seq<byte> := [0x82, 0x7F, 0, 0, 0, 0, 0, 0x10, 0, 0x01]

  function Letter(): Frame {
    Frame(true, 1, false, 1, NO_KEY, [0x41])
  }

  lemma LetterDecodes(more: seq<byte>)
    ensures Decode(GOOD + more) == Decoded(Letter(), 3)
  {
    var raw := GOOD + more;
    assert raw[0] == 0x81 && raw[1] == 0x01 && raw[2] == 0x41;
    assert raw[2..3] == [0x41];
  }

  lemma TooBigFails()
    ensures Decode(TOO_BIG) == Oversize
  {
    assert Read16(TOO_BIG, 2) == 0 && Read16(TOO_BIG, 4) == 0 && Read16(TOO_BIG, 6) == 0x10 && Read16(TOO_BIG, 8) == 1;
  }

  lemma DrainLetter(more: seq<byte>)
    ensures PrefixStable(Decode)
    ensures var d := Drain(Decode, more); Drain(Decode, GOOD + more) == d.(frames := [Letter()] + d.frames)
  {
    DecodeIsPrefixStable();
    LetterDecodes(more);
    assert (GOOD + more)[3..] == more;
  }

  /** One read of a fresh connection in direct mode. */
  method ReadDirectly(raw: seq<byte>, lens: nat -> nat) returns (r: Direct)
    ensures PrefixStable(Decode) && r == DirectAnswer(Drain(Decode, raw), lens)
  {
    var c := new WSConnection(false);
    assert Flatten([raw]) == raw && [] + raw == raw;
    r := c.RecvDirect(Some([raw]), lens);
  }

  lemma GoodThenTooBig()
    ensures PrefixStable(Decode) && Drain(Decode, GOOD + TOO_BIG) == Drained([Letter()], TOO_BIG, Failed)
  {
    DrainLetter(TOO_BIG);
    TooBigFails();
  }

  lemma GoodAlone()
    ensures PrefixStable(Decode) && Drain(Decode, GOOD) == Drained([Letter()], [], NeedMore)
  {
    DrainLetter([]);
    assert GOOD + [] == GOOD;
  }

  /** A good frame is decoded, one over the limit follows in the same read, and the caller gets an error. */
  method DirectDropsAGoodFrame(lens: nat -> nat) returns (r: Direct)
    ensures PrefixStable(Decode) && Drain(Decode, GOOD + TOO_BIG).frames == [Letter()] && r == DecodeError
  {
    GoodThenTooBig();
    r := ReadDirectly(GOOD + TOO_BIG, lens);
  }

  /** A pool buffer that came back empty takes the place of a payload of one byte. */
  method DirectCutsAPayload(lens: nat -> nat) returns (r: Direct)
    requires lens(0) == 0
    ensures PrefixStable(Decode) && Drain(Decode, GOOD).frames == [Letter()] && r == Payloads([[]])
  {
    GoodAlone();
    r := ReadDirectly(GOOD, lens);
    OneCut(lens);
  }

  lemma OneCut(lens: nat -> nat)
    requires lens(0) == 0
    ensures Cuts([Letter()], lens) == [[]]
  {
  }

  /** A round over bytes that drain to d dispatched `done`, stopped for the reason `stop` and kept `rest`. */
  ghost predicate Round(d: Drained, done: seq<Frame>, stop: Stop, rest: seq<byte>, closed: bool) {
    && done <= d.frames && (done != d.frames ==> closed)
    && (done == d.frames ==> stop == d.stop && rest == d.rest)
  }

  /** How a receive loop over a stream that drains to d may stand: it has dispatched `done`, a prefix of
      the frames and all of them unless a Close was among them or came from outside; it is closed exactly if
      so, or if the stream has an error or its reading was broken off; while open it holds the stream's last
      incomplete frame. */
  ghost predicate Outcome(dec: Decoder, d: Drained, done: seq<Frame>, outside: Option<nat>, readBuf: seq<byte>,
      closed: bool, broken: bool)
    requires PrefixStable(dec)
  {
    && done <= d.frames && (done != d.frames ==> Shut(done, outside))
    && closed == (Shut(done, outside) || d.stop != NeedMore || broken)
    && (!closed ==> readBuf == d.rest && Settled(dec, readBuf))
  }

  /** The receive loop has dispatched `done` of all the frames and holds c, with `left` to come. */
  ghost predicate Rounds(dec: Decoder, all: Drained, done: seq<Frame>, left: seq<seq<byte>>, c: seq<byte>)
    requires PrefixStable(dec)
  {
    && !HasClose(done) && Settled(dec, c)
    && Onto(done, Feed(dec, c, left)) == all
  }

  /** The loop has read all there is, or is broken off by a failed read. */
  lemma NothingLeft(dec: Decoder, all: Drained, done: seq<Frame>, c: seq<byte>, broken: bool)
    requires PrefixStable(dec) && Rounds(dec, all, done, [], c)
    ensures Outcome(dec, all, done, None, c, broken, broken)
  {
    assert done + [] == done;
  }

  lemma ClosedAnyway(dec: Decoder, all: Drained, done: seq<Frame>, outside: Option<nat>, c: seq<byte>, broken: bool)
    requires PrefixStable(dec) && Outcome(dec, all, done, outside, c, true, false)
    ensures Outcome(dec, all, done, outside, c, true, broken)
  {
  }

  /** The frames of the round over the first chunk come first among those to come. */
  lemma FeedFirst(dec: Decoder, c: seq<byte>, left: seq<seq<byte>>)
    requires PrefixStable(dec) && left != []
    ensures var d, f := Drain(dec, c + left[0]), Feed(dec, c, left);
      && d.frames <= f.frames
      && (d.stop != NeedMore ==> f == d)
      && (d.stop == NeedMore ==> Settled(dec, d.rest) && f.frames == d.frames + Feed(dec, d.rest, left[1..]).frames
                                 && f == Feed(dec, d.rest, left[1..]).(frames := f.frames))
  {
    var d := Drain(dec, c + left[0]);
    if d.stop == NeedMore { DrainRest(dec, c + left[0]); }
  }

  lemma RoundGoesOn(dec: Decoder, all: Drained, done: seq<Frame>, left: seq<seq<byte>>, c: seq<byte>,
      more: seq<Frame>, rest: seq<byte>)
    requires PrefixStable(dec) && left != [] && Rounds(dec, all, done, left, c)
    requires Round(Drain(dec, c + left[0]), more, NeedMore, rest, false) && !HasClose(more)
    ensures Rounds(dec, all, done + more, left[1..], rest)
  {
    FeedFirst(dec, c, left);
    CloseConcat(done, more);
    Onward(done, more, Feed(dec, rest, left[1..]).frames);
  }

  lemma RoundEnds(dec: Decoder, all: Drained, done: seq<Frame>, left: seq<seq<byte>>, c: seq<byte>, more: seq<Frame>,
      outside: Option<nat>, stop: Stop, rest: seq<byte>)
    requires PrefixStable(dec) && left != [] && Rounds(dec, all, done, left, c)
    requires Round(Drain(dec, c + left[0]), more, stop, rest, Shut(more, outside)) && (Shut(more, outside) || stop != NeedMore)
    ensures Outcome(dec, all, done + more, Later(|done|, outside), rest, true, false)
  {
    FeedFirst(dec, c, left);
    CloseConcat(done, more);
    var f := Feed(dec, c, left);
    assert more <= f.frames;
    assert more + f.frames[|more|..] == f.frames;
    Onward(done, more, f.frames[|more|..]);
  }
}
