/** The byte stream between the batching sender and the reassembling receiver of
    protocol/connection.go, as functions of whole streams. */
module Reassembly {
  import opened Wire
  import opened Codec

  type Decoder = seq<byte> -> Decoding

  /** What the drain loops need of a decoder: answers other than "incomplete" survive every extension of
      the input, a frame takes at least two bytes and its length field is the length of its payload. */
  ghost predicate PrefixStable(dec: Decoder) {
    && dec([]) == Incomplete
    && (forall s, t {:trigger dec(s + t)} :: !dec(s).Incomplete? ==> dec(s + t) == dec(s))
    && (forall s :: dec(s).Decoded? ==> 2 <= dec(s).consumed <= |s| && dec(s).frame.payloadLen == |dec(s).frame.payload|)
  }

  lemma DecodeIsPrefixStable()
    ensures PrefixStable(Decode)
  {
    forall s, t | !Decode(s).Incomplete? ensures Decode(s + t) == Decode(s) { DecodeStable(s, t); }
  }

  /** Why a drain loop stopped: out of whole frames, on a decode error, or by a panic. */
  datatype Stop = NeedMore | Failed | Crashed

  datatype Drained = Drained(frames: seq<Frame>, rest: seq<byte>, stop: Stop)

  function StopOf(d: Decoding): Stop
    requires !d.Decoded?
  {
    if d.Incomplete? then NeedMore else if d.Oversize? then Failed else Crashed
  }

  /** Decode frames off the front until no whole frame is left. */
  ghost function Drain(dec: Decoder, buf: seq<byte>): (d: Drained)
    requires PrefixStable(dec)
    decreases |buf|
  {
    var r := dec(buf);
    if r.Decoded? then var d := Drain(dec, buf[r.consumed..]); d.(frames := [r.frame] + d.frames)
    else Drained([], buf, StopOf(r))
  }

  function Flatten(chunks: seq<seq<byte>>): seq<byte> {
    if chunks == [] then [] else chunks[0] + Flatten(chunks[1..])
  }

  /** The receive loop over successive chunks: append, drain, keep the rest; the first error ends it. */
  ghost function Feed(dec: Decoder, buf: seq<byte>, chunks: seq<seq<byte>>): (d: Drained)
    requires PrefixStable(dec)
    decreases |chunks|
  {
    if chunks == [] then Drained([], buf, NeedMore) else
    var d := Drain(dec, buf + chunks[0]);
    if d.stop != NeedMore then d else
    var e := Feed(dec, d.rest, chunks[1..]);
    e.(frames := d.frames + e.frames)
  }

  /** The two for the decoder of the repository. */
  ghost function Unframe(buf: seq<byte>): Drained {
    DecodeIsPrefixStable();
    Drain(Decode, buf)
  }

  ghost function UnframeAll(buf: seq<byte>, chunks: seq<seq<byte>>): Drained {
    DecodeIsPrefixStable();
    Feed(Decode, buf, chunks)
  }

  // ---- chunking does not matter --------------------------------------------------------------

  lemma {:induction false} DrainAppend(dec: Decoder, s: seq<byte>, t: seq<byte>)
    requires PrefixStable(dec)
    ensures var d := Drain(dec, s);
      if d.stop == NeedMore then
        var e := Drain(dec, d.rest + t); Drain(dec, s + t) == e.(frames := d.frames + e.frames)
      else Drain(dec, s + t) == d.(rest := d.rest + t)
    decreases |s|
  {
    var r := dec(s);
    if r.Incomplete? {
      assert [] + Drain(dec, s + t).frames == Drain(dec, s + t).frames;
    } else {
      assert dec(s + t) == r;
      if r.Decoded? {
        assert (s + t)[r.consumed..] == s[r.consumed..] + t;
        DrainAppend(dec, s[r.consumed..], t);
        var d := Drain(dec, s[r.consumed..]);
        if d.stop == NeedMore {
          var e := Drain(dec, d.rest + t);
          assert [r.frame] + (d.frames + e.frames) == ([r.frame] + d.frames) + e.frames;
        }
      }
    }
  }

  /** The bytes kept between rounds: no whole frame, no error. */
  ghost predicate Settled(dec: Decoder, buf: seq<byte>)
    requires PrefixStable(dec)
  {
    Drain(dec, buf) == Drained([], buf, NeedMore)
  }

  lemma {:induction false} DrainRest(dec: Decoder, buf: seq<byte>)
    requires PrefixStable(dec) && Drain(dec, buf).stop == NeedMore
    ensures Settled(dec, Drain(dec, buf).rest)
    decreases |buf|
  {
    if dec(buf).Decoded? { DrainRest(dec, buf[dec(buf).consumed..]); }
  }

  /** d after `done`. */
  ghost function Onto(done: seq<Frame>, d: Drained): Drained {
    d.(frames := done + d.frames)
  }

  lemma DrainNext(dec: Decoder, s: seq<byte>, done: seq<Frame>, all: Drained)
    requires PrefixStable(dec) && Onto(done, Drain(dec, s)) == all
    ensures dec(s).Decoded? ==> var e := Drain(dec, s[dec(s).consumed..]);
      Onto(done + [dec(s).frame], e) == all && |e.frames| < |Drain(dec, s).frames| && done < all.frames
    ensures !dec(s).Decoded? ==> all == Drained(done, s, StopOf(dec(s)))
  {
    if dec(s).Decoded? {
      Onward(done, [dec(s).frame], Drain(dec, s[dec(s).consumed..]).frames);
    } else {
      assert done + [] == done;
    }
  }

  lemma Onward(done: seq<Frame>, a: seq<Frame>, b: seq<Frame>)
    ensures done + (a + b) == (done + a) + b && done + a <= done + (a + b)
  {
  }

  lemma AppendNext(buf: seq<byte>, raws: seq<seq<byte>>, i: nat)
    requires i < |raws|
    ensures buf + Flatten(raws[i..]) == (buf + raws[i]) + Flatten(raws[i + 1..])
  {
    assert raws[i..][1..] == raws[i + 1..];
  }

  /** However a stream is cut, the loop delivers the frames of the uncut stream, stops for the same
      reason, and with no error keeps the same bytes. */
  lemma {:induction false} FeedIsDrain(dec: Decoder, buf: seq<byte>, chunks: seq<seq<byte>>)
    requires PrefixStable(dec) && Settled(dec, buf)
    ensures var f, d := Feed(dec, buf, chunks), Drain(dec, buf + Flatten(chunks));
      f.frames == d.frames && f.stop == d.stop && (f.stop == NeedMore ==> f.rest == d.rest)
    decreases |chunks|
  {
    if chunks == [] {
      assert buf + Flatten(chunks) == buf;
    } else {
      var first, tail := buf + chunks[0], Flatten(chunks[1..]);
      DrainAppend(dec, first, tail);
      Regroup(buf, chunks[0], tail);
      if Drain(dec, first).stop == NeedMore {
        DrainRest(dec, first);
        FeedIsDrain(dec, Drain(dec, first).rest, chunks[1..]);
      }
    }
  }

  // ---- the sender's stream ---------------------------------------------------------------------

  /** A frame a caller may hand to SendFrame. */
  predicate Sendable(f: Frame) {
    f.payloadLen == |f.payload| <= MAX_FRAME_PAYLOAD
  }

  function SentBytes(f: Frame): (s: seq<byte>)
    ensures |s| >= 2
  {
    Encoded(f.isFinal, Low4(f.opcode), KeyIf(f.masked, SEND_KEY), f.payload)
  }

  function Map<A, B>(f: A -> B, s: seq<A>): (r: seq<B>)
    ensures |r| == |s|
  {
    seq(|s|, i requires 0 <= i < |s| => f(s[i]))
  }

  function WireOf(frames: seq<Frame>): seq<byte> {
    Flatten(Map(SentBytes, frames))
  }

  /** The frame as it comes out at the other end: FIN, the low four opcode bits, the mask flag and the
      payload survive; the key is the sender's. */
  function Arrived(f: Frame): Frame {
    Frame(f.isFinal, Low4(f.opcode), f.masked, |f.payload|, if f.masked then SEND_KEY else NO_KEY, f.payload)
  }

  lemma {:induction false} FlattenConcat(a: seq<seq<byte>>, b: seq<seq<byte>>)
    ensures Flatten(a + b) == Flatten(a) + Flatten(b)
    decreases |a|
  {
    if a == [] {
      assert a + b == b;
    } else {
      FlattenConcat(a[1..], b);
      assert (a + b)[1..] == a[1..] + b;
    }
  }

  lemma MapConcat<A, B>(f: A -> B, a: seq<A>, b: seq<A>)
    ensures Map(f, a + b) == Map(f, a) + Map(f, b)
  {
  }

  lemma WireConcat(a: seq<Frame>, b: seq<Frame>)
    ensures WireOf(a + b) == WireOf(a) + WireOf(b)
  {
    MapConcat(SentBytes, a, b);
    FlattenConcat(Map(SentBytes, a), Map(SentBytes, b));
  }

  /** `part` is the whole encoding of `f`, whatever comes next. */
  ghost predicate Frames(dec: Decoder, part: seq<byte>, f: Frame) {
    forall more: seq<byte> :: dec(part + more) == Decoded(f, |part|)
  }

  lemma SentFrames(f: Frame)
    requires Sendable(f)
    ensures Frames(Decode, SentBytes(f), Arrived(f))
  {
    forall more: seq<byte> ensures Decode(SentBytes(f) + more) == Decoded(Arrived(f), |SentBytes(f)|) {
      RoundTrip(f.isFinal, Low4(f.opcode), KeyIf(f.masked, SEND_KEY), f.payload, more);
    }
  }

  lemma ResentKey(raw: seq<byte>, f: Frame, n: nat)
    requires Decode(raw) == Decoded(f, n) && SentBytes(f) == raw[..n]
    ensures f.masked ==> f.maskKey == SEND_KEY
  {
    SentFrames(f);
    SameFrame(Decode, raw, SentBytes(f), f, Arrived(f), n);
  }

  lemma SameFrame(dec: Decoder, raw: seq<byte>, part: seq<byte>, f: Frame, g: Frame, n: nat)
    requires dec(raw) == Decoded(f, n) && n <= |raw| && part == raw[..n] && Frames(dec, part, g)
    ensures f == g
  {
    assert raw == part + raw[n..];
  }

  lemma OwnKey(f: Frame)
    requires f.opcode < 16 && (f.masked ==> f.maskKey == SEND_KEY)
    ensures SentBytes(f) == Encoded(f.isFinal, f.opcode, KeyIn(f), f.payload)
  {
  }

  /** Sending a decoded frame on writes the bytes it came from if and only if the three reserved bits were
      clear, the length was in its shortest form, and a mask key was the one the encoder always uses. */
  lemma ResentExact(raw: seq<byte>)
    requires Decode(raw).Decoded?
    ensures var d := Decode(raw);
      SentBytes(d.frame) == raw[..d.consumed] <==>
      raw[0] % 128 < 16 && ShortestLength(raw) && (d.frame.masked ==> d.frame.maskKey == SEND_KEY)
  {
    var f, n := Decode(raw).frame, Decode(raw).consumed;
    if SentBytes(f) == raw[..n] { ResentKey(raw, f, n); }
    if f.masked ==> f.maskKey == SEND_KEY {
      OwnKey(f);
      ReencodeExact(raw);
    }
  }

  /** Each part of the condition matters: an empty text frame with a reserved bit set, one with a length in
      two bytes, and one masked with another key all decode, and none is sent on as it came. */
  lemma ResendingChanges(raw: seq<byte>)
    requires raw in {[0xC1, 0x00], [0x81, 0x7E, 0x00, 0x00], [0x81, 0x80, 0x00, 0x00, 0x00, 0x00]}
    ensures Decode(raw).Decoded? && Decode(raw).consumed == |raw| && SentBytes(Decode(raw).frame) != raw
  {
    assert raw[..|raw|] == raw;
    if |raw| == 2 {
      assert ParseHeader(raw) == Header(true, 1, false, 0, NO_KEY, 2);
    } else if |raw| == 4 {
      assert ParseHeader(raw) == Header(true, 1, false, 0, NO_KEY, 4);
    } else {
      assert ParseHeader(raw) == Header(true, 1, true, 0, NO_KEY, 6);
    }
    ResentExact(raw);
  }

  /** A run of whole encodings drains to their frames and nothing is left. */
  lemma {:induction false} DrainParts(dec: Decoder, parts: seq<seq<byte>>, frames: seq<Frame>)
    requires PrefixStable(dec)
    requires |parts| == |frames| && forall i :: 0 <= i < |parts| ==> Frames(dec, parts[i], frames[i])
    ensures Drain(dec, Flatten(parts)) == Drained(frames, [], NeedMore)
    decreases |parts|
  {
    if parts != [] {
      var first, rest := parts[0], Flatten(parts[1..]);
      assert dec(first + rest) == Decoded(frames[0], |first|);
      assert (first + rest)[|first|..] == rest;
      DrainParts(dec, parts[1..], frames[1..]);
      assert [frames[0]] + frames[1..] == frames;
    }
  }

  lemma DrainWire(frames: seq<Frame>)
    requires forall i :: 0 <= i < |frames| ==> Sendable(frames[i])
    ensures PrefixStable(Decode)
    ensures Drain(Decode, WireOf(frames)) == Drained(Map(Arrived, frames), [], NeedMore)
  {
    DecodeIsPrefixStable();
    forall i | 0 <= i < |frames| ensures Frames(Decode, Map(SentBytes, frames)[i], Map(Arrived, frames)[i]) {
      SentFrames(frames[i]);
    }
    DrainParts(Decode, Map(SentBytes, frames), Map(Arrived, frames));
  }

  function Concat(batches: seq<seq<Frame>>): seq<Frame> {
    if batches == [] then [] else batches[0] + Concat(batches[1..])
  }

  function BatchBytes(batches: seq<seq<Frame>>): seq<byte> {
    if batches == [] then [] else WireOf(batches[0]) + BatchBytes(batches[1..])
  }

  lemma {:induction false} BatchingDoesNotMatter(batches: seq<seq<Frame>>)
    ensures BatchBytes(batches) == WireOf(Concat(batches))
    decreases |batches|
  {
    if batches != [] {
      BatchingDoesNotMatter(batches[1..]);
      WireConcat(batches[0], Concat(batches[1..]));
    }
  }

  /** End to end: however the sender batches a list of frames and however the transport cuts the bytes,
      the receive loop decodes exactly that list and ends with an empty buffer. */
  lemma EndToEnd(batches: seq<seq<Frame>>, chunks: seq<seq<byte>>)
    requires forall i :: 0 <= i < |Concat(batches)| ==> Sendable(Concat(batches)[i])
    requires Flatten(chunks) == BatchBytes(batches)
    ensures PrefixStable(Decode)
    ensures Feed(Decode, [], chunks) == Drained(Map(Arrived, Concat(batches)), [], NeedMore)
  {
    BatchingDoesNotMatter(batches);
    DrainWire(Concat(batches));
    FeedIsDrain(Decode, [], chunks);
    assert [] + Flatten(chunks) == Flatten(chunks);
  }
}
