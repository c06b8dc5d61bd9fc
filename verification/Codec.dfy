/** The three decoders and three encoders of protocol/frame_codec.go, protocol/frame.go and
    core/protocol/frame_codec.go, step by step, against the layout of `Wire`. */
module Codec {
  import opened Options
  import opened Wire

  const SEND_KEY: Key := [0x12, 0x34, 0x56, 0x78]
  const STREAM_KEY: Key := [0xDE, 0xAD, 0xBE, 0xEF]

  // ---- decoders ----------------------------------------------------------------------------

  /** The header as protocol.DecodeFrameFromBytes reads it from raw[lo..hi]. */
  method ReadHeader(raw: array<byte>, lo: nat, hi: nat) returns (h: Header)
    requires lo <= hi <= raw.Length
    ensures h == ParseHeader(raw[lo..hi])
  {
    if hi - lo < 2 { return Short; }
    var fin, opcode, masked := TopBit(raw[lo]), Low4(raw[lo]), TopBit(raw[lo + 1]);
    var length: int := Low7(raw[lo + 1]);
    var offset := 2;
    if length == 126 {
      if hi - lo < offset + 2 { return Short; }
      length := 256 * (raw[lo + 2] as int) + raw[lo + 3];
      offset := offset + 2;
    } else if length == 127 {
      if hi - lo < offset + 8 { return Short; }
      assert Read64(raw[lo..hi], 2) == Read64(raw[..], lo + 2);
      length := Int64(Read64(raw[..], lo + 2));
      offset := offset + 8;
    }
    if length > MAX_FRAME_PAYLOAD { return TooBig; }
    var key := NO_KEY;
    if masked {
      if hi - lo < offset + 4 { return Short; }
      key := [raw[lo + offset], raw[lo + offset + 1], raw[lo + offset + 2], raw[lo + offset + 3]];
      offset := offset + 4;
    }
    h := Header(fin, opcode, masked, length, key, offset);
  }

  lemma SubSlice(s: seq<byte>, lo: nat, hi: nat, i: nat, j: nat)
    requires lo <= hi <= |s| && i <= j <= hi - lo
    ensures s[lo..hi][i..j] == s[lo + i..lo + j]
  {
    forall k | 0 <= k < j - i ensures s[lo..hi][i..j][k] == s[lo + i..lo + j][k] {}
  }

  lemma DecodeFrom(raw: seq<byte>, h: Header)
    requires h == ParseHeader(raw) && h.Header?
    ensures h.length < 0 ==> Decode(raw) == Panic
    ensures h.length >= 0 && |raw| < h.offset + h.length ==> Decode(raw) == Incomplete
    ensures h.length >= 0 && |raw| >= h.offset + h.length ==>
              Decode(raw) == Decoded(FrameOf(h, raw[h.offset..h.offset + h.length]), h.offset + h.length)
  {
  }

  /** Two states of an array that differ at most on from .. to-1. */
  ghost predicate Elsewhere(before: seq<byte>, after: seq<byte>, from: nat, to: nat) {
    |after| == |before| && forall j :: 0 <= j < |before| && !(from <= j < to) ==> after[j] == before[j]
  }

  lemma MaskAt(p: seq<byte>, key: Key, i: nat)
    requires i < |p|
    ensures Mask(p, key)[i] == XorByte(p[i], key[i % 4])
  {
  }

  lemma SliceIs(s: seq<byte>, from: nat, m: seq<byte>)
    requires from + |m| <= |s| && forall j :: 0 <= j < |m| ==> s[from + j] == m[j]
    ensures s[from..from + |m|] == m
  {
  }

  /** unmaskInPlace, on raw[from..to]. */
  method UnmaskInPlace(raw: array<byte>, from: nat, to: nat, key: Key)
    requires from <= to <= raw.Length
    modifies raw
    ensures raw[from..to] == Mask(old(raw[from..to]), key)
    ensures Elsewhere(old(raw[..]), raw[..], from, to)
  {
    var i := 0;
    ghost var masked := Mask(raw[from..to], key);
    while i < to - from
      invariant i <= to - from
      invariant forall j :: 0 <= j < i ==> raw[from + j] == masked[j]
      invariant forall j :: 0 <= j < raw.Length && !(from <= j < from + i) ==> raw[j] == old(raw[j])
    {
      MaskAt(old(raw[from..to]), key, i);
      raw[from + i] := XorByte(raw[from + i], key[i % 4]);
      i := i + 1;
    }
    SliceIs(raw[..], from, masked);
    assert raw[from..to] == raw[..][from..to];
  }

  /** protocol.DecodeFrameFromBytes on raw[lo..hi]: the payload is unmasked where it lies and no other
      byte of the array changes; unless a whole frame is there, nothing changes at all. */
  method DecodeInPlace(raw: array<byte>, lo: nat, hi: nat) returns (d: Decoding)
    requires lo <= hi <= raw.Length
    modifies raw
    ensures d == Decode(old(raw[lo..hi]))
    ensures !d.Decoded? ==> raw[..] == old(raw[..])
    ensures Elsewhere(old(raw[..]), raw[..], lo, hi)
    ensures d.Decoded? ==> var to := lo + d.consumed; var from := to - |d.frame.payload|;
              && lo + 2 <= from <= to <= hi && raw[from..to] == d.frame.payload
              && Elsewhere(old(raw[..]), raw[..], from, to)
  {
    var h := ReadHeader(raw, lo, hi);
    if h.Short? { return Incomplete; }
    if h.TooBig? { return Oversize; }
    DecodeFrom(raw[lo..hi], h);
    if h.length < 0 { return Panic; }
    if hi - lo < h.offset + h.length { return Incomplete; }
    d := TakeFrame(raw, lo, hi, h);
    Narrower(old(raw[..]), raw[..], lo, hi, lo + h.offset, lo + h.offset + h.length);
  }

  lemma Narrower(s: seq<byte>, t: seq<byte>, lo: nat, hi: nat, from: nat, to: nat)
    requires lo <= from <= to <= hi && Elsewhere(s, t, from, to)
    ensures Elsewhere(s, t, lo, hi)
  {
  }

  method TakeFrame(raw: array<byte>, lo: nat, hi: nat, h: Header) returns (d: Decoding)
    requires lo <= hi <= raw.Length && h.Header? && 0 <= h.length && h.offset + h.length <= hi - lo
    modifies raw
    ensures d == Decoded(FrameOf(h, old(raw[lo..hi])[h.offset..h.offset + h.length]), h.offset + h.length)
    ensures |d.frame.payload| == h.length && raw[lo + h.offset..lo + h.offset + h.length] == d.frame.payload
    ensures Elsewhere(old(raw[..]), raw[..], lo + h.offset, lo + h.offset + h.length)
  {
    ghost var body := raw[lo..hi][h.offset..h.offset + h.length];
    SubSlice(raw[..], lo, hi, h.offset, h.offset + h.length);
    d := TakeBody(raw, lo + h.offset, lo + h.offset + h.length, h, body);
  }

  /** Unmasks raw[from..to], which is the body of the frame under header h. */
  method TakeBody(raw: array<byte>, from: nat, to: nat, h: Header, ghost body: seq<byte>) returns (d: Decoding)
    requires h.Header? && from <= to <= raw.Length && to - from == h.length && raw[from..to] == body
    modifies raw
    ensures d == Decoded(FrameOf(h, body), h.offset + h.length)
    ensures |d.frame.payload| == h.length && raw[from..to] == d.frame.payload
    ensures Elsewhere(old(raw[..]), raw[..], from, to)
  {
    var payload := UnmaskIf(raw, from, to, h.masked, h.maskKey);
    d := Decoded(Frame(h.isFinal, h.opcode, h.masked, h.length, h.maskKey, payload), h.offset + h.length);
  }

  method UnmaskIf(raw: array<byte>, from: nat, to: nat, masked: bool, key: Key) returns (payload: seq<byte>)
    requires from <= to <= raw.Length
    modifies raw
    ensures |payload| == to - from && payload == raw[from..to]
    ensures payload == if masked then Mask(old(raw[from..to]), key) else old(raw[from..to])
    ensures Elsewhere(old(raw[..]), raw[..], from, to)
  {
    if masked { UnmaskInPlace(raw, from, to, key); }
    payload := raw[from..to];
  }

  /** The answers of core/protocol DecodeFrameFromBytes. */
  datatype CoreResult =
    | CoreFrame(frame: Frame)
    | TooShort
    | TooShortForLength
    | TooLarge
    | TooShortForMask
    | Truncated
    | CorePanic

  /** The length of a header and where it ends, or nothing if it is cut off. */
  method CoreLength(raw: seq<byte>) returns (ok: bool, length: int, offset: nat)
    requires |raw| >= 2
    ensures offset == 2 + LengthBytes(Low7(raw[1])) && (ok <==> |raw| >= offset) && (ok ==> length == LengthField(raw))
  {
    ok, length, offset := true, Low7(raw[1]), 2;
    if length == 126 {
      offset := 4;
      ok := |raw| >= offset;
      if ok { length := Read16(raw, 2); }
    } else if length == 127 {
      offset := 10;
      ok := |raw| >= offset;
      if ok { length := Int64(Read64(raw, 2)); }
    }
  }

  /** core/protocol DecodeFrameFromBytes: copies the payload out and leaves its input alone.  It accepts
      exactly what the in-place decoder accepts, with the same frame. */
  method CoreDecode(raw: seq<byte>) returns (r: CoreResult)
    ensures r.CoreFrame? <==> Decode(raw).Decoded?
    ensures r.CoreFrame? ==> r.frame == Decode(raw).frame
    ensures r.TooLarge? <==> Decode(raw).Oversize?
    ensures r.CorePanic? <==> Decode(raw).Panic?
  {
    if |raw| < 2 { return TooShort; }
    var fin, opcode, masked := TopBit(raw[0]), Low4(raw[0]), TopBit(raw[1]);
    var ok, length, offset := CoreLength(raw);
    if !ok { return TooShortForLength; }
    if length > MAX_FRAME_PAYLOAD { return TooLarge; }
    var key := NO_KEY;
    if masked {
      if |raw| < offset + 4 { return TooShortForMask; }
      key := KeyAt(raw, offset);
      offset := offset + 4;
    }
    r := CoreBody(raw, Header(fin, opcode, masked, length, key, offset));
  }

  method CoreBody(raw: seq<byte>, h: Header) returns (r: CoreResult)
    requires ParseHeader(raw) == h && h.Header?
    ensures r.CoreFrame? <==> Decode(raw).Decoded?
    ensures r.CoreFrame? ==> r.frame == Decode(raw).frame
    ensures r.CorePanic? <==> Decode(raw).Panic?
    ensures !r.TooLarge?
  {
    if |raw| - h.offset < h.length { return Truncated; }
    if h.length < 0 { return CorePanic; }
    var payload := CopyPayload(raw[h.offset..h.offset + h.length], h.masked, h.maskKey);
    r := CoreFrame(Frame(h.isFinal, h.opcode, h.masked, h.length, h.maskKey, payload));
  }

  method CopyPayload(data: seq<byte>, masked: bool, key: Key) returns (payload: seq<byte>)
    ensures payload == if masked then Mask(data, key) else data
  {
    var buf := new byte[|data|];
    var i := 0;
    while i < |data|
      invariant i <= |data|
      invariant forall j :: 0 <= j < i ==> buf[j] == if masked then XorByte(data[j], key[j % 4]) else data[j]
    {
      buf[i] := if masked then XorByte(data[i], key[i % 4]) else data[i];
      i := i + 1;
    }
    payload := buf[..];
  }

  /** An io.Reader over a finite stream. */
  class Reader {
    const data: seq<byte>
    var pos: nat

    ghost predicate Valid() reads this { pos <= |data| }

    ghost function Rest(): seq<byte> requires Valid() reads this { data[pos..] }

    constructor (data: seq<byte>)
      ensures Valid() && Rest() == data
    {
      this.data := data;
      pos := 0;
    }

    /** io.ReadFull: all n bytes or an error, after which the stream is drained. */
    method ReadFull(n: nat) returns (ok: bool, bytes: seq<byte>)
      requires Valid()
      modifies this
      ensures Valid() && (ok <==> n <= |old(Rest())|)
      ensures ok ==> bytes == old(Rest())[..n] && pos == old(pos) + n
      ensures !ok ==> bytes == old(Rest()) && pos == |data|
    {
      ok := pos + n <= |data|;
      if ok { bytes, pos := data[pos..pos + n], pos + n; } else { bytes, pos := data[pos..], |data|; }
    }
  }

  datatype StreamResult = StreamFrame(frame: Frame) | StreamEnd | StreamPanic

  /** Where the length and the key of a header end. */
  ghost function HeaderEnd(raw: seq<byte>): nat
    requires |raw| >= 2
  {
    2 + LengthBytes(Low7(raw[1])) + (if TopBit(raw[1]) then 4 else 0)
  }

  lemma HeaderComplete(raw: seq<byte>)
    requires |raw| >= 2 && |raw| >= HeaderEnd(raw) && LengthField(raw) <= MAX_FRAME_PAYLOAD
    ensures ParseHeader(raw) == Header(TopBit(raw[0]), Low4(raw[0]), TopBit(raw[1]), LengthField(raw),
              if TopBit(raw[1]) then KeyAt(raw, HeaderEnd(raw) - 4) else NO_KEY, HeaderEnd(raw))
  {
  }

  lemma SliceTail(s: seq<byte>, i: nat, n: nat)
    requires i + n <= |s|
    ensures s[i..][..n] == s[i..i + n]
  {
  }

  method StreamLength(r: Reader, len7: byte, ghost raw: seq<byte>) returns (ok: bool, length: int)
    requires r.Valid() && |raw| >= 2 && r.Rest() == raw[2..] && len7 == Low7(raw[1])
    modifies r
    ensures r.Valid() && (ok <==> |raw| >= 2 + LengthBytes(len7)) && (!ok ==> r.pos == |r.data|)
    ensures ok ==> length == LengthField(raw) && r.pos == old(r.pos) + LengthBytes(len7)
  {
    ok, length := true, len7;
    var ext;
    if len7 == 126 {
      ok, ext := r.ReadFull(2);
      if ok { length := Read16(ext, 0); }
    } else if len7 == 127 {
      ok, ext := r.ReadFull(8);
      if ok { length := Int64(Read64(ext, 0)); }
    }
  }

  method StreamKey(r: Reader, masked: bool) returns (ok: bool, key: Key)
    requires r.Valid()
    modifies r
    ensures r.Valid() && (ok <==> masked ==> |old(r.Rest())| >= 4) && (!ok ==> r.pos == |r.data|)
    ensures ok ==> r.pos == old(r.pos) + (if masked then 4 else 0)
    ensures ok ==> key == if masked then KeyAt(old(r.Rest()), 0) else NO_KEY
  {
    ok, key := true, NO_KEY;
    if masked {
      var mk;
      ok, mk := r.ReadFull(4);
      if ok { key := mk; }
    }
  }

  ghost function KeyOfHeader(raw: seq<byte>): Key
    requires |raw| >= 2 && |raw| >= HeaderEnd(raw)
  {
    if TopBit(raw[1]) then KeyAt(raw, HeaderEnd(raw) - 4) else NO_KEY
  }

  /** What a decoder without a size limit of its own makes of a stream, if slices of more than maxAlloc bytes
      cannot be made: header, length and key, then the body. */
  ghost function Streamed(raw: seq<byte>, maxAlloc: nat): StreamResult {
    if |raw| < 2 || |raw| < HeaderEnd(raw) then StreamEnd else
    var length, start := LengthField(raw), HeaderEnd(raw);
    if length < 0 || length > maxAlloc then StreamPanic
    else if |raw| < start + length then StreamEnd
    else
      var body, key := raw[start..start + length], KeyOfHeader(raw);
      StreamFrame(Frame(TopBit(raw[0]), Low4(raw[0]), TopBit(raw[1]), length, key,
                        if TopBit(raw[1]) then Mask(body, key) else body))
  }

  /** Where the in-place decoder finds a frame, wants more bytes or panics, so does the streaming one. */
  ghost predicate SameAnswer(raw: seq<byte>, d: Decoding, r: StreamResult) {
    && (d.Decoded? ==> r == StreamFrame(d.frame) && |raw| >= 2 && d.consumed == HeaderEnd(raw) + d.frame.payloadLen)
    && (d.Incomplete? ==> r == StreamEnd)
    && (d.Panic? ==> r == StreamPanic)
  }

  lemma ShortAgrees(raw: seq<byte>, maxAlloc: nat)
    requires |raw| < 2 || |raw| < HeaderEnd(raw)
    ensures Streamed(raw, maxAlloc) == StreamEnd && (Decode(raw) == Incomplete || Decode(raw) == Oversize)
  {
  }

  lemma FrameAgrees(raw: seq<byte>, length: int, maxAlloc: nat)
    requires |raw| >= 2 && |raw| >= HeaderEnd(raw) && length == LengthField(raw)
    requires 0 <= length <= MAX_FRAME_PAYLOAD <= maxAlloc && |raw| >= HeaderEnd(raw) + length
    ensures SameAnswer(raw, Decode(raw), Streamed(raw, maxAlloc))
  {
    HeaderComplete(raw);
    DecodeAfterHeader(raw, length);
  }

  lemma StreamedAgrees(raw: seq<byte>, maxAlloc: nat)
    requires maxAlloc >= MAX_FRAME_PAYLOAD
    ensures SameAnswer(raw, Decode(raw), Streamed(raw, maxAlloc))
  {
    if |raw| < 2 || |raw| < HeaderEnd(raw) {
      ShortAgrees(raw, maxAlloc);
    } else {
      var length := LengthField(raw);
      if 0 <= length <= MAX_FRAME_PAYLOAD && |raw| >= HeaderEnd(raw) + length {
        FrameAgrees(raw, length, maxAlloc);
      } else {
        DecodeAfterHeader(raw, length);
      }
    }
  }

  /** protocol.DecodeFrame: the streaming decoder, which has no size limit of its own; `maxAlloc` is the
      largest slice the runtime will make.  It leaves the reader right after the frame it finds. */
  method StreamDecode(r: Reader, maxAlloc: nat) returns (res: StreamResult)
    requires r.Valid()
    modifies r
    ensures r.Valid() && res == Streamed(old(r.Rest()), maxAlloc)
    ensures res.StreamFrame? ==> r.pos == old(r.pos) + HeaderEnd(old(r.Rest())) + res.frame.payloadLen
    ensures res.StreamEnd? ==> r.pos == |r.data|
    ensures maxAlloc >= MAX_FRAME_PAYLOAD ==> var d := Decode(old(r.Rest()));
      && (d.Decoded? ==> res == StreamFrame(d.frame) && r.pos == old(r.pos) + d.consumed)
      && (d.Incomplete? ==> res == StreamEnd)
      && (d.Panic? ==> res == StreamPanic)
  {
    ghost var raw := r.Rest();
    if maxAlloc >= MAX_FRAME_PAYLOAD { StreamedAgrees(raw, maxAlloc); }
    var ok, hdr := r.ReadFull(2);
    if !ok { return StreamEnd; }
    var fin, opcode, masked := TopBit(hdr[0]), Low4(hdr[0]), TopBit(hdr[1]);
    var length, key;
    ok, length := StreamLength(r, Low7(hdr[1]), raw);
    if !ok { return StreamEnd; }
    ok, key := StreamKey(r, masked);
    if !ok { return StreamEnd; }
    assert r.Rest() == raw[HeaderEnd(raw)..];
    res := StreamBody(r, raw, fin, opcode, masked, length, key, maxAlloc);
  }

  /** What the in-place decoder says of bytes whose header is complete. */
  lemma DecodeAfterHeader(raw: seq<byte>, length: int)
    requires |raw| >= 2 && |raw| >= HeaderEnd(raw) && length == LengthField(raw)
    ensures length > MAX_FRAME_PAYLOAD ==> Decode(raw) == Oversize
    ensures length < 0 ==> Decode(raw) == Panic
    ensures 0 <= length <= MAX_FRAME_PAYLOAD && |raw| < HeaderEnd(raw) + length ==> Decode(raw) == Incomplete
    ensures 0 <= length <= MAX_FRAME_PAYLOAD && |raw| >= HeaderEnd(raw) + length ==>
      var n := HeaderEnd(raw); Decode(raw) == Decoded(FrameOf(ParseHeader(raw), raw[n..n + length]), n + length)
  {
    if length <= MAX_FRAME_PAYLOAD { HeaderComplete(raw); }
  }

  method StreamBody(r: Reader, ghost raw: seq<byte>, fin: bool, opcode: byte, masked: bool, length: int, key: Key,
      maxAlloc: nat)
    returns (res: StreamResult)
    requires r.Valid() && |raw| >= 2 && |raw| >= HeaderEnd(raw)
    requires fin == TopBit(raw[0]) && opcode == Low4(raw[0]) && masked == TopBit(raw[1]) && key == KeyOfHeader(raw)
    requires length == LengthField(raw) && r.Rest() == raw[HeaderEnd(raw)..]
    modifies r
    ensures r.Valid() && res == Streamed(raw, maxAlloc)
    ensures res.StreamFrame? ==> r.pos == old(r.pos) + length && res.frame.payloadLen == length
    ensures res.StreamEnd? ==> r.pos == |r.data|
  {
    if length < 0 || length > maxAlloc { return StreamPanic; }
    var ok, data := r.ReadFull(length);
    if !ok { return StreamEnd; }
    SliceTail(raw, HeaderEnd(raw), length);
    var payload := CopyPayload(data, masked, key);
    res := StreamFrame(Frame(fin, opcode, masked, length, key, payload));
  }

  // ---- encoders ----------------------------------------------------------------------------

  function KeyIf(mask: bool, key: Key): Option<Key> {
    if mask then Some(key) else None
  }

  /** The payload as the encoder leaves it: only its first n bytes are masked. */
  function PartMasked(payload: seq<byte>, n: nat, key: Option<Key>): seq<byte>
    requires key.Some? ==> n <= |payload|
  {
    if key.Some? then Mask(payload[..n], key.value) + payload[n..] else payload
  }

  /** What an encoder comes to: a size error, a panic, or the bytes. */
  datatype Encoding = Refused | Panicked | Bytes(bytes: seq<byte>)

  /** The length bytes for any int: a negative one goes into the second byte cut to its low bits. */
  function LengthBits(n: int, mask: bool): seq<byte> {
    if n >= 0 then LengthPart(n, mask) else [if mask then WithTopBit(Low7(n % 256), true) else n % 256]
  }

  /** What becomes of a frame that is encoded for sending. */
  function EncodingOf(f: Frame, mask: bool): Encoding {
    var n := if f.payloadLen < 0 then 0 else f.payloadLen;
    if f.payloadLen > MAX_FRAME_PAYLOAD then Refused
    else if mask && n > |f.payload| then Panicked
    else
      var key := KeyIf(mask, SEND_KEY);
      Bytes([WithTopBit(Low4(f.opcode), f.isFinal)] + LengthBits(f.payloadLen, mask) +
            (KeyPart(key) + PartMasked(f.payload, n, key)))
  }

  /** protocol.EncodeFrameToBufferWithMask: header, key and payload appended to the emptied buffer, then
      the payload masked in place with the key read back from the buffer.  The length announced is
      PayloadLen; with masking, one beyond the payload panics. */
  method EncodeToBuffer(f: Frame, mask: bool) returns (r: Encoding)
    ensures r.Refused? <==> f.payloadLen > MAX_FRAME_PAYLOAD
    ensures r.Panicked? <==> mask && |f.payload| < f.payloadLen <= MAX_FRAME_PAYLOAD
    ensures r == EncodingOf(f, mask)
    ensures f.payloadLen == |f.payload| <= MAX_FRAME_PAYLOAD ==>
      r == Bytes(Encoded(f.isFinal, Low4(f.opcode), KeyIf(mask, SEND_KEY), f.payload))
  {
    if f.payloadLen > MAX_FRAME_PAYLOAD { return Refused; }
    var header := BuildHeader(WithTopBit(Low4(f.opcode), f.isFinal), f.payloadLen, mask);
    var n := if f.payloadLen < 0 then 0 else f.payloadLen;
    if mask && n > |f.payload| { return Panicked; }
    var dst := AppendBody(header, f.payload, n, mask);
    r := Bytes(dst);
    WholeMasked(f.payload, KeyIf(mask, SEND_KEY));
  }

  method AppendBody(header: seq<byte>, payload: seq<byte>, n: nat, mask: bool) returns (dst: seq<byte>)
    requires mask ==> n <= |payload|
    ensures dst == header + (KeyPart(KeyIf(mask, SEND_KEY)) + PartMasked(payload, n, KeyIf(mask, SEND_KEY)))
  {
    dst := header;
    if mask {
      dst := dst + SEND_KEY;
      dst := dst + payload;
      KeyBetween(header, SEND_KEY, payload);
      dst := MaskTail(dst, |header|, SEND_KEY, payload, n);
    } else {
      dst := dst + payload;
    }
  }

  lemma KeyBetween(header: seq<byte>, key: Key, payload: seq<byte>)
    ensures var buf := header + key + payload;
      buf[..|header|] == header && buf[|header|..|header| + 4] == key && buf[|header| + 4..] == payload
  {
  }

  lemma WholeMasked(payload: seq<byte>, key: Option<Key>)
    ensures PartMasked(payload, |payload|, key) == Body(payload, key)
  {
    assert payload[..|payload|] == payload && payload[|payload|..] == [];
  }

  method BuildHeader(b0: byte, plen: int, mask: bool) returns (header: seq<byte>)
    ensures header == [b0] + LengthBits(plen, mask)
  {
    if plen <= 125 {
      var b: byte := plen % 256;
      header := [b0, if mask then WithTopBit(Low7(b), true) else b];
    } else if plen <= 0xFFFF {
      header := [b0, WithTopBit(126, mask)] + Put16(plen);
    } else {
      header := [b0, WithTopBit(127, mask)] + Put64(plen);
    }
  }

  /** The masking loop of the encoder: the key sits at `at`, the payload right after it. */
  method MaskTail(buf: seq<byte>, at: nat, ghost key: Key, ghost payload: seq<byte>, n: nat) returns (dst: seq<byte>)
    requires |buf| == at + 4 + |payload| && buf[at..at + 4] == key && buf[at + 4..] == payload && n <= |payload|
    ensures dst == buf[..at] + (key + (Mask(payload[..n], key) + payload[n..]))
  {
    dst := buf;
    var i, start := 0, at + 4;
    ghost var masked := Mask(payload[..n], key);
    ghost var goal := masked + payload[n..];
    assert forall j :: 0 <= j < |key| ==> key[j] == buf[at + j];
    assert forall j :: 0 <= j < |payload| ==> payload[j] == buf[start + j];
    while i < n
      invariant i <= n && |dst| == |buf|
      invariant forall j :: 0 <= j < start ==> dst[j] == buf[j]
      invariant forall j :: 0 <= j < i ==> dst[start + j] == masked[j]
      invariant forall j :: i <= j < |payload| ==> dst[start + j] == payload[j]
    {
      MaskAt(payload[..n], key, i);
      dst := dst[start + i := XorByte(dst[start + i], dst[at + i % 4])];
      i := i + 1;
    }
    assert forall j :: 0 <= j < |goal| ==> dst[start + j] == goal[j];
    ThreeParts(dst, buf[..at], key, goal);
  }

  lemma ThreeParts(s: seq<byte>, a: seq<byte>, b: seq<byte>, c: seq<byte>)
    requires |s| == |a| + |b| + |c|
    requires forall j :: 0 <= j < |a| ==> s[j] == a[j]
    requires forall j :: 0 <= j < |b| ==> s[|a| + j] == b[j]
    requires forall j :: 0 <= j < |c| ==> s[|a| + |b| + j] == c[j]
    ensures s == a + (b + c)
  {
  }

  lemma Regroup<T>(a: seq<T>, b: seq<T>, c: seq<T>)
    ensures (a + b) + c == a + (b + c)
  {
  }

  /** The first n bytes, with zeros where there are none. */
  function Padded(payload: seq<byte>, n: nat): (r: seq<byte>)
    ensures n == |payload| ==> r == payload
  {
    seq(n, i requires 0 <= i < n => if i < |payload| then payload[i] else 0)
  }

  /** core/protocol EncodeFrameToBytes: always final, never masked, in a buffer of the announced size.  A
      negative size panics, where the buffer is made or where the payload is copied into it. */
  method CoreEncode(f: Frame) returns (r: Encoding)
    ensures r.Refused? <==> f.payloadLen > MAX_FRAME_PAYLOAD
    ensures r.Panicked? <==> f.payloadLen < 0
    ensures r.Bytes? ==>
      r.bytes == Layout(WithTopBit(Low4(f.opcode), true), f.payloadLen, None, Padded(f.payload, f.payloadLen))
  {
    if f.payloadLen > MAX_FRAME_PAYLOAD { return Refused; }
    if f.payloadLen < 0 { return Panicked; }
    var hdr := BuildHeader(WithTopBit(Low4(f.opcode), true), f.payloadLen, false);
    var buf := CopyBoth(hdr, f.payload, f.payloadLen);
    r := Bytes(buf);
    assert buf == hdr + (KeyPart(None) + Padded(f.payload, f.payloadLen));
  }

  method CopyBoth(hdr: seq<byte>, payload: seq<byte>, n: nat) returns (bytes: seq<byte>)
    ensures bytes == hdr + Padded(payload, n)
  {
    var buf := new byte[|hdr| + n](_ => 0);
    CopyInto(buf, 0, hdr);
    CopyInto(buf, |hdr|, payload[..if n < |payload| then n else |payload|]);
    TwoParts(buf[..], hdr, Padded(payload, n));
    bytes := buf[..];
  }

  lemma TwoParts(s: seq<byte>, a: seq<byte>, b: seq<byte>)
    requires |s| == |a| + |b|
    requires forall j :: 0 <= j < |a| ==> s[j] == a[j]
    requires forall j :: 0 <= j < |b| ==> s[|a| + j] == b[j]
    ensures s == a + b
  {
  }

  method CopyInto(dst: array<byte>, at: nat, src: seq<byte>)
    requires at + |src| <= dst.Length
    modifies dst
    ensures dst[at..at + |src|] == src && forall j :: 0 <= j < |src| ==> dst[at + j] == src[j]
    ensures forall j :: 0 <= j < dst.Length && !(at <= j < at + |src|) ==> dst[j] == old(dst[j])
    ensures Elsewhere(old(dst[..]), dst[..], at, at + |src|)
  {
    var i := 0;
    while i < |src|
      invariant i <= |src|
      invariant forall j :: 0 <= j < i ==> dst[at + j] == src[j]
      invariant forall j :: 0 <= j < dst.Length && !(at <= j < at + i) ==> dst[j] == old(dst[j])
    {
      dst[at + i] := src[i];
      i := i + 1;
    }
  }

  /** With masking the caller's payload is left masked. */
  method MaskIf(payload: array<byte>, mask: bool)
    modifies payload
    ensures payload[..] == Body(old(payload[..]), KeyIf(mask, STREAM_KEY))
  {
    if mask {
      UnmaskInPlace(payload, 0, payload.Length, STREAM_KEY);
      assert payload[0..payload.Length] == payload[..] && old(payload[0..payload.Length]) == old(payload[..]);
    }
  }

  /** `bytes` at the front of the buffer, as much of them as fits. */
  ghost predicate FrontIs(dst: seq<byte>, was: seq<byte>, bytes: seq<byte>) {
    && |dst| == |was|
    && (|bytes| <= |dst| ==> dst[..|bytes|] == bytes && dst[|bytes|..] == was[|bytes|..])
    && (|bytes| > |dst| ==> dst == bytes[..|dst|])
  }

  /** Header, key and payload behind each other; None is the panic of a key that does not fit. */
  method WriteFrame(dst: array<byte>, hdr: seq<byte>, payload: array<byte>, mask: bool) returns (r: Option<nat>)
    requires dst != payload && |hdr| <= dst.Length
    modifies dst, payload
    ensures payload[..] == Body(old(payload[..]), KeyIf(mask, STREAM_KEY))
    ensures r.None? <==> |hdr| + |KeyPart(KeyIf(mask, STREAM_KEY))| > dst.Length
    ensures r.Some? ==>
      var bytes := hdr + KeyPart(KeyIf(mask, STREAM_KEY)) + payload[..]; r.value == |bytes| && FrontIs(dst[..], old(dst[..]), bytes)
  {
    var offset := WriteHeader(dst, hdr, mask);
    MaskIf(payload, mask);
    if offset > dst.Length { return None; }
    assert dst[offset..] == old(dst[offset..]);
    CopyFitting(dst, offset, payload);
    r := Some(offset + payload.Length);
    assert offset + payload.Length <= dst.Length ==>
      old(dst[offset + payload.Length..]) == old(dst[offset..])[payload.Length..];
  }

  /** protocol.EncodeFrame: writes a final frame at the front of the caller's buffer, as much of it as fits
      after the header, and returns the full length.  A buffer too small for header and key panics.  With
      masking it leaves the caller's payload masked, and on a panic too if the header alone had fitted. */
  method StreamEncode(dst: array<byte>, opcode: byte, payload: array<byte>, mask: bool) returns (r: Option<nat>)
    requires dst != payload
    modifies dst, payload
    ensures var b0, key, header := WithTopBit(Low7(opcode), true), KeyIf(mask, STREAM_KEY), 1 + |LengthPart(payload.Length, mask)|;
      && (r.None? <==> header + |KeyPart(key)| > dst.Length)
      && payload[..] == (if header <= dst.Length then Body(old(payload[..]), key) else old(payload[..]))
      && (r.Some? ==>
        var bytes := Layout(b0, payload.Length, key, payload[..]);
        r.value == |bytes| && FrontIs(dst[..], old(dst[..]), bytes))
  {
    var b0: byte := WithTopBit(Low7(opcode), true);
    var hdr := BuildHeader(b0, payload.Length, mask);
    if |hdr| > dst.Length {
      CopyInto(dst, 0, hdr[..if dst.Length < 2 then dst.Length else 2]);
      return None;
    }
    r := WriteFrame(dst, hdr, payload, mask);
    LayoutFront(b0, payload.Length, KeyIf(mask, STREAM_KEY), payload[..]);
  }

  /** As much of the payload as fits after the first `offset` bytes. */
  method CopyFitting(dst: array<byte>, offset: nat, payload: array<byte>)
    requires dst != payload && offset <= dst.Length
    modifies dst
    ensures var n, bytes := offset + payload.Length, old(dst[..offset]) + payload[..];
      && (n <= dst.Length ==> dst[..n] == bytes && dst[n..] == old(dst[n..]))
      && (n > dst.Length ==> dst[..] == bytes[..dst.Length])
  {
    var m := if payload.Length <= dst.Length - offset then payload.Length else dst.Length - offset;
    CopyInto(dst, offset, payload[..m]);
    assert dst[..offset + m] == old(dst[..offset]) + payload[..m];
    FrontOf(old(dst[..offset]), payload[..], m);
  }

  lemma FrontOf(a: seq<byte>, b: seq<byte>, m: nat)
    requires m <= |b|
    ensures (a + b)[..|a| + m] == a + b[..m]
  {
  }

  lemma LayoutFront(b0: byte, n: nat, key: Option<Key>, body: seq<byte>)
    ensures [b0] + LengthPart(n, key.Some?) + KeyPart(key) + body == Layout(b0, n, key, body)
  {
  }

  /** The header, then as much of the key as fits; the offset moves on by all of it. */
  method WriteHeader(dst: array<byte>, hdr: seq<byte>, mask: bool) returns (offset: nat)
    requires |hdr| <= dst.Length
    modifies dst
    ensures offset == |hdr| + |KeyPart(KeyIf(mask, STREAM_KEY))|
    ensures offset <= dst.Length ==> dst[..offset] == hdr + KeyPart(KeyIf(mask, STREAM_KEY))
    ensures forall j :: offset <= j < dst.Length ==> dst[j] == old(dst[j])
  {
    CopyInto(dst, 0, hdr);
    offset := |hdr|;
    if mask {
      CopyInto(dst, offset, STREAM_KEY[..if dst.Length - offset < 4 then dst.Length - offset else 4]);
      offset := offset + 4;
    }
  }

  method StreamBytes(opcode: byte, payload: seq<byte>) returns (bytes: seq<byte>)
    ensures bytes == Layout(WithTopBit(Low7(opcode), true), |payload|, None, payload)
  {
    var p := new byte[|payload|](i requires 0 <= i < |payload| => payload[i]);
    assert p[..] == payload;
    var dst := new byte[10 + |payload|];
    var n := StreamEncode(dst, opcode, p, false);
    bytes := dst[..n.value];
  }

  /** The three encoders write the same bytes for a final unmasked frame. */
  method EncodersAgree(f: Frame) returns (a: seq<byte>, b: seq<byte>, c: seq<byte>)
    requires f.isFinal && f.opcode < 16 && f.payloadLen == |f.payload| <= MAX_FRAME_PAYLOAD
    ensures a == b == c == Encoded(true, f.opcode, None, f.payload)
  {
    var r := EncodeToBuffer(f, false);
    a := r.bytes;
    r := CoreEncode(f);
    b := r.bytes;
    c := StreamBytes(f.opcode, f.payload);
  }
}
