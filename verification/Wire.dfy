/** The WebSocket frame layout of section 5.2 of RFC 6455 as this library reads and writes it. */
module Wire {
  import opened Bits
  import opened Options

  type byte = x: int | 0 <= x < 256
  type Key = k: seq<byte> | |k| == 4 witness [0, 0, 0, 0]

  const MAX_FRAME_PAYLOAD: nat := 0x10_0000
  const NO_KEY: Key := [0, 0, 0, 0]

  /** WSFrame, without the pooled buffer. */
  datatype Frame = Frame(isFinal: bool, opcode: byte, masked: bool, payloadLen: int, maskKey: Key, payload: seq<byte>)

  // ---- bytes -------------------------------------------------------------------------------

  /** `b & 0x0F`, `b & 0x7F`, `b & 0x80 != 0` and `b | 0x80`, as arithmetic: see `ByteFields`. */
  function Low4(b: byte): byte { b % 16 }

  function Low7(b: byte): byte { b % 128 }

  predicate TopBit(b: byte) { b >= 128 }

  function WithTopBit(b: byte, top: bool): byte
    requires b < 128
  {
    if top then b + 128 else b
  }

  lemma LowBits(b: byte)
    ensures And(b, 0x0F) == Low4(b)
  {
    assert Pow2(4) == 16;
    MaskIsMod(b, 4);
  }

  lemma LengthBits(b: byte)
    ensures And(b, 0x7F) == Low7(b)
  {
    assert Pow2(7) == 128;
    MaskIsMod(b, 7);
  }

  lemma TopBitSet(b: byte)
    ensures And(b, 0x80) != 0 <==> TopBit(b)
  {
    assert Pow2(7) == 128;
    AndPow2(b, 7);
    SeventhBit(b);
  }

  lemma SeventhBit(b: byte)
    ensures Bit(b, 7) != 0 <==> TopBit(b)
  {
    var c := b / 2 / 2 / 2;
    assert Bit(b, 7) == Bit(b / 2, 6) == Bit(b / 2 / 2, 5) == Bit(c, 4);
    assert Bit(c, 4) == Bit(c / 2, 3) == Bit(c / 2 / 2, 2) == Bit(c / 2 / 2 / 2, 1);
  }

  lemma SetTopBit(b: byte)
    ensures Or(0x80, b) == WithTopBit(Low7(b), true)
  {
    var x := b % 128;
    assert Pow2(7) == 128 && (b == x || b == 128 + x);
    OrEither(x, 7);
  }

  lemma ByteFields(b: byte)
    ensures And(b, 0x0F) == Low4(b) && And(b, 0x7F) == Low7(b)
    ensures And(b, 0x80) != 0 <==> TopBit(b)
    ensures Or(0x80, b) == WithTopBit(Low7(b), true)
  {
    LowBits(b);
    LengthBits(b);
    TopBitSet(b);
    SetTopBit(b);
  }

  function XorByte(a: byte, b: byte): byte {
    assert Pow2(8) == 256;
    XorBound(a, b, 8);
    Xor(a, b)
  }

  /** The XOR of section 5.3 of RFC 6455. */
  function Mask(p: seq<byte>, key: Key): (r: seq<byte>)
    ensures |r| == |p|
  {
    seq(|p|, i requires 0 <= i < |p| => XorByte(p[i], key[i % 4]))
  }

  lemma MaskTwice(p: seq<byte>, key: Key)
    ensures Mask(Mask(p, key), key) == p
  {
    forall i | 0 <= i < |p| ensures Mask(Mask(p, key), key)[i] == p[i] { XorCancels(p[i], key[i % 4]); }
  }

  /** Every bit of a masked byte is that of the payload, flipped exactly where the key has a one. */
  lemma MaskFlips(p: seq<byte>, key: Key, i: nat, b: nat)
    requires i < |p|
    ensures Bit(Mask(p, key)[i], b) == if Bit(key[i % 4], b) == 1 then 1 - Bit(p[i], b) else Bit(p[i], b)
  {
    BitOfXor(p[i], key[i % 4], b);
  }

  /** Big-endian words of two and eight bytes, read at an index of raw. */
  function Read16(raw: seq<byte>, i: nat): (v: nat)
    requires i + 2 <= |raw|
  {
    256 * (raw[i] as int) + raw[i + 1]
  }

  function Read64(raw: seq<byte>, i: nat): (v: nat)
    requires i + 8 <= |raw|
  {
    0x1_0000 * (0x1_0000 * (0x1_0000 * Read16(raw, i) + Read16(raw, i + 2)) + Read16(raw, i + 4)) + Read16(raw, i + 6)
  }

  function Put16(v: nat): (s: seq<byte>)
    ensures |s| == 2
  {
    [v / 0x100 % 0x100, v % 0x100]
  }

  function Put64(v: nat): (s: seq<byte>)
    ensures |s| == 8
  {
    var a, b, c := v / 0x1_0000, v / 0x1_0000 / 0x1_0000, v / 0x1_0000 / 0x1_0000 / 0x1_0000;
    [c / 0x100 % 0x100, c % 0x100, b / 0x100 % 0x100, b % 0x100, a / 0x100 % 0x100, a % 0x100, v / 0x100 % 0x100, v % 0x100]
  }

  /** A uint64 converted to int64. */
  function Int64(v: nat): int {
    if v < 0x8000_0000_0000_0000 then v else v - 0x1_0000_0000_0000_0000
  }

  // ---- the decoder -------------------------------------------------------------------------

  /** What the header of a byte string says; `length` is negative when the 64-bit length field has its
      top bit set. */
  datatype Header =
    | Short
    | TooBig
    | Header(isFinal: bool, opcode: byte, masked: bool, length: int, maskKey: Key, offset: nat)

  function LengthBytes(len7: byte): nat {
    if len7 == 126 then 2 else if len7 == 127 then 8 else 0
  }

  function LengthField(raw: seq<byte>): (length: int)
    requires |raw| >= 2 && |raw| >= 2 + LengthBytes(Low7(raw[1]))
  {
    var len7 := Low7(raw[1]);
    if len7 == 126 then Read16(raw, 2) else if len7 == 127 then Int64(Read64(raw, 2)) else len7
  }

  function KeyAt(raw: seq<byte>, i: nat): Key
    requires i + 4 <= |raw|
  {
    [raw[i], raw[i + 1], raw[i + 2], raw[i + 3]]
  }

  function ParseHeader(raw: seq<byte>): (h: Header)
    ensures h.Header? ==> 2 <= h.offset <= |raw| && h.length <= MAX_FRAME_PAYLOAD
  {
    if |raw| < 2 then Short else
    var start := 2 + LengthBytes(Low7(raw[1]));
    if |raw| < start then Short else
    var length := LengthField(raw);
    if length > MAX_FRAME_PAYLOAD then TooBig else
    if TopBit(raw[1]) then
      if |raw| < start + 4 then Short
      else Header(TopBit(raw[0]), Low4(raw[0]), true, length, KeyAt(raw, start), start + 4)
    else Header(TopBit(raw[0]), Low4(raw[0]), false, length, NO_KEY, start)
  }

  /** The answers of protocol.DecodeFrameFromBytes.  With a negative length the source slices
      raw[offset:offset+length], which panics. */
  datatype Decoding = Incomplete | Oversize | Panic | Decoded(frame: Frame, consumed: nat)

  function FrameOf(h: Header, body: seq<byte>): Frame
    requires h.Header?
  {
    Frame(h.isFinal, h.opcode, h.masked, h.length, h.maskKey, if h.masked then Mask(body, h.maskKey) else body)
  }

  function Decode(raw: seq<byte>): (d: Decoding)
    ensures d.Decoded? ==> 2 <= d.consumed <= |raw| && d.frame.payloadLen == |d.frame.payload| <= MAX_FRAME_PAYLOAD
  {
    var h := ParseHeader(raw);
    if h.Short? then Incomplete else if h.TooBig? then Oversize
    else if h.length < 0 then Panic
    else if |raw| < h.offset + h.length then Incomplete
    else Decoded(FrameOf(h, raw[h.offset..h.offset + h.length]), h.offset + h.length)
  }

  // ---- when it errs or panics ----------------------------------------------------------------

  lemma LongLength(raw: seq<byte>)
    requires |raw| >= 10
    ensures Int64(Read64(raw, 2)) < 0 <==> raw[2] >= 0x80
    ensures raw[2] < 0x80 ==> Int64(Read64(raw, 2)) == Read64(raw, 2)
  {
    var a, b, c, d := Read16(raw, 2), Read16(raw, 4), Read16(raw, 6), Read16(raw, 8);
    assert 0x8000 <= a <==> raw[2] >= 0x80;
  }

  /** The length is announced in eight bytes, and they are all there. */
  predicate InEightBytes(raw: seq<byte>) {
    |raw| >= 10 && Low7(raw[1]) == 127
  }

  /** The decoder errs exactly on a whole length field of eight bytes whose number is below 2^63 and above the
      limit, and panics exactly on one with its top bit set, once the mask key is there if there is one. */
  lemma DecodeFailsIff(raw: seq<byte>)
    ensures Decode(raw).Oversize? <==> InEightBytes(raw) && raw[2] < 0x80 && Read64(raw, 2) > 0x10_0000
    ensures Decode(raw).Panic? <==> InEightBytes(raw) && raw[2] >= 0x80 && (TopBit(raw[1]) ==> |raw| >= 14)
  {
    if InEightBytes(raw) { LongLength(raw); }
  }

  /** Ten bytes that make it panic. */
  lemma NegativeLengthPanics()
    ensures Decode([0x82, 0x7F, 0x80, 0, 0, 0, 0, 0, 0, 0]) == Panic
  {
    DecodeFailsIff([0x82, 0x7F, 0x80, 0, 0, 0, 0, 0, 0, 0]);
  }

  // ---- prefix-freedom ----------------------------------------------------------------------

  lemma LengthStable(raw: seq<byte>, more: seq<byte>)
    requires |raw| >= 2 && |raw| >= 2 + LengthBytes(Low7(raw[1]))
    ensures (raw + more)[0] == raw[0] && (raw + more)[1] == raw[1] && LengthField(raw + more) == LengthField(raw)
  {
    assert forall i :: 0 <= i < |raw| ==> (raw + more)[i] == raw[i];
  }

  lemma KeyStable(raw: seq<byte>, more: seq<byte>, i: nat)
    requires i + 4 <= |raw|
    ensures KeyAt(raw + more, i) == KeyAt(raw, i)
  {
  }

  lemma HeaderStable(raw: seq<byte>, more: seq<byte>)
    requires !ParseHeader(raw).Short?
    ensures ParseHeader(raw + more) == ParseHeader(raw)
  {
    LengthStable(raw, more);
    var start := 2 + LengthBytes(Low7(raw[1]));
    if start + 4 <= |raw| { KeyStable(raw, more, start); }
  }

  lemma SliceStable(s: seq<byte>, more: seq<byte>, i: nat, j: nat)
    requires i <= j <= |s|
    ensures (s + more)[i..j] == s[i..j]
  {
  }

  lemma BodyStable(raw: seq<byte>, more: seq<byte>, h: Header)
    requires h.Header? && 0 <= h.length && h.offset + h.length <= |raw|
    ensures FrameOf(h, (raw + more)[h.offset..h.offset + h.length]) == FrameOf(h, raw[h.offset..h.offset + h.length])
  {
    SliceStable(raw, more, h.offset, h.offset + h.length);
  }

  /** Any answer other than "incomplete" survives every extension of the input. */
  lemma DecodeStable(raw: seq<byte>, more: seq<byte>)
    requires !Decode(raw).Incomplete?
    ensures Decode(raw + more) == Decode(raw)
  {
    HeaderStable(raw, more);
    var h := ParseHeader(raw);
    if h.Header? && h.length >= 0 { BodyStable(raw, more, h); }
  }

  /** No proper prefix of a frame decodes to anything. */
  lemma DecodePrefixFree(raw: seq<byte>, k: nat)
    requires Decode(raw).Decoded? && k < Decode(raw).consumed
    ensures Decode(raw[..k]) == Incomplete
  {
    var front := raw[..k];
    if !ParseHeader(front).Short? {
      assert raw == front + raw[k..];
      HeaderStable(front, raw[k..]);
    }
  }

  // ---- the encoder's bytes and the round trip ------------------------------------------------

  /** The second byte and the extended length. */
  function LengthPart(n: nat, masked: bool): (s: seq<byte>) {
    if n <= 125 then [WithTopBit(n, masked)]
    else if n <= 0xFFFF then [WithTopBit(126, masked)] + Put16(n)
    else [WithTopBit(127, masked)] + Put64(n)
  }

  function KeyPart(key: Option<Key>): seq<byte> {
    if key.Some? then key.value else []
  }

  function Body(payload: seq<byte>, key: Option<Key>): seq<byte> {
    if key.Some? then Mask(payload, key.value) else payload
  }

  function Layout(b0: byte, n: nat, key: Option<Key>, body: seq<byte>): (s: seq<byte>)
    ensures |s| >= 2
  {
    [b0] + LengthPart(n, key.Some?) + (KeyPart(key) + body)
  }

  /** The reference encoding: one frame with the shortest length form. */
  function Encoded(isFinal: bool, opcode: byte, key: Option<Key>, payload: seq<byte>): (s: seq<byte>)
    requires opcode < 16
    ensures |s| >= 2
  {
    Layout(WithTopBit(opcode, isFinal), |payload|, key, Body(payload, key))
  }

  function KeyOf(key: Option<Key>): Key {
    if key.Some? then key.value else NO_KEY
  }

  lemma Join16(v: nat)
    ensures 0x100 * (v / 0x100 % 0x100) + v % 0x100 == v % 0x1_0000
  {
  }

  lemma JoinSplit(v: nat, s: seq<byte>)
    requires v < 0x1_0000_0000_0000_0000 && s == Put64(v)
    ensures Read64(s, 0) == v
  {
    var a := v / 0x1_0000;
    var b := a / 0x1_0000;
    var c := b / 0x1_0000;
    Join16(v);
    Join16(a);
    Join16(b);
    Join16(c);
    assert c < 0x1_0000 && c % 0x1_0000 == c;
  }

  lemma Read64At(raw: seq<byte>, i: nat)
    requires i + 8 <= |raw|
    ensures Read64(raw[i..i + 8], 0) == Read64(raw, i)
  {
  }

  /** `raw` starts with b0 and the length part of n. */
  ghost predicate HasLength(raw: seq<byte>, n: nat, masked: bool) {
    |raw| >= 2 && |raw| >= 2 + LengthBytes(Low7(raw[1]))
    && TopBit(raw[1]) == masked
    && 2 + LengthBytes(Low7(raw[1])) == 1 + |LengthPart(n, masked)|
    && LengthField(raw) == n
  }

  lemma ParseLongLength(raw: seq<byte>, n: nat, masked: bool)
    requires 0xFFFF < n <= MAX_FRAME_PAYLOAD && |raw| >= 10
    requires raw[1] == WithTopBit(127, masked) && raw[2..10] == Put64(n)
    ensures HasLength(raw, n, masked)
  {
    JoinSplit(n, raw[2..10]);
    Read64At(raw, 2);
  }

  lemma ParseLength(b0: byte, n: nat, masked: bool, rest: seq<byte>)
    requires n <= MAX_FRAME_PAYLOAD
    ensures HasLength([b0] + LengthPart(n, masked) + rest, n, masked)
  {
    var raw := [b0] + LengthPart(n, masked) + rest;
    if n > 0xFFFF {
      assert raw[2..10] == Put64(n);
      ParseLongLength(raw, n, masked);
    } else if n > 125 {
      assert raw[2] == Put16(n)[0] && raw[3] == Put16(n)[1];
    }
  }

  ghost function HeaderFor(isFinal: bool, opcode: byte, key: Option<Key>, n: nat): Header {
    Header(isFinal, opcode, key.Some?, n, KeyOf(key), 1 + |LengthPart(n, key.Some?)| + |KeyPart(key)|)
  }

  /** The header of any bytes laid out as first byte, length, key and body. */
  lemma ParsePieces(b0: byte, n: nat, key: Option<Key>, body: seq<byte>)
    requires n <= MAX_FRAME_PAYLOAD
    ensures ParseHeader(Layout(b0, n, key, body)) == HeaderFor(TopBit(b0), Low4(b0), key, n)
  {
    var len := LengthPart(n, key.Some?);
    var raw := Layout(b0, n, key, body);
    ParseLength(b0, n, key.Some?, KeyPart(key) + body);
    assert raw[0] == b0;
    assert key.Some? ==> KeyAt(raw, 1 + |len|) == key.value;
  }

  /** What the decoder reports for an encoded frame. */
  ghost function Received(isFinal: bool, opcode: byte, key: Option<Key>, payload: seq<byte>): Frame {
    Frame(isFinal, opcode, key.Some?, |payload|, KeyOf(key), payload)
  }

  lemma BodyEncoded(isFinal: bool, opcode: byte, key: Option<Key>, payload: seq<byte>)
    requires opcode < 16
    ensures var s, h := Encoded(isFinal, opcode, key, payload), HeaderFor(isFinal, opcode, key, |payload|);
            && |s| == h.offset + h.length && s[h.offset..] == Body(payload, key)
            && FrameOf(h, s[h.offset..]) == Received(isFinal, opcode, key, payload)
  {
    if key.Some? { MaskTwice(payload, key.value); }
  }

  lemma DecodePieces(s: seq<byte>, h: Header, f: Frame)
    requires ParseHeader(s) == h && h.Header? && 0 <= h.length && |s| == h.offset + h.length
    requires FrameOf(h, s[h.offset..]) == f
    ensures Decode(s) == Decoded(f, |s|)
  {
    assert s[h.offset..h.offset + h.length] == s[h.offset..];
  }

  lemma FirstByte(opcode: byte, isFinal: bool)
    requires opcode < 16
    ensures TopBit(WithTopBit(opcode, isFinal)) == isFinal && Low4(WithTopBit(opcode, isFinal)) == opcode
  {
  }

  /** Decoding what was encoded, whatever follows it on the stream, gives the frame back and consumes
      exactly its bytes. */
  lemma RoundTrip(isFinal: bool, opcode: byte, key: Option<Key>, payload: seq<byte>, more: seq<byte>)
    requires opcode < 16 && |payload| <= MAX_FRAME_PAYLOAD
    ensures var s := Encoded(isFinal, opcode, key, payload);
            Decode(s + more) == Decoded(Received(isFinal, opcode, key, payload), |s|)
  {
    var s, h := Encoded(isFinal, opcode, key, payload), HeaderFor(isFinal, opcode, key, |payload|);
    FirstByte(opcode, isFinal);
    ParsePieces(WithTopBit(opcode, isFinal), |payload|, key, Body(payload, key));
    BodyEncoded(isFinal, opcode, key, payload);
    DecodePieces(s, h, Received(isFinal, opcode, key, payload));
    DecodeStable(s, more);
  }

  // ---- the encodings the decoder identifies --------------------------------------------------

  /** The length was written in its shortest form. */
  ghost predicate ShortestLength(raw: seq<byte>)
    requires |raw| >= 2 && |raw| >= 2 + LengthBytes(Low7(raw[1]))
  {
    && (Low7(raw[1]) == 126 ==> LengthField(raw) > 125)
    && (Low7(raw[1]) == 127 ==> LengthField(raw) > 0xFFFF)
  }

  function KeyIn(f: Frame): Option<Key> {
    if f.masked then Some(f.maskKey) else None
  }

  lemma Split16(hi: nat, lo: nat)
    requires lo < 0x1_0000
    ensures (0x1_0000 * hi + lo) / 0x1_0000 == hi && (0x1_0000 * hi + lo) % 0x1_0000 == lo
  {
  }

  /** Two bytes written from a word that ends in their big-endian value. */
  lemma PutRead16(raw: seq<byte>, i: nat, hi: nat)
    requires i + 2 <= |raw|
    ensures var v := 0x1_0000 * hi + Read16(raw, i); v / 0x100 % 0x100 == raw[i] && v % 0x100 == raw[i + 1]
  {
    var v := 0x1_0000 * hi + Read16(raw, i);
    assert v == 0x100 * (0x100 * hi + raw[i]) + raw[i + 1];
  }

  lemma PutRead64(raw: seq<byte>, i: nat)
    requires i + 8 <= |raw|
    ensures Put64(Read64(raw, i)) == raw[i..i + 8]
  {
    var c := Read16(raw, i);
    var b := 0x1_0000 * c + Read16(raw, i + 2);
    var a := 0x1_0000 * b + Read16(raw, i + 4);
    PutRead16(raw, i, 0);
    PutRead16(raw, i + 2, c);
    PutRead16(raw, i + 4, b);
    PutRead16(raw, i + 6, a);
    Split16(c, Read16(raw, i + 2));
    Split16(b, Read16(raw, i + 4));
    Split16(a, Read16(raw, i + 6));
  }

  lemma ShortPartExact(raw: seq<byte>)
    requires |raw| >= 2 && Low7(raw[1]) < 126
    ensures LengthPart(LengthField(raw), TopBit(raw[1])) == raw[1..2] && ShortestLength(raw)
  {
  }

  lemma MiddlePartExact(raw: seq<byte>)
    requires |raw| >= 4 && Low7(raw[1]) == 126
    ensures LengthPart(LengthField(raw), TopBit(raw[1])) == raw[1..4] <==> ShortestLength(raw)
  {
    PutRead16(raw, 2, 0);
    assert Put16(LengthField(raw)) == raw[2..4];
    assert raw[1..4] == [raw[1]] + raw[2..4];
  }

  lemma LongForm(n: nat, top: bool)
    ensures n > 0xFFFF ==> LengthPart(n, top) == [WithTopBit(127, top)] + Put64(n)
    ensures n <= 0xFFFF ==> |LengthPart(n, top)| < 9
  {
  }

  lemma FirstPlusEight(b: byte, eight: seq<byte>, raw: seq<byte>)
    requires |raw| >= 10 && raw[1] == b && eight == raw[2..10]
    ensures [b] + eight == raw[1..10]
  {
  }

  lemma LongPart(n: nat, top: bool, raw: seq<byte>)
    requires |raw| >= 10 && raw[1] == WithTopBit(127, top) && (n > 0xFFFF ==> Put64(n) == raw[2..10])
    ensures LengthPart(n, top) == raw[1..10] <==> n > 0xFFFF
  {
    LongForm(n, top);
    if n > 0xFFFF { FirstPlusEight(WithTopBit(127, top), Put64(n), raw); } else { assert |raw[1..10]| == 9; }
  }

  lemma LongValue(raw: seq<byte>)
    requires |raw| >= 10 && Low7(raw[1]) == 127 && 0 <= LengthField(raw)
    ensures Put64(LengthField(raw)) == raw[2..10] && raw[1] == WithTopBit(127, TopBit(raw[1]))
  {
    PutRead64(raw, 2);
    assert LengthField(raw) == Read64(raw, 2);
  }

  lemma LongPartExact(raw: seq<byte>)
    requires |raw| >= 10 && Low7(raw[1]) == 127 && 0 <= LengthField(raw)
    ensures LengthPart(LengthField(raw), TopBit(raw[1])) == raw[1..10] <==> ShortestLength(raw)
  {
    LongValue(raw);
    LongPart(LengthField(raw), TopBit(raw[1]), raw);
  }

  lemma LengthPartExact(raw: seq<byte>)
    requires |raw| >= 2 && |raw| >= 2 + LengthBytes(Low7(raw[1])) && 0 <= LengthField(raw)
    ensures LengthPart(LengthField(raw), TopBit(raw[1])) == raw[1..2 + LengthBytes(Low7(raw[1]))]
            <==> ShortestLength(raw)
  {
    if Low7(raw[1]) == 127 {
      LongPartExact(raw);
    } else if Low7(raw[1]) == 126 {
      MiddlePartExact(raw);
    } else {
      ShortPartExact(raw);
    }
  }

  lemma SameTail(a: byte, x: seq<byte>, b: byte, y: seq<byte>, tail: seq<byte>)
    ensures [a] + x + tail == [b] + y + tail <==> a == b && x == y
  {
    var s, t := [a] + x + tail, [b] + y + tail;
    if s == t {
      assert s[0] == a && t[0] == b && s[1..1 + |x|] == x && t[1..1 + |y|] == y;
    }
  }

  lemma KeyIsSlice(raw: seq<byte>, i: nat)
    requires i + 4 <= |raw|
    ensures KeyAt(raw, i) == raw[i..i + 4]
  {
  }

  /** Key and body of a decoded frame, laid out again. */
  lemma DecodedParts(raw: seq<byte>, h: Header, f: Frame)
    requires ParseHeader(raw) == h && h.Header? && 0 <= h.length && h.offset + h.length <= |raw|
    requires f == FrameOf(h, raw[h.offset..h.offset + h.length])
    ensures |raw| >= 2 && var start := 2 + LengthBytes(Low7(raw[1]));
      && start <= h.offset && KeyPart(KeyIn(f)) == raw[start..h.offset]
      && Body(f.payload, KeyIn(f)) == raw[h.offset..h.offset + h.length]
  {
    if h.masked {
      KeyIsSlice(raw, h.offset - 4);
      MaskTwice(raw[h.offset..h.offset + h.length], h.maskKey);
    }
  }

  lemma JoinPieces(raw: seq<byte>, i: nat, j: nat, k: nat, x: seq<byte>, y: seq<byte>)
    requires 1 <= i <= j <= k <= |raw| && x == raw[i..j] && y == raw[j..k]
    ensures x + y == raw[i..k] && raw[..k] == [raw[0]] + raw[1..i] + raw[i..k]
  {
  }

  /** The pieces of a decoded frame's bytes, and of its re-encoding. */
  lemma DecodedPieces(raw: seq<byte>)
    requires Decode(raw).Decoded?
    ensures var d, start := Decode(raw), 2 + LengthBytes(Low7(raw[1]));
      && raw[..d.consumed] == [raw[0]] + raw[1..start] + raw[start..d.consumed]
      && KeyPart(KeyIn(d.frame)) + Body(d.frame.payload, KeyIn(d.frame)) == raw[start..d.consumed]
  {
    var d, h := Decode(raw), ParseHeader(raw);
    var f, start := d.frame, 2 + LengthBytes(Low7(raw[1]));
    DecodedParts(raw, h, f);
    JoinPieces(raw, start, h.offset, d.consumed, KeyPart(KeyIn(f)), Body(f.payload, KeyIn(f)));
  }

  lemma ReencodePieces(raw: seq<byte>)
    requires Decode(raw).Decoded?
    ensures var d, h, start := Decode(raw), ParseHeader(raw), 2 + LengthBytes(Low7(raw[1]));
      Encoded(d.frame.isFinal, d.frame.opcode, KeyIn(d.frame), d.frame.payload) ==
      [WithTopBit(Low4(raw[0]), TopBit(raw[0]))] + LengthPart(h.length, h.masked) + raw[start..d.consumed]
  {
    DecodedPieces(raw);
    var d, h := Decode(raw), ParseHeader(raw);
    assert d.frame.isFinal == TopBit(raw[0]) && d.frame.opcode == Low4(raw[0]) && |d.frame.payload| == h.length;
    assert KeyIn(d.frame).Some? == h.masked;
  }

  lemma ReservedClear(b: byte)
    ensures WithTopBit(Low4(b), TopBit(b)) == b <==> b % 128 < 16
  {
  }

  lemma ReencodeParts(raw: seq<byte>)
    requires Decode(raw).Decoded?
    ensures var d, h, start := Decode(raw), ParseHeader(raw), 2 + LengthBytes(Low7(raw[1]));
            Encoded(d.frame.isFinal, d.frame.opcode, KeyIn(d.frame), d.frame.payload) == raw[..d.consumed]
            <==> WithTopBit(Low4(raw[0]), TopBit(raw[0])) == raw[0] && LengthPart(h.length, h.masked) == raw[1..start]
  {
    var consumed, h, start := Decode(raw).consumed, ParseHeader(raw), 2 + LengthBytes(Low7(raw[1]));
    DecodedPieces(raw);
    ReencodePieces(raw);
    SameTail(WithTopBit(Low4(raw[0]), TopBit(raw[0])), LengthPart(h.length, h.masked),
             raw[0], raw[1..start], raw[start..consumed]);
  }

  /** Laying a decoded frame out again under its own key gives back exactly the bytes it came from, if and
      only if the three reserved bits were clear and the length was in its shortest form. */
  lemma ReencodeExact(raw: seq<byte>)
    requires Decode(raw).Decoded?
    ensures var d := Decode(raw);
            Encoded(d.frame.isFinal, d.frame.opcode, KeyIn(d.frame), d.frame.payload) == raw[..d.consumed]
            <==> raw[0] % 128 < 16 && ShortestLength(raw)
  {
    ReencodeParts(raw);
    LengthPartExact(raw);
    ReservedClear(raw[0]);
  }

  // ---- the examples of section 5.7 of RFC 6455 ---------------------------------------------------------

  const HELLO: seq<byte> := [0x48, 0x65, 0x6C, 0x6C, 0x6F]
  const HELLO_KEY: Key := [0x37, 0xFA, 0x21, 0x3D]
  const HELLO_MASKED: seq<byte> := [0x7F, 0x9F, 0x4D, 0x51, 0x58]

  lemma XorOfBytes(x: byte, a: seq<nat>, y: byte, b: seq<nat>, z: byte, c: seq<nat>)
    requires |a| == |b| == |c| == 8 && AreBits(a) && AreBits(b)
    requires forall i :: 0 <= i < 8 ==> c[i] == if a[i] == b[i] then 0 else 1
    requires x == 128 * a[0] + 64 * a[1] + 32 * a[2] + 16 * a[3] + 8 * a[4] + 4 * a[5] + 2 * a[6] + a[7]
    requires y == 128 * b[0] + 64 * b[1] + 32 * b[2] + 16 * b[3] + 8 * b[4] + 4 * b[5] + 2 * b[6] + b[7]
    requires z == 128 * c[0] + 64 * c[1] + 32 * c[2] + 16 * c[3] + 8 * c[4] + 4 * c[5] + 2 * c[6] + c[7]
    ensures Xor(x, y) == z
  {
    NumberOfEight(a);
    NumberOfEight(b);
    NumberOfEight(c);
    XorOfNumbers(a, b, c);
  }

  lemma FirstXors(p: seq<byte>, key: Key, m: seq<byte>)
    requires p == HELLO && key == HELLO_KEY && m == HELLO_MASKED
    ensures Xor(p[0], key[0]) == m[0] && Xor(p[1], key[1]) == m[1]
  {
    XorOfBytes(p[0], [0, 1, 0, 0, 1, 0, 0, 0], key[0], [0, 0, 1, 1, 0, 1, 1, 1], m[0], [0, 1, 1, 1, 1, 1, 1, 1]);
    XorOfBytes(p[1], [0, 1, 1, 0, 0, 1, 0, 1], key[1], [1, 1, 1, 1, 1, 0, 1, 0], m[1], [1, 0, 0, 1, 1, 1, 1, 1]);
  }

  lemma MiddleXors(p: seq<byte>, key: Key, m: seq<byte>)
    requires p == HELLO && key == HELLO_KEY && m == HELLO_MASKED
    ensures Xor(p[2], key[2]) == m[2] && Xor(p[3], key[3]) == m[3]
  {
    XorOfBytes(p[2], [0, 1, 1, 0, 1, 1, 0, 0], key[2], [0, 0, 1, 0, 0, 0, 0, 1], m[2], [0, 1, 0, 0, 1, 1, 0, 1]);
    XorOfBytes(p[3], [0, 1, 1, 0, 1, 1, 0, 0], key[3], [0, 0, 1, 1, 1, 1, 0, 1], m[3], [0, 1, 0, 1, 0, 0, 0, 1]);
  }

  lemma LastXor(p: seq<byte>, key: Key, m: seq<byte>)
    requires p == HELLO && key == HELLO_KEY && m == HELLO_MASKED
    ensures Xor(p[4], key[0]) == m[4]
  {
    XorOfBytes(p[4], [0, 1, 1, 0, 1, 1, 1, 1], key[0], [0, 0, 1, 1, 0, 1, 1, 1], m[4], [0, 1, 0, 1, 1, 0, 0, 0]);
  }

  lemma MaskOfFive(p: seq<byte>, key: Key, m: seq<byte>)
    requires |p| == |m| == 5 && Xor(p[0], key[0]) == m[0] && Xor(p[1], key[1]) == m[1] && Xor(p[2], key[2]) == m[2]
    requires Xor(p[3], key[3]) == m[3] && Xor(p[4], key[0]) == m[4]
    ensures Mask(p, key) == m
  {
  }

  lemma HelloIsMasked()
    ensures Mask(HELLO, HELLO_KEY) == HELLO_MASKED
  {
    FirstXors(HELLO, HELLO_KEY, HELLO_MASKED);
    MiddleXors(HELLO, HELLO_KEY, HELLO_MASKED);
    LastXor(HELLO, HELLO_KEY, HELLO_MASKED);
    MaskOfFive(HELLO, HELLO_KEY, HELLO_MASKED);
  }

  /** A text message "Hello" in one frame, unmasked and masked, is laid out and read as the standard says. */
  lemma HelloExamples()
    ensures Encoded(true, 1, None, HELLO) == [0x81, 0x05] + HELLO
    ensures Encoded(true, 1, Some(HELLO_KEY), HELLO) == [0x81, 0x85, 0x37, 0xFA, 0x21, 0x3D] + HELLO_MASKED
    ensures Decode([0x81, 0x05] + HELLO) == Decoded(Frame(true, 1, false, 5, NO_KEY, HELLO), 7)
    ensures Decode([0x81, 0x85, 0x37, 0xFA, 0x21, 0x3D] + HELLO_MASKED) == Decoded(Frame(true, 1, true, 5, HELLO_KEY, HELLO), 11)
  {
    HelloIsMasked();
    var plain, masked := Encoded(true, 1, None, HELLO), Encoded(true, 1, Some(HELLO_KEY), HELLO);
    assert plain == [0x81, 0x05] + HELLO;
    assert masked == [0x81, 0x85, 0x37, 0xFA, 0x21, 0x3D] + HELLO_MASKED;
    RoundTrip(true, 1, None, HELLO, []);
    RoundTrip(true, 1, Some(HELLO_KEY), HELLO, []);
    assert plain + [] == plain && masked + [] == masked;
  }

  /** The lengths 256 and 65536 are announced in two and in eight bytes, the high ones first. */
  lemma LongExamples(more: seq<byte>)
    ensures LengthPart(256, false) == [0x7E, 0x01, 0x00]
    ensures LengthPart(65536, false) == [0x7F, 0, 0, 0, 0, 0, 1, 0, 0]
    ensures LengthField([0x82, 0x7E, 0x01, 0x00] + more) == 256
    ensures LengthField([0x82, 0x7F, 0, 0, 0, 0, 0, 1, 0, 0] + more) == 65536
  {
    var a, b := [0x82, 0x7E, 0x01, 0x00] + more, [0x82, 0x7F, 0, 0, 0, 0, 0, 1, 0, 0] + more;
    assert a[1] == 0x7E && Read16(a, 2) == 256;
    assert b[1] == 0x7F && Read16(b, 2) == 0 && Read16(b, 4) == 0 && Read16(b, 6) == 1 && Read16(b, 8) == 0;
  }
}
