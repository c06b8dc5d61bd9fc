/** Bitwise operators on naturals, bit by bit, and the powers of two behind every capacity. */
module Bits {
  import opened Options

  function Pow2(k: nat): (r: nat)
    ensures r >= 1
  {
    if k == 0 then 1 else 2 * Pow2(k - 1)
  }

  function And(x: nat, y: nat): (r: nat)
    ensures r <= x && r <= y
  {
    if x == 0 || y == 0 then 0 else 2 * And(x / 2, y / 2) + (x % 2) * (y % 2)
  }

  function Or(x: nat, y: nat): (r: nat)
    ensures r >= x && r >= y
    decreases x + y
  {
    if x == 0 then y else if y == 0 then x
    else 2 * Or(x / 2, y / 2) + (if x % 2 == 1 || y % 2 == 1 then 1 else 0)
  }

  function Xor(x: nat, y: nat): (r: nat)
    decreases x + y
  {
    if x == 0 && y == 0 then 0
    else 2 * Xor(x / 2, y / 2) + (if x % 2 == y % 2 then 0 else 1)
  }

  function Shr(x: nat, k: nat): nat
    decreases x
  {
    if k == 0 || x == 0 then x else Shr(x / 2, k - 1)
  }

  ghost function Bit(x: nat, i: nat): (b: nat)
    ensures b < 2
  {
    if i == 0 then x % 2 else Bit(x / 2, i - 1)
  }

  /** The number of bits x needs. */
  ghost function BitLen(x: nat): (k: nat)
    ensures x < Pow2(k)
    ensures x > 0 ==> k > 0 && Pow2(k - 1) <= x
  {
    if x == 0 then 0 else 1 + BitLen(x / 2)
  }

  // ---- masks -------------------------------------------------------------------------------

  /** The remainder of x by n, by taking whole laps away. */
  function Rem(x: nat, n: nat): (r: nat)
    requires n > 0
    ensures r < n
  {
    if x < n then x else Rem(x - n, n)
  }

  /** Positions less than a lap apart have different remainders. */
  lemma RemDiffer(p: nat, q: nat, n: nat)
    requires p < q < p + n
    ensures Rem(p, n) != Rem(q, n)
  {
    if p >= n { RemDiffer(p - n, q - n, n); }
  }

  lemma RemApart(p: nat, q: nat, n: nat)
    requires n > 0 && q != p && q < p + n && p < q + n
    ensures Rem(q, n) != Rem(p, n)
  {
    if q < p { RemDiffer(q, p, n); } else { RemDiffer(p, q, n); }
  }

  lemma {:induction false} RemIsMod(x: nat, n: nat)
    requires n > 0
    ensures Rem(x, n) == x % n
  {
    if x >= n {
      RemIsMod(x - n, n);
      ModLess(x, n);
    }
  }

  lemma DivModUnique(x: nat, d: nat, q: nat, r: nat)
    requires x == d * q + r && r < d
    ensures x / d == q && x % d == r
  {
    var e := x / d - q;
    assert d * e == r - x % d by { assert x == d * (x / d) + x % d; }
    assert e >= 1 ==> d * e >= d;
    assert e <= -1 ==> d * e + d <= 0;
  }

  lemma ModLess(x: nat, n: nat)
    requires n > 0 && x >= n
    ensures (x - n) % n == x % n
  {
    var q, r := (x - n) / n, (x - n) % n;
    assert x == n * (q + 1) + r by { assert x - n == n * q + r; }
    DivModUnique(x, n, q + 1, r);
  }

  lemma {:induction false} RemDouble(x: nat, m: nat)
    requires m > 0
    ensures Rem(x, 2 * m) == 2 * Rem(x / 2, m) + x % 2
  {
    if x >= 2 * m { RemDouble(x - 2 * m, m); }
  }

  /** Masking with 2^k - 1 is the remainder by 2^k. */
  lemma {:induction false} AndMask(x: nat, k: nat)
    ensures And(x, Pow2(k) - 1) == Rem(x, Pow2(k))
    decreases k
  {
    if k == 0 {
      RemByOne(x);
    } else if x > 0 {
      AndMask(x / 2, k - 1);
      AndMaskStep(x, Pow2(k - 1));
    }
  }

  lemma AndMaskStep(x: nat, m: nat)
    requires x > 0 && m > 0 && And(x / 2, m - 1) == Rem(x / 2, m)
    ensures And(x, 2 * m - 1) == Rem(x, 2 * m)
  {
    RemDouble(x, m);
    AndOdd(x, m - 1);
    assert 2 * m - 1 == 2 * (m - 1) + 1;
  }

  lemma {:induction false} RemByOne(x: nat)
    ensures Rem(x, 1) == 0
  {
    if x > 0 { RemByOne(x - 1); }
  }

  lemma AndOdd(x: nat, y: nat)
    requires x > 0
    ensures And(x, 2 * y + 1) == 2 * And(x / 2, y) + x % 2
  {
    assert (2 * y + 1) / 2 == y && (2 * y + 1) % 2 == 1;
  }

  /** `index & mask` is the index modulo the capacity, as the queues rely on at every access. */
  lemma MaskIsMod(x: nat, k: nat)
    ensures And(x, Pow2(k) - 1) == x % Pow2(k)
  {
    AndMask(x, k);
    RemIsMod(x, Pow2(k));
  }

  lemma AndSelf(x: nat)
    ensures And(x, x) == x
  {
  }

  lemma {:induction false} AndPow2(x: nat, k: nat)
    ensures And(x, Pow2(k)) == if Bit(x, k) == 1 then Pow2(k) else 0
    decreases k
  {
    if x == 0 {
      BitOfZero(k);
    } else if k > 0 {
      AndPow2(x / 2, k - 1);
      AndEven(x, Pow2(k - 1));
    } else {
      assert And(x / 2, 0) == 0;
    }
  }

  lemma AndEven(x: nat, y: nat)
    requires x > 0
    ensures And(x, 2 * y) == 2 * And(x / 2, y)
  {
    assert (2 * y) / 2 == y && (2 * y) % 2 == 0;
  }

  lemma BitOfZero(i: nat)
    ensures Bit(0, i) == 0
  {
  }

  /** Setting a bit above all of x adds it. */
  lemma {:induction false} OrAbove(x: nat, k: nat)
    requires x < Pow2(k)
    ensures Or(Pow2(k), x) == Pow2(k) + x
  {
    if x > 0 && k > 0 { OrAbove(x / 2, k - 1); }
  }

  /** Setting a bit that is set changes nothing. */
  lemma {:induction false} OrPresent(x: nat, k: nat)
    requires x < Pow2(k)
    ensures Or(Pow2(k), Pow2(k) + x) == Pow2(k) + x
  {
    if k > 0 {
      OrPresent(x / 2, k - 1);
      assert (Pow2(k) + x) / 2 == Pow2(k - 1) + x / 2 && (Pow2(k) + x) % 2 == x % 2;
    }
  }

  lemma OrEither(x: nat, k: nat)
    requires x < Pow2(k)
    ensures Or(Pow2(k), x) == Pow2(k) + x && Or(Pow2(k), Pow2(k) + x) == Pow2(k) + x
  {
    OrAbove(x, k);
    OrPresent(x, k);
  }

  lemma XorBound(x: nat, y: nat, k: nat)
    requires x < Pow2(k) && y < Pow2(k)
    ensures Xor(x, y) < Pow2(k)
  {
  }

  lemma XorCancels(x: nat, y: nat)
    ensures Xor(Xor(x, y), y) == x
    decreases x + y
  {
  }

  // ---- rounding up to a power of two -------------------------------------------------------

  /** The least power of two that is at least `size`: the reference for the three roundings. */
  ghost function CeilPow2(size: nat): (r: nat)
    requires size >= 1
    ensures r >= size
  {
    Pow2(BitLen(size - 1))
  }

  lemma {:induction false} Pow2Monotone(a: nat, b: nat)
    requires a <= b
    ensures Pow2(a) <= Pow2(b)
    decreases b
  {
    if a < b { Pow2Monotone(a, b - 1); }
  }

  lemma CeilPow2Least(size: nat, m: nat)
    requires size >= 1 && Pow2(m) >= size
    ensures CeilPow2(size) <= Pow2(m)
  {
    var k := BitLen(size - 1);
    if k > 0 && m < k { Pow2Monotone(m, k - 1); }
    if m >= k { Pow2Monotone(k, m); }
  }

  lemma {:induction false} Pow2Strict(a: nat, b: nat)
    requires Pow2(a) < Pow2(b)
    ensures a < b
  {
    if b <= a { Pow2Monotone(b, a); }
  }

  /** The power-of-two test of ring.go: x & (x-1) == 0 only for powers of two. */
  lemma {:induction false} SingleBit(x: nat)
    requires x >= 1 && And(x, x - 1) == 0
    ensures CeilPow2(x) == x
  {
    if x > 1 {
      if x % 2 == 1 {
        OddHasTwo(x);
      } else {
        HalfBit(x / 2);
        SingleBit(x / 2);
        CeilDouble(x / 2);
      }
    }
  }

  lemma OddHasTwo(x: nat)
    requires x > 1 && x % 2 == 1
    ensures And(x, x - 1) > 0
  {
    AndSelf(x / 2);
    assert (x - 1) / 2 == x / 2;
  }

  lemma HalfBit(h: nat)
    requires h >= 1 && And(2 * h, 2 * h - 1) == 0
    ensures And(h, h - 1) == 0
  {
    if h > 1 { AndStep(2 * h, 2 * h - 1, h, h - 1); }
  }

  lemma AndStep(x: nat, y: nat, x': nat, y': nat)
    requires x > 0 && y > 0 && x == 2 * x' && y == 2 * y' + 1
    ensures And(x, y) == 2 * And(x', y')
  {
    assert x / 2 == x' && y / 2 == y' && x % 2 == 0;
  }

  lemma CeilDouble(h: nat)
    requires h >= 1
    ensures CeilPow2(2 * h) == 2 * CeilPow2(h)
  {
    assert (2 * h - 1) / 2 == h - 1;
  }

  lemma {:induction false} BitOfShr(x: nat, k: nat, i: nat)
    ensures Bit(Shr(x, k), i) == Bit(x, i + k)
    decreases k
  {
    if x == 0 {
      BitOfZero(i);
      BitOfZero(i + k);
    } else if k > 0 {
      BitOfShr(x / 2, k - 1, i);
    }
  }

  lemma ShrBound(x: nat, k: nat)
    ensures Shr(x, k) <= x
  {
  }

  lemma {:induction false} BitOfOr(x: nat, y: nat, i: nat)
    ensures Bit(Or(x, y), i) == if Bit(x, i) == 1 || Bit(y, i) == 1 then 1 else 0
    decreases i
  {
    if x == 0 || y == 0 {
      BitOfZero(i);
    } else if i > 0 {
      assert Or(x, y) / 2 == Or(x / 2, y / 2);
      BitOfOr(x / 2, y / 2, i - 1);
    }
  }

  lemma AndHalf(x: nat, y: nat)
    requires x > 0 && y > 0
    ensures And(x, y) / 2 == And(x / 2, y / 2) && And(x, y) % 2 == if x % 2 == 1 && y % 2 == 1 then 1 else 0
  {
    var p := (x % 2) * (y % 2);
    assert p == if x % 2 == 1 && y % 2 == 1 then 1 else 0;
  }

  lemma {:induction false} BitOfAnd(x: nat, y: nat, i: nat)
    ensures Bit(And(x, y), i) == if Bit(x, i) == 1 && Bit(y, i) == 1 then 1 else 0
    decreases i
  {
    if x == 0 || y == 0 {
      BitOfZero(i);
    } else {
      AndHalf(x, y);
      if i > 0 { BitOfAnd(x / 2, y / 2, i - 1); }
    }
  }

  lemma {:induction false} BitOfXor(x: nat, y: nat, i: nat)
    ensures Bit(Xor(x, y), i) == if Bit(x, i) == Bit(y, i) then 0 else 1
    decreases i
  {
    if x == 0 && y == 0 {
      BitOfZero(i);
    } else if i > 0 {
      assert Xor(x, y) / 2 == Xor(x / 2, y / 2);
      BitOfXor(x / 2, y / 2, i - 1);
    }
  }

  lemma XorDouble(x: nat, y: nat, i: nat, j: nat)
    requires i < 2 && j < 2
    ensures Xor(2 * x + i, 2 * y + j) == 2 * Xor(x, y) + (if i == j then 0 else 1)
  {
    assert (2 * x + i) / 2 == x && (2 * y + j) / 2 == y && (2 * x + i) % 2 == i && (2 * y + j) % 2 == j;
  }

  /** The number with these bits, the highest first. */
  function Number(bits: seq<nat>): nat {
    if bits == [] then 0 else 2 * Number(bits[..|bits| - 1]) + bits[|bits| - 1]
  }

  predicate AreBits(bits: seq<nat>) {
    forall i :: 0 <= i < |bits| ==> bits[i] < 2
  }

  /** Exclusive-or works on the bits one by one. */
  lemma {:induction false} XorOfNumbers(a: seq<nat>, b: seq<nat>, c: seq<nat>)
    requires |a| == |b| == |c| && AreBits(a) && AreBits(b)
    requires forall i :: 0 <= i < |a| ==> c[i] == if a[i] == b[i] then 0 else 1
    ensures Xor(Number(a), Number(b)) == Number(c)
  {
    if a != [] {
      var n := |a| - 1;
      XorOfNumbers(a[..n], b[..n], c[..n]);
      XorDouble(Number(a[..n]), Number(b[..n]), a[n], b[n]);
    }
  }

  lemma NumberOfEight(b: seq<nat>)
    requires |b| == 8
    ensures Number(b) == 128 * b[0] + 64 * b[1] + 32 * b[2] + 16 * b[3] + 8 * b[4] + 4 * b[5] + 2 * b[6] + b[7]
  {
    assert b[..6][..4] == b[..4] && b[..4][..2] == b[..2] && b[..2][..0] == [];
    NumberOfTwo(b);
    NumberOfTwo(b[..6]);
    NumberOfTwo(b[..4]);
    NumberOfTwo(b[..2]);
  }

  lemma NumberOfTwo(b: seq<nat>)
    requires |b| >= 2
    ensures Number(b) == 4 * Number(b[..|b| - 2]) + 2 * b[|b| - 2] + b[|b| - 1]
  {
    assert b[..|b| - 1][..|b| - 2] == b[..|b| - 2];
  }

  lemma OrBound(x: nat, y: nat, k: nat)
    requires x < Pow2(k) && y < Pow2(k)
    ensures Or(x, y) < Pow2(k)
  {
  }

  lemma {:induction false} HighestBit(x: nat, k: nat)
    requires k > 0 && Pow2(k - 1) <= x < Pow2(k)
    ensures Bit(x, k - 1) == 1
  {
    if k > 1 { HighestBit(x / 2, k - 1); }
  }

  lemma {:induction false} AllOnes(x: nat, k: nat)
    requires x < Pow2(k) && forall i :: 0 <= i < k ==> Bit(x, i) == 1
    ensures x == Pow2(k) - 1
  {
    if k > 0 {
      assert Bit(x, 0) == 1;
      forall i | 0 <= i < k - 1 ensures Bit(x / 2, i) == 1 { assert Bit(x, i + 1) == 1; }
      AllOnes(x / 2, k - 1);
    }
  }

  /** x is a k-bit number whose top j bits (all, if j exceeds k) are set. */
  ghost predicate Smeared(x: nat, k: nat, j: nat) {
    x < Pow2(k) && forall i: nat :: k <= i + j && i < k ==> Bit(x, i) == 1
  }

  /** `n |= n >> s` with s set bits at the top leaves 2s of them. */
  lemma SmearStep(x: nat, k: nat, s: nat)
    requires Smeared(x, k, s)
    ensures Smeared(Or(x, Shr(x, s)), k, 2 * s)
  {
    ShrBound(x, s);
    OrBound(x, Shr(x, s), k);
    forall i: nat | k <= i + 2 * s && i < k ensures Bit(Or(x, Shr(x, s)), i) == 1 {
      BitOfOr(x, Shr(x, s), i);
      BitOfShr(x, s, i);
      if i + s < k { assert Bit(x, i + s) == 1; }
    }
  }

  lemma SmearStart(x: nat)
    requires x > 0
    ensures Smeared(x, BitLen(x), 1)
  {
    HighestBit(x, BitLen(x));
  }

  lemma SmearEnd(x: nat, k: nat, j: nat)
    requires Smeared(x, k, j) && k <= j
    ensures x == Pow2(k) - 1
  {
    AllOnes(x, k);
  }

  function Spread(x: nat, s: nat): nat {
    Or(x, Shr(x, s))
  }

  function Smear32(x: nat): nat {
    Spread(Spread(Spread(Spread(Spread(x, 1), 2), 4), 8), 16)
  }

  /** Doubling the shift from 1 to 16, or to 32, sets every bit below the top one of a number of at
      most 32, or 64, bits. */
  lemma SmearAll(x: nat, w: nat)
    requires x < Pow2(w)
    ensures w <= 32 ==> Smear32(x) == Pow2(BitLen(x)) - 1
    ensures w <= 64 ==> Spread(Smear32(x), 32) == Pow2(BitLen(x)) - 1
  {
    var k := BitLen(x);
    if x > 0 {
      Pow2Strict(k - 1, w);
      SmearStart(x);
    }
    SmearStep(x, k, 1);
    var x1 := Spread(x, 1);   SmearStep(x1, k, 2);
    var x2 := Spread(x1, 2);  SmearStep(x2, k, 4);
    var x3 := Spread(x2, 4);  SmearStep(x3, k, 8);
    var x4 := Spread(x3, 8);  SmearStep(x4, k, 16);
    var y := Spread(x4, 16);  SmearStep(y, k, 32);
    if w <= 32 { SmearEnd(y, k, 32); }
    if w <= 64 { SmearEnd(Spread(y, 32), k, 64); }
  }

  // ---- the three roundings -----------------------------------------------------------------

  /** The value of a signed int of w bits after k doublings from 1. */
  function Shifted(k: nat, w: nat): int
    requires w >= 3
  {
    if k <= w - 2 then Pow2(k) else if k == w - 1 then 0 - Pow2(w - 1) else 0
  }

  /** x << 1 in a signed word of w bits: the bit that leaves the word is dropped. */
  function Doubled(x: int, w: nat): int
    requires w >= 1
  {
    if 2 * x >= Pow2(w - 1) then 2 * x - Pow2(w) else if 2 * x < 0 - Pow2(w - 1) then 2 * x + Pow2(w) else 2 * x
  }

  /** That is the one value of the word that differs from 2x by a multiple of 2^w. */
  lemma DoubledIsWrapped(x: int, w: nat)
    requires w >= 1 && 0 - Pow2(w - 1) <= x < Pow2(w - 1)
    ensures 0 - Pow2(w - 1) <= Doubled(x, w) < Pow2(w - 1)
    ensures Doubled(x, w) - 2 * x in {0, Pow2(w), 0 - Pow2(w)}
  {
    assert Pow2(w) == 2 * Pow2(w - 1);
  }

  lemma ShiftedDoubles(k: nat, w: nat)
    requires w >= 3
    ensures Shifted(k + 1, w) == Doubled(Shifted(k, w), w)
  {
    if k < w - 2 { Pow2Monotone(k + 1, w - 2); }
  }

  /** The loop of NewLockFreeQueue ends, that is, some number of doublings reaches the capacity, if and only
      if the capacity is at most 2^(w-2). */
  lemma ShiftLoopEndsIff(capacity: int, w: nat)
    requires w >= 3
    ensures (exists k: nat :: Shifted(k, w) >= (if capacity < 2 then 2 else capacity)) <==> capacity <= Pow2(w - 2)
  {
    if capacity <= Pow2(w - 2) {
      Pow2Monotone(1, w - 2);
      assert Shifted(w - 2, w) >= if capacity < 2 then 2 else capacity;
    } else {
      forall k: nat ensures Shifted(k, w) < (if capacity < 2 then 2 else capacity) {
        if k <= w - 2 { Pow2Monotone(k, w - 2); }
      }
    }
  }

  /** One above that bound, no number of doublings is enough. */
  lemma ShiftLoopHangs(w: nat, k: nat)
    requires w >= 3
    ensures Shifted(k, w) < Pow2(w - 2) + 1
  {
    ShiftLoopEndsIff(Pow2(w - 2) + 1, w);
    Pow2Monotone(1, w - 2);
  }

  lemma PowerReached(cap: int, k: nat)
    requires cap >= 2 && k > 0 && Pow2(k - 1) < cap <= Pow2(k)
    ensures Pow2(k) == CeilPow2(cap)
  {
    CeilPow2Least(cap, k);
    var b := BitLen(cap - 1);
    Pow2Strict(k - 1, b);
    Pow2Monotone(k, b);
  }

  /** NewLockFreeQueue: at least 2, then doubled in a signed word of w bits until the request is reached.  At 0
      the loop of the source goes round for ever: that is None. */
  method RoundByShift(capacity: int, w: nat) returns (size: Option<nat>)
    requires w >= 3
    ensures size.None? <==> capacity > Pow2(w - 2)
    ensures size.Some? ==> 2 <= size.value == CeilPow2(if capacity < 2 then 2 else capacity) <= Pow2(w - 2)
  {
    var cap := if capacity < 2 then 2 else capacity;
    var word := 1;
    ghost var k: nat := 0;
    Pow2Monotone(1, w - 2);
    while word < cap
      invariant k <= w && word == Shifted(k, w) && (0 < k <= w - 2 ==> Pow2(k - 1) < cap) && (k > w - 2 ==> Pow2(w - 2) < cap)
      decreases w - k
    {
      if word == 0 { return None; }
      ShiftedDoubles(k, w);
      word := Doubled(word, w);
      k := k + 1;
    }
    if k > 0 && k <= w - 2 { PowerReached(cap, k); Pow2Monotone(k, w - 2); }
    size := Some(word);
  }

  /** NewRingBuffer (core), for unsigned words of w <= 64 bits (the source's uint64 is w = 64).  The
      result is the least power of two for requests up to 2^(w-1); beyond, the final increment wraps to 0. */
  method RoundBySmear64(size: nat, w: nat) returns (r: nat)
    requires 2 <= w <= 64 && size < Pow2(w)
    ensures r == if 2 * size <= Pow2(w) then CeilPow2(if size < 2 then 2 else size) else 0
  {
    var sz := if size < 2 then 2 else size;
    Pow2Monotone(2, w);
    WrapsAt(sz, w);
    if And(sz, sz - 1) != 0 {
      var n := Smeared64(sz - 1, w);
      r := Increment(n, w);
    } else {
      SingleBit(sz);
      r := sz;
    }
  }

  /** The six shifts. */
  method Smeared64(x: nat, w: nat) returns (n: nat)
    requires w <= 64 && x < Pow2(w)
    ensures n == Pow2(BitLen(x)) - 1
  {
    SmearAll(x, w);
    n := x;
    n := Spread(n, 1);
    n := Spread(n, 2);
    n := Spread(n, 4);
    n := Spread(n, 8);
    n := Spread(n, 16);
    n := Spread(n, 32);
  }

  /** x + 1 in w-bit unsigned arithmetic. */
  function Increment(x: nat, w: nat): nat
    requires x < Pow2(w)
  {
    if x + 1 == Pow2(w) then 0 else x + 1
  }

  /** A w-bit increment of 2^k - 1 wraps exactly when k reaches w, that is for requests above 2^(w-1). */
  lemma WrapsAt(size: nat, w: nat)
    requires 1 <= size < Pow2(w) && w > 0
    ensures CeilPow2(size) <= Pow2(w)
    ensures Increment(CeilPow2(size) - 1, w) == if 2 * size <= Pow2(w) then CeilPow2(size) else 0
    ensures 2 * size > Pow2(w) ==> CeilPow2(size) > size
  {
    CeilPow2Least(size, w);
    if size <= Pow2(w - 1) {
      CeilPow2Least(size, w - 1);
    } else {
      var k := BitLen(size - 1);
      Pow2Strict(w - 1, k);
      Pow2Monotone(w, k);
    }
  }

  /** nextPowerOfTwo (internal/session), for unsigned words of w <= 32 bits (the source's uint32 is
      w = 32); 0 wraps down to 2^w - 1 first. */
  method NextPowerOfTwo32(v0: nat, w: nat) returns (v: nat)
    requires 1 <= w <= 32 && v0 < Pow2(w)
    ensures v == if 1 <= v0 && 2 * v0 <= Pow2(w) then CeilPow2(v0) else 0
  {
    v := if v0 == 0 then Pow2(w) - 1 else v0 - 1;
    if v0 == 0 { CeilAtWrap(w); } else { WrapsAt(v0, w); }
    v := Smeared32(v, w);
    v := Increment(v, w);
  }

  /** The five shifts. */
  method Smeared32(x: nat, w: nat) returns (n: nat)
    requires w <= 32 && x < Pow2(w)
    ensures n == Pow2(BitLen(x)) - 1
  {
    SmearAll(x, w);
    n := x;
    n := Spread(n, 1);
    n := Spread(n, 2);
    n := Spread(n, 4);
    n := Spread(n, 8);
    n := Spread(n, 16);
  }

  lemma CeilAtWrap(w: nat)
    requires w > 0
    ensures Pow2(BitLen(Pow2(w) - 1)) == Pow2(w)
  {
    var k := BitLen(Pow2(w) - 1);
    Pow2Strict(k - 1, w);
    Pow2Monotone(k, w);
    if k < w { Pow2Monotone(k, w - 1); }
  }

  // ---- differences of wrapped counters -------------------------------------------------------------------

  /** int64(x) - int64(y) for words of which there are n: the difference wrapped into -n/2 .. n/2 - 1. */
  function SignedDiff(x: nat, y: nat, n: nat): (d: int)
    requires x < n && y < n
    ensures 0 <= 2 * d + n < 2 * n
  {
    var z := if x >= y then x - y else x - y + n;
    if 2 * z < n then z else z - n
  }

  lemma {:induction false} Laps(x: nat, n: nat) returns (q: nat)
    requires n > 0
    ensures x == Rem(x, n) + q * n
    decreases x
  {
    if x < n {
      q := 0;
    } else {
      q := Laps(x - n, n);
      q := q + 1;
    }
  }

  lemma NoWholeLap(m: int, n: nat)
    requires 0 - n < m * n < n
    ensures m == 0
  {
    assert m >= 1 ==> m * n >= n;
    assert m <= -1 ==> (0 - m) * n >= n;
    assert (0 - m) * n == 0 - m * n;
  }

  /** The signed difference of two counters that have wrapped any number of times is their true difference
      exactly if that lies within half the range. */
  lemma WrappedDifference(a: nat, b: nat, n: nat)
    requires n > 0
    ensures SignedDiff(Rem(a, n), Rem(b, n), n) == a - b <==> 0 <= 2 * (a - b) + n < 2 * n
  {
    var p := Laps(a, n);
    var q := Laps(b, n);
    var x, y := Rem(a, n), Rem(b, n);
    var d := SignedDiff(x, y, n);
    var e := if d == x - y then 0 else if d == x - y + n then 1 else -1;
    assert d == x - y + e * n;
    assert d - (a - b) == (q - p + e) * n by { Distribute(p, q, e, n); }
    if 0 <= 2 * (a - b) + n < 2 * n { NoWholeLap(q - p + e, n); }
  }

  lemma Distribute(p: int, q: int, e: int, n: int)
    ensures (q - p + e) * n == q * n - p * n + e * n
  {
  }

  // ---- counters kept in words ------------------------------------------------------------------------

  /** The size is a power of two and there are more words than that, as many as some word length gives. */
  ghost predicate FitsWords(n: nat, words: nat) {
    exists k: nat, w: nat :: k < w && n == Pow2(k) && words == Pow2(w)
  }

  lemma SomeWords(n: nat, words: nat)
    requires FitsWords(n, words)
    ensures 0 < n < words
  {
    var k: nat, w: nat :| k < w && n == Pow2(k) && words == Pow2(w);
    Pow2Monotone(k + 1, w);
  }

  lemma {:induction false} RemOfSum(x: nat, m: nat, n: nat)
    requires n > 0
    ensures m * n >= 0 && Rem(x + m * n, n) == Rem(x, n)
    decreases m
  {
    if m > 0 {
      assert x + m * n == x + (m - 1) * n + n;
      RemOfSum(x, m - 1, n);
    }
  }

  lemma {:induction false} Multiple(k: nat, w: nat) returns (m: nat)
    requires k <= w
    ensures m * Pow2(k) == Pow2(w)
    decreases w - k
  {
    if k == w {
      m := 1;
    } else {
      var m' := Multiple(k, w - 1);
      m := 2 * m';
    }
  }

  lemma {:induction false} RemOfRem(p: nat, m: nat, n: nat)
    requires n > 0 && m * n > 0
    ensures Rem(Rem(p, m * n), n) == Rem(p, n)
    decreases p
  {
    if p >= m * n {
      RemOfSum(p - m * n, m, n);
      RemOfRem(p - m * n, m, n);
    }
  }

  /** The masked index of a counter does not depend on whether the counter has wrapped. */
  lemma RemOfWord(p: nat, n: nat, words: nat)
    requires FitsWords(n, words)
    ensures n > 0 && words > 0 && Rem(Rem(p, words), n) == Rem(p, n)
  {
    var k: nat, w: nat :| k < w && n == Pow2(k) && words == Pow2(w);
    var m := Multiple(k, w);
    RemOfRem(p, m, n);
  }

  /** The sum of two words, with the carry dropped. */
  function Plus(x: nat, y: nat, words: nat): nat {
    if x + y < words then x + y else x + y - words
  }

  lemma {:induction false} PlusFollows(p: nat, d: nat, words: nat)
    requires d <= words && words > 0
    ensures Plus(Rem(p, words), d, words) == Rem(p + d, words)
    decreases p
  {
    if p >= words { PlusFollows(p - words, d, words); }
  }
}
