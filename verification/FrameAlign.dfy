/**
 The least number of frames that meets the alignment of a stream: binary gcd, least common multiple,
 and the shift for the size of an aligned block of frames.
 */
module FrameAlign {
  import opened Arithmetic

  // ---- divisibility ---------------------------------------------------------------------------

  predicate Divides(d: nat, n: int) { d > 0 && n % d == 0 }

  lemma DividesIntro(d: nat, n: int, q: int)
    requires d > 0 && n == q * d
    ensures Divides(d, n)
  {
    DivModUnique(n, d, q, 0);
  }

  lemma DividesElim(d: nat, n: int) returns (q: int)
    requires Divides(d, n)
    ensures n == q * d
  {
    q := n / d;
  }

  lemma DividesSum(d: nat, m: int, n: int, x: int, y: int)
    requires Divides(d, m) && Divides(d, n)
    ensures Divides(d, m * x + n * y)
  {
    var p := DividesElim(d, m);
    var q := DividesElim(d, n);
    assert m * x + n * y == (p * x + q * y) * d by {
      assert m * x == (p * x) * d && n * y == (q * y) * d by { Regroup(p, d, x); Regroup(q, d, y); }
    }
    DividesIntro(d, m * x + n * y, p * x + q * y);
  }

  lemma Regroup(p: int, d: int, x: int)
    ensures (p * d) * x == (p * x) * d
  {
  }

  /** A value that x and y combine from a and b. */
  function Combine(a: int, b: int, x: int, y: int): int { a * x + b * y }

  /** g is a common divisor that is a combination of a and b, so every common divisor divides it. */
  ghost predicate IsGcd(g: nat, a: nat, b: nat) {
    Divides(g, a) && Divides(g, b) && exists x, y :: Combine(a, b, x, y) == g
  }

  lemma GcdIsGreatest(g: nat, a: nat, b: nat, d: nat)
    requires IsGcd(g, a, b) && Divides(d, a) && Divides(d, b)
    ensures Divides(d, g)
  {
    var x, y :| Combine(a, b, x, y) == g;
    DividesSum(d, a, b, x, y);
  }

  lemma GcdOfZero(a: nat)
    requires a > 0
    ensures IsGcd(a, a, 0)
  {
    assert Combine(a, 0, 1, 0) == a;
    DividesIntro(a, a, 1);
    DividesIntro(a, 0, 0);
  }

  lemma GcdSwap(g: nat, a: nat, b: nat)
    requires IsGcd(g, a, b)
    ensures IsGcd(g, b, a)
  {
    var x, y :| Combine(a, b, x, y) == g;
    assert Combine(b, a, y, x) == g;
  }

  lemma GcdAdd(g: nat, a: nat, b: nat)
    requires IsGcd(g, a, b)
    ensures IsGcd(g, a, b + a)
  {
    var x, y :| Combine(a, b, x, y) == g;
    assert Combine(a, b + a, x - y, y) == g by { Distribute(a, b, x, y); }
    DividesSum(g, a, b, 1, 1);
  }

  lemma Distribute(a: int, b: int, x: int, y: int)
    ensures a * (x - y) + (b + a) * y == a * x + b * y
  {
  }

  lemma GcdDouble(g: nat, a: nat, b: nat)
    requires IsGcd(g, a, b)
    ensures IsGcd(2 * g, 2 * a, 2 * b)
  {
    var x, y :| Combine(a, b, x, y) == g;
    assert Combine(2 * a, 2 * b, x, y) == 2 * g by { Twice(a, b, x, y); }
    DoubleDivides(g, a);
    DoubleDivides(g, b);
  }

  lemma Twice(a: int, b: int, x: int, y: int)
    ensures 2 * a * x + 2 * b * y == 2 * (a * x + b * y)
  {
  }

  lemma DoubleDivides(g: nat, a: nat)
    requires Divides(g, a)
    ensures Divides(2 * g, 2 * a)
  {
    var q := DividesElim(g, a);
    assert 2 * a == q * (2 * g) by { assert 2 * (q * g) == q * (2 * g); }
    DividesIntro(2 * g, 2 * a, q);
  }

  lemma CombineEven(a: int, b: int, x: int, h: int)
    ensures Combine(a, 2 * b, x, h) == Combine(a, b, x, 2 * h)
  {
    assert 2 * b * h == b * (2 * h);
  }

  lemma CombineShift(a: int, b: int, x: int, y: int)
    ensures Combine(a, b, x - b, y + a) == Combine(a, b, x, y)
  {
    assert a * (x - b) == a * x - a * b;
    assert b * (y + a) == b * y + a * b;
  }

  /** A factor of two on one side only does not matter to an odd number. */
  lemma GcdOdd(g: nat, a: nat, b: nat)
    requires IsGcd(g, a, b) && a % 2 == 1
    ensures IsGcd(g, a, 2 * b)
  {
    hide Combine, Divides;
    var x, y :| Combine(a, b, x, y) == g;
    DividesSum(g, b, b, 1, 1);
    if y % 2 == 0 {
      CombineEven(a, b, x, y / 2);
    } else {
      CombineShift(a, b, x, y);
      CombineEven(a, b, x - b, (y + a) / 2);
    }
  }

  // ---- binary gcd -------------------------------------------------------------------------------

  function Pow2(k: nat): nat { if k == 0 then 1 else 2 * Pow2(k - 1) }

  /** What is known of the inputs once the numbers at hand are known. */
  ghost predicate Reduces(a: nat, b: nat, factor: nat, a0: nat, b0: nat) {
    forall g: nat :: IsGcd(g, a, b) ==> IsGcd(factor * g, a0, b0)
  }

  lemma ReduceStart(a: nat, b: nat)
    ensures Reduces(a, b, Pow2(0), a, b)
  {
    assert forall g: nat :: Pow2(0) * g == g;
  }

  lemma GcdPositive(g: nat, a: nat, b: nat)
    requires IsGcd(g, a, b)
    ensures g > 0
  {
  }

  lemma ReduceBoth(a: nat, b: nat, f: nat, a0: nat, b0: nat)
    requires Reduces(a, b, f, a0, b0) && a % 2 == 0 && b % 2 == 0
    ensures Reduces(a / 2, b / 2, 2 * f, a0, b0)
  {
    hide IsGcd;
    forall g: nat | IsGcd(g, a / 2, b / 2) ensures IsGcd(2 * f * g, a0, b0) {
      GcdDouble(g, a / 2, b / 2);
      assert f * (2 * g) == 2 * f * g;
    }
  }

  lemma ReduceLeft(a: nat, b: nat, f: nat, a0: nat, b0: nat)
    requires Reduces(a, b, f, a0, b0) && a % 2 == 0 && b % 2 == 1
    ensures Reduces(a / 2, b, f, a0, b0)
  {
    hide IsGcd;
    forall g: nat | IsGcd(g, a / 2, b) ensures IsGcd(f * g, a0, b0) {
      GcdSwap(g, a / 2, b);
      GcdOdd(g, b, a / 2);
      GcdSwap(g, b, 2 * (a / 2));
    }
  }

  lemma ReduceRight(a: nat, b: nat, f: nat, a0: nat, b0: nat)
    requires Reduces(a, b, f, a0, b0) && a % 2 == 1 && b % 2 == 0
    ensures Reduces(a, b / 2, f, a0, b0)
  {
    hide IsGcd;
    forall g: nat | IsGcd(g, a, b / 2) ensures IsGcd(f * g, a0, b0) { GcdOdd(g, a, b / 2); }
  }

  lemma ReduceSwap(a: nat, b: nat, f: nat, a0: nat, b0: nat)
    requires Reduces(a, b, f, a0, b0)
    ensures Reduces(b, a, f, a0, b0)
  {
    hide IsGcd;
    forall g: nat | IsGcd(g, b, a) ensures IsGcd(f * g, a0, b0) { GcdSwap(g, b, a); }
  }

  lemma ReduceSubtract(a: nat, b: nat, f: nat, a0: nat, b0: nat)
    requires Reduces(a, b, f, a0, b0) && a <= b
    ensures Reduces(a, b - a, f, a0, b0)
  {
    hide IsGcd;
    forall g: nat | IsGcd(g, a, b - a) ensures IsGcd(f * g, a0, b0) { GcdAdd(g, a, b - a); }
  }

  method Gcd(x: int, y: int) returns (g: int)
    ensures x == 0 ==> g == y
    ensures x != 0 && y == 0 ==> g == x
    ensures x != 0 && y != 0 ==> g > 0 && IsGcd(g, if x < 0 then -x else x, if y < 0 then -y else y)
  {
    if x == 0 { return y; }
    if y == 0 { return x; }
    var a: nat, b: nat := if x < 0 then -x else x, if y < 0 then -y else y;
    ghost var a0, b0 := a, b;
    hide IsGcd;
    var k: nat := 0;
    ReduceStart(a, b);
    while a % 2 == 0 && b % 2 == 0
      invariant a > 0 && b > 0 && Reduces(a, b, Pow2(k), a0, b0)
      decreases a
    {
      ReduceBoth(a, b, Pow2(k), a0, b0);
      a, b, k := a / 2, b / 2, k + 1;
    }
    while a % 2 == 0
      invariant a > 0 && b > 0 && Reduces(a, b, Pow2(k), a0, b0) && (a % 2 == 1 || b % 2 == 1)
      decreases a
    {
      ReduceLeft(a, b, Pow2(k), a0, b0);
      a := a / 2;
    }
    while b != 0
      invariant a > 0 && a % 2 == 1 && Reduces(a, b, Pow2(k), a0, b0)
      decreases a + b
    {
      ghost var start := b;
      while b % 2 == 0
        invariant 0 < b <= start && Reduces(a, b, Pow2(k), a0, b0)
        decreases b
      {
        ReduceRight(a, b, Pow2(k), a0, b0);
        b := b / 2;
      }
      if a > b {
        ReduceSwap(a, b, Pow2(k), a0, b0);
        a, b := b, a;
      }
      ReduceSubtract(a, b, Pow2(k), a0, b0);
      b := b - a;
    }
    GcdOfZero(a);
    g := Pow2(k) * a;
    assert IsGcd(Pow2(k) * a, a0, b0);
    GcdPositive(Pow2(k) * a, a0, b0);
  }

  // ---- alignment in frames ----------------------------------------------------------------------

  lemma Cancel(a: int, b: int, g: nat)
    requires g > 0 && a * g == b * g
    ensures a == b
  {
    if a < b { MulMono(a, b, g); } else if b < a { MulMono(b, a, g); }
  }

  lemma DividedCombine(g: nat, u: nat, v: nat, x: int, y: int)
    requires g > 0 && Combine(u * g, v * g, x, y) == g
    ensures Combine(u, v, x, y) == 1
  {
    Regroup(u, g, x);
    Regroup(v, g, y);
    Sum(u * x, v * y, g);
    Cancel(u * x + v * y, 1, g);
  }

  lemma Sum(a: int, b: int, g: int)
    ensures a * g + b * g == (a + b) * g
  {
  }

  lemma Part(g: nat, a: nat) returns (u: nat)
    requires Divides(g, a)
    ensures g > 0 && a == u * g && u == a / g
  {
    u := a / g;
  }

  /** The parts that are left after division by the gcd have no common divisor: 1 combines from them. */
  lemma Coprime(g: nat, a: nat, b: nat) returns (u: nat, v: nat, x: int, y: int)
    requires IsGcd(g, a, b)
    ensures g > 0 && a == u * g && b == v * g && u == a / g && Combine(u, v, x, y) == 1
  {
    hide Divides;
    x, y :| Combine(a, b, x, y) == g;
    hide Combine;
    u := Part(g, a);
    v := Part(g, b);
    DividedCombine(g, u, v, x, y);
  }

  /** If u has nothing in common with v, it divides t where it divides t times v. */
  lemma CoprimeDivides(u: nat, v: nat, x: int, y: int, t: int, s: int)
    requires u > 0 && Combine(u, v, x, y) == 1 && t * v == s * u
    ensures t == (t * x + s * y) * u && Divides(u, t)
  {
    calc {
      t;
      t * (u * x + v * y);
      { Expand(t, u, x, v, y); }
      (t * x) * u + (t * v) * y;
      (t * x) * u + (s * u) * y;
      { Regroup(s, u, y); }
      (t * x + s * y) * u;
    }
    DividesIntro(u, t, t * x + s * y);
  }

  lemma Expand(t: int, u: int, x: int, v: int, y: int)
    ensures t * (u * x + v * y) == (t * x) * u + (t * v) * y
  {
  }

  lemma Regroup4(a: int, b: int, c: int, d: int)
    ensures (a * b) * (c * d) == (a * c) * (b * d)
  {
  }

  /** A number of frames has a size that is a multiple of `align` bytes exactly if it is a multiple of
      `align` divided by its gcd with the frame size. */
  lemma FrameNumExact(align: nat, frame: nat, g: nat, n: nat)
    requires align > 0 && frame > 0 && IsGcd(g, align, frame)
    ensures align / g > 0 && (Divides(align, n * frame) <==> Divides(align / g, n))
  {
    var u, v, x, y := Coprime(g, align, frame);
    assert u > 0;
    if Divides(align, n * frame) {
      var t := DividesElim(align, n * frame);
      assert (n * v) * g == (t * u) * g by { assert n * (v * g) == (n * v) * g && t * (u * g) == (t * u) * g; }
      Cancel(n * v, t * u, g);
      CoprimeDivides(u, v, x, y, n, t);
    }
    if Divides(u, n) {
      var s := DividesElim(u, n);
      assert n * frame == (s * v) * align by { Regroup4(s, u, v, g); }
      DividesIntro(align, n * frame, s * v);
    }
  }

  lemma CommonMultiple(u: nat, v: nat, g: nat, x: int, y: int, n: nat)
    requires u > 0 && g > 0 && u * x + v * y == 1 && Divides(u * g, n) && Divides(v * g, n)
    ensures (v * g) * u > 0 && Divides((v * g) * u, n)
  {
    var s := DividesElim(u * g, n);
    var t := DividesElim(v * g, n);
    assert (t * v) * g == (s * u) * g by { assert t * (v * g) == (t * v) * g && s * (u * g) == (s * u) * g; }
    Cancel(t * v, s * u, g);
    CoprimeDivides(u, v, x, y, t, s);
    var k := t * x + s * y;
    MultipleOf(k, u, v * g);
    DividesIntro((v * g) * u, n, k);
  }

  lemma MultipleOf(k: int, u: nat, r: nat)
    requires u > 0 && r > 0
    ensures (k * u) * r == k * (r * u) && r * u > 0
  {
    MulMono(0, u, r);
  }

  lemma MultipleOfBoth(u: nat, v: nat, g: nat, n: nat)
    requires u > 0 && v > 0 && g > 0 && (v * g) * u > 0 && Divides((v * g) * u, n)
    ensures u * g > 0 && v * g > 0 && Divides(u * g, n) && Divides(v * g, n)
  {
    var w := DividesElim((v * g) * u, n);
    MulMono(0, u, g);
    MulMono(0, v, g);
    MultipleOf(w, u, v * g);
    DividesIntro(v * g, n, w * u);
    assert w * ((v * g) * u) == (w * v) * (u * g) by { Shuffle(w, v, g, u); }
    DividesIntro(u * g, n, w * v);
  }

  lemma Shuffle(w: int, v: int, g: int, u: int)
    ensures w * ((v * g) * u) == (w * v) * (u * g)
  {
    assert (v * g) * u == v * (u * g);
    assert w * (v * (u * g)) == (w * v) * (u * g);
  }

  /** The product divided by the gcd is the least common multiple: it divides exactly what both divide. */
  lemma LcmExact(f: nat, r: nat, g: nat, n: nat)
    requires f > 0 && r > 0 && IsGcd(g, f, r)
    ensures r * f / g > 0 && (Divides(f, n) && Divides(r, n) <==> Divides(r * f / g, n))
  {
    hide Divides;
    GcdPositive(g, f, r);
    var u, v, x, y := Coprime(g, f, r);
    assert u > 0 && v > 0;
    assert r * f == (r * u) * g by { assert r * (u * g) == (r * u) * g; }
    DivModUnique(r * f, g, r * u, 0);
    MulMono(0, u, r);
    if Divides(f, n) && Divides(r, n) { CommonMultiple(u, v, g, x, y, n); }
    if Divides(r * u, n) { MultipleOfBoth(u, v, g, n); }
  }

  const TWO31 := 0x8000_0000
  const TWO32 := 0x1_0000_0000

  /** n frames have a size that is a multiple of `byteAlign`, and n is a multiple of `frameReq`. */
  predicate Aligned(n: nat, byteAlign: nat, frameReq: nat, frameSize: nat) {
    Divides(byteAlign, n * frameSize) && Divides(frameReq, n)
  }

  /** The numbers of frames with a size that is a multiple of `byteAlign` are the multiples of f. */
  ghost predicate FramesForBytes(f: nat, byteAlign: nat, frameSize: nat) {
    f > 0 && forall m: nat :: Divides(byteAlign, m * frameSize) <==> Divides(f, m)
  }

  /** The aligned numbers of frames are the multiples of n. */
  ghost predicate FramesForAll(n: nat, byteAlign: nat, frameReq: nat, frameSize: nat) {
    n > 0 && forall m: nat :: Aligned(m, byteAlign, frameReq, frameSize) <==> Divides(n, m)
  }

  function Quotient(a: nat, b: nat): nat
    requires b > 0
  {
    a / b
  }

  lemma FrameNumIs(byteAlign: nat, frameSize: nat, g: nat)
    requires byteAlign > 0 && frameSize > 0 && IsGcd(g, byteAlign, frameSize)
    ensures g > 0 && FramesForBytes(Quotient(byteAlign, g), byteAlign, frameSize)
  {
    hide Divides, IsGcd;
    GcdPositive(g, byteAlign, frameSize);
    FrameNumExact(byteAlign, frameSize, g, 0);
    forall m: nat ensures Divides(byteAlign, m * frameSize) <==> Divides(byteAlign / g, m) {
      FrameNumExact(byteAlign, frameSize, g, m);
    }
  }

  lemma LcmIs(f: nat, frameReq: nat, h: nat, byteAlign: nat, frameSize: nat)
    requires frameReq > 0 && FramesForBytes(f, byteAlign, frameSize) && IsGcd(h, f, frameReq)
    ensures h > 0 && FramesForAll(Quotient(frameReq * f, h), byteAlign, frameReq, frameSize)
  {
    hide Divides, IsGcd;
    GcdPositive(h, f, frameReq);
    LcmExact(f, frameReq, h, 0);
    forall m: nat ensures Aligned(m, byteAlign, frameReq, frameSize) <==> Divides(frameReq * f / h, m) {
      LcmExact(f, frameReq, h, m);
      assert Divides(byteAlign, m * frameSize) <==> Divides(f, m);
    }
  }

  function Wrap32(x: nat): (w: nat)
    ensures x < TWO32 ==> w == x
  {
    x % TWO32
  }

  /** Without overflow of the product, the aligned numbers of frames are the multiples of the result. */
  method FrameAlignGet(byteAlign: nat, frameReq: nat, frameSize: nat) returns (n: nat, frameNum: nat)
    requires 0 < byteAlign < TWO31 && 0 < frameReq < TWO31 && 0 < frameSize < TWO31
    ensures FramesForBytes(frameNum, byteAlign, frameSize)
    ensures frameReq * frameNum < TWO32 ==> FramesForAll(n, byteAlign, frameReq, frameSize)
  {
    hide IsGcd, FramesForAll, Quotient;
    var g := Gcd(byteAlign, frameSize);
    FrameNumIs(byteAlign, frameSize, g);
    frameNum := Quotient(byteAlign, g);
    var h := Gcd(frameNum, frameReq);
    LcmIs(frameNum, frameReq, h, byteAlign, frameSize);
    n := Quotient(Wrap32(frameReq * frameNum), h);
  }

  lemma LeastAligned(n: nat, m: nat, byteAlign: nat, frameReq: nat, frameSize: nat)
    requires m > 0 && FramesForAll(n, byteAlign, frameReq, frameSize)
    ensures Aligned(n, byteAlign, frameReq, frameSize)
    ensures Aligned(m, byteAlign, frameReq, frameSize) ==> n <= m
  {
    DividesIntro(n, n, 1);
    if Aligned(m, byteAlign, frameReq, frameSize) {
      var q := DividesElim(n, m);
      if q < 1 { MulMono(q, 1, n); } else if q > 1 { MulMono(1, q, n); }
    }
  }

  // ---- the shift for the size in bytes -------------------------------------------------------------

  function BitAnd(x: nat, y: nat): nat {
    if x == 0 || y == 0 then 0 else 2 * BitAnd(x / 2, y / 2) + (if x % 2 == 1 && y % 2 == 1 then 1 else 0)
  }

  function BitLength(x: nat): nat { if x == 0 then 0 else 1 + BitLength(x / 2) }

  /** Leading zeros of a 32-bit word. */
  function Clz(x: nat): int { 32 - BitLength(x) }

  predicate IsPowerOf2(x: nat) { x != 0 && BitAnd(x, x - 1) == 0 }

  lemma {:induction false} BitAndSelf(x: nat)
    ensures BitAnd(x, x) == x
  {
    if x > 0 { BitAndSelf(x / 2); }
  }

  lemma {:induction false} LengthBounds(x: nat)
    requires x > 0
    ensures BitLength(x) > 0 && Pow2(BitLength(x) - 1) <= x < Pow2(BitLength(x))
  {
    if x > 1 { LengthBounds(x / 2); }
  }

  /** The bit trick tells the powers of two. */
  lemma {:induction false} PowerOf2Exact(x: nat)
    requires x > 0
    ensures BitLength(x) > 0 && (IsPowerOf2(x) <==> x == Pow2(BitLength(x) - 1))
  {
    if x > 1 {
      PowerOf2Exact(x / 2);
      if x % 2 == 1 {
        BitAndSelf(x / 2);
        assert (x - 1) / 2 == x / 2;
        LengthBounds(x / 2);
      } else {
        assert (x - 1) / 2 == x / 2 - 1;
      }
    }
  }

  function ShiftIdx(size: nat): int { (if IsPowerOf2(size) then 31 else 32) - Clz(size) }

  lemma {:induction false} Pow2Mono(j: nat, k: nat)
    requires j <= k
    ensures Pow2(j) <= Pow2(k)
    decreases k
  {
    if j < k { Pow2Mono(j, k - 1); }
  }

  /** The shift is the least k with size <= 2^k. */
  lemma ShiftLeast(size: nat, k: nat)
    requires size > 0
    ensures ShiftIdx(size) >= 0 && (size <= Pow2(k) <==> ShiftIdx(size) <= k)
  {
    LengthBounds(size);
    PowerOf2Exact(size);
    var n := BitLength(size);
    if k < n - 1 { Pow2Mono(k + 1, n - 1); assert Pow2(k + 1) == 2 * Pow2(k); Pow2Positive(k); }
    if n <= k { Pow2Mono(n, k); }
  }

  lemma {:induction false} Pow2Positive(k: nat)
    ensures Pow2(k) > 0
  {
    if k > 0 { Pow2Positive(k - 1); }
  }

  /** The alignment fields of a stream. */
  class Stream {
    var byteAlign: nat
    var frameReq: nat
    var frameSize: nat
    var alignFrames: nat
    var alignShift: int

    constructor (frameSize: nat)
      ensures this.frameSize == frameSize
    {
      this.frameSize := frameSize;
      byteAlign, frameReq, alignFrames, alignShift := 1, 1, 0, 0;
    }

    method SetAlign(byteAlign: nat, frameReq: nat) returns (ghost frameNum: nat)
      requires 0 < byteAlign < TWO31 && 0 < frameReq < TWO31 && 0 < frameSize < TWO31
      modifies this
      ensures this.byteAlign == byteAlign && this.frameReq == frameReq && frameSize == old(frameSize)
      ensures RightAlign(alignFrames, alignShift, frameNum, byteAlign, frameReq, frameSize)
    {
      this.byteAlign, this.frameReq := byteAlign, frameReq;
      frameNum := RecalcAlign();
    }

    method RecalcAlign() returns (ghost frameNum: nat)
      requires 0 < byteAlign < TWO31 && 0 < frameReq < TWO31 && 0 < frameSize < TWO31
      modifies this`alignFrames, this`alignShift
      ensures RightAlign(alignFrames, alignShift, frameNum, byteAlign, frameReq, frameSize)
    {
      hide Aligned, Pow2, ShiftIdx, FramesForBytes;
      alignFrames, frameNum := FrameAlignGet(byteAlign, frameReq, frameSize);
      var size := Wrap32(alignFrames * frameSize);
      alignShift := ShiftIdx(size);
      if frameReq * frameNum < TWO32 {
        forall m: nat | m > 0 && Aligned(m, byteAlign, frameReq, frameSize) ensures alignFrames <= m {
          LeastAligned(alignFrames, m, byteAlign, frameReq, frameSize);
        }
        LeastAligned(alignFrames, alignFrames, byteAlign, frameReq, frameSize);
        if alignFrames * frameSize < TWO32 {
          MulMono(0, alignFrames, frameSize);
          forall k: nat ensures alignShift >= 0 && (size <= Pow2(k) <==> alignShift <= k) { ShiftLeast(size, k); }
          ShiftLeast(size, 0);
        }
      }
    }
  }

  /** `frameNum` is the least number of frames for the byte alignment alone. As long as the products
      fit in 32 bits, `frames` is the least positive aligned number of frames and `shift` the least k for
      which that many frames have at most 2^k bytes. */
  ghost predicate RightAlign(frames: nat, shift: int, frameNum: nat, byteAlign: nat, frameReq: nat, frameSize: nat) {
    && FramesForBytes(frameNum, byteAlign, frameSize)
    && (frameReq * frameNum < TWO32 ==>
          && frames > 0 && Aligned(frames, byteAlign, frameReq, frameSize)
          && (forall m: nat :: m > 0 && Aligned(m, byteAlign, frameReq, frameSize) ==> frames <= m)
          && (frames * frameSize < TWO32 ==>
                shift >= 0 && forall k: nat :: frames * frameSize <= Pow2(k) <==> shift <= k))
  }
}
