/** Reciprocal-division constants.

    The encoders emit a multiplier and shifts; device code multiplies and shifts instead of
    dividing.  The consuming formulas are written here as `CuteQuotient` (the round-up reciprocal
    scheme of Granlund and Montgomery) and `CutlassQuotient` (multiply-high, then shift).  Both
    encoders are proved right against true division, down to the packed bytes. */
module FastDivmod {
  import opened Bytes
  import opened Arithmetic

  const TWO31: int := 0x8000_0000
  const TWO32: int := 0x1_0000_0000

  type Divisor = d: int | 1 <= d < 0x8000_0000 witness 1

  function BitLength(n: nat): nat {
    if n == 0 then 0 else 1 + BitLength(n / 2)
  }

  lemma {:induction false} BitLengthBounds(n: nat)
    ensures n < Pow2(BitLength(n))
    ensures n > 0 ==> BitLength(n) > 0 && Pow2(BitLength(n) - 1) <= n
  {
    if n > 0 {
      BitLengthBounds(n / 2);
      var m := BitLength(n / 2);
      assert BitLength(n) == m + 1 && Pow2(m + 1) == 2 * Pow2(m);
      if n > 1 {
        assert Pow2(m) == 2 * Pow2(m - 1);
      } else {
        assert m == 0 && Pow2(0) == 1;
      }
      hide Pow2, BitLength;
    }
  }

  /** `ceil(log2(d))` as the encoders compute it. */
  function CeilLog2(d: Divisor): nat {
    BitLength(d - 1)
  }

  lemma CeilLog2Bounds(d: Divisor)
    ensures d <= Pow2(CeilLog2(d))
    ensures d >= 2 ==> CeilLog2(d) >= 1 && Pow2(CeilLog2(d)) <= 2 * (d - 1)
    ensures d == 1 ==> CeilLog2(d) == 0 && Pow2(CeilLog2(d)) == 1
    ensures CeilLog2(d) <= 31
  {
    BitLengthBounds(d - 1);
    Pow2Facts();
    if CeilLog2(d) > 31 {
      Pow2Mono(31, CeilLog2(d) - 1);
    }
  }

  lemma {:induction false} Pow2Mono(a: nat, b: nat)
    requires a <= b
    ensures Pow2(a) <= Pow2(b)
    decreases b
  {
    if a < b {
      Pow2Mono(a, b - 1);
    }
  }

  // ---- Small facts about truncating division ----

  lemma DivDiv(x: int, a: int, b: int)
    requires x >= 0 && a > 0 && b > 0
    ensures a * b > 0 && (x / a) / b == x / (a * b)
  {
    var y := x / a;
    var q := y / b;
    MulMono(1, a, 1, b);
    assert x == y * a + x % a && y == q * b + y % b;
    MulMono(0, y % b, a, a);
    MulMono(0, y % b, 0, a);
    assert (y % b) * a <= (b - 1) * a by { MulMono(y % b, b - 1, a, a); }
    assert x == q * (a * b) + (y % b) * a + x % a by {
      assert (q * b + y % b) * a == q * (a * b) + (y % b) * a;
    }
    assert (b - 1) * a == a * b - a;
    DivUnique(x, a * b, q);
  }

  /** The shared core.  `scale` is the power of two divided by and `m * d == scale + excess`: the
      rounded-up reciprocal divides `n` exactly precisely when the excess does not carry `n` past
      the end of its block. */
  lemma ReciprocalExactIff(n: int, d: int, m: int, scale: int, excess: int)
    requires n >= 0 && d >= 1 && m >= 0 && scale >= 1 && m * d == scale + excess && 0 <= excess
    ensures (m * n) / scale == n / d <==> excess * n + scale * (n % d) < scale * d
  {
    var q, r := n / d, n % d;
    var x, low := m * n, q * scale;
    ScaledProduct(n, d, m, scale, excess, q, r);
    MulMono(0, scale, 0, r);
    MulMono(0, excess, 0, n);
    CancelLe(low, x, d);
    assert (low + scale) * d == low * d + scale * d;
    if excess * n + scale * r < scale * d {
      CancelLt(x, low + scale, d);
      DivUnique(x, scale, q);
    } else {
      CancelLe(low + scale, x, d);
      assert x == (x / scale) * scale + x % scale;
    }
  }

  /** A small enough excess never carries. */
  lemma ReciprocalDivides(n: int, d: int, m: int, scale: int, excess: int)
    requires n >= 0 && d >= 1 && m >= 0 && scale >= 1
    requires m * d == scale + excess && 0 <= excess && excess * n < scale
    ensures (m * n) / scale == n / d
  {
    SmallExcess(n, d, scale, excess);
    ReciprocalExactIff(n, d, m, scale, excess);
  }

  lemma SmallExcess(n: int, d: int, scale: int, excess: int)
    requires d >= 1 && scale >= 1 && excess * n < scale
    ensures excess * n + scale * (n % d) < scale * d
  {
    MulMono(scale, scale, n % d, d - 1);
    assert scale * (d - 1) == scale * d - scale;
  }

  lemma ScaledProduct(n: int, d: int, m: int, scale: int, excess: int, q: int, r: int)
    requires n == q * d + r && m * d == scale + excess
    ensures d * (m * n) == (q * scale) * d + scale * r + excess * n
  {
    assert d * (m * n) == (m * d) * n;
    assert (scale + excess) * n == scale * n + excess * n;
    assert scale * n == scale * (q * d) + scale * r;
    assert scale * (q * d) == (q * scale) * d;
  }

  lemma CancelLe(a: int, b: int, d: int)
    requires d >= 1 && a * d <= d * b
    ensures a <= b
  {
    assert (a - b) * d == a * d - d * b;
    if b < a {
      MulMono(1, a - b, d, d);
    }
  }

  lemma CancelLt(a: int, b: int, d: int)
    requires d >= 1 && d * a < b * d
    ensures a < b
  {
    assert (a - b) * d == d * a - b * d;
    if b <= a {
      MulMono(0, a - b, d, d);
    }
  }

  // ---- CuTe ----

  datatype CuteFields = CuteFields(divisor: int, multiplier: int, shift1: int, shift2: int)

  function CuteEncode(d: Divisor): CuteFields {
    var l := CeilLog2(d);
    CuteFields(d, (TWO32 * (Pow2(l) - d)) / d + 1, if l < 1 then l else 1, if l < 1 then 0 else l - 1)
  }

  /** High word of the product. */
  function MulHigh(m: int, n: int): int {
    (m * n) / TWO32
  }

  /** What the device computes from the four fields. */
  function CuteQuotient(f: CuteFields, n: int): int
    requires f.shift1 >= 0 && f.shift2 >= 0
  {
    var t := MulHigh(f.multiplier, n);
    (t + (n - t) / Pow2(f.shift1)) / Pow2(f.shift2)
  }

  /** Rounding a quotient up by one: the product overshoots by at least one and at most d. */
  lemma RoundUp(a: int, d: int)
    requires a >= 0 && d >= 1
    ensures a / d >= 0 && 1 <= (a / d + 1) * d - a <= d
  {
    var q := a / d;
    assert a == q * d + a % d;
    assert (q + 1) * d == q * d + d;
    if q < 0 { MulMono(1, -q, d, d); }
  }

  lemma QuotientBelow(a: int, d: int, bound: int)
    requires a >= 0 && d >= 1 && bound >= 0 && a < bound * d
    ensures a / d < bound
  {
    var q := a / d;
    assert a == q * d + a % d;
    CancelLt(q, bound, d);
  }

  /** The multiplier is 2^32 short of the scaled reciprocal, with an excess of at most d. */
  lemma CuteMultiplier(d: Divisor)
    ensures var f := CuteEncode(d); var scale := TWO32 * Pow2(CeilLog2(d));
            && 1 <= f.multiplier < TWO32
            && 1 <= (TWO32 + f.multiplier) * d - scale <= d
  {
    CeilLog2Bounds(d);
    hide CeilLog2, Pow2;
    CuteMultiplierExcess(d, Pow2(CeilLog2(d)));
    CuteMultiplierFits(d, Pow2(CeilLog2(d)));
  }

  lemma CuteMultiplierExcess(d: Divisor, p: int)
    requires d <= p
    ensures 1 <= (TWO32 + ((TWO32 * (p - d)) / d + 1)) * d - TWO32 * p <= d
  {
    var a := TWO32 * (p - d);
    MulMono(0, TWO32, 0, p - d);
    RoundUp(a, d);
    var m := a / d + 1;
    assert (TWO32 + m) * d == TWO32 * d + m * d;
    assert a == TWO32 * p - TWO32 * d;
  }

  lemma CuteMultiplierFits(d: Divisor, p: int)
    requires d <= p && (d >= 2 ==> p <= 2 * (d - 1)) && (d == 1 ==> p == 1)
    ensures 0 <= (TWO32 * (p - d)) / d && (TWO32 * (p - d)) / d + 1 < TWO32
  {
    if d >= 2 {
      assert TWO32 * (p - d) < (TWO32 - 1) * d by {
        assert TWO32 * (p - d) <= TWO32 * (d - 2);
        assert (TWO32 - 1) * d == TWO32 * d - d;
      }
      MulMono(0, TWO32, 0, p - d);
      RoundUp(TWO32 * (p - d), d);
      QuotientBelow(TWO32 * (p - d), d, TWO32 - 1);
    }
  }

  /** For every 31-bit divisor and every 32-bit dividend the device formula is true division,
      the multiplier fits 32 bits, and no intermediate leaves 32 bits. */
  lemma CuteDivides(d: Divisor, n: int)
    requires 0 <= n < TWO32
    ensures var f := CuteEncode(d); var t := MulHigh(f.multiplier, n);
            && 0 <= f.multiplier < TWO32 && 0 <= f.shift1 <= 1 && 0 <= f.shift2 <= 30
            && 0 <= t <= n
            && 0 <= t + (n - t) / Pow2(f.shift1) < TWO32
            && CuteQuotient(f, n) == n / d
  {
    var f, l := CuteEncode(d), CeilLog2(d);
    var p := Pow2(l);
    var t := MulHigh(f.multiplier, n);
    CeilLog2Bounds(d);
    CuteMultiplier(d);
    HighWordBounded(f.multiplier, n);
    assert Pow2(0) == 1 && Pow2(1) == 2 * Pow2(0);
    // (n + t) / p is the scaled product divided by 2^32 * p.
    var m := TWO32 + f.multiplier;
    assert n + t == (m * n) / TWO32 by { AddMultiple(n, f.multiplier); }
    MulMono(0, m, 0, n);
    DivDiv(m * n, TWO32, p);
    var excess := m * d - TWO32 * p;
    assert excess * n < TWO32 * p by { ExcessSmall(excess, n, p, TWO32); }
    ReciprocalDivides(n, d, m, TWO32 * p, excess);
    if l == 0 {
      assert d == 1;
    } else {
      assert Pow2(l) == 2 * Pow2(l - 1);
      assert t + (n - t) / 2 == (n + t) / 2;
      DivDiv(n + t, 2, Pow2(l - 1));
    }
  }

  lemma ExcessSmall(excess: int, n: int, p: int, bound: int)
    requires 0 <= excess <= p && 0 <= n < bound && p >= 1
    ensures excess * n < bound * p
  {
    MulMono(excess, p, n, n);
    MulMono(p, p, n, bound - 1);
    assert p * (bound - 1) == bound * p - p;
  }

  lemma HighWordBounded(m: int, n: int)
    requires 0 <= m < TWO32 && 0 <= n
    ensures 0 <= MulHigh(m, n) <= n
  {
    MulMono(0, m, 0, n);
    MulMono(m, TWO32, n, n);
    var x := m * n;
    assert x == (x / TWO32) * TWO32 + x % TWO32;
  }

  lemma AddMultiple(n: int, m: int)
    requires n >= 0 && m >= 0
    ensures n + (m * n) / TWO32 == ((TWO32 + m) * n) / TWO32
  {
    var x := m * n;
    var q := x / TWO32;
    assert (TWO32 + m) * n == TWO32 * n + x;
    assert x == q * TWO32 + x % TWO32;
    DivUnique(TWO32 * n + x, TWO32, n + q);
  }

  // ---- CUTLASS ----

  datatype CutlassFields = CutlassFields(divisor: int, multiplier: int, shiftRight: int)

  function CutlassEncode(d: Divisor): CutlassFields {
    if d == 1 then CutlassFields(1, 0, 0)
    else
      var p := 31 + CeilLog2(d);
      CutlassFields(d, (Pow2(p) + d - 1) / d, p - 32)
  }

  function CutlassQuotient(f: CutlassFields, n: int): int
    requires f.shiftRight >= 0
  {
    MulHigh(f.multiplier, n) / Pow2(f.shiftRight)
  }

  lemma CutlassMultiplier(d: Divisor)
    requires d >= 2
    ensures var f := CutlassEncode(d); var scale := TWO31 * Pow2(CeilLog2(d));
            && f.shiftRight == CeilLog2(d) - 1 >= 0
            && 0 <= f.multiplier < TWO32
            && 0 <= f.multiplier * d - scale < d
            && Pow2(31 + CeilLog2(d)) == scale == TWO32 * Pow2(CeilLog2(d) - 1)
  {
    CeilLog2Bounds(d);
    var l := CeilLog2(d);
    assert Pow2(31 + l) == TWO31 * Pow2(l) by { Pow2Facts(); Pow2Add(31, l); }
    assert Pow2(l) == 2 * Pow2(l - 1);
    CutlassMultiplierFits(d, Pow2(l));
  }

  lemma CutlassMultiplierFits(d: Divisor, p: int)
    requires 2 <= d <= p <= 2 * (d - 1)
    ensures var scale := TWO31 * p; var m := (scale + d - 1) / d;
            0 <= m < TWO32 && 0 <= m * d - scale < d
  {
    var a := TWO31 * p + d - 1;
    RoundUp(a, d);
    assert (a / d + 1) * d == (a / d) * d + d;
    QuotientBelow(a, d, TWO32);
  }

  /** How far the emitted reciprocal overshoots. */
  function CutlassExcess(d: Divisor): int {
    CutlassEncode(d).multiplier * d - TWO31 * Pow2(CeilLog2(d))
  }

  /** For every divisor from 2 and every dividend, however large: the formula is true division
      exactly when the overshoot does not carry the dividend past the end of its block. */
  lemma CutlassExactIff(d: Divisor, n: int)
    requires d >= 2 && n >= 0
    ensures var f, scale := CutlassEncode(d), TWO31 * Pow2(CeilLog2(d));
            && 0 <= f.multiplier < TWO32 && 0 <= f.shiftRight <= 30 && 0 <= CutlassExcess(d) < d
            && (CutlassQuotient(f, n) == n / d <==> CutlassExcess(d) * n + scale * (n % d) < scale * d)
  {
    var f, l := CutlassEncode(d), CeilLog2(d);
    CeilLog2Bounds(d);
    CutlassMultiplier(d);
    hide CutlassEncode, CeilLog2;
    MulMono(0, f.multiplier, 0, n);
    DivDiv(f.multiplier * n, TWO32, Pow2(l - 1));
    ReciprocalExactIff(n, d, f.multiplier, TWO31 * Pow2(l), CutlassExcess(d));
  }

  /** Up to the end of a block one comparison decides: every dividend is divided exactly iff the
      last one is. */
  lemma CutlassExactUpTo(d: Divisor, last: nat)
    requires d >= 2 && last % d == d - 1
    ensures (forall n :: 0 <= n <= last ==> CutlassRight(d, n)) <==>
            CutlassExcess(d) * last < TWO31 * Pow2(CeilLog2(d))
  {
    var scale := TWO31 * Pow2(CeilLog2(d));
    CutlassExactIff(d, last);
    assert scale * (d - 1) == scale * d - scale;
    assert CutlassRight(d, last) <==> CutlassExcess(d) * last < scale;
    hide CutlassEncode, CeilLog2, CutlassExcess, Pow2, CutlassQuotient, CutlassRight;
    if CutlassExcess(d) * last < scale {
      forall n | 0 <= n <= last
        ensures CutlassRight(d, n)
      {
        CutlassBefore(d, n, last);
      }
    }
  }

  lemma CutlassBefore(d: Divisor, n: int, last: int)
    requires d >= 2 && 0 <= n <= last && CutlassExcess(d) * last < TWO31 * Pow2(CeilLog2(d))
    ensures CutlassRight(d, n)
  {
    CutlassExactIff(d, n);
    hide CutlassEncode, CeilLog2, CutlassExcess, CutlassQuotient;
    MulMono(CutlassExcess(d), CutlassExcess(d), n, last);
    SmallExcess(n, d, TWO31 * Pow2(CeilLog2(d)), CutlassExcess(d));
  }

  predicate CutlassRight(d: Divisor, n: int)
    requires n >= 0
  {
    CutlassEncode(d).shiftRight >= 0 && CutlassQuotient(CutlassEncode(d), n) == n / d
  }

  /** For every 31-bit divisor from 2 and every 31-bit dividend. */
  lemma CutlassDivides(d: Divisor, n: int)
    requires d >= 2 && 0 <= n < TWO31
    ensures var f := CutlassEncode(d);
            && 0 <= f.multiplier < TWO32 && 0 <= f.shiftRight <= 30
            && CutlassQuotient(f, n) == n / d
  {
    CeilLog2Bounds(d);
    CutlassExactIff(d, n);
    ExcessSmall(CutlassExcess(d), n, Pow2(CeilLog2(d)), TWO31);
    SmallExcess(n, d, TWO31 * Pow2(CeilLog2(d)), CutlassExcess(d));
  }

  /** With divisor 1 the emitted constants are zero, so the formula is right for zero only: the
      consumer has to take that divisor apart. */
  lemma CutlassUnitDivisor(n: int)
    requires n >= 0
    ensures CutlassQuotient(CutlassEncode(1), n) == n / 1 <==> n == 0
  {
    assert Pow2(0) == 1;
  }

  /** The 31-bit dividend bound is not slack: divisor 7 overshoots by 5, so an unsigned 32-bit
      dividend at the end of its block comes out one too large. */
  lemma CutlassNeedsI31()
    ensures CutlassExcess(7) == 5 && !CutlassRight(7, 4294967291)
    ensures CutlassQuotient(CutlassEncode(7), 4294967291) == 4294967291 / 7 + 1
  {
    SevenEncoded();
    hide CutlassEncode, CeilLog2;
    assert Pow2(3) == 2 * Pow2(2) == 4 * Pow2(1) == 8 * Pow2(0);
  }

  lemma SevenEncoded()
    ensures CeilLog2(7) == 3 && CutlassEncode(7) == CutlassFields(7, 2454267027, 2)
  {
    assert BitLength(6) == 1 + BitLength(3) && BitLength(3) == 1 + BitLength(1) && BitLength(1) == 1 + BitLength(0);
    CutlassMultiplier(7);
    hide BitLength;
    assert Pow2(3) == 2 * Pow2(2) == 4 * Pow2(1) == 8 * Pow2(0);
  }

  // ---- The bytes that cross the launch boundary ----

  function CuteBytes(d: Divisor): (raw: seq<Byte>)
    ensures |raw| == 12
  {
    var f := CuteEncode(d);
    CuteDivides(d, 0);
    SignedImage(f.divisor, 4) + LittleEndian(f.multiplier, 4) +
    LittleEndian(f.shift1, 1) + LittleEndian(f.shift2, 1) + [0, 0]
  }

  function CuteDecode(raw: seq<Byte>): CuteFields
    requires |raw| == 12
  {
    CuteFields(FromSigned(raw[..4]), FromLittleEndian(raw[4..8]),
               FromLittleEndian(raw[8..9]), FromLittleEndian(raw[9..10]))
  }

  lemma CutlassFieldsFit(d: Divisor)
    ensures CutlassEncode(d).multiplier >= 0 && CutlassEncode(d).shiftRight >= 0
  {
    if d >= 2 {
      CutlassDivides(d, 0);
    }
  }

  function CutlassBytes(d: Divisor): (raw: seq<Byte>)
    ensures |raw| == 12
  {
    var f := CutlassEncode(d);
    CutlassFieldsFit(d);
    SignedImage(f.divisor, 4) + LittleEndian(f.multiplier, 4) + LittleEndian(f.shiftRight, 4)
  }

  function CutlassDecode(raw: seq<Byte>): CutlassFields
    requires |raw| == 12
  {
    CutlassFields(FromSigned(raw[..4]), FromLittleEndian(raw[4..8]), FromLittleEndian(raw[8..]))
  }

  /** A device that reads the 12 CuTe bytes back divides exactly. */
  lemma CuteBytesDivide(d: Divisor, n: int)
    requires 0 <= n < TWO32
    ensures CuteDecode(CuteBytes(d)) == CuteEncode(d)
    ensures CuteQuotient(CuteDecode(CuteBytes(d)), n) == n / d
  {
    CuteDivides(d, n);
    CuteBytesDecode(d);
    hide CuteEncode, CuteBytes, CuteDecode;
  }

  lemma ShiftsAreNatural(d: Divisor)
    ensures CuteEncode(d).shift1 >= 0 && CuteEncode(d).shift2 >= 0 && CutlassEncode(d).shiftRight >= 0
  {
  }

  lemma DivisorsKept(d: Divisor)
    ensures CuteEncode(d).divisor == d && CutlassEncode(d).divisor == d
  {
  }

  lemma CuteBytesDecode(d: Divisor)
    ensures CuteDecode(CuteBytes(d)) == CuteEncode(d)
  {
    CuteDivides(d, 0);
    hide CeilLog2, LittleEndian, FromLittleEndian, SignedImage, FromSigned, CuteQuotient, MulHigh, CuteDecode, Pow2;
    FourFieldsDecode(CuteEncode(d));
  }

  lemma FourFieldsDecode(f: CuteFields)
    requires 1 <= f.divisor < TWO31 && 0 <= f.multiplier < TWO32 && 0 <= f.shift1 <= 1 && 0 <= f.shift2 <= 30
    ensures CuteDecode(SignedImage(f.divisor, 4) + LittleEndian(f.multiplier, 4) +
                       LittleEndian(f.shift1, 1) + LittleEndian(f.shift2, 1) + [0, 0]) == f
  {
    hide LittleEndian, FromLittleEndian, SignedImage, FromSigned, Pow2;
    Pow2Facts();
    var a, b := SignedImage(f.divisor, 4), LittleEndian(f.multiplier, 4);
    var c, d := LittleEndian(f.shift1, 1), LittleEndian(f.shift2, 1);
    var raw := a + b + c + d + [0, 0];
    ImageWidth(f.divisor, 4);
    assert raw[..4] == a && raw[4..8] == b && raw[8..9] == c && raw[9..10] == d;
    SignedRoundTrip(f.divisor, 4);
    LittleEndianRoundTrip(f.multiplier, 4);
    LittleEndianRoundTrip(f.shift1, 1);
    LittleEndianRoundTrip(f.shift2, 1);
  }

  lemma ImageWidth(v: int, width: nat)
    ensures |SignedImage(v, width)| == width
  {
  }

  lemma CutlassBytesDivide(d: Divisor, n: int)
    requires d >= 2 && 0 <= n < TWO31
    ensures CutlassDecode(CutlassBytes(d)) == CutlassEncode(d)
    ensures CutlassQuotient(CutlassDecode(CutlassBytes(d)), n) == n / d
  {
    var f, raw := CutlassEncode(d), CutlassBytes(d);
    CutlassDivides(d, n);
    Pow2Facts();
    assert raw[..4] == SignedImage(f.divisor, 4);
    SignedRoundTrip(f.divisor, 4);
    assert raw[4..8] == LittleEndian(f.multiplier, 4);
    LittleEndianRoundTrip(f.multiplier, 4);
    assert raw[8..] == LittleEndian(f.shiftRight, 4);
    hide LittleEndian, FromLittleEndian, SignedImage, FromSigned;
    LittleEndianRoundTrip(f.shiftRight, 4);
  }

  /** Divisor 1 is emitted as itself with zero constants. */
  lemma CutlassUnitDecode()
    ensures CutlassDecode(CutlassBytes(1)) == CutlassFields(1, 0, 0)
  {
    var raw := CutlassBytes(1);
    Pow2Facts();
    assert raw[..4] == SignedImage(1, 4) && raw[4..8] == LittleEndian(0, 4) && raw[8..] == LittleEndian(0, 4);
    hide LittleEndian, FromLittleEndian, SignedImage, FromSigned;
    SignedRoundTrip(1, 4);
    LittleEndianRoundTrip(0, 4);
  }
}
