/** Conversion between f32 and bf16 bit patterns, and what it means for the numbers they stand for. */
module Bf16 {
  import opened Common

  const HALF := 0x1_0000             // bf16 keeps the upper 16 bits of an f32
  const SIGN := 0x8000_0000
  const INF := 0x7F80_0000
  const BF16_INF := 0x7F80

  /** An f32 pattern without its sign. */
  function Magnitude(u: nat): nat { u % SIGN }

  predicate IsNaN32(u: nat) { Magnitude(u) > INF }

  predicate IsNaN16(b: nat) { b % 0x8000 > BF16_INF }

  /** `b | 0x40`: makes a NaN quiet. */
  function Quiet(b: nat): nat { if b / 0x40 % 2 == 1 then b else b + 0x40 }

  function ToUint32(x: nat): nat { x % 0x1_0000_0000 }

  function F32ToBf16(u: nat): nat {
    if IsNaN32(u) then Quiet(u / HALF) % HALF
    else ToUint32(u + (0x7FFF + u / HALF % 2)) / HALF
  }

  function Bf16ToF32(b: nat): nat { b * HALF }

  // ---- bits ----------------------------------------------------------------------------------------------------

  /** Half way or above goes up, exactly half way to the even pattern; nothing wraps and the sign stays. */
  lemma RoundsBits(u: nat)
    requires u < 0x1_0000_0000 && !IsNaN32(u)
    ensures u + (0x7FFF + u / HALF % 2) < 0x1_0000_0000
    ensures var hi, lo := u / HALF, u % HALF;
            F32ToBf16(u) == if lo > 0x8000 || (lo == 0x8000 && hi % 2 == 1) then hi + 1 else hi
    ensures F32ToBf16(u) / 0x8000 == u / SIGN && F32ToBf16(u) % 0x8000 <= BF16_INF
  {
  }

  lemma NaNStaysNaN(u: nat)
    requires u < 0x1_0000_0000
    ensures F32ToBf16(u) < HALF
    ensures IsNaN16(F32ToBf16(u)) <==> IsNaN32(u)
    ensures F32ToBf16(u) / 0x8000 == u / SIGN
    ensures u % 0x8000_0000 > 0x7F80_0000 ==>
              (F32ToBf16(u) == u / 0x1_0000 || F32ToBf16(u) == u / 0x1_0000 + 0x40) && F32ToBf16(u) / 0x40 % 2 == 1
  {
    if !IsNaN32(u) { RoundsBits(u); }
  }

  /** Every bf16 survives the way through f32, except a signalling NaN, which comes back quiet. */
  lemma RoundTripExactly(b: nat)
    requires b < HALF
    ensures F32ToBf16(Bf16ToF32(b)) == (if IsNaN16(b) then Quiet(b) else b)
    ensures F32ToBf16(Bf16ToF32(b)) == b <==> !IsNaN16(b) || b / 0x40 % 2 == 1
  {
    var u := Bf16ToF32(b);
    assert u / HALF == b && u % HALF == 0 && Magnitude(u) == (b % 0x8000) * HALF;
  }

  // ---- numbers -------------------------------------------------------------------------------------------------

  function Pow2(n: nat): (p: nat)
    ensures p >= 1
  {
    if n == 0 then 1 else 2 * Pow2(n - 1)
  }

  const FRACTION := 0x80_0000

  /** The size of a non-NaN magnitude in units of 2^-149; the pattern of infinity counts as 2^128, the number that
      overflow rounds from. */
  function Size(m: nat): nat {
    var e, f := m / FRACTION, m % FRACTION;
    if e == 0 then f else Times(FRACTION + f, Pow2(e - 1))
  }

  function Times(a: nat, b: nat): nat { a * b }

  lemma TimesAdd(a: nat, b: nat, p: nat)
    ensures Times(a + b, p) == Times(a, p) + Times(b, p)
  {
  }

  /** One step of the last place at a magnitude. */
  function Ulp(m: nat): nat {
    var e := m / FRACTION;
    if e == 0 then 1 else Pow2(e - 1)
  }

  /** Within one bf16 step the numbers are evenly spaced, over the step to the next power of two as well. */
  lemma EvenlySpaced(hi: nat, lo: nat)
    requires lo <= HALF
    ensures Size(hi * HALF + lo) == Size(hi * HALF) + Times(lo, Ulp(hi * HALF))
  {
    hide Times;
    var m := hi * HALF;
    var e, f := m / FRACTION, m % FRACTION;
    assert f % HALF == 0 && f + HALF <= FRACTION && m == e * FRACTION + f;
    if f + lo < FRACTION {
      assert (m + lo) / FRACTION == e && (m + lo) % FRACTION == f + lo;
      TimesAdd(FRACTION + f, lo, Ulp(m));
      TimesOne(lo);
    } else {
      assert m + lo == (e + 1) * FRACTION;
      assert (m + lo) / FRACTION == e + 1 && (m + lo) % FRACTION == 0;
      TimesAdd(FRACTION + f, lo, Ulp(m));
      TimesOne(lo);
      TimesOne(FRACTION);
      TimesTwice(FRACTION, Ulp(m));
    }
  }

  lemma TimesOne(a: nat)
    ensures Times(a, 1) == a
  {
  }

  lemma TimesTwice(a: nat, p: nat)
    ensures Times(a, 2 * p) == Times(a + a, p)
  {
  }

  lemma TimesLe(a: nat, b: nat, p: nat)
    requires a <= b
    ensures Times(a, p) <= Times(b, p)
  {
    MulLe(a, b, p);
  }

  lemma {:induction false} SizeMonotone(a: nat, b: nat)
    requires a <= b
    ensures Size(a * HALF) <= Size(b * HALF)
    decreases b - a
  {
    if a < b {
      SizeMonotone(a, b - 1);
      EvenlySpaced(b - 1, HALF);
      assert (b - 1) * HALF + HALF == b * HALF;
    }
  }

  function Distance(a: nat, b: nat): nat { if a <= b then b - a else a - b }

  /** The bf16 magnitude of an f32. */
  function Rounded(u: nat): nat { F32ToBf16(u) % 0x8000 }

  /** roundTiesToEven (section 4.3.1 of IEEE 754-2019): no bf16 number is nearer, and of two equally near ones the even
      pattern is taken. */
  lemma NearestTiesToEven(u: nat, b: nat)
    requires u < 0x1_0000_0000 && !IsNaN32(u) && b <= BF16_INF
    ensures var x := Size(Magnitude(u)); var d := Distance(x, Size(Rounded(u) * HALF));
            && d <= Distance(x, Size(b * HALF))
            && (d == Distance(x, Size(b * HALF)) && b != Rounded(u) ==> Rounded(u) % 2 == 0)
  {
    hide Size, Rounded, Magnitude, IsNaN32;
    var hi, lo := RoundedFrom(u);
    Between(hi, lo, b);
    UpOrDown(hi, lo);
  }

  /** The bf16 step an f32 magnitude lies in, and which end it goes to. */
  lemma RoundedFrom(u: nat) returns (hi: nat, lo: nat)
    requires u < 0x1_0000_0000 && !IsNaN32(u)
    ensures lo < HALF && Magnitude(u) == hi * HALF + lo
    ensures Rounded(u) == if lo > 0x8000 || (lo == 0x8000 && hi % 2 == 1) then hi + 1 else hi
  {
    RoundsBits(u);
    hi, lo := Magnitude(u) / HALF, Magnitude(u) % HALF;
    assert u / HALF == (u / SIGN) * 0x8000 + hi && u % HALF == lo;
  }

  /** Every other bf16 number is at least as far as the two next to the f32 one. */
  lemma Between(hi: nat, lo: nat, b: nat)
    requires lo < HALF
    ensures Size(hi * HALF) <= Size(hi * HALF + lo) <= Size((hi + 1) * HALF)
    ensures b <= hi ==> Size(b * HALF) <= Size(hi * HALF)
    ensures b < hi ==> Size(b * HALF) < Size(hi * HALF)
    ensures b >= hi + 1 ==> Size(b * HALF) >= Size((hi + 1) * HALF)
    ensures b > hi + 1 ==> Size(b * HALF) > Size((hi + 1) * HALF)
  {
    EvenlySpaced(hi, lo);
    EvenlySpaced(hi, HALF);
    TimesLe(lo, HALF, Ulp(hi * HALF));
    assert hi * HALF + HALF == (hi + 1) * HALF;
    if b < hi {
      SizeMonotone(b, hi - 1);
      StepUp(hi - 1);
    } else if b > hi + 1 {
      SizeMonotone(hi + 2, b);
      StepUp(hi + 1);
    }
  }

  lemma StepUp(a: nat)
    ensures Size(a * HALF) < Size((a + 1) * HALF)
  {
    hide Size, Ulp;
    EvenlySpaced(a, HALF);
    UlpPositive(a * HALF);
    assert a * HALF + HALF == (a + 1) * HALF;
  }

  lemma UlpPositive(m: nat)
    ensures Times(HALF, Ulp(m)) >= HALF
  {
    MulLe(1, Ulp(m), HALF);
    assert Ulp(m) * HALF == HALF * Ulp(m);
  }

  lemma UpOrDown(hi: nat, lo: nat)
    requires lo < HALF
    ensures var x, down, up := Size(hi * HALF + lo), Size(hi * HALF), Size((hi + 1) * HALF);
            && (lo < 0x8000 ==> x - down < up - x)
            && (lo == 0x8000 ==> x - down == up - x)
            && (lo > 0x8000 ==> x - down > up - x)
  {
    hide Size;
    var p := Ulp(hi * HALF);
    EvenlySpaced(hi, lo);
    EvenlySpaced(hi, HALF);
    assert hi * HALF + HALF == (hi + 1) * HALF;
    TimesAdd(lo, HALF - lo, p);
    if lo < 0x8000 {
      TimesLess(lo, HALF - lo, p);
    } else if lo > 0x8000 {
      TimesLess(HALF - lo, lo, p);
    }
  }

  lemma TimesLess(a: nat, b: nat, p: nat)
    requires a < b && p >= 1
    ensures Times(a, p) < Times(b, p)
  {
    MulLe(a + 1, b, p);
  }

  /** Larger f32 magnitudes never round to smaller bf16 ones. */
  lemma RoundingMonotone(u: nat, v: nat)
    requires u < 0x1_0000_0000 && v < 0x1_0000_0000 && !IsNaN32(u) && !IsNaN32(v) && Magnitude(u) <= Magnitude(v)
    ensures Rounded(u) <= Rounded(v)
  {
    hide Rounded, Magnitude, IsNaN32;
    var hi, lo := RoundedFrom(u);
    var hi', lo' := RoundedFrom(v);
  }
}
