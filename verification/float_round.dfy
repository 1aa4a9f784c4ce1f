/**
 Rounding a real to a binary float, for the range integer PCM needs: |x| < 2^7, subnormals included. Nearest, ties to even
 (section 4.3.1 of IEEE 754-2019).
 */
module FloatRounding {
  import opened FakeQuant

  /** 2^k. */
  function Pow(k: int): (p: real)
    ensures p > 0.0
    decreases if k < 0 then -k else k
  {
    if k == 0 then 1.0 else if k > 0 then 2.0 * Pow(k - 1) else Pow(k + 1) / 2.0
  }

  const TOP := 6

  /** The exponent of x's binade, not below `low`. */
  function Exponent(x: real, e: int, low: int): (r: int)
    requires low <= e
    ensures low <= r <= e
    decreases e - low
  {
    if e == low || Abs(x) >= Pow(e) then e else Exponent(x, e - 1, low)
  }

  /** The distance of neighbouring floats of `bits` significant bits around x. */
  function Ulp(x: real, bits: nat, low: int): (u: real)
    requires low <= TOP
    ensures u > 0.0
  {
    Pow(Exponent(x, TOP, low) - bits + 1)
  }

  function RoundTo(x: real, bits: nat, low: int): real
    requires low <= TOP
  {
    Times(Rint(Over(x, Ulp(x, bits, low))) as real, Ulp(x, bits, low))
  }

  function Float64(x: real): real { RoundTo(x, 53, -1022) }

  function Float32(x: real): real { RoundTo(x, 24, -126) }

  // ---- powers and exponents --------------------------------------------------------------------------------

  lemma {:induction false} PowStep(k: int)
    ensures Pow(k + 1) == 2.0 * Pow(k)
  {
  }

  lemma {:induction false} PowGrows(a: int, b: int)
    requires a <= b
    ensures Pow(a) <= Pow(b)
    decreases b - a
  {
    if a < b {
      PowGrows(a, b - 1);
      PowStep(b - 1);
    }
  }

  lemma {:induction false} PowAdd(a: int, b: nat)
    ensures Pow(a + b) == Times(Pow(a), Pow(b))
    decreases b
  {
    if b > 0 {
      hide Pow, Times;
      PowAdd(a, b - 1);
      PowStep(a + (b - 1));
      PowStep(b - 1);
      TimesDouble(Pow(a), Pow(b - 1));
    }
  }

  lemma TimesDouble(a: real, b: real)
    ensures Times(a, 2.0 * b) == 2.0 * Times(a, b)
  {
  }

  /** The binade of a number between two powers. */
  lemma {:induction false} ExponentIs(x: real, e: int, low: int, k: int)
    requires low <= k <= e && Pow(k) <= Abs(x) < Pow(k + 1)
    ensures Exponent(x, e, low) == k
    decreases e - k
  {
    if k < e {
      PowGrows(k + 1, e);
      ExponentIs(x, e - 1, low, k);
    }
  }

  lemma {:induction false} ExponentBelow(x: real, e: int, low: int, k: int)
    requires low <= k <= e && Abs(x) < Pow(k + 1)
    ensures Exponent(x, e, low) <= k
    decreases e - k
  {
    if k < e {
      PowGrows(k + 1, e);
      ExponentBelow(x, e - 1, low, k);
    }
  }

  // ---- rounding ----------------------------------------------------------------------------------------------

  lemma RintMonotone(a: real, b: real)
    requires a <= b
    ensures Rint(a) <= Rint(b)
  {
  }

  lemma RintOdd(a: real)
    ensures Rint(-a) == -Rint(a)
  {
    if a == (a.Floor as real) {
      assert (-a).Floor == -a.Floor;
    } else {
      assert (-a).Floor == -a.Floor - 1;
    }
  }

  lemma OverOrder(a: real, b: real, u: real)
    requires u > 0.0
    ensures Over(a, u) <= Over(b, u) <==> a <= b
    ensures Over(a, u) < Over(b, u) <==> a < b
    ensures Over(-a, u) == -Over(a, u)
  {
    OverTimes(a, u);
    OverTimes(b, u);
    OverTimes(-a, u);
    TimesOrder(Over(a, u), Over(b, u), u);
    TimesOrder(Over(b, u), Over(a, u), u);
  }

  lemma RoundOdd(x: real, bits: nat, low: int)
    requires low <= TOP
    ensures RoundTo(-x, bits, low) == -RoundTo(x, bits, low)
  {
    hide Times, Over, Rint, Exponent, Pow;
    SameExponent(x, TOP, low);
    var u := Ulp(x, bits, low);
    OverOrder(x, x, u);
    RintOdd(Over(x, u));
    TimesNegate(Rint(Over(x, u)) as real, 0.0, u);
  }

  lemma {:induction false} SameExponent(x: real, e: int, low: int)
    requires low <= e
    ensures Exponent(-x, e, low) == Exponent(x, e, low)
    decreases e - low
  {
    if e > low { SameExponent(x, e - 1, low); }
  }

  /** A whole number of steps is a float; what lies above it is not rounded below it, nor the other way round. */
  lemma RoundAgainst(x: real, bits: nat, low: int, n: int)
    requires low <= TOP
    ensures var u := Ulp(x, bits, low); var v := Times(n as real, u);
            && (x >= v ==> RoundTo(x, bits, low) >= v)
            && (x <= v ==> RoundTo(x, bits, low) <= v)
            && (x == v ==> RoundTo(x, bits, low) == v)
  {
    hide Times, Over, Rint, Ulp;
    var u := Ulp(x, bits, low);
    var v := Times(n as real, u);
    OverTimes(n as real, u);
    OverOrder(x, v, u);
    OverOrder(v, x, u);
    RintOfInteger(n);
    if x >= v { RintMonotone(n as real, Over(x, u)); TimesOrder(n as real, Rint(Over(x, u)) as real, u); }
    if x <= v { RintMonotone(Over(x, u), n as real); TimesOrder(Rint(Over(x, u)) as real, n as real, u); }
  }

  /** The nearest float: at most half a step away, where a number in [2^k, 2^(k + 1)) has steps of 2^(k - bits + 1). */
  lemma RoundNearest(x: real, bits: nat, low: int, k: int)
    requires low <= k <= TOP && Pow(k) <= Abs(x) < Pow(k + 1)
    ensures Abs(RoundTo(x, bits, low) - x) <= Times(0.5, Pow(k - bits + 1))
  {
    hide Times, Over, Rint, Exponent, Pow;
    ExponentIs(x, TOP, low, k);
    var u := Pow(k - bits + 1);
    var q := Rint(Over(x, u)) as real;
    OverTimes(x, u);
    RintNearest(Over(x, u));
    TimesNegate(q, Over(x, u), u);
    TimesOrder(q - Over(x, u), 0.5, u);
    TimesOrder(-0.5, q - Over(x, u), u);
    TimesNegate(0.5, 0.0, u);
  }

  /** 2^k as an integer. */
  function Whole(k: nat): (n: nat)
    ensures n as real == Pow(k)
  {
    if k == 0 then 1 else 2 * Whole(k - 1)
  }

  /** n * 2^-b is a float when its last bit is not below the step of the largest binade. */
  lemma ShortSumsExact(n: int, b: nat, bits: nat, low: int)
    requires low <= TOP && TOP - bits + 1 <= 0 - b
    ensures RoundTo(Times(n as real, Pow(0 - b)), bits, low) == Times(n as real, Pow(0 - b))
  {
    hide Times, Over, Rint, Exponent, Pow;
    var x := Times(n as real, Pow(0 - b));
    var j := Exponent(x, TOP, low) - bits + 1;
    PowAdd(j, 0 - b - j);
    var m := n * Whole(0 - b - j);
    assert Times(m as real, Pow(j)) == x by {
      Reassociate(n as real, Pow(j), Whole(0 - b - j) as real);
      WholeTimes(n, Whole(0 - b - j));
    }
    RoundAgainst(x, bits, low, m);
  }

  lemma WholeTimes(n: int, w: nat)
    ensures (n * w) as real == Times(n as real, w as real)
  {
  }

  lemma Reassociate(a: real, p: real, w: real)
    ensures Times(Times(a, w), p) == Times(a, Times(p, w))
  {
  }

  // ---- near one ----------------------------------------------------------------------------------------------

  /** Steps of [1/2, 1). */
  lemma UpperHalf(x: real, bits: nat, low: int)
    requires low <= -1 && 0.5 <= x < 1.0
    ensures Ulp(x, bits, low) == Pow(0 - bits)
  {
    assert Pow(-1) == 0.5 && Pow(0) == 1.0;
    ExponentIs(x, TOP, low, -1);
  }

  lemma LowerHalf(x: real, bits: nat, low: int)
    requires low <= -2 && 0.0 <= x < 0.5 && bits >= 1
    ensures 0.0 <= RoundTo(x, bits, low) <= 0.75
  {
    hide Times, Over, Rint, Exponent;
    assert Pow(-1) == 0.5 && Pow(-2) == 0.25;
    ExponentBelow(x, TOP, low, -2);
    var u := Ulp(x, bits, low);
    PowGrows(Exponent(x, TOP, low) - bits + 1, -2);
    RoundAgainst(x, bits, low, 0);
    TimesZero(u);
    OverTimes(x, u);
    RintNearest(Over(x, u));
    TimesOrder(Rint(Over(x, u)) as real - Over(x, u), 0.5, u);
    TimesNegate(Rint(Over(x, u)) as real, Over(x, u), u);
    HalfOf(u);
  }

  lemma TimesZero(u: real)
    ensures Times(0.0, u) == 0.0
  {
  }

  lemma HalfOf(u: real)
    ensures Times(0.5, u) == u / 2.0
  {
  }

  lemma Powers()
    ensures Pow(-24) == 1.0 / 16777216.0 && Pow(-53) == 1.0 / 9007199254740992.0
    ensures Pow(-7) == 1.0 / 128.0 && Pow(-15) == 1.0 / 32768.0 && Pow(-23) == 1.0 / 8388608.0 && Pow(-31) == 1.0 / 2147483648.0
  {
    hide Times;
    assert Pow(0) == 1.0;
    assert Pow(-4) == 0.0625 && Pow(-7) == 1.0 / 128.0 && Pow(-8) == 1.0 / 256.0;
    Eight(-8);
    Eight(-16);
    Eight(-24);
    Eight(-32);
    Eight(-40);
    Eight(-7);
    Eight(-15);
    Eight(-23);
    Eight(-45);
    Eight(-37);
    Eight(-29);
    Eight(-21);
    Eight(-13);
    Eight(-5);
    assert Pow(-5) == 0.03125;
  }

  lemma Eight(k: int)
    requires k <= 0
    ensures Pow(k - 8) == Pow(k) / 256.0
  {
    PowStep(k - 8);
    PowStep(k - 7);
    PowStep(k - 6);
    PowStep(k - 5);
    PowStep(k - 4);
    PowStep(k - 3);
    PowStep(k - 2);
    PowStep(k - 1);
  }

  /** From here on a float no longer stays below 1. */
  const LIMIT := 33554431.0 / 33554432.0

  lemma One(bits: nat, low: int)
    requires low <= -2 && bits in {24, 53}
    ensures RoundTo(1.0, bits, low) == 1.0
  {
    hide Times, Over, Rint, Exponent;
    assert Pow(0) == 1.0 && Pow(1) == 2.0;
    ExponentIs(1.0, TOP, low, 0);
    PowAdd(1 - bits, bits - 1);
    Reassociate(1.0, Pow(1 - bits), Whole(bits - 1) as real);
    TimesComm(Whole(bits - 1) as real, Pow(1 - bits));
    RoundAgainst(1.0, bits, low, Whole(bits - 1));
  }

  lemma TimesComm(a: real, b: real)
    ensures Times(a, b) == Times(b, a)
  {
  }

  /** Rounding stays in the unit interval. */
  lemma UnitKept(x: real, bits: nat, low: int)
    requires low <= -2 && bits in {24, 53} && 0.0 <= x <= 1.0
    ensures 0.0 <= RoundTo(x, bits, low) <= 1.0
  {
    hide Times, Over, Rint, Exponent;
    if x == 1.0 {
      One(bits, low);
    } else if x < 0.5 {
      LowerHalf(x, bits, low);
    } else {
      UpperHalf(x, bits, low);
      RoundAgainst(x, bits, low, 0);
      TimesZero(Ulp(x, bits, low));
      assert 0 - bits + bits == 0;
      PowAdd(0 - bits, bits);
      TimesComm(Whole(bits) as real, Pow(0 - bits));
      RoundAgainst(x, bits, low, Whole(bits));
    }
  }

  /** The nearest float of a number is below 1 exactly below the limit, half a step under 1. */
  lemma Float32Threshold(y: real)
    requires 0.0 <= y <= 1.0
    ensures Float32(y) < 1.0 <==> y < LIMIT
  {
    hide Times, Over, Rint, Exponent, Pow;
    if y == 1.0 {
      One(24, -126);
    } else if y < 0.5 {
      LowerHalf(y, 24, -126);
    } else {
      UpperHalf(y, 24, -126);
      Powers();
      var z := Over(y, 1.0 / 16777216.0);
      OverSteps(y);
      RintBelow(z);
      TimesOrder(Rint(z) as real, 16777215.0, 1.0 / 16777216.0);
      TimesOrder(16777216.0, Rint(z) as real, 1.0 / 16777216.0);
      StepsBelowOne();
    }
  }

  lemma OverSteps(y: real)
    ensures Over(y, 1.0 / 16777216.0) == y * 16777216.0
  {
  }

  lemma RintBelow(z: real)
    ensures Rint(z) <= 16777215 <==> z < 16777215.5
  {
    if z < 16777215.5 {
      RintMonotone(z, 16777215.5);
      if z >= 16777215.0 { assert z.Floor == 16777215; } else { RintMonotone(z, 16777215.0); }
    } else {
      RintMonotone(16777215.5, z);
      assert 16777215.5.Floor == 16777215;
    }
  }

  lemma StepsBelowOne()
    ensures Times(16777215.0, 1.0 / 16777216.0) < 1.0 && Times(16777216.0, 1.0 / 16777216.0) == 1.0
  {
  }

  /** Rounding to double first does not carry a number over the limit unless it was within 2^-40 of it. */
  lemma Float64Threshold(x: real)
    requires 0.0 <= x <= 1.0 && (x < LIMIT ==> x <= LIMIT - 1.0 / 1099511627776.0)
    ensures Float64(x) < LIMIT <==> x < LIMIT
  {
    hide Times, Over, Rint, Exponent, Pow;
    if x == 1.0 {
      One(53, -1022);
    } else if x < 0.5 {
      LowerHalf(x, 53, -1022);
    } else {
      UpperHalf(x, 53, -1022);
      Powers();
      LimitSteps();
      RoundAgainst(x, 53, -1022, 9007198986305536);
      RoundAgainst(x, 53, -1022, 9007198986297344);
    }
  }

  lemma LimitSteps()
    ensures Times(9007198986305536 as real, 1.0 / 9007199254740992.0) == LIMIT
    ensures Times(9007198986297344 as real, 1.0 / 9007199254740992.0) == LIMIT - 1.0 / 1099511627776.0
  {
  }

  /** A double quotient stored as a float. */
  function Stored(x: real): real { Float32(Float64(x)) }

  /** What is stored stays in [-1, 1], and below 1 exactly for a number below the limit. */
  lemma StoredRange(x: real)
    requires -1.0 <= x <= 1.0 && (x < LIMIT ==> x <= LIMIT - 1.0 / 1099511627776.0)
    ensures -1.0 <= Stored(x) <= 1.0
    ensures Stored(x) < 1.0 <==> x < LIMIT
  {
    hide RoundTo;
    if x >= 0.0 {
      UnitKept(x, 53, -1022);
      UnitKept(Float64(x), 24, -126);
      Float64Threshold(x);
      Float32Threshold(Float64(x));
    } else {
      UnitKept(-x, 53, -1022);
      UnitKept(Float64(-x), 24, -126);
      RoundOdd(-x, 53, -1022);
      RoundOdd(Float64(-x), 24, -126);
    }
  }
}
