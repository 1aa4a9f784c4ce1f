/** Rounding to symmetric int8 and back, one scale a group, over the reals. */
module FakeQuant {
  import opened Common

  function Abs(x: real): real { if x < 0.0 then -x else x }

  function RMax(a: real, b: real): real { if a >= b then a else b }

  /** rint: to the nearest integer, halves to the even one. */
  function Rint(x: real): int {
    var f := x.Floor;
    var d := x - (f as real);
    if d < 0.5 || (d == 0.5 && f % 2 == 0) then f else f + 1
  }

  lemma RintNearest(x: real)
    ensures Abs(x - (Rint(x) as real)) <= 0.5
    ensures Abs(x - (Rint(x) as real)) == 0.5 ==> Rint(x) % 2 == 0
  {
  }

  lemma RintOfInteger(n: int)
    ensures Rint(n as real) == n
  {
  }

  function Clamp(q: int): (c: int)
    ensures -127 <= c <= 127
  {
    Min(Max(q, -127), 127)
  }

  /** The code nearest to `q`: no other is as near. */
  lemma ClampNearest(q: int, c: int)
    requires -127 <= c <= 127 && c != Clamp(q)
    ensures Max(q - Clamp(q), Clamp(q) - q) < Max(q - c, c - q)
  {
  }

  // Products and quotients are wrapped so that proofs can hide them.

  function Times(a: real, b: real): real { a * b }

  function Over(a: real, b: real): real
    requires b > 0.0
  {
    a / b
  }

  lemma OverTimes(a: real, s: real)
    requires s > 0.0
    ensures Times(Over(a, s), s) == a && Over(Times(a, s), s) == a
  {
    assert (a * s) / s == a;
  }

  lemma TimesOrder(a: real, b: real, s: real)
    requires s > 0.0
    ensures a <= b <==> Times(a, s) <= Times(b, s)
  {
    if a <= b { assert (b - a) * s >= 0.0; } else { assert (a - b) * s > 0.0; }
  }

  lemma TimesNegate(a: real, b: real, s: real)
    ensures Times(-a, s) == -Times(a, s) && Times(a - b, s) == Times(a, s) - Times(b, s)
  {
  }

  function Code(w: real, s: real): int
    requires s > 0.0
  {
    Clamp(Rint(Over(w, s)))
  }

  function Rounded(w: real, s: real): real
    requires s > 0.0
  {
    Times(Code(w, s) as real, s)
  }

  // ---- one value -----------------------------------------------------------------------------------------------

  /** A value inside the code range is not clamped and moves by at most half a step. */
  lemma MovesAtMostHalf(w: real, s: real)
    requires s > 0.0 && Abs(w) <= Times(127.0, s)
    ensures Code(w, s) == Rint(Over(w, s))
    ensures Abs(Rounded(w, s) - w) <= Times(0.5, s)
  {
    hide Times, Over, Rint;
    var x := Over(w, s);
    OverTimes(w, s);
    TimesOrder(x, 127.0, s);
    TimesNegate(127.0, 0.0, s);
    TimesOrder(-127.0, x, s);
    RintNearest(x);
    var q := Rint(x) as real;
    TimesNegate(q, x, s);
    TimesOrder(q - x, 0.5, s);
    TimesOrder(-0.5, q - x, s);
    TimesNegate(0.5, 0.0, s);
  }

  lemma RoundingTwice(w: real, s: real)
    requires s > 0.0
    ensures Code(Rounded(w, s), s) == Code(w, s) && Rounded(Rounded(w, s), s) == Rounded(w, s)
  {
    hide Times, Over, Rint;
    OverTimes(Code(w, s) as real, s);
    RintOfInteger(Code(w, s));
  }

  // ---- one group -----------------------------------------------------------------------------------------------

  function AMax(w: seq<real>): (m: real)
    ensures m >= 0.0
  {
    if w == [] then 0.0 else RMax(AMax(w[..|w| - 1]), Abs(w[|w| - 1]))
  }

  lemma {:induction false} AMaxIsMax(w: seq<real>)
    ensures forall i :: 0 <= i < |w| ==> Abs(w[i]) <= AMax(w)
    ensures w != [] ==> exists i :: 0 <= i < |w| && Abs(w[i]) == AMax(w)
  {
    if w != [] {
      var n := |w| - 1;
      AMaxIsMax(w[..n]);
      if AMax(w) == Abs(w[n]) {
      } else {
        var i :| 0 <= i < n && Abs(w[..n][i]) == AMax(w[..n]);
        assert Abs(w[i]) == AMax(w);
      }
      forall i | 0 <= i < |w| ensures Abs(w[i]) <= AMax(w) {
        if i < n { assert Abs(w[..n][i]) <= AMax(w[..n]); }
      }
    }
  }

  lemma AMaxUnique(w: seq<real>, m: real)
    requires m >= 0.0 && (forall i :: 0 <= i < |w| ==> Abs(w[i]) <= m)
    requires m == 0.0 || exists i :: 0 <= i < |w| && Abs(w[i]) == m
    ensures AMax(w) == m
  {
    AMaxIsMax(w);
  }

  function Scale(w: seq<real>): (s: real)
    ensures s > 0.0
  {
    if AMax(w) > 0.0 then Over(AMax(w), 127.0) else 1.0
  }

  function Group(w: seq<real>): (v: seq<real>)
    ensures |v| == |w|
  {
    seq(|w|, i requires 0 <= i < |w| => Rounded(w[i], Scale(w)))
  }

  lemma InRange(w: seq<real>, i: nat)
    requires i < |w|
    ensures Abs(w[i]) <= Times(127.0, Scale(w))
    ensures AMax(w) > 0.0 ==> Times(127.0, Scale(w)) == AMax(w)
    ensures AMax(w) == 0.0 ==> w[i] == 0.0
  {
    AMaxIsMax(w);
  }

  /** The largest value of a group is on the grid: it stays where it is. */
  lemma MaxStays(w: seq<real>, i: nat)
    requires i < |w| && Abs(w[i]) == AMax(w)
    ensures Rounded(w[i], Scale(w)) == w[i]
  {
    hide Times, Over, Rint;
    var s := Scale(w);
    InRange(w, i);
    if AMax(w) > 0.0 {
      var c := if w[i] > 0.0 then 127 else -127;
      TimesNegate(127.0, 0.0, s);
      assert w[i] == Times(c as real, s);
      OverTimes(c as real, s);
      RintOfInteger(c);
    } else {
      ZeroStays(s);
    }
  }

  lemma ZeroStays(s: real)
    requires s > 0.0
    ensures Rounded(0.0, s) == 0.0
  {
  }

  /** So the group's maximum, and with it its scale, is unchanged, and quantizing again changes nothing. */
  lemma GroupIsFixed(w: seq<real>)
    ensures AMax(Group(w)) == AMax(w) && Scale(Group(w)) == Scale(w) && Group(Group(w)) == Group(w)
  {
    hide Times, Over, Rint, Rounded;
    var s, v := Scale(w), Group(w);
    forall i | 0 <= i < |w| ensures Abs(v[i]) <= AMax(w) {
      InRange(w, i);
      if AMax(w) > 0.0 { OnGrid(w[i], s); } else { ZeroStays(s); }
    }
    if w != [] {
      AMaxIsMax(w);
      var i :| 0 <= i < |w| && Abs(w[i]) == AMax(w);
      MaxStays(w, i);
      assert Abs(v[i]) == AMax(w);
    }
    AMaxUnique(v, AMax(w));
    forall i | 0 <= i < |w| ensures Rounded(v[i], s) == v[i] { RoundingTwice(w[i], s); }
  }

  lemma OnGrid(w: real, s: real)
    requires s > 0.0
    ensures Abs(Rounded(w, s)) <= Times(127.0, s)
  {
    hide Times, Over, Rint;
    TimesOrder(Code(w, s) as real, 127.0, s);
    TimesOrder(-127.0, Code(w, s) as real, s);
    TimesNegate(127.0, 0.0, s);
  }

  method ScaleRef(w: seq<real>) returns (s: real)
    ensures s == Scale(w)
    ensures s == if forall i :: 0 <= i < |w| ==> w[i] == 0.0 then 1.0 else AMax(w) / 127.0
  {
    AMaxIsMax(w);
    var amax, i := 0.0, 0;
    while i < |w|
      invariant 0 <= i <= |w| && amax == AMax(w[..i])
    {
      assert w[..i + 1][..i] == w[..i];
      amax := RMax(amax, Abs(w[i]));
      i := i + 1;
    }
    assert w[..|w|] == w;
    s := if amax > 0.0 then Over(amax, 127.0) else 1.0;
  }

  // ---- a whole weight matrix ----------------------------------------------------------------------------------

  type Matrix = seq<seq<real>>

  predicate Sized(q: Matrix, rows: nat, cols: nat) { |q| == rows && forall k :: 0 <= k < rows ==> |q[k]| == cols }

  function Div(a: nat, b: nat): nat
    requires b > 0
  {
    a / b
  }

  function Mul(a: nat, b: nat): nat { a * b }

  predicate Divides(b: nat, a: nat)
    requires b > 0
  {
    a % b == 0
  }

  lemma RowOfGroup(g: nat, i: nat, group: nat, K: nat)
    requires group > 0 && i < group && g < Div(K, group)
    ensures Mul(g, group) + i < K && Div(Mul(g, group) + i, group) == g
  {
    MulLe(g + 1, K / group, group);
    assert (g + 1) * group == g * group + group && K == group * (K / group) + K % group;
    assert group * (K / group) == (K / group) * group;
    DivModOf(g * group + i, group, g, i);
  }

  lemma GroupOfRow(k: nat, group: nat, K: nat)
    requires group > 0 && k < K && Divides(group, K)
    ensures Div(k, group) < Div(K, group)
  {
    assert K == group * (K / group) && k == group * (k / group) + k % group;
    LessByFactor(group, k / group, K / group);
  }

  /** A table of one scale a whole group reaches every row exactly when the groups divide the rows. */
  lemma TableFitsExactly(K: nat, group: nat)
    requires group > 0
    ensures (forall k: nat :: k < K ==> Div(k, group) < Div(K, group)) <==> Divides(group, K)
  {
    if Divides(group, K) {
      forall k: nat | k < K ensures Div(k, group) < Div(K, group) { GroupOfRow(k, group, K); }
    } else {
      var k := K - 1;
      assert K == group * (K / group) + K % group;
      DivModOf(k, group, K / group, K % group - 1);
      assert Div(k, group) == Div(K, group);
    }
  }

  /** The values of column `n` in row group `g`. */
  function Column(q: Matrix, K: nat, N: nat, group: nat, g: nat, n: nat): (c: seq<real>)
    requires Sized(q, K, N) && group > 0 && g < Div(K, group) && n < N
    ensures |c| == group
  {
    seq(group, i requires 0 <= i < group => RowOfGroup(g, i, group, K); q[Mul(g, group) + i][n])
  }

  function Table(q: Matrix, K: nat, N: nat, group: nat): (t: Matrix)
    requires Sized(q, K, N) && group > 0
    ensures Sized(t, Div(K, group), N)
  {
    seq(Div(K, group), g requires 0 <= g < Div(K, group) =>
      seq(N, n requires 0 <= n < N => Scale(Column(q, K, N, group, g, n))))
  }

  predicate Positive(t: Matrix) { forall g, n :: 0 <= g < |t| && 0 <= n < |t[g]| ==> t[g][n] > 0.0 }

  /** Every row finds its scales in the table. */
  ghost predicate Reaches(t: Matrix, K: nat, group: nat)
    requires group > 0
  {
    forall k: nat :: k < K ==> Div(k, group) < |t|
  }

  ghost function Applied(q: Matrix, K: nat, N: nat, group: nat, t: Matrix): (v: Matrix)
    requires Sized(q, K, N) && group > 0 && Sized(t, |t|, N) && Reaches(t, K, group) && Positive(t)
    ensures Sized(v, K, N)
  {
    seq(K, k requires 0 <= k < K =>
      seq(N, n requires 0 <= n < N => Rounded(q[k][n], t[Div(k, group)][n])))
  }

  lemma TablePositive(q: Matrix, K: nat, N: nat, group: nat)
    requires Sized(q, K, N) && group > 0
    ensures Positive(Table(q, K, N, group))
    ensures Divides(group, K) ==> Reaches(Table(q, K, N, group), K, group)
  {
    hide Scale, Column, Divides, Div;
    TableFitsExactly(K, group);
  }

  /** A column group of the quantized matrix is the quantized column group. */
  lemma ColumnOfApplied(q: Matrix, K: nat, N: nat, group: nat, g: nat, n: nat)
    requires Sized(q, K, N) && group > 0 && Divides(group, K) && g < Div(K, group) && n < N
    ensures Positive(Table(q, K, N, group)) && Reaches(Table(q, K, N, group), K, group)
    ensures Column(Applied(q, K, N, group, Table(q, K, N, group)), K, N, group, g, n)
            == Group(Column(q, K, N, group, g, n))
  {
    hide Rounded, Scale, Div, Mul, Divides;
    TablePositive(q, K, N, group);
    var v := Applied(q, K, N, group, Table(q, K, N, group));
    var c := Column(q, K, N, group, g, n);
    forall i | 0 <= i < group ensures Column(v, K, N, group, g, n)[i] == Group(c)[i] {
      RowOfGroup(g, i, group, K);
    }
  }

  /** For every matrix whose row count the group divides: the scale table is unchanged by quantizing, and quantizing again
      with the recomputed table changes nothing. */
  lemma MatrixIsFixed(q: Matrix, K: nat, N: nat, group: nat)
    requires Sized(q, K, N) && group > 0 && Divides(group, K)
    ensures Positive(Table(q, K, N, group)) && Reaches(Table(q, K, N, group), K, group)
    ensures var t := Table(q, K, N, group); var v := Applied(q, K, N, group, t);
            Table(v, K, N, group) == t && Applied(v, K, N, group, t) == v
  {
    hide Rounded, Scale, Column, Div, Mul, Divides;
    TablePositive(q, K, N, group);
    var t := Table(q, K, N, group);
    var v := Applied(q, K, N, group, t);
    forall g, n | 0 <= g < Div(K, group) && 0 <= n < N ensures Table(v, K, N, group)[g][n] == t[g][n] {
      ColumnOfApplied(q, K, N, group, g, n);
      GroupIsFixed(Column(q, K, N, group, g, n));
    }
    SameMatrix(Table(v, K, N, group), t, Div(K, group), N);
    forall k, n | 0 <= k < K && 0 <= n < N ensures Applied(v, K, N, group, t)[k][n] == v[k][n] {
      GroupOfRow(k, group, K);
      RoundingTwice(q[k][n], t[Div(k, group)][n]);
    }
    SameMatrix(Applied(v, K, N, group, t), v, K, N);
  }

  lemma SameMatrix(a: Matrix, b: Matrix, rows: nat, cols: nat)
    requires Sized(a, rows, cols) && Sized(b, rows, cols)
    requires forall k, n :: 0 <= k < rows && 0 <= n < cols ==> a[k][n] == b[k][n]
    ensures a == b
  {
    forall k | 0 <= k < rows ensures a[k] == b[k] {}
  }

  /** No weight moves by more than half its group's scale. */
  lemma MatrixMovesAtMostHalf(q: Matrix, K: nat, N: nat, group: nat, k: nat, n: nat)
    requires Sized(q, K, N) && group > 0 && Divides(group, K) && k < K && n < N
    ensures Positive(Table(q, K, N, group)) && Reaches(Table(q, K, N, group), K, group)
    ensures var t := Table(q, K, N, group);
            Abs(Applied(q, K, N, group, t)[k][n] - q[k][n]) <= Times(0.5, t[Div(k, group)][n])
  {
    hide Rounded, Scale, Times;
    TablePositive(q, K, N, group);
    GroupOfRow(k, group, K);
    var g, i := k / group, k % group;
    assert Mul(g, group) + i == k by { assert g * group == group * g; }
    var c := Column(q, K, N, group, g, n);
    assert c[i] == q[k][n];
    InRange(c, i);
    MovesAtMostHalf(c[i], Scale(c));
  }

  method TableRef(q: Matrix, K: nat, N: nat, group: nat) returns (t: Matrix)
    requires Sized(q, K, N) && group > 0
    ensures t == Table(q, K, N, group)
  {
    hide Scale, Div, Mul;
    t := [];
    var g := 0;
    while g < Div(K, group)
      invariant 0 <= g <= Div(K, group) && t == Table(q, K, N, group)[..g]
    {
      var row: seq<real>, n := [], 0;
      while n < N
        invariant 0 <= n <= N && row == Table(q, K, N, group)[g][..n]
      {
        var col: seq<real>, i := [], 0;
        while i < group
          invariant 0 <= i <= group && col == Column(q, K, N, group, g, n)[..i]
        {
          RowOfGroup(g, i, group, K);
          col := col + [q[Mul(g, group) + i][n]];
          i := i + 1;
        }
        assert col == Column(q, K, N, group, g, n);
        var s := ScaleRef(col);
        row := row + [s];
        n := n + 1;
      }
      assert row == Table(q, K, N, group)[g];
      t := t + [row];
      g := g + 1;
    }
  }

  method ApplyRef(q: Matrix, K: nat, N: nat, group: nat, t: Matrix) returns (v: Matrix)
    requires Sized(q, K, N) && group > 0 && Sized(t, |t|, N) && Reaches(t, K, group) && Positive(t)
    ensures v == Applied(q, K, N, group, t)
  {
    hide Rounded, Div;
    v := [];
    var k := 0;
    while k < K
      invariant 0 <= k <= K && v == Applied(q, K, N, group, t)[..k]
    {
      var row: seq<real>, n := [], 0;
      while n < N
        invariant 0 <= n <= N && row == Applied(q, K, N, group, t)[k][..n]
      {
        row := row + [Rounded(q[k][n], t[Div(k, group)][n])];
        n := n + 1;
      }
      assert row == Applied(q, K, N, group, t)[k];
      v := v + [row];
      k := k + 1;
    }
  }

  // ---- activations ---------------------------------------------------------------------------------------------

  /** An activation: a number, or one of the values that are none. */
  datatype Value = Finite(r: real) | Other(tag: int)

  predicate AllFinite(x: seq<Value>) { forall i :: 0 <= i < |x| ==> x[i].Finite? }

  function Reals(x: seq<Value>): (w: seq<real>)
    requires AllFinite(x)
    ensures |w| == |x|
  {
    seq(|x|, i requires 0 <= i < |x| => x[i].r)
  }

  function Values(w: seq<real>): (x: seq<Value>)
    ensures |x| == |w| && AllFinite(x)
  {
    seq(|w|, i requires 0 <= i < |w| => Finite(w[i]))
  }

  /** A group with a value that is no number is passed through; the others are quantized as weights are. */
  function ActGroup(x: seq<Value>): (v: seq<Value>)
    ensures |v| == |x|
  {
    if AllFinite(x) then Values(Group(Reals(x))) else x
  }

  lemma ActZero(x: seq<Value>, i: nat)
    requires AllFinite(x) && AMax(Reals(x)) == 0.0 && i < |x|
    ensures ActGroup(x)[i] == Finite(0.0)
  {
    hide Rounded, AMax;
    InRange(Reals(x), i);
    ZeroStays(Scale(Reals(x)));
  }

  lemma OtherStays(x: seq<Value>)
    requires !AllFinite(x)
    ensures ActGroup(x) == x
  {
  }

  lemma ActElement(x: seq<Value>, i: nat)
    requires AllFinite(x) && i < |x|
    ensures ActGroup(x)[i] == Finite(Rounded(x[i].r, Scale(Reals(x))))
  {
    hide Rounded, Scale;
  }

  method GroupRef(x: seq<Value>) returns (v: seq<Value>, scale: real)
    ensures v == ActGroup(x)
    ensures AllFinite(x) && AMax(Reals(x)) > 0.0 ==> scale == Scale(Reals(x))
    ensures AllFinite(x) && AMax(Reals(x)) == 0.0 ==> scale == 0.0
  {
    hide Rint, Times, ActGroup;
    var amax, finite, i := 0.0, true, 0;
    while i < |x|
      invariant 0 <= i <= |x| && amax >= 0.0 && (finite <==> AllFinite(x[..i]))
      invariant finite ==> amax == AMax(Reals(x[..i]))
    {
      assert x[..i + 1] == x[..i] + [x[i]];
      if !x[i].Finite? {
        finite := false;
      } else {
        if finite {
          assert Reals(x[..i + 1])[..i] == Reals(x[..i]);
        }
        amax := RMax(amax, Abs(x[i].r));
      }
      i := i + 1;
    }
    assert x[..|x|] == x;
    scale := Over(amax, 127.0);
    if !finite {
      OtherStays(x);
      return x, scale;
    }
    v := [];
    i := 0;
    if amax == 0.0 {
      while i < |x|
        invariant 0 <= i <= |x| && v == ActGroup(x)[..i]
      {
        ActZero(x, i);
        v := v + [Finite(0.0)];
        i := i + 1;
      }
    } else {
      while i < |x|
        invariant 0 <= i <= |x| && v == ActGroup(x)[..i]
      {
        ActElement(x, i);
        var q := Clamp(Rint(Over(x[i].r, scale)));
        v := v + [Finite(Times(q as real, scale))];
        i := i + 1;
      }
    }
  }

  datatype Mode = Off | WholeRow | Blocks(size: nat)

  /** The modes there are: off, row, blk128, blk32. */
  predicate KnownMode(mode: Mode) { mode.Blocks? ==> mode.size == 128 || mode.size == 32 }

  /** Block by block. */
  function ActBlocks(x: seq<Value>, g: nat): (v: seq<Value>)
    requires g > 0 && Divides(g, |x|)
    ensures |v| == |x|
    decreases |x|
  {
    if x == [] then []
    else ShorterDivides(x, g); ActGroup(x[..g]) + ActBlocks(x[g..], g)
  }

  lemma ShorterDivides(x: seq<Value>, g: nat)
    requires g > 0 && Divides(g, |x|) && x != []
    ensures g <= |x| && Divides(g, |x| - g)
  {
    var n := |x|;
    assert n == g * (n / g);
    LessByFactor(g, 0, n / g);
    MulLe(1, n / g, g);
    assert g * (n / g) == (n / g) * g;
    assert n - g == g * (n / g - 1) + 0;
    DivModOf(n - g, g, n / g - 1, 0);
  }

  lemma BlockNext(row: seq<Value>, c: nat, g: nat)
    requires g > 0 && c < |row| && Divides(g, |row| - c)
    ensures c + g <= |row| && Divides(g, |row| - (c + g))
    ensures ActBlocks(row[c..], g) == ActGroup(row[c..c + g]) + ActBlocks(row[c + g..], g)
  {
    hide ActGroup, Divides;
    ShorterDivides(row[c..], g);
    assert row[c..][..g] == row[c..c + g] && row[c..][g..] == row[c + g..];
  }

  lemma NoBlocks(g: nat)
    requires g > 0
    ensures Divides(g, 0) && ActBlocks([], g) == []
  {
  }

  /** Where the last of the blocks that start in the row ends. */
  function RoundUp(K: nat, g: nat): (end: nat)
    requires g > 0
    ensures K <= end < K + g && Divides(g, end)
  {
    RoundsUp(K, g);
    Mul(Div(K + g - 1, g), g)
  }

  lemma RoundsUp(K: nat, g: nat)
    requires g > 0
    ensures var end := Mul(Div(K + g - 1, g), g); K <= end < K + g && Divides(g, end)
  {
    var q := (K + g - 1) / g;
    assert K + g - 1 == g * q + (K + g - 1) % g && g * q == q * g;
    DivModOf(q * g, g, q, 0);
  }

  /** The elements a row of K columns reads and writes: whole blocks. */
  function Extent(K: nat, mode: Mode): (end: nat)
    requires KnownMode(mode)
    ensures end >= K
  {
    if mode.Blocks? then RoundUp(K, mode.size) else K
  }

  /** They stay in the row exactly when the block size divides it. */
  lemma ExtentFitsExactly(K: nat, mode: Mode)
    requires KnownMode(mode)
    ensures Extent(K, mode) == K <==> (mode.Blocks? ==> Divides(mode.size, K))
    ensures Extent(33, Blocks(32)) == 64
  {
    if mode.Blocks? && Divides(mode.size, K) {
      var g := mode.size;
      DivModOf(K + g - 1, g, K / g, g - 1);
      assert K == g * (K / g) && g * (K / g) == (K / g) * g;
    }
  }

  /** The row of K columns at the start of `x`. */
  function ActRow(x: seq<Value>, K: nat, mode: Mode): (v: seq<Value>)
    requires KnownMode(mode) && Extent(K, mode) <= |x|
    ensures |v| == Extent(K, mode)
  {
    match mode
    case Off => x[..K]
    case WholeRow => ActGroup(x[..K])
    case Blocks(g) => ActBlocks(x[..RoundUp(K, g)], g)
  }

  /** `x` is the memory from the row on; a last block that is not whole takes what follows the row with it. */
  method RowRef(x: seq<Value>, K: nat, mode: Mode) returns (v: seq<Value>)
    requires KnownMode(mode) && Extent(K, mode) <= |x|
    ensures v == ActRow(x, K, mode)
  {
    hide ActGroup, Divides, RoundUp, ActBlocks;
    match mode
    case Off => v := x[..K];
    case WholeRow =>
      var scale;
      v, scale := GroupRef(x[..K]);
    case Blocks(g) =>
      v := [];
      var c := 0;
      ghost var row := x[..RoundUp(K, g)];
      assert row[0..] == row;
      NoBlocks(g);
      while c < K
        invariant 0 <= c <= |row| && Divides(g, |row| - c) && v + ActBlocks(row[c..], g) == ActBlocks(row, g)
      {
        BlockNext(row, c, g);
        assert row[c..c + g] == x[c..c + g];
        var block, scale := GroupRef(x[c..c + g]);
        assert v + (block + ActBlocks(row[c + g..], g)) == v + block + ActBlocks(row[c + g..], g);
        v := v + block;
        c := c + g;
      }
      if c < |row| { BlockNext(row, c, g); }
      assert row[|row|..] == [] && v + [] == v;
  }

  lemma ActGroupTwice(x: seq<Value>)
    ensures ActGroup(ActGroup(x)) == ActGroup(x)
  {
    hide Group;
    if AllFinite(x) {
      GroupIsFixed(Reals(x));
      assert Reals(ActGroup(x)) == Group(Reals(x));
    }
  }

  /** Quantizing a row of activations twice is quantizing it once, in every mode. */
  lemma ActRowTwice(x: seq<Value>, K: nat, mode: Mode)
    requires KnownMode(mode) && Extent(K, mode) <= |x|
    ensures ActRow(ActRow(x, K, mode), K, mode) == ActRow(x, K, mode)
  {
    hide ActGroup, ActBlocks, RoundUp;
    var v := ActRow(x, K, mode);
    assert v[..Extent(K, mode)] == v;
    ActGroupTwice(x[..K]);
    if mode.Blocks? { ActBlocksTwice(x[..RoundUp(K, mode.size)], mode.size); }
  }

  lemma {:induction false} ActBlocksTwice(x: seq<Value>, g: nat)
    requires g > 0 && Divides(g, |x|)
    ensures ActBlocks(ActBlocks(x, g), g) == ActBlocks(x, g)
    decreases |x|
  {
    hide ActGroup, Divides;
    if x != [] {
      ShorterDivides(x, g);
      ActBlocksTwice(x[g..], g);
      ActGroupTwice(x[..g]);
      var v := ActBlocks(x, g);
      assert v[..g] == ActGroup(x[..g]) && v[g..] == ActBlocks(x[g..], g);
    }
  }
}
