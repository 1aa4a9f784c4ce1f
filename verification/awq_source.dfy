/**
 The virtual source over a pack-quantized checkpoint: four packed tensors per linear, presented as one bf16 matrix that is
 dequantized on demand.
 */
module AwqSource {
  import opened Common

  const LANES := 8

  // ---- nibbles -------------------------------------------------------------------------------------------------

  /** `(word >> 4 * j) & 15`. */
  function Nibble(word: nat, j: nat): (q: nat)
    ensures q < 16
  {
    if j == 0 then word % 16 else Nibble(word / 16, j - 1)
  }

  function Pack(lanes: seq<nat>): nat {
    if lanes == [] then 0 else lanes[0] + 16 * Pack(lanes[1..])
  }

  /** A word of packed nibbles gives each of them back. */
  lemma {:induction false} NibbleOfPack(lanes: seq<nat>, j: nat)
    requires j < |lanes| && forall i :: 0 <= i < |lanes| ==> lanes[i] < 16
    ensures Nibble(Pack(lanes), j) == lanes[j]
  {
    assert Pack(lanes) % 16 == lanes[0] && Pack(lanes) / 16 == Pack(lanes[1..]);
    if j > 0 { NibbleOfPack(lanes[1..], j - 1); }
  }

  // ---- the matrix ----------------------------------------------------------------------------------------------

  /** One linear's tensors as words and bf16 values. `dequant` is `bf16(float(q - z) * scale)`, with its one rounding. */
  datatype Matrix<!S, !D> = Matrix(N: nat, K: nat, group: nat, packed: seq<nat>, scale: seq<S>, zero: seq<nat>,
                                 dequant: (int, S) -> D) {
    predicate Accepts() { group > 0 && Mod(group, LANES) == 0 && Mod(K, group) == 0 }

    function Groups(): nat
      requires group > 0
    {
      Div(K, group)
    }

    /** What the overlay's checks establish before anything is dequantized. */
    predicate Valid() {
      && Accepts()
      && |packed| == Mul(N, Div(K, LANES))
      && |scale| == Mul(N, Groups())
      && |zero| == Mul(Div(N + 7, LANES), Groups())
    }
  }

  // Products and quotients are wrapped so that proofs can hide them and use the lemmas below.

  function Mul(a: nat, b: nat): nat { a * b }

  function Div(a: nat, b: nat): nat
    requires b > 0
  {
    a / b
  }

  function Mod(a: nat, b: nat): (m: nat)
    requires b > 0
    ensures m < b
  {
    a % b
  }

  lemma CellInside(row: nat, rows: nat, col: nat, cols: nat)
    requires row < rows && col < cols
    ensures Mul(row, cols) + col < Mul(rows, cols) && Mul(row, cols) + cols == Mul(row + 1, cols) <= Mul(rows, cols)
  {
    MulLe(row + 1, rows, cols);
  }

  lemma Exact(a: nat, b: nat)
    requires b > 0 && Mod(a, b) == 0
    ensures Mul(Div(a, b), b) == a
  {
  }

  lemma Split(q: nat, b: nat, t: nat)
    requires t < b
    ensures Div(Mul(q, b) + t, b) == q && Mod(Mul(q, b) + t, b) == t
  {
    DivModOf(q * b + t, b, q, t);
  }

  lemma RowsOfEight(n: nat, rows: nat)
    requires n < rows
    ensures Div(n, LANES) < Div(rows + 7, LANES)
  {
  }

  /** Columns of group `gi` fall into the words of that group. */
  lemma WordsOfGroup(gi: nat, group: nat, t: nat)
    requires group > 0 && Mod(group, LANES) == 0 && t < group
    ensures Div(Mul(gi, group) + t, LANES) == Mul(gi, Div(group, LANES)) + Div(t, LANES)
    ensures Mod(Mul(gi, group) + t, LANES) == Mod(t, LANES)
    ensures Div(t, LANES) < Div(group, LANES)
  {
    var w := group / 8;
    assert group == 8 * w;
    assert gi * group == 8 * (gi * w) by { assert gi * (8 * w) == 8 * (gi * w); }
    DivModOf(gi * group + t, 8, gi * w + t / 8, t % 8);
  }

  /** The nibble of weight [n, k]: packed along K. */
  function Code<S, D>(m: Matrix<S, D>, n: nat, k: nat): nat
    requires m.Valid() && n < m.N && k < m.K
  {
    WordInside(m, n, k);
    Nibble(m.packed[Mul(n, Div(m.K, LANES)) + Div(k, LANES)], Mod(k, LANES))
  }

  /** The zero point of row n, group g: packed along N. */
  function Zero<S, D>(m: Matrix<S, D>, n: nat, g: nat): nat
    requires m.Valid() && n < m.N && g < m.Groups()
  {
    ZeroInside(m, n, g);
    Nibble(m.zero[Mul(Div(n, LANES), m.Groups()) + g], Mod(n, LANES))
  }

  function Scale<S, D>(m: Matrix<S, D>, n: nat, g: nat): S
    requires m.Valid() && n < m.N && g < m.Groups()
  {
    CellInside(n, m.N, g, m.Groups());
    m.scale[Mul(n, m.Groups()) + g]
  }

  /** W[n, k] = bf16((q[n, k] - z[n, k / G]) * scale[n, k / G]). */
  function Weight<S, D>(m: Matrix<S, D>, n: nat, k: nat): D
    requires m.Valid() && n < m.N && k < m.K
  {
    GroupInside(m, k);
    var g := Div(k, m.group);
    m.dequant(Code(m, n, k) - Zero(m, n, g), Scale(m, n, g))
  }

  lemma WordInside<S, D>(m: Matrix<S, D>, n: nat, k: nat)
    requires m.Valid() && n < m.N && k < m.K
    ensures Mul(n, Div(m.K, LANES)) + Div(k, LANES) < |m.packed|
  {
    var g := m.group / 8;
    assert m.group == 8 * g && m.K == (m.K / m.group) * m.group;
    assert (m.K / m.group) * (8 * g) == 8 * ((m.K / m.group) * g);
    assert k / 8 < m.K / 8;
    CellInside(n, m.N, k / 8, m.K / 8);
  }

  lemma ZeroInside<S, D>(m: Matrix<S, D>, n: nat, g: nat)
    requires m.Valid() && n < m.N && g < m.Groups()
    ensures Mul(Div(n, LANES), m.Groups()) + g < |m.zero|
  {
    hide Mul;
    RowsOfEight(n, m.N);
    CellInside(Div(n, LANES), Div(m.N + 7, LANES), g, m.Groups());
  }

  lemma GroupInside<S, D>(m: Matrix<S, D>, k: nat)
    requires m.Valid() && k < m.K
    ensures Div(k, m.group) < m.Groups()
  {
    hide Mul, Div, Mod;
    Exact(m.K, m.group);
    DivInside(k, m.group, Div(m.K, m.group));
  }

  lemma DivInside(k: nat, g: nat, q: nat)
    requires g > 0 && k < Mul(q, g)
    ensures Div(k, g) < q
  {
    assert k == g * (k / g) + k % g && q * g == g * q;
    LessByFactor(g, k / g, q);
  }

  /** One dequantized row; rows [row0, row0 + n). */
  function Row<S, D>(m: Matrix<S, D>, n: nat): (row: seq<D>)
    requires m.Valid() && n < m.N
    ensures |row| == m.K
  {
    seq(m.K, k requires 0 <= k < m.K => Weight(m, n, k))
  }

  function Rows<S, D>(m: Matrix<S, D>, row0: nat, n: nat): (rows: seq<D>)
    requires m.Valid() && row0 + n <= m.N
    ensures |rows| == Mul(n, m.K)
  {
    if n == 0 then [] else MulStep(n - 1, m.K); Rows(m, row0, n - 1) + Row(m, row0 + n - 1)
  }

  lemma MulStep(n: nat, k: nat)
    ensures Mul(n + 1, k) == Mul(n, k) + k && Mul(0, k) == 0
  {
  }

  /** Element [r, k] of the rows is where the flat layout puts it. */
  lemma {:induction false} RowsAt<S, D>(m: Matrix<S, D>, row0: nat, n: nat, r: nat, k: nat)
    requires m.Valid() && row0 + n <= m.N && r < n && k < m.K
    ensures Mul(r, m.K) + k < |Rows(m, row0, n)| && Rows(m, row0, n)[Mul(r, m.K) + k] == Weight(m, row0 + r, k)
  {
    hide Mul, Weight, Matrix.Valid;
    CellInside(r, n, k, m.K);
    MulStep(n - 1, m.K);
    if r < n - 1 {
      CellInside(r, n - 1, k, m.K);
      RowsAt(m, row0, n - 1, r, k);
    }
  }

  /** Any run of rows is the matching slice of the whole matrix. */
  lemma {:induction false} RowsAreASlice<S, D>(m: Matrix<S, D>, row0: nat, n: nat, total: nat)
    requires m.Valid() && row0 + n <= total <= m.N
    ensures Mul(row0 + n, m.K) <= |Rows(m, 0, total)|
    ensures Mul(row0, m.K) <= Mul(row0 + n, m.K)
    ensures Rows(m, row0, n) == Rows(m, 0, total)[Mul(row0, m.K)..Mul(row0 + n, m.K)]
    decreases total, n
  {
    hide Mul, Row, Matrix.Valid;
    if row0 + n < total {
      MulStep(total - 1, m.K);
      RowsAreASlice(m, row0, n, total - 1);
    } else if n > 0 {
      MulStep(total - 1, m.K);
      RowsAreASlice(m, row0, n - 1, total - 1);
      RowsAreASlice(m, row0, n - 1, total);
    }
  }

  // ---- packed tensors --------------------------------------------------------------------------------------------

  /** Codes `q` are packed eight to a word along a row, the lowest bits first; zero points `z` eight to a word down a column;
      scales `s` stand one by one. */
  ghost predicate PackedAs<S(!new), D(!new)>(m: Matrix<S, D>, q: (nat, nat) -> nat, z: (nat, nat) -> nat, s: (nat, nat) -> S)
    requires m.Valid()
  {
    && (forall n: nat, w: nat :: n < m.N && w < m.K / 8 ==> CodesAt(m, q, n, w))
    && (forall w: nat, g: nat :: w < (m.N + 7) / 8 && g < m.K / m.group ==> ZerosAt(m, z, w, g))
    && (forall n: nat, g: nat :: n < m.N && g < m.K / m.group ==> ScaleAt(m, s, n, g))
    && (forall n: nat, k: nat :: q(n, k) < 16) && (forall n: nat, g: nat :: z(n, g) < 16)
  }

  predicate CodesAt<S, D>(m: Matrix<S, D>, q: (nat, nat) -> nat, n: nat, w: nat) {
    && n * (m.K / 8) + w < |m.packed|
    && m.packed[n * (m.K / 8) + w] == Pack(seq(8, j requires 0 <= j < 8 => q(n, 8 * w + j)))
  }

  predicate ZerosAt<S, D>(m: Matrix<S, D>, z: (nat, nat) -> nat, w: nat, g: nat)
    requires m.group > 0
  {
    && w * (m.K / m.group) + g < |m.zero|
    && m.zero[w * (m.K / m.group) + g] == Pack(seq(8, j requires 0 <= j < 8 => z(8 * w + j, g)))
  }

  ghost predicate ScaleAt<S, D>(m: Matrix<S, D>, s: (nat, nat) -> S, n: nat, g: nat)
    requires m.group > 0
  {
    n * (m.K / m.group) + g < |m.scale| && m.scale[n * (m.K / m.group) + g] == s(n, g)
  }

  /** The weight that codes, zero points and scales one by one stand for. */
  ghost function Meant<S, D>(m: Matrix<S, D>, q: (nat, nat) -> nat, z: (nat, nat) -> nat, s: (nat, nat) -> S, n: nat, k: nat): D
    requires m.group > 0
  {
    m.dequant(q(n, k) - z(n, k / m.group), s(n, k / m.group))
  }

  /** Every weight is its own code less its group's zero point, at its group's scale. */
  lemma WeightOfPacked<S(!new), D(!new)>(m: Matrix<S, D>, q: (nat, nat) -> nat, z: (nat, nat) -> nat, s: (nat, nat) -> S,
                                         n: nat, k: nat)
    requires m.Valid() && n < m.N && k < m.K && PackedAs(m, q, z, s)
    ensures Weight(m, n, k) == Meant(m, q, z, s, n, k)
  {
    hide Matrix.Valid, Code, Zero, Scale, Div, Mul, PackedAs;
    GroupInside(m, k);
    GroupOf(m, k);
    CodeOfPacked(m, q, z, s, n, k);
    ZeroOfPacked(m, q, z, s, n, Div(k, m.group));
    ScaleOfPacked(m, q, z, s, n, Div(k, m.group));
  }

  lemma GroupOf<S, D>(m: Matrix<S, D>, k: nat)
    requires m.Valid()
    ensures m.group > 0 && Div(k, m.group) == k / m.group
  {
  }

  lemma CodeOfPacked<S(!new), D(!new)>(m: Matrix<S, D>, q: (nat, nat) -> nat, z: (nat, nat) -> nat, s: (nat, nat) -> S,
                                       n: nat, k: nat)
    requires m.Valid() && n < m.N && k < m.K && PackedAs(m, q, z, s)
    ensures Code(m, n, k) == q(n, k)
  {
    hide Nibble, Pack, CodesAt, Matrix.Valid, Mul;
    WholeWords(m);
    WordsApart(k, m.K);
    assert CodesAt(m, q, n, k / 8);
    WordIs(m, q, n, k / 8);
    var lanes := seq(8, j requires 0 <= j < 8 => q(n, 8 * (k / 8) + j));
    NibbleOfPack(lanes, k % 8);
    assert lanes[k % 8] == q(n, k);
  }

  lemma WholeWords<S, D>(m: Matrix<S, D>)
    requires m.Valid()
    ensures m.K % 8 == 0
  {
    var g := m.group / 8;
    assert m.group == 8 * g && m.K == (m.K / m.group) * m.group;
    assert (m.K / m.group) * (8 * g) == 8 * ((m.K / m.group) * g);
  }

  lemma WordIs<S, D>(m: Matrix<S, D>, q: (nat, nat) -> nat, n: nat, w: nat)
    requires CodesAt(m, q, n, w)
    ensures Mul(n, Div(m.K, LANES)) + w < |m.packed|
    ensures m.packed[Mul(n, Div(m.K, LANES)) + w] == Pack(seq(8, j requires 0 <= j < 8 => q(n, 8 * w + j)))
  {
  }

  lemma ZeroOfPacked<S(!new), D(!new)>(m: Matrix<S, D>, q: (nat, nat) -> nat, z: (nat, nat) -> nat, s: (nat, nat) -> S,
                                       n: nat, g: nat)
    requires m.Valid() && n < m.N && g < m.Groups() && PackedAs(m, q, z, s)
    ensures Zero(m, n, g) == z(n, g)
  {
    hide Nibble, Pack, ZerosAt;
    WordsApart(n, m.N);
    assert ZerosAt(m, z, n / 8, g);
    ZeroIs(m, z, n / 8, g);
    hide Matrix.Valid;
    var lanes := seq(8, j requires 0 <= j < 8 => z(8 * (n / 8) + j, g));
    NibbleOfPack(lanes, n % 8);
    assert lanes[n % 8] == z(n, g);
  }

  lemma ZeroIs<S, D>(m: Matrix<S, D>, z: (nat, nat) -> nat, w: nat, g: nat)
    requires m.group > 0 && ZerosAt(m, z, w, g)
    ensures Mul(w, m.Groups()) + g < |m.zero|
    ensures m.zero[Mul(w, m.Groups()) + g] == Pack(seq(8, j requires 0 <= j < 8 => z(8 * w + j, g)))
  {
  }

  lemma ScaleOfPacked<S(!new), D(!new)>(m: Matrix<S, D>, q: (nat, nat) -> nat, z: (nat, nat) -> nat, s: (nat, nat) -> S,
                                        n: nat, g: nat)
    requires m.Valid() && n < m.N && g < m.Groups() && PackedAs(m, q, z, s)
    ensures Scale(m, n, g) == s(n, g)
  {
    assert ScaleAt(m, s, n, g);
  }

  lemma WordsApart(i: nat, n: nat)
    requires i < n
    ensures i == 8 * (i / 8) + i % 8 && i / 8 < (n + 7) / 8 && (n % 8 == 0 ==> i / 8 < n / 8)
  {
  }

  /** So the rows asked for are, element by element, the weights that were packed. */
  lemma RowsOfPacked<S(!new), D(!new)>(m: Matrix<S, D>, q: (nat, nat) -> nat, z: (nat, nat) -> nat, s: (nat, nat) -> S,
                                       row0: nat, n: nat, r: nat, k: nat)
    requires m.Valid() && row0 + n <= m.N && r < n && k < m.K && PackedAs(m, q, z, s)
    ensures Mul(r, m.K) + k < |Rows(m, row0, n)| && Rows(m, row0, n)[Mul(r, m.K) + k] == Meant(m, q, z, s, row0 + r, k)
  {
    hide Matrix.Valid, Weight, Rows, PackedAs, Mul, Meant;
    RowsAt(m, row0, n, r, k);
    WeightOfPacked(m, q, z, s, row0 + r, k);
  }

  // ---- the triple loop -----------------------------------------------------------------------------------------

  /** The group loop's body: one scale, one zero point, and eight weights a word. */
  method DequantGroup<S, D>(m: Matrix<S, D>, n: nat, gi: nat, out: array<D>, base: nat)
    requires m.Valid() && n < m.N && gi < m.Groups() && base + m.group <= out.Length
    modifies out
    ensures Mul(gi, m.group) + m.group <= m.K
    ensures out[..] == Splice(old(out[..]), base, Row(m, n)[Mul(gi, m.group)..Mul(gi, m.group) + m.group])
  {
    hide Mul, Div, Mod, Weight, Matrix.Valid, Nibble, Splice;
    Shape(m);
    CellInside(gi, m.Groups(), 0, m.group);
    var perGroup := Div(m.group, LANES);
    var s := Scale(m, n, gi);
    var z := Zero(m, n, gi);
    ghost var before, piece := out[..], Row(m, n)[Mul(gi, m.group)..Mul(gi, m.group) + m.group];
    SpliceNone(before, base);
    var c, o := 0, base;
    while c < perGroup
      invariant 0 <= c <= perGroup && o == base + 8 * c && out[..] == Splice(before, base, piece[..o - base])
    {
      LaneAt(m, n, gi, c, 0);
      var word := m.packed[Mul(n, Div(m.K, LANES)) + Mul(gi, perGroup) + c];
      var j := 0;
      while j < LANES
        invariant 0 <= j <= LANES && o == base + 8 * c + j && out[..] == Splice(before, base, piece[..o - base])
      {
        var q := Nibble(word, j);
        LaneAt(m, n, gi, c, j);
        SpliceMore(before, base, piece, o - base);
        out[o] := m.dequant(q as int - z as int, s);
        o := o + 1;
        j := j + 1;
      }
      c := c + 1;
    }
    assert piece[..m.group] == piece;
  }

  /** The row loop's body. */
  method DequantRow<S, D>(m: Matrix<S, D>, n: nat, out: array<D>, base: nat)
    requires m.Valid() && n < m.N && base + m.K <= out.Length
    modifies out
    ensures out[..] == Splice(old(out[..]), base, Row(m, n))
  {
    hide Mul, Div, Mod, Weight, Matrix.Valid, Splice, Row;
    Shape(m);
    MulStep(0, m.group);
    ghost var before, row := out[..], Row(m, n);
    SpliceNone(before, base);
    var gi, o := 0, 0;
    while gi < m.Groups()
      invariant 0 <= gi <= m.Groups() && o == Mul(gi, m.group) <= m.K && out[..] == Splice(before, base, row[..o])
    {
      CellInside(gi, m.Groups(), 0, m.group);
      SpliceJoin(before, base, row[..o], row[o..o + m.group]);
      assert row[..o] + row[o..o + m.group] == row[..o + m.group];
      DequantGroup(m, n, gi, out, base + o);
      gi, o := gi + 1, o + m.group;
    }
    assert row[..m.K] == row;
  }

  /** Bad arguments throw before anything is written; otherwise `out` starts with the rows and is else as it was. */
  method DequantRows<S, D>(m: Matrix<S, D>, row0: int, nrows: int, out: array<D>) returns (ok: bool)
    requires m.Accepts() ==> m.Valid()
    requires nrows >= 0 ==> Mul(nrows, m.K) <= out.Length
    modifies out
    ensures ok <==> && m.group > 0 && m.group % 8 == 0 && m.K % m.group == 0
                    && 0 <= row0 && 0 <= nrows && row0 + nrows <= m.N
    ensures ok ==> m.Valid()
    ensures !ok ==> out[..] == old(out[..])
    ensures ok ==> out[..] == Splice(old(out[..]), 0, Rows(m, row0, nrows))
  {
    hide Mul, Div, Mod, Weight, Matrix.Valid, Matrix.Accepts, Splice, Row;
    AcceptsMeans(m);
    if !m.Accepts() || row0 < 0 || nrows < 0 || row0 + nrows > m.N {
      return false;
    }
    ghost var before := out[..];
    SpliceNone(before, 0);
    MulStep(0, m.K);
    var r, o := 0, 0;
    while r < nrows
      invariant 0 <= r <= nrows && o == Mul(r, m.K) <= Mul(nrows, m.K)
      invariant out[..] == Splice(before, 0, Rows(m, row0, r))
    {
      MulStep(r, m.K);
      MulGrows(r + 1, nrows, m.K);
      SpliceJoin(before, 0, Rows(m, row0, r), Row(m, row0 + r));
      DequantRow(m, row0 + r, out, o);
      r, o := r + 1, o + m.K;
    }
    return true;
  }

  lemma AcceptsMeans<S, D>(m: Matrix<S, D>)
    ensures m.Accepts() <==> m.group > 0 && m.group % 8 == 0 && m.K % m.group == 0
  {
  }

  /** The sizes a matrix of N rows and K columns needs. */
  lemma ValidMeans<S, D>(m: Matrix<S, D>)
    ensures m.Valid() <==> m.Accepts() && |m.packed| == m.N * (m.K / 8) && |m.scale| == m.N * (m.K / m.group)
                           && |m.zero| == (m.N + 7) / 8 * (m.K / m.group)
  {
  }

  lemma MulGrows(a: nat, b: nat, k: nat)
    requires a <= b
    ensures Mul(a, k) <= Mul(b, k)
  {
    MulLe(a, b, k);
  }

  lemma Shape<S, D>(m: Matrix<S, D>)
    requires m.Valid()
    ensures m.Accepts() && m.group == 8 * Div(m.group, LANES) && Mul(m.Groups(), m.group) == m.K
  {
  }

  /** The word and lane the loop is at are those of column gi * group + 8 * c + j. */
  lemma LaneAt<S, D>(m: Matrix<S, D>, n: nat, gi: nat, c: nat, j: nat)
    requires m.Valid() && n < m.N && gi < m.Groups() && c < Div(m.group, LANES) && j < LANES
    ensures var k := Mul(gi, m.group) + (8 * c + j);
            && k < m.K && Div(k, m.group) == gi
            && Mul(n, Div(m.K, LANES)) + Div(k, LANES) == Mul(n, Div(m.K, LANES)) + Mul(gi, Div(m.group, LANES)) + c < |m.packed|
            && Mod(k, LANES) == j
            && Weight(m, n, k)
               == m.dequant(Nibble(m.packed[Mul(n, Div(m.K, LANES)) + Mul(gi, Div(m.group, LANES)) + c], j) - Zero(m, n, gi),
                            Scale(m, n, gi))
  {
    hide Mul, Mod, Div;
    Shape(m);
    var t := 8 * c + j;
    CellInside(gi, m.Groups(), t, m.group);
    Split(gi, m.group, t);
    WordsOfGroup(gi, m.group, t);
    Lane(c, j);
    WordInside(m, n, Mul(gi, m.group) + t);
  }

  lemma Lane(c: nat, j: nat)
    requires j < LANES
    ensures Div(8 * c + j, LANES) == c && Mod(8 * c + j, LANES) == j
  {
  }

  // ---- the overlay's reads -------------------------------------------------------------------------------------

  /** The whole matrix. */
  method Data<S, D(0)>(m: Matrix<S, D>) returns (buffer: array<D>)
    requires m.Valid()
    ensures fresh(buffer) && buffer[..] == Rows(m, 0, m.N)
  {
    hide Mul, Div, Mod, Row, Matrix.Valid;
    Shape(m);
    AcceptsMeans(m);
    buffer := new D[Mul(m.N, m.K)];
    var ok := DequantRows(m, 0, m.N, buffer);
  }

  /** Rows [row0, row0 + nrows), which are that slice of the whole; None outside the matrix. */
  method DataRows<S, D(0)>(m: Matrix<S, D>, row0: int, nrows: int) returns (r: Option<array<D>>)
    requires m.Valid()
    ensures r.Some? <==> 0 <= row0 && 0 <= nrows && row0 + nrows <= m.N
    ensures r.Some? ==> fresh(r.value)
    ensures r.Some? ==> Mul(row0, m.K) <= Mul(row0 + nrows, m.K) <= |Rows(m, 0, m.N)|
    ensures r.Some? ==> r.value[..] == Rows(m, 0, m.N)[Mul(row0, m.K)..Mul(row0 + nrows, m.K)]
  {
    hide Mul, Div, Mod, Row, Matrix.Valid;
    Shape(m);
    AcceptsMeans(m);
    if row0 < 0 || nrows < 0 || row0 > m.N || nrows > m.N - row0 {
      return None;
    }
    var scratch := new D[Mul(nrows, m.K)];
    var ok := DequantRows(m, row0, nrows, scratch);
    RowsAreASlice(m, row0, nrows, m.N);
    return Some(scratch);
  }
}
