/** Result and option types, and the fixed-width integer conversions the modelled code performs. */
module Common {

  datatype Option<+T> = None | Some(value: T)

  /** A thrown exception is a `Failure`; its text is not modelled, its cause is. */
  datatype Result<+T, +E> = Success(value: T) | Failure(error: E)

  function Min(a: int, b: int): int { if a <= b then a else b }

  function Max(a: int, b: int): int { if a >= b then a else b }

  /** `static_cast<int32_t>` of a wider signed integer (two's complement). */
  function ToInt32(x: int): int {
    (x + 0x8000_0000) % 0x1_0000_0000 - 0x8000_0000
  }

  /** A value of an unsigned 64-bit expression. */
  function ToUint64(x: int): nat {
    x % 0x1_0000_0000_0000_0000
  }

  /** Both casts keep the value modulo their width, in the range of their type. */
  lemma CastsWrap(x: int)
    ensures -0x8000_0000 <= ToInt32(x) < 0x8000_0000 && (x - ToInt32(x)) % 0x1_0000_0000 == 0
    ensures ToUint64(x) < 0x1_0000_0000_0000_0000 && (x - ToUint64(x)) % 0x1_0000_0000_0000_0000 == 0
  {
  }

  // ---- facts about multiplication and division the solver needs spelled out ---------------------------

  lemma LessByFactor(k: nat, x: int, y: int)
    requires k * x < k * y
    ensures x < y
  {
  }

  lemma {:induction false} MulLe(x: nat, y: nat, k: nat)
    requires x <= y
    ensures x * k <= y * k
  {
    if x < y {
      MulLe(x, y - 1, k);
      assert y * k == (y - 1) * k + k;
    }
  }

  lemma DivModOf(x: nat, d: nat, q: nat, r: nat)
    requires d > 0 && x == d * q + r && r < d
    ensures x % d == r && x / d == q
  {
    var q', r' := x / d, x % d;
    assert x == d * q' + r';
    assert d * (q' + 1) == d * q' + d && d * (q + 1) == d * q + d;
    LessByFactor(d, q', q + 1);
    LessByFactor(d, q, q' + 1);
  }

  // ---- rings and copies -----------------------------------------------------------------------------

  /** The cell of a position in a ring of `slots` cells. Proofs hide the division and use `DistinctCells` only. */
  function Cell(p: nat, slots: nat): (c: nat)
    requires slots > 0
    ensures c < slots
  {
    p % slots
  }

  /** Two positions less than `slots` apart never share a cell; two exactly `slots` apart do. */
  lemma DistinctCells(p: nat, q: nat, slots: nat)
    requires p < q <= p + slots && slots > 0
    ensures Cell(p, slots) == Cell(q, slots) <==> q == p + slots
  {
    var a, b := p / slots, q / slots;
    assert p == slots * a + p % slots && q == slots * b + q % slots;
    assert slots * b < slots * (a + 2) && slots * a < slots * (b + 1) by {
      assert slots * (a + 2) == slots * a + 2 * slots;
      assert slots * (b + 1) == slots * b + slots;
    }
    assert b == a || b == a + 1 by { LessByFactor(slots, b, a + 2); LessByFactor(slots, a, b + 1); }
    assert slots * (a + 1) == slots * a + slots;
  }

  /** `dst` with `src` copied over it at `at` (a memcpy). */
  function Splice<T>(dst: seq<T>, at: nat, src: seq<T>): (r: seq<T>)
    requires at + |src| <= |dst|
    ensures |r| == |dst|
    ensures forall i :: 0 <= i < |dst| ==> r[i] == if at <= i < at + |src| then src[i - at] else dst[i]
  {
    dst[..at] + src + dst[at + |src|..]
  }

  /** A copy done one element further, and two copies in a row. */
  lemma SpliceMore<T>(dst: seq<T>, at: nat, src: seq<T>, n: nat)
    requires at + |src| <= |dst| && n < |src|
    ensures Splice(dst, at, src[..n])[at + n := src[n]] == Splice(dst, at, src[..n + 1])
  {
  }

  lemma SpliceJoin<T>(dst: seq<T>, at: nat, a: seq<T>, b: seq<T>)
    requires at + |a| + |b| <= |dst|
    ensures Splice(Splice(dst, at, a), at + |a|, b) == Splice(dst, at, a + b)
  {
  }

  lemma SpliceNone<T>(dst: seq<T>, at: nat)
    requires at <= |dst|
    ensures Splice(dst, at, []) == dst
  {
  }
}
