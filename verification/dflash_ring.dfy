/**
 The K/V ring of the DFlash drafter as a value, the unbounded log it stands for, and what relates the two.

 `Ring` is one layer's K (or V) store with the drafter's two frontiers: position p lives in cell p % slots. `Log`
 is the simple thing a caller has in mind: the contiguous run of injected positions since the last gap, rewind below
 it, or reset, with nothing ever overwritten.
 */
module DflashRing {
  import opened Common

  datatype Ring<C> = Ring(nInjected: int, validFrom: int, cells: seq<C>) {
    function Slots(): nat { |cells| }

    /** Lowest position a reader may look at: not in a gap, not lost to a rewind, not yet overwritten. */
    function VisibleFrom(): int { Max(validFrom, nInjected - |cells|) }

    ghost predicate Valid() { 0 <= validFrom <= nInjected && |cells| > 0 }
  }

  datatype Log<C> = Log(lo: int, data: seq<C>) {
    function End(): int { lo + |data| }

    /** The row of position p. */
    function At(p: int): C
      requires lo <= p < End()
    {
      data[p - lo]
    }
  }

  /** The public mutators. `Inject.rows` are the encoded rows of positions [start, start + |rows|). */
  datatype Op<C> = Inject(start: int, rows: seq<C>) | Rewind(to: int) | Reset

  // ---- the ring ---------------------------------------------------------------------------------

  function Put<C>(cells: seq<C>, pos: nat, c: C): (r: seq<C>)
    requires |cells| > 0
    ensures |r| == |cells|
  {
    cells[Cell(pos, |cells|) := c]
  }

  /** Row t of `rows` goes to the cell of position start + t, in increasing t, whatever the number of wraps. */
  function PutAll<C>(cells: seq<C>, start: nat, rows: seq<C>): (r: seq<C>)
    requires |cells| > 0
    ensures |r| == |cells|
  {
    if rows == [] then cells
    else Put(PutAll(cells, start, rows[..|rows| - 1]), start + |rows| - 1, rows[|rows| - 1])
  }

  function InjectRing<C>(r: Ring<C>, start: int, rows: seq<C>): (r': Ring<C>)
    requires r.Valid() && start >= r.nInjected
  {
    if rows == [] then r
    else Ring(start + |rows|, if start > r.nInjected then start else r.validFrom, PutAll(r.cells, start, rows))
  }

  function RewindRing<C>(r: Ring<C>, n: int): (r': Ring<C>)
    requires r.Valid() && 0 <= n <= r.nInjected
  {
    Ring(n, Min(n, Max(r.validFrom, r.nInjected - |r.cells|)), r.cells)
  }

  /** Whether the drafter takes the call at frontier `n` instead of throwing. */
  predicate Accepts<C>(n: int, op: Op<C>) {
    match op
    case Inject(start, rows) => rows == [] || start >= n
    case Rewind(to) => 0 <= to <= n
    case Reset => true
  }

  /** One call; a refused one throws before it changes anything. */
  function StepRing<C>(r: Ring<C>, op: Op<C>): (r': Ring<C>)
    requires r.Valid()
    ensures r'.Valid() && |r'.cells| == |r.cells|
  {
    if !Accepts(r.nInjected, op) then r
    else match op
      case Inject(start, rows) => if rows == [] then r else InjectRing(r, start, rows)
      case Rewind(to) => RewindRing(r, to)
      case Reset => Ring(0, 0, r.cells)
  }

  function RunRing<C>(r: Ring<C>, ops: seq<Op<C>>): (r': Ring<C>)
    requires r.Valid()
    ensures r'.Valid() && |r'.cells| == |r.cells|
  {
    if ops == [] then r else StepRing(RunRing(r, ops[..|ops| - 1]), ops[|ops| - 1])
  }

  // ---- the log ----------------------------------------------------------------------------------

  function StepLog<C>(l: Log<C>, op: Op<C>): (l': Log<C>)
    requires 0 <= l.lo
    ensures 0 <= l'.lo
  {
    if !Accepts(l.End(), op) then l
    else match op
      case Inject(start, rows) =>
        if rows == [] then l
        else if start > l.End() then Log(start, rows)
        else Log(l.lo, l.data + rows)
      case Rewind(to) => if to <= l.lo then Log(to, []) else Log(l.lo, l.data[..to - l.lo])
      case Reset => Log(0, [])
  }

  function RunLog<C>(l: Log<C>, ops: seq<Op<C>>): (l': Log<C>)
    requires 0 <= l.lo
    ensures 0 <= l'.lo
  {
    if ops == [] then l else StepLog(RunLog(l, ops[..|ops| - 1]), ops[|ops| - 1])
  }

  /** Same frontier; every visible cell holds the log's row for its position. */
  ghost predicate Refines<C>(r: Ring<C>, l: Log<C>) {
    && r.Valid()
    && 0 <= l.lo <= r.validFrom
    && r.nInjected == l.End()
    && forall p {:trigger l.At(p)} {:trigger Cell(p, |r.cells|)} ::
         r.VisibleFrom() <= p < r.nInjected ==> r.cells[Cell(p, |r.cells|)] == l.At(p)
  }

  // ---- cells after a write ------------------------------------------------------------------------

  /** The last row written to a cell is what it holds. */
  lemma {:induction false} PutAllWritten<C>(cells: seq<C>, start: nat, rows: seq<C>, t: nat)
    requires |cells| > 0 && t < |rows| && |rows| <= t + |cells|
    ensures PutAll(cells, start, rows)[Cell(start + t, |cells|)] == rows[t]
  {
    hide Cell;
    var last := |rows| - 1;
    if t < last {
      PutAllWritten(cells, start, rows[..last], t);
      DistinctCells(start + t, start + last, |cells|);
    }
  }

  /** Writing [start, start + |rows|) leaves the cell of every position p with p + slots beyond it alone. */
  lemma {:induction false} PutAllKept<C>(cells: seq<C>, start: nat, rows: seq<C>, p: nat)
    requires |cells| > 0 && p < start && start + |rows| <= p + |cells|
    ensures PutAll(cells, start, rows)[Cell(p, |cells|)] == cells[Cell(p, |cells|)]
  {
    hide Cell;
    if rows != [] {
      var last := |rows| - 1;
      PutAllKept(cells, start, rows[..last], p);
      DistinctCells(p, start + last, |cells|);
    }
  }

  // ---- the ring refines the log -----------------------------------------------------------------------

  lemma InjectRefines<C>(r: Ring<C>, l: Log<C>, start: int, rows: seq<C>)
    requires Refines(r, l) && start >= r.nInjected && rows != []
    ensures Refines(InjectRing(r, start, rows), StepLog(l, Inject(start, rows)))
  {
    hide Cell;
    var r', l' := InjectRing(r, start, rows), StepLog(l, Inject(start, rows));
    forall p | r'.VisibleFrom() <= p < r'.nInjected
      ensures r'.cells[Cell(p, |r'.cells|)] == l'.At(p)
    {
      if p >= start {
        PutAllWritten(r.cells, start, rows, p - start);
      } else {
        PutAllKept(r.cells, start, rows, p);
        assert l.At(p) == l'.At(p);
      }
    }
  }

  lemma StepRefines<C>(r: Ring<C>, l: Log<C>, op: Op<C>)
    requires Refines(r, l)
    ensures Refines(StepRing(r, op), StepLog(l, op))
  {
    hide Cell;
    if Accepts(r.nInjected, op) {
      match op
      case Inject(start, rows) => if rows != [] { InjectRefines(r, l, start, rows); }
      case Rewind(to) =>
        var r', l' := StepRing(r, op), StepLog(l, op);
        forall p | r'.VisibleFrom() <= p < r'.nInjected
          ensures r'.cells[Cell(p, |r'.cells|)] == l'.At(p)
        {
          assert l.At(p) == l'.At(p);
        }
      case Reset =>
    }
  }

  /** Over every run of calls, refused ones included, the ring is the log cut to what is visible. */
  lemma {:induction false} RunRefines<C>(r: Ring<C>, l: Log<C>, ops: seq<Op<C>>)
    requires Refines(r, l)
    ensures Refines(RunRing(r, ops), RunLog(l, ops))
  {
    hide Cell;
    if ops != [] {
      RunRefines(r, l, ops[..|ops| - 1]);
      StepRefines(RunRing(r, ops[..|ops| - 1]), RunLog(l, ops[..|ops| - 1]), ops[|ops| - 1]);
    }
  }

  // ---- nothing readable is hidden -------------------------------------------------------------------------

  /** The same call with every row replaced by the position it belongs to: the ring it drives records, cell by cell,
      whose row was written last. */
  function Positions<C>(op: Op<C>): (t: Op<int>) {
    match op
    case Inject(start, rows) => Inject(start, seq(|rows|, i => start + i))
    case Rewind(to) => Rewind(to)
    case Reset => Reset
  }

  function PositionsAll<C>(ops: seq<Op<C>>): (t: seq<Op<int>>)
    ensures |t| == |ops|
  {
    if ops == [] then [] else PositionsAll(ops[..|ops| - 1]) + [Positions(ops[|ops| - 1])]
  }

  lemma {:induction false} PositionsSameFrontiers<C>(r: Ring<C>, o: Ring<int>, l: Log<C>, m: Log<int>, ops: seq<Op<C>>)
    requires r.Valid() && o.Valid() && |r.cells| == |o.cells|
    requires r.nInjected == o.nInjected && r.validFrom == o.validFrom
    requires l.lo == m.lo >= 0 && |l.data| == |m.data|
    ensures RunRing(r, ops).nInjected == RunRing(o, PositionsAll(ops)).nInjected
    ensures RunRing(r, ops).validFrom == RunRing(o, PositionsAll(ops)).validFrom
    ensures RunLog(l, ops).lo == RunLog(m, PositionsAll(ops)).lo
    ensures |RunLog(l, ops).data| == |RunLog(m, PositionsAll(ops)).data|
  {
    hide Cell;
    if ops != [] {
      PositionsSameFrontiers(r, o, l, m, ops[..|ops| - 1]);
      assert PositionsAll(ops)[..|ops| - 1] == PositionsAll(ops[..|ops| - 1]);
    }
  }

  /** Cell owners along a run: the cell of every position of the current run holds that position or a later one, and a
      later one exactly below the visible bound. */
  ghost predicate OwnersExact(o: Ring<int>, l: Log<int>) {
    && Refines(o, l)
    && (forall p {:trigger l.At(p)} :: l.lo <= p < l.End() ==> l.At(p) == p)
    && (forall p {:trigger l.At(p)} {:trigger Cell(p, |o.cells|)} :: l.lo <= p < l.End() && p < o.VisibleFrom() ==> o.cells[Cell(p, |o.cells|)] > p)
  }

  /** A write of positions above p keeps "some later position owns p's cell". */
  lemma {:induction false} PutAllStaysAbove(cells: seq<int>, start: nat, k: nat, p: nat)
    requires |cells| > 0 && p < start && cells[Cell(p, |cells|)] > p
    ensures PutAll(cells, start, seq(k, i => start + i))[Cell(p, |cells|)] > p
  {
    hide Cell;
    if k > 0 {
      PutAllStaysAbove(cells, start, k - 1, p);
      assert seq(k, i => start + i)[..k - 1] == seq(k - 1, i => start + i);
    }
  }

  /** Once a write reaches p + slots, p's cell belongs to a later position. */
  lemma {:induction false} PutAllOvertakes(cells: seq<int>, start: nat, k: nat, p: nat)
    requires |cells| > 0 && p + |cells| < start + k
    requires p < start ==> start <= p + |cells|
    ensures PutAll(cells, start, seq(k, i => start + i))[Cell(p, |cells|)] > p
    decreases k
  {
    hide Cell;
    var rows := seq(k, i => start + i);
    assert rows[..k - 1] == seq(k - 1, i => start + i);
    if p + |cells| == start + k - 1 {
      DistinctCells(p, p + |cells|, |cells|);
    } else {
      PutAllOvertakes(cells, start, k - 1, p);
    }
  }

  lemma StepOwners(o: Ring<int>, l: Log<int>, op: Op<int>)
    requires OwnersExact(o, l)
    requires op.Inject? ==> op.rows == seq(|op.rows|, i => op.start + i)
    ensures OwnersExact(StepRing(o, op), StepLog(l, op))
  {
    hide Cell;
    StepRefines(o, l, op);
    if Accepts(o.nInjected, op) && op.Inject? && op.rows != [] {
      var o', l' := StepRing(o, op), StepLog(l, op);
      forall p | l'.lo <= p < l'.End() ensures l'.At(p) == p {
        if p < op.start {
          assert l.At(p) == p;
        }
      }
      forall p | l'.lo <= p < l'.End() && p < o'.VisibleFrom()
        ensures o'.cells[Cell(p, |o'.cells|)] > p
      {
        if p < l.End() && p < o.VisibleFrom() && l'.lo == l.lo {
          assert l.At(p) == p;
          PutAllStaysAbove(o.cells, op.start, |op.rows|, p);
        } else {
          PutAllOvertakes(o.cells, op.start, |op.rows|, p);
        }
      }
    } else if Accepts(o.nInjected, op) && op.Rewind? {
      var o', l' := StepRing(o, op), StepLog(l, op);
      forall p | l'.lo <= p < l'.End()
        ensures l'.At(p) == p
        ensures p < o'.VisibleFrom() ==> o'.cells[Cell(p, |o'.cells|)] > p
      {
        assert l.At(p) == p;
      }
    }
  }

  lemma {:induction false} RunOwners<C>(o: Ring<int>, l: Log<int>, ops: seq<Op<C>>)
    requires OwnersExact(o, l)
    ensures OwnersExact(RunRing(o, PositionsAll(ops)), RunLog(l, PositionsAll(ops)))
  {
    hide Cell;
    if ops != [] {
      var before := ops[..|ops| - 1];
      RunOwners(o, l, before);
      assert PositionsAll(ops)[..|ops| - 1] == PositionsAll(before);
      StepOwners(RunRing(o, PositionsAll(before)), RunLog(l, PositionsAll(before)), Positions(ops[|ops| - 1]));
    }
  }

  /** From a fresh drafter, over every run: a position of the current run is visible exactly while its cell has not been
      written for another position. `owner` is read off the run of the same calls with positions as rows. */
  lemma VisibleIffNotOverwritten<C>(cells: seq<C>, ops: seq<Op<C>>, p: int)
    requires |cells| > 0
    requires var l := RunLog(Log(0, []), ops); l.lo <= p < l.End()
    ensures var r := RunRing(Ring(0, 0, cells), ops);
            var owner := RunRing(Ring(0, 0, seq(|cells|, _ => -1)), PositionsAll(ops)).cells;
            && |owner| == |cells|
            && p < r.nInjected
            && (owner[Cell(p, |cells|)] == p <==> r.VisibleFrom() <= p)
  {
    hide Cell;
    var o0, m0 := Ring(0, 0, seq(|cells|, _ => -1)), Log(0, []);
    PositionsSameFrontiers(Ring(0, 0, cells), o0, Log(0, []), m0, ops);
    RunOwners(o0, m0, ops);
    var m := RunLog(m0, PositionsAll(ops));
    assert m.At(p) == p;
  }

  // ---- indistinguishable drafters ---------------------------------------------------------------------------

  /** Equal frontier, equal visible range, equal visible rows; cells outside the range and `validFrom` may differ. */
  ghost predicate Same<C>(a: Ring<C>, b: Ring<C>) {
    && a.Valid() && b.Valid()
    && |a.cells| == |b.cells|
    && a.nInjected == b.nInjected
    && a.VisibleFrom() == b.VisibleFrom()
    && forall p {:trigger a.cells[Cell(p, |a.cells|)]} ::
         a.VisibleFrom() <= p < a.nInjected ==> a.cells[Cell(p, |a.cells|)] == b.cells[Cell(p, |a.cells|)]
  }

  lemma StepSame<C>(a: Ring<C>, b: Ring<C>, op: Op<C>)
    requires Same(a, b)
    ensures Same(StepRing(a, op), StepRing(b, op))
  {
    hide Cell;
    if Accepts(a.nInjected, op) && op.Inject? && op.rows != [] {
      var a', b' := StepRing(a, op), StepRing(b, op);
      forall p | a'.VisibleFrom() <= p < a'.nInjected
        ensures a'.cells[Cell(p, |a'.cells|)] == b'.cells[Cell(p, |a'.cells|)]
      {
        if p >= op.start {
          PutAllWritten(a.cells, op.start, op.rows, p - op.start);
          PutAllWritten(b.cells, op.start, op.rows, p - op.start);
        } else {
          PutAllKept(a.cells, op.start, op.rows, p);
          PutAllKept(b.cells, op.start, op.rows, p);
          assert a.cells[Cell(p, |a.cells|)] == b.cells[Cell(p, |a.cells|)];
        }
      }
    }
  }

  /** The K/V rows block row t attends to in the store: the kernel's range [max(store_begin, q - window + 1), n) for the
      query position q = n + t. */
  function AttentionReads<C>(r: Ring<C>, window: nat, t: nat): (rows: seq<C>)
    requires r.Valid() && window <= |r.cells|
  {
    var from := Max(r.validFrom, r.nInjected + t - window + 1);
    seq(if from < r.nInjected then r.nInjected - from else 0,
        i requires 0 <= i < r.nInjected - from => r.cells[Cell(from + i, |r.cells|)])
  }

  lemma ReadsSame<C>(x: Ring<C>, y: Ring<C>, window: nat, t: nat)
    requires Same(x, y) && window <= |x.cells|
    ensures AttentionReads(x, window, t) == AttentionReads(y, window, t)
  {
    hide Cell;
    var rx, ry := AttentionReads(x, window, t), AttentionReads(y, window, t);
    assert |rx| == |ry|;
    forall i | 0 <= i < |rx| ensures rx[i] == ry[i] {
      var p := Max(x.validFrom, x.nInjected + t - window + 1) + i;
      assert x.cells[Cell(p, |x.cells|)] == y.cells[Cell(p, |x.cells|)];
    }
  }

  /** Bisimulation: after every later run of calls the two drafters report the same frontier, so refuse the same next
      call, and every draft block reads the same rows. */
  lemma {:induction false} SameForever<C>(a: Ring<C>, b: Ring<C>, ops: seq<Op<C>>, window: nat, t: nat)
    requires Same(a, b) && window <= |a.cells|
    ensures Same(RunRing(a, ops), RunRing(b, ops))
    ensures AttentionReads(RunRing(a, ops), window, t) == AttentionReads(RunRing(b, ops), window, t)
  {
    hide Cell, StepRing, AttentionReads;
    if ops != [] {
      SameForever(a, b, ops[..|ops| - 1], window, t);
      StepSame(RunRing(a, ops[..|ops| - 1]), RunRing(b, ops[..|ops| - 1]), ops[|ops| - 1]);
    }
    ReadsSame(RunRing(a, ops), RunRing(b, ops), window, t);
  }

  /** What a draft block reads is the log: the rows of the last positions, oldest first, nothing stale. */
  lemma AttentionReadsLog<C>(r: Ring<C>, l: Log<C>, window: nat, t: nat)
    requires Refines(r, l) && window <= |r.cells|
    ensures var got := AttentionReads(r, window, t);
            && |got| <= |l.data|
            && got == l.data[|l.data| - |got|..]
            && |got| == Max(0, Min(l.End() - r.validFrom, window - 1 - t))
  {
    hide Cell;
    var got := AttentionReads(r, window, t);
    var from := Max(r.validFrom, r.nInjected + t - window + 1);
    forall i | 0 <= i < |got| ensures got[i] == l.data[|l.data| - |got|..][i] {
      assert r.cells[Cell(from + i, |r.cells|)] == l.At(from + i);
    }
  }
}
