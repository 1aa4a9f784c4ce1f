/**
 The hybrid mode's drafter tail: after a pipelined prefill of rows [p0, n) only the last window of feature rows is
 injected, in the slices the full call would have used.
 */
module DflashTail {
  import opened Common
  import opened DflashRing

  datatype PlanError = BadCall | BadWindow | BadSlice
  datatype TailRefusal = NoRows | NegativeStart | WrongEnd | BelowFrontier | ShortAfterGap

  function TailStart(p0: int, n: int, window: int, slice: int): (s: Result<int, PlanError>) {
    if p0 < 0 || n <= p0 then Failure(BadCall)
    else if window < 1 || slice < 1 then Failure(BadWindow)
    else
      var want := n - window;
      if want <= p0 then Success(p0) else Success(p0 + (want - p0) / slice * slice)
  }

  /** Rows [start, start + rows), of a call or of the conversation. */
  datatype Span = Span(start: int, rows: int)

  /** The spans follow one another from `from` to `to`, each with a row at least. */
  ghost predicate Contiguous(spans: seq<Span>, from: int, to: int) {
    if spans == [] then from == to
    else
      var last := spans[|spans| - 1];
      last.rows >= 1 && last.start + last.rows == to && Contiguous(spans[..|spans| - 1], from, last.start)
  }

  function SlicesFrom(r: int, rows: int, slice: int): (out: seq<Span>)
    requires slice >= 1
    decreases rows - r
  {
    if r < rows then [Span(r, Min(slice, rows - r))] + SlicesFrom(r + slice, rows, slice) else []
  }

  lemma {:induction false} ContiguousCons(s: Span, spans: seq<Span>, to: int)
    requires s.rows >= 1 && Contiguous(spans, s.start + s.rows, to)
    ensures Contiguous([s] + spans, s.start, to)
  {
    var all := [s] + spans;
    if spans == [] {
      assert all[..0] == [];
    } else {
      ContiguousCons(s, spans[..|spans| - 1], spans[|spans| - 1].start);
      assert all[..|all| - 1] == [s] + spans[..|spans| - 1];
    }
  }

  /** The slices cover the rows, one after another. */
  lemma {:induction false} SlicesContiguous(r: int, rows: int, slice: int)
    requires slice >= 1 && r <= rows
    ensures Contiguous(SlicesFrom(r, rows, slice), r, rows)
    ensures forall i :: 0 <= i < |SlicesFrom(r, rows, slice)| ==> SlicesFrom(r, rows, slice)[i].rows <= slice
    decreases rows - r
  {
    if r < rows {
      var rest := SlicesFrom(r + slice, rows, slice);
      if r + slice <= rows { SlicesContiguous(r + slice, rows, slice); }
      ContiguousCons(Span(r, Min(slice, rows - r)), rest, rows);
    }
  }

  /** Cuts a call's rows into slices of at most `slice` rows that cover them in order. */
  method TailSlices(rows: int, slice: int) returns (out: Result<seq<Span>, PlanError>)
    ensures slice < 1 ==> out == Failure(BadSlice)
    ensures slice >= 1 ==> out == Success(SlicesFrom(0, rows, slice))
    ensures slice >= 1 && rows >= 0 ==> Contiguous(out.value, 0, rows)
    ensures slice >= 1 ==> forall i :: 0 <= i < |out.value| ==> out.value[i].rows <= slice
  {
    if slice < 1 {
      return Failure(BadSlice);
    }
    var slices, r := [], 0;
    while r < rows
      invariant slices + SlicesFrom(r, rows, slice) == SlicesFrom(0, rows, slice)
      decreases rows - r
    {
      assert SlicesFrom(r, rows, slice) == [Span(r, Min(slice, rows - r))] + SlicesFrom(r + slice, rows, slice);
      slices := slices + [Span(r, Min(slice, rows - r))];
      r := r + slice;
    }
    assert slices + [] == slices;
    if rows >= 0 { SlicesContiguous(0, rows, slice); }
    return Success(slices);
  }

  function CheckTailInject(injected: int, pos: int, start: int, rows: int, window: int): (refusal: Option<TailRefusal>) {
    if rows < 1 then Some(NoRows)
    else if start < 0 then Some(NegativeStart)
    else if start + rows != pos then Some(WrongEnd)
    else if start < injected then Some(BelowFrontier)
    else if start > injected && rows < window then Some(ShortAfterGap)
    else None
  }

  /** A refusal names something that is wrong with the call, and only a call nothing is wrong with is taken. */
  lemma RefusalsTrue(injected: int, pos: int, start: int, rows: int, window: int)
    ensures match CheckTailInject(injected, pos, start, rows, window)
            case None => rows >= 1 && start >= 0 && start + rows == pos && start >= injected
                         && (start == injected || rows >= window)
            case Some(NoRows) => rows <= 0
            case Some(NegativeStart) => start <= -1
            case Some(WrongEnd) => start + rows != pos
            case Some(BelowFrontier) => start <= injected - 1
            case Some(ShortAfterGap) => start >= injected + 1 && rows <= window - 1
  {
  }

  // ---- the start rule -----------------------------------------------------------------------------

  predicate OnGrid(g: int, p0: int, slice: int)
    requires slice >= 1
  {
    (g - p0) % slice == 0
  }

  /** The start is the last point of the call's grid that leaves a whole window, or the call's start when none does: so a
      window at least, and less than a window and a slice, is injected. Only bad arguments are refused. */
  lemma TailStartRule(p0: int, n: int, window: int, slice: int)
    ensures TailStart(p0, n, window, slice).Success? <==> 0 <= p0 < n && window >= 1 && slice >= 1
    ensures TailStart(p0, n, window, slice).Failure? ==>
              TailStart(p0, n, window, slice).error == if 0 <= p0 < n then BadWindow else BadCall
    ensures TailStart(p0, n, window, slice).Success? ==>
              var s := TailStart(p0, n, window, slice).value;
              && p0 <= s < n && OnGrid(s, p0, slice)
              && (s == p0 || s <= n - window)
              && n - s < window + slice
              && n - s >= Min(n - p0, window)
              && forall g :: p0 <= g <= n - window && OnGrid(g, p0, slice) ==> g <= s
  {
    hide OnGrid;
    if TailStart(p0, n, window, slice).Success? {
      OwnGridPoint(p0, slice);
      if n - window > p0 {
        var d := n - window - p0;
        LastGridPoint(p0, d, slice);
        forall g | p0 <= g <= n - window && OnGrid(g, p0, slice) ensures g <= p0 + d / slice * slice {
          GridBelow(g, p0, d, slice);
        }
      }
    }
  }

  lemma OwnGridPoint(p0: int, slice: nat)
    requires slice >= 1
    ensures OnGrid(p0, p0, slice)
  {
  }

  lemma LastGridPoint(p0: int, d: nat, slice: nat)
    requires slice >= 1
    ensures OnGrid(p0 + d / slice * slice, p0, slice) && d / slice * slice <= d < d / slice * slice + slice
  {
    assert d == slice * (d / slice) + d % slice;
    DivModOf(d / slice * slice, slice, d / slice, 0);
  }

  lemma GridBelow(g: int, p0: int, d: nat, slice: nat)
    requires slice >= 1 && p0 <= g <= p0 + d && OnGrid(g, p0, slice)
    ensures g <= p0 + d / slice * slice
  {
    var k := (g - p0) / slice;
    assert g - p0 == slice * k && d == slice * (d / slice) + d % slice;
    assert slice * (d / slice + 1) == slice * (d / slice) + slice;
    LessByFactor(slice, k, d / slice + 1);
    MulLe(k, d / slice, slice);
    assert slice * k == k * slice;
  }

  // ---- slices as injection calls ---------------------------------------------------------------------

  /** Row encodings may depend on the slice they are injected in (its first position and row count: the GEMM's M and
      the rope rows). */
  ghost predicate Encodes<C(!new)>(enc: (int, nat) -> seq<C>) {
    forall a, m :: |enc(a, m)| == m
  }

  /** The calls that inject the slices of rows [base, base + ...). */
  function SliceCalls<C>(slices: seq<Span>, base: int, enc: (int, nat) -> seq<C>): (ops: seq<Op<C>>)
    ensures |ops| == |slices|
  {
    seq(|slices|, i requires 0 <= i < |slices| =>
      Inject(base + slices[i].start, if slices[i].rows >= 0 then enc(base + slices[i].start, slices[i].rows) else []))
  }

  /** The calls of a whole prefill over [p0, n). */
  function Calls<C>(p0: int, n: int, slice: int, enc: (int, nat) -> seq<C>): (ops: seq<Op<C>>)
    requires slice >= 1
  {
    SliceCalls(SlicesFrom(0, n - p0, slice), p0, enc)
  }

  lemma {:induction false} CallsUnfold<C>(p0: int, n: int, slice: int, enc: (int, nat) -> seq<C>)
    requires slice >= 1 && p0 < n
    ensures Calls(p0, n, slice, enc)
            == [Inject(p0, enc(p0, Min(slice, n - p0)))] + Calls(p0 + slice, n, slice, enc)
  {
    SlicesShift(0, n - p0, slice);
    var rest := SlicesFrom(slice, n - p0, slice);
    var moved := SlicesFrom(0, n - p0 - slice, slice);
    assert |rest| == |moved|;
    var all := Calls(p0, n, slice, enc);
    var tail := Calls(p0 + slice, n, slice, enc);
    assert n - (p0 + slice) == n - p0 - slice;
    assert |all| == 1 + |tail|;
    forall i | 0 <= i < |tail| ensures all[1 + i] == tail[i] {
      assert SlicesFrom(0, n - p0, slice)[1 + i] == rest[i];
      assert rest[i].start == moved[i].start + slice && rest[i].rows == moved[i].rows;
    }
  }

  lemma CallsNone<C>(p0: int, n: int, slice: int, enc: (int, nat) -> seq<C>)
    requires slice >= 1 && n <= p0
    ensures Calls(p0, n, slice, enc) == []
  {
  }

  lemma {:induction false} SlicesShift(r: int, rows: int, slice: int)
    requires slice >= 1
    ensures var a, b := SlicesFrom(r + slice, rows, slice), SlicesFrom(r, rows - slice, slice);
            |a| == |b| && forall i :: 0 <= i < |a| ==> a[i].start == b[i].start + slice && a[i].rows == b[i].rows
    decreases rows - r
  {
    if r + slice < rows { SlicesShift(r + slice, rows, slice); }
  }

  /** Grid points cut the call list: what starts at p0 + k * slice is the last part of what starts at p0. */
  lemma {:induction false} CallsSuffix<C>(p0: int, n: int, slice: int, k: nat, enc: (int, nat) -> seq<C>)
    requires slice >= 1 && p0 + k * slice < n
    ensures var all, tail := Calls(p0, n, slice, enc), Calls(p0 + k * slice, n, slice, enc);
            |tail| + k == |all| && all[k..] == tail
    decreases k
  {
    if k > 0 {
      assert k * slice == slice + (k - 1) * slice;
      assert (k - 1) * slice >= 0;
      CallsUnfold(p0, n, slice, enc);
      CallsSuffix(p0 + slice, n, slice, k - 1, enc);
    }
  }

  // ---- runs over contiguous calls ------------------------------------------------------------------------

  /** Slices of a call as spans of the conversation. */
  function Shifted(spans: seq<Span>, base: int): (out: seq<Span>)
    ensures |out| == |spans|
  {
    seq(|spans|, i requires 0 <= i < |spans| => Span(base + spans[i].start, spans[i].rows))
  }

  lemma {:induction false} ShiftedContiguous(spans: seq<Span>, base: int, from: int, to: int)
    requires Contiguous(spans, from, to)
    ensures Contiguous(Shifted(spans, base), base + from, base + to)
  {
    if spans != [] {
      var n := |spans| - 1;
      ShiftedContiguous(spans[..n], base, from, spans[n].start);
      assert Shifted(spans, base)[..n] == Shifted(spans[..n], base);
    }
  }

  /** The rows each injection appends. */
  function Spans<C>(ops: seq<Op<C>>): (spans: seq<Span>)
    ensures |spans| == |ops|
  {
    seq(|ops|, i requires 0 <= i < |ops| => if ops[i].Inject? then Span(ops[i].start, |ops[i].rows|) else Span(0, 0))
  }

  /** Injections that append one after another from `from` to `to`. */
  ghost predicate Appending<C>(ops: seq<Op<C>>, from: int, to: int) {
    (forall i :: 0 <= i < |ops| ==> ops[i].Inject?) && Contiguous(Spans(ops), from, to)
  }

  lemma AppendingLast<C>(ops: seq<Op<C>>, from: int, to: int)
    requires ops != []
    ensures Appending(ops, from, to)
            <==> (var last := ops[|ops| - 1];
                  && last.Inject? && last.rows != [] && last.start + |last.rows| == to
                  && Appending(ops[..|ops| - 1], from, last.start))
  {
    assert Spans(ops)[..|ops| - 1] == Spans(ops[..|ops| - 1]);
  }

  lemma AppendingNone<C>(n: int)
    ensures Appending<C>([], n, n)
  {
  }

  lemma CallsContiguous<C(!new)>(p0: int, n: int, slice: int, enc: (int, nat) -> seq<C>)
    requires slice >= 1 && p0 <= n && Encodes(enc)
    ensures Appending(Calls(p0, n, slice, enc), p0, n)
  {
    var slices, ops := SlicesFrom(0, n - p0, slice), Calls(p0, n, slice, enc);
    SlicesContiguous(0, n - p0, slice);
    ShiftedContiguous(slices, p0, 0, n - p0);
    SpanRows(slices, 0, n - p0);
    forall i | 0 <= i < |slices| ensures Spans(ops)[i] == Shifted(slices, p0)[i] {
      assert |enc(p0 + slices[i].start, slices[i].rows)| == slices[i].rows;
    }
    assert Spans(ops) == Shifted(slices, p0);
  }

  lemma {:induction false} SpanRows(spans: seq<Span>, from: int, to: int)
    requires Contiguous(spans, from, to)
    ensures forall i :: 0 <= i < |spans| ==> spans[i].rows >= 1
  {
    if spans != [] { SpanRows(spans[..|spans| - 1], from, spans[|spans| - 1].start); }
  }

  lemma {:induction false} RunAppend<C>(r: Ring<C>, l: Log<C>, a: seq<Op<C>>, b: seq<Op<C>>)
    requires r.Valid() && l.lo >= 0
    ensures RunRing(r, a + b) == RunRing(RunRing(r, a), b)
    ensures RunLog(l, a + b) == RunLog(RunLog(l, a), b)
  {
    if b == [] {
      assert a + b == a;
    } else {
      RunAppend(r, l, a, b[..|b| - 1]);
      assert (a + b)[..|a + b| - 1] == a + b[..|b| - 1];
    }
  }

  /** Appending calls reach `to`, keep `validFrom` and the log's lower end, and only lengthen its data. */
  lemma {:induction false} ContiguousRun<C>(r: Ring<C>, l: Log<C>, ops: seq<Op<C>>, from: int, to: int)
    requires r.Valid() && l.lo >= 0 && r.nInjected == l.End() == from && Appending(ops, from, to)
    ensures RunRing(r, ops).nInjected == to >= from && RunRing(r, ops).validFrom == r.validFrom
    ensures RunLog(l, ops).lo == l.lo && RunLog(l, ops).End() == to
  {
    hide Cell, PutAll;
    if ops != [] {
      AppendingLast(ops, from, to);
      ContiguousRun(r, l, ops[..|ops| - 1], from, ops[|ops| - 1].start);
    }
  }

  /** Two logs with the same end that agree on the shorter one's rows keep agreeing while both append. */
  lemma {:induction false} SuffixRun<C>(a: Log<C>, b: Log<C>, ops: seq<Op<C>>, from: int, to: int)
    requires a.lo >= 0 && b.lo >= a.lo && a.End() == b.End() == from && Appending(ops, from, to)
    requires b.data == a.data[b.lo - a.lo..]
    ensures RunLog(a, ops).lo == a.lo && RunLog(b, ops).lo == b.lo
    ensures RunLog(a, ops).End() == RunLog(b, ops).End() == to
    ensures RunLog(b, ops).data == RunLog(a, ops).data[b.lo - a.lo..]
  {
    if ops != [] {
      AppendingLast(ops, from, to);
      SuffixRun(a, b, ops[..|ops| - 1], from, ops[|ops| - 1].start);
    }
  }

  // ---- the tail -------------------------------------------------------------------------------------------

  /** Drafters that refine logs agreeing from their common visible bound on are the same to every reader. */
  lemma SameFromLogs<C>(a: Ring<C>, la: Log<C>, b: Ring<C>, lb: Log<C>)
    requires Refines(a, la) && Refines(b, lb) && |a.cells| == |b.cells|
    requires la.lo <= lb.lo && la.End() == lb.End() && lb.data == la.data[lb.lo - la.lo..]
    requires a.VisibleFrom() == b.VisibleFrom()
    ensures Same(a, b)
  {
    hide Cell;
    forall p | a.VisibleFrom() <= p < a.nInjected
      ensures a.cells[Cell(p, |a.cells|)] == b.cells[Cell(p, |a.cells|)]
    {
      assert la.At(p) == lb.At(p);
    }
  }

  /** The tail's calls are the last calls of the full run, `CheckTailInject` takes them, and the drafter they leave is
      indistinguishable from the fully fed one (so by `SameForever` it stays so under every later run of calls). */
  lemma TailFeedsTheSameDrafter<C(!new)>(r: Ring<C>, l: Log<C>, n: int, window: int, slice: int, enc: (int, nat) -> seq<C>)
    requires Refines(r, l) && Encodes(enc) && |r.cells| <= window
    requires TailStart(r.nInjected, n, window, slice).Success?
    ensures var s := TailStart(r.nInjected, n, window, slice).value;
            var full, tail := Calls(r.nInjected, n, slice, enc), Calls(s, n, slice, enc);
            && CheckTailInject(r.nInjected, n, s, n - s, window) == None
            && |tail| <= |full| && full[|full| - |tail|..] == tail
            && Same(RunRing(r, full), RunRing(r, tail))
            && RunRing(r, tail).nInjected == n
  {
    hide Cell, PutAll, StepRing, StepLog, RunRing, RunLog, SlicesFrom, SliceCalls, Calls;
    var p0, s := r.nInjected, TailStart(r.nInjected, n, window, slice).value;
    TailStartRule(p0, n, window, slice);
    var full, tail := Calls(p0, n, slice, enc), Calls(s, n, slice, enc);
    CallsContiguous(p0, n, slice, enc);
    RunRefines(r, l, full);
    ContiguousRun(r, l, full, p0, n);
    if s > p0 {
      var k := (n - window - p0) / slice;
      CallsSuffix(p0, n, slice, k, enc);
      assert full == full[..k] + tail;
      RunRefines(r, l, tail);
      GapThenTail(r, l, full[..k], tail, s, n, slice, enc);
      SameFromLogs(RunRing(r, full), RunLog(l, full), RunRing(r, tail), RunLog(l, tail));
    }
  }

  lemma {:induction false} ContiguousSplit<C>(a: seq<Op<C>>, b: seq<Op<C>>, from: int, mid: int, to: int)
    requires Appending(a + b, from, to) && Appending(b, mid, to)
    ensures Appending(a, from, mid)
  {
    if b == [] {
      assert a + b == a;
    } else {
      AppendingLast(a + b, from, to);
      AppendingLast(b, mid, to);
      assert (a + b)[..|a + b| - 1] == a + b[..|b| - 1];
      ContiguousSplit(a, b[..|b| - 1], from, mid, b[|b| - 1].start);
    }
  }

  /** Past the gap the tail-fed log is the fully fed one cut at s, and both drafters show the last `slots` positions. */
  lemma GapThenTail<C(!new)>(r: Ring<C>, l: Log<C>, head: seq<Op<C>>, tail: seq<Op<C>>, s: int, n: int, slice: int,
                       enc: (int, nat) -> seq<C>)
    requires Refines(r, l) && Encodes(enc) && slice >= 1
    requires r.nInjected < s <= n - |r.cells|
    requires tail == Calls(s, n, slice, enc) && Appending(head + tail, r.nInjected, n)
    ensures var la, lb := RunLog(l, head + tail), RunLog(l, tail);
            la.lo <= lb.lo && la.End() == lb.End() && lb.data == la.data[lb.lo - la.lo..]
    ensures RunRing(r, head + tail).VisibleFrom() == RunRing(r, tail).VisibleFrom() == n - |r.cells|
    ensures RunRing(r, tail).nInjected == n
  {
    hide Cell, PutAll, RunRing, RunLog, SlicesFrom, SliceCalls, Calls, Appending;
    CallsContiguous(s, n, slice, enc);
    ContiguousSplit(head, tail, r.nInjected, s, n);
    ContiguousRun(r, l, head + tail, r.nInjected, n);
    ContiguousRun(r, l, head, r.nInjected, s);
    RunAppend(r, l, head, tail);
    // The tail's first call opens the gap; the rest appends.
    CallsUnfold(s, n, slice, enc);
    var m := Min(slice, n - s);
    var first, rest := Inject(s, enc(s, m)), Calls(s + slice, n, slice, enc);
    assert |enc(s, m)| == m;
    if s + slice <= n {
      CallsContiguous(s + slice, n, slice, enc);
    } else {
      CallsNone(s + slice, n, slice, enc);
      AppendingNone<C>(n);
    }
    RunAppend(r, l, [first], rest);
    var mid := RunLog(l, head);
    RunAppend(r, mid, [first], rest);
    OneCall(r, l, first);
    OneCall(r, mid, first);
    ContiguousRun(RunRing(r, [first]), RunLog(l, [first]), rest, s + m, n);
    SuffixRun(RunLog(mid, [first]), RunLog(l, [first]), rest, s + m, n);
  }

  lemma OneCall<C>(r: Ring<C>, l: Log<C>, op: Op<C>)
    requires r.Valid() && l.lo >= 0
    ensures RunRing(r, [op]) == StepRing(r, op) && RunLog(l, [op]) == StepLog(l, op)
  {
    assert [op][..0] == [];
    assert RunRing(r, []) == r && RunLog(l, []) == l;
  }

  /** `CheckTailInject` over the ring's own window is exact: it takes the last rows of a call precisely when the drafter can
      inject them, they end at the Model's position, and they leave the drafter that injecting every row leaves. A
      larger window refuses more and is as safe. */
  lemma CheckTailInjectExact<C>(r: Ring<C>, l: Log<C>, pos: int, start: int, tail: seq<C>, all: seq<C>, window: int)
    requires Refines(r, l) && r.nInjected <= pos && |all| == pos - r.nInjected && window >= |r.cells|
    requires |tail| <= |all| ==> tail == all[|all| - |tail|..]
    ensures CheckTailInject(r.nInjected, pos, start, |tail|, |r.cells|) == None
            <==> (&& tail != [] && start >= 0 && start + |tail| == pos
                  && Accepts(r.nInjected, Inject(start, tail))
                  && Same(StepRing(r, Inject(start, tail)), StepRing(r, Inject(r.nInjected, all))))
    ensures CheckTailInject(r.nInjected, pos, start, |tail|, window) == None
            ==> CheckTailInject(r.nInjected, pos, start, |tail|, |r.cells|) == None
  {
    hide Cell, PutAll, Refines, Same;
    if CheckTailInject(r.nInjected, pos, start, |tail|, |r.cells|) == None {
      TailSame(r, l, pos, start, tail, all);
    } else if tail != [] && start >= 0 && start + |tail| == pos && start >= r.nInjected {
      ShortTailDiffers(r, l, pos, start, tail, all);
    }
  }

  lemma TailSame<C>(r: Ring<C>, l: Log<C>, pos: int, start: int, tail: seq<C>, all: seq<C>)
    requires Refines(r, l) && |all| == pos - r.nInjected && start == pos - |tail| >= r.nInjected && tail != []
    requires tail == all[|all| - |tail|..] && (start == r.nInjected || |tail| >= |r.cells|)
    ensures Same(StepRing(r, Inject(start, tail)), StepRing(r, Inject(r.nInjected, all)))
  {
    hide Cell, PutAll;
    if start == r.nInjected {
      assert tail == all;
    } else {
      InjectRefines(r, l, start, tail);
      InjectRefines(r, l, r.nInjected, all);
      SameFromLogs(StepRing(r, Inject(r.nInjected, all)), StepLog(l, Inject(r.nInjected, all)),
                   StepRing(r, Inject(start, tail)), StepLog(l, Inject(start, tail)));
      SameBack(StepRing(r, Inject(r.nInjected, all)), StepRing(r, Inject(start, tail)));
    }
  }

  lemma SameBack<C>(a: Ring<C>, b: Ring<C>)
    requires Same(a, b)
    ensures Same(b, a)
  {
    hide Cell;
  }

  /** After a gap and less than a window of rows the visible store is short. */
  lemma ShortTailDiffers<C>(r: Ring<C>, l: Log<C>, pos: int, start: int, tail: seq<C>, all: seq<C>)
    requires Refines(r, l) && |all| == pos - r.nInjected && start == pos - |tail| > r.nInjected
    requires tail != [] && |tail| < |r.cells|
    ensures !Same(StepRing(r, Inject(start, tail)), StepRing(r, Inject(r.nInjected, all)))
  {
    hide Cell, PutAll;
  }
}
