/**
 The audio embedder: rows handed to threads, and each row a normalised frame times a matrix, summed in eight lanes. Over
 the reals; `narrow` is the way through bf16 and back, `rsqrt` is pow(x, -0.5).
 */
module AudioEmbed {
  import opened Common

  // ---- handing rows to threads ---------------------------------------------------------------------------------

  /** How many threads run: the caller's number or the hardware's, capped at 8, never more than rows. */
  function Threads(asked: int, hardware: nat, n: nat): (t: nat)
    requires n > 0
    ensures 1 <= t <= n && (0 < asked <= n ==> t == asked) && (asked > n ==> t == n)
    ensures asked <= 0 ==> t <= 8 && (hardware >= 8 && n >= 8 ==> t == 8) && (0 < hardware < 8 && hardware <= n ==> t == hardware)
  {
    var wanted := if asked <= 0 then Min(Max(1, hardware), 8) else asked;
    Min(wanted, n)
  }

  function Per(n: nat, threads: nat): (p: nat)
    requires threads > 0
  {
    (n + threads - 1) / threads
  }

  function Mul(a: nat, b: nat): nat { a * b }

  function First(n: nat, threads: nat, t: nat): nat
    requires threads > 0
  {
    Mul(t, Per(n, threads))
  }

  function End(n: nat, threads: nat, t: nat): nat
    requires threads > 0
  {
    Min(n, First(n, threads, t) + Per(n, threads))
  }

  predicate Owns(n: nat, threads: nat, t: nat, r: nat)
    requires threads > 0
  {
    t < threads && First(n, threads, t) <= r < End(n, threads, t)
  }

  lemma Enough(n: nat, threads: nat)
    requires threads > 0
    ensures Mul(threads, Per(n, threads)) >= n && (n > 0 ==> Per(n, threads) > 0)
    ensures Mul(threads, Per(n, threads)) < n + threads
  {
    var x := n + threads - 1;
    assert x == threads * (x / threads) + x % threads;
    assert n > 0 ==> x / threads >= 1;
  }

  /** Every row has exactly one thread, for every number of rows and threads. */
  lemma OneOwner(n: nat, threads: nat, r: nat) returns (t: nat)
    requires threads > 0 && r < n
    ensures Owns(n, threads, t, r)
    ensures forall t' :: Owns(n, threads, t', r) ==> t' == t
  {
    var per := Per(n, threads);
    Enough(n, threads);
    t := r / per;
    assert r == per * t + r % per && Mul(t, per) == per * t;
    if t >= threads {
      MulLe(threads, t, per);
    }
    forall t' | Owns(n, threads, t', r) ensures t' == t {
      OneRange(t, t', per, r);
    }
  }

  lemma OneRange(t: nat, t': nat, per: nat, r: nat)
    requires Mul(t, per) <= r < Mul(t, per) + per && Mul(t', per) <= r < Mul(t', per) + per
    ensures t == t'
  {
    MulSteps(t, per);
    MulSteps(t', per);
    if t < t' { MulLe(t + 1, t', per); }
    if t' < t { MulLe(t' + 1, t, per); }
  }

  // ---- threads running -----------------------------------------------------------------------------------------

  /** `next[t]` is the row thread `t` does next; `out[r]` is row r once done; `writes` counts. */
  datatype Pool<R> = Pool(next: seq<nat>, out: seq<Option<R>>, writes: seq<nat>)

  function Start<R>(n: nat, threads: nat): Pool<R>
    requires threads > 0
  {
    Pool(seq(threads, t requires 0 <= t < threads => First(n, threads, t)), seq(n, _ => None), seq(n, _ => 0))
  }

  /** Thread `t` finishes one more row, if it has one. */
  function StepPool<R>(n: nat, threads: nat, row: nat -> R, p: Pool<R>, t: nat): Pool<R>
    requires threads > 0
  {
    if t < |p.next| && t < threads && p.next[t] < End(n, threads, t) && p.next[t] < |p.out| && p.next[t] < |p.writes| then
      var r := p.next[t];
      Pool(p.next[t := r + 1], p.out[r := Some(row(r))], p.writes[r := p.writes[r] + 1])
    else p
  }

  function RunPool<R>(n: nat, threads: nat, row: nat -> R, schedule: seq<nat>): Pool<R>
    requires threads > 0
  {
    if schedule == [] then Start(n, threads)
    else StepPool(n, threads, row, RunPool(n, threads, row, schedule[..|schedule| - 1]), schedule[|schedule| - 1])
  }

  predicate Done(n: nat, threads: nat, next: seq<nat>, t: nat, r: nat)
    requires threads > 0
  {
    Owns(n, threads, t, r) && t < |next| && r < next[t]
  }

  /** Rows behind their thread are done, once; the others are not. */
  ghost predicate PoolInv<R>(n: nat, threads: nat, row: nat -> R, p: Pool<R>)
    requires threads > 0
  {
    && |p.next| == threads && |p.out| == |p.writes| == n
    && (forall t :: 0 <= t < threads ==> p.next[t] >= First(n, threads, t))
    && (forall t: nat, r: nat :: Owns(n, threads, t, r) && r < n ==>
          p.out[r] == (if Done(n, threads, p.next, t, r) then Some(row(r)) else None)
          && p.writes[r] == if Done(n, threads, p.next, t, r) then 1 else 0)
  }

  lemma StepKeeps<R>(n: nat, threads: nat, row: nat -> R, p: Pool<R>, t: nat)
    requires threads > 0 && PoolInv(n, threads, row, p)
    ensures PoolInv(n, threads, row, StepPool(n, threads, row, p, t))
  {
    hide Owns, First, End;
    var q := StepPool(n, threads, row, p, t);
    if q != p {
      var r := p.next[t];
      OwnsNext(n, threads, t, r);
      forall t': nat, r': nat | Owns(n, threads, t', r') && r' < n
        ensures q.out[r'] == (if Done(n, threads, q.next, t', r') then Some(row(r')) else None)
                && q.writes[r'] == if Done(n, threads, q.next, t', r') then 1 else 0 {
        OwnsBound(n, threads, t', r');
        if r' == r {
          var o := OneOwner(n, threads, r);
          assert t' == o && t == o;
        }
      }
    }
  }

  lemma OwnsNext(n: nat, threads: nat, t: nat, r: nat)
    requires threads > 0 && t < threads && First(n, threads, t) <= r < End(n, threads, t)
    ensures Owns(n, threads, t, r)
  {
  }

  lemma OwnsBound(n: nat, threads: nat, t: nat, r: nat)
    requires threads > 0 && Owns(n, threads, t, r)
    ensures r < n && t < threads && First(n, threads, t) <= r < End(n, threads, t)
  {
  }

  lemma {:induction false} RunKeeps<R>(n: nat, threads: nat, row: nat -> R, schedule: seq<nat>)
    requires threads > 0
    ensures PoolInv(n, threads, row, RunPool(n, threads, row, schedule))
  {
    hide PoolInv;
    if schedule == [] {
      StartInv(n, threads, row);
    } else {
      RunKeeps(n, threads, row, schedule[..|schedule| - 1]);
      StepKeeps(n, threads, row, RunPool(n, threads, row, schedule[..|schedule| - 1]), schedule[|schedule| - 1]);
    }
  }

  lemma StartInv<R>(n: nat, threads: nat, row: nat -> R)
    requires threads > 0
    ensures PoolInv(n, threads, row, Start(n, threads))
  {
    hide First, End;
    forall t: nat, r: nat | Owns(n, threads, t, r) && r < n ensures !Done(n, threads, Start<R>(n, threads).next, t, r) {
      OwnsBound(n, threads, t, r);
    }
  }

  function RowsLeft(n: nat, threads: nat, next: seq<nat>, t: nat): nat
    requires threads > 0
  {
    if t < |next| && next[t] < End(n, threads, t) then End(n, threads, t) - next[t] else 0
  }

  /** Thread `t` run to its end; the other threads stay where they are. */
  lemma RunThread<R>(n: nat, threads: nat, row: nat -> R, schedule: seq<nat>, t: nat) returns (more: seq<nat>)
    requires threads > 0 && t < threads
    ensures schedule <= more
    ensures var p, q := RunPool(n, threads, row, schedule), RunPool(n, threads, row, more);
            && |p.next| == |q.next| == threads && q.next[t] >= End(n, threads, t)
            && forall u :: 0 <= u < threads && u != t ==> q.next[u] == p.next[u]
    decreases RowsLeft(n, threads, RunPool(n, threads, row, schedule).next, t)
  {
    hide First, End;
    RunKeeps(n, threads, row, schedule);
    var p := RunPool(n, threads, row, schedule);
    more := schedule;
    if p.next[t] < End(n, threads, t) {
      OwnsNext(n, threads, t, p.next[t]);
      OwnsBound(n, threads, t, p.next[t]);
      assert (schedule + [t])[..|schedule|] == schedule;
      more := RunThread(n, threads, row, schedule + [t], t);
    }
  }

  /** Some schedule ends all threads: the pool never stands still with rows left. */
  lemma {:induction false} SomeScheduleEnds<R>(n: nat, threads: nat, row: nat -> R, k: nat) returns (schedule: seq<nat>)
    requires threads > 0 && k <= threads
    ensures var p := RunPool(n, threads, row, schedule);
            |p.next| == threads && forall t :: 0 <= t < k ==> p.next[t] >= End(n, threads, t)
  {
    hide First, End, StepPool, RunPool;
    if k == 0 {
      schedule := [];
      RunKeeps(n, threads, row, schedule);
    } else {
      schedule := SomeScheduleEnds(n, threads, row, k - 1);
      schedule := RunThread(n, threads, row, schedule, k - 1);
    }
  }

  /** Every schedule after which all threads have ended gives the sequential result, each row written once. */
  lemma AnyScheduleIsSequential<R>(n: nat, threads: nat, row: nat -> R, schedule: seq<nat>)
    requires threads > 0
    requires var p := RunPool(n, threads, row, schedule);
             |p.next| == threads && forall t :: 0 <= t < threads ==> p.next[t] >= End(n, threads, t)
    ensures RunPool(n, threads, row, schedule).out == seq(n, (r: nat) => Some(row(r)))
    ensures RunPool(n, threads, row, schedule).writes == seq(n, _ => 1)
  {
    hide First, End, Per;
    RunKeeps(n, threads, row, schedule);
    var p := RunPool(n, threads, row, schedule);
    forall r | 0 <= r < n ensures p.out[r] == Some(row(r)) && p.writes[r] == 1 {
      var t := OneOwner(n, threads, r);
      OwnsBound(n, threads, t, r);
      assert Done(n, threads, p.next, t, r);
    }
  }

  // ---- one row -------------------------------------------------------------------------------------------------

  function Product(x: real, w: real): real { x * w }

  /** The plain dot product, first to last. */
  function Dot(x: seq<real>, w: seq<real>, n: nat): real
    requires n <= |x| == |w|
  {
    if n == 0 then 0.0 else Dot(x, w, n - 1) + x[n - 1] * w[n - 1]
  }

  lemma DotStep(x: seq<real>, w: seq<real>, n: nat)
    requires n < |x| == |w|
    ensures Dot(x, w, n + 1) == Dot(x, w, n) + Product(x[n], w[n])
  {
  }

  lemma DotNone(x: seq<real>, w: seq<real>)
    requires |x| == |w|
    ensures Dot(x, w, 0) == 0.0
  {
  }

  function Lanes(l: seq<real>): real
    requires |l| == 8
  {
    ((l[0] + l[4]) + (l[1] + l[5])) + ((l[2] + l[6]) + (l[3] + l[7]))
  }

  /** Eight partial sums and a tail make the dot product, whatever the length. */
  method LaneDot(x: seq<real>, w: seq<real>) returns (acc: real)
    requires |x| == |w|
    ensures acc == Dot(x, w, |x|)
  {
    hide Product, Dot;
    DotNone(x, w);
    var lane := [0.0, 0.0, 0.0, 0.0, 0.0, 0.0, 0.0, 0.0];
    var k := 0;
    while k + 8 <= |x|
      invariant 0 <= k <= |x| && |lane| == 8 && Lanes(lane) == Dot(x, w, k)
    {
      var l := 0;
      while l < 8
        invariant 0 <= l <= 8 && |lane| == 8 && Lanes(lane) == Dot(x, w, k + l)
      {
        DotStep(x, w, k + l);
        lane := lane[l := lane[l] + Product(x[k + l], w[k + l])];
        l := l + 1;
      }
      k := k + 8;
    }
    var tail := 0.0;
    while k < |x|
      invariant 0 <= k <= |x| && Lanes(lane) + tail == Dot(x, w, k)
    {
      DotStep(x, w, k);
      tail := tail + Product(x[k], w[k]);
      k := k + 1;
    }
    acc := Lanes(lane) + tail;
  }

  datatype Embedder = Embedder(inDim: nat, outDim: nat, eps: real, weight: seq<seq<real>>,
                               narrow: real -> real, rsqrt: real -> real) {
    predicate Valid() { inDim >= 1 && |weight| == outDim && forall j :: 0 <= j < outDim ==> |weight[j]| == inDim }
  }

  function Narrowed(e: Embedder, frame: seq<real>): (x: seq<real>)
    ensures |x| == |frame|
  {
    seq(|frame|, k requires 0 <= k < |frame| => e.narrow(frame[k]))
  }

  function Scaled(e: Embedder, a: real, scale: real): real { e.narrow(a * scale) }

  /** The frame, cast, divided by its root mean square, cast again. */
  function Normed(e: Embedder, frame: seq<real>): (x: seq<real>)
    requires e.Valid() && |frame| == e.inDim
    ensures |x| == |frame|
  {
    var x := Narrowed(e, frame);
    var scale := e.rsqrt(Dot(x, x, |x|) / (e.inDim as real) + e.eps);
    seq(|x|, k requires 0 <= k < |x| => Scaled(e, x[k], scale))
  }

  lemma NormedAt(e: Embedder, frame: seq<real>, scale: real, k: nat)
    requires e.Valid() && |frame| == e.inDim && k < e.inDim
    requires scale == e.rsqrt(Dot(Narrowed(e, frame), Narrowed(e, frame), e.inDim) / (e.inDim as real) + e.eps)
    ensures Normed(e, frame)[k] == e.narrow(Product(Narrowed(e, frame)[k], scale))
  {
    hide Dot;
    assert Scaled(e, Narrowed(e, frame)[k], scale) == e.narrow(Product(Narrowed(e, frame)[k], scale));
    hide Scaled, Product;
  }

  function Embedded(e: Embedder, frame: seq<real>, j: nat): real
    requires e.Valid() && |frame| == e.inDim && j < e.outDim
  {
    e.narrow(Dot(Normed(e, frame), e.weight[j], e.inDim))
  }

  method Normalise(e: Embedder, frame: seq<real>) returns (x: seq<real>)
    requires e.Valid() && |frame| == e.inDim
    ensures x == Normed(e, frame)
  {
    hide Dot, Normed, Product;
    x := [];
    var sumsq, k := 0.0, 0;
    DotNone(Narrowed(e, frame), Narrowed(e, frame));
    while k < e.inDim
      invariant 0 <= k <= e.inDim && x == Narrowed(e, frame)[..k] && sumsq == Dot(Narrowed(e, frame), Narrowed(e, frame), k)
    {
      x := x + [e.narrow(frame[k])];
      DotStep(Narrowed(e, frame), Narrowed(e, frame), k);
      sumsq := sumsq + Product(x[k], x[k]);
      k := k + 1;
    }
    assert x == Narrowed(e, frame);
    var scale := e.rsqrt(sumsq / (e.inDim as real) + e.eps);
    k := 0;
    while k < e.inDim
      invariant 0 <= k <= e.inDim && |x| == e.inDim
      invariant forall i :: 0 <= i < e.inDim ==> x[i] == if i < k then Normed(e, frame)[i] else Narrowed(e, frame)[i]
    {
      NormedAt(e, frame, scale, k);
      x := x[k := e.narrow(Product(x[k], scale))];
      k := k + 1;
    }
  }

  /** One thread's rows: row r of the result for every r in [r0, r1), and nothing else. */
  method EmbedRows(e: Embedder, frames: seq<seq<real>>, r0: nat, r1: nat, out: array2<real>)
    requires e.Valid() && r0 <= r1 <= |frames| == out.Length0 && out.Length1 == e.outDim
    requires forall r :: 0 <= r < |frames| ==> |frames[r]| == e.inDim
    modifies out
    ensures forall r, j :: 0 <= r < |frames| && 0 <= j < e.outDim ==>
              out[r, j] == if r0 <= r < r1 then Embedded(e, frames[r], j) else old(out[r, j])
  {
    hide Dot, Normed;
    var r := r0;
    while r < r1
      invariant r0 <= r <= r1
      invariant forall q, j :: 0 <= q < |frames| && 0 <= j < e.outDim ==>
                  out[q, j] == if r0 <= q < r then Embedded(e, frames[q], j) else old(out[q, j])
    {
      var x := Normalise(e, frames[r]);
      var c := 0;
      while c < e.outDim
        invariant 0 <= c <= e.outDim
        invariant forall q, j :: 0 <= q < |frames| && 0 <= j < e.outDim ==>
                    out[q, j] == if r0 <= q < r || (q == r && j < c) then Embedded(e, frames[q], j) else old(out[q, j])
      {
        var acc := LaneDot(x, e.weight[c]);
        out[r, c] := e.narrow(acc);
        c := c + 1;
      }
      r := r + 1;
    }
  }

  /** All rows, whatever the thread count asked for. The threads are run one after the other here;
      AnyScheduleIsSequential is why that is enough. */
  method Embed(e: Embedder, frames: seq<seq<real>>, asked: int, hardware: nat) returns (out: array2<real>)
    requires e.Valid() && forall r :: 0 <= r < |frames| ==> |frames[r]| == e.inDim
    ensures out.Length0 == |frames| && out.Length1 == e.outDim
    ensures forall r, j :: 0 <= r < |frames| && 0 <= j < e.outDim ==> out[r, j] == Embedded(e, frames[r], j)
  {
    hide Embedded, Per, Mul;
    out := new real[|frames|, e.outDim];
    if |frames| == 0 {
      return;
    }
    var n := |frames|;
    var threads := Threads(asked, hardware, n);
    if threads <= 1 {
      EmbedRows(e, frames, 0, n, out);
      return;
    }
    var per := Per(n, threads);
    Enough(n, threads);
    MulSteps(0, per);
    var t := 0;
    while t < threads
      invariant 0 <= t <= threads
      invariant forall r, j :: 0 <= r < Min(n, Mul(t, per)) && 0 <= j < e.outDim ==> out[r, j] == Embedded(e, frames[r], j)
    {
      MulSteps(t, per);
      var r0 := Mul(t, per);
      var r1 := Min(n, r0 + per);
      if r0 < r1 {
        EmbedRows(e, frames, r0, r1, out);
      }
      t := t + 1;
    }
  }

  lemma MulSteps(t: nat, per: nat)
    ensures Mul(t + 1, per) == Mul(t, per) + per && Mul(0, per) == 0
  {
  }
}
