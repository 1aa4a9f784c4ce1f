/**
 The drafter's selector walk: position by position it takes the best of the candidates, scored against the token taken
 before, until a cap, a confidence gate or the end of the block.
 */
module Selector {
  import opened Common
  import opened TopKMerge

  /** Piece `t` of a flat array of pieces of `n`. Proofs hide the product. */
  function Start(t: nat, n: nat): nat { t * n }

  lemma StartFits(t: nat, count: nat, n: nat)
    requires t < count
    ensures Start(t, n) + n == Start(t + 1, n) <= Start(count, n)
  {
    MulLe(t + 1, count, n);
  }

  lemma StartZero(n: nat)
    ensures Start(0, n) == 0
  {
  }

  /** One round's inputs. The codebooks are [vocab] rows of `rank`; `mul`, `add` and the softmax value `prob` of a row at
      its best entry are float operations this model does not look into. */
  datatype Lattice = Lattice(block: nat, rank: nat, topk: nat, vocab: nat,
                             cand: seq<int>, unary: seq<Logit>, gate: seq<Logit>,
                             predecessor: seq<seq<Logit>>, successor: seq<seq<Logit>>,
                             mul: (Logit, Logit) -> Logit, add: (Logit, Logit) -> Logit,
                             prob: (seq<Logit>, nat) -> Logit) {
    predicate Valid() {
      && block >= 1 && topk >= 1
      && |cand| == |unary| == Start(block, topk) && |gate| == Start(block, rank)
      && |predecessor| == |successor| == vocab
      && forall i :: 0 <= i < vocab ==> |predecessor[i]| == |successor[i]| == rank
    }

    function Cand(t: nat): (c: seq<int>)
      requires Valid() && t < block
      ensures |c| == topk
    {
      StartFits(t, block, topk);
      cand[Start(t, topk)..Start(t, topk) + topk]
    }

    function Unary(t: nat): (u: seq<Logit>)
      requires Valid() && t < block
      ensures |u| == topk
    {
      StartFits(t, block, topk);
      unary[Start(t, topk)..Start(t, topk) + topk]
    }

    function Gate(t: nat): (g: seq<Logit>)
      requires Valid() && t < block
      ensures |g| == rank
    {
      StartFits(t, block, rank);
      gate[Start(t, rank)..Start(t, rank) + rank]
    }
  }

  predicate InVocab(l: Lattice, id: int) { 0 <= id < l.vocab }

  /** Every candidate of position `t` can index the codebooks. */
  predicate Usable(l: Lattice, t: nat)
    requires l.Valid() && t < l.block
  {
    forall b :: 0 <= b < l.topk ==> InVocab(l, l.Cand(t)[b])
  }

  // ---- the lattice -------------------------------------------------------------------------------------------

  function Conditions(l: Lattice, t: nat, prev: int): (c: seq<Logit>)
    requires l.Valid() && t < l.block && InVocab(l, prev)
    ensures |c| == l.rank
  {
    seq(l.rank, r requires 0 <= r < l.rank => l.mul(l.predecessor[prev][r], l.Gate(t)[r]))
  }

  function Dot(l: Lattice, cond: seq<Logit>, next: seq<Logit>, n: nat): Logit
    requires n <= |cond| == |next|
  {
    if n == 0 then Num(0.0) else l.add(Dot(l, cond, next, n - 1), l.mul(cond[n - 1], next[n - 1]))
  }

  /** The edge from `prev` to candidate `b` of position `t`. */
  function Score(l: Lattice, t: nat, prev: int, b: nat): Logit
    requires l.Valid() && t < l.block && InVocab(l, prev) && Usable(l, t) && b < l.topk
  {
    l.add(Dot(l, Conditions(l, t, prev), l.successor[l.Cand(t)[b]], l.rank), l.Unary(t)[b])
  }

  function Scores(l: Lattice, t: nat, prev: int): (row: seq<Logit>)
    requires l.Valid() && t < l.block && InVocab(l, prev) && Usable(l, t)
    ensures |row| == l.topk
  {
    seq(l.topk, b requires 0 <= b < l.topk => Score(l, t, prev, b))
  }

  function FirstMax(row: seq<Logit>, n: nat): (b: nat)
    requires 1 <= n <= |row|
    ensures b < n
  {
    if n == 1 then 0
    else
      var b := FirstMax(row, n - 1);
      if Greater(row[n - 1], row[b]) then n - 1 else b
  }

  predicate AtMost(a: Logit, b: Logit) { a == b || Greater(b, a) }

  /** Without NaN the choice is the first of the largest; a NaN in front is never replaced. */
  lemma {:induction false} FirstMaxIsFirstMax(row: seq<Logit>, n: nat)
    requires 1 <= n <= |row|
    ensures row[0].NaN? ==> FirstMax(row, n) == 0
    ensures (forall b :: 0 <= b < n ==> !row[b].NaN?) ==>
              && (forall b :: 0 <= b < n ==> AtMost(row[b], row[FirstMax(row, n)]))
              && (forall b :: 0 <= b < FirstMax(row, n) ==> Greater(row[FirstMax(row, n)], row[b]))
  {
    if n > 1 { FirstMaxIsFirstMax(row, n - 1); }
  }

  function Choice(l: Lattice, t: nat, prev: int): (b: nat)
    requires l.Valid() && t < l.block && InVocab(l, prev) && Usable(l, t)
    ensures b < l.topk
  {
    FirstMax(Scores(l, t, prev), l.topk)
  }

  function Confidence(l: Lattice, t: nat, prev: int): Logit
    requires l.Valid() && t < l.block && InVocab(l, prev) && Usable(l, t)
  {
    l.prob(Scores(l, t, prev), Choice(l, t, prev))
  }

  predicate Trips(p: Logit, pMin: Logit) { Greater(pMin, Num(0.0)) && Greater(pMin, p) }

  /** A gate of 0 or less never trips, and neither does a NaN confidence; else any number below the gate does. */
  lemma GateInNumbers(p: Logit, m: real)
    ensures Trips(p, Num(m)) <==> m > 0.0 && (p.NegInf? || (p.Num? && p.v < m))
    ensures !Trips(p, NaN) && !Trips(p, NegInf)
  {
  }

  // ---- an edge in numbers ------------------------------------------------------------------------------------

  function Nums(x: seq<real>): (s: seq<Logit>)
    ensures |s| == |x|
  {
    seq(|x|, i requires 0 <= i < |x| => Num(x[i]))
  }

  function Times(x: real, y: real): real { x * y }

  /** The first n terms of sum over r of a[r] * b[r] * c[r]. */
  function TripleSum(a: seq<real>, b: seq<real>, c: seq<real>, n: nat): real
    requires n <= |a| == |b| == |c|
  {
    if n == 0 then 0.0 else TripleSum(a, b, c, n - 1) + a[n - 1] * b[n - 1] * c[n - 1]
  }

  /** `mul` and `add` compute exactly. */
  ghost predicate ExactFloats(l: Lattice) {
    forall x: real, y: real :: l.mul(Num(x), Num(y)) == Num(x * y) && l.add(Num(x), Num(y)) == Num(x + y)
  }

  /** Where nothing rounds, the edge from `prev` to candidate b of position t is the sum of predecessor * gate * successor over
      the ranks plus the candidate's own logit, every one at its flat place. */
  lemma EdgeInNumbers(l: Lattice, t: nat, prev: int, b: nat, p: seq<real>, g: seq<real>, s: seq<real>, u: real)
    requires l.Valid() && t < l.block && InVocab(l, prev) && Usable(l, t) && b < l.topk && ExactFloats(l)
    requires |p| == |g| == |s| == l.rank && l.predecessor[prev] == Nums(p)
    requires t * l.rank + l.rank <= |l.gate| && l.gate[t * l.rank..t * l.rank + l.rank] == Nums(g)
    requires t * l.topk + b < |l.cand| && t * l.topk + b < |l.unary| && l.unary[t * l.topk + b] == Num(u)
    requires 0 <= l.cand[t * l.topk + b] < l.vocab && l.successor[l.cand[t * l.topk + b]] == Nums(s)
    ensures Score(l, t, prev, b) == Num(TripleSum(p, g, s, l.rank) + u)
  {
    hide Times, Start, Lattice.Cand, Lattice.Unary, Lattice.Gate, ExactFloats, TripleSum, Dot;
    FlatPlaces(l, t, b);
    var cond := Conditions(l, t, prev);
    forall r | 0 <= r < l.rank ensures cond[r] == Num(Times(p[r], g[r])) {
      assert l.predecessor[prev][r] == Num(p[r]) && l.Gate(t)[r] == Nums(g)[r];
      Exact(l, p[r], g[r]);
    }
    DotInNumbers(l, cond, p, g, s, l.rank);
    Exact(l, TripleSum(p, g, s, l.rank), u);
  }

  lemma FlatPlaces(l: Lattice, t: nat, b: nat)
    requires l.Valid() && t < l.block && b < l.topk && t * l.rank + l.rank <= |l.gate|
    requires t * l.topk + b < |l.cand| && t * l.topk + b < |l.unary|
    ensures l.Cand(t)[b] == l.cand[t * l.topk + b] && l.Unary(t)[b] == l.unary[t * l.topk + b]
    ensures l.Gate(t) == l.gate[t * l.rank..t * l.rank + l.rank]
  {
    StartFits(t, l.block, l.topk);
    StartFits(t, l.block, l.rank);
    assert Start(t, l.topk) == t * l.topk && Start(t, l.rank) == t * l.rank;
    hide Start;
  }

  lemma {:induction false} DotInNumbers(l: Lattice, cond: seq<Logit>, p: seq<real>, g: seq<real>, s: seq<real>, n: nat)
    requires ExactFloats(l) && n <= |cond| == |p| == |g| == |s| && forall r :: 0 <= r < |cond| ==> cond[r] == Num(Times(p[r], g[r]))
    ensures Dot(l, cond, Nums(s), n) == Num(TripleSum(p, g, s, n))
  {
    hide Times, ExactFloats;
    if n > 0 {
      DotInNumbers(l, cond, p, g, s, n - 1);
      var x := Times(p[n - 1], g[n - 1]);
      Exact(l, x, s[n - 1]);
      ThreeFactors(p[n - 1], g[n - 1], s[n - 1]);
      SumStep(p, g, s, n);
      hide TripleSum;
      Exact(l, TripleSum(p, g, s, n - 1), Times(x, s[n - 1]));
      DotStep(l, cond, Nums(s), n);
    }
  }

  lemma ThreeFactors(x: real, y: real, z: real)
    ensures Times(Times(x, y), z) == x * y * z
  {
  }

  lemma SumStep(a: seq<real>, b: seq<real>, c: seq<real>, n: nat)
    requires 0 < n <= |a| == |b| == |c|
    ensures TripleSum(a, b, c, n) == TripleSum(a, b, c, n - 1) + a[n - 1] * b[n - 1] * c[n - 1]
  {
  }

  lemma DotStep(l: Lattice, cond: seq<Logit>, next: seq<Logit>, n: nat)
    requires 0 < n <= |cond| == |next|
    ensures Dot(l, cond, next, n) == l.add(Dot(l, cond, next, n - 1), l.mul(cond[n - 1], next[n - 1]))
  {
  }

  lemma Exact(l: Lattice, x: real, y: real)
    requires ExactFloats(l)
    ensures l.mul(Num(x), Num(y)) == Num(Times(x, y)) && l.add(Num(x), Num(y)) == Num(x + y)
  {
  }

  function FirstBad(l: Lattice, t: nat, b: nat): int
    requires l.Valid() && t < l.block && b <= l.topk
    decreases l.topk - b
  {
    if b == l.topk then -1 else if !InVocab(l, l.Cand(t)[b]) then l.Cand(t)[b] else FirstBad(l, t, b + 1)
  }

  datatype Path = Path(tokens: seq<int>, stopped: bool)

  /** The greedy path from `prev`, which sits before position `t`: it depends on nothing else that was taken. */
  function Walk(l: Lattice, t: nat, prev: int, k: int, pMin: Logit): Result<Path, int>
    requires l.Valid() && InVocab(l, prev)
    decreases l.block - t
  {
    if t >= l.block || k <= 0 then Success(Path([], false))
    else if !Usable(l, t) then Failure(FirstBad(l, t, 0))
    else if Trips(Confidence(l, t, prev), pMin) then Success(Path([], true))
    else
      var token := l.Cand(t)[Choice(l, t, prev)];
      match Walk(l, t + 1, token, k - 1, pMin)
      case Success(p) => Success(Path([token] + p.tokens, p.stopped))
      case Failure(id) => Failure(id)
  }

  // ---- the walk as the drafter runs it ----------------------------------------------------------------------

  /** What a traced round records: the whole score matrix of each position, [|P|][topk] flat. */
  class RoundTrace {
    var score: seq<seq<Logit>>
    var walkProb: seq<Logit>
    var walkB: seq<int>

    constructor ()
      ensures score == [] && walkProb == [] && walkB == []
    {
      score, walkProb, walkB := [], [], [];
    }
  }

  datatype Draft = Draft(tokens: seq<int>, walkLen: nat, stoppedByPMin: bool, discardedByNMin: bool)

  lemma BookRows(l: Lattice, id: int)
    requires l.Valid() && InVocab(l, id)
    ensures |l.predecessor| == |l.successor| == l.vocab && |l.predecessor[id]| == |l.successor[id]| == l.rank
  {
  }

  method DotProduct(l: Lattice, cond: seq<Logit>, next: seq<Logit>) returns (acc: Logit)
    requires l.rank == |cond| == |next|
    ensures acc == Dot(l, cond, next, l.rank)
  {
    acc := Num(0.0);
    var r := 0;
    while r < l.rank
      invariant 0 <= r <= l.rank && acc == Dot(l, cond, next, r)
    {
      acc := l.add(acc, l.mul(cond[r], next[r]));
      r := r + 1;
    }
  }

  /** One row of scores: the edges from `prev` to every candidate. */
  method ScoreRow(l: Lattice, t: nat, prev: int) returns (row: seq<Logit>)
    requires l.Valid() && t < l.block && InVocab(l, prev) && Usable(l, t)
    ensures row == Scores(l, t, prev)
  {
    hide Start, Lattice.Valid, Lattice.Gate, Lattice.Cand, Lattice.Unary, Dot;
    ghost var conds, scores := Conditions(l, t, prev), Scores(l, t, prev);
    BookRows(l, prev);
    var cond: seq<Logit> := [];
    var r := 0;
    while r < l.rank
      invariant 0 <= r <= l.rank && |cond| == r && forall i :: 0 <= i < r ==> cond[i] == conds[i]
    {
      cond := cond + [l.mul(l.predecessor[prev][r], l.Gate(t)[r])];
      r := r + 1;
    }
    assert cond == conds;
    row := [];
    var b := 0;
    while b < l.topk
      invariant 0 <= b <= l.topk && |row| == b && forall i :: 0 <= i < b ==> row[i] == scores[i]
    {
      BookRows(l, l.Cand(t)[b]);
      var acc := DotProduct(l, cond, l.successor[l.Cand(t)[b]]);
      row := row + [l.add(acc, l.Unary(t)[b])];
      b := b + 1;
    }
  }

  /** The matrix a trace keeps of position `t`: rows for every previous candidate, whichever one was taken. */
  ghost predicate IsMatrix(l: Lattice, t: nat, prevs: seq<int>, mat: seq<Logit>)
    requires l.Valid() && t < l.block && Usable(l, t) && forall a :: 0 <= a < |prevs| ==> InVocab(l, prevs[a])
  {
    && |mat| == Start(|prevs|, l.topk)
    && forall a: nat :: a < |prevs| ==>
         Start(a, l.topk) + l.topk <= |mat| && mat[Start(a, l.topk)..Start(a, l.topk) + l.topk] == Scores(l, t, prevs[a])
  }

  method ScoreMatrix(l: Lattice, t: nat, prevs: seq<int>) returns (mat: seq<Logit>)
    requires l.Valid() && t < l.block && Usable(l, t) && forall a :: 0 <= a < |prevs| ==> InVocab(l, prevs[a])
    ensures IsMatrix(l, t, prevs, mat)
  {
    hide Start, Usable, Scores, Lattice.Valid;
    mat := [];
    StartZero(l.topk);
    var a := 0;
    while a < |prevs|
      invariant 0 <= a <= |prevs| && |mat| == Start(a, l.topk)
      invariant forall d: nat :: d < a ==>
                  Start(d, l.topk) + l.topk <= |mat|
                  && mat[Start(d, l.topk)..Start(d, l.topk) + l.topk] == Scores(l, t, prevs[d])
    {
      var row := ScoreRow(l, t, prevs[a]);
      StartFits(a, |prevs|, l.topk);
      ghost var before := mat;
      mat := mat + row;
      forall d: nat | d < a
        ensures mat[Start(d, l.topk)..Start(d, l.topk) + l.topk] == before[Start(d, l.topk)..Start(d, l.topk) + l.topk] {}
      a := a + 1;
    }
  }

  /** The token the `i`-th one was chosen after. */
  function Before(prev: int, tokens: seq<int>, i: nat): int
    requires i <= |tokens|
  {
    if i == 0 then prev else tokens[i - 1]
  }

  /** P[predIdx] is the token the walk stands on. */
  ghost predicate StandsOn(l: Lattice, anchor: int, tokens: seq<int>, prevs: seq<int>, predIdx: nat) {
    && predIdx < |prevs|
    && prevs[predIdx] == Before(anchor, tokens, |tokens|)
    && forall a :: 0 <= a < |prevs| ==> InVocab(l, prevs[a])
  }

  lemma FirstBadFound(l: Lattice, t: nat, b: nat)
    requires l.Valid() && t < l.block && b <= l.topk
    requires forall c :: 0 <= c < b ==> InVocab(l, l.Cand(t)[c])
    ensures b == l.topk ==> Usable(l, t)
    ensures b < l.topk && !InVocab(l, l.Cand(t)[b]) ==> !Usable(l, t) && FirstBad(l, t, 0) == l.Cand(t)[b]
  {
    if b < l.topk && !InVocab(l, l.Cand(t)[b]) {
      FirstBadSkips(l, t, 0, b);
    }
  }

  lemma {:induction false} FirstBadSkips(l: Lattice, t: nat, c: nat, b: nat)
    requires l.Valid() && t < l.block && c <= b < l.topk
    requires forall i :: c <= i < b ==> InVocab(l, l.Cand(t)[i])
    ensures FirstBad(l, t, c) == FirstBad(l, t, b)
    decreases b - c
  {
    if c < b { FirstBadSkips(l, t, c + 1, b); }
  }

  method CheckCandidates(l: Lattice, t: nat) returns (bad: Option<int>)
    requires l.Valid() && t < l.block
    ensures Usable(l, t) <==> bad.None?
    ensures bad.Some? ==> bad.value == FirstBad(l, t, 0) && !(0 <= bad.value < l.vocab)
    ensures bad.None? <==> forall b :: 0 <= b < l.topk ==> 0 <= l.Cand(t)[b] < l.vocab
  {
    hide Start, Lattice.Valid, Lattice.Cand;
    var b := 0;
    while b < l.topk
      invariant 0 <= b <= l.topk && forall c :: 0 <= c < b ==> InVocab(l, l.Cand(t)[c])
    {
      FirstBadFound(l, t, b);
      if !InVocab(l, l.Cand(t)[b]) {
        return Some(l.Cand(t)[b]);
      }
      b := b + 1;
    }
    return None;
  }

  method PickFirstMax(row: seq<Logit>) returns (best: nat)
    requires row != []
    ensures best == FirstMax(row, |row|)
  {
    best := 0;
    var b := 1;
    while b < |row|
      invariant 1 <= b <= |row| && best == FirstMax(row, b)
    {
      if Greater(row[b], row[best]) {
        best := b;
      }
      b := b + 1;
    }
  }

  /** What the whole walk returns: the greedy path, discarded whole when it is shorter than nMin. */
  function Drafted(l: Lattice, anchor: int, k: int, pMin: Logit, nMin: int): Result<Draft, int>
    requires l.Valid() && InVocab(l, anchor)
  {
    match Walk(l, 1, anchor, k, pMin)
    case Failure(id) => Failure(id)
    case Success(p) =>
      var discard := nMin > 0 && |p.tokens| < nMin;
      Success(Draft(if discard then [] else p.tokens, |p.tokens|, p.stopped, discard))
  }

  /** `head` has been taken; what is left of the walk completes it. */
  ghost predicate Completes(whole: Result<Path, int>, head: seq<int>, rest: Result<Path, int>) {
    whole == match rest
             case Success(p) => Success(Path(head + p.tokens, p.stopped))
             case Failure(id) => Failure(id)
  }

  lemma CompletesOneMore(l: Lattice, whole: Result<Path, int>, head: seq<int>, t: nat, prev: int, k: int, pMin: Logit)
    requires l.Valid() && 1 <= t < l.block && InVocab(l, prev) && k > 0 && Usable(l, t)
    requires !Trips(Confidence(l, t, prev), pMin)
    requires Completes(whole, head, Walk(l, t, prev, k, pMin))
    ensures var token := l.Cand(t)[Choice(l, t, prev)];
            Completes(whole, head + [token], Walk(l, t + 1, token, k - 1, pMin))
  {
    var token := l.Cand(t)[Choice(l, t, prev)];
    var rest := Walk(l, t + 1, token, k - 1, pMin);
    if rest.Success? {
      assert (head + [token]) + rest.value.tokens == head + ([token] + rest.value.tokens);
    }
  }

  lemma Shape(l: Lattice)
    requires l.Valid()
    ensures l.block >= 1 && l.topk >= 1
  {
  }

  lemma AllUsable(l: Lattice, t: nat)
    requires l.Valid() && t < l.block && Usable(l, t)
    ensures forall b :: 0 <= b < l.topk ==> InVocab(l, l.Cand(t)[b])
  {
  }

  lemma MatrixRow(l: Lattice, t: nat, prevs: seq<int>, mat: seq<Logit>, a: nat)
    requires l.Valid() && t < l.block && Usable(l, t) && forall i :: 0 <= i < |prevs| ==> InVocab(l, prevs[i])
    requires IsMatrix(l, t, prevs, mat) && a < |prevs|
    ensures Start(a, l.topk) + l.topk <= |mat|
    ensures mat[Start(a, l.topk)..Start(a, l.topk) + l.topk] == Scores(l, t, prevs[a])
  {
  }

  lemma WalkStarts(whole: Result<Path, int>)
    ensures Completes(whole, [], whole)
  {
    if whole.Success? { assert [] + whole.value.tokens == whole.value.tokens; }
  }

  lemma WalkRefuses(l: Lattice, whole: Result<Path, int>, head: seq<int>, t: nat, prev: int, k: int, pMin: Logit)
    requires l.Valid() && t < l.block && InVocab(l, prev) && k > 0 && !Usable(l, t)
    requires Completes(whole, head, Walk(l, t, prev, k, pMin))
    ensures whole == Failure(FirstBad(l, t, 0))
  {
  }

  lemma WalkEnds(l: Lattice, whole: Result<Path, int>, head: seq<int>, t: nat, prev: int, k: int, pMin: Logit, trips: bool)
    requires l.Valid() && InVocab(l, prev) && Completes(whole, head, Walk(l, t, prev, k, pMin))
    requires trips ==> t < l.block && k > 0 && Usable(l, t) && Trips(Confidence(l, t, prev), pMin)
    requires !trips ==> t >= l.block || k <= 0
    ensures whole == Success(Path(head, trips))
  {
    assert head + [] == head;
  }

  /** The candidates position `i + 1`'s matrix has rows for. */
  function Prevs(l: Lattice, anchor: int, i: nat): seq<int>
    requires l.Valid() && i < l.block
  {
    if i == 0 then [anchor] else l.Cand(i)
  }

  /** One position's trace: the matrix over all the candidates before it; choice and confidence of the row taken. */
  ghost predicate TracedAt(l: Lattice, t: nat, prevs: seq<int>, prev: int, mat: seq<Logit>, p: Logit, b: int)
    requires l.Valid()
  {
    && t < l.block && InVocab(l, prev) && Usable(l, t)
    && (forall a :: 0 <= a < |prevs| ==> InVocab(l, prevs[a]))
    && IsMatrix(l, t, prevs, mat) && b == Choice(l, t, prev) && p == Confidence(l, t, prev)
  }

  ghost predicate TracedStep(l: Lattice, anchor: int, tokens: seq<int>, i: nat,
                             score: seq<seq<Logit>>, walkProb: seq<Logit>, walkB: seq<int>)
    requires l.Valid() && InVocab(l, anchor)
  {
    && i <= |tokens| && i < l.block && i < |score| && i < |walkProb| && i < |walkB|
    && TracedAt(l, i + 1, Prevs(l, anchor, i), Before(anchor, tokens, i), score[i], walkProb[i], walkB[i])
  }

  /** Every step taken is traced. */
  ghost predicate Traced(l: Lattice, anchor: int, tokens: seq<int>,
                         score: seq<seq<Logit>>, walkProb: seq<Logit>, walkB: seq<int>)
    requires l.Valid() && InVocab(l, anchor)
  {
    forall i: nat :: i < |tokens| ==> TracedStep(l, anchor, tokens, i, score, walkProb, walkB)
  }

  /** Places `n` and later still hold what the round starts them with. */
  ghost predicate BlankFrom(score: seq<seq<Logit>>, walkProb: seq<Logit>, walkB: seq<int>, n: nat) {
    && |score| == |walkProb| == |walkB|
    && (forall i :: n <= i < |score| ==> score[i] == [])
    && (forall i :: n <= i < |walkProb| ==> walkProb[i] == Num(0.0))
    && (forall i :: n <= i < |walkB| ==> walkB[i] == -1)
  }

  /** What a finished walk leaves in a trace: its steps, the position the gate stopped it at, and nothing after that. */
  ghost predicate Noted(l: Lattice, anchor: int, p: Path, score: seq<seq<Logit>>, walkProb: seq<Logit>, walkB: seq<int>)
    requires l.Valid() && InVocab(l, anchor)
  {
    && |score| == l.block - 1 && Traced(l, anchor, p.tokens, score, walkProb, walkB)
    && (p.stopped ==> TracedStep(l, anchor, p.tokens, |p.tokens|, score, walkProb, walkB))
    && BlankFrom(score, walkProb, walkB, |p.tokens| + if p.stopped then 1 else 0)
  }

  lemma BlankAtFirst(n: nat)
    ensures BlankFrom(seq(n, _ => []), seq(n, _ => Num(0.0)), seq(n, _ => -1), 0)
  {
  }

  lemma BlankKept(score: seq<seq<Logit>>, walkProb: seq<Logit>, walkB: seq<int>, n: nat,
                  score': seq<seq<Logit>>, walkProb': seq<Logit>, walkB': seq<int>)
    requires BlankFrom(score, walkProb, walkB, n)
    requires n < |score| == |walkProb| == |walkB| == |score'| == |walkProb'| == |walkB'|
    requires score' == score[n := score'[n]] && walkProb' == walkProb[n := walkProb'[n]] && walkB' == walkB[n := walkB'[n]]
    ensures BlankFrom(score', walkProb', walkB', n + 1)
  {
  }

  lemma TracedNone(l: Lattice, anchor: int, score: seq<seq<Logit>>, walkProb: seq<Logit>, walkB: seq<int>)
    requires l.Valid() && InVocab(l, anchor)
    ensures Traced(l, anchor, [], score, walkProb, walkB)
  {
  }

  /** Notes on the position being walked do not touch the steps already taken. */
  lemma TracedKept(l: Lattice, anchor: int, tokens: seq<int>, score: seq<seq<Logit>>, walkProb: seq<Logit>, walkB: seq<int>,
                   score': seq<seq<Logit>>, walkProb': seq<Logit>, walkB': seq<int>)
    requires l.Valid() && InVocab(l, anchor) && Traced(l, anchor, tokens, score, walkProb, walkB)
    requires var n := |tokens|;
             && n < |score| == |walkProb| == |walkB| == |score'| == |walkProb'| == |walkB'|
             && score' == score[n := score'[n]] && walkProb' == walkProb[n := walkProb'[n]] && walkB' == walkB[n := walkB'[n]]
    ensures Traced(l, anchor, tokens, score', walkProb', walkB')
  {
    hide Lattice.Valid, TracedAt;
    forall i: nat | i < |tokens| ensures TracedStep(l, anchor, tokens, i, score', walkProb', walkB') {
      assert TracedStep(l, anchor, tokens, i, score, walkProb, walkB);
    }
  }

  lemma TracedOneMore(l: Lattice, anchor: int, tokens: seq<int>, token: int, prevs: seq<int>,
                      score: seq<seq<Logit>>, walkProb: seq<Logit>, walkB: seq<int>)
    requires l.Valid() && InVocab(l, anchor) && Traced(l, anchor, tokens, score, walkProb, walkB)
    requires |tokens| < |score| == |walkProb| == |walkB| && |tokens| < l.block && prevs == Prevs(l, anchor, |tokens|)
    requires TracedAt(l, |tokens| + 1, prevs, Before(anchor, tokens, |tokens|),
                      score[|tokens|], walkProb[|tokens|], walkB[|tokens|])
    ensures Traced(l, anchor, tokens + [token], score, walkProb, walkB)
    ensures TracedStep(l, anchor, tokens, |tokens|, score, walkProb, walkB)
  {
    hide Lattice.Valid, Prevs, TracedAt;
    forall i: nat | i <= |tokens| ensures TracedStep(l, anchor, tokens + [token], i, score, walkProb, walkB) {
      assert Before(anchor, tokens + [token], i) == Before(anchor, tokens, i);
      if i < |tokens| { assert TracedStep(l, anchor, tokens, i, score, walkProb, walkB); }
    }
  }

  /** One position: the choice and its confidence, from the row of the token stood on; a trace notes the whole matrix. */
  method ScorePosition(l: Lattice, t: nat, prevs: seq<int>, predIdx: nat, trace: RoundTrace?)
    returns (best: nat, p: Logit)
    requires l.Valid() && 1 <= t < l.block && Usable(l, t) && predIdx < |prevs|
    requires forall a :: 0 <= a < |prevs| ==> InVocab(l, prevs[a])
    requires trace != null ==> |trace.score| == |trace.walkProb| == |trace.walkB| == l.block - 1
    modifies trace
    ensures best == Choice(l, t, prevs[predIdx]) && p == Confidence(l, t, prevs[predIdx])
    ensures trace != null ==>
              && |trace.score| == |trace.walkProb| == |trace.walkB| == l.block - 1
              && trace.score == old(trace.score)[t - 1 := trace.score[t - 1]]
              && trace.walkProb == old(trace.walkProb)[t - 1 := trace.walkProb[t - 1]]
              && trace.walkB == old(trace.walkB)[t - 1 := trace.walkB[t - 1]]
              && TracedAt(l, t, prevs, prevs[predIdx], trace.score[t - 1], trace.walkProb[t - 1], trace.walkB[t - 1])
  {
    hide IsMatrix, Start, Lattice.Valid, Lattice.Cand, Scores, Usable;
    Shape(l);
    var row := [];
    if trace != null {
      var mat := ScoreMatrix(l, t, prevs);
      trace.score := trace.score[t - 1 := mat];
      MatrixRow(l, t, prevs, mat, predIdx);
      row := mat[Start(predIdx, l.topk)..Start(predIdx, l.topk) + l.topk];
    } else {
      row := ScoreRow(l, t, prevs[predIdx]);
    }
    best := PickFirstMax(row);
    p := l.prob(row, best);
    if trace != null {
      trace.walkProb := trace.walkProb[t - 1 := p];
      trace.walkB := trace.walkB[t - 1 := best];
    }
  }

  /** Traced or not, the walk returns the greedy path from the anchor. */
  method SelectorWalk(l: Lattice, anchor: int, k: int, pMin: Logit, nMin: int, trace: RoundTrace?)
    returns (r: Result<Draft, int>)
    requires l.Valid() && InVocab(l, anchor)
    modifies trace
    ensures r == Drafted(l, anchor, k, pMin, nMin)
    ensures trace != null && r.Success? ==>
              && Walk(l, 1, anchor, k, pMin).Success?
              && Noted(l, anchor, Walk(l, 1, anchor, k, pMin).value, trace.score, trace.walkProb, trace.walkB)
  {
    hide Traced, TracedAt, TracedStep, BlankFrom, Choice, Confidence, Lattice.Valid, Lattice.Cand, Usable, Walk, Completes, Trips;
    ghost var whole := Walk(l, 1, anchor, k, pMin);
    var tokens: seq<int> := [];
    var stopped := false;
    var prevs, predIdx := [anchor], 0;
    Shape(l);
    if trace != null {
      trace.score := seq(l.block - 1, _ => []);
      trace.walkProb := seq(l.block - 1, _ => Num(0.0));
      trace.walkB := seq(l.block - 1, _ => -1);
    }
    WalkStarts(whole);
    if trace != null {
      TracedNone(l, anchor, trace.score, trace.walkProb, trace.walkB);
      BlankAtFirst(l.block - 1);
    }
    var t := 1;
    while t < l.block
      invariant 1 <= t <= l.block && |tokens| == t - 1
      invariant StandsOn(l, anchor, tokens, prevs, predIdx)
      invariant Completes(whole, tokens, Walk(l, t, prevs[predIdx], k - |tokens|, pMin))
      invariant trace != null ==> |trace.score| == |trace.walkProb| == |trace.walkB| == l.block - 1
      invariant !stopped
      invariant prevs == Prevs(l, anchor, t - 1)
      invariant trace != null ==> Traced(l, anchor, tokens, trace.score, trace.walkProb, trace.walkB)
      invariant trace != null ==> BlankFrom(trace.score, trace.walkProb, trace.walkB, |tokens|)
    {
      if |tokens| >= k {
        break;
      }
      var bad := CheckCandidates(l, t);
      if bad.Some? {
        WalkRefuses(l, whole, tokens, t, prevs[predIdx], k - |tokens|, pMin);
        return Failure(bad.value);
      }
      ghost var scores, probs, choices: seq<int> := [], [], [];
      if trace != null { scores, probs, choices := trace.score, trace.walkProb, trace.walkB; }
      var best, p := ScorePosition(l, t, prevs, predIdx, trace);
      if trace != null {
        TracedKept(l, anchor, tokens, scores, probs, choices, trace.score, trace.walkProb, trace.walkB);
        BlankKept(scores, probs, choices, |tokens|, trace.score, trace.walkProb, trace.walkB);
        TracedOneMore(l, anchor, tokens, l.Cand(t)[best], prevs, trace.score, trace.walkProb, trace.walkB);
      }
      if Trips(p, pMin) {
        stopped := true;
        break;
      }
      CompletesOneMore(l, whole, tokens, t, prevs[predIdx], k - |tokens|, pMin);
      tokens := tokens + [l.Cand(t)[best]];
      predIdx := best;
      prevs := l.Cand(t);
      AllUsable(l, t);
      t := t + 1;
    }
    ghost var taken := tokens;
    WalkEnds(l, whole, tokens, t, prevs[predIdx], k - |tokens|, pMin, stopped);
    var walkLen := |tokens|;
    var discarded := false;
    if nMin > 0 && walkLen < nMin {
      tokens, discarded := [], true;
    }
    assert whole == Success(Path(taken, stopped));
    return Success(Draft(tokens, walkLen, stopped, discarded));
  }

  // ---- what the path is --------------------------------------------------------------------------------------

  /** `token` is the choice after `prev`, and the gate lets it through. */
  predicate Takes(l: Lattice, t: nat, prev: int, token: int, pMin: Logit)
    requires l.Valid()
  {
    && t < l.block && InVocab(l, prev) && Usable(l, t)
    && token == l.Cand(t)[Choice(l, t, prev)]
    && !(Greater(pMin, Num(0.0)) && Greater(pMin, Confidence(l, t, prev)))
  }

  predicate GateTrips(l: Lattice, t: nat, prev: int, pMin: Logit)
    requires l.Valid()
  {
    && t < l.block && InVocab(l, prev) && Usable(l, t)
    && Greater(pMin, Num(0.0)) && Greater(pMin, Confidence(l, t, prev))
  }

  /** Each token is the choice after the one before it, and the path ends exactly at the gate, the cap or the block. */
  ghost predicate IsGreedyPath(l: Lattice, t: nat, prev: int, k: int, pMin: Logit, p: Path)
    requires l.Valid()
  {
    && (forall i: nat :: i < |p.tokens| ==> Takes(l, t + i, Before(prev, p.tokens, i), p.tokens[i], pMin))
    && if p.stopped then
         |p.tokens| < k && GateTrips(l, t + |p.tokens|, Before(prev, p.tokens, |p.tokens|), pMin)
       else
         |p.tokens| == Max(0, Min(k, l.block - t))
  }

  /** The walk returns a path iff it is the greedy path of the lattice. */
  lemma {:induction false} WalkIsGreedyPath(l: Lattice, t: nat, prev: int, k: int, pMin: Logit, p: Path)
    requires l.Valid() && InVocab(l, prev)
    ensures Walk(l, t, prev, k, pMin) == Success(p) <==> IsGreedyPath(l, t, prev, k, pMin, p)
    decreases l.block - t
  {
    hide Lattice.Valid, Lattice.Cand, Usable, Greater, Choice, Confidence;
    if t < l.block && k > 0 && Usable(l, t) && !Trips(Confidence(l, t, prev), pMin) {
      AllUsable(l, t);
      var token := l.Cand(t)[Choice(l, t, prev)];
      if p.tokens != [] && p.tokens[0] == token {
        var q := Path(p.tokens[1..], p.stopped);
        WalkIsGreedyPath(l, t + 1, token, k - 1, pMin, q);
        PathCons(l, t, prev, k, pMin, p);
        assert p.tokens == [token] + q.tokens;
      } else if IsGreedyPath(l, t, prev, k, pMin, p) {
        PathFirst(l, t, prev, k, pMin, p);
      }
    } else if IsGreedyPath(l, t, prev, k, pMin, p) {
      PathFirst(l, t, prev, k, pMin, p);
    }
  }

  lemma PathFirst(l: Lattice, t: nat, prev: int, k: int, pMin: Logit, p: Path)
    requires l.Valid() && IsGreedyPath(l, t, prev, k, pMin, p)
    ensures p.tokens != [] ==> Takes(l, t, prev, p.tokens[0], pMin) && k > 0
    ensures p.tokens == [] && p.stopped ==> GateTrips(l, t, prev, pMin) && k > 0
    ensures p.tokens == [] && !p.stopped ==> t >= l.block || k <= 0
  {
    hide Lattice.Valid, Takes, GateTrips;
    if p.tokens != [] { assert Takes(l, t + 0, Before(prev, p.tokens, 0), p.tokens[0], pMin); }
  }

  lemma PathCons(l: Lattice, t: nat, prev: int, k: int, pMin: Logit, p: Path)
    requires l.Valid() && InVocab(l, prev) && p.tokens != [] && t < l.block && k > 0
    requires Takes(l, t, prev, p.tokens[0], pMin)
    ensures IsGreedyPath(l, t, prev, k, pMin, p)
            <==> IsGreedyPath(l, t + 1, p.tokens[0], k - 1, pMin, Path(p.tokens[1..], p.stopped))
  {
    hide Lattice.Valid, Takes, GateTrips;
    var first, tail := p.tokens[0], p.tokens[1..];
    assert forall i: nat :: i <= |tail| ==> Before(first, tail, i) == Before(prev, p.tokens, i + 1);
    if forall i: nat :: i < |p.tokens| ==> Takes(l, t + i, Before(prev, p.tokens, i), p.tokens[i], pMin) {
      forall i: nat | i < |tail| ensures Takes(l, t + 1 + i, Before(first, tail, i), tail[i], pMin) {
        assert Takes(l, t + (i + 1), Before(prev, p.tokens, i + 1), p.tokens[i + 1], pMin);
      }
    }
    if forall i: nat :: i < |tail| ==> Takes(l, t + 1 + i, Before(first, tail, i), tail[i], pMin) {
      forall i: nat | i < |p.tokens| ensures Takes(l, t + i, Before(prev, p.tokens, i), p.tokens[i], pMin) {
        if i > 0 { assert Takes(l, t + 1 + (i - 1), Before(first, tail, i - 1), tail[i - 1], pMin); }
      }
    }
  }

  /** A smaller cap or a larger gate only cuts the path short. */
  lemma {:induction false} WalkPrefix(l: Lattice, t: nat, prev: int, k: int, k': int, pMin: Logit, pMin': Logit)
    requires l.Valid() && InVocab(l, prev) && k <= k' && AtMost(pMin', pMin)
    ensures var a, b := Walk(l, t, prev, k, pMin), Walk(l, t, prev, k', pMin');
            && (b.Success? ==> a.Success? && a.value.tokens <= b.value.tokens)
            && (a.Failure? ==> b == a)
    decreases l.block - t
  {
    hide Lattice.Valid, Lattice.Cand, Usable, Choice, Confidence, AtMost, Trips;
    if t < l.block && k > 0 && Usable(l, t) {
      var c := Confidence(l, t, prev);
      TripsMonotone(c, pMin, pMin');
      if !Trips(c, pMin) {
        AllUsable(l, t);
        WalkPrefix(l, t + 1, l.Cand(t)[Choice(l, t, prev)], k - 1, k' - 1, pMin, pMin');
      }
    }
  }

  lemma TripsMonotone(p: Logit, pMin: Logit, pMin': Logit)
    requires AtMost(pMin', pMin)
    ensures Trips(p, pMin') ==> Trips(p, pMin)
  {
  }

  /** The same for the drafts, discarding short ones or not. */
  lemma DraftPrefix(l: Lattice, anchor: int, k: int, k': int, pMin: Logit, pMin': Logit, nMin: int)
    requires l.Valid() && InVocab(l, anchor) && k <= k' && AtMost(pMin', pMin)
    ensures var a, b := Drafted(l, anchor, k, pMin, nMin), Drafted(l, anchor, k', pMin', nMin);
            && (b.Success? ==> a.Success? && a.value.tokens <= b.value.tokens)
            && (a.Failure? ==> b == a)
  {
    hide Lattice.Valid, Walk, AtMost;
    WalkPrefix(l, 1, anchor, k, k', pMin, pMin');
  }

  // ---- which rows it refuses -----------------------------------------------------------------------------

  function Numbers(row: seq<Logit>): set<int> {
    set i | 0 <= i < |row| && !row[i].NaN?
  }

  function Ids(list: seq<Entry>): set<int> {
    set i | 0 <= i < |list| && list[i] != SENTINEL :: list[i].id
  }

  lemma {:induction false} CountIds(list: seq<Entry>)
    requires forall i, j :: 0 <= i < j < |list| && list[i] != SENTINEL && list[j] != SENTINEL ==> list[i].id != list[j].id
    ensures |Ids(list)| <= |list| && (SENTINEL in list <==> |Ids(list)| < |list|)
  {
    if list == [] {
      assert Ids(list) == {};
    } else {
      var n := |list| - 1;
      CountIds(list[..n]);
      IdsSnoc(list);
      assert list == list[..n] + [list[n]];
      if list[n] != SENTINEL { LastIdIsNew(list); }
      hide Ids;
    }
  }

  lemma LastIdIsNew(list: seq<Entry>)
    requires list != [] && list[|list| - 1] != SENTINEL
    requires forall i, j :: 0 <= i < j < |list| && list[i] != SENTINEL && list[j] != SENTINEL ==> list[i].id != list[j].id
    ensures list[|list| - 1].id !in Ids(list[..|list| - 1])
  {
    var n := |list| - 1;
    forall i | 0 <= i < n && list[..n][i] != SENTINEL ensures list[..n][i].id != list[n].id {
      assert list[..n][i] == list[i];
    }
  }

  lemma IdsSnoc(list: seq<Entry>)
    requires list != []
    ensures var n := |list| - 1;
            Ids(list) == Ids(list[..n]) + (if list[n] == SENTINEL then {} else {list[n].id})
  {
    var n := |list| - 1;
    forall x | x in Ids(list) ensures x in Ids(list[..n]) || (list[n] != SENTINEL && x == list[n].id) {
      var i :| 0 <= i < |list| && list[i] != SENTINEL && list[i].id == x;
      if i < n { assert list[..n][i] == list[i]; }
    }
    forall x | x in Ids(list[..n]) ensures x in Ids(list) {
      var i :| 0 <= i < n && list[..n][i] != SENTINEL && list[..n][i].id == x;
      assert list[i] == list[..n][i];
    }
  }

  lemma IdsDistinct(row: seq<Logit>, k: nat, list: seq<Entry>, i: nat, j: nat)
    requires IsTopK(row, 0, k, list) && i < j < k && list[i] != SENTINEL && list[j] != SENTINEL
    ensures list[i].id != list[j].id
  {
    assert InRow(row, 0, list[i]) && InRow(row, 0, list[j]);
  }

  /** The walk refuses the top-k list of a row exactly when fewer than k of the row's logits are numbers. */
  lemma RefusesExactlyShortRows(row: seq<Logit>, k: nat, list: seq<Entry>)
    requires IsTopK(row, 0, k, list) && |row| <= INT32_MAX
    ensures (forall b :: 0 <= b < k ==> 0 <= list[b].id < |row|) <==> |Numbers(row)| >= k
  {
    hide Ordered, Beats, Covers, BeatenByAll;
    forall i, j | 0 <= i < j < |list| && list[i] != SENTINEL && list[j] != SENTINEL ensures list[i].id != list[j].id {
      IdsDistinct(row, k, list, i, j);
    }
    CountIds(list);
    assert Ids(list) <= Numbers(row);
    SubsetSize(Ids(list), Numbers(row));
    if SENTINEL in list {
      forall i | i in Numbers(row) ensures i in Ids(list) {
        ListedIfPadded(row, k, list, Entry(row[i], i));
      }
      SubsetSize(Numbers(row), Ids(list));
    }
  }

  lemma ListedIfPadded(row: seq<Logit>, k: nat, list: seq<Entry>, e: Entry)
    requires IsTopK(row, 0, k, list) && |row| <= INT32_MAX && SENTINEL in list && InRow(row, 0, e)
    ensures e in list && e != SENTINEL
  {
    var s :| 0 <= s < k && list[s] == SENTINEL;
    assert !Beats(list[s], e);
  }

  lemma {:induction false} SubsetSize<T>(a: set<T>, b: set<T>)
    requires a <= b
    ensures |a| <= |b|
  {
    if a != {} {
      var x :| x in a;
      SubsetSize(a - {x}, b - {x});
    }
  }
}
