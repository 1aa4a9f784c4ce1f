/**
 The coverage audit of a text-stack layout: which checkpoint tensors a conversion consumes at a given depth, which it
 leaves to a deeper one, and which nobody accounts for.
 */
module LayoutAudit {
  import opened Common
  import opened LayoutSets

  const INT_MAX := 0x7fff_ffff
  const INT64_MAX := 0x7fff_ffff_ffff_ffff

  // ---- the layer index in a name ---------------------------------------------------------------------------

  /** Index of the first character from `i` on that is no digit. */
  function DigitsEnd(name: string, i: nat): (e: nat)
    requires i <= |name|
    ensures i <= e <= |name| && (e < |name| ==> !IsDigit(name[e])) && forall k :: i <= k < e ==> IsDigit(name[k])
    decreases |name| - i
  {
    if i < |name| && IsDigit(name[i]) then DigitsEnd(name, i + 1) else i
  }

  /** The number in `<prefix><digits>.<rest>`, -1 for every other name. */
  function IndexOf(prefix: string, name: string): (index: int)
    ensures index >= -1
  {
    if !(prefix <= name) then -1
    else
      var e := DigitsEnd(name, |prefix|);
      if |prefix| < e < |name| && name[e] == '.' then FromDigits(name[|prefix|..e]) else -1
  }

  /** The layer index of a name; -1 also for a number past `bound`, the largest value of the index type. */
  function LayerOf(prefix: string, bound: nat, name: string): (layer: int)
    ensures -1 <= layer <= bound
  {
    if IndexOf(prefix, name) <= bound then IndexOf(prefix, name) else -1
  }

  lemma {:induction false} FromDigitsGrows(d: string, n: nat)
    requires n <= |d| && forall i :: 0 <= i < |d| ==> IsDigit(d[i])
    ensures FromDigits(d[..n]) <= FromDigits(d)
    decreases |d|
  {
    if n < |d| {
      FromDigitsGrows(d[..|d| - 1], n);
      assert d[..|d| - 1][..n] == d[..n];
    } else {
      assert d[..n] == d;
    }
  }

  /** Accumulating digit by digit stays in the index type exactly when the whole number is in it. */
  lemma FitsThroughoutIffFits(d: string, bound: nat)
    requires forall i :: 0 <= i < |d| ==> IsDigit(d[i])
    ensures (forall n :: 0 <= n <= |d| ==> FromDigits(d[..n]) <= bound) <==> FromDigits(d) <= bound
  {
    forall n | 0 <= n <= |d| ensures FromDigits(d[..n]) <= FromDigits(d) { FromDigitsGrows(d, n); }
    assert d[..|d|] == d;
  }

  /** A digit run read so far that is already too large makes the whole one too large. */
  lemma TooLargeStays(name: string, start: nat, i: nat, bound: nat)
    requires start < i <= |name| && i <= DigitsEnd(name, start)
    requires forall k :: start <= k < i ==> IsDigit(name[k])
    requires FromDigits(name[start..i]) > bound
    ensures FromDigits(name[start..DigitsEnd(name, start)]) > bound
  {
    var d := name[start..DigitsEnd(name, start)];
    forall k | 0 <= k < |d| ensures IsDigit(d[k]) { assert d[k] == name[start + k]; }
    FromDigitsGrows(d, i - start);
    assert d[..i - start] == name[start..i];
  }

  lemma OneMoreDigit(name: string, start: nat, i: nat)
    requires start <= i < |name| && forall k :: start <= k <= i ==> IsDigit(name[k])
    ensures FromDigits(name[start..i + 1]) == 10 * FromDigits(name[start..i]) + DigitValue(name[i])
  {
    var d := name[start..i + 1];
    assert d[..|d| - 1] == name[start..i];
  }

  /** The scan, with its guard: `v * 10 + digit` never overflows, and the guard only drops numbers that would. */
  method ScanLayer(prefix: string, bound: nat, name: string) returns (layer: int)
    requires bound >= 9
    ensures layer == LayerOf(prefix, bound, name)
  {
    hide FromDigits;
    if !(prefix <= name) {
      return -1;
    }
    var i, v, any := |prefix|, 0, false;
    NoDigits();
    while i < |name| && IsDigit(name[i])
      invariant |prefix| <= i <= |name| && 0 <= v <= bound && (any <==> i > |prefix|)
      invariant DigitsEnd(name, |prefix|) == DigitsEnd(name, i)
      invariant (forall k :: |prefix| <= k < i ==> IsDigit(name[k])) && v == FromDigits(name[|prefix|..i])
    {
      var digit := DigitValue(name[i]);
      OneMoreDigit(name, |prefix|, i);
      if v > (bound - digit) / 10 {
        TooLargeStays(name, |prefix|, i + 1, bound);
        return -1;
      }
      v, any, i := v * 10 + digit, true, i + 1;
    }
    return if any && i < |name| && name[i] == '.' then v else -1;
  }

  /** The scan without a guard. Its accumulator leaves the index type exactly when the digits spell a number past it, in a
      layer name or not; otherwise it finds what the guarded scan finds. */
  method ScanUnguarded(prefix: string, bound: nat, name: string) returns (layer: int, overflowed: bool)
    ensures overflowed <==> prefix <= name && FromDigits(name[|prefix|..DigitsEnd(name, |prefix|)]) > bound
    ensures !overflowed ==> layer == LayerOf(prefix, bound, name)
  {
    hide FromDigits;
    if !(prefix <= name) {
      return -1, false;
    }
    var i, v := |prefix|, 0;
    assert name[|prefix|..|prefix|] == [];
    NoDigits();
    if i >= |name| || !IsDigit(name[i]) {
      return -1, false;
    }
    overflowed := false;
    while i < |name| && IsDigit(name[i])
      invariant |prefix| <= i <= |name| && (IsDigit(name[|prefix|]) ==> i > |prefix| || i < |name|)
      invariant DigitsEnd(name, |prefix|) == DigitsEnd(name, i)
      invariant (forall k :: |prefix| <= k < i ==> IsDigit(name[k])) && v == FromDigits(name[|prefix|..i])
      invariant overflowed ==> FromDigits(name[|prefix|..DigitsEnd(name, |prefix|)]) > bound
      invariant !overflowed ==> v <= bound
    {
      OneMoreDigit(name, |prefix|, i);
      v := v * 10 + DigitValue(name[i]);
      if v > bound {
        TooLargeStays(name, |prefix|, i + 1, bound);
        overflowed := true;
      }
      i := i + 1;
    }
    layer := if i < |name| && name[i] == '.' then v else -1;
  }

  lemma NoDigits()
    ensures FromDigits([]) == 0
  {
  }

  lemma {:induction false} DigitsEndAt(name: string, i: nat, e: nat)
    requires i <= e < |name| && !IsDigit(name[e]) && forall k :: i <= k < e ==> IsDigit(name[k])
    ensures DigitsEnd(name, i) == e
    decreases e - i
  {
    if i < e { DigitsEndAt(name, i + 1, e); }
  }

  /** The audit reads back the index the layout printed. */
  lemma PrintedLayer(prefix: string, bound: nat, i: nat, rest: string)
    ensures LayerOf(prefix, bound, prefix + ToDecimal(i) + "." + rest) == if i <= bound then i else -1
  {
    PrintedIndex(prefix, i, rest);
  }

  lemma PrintedIndex(prefix: string, i: nat, rest: string)
    ensures IndexOf(prefix, prefix + ToDecimal(i) + "." + rest) == i
  {
    DecimalDigits(i);
    var name := prefix + ToDecimal(i) + "." + rest;
    var e := |prefix| + |ToDecimal(i)|;
    assert name[|prefix|..e] == ToDecimal(i) && name[..|prefix|] == prefix;
    forall k | |prefix| <= k < e ensures IsDigit(name[k]) { assert name[k] == ToDecimal(i)[k - |prefix|]; }
    DigitsEndAt(name, |prefix|, e);
  }

  // ---- a layout ------------------------------------------------------------------------------------------------

  /** One line of a layout: a tensor it consumes, of a shape the config says, or one that must or must not be there. */
  datatype Check = Consume(name: string, shape: seq<int>) | Present(name: string) | Absent(name: string)

  type Checkpoint = map<string, seq<int>>

  datatype Problem = BadDepth | Missing(name: string) | WrongShape(name: string) | Unexpected(name: string)

  datatype Layout = Layout(prefix: string, bound: nat, total: nat, layer: nat -> seq<Check>, globals: seq<Check>)

  function Verdict(ckpt: Checkpoint, c: Check): Option<Problem> {
    match c
    case Consume(n, shape) =>
      if n !in ckpt then Some(Missing(n)) else if ckpt[n] != shape then Some(WrongShape(n)) else None
    case Present(n) => if n !in ckpt then Some(Missing(n)) else None
    case Absent(n) => if n in ckpt then Some(Unexpected(n)) else None
  }

  /** The checks of the first `n` layers, in order. */
  function Layers(l: Layout, n: nat): seq<Check> {
    if n == 0 then [] else Layers(l, n - 1) + l.layer(n - 1)
  }

  function Checks(l: Layout, n: nat): seq<Check> { Layers(l, n) + l.globals }

  function FirstProblem(ckpt: Checkpoint, checks: seq<Check>): Option<Problem> {
    if checks == [] then None
    else
      var p := FirstProblem(ckpt, checks[..|checks| - 1]);
      if p.Some? then p else Verdict(ckpt, checks[|checks| - 1])
  }

  function Names(checks: seq<Check>): set<string> {
    set c | c in checks && c.Consume? :: c.name
  }

  /** What a conversion of the first `n` layers consumes. */
  function Consumed(l: Layout, n: nat): set<string> { Names(Checks(l, n)) }

  method RunChecks(ckpt: Checkpoint, checks: seq<Check>, consumed: set<string>) returns (r: Result<set<string>, Problem>)
    ensures r == match FirstProblem(ckpt, checks)
                 case Some(p) => Failure(p)
                 case None => Success(consumed + Names(checks))
  {
    hide Names, Verdict;
    var out := consumed;
    var i := 0;
    NamesNone();
    while i < |checks|
      invariant 0 <= i <= |checks| && FirstProblem(ckpt, checks[..i]).None? && out == consumed + Names(checks[..i])
    {
      assert checks[..i + 1][..i] == checks[..i];
      var v := Verdict(ckpt, checks[i]);
      if v.Some? {
        ProblemStays(ckpt, checks, i + 1);
        return Failure(v.value);
      }
      NamesSnoc(checks[..i], checks[i]);
      assert checks[..i + 1] == checks[..i] + [checks[i]];
      if checks[i].Consume? {
        out := out + {checks[i].name};
      }
      i := i + 1;
    }
    assert checks[..|checks|] == checks;
    return Success(out);
  }

  lemma NamesNone()
    ensures Names([]) == {}
  {
  }

  lemma NamesSnoc(checks: seq<Check>, c: Check)
    ensures Names(checks + [c]) == Names(checks) + if c.Consume? then {c.name} else {}
  {
    forall n | n in Names(checks) + (if c.Consume? then {c.name} else {}) ensures n in Names(checks + [c]) {
      if n in Names(checks) {
        var d :| d in checks && d.Consume? && d.name == n;
        assert d in checks + [c];
      } else {
        assert c in checks + [c];
      }
    }
  }

  lemma {:induction false} ProblemStays(ckpt: Checkpoint, checks: seq<Check>, n: nat)
    requires n <= |checks| && FirstProblem(ckpt, checks[..n]).Some?
    ensures FirstProblem(ckpt, checks) == FirstProblem(ckpt, checks[..n])
    decreases |checks| - n
  {
    if n < |checks| {
      assert checks[..n + 1][..n] == checks[..n];
      ProblemStays(ckpt, checks, n + 1);
    } else {
      assert checks[..n] == checks;
    }
  }

  lemma {:induction false} ProblemFree(ckpt: Checkpoint, checks: seq<Check>)
    ensures FirstProblem(ckpt, checks).None? <==> forall c :: c in checks ==> Verdict(ckpt, c).None?
  {
    if checks != [] {
      var n := |checks| - 1;
      ProblemFree(ckpt, checks[..n]);
      assert checks == checks[..n] + [checks[n]];
    }
  }

  lemma {:induction false} ProblemJoin(ckpt: Checkpoint, a: seq<Check>, b: seq<Check>)
    ensures FirstProblem(ckpt, a + b) == if FirstProblem(ckpt, a).Some? then FirstProblem(ckpt, a) else FirstProblem(ckpt, b)
  {
    if b == [] {
      assert a + b == a;
    } else {
      var n := |b| - 1;
      ProblemJoin(ckpt, a, b[..n]);
      assert (a + b)[..|a + b| - 1] == a + b[..n];
    }
  }

  lemma NamesJoin(a: seq<Check>, b: seq<Check>)
    ensures Names(a + b) == Names(a) + Names(b)
  {
    forall n | n in Names(a) + Names(b) ensures n in Names(a + b) {
      if n in Names(a) {
        var c :| c in a && c.Consume? && c.name == n;
        assert c in a + b;
      } else {
        var c :| c in b && c.Consume? && c.name == n;
        assert c in a + b;
      }
    }
  }

  /** What a line asks of a checkpoint. */
  ghost predicate Holds(ckpt: Checkpoint, c: Check) {
    && (c.Consume? ==> c.name in ckpt && ckpt[c.name] == c.shape)
    && (c.Present? ==> c.name in ckpt)
    && (c.Absent? ==> c.name !in ckpt)
  }

  ghost predicate Consumes(checks: seq<Check>, name: string) { exists c :: c in checks && c.Consume? && c.name == name }

  /** `p` is what is wrong with some line of these. */
  ghost predicate Explains(ckpt: Checkpoint, checks: seq<Check>, p: Problem) {
    exists c :: c in checks && match p
      case BadDepth => false
      case Missing(n) => !c.Absent? && c.name == n && n !in ckpt
      case WrongShape(n) => c.Consume? && c.name == n && n in ckpt && ckpt[n] != c.shape
      case Unexpected(n) => c.Absent? && c.name == n && n in ckpt
  }

  /** The lines of a conversion of `n` layers: those of the layers below `n`, and the globals. */
  lemma {:induction false} LinesOf(l: Layout, n: nat, c: Check)
    ensures c in Layers(l, n) <==> exists i: nat :: i < n && c in l.layer(i)
    ensures c in Checks(l, n) <==> c in l.globals || exists i: nat :: i < n && c in l.layer(i)
  {
    if n > 0 {
      LinesOf(l, n - 1, c);
    }
  }

  /** Every line of the first `n` layers and of the globals holds. */
  ghost predicate AllHold(l: Layout, ckpt: Checkpoint, n: nat) {
    && (forall c :: c in l.globals ==> Holds(ckpt, c))
    && (forall i: nat, c :: i < n && c in l.layer(i) ==> Holds(ckpt, c))
  }

  /** A conversion is taken exactly when its lines hold. */
  lemma StackMeans(l: Layout, ckpt: Checkpoint, n: nat)
    ensures FirstProblem(ckpt, Checks(l, n)).None? <==> AllHold(l, ckpt, n)
  {
    hide Layers, Checks, FirstProblem;
    var checks := Checks(l, n);
    ProblemFree(ckpt, checks);
    forall c ensures c in checks <==> c in l.globals || exists i: nat :: i < n && c in l.layer(i) { LinesOf(l, n, c); }
    forall c ensures Verdict(ckpt, c).None? <==> Holds(ckpt, c) {}
    hide Verdict, Holds;
    if forall c :: c in checks ==> Verdict(ckpt, c).None? {
      forall c | c in l.globals ensures Holds(ckpt, c) { assert c in checks; }
      forall i: nat, c | i < n && c in l.layer(i) ensures Holds(ckpt, c) { assert c in checks; }
    }
  }

  /** It consumes the names its layers' and the globals' lines consume. */
  lemma ConsumedMeans(l: Layout, n: nat, name: string)
    ensures name in Consumed(l, n) <==> Consumes(l.globals, name) || exists i: nat :: i < n && Consumes(l.layer(i), name)
  {
    hide Layers, Checks;
    forall c ensures c in Checks(l, n) <==> c in l.globals || exists i: nat :: i < n && c in l.layer(i) { LinesOf(l, n, c); }
    if name in Consumed(l, n) {
      var c :| c in Checks(l, n) && c.Consume? && c.name == name;
      if c !in l.globals {
        var i: nat :| i < n && c in l.layer(i);
        assert Consumes(l.layer(i), name);
      }
    }
    if i: nat :| i < n && Consumes(l.layer(i), name) {
      var c :| c in l.layer(i) && c.Consume? && c.name == name;
      assert c in Checks(l, n);
    }
  }

  lemma {:induction false} ProblemExplained(ckpt: Checkpoint, checks: seq<Check>)
    requires FirstProblem(ckpt, checks).Some?
    ensures Explains(ckpt, checks, FirstProblem(ckpt, checks).value)
  {
    var n := |checks| - 1;
    assert checks == checks[..n] + [checks[n]];
    if FirstProblem(ckpt, checks[..n]).Some? {
      ProblemExplained(ckpt, checks[..n]);
    }
  }

  /** The layer loop, then the tensors outside the stack. */
  method AddTextStack(l: Layout, ckpt: Checkpoint, layers: int) returns (r: Result<set<string>, Problem>)
    ensures r.Success? <==> 0 <= layers <= l.total && AllHold(l, ckpt, layers)
    ensures r == Failure(BadDepth) <==> !(0 <= layers <= l.total)
    ensures r.Failure? && 0 <= layers <= l.total ==> Explains(ckpt, Checks(l, layers), r.error)
    ensures r == if !(0 <= layers <= l.total) then Failure(BadDepth)
                 else match FirstProblem(ckpt, Checks(l, layers))
                   case Some(p) => Failure(p)
                   case None => Success(Consumed(l, layers))
  {
    if layers < 0 || layers > l.total {
      return Failure(BadDepth);
    }
    StackMeans(l, ckpt, layers);
    if FirstProblem(ckpt, Checks(l, layers)).Some? { ProblemExplained(ckpt, Checks(l, layers)); }
    hide AllHold, Explains;
    var consumed: set<string> := {};
    var i := 0;
    while i < layers
      invariant 0 <= i <= layers && FirstProblem(ckpt, Layers(l, i)).None? && consumed == Names(Layers(l, i))
    {
      ProblemJoin(ckpt, Layers(l, i), l.layer(i));
      NamesJoin(Layers(l, i), l.layer(i));
      var one := RunChecks(ckpt, l.layer(i), consumed);
      if one.Failure? {
        LayersPrefix(l, i + 1, layers);
        ProblemStays(ckpt, Checks(l, layers), |Layers(l, i + 1)|);
        return one;
      }
      consumed := one.value;
      i := i + 1;
    }
    ProblemJoin(ckpt, Layers(l, layers), l.globals);
    NamesJoin(Layers(l, layers), l.globals);
    r := RunChecks(ckpt, l.globals, consumed);
  }

  lemma {:induction false} LayersPrefix(l: Layout, n: nat, m: nat)
    requires n <= m
    ensures |Layers(l, n)| <= |Checks(l, m)| && Checks(l, m)[..|Layers(l, n)|] == Layers(l, n)
    decreases m - n
  {
    if n < m {
      LayersPrefix(l, n + 1, m);
      assert Layers(l, n + 1)[..|Layers(l, n)|] == Layers(l, n);
      assert Checks(l, m)[..|Layers(l, n + 1)|][..|Layers(l, n)|] == Checks(l, m)[..|Layers(l, n)|];
    }
  }

  // ---- depth ---------------------------------------------------------------------------------------------------

  /** Layer `i`'s tensors are named after layer `i`, the others after none. */
  ghost predicate WellNamed(l: Layout) {
    && l.total <= l.bound && l.bound >= 9
    && (forall i: nat, c :: i < l.total && c in l.layer(i) ==> c.Consume? ==> LayerOf(l.prefix, l.bound, c.name) == i)
    && (forall c :: c in l.globals ==> c.Consume? ==> LayerOf(l.prefix, l.bound, c.name) == -1)
  }

  lemma {:induction false} LayerNames(l: Layout, n: nat, m: nat, name: string)
    requires WellNamed(l) && n <= m <= l.total
    ensures name in Names(Layers(l, n)) <==> name in Names(Layers(l, m)) && LayerOf(l.prefix, l.bound, name) < n
    decreases m
  {
    if m > 0 {
      NamesJoin(Layers(l, m - 1), l.layer(m - 1));
      assert name in Names(l.layer(m - 1)) ==> LayerOf(l.prefix, l.bound, name) == m - 1;
      if n < m {
        LayerNames(l, n, m - 1, name);
      } else {
        LayerNames(l, m - 1, m - 1, name);
      }
    }
  }

  /** A conversion of `n` layers consumes exactly what a full one does of layers below `n`. */
  lemma DepthCuts(l: Layout, n: nat)
    requires WellNamed(l) && n <= l.total
    ensures Consumed(l, n) == set name | name in Consumed(l, l.total) && LayerOf(l.prefix, l.bound, name) < n
  {
    hide Names, LayerOf;
    NamesJoin(Layers(l, n), l.globals);
    NamesJoin(Layers(l, l.total), l.globals);
    forall name ensures name in Consumed(l, n) <==> name in Consumed(l, l.total) && LayerOf(l.prefix, l.bound, name) < n {
      LayerNames(l, n, l.total, name);
      if name in Names(l.globals) { GlobalName(l, name); }
    }
  }

  lemma GlobalName(l: Layout, name: string)
    requires WellNamed(l) && name in Names(l.globals)
    ensures LayerOf(l.prefix, l.bound, name) == -1
  {
  }

  /** A checkpoint a full conversion accepts, every shallower one accepts. */
  lemma ShallowerAccepts(l: Layout, ckpt: Checkpoint, n: nat)
    requires n <= l.total && FirstProblem(ckpt, Checks(l, l.total)).None?
    ensures FirstProblem(ckpt, Checks(l, n)).None?
  {
    ProblemFree(ckpt, Checks(l, l.total));
    ProblemFree(ckpt, Checks(l, n));
    LayersPrefix(l, n, l.total);
    forall c | c in Checks(l, n) ensures c in Checks(l, l.total) {
      if c in Layers(l, n) { assert c in Checks(l, l.total)[..|Layers(l, n)|]; }
    }
  }

  // ---- the audit -----------------------------------------------------------------------------------------------

  predicate Reported(l: Layout, consumed: set<string>, skipped: string -> bool, n: int, name: string) {
    name !in consumed && !skipped(name) && LayerOf(l.prefix, l.bound, name) < n
  }

  function Audit(l: Layout, consumed: set<string>, skipped: string -> bool, n: int, names: seq<string>): (out: seq<string>)
  {
    if names == [] then []
    else
      var rest := Audit(l, consumed, skipped, n, names[..|names| - 1]);
      if Reported(l, consumed, skipped, n, names[|names| - 1]) then rest + [names[|names| - 1]] else rest
  }

  // ---- std::sort of names --------------------------------------------------------------------------------------

  predicate LexLe(a: string, b: string)
    decreases |a|
  {
    a == [] || (b != [] && (a[0] < b[0] || (a[0] == b[0] && LexLe(a[1..], b[1..]))))
  }

  lemma {:induction false} LexTotal(a: string, b: string)
    ensures LexLe(a, b) || LexLe(b, a)
    decreases |a|
  {
    if a != [] && b != [] && a[0] == b[0] { LexTotal(a[1..], b[1..]); }
  }

  lemma {:induction false} LexTransitive(a: string, b: string, c: string)
    requires LexLe(a, b) && LexLe(b, c)
    ensures LexLe(a, c)
    decreases |a|
  {
    if a != [] && a[0] == b[0] == c[0] { LexTransitive(a[1..], b[1..], c[1..]); }
  }

  ghost predicate InOrder(names: seq<string>) {
    forall i, j :: 0 <= i < j < |names| ==> LexLe(names[i], names[j])
  }

  function Insert(names: seq<string>, n: string): (r: seq<string>)
    ensures |r| == |names| + 1 && multiset(r) == multiset(names) + multiset{n}
  {
    if names == [] then [n]
    else if LexLe(n, names[0]) then [n] + names
    else
      assert names == [names[0]] + names[1..];
      [names[0]] + Insert(names[1..], n)
  }

  /** The names in ascending order. */
  function SortNames(names: seq<string>): (r: seq<string>)
    ensures multiset(r) == multiset(names)
  {
    if names == [] then []
    else
      assert names == names[..|names| - 1] + [names[|names| - 1]];
      Insert(SortNames(names[..|names| - 1]), names[|names| - 1])
  }

  lemma {:induction false} InsertOrdered(names: seq<string>, n: string)
    requires InOrder(names)
    ensures InOrder(Insert(names, n))
  {
    hide LexLe;
    if names != [] {
      if LexLe(n, names[0]) {
        forall j | 0 <= j < |names| ensures LexLe(n, names[j]) {
          if j > 0 { LexTransitive(n, names[0], names[j]); }
        }
      } else {
        LexTotal(n, names[0]);
        var rest := Insert(names[1..], n);
        InsertOrdered(names[1..], n);
        forall x | x in rest ensures LexLe(names[0], x) {
          assert x in multiset(rest);
          if x != n {
            assert x in names[1..];
            var j :| 0 <= j < |names| - 1 && names[1..][j] == x;
            assert LexLe(names[0], names[j + 1]);
          }
        }
        var all := Insert(names, n);
        assert all == [names[0]] + rest;
        forall i, j | 0 <= i < j < |all| ensures LexLe(all[i], all[j]) {
          if i == 0 { assert all[j] in rest; } else { assert LexLe(rest[i - 1], rest[j - 1]); }
        }
      }
    }
  }

  lemma {:induction false} SortedInOrder(names: seq<string>)
    ensures InOrder(SortNames(names))
  {
    if names != [] {
      SortedInOrder(names[..|names| - 1]);
      InsertOrdered(SortNames(names[..|names| - 1]), names[|names| - 1]);
    }
  }

  /** The audit: the reported names in ascending order, each as often as the checkpoint lists it. */
  method UnconsumedTensors(l: Layout, names: seq<string>, consumed: set<string>, skipped: string -> bool, layers: int)
    returns (out: seq<string>)
    requires l.bound >= 9
    ensures out == SortNames(Audit(l, consumed, skipped, layers, names))
    ensures InOrder(out) && multiset(out) == multiset(Audit(l, consumed, skipped, layers, names))
  {
    hide LexLe;
    var found: seq<string> := [];
    var i := 0;
    while i < |names|
      invariant 0 <= i <= |names| && found == Audit(l, consumed, skipped, layers, names[..i])
    {
      assert names[..i + 1][..i] == names[..i];
      if !(names[i] in consumed || skipped(names[i])) {
        var layer := ScanLayer(l.prefix, l.bound, names[i]);
        if layer < layers {
          found := found + [names[i]];
        }
      }
      i := i + 1;
    }
    assert names[..|names|] == names;
    SortedInOrder(found);
    out := SortNames(found);
  }

  /** Names that fit none of consumed, skipped and deferred, and only those, are reported. */
  lemma {:induction false} AuditReports(l: Layout, consumed: set<string>, skipped: string -> bool, n: int,
                                        names: seq<string>, name: string)
    ensures name in Audit(l, consumed, skipped, n, names)
            <==> name in names && Reported(l, consumed, skipped, n, name)
  {
    if names != [] {
      var k := |names| - 1;
      AuditReports(l, consumed, skipped, n, names[..k], name);
      assert names == names[..k] + [names[k]];
    }
  }

  /** Left to a deeper conversion. */
  predicate Deferred(l: Layout, skipped: string -> bool, n: int, name: string) {
    LayerOf(l.prefix, l.bound, name) >= n && !skipped(name)
  }

  /** The skip rule leaves out nothing a full conversion consumes. */
  ghost predicate SkipsNoneConsumed(l: Layout, skipped: string -> bool) {
    forall name :: name in Consumed(l, l.total) ==> !skipped(name)
  }

  function Count(b: bool): nat { if b then 1 else 0 }

  /** The name is in exactly one class at this depth: consumed, skipped, deferred or reported. */
  ghost predicate OneClass(l: Layout, skipped: string -> bool, n: nat, name: string) {
    Count(name in Consumed(l, n)) + Count(skipped(name)) + Count(Deferred(l, skipped, n, name))
    + Count(Reported(l, Consumed(l, n), skipped, n, name)) == 1
  }

  /** Every name is in one class at every depth exactly when no consumed name is skipped. */
  lemma Partition(l: Layout, skipped: string -> bool)
    requires WellNamed(l)
    ensures SkipsNoneConsumed(l, skipped) <==> forall n: nat, name :: n <= l.total ==> OneClass(l, skipped, n, name)
  {
    hide WellNamed, Consumed, LayerOf, OneClass;
    if SkipsNoneConsumed(l, skipped) {
      forall n: nat, name | n <= l.total ensures OneClass(l, skipped, n, name) { OneClassAt(l, skipped, n, name); }
    }
    if forall n: nat, name :: n <= l.total ==> OneClass(l, skipped, n, name) {
      forall name | name in Consumed(l, l.total) ensures !skipped(name) { ConsumedNotSkipped(l, skipped, name); }
    }
  }

  lemma ConsumedNotSkipped(l: Layout, skipped: string -> bool, name: string)
    requires OneClass(l, skipped, l.total, name) && name in Consumed(l, l.total)
    ensures !skipped(name)
  {
    hide Consumed, LayerOf;
  }

  lemma OneClassAt(l: Layout, skipped: string -> bool, n: nat, name: string)
    requires WellNamed(l) && SkipsNoneConsumed(l, skipped) && n <= l.total
    ensures OneClass(l, skipped, n, name)
  {
    hide WellNamed, Consumed, LayerOf;
    DepthCuts(l, n);
  }

  /** A rule that skips no line's name skips nothing consumed. */
  lemma LinesNotSkipped(l: Layout, skipped: string -> bool)
    requires forall i: nat, c :: i < l.total && c in l.layer(i) ==> c.Consume? ==> !skipped(c.name)
    requires forall c :: c in l.globals ==> c.Consume? ==> !skipped(c.name)
    ensures SkipsNoneConsumed(l, skipped)
  {
    forall name | name in Consumed(l, l.total) ensures !skipped(name) {
      var c :| c in Checks(l, l.total) && c.Consume? && c.name == name;
      if c !in l.globals {
        var i := SomeLayer(l, l.total, c);
      }
    }
  }

  lemma {:induction false} SomeLayer(l: Layout, n: nat, c: Check) returns (i: nat)
    requires c in Layers(l, n)
    ensures i < n && c in l.layer(i)
  {
    i := n - 1;
    if c !in l.layer(i) { i := SomeLayer(l, n - 1, c); }
  }

  /** No two lines consume the same tensor. */
  ghost predicate Once(checks: seq<Check>) {
    forall i, j :: 0 <= i < j < |checks| && checks[i].Consume? && checks[j].Consume? ==> checks[i].name != checks[j].name
  }

  lemma OnceJoin(a: seq<Check>, b: seq<Check>)
    requires Once(a) && Once(b)
    requires forall c, d :: c in a && d in b && c.Consume? && d.Consume? ==> c.name != d.name
    ensures Once(a + b)
  {
    forall i, j | 0 <= i < j < |a + b| && (a + b)[i].Consume? && (a + b)[j].Consume?
      ensures (a + b)[i].name != (a + b)[j].name {
      if i < |a| && j >= |a| { assert a[i] in a && b[j - |a|] in b; }
    }
  }

  /** Layers that each consume a tensor once do so together. */
  lemma {:induction false} LayersOnce(l: Layout, n: nat)
    requires WellNamed(l) && n <= l.total && forall i: nat :: i < l.total ==> Once(l.layer(i))
    ensures Once(Layers(l, n))
  {
    hide Once, LayerOf;
    if n == 0 {
      OnceNone();
    } else {
      LayersOnce(l, n - 1);
      forall c, d | c in Layers(l, n - 1) && d in l.layer(n - 1) && c.Consume? && d.Consume? ensures c.name != d.name {
        InLayers(l, n - 1, c);
      }
      OnceJoin(Layers(l, n - 1), l.layer(n - 1));
    }
  }

  lemma OnceNone()
    ensures Once([])
  {
  }

  lemma {:induction false} InLayers(l: Layout, n: nat, c: Check)
    requires WellNamed(l) && n <= l.total && c in Layers(l, n) && c.Consume?
    ensures 0 <= LayerOf(l.prefix, l.bound, c.name) < n
  {
    hide LayerOf;
    if n > 0 && c in Layers(l, n - 1) { InLayers(l, n - 1, c); }
  }

  /** A conversion of any depth consumes no tensor twice, if no layer and no global does. */
  lemma ConsumedOnce(l: Layout, n: nat)
    requires WellNamed(l) && n <= l.total && Once(l.globals) && forall i: nat :: i < l.total ==> Once(l.layer(i))
    ensures Once(Checks(l, n))
  {
    hide Once, LayerOf;
    LayersOnce(l, n);
    forall c, d | c in Layers(l, n) && d in l.globals && c.Consume? && d.Consume? ensures c.name != d.name {
      InLayers(l, n, c);
    }
    OnceJoin(Layers(l, n), l.globals);
  }

  /** The audit at any depth reports what the full audit does of the layers below it. */
  lemma AuditAtDepth(l: Layout, skipped: string -> bool, n: nat, names: seq<string>, name: string)
    requires WellNamed(l) && n <= l.total
    ensures name in Audit(l, Consumed(l, n), skipped, n, names)
            <==> name in Audit(l, Consumed(l, l.total), skipped, l.total, names) && LayerOf(l.prefix, l.bound, name) < n
  {
    hide WellNamed, Consumed, LayerOf;
    DepthCuts(l, n);
    AuditReports(l, Consumed(l, n), skipped, n, names, name);
    AuditReports(l, Consumed(l, l.total), skipped, l.total, names, name);
  }

  lemma EmptyAuditStaysEmpty(l: Layout, skipped: string -> bool, n: nat, names: seq<string>)
    requires WellNamed(l) && n <= l.total
    requires Audit(l, Consumed(l, l.total), skipped, l.total, names) == []
    ensures Audit(l, Consumed(l, n), skipped, n, names) == []
  {
    hide WellNamed, Consumed, LayerOf, Audit;
    var out := Audit(l, Consumed(l, n), skipped, n, names);
    if out != [] {
      AuditAtDepth(l, skipped, n, names, out[0]);
    }
  }

  /** What an empty full audit does not promise: a name of a layer past the config's last passes it too. */
  lemma FullAuditEmptyIff(l: Layout, skipped: string -> bool, names: seq<string>)
    ensures Audit(l, Consumed(l, l.total), skipped, l.total, names) == []
            <==> forall name :: name in names ==>
                   name in Consumed(l, l.total) || skipped(name) || LayerOf(l.prefix, l.bound, name) >= l.total
  {
    hide Consumed, LayerOf;
    var out := Audit(l, Consumed(l, l.total), skipped, l.total, names);
    forall name ensures name in out <==> name in names && Reported(l, Consumed(l, l.total), skipped, l.total, name) {
      AuditReports(l, Consumed(l, l.total), skipped, l.total, names, name);
    }
    if out != [] { assert out[0] in out; }
  }
}
