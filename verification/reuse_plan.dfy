/**
 The reuse planner: which emit jobs of a conversion are copied from a baseline container and which are run again. Map
 iteration order is left open; a refusal carries the check that failed.
 */
module ReusePlanner {
  import opened Common
  import opened LayoutSets

  /** A JSON field as the planner sees it: missing, of the wrong type, or there. */
  datatype Field<T> = Absent | Malformed | Present(value: T)

  datatype Tensor = Tensor(dtype: string, shape: seq<int>, bytes: nat)

  /** The baseline's records and its tensor directory. A `None` entry is a JSON value of the wrong type. */
  datatype Baseline = Baseline(linears: Field<map<string, Option<string>>>, groups: Field<map<string, Option<int>>>,
                               kept: Field<seq<Option<string>>>, tensors: map<string, Tensor>)

  /** A planned tensor of this run; every one is written as U8. */
  datatype Planned = Planned(name: string, shape: seq<int>, bytes: nat)

  /** This run: the writer's plan, the plan range of every job, the linear jobs' bases and the resolved layout sets. */
  datatype Conversion = Conversion(plan: seq<Planned>, jobTensors: seq<(nat, nat)>, linearJobs: map<nat, string>,
                                   layouts: map<string, LayoutSet>) {
    ghost predicate Valid() {
      && (forall j :: 0 <= j < |jobTensors| ==> jobTensors[j].0 <= jobTensors[j].1 <= |plan|)
      && (forall j :: j in linearJobs ==> linearJobs[j] in layouts)
    }

    /** job j planned exactly the tensors after job j - 1's. */
    ghost predicate Tiled() {
      && (|jobTensors| > 0 ==> jobTensors[0].0 == 0)
      && (forall j :: 0 <= j < |jobTensors| - 1 ==> jobTensors[j].1 == jobTensors[j + 1].0)
      && (if |jobTensors| > 0 then jobTensors[|jobTensors| - 1].1 == |plan| else |plan| == 0)
    }
  }

  datatype ReuseError = BadLinearRecord | BadGroupRecord | BadKeepRecord | MissingTensor | TensorDiffers | StrayTensor

  datatype ReusePlan = ReusePlan(copy: seq<bool>, recomputedLinears: seq<string>, tensorsCopied: nat,
                                 tensorsRecomputed: nat, bytesCopied: nat, bytesRecomputed: nat)

  // ---- what the checks mean ---------------------------------------------------------------------------

  /** The baseline's record names exactly this run's linears, each with a canonical layout set. */
  ghost predicate RecordOk(b: Baseline, c: Conversion) {
    && b.linears.Present?
    && b.linears.value.Keys == c.layouts.Keys
    && forall k :: k in b.linears.value ==> b.linears.value[k].Some? && Parsed(b.linears.value[k].value).Some?
  }

  /** The recorded layout sets. */
  ghost function Then(b: Baseline, c: Conversion): (then_: map<string, LayoutSet>)
    requires RecordOk(b, c)
    ensures then_.Keys == c.layouts.Keys
  {
    map k | k in b.linears.value :: Parsed(b.linears.value[k].value).value
  }

  predicate Mapped(ls: LayoutSet) { ls.w4a16 && ls.w4a16Group != W4A16_GROUP }

  /** The group map the runtime reads lists exactly the linears off the default group, at their group. */
  ghost predicate GroupsOk(groups: Field<map<string, Option<int>>>, then_: map<string, LayoutSet>) {
    && !groups.Malformed?
    && var g := if groups.Present? then groups.value else map[];
       && g.Keys == (set k | k in then_ && then_[k].w4a16 && then_[k].w4a16Group != 64)
       && forall k :: k in g ==> g[k] == Some(then_[k].w4a16Group)
  }

  /** The keep list, when recorded, lists only linears recorded as bf16 alone. */
  ghost predicate KeptOk(kept: Field<seq<Option<string>>>, then_: map<string, LayoutSet>) {
    && !kept.Malformed?
    && (kept.Present? ==> forall i :: 0 <= i < |kept.value| ==>
          && kept.value[i].Some? && kept.value[i].value in then_
          && LayoutSetId(then_[kept.value[i].value]) == "bf16")
  }

  /** The job writes a linear whose recorded set is not this run's. */
  predicate Affected(c: Conversion, then_: map<string, LayoutSet>, j: nat)
    requires forall i :: i in c.linearJobs ==> c.linearJobs[i] in c.layouts
    requires then_.Keys == c.layouts.Keys
  {
    j in c.linearJobs && LayoutSetId(c.layouts[c.linearJobs[j]]) != LayoutSetId(then_[c.linearJobs[j]])
  }

  /** The baseline's entry is what this run plans. */
  predicate Matches(tensors: map<string, Tensor>, p: Planned) {
    p.name in tensors && tensors[p.name] == Tensor("U8", p.shape, p.bytes)
  }

  ghost predicate JobOk(b: Baseline, c: Conversion, then_: map<string, LayoutSet>, j: nat)
    requires c.Valid() && then_.Keys == c.layouts.Keys && j < |c.jobTensors|
  {
    if Affected(c, then_, j) then
      forall n :: n in LinearTensorNames(c.linearJobs[j], then_[c.linearJobs[j]]) ==> n in b.tensors
    else
      forall t :: c.jobTensors[j].0 <= t < c.jobTensors[j].1 ==> Matches(b.tensors, c.plan[t])
  }

  /** The baseline tensors job j accounts for: what it copies, or what the record names for a linear it recomputes plus
      that job's tensors outside the layouts. */
  ghost predicate AccountsFor(b: Baseline, c: Conversion, then_: map<string, LayoutSet>, j: nat, n: string)
    requires c.Valid() && then_.Keys == c.layouts.Keys && j < |c.jobTensors|
  {
    if Affected(c, then_, j) then
      var base := c.linearJobs[j];
      || n in LinearTensorNames(base, then_[base])
      || (n in b.tensors && n !in LinearTensorNames(base, c.layouts[base]) && PlannedBy(c, j, n))
    else PlannedBy(c, j, n)
  }

  ghost predicate PlannedBy(c: Conversion, j: nat, n: string)
    requires c.Valid() && j < |c.jobTensors|
  {
    exists t :: c.jobTensors[j].0 <= t < c.jobTensors[j].1 && c.plan[t].name == n
  }

  ghost predicate AllAccounted(b: Baseline, c: Conversion, then_: map<string, LayoutSet>)
    requires c.Valid() && then_.Keys == c.layouts.Keys
  {
    forall n :: n in b.tensors ==> exists j: nat :: j < |c.jobTensors| && AccountsFor(b, c, then_, j, n)
  }

  /** The planner refuses nothing. */
  ghost predicate Consistent(b: Baseline, c: Conversion)
    requires c.Valid()
  {
    && RecordOk(b, c)
    && GroupsOk(b.groups, Then(b, c))
    && KeptOk(b.kept, Then(b, c))
    && (forall j: nat :: j < |c.jobTensors| ==> JobOk(b, c, Then(b, c), j))
    && AllAccounted(b, c, Then(b, c))
  }

  // ---- totals -------------------------------------------------------------------------------------------

  function PlannedBytes(plan: seq<Planned>, lo: nat, hi: nat): nat
    requires lo <= hi <= |plan|
    decreases hi - lo
  {
    if lo == hi then 0 else PlannedBytes(plan, lo, hi - 1) + plan[hi - 1].bytes
  }

  /** Tensors and bytes of the first k jobs whose copy flag is `copied`. */
  function Tensors(c: Conversion, copy: seq<bool>, copied: bool, k: nat): nat
    requires k <= |c.jobTensors| && |copy| >= k
    requires forall j :: 0 <= j < |c.jobTensors| ==> c.jobTensors[j].0 <= c.jobTensors[j].1 <= |c.plan|
  {
    if k == 0 then 0
    else Tensors(c, copy, copied, k - 1)
         + if copy[k - 1] == copied then c.jobTensors[k - 1].1 - c.jobTensors[k - 1].0 else 0
  }

  function Bytes(c: Conversion, copy: seq<bool>, copied: bool, k: nat): nat
    requires k <= |c.jobTensors| && |copy| >= k
    requires forall j :: 0 <= j < |c.jobTensors| ==> c.jobTensors[j].0 <= c.jobTensors[j].1 <= |c.plan|
  {
    if k == 0 then 0
    else Bytes(c, copy, copied, k - 1)
         + if copy[k - 1] == copied then PlannedBytes(c.plan, c.jobTensors[k - 1].0, c.jobTensors[k - 1].1) else 0
  }

  lemma {:induction false} BytesJoin(plan: seq<Planned>, a: nat, b: nat, d: nat)
    requires a <= b <= d <= |plan|
    ensures PlannedBytes(plan, a, d) == PlannedBytes(plan, a, b) + PlannedBytes(plan, b, d)
    decreases d - b
  {
    if b < d { BytesJoin(plan, a, b, d - 1); }
  }

  lemma {:induction false} TotalsUpTo(c: Conversion, copy: seq<bool>, k: nat)
    requires c.Valid() && c.Tiled() && |copy| == |c.jobTensors| && k <= |copy|
    ensures var end := if k == 0 then 0 else c.jobTensors[k - 1].1;
            && Tensors(c, copy, true, k) + Tensors(c, copy, false, k) == end
            && Bytes(c, copy, true, k) + Bytes(c, copy, false, k) == PlannedBytes(c.plan, 0, end)
  {
    if k > 0 {
      TotalsUpTo(c, copy, k - 1);
      BytesJoin(c.plan, 0, c.jobTensors[k - 1].0, c.jobTensors[k - 1].1);
    }
  }

  /** Every planned tensor and byte is either copied or recomputed. */
  lemma TotalsConserved(c: Conversion, copy: seq<bool>)
    requires c.Valid() && c.Tiled() && |copy| == |c.jobTensors|
    ensures Tensors(c, copy, true, |copy|) + Tensors(c, copy, false, |copy|) == |c.plan|
    ensures Bytes(c, copy, true, |copy|) + Bytes(c, copy, false, |copy|) == PlannedBytes(c.plan, 0, |c.plan|)
  {
    TotalsUpTo(c, copy, |copy|);
  }

  function RecomputedLinears(c: Conversion, then_: map<string, LayoutSet>, k: nat): seq<string>
    requires forall i :: i in c.linearJobs ==> c.linearJobs[i] in c.layouts
    requires then_.Keys == c.layouts.Keys && k <= |c.jobTensors|
  {
    if k == 0 then []
    else RecomputedLinears(c, then_, k - 1) + if Affected(c, then_, k - 1) then [c.linearJobs[k - 1]] else []
  }

  // ---- the planner ------------------------------------------------------------------------------------------

  /** (1) The per-linear record. */
  method ReadRecord(b: Baseline, c: Conversion) returns (r: Result<map<string, LayoutSet>, ReuseError>)
    requires c.Valid()
    ensures r.Success? <==> RecordOk(b, c)
    ensures r.Success? ==> r.value == Then(b, c)
    ensures r.Failure? ==> r.error == BadLinearRecord
  {
    hide Parsed;
    if !b.linears.Present? {
      return Failure(BadLinearRecord);
    }
    var rec := b.linears.value;
    var then_: map<string, LayoutSet> := map[];
    var rest := rec.Keys;
    while rest != {}
      invariant rest <= rec.Keys && then_.Keys == rec.Keys - rest
      invariant forall k :: k in then_ ==>
                  && k in c.layouts && rec[k].Some?
                  && Parsed(rec[k].value) == Some(then_[k])
      decreases rest
    {
      var k :| k in rest;
      if k !in c.layouts {
        return Failure(BadLinearRecord);
      }
      if rec[k].None? {
        return Failure(BadLinearRecord);
      }
      var ls := ParseLayoutSetId(rec[k].value);
      if ls.None? {
        return Failure(BadLinearRecord);
      }
      then_ := then_[k := ls.value];
      rest := rest - {k};
    }
    rest := c.layouts.Keys;
    while rest != {}
      invariant rest <= c.layouts.Keys
      invariant forall k :: k in c.layouts && k !in rest ==> k in then_
      decreases rest
    {
      var k :| k in rest;
      if k !in then_ {
        return Failure(BadLinearRecord);
      }
      rest := rest - {k};
    }
    return Success(then_);
  }

  /** (2) The baseline's group map. */
  method CheckGroups(groups: Field<map<string, Option<int>>>, then_: map<string, LayoutSet>) returns (ok: bool)
    ensures ok <==> GroupsOk(groups, then_)
  {
    if groups.Malformed? {
      return false;
    }
    var g := if groups.Present? then groups.value else map[];
    var rest := g.Keys;
    while rest != {}
      invariant rest <= g.Keys
      invariant forall k :: k in g && k !in rest ==> g[k].Some? && k in then_
      decreases rest
    {
      var k :| k in rest;
      if g[k].None? || k !in then_ {
        return false;
      }
      rest := rest - {k};
    }
    rest := then_.Keys;
    while rest != {}
      invariant rest <= then_.Keys
      invariant forall k :: k in then_ && k !in rest ==>
                  Mapped(then_[k]) == (k in g) && (Mapped(then_[k]) ==> g[k] == Some(then_[k].w4a16Group))
      decreases rest
    {
      var k :| k in rest;
      if Mapped(then_[k]) != (k in g) || (Mapped(then_[k]) && g[k] != Some(then_[k].w4a16Group)) {
        return false;
      }
      rest := rest - {k};
    }
    assert g.Keys == set k | k in then_ && Mapped(then_[k]);
    return true;
  }

  lemma KeptSpelled()
    ensures LayoutSetId(KEPT_BF16) == "bf16" && Normal(KEPT_BF16) == KEPT_BF16
  {
    IdsSpelled(KEPT_BF16);
  }

  /** ... and its keep list. */
  method CheckKept(kept: Field<seq<Option<string>>>, then_: map<string, LayoutSet>) returns (ok: bool)
    ensures ok <==> KeptOk(kept, then_)
  {
    KeptSpelled();
    hide LayoutSetId;
    if kept.Malformed? {
      return false;
    }
    if kept.Present? {
      for i := 0 to |kept.value|
        invariant KeptOk(Present(kept.value[..i]), then_)
      {
        var k := kept.value[i];
        if k.None? || k.value !in then_ || LayoutSetId(then_[k.value]) != LayoutSetId(KEPT_BF16) {
          return false;
        }
        assert kept.value[..i + 1] == kept.value[..i] + [k];
      }
      assert kept.value[..|kept.value|] == kept.value;
    }
    return true;
  }

  /** What the job loop has established about the first k jobs. */
  ghost predicate Progress(b: Baseline, c: Conversion, then_: map<string, LayoutSet>, p: ReusePlan,
                           accounted: set<string>, k: nat)
    requires c.Valid() && then_.Keys == c.layouts.Keys && k <= |c.jobTensors|
  {
    && |p.copy| == k && (forall j: nat :: j < k ==> p.copy[j] == !Affected(c, then_, j))
    && (forall j: nat :: j < k ==> JobOk(b, c, then_, j))
    && (forall n :: n in accounted <==> exists j: nat :: j < k && AccountsFor(b, c, then_, j, n))
    && p.recomputedLinears == RecomputedLinears(c, then_, k)
    && p.tensorsCopied == Tensors(c, p.copy, true, k) && p.tensorsRecomputed == Tensors(c, p.copy, false, k)
    && p.bytesCopied == Bytes(c, p.copy, true, k) && p.bytesRecomputed == Bytes(c, p.copy, false, k)
  }

  /** Job j is copied: every tensor it planned must be in the baseline, as planned. */
  method CopyJob(b: Baseline, c: Conversion, ghost then_: map<string, LayoutSet>, j: nat)
    returns (r: Result<(set<string>, nat), ReuseError>)
    requires c.Valid() && then_.Keys == c.layouts.Keys && j < |c.jobTensors| && !Affected(c, then_, j)
    ensures r.Success? <==> JobOk(b, c, then_, j)
    ensures r.Failure? ==> r.error in {MissingTensor, TensorDiffers}
    ensures r.Success? ==> forall n :: n in r.value.0 <==> AccountsFor(b, c, then_, j, n)
    ensures r.Success? ==> r.value.1 == PlannedBytes(c.plan, c.jobTensors[j].0, c.jobTensors[j].1)
  {
    var (lo, hi) := c.jobTensors[j];
    var names, bytes := {}, 0;
    for t := lo to hi
      invariant forall u :: lo <= u < t ==> Matches(b.tensors, c.plan[u])
      invariant forall n :: n in names <==> exists u :: lo <= u < t && c.plan[u].name == n
      invariant bytes == PlannedBytes(c.plan, lo, t)
    {
      var p := c.plan[t];
      if p.name !in b.tensors {
        return Failure(MissingTensor);
      }
      var m := b.tensors[p.name];
      if m.dtype != "U8" || m.shape != p.shape || m.bytes != p.bytes {
        return Failure(TensorDiffers);
      }
      names := names + {p.name};
      bytes := bytes + m.bytes;
    }
    return Success((names, bytes));
  }

  /** Job j is recomputed: the baseline must hold every tensor its record names for the linear. */
  method RecomputeJob(b: Baseline, c: Conversion, then_: map<string, LayoutSet>, j: nat)
    returns (r: Result<(set<string>, nat), ReuseError>)
    requires c.Valid() && then_.Keys == c.layouts.Keys && j < |c.jobTensors| && Affected(c, then_, j)
    ensures r.Success? <==> JobOk(b, c, then_, j)
    ensures r.Failure? ==> r.error == MissingTensor
    ensures r.Success? ==> forall n :: n in r.value.0 <==> AccountsFor(b, c, then_, j, n)
    ensures r.Success? ==> r.value.1 == PlannedBytes(c.plan, c.jobTensors[j].0, c.jobTensors[j].1)
  {
    hide LinearTensorNames, LayoutSetId;
    var base := c.linearJobs[j];
    var recorded := LinearTensorNames(base, then_[base]);
    var names := {};
    for i := 0 to |recorded|
      invariant names == (set n | n in recorded[..i])
      invariant forall n :: n in recorded[..i] ==> n in b.tensors
    {
      if recorded[i] !in b.tensors {
        return Failure(MissingTensor);
      }
      assert recorded[..i + 1] == recorded[..i] + [recorded[i]];
      names := names + {recorded[i]};
    }
    assert recorded[..|recorded|] == recorded;
    var own := LinearTensorNames(base, c.layouts[base]);
    var (lo, hi) := c.jobTensors[j];
    var bytes := 0;
    for t := lo to hi
      invariant forall n :: n in names <==>
                  || n in recorded
                  || (n in b.tensors && n !in own && exists u :: lo <= u < t && c.plan[u].name == n)
      invariant bytes == PlannedBytes(c.plan, lo, t)
    {
      var n := c.plan[t].name;
      if n !in own && n in b.tensors {
        names := names + {n};
      }
      bytes := bytes + c.plan[t].bytes;
    }
    return Success((names, bytes));
  }

  /** The two counters of one more job. */
  lemma CountJob(b: Baseline, c: Conversion, then_: map<string, LayoutSet>, p: ReusePlan, accounted: set<string>, k: nat,
                 names: set<string>, bytes: nat, p': ReusePlan)
    requires c.Valid() && then_.Keys == c.layouts.Keys && k < |c.jobTensors|
    requires Progress(b, c, then_, p, accounted, k) && JobOk(b, c, then_, k)
    requires forall n :: n in names <==> AccountsFor(b, c, then_, k, n)
    requires bytes == PlannedBytes(c.plan, c.jobTensors[k].0, c.jobTensors[k].1)
    requires var n := c.jobTensors[k].1 - c.jobTensors[k].0;
             p' == if Affected(c, then_, k) then
                     ReusePlan(p.copy + [false], p.recomputedLinears + [c.linearJobs[k]], p.tensorsCopied,
                               p.tensorsRecomputed + n, p.bytesCopied, p.bytesRecomputed + bytes)
                   else
                     ReusePlan(p.copy + [true], p.recomputedLinears, p.tensorsCopied + n, p.tensorsRecomputed,
                               p.bytesCopied + bytes, p.bytesRecomputed)
    ensures Progress(b, c, then_, p', accounted + names, k + 1)
  {
    hide Affected, JobOk, AccountsFor, PlannedBytes, Conversion.Valid;
    TotalsPrefix(c, p.copy, p'.copy, true, k);
    TotalsPrefix(c, p.copy, p'.copy, false, k);
    forall n ensures n in accounted + names <==> exists j: nat :: j < k + 1 && AccountsFor(b, c, then_, j, n) {
      if j: nat :| j < k + 1 && AccountsFor(b, c, then_, j, n) {
        assert j < k || j == k;
      }
    }
  }

  lemma {:induction false} TotalsPrefix(c: Conversion, a: seq<bool>, b: seq<bool>, copied: bool, k: nat)
    requires c.Valid() && k <= |c.jobTensors| && |a| >= k && |b| >= k && a[..k] == b[..k]
    ensures Tensors(c, a, copied, k) == Tensors(c, b, copied, k) && Bytes(c, a, copied, k) == Bytes(c, b, copied, k)
  {
    if k > 0 {
      assert a[..k - 1] == a[..k][..k - 1] && b[..k - 1] == b[..k][..k - 1];
      assert a[k - 1] == a[..k][k - 1] && b[k - 1] == b[..k][k - 1];
      TotalsPrefix(c, a, b, copied, k - 1);
    }
  }

  lemma AffectedIsLinear(c: Conversion, then_: map<string, LayoutSet>, j: nat)
    requires c.Valid() && then_.Keys == c.layouts.Keys && Affected(c, then_, j)
    ensures j in c.linearJobs
  {
  }

  /** (3) Per job. */
  method PlanJobs(b: Baseline, c: Conversion, then_: map<string, LayoutSet>)
    returns (r: Result<(ReusePlan, set<string>), ReuseError>)
    requires c.Valid() && then_.Keys == c.layouts.Keys
    ensures r.Success? <==> forall j: nat :: j < |c.jobTensors| ==> JobOk(b, c, then_, j)
    ensures r.Failure? ==> r.error in {MissingTensor, TensorDiffers}
    ensures r.Success? ==> Progress(b, c, then_, r.value.0, r.value.1, |c.jobTensors|)
    ensures r.Success? ==> forall j: nat :: j < |c.jobTensors| ==>
              (r.value.0.copy[j] <==> j in c.linearJobs ==>
                 LayoutSetId(c.layouts[c.linearJobs[j]]) == LayoutSetId(then_[c.linearJobs[j]]))
  {
    hide JobOk, AccountsFor, Affected, LayoutSetId;
    var p := ReusePlan([], [], 0, 0, 0, 0);
    var accounted := {};
    for j := 0 to |c.jobTensors|
      invariant Progress(b, c, then_, p, accounted, j)
    {
      var n := c.jobTensors[j].1 - c.jobTensors[j].0;
      ghost var p0 := p;
      ghost var a0 := accounted;
      if Affected(c, then_, j) {
        AffectedIsLinear(c, then_, j);
        var e := RecomputeJob(b, c, then_, j);
        if e.Failure? {
          return Failure(e.error);
        }
        p := ReusePlan(p.copy + [false], p.recomputedLinears + [c.linearJobs[j]], p.tensorsCopied,
                       p.tensorsRecomputed + n, p.bytesCopied, p.bytesRecomputed + e.value.1);
        accounted := accounted + e.value.0;
        CountJob(b, c, then_, p0, a0, j, e.value.0, e.value.1, p);
      } else {
        var e := CopyJob(b, c, then_, j);
        if e.Failure? {
          return Failure(e.error);
        }
        p := ReusePlan(p.copy + [true], p.recomputedLinears, p.tensorsCopied + n, p.tensorsRecomputed,
                       p.bytesCopied + e.value.1, p.bytesRecomputed);
        accounted := accounted + e.value.0;
        CountJob(b, c, then_, p0, a0, j, e.value.0, e.value.1, p);
      }
    }
    forall j: nat | j < |c.jobTensors|
      ensures p.copy[j] <==> j in c.linearJobs ==> LayoutSetId(c.layouts[c.linearJobs[j]]) == LayoutSetId(then_[c.linearJobs[j]]) {
      AffectedMeans(c, then_, j);
    }
    return Success((p, accounted));
  }

  lemma AffectedMeans(c: Conversion, then_: map<string, LayoutSet>, j: nat)
    requires c.Valid() && then_.Keys == c.layouts.Keys
    ensures Affected(c, then_, j)
            <==> j in c.linearJobs && LayoutSetId(c.layouts[c.linearJobs[j]]) != LayoutSetId(then_[c.linearJobs[j]])
  {
  }

  /** Decides exactly consistency, and plans the copy of exactly the jobs whose recorded layout set is this run's. */
  method PlanReuse(b: Baseline, c: Conversion) returns (r: Result<ReusePlan, ReuseError>)
    requires c.Valid()
    ensures r.Success? <==> Consistent(b, c)
    ensures r == Failure(BadLinearRecord) <==> !RecordOk(b, c)
    ensures r == Failure(BadGroupRecord) <==> RecordOk(b, c) && !GroupsOk(b.groups, Then(b, c))
    ensures r == Failure(BadKeepRecord) <==>
              RecordOk(b, c) && GroupsOk(b.groups, Then(b, c)) && !KeptOk(b.kept, Then(b, c))
    ensures r.Success? ==> b.linears.Present? && b.linears.value.Keys == c.layouts.Keys && |r.value.copy| == |c.jobTensors|
    ensures r.Success? ==> forall j: nat :: j < |c.jobTensors| ==>
              (r.value.copy[j] <==> j !in c.linearJobs
                                    || b.linears.value[c.linearJobs[j]] == Some(LayoutSetId(c.layouts[c.linearJobs[j]])))
    ensures r.Success? ==> forall x :: x in r.value.recomputedLinears <==>
              exists j: nat :: j < |c.jobTensors| && Recomputes(c, r.value.copy, j, x)
    ensures r.Success? ==>
              var then_, n := Then(b, c), |c.jobTensors|;
              && |r.value.copy| == n
              && (forall j: nat :: j < n ==> r.value.copy[j] == !Affected(c, then_, j))
              && r.value.recomputedLinears == RecomputedLinears(c, then_, n)
              && r.value.tensorsCopied == Tensors(c, r.value.copy, true, n)
              && r.value.tensorsRecomputed == Tensors(c, r.value.copy, false, n)
              && r.value.bytesCopied == Bytes(c, r.value.copy, true, n)
              && r.value.bytesRecomputed == Bytes(c, r.value.copy, false, n)
  {
    hide GroupsOk, KeptOk, JobOk, AccountsFor, Affected, Parsed, RecomputedLinears, Recomputes, LayoutSetId, Tensors, Bytes;
    var rec := ReadRecord(b, c);
    if rec.Failure? {
      return Failure(BadLinearRecord);
    }
    var then_ := rec.value;
    var ok := CheckGroups(b.groups, then_);
    if !ok {
      return Failure(BadGroupRecord);
    }
    ok := CheckKept(b.kept, then_);
    if !ok {
      return Failure(BadKeepRecord);
    }
    var jobs := PlanJobs(b, c, then_);
    if jobs.Failure? {
      return Failure(jobs.error);
    }
    var (p, accounted) := jobs.value;
    var names := b.tensors.Keys;
    while names != {}
      invariant names <= b.tensors.Keys
      invariant forall n :: n in b.tensors && n !in names ==> n in accounted
      decreases names
    {
      var n :| n in names;
      if n !in accounted {
        return Failure(StrayTensor);
      }
      names := names - {n};
    }
    forall j: nat | j < |c.jobTensors|
      ensures p.copy[j] <==> j !in c.linearJobs
                             || b.linears.value[c.linearJobs[j]] == Some(LayoutSetId(c.layouts[c.linearJobs[j]])) {
      CopiedIff(b, c, j);
    }
    forall x ensures x in RecomputedLinears(c, then_, |c.jobTensors|) <==>
                     exists j: nat :: j < |c.jobTensors| && Recomputes(c, p.copy, j, x) {
      RecomputedIff(c, then_, p.copy, |c.jobTensors|, x);
    }
    return Success(p);
  }

  /** In the record's own terms: an unaffected job is one outside the record, or one whose recorded id is this run's. */
  lemma CopiedIff(b: Baseline, c: Conversion, j: nat)
    requires c.Valid() && RecordOk(b, c)
    ensures !Affected(c, Then(b, c), j) <==>
              j !in c.linearJobs || b.linears.value[c.linearJobs[j]] == Some(LayoutSetId(c.layouts[c.linearJobs[j]]))
  {
    hide LayoutSetId, Parsed, Normal;
    if j in c.linearJobs {
      var recorded := b.linears.value[c.linearJobs[j]];
      ParsesExactly(recorded.value);
    }
  }

  lemma {:induction false} RecomputedIff(c: Conversion, then_: map<string, LayoutSet>, copy: seq<bool>, k: nat, x: string)
    requires c.Valid() && then_.Keys == c.layouts.Keys && k <= |c.jobTensors| && |copy| >= k
    requires forall j: nat :: j < k ==> copy[j] == !Affected(c, then_, j)
    ensures x in RecomputedLinears(c, then_, k) <==> exists j: nat :: j < k && Recomputes(c, copy, j, x)
  {
    hide Affected, Recomputes;
    if k > 0 {
      RecomputedIff(c, then_, copy, k - 1, x);
      OneRecomputed(c, then_, copy, k - 1, x);
      if j: nat :| j < k && Recomputes(c, copy, j, x) {
        assert j < k - 1 || j == k - 1;
      }
    }
  }

  /** Job j writes linear x and is not copied. */
  predicate Recomputes(c: Conversion, copy: seq<bool>, j: nat, x: string)
    requires j < |copy|
  {
    !copy[j] && j in c.linearJobs && c.linearJobs[j] == x
  }

  lemma OneRecomputed(c: Conversion, then_: map<string, LayoutSet>, copy: seq<bool>, j: nat, x: string)
    requires c.Valid() && then_.Keys == c.layouts.Keys && j < |copy| && copy[j] == !Affected(c, then_, j)
    ensures Affected(c, then_, j) ==> j in c.linearJobs
    ensures Recomputes(c, copy, j, x) <==> Affected(c, then_, j) && c.linearJobs[j] == x
  {
  }
}
