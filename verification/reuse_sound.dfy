/**
 What a reuse run writes against what a full run writes. What a job emits is uninterpreted: a function of the job and, for
 a linear, of its layout set without the ignored fields; the writer accepts no name twice.
 */
module ReuseSound {
  import opened Common
  import opened LayoutSets
  import opened ReusePlanner

  datatype Written = Written(shape: seq<int>, data: seq<int>)

  type Emitter = (nat, Option<LayoutSet>) -> map<string, Written>

  /** Job j's layout set under `layouts`. */
  function LayoutOf(c: Conversion, layouts: map<string, LayoutSet>, j: nat): Option<LayoutSet>
    requires c.Valid() && layouts.Keys == c.layouts.Keys
  {
    if j in c.linearJobs then Some(Normal(layouts[c.linearJobs[j]])) else None
  }

  function Emitted(e: Emitter, c: Conversion, layouts: map<string, LayoutSet>, j: nat): map<string, Written>
    requires c.Valid() && layouts.Keys == c.layouts.Keys
  {
    e(j, LayoutOf(c, layouts, j))
  }

  /** A linear job writes its layouts' tensors and some of its own, named apart from any layout's. */
  ghost predicate LinearNames(e: Emitter, c: Conversion, extra: map<nat, set<string>>)
    requires c.Valid()
  {
    forall j: nat, ls {:trigger e(j, Some(ls))} :: j in c.linearJobs && Normal(ls) == ls ==>
      && j in extra
      && e(j, Some(ls)).Keys == (set n | n in LinearTensorNames(c.linearJobs[j], ls)) + extra[j]
      && forall n :: n in extra[j] ==> n !in LinearTensorNames(c.linearJobs[j], ls)
  }

  /** No two jobs write one name (the writer refuses a duplicate). */
  ghost predicate NamesApart(e: Emitter, c: Conversion, layouts: map<string, LayoutSet>)
    requires c.Valid() && layouts.Keys == c.layouts.Keys
  {
    forall i: nat, j: nat :: i < j < |c.jobTensors| ==> Emitted(e, c, layouts, i).Keys !! Emitted(e, c, layouts, j).Keys
  }

  /** Every job plans exactly what it emits. */
  ghost predicate PlansItsOutput(e: Emitter, c: Conversion)
    requires c.Valid()
  {
    forall j: nat :: j < |c.jobTensors| ==>
      && (forall n :: n in Emitted(e, c, c.layouts, j) <==> PlannedBy(c, j, n))
      && (forall t {:trigger c.plan[t]} :: c.jobTensors[j].0 <= t < c.jobTensors[j].1 && c.plan[t].name in Emitted(e, c, c.layouts, j) ==>
            var w := Emitted(e, c, c.layouts, j)[c.plan[t].name];
            c.plan[t].shape == w.shape && c.plan[t].bytes == |w.data|)
  }

  /** The container after the first k emit jobs. */
  function FullRun(e: Emitter, c: Conversion, layouts: map<string, LayoutSet>, k: nat): map<string, Written>
    requires c.Valid() && layouts.Keys == c.layouts.Keys && k <= |c.jobTensors|
  {
    if k == 0 then map[] else FullRun(e, c, layouts, k - 1) + Emitted(e, c, layouts, k - 1)
  }

  /** The same, copying the jobs marked in `copy` out of the baseline. */
  ghost function ReuseRun(e: Emitter, c: Conversion, baseline: map<string, Written>, copy: seq<bool>, k: nat)
    : map<string, Written>
    requires c.Valid() && k <= |c.jobTensors| == |copy|
  {
    if k == 0 then map[]
    else ReuseRun(e, c, baseline, copy, k - 1)
         + if copy[k - 1] then map n | n in baseline && PlannedBy(c, k - 1, n) :: baseline[n]
           else Emitted(e, c, c.layouts, k - 1)
  }

  /** The baseline's tensor directory. */
  function Directory(data: map<string, Written>): map<string, Tensor> {
    map n | n in data :: Tensor("U8", data[n].shape, |data[n].data|)
  }

  lemma {:induction false} FullRunHas(e: Emitter, c: Conversion, layouts: map<string, LayoutSet>, k: nat, j: nat, n: string)
    requires c.Valid() && layouts.Keys == c.layouts.Keys && j < k <= |c.jobTensors|
    requires NamesApart(e, c, layouts) && n in Emitted(e, c, layouts, j)
    ensures n in FullRun(e, c, layouts, k) && FullRun(e, c, layouts, k)[n] == Emitted(e, c, layouts, j)[n]
  {
    if j < k - 1 {
      FullRunHas(e, c, layouts, k - 1, j, n);
      assert Emitted(e, c, layouts, j).Keys !! Emitted(e, c, layouts, k - 1).Keys;
    }
  }

  lemma {:induction false} FullRunOnly(e: Emitter, c: Conversion, layouts: map<string, LayoutSet>, k: nat, n: string)
    returns (j: nat)
    requires c.Valid() && layouts.Keys == c.layouts.Keys && k <= |c.jobTensors|
    requires n in FullRun(e, c, layouts, k)
    ensures j < k && n in Emitted(e, c, layouts, j)
  {
    if n in Emitted(e, c, layouts, k - 1) {
      j := k - 1;
    } else {
      j := FullRunOnly(e, c, layouts, k - 1, n);
    }
  }

  /** A job whose layout set is unchanged emits what the baseline's run emitted. */
  lemma UnaffectedSame(e: Emitter, c: Conversion, then_: map<string, LayoutSet>, j: nat)
    requires c.Valid() && then_.Keys == c.layouts.Keys && !Affected(c, then_, j)
    requires forall k :: k in then_ ==> Writable(then_[k]) && Writable(c.layouts[k])
    ensures Emitted(e, c, c.layouts, j) == Emitted(e, c, then_, j)
  {
    hide LayoutSetId, Writable, Normal;
    if j in c.linearJobs { IdInjective(c.layouts[c.linearJobs[j]], then_[c.linearJobs[j]]); }
  }

  /** Whatever the baseline holds: a copied job's tensors come out of it, when no later job plans them too. */
  lemma {:induction false} CopiesFromBaseline(e: Emitter, c: Conversion, baseline: map<string, Written>, copy: seq<bool>,
                                              k: nat, j: nat, n: string)
    requires c.Valid() && j < k <= |c.jobTensors| == |copy| && PlansItsOutput(e, c)
    requires copy[j] && n in baseline && PlannedBy(c, j, n) && forall i: nat :: j < i < k ==> !PlannedBy(c, i, n)
    ensures n in ReuseRun(e, c, baseline, copy, k) && ReuseRun(e, c, baseline, copy, k)[n] == baseline[n]
  {
    hide PlannedBy, Emitted;
    if j < k - 1 {
      CopiesFromBaseline(e, c, baseline, copy, k - 1, j, n);
      assert n !in Emitted(e, c, c.layouts, k - 1);
    }
  }

  /** Copying the marked jobs and emitting the rest builds the full run's container, tensor by tensor and byte by byte. */
  lemma {:induction false} ReuseWritesTheSame(e: Emitter, c: Conversion, then_: map<string, LayoutSet>, copy: seq<bool>, k: nat)
    requires c.Valid() && then_.Keys == c.layouts.Keys && k <= |c.jobTensors| == |copy|
    requires forall x :: x in then_ ==> Writable(then_[x]) && Writable(c.layouts[x])
    requires NamesApart(e, c, then_) && PlansItsOutput(e, c)
    requires forall j: nat :: j < |copy| ==> copy[j] == !Affected(c, then_, j)
    ensures ReuseRun(e, c, FullRun(e, c, then_, |copy|), copy, k) == FullRun(e, c, c.layouts, k)
  {
    hide Affected, Writable, Emitted, PlannedBy, NamesApart;
    if k > 0 {
      ReuseWritesTheSame(e, c, then_, copy, k - 1);
      if copy[k - 1] {
        UnaffectedSame(e, c, then_, k - 1);
        var base, own := FullRun(e, c, then_, |copy|), Emitted(e, c, c.layouts, k - 1);
        forall n | n in own ensures n in base && base[n] == own[n] {
          FullRunHas(e, c, then_, |copy|, k - 1, n);
        }
        assert (map n | n in base && PlannedBy(c, k - 1, n) :: base[n]) == own;
      }
    }
  }

  /** The theorem: whenever the planner accepts a baseline that holds what a full run with its recorded layout sets writes,
      the reuse run and the full run write the same container. */
  lemma ReuseIsAFullRun(e: Emitter, b: Baseline, c: Conversion, data: map<string, Written>, copy: seq<bool>)
    requires c.Valid() && Consistent(b, c) && |copy| == |c.jobTensors|
    requires forall x :: x in c.layouts ==> Writable(c.layouts[x])
    requires PlansItsOutput(e, c) && NamesApart(e, c, Then(b, c))
    requires data == FullRun(e, c, Then(b, c), |c.jobTensors|)
    requires forall j: nat :: j < |copy| ==> copy[j] == !Affected(c, Then(b, c), j)
    ensures ReuseRun(e, c, data, copy, |copy|) == FullRun(e, c, c.layouts, |copy|)
  {
    hide Affected, NamesApart, PlansItsOutput, LayoutSetId, Writable;
    var then_ := Then(b, c);
    forall x | x in then_ ensures Writable(then_[x]) {
      ParsesExactly(b.linears.value[x].value);
    }
    ReuseWritesTheSame(e, c, then_, copy, |copy|);
  }

  /** The planner refuses no honest baseline: one made by a full run with layout sets `was`, recording their ids and the
      group and keep lists that follow from them, is always accepted. */
  lemma HonestBaselineAccepted(e: Emitter, c: Conversion, was: map<string, LayoutSet>, extra: map<nat, set<string>>,
                               kept: seq<Option<string>>)
    requires c.Valid() && was.Keys == c.layouts.Keys
    requires forall x :: x in was ==> Writable(was[x]) && Writable(c.layouts[x])
    requires PlansItsOutput(e, c) && NamesApart(e, c, was) && LinearNames(e, c, extra)
    requires forall i :: 0 <= i < |kept| ==> kept[i].Some? && kept[i].value in was && Normal(was[kept[i].value]) == KEPT_BF16
    ensures var b := Baseline(Present(map x | x in was :: Some(LayoutSetId(was[x]))),
                              Present(map x | x in was && Mapped(was[x]) :: Some(was[x].w4a16Group)),
                              Present(kept), Directory(FullRun(e, c, was, |c.jobTensors|)));
            Consistent(b, c)
  {
    hide LayoutSetId, Writable, NamesApart, Normal, LinearTensorNames, JobOk, AllAccounted, GroupsOk, KeptOk, Mapped;
    hide PlansItsOutput, LinearNames, FullRun, Directory;
    var data := FullRun(e, c, was, |c.jobTensors|);
    var b := Baseline(Present(map x | x in was :: Some(LayoutSetId(was[x]))),
                      Present(map x | x in was && Mapped(was[x]) :: Some(was[x].w4a16Group)),
                      Present(kept), Directory(data));
    HonestRecord(c, was, b);
    var then_ := Then(b, c);
    hide RecordOk, Then;
    GroupsFollow(was, then_);
    KeptFollows(was, then_, kept);
    forall j: nat | j < |c.jobTensors| ensures JobOk(b, c, then_, j) {
      HonestJob(e, c, was, then_, extra, b, j);
    }
    HonestNames(e, c, was, then_, extra, b);
  }

  lemma HonestRecord(c: Conversion, was: map<string, LayoutSet>, b: Baseline)
    requires c.Valid() && was.Keys == c.layouts.Keys && forall x :: x in was ==> Writable(was[x])
    requires b.linears == Present(map x | x in was :: Some(LayoutSetId(was[x])))
    ensures RecordOk(b, c) && forall x :: x in was ==> Then(b, c)[x] == Normal(was[x])
  {
    hide LayoutSetId, Writable, Normal;
    forall x | x in was ensures Parsed(LayoutSetId(was[x])) == Some(Normal(was[x])) { RoundTrip(was[x]); }
  }

  lemma GroupsFollow(was: map<string, LayoutSet>, then_: map<string, LayoutSet>)
    requires then_.Keys == was.Keys && forall x :: x in was ==> then_[x] == Normal(was[x])
    ensures GroupsOk(Present(map x | x in was && Mapped(was[x]) :: Some(was[x].w4a16Group)), then_)
  {
  }

  lemma KeptFollows(was: map<string, LayoutSet>, then_: map<string, LayoutSet>, kept: seq<Option<string>>)
    requires then_.Keys == was.Keys && forall x :: x in was ==> then_[x] == Normal(was[x])
    requires forall i :: 0 <= i < |kept| ==> kept[i].Some? && kept[i].value in was && Normal(was[kept[i].value]) == KEPT_BF16
    ensures KeptOk(Present(kept), then_)
  {
    KeptSpelled();
    hide LayoutSetId;
  }

  /** Normal sets are their own normal form and have the same names, id and emission. */
  lemma NormalSame(c: Conversion, was: map<string, LayoutSet>, then_: map<string, LayoutSet>, e: Emitter, j: nat)
    requires c.Valid() && was.Keys == then_.Keys == c.layouts.Keys
    requires forall x :: x in was ==> then_[x] == Normal(was[x])
    ensures Emitted(e, c, was, j) == Emitted(e, c, then_, j)
  {
  }

  lemma HonestJob(e: Emitter, c: Conversion, was: map<string, LayoutSet>, then_: map<string, LayoutSet>,
                  extra: map<nat, set<string>>, b: Baseline, j: nat)
    requires c.Valid() && was.Keys == then_.Keys == c.layouts.Keys && j < |c.jobTensors|
    requires forall x :: x in was ==> Writable(was[x]) && Writable(c.layouts[x]) && then_[x] == Normal(was[x])
    requires PlansItsOutput(e, c) && NamesApart(e, c, was) && LinearNames(e, c, extra)
    requires b.tensors == Directory(FullRun(e, c, was, |c.jobTensors|))
    ensures JobOk(b, c, then_, j)
  {
    hide LayoutSetId, NamesApart, LinearTensorNames;
    var data := FullRun(e, c, was, |c.jobTensors|);
    NormalSame(c, was, then_, e, j);
    if Affected(c, then_, j) {
      var base := c.linearJobs[j];
      forall n | n in LinearTensorNames(base, then_[base]) ensures n in b.tensors {
        assert n in e(j, Some(then_[base]));
        FullRunHas(e, c, was, |c.jobTensors|, j, n);
      }
    } else {
      UnaffectedSame(e, c, then_, j);
      forall t | c.jobTensors[j].0 <= t < c.jobTensors[j].1 ensures Matches(b.tensors, c.plan[t]) {
        assert PlannedBy(c, j, c.plan[t].name);
        FullRunHas(e, c, was, |c.jobTensors|, j, c.plan[t].name);
      }
    }
  }

  lemma HonestNames(e: Emitter, c: Conversion, was: map<string, LayoutSet>, then_: map<string, LayoutSet>,
                    extra: map<nat, set<string>>, b: Baseline)
    requires c.Valid() && was.Keys == then_.Keys == c.layouts.Keys
    requires forall x :: x in was ==> Writable(was[x]) && Writable(c.layouts[x]) && then_[x] == Normal(was[x])
    requires PlansItsOutput(e, c) && LinearNames(e, c, extra)
    requires b.tensors == Directory(FullRun(e, c, was, |c.jobTensors|))
    ensures AllAccounted(b, c, then_)
  {
    hide AccountsFor, Emitted, PlansItsOutput, LinearNames, Writable, Normal;
    forall n | n in b.tensors ensures exists j: nat :: j < |c.jobTensors| && AccountsFor(b, c, then_, j, n) {
      var j := FullRunOnly(e, c, was, |c.jobTensors|, n);
      HonestName(e, c, was, then_, extra, b, j, n);
    }
  }

  lemma HonestName(e: Emitter, c: Conversion, was: map<string, LayoutSet>, then_: map<string, LayoutSet>,
                   extra: map<nat, set<string>>, b: Baseline, j: nat, n: string)
    requires c.Valid() && was.Keys == then_.Keys == c.layouts.Keys && j < |c.jobTensors|
    requires forall x :: x in was ==> Writable(was[x]) && Writable(c.layouts[x]) && then_[x] == Normal(was[x])
    requires PlansItsOutput(e, c) && LinearNames(e, c, extra)
    requires n in b.tensors && n in Emitted(e, c, was, j)
    ensures AccountsFor(b, c, then_, j, n)
  {
    hide LayoutSetId, LinearTensorNames;
    NormalSame(c, was, then_, e, j);
    if Affected(c, then_, j) {
      var base := c.linearJobs[j];
      assert n in e(j, Some(then_[base]));
      if n in extra[j] {
        assert n in e(j, Some(Normal(c.layouts[base])));
        NormalNames(base, c.layouts[base]);
        assert n in Emitted(e, c, c.layouts, j);
        assert PlannedBy(c, j, n);
        assert n !in LinearTensorNames(base, c.layouts[base]);
      }
    } else {
      UnaffectedSame(e, c, then_, j);
    }
  }

  lemma NormalNames(base: string, ls: LayoutSet)
    ensures LinearTensorNames(base, Normal(ls)) == LinearTensorNames(base, ls)
  {
  }
}
