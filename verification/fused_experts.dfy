/**
 The virtual source over fused expert tensors: per layer two 3-D tensors, presented as three matrices an expert, each a
 range of the fused bytes.
 */
module FusedExperts {
  import opened Common
  import opened LayoutSets

  datatype Kind = Gate | Up | Down

  /** A layer's fused tensors: gate_up [E, 2 * I, H] and down [E, H, I], bf16. `prefix` is "<p>.mlp.experts.". */
  datatype Group = Group(prefix: string, E: nat, I: nat, H: nat)

  function Mul(a: nat, b: nat): nat { a * b }

  lemma MulRow(a: nat, rows: nat, n: nat)
    requires a < rows
    ensures Mul(a, n) + n == Mul(a + 1, n) <= Mul(rows, n)
  {
    MulLe(a + 1, rows, n);
  }

  // ---- addresses -----------------------------------------------------------------------------------------------

  /** Bytes of one [I, H] block. */
  function Block(g: Group): nat { 2 * Mul(g.I, g.H) }

  /** First byte of an expert's view in its fused tensor. */
  function Base(g: Group, e: nat, kind: Kind): nat {
    match kind
    case Gate => Mul(e, 2 * Block(g))
    case Up => Mul(e, 2 * Block(g)) + Block(g)
    case Down => Mul(e, Block(g))
  }

  function Rows(g: Group, kind: Kind): nat { if kind.Down? then g.H else g.I }

  function Cols(g: Group, kind: Kind): nat { if kind.Down? then g.I else g.H }

  /** Bytes of the fused tensor a view lies in. */
  function FusedBytes(g: Group, kind: Kind): nat {
    if kind.Down? then Mul(g.E, Block(g)) else Mul(g.E, 2 * Block(g))
  }

  predicate InView(g: Group, e: nat, kind: Kind, byte: nat) {
    Base(g, e, kind) <= byte < Base(g, e, kind) + Block(g)
  }

  /** Element [e, row, col] of the fused tensor: row counts gate rows first, then up rows. */
  function FusedElement(g: Group, kind: Kind, e: nat, row: nat, col: nat): nat {
    match kind
    case Down => Mul(Mul(e, g.H) + row, g.I) + col
    case Gate => Mul(Mul(e, 2 * g.I) + row, g.H) + col
    case Up => Mul(Mul(e, 2 * g.I) + g.I + row, g.H) + col
  }

  lemma SumLeft(a: nat, b: nat, n: nat)
    ensures Mul(a + b, n) == Mul(a, n) + Mul(b, n)
  {
  }

  lemma Assoc(a: nat, b: nat, n: nat)
    ensures Mul(Mul(a, b), n) == Mul(a, Mul(b, n))
  {
    assert (a * b) * n == a * (b * n);
  }

  lemma Twice(a: nat, b: nat)
    ensures Mul(a, 2 * b) == 2 * Mul(a, b)
  {
    assert a * (2 * b) == 2 * (a * b);
  }

  lemma Swap(a: nat, b: nat)
    ensures Mul(a, b) == Mul(b, a)
  {
  }

  /** Byte of element [row, col] in a matrix of `cols` columns. */
  function ByteOf(row: nat, col: nat, cols: nat): nat { 2 * (Mul(row, cols) + col) }

  /** Element [row, col] of a view is element [e, row (+ I for up), col] of the fused tensor, and inside it. */
  lemma ViewElement(g: Group, e: nat, kind: Kind, row: nat, col: nat)
    requires e < g.E && row < Rows(g, kind) && col < Cols(g, kind)
    ensures Base(g, e, kind) + ByteOf(row, col, Cols(g, kind)) == 2 * FusedElement(g, kind, e, row, col)
    ensures InView(g, e, kind, 2 * FusedElement(g, kind, e, row, col))
    ensures Base(g, e, kind) + Block(g) <= FusedBytes(g, kind)
  {
    hide Mul;
    ViewInside(g, e, kind);
    MulRow(row, Rows(g, kind), Cols(g, kind));
    Swap(g.H, g.I);
    Twice(e, Mul(g.I, g.H));
    match kind
    case Down =>
      SumLeft(Mul(e, g.H), row, g.I);
      Assoc(e, g.H, g.I);
    case Gate =>
      SumLeft(Mul(e, 2 * g.I), row, g.H);
      GateUpRow(g, e);
    case Up =>
      SumLeft(Mul(e, 2 * g.I) + g.I, row, g.H);
      SumLeft(Mul(e, 2 * g.I), g.I, g.H);
      GateUpRow(g, e);
  }

  lemma GateUpRow(g: Group, e: nat)
    ensures 2 * Mul(Mul(e, 2 * g.I), g.H) == Mul(e, 2 * Block(g))
  {
    hide Mul;
    Assoc(e, 2 * g.I, g.H);
    Swap(2 * g.I, g.H);
    Twice(g.H, g.I);
    Swap(g.H, g.I);
    Twice(e, 2 * Mul(g.I, g.H));
  }

  lemma ViewInside(g: Group, e: nat, kind: Kind)
    requires e < g.E
    ensures Base(g, e, kind) + Block(g) <= FusedBytes(g, kind)
  {
    hide Mul;
    MulRow(e, g.E, 2 * Block(g));
    MulRow(e, g.E, Block(g));
  }

  /** Which view holds a byte of the fused tensor `kind` belongs to. */
  lemma {:induction false} Owner(n: nat, size: nat, byte: nat) returns (e: nat)
    requires byte < Mul(n, size)
    ensures e < n && Mul(e, size) <= byte < Mul(e, size) + size
  {
    hide Mul;
    MulZero(size);
    MulRow(n - 1, n, size);
    if byte >= Mul(n - 1, size) {
      e := n - 1;
    } else {
      e := Owner(n - 1, size, byte);
    }
  }

  lemma MulZero(size: nat)
    ensures Mul(0, size) == 0
  {
  }

  predicate SameTensor(a: Kind, b: Kind) { a.Down? == b.Down? }

  /** The views tile the two fused tensors: every byte is in one view. */
  lemma Covered(g: Group, kind: Kind, byte: nat) returns (e: nat, k: Kind)
    requires byte < FusedBytes(g, kind)
    ensures e < g.E && SameTensor(k, kind) && InView(g, e, k, byte)
  {
    hide Mul;
    if kind.Down? {
      e := Owner(g.E, Block(g), byte);
      k := Down;
    } else {
      e := Owner(g.E, 2 * Block(g), byte);
      k := if byte < Mul(e, 2 * Block(g)) + Block(g) then Gate else Up;
    }
  }

  /** And in no other. */
  lemma Disjoint(g: Group, e: nat, k: Kind, e': nat, k': Kind, byte: nat)
    requires SameTensor(k, k') && InView(g, e, k, byte) && InView(g, e', k', byte)
    ensures e == e' && k == k'
  {
    hide Mul;
    var size := if k.Down? then Block(g) else 2 * Block(g);
    if e < e' { MulRow(e, e', size); }
    if e' < e { MulRow(e', e, size); }
  }

  // ---- names ---------------------------------------------------------------------------------------------------

  const GATE_UP := ".mlp.experts.gate_up_proj"
  const DOWN := ".mlp.experts.down_proj"
  const EXPERTS := ".mlp.experts."

  function Leaf(kind: Kind): string {
    match kind
    case Gate => "gate_proj.weight"
    case Up => "up_proj.weight"
    case Down => "down_proj.weight"
  }

  function ViewName(prefix: string, e: nat, kind: Kind): string { prefix + ToDecimal(e) + "." + Leaf(kind) }

  predicate EndsWith(s: string, suffix: string) {
    |s| >= |suffix| && s[|s| - |suffix|..] == suffix
  }

  /** The digits of an expert's index end at the prefix's last dot. */
  lemma IndexAfterDot(p: string, e: nat, p': string, e': nat)
    requires p != [] && p[|p| - 1] == '.' && p' != [] && p'[|p'| - 1] == '.'
    requires p + ToDecimal(e) == p' + ToDecimal(e')
    ensures p == p' && e == e'
  {
    DecimalDigits(e);
    DecimalDigits(e');
    var s := p + ToDecimal(e);
    assert s[|p| - 1] == '.' && s[|p'| - 1] == '.';
    assert forall k :: |p| <= k < |s| ==> s[k] == ToDecimal(e)[k - |p|];
    assert forall k :: |p'| <= k < |s| ==> s[k] == ToDecimal(e')[k - |p'|];
    assert |p| == |p'|;
    assert p == s[..|p|] && p' == s[..|p|];
    assert ToDecimal(e) == s[|p|..] && ToDecimal(e') == s[|p|..];
  }

  /** The sixteenth character from the end tells the kinds apart. */
  function Mark(kind: Kind, e: nat): char {
    match kind
    case Gate => 'g'
    case Down => 'd'
    case Up => Digit(e % 10)
  }

  lemma MarkOfName(p: string, e: nat, k: Kind)
    ensures var s := ViewName(p, e, k); |s| >= 16 && s[|s| - 16] == Mark(k, e)
  {
    DecimalDigits(e);
    var d := ToDecimal(e);
    assert d[|d| - 1] == Digit(e % 10);
    var s := ViewName(p, e, k);
    var at := |p| + |d|;
    assert s[at - 1] == d[|d| - 1] && s[at + 1] == Leaf(k)[0];
    assert |Leaf(k)| == if k.Up? then 14 else 16;
  }

  lemma KindFromName(p: string, e: nat, k: Kind, p': string, e': nat, k': Kind)
    requires ViewName(p, e, k) == ViewName(p', e', k')
    ensures k == k'
  {
    hide ViewName;
    MarkOfName(p, e, k);
    MarkOfName(p', e', k');
    LastDigit(e);
    LastDigit(e');
  }

  /** No two views share a name, within a layer or across layers. */
  lemma ViewNamesDistinct(p: string, e: nat, k: Kind, p': string, e': nat, k': Kind)
    requires p != [] && p[|p| - 1] == '.' && p' != [] && p'[|p'| - 1] == '.'
    requires ViewName(p, e, k) == ViewName(p', e', k')
    ensures p == p' && e == e' && k == k'
  {
    KindFromName(p, e, k, p', e', k');
    var s := ViewName(p, e, k);
    var n := |s| - |Leaf(k)| - 1;
    assert s[..n] == p + ToDecimal(e) && s[..n] == p' + ToDecimal(e');
    IndexAfterDot(p, e, p', e');
  }

  // ---- creating the overlay ------------------------------------------------------------------------------------

  datatype Meta = Meta(dtype: string, shape: seq<nat>)

  type Checkpoint = map<string, Meta>

  datatype Virt = Virt(group: nat, expert: nat, kind: Kind)

  datatype Overlay = Overlay(groups: seq<Group>, virt: map<string, Virt>)

  function LayerPrefix(name: string): string
    requires EndsWith(name, GATE_UP)
  {
    name[..|name| - |GATE_UP|]
  }

  /** The sibling is there, the shapes fit, and no per-expert tensor of expert 0 is stored as well. */
  predicate WellFused(ck: Checkpoint, name: string)
    requires EndsWith(name, GATE_UP) && name in ck
  {
    var down := LayerPrefix(name) + DOWN;
    var shape := ck[name].shape;
    && down in ck
    && ck[name].dtype == "BF16" && |shape| == 3 && shape[1] % 2 == 0
    && ck[down] == Meta("BF16", [shape[0], shape[2], shape[1] / 2])
    && LayerPrefix(name) + EXPERTS + "0.gate_proj.weight" !in ck
  }

  function GroupOf(ck: Checkpoint, name: string): Group
    requires EndsWith(name, GATE_UP) && name in ck && WellFused(ck, name)
  {
    var shape := ck[name].shape;
    Group(LayerPrefix(name) + EXPERTS, shape[0], shape[1] / 2, shape[2])
  }

  ghost predicate AllWellFused(ck: Checkpoint, names: seq<string>)
    requires forall n :: n in names ==> n in ck
  {
    forall n :: n in names && EndsWith(n, GATE_UP) ==> WellFused(ck, n)
  }

  function GroupsOf(ck: Checkpoint, names: seq<string>): seq<Group>
    requires forall n :: n in names ==> n in ck
    requires AllWellFused(ck, names)
  {
    if names == [] then []
    else
      var n := |names| - 1;
      GroupsOf(ck, names[..n]) + if EndsWith(names[n], GATE_UP) then [GroupOf(ck, names[n])] else []
  }

  predicate PrefixesApart(groups: seq<Group>) {
    && (forall i :: 0 <= i < |groups| ==> groups[i].prefix != [] && groups[i].prefix[|groups[i].prefix| - 1] == '.')
    && (forall i, j :: 0 <= i < j < |groups| ==> groups[i].prefix != groups[j].prefix)
  }

  predicate Listed(groups: seq<Group>, n: nat, m: nat, gi: nat, e: nat) {
    gi < |groups| && e < groups[gi].E && (gi < n || (gi == n && e < m))
  }

  /** `virt` describes the views of the first `n` groups and of the first `m` experts of the next, and nothing else. */
  ghost predicate Views(groups: seq<Group>, n: nat, m: nat, virt: map<string, Virt>) {
    && (forall name :: name in virt ==>
          && Listed(groups, n, m, virt[name].group, virt[name].expert)
          && name == ViewName(groups[virt[name].group].prefix, virt[name].expert, virt[name].kind))
    && (forall gi: nat, e: nat, k :: Listed(groups, n, m, gi, e) ==>
          ViewName(groups[gi].prefix, e, k) in virt && virt[ViewName(groups[gi].prefix, e, k)] == Virt(gi, e, k))
  }

  /** unordered_map::emplace. */
  function Emplace(virt: map<string, Virt>, name: string, v: Virt): map<string, Virt> {
    if name in virt then virt else virt[name := v]
  }

  function AddExpert(virt: map<string, Virt>, prefix: string, gi: nat, e: nat): map<string, Virt> {
    Emplace(Emplace(Emplace(virt, ViewName(prefix, e, Gate), Virt(gi, e, Gate)),
                    ViewName(prefix, e, Up), Virt(gi, e, Up)), ViewName(prefix, e, Down), Virt(gi, e, Down))
  }

  lemma NewExpertNames(groups: seq<Group>, n: nat, m: nat, virt: map<string, Virt>, k: Kind)
    requires PrefixesApart(groups) && Views(groups, n, m, virt) && n < |groups|
    ensures ViewName(groups[n].prefix, m, k) !in virt
  {
    hide ViewName;
    var name := ViewName(groups[n].prefix, m, k);
    if name in virt {
      var v := virt[name];
      ViewNamesDistinct(groups[n].prefix, m, k, groups[v.group].prefix, v.expert, v.kind);
    }
  }

  lemma ExpertAdded(groups: seq<Group>, n: nat, m: nat, virt: map<string, Virt>)
    requires PrefixesApart(groups) && Views(groups, n, m, virt) && n < |groups| && m < groups[n].E
    ensures Views(groups, n, m + 1, AddExpert(virt, groups[n].prefix, n, m))
  {
    hide ViewName, PrefixesApart;
    var p := groups[n].prefix;
    forall k ensures ViewName(p, m, k) !in virt { NewExpertNames(groups, n, m, virt, k); }
    forall k, k' | k != k' ensures ViewName(p, m, k) != ViewName(p, m, k') { KindsApart(p, m, k, k'); }
    var after := AddExpert(virt, p, n, m);
    assert after == virt[ViewName(p, m, Gate) := Virt(n, m, Gate)][ViewName(p, m, Up) := Virt(n, m, Up)]
                        [ViewName(p, m, Down) := Virt(n, m, Down)];
    forall gi: nat, e: nat, k | Listed(groups, n, m + 1, gi, e)
      ensures ViewName(groups[gi].prefix, e, k) in after && after[ViewName(groups[gi].prefix, e, k)] == Virt(gi, e, k) {
      if !(gi == n && e == m) { assert Listed(groups, n, m, gi, e); }
    }
  }

  lemma KindsApart(p: string, e: nat, k: Kind, k': Kind)
    requires k != k'
    ensures ViewName(p, e, k) != ViewName(p, e, k')
  {
    if ViewName(p, e, k) == ViewName(p, e, k') { KindFromName(p, e, k, p, e, k'); }
  }

  lemma SamePrefixSameName(n: string, m: string)
    requires EndsWith(n, GATE_UP) && EndsWith(m, GATE_UP)
    ensures LayerPrefix(n) + EXPERTS == LayerPrefix(m) + EXPERTS ==> n == m
  {
    var a, b := LayerPrefix(n), LayerPrefix(m);
    assert n == a + GATE_UP && m == b + GATE_UP;
    assert (a + EXPERTS)[..|a|] == a && (b + EXPERTS)[..|b|] == b;
    assert |a + EXPERTS| == |b + EXPERTS| ==> |a| == |b|;
  }

  predicate NoRepeats(names: seq<string>) {
    forall i, j :: 0 <= i < j < |names| ==> names[i] != names[j]
  }

  /** The name a group was made from. */
  lemma {:induction false} SourceOf(ck: Checkpoint, names: seq<string>, i: nat) returns (k: nat)
    requires (forall n :: n in names ==> n in ck) && AllWellFused(ck, names) && i < |GroupsOf(ck, names)|
    ensures k < |names| && EndsWith(names[k], GATE_UP)
    ensures GroupsOf(ck, names)[i].prefix == LayerPrefix(names[k]) + EXPERTS
  {
    hide EndsWith, WellFused;
    k := |names| - 1;
    if i < |GroupsOf(ck, names[..k])| {
      k := SourceOf(ck, names[..k], i);
    }
  }

  lemma {:induction false} GroupsApart(ck: Checkpoint, names: seq<string>)
    requires (forall n :: n in names ==> n in ck) && AllWellFused(ck, names) && NoRepeats(names)
    ensures PrefixesApart(GroupsOf(ck, names))
  {
    hide WellFused, EndsWith, LayerPrefix;
    if names != [] {
      var k := |names| - 1;
      GroupsApart(ck, names[..k]);
      var last := names[k];
      if EndsWith(last, GATE_UP) {
        var before := GroupsOf(ck, names[..k]);
        EndsInDot(LayerPrefix(last));
        forall i | 0 <= i < |before| ensures before[i].prefix != LayerPrefix(last) + EXPERTS {
          var n := SourceOf(ck, names[..k], i);
          SamePrefixSameName(names[n], last);
        }
      }
    }
  }

  lemma EndsInDot(p: string)
    ensures (p + EXPERTS) != [] && (p + EXPERTS)[|p + EXPERTS| - 1] == '.'
  {
  }

  lemma GroupAdded(groups: seq<Group>, g: Group, virt: map<string, Virt>)
    requires Views(groups, |groups|, 0, virt)
    ensures Views(groups + [g], |groups|, 0, virt)
  {
    hide ViewName;
    forall gi: nat, e: nat, k | Listed(groups + [g], |groups|, 0, gi, e)
      ensures ViewName((groups + [g])[gi].prefix, e, k) in virt
              && virt[ViewName((groups + [g])[gi].prefix, e, k)] == Virt(gi, e, k) {
      assert Listed(groups, |groups|, 0, gi, e);
    }
  }

  lemma GroupDone(groups: seq<Group>, n: nat, virt: map<string, Virt>)
    requires n < |groups| && Views(groups, n, groups[n].E, virt)
    ensures Views(groups, n + 1, 0, virt)
  {
    hide ViewName;
    forall gi: nat, e: nat, k | Listed(groups, n + 1, 0, gi, e)
      ensures ViewName(groups[gi].prefix, e, k) in virt && virt[ViewName(groups[gi].prefix, e, k)] == Virt(gi, e, k) {
      assert Listed(groups, n, groups[n].E, gi, e);
    }
  }

  method AddGroup(groups: seq<Group>, virt: map<string, Virt>) returns (r: map<string, Virt>)
    requires |groups| > 0 && PrefixesApart(groups) && Views(groups, |groups| - 1, 0, virt)
    ensures Views(groups, |groups|, 0, r)
  {
    hide Views, PrefixesApart, AddExpert;
    var g, gi := groups[|groups| - 1], |groups| - 1;
    r := virt;
    var e := 0;
    while e < g.E
      invariant 0 <= e <= g.E && Views(groups, gi, e, r)
    {
      ExpertAdded(groups, gi, e, r);
      r := AddExpert(r, g.prefix, gi, e);
      e := e + 1;
    }
    GroupDone(groups, gi, r);
  }

  // ---- the same in the checkpoint's own words ------------------------------------------------------------------

  ghost predicate IsGateUp(p: string, name: string) { name == p + ".mlp.experts.gate_up_proj" }

  /** Layer `p` has fused tensors of E experts, and no tensor of expert 0 beside them. */
  ghost predicate FusedAs(ck: Checkpoint, p: string, E: nat, I: nat, H: nat) {
    && p + ".mlp.experts.gate_up_proj" in ck && ck[p + ".mlp.experts.gate_up_proj"] == Meta("BF16", [E, 2 * I, H])
    && p + ".mlp.experts.down_proj" in ck && ck[p + ".mlp.experts.down_proj"] == Meta("BF16", [E, H, I])
    && p + ".mlp.experts.0.gate_proj.weight" !in ck
  }

  ghost predicate FitsSome(ck: Checkpoint, p: string) { exists E: nat, I: nat, H: nat :: FusedAs(ck, p, E, I, H) }

  lemma FusedMeans(ck: Checkpoint, p: string, name: string)
    requires IsGateUp(p, name) && name in ck
    ensures EndsWith(name, GATE_UP) && (WellFused(ck, name) <==> FitsSome(ck, p))
    ensures forall E: nat, I: nat, H: nat :: FusedAs(ck, p, E, I, H) ==>
              WellFused(ck, name) && GroupOf(ck, name) == Group(p + ".mlp.experts.", E, I, H)
  {
    assert name[|name| - |GATE_UP|..] == GATE_UP && LayerPrefix(name) == p;
    assert (p + EXPERTS) + "0.gate_proj.weight" == p + ".mlp.experts.0.gate_proj.weight";
    if WellFused(ck, name) {
      var shape := ck[name].shape;
      assert shape == [shape[0], 2 * (shape[1] / 2), shape[2]];
      assert FusedAs(ck, p, shape[0], shape[1] / 2, shape[2]);
    }
  }

  lemma PrefixOf(name: string) returns (p: string)
    requires EndsWith(name, GATE_UP)
    ensures IsGateUp(p, name)
  {
    p := LayerPrefix(name);
  }

  /** Fused tensors are taken exactly when those of every layer that has them fit. */
  lemma AllFusedMeans(ck: Checkpoint, names: seq<string>)
    requires forall n :: n in names ==> n in ck
    ensures AllWellFused(ck, names) <==> forall n, p :: n in names && IsGateUp(p, n) ==> FitsSome(ck, p)
  {
    hide WellFused, EndsWith, IsGateUp, FitsSome, FusedAs, GroupOf;
    if AllWellFused(ck, names) {
      forall n, p | n in names && IsGateUp(p, n) ensures FitsSome(ck, p) { FusedMeans(ck, p, n); }
    }
    if forall n, p :: n in names && IsGateUp(p, n) ==> FitsSome(ck, p) {
      forall n | n in names && EndsWith(n, GATE_UP) ensures WellFused(ck, n) {
        var p := PrefixOf(n);
        FusedMeans(ck, p, n);
      }
    }
  }

  lemma {:induction false} GroupFound(ck: Checkpoint, names: seq<string>, name: string) returns (i: nat)
    requires (forall n :: n in names ==> n in ck) && AllWellFused(ck, names)
    requires name in names && EndsWith(name, GATE_UP)
    ensures i < |GroupsOf(ck, names)| && GroupsOf(ck, names)[i] == GroupOf(ck, name)
  {
    hide WellFused, EndsWith, GroupOf;
    var k := |names| - 1;
    if names[k] == name {
      i := |GroupsOf(ck, names[..k])|;
    } else {
      i := GroupFound(ck, names[..k], name);
    }
  }

  ghost predicate IsView(o: Overlay, name: string, g: Group, e: nat, kind: Kind) {
    && name in o.virt && o.virt[name].group < |o.groups|
    && o.groups[o.virt[name].group] == g && o.virt[name].expert == e && o.virt[name].kind == kind
  }

  /** The three names of an expert, and what they are views of. */
  lemma ViewsSpelled(ck: Checkpoint, names: seq<string>, o: Overlay, p: string, name: string, E: nat, I: nat, H: nat, e: nat)
    requires (forall n :: n in names ==> n in ck) && AllWellFused(ck, names)
    requires o.groups == GroupsOf(ck, names) && Views(o.groups, |o.groups|, 0, o.virt)
    requires name in names && IsGateUp(p, name) && FusedAs(ck, p, E, I, H) && e < E
    ensures var g := Group(p + ".mlp.experts.", E, I, H); var expert := p + ".mlp.experts." + ToDecimal(e);
            && IsView(o, expert + ".gate_proj.weight", g, e, Gate) && IsView(o, expert + ".up_proj.weight", g, e, Up)
            && IsView(o, expert + ".down_proj.weight", g, e, Down)
  {
    hide WellFused, EndsWith, GroupOf, FusedAs, IsGateUp, GroupsOf, AllWellFused;
    FusedMeans(ck, p, name);
    var i := GroupFound(ck, names, name);
    var g := Group(p + ".mlp.experts.", E, I, H);
    var expert := p + ".mlp.experts." + ToDecimal(e);
    assert o.groups[i] == g && Listed(o.groups, |o.groups|, 0, i, e);
    NamesSpelled(g.prefix, e);
    hide ViewName;
  }

  lemma NamesSpelled(prefix: string, e: nat)
    ensures ViewName(prefix, e, Gate) == prefix + ToDecimal(e) + ".gate_proj.weight"
    ensures ViewName(prefix, e, Up) == prefix + ToDecimal(e) + ".up_proj.weight"
    ensures ViewName(prefix, e, Down) == prefix + ToDecimal(e) + ".down_proj.weight"
  {
    var p := prefix + ToDecimal(e);
    Dotted(p, "gate_proj.weight", ".gate_proj.weight");
    Dotted(p, "up_proj.weight", ".up_proj.weight");
    Dotted(p, "down_proj.weight", ".down_proj.weight");
  }

  lemma Dotted(p: string, leaf: string, dotted: string)
    requires "." + leaf == dotted
    ensures p + "." + leaf == p + dotted
  {
  }

  /** Every fused tensor must be well formed; then the views are exactly the experts of the groups found. */
  method Create(ck: Checkpoint, names: seq<string>) returns (r: Option<Overlay>)
    requires NoRepeats(names) && forall n :: n in names ==> n in ck
    ensures r.Some? <==> AllWellFused(ck, names)
    ensures r.Some? <==> forall n, p :: n in names && IsGateUp(p, n) ==> FitsSome(ck, p)
    ensures r.Some? ==> r.value.groups == GroupsOf(ck, names) && PrefixesApart(r.value.groups)
    ensures r.Some? ==> Views(r.value.groups, |r.value.groups|, 0, r.value.virt)
  {
    hide Views, PrefixesApart, WellFused, EndsWith, GroupOf, IsGateUp, FitsSome;
    AllFusedMeans(ck, names);
    var groups: seq<Group>, virt: map<string, Virt> := [], map[];
    NoViews();
    var i := 0;
    while i < |names|
      invariant 0 <= i <= |names| && AllWellFused(ck, names[..i]) && groups == GroupsOf(ck, names[..i])
      invariant Views(groups, |groups|, 0, virt)
    {
      var name := names[i];
      assert names[..i + 1] == names[..i] + [name];
      if EndsWith(name, GATE_UP) {
        if !WellFused(ck, name) {
          return None;
        }
        GroupAdded(groups, GroupOf(ck, name), virt);
        groups := groups + [GroupOf(ck, name)];
        GroupsApart(ck, names[..i + 1]);
        virt := AddGroup(groups, virt);
      }
      i := i + 1;
    }
    assert names[..|names|] == names;
    GroupsApart(ck, names);
    return Some(Overlay(groups, virt));
  }

  lemma NoViews()
    ensures Views([], 0, 0, map[])
  {
  }

  // ---- reading through the overlay -----------------------------------------------------------------------------

  datatype Pointer = Pointer(tensor: string, byte: nat)

  ghost predicate Ready(o: Overlay) { Views(o.groups, |o.groups|, 0, o.virt) }

  lemma ViewListed(o: Overlay, name: string)
    requires Ready(o) && name in o.virt
    ensures o.virt[name].group < |o.groups| && o.virt[name].expert < o.groups[o.virt[name].group].E
  {
  }

  /** Where a view's rows start; None for no view, or rows outside it. */
  method DataRows(o: Overlay, name: string, row0: int, nrows: int) returns (r: Option<Pointer>)
    requires Ready(o)
    ensures name !in o.virt ==> r.None?
    ensures name in o.virt ==>
              var v := o.virt[name]; var g := o.groups[v.group];
              (r.Some? <==> 0 <= row0 && 0 <= nrows && row0 + nrows <= Rows(g, v.kind))
              && (r.Some? ==>
                    && r.value.tensor == g.prefix + (if v.kind.Down? then "down_proj" else "gate_up_proj")
                    && forall row: nat, col: nat :: row < nrows && col < Cols(g, v.kind) ==>
                         r.value.byte + ByteOf(row, col, Cols(g, v.kind))
                         == 2 * FusedElement(g, v.kind, v.expert, row0 + row, col))
  {
    hide Mul, FusedElement, Base, Views, InView, FusedBytes;
    if name !in o.virt {
      return None;
    }
    ViewListed(o, name);
    var v := o.virt[name];
    var g := o.groups[v.group];
    if row0 < 0 || nrows < 0 || row0 > Rows(g, v.kind) || nrows > Rows(g, v.kind) - row0 {
      return None;
    }
    var tensor := g.prefix + (if v.kind.Down? then "down_proj" else "gate_up_proj");
    var byte := Base(g, v.expert, v.kind) + 2 * Mul(row0, Cols(g, v.kind));
    forall row: nat, col: nat | row < nrows && col < Cols(g, v.kind)
      ensures byte + ByteOf(row, col, Cols(g, v.kind)) == 2 * FusedElement(g, v.kind, v.expert, row0 + row, col) {
      ViewElement(g, v.expert, v.kind, row0 + row, col);
      SumLeft(row0, row, Cols(g, v.kind));
    }
    return Some(Pointer(tensor, byte));
  }

  // ---- names ---------------------------------------------------------------------------------------------------

  predicate IsFused(groups: seq<Group>, name: string) {
    exists i :: 0 <= i < |groups| && (name == groups[i].prefix + "gate_up_proj" || name == groups[i].prefix + "down_proj")
  }

  function Kept(groups: seq<Group>, names: seq<string>): seq<string> {
    if names == [] then []
    else
      var n := |names| - 1;
      Kept(groups, names[..n]) + if IsFused(groups, names[n]) then [] else [names[n]]
  }

  /** `order` is the order the map of views is walked in. */
  method RewriteNames(o: Overlay, names: seq<string>, order: seq<string>) returns (out: seq<string>)
    ensures out == Kept(o.groups, names) + order
  {
    out := [];
    var i := 0;
    while i < |names|
      invariant 0 <= i <= |names| && out == Kept(o.groups, names[..i])
    {
      assert names[..i + 1][..i] == names[..i];
      var fused, j := false, 0;
      while j < |o.groups| && !fused
        invariant 0 <= j <= |o.groups|
        invariant fused <==> exists k :: 0 <= k < j && (names[i] == o.groups[k].prefix + "gate_up_proj"
                                                        || names[i] == o.groups[k].prefix + "down_proj")
        decreases |o.groups| - j
      {
        fused := names[i] == o.groups[j].prefix + "gate_up_proj" || names[i] == o.groups[j].prefix + "down_proj";
        j := j + 1;
      }
      if !fused {
        out := out + [names[i]];
      }
      i := i + 1;
    }
    assert names[..|names|] == names;
    out := out + order;
  }

  lemma {:induction false} KeptNames(groups: seq<Group>, names: seq<string>, name: string)
    ensures name in Kept(groups, names) <==> name in names && !IsFused(groups, name)
  {
    hide IsFused;
    if names != [] {
      var n := |names| - 1;
      KeptNames(groups, names[..n], name);
      assert names == names[..n] + [names[n]];
    }
  }

  lemma {:induction false} KeptOnce(groups: seq<Group>, names: seq<string>)
    requires NoRepeats(names)
    ensures NoRepeats(Kept(groups, names))
  {
    hide IsFused;
    if names != [] {
      var n := |names| - 1;
      KeptOnce(groups, names[..n]);
      KeptNames(groups, names[..n], names[n]);
    }
  }

  /** The fused names are replaced by the views, and nothing else changes. The list is free of repeats exactly when no
      stored tensor already has a view's name, which Create only looks at for expert 0's gate. */
  lemma NamesAfterRewrite(o: Overlay, names: seq<string>, order: seq<string>, out: seq<string>)
    requires NoRepeats(names) && NoRepeats(order) && (forall n :: n in order <==> n in o.virt)
    requires out == Kept(o.groups, names) + order
    ensures forall n :: n in out <==> (n in names && !IsFused(o.groups, n)) || n in o.virt
    ensures NoRepeats(out) <==> forall n :: n in names && n in o.virt ==> IsFused(o.groups, n)
  {
    hide IsFused, Kept;
    var kept := Kept(o.groups, names);
    KeptOnce(o.groups, names);
    forall n ensures n in kept <==> n in names && !IsFused(o.groups, n) { KeptNames(o.groups, names, n); }
    Apart(kept, order);
  }

  lemma Apart(a: seq<string>, b: seq<string>)
    requires NoRepeats(a) && NoRepeats(b)
    ensures NoRepeats(a + b) <==> forall n :: n in a ==> n !in b
  {
    if forall n :: n in a ==> n !in b {
      forall i, j | 0 <= i < j < |a + b| ensures (a + b)[i] != (a + b)[j] {
        if i < |a| && j >= |a| { assert a[i] !in b && b[j - |a|] in b; }
      }
    } else {
      var n :| n in a && n in b;
      var i :| 0 <= i < |a| && a[i] == n;
      var j :| 0 <= j < |b| && b[j] == n;
      assert (a + b)[i] == (a + b)[|a| + j];
    }
  }

  lemma ViewsAreNotFused(groups: seq<Group>, p: string, e: nat, k: Kind)
    ensures !IsFused(groups, ViewName(p, e, k))
  {
    var name := ViewName(p, e, k);
    assert name[|name| - 1] == Leaf(k)[|Leaf(k)| - 1] == 't';
    forall i | 0 <= i < |groups|
      ensures name != groups[i].prefix + "gate_up_proj" && name != groups[i].prefix + "down_proj" {
      var gateUp, down := groups[i].prefix + "gate_up_proj", groups[i].prefix + "down_proj";
      assert gateUp[|gateUp| - 1] == 'j' && down[|down| - 1] == 'j';
    }
  }

  /** In the checkpoint's terms: a name is listed twice exactly when some matrix of some expert is stored on its own. */
  lemma RepeatsExactly(ck: Checkpoint, names: seq<string>, o: Overlay, order: seq<string>, out: seq<string>)
    requires NoRepeats(names) && (forall n :: n in names ==> n in ck) && AllWellFused(ck, names)
    requires o.groups == GroupsOf(ck, names) && Ready(o)
    requires NoRepeats(order) && (forall n :: n in order <==> n in o.virt) && out == Kept(o.groups, names) + order
    ensures NoRepeats(out) <==> forall gi: nat, e: nat, k ::
                                  Listed(o.groups, |o.groups|, 0, gi, e) ==> ViewName(o.groups[gi].prefix, e, k) !in names
  {
    hide IsFused, Kept, ViewName, AllWellFused, NoRepeats, GroupsOf;
    NamesAfterRewrite(o, names, order, out);
    forall gi: nat, e: nat, k | Listed(o.groups, |o.groups|, 0, gi, e)
      ensures !IsFused(o.groups, ViewName(o.groups[gi].prefix, e, k)) {
      ViewsAreNotFused(o.groups, o.groups[gi].prefix, e, k);
    }
  }

  const FUSED := "m.mlp.experts.gate_up_proj"
  const FUSED_DOWN := "m.mlp.experts.down_proj"
  const STRAY := "m.mlp.experts.1.gate_proj.weight"

  /** Two fused experts, and expert 1's gate stored as well. */
  function StrayCheckpoint(): Checkpoint {
    map[FUSED := Meta("BF16", [2, 2, 1]), FUSED_DOWN := Meta("BF16", [2, 1, 1]), STRAY := Meta("BF16", [1, 1])]
  }

  lemma StrayFused()
    ensures EndsWith(FUSED, GATE_UP) && LayerPrefix(FUSED) == "m" && |FUSED| == 26
  {
    assert FUSED == "m" + GATE_UP;
  }

  lemma StrayEnd()
    ensures !EndsWith(STRAY, GATE_UP) && |STRAY| == 32
  {
    assert STRAY[7..][24] == STRAY[31] == 't' && GATE_UP[24] == 'j';
  }

  lemma StrayNames()
    ensures !EndsWith(FUSED_DOWN, GATE_UP) && |FUSED_DOWN| == 23
    ensures "m" + DOWN == FUSED_DOWN && "m" + EXPERTS == "m.mlp.experts."
  {
  }

  lemma StrayIsNotExpert0()
    ensures "m" + EXPERTS + "0.gate_proj.weight" !in StrayCheckpoint()
  {
    hide EndsWith, LayerPrefix;
    StrayFused();
    StrayEnd();
    StrayNames();
    var first := "m" + EXPERTS + "0.gate_proj.weight";
    assert first[14] == '0' && STRAY[14] == '1' && |first| == 32;
  }

  /** Create accepts it: only expert 0's gate is looked for. */
  lemma StrayAccepted()
    ensures var names := [FUSED, FUSED_DOWN, STRAY];
            && NoRepeats(names) && (forall n :: n in names ==> n in StrayCheckpoint())
            && AllWellFused(StrayCheckpoint(), names)
            && GroupsOf(StrayCheckpoint(), names) == [Group("m.mlp.experts.", 2, 1, 1)]
  {
    hide EndsWith, LayerPrefix;
    StrayFused();
    StrayEnd();
    StrayNames();
    StrayIsNotExpert0();
    var ck, names := StrayCheckpoint(), [FUSED, FUSED_DOWN, STRAY];
    assert WellFused(ck, FUSED);
    assert names[..2] == [FUSED, FUSED_DOWN] && names[..2][..1] == [FUSED] && [FUSED][..0] == [];
    assert GroupsOf(ck, [FUSED]) == [GroupOf(ck, FUSED)];
    assert GroupsOf(ck, names[..2]) == [GroupOf(ck, FUSED)];
  }

  /** And the rewritten list has the stray tensor's name twice. */
  lemma StrayListedTwice(o: Overlay, order: seq<string>, out: seq<string>)
    requires o.groups == [Group("m.mlp.experts.", 2, 1, 1)] && Ready(o)
    requires NoRepeats(order) && (forall n :: n in order <==> n in o.virt)
    requires out == Kept(o.groups, [FUSED, FUSED_DOWN, STRAY]) + order
    ensures STRAY in Kept(o.groups, [FUSED, FUSED_DOWN, STRAY]) && STRAY in order && !NoRepeats(out)
  {
    hide IsFused, Kept, EndsWith, WellFused, GroupsOf, ViewName;
    StrayAccepted();
    StrayIsView();
    assert Listed(o.groups, 1, 0, 0, 1);
    ViewsAreNotFused(o.groups, "m.mlp.experts.", 1, Gate);
    KeptNames(o.groups, [FUSED, FUSED_DOWN, STRAY], STRAY);
    NamesAfterRewrite(o, [FUSED, FUSED_DOWN, STRAY], order, out);
  }

  lemma StrayIsView()
    ensures ViewName("m.mlp.experts.", 1, Gate) == STRAY
  {
    assert ToDecimal(1) == "1";
  }
}
