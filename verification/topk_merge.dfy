/**
 The top-k of a logits row whose vocabulary is split over ranks: each rank lists the top-k of its shard, the ids are made
 global, and a merge in rank order stands for the top-k of the whole row.
 */
module TopKMerge {
  import opened Common

  const INT32_MAX := 0x7fff_ffff
  const MAX_WORLD := 8

  /** A float as far as `>` and `==` tell values apart (the two zeros do not differ). */
  datatype Logit = NaN | NegInf | Num(v: real) | PosInf

  predicate Greater(a: Logit, b: Logit) {
    match a
    case PosInf => b.Num? || b.NegInf?
    case Num(x) => b.NegInf? || (b.Num? && x > b.v)
    case _ => false
  }

  datatype Entry = Entry(val: Logit, id: int)

  /** What the device pads a list with when its row has fewer than k entries that are numbers. */
  const SENTINEL := Entry(NegInf, INT32_MAX)

  predicate Beats(a: Entry, b: Entry) {
    Greater(a.val, b.val) || (a.val == b.val && !a.val.NaN? && a.id < b.id)
  }

  // ---- what a top-k list is ------------------------------------------------------------------------------

  /** Each entry beats all later ones; only the padding repeats. */
  ghost predicate Ordered(list: seq<Entry>) {
    forall i, j :: 0 <= i < j < |list| ==> Beats(list[i], list[j]) || (list[i] == SENTINEL && list[j] == SENTINEL)
  }

  predicate InRow(row: seq<Logit>, base: int, e: Entry) {
    base <= e.id < base + |row| && row[e.id - base] == e.val && !e.val.NaN?
  }

  ghost predicate FromRow(row: seq<Logit>, base: int, list: seq<Entry>) {
    forall i :: 0 <= i < |list| ==> list[i] == SENTINEL || InRow(row, base, list[i])
  }

  ghost predicate BeatenByAll(list: seq<Entry>, e: Entry) {
    forall i :: 0 <= i < |list| ==> Beats(list[i], e)
  }

  ghost predicate Covers(row: seq<Logit>, base: int, list: seq<Entry>) {
    forall e :: InRow(row, base, e) ==> e in list || BeatenByAll(list, e)
  }

  /** `list` is the top-k of `row`, whose first element has id `base`. NaN entries are never listed. */
  ghost predicate IsTopK(row: seq<Logit>, base: int, k: nat, list: seq<Entry>) {
    |list| == k && Ordered(list) && FromRow(row, base, list) && Covers(row, base, list)
  }

  /** In numbers: a top-k list falls in value, from infinity down; equal values rise in id; every entry is its row's own; and a
      logit left out of it is no larger than any listed one, with a larger id where it is as large. */
  lemma TopKInNumbers(row: seq<Logit>, base: int, k: nat, list: seq<Entry>, i: nat, j: nat, t: nat)
    requires IsTopK(row, base, k, list) && i < j < k && t < |row|
    requires list[i] != Entry(NegInf, 0x7fff_ffff) && list[j] != Entry(NegInf, 0x7fff_ffff)
    ensures Falls(list[i].val, list[i].id, list[j].val, list[j].id)
    ensures base <= list[i].id < base + |row| && row[list[i].id - base] == list[i].val && !list[i].val.NaN?
    ensures !row[t].NaN? && Entry(row[t], base + t) !in list ==> Falls(list[i].val, list[i].id, row[t], base + t)
  {
    if !row[t].NaN? && Entry(row[t], base + t) !in list {
      assert InRow(row, base, Entry(row[t], base + t));
    }
  }

  /** (v, i) stands before (w, j): larger, or as large with a smaller id. */
  ghost predicate Falls(v: Logit, i: int, w: Logit, j: int) {
    match (v, w)
    case (PosInf, PosInf) => i < j
    case (PosInf, _) => !w.NaN?
    case (Num(x), Num(y)) => x > y || (x == y && i < j)
    case (Num(_), NegInf) => true
    case (NegInf, NegInf) => i < j
    case _ => false
  }

  /** A row has one top-k. */
  lemma {:induction false} TopKUnique(row: seq<Logit>, base: int, k: nat, a: seq<Entry>, b: seq<Entry>, i: nat)
    requires IsTopK(row, base, k, a) && IsTopK(row, base, k, b) && i <= k
    requires base + |row| <= INT32_MAX
    ensures a[..i] == b[..i]
  {
    if i > 0 {
      TopKUnique(row, base, k, a, b, i - 1);
      SameNext(row, base, k, a, b, i - 1);
      assert a[..i] == a[..i - 1] + [a[i - 1]] && b[..i] == b[..i - 1] + [b[i - 1]];
    }
  }

  lemma SameNext(row: seq<Logit>, base: int, k: nat, a: seq<Entry>, b: seq<Entry>, i: nat)
    requires IsTopK(row, base, k, a) && IsTopK(row, base, k, b) && i < k
    requires base + |row| <= INT32_MAX && a[..i] == b[..i]
    ensures a[i] == b[i]
  {
    if a[i] != b[i] {
      NotAhead(row, base, k, a, b, i);
      NotAhead(row, base, k, b, a, i);
      Total(a[i], b[i]);
    }
  }

  lemma Total(e: Entry, f: Entry)
    requires !e.val.NaN? && !f.val.NaN?
    ensures e == f || Beats(e, f) || Beats(f, e)
  {
  }

  /** An entry one list has next cannot beat the other list's next one: the other would have had to list it. */
  lemma NotAhead(row: seq<Logit>, base: int, k: nat, a: seq<Entry>, b: seq<Entry>, i: nat)
    requires IsTopK(row, base, k, a) && IsTopK(row, base, k, b) && i < k
    requires base + |row| <= INT32_MAX && a[..i] == b[..i]
    ensures !Beats(a[i], b[i])
  {
    var e := a[i];
    assert forall j :: 0 <= j < i ==> a[..i][j] == a[j] && b[..i][j] == b[j];
    assert e == SENTINEL || InRow(row, base, e);
    assert b[i] == SENTINEL || InRow(row, base, b[i]);
    if e != SENTINEL && e in b {
      var j :| 0 <= j < k && b[j] == e;
      assert i <= j;
    }
  }

  // ---- the merge -------------------------------------------------------------------------------------------

  type Lists = seq<seq<Entry>>

  /** The rank whose next entry no other's beats, the lowest on a tie; -1 when every list is used up. */
  function Best(lists: Lists, pos: seq<nat>, n: nat): (b: int)
    requires |pos| == |lists| && n <= |lists|
    ensures -1 <= b < n && (b >= 0 ==> pos[b] < |lists[b]|)
  {
    if n == 0 then -1
    else
      var b := Best(lists, pos, n - 1);
      if pos[n - 1] >= |lists[n - 1]| then b
      else if b < 0 || Beats(lists[n - 1][pos[n - 1]], lists[b][pos[b]]) then n - 1
      else b
  }

  /** The next `count` entries of the merge. */
  function Merged(lists: Lists, pos: seq<nat>, count: nat): seq<Entry>
    requires |pos| == |lists|
    decreases count
  {
    var b := Best(lists, pos, |lists|);
    if count == 0 || b < 0 then []
    else [lists[b][pos[b]]] + Merged(lists, pos[b := pos[b] + 1], count - 1)
  }

  function Zeros(n: nat): (z: seq<nat>)
    ensures |z| == n && forall r :: 0 <= r < n ==> z[r] == 0
  {
    seq(n, _ => 0)
  }

  /** Lists of length k that can still be read `count` times each. */
  predicate Room(lists: Lists, pos: seq<nat>, k: nat, count: nat) {
    && |pos| == |lists| > 0
    && (forall r :: 0 <= r < |lists| ==> |lists[r]| == k)
    && (forall r :: 0 <= r < |pos| ==> pos[r] + count <= k)
  }

  predicate Numbers(lists: Lists) {
    forall r, q :: 0 <= r < |lists| && 0 <= q < |lists[r]| ==> !lists[r][q].val.NaN?
  }

  predicate Geq(a: Entry, b: Entry) { a == b || Beats(a, b) }

  lemma {:induction false} BestIsFirst(lists: Lists, pos: seq<nat>, n: nat, r: nat)
    requires |pos| == |lists| && r < n <= |lists| && pos[r] < |lists[r]| && Numbers(lists)
    ensures var b := Best(lists, pos, n); b >= 0 && Geq(lists[b][pos[b]], lists[r][pos[r]])
  {
    var b := Best(lists, pos, n - 1);
    if r < n - 1 {
      BestIsFirst(lists, pos, n - 1, r);
    } else if b >= 0 {
      Total(lists[b][pos[b]], lists[r][pos[r]]);
    }
  }

  /** Is this entry still to come? */
  ghost predicate Ahead(lists: Lists, pos: seq<nat>, e: Entry)
    requires |pos| == |lists|
  {
    exists r, q :: 0 <= r < |lists| && pos[r] <= q < |lists[r]| && lists[r][q] == e
  }

  /** Real entries are listed once, over all ranks. */
  ghost predicate Apart(lists: Lists) {
    forall r, q, r', q' ::
      (0 <= r < |lists| && 0 <= q < |lists[r]| && 0 <= r' < |lists| && 0 <= q' < |lists[r']|
       && lists[r][q] == lists[r'][q'] && lists[r][q] != SENTINEL) ==> r == r' && q == q'
  }

  ghost predicate AllOrdered(lists: Lists) {
    forall r :: 0 <= r < |lists| ==> Ordered(lists[r])
  }

  lemma HeadGeqAhead(lists: Lists, pos: seq<nat>, e: Entry)
    requires |pos| == |lists| && Numbers(lists) && AllOrdered(lists) && Ahead(lists, pos, e)
    ensures var b := Best(lists, pos, |lists|); b >= 0 && Geq(lists[b][pos[b]], e)
  {
    var r, q :| 0 <= r < |lists| && pos[r] <= q < |lists[r]| && lists[r][q] == e;
    BestIsFirst(lists, pos, |lists|, r);
    assert Ordered(lists[r]);
    assert Geq(lists[r][pos[r]], e);
  }

  /** What stays ahead when the head is taken was ahead before, and the head beats it. */
  lemma HeadBeatsRest(lists: Lists, pos: seq<nat>, f: Entry)
    requires |pos| == |lists| && Numbers(lists) && AllOrdered(lists) && Apart(lists)
    requires var b := Best(lists, pos, |lists|); b >= 0 && Ahead(lists, pos[b := pos[b] + 1], f)
    ensures Ahead(lists, pos, f)
    ensures var b := Best(lists, pos, |lists|); var e := lists[b][pos[b]];
            Beats(e, f) || (e == SENTINEL && f == SENTINEL)
  {
    hide Beats;
    var b := Best(lists, pos, |lists|);
    var next := pos[b := pos[b] + 1];
    var r, q :| 0 <= r < |lists| && next[r] <= q < |lists[r]| && lists[r][q] == f;
    assert pos[r] <= q && (r != b || q != pos[b]);
    HeadGeqAhead(lists, pos, f);
  }

  lemma OrderedCons(e: Entry, rest: seq<Entry>)
    requires Ordered(rest)
    requires forall i :: 0 <= i < |rest| ==> Beats(e, rest[i]) || (e == SENTINEL && rest[i] == SENTINEL)
    ensures Ordered([e] + rest)
  {
    hide Beats;
    var m := [e] + rest;
    forall i, j | 0 <= i < j < |m| ensures Beats(m[i], m[j]) || (m[i] == SENTINEL && m[j] == SENTINEL) {
      assert m[j] == rest[j - 1];
      if i > 0 { assert m[i] == rest[i - 1]; }
    }
  }

  /** The merge is as long as asked, in order, and only lists what was still ahead. */
  lemma {:induction false} MergedOrdered(lists: Lists, pos: seq<nat>, k: nat, count: nat)
    requires Room(lists, pos, k, count) && Numbers(lists) && AllOrdered(lists) && Apart(lists)
    ensures var m := Merged(lists, pos, count);
            |m| == count && Ordered(m) && forall i :: 0 <= i < count ==> Ahead(lists, pos, m[i])
    decreases count
  {
    hide Beats, Ordered, AllOrdered, Apart, Best, Numbers;
    if count > 0 {
      BestIsFirst(lists, pos, |lists|, 0);
      var b := Best(lists, pos, |lists|);
      var next := pos[b := pos[b] + 1];
      var e := lists[b][pos[b]];
      MergedOrdered(lists, next, k, count - 1);
      var rest := Merged(lists, next, count - 1);
      assert Ahead(lists, pos, e);
      forall i | 0 <= i < |rest|
        ensures Ahead(lists, pos, rest[i]) && (Beats(e, rest[i]) || (e == SENTINEL && rest[i] == SENTINEL)) {
        HeadBeatsRest(lists, pos, rest[i]);
      }
      OrderedCons(e, rest);
    } else {
      assert Ordered([]) by { OrderedNil(); }
    }
  }

  lemma OrderedNil()
    ensures Ordered([])
  {
  }

  /** What is ahead and not merged is beaten by all that is. */
  lemma {:induction false} MergedTakesBest(lists: Lists, pos: seq<nat>, k: nat, count: nat, e: Entry)
    requires Room(lists, pos, k, count) && Numbers(lists) && AllOrdered(lists)
    requires Ahead(lists, pos, e)
    ensures var m := Merged(lists, pos, count); e in m || BeatenByAll(m, e)
    decreases count
  {
    if count > 0 {
      HeadGeqAhead(lists, pos, e);
      var b := Best(lists, pos, |lists|);
      if lists[b][pos[b]] != e {
        var next := pos[b := pos[b] + 1];
        var r, q :| 0 <= r < |lists| && pos[r] <= q < |lists[r]| && lists[r][q] == e;
        assert next[r] <= q;
        MergedTakesBest(lists, next, k, count - 1, e);
      }
    }
  }

  lemma BeatsTransitive(a: Entry, b: Entry, c: Entry)
    requires Geq(a, b) && Beats(b, c)
    ensures Beats(a, c)
  {
  }

  /** What one rank's whole list beats, the merge beats. */
  lemma {:induction false} MergedBeats(lists: Lists, pos: seq<nat>, k: nat, count: nat, r: nat, e: Entry)
    requires Room(lists, pos, k, count) && Numbers(lists) && r < |lists| && BeatenByAll(lists[r], e)
    ensures BeatenByAll(Merged(lists, pos, count), e)
    decreases count
  {
    if count > 0 {
      BestIsFirst(lists, pos, |lists|, r);
      var b := Best(lists, pos, |lists|);
      BeatsTransitive(lists[b][pos[b]], lists[r][pos[r]], e);
      MergedBeats(lists, pos[b := pos[b] + 1], k, count - 1, r, e);
    }
  }

  // ---- shards ------------------------------------------------------------------------------------------------

  /** Id of the first element of shard `r`. */
  function Offset(shards: seq<seq<Logit>>, r: nat): nat
    requires r <= |shards|
  {
    if r == 0 then 0 else Offset(shards, r - 1) + |shards[r - 1]|
  }

  /** The row the first `r` shards make up. */
  function Row(shards: seq<seq<Logit>>, r: nat): (row: seq<Logit>)
    requires r <= |shards|
    ensures |row| == Offset(shards, r)
  {
    if r == 0 then [] else Row(shards, r - 1) + shards[r - 1]
  }

  lemma {:induction false} OffsetsGrow(shards: seq<seq<Logit>>, r: nat, n: nat)
    requires r < n <= |shards|
    ensures Offset(shards, r) + |shards[r]| <= Offset(shards, n)
  {
    if r < n - 1 { OffsetsGrow(shards, r, n - 1); }
  }

  /** An element of the whole row is the element of one shard, at its global id. */
  lemma {:induction false} InShard(shards: seq<seq<Logit>>, n: nat, e: Entry) returns (r: nat)
    requires n <= |shards| && InRow(Row(shards, n), 0, e)
    ensures r < n && InRow(shards[r], Offset(shards, r), e)
  {
    r := n - 1;
    if e.id < Offset(shards, n - 1) {
      r := InShard(shards, n - 1, e);
    }
  }

  lemma {:induction false} ShardInRow(shards: seq<seq<Logit>>, n: nat, r: nat, e: Entry)
    requires r < n <= |shards| && InRow(shards[r], Offset(shards, r), e)
    ensures InRow(Row(shards, n), 0, e)
  {
    OffsetsGrow(shards, r, n);
    if r < n - 1 {
      OffsetsGrow(shards, r, n - 1);
      ShardInRow(shards, n - 1, r, e);
    }
  }

  /** Local to global id; the padding stays. */
  function GlobalId(id: int, offset: int): int {
    if id != INT32_MAX then ToInt32(id + offset) else id
  }

  function Globalised(list: seq<Entry>, offset: int): (g: seq<Entry>)
    ensures |g| == |list|
    ensures forall i :: 0 <= i < |list| ==> g[i] == Entry(list[i].val, GlobalId(list[i].id, offset))
  {
    seq(|list|, i requires 0 <= i < |list| => Entry(list[i].val, GlobalId(list[i].id, offset)))
  }

  method GlobaliseIds(cand: array<int>, offset: int)
    modifies cand
    ensures cand[..] == seq(cand.Length, i requires 0 <= i < cand.Length => GlobalId(old(cand[i]), offset))
  {
    var i := 0;
    while i < cand.Length
      invariant 0 <= i <= cand.Length
      invariant forall j :: 0 <= j < i ==> cand[j] == GlobalId(old(cand[j]), offset)
      invariant forall j :: i <= j < cand.Length ==> cand[j] == old(cand[j])
    {
      if cand[i] != INT32_MAX {
        cand[i] := ToInt32(cand[i] + offset);
      }
      i := i + 1;
    }
  }

  lemma GlobalIdExact(id: int, offset: int)
    requires 0 <= id && 0 <= offset && id + offset < INT32_MAX
    ensures GlobalId(id, offset) == id + offset
  {
  }

  /** Moving a shard's ids moves its top-k; no id wraps. */
  lemma GlobalTopK(row: seq<Logit>, offset: nat, k: nat, list: seq<Entry>)
    requires IsTopK(row, 0, k, list) && offset + |row| <= INT32_MAX
    ensures IsTopK(row, offset, k, Globalised(list, offset))
  {
    hide ToInt32;
    var g := Globalised(list, offset);
    forall i | 0 <= i < k
      ensures g[i] == if list[i] == SENTINEL then SENTINEL else Entry(list[i].val, list[i].id + offset) {
      assert list[i] == SENTINEL || InRow(row, 0, list[i]);
      if list[i] != SENTINEL { GlobalIdExact(list[i].id, offset); }
    }
    forall i, j | 0 <= i < j < k ensures Beats(g[i], g[j]) || (g[i] == SENTINEL && g[j] == SENTINEL) {
      assert Beats(list[i], list[j]) || (list[i] == SENTINEL && list[j] == SENTINEL);
      assert list[i] == SENTINEL || InRow(row, 0, list[i]);
      assert list[j] == SENTINEL || InRow(row, 0, list[j]);
    }
    forall i | 0 <= i < k ensures g[i] == SENTINEL || InRow(row, offset, g[i]) {
      assert list[i] == SENTINEL || InRow(row, 0, list[i]);
    }
    forall e | InRow(row, offset, e) ensures e in g || BeatenByAll(g, e) {
      var l := Entry(e.val, e.id - offset);
      assert InRow(row, 0, l);
      if l in list {
        var i :| 0 <= i < k && list[i] == l;
        assert g[i] == e;
      } else {
        forall i | 0 <= i < k ensures Beats(g[i], e) {
          assert Beats(list[i], l);
          assert list[i] == SENTINEL || InRow(row, 0, list[i]);
        }
      }
    }
  }

  /** Had the padding been moved too, it would have wrapped round and beaten a row's real -inf. */
  lemma MovedPaddingWins(offset: int, id: int)
    requires 0 < offset <= INT32_MAX && 0 <= id < INT32_MAX
    ensures Beats(Entry(NegInf, ToInt32(INT32_MAX + offset)), Entry(NegInf, id)) && Beats(Entry(NegInf, id), SENTINEL)
  {
  }

  /** The ranks' lists, ids made global. */
  function Gathered(shards: seq<seq<Logit>>, locals: Lists): (g: Lists)
    requires |locals| == |shards|
    ensures |g| == |shards| && forall r :: 0 <= r < |shards| ==> g[r] == Globalised(locals[r], Offset(shards, r))
  {
    seq(|shards|, r requires 0 <= r < |shards| => Globalised(locals[r], Offset(shards, r)))
  }

  ghost predicate ShardLists(shards: seq<seq<Logit>>, k: nat, lists: Lists) {
    |lists| == |shards| && forall r :: 0 <= r < |shards| ==> IsTopK(shards[r], Offset(shards, r), k, lists[r])
  }

  lemma ShardListsFit(shards: seq<seq<Logit>>, k: nat, lists: Lists)
    requires ShardLists(shards, k, lists) && Offset(shards, |shards|) <= INT32_MAX
    ensures Numbers(lists) && AllOrdered(lists) && Apart(lists)
  {
    hide Ordered, Covers, Beats;
    forall r, q | 0 <= r < |lists| && 0 <= q < |lists[r]| ensures !lists[r][q].val.NaN? {
      assert IsTopK(shards[r], Offset(shards, r), k, lists[r]);
    }
    forall r, q, r', q' | 0 <= r < |lists| && 0 <= q < |lists[r]| && 0 <= r' < |lists| && 0 <= q' < |lists[r']|
                          && lists[r][q] == lists[r'][q'] && lists[r][q] != SENTINEL
      ensures r == r' && q == q' {
      assert IsTopK(shards[r], Offset(shards, r), k, lists[r]) && IsTopK(shards[r'], Offset(shards, r'), k, lists[r']);
      assert InRow(shards[r], Offset(shards, r), lists[r][q]) && InRow(shards[r'], Offset(shards, r'), lists[r'][q']);
      if r < r' { OffsetsGrow(shards, r, r'); } else if r' < r { OffsetsGrow(shards, r', r); }
      else if q < q' { Irreflexive(lists[r], q, q'); } else if q' < q { Irreflexive(lists[r], q', q); }
    }
  }

  lemma Irreflexive(list: seq<Entry>, i: nat, j: nat)
    requires Ordered(list) && i < j < |list| && list[i] == list[j]
    ensures list[i] == SENTINEL
  {
  }

  lemma MergeOfShards(shards: seq<seq<Logit>>, k: nat, lists: Lists)
    requires |shards| > 0 && ShardLists(shards, k, lists) && Offset(shards, |shards|) <= INT32_MAX
    ensures IsTopK(Row(shards, |shards|), 0, k, Merged(lists, Zeros(|shards|), k))
  {
    hide Ordered, Beats, Apart, Merged, Numbers;
    var n := |shards|;
    var row, z := Row(shards, n), Zeros(n);
    var m := Merged(lists, z, k);
    ShardListsFit(shards, k, lists);
    MergedOrdered(lists, z, k, k);
    forall i | 0 <= i < k ensures m[i] == SENTINEL || InRow(row, 0, m[i]) {
      assert Ahead(lists, z, m[i]);
      var r, q :| 0 <= r < n && 0 <= q < |lists[r]| && lists[r][q] == m[i];
      assert IsTopK(shards[r], Offset(shards, r), k, lists[r]);
      if m[i] != SENTINEL { ShardInRow(shards, n, r, m[i]); }
    }
    forall e | InRow(row, 0, e) ensures e in m || BeatenByAll(m, e) {
      var r := InShard(shards, n, e);
      assert IsTopK(shards[r], Offset(shards, r), k, lists[r]);
      if e in lists[r] {
        var q :| 0 <= q < k && lists[r][q] == e;
        assert z[r] <= q;
        MergedTakesBest(lists, z, k, k, e);
      } else {
        MergedBeats(lists, z, k, k, r, e);
      }
    }
  }

  lemma GatheredLists(shards: seq<seq<Logit>>, k: nat, locals: Lists)
    requires |shards| == |locals| && Offset(shards, |shards|) <= INT32_MAX
    requires forall r :: 0 <= r < |shards| ==> IsTopK(shards[r], 0, k, locals[r])
    ensures ShardLists(shards, k, Gathered(shards, locals))
  {
    hide IsTopK, Globalised;
    forall r | 0 <= r < |shards| ensures IsTopK(shards[r], Offset(shards, r), k, Gathered(shards, locals)[r]) {
      OffsetsGrow(shards, r, |shards|);
      GlobalTopK(shards[r], Offset(shards, r), k, locals[r]);
    }
  }

  /** For every split of a row into contiguous shards: merging the shards' top-k lists gives the row's own, padding
      included, whatever the list lengths, ties, infinities and NaNs. */
  lemma SplitMergeIsWholeRow(shards: seq<seq<Logit>>, k: nat, locals: Lists, whole: seq<Entry>)
    requires |shards| == |locals| > 0 && Offset(shards, |shards|) <= INT32_MAX
    requires forall r :: 0 <= r < |shards| ==> IsTopK(shards[r], 0, k, locals[r])
    requires IsTopK(Row(shards, |shards|), 0, k, whole)
    ensures Merged(Gathered(shards, locals), Zeros(|shards|), k) == whole
  {
    hide Ordered, FromRow, Covers, Merged, Gathered, Row, Offset, ShardLists;
    GatheredLists(shards, k, locals);
    MergeOfShards(shards, k, Gathered(shards, locals));
    var m := Merged(Gathered(shards, locals), Zeros(|shards|), k);
    TopKUnique(Row(shards, |shards|), 0, k, m, whole, k);
    assert m == m[..k] && whole == whole[..k];
  }

  // ---- the flat arrays -------------------------------------------------------------------------------------

  /** Where a row's list starts in [rows][k]; where entry `q` of `rank`'s list of `row` is in [world][rows][k]. */
  function RowBase(row: nat, k: nat): nat { row * k }

  function At(rank: nat, row: nat, q: nat, rows: nat, k: nat): nat {
    rank * RowBase(rows, k) + RowBase(row, k) + q
  }

  function Size(world: nat, rows: nat, k: nat): nat { world * RowBase(rows, k) }

  lemma RowFits(row: nat, rows: nat, k: nat)
    requires row < rows
    ensures RowBase(row + 1, k) == RowBase(row, k) + k <= RowBase(rows, k)
  {
    MulLe(row + 1, rows, k);
  }

  lemma AtInside(rank: nat, row: nat, q: nat, world: nat, rows: nat, k: nat)
    requires rank < world && row < rows && q < k
    ensures At(rank, row, q, rows, k) < Size(world, rows, k)
  {
    RowFits(row, rows, k);
    RowFits(rank, world, RowBase(rows, k));
    assert RowBase(rank, RowBase(rows, k)) == rank * RowBase(rows, k);
    assert RowBase(world, RowBase(rows, k)) == Size(world, rows, k);
  }

  /** The ranks' lists of one row. */
  function ListsOf(ids: seq<int>, vals: seq<Logit>, world: nat, rows: nat, row: nat, k: nat): (lists: Lists)
    requires |ids| == |vals| == Size(world, rows, k) && row < rows
    ensures |lists| == world && forall r :: 0 <= r < world ==> |lists[r]| == k
  {
    seq(world, r requires 0 <= r < world => seq(k, q requires 0 <= q < k =>
      AtInside(r, row, q, world, rows, k); Entry(vals[At(r, row, q, rows, k)], ids[At(r, row, q, rows, k)])))
  }

  /** The list an output row holds. */
  function ListAt(ids: seq<int>, vals: seq<Logit>, at: nat, k: nat): (list: seq<Entry>)
    requires at + k <= |ids| == |vals|
    ensures |list| == k
  {
    seq(k, j requires 0 <= j < k => Entry(vals[at + j], ids[at + j]))
  }

  /** The rank loop: the first of the best next entries, and where it is. */
  method PickBest(ids: seq<int>, vals: seq<Logit>, world: nat, rows: nat, row: nat, k: nat, pos: seq<nat>)
    returns (best: int, bestAt: nat)
    requires world >= 1 && row < rows && |ids| == |vals| == Size(world, rows, k)
    requires |pos| == world && forall r :: 0 <= r < world ==> pos[r] < k
    ensures var lists := ListsOf(ids, vals, world, rows, row, k);
            && 0 <= best == Best(lists, pos, world) && bestAt < |ids|
            && Entry(vals[bestAt], ids[bestAt]) == lists[best][pos[best]]
  {
    hide Beats, At, Size;
    ghost var lists := ListsOf(ids, vals, world, rows, row, k);
    best, bestAt := -1, 0;
    var r := 0;
    while r < world
      invariant 0 <= r <= world
      invariant best == Best(lists, pos, r) && (r > 0 ==> best >= 0)
      invariant best >= 0 ==> bestAt < |ids| && Entry(vals[bestAt], ids[bestAt]) == lists[best][pos[best]]
    {
      if pos[r] < k {
        AtInside(r, row, pos[r], world, rows, k);
        var at := At(r, row, pos[r], rows, k);
        assert Entry(vals[at], ids[at]) == lists[r][pos[r]];
        if best < 0 || Beats(Entry(vals[at], ids[at]), Entry(vals[bestAt], ids[bestAt])) {
          best, bestAt := r, at;
        }
      }
      r := r + 1;
    }
  }

  /** One output row: entry by entry, the best of the ranks' next entries. */
  method MergeRow(ids: seq<int>, vals: seq<Logit>, world: nat, rows: nat, row: nat, k: nat, base: nat,
                  outIds: array<int>, outVals: array<Logit>)
    requires world >= 1 && row < rows && |ids| == |vals| == Size(world, rows, k)
    requires outIds.Length == outVals.Length && base + k <= outIds.Length
    modifies outIds, outVals
    ensures forall i :: 0 <= i < outIds.Length && !(base <= i < base + k) ==>
              outIds[i] == old(outIds[i]) && outVals[i] == old(outVals[i])
    ensures ListAt(outIds[..], outVals[..], base, k)
            == Merged(ListsOf(ids, vals, world, rows, row, k), Zeros(world), k)
  {
    hide Beats, Merged, Best, ListsOf, Size;
    ghost var lists := ListsOf(ids, vals, world, rows, row, k);
    ghost var done: seq<Entry> := [];
    var pos: seq<nat> := Zeros(world);
    var j := 0;
    while j < k
      invariant 0 <= j <= k && |pos| == world && |done| == j
      invariant forall r :: 0 <= r < world ==> pos[r] <= j
      invariant done + Merged(lists, pos, k - j) == Merged(lists, Zeros(world), k)
      invariant forall i :: 0 <= i < j ==> Entry(outVals[base + i], outIds[base + i]) == done[i]
      invariant forall i :: 0 <= i < outIds.Length && !(base <= i < base + k) ==>
                  outIds[i] == old(outIds[i]) && outVals[i] == old(outVals[i])
    {
      var best, bestAt := PickBest(ids, vals, world, rows, row, k, pos);
      outIds[base + j] := ids[bestAt];
      outVals[base + j] := vals[bestAt];
      MergedUnfold(lists, pos, k - j);
      assert Entry(outVals[base + j], outIds[base + j]) == lists[best][pos[best]];
      done := done + [lists[best][pos[best]]];
      pos := pos[best := pos[best] + 1];
      j := j + 1;
    }
    MergedNone(lists, pos);
    assert ListAt(outIds[..], outVals[..], base, k) == done;
  }

  lemma MergedUnfold(lists: Lists, pos: seq<nat>, count: nat)
    requires |pos| == |lists| && count > 0 && Best(lists, pos, |lists|) >= 0
    ensures var b := Best(lists, pos, |lists|);
            Merged(lists, pos, count) == [lists[b][pos[b]]] + Merged(lists, pos[b := pos[b] + 1], count - 1)
  {
  }

  lemma MergedNone(lists: Lists, pos: seq<nat>)
    requires |pos| == |lists|
    ensures Merged(lists, pos, 0) == []
  {
  }

  predicate MergeAccepts(world: int, k: int) { 1 <= world <= MAX_WORLD && k >= 1 }

  /** Output row `row` holds the merge of the ranks' lists of that row. */
  ghost predicate RowDone(ids: seq<int>, vals: seq<Logit>, world: nat, rows: nat, row: nat, k: nat,
                          outIds: seq<int>, outVals: seq<Logit>)
    requires |ids| == |vals| == Size(world, rows, k)
  {
    && row < rows
    && RowBase(row, k) + k <= |outIds| == |outVals|
    && ListAt(outIds, outVals, RowBase(row, k), k) == Merged(ListsOf(ids, vals, world, rows, row, k), Zeros(world), k)
  }

  /** Every output row is the merge of the ranks' lists of that row; a bad world or k changes nothing. */
  method MergeTopK(ids: seq<int>, vals: seq<Logit>, world: int, rows: nat, k: int,
                   outIds: array<int>, outVals: array<Logit>) returns (ok: bool)
    requires MergeAccepts(world, k) ==>
               |ids| == |vals| == Size(world, rows, k) && outIds.Length == outVals.Length == RowBase(rows, k)
    modifies outIds, outVals
    ensures ok <==> 1 <= world <= 8 && k >= 1
    ensures !ok ==> outIds[..] == old(outIds[..]) && outVals[..] == old(outVals[..])
    ensures ok ==> forall row: nat :: row < rows ==> RowDone(ids, vals, world, rows, row, k, outIds[..], outVals[..])
  {
    hide Merged, ListsOf, Size, RowBase;
    if !MergeAccepts(world, k) {
      return false;
    }
    var row := 0;
    while row < rows
      invariant 0 <= row <= rows
      invariant forall d: nat :: d < row ==> RowDone(ids, vals, world, rows, d, k, outIds[..], outVals[..])
    {
      RowFits(row, rows, k);
      ghost var beforeIds, beforeVals := outIds[..], outVals[..];
      MergeRow(ids, vals, world, rows, row, k, RowBase(row, k), outIds, outVals);
      forall d: nat | d < row ensures RowDone(ids, vals, world, rows, d, k, outIds[..], outVals[..]) {
        RowFits(d, row, k);
        assert RowDone(ids, vals, world, rows, d, k, beforeIds, beforeVals);
        ListKept(beforeIds, beforeVals, outIds[..], outVals[..], RowBase(d, k), k);
      }
      row := row + 1;
    }
    return true;
  }

  lemma ListKept(ids: seq<int>, vals: seq<Logit>, ids': seq<int>, vals': seq<Logit>, at: nat, k: nat)
    requires at + k <= |ids| == |vals| == |ids'| == |vals'|
    requires forall i :: at <= i < at + k ==> ids[i] == ids'[i] && vals[i] == vals'[i]
    ensures ListAt(ids, vals, at, k) == ListAt(ids', vals', at, k)
  {
  }

  /** Rank r's list of a row is k entries in a row, from (r * rows + row) * k on. */
  lemma ListsInPlace(ids: seq<int>, vals: seq<Logit>, world: nat, rows: nat, row: nat, k: nat, r: nat)
    requires |ids| == |vals| == Size(world, rows, k) && row < rows && r < world
    ensures (r * rows + row) * k + k <= |ids|
    ensures ListsOf(ids, vals, world, rows, row, k)[r] == ListAt(ids, vals, (r * rows + row) * k, k)
  {
    Address(r, rows, row, k);
    RowFits(row, rows, k);
    RowFits(r, world, RowBase(rows, k));
    assert RowBase(r, RowBase(rows, k)) == r * RowBase(rows, k) && RowBase(world, RowBase(rows, k)) == Size(world, rows, k);
    hide Size;
    var a, b := ListsOf(ids, vals, world, rows, row, k)[r], ListAt(ids, vals, (r * rows + row) * k, k);
    forall q | 0 <= q < k ensures a[q] == b[q] {
      AtInside(r, row, q, world, rows, k);
    }
  }

  lemma Address(r: nat, rows: nat, row: nat, k: nat)
    ensures (r * rows + row) * k == r * RowBase(rows, k) + RowBase(row, k)
  {
    assert r * rows * k == r * (rows * k);
  }

  /** From array to array: where every rank's k entries are the top-k of its shard of the row, the output's are the top-k of
      the whole row. */
  lemma OutputIsTopK(ids: seq<int>, vals: seq<Logit>, world: nat, rows: nat, row: nat, k: nat, outIds: seq<int>,
                     outVals: seq<Logit>, shards: seq<seq<Logit>>)
    requires |ids| == |vals| == Size(world, rows, k) && RowDone(ids, vals, world, rows, row, k, outIds, outVals)
    requires |shards| == world > 0 && Offset(shards, world) <= INT32_MAX
    requires forall r: nat :: r < world ==> (r * rows + row) * k + k <= |ids|
    requires forall r: nat :: r < world ==>
               IsTopK(shards[r], Offset(shards, r), k, ListAt(ids, vals, (r * rows + row) * k, k))
    ensures row * k + k <= |outIds| == |outVals|
    ensures IsTopK(Row(shards, world), 0, k, ListAt(outIds, outVals, row * k, k))
  {
    hide IsTopK, Merged, Size, ListsOf, ListAt;
    var lists := ListsOf(ids, vals, world, rows, row, k);
    forall r: nat | r < world ensures IsTopK(shards[r], Offset(shards, r), k, lists[r]) {
      ListsInPlace(ids, vals, world, rows, row, k, r);
    }
    MergeOfShards(shards, k, lists);
  }
}
