/** Batched decode's host bookkeeping: the slot table, the legality check of a step and the step's metadata array. */
module BatchPlan {
  import opened Common

  const MAX_SLOTS := 16

  // int offsets into one step's metadata array; every section is 64 wide.
  const META_IDS := 0
  const META_ROPE_POS := 64
  const META_SLOT_MAP := 128
  const META_SEQ_USED := 192
  const META_CACHE_IDX := 256
  const META_CU := 320
  const META_SIDX := 384
  const META_ROPE3 := 448
  const META_INTS := 512

  function GdnSlotOf(slot: int): int { slot + 1 }

  datatype SlotState = SlotState(active: bool, pos: int, mrope: bool, mropeDelta: int)

  const FREE := SlotState(false, 0, false, 0)

  datatype SlotError = BadSlotCount | BadContext | OutsideTable | NoPrompt | NoRoom | NotActive

  datatype Table = Table(slots: seq<SlotState>, ctx: int) {
    ghost predicate Valid() { 1 <= |slots| <= MAX_SLOTS && ctx >= 1 }

    /** What Activate and legal steps keep: every live slot has a prompt and at most ctx tokens. */
    ghost predicate InBounds() {
      forall s :: 0 <= s < |slots| && slots[s].active ==> 1 <= slots[s].pos <= ctx
    }
  }

  class SlotTable {
    var slots: seq<SlotState>
    const ctx: int

    ghost function Value(): Table
      reads this
    {
      Table(slots, ctx)
    }

    constructor (n: int, slotCtx: int)
      requires 1 <= n <= MAX_SLOTS && slotCtx >= 1
      ensures Value() == Table(seq(n, _ => FREE), slotCtx) && Value().Valid()
    {
      slots := seq(n, _ => FREE);
      ctx := slotCtx;
    }

    static method Create(n: int, slotCtx: int) returns (r: Result<SlotTable, SlotError>)
      ensures r.Failure? <==> !(1 <= n <= 16) || slotCtx < 1
      ensures r.Failure? ==> r.error == if 1 <= n <= 16 then BadContext else BadSlotCount
      ensures r.Success? ==> fresh(r.value) && r.value.Value().Valid()
                             && r.value.Value() == Table(seq(n, _ => SlotState(false, 0, false, 0)), slotCtx)
    {
      if n < 1 || n > MAX_SLOTS {
        return Failure(BadSlotCount);
      }
      if slotCtx < 1 {
        return Failure(BadContext);
      }
      var t := new SlotTable(n, slotCtx);
      return Success(t);
    }

    method Clear()
      requires Value().Valid()
      modifies this
      ensures Value().Valid() && Value().InBounds() && slots == seq(|old(slots)|, _ => SlotState(false, 0, false, 0))
    {
      slots := seq(|slots|, _ => FREE);
    }

    predicate InTable(slot: int)
      reads this
    {
      0 <= slot < |slots|
    }

    method Activate(slot: int, pos: int, mrope: bool, mropeDelta: int) returns (r: Result<(), SlotError>)
      requires Value().Valid()
      modifies this
      ensures Value().Valid() && (old(Value()).InBounds() ==> Value().InBounds())
      ensures r == if !(0 <= slot < old(|slots|)) then Failure(OutsideTable)
                   else if pos < 1 then Failure(NoPrompt)
                   else if pos >= ctx then Failure(NoRoom) else Success(())
      ensures slots == if r.Success? then old(slots)[slot := SlotState(true, pos, mrope, mropeDelta)] else old(slots)
    {
      if !InTable(slot) {
        return Failure(OutsideTable);
      }
      if pos < 1 {
        return Failure(NoPrompt);
      }
      if pos >= ctx {
        return Failure(NoRoom);
      }
      slots := slots[slot := SlotState(true, pos, mrope, mropeDelta)];
      return Success(());
    }

    method Release(slot: int) returns (r: Result<(), SlotError>)
      requires Value().Valid()
      modifies this
      ensures Value().Valid() && (old(Value()).InBounds() ==> Value().InBounds())
      ensures r == if 0 <= slot < old(|slots|) then Success(()) else Failure(OutsideTable)
      ensures slots == if r.Success? then old(slots)[slot := SlotState(false, 0, false, 0)] else old(slots)
    {
      if !InTable(slot) {
        return Failure(OutsideTable);
      }
      slots := slots[slot := FREE];
      return Success(());
    }

    /** Alone it keeps no bound: the caller's CheckStep does. */
    method Advance(slot: int) returns (r: Result<(), SlotError>)
      requires Value().Valid()
      modifies this
      ensures Value().Valid()
      ensures r == if !(0 <= slot < old(|slots|)) then Failure(OutsideTable)
                   else if !old(slots)[slot].active then Failure(NotActive) else Success(())
      ensures slots == if r.Success? then old(slots)[slot := old(slots)[slot].(pos := old(slots)[slot].pos + 1)]
                       else old(slots)
      ensures r.Success? && old(Value()).InBounds() ==>
                (Value().InBounds() <==> old(slots)[slot].pos < ctx)
    {
      if !InTable(slot) {
        return Failure(OutsideTable);
      }
      if !slots[slot].active {
        return Failure(NotActive);
      }
      slots := slots[slot := slots[slot].(pos := slots[slot].pos + 1)];
      assert Value().slots[slot].active;
      return Success(());
    }
  }

  // ---- the step check ---------------------------------------------------------------------------------

  datatype StepProblem = BadRowCount | Outside(slot: int) | Twice(slot: int) | Empty(slot: int) | Full(slot: int)

  /** A step may run: 1..Slots rows of distinct, live slots with room for one more token. */
  ghost predicate LegalStep(t: Table, rows: seq<int>) {
    && 1 <= |rows| <= |t.slots|
    && (forall r :: 0 <= r < |rows| ==> 0 <= rows[r] < |t.slots|)
    && (forall r, q :: 0 <= r < q < |rows| ==> rows[r] != rows[q])
    && (forall r :: 0 <= r < |rows| ==> t.slots[rows[r]].active && t.slots[rows[r]].pos < t.ctx)
  }

  /** What is wrong with row r, given the rows before it. */
  function RowProblem(t: Table, rows: seq<int>, r: nat): (p: Option<StepProblem>)
    requires r < |rows|
  {
    var s := rows[r];
    if s < 0 || s >= |t.slots| then Some(Outside(s))
    else if s in rows[..r] then Some(Twice(s))
    else if !t.slots[s].active then Some(Empty(s))
    else if t.slots[s].pos >= t.ctx then Some(Full(s))
    else None
  }

  /** The first offending row's problem. */
  function FirstProblem(t: Table, rows: seq<int>, k: nat): (p: Option<StepProblem>)
    requires k <= |rows|
  {
    if k == 0 then None
    else
      var before := FirstProblem(t, rows, k - 1);
      if before.Some? then before else RowProblem(t, rows, k - 1)
  }

  function StepVerdict(t: Table, rows: seq<int>): (p: Option<StepProblem>) {
    if |rows| < 1 || |rows| > |t.slots| then Some(BadRowCount) else FirstProblem(t, rows, |rows|)
  }

  lemma {:induction false} NoProblemUpTo(t: Table, rows: seq<int>, k: nat)
    requires k <= |rows|
    ensures FirstProblem(t, rows, k) == None <==> forall r :: 0 <= r < k ==> RowProblem(t, rows, r) == None
  {
    if k > 0 { NoProblemUpTo(t, rows, k - 1); }
  }

  /** The check passes exactly the legal steps. */
  lemma VerdictExact(t: Table, rows: seq<int>)
    ensures StepVerdict(t, rows) == None <==> LegalStep(t, rows)
  {
    NoProblemUpTo(t, rows, |rows|);
    if LegalStep(t, rows) {
      forall r | 0 <= r < |rows| ensures RowProblem(t, rows, r) == None {
        assert rows[r] !in rows[..r];
      }
    } else if 1 <= |rows| <= |t.slots| && forall r :: 0 <= r < |rows| ==> RowProblem(t, rows, r) == None {
      forall r, q | 0 <= r < q < |rows| ensures rows[r] != rows[q] {
        assert RowProblem(t, rows, q) == None;
        assert rows[r] == rows[..q][r];
      }
      assert forall r :: 0 <= r < |rows| ==> RowProblem(t, rows, r) == None && 0 <= rows[r] < |t.slots|;
      assert false;
    }
  }

  function Bit(s: int): bv32
    requires 0 <= s < MAX_SLOTS
  {
    (1 as bv32) << s
  }

  lemma BitsDistinct(a: int, b: int, seen: bv32)
    requires 0 <= a < MAX_SLOTS && 0 <= b < MAX_SLOTS
    ensures (seen | Bit(a)) & Bit(b) != 0 <==> a == b || seen & Bit(b) != 0
  {
  }

  /** `seen & (1u << s)` of the 32-bit mask. */
  predicate Marked(seen: bv32, s: int)
    requires 0 <= s < MAX_SLOTS
  {
    seen & Bit(s) != 0
  }

  /** `seen | (1u << s)`. */
  function Mark(seen: bv32, s: int): bv32
    requires 0 <= s < MAX_SLOTS
  {
    seen | Bit(s)
  }

  /** The mask is a set of slots: marking one adds it and no other. */
  lemma MarkAdds(seen: bv32, a: int, b: int)
    requires 0 <= a < MAX_SLOTS && 0 <= b < MAX_SLOTS
    ensures Marked(Mark(seen, a), b) <==> a == b || Marked(seen, b)
  {
    hide Bit;
    BitsDistinct(a, b, seen);
  }

  lemma NoneMarked(b: int)
    requires 0 <= b < MAX_SLOTS
    ensures !Marked(0, b)
  {
  }

  method CheckStep(t: SlotTable, rows: seq<int>) returns (why: Option<StepProblem>)
    requires t.Value().Valid()
    ensures why == StepVerdict(t.Value(), rows)
    ensures why == None <==> LegalStep(t.Value(), rows)
  {
    hide Marked, Mark;
    VerdictExact(t.Value(), rows);
    if |rows| < 1 || |rows| > |t.slots| {
      return Some(BadRowCount);
    }
    var seen: bv32 := 0;
    forall b | 0 <= b < MAX_SLOTS ensures !Marked(seen, b) { NoneMarked(b); }
    for r := 0 to |rows|
      invariant FirstProblem(t.Value(), rows, r) == None
      invariant forall s :: 0 <= s < MAX_SLOTS ==> (Marked(seen, s) <==> s in rows[..r])
    {
      var s := rows[r];
      if s < 0 || s >= |t.slots| {
        FirstStays(t.Value(), rows, r + 1);
        return Some(Outside(s));
      }
      if Marked(seen, s) {
        FirstStays(t.Value(), rows, r + 1);
        return Some(Twice(s));
      }
      forall b | 0 <= b < MAX_SLOTS ensures Marked(Mark(seen, s), b) <==> b in rows[..r + 1] {
        MarkAdds(seen, s, b);
      }
      seen := Mark(seen, s);
      if !t.slots[s].active {
        FirstStays(t.Value(), rows, r + 1);
        return Some(Empty(s));
      }
      if t.slots[s].pos >= t.ctx {
        FirstStays(t.Value(), rows, r + 1);
        return Some(Full(s));
      }
    }
    return None;
  }

  lemma {:induction false} FirstStays(t: Table, rows: seq<int>, k: nat)
    requires k <= |rows| && FirstProblem(t, rows, k).Some?
    ensures FirstProblem(t, rows, |rows|) == FirstProblem(t, rows, k)
    decreases |rows| - k
  {
    if k < |rows| { FirstStays(t, rows, k + 1); }
  }

  // ---- the step's metadata -----------------------------------------------------------------------------

  ghost predicate AnyMrope(t: Table, rows: seq<int>)
    requires forall r :: 0 <= r < |rows| ==> 0 <= rows[r] < |t.slots|
  {
    exists r :: 0 <= r < |rows| && t.slots[rows[r]].mrope
  }

  /** What row r of a step over `rows` reads from the array, as int32 values: in the sections at 0, 64, 128, ... its token,
      rope position, KV address, used length, GDN line to read, cumulative length, GDN line to write, and mrope columns. */
  ghost predicate RowMeta(h: seq<int>, t: Table, rows: seq<int>, tokens: seq<int>, any: bool, r: nat)
    requires |h| >= META_INTS && |rows| <= MAX_SLOTS && |tokens| >= |rows| && r < |rows| && 0 <= rows[r] < |t.slots|
  {
    var s := rows[r];
    var st := t.slots[s];
    var p := ToInt32(st.pos + if st.mrope then st.mropeDelta else 0);
    && h[r] == tokens[r]
    && h[64 + r] == ToInt32(st.pos)
    && h[128 + r] == ToInt32(s * t.ctx + st.pos)
    && h[192 + r] == ToInt32(st.pos + 1)
    && h[256 + r] == h[384 + r] == s + 1
    && h[320 + r] == r
    && (any ==> h[448 + r] == h[448 + |rows| + r] == h[448 + 2 * |rows| + r] == p)
  }

  /** The entries a step of n rows writes. */
  predicate Written(i: int, n: nat, any: bool) {
    || META_IDS <= i < META_IDS + n
    || META_ROPE_POS <= i < META_ROPE_POS + n
    || META_SLOT_MAP <= i < META_SLOT_MAP + n
    || META_SEQ_USED <= i < META_SEQ_USED + n
    || META_CACHE_IDX <= i < META_CACHE_IDX + n
    || META_CU <= i <= META_CU + n
    || META_SIDX <= i < META_SIDX + n
    || (any && META_ROPE3 <= i < META_ROPE3 + 3 * n)
  }

  ghost predicate StepMeta(h: seq<int>, before: seq<int>, t: Table, rows: seq<int>, tokens: seq<int>, any: bool)
    requires |h| == |before| >= META_INTS && |rows| <= MAX_SLOTS && |tokens| >= |rows|
    requires forall r :: 0 <= r < |rows| ==> 0 <= rows[r] < |t.slots|
  {
    && (forall r :: 0 <= r < |rows| ==> RowMeta(h, t, rows, tokens, any, r))
    && h[320 + |rows|] == |rows|
    && forall i :: 0 <= i < |h| && !Written(i, |rows|, any) ==> h[i] == before[i]
  }

  method HasMrope(t: SlotTable, rows: seq<int>) returns (any: bool)
    requires forall k :: 0 <= k < |rows| ==> 0 <= rows[k] < |t.slots|
    ensures any <==> exists k :: 0 <= k < |rows| && t.slots[rows[k]].mrope
  {
    any := false;
    for q := 0 to |rows|
      invariant any <==> exists k :: 0 <= k < q && t.slots[rows[k]].mrope
    {
      any := any || t.slots[rows[q]].mrope;
    }
  }

  method FillStepMeta(t: SlotTable, rows: seq<int>, tokens: seq<int>, h: array<int>)
    returns (r: Result<bool, StepProblem>)
    requires t.Value().Valid() && |tokens| == |rows| && h.Length >= META_INTS
    modifies h
    ensures match StepVerdict(t.Value(), rows)
            case Some(p) => r == Failure(p) && h[..] == old(h[..])
            case None => LegalStep(t.Value(), rows) && r == Success(AnyMrope(t.Value(), rows))
                         && StepMeta(h[..], old(h[..]), t.Value(), rows, tokens, r.value)
    ensures r.Success? ==> LinesApart(h[..], rows, |t.slots|)
  {
    var why := CheckStep(t, rows);
    if why.Some? {
      return Failure(why.value);
    }
    hide StepVerdict, ToInt32, FirstProblem;
    var any := HasMrope(t, rows);
    var n := |rows|;
    ghost var before := h[..];
    hide RowMeta, Entry, Written, LinesApart;
    for q := 0 to n
      invariant forall k :: 0 <= k < q ==> RowMeta(h[..], t.Value(), rows, tokens, any, k)
      invariant forall i :: 0 <= i < h.Length && !Written(i, n, any) ==> h[i] == before[i]
    {
      ghost var was := h[..];
      WriteRow(t, rows, tokens, any, q, h);
      RowWritten(t.Value(), rows, tokens, any, q, was, h[..]);
    }
    ghost var was := h[..];
    h[META_CU + n] := n;
    LastWritten(t.Value(), rows, tokens, any, before, was, h[..]);
    LinesOfStep(h[..], before, t.Value(), rows, tokens, any);
    return Success(any);
  }

  /** Row k's GDN line is its slot's number plus one, to read and to write: a line of the table, never line 0, which the GDN
      manager keeps, and never another row's. */
  ghost predicate LinesApart(h: seq<int>, rows: seq<int>, slots: nat)
    requires |h| >= META_INTS && |rows| <= MAX_SLOTS
  {
    var lines := h[256..256 + |rows|];
    && h[384..384 + |rows|] == lines
    && (forall k :: 0 <= k < |rows| ==> lines[k] == rows[k] + 1 && 1 <= lines[k] <= slots)
    && (forall j, k :: 0 <= j < k < |rows| ==> lines[j] != lines[k])
  }

  lemma LinesOfStep(h: seq<int>, before: seq<int>, t: Table, rows: seq<int>, tokens: seq<int>, any: bool)
    requires LegalStep(t, rows) && |rows| <= MAX_SLOTS && |tokens| == |rows| && |h| == |before| >= META_INTS
    requires StepMeta(h, before, t, rows, tokens, any)
    ensures LinesApart(h, rows, |t.slots|)
  {
    hide ToInt32;
    var lines, out := h[256..256 + |rows|], h[384..384 + |rows|];
    forall k | 0 <= k < |rows| ensures lines[k] == out[k] == rows[k] + 1 {
      assert RowMeta(h, t, rows, tokens, any, k);
    }
    assert out == lines;
  }

  /** Entry i after row r is written over an entry `was`. */
  function Entry(was: int, i: int, t: Table, rows: seq<int>, tokens: seq<int>, any: bool, r: nat): int
    requires r < |rows| <= |tokens| && 0 <= rows[r] < |t.slots|
  {
    var s := rows[r];
    var st := t.slots[s];
    if i == META_IDS + r then tokens[r]
    else if i == META_ROPE_POS + r then ToInt32(st.pos)
    else if i == META_SLOT_MAP + r then ToInt32(s * t.ctx + st.pos)
    else if i == META_SEQ_USED + r then ToInt32(st.pos + 1)
    else if i == META_CACHE_IDX + r then s + 1
    else if i == META_CU + r then r
    else if i == META_SIDX + r then s + 1
    else if any && (i == META_ROPE3 + r || i == META_ROPE3 + |rows| + r || i == META_ROPE3 + 2 * |rows| + r) then
      ToInt32(st.pos + if st.mrope then st.mropeDelta else 0)
    else was
  }

  /** One row's entries. */
  method WriteRow(t: SlotTable, rows: seq<int>, tokens: seq<int>, any: bool, r: nat, h: array<int>)
    requires r < |rows| <= MAX_SLOTS && |tokens| == |rows| && h.Length >= META_INTS && 0 <= rows[r] < |t.slots|
    modifies h
    ensures forall i :: 0 <= i < h.Length ==> h[i] == Entry(old(h[i]), i, t.Value(), rows, tokens, any, r)
  {
    hide ToInt32;
    var s := rows[r];
    var st := t.slots[s];
    h[META_IDS + r] := tokens[r];
    h[META_ROPE_POS + r] := ToInt32(st.pos);
    h[META_SLOT_MAP + r] := ToInt32(s * t.ctx + st.pos);
    h[META_SEQ_USED + r] := ToInt32(st.pos + 1);
    h[META_CACHE_IDX + r] := GdnSlotOf(s);
    h[META_CU + r] := r;
    h[META_SIDX + r] := GdnSlotOf(s);
    if any {
      WriteRope3(h, META_ROPE3 + r, |rows|, ToInt32(st.pos + if st.mrope then st.mropeDelta else 0));
    }
  }

  /** The t, h and w rows of one column. */
  method WriteRope3(h: array<int>, at: nat, n: nat, p: int)
    requires n > 0 && at + 2 * n < h.Length
    modifies h
    ensures forall i :: 0 <= i < h.Length ==>
              h[i] == if i == at || i == at + n || i == at + 2 * n then p else old(h[i])
  {
    h[at] := p;
    h[at + n] := p;
    h[at + 2 * n] := p;
  }

  /** A row's write brings its own metadata, keeps every other row's, and stays inside the step's entries. */
  lemma RowWritten(t: Table, rows: seq<int>, tokens: seq<int>, any: bool, r: nat, h: seq<int>, h': seq<int>)
    requires r < |rows| <= MAX_SLOTS && |tokens| == |rows| && |h| == |h'| >= META_INTS
    requires forall q :: 0 <= q < |rows| ==> 0 <= rows[q] < |t.slots|
    requires forall i :: 0 <= i < |h| ==> h'[i] == Entry(h[i], i, t, rows, tokens, any, r)
    ensures RowMeta(h', t, rows, tokens, any, r)
    ensures forall k :: 0 <= k < r && RowMeta(h, t, rows, tokens, any, k) ==> RowMeta(h', t, rows, tokens, any, k)
    ensures forall i :: 0 <= i < |h| && !Written(i, |rows|, any) ==> h'[i] == h[i]
  {
    hide ToInt32;
    forall k | 0 <= k < r && RowMeta(h, t, rows, tokens, any, k) ensures RowMeta(h', t, rows, tokens, any, k) {
    }
  }

  /** The closing cu_seqlens entry disturbs no row. */
  lemma LastWritten(t: Table, rows: seq<int>, tokens: seq<int>, any: bool, before: seq<int>, was: seq<int>, h: seq<int>)
    requires |rows| <= MAX_SLOTS && |tokens| == |rows| && |h| == |was| == |before| >= META_INTS
    requires forall q :: 0 <= q < |rows| ==> 0 <= rows[q] < |t.slots|
    requires h == was[META_CU + |rows| := |rows|]
    requires forall k :: 0 <= k < |rows| ==> RowMeta(was, t, rows, tokens, any, k)
    requires forall i :: 0 <= i < |h| && !Written(i, |rows|, any) ==> was[i] == before[i]
    ensures StepMeta(h, before, t, rows, tokens, any)
  {
    hide ToInt32;
    forall k | 0 <= k < |rows| ensures RowMeta(h, t, rows, tokens, any, k) {
      assert RowMeta(was, t, rows, tokens, any, k);
    }
  }

  /** The int32 casts are harmless exactly when the whole cache can be addressed: with `slots` slots of `ctx` tokens every
      KV address and every sequence length of a legal step survives iff slots * ctx <= 2^31 and ctx < 2^31. */
  ghost predicate Fits(s: int, pos: int, ctx: int) {
    ToInt32(s * ctx + pos) == s * ctx + pos && ToInt32(pos + 1) == pos + 1
  }

  lemma Int32Exact(x: nat)
    ensures ToInt32(x) == x <==> x < 0x8000_0000
  {
  }

  lemma AddressesFitExactly(slots: nat, ctx: nat)
    requires slots >= 1 && ctx >= 1
    ensures (forall s, pos :: 0 <= s < slots && 0 <= pos < ctx ==> Fits(s, pos, ctx))
            <==> slots * ctx <= 0x8000_0000 && ctx < 0x8000_0000
  {
    hide ToInt32;
    assert (slots - 1) * ctx == slots * ctx - ctx;
    if slots * ctx <= 0x8000_0000 && ctx < 0x8000_0000 {
      forall s, pos | 0 <= s < slots && 0 <= pos < ctx ensures Fits(s, pos, ctx) {
        MulLe(s, slots - 1, ctx);
        Int32Exact(s * ctx + pos);
        Int32Exact(pos + 1);
      }
    } else {
      Int32Exact((slots - 1) * ctx + (ctx - 1));
      Int32Exact(ctx - 1 + 1);
      assert !Fits(slots - 1, ctx - 1, ctx);
    }
  }
}
