/**
 Runs of a batched Model: slots sharing one K/V cache, one GDN state array and one metadata array, against sequences
 decoded each on its own. The network is uninterpreted: the K/V row and the GDN state of a fed token are functions of
 the sequence's cached rows, its GDN state, the token and the rope position.
 */
module BatchRun {
  import opened Common
  import opened BatchPlan

  datatype Net<!K, !G> = Net(row: (seq<K>, G, int, int) -> K, state: (seq<K>, G, int, int) -> G)

  /** One sequence on its own. */
  datatype Sequence<K, G> = Sequence(rows: seq<K>, gdn: G, mrope: bool, mropeDelta: int)

  function Decode<K, G>(net: Net<K, G>, x: Sequence<K, G>, token: int): (x': Sequence<K, G>)
    ensures |x'.rows| == |x.rows| + 1
  {
    var rope := ToInt32(|x.rows| + if x.mrope then x.mropeDelta else 0);
    x.(rows := x.rows + [net.row(x.rows, x.gdn, token, rope)], gdn := net.state(x.rows, x.gdn, token, rope))
  }

  // ---- the device, driven by the metadata array alone -----------------------------------------------------

  datatype Device<K, G> = Device(kv: seq<K>, gdn: seq<G>)

  /** Row r of a step: reads the slot's rows below its KV slot mapping, writes one row there, and steps the GDN line. */
  function DeviceRow<K, G>(net: Net<K, G>, d: Device<K, G>, h: seq<int>, any: bool, r: nat): (d': Device<K, G>)
    requires |h| >= META_INTS && r < MAX_SLOTS
    ensures |d'.kv| == |d.kv| && |d'.gdn| == |d.gdn|
  {
    var at, used := h[META_SLOT_MAP + r], h[META_SEQ_USED + r];
    var line, out := h[META_CACHE_IDX + r], h[META_SIDX + r];
    var token, rope := h[META_IDS + r], if any then h[META_ROPE3 + r] else h[META_ROPE_POS + r];
    if 1 <= used <= at + 1 && at < |d.kv| && 0 <= line < |d.gdn| && 0 <= out < |d.gdn| then
      var cached := d.kv[at - (used - 1)..at];
      Device(d.kv[at := net.row(cached, d.gdn[line], token, rope)],
             d.gdn[out := net.state(cached, d.gdn[line], token, rope)])
    else d
  }

  function DeviceRows<K, G>(net: Net<K, G>, d: Device<K, G>, h: seq<int>, any: bool, k: nat): (d': Device<K, G>)
    requires |h| >= META_INTS && k <= MAX_SLOTS
    ensures |d'.kv| == |d.kv| && |d'.gdn| == |d.gdn|
  {
    if k == 0 then d else DeviceRow(net, DeviceRows(net, d, h, any, k - 1), h, any, k - 1)
  }

  // ---- batch and its view of a slot ----------------------------------------------------------------------------

  datatype Batch<K, G> = Batch(table: Table, dev: Device<K, G>)

  /** Start of slot s's region; proofs hide the product. */
  function Base(ctx: int, s: int): int { s * ctx }

  /** Every slot's region is addressable by the int32 metadata (`AddressesFitExactly`). */
  ghost predicate Sized<K, G>(t: Table, d: Device<K, G>) {
    && t.Valid() && t.InBounds()
    && |d.kv| == Base(t.ctx, |t.slots|) && |d.gdn| == |t.slots| + 1
    && Base(t.ctx, |t.slots|) <= 0x8000_0000 && t.ctx < 0x8000_0000
  }

  lemma SlotRegion(slots: nat, ctx: nat, s: nat, p: nat)
    requires s < slots && p <= ctx
    ensures 0 <= s * ctx && s * ctx + p <= slots * ctx
  {
    MulLe(s + 1, slots, ctx);
    assert (s + 1) * ctx == s * ctx + ctx;
  }

  lemma RegionsApart(ctx: nat, s: nat, t: nat)
    requires s != t
    ensures s * ctx + ctx <= t * ctx || t * ctx + ctx <= s * ctx
  {
    assert (s + 1) * ctx == s * ctx + ctx && (t + 1) * ctx == t * ctx + ctx;
    if s < t { MulLe(s + 1, t, ctx); } else { MulLe(t + 1, s, ctx); }
  }

  /** What slot s holds. */
  function View<K, G>(t: Table, d: Device<K, G>, s: nat): (x: Sequence<K, G>)
    requires t.Valid() && s < |t.slots| && |d.kv| == Base(t.ctx, |t.slots|) && |d.gdn| == |t.slots| + 1
    requires 0 <= t.slots[s].pos <= t.ctx
    ensures |x.rows| == t.slots[s].pos
  {
    BaseApart(t, s, s);
    Sequence(d.kv[Base(t.ctx, s)..Base(t.ctx, s) + t.slots[s].pos], d.gdn[GdnSlotOf(s)],
             t.slots[s].mrope, t.slots[s].mropeDelta)
  }

  /** What the device reads for row r: the slot's own address, length, line and rope position, exactly. */
  lemma RowReads(t: Table, h: seq<int>, rows: seq<int>, tokens: seq<int>, any: bool, r: nat)
    requires t.Valid() && t.InBounds() && Base(t.ctx, |t.slots|) <= 0x8000_0000 && t.ctx < 0x8000_0000
    requires LegalStep(t, rows) && |tokens| == |rows| && r < |rows| && |h| >= META_INTS
    requires any == AnyMrope(t, rows) && RowMeta(h, t, rows, tokens, any, r)
    ensures var s := rows[r];
            var st := t.slots[s];
            && h[META_SLOT_MAP + r] == Base(t.ctx, s) + st.pos
            && h[META_SEQ_USED + r] == st.pos + 1
            && h[META_CACHE_IDX + r] == h[META_SIDX + r] == GdnSlotOf(s)
            && h[META_IDS + r] == tokens[r]
            && (if any then h[META_ROPE3 + r] else h[META_ROPE_POS + r])
               == ToInt32(st.pos + if st.mrope then st.mropeDelta else 0)
  {
    hide ToInt32;
    var s := rows[r];
    SlotRegion(|t.slots|, t.ctx, s, t.ctx);
    Int32Exact(s * t.ctx + t.slots[s].pos);
    Int32Exact(t.slots[s].pos + 1);
  }

  /** A row of a legal step does to its own slot's region and line what decoding that sequence alone does, and touches
      nothing else. */
  lemma RowDecodes<K, G>(net: Net<K, G>, t: Table, d: Device<K, G>, h: seq<int>, rows: seq<int>, tokens: seq<int>, r: nat)
    requires Sized(t, d) && LegalStep(t, rows) && |tokens| == |rows| && r < |rows| && |h| >= META_INTS
    requires RowMeta(h, t, rows, tokens, AnyMrope(t, rows), r)
    ensures var s := rows[r];
            var x := View(t, d, s);
            var x' := Decode(net, x, tokens[r]);
            var at := Base(t.ctx, s) + t.slots[s].pos;
            && 0 <= at < |d.kv|
            && DeviceRow(net, d, h, AnyMrope(t, rows), r)
               == Device(d.kv[at := x'.rows[|x.rows|]], d.gdn[GdnSlotOf(s) := x'.gdn])
  {
    hide ToInt32, RowMeta, AnyMrope, Base;
    RowReads(t, h, rows, tokens, AnyMrope(t, rows), r);
    assert t.slots[rows[r]].active;
    BaseApart(t, rows[r], rows[r]);
  }

  /** After the first k rows: cached rows and lines of the slots not yet stepped are as before, and each stepped slot has
      its new row and state. */
  ghost predicate SteppedTo<K, G>(net: Net<K, G>, t: Table, d: Device<K, G>, e: Device<K, G>, rows: seq<int>,
                                  tokens: seq<int>, k: nat)
    requires Sized(t, d) && |e.kv| == |d.kv| && |e.gdn| == |d.gdn| && LegalStep(t, rows)
    requires |tokens| == |rows| && k <= |rows|
  {
    && (forall s: nat {:trigger View(t, e, s)} :: s < |t.slots| && t.slots[s].active ==>
          && View(t, e, s).rows == View(t, d, s).rows
          && (s !in rows[..k] ==> View(t, e, s).gdn == View(t, d, s).gdn))
    && (forall r: nat {:trigger rows[r]} :: r < k ==>
          var s := rows[r];
          var x' := Decode(net, View(t, d, s), tokens[r]);
          && e.gdn[GdnSlotOf(s)] == x'.gdn
          && 0 <= Base(t.ctx, s) + t.slots[s].pos < |e.kv|
          && e.kv[Base(t.ctx, s) + t.slots[s].pos] == x'.rows[t.slots[s].pos])
  }

  lemma OneRow<K, G>(net: Net<K, G>, t: Table, d: Device<K, G>, e: Device<K, G>, h: seq<int>, rows: seq<int>,
                     tokens: seq<int>, k: nat)
    requires Sized(t, d) && |e.kv| == |d.kv| && |e.gdn| == |d.gdn| && LegalStep(t, rows)
    requires |tokens| == |rows| && k < |rows| && |h| >= META_INTS
    requires RowMeta(h, t, rows, tokens, AnyMrope(t, rows), k)
    requires SteppedTo(net, t, d, e, rows, tokens, k)
    ensures SteppedTo(net, t, d, DeviceRow(net, e, h, AnyMrope(t, rows), k), rows, tokens, k + 1)
  {
    hide RowMeta, DeviceRow, Base, AnyMrope;
    var s := rows[k];
    RowDecodes(net, t, e, h, rows, tokens, k);
    assert s !in rows[..k];
    assert View(t, e, s) == View(t, d, s);
    StoreRow(net, t, d, e, rows, tokens, k);
  }

  /** Storing a row past slot s's own rows changes no slot's cached rows, and only slot s's line. */
  lemma ViewAfterStore<K, G>(t: Table, e: Device<K, G>, s: nat, u: nat, row: K, line: G)
    requires t.Valid() && t.InBounds() && s < |t.slots| && u < |t.slots|
    requires |e.kv| == Base(t.ctx, |t.slots|) && |e.gdn| == |t.slots| + 1
    requires t.slots[s].active && t.slots[s].pos < t.ctx && t.slots[u].active
    ensures 0 <= Base(t.ctx, s) + t.slots[s].pos < |e.kv|
    ensures var e' := Device(e.kv[Base(t.ctx, s) + t.slots[s].pos := row], e.gdn[GdnSlotOf(s) := line]);
            && View(t, e', u).rows == View(t, e, u).rows
            && (u != s ==> View(t, e', u).gdn == View(t, e, u).gdn)
  {
    hide Base;
    BaseApart(t, s, u);
  }

  /** The device with slot rows[k]'s decoded row and line stored. */
  ghost function Stored<K, G>(net: Net<K, G>, t: Table, d: Device<K, G>, e: Device<K, G>, rows: seq<int>,
                              tokens: seq<int>, k: nat): (e': Device<K, G>)
    requires Sized(t, d) && |e.kv| == |d.kv| && |e.gdn| == |d.gdn| && LegalStep(t, rows)
    requires |tokens| == |rows| && k < |rows|
    ensures |e'.kv| == |e.kv| && |e'.gdn| == |e.gdn|
  {
    var s := rows[k];
    assert t.slots[s].active;
    BaseApart(t, s, s);
    var x' := Decode(net, View(t, d, s), tokens[k]);
    Device(e.kv[Base(t.ctx, s) + t.slots[s].pos := x'.rows[t.slots[s].pos]], e.gdn[GdnSlotOf(s) := x'.gdn])
  }

  lemma StoreRow<K, G>(net: Net<K, G>, t: Table, d: Device<K, G>, e: Device<K, G>, rows: seq<int>, tokens: seq<int>, k: nat)
    requires Sized(t, d) && |e.kv| == |d.kv| && |e.gdn| == |d.gdn| && LegalStep(t, rows)
    requires |tokens| == |rows| && k < |rows| && SteppedTo(net, t, d, e, rows, tokens, k)
    ensures SteppedTo(net, t, d, Stored(net, t, d, e, rows, tokens, k), rows, tokens, k + 1)
  {
    hide Base, View, ToInt32, Decode;
    var s := rows[k];
    var e' := Stored(net, t, d, e, rows, tokens, k);
    assert t.slots[s].active;
    assert rows[..k + 1] == rows[..k] + [s];
    var x' := Decode(net, View(t, d, s), tokens[k]);
    forall u: nat | u < |t.slots| && t.slots[u].active
      ensures View(t, e', u).rows == View(t, d, u).rows
      ensures u !in rows[..k + 1] ==> View(t, e', u).gdn == View(t, d, u).gdn
    {
      assert View(t, e, u).rows == View(t, d, u).rows;
      ViewAfterStore(t, e, s, u, x'.rows[t.slots[s].pos], x'.gdn);
    }
    forall r: nat | r < k + 1
      ensures var u := rows[r];
              var y := Decode(net, View(t, d, u), tokens[r]);
              && e'.gdn[GdnSlotOf(u)] == y.gdn
              && 0 <= Base(t.ctx, u) + t.slots[u].pos < |e'.kv|
              && e'.kv[Base(t.ctx, u) + t.slots[u].pos] == y.rows[t.slots[u].pos]
    {
      BaseApart(t, s, rows[r]);
      assert t.slots[rows[r]].active;
    }
  }

  lemma BaseApart(t: Table, s: nat, u: nat)
    requires t.Valid() && s < |t.slots| && u < |t.slots|
    ensures 0 <= Base(t.ctx, s) && Base(t.ctx, s) + t.ctx <= Base(t.ctx, |t.slots|)
    ensures 0 <= Base(t.ctx, u) && Base(t.ctx, u) + t.ctx <= Base(t.ctx, |t.slots|)
    ensures s == u || Base(t.ctx, s) + t.ctx <= Base(t.ctx, u) || Base(t.ctx, u) + t.ctx <= Base(t.ctx, s)
  {
    SlotRegion(|t.slots|, t.ctx, s, t.ctx);
    SlotRegion(|t.slots|, t.ctx, u, t.ctx);
    if s != u { RegionsApart(t.ctx, s, u); }
  }

  lemma {:induction false} RowsStep<K, G>(net: Net<K, G>, t: Table, d: Device<K, G>, h: seq<int>, rows: seq<int>,
                                          tokens: seq<int>, k: nat)
    requires Sized(t, d) && LegalStep(t, rows) && |tokens| == |rows| && k <= |rows| && |h| >= META_INTS
    requires StepMeta(h, h, t, rows, tokens, AnyMrope(t, rows))
    ensures SteppedTo(net, t, d, DeviceRows(net, d, h, AnyMrope(t, rows), k), rows, tokens, k)
  {
    hide RowMeta, DeviceRow, AnyMrope, View, Decode;
    if k > 0 {
      RowsStep(net, t, d, h, rows, tokens, k - 1);
      OneRow(net, t, d, DeviceRows(net, d, h, AnyMrope(t, rows), k - 1), h, rows, tokens, k - 1);
    }
  }

  // ---- a step ------------------------------------------------------------------------------------------------

  function AdvanceAll(t: Table, rows: seq<int>, k: nat): (t': Table)
    requires k <= |rows| && forall r :: 0 <= r < |rows| ==> 0 <= rows[r] < |t.slots|
    ensures |t'.slots| == |t.slots| && t'.ctx == t.ctx
  {
    if k == 0 then t
    else
      var u, s := AdvanceAll(t, rows, k - 1), rows[k - 1];
      u.(slots := u.slots[s := u.slots[s].(pos := u.slots[s].pos + 1)])
  }

  lemma {:induction false} AdvancedSlots(t: Table, rows: seq<int>, k: nat, s: nat)
    requires LegalStep(t, rows) && k <= |rows| && s < |t.slots|
    ensures AdvanceAll(t, rows, k).slots[s]
            == if s in rows[..k] then t.slots[s].(pos := t.slots[s].pos + 1) else t.slots[s]
  {
    if k > 0 {
      AdvancedSlots(t, rows, k - 1, s);
      assert rows[..k] == rows[..k - 1] + [rows[k - 1]];
    }
  }

  /** The row of slot s in a step. */
  ghost function RowOf(rows: seq<int>, s: int): (r: nat)
    requires s in rows
    ensures r < |rows| && rows[r] == s
  {
    var r: nat :| r < |rows| && rows[r] == s;
    r
  }

  /** A legal step, run from the metadata FillStepMeta writes: every slot in it has decoded its token exactly as it would
      have alone, every other slot is as before, and no slot holds more than ctx tokens. */
  lemma StepIsIndependent<K, G>(net: Net<K, G>, t: Table, d: Device<K, G>, h: seq<int>, rows: seq<int>, tokens: seq<int>)
    requires Sized(t, d) && LegalStep(t, rows) && |tokens| == |rows| && |h| >= META_INTS
    requires StepMeta(h, h, t, rows, tokens, AnyMrope(t, rows))
    ensures var t' := AdvanceAll(t, rows, |rows|);
            var e := DeviceRows(net, d, h, AnyMrope(t, rows), |rows|);
            && Sized(t', e)
            && forall s: nat :: s < |t.slots| && t.slots[s].active ==>
                 && t'.slots[s].active
                 && View(t', e, s) == if s in rows then Decode(net, View(t, d, s), tokens[RowOf(rows, s)]) else View(t, d, s)
  {
    hide RowMeta, DeviceRow, DeviceRows, Base, ToInt32, AnyMrope, AdvanceAll;
    var t' := AdvanceAll(t, rows, |rows|);
    var e := DeviceRows(net, d, h, AnyMrope(t, rows), |rows|);
    RowsStep(net, t, d, h, rows, tokens, |rows|);
    assert rows[..|rows|] == rows;
    forall s: nat | s < |t.slots|
      ensures t'.slots[s] == if s in rows then t.slots[s].(pos := t.slots[s].pos + 1) else t.slots[s]
    {
      AdvancedSlots(t, rows, |rows|, s);
    }
    forall s: nat | s < |t.slots| && t.slots[s].active
      ensures View(t', e, s) == if s in rows then Decode(net, View(t, d, s), tokens[RowOf(rows, s)]) else View(t, d, s)
    {
      assert View(t, e, s).rows == View(t, d, s).rows;
      if s in rows {
        var r := RowOf(rows, s);
        assert rows[r] == s;
        BaseApart(t, s, s);
        ViewGrows(t, t', e, s);
      }
    }
  }

  lemma ViewGrows<K, G>(t: Table, t': Table, e: Device<K, G>, s: nat)
    requires t.Valid() && s < |t.slots| && |e.kv| == Base(t.ctx, |t.slots|) && |e.gdn| == |t.slots| + 1
    requires 0 <= t.slots[s].pos < t.ctx
    requires |t'.slots| == |t.slots| && t'.ctx == t.ctx && t'.slots[s] == t.slots[s].(pos := t.slots[s].pos + 1)
    ensures 0 <= Base(t.ctx, s) + t.slots[s].pos < |e.kv|
    ensures View(t', e, s).rows == View(t, e, s).rows + [e.kv[Base(t.ctx, s) + t.slots[s].pos]]
    ensures View(t', e, s) == View(t, e, s).(rows := View(t', e, s).rows)
  {
    BaseApart(t, s, s);
  }

  // ---- runs ------------------------------------------------------------------------------------------------------

  /** `Import`: BatchImport of a prompt (`pad`: the rest of its last cache block, copied with it). `Step`: DecodeBatch from
      the metadata array `h`. `FailedImport`: a BatchImport that threw with some layers copied, anything left in the slot's
      rows and GDN line, the slot released. `FailedStep`: a DecodeBatch that threw midway, each row's new cache row and GDN
      line left with anything, its slots released. */
  datatype BatchOp<K, G> =
    | Import(slot: int, prompt: Sequence<K, G>, pad: seq<K>)
    | FailedImport(slot: int, kvJunk: seq<K>, gdnJunk: G)
    | Release(slot: int)
    | Step(rows: seq<int>, tokens: seq<int>, h: seq<int>)
    | FailedStep(rows: seq<int>, rowJunk: seq<K>, lineJunk: seq<G>)

  ghost predicate Taken<K, G>(t: Table, op: BatchOp<K, G>) {
    match op
    case Import(slot, prompt, pad) =>
      0 <= slot < |t.slots| && 1 <= |prompt.rows| < t.ctx && |prompt.rows| + |pad| <= t.ctx
    case FailedImport(slot, kvJunk, gdnJunk) => 0 <= slot < |t.slots| && |kvJunk| <= t.ctx
    case Release(slot) => 0 <= slot < |t.slots|
    case Step(rows, tokens, h) => LegalStep(t, rows) && |tokens| == |rows|
    case FailedStep(rows, kvJunk, gdnJunk) => LegalStep(t, rows) && |kvJunk| == |gdnJunk| == |rows|
  }

  /** A taken step carries the metadata FillStepMeta writes for the current table. */
  ghost predicate Faithful<K, G>(t: Table, op: BatchOp<K, G>)
    requires t.Valid()
  {
    op.Step? && Taken(t, op) ==> |op.h| >= META_INTS && StepMeta(op.h, op.h, t, op.rows, op.tokens, AnyMrope(t, op.rows))
  }

  function ReleaseAll(t: Table, rows: seq<int>): (t': Table)
    ensures |t'.slots| == |t.slots| && t'.ctx == t.ctx
  {
    t.(slots := seq(|t.slots|, s requires 0 <= s < |t.slots| => if s in rows then FREE else t.slots[s]))
  }

  /** What a step that died may have left: junk in the rows it was to write. */
  function Junk<K, G>(t: Table, d: Device<K, G>, rows: seq<int>, kvJunk: seq<K>, gdnJunk: seq<G>, k: nat): (d': Device<K, G>)
    requires k <= |rows| && |kvJunk| == |gdnJunk| == |rows| && |d.gdn| == |t.slots| + 1
    requires forall r :: 0 <= r < |rows| ==> 0 <= rows[r] < |t.slots|
    ensures |d'.kv| == |d.kv| && |d'.gdn| == |d.gdn|
  {
    if k == 0 then d
    else
      var e, s := Junk(t, d, rows, kvJunk, gdnJunk, k - 1), rows[k - 1];
      var at := Base(t.ctx, s) + t.slots[s].pos;
      Device(if 0 <= at < |e.kv| then e.kv[at := kvJunk[k - 1]] else e.kv, e.gdn[GdnSlotOf(s) := gdnJunk[k - 1]])
  }

  /** One public call; a refused one changes nothing. */
  ghost function Next<K, G>(net: Net<K, G>, b: Batch<K, G>, op: BatchOp<K, G>): (b': Batch<K, G>)
    requires Sized(b.table, b.dev) && Faithful(b.table, op)
  {
    if !Taken(b.table, op) then b
    else match op
      case Import(slot, prompt, pad) =>
        BaseApart(b.table, slot, slot);
        Batch(b.table.(slots := b.table.slots[slot := SlotState(true, |prompt.rows|, prompt.mrope, prompt.mropeDelta)]),
              Device(Splice(b.dev.kv, Base(b.table.ctx, slot), prompt.rows + pad),
                     b.dev.gdn[GdnSlotOf(slot) := prompt.gdn]))
      case FailedImport(slot, kvJunk, gdnJunk) =>
        BaseApart(b.table, slot, slot);
        Batch(b.table.(slots := b.table.slots[slot := FREE]),
              Device(Splice(b.dev.kv, Base(b.table.ctx, slot), kvJunk), b.dev.gdn[GdnSlotOf(slot) := gdnJunk]))
      case Release(slot) => Batch(b.table.(slots := b.table.slots[slot := FREE]), b.dev)
      case Step(rows, tokens, h) =>
        Batch(AdvanceAll(b.table, rows, |rows|), DeviceRows(net, b.dev, h, AnyMrope(b.table, rows), |rows|))
      case FailedStep(rows, kvJunk, gdnJunk) =>
        Batch(ReleaseAll(b.table, rows), Junk(b.table, b.dev, rows, kvJunk, gdnJunk, |rows|))
  }

  /** Slot s alone: the call's effect on the one sequence it may hold. */
  ghost function NextAlone<K, G>(net: Net<K, G>, t: Table, x: Option<Sequence<K, G>>, s: nat, op: BatchOp<K, G>)
    : (x': Option<Sequence<K, G>>)
  {
    if !Taken(t, op) then x
    else match op
      case Import(slot, prompt, _) => if slot == s then Some(prompt) else x
      case FailedImport(slot, _, _) => if slot == s then None else x
      case Release(slot) => if slot == s then None else x
      case Step(rows, tokens, _) => if s in rows && x.Some? then Some(Decode(net, x.value, tokens[RowOf(rows, s)])) else x
      case FailedStep(rows, _, _) => if s in rows then None else x
  }

  /** Slot s of the batch is the sequence `x`. */
  ghost predicate Holds<K, G>(b: Batch<K, G>, s: nat, x: Option<Sequence<K, G>>)
    requires Sized(b.table, b.dev) && s < |b.table.slots|
  {
    if b.table.slots[s].active then x == Some(View(b.table, b.dev, s)) else x == None
  }

  lemma {:induction false} JunkStaysOwn<K, G>(t: Table, d: Device<K, G>, rows: seq<int>, kvJunk: seq<K>,
                                              gdnJunk: seq<G>, k: nat, s: nat)
    requires Sized(t, d) && LegalStep(t, rows) && |kvJunk| == |gdnJunk| == |rows| && k <= |rows|
    requires s < |t.slots| && t.slots[s].active && s !in rows
    ensures View(t, Junk(t, d, rows, kvJunk, gdnJunk, k), s) == View(t, d, s)
  {
    hide Base;
    if k > 0 {
      JunkStaysOwn(t, d, rows, kvJunk, gdnJunk, k - 1, s);
      BaseApart(t, rows[k - 1], s);
    }
  }

  lemma SplicedFront<T>(dst: seq<T>, at: nat, a: seq<T>, b: seq<T>)
    requires at + |a| + |b| <= |dst|
    ensures Splice(dst, at, a + b)[at..at + |a|] == a
  {
  }

  lemma ImportHolds<K, G>(net: Net<K, G>, b: Batch<K, G>, slot: int, prompt: Sequence<K, G>, pad: seq<K>, s: nat,
                          x: Option<Sequence<K, G>>)
    requires Sized(b.table, b.dev) && s < |b.table.slots| && Holds(b, s, x)
    requires Taken(b.table, Import(slot, prompt, pad))
    ensures var b' := Next(net, b, Import(slot, prompt, pad));
            && Sized(b'.table, b'.dev) && |b'.table.slots| == |b.table.slots|
            && Holds(b', s, if slot == s then Some(prompt) else x)
  {
    hide Base;
    BaseApart(b.table, slot, s);
    var b' := Next(net, b, Import(slot, prompt, pad));
    if slot == s {
      SplicedFront(b.dev.kv, Base(b.table.ctx, slot), prompt.rows, pad);
    } else if b.table.slots[s].active {
      assert View(b'.table, b'.dev, s).rows == View(b.table, b.dev, s).rows;
    }
  }

  lemma FailedImportHolds<K, G>(net: Net<K, G>, b: Batch<K, G>, slot: int, kvJunk: seq<K>, gdnJunk: G, s: nat,
                                x: Option<Sequence<K, G>>)
    requires Sized(b.table, b.dev) && s < |b.table.slots| && Holds(b, s, x)
    requires Taken(b.table, FailedImport(slot, kvJunk, gdnJunk))
    ensures var b' := Next(net, b, FailedImport(slot, kvJunk, gdnJunk));
            && Sized(b'.table, b'.dev) && |b'.table.slots| == |b.table.slots|
            && Holds(b', s, if slot == s then None else x)
  {
    hide Base;
    BaseApart(b.table, slot, s);
    var b' := Next(net, b, FailedImport(slot, kvJunk, gdnJunk));
    if slot != s && b.table.slots[s].active {
      assert View(b'.table, b'.dev, s).rows == View(b.table, b.dev, s).rows;
    }
  }

  /** Slot by slot, a batch call is the call each sequence would have seen alone. */
  lemma NextHolds<K, G>(net: Net<K, G>, b: Batch<K, G>, op: BatchOp<K, G>, s: nat, x: Option<Sequence<K, G>>)
    requires Sized(b.table, b.dev) && Faithful(b.table, op) && s < |b.table.slots| && Holds(b, s, x)
    ensures var b' := Next(net, b, op);
            && Sized(b'.table, b'.dev) && |b'.table.slots| == |b.table.slots|
            && Holds(b', s, NextAlone(net, b.table, x, s, op))
  {
    hide Base, DeviceRows, AdvanceAll, Junk, Decode, AnyMrope, StepMeta;
    if Taken(b.table, op) {
      match op
      case Import(slot, prompt, pad) => ImportHolds(net, b, slot, prompt, pad, s, x);
      case FailedImport(slot, kvJunk, gdnJunk) => FailedImportHolds(net, b, slot, kvJunk, gdnJunk, s, x);
      case Release(slot) =>
      case Step(rows, tokens, h) =>
        StepIsIndependent(net, b.table, b.dev, h, rows, tokens);
        if !b.table.slots[s].active {
          AdvancedSlots(b.table, rows, |rows|, s);
          assert rows[..|rows|] == rows;
        }
      case FailedStep(rows, kvJunk, gdnJunk) =>
        if s !in rows && b.table.slots[s].active {
          JunkStaysOwn(b.table, b.dev, rows, kvJunk, gdnJunk, |rows|, s);
        }
    }
  }

  /** What a call does to the slot table, and that a refused call does nothing at all. */
  lemma CallsTaken<K, G>(net: Net<K, G>, b: Batch<K, G>, op: BatchOp<K, G>)
    requires Sized(b.table, b.dev) && Faithful(b.table, op)
    ensures var t := b.table; var b' := Next(net, b, op);
            && b'.table.ctx == t.ctx
            && match op
               case Import(slot, prompt, pad) =>
                 if 0 <= slot < |t.slots| && 1 <= |prompt.rows| < t.ctx && |prompt.rows| + |pad| <= t.ctx then
                   b'.table.slots == t.slots[slot := SlotState(true, |prompt.rows|, prompt.mrope, prompt.mropeDelta)]
                 else b' == b
               case FailedImport(slot, kvJunk, _) =>
                 if 0 <= slot < |t.slots| && |kvJunk| <= t.ctx then
                   b'.table.slots == t.slots[slot := SlotState(false, 0, false, 0)]
                 else b' == b
               case Release(slot) =>
                 if 0 <= slot < |t.slots| then
                   b'.table.slots == t.slots[slot := SlotState(false, 0, false, 0)] && b'.dev == b.dev
                 else b' == b
               case Step(rows, tokens, _) =>
                 if LegalStep(t, rows) && |tokens| == |rows| then
                   |b'.table.slots| == |t.slots|
                   && forall s :: 0 <= s < |t.slots| ==>
                        b'.table.slots[s] == if s in rows then t.slots[s].(pos := t.slots[s].pos + 1) else t.slots[s]
                 else b' == b
               case FailedStep(rows, kvJunk, gdnJunk) =>
                 if LegalStep(t, rows) && |kvJunk| == |gdnJunk| == |rows| then
                   |b'.table.slots| == |t.slots|
                   && forall s :: 0 <= s < |t.slots| ==>
                        b'.table.slots[s] == if s in rows then SlotState(false, 0, false, 0) else t.slots[s]
                 else b' == b
  {
    hide Base, DeviceRows, AdvanceAll, Junk, AnyMrope, StepMeta, Sized;
    if op.Step? && Taken(b.table, op) {
      assert op.rows[..|op.rows|] == op.rows;
      forall s: nat | s < |b.table.slots|
        ensures AdvanceAll(b.table, op.rows, |op.rows|).slots[s]
                == if s in op.rows then b.table.slots[s].(pos := b.table.slots[s].pos + 1) else b.table.slots[s] {
        AdvancedSlots(b.table, op.rows, |op.rows|, s);
      }
    }
  }

  /** Every step of the run carries the metadata filled for the table it meets. */
  ghost predicate FaithfulRun<K, G>(net: Net<K, G>, b: Batch<K, G>, ops: seq<BatchOp<K, G>>)
    requires Sized(b.table, b.dev)
  {
    if ops == [] then true
    else
      var c := Run(net, b, ops[..|ops| - 1]);
      FaithfulRun(net, b, ops[..|ops| - 1]) && (Sized(c.table, c.dev) ==> Faithful(c.table, ops[|ops| - 1]))
  }

  /** The batch after the calls, and slot s's sequence followed on its own. */
  ghost function Run<K, G>(net: Net<K, G>, b: Batch<K, G>, ops: seq<BatchOp<K, G>>): (b': Batch<K, G>)
    requires Sized(b.table, b.dev)
  {
    if ops == [] then b
    else
      var c := Run(net, b, ops[..|ops| - 1]);
      if Sized(c.table, c.dev) && Faithful(c.table, ops[|ops| - 1]) then Next(net, c, ops[|ops| - 1]) else c
  }

  ghost function RunAlone<K, G>(net: Net<K, G>, b: Batch<K, G>, x: Option<Sequence<K, G>>, s: nat, ops: seq<BatchOp<K, G>>)
    : (x': Option<Sequence<K, G>>)
    requires Sized(b.table, b.dev)
  {
    if ops == [] then x
    else NextAlone(net, Run(net, b, ops[..|ops| - 1]).table, RunAlone(net, b, x, s, ops[..|ops| - 1]), s, ops[|ops| - 1])
  }

  /** Over every run of imports, releases and steps, any of them failing midway: slots behave as independent sequences, and
      every live slot keeps 1 <= pos <= ctx. */
  lemma {:induction false} SlotsAreIndependent<K, G>(net: Net<K, G>, b: Batch<K, G>, ops: seq<BatchOp<K, G>>, s: nat,
                                                     x: Option<Sequence<K, G>>)
    requires Sized(b.table, b.dev) && FaithfulRun(net, b, ops) && s < |b.table.slots| && Holds(b, s, x)
    ensures var b' := Run(net, b, ops);
            && Sized(b'.table, b'.dev) && |b'.table.slots| == |b.table.slots|
            && Holds(b', s, RunAlone(net, b, x, s, ops))
  {
    hide Faithful, Next, NextAlone, Holds, Sized;
    if ops != [] {
      SlotsAreIndependent(net, b, ops[..|ops| - 1], s, x);
      NextHolds(net, Run(net, b, ops[..|ops| - 1]), ops[|ops| - 1], s, RunAlone(net, b, x, s, ops[..|ops| - 1]));
    }
  }
}
