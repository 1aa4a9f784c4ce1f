/**
 The drafter's injection state as the object it is: two flat stores of layers * slots rows, the frontiers, and the
 three calls that change them. Row encodings (the fc / k_proj / v_proj GEMMs, norms and rope) are uninterpreted: a
 layer's K row is a function of the layer, the feature row, the rope position and the number of rows in the call (the
 GEMM's M), its V row of all but the rope position.
 */
module DflashDraft {
  import opened Common
  import opened DflashRing

  datatype DraftError = TooManyRows | NotMonotonic | RewindOutside

  /** The ring write is one copy up to the end of the layer's region and one from its start; this is when the second
      one ends inside the region. */
  predicate OneWrapFits(slots: nat, start: nat, rows: nat)
    requires slots > 0
  {
    rows + Cell(start, slots) <= 2 * slots
  }

  /** The copies of a ring write that starts at cell `slot0`. */
  function CopiesAt<C>(cells: seq<C>, slot0: nat, rows: seq<C>): (r: seq<C>)
    requires slot0 < |cells| && |rows| + slot0 <= 2 * |cells|
    ensures |r| == |cells|
  {
    var n1 := Min(|rows|, |cells| - slot0);
    var first := Splice(cells, slot0, rows[..n1]);
    if |rows| - n1 > 0 then Splice(first, 0, rows[n1..]) else first
  }

  /** One layer's cells after the copies of the ring write. */
  function TwoCopies<C>(cells: seq<C>, start: nat, rows: seq<C>): (r: seq<C>)
    requires |cells| > 0 && OneWrapFits(|cells|, start, |rows|)
    ensures |r| == |cells|
  {
    CopiesAt(cells, Cell(start, |cells|), rows)
  }

  /** One more row is one more cell written. */
  lemma CopiesOneMore<C>(cells: seq<C>, slot0: nat, rows: seq<C>)
    requires slot0 < |cells| && |rows| + slot0 <= 2 * |cells| && rows != []
    ensures var last := |rows| - 1;
            var at := if slot0 + last < |cells| then slot0 + last else slot0 + last - |cells|;
            CopiesAt(cells, slot0, rows) == CopiesAt(cells, slot0, rows[..last])[at := rows[last]]
  {
    var last := |rows| - 1;
    var at := if slot0 + last < |cells| then slot0 + last else slot0 + last - |cells|;
    var a, b := CopiesAt(cells, slot0, rows), CopiesAt(cells, slot0, rows[..last]);
    forall i | 0 <= i < |cells| ensures a[i] == b[at := rows[last]][i] {}
  }

  lemma PutAllLast<C>(cells: seq<C>, start: nat, rows: seq<C>)
    requires |cells| > 0 && rows != []
    ensures var last := |rows| - 1;
            PutAll(cells, start, rows) == PutAll(cells, start, rows[..last])[Cell(start + last, |cells|) := rows[last]]
  {
    hide Cell;
  }

  /** The copies do what writing the rows one position at a time does, even when they overlap. */
  lemma {:induction false} TwoCopiesArePutAll<C>(cells: seq<C>, start: nat, rows: seq<C>)
    requires |cells| > 0 && OneWrapFits(|cells|, start, |rows|)
    ensures TwoCopies(cells, start, rows) == PutAll(cells, start, rows)
  {
    if rows == [] {
    } else {
      hide CopiesAt, Cell, PutAll;
      PutAllLast(cells, start, rows);
      var last := |rows| - 1;
      TwoCopiesArePutAll(cells, start, rows[..last]);
      CellAfter(start, last, |cells|);
      CopiesOneMore(cells, Cell(start, |cells|), rows);
    }
  }

  lemma CellAfter(start: nat, k: nat, slots: nat)
    requires slots > 0 && Cell(start, slots) + k < 2 * slots
    ensures var c := Cell(start, slots) + k; Cell(start + k, slots) == if c < slots then c else c - slots
  {
    var s0, q := start % slots, start / slots;
    assert start == slots * q + s0;
    if s0 + k < slots {
      DivModOf(start + k, slots, q, s0 + k);
    } else {
      assert slots * (q + 1) == slots * q + slots;
      DivModOf(start + k, slots, q + 1, s0 + k - slots);
    }
  }

  /** When the second copy leaves the layer's region, exactly; every start is safe exactly up to slots + 1 rows. The two
      bounds the loader checks (window in [1, 2048], rows per call in [1, 64]) do not imply it. */
  lemma OneWrapFitsExactly(slots: nat, rows: nat)
    requires slots > 0
    ensures forall start: nat :: OneWrapFits(slots, start, rows) <==>
              (var n1 := Min(rows, slots - Cell(start, slots)); rows - n1 <= slots)
    ensures (forall start: nat :: OneWrapFits(slots, start, rows)) <==> rows <= slots + 1
    ensures !OneWrapFits(1, 0, 64)
  {
    if rows > slots + 1 {
      assert (slots - 1) % slots == slots - 1;
      assert !OneWrapFits(slots, slots - 1, rows);
    }
  }

  // ---- a flat store of layers * slots cells ---------------------------------------------------------

  lemma {:induction false} RegionFits(il: nat, layers: nat, slots: nat)
    requires il < layers
    ensures il * slots + slots <= layers * slots
  {
    if il + 1 < layers { RegionFits(il, layers - 1, slots); }
    assert (layers - 1) * slots + slots == layers * slots;
  }

  function Region<C>(store: seq<C>, il: nat, layers: nat, slots: nat): (r: seq<C>)
    requires il < layers && |store| == layers * slots
    ensures |r| == slots
  {
    RegionFits(il, layers, slots);
    store[il * slots..il * slots + slots]
  }

  /** A copy that stays inside layer il's region is a copy into that region and touches no other layer. */
  lemma SpliceRegion<C>(store: seq<C>, il: nat, layers: nat, slots: nat, at: nat, src: seq<C>)
    requires il < layers && |store| == layers * slots && at + |src| <= slots
    ensures il * slots + at + |src| <= |store|
    ensures Region(Splice(store, il * slots + at, src), il, layers, slots)
            == Splice(Region(store, il, layers, slots), at, src)
    ensures forall j :: 0 <= j < layers && j != il ==>
              Region(Splice(store, il * slots + at, src), j, layers, slots) == Region(store, j, layers, slots)
  {
    hide Region, Splice;
    var base := il * slots;
    RegionIs(store, il, layers, slots, base);
    SpliceInside(store, base, slots, at, src);
    RegionIs(Splice(store, base + at, src), il, layers, slots, base);
    forall j | 0 <= j < layers && j != il
      ensures Region(Splice(store, base + at, src), j, layers, slots) == Region(store, j, layers, slots)
    {
      RegionKept(store, il, layers, slots, at, src, j, base);
    }
  }

  lemma RegionIs<C>(store: seq<C>, il: nat, layers: nat, slots: nat, base: nat)
    requires il < layers && |store| == layers * slots && base == il * slots
    ensures base + slots <= |store| && Region(store, il, layers, slots) == store[base..base + slots]
  {
    RegionFits(il, layers, slots);
  }

  lemma RegionKept<C>(store: seq<C>, il: nat, layers: nat, slots: nat, at: nat, src: seq<C>, j: nat, base: nat)
    requires il < layers && |store| == layers * slots && at + |src| <= slots && base == il * slots
    requires base + slots <= |store| && j < layers && j != il
    ensures Region(Splice(store, base + at, src), j, layers, slots) == Region(store, j, layers, slots)
  {
    hide Region, Splice;
    var b := j * slots;
    RegionIs(store, j, layers, slots, b);
    RegionIs(Splice(store, base + at, src), j, layers, slots, b);
    if j < il { RegionFits(j, il, slots); } else { RegionFits(il, j, slots); }
    SpliceApart(store, base, slots, at, src, b);
  }

  lemma SpliceInside<C>(store: seq<C>, base: nat, slots: nat, at: nat, src: seq<C>)
    requires base + slots <= |store| && at + |src| <= slots
    ensures Splice(store, base + at, src)[base..base + slots] == Splice(store[base..base + slots], at, src)
  {
  }

  lemma SpliceApart<C>(store: seq<C>, base: nat, slots: nat, at: nat, src: seq<C>, b: nat)
    requires base + slots <= |store| && at + |src| <= slots && b + slots <= |store|
    requires b + slots <= base || base + slots <= b
    ensures Splice(store, base + at, src)[b..b + slots] == store[b..b + slots]
  {
  }


  /** hipMemcpyAsync into a store, as the device runs it. */
  method CopyInto<C>(dst: array<C>, at: nat, src: seq<C>)
    requires at + |src| <= dst.Length
    modifies dst
    ensures dst[..] == Splice(old(dst[..]), at, src)
  {
    forall i | 0 <= i < |src| {
      dst[at + i] := src[i];
    }
  }

  /** What one layer's encoded rows are. `positions[t]` is row t's rope position. */
  datatype Encoder<!F, !C> = Encoder(key: (nat, F, int, nat) -> C, val: (nat, F, nat) -> C) {
    function KeyRows(il: nat, features: seq<F>, positions: seq<int>): (r: seq<C>)
      requires |positions| <= |features|
      ensures |r| == |positions|
    {
      seq(|positions|, t requires 0 <= t < |positions| => key(il, features[t], positions[t], |positions|))
    }

    function ValueRows(il: nat, features: seq<F>, rows: nat): (r: seq<C>)
      requires rows <= |features|
      ensures |r| == rows
    {
      seq(rows, t requires 0 <= t < rows => val(il, features[t], rows))
    }
  }

  /** Row t's rope position: the caller's temporal row, or the sequence position plus the conversation's delta, as the
      int32 the kernel takes. */
  function RopePositions(start: int, rows: nat, rope: Option<seq<int>>, delta: int): (r: seq<int>)
    requires rope.Some? ==> rows <= |rope.value|
    ensures |r| == rows
  {
    seq(rows, t requires 0 <= t < rows => if rope.Some? then rope.value[t] else ToInt32(start + t + delta))
  }

  /** In a flat store of `slots` cells a layer, layer il's cell of position p holds `c`. */
  ghost predicate CellHolds<C>(store: seq<C>, il: nat, slots: nat, p: nat, c: C)
    requires slots > 0
  {
    0 <= il * slots + p % slots < |store| && store[il * slots + p % slots] == c
  }

  /** In layer il of a flat K store: every row of the call still inside the ring is the layer's own encoding of its feature
      row at its rope position, in the cell of its sequence position. */
  ghost predicate KeysStored<F, C>(e: Encoder<F, C>, store: seq<C>, il: nat, slots: nat, features: seq<F>, start: nat,
                                   rows: nat, rope: Option<seq<int>>, delta: int)
    requires slots > 0 && rows <= |features| && (rope.Some? ==> rows <= |rope.value|)
  {
    forall t: nat {:trigger features[t]} :: t < rows && rows <= t + slots ==>
      CellHolds(store, il, slots, start + t,
                e.key(il, features[t], if rope.Some? then rope.value[t] else ToInt32(start + t + delta), rows))
  }

  /** The same in a V store; values carry no position. */
  ghost predicate ValuesStored<F, C>(e: Encoder<F, C>, store: seq<C>, il: nat, slots: nat, features: seq<F>, start: nat,
                                     rows: nat)
    requires slots > 0 && rows <= |features|
  {
    forall t: nat {:trigger features[t]} :: t < rows && rows <= t + slots ==>
      CellHolds(store, il, slots, start + t, e.val(il, features[t], rows))
  }

  lemma RowStored<C>(before: seq<C>, after: seq<C>, il: nat, layers: nat, slots: nat, start: nat, rows: seq<C>, t: nat)
    requires il < layers && |before| == |after| == layers * slots && slots > 0
    requires Region(after, il, layers, slots) == PutAll(Region(before, il, layers, slots), start, rows)
    requires t < |rows| && |rows| <= t + slots
    ensures CellHolds(after, il, slots, start + t, rows[t])
  {
    hide PutAll;
    RegionFits(il, layers, slots);
    PutAllWritten(Region(before, il, layers, slots), start, rows, t);
    assert Region(after, il, layers, slots)[Cell(start + t, slots)] == after[il * slots + Cell(start + t, slots)];
  }

  lemma KeysLand<F, C>(e: Encoder<F, C>, before: seq<C>, after: seq<C>, il: nat, layers: nat, slots: nat, features: seq<F>,
                       start: nat, rows: nat, rope: Option<seq<int>>, delta: int)
    requires il < layers && |before| == |after| == layers * slots && slots > 0
    requires rows <= |features| && (rope.Some? ==> rows <= |rope.value|)
    requires Region(after, il, layers, slots)
             == PutAll(Region(before, il, layers, slots), start, e.KeyRows(il, features, RopePositions(start, rows, rope, delta)))
    ensures KeysStored(e, after, il, slots, features, start, rows, rope, delta)
  {
    hide Region, PutAll, ToInt32, CellHolds;
    var own := e.KeyRows(il, features, RopePositions(start, rows, rope, delta));
    forall t: nat {:trigger features[t]} | t < rows && rows <= t + slots
      ensures CellHolds(after, il, slots, start + t,
                        e.key(il, features[t], if rope.Some? then rope.value[t] else ToInt32(start + t + delta), rows)) {
      RowStored(before, after, il, layers, slots, start, own, t);
      assert own[t] == e.key(il, features[t], RopePositions(start, rows, rope, delta)[t], rows);
    }
  }

  lemma ValuesLand<F, C>(e: Encoder<F, C>, before: seq<C>, after: seq<C>, il: nat, layers: nat, slots: nat, features: seq<F>,
                         start: nat, rows: nat)
    requires il < layers && |before| == |after| == layers * slots && slots > 0 && rows <= |features|
    requires Region(after, il, layers, slots)
             == PutAll(Region(before, il, layers, slots), start, e.ValueRows(il, features, rows))
    ensures ValuesStored(e, after, il, slots, features, start, rows)
  {
    hide Region, PutAll, CellHolds;
    var own := e.ValueRows(il, features, rows);
    forall t: nat {:trigger features[t]} | t < rows && rows <= t + slots
      ensures CellHolds(after, il, slots, start + t, e.val(il, features[t], rows)) {
      RowStored(before, after, il, layers, slots, start, own, t);
      assert own[t] == e.val(il, features[t], rows);
    }
  }

  class DflashDraft<F, C> {
    const layers: nat
    const slots: nat
    const maxInjectRows: nat
    const encoder: Encoder<F, C>
    const kStore: array<C>
    const vStore: array<C>
    var nInjected: int
    var validFrom: int
    var lastInjectRows: int
    var ropeDelta: int

    ghost predicate Valid()
      reads this
    {
      && 0 < slots <= 2048 && 0 < maxInjectRows <= 64
      && kStore != vStore
      && kStore.Length == layers * slots && vStore.Length == layers * slots
      && 0 <= validFrom <= nInjected
    }

    constructor (layers: nat, slidingWindow: nat, maxInjectRows: nat, encoder: Encoder<F, C>, zero: C)
      requires 0 < slidingWindow <= 2048 && 0 < maxInjectRows <= 64
      ensures Valid() && fresh(kStore) && fresh(vStore)
      ensures this.layers == layers && slots == slidingWindow && this.maxInjectRows == maxInjectRows
      ensures this.encoder == encoder
      ensures nInjected == 0 && validFrom == 0 && ropeDelta == 0 && lastInjectRows == 0
      ensures kStore[..] == vStore[..] == seq(layers * slidingWindow, _ => zero)
    {
      this.layers, this.slots, this.maxInjectRows := layers, slidingWindow, maxInjectRows;
      this.encoder := encoder;
      kStore := new C[layers * slidingWindow](_ => zero);
      vStore := new C[layers * slidingWindow](_ => zero);
      nInjected, validFrom, lastInjectRows, ropeDelta := 0, 0, 0, 0;
    }

    /** Layer il's K store with the frontiers, as the value `DflashRing` reasons about. */
    ghost function KeyRing(il: nat): (r: Ring<C>)
      requires Valid() && il < layers
      reads this, kStore
      ensures r.Valid() && |r.cells| == slots
    {
      Ring(nInjected, validFrom, Region(kStore[..], il, layers, slots))
    }

    ghost function ValueRing(il: nat): (r: Ring<C>)
      requires Valid() && il < layers
      reads this, vStore
      ensures r.Valid() && |r.cells| == slots
    {
      Ring(nInjected, validFrom, Region(vStore[..], il, layers, slots))
    }

    method Reset()
      requires Valid()
      modifies this`nInjected, this`validFrom
      ensures Valid() && nInjected == 0 && validFrom == 0
      ensures forall il :: 0 <= il < layers ==> KeyRing(il) == StepRing(old(KeyRing(il)), Op.Reset)
      ensures forall il :: 0 <= il < layers ==> ValueRing(il) == StepRing(old(ValueRing(il)), Op.Reset)
    {
      nInjected := 0;
      validFrom := 0;
    }

    method SetRopeDelta(delta: int)
      modifies this`ropeDelta
      ensures ropeDelta == delta
    {
      ropeDelta := delta;
    }

    method Rewind(n: int) returns (r: Result<(), DraftError>)
      requires Valid()
      modifies this`nInjected, this`validFrom
      ensures Valid()
      ensures r == if 0 <= n <= old(nInjected) then Success(()) else Failure(RewindOutside)
      ensures r.Success? ==> nInjected == n && validFrom == Min(n, Max(old(validFrom), old(nInjected) - slots))
      ensures forall il :: 0 <= il < layers ==> KeyRing(il) == StepRing(old(KeyRing(il)), Op.Rewind(n))
      ensures forall il :: 0 <= il < layers ==> ValueRing(il) == StepRing(old(ValueRing(il)), Op.Rewind(n))
    {
      if n < 0 || n > nInjected {
        return Failure(RewindOutside);
      }
      validFrom := Min(n, Max(validFrom, nInjected - slots));
      nInjected := n;
      return Success(());
    }

    /** The two copies of one layer's ring write. */
    method WriteLayer(store: array<C>, il: nat, rows: seq<C>, startPos: nat)
      requires Valid() && il < layers && store.Length == layers * slots && OneWrapFits(slots, startPos, |rows|)
      modifies store
      ensures Region(store[..], il, layers, slots) == PutAll(Region(old(store[..]), il, layers, slots), startPos, rows)
      ensures forall j :: 0 <= j < layers && j != il ==>
                Region(store[..], j, layers, slots) == Region(old(store[..]), j, layers, slots)
    {
      hide Region, PutAll;
      var dst := il * slots;
      var slot0 := Cell(startPos, slots);
      var n1 := Min(|rows|, slots - slot0);
      var n2 := |rows| - n1;
      ghost var before := store[..];
      SpliceRegion(store[..], il, layers, slots, slot0, rows[..n1]);
      CopyInto(store, dst + slot0, rows[..n1]);
      if n2 > 0 {
        SpliceRegion(store[..], il, layers, slots, 0, rows[n1..]);
        CopyInto(store, dst, rows[n1..]);
      }
      TwoCopiesArePutAll(Region(before, il, layers, slots), startPos, rows);
    }

    /** Every layer's K and V ring takes one `Inject` step with its own encoded rows, or nothing changes. */
    method InjectFeatures(features: seq<F>, rows: int, startPos: int, rope: Option<seq<int>>)
      returns (r: Result<(), DraftError>)
      requires Valid() && rows <= |features| && (rope.Some? ==> rows <= |rope.value|)
      requires 0 < rows <= maxInjectRows && startPos >= nInjected ==> OneWrapFits(slots, startPos, rows)
      modifies this, kStore, vStore
      ensures Valid() && ropeDelta == old(ropeDelta)
      ensures r == if rows <= 0 then Success(())
                   else if rows > maxInjectRows then Failure(TooManyRows)
                   else if startPos < old(nInjected) then Failure(NotMonotonic) else Success(())
      ensures r.Failure? || rows <= 0 ==>
                nInjected == old(nInjected) && validFrom == old(validFrom)
                && kStore[..] == old(kStore[..]) && vStore[..] == old(vStore[..])
      ensures r.Success? && rows > 0 ==>
                && nInjected == startPos + rows && lastInjectRows == rows
                && validFrom == if startPos > old(nInjected) then startPos else old(validFrom)
      ensures r.Success? && rows > 0 ==> forall il: nat :: il < layers ==>
                KeysStored(encoder, kStore[..], il, slots, features, startPos, rows, rope, ropeDelta)
      ensures r.Success? && rows > 0 ==> forall il: nat :: il < layers ==>
                ValuesStored(encoder, vStore[..], il, slots, features, startPos, rows)
      ensures r.Success? && rows > 0 ==> forall il :: 0 <= il < layers ==>
                KeyRing(il) == StepRing(old(KeyRing(il)),
                  Inject(startPos, encoder.KeyRows(il, features, RopePositions(startPos, rows, rope, ropeDelta))))
      ensures r.Success? && rows > 0 ==> forall il :: 0 <= il < layers ==>
                ValueRing(il) == StepRing(old(ValueRing(il)), Inject(startPos, encoder.ValueRows(il, features, rows)))
    {
      hide OneWrapFits, RopePositions, Region, PutAll, KeysStored, ValuesStored;
      if rows <= 0 {
        return Success(());
      }
      if rows > maxInjectRows {
        return Failure(TooManyRows);
      }
      if startPos < nInjected {
        return Failure(NotMonotonic);
      }
      if startPos > nInjected {
        validFrom := startPos;
        nInjected := startPos;
      }

      var ipos := RopePositions(startPos, rows, rope, ropeDelta);
      ghost var k0, v0 := kStore[..], vStore[..];
      for il := 0 to layers
        invariant Valid() && ropeDelta == old(ropeDelta)
        invariant nInjected == startPos && validFrom == if startPos > old(nInjected) then startPos else old(validFrom)
        invariant forall j :: 0 <= j < layers ==>
                    Region(kStore[..], j, layers, slots) ==
                    if j < il then PutAll(Region(k0, j, layers, slots), startPos, encoder.KeyRows(j, features, ipos))
                    else Region(k0, j, layers, slots)
        invariant forall j :: 0 <= j < layers ==>
                    Region(vStore[..], j, layers, slots) ==
                    if j < il then PutAll(Region(v0, j, layers, slots), startPos, encoder.ValueRows(j, features, rows))
                    else Region(v0, j, layers, slots)
      {
        WriteLayer(kStore, il, encoder.KeyRows(il, features, ipos), startPos);
        WriteLayer(vStore, il, encoder.ValueRows(il, features, rows), startPos);
      }
      forall il: nat | il < layers
        ensures KeysStored(encoder, kStore[..], il, slots, features, startPos, rows, rope, ropeDelta)
        ensures ValuesStored(encoder, vStore[..], il, slots, features, startPos, rows)
      {
        KeysLand(encoder, k0, kStore[..], il, layers, slots, features, startPos, rows, rope, ropeDelta);
        ValuesLand(encoder, v0, vStore[..], il, layers, slots, features, startPos, rows);
      }
      nInjected := startPos + rows;
      lastInjectRows := rows;
      return Success(());
    }
  }
}
