/** The injection loop of a rank: host feature rows, slice by slice, into a drafter. */
module DflashFeed {
  import opened Common
  import opened DflashRing
  import opened DflashDraft
  import opened DflashTail

  /** Layer il's encoded K rows of a slice of m positions from a on, given the feature row and rope position of every
      position of the conversation. */
  function KeysOf<F, C>(e: Encoder<F, C>, il: nat, feature: int -> F, rope: int -> int): (int, nat) -> seq<C> {
    (a: int, m: nat) => e.KeyRows(il, seq(m, i => feature(a + i)), seq(m, i => rope(a + i)))
  }

  function ValuesOf<F, C>(e: Encoder<F, C>, il: nat, feature: int -> F): (int, nat) -> seq<C> {
    (a: int, m: nat) => e.ValueRows(il, seq(m, i => feature(a + i)), m)
  }

  /** The host buffer holds, for rows [from, to) of the tail, the feature rows and rope positions of their positions. */
  ghost predicate Buffers<F>(host: seq<F>, from: int, to: int, startPos: int, ropeT: Option<seq<int>>, delta: int,
                             feature: int -> F, rope: int -> int)
  {
    && 0 <= from && to <= |host| && (ropeT.Some? ==> to <= |ropeT.value|)
    && forall p {:trigger feature(p)} {:trigger rope(p)} :: startPos + from <= p < startPos + to ==>
         && host[p - startPos] == feature(p)
         && rope(p) == if ropeT.Some? then ropeT.value[p - startPos] else ToInt32(p + delta)
  }

  /** A slice of the host buffer encodes as the slice's rows of the conversation. */
  lemma SliceEncodes<F, C>(e: Encoder<F, C>, il: nat, host: seq<F>, row0: nat, m: nat, startPos: int,
                           ropeT: Option<seq<int>>, delta: int, feature: int -> F, rope: int -> int)
    requires Buffers(host, row0, row0 + m, startPos, ropeT, delta, feature, rope)
    ensures var a, h := startPos + row0, host[row0..row0 + m];
            var rt := if ropeT.Some? then Some(ropeT.value[row0..row0 + m]) else None;
            && e.KeyRows(il, h, RopePositions(a, m, rt, delta)) == KeysOf(e, il, feature, rope)(a, m)
            && e.ValueRows(il, h, m) == ValuesOf(e, il, feature)(a, m)
  {
    hide Buffers, RopePositions;
    SliceFeatures(host, row0, m, startPos, ropeT, delta, feature, rope);
    SliceRope(host, row0, m, startPos, ropeT, delta, feature, rope);
  }

  lemma SliceFeatures<F>(host: seq<F>, row0: nat, m: nat, startPos: int, ropeT: Option<seq<int>>, delta: int,
                         feature: int -> F, rope: int -> int)
    requires Buffers(host, row0, row0 + m, startPos, ropeT, delta, feature, rope)
    ensures host[row0..row0 + m] == seq(m, i => feature(startPos + row0 + i))
  {
    hide ToInt32;
    var h := host[row0..row0 + m];
    forall i | 0 <= i < m ensures h[i] == feature(startPos + row0 + i) {
      var p := startPos + row0 + i;
      assert host[p - startPos] == feature(p);
    }
  }

  lemma SliceRope<F>(host: seq<F>, row0: nat, m: nat, startPos: int, ropeT: Option<seq<int>>, delta: int,
                     feature: int -> F, rope: int -> int)
    requires Buffers(host, row0, row0 + m, startPos, ropeT, delta, feature, rope)
    ensures RopePositions(startPos + row0, m, if ropeT.Some? then Some(ropeT.value[row0..row0 + m]) else None, delta)
            == seq(m, i => rope(startPos + row0 + i))
  {
    hide ToInt32;
    var rt := if ropeT.Some? then Some(ropeT.value[row0..row0 + m]) else None;
    var r := RopePositions(startPos + row0, m, rt, delta);
    forall i | 0 <= i < m ensures r[i] == rope(startPos + row0 + i) {
      var p := startPos + row0 + i;
      assert rope(p) == if ropeT.Some? then ropeT.value[p - startPos] else ToInt32(p + delta);
    }
  }

  lemma RunFirst<C>(r: Ring<C>, a: int, n: int, slice: int, enc: (int, nat) -> seq<C>)
    requires r.Valid() && slice >= 1 && a < n
    ensures var m := Min(slice, n - a);
            RunRing(r, Calls(a, n, slice, enc))
            == RunRing(StepRing(r, Inject(a, enc(a, m))), Calls(a + slice, n, slice, enc))
  {
    hide StepRing, PutAll, RunRing, Calls, SliceCalls, SlicesFrom;
    var first := Inject(a, enc(a, Min(slice, n - a)));
    CallsUnfold(a, n, slice, enc);
    RunAppend(r, Log(0, []), [first], Calls(a + slice, n, slice, enc));
    OneCall(r, Log(0, []), first);
  }

  lemma RunNone<C>(r: Ring<C>, a: int, n: int, slice: int, enc: (int, nat) -> seq<C>)
    requires r.Valid() && slice >= 1 && n <= a
    ensures RunRing(r, Calls(a, n, slice, enc)) == r
  {
    CallsNone(a, n, slice, enc);
  }

  /** One slice of the host buffer, copied to the staging buffer and injected. */
  method InjectSlice<F, C>(draft: DflashDraft<F, C>, host: seq<F>, row0: nat, m: nat, startPos: int,
      ropeT: Option<seq<int>>, ghost feature: int -> F, ghost rope: int -> int)
    returns (r: Result<(), DraftError>)
    requires draft.Valid() && 1 <= m
    requires m <= draft.maxInjectRows && startPos + row0 >= draft.nInjected ==> OneWrapFits(draft.slots, startPos + row0, m)
    requires Buffers(host, row0, row0 + m, startPos, ropeT, draft.ropeDelta, feature, rope)
    modifies draft, draft.kStore, draft.vStore
    ensures draft.Valid() && draft.ropeDelta == old(draft.ropeDelta)
    ensures r == if m > draft.maxInjectRows then Failure(TooManyRows)
                 else if startPos + row0 < old(draft.nInjected) then Failure(NotMonotonic) else Success(())
    ensures r.Success? ==> draft.nInjected == startPos + row0 + m
    ensures r.Failure? ==> Untouched(draft.nInjected, draft.validFrom, draft.kStore[..], draft.vStore[..],
                             old(draft.nInjected), old(draft.validFrom), old(draft.kStore[..]), old(draft.vStore[..]))
    ensures r.Success? ==> forall il :: 0 <= il < draft.layers ==>
              && draft.KeyRing(il) == StepRing(old(draft.KeyRing(il)),
                   Inject(startPos + row0, KeysOf(draft.encoder, il, feature, rope)(startPos + row0, m)))
              && draft.ValueRing(il) == StepRing(old(draft.ValueRing(il)),
                   Inject(startPos + row0, ValuesOf(draft.encoder, il, feature)(startPos + row0, m)))
  {
    hide StepRing, PutAll, Region;
    var h := host[row0..row0 + m];
    var rt := if ropeT.Some? then Some(ropeT.value[row0..row0 + m]) else None;
    forall il: nat | il < draft.layers
      ensures var a := startPos + row0;
              && draft.encoder.KeyRows(il, h, RopePositions(a, m, rt, draft.ropeDelta)) == KeysOf(draft.encoder, il, feature, rope)(a, m)
              && draft.encoder.ValueRows(il, h, m) == ValuesOf(draft.encoder, il, feature)(a, m)
    {
      SliceEncodes(draft.encoder, il, host, row0, m, startPos, ropeT, draft.ropeDelta, feature, rope);
    }
    r := draft.InjectFeatures(h, m, startPos + row0, rt);
  }

  ghost predicate Untouched<C>(n: int, v: int, ks: seq<C>, vs: seq<C>, n0: int, v0: int, ks0: seq<C>, vs0: seq<C>) {
    n == n0 && v == v0 && ks == ks0 && vs == vs0
  }

  /** Running the calls still to come from the current rings gives what the whole call list gives from the first ones. */
  ghost predicate OnCourse<C>(now: Ring<C>, first: Ring<C>, at: int, startPos: int, end: int, slice: int,
                              enc: (int, nat) -> seq<C>)
  {
    && slice >= 1 && now.Valid() && first.Valid()
    && RunRing(now, Calls(at, end, slice, enc)) == RunRing(first, Calls(startPos, end, slice, enc))
  }

  lemma SetsOff<C>(r: Ring<C>, startPos: int, end: int, slice: int, enc: (int, nat) -> seq<C>)
    requires slice >= 1 && r.Valid()
    ensures OnCourse(r, r, startPos, startPos, end, slice, enc)
  {
  }

  lemma StaysOnCourse<C>(now: Ring<C>, first: Ring<C>, at: int, startPos: int, end: int, slice: int,
                         enc: (int, nat) -> seq<C>)
    requires OnCourse(now, first, at, startPos, end, slice, enc) && at < end
    ensures OnCourse(StepRing(now, Inject(at, enc(at, Min(slice, end - at)))), first, at + slice, startPos, end, slice, enc)
  {
    hide RunRing, Calls, PutAll;
    RunFirst(now, at, end, slice, enc);
  }

  lemma Arrived<C>(now: Ring<C>, first: Ring<C>, at: int, startPos: int, end: int, slice: int, enc: (int, nat) -> seq<C>)
    requires OnCourse(now, first, at, startPos, end, slice, enc) && end <= at
    ensures now == RunRing(first, Calls(startPos, end, slice, enc))
  {
    RunNone(now, at, end, slice, enc);
  }

  datatype FeedError = BadSlices | Refused(error: DraftError)

  /** No slice's single wrap leaves the store, where the drafter takes the slice at all. */
  predicate SlicesFit(slots: nat, maxInjectRows: nat, startPos: nat, slices: seq<Span>)
    requires slots > 0
  {
    forall i :: 0 <= i < |slices| && slices[i].start >= 0 && 0 < slices[i].rows <= maxInjectRows ==>
      OneWrapFits(slots, startPos + slices[i].start, slices[i].rows)
  }

  lemma SliceReady<F>(slots: nat, maxInjectRows: nat, host: seq<F>, rows: int, startPos: int, ropeT: Option<seq<int>>,
                      delta: int, feature: int -> F, rope: int -> int, slice: int, i: nat, frontier: nat)
    requires slots > 0 && slice >= 1 && i < |SlicesFrom(0, rows, slice)|
    requires startPos >= frontier ==> SlicesFit(slots, maxInjectRows, startPos, SlicesFrom(0, rows, slice))
    requires Buffers(host, 0, rows, startPos, ropeT, delta, feature, rope)
    ensures var s := SlicesFrom(0, rows, slice)[i];
            && 1 <= s.rows <= Min(slice, rows) && 0 <= s.start <= rows - s.rows
            && Buffers(host, s.start, s.start + s.rows, startPos, ropeT, delta, feature, rope)
            && (s.rows <= maxInjectRows && startPos >= frontier ==> OneWrapFits(slots, startPos + s.start, s.rows))
  {
    hide SlicesFrom, OneWrapFits;
    SliceInside(0, rows, slice, i);
  }

  lemma {:induction false} SliceInside(r: int, rows: int, slice: int, i: nat)
    requires slice >= 1 && i < |SlicesFrom(r, rows, slice)|
    ensures var s := SlicesFrom(r, rows, slice)[i]; 1 <= s.rows <= Min(slice, rows - r) && r <= s.start <= rows - s.rows
    decreases i
  {
    if i > 0 { SliceInside(r + slice, rows, slice, i - 1); }
  }

  /** Every layer's ring ends where the calls of rows [startPos, startPos + rows) take it. */
  method InjectFeatureRowsFromHost<F, C>(draft: DflashDraft<F, C>, sliceRows: int, host: seq<F>, rows: int,
      startPos: int, ropeT: Option<seq<int>>, ghost feature: int -> F, ghost rope: int -> int)
    returns (r: Result<(), FeedError>)
    requires draft.Valid()
    requires sliceRows >= 1 && startPos >= draft.nInjected ==>
               SlicesFit(draft.slots, draft.maxInjectRows, startPos, SlicesFrom(0, rows, sliceRows))
    requires Buffers(host, 0, rows, startPos, ropeT, draft.ropeDelta, feature, rope)
    modifies draft, draft.kStore, draft.vStore
    ensures draft.Valid()
    ensures r == if rows <= 0 then Success(())
                 else if sliceRows < 1 then Failure(BadSlices)
                 else if Min(sliceRows, rows) > draft.maxInjectRows then Failure(Refused(TooManyRows))
                 else if startPos < old(draft.nInjected) then Failure(Refused(NotMonotonic)) else Success(())
    ensures r.Success? && rows > 0 ==> forall il :: 0 <= il < draft.layers ==>
              && draft.KeyRing(il) == RunRing(old(draft.KeyRing(il)),
                   Calls(startPos, startPos + rows, sliceRows, KeysOf(draft.encoder, il, feature, rope)))
              && draft.ValueRing(il) == RunRing(old(draft.ValueRing(il)),
                   Calls(startPos, startPos + rows, sliceRows, ValuesOf(draft.encoder, il, feature)))
    ensures r.Failure? ==> Untouched(draft.nInjected, draft.validFrom, draft.kStore[..], draft.vStore[..],
                             old(draft.nInjected), old(draft.validFrom), old(draft.kStore[..]), old(draft.vStore[..]))
  {
    hide RunRing, StepRing, Calls, SlicesFrom, Region, KeysOf, ValuesOf, Contiguous, Buffers, SlicesFit, OneWrapFits;
    hide OnCourse, DflashDraft.KeyRing, DflashDraft.ValueRing;
    ghost var frontier := draft.nInjected;
    if rows <= 0 {
      return Success(());
    }
    var slices := TailSlices(rows, sliceRows);
    if slices.Failure? {
      return Failure(BadSlices);
    }
    ghost var end := startPos + rows;
    ghost var row0 := 0;
    forall il: nat | il < draft.layers
      ensures OnCourse(draft.KeyRing(il), draft.KeyRing(il), startPos, startPos, end, sliceRows,
                       KeysOf(draft.encoder, il, feature, rope))
      ensures OnCourse(draft.ValueRing(il), draft.ValueRing(il), startPos, startPos, end, sliceRows,
                       ValuesOf(draft.encoder, il, feature))
    {
      SetsOff(draft.KeyRing(il), startPos, end, sliceRows, KeysOf(draft.encoder, il, feature, rope));
      SetsOff(draft.ValueRing(il), startPos, end, sliceRows, ValuesOf(draft.encoder, il, feature));
    }
    for i := 0 to |slices.value|
      invariant row0 >= 0 && slices.value[i..] == SlicesFrom(row0, rows, sliceRows)
      invariant draft.Valid() && draft.ropeDelta == old(draft.ropeDelta)
      invariant i == 0 ==> row0 == 0
      invariant i == 0 ==> Untouched(draft.nInjected, draft.validFrom, draft.kStore[..], draft.vStore[..],
                             old(draft.nInjected), old(draft.validFrom), old(draft.kStore[..]), old(draft.vStore[..]))
      invariant i > 0 ==> Min(sliceRows, rows) <= draft.maxInjectRows
      invariant i > 0 ==> startPos >= old(draft.nInjected) && draft.nInjected == startPos + Min(row0, rows)
      invariant forall il :: 0 <= il < draft.layers ==>
                  && OnCourse(draft.KeyRing(il), old(draft.KeyRing(il)), startPos + row0, startPos, end, sliceRows,
                              KeysOf(draft.encoder, il, feature, rope))
                  && OnCourse(draft.ValueRing(il), old(draft.ValueRing(il)), startPos + row0, startPos, end, sliceRows,
                              ValuesOf(draft.encoder, il, feature))
    {
      var s := slices.value[i];
      FirstSlice(row0, rows, sliceRows);
      forall il: nat | il < draft.layers
        ensures OnCourse(StepRing(draft.KeyRing(il), Inject(startPos + row0,
                           KeysOf(draft.encoder, il, feature, rope)(startPos + row0, s.rows))), old(draft.KeyRing(il)),
                         startPos + row0 + sliceRows, startPos, end, sliceRows, KeysOf(draft.encoder, il, feature, rope))
        ensures OnCourse(StepRing(draft.ValueRing(il), Inject(startPos + row0,
                           ValuesOf(draft.encoder, il, feature)(startPos + row0, s.rows))), old(draft.ValueRing(il)),
                         startPos + row0 + sliceRows, startPos, end, sliceRows, ValuesOf(draft.encoder, il, feature))
      {
        StaysOnCourse(draft.KeyRing(il), old(draft.KeyRing(il)), startPos + row0, startPos, end, sliceRows,
                      KeysOf(draft.encoder, il, feature, rope));
        StaysOnCourse(draft.ValueRing(il), old(draft.ValueRing(il)), startPos + row0, startPos, end, sliceRows,
                      ValuesOf(draft.encoder, il, feature));
      }
      assert slices.value[i..][0] == s;
      SliceReady(draft.slots, draft.maxInjectRows, host, rows, startPos, ropeT, draft.ropeDelta, feature, rope, sliceRows,
                 i, frontier);
      var one := InjectSlice(draft, host, s.start, s.rows, startPos, ropeT, feature, rope);
      if one.Failure? {
        return Failure(Refused(one.error));
      }
      row0 := row0 + sliceRows;
    }
    NoSlices(row0, rows, sliceRows);
    forall il: nat | il < draft.layers
      ensures draft.KeyRing(il) == RunRing(old(draft.KeyRing(il)),
                Calls(startPos, end, sliceRows, KeysOf(draft.encoder, il, feature, rope)))
      ensures draft.ValueRing(il) == RunRing(old(draft.ValueRing(il)),
                Calls(startPos, end, sliceRows, ValuesOf(draft.encoder, il, feature)))
    {
      Arrived(draft.KeyRing(il), old(draft.KeyRing(il)), startPos + row0, startPos, end, sliceRows,
              KeysOf(draft.encoder, il, feature, rope));
      Arrived(draft.ValueRing(il), old(draft.ValueRing(il)), startPos + row0, startPos, end, sliceRows,
              ValuesOf(draft.encoder, il, feature));
    }
    return Success(());
  }

  lemma FirstSlice(r: int, rows: int, slice: int)
    requires slice >= 1 && SlicesFrom(r, rows, slice) != []
    ensures r < rows && SlicesFrom(r, rows, slice)[0] == Span(r, Min(slice, rows - r))
    ensures SlicesFrom(r, rows, slice)[1..] == SlicesFrom(r + slice, rows, slice)
  {
  }

  lemma NoSlices(r: int, rows: int, slice: int)
    requires slice >= 1
    ensures SlicesFrom(r, rows, slice) == [] <==> rows <= r
  {
  }
}
