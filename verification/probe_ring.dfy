/**
 The debug probe's stamp ring: stamps are numbered for ever, live in a device ring of `cap` slots, and are read back into
 a mirror of the same shape whenever the model has synchronized its stream anyway.
 */
module ProbeRing {
  import opened Common

  const RECORD := 5

  /** A stamp is gone once a slot numbered `cap` later has been handed out or skipped. */
  predicate InWindow(slot: nat, end: nat, cap: nat) { slot < end <= slot + cap }

  /** `cells` holds every stamp of the last `cap` slots before `end`. */
  ghost predicate Holds(cells: seq<int>, cap: nat, end: nat, stamps: map<nat, int>)
    requires |cells| == cap > 0
  {
    forall s :: s in stamps && InWindow(s, end, cap) ==> cells[Cell(s, cap)] == stamps[s]
  }

  lemma CellIs(slot: nat, cap: nat)
    requires cap > 0
    ensures Cell(slot, cap) == slot % cap
  {
  }

  /** Slots [first, end) that do not run past the ring's end have consecutive cells. */
  lemma CellsRun(slot: nat, i: nat, cap: nat)
    requires cap > 0 && Cell(slot, cap) + i < cap
    ensures Cell(slot + i, cap) == Cell(slot, cap) + i
  {
    DivModOf(slot + i, cap, slot / cap, slot % cap + i);
  }

  lemma SkipToFront(slot: nat, cap: nat)
    requires cap > 0
    ensures Cell(slot + (cap - Cell(slot, cap)), cap) == 0
  {
    assert cap * (slot / cap + 1) == cap * (slot / cap) + cap;
    DivModOf(slot + (cap - slot % cap), cap, slot / cap + 1, 0);
  }

  /** A stamp kernel still in the stream. */
  datatype Store = Store(cell: nat, value: int)

  /** The ring once the stores in flight have landed, in stream order. */
  function Landed(cells: seq<int>, pending: seq<Store>): (r: seq<int>)
    ensures |r| == |cells|
  {
    if pending == [] then cells
    else
      var before, last := Landed(cells, pending[..|pending| - 1]), pending[|pending| - 1];
      if last.cell < |cells| then before[last.cell := last.value] else before
  }

  lemma {:induction false} FirstLands(cells: seq<int>, pending: seq<Store>)
    requires pending != [] && pending[0].cell < |cells|
    ensures Landed(cells[pending[0].cell := pending[0].value], pending[1..]) == Landed(cells, pending)
  {
    var n := |pending| - 1;
    if n == 0 {
      assert pending[..0] == [] && pending[1..] == [];
      assert Landed(cells, pending[..0]) == cells;
    } else {
      FirstLands(cells, pending[..n]);
      assert pending[..n][1..] == pending[1..][..n - 1];
    }
  }

  lemma NoneLands(cells: seq<int>)
    ensures Landed(cells, []) == cells
  {
  }

  lemma LastLands(cells: seq<int>, pending: seq<Store>, s: Store)
    requires s.cell < |cells|
    ensures Landed(cells, pending + [s]) == Landed(cells, pending)[s.cell := s.value]
  {
    assert (pending + [s])[..|pending|] == pending;
  }

  class Probe {
    const cap: nat
    const dev: array<int>
    /** Stores that were launched and have not run yet. */
    var pending: seq<Store>
    const mirror: array<int>
    var next: nat
    var copied: nat
    var overflows: nat
    /** Every stamp ever written, by slot number. */
    ghost var stamps: map<nat, int>

    /** What the device ring will hold when the stream is idle. */
    ghost function Image(): (cells: seq<int>)
      reads this`pending, dev
      ensures |cells| == dev.Length
    {
      Landed(dev[..], pending)
    }

    ghost predicate Valid()
      reads this, dev, mirror
    {
      && cap > 0 && dev.Length == mirror.Length == cap && dev != mirror
      && copied <= next
      && (forall s :: s in stamps ==> s < next)
      && (forall i :: 0 <= i < |pending| ==> pending[i].cell < cap)
      && Holds(Image(), cap, next, stamps)
      && Holds(mirror[..], cap, copied, stamps)
    }

    constructor (cap: nat)
      requires cap >= RECORD
      ensures Valid() && fresh(dev) && fresh(mirror) && this.cap == cap && next == copied == overflows == 0
      ensures stamps == map[] && pending == []
    {
      this.cap := cap;
      dev := new int[cap](_ => 0);
      mirror := new int[cap](_ => 0);
      next, copied, overflows := 0, 0, 0;
      pending, stamps := [], map[];
    }

    /** `n` slots in a row that do not wrap; what is left at the ring's end is skipped. */
    method Alloc(n: nat) returns (slot: nat)
      requires Valid() && n <= cap
      modifies this`next
      ensures Valid() && next == slot + n
      ensures slot == if Cell(old(next), cap) + n <= cap then old(next) else old(next) + (cap - Cell(old(next), cap))
      ensures slot % cap + n <= cap && (old(next) % cap + n <= cap ==> slot == old(next))
      ensures forall s :: s in stamps && InWindow(s, next, cap) ==> InWindow(s, old(next), cap)
    {
      hide Cell;
      CellIs(next, cap);
      var pos := Cell(next, cap);
      if pos + n > cap {
        SkipToFront(next, cap);
        next := next + (cap - pos);
      }
      CellIs(next, cap);
      slot := next;
      next := next + n;
    }

    /** The device gets to the oldest store, at any time. */
    method DeviceStep()
      requires Valid() && pending != []
      modifies this`pending, dev
      ensures Valid() && pending == old(pending)[1..] && Image() == old(Image())
    {
      hide Holds;
      var s := pending[0];
      FirstLands(dev[..], pending);
      ghost var after := dev[..][s.cell := s.value];
      dev[s.cell], pending := s.value, pending[1..];
      assert dev[..] == after;
    }

    /** A synchronized stream has run them all. */
    method Synchronize()
      requires Valid()
      modifies this`pending, dev
      ensures Valid() && pending == [] && dev[..] == old(Image())
    {
      hide Holds;
      while pending != []
        invariant Valid() && Image() == old(Image())
        decreases |pending|
      {
        DeviceStep();
      }
    }

    /** Launches the stores of a record's stamps. */
    method Write(slot: nat, values: seq<int>)
      requires cap > 0 && dev.Length == mirror.Length == cap && dev != mirror
      requires Cell(slot, cap) + |values| <= cap && copied <= slot && next == slot + |values|
      requires forall s :: s in stamps ==> s < slot
      requires forall i :: 0 <= i < |pending| ==> pending[i].cell < cap
      requires Holds(Image(), cap, slot, stamps) && Holds(mirror[..], cap, copied, stamps)
      modifies this`pending, this`stamps
      ensures Valid() && Stamped(old(stamps), stamps, slot, values)
    {
      hide Cell, Holds, Landed, Spliced;
      ghost var image, before := Image(), stamps;
      SplicedNone(image, Cell(slot, cap));
      var i := 0;
      while i < |values|
        invariant 0 <= i <= |values| && forall k :: 0 <= k < |pending| ==> pending[k].cell < cap
        invariant Spliced(image, Image(), Cell(slot, cap), values[..i])
        invariant Stamped(before, stamps, slot, values[..i])
      {
        ghost var was := pending;
        pending := pending + [Store(Cell(slot, cap) + i, values[i])];
        LastLands(dev[..], was, Store(Cell(slot, cap) + i, values[i]));
        SplicedMore(image, Landed(dev[..], was), Cell(slot, cap), values, i);
        stamps := stamps[slot + i := values[i]];
        i := i + 1;
      }
      assert values[..|values|] == values;
      NewStampsHeld(image, Image(), cap, slot, before, stamps, values);
      OldMirrorHeld(mirror[..], cap, copied, before, stamps, slot, values);
    }

    method Stamp(value: int) returns (slot: nat)
      requires Valid()
      modifies this`next, this`stamps, this`pending
      ensures Valid() && Stamped(old(stamps), stamps, slot, [value]) && slot >= old(next) && next == slot + 1
    {
      hide Cell, Holds;
      ghost var end := next;
      slot := Alloc(1);
      CellIs(slot, cap);
      StillHeld(Image(), cap, end, slot, stamps);
      Write(slot, [value]);
    }

    /** One clock probe: five stamps in one record. */
    method AfterMlp(values: seq<int>) returns (slot: nat)
      requires Valid() && cap >= 5 == |values|
      modifies this`next, this`stamps, this`pending
      ensures Valid() && Stamped(old(stamps), stamps, slot, values) && slot >= old(next)
      ensures next == slot + 5 && slot % cap + 5 <= cap
    {
      hide Cell, Holds;
      ghost var end := next;
      slot := Alloc(RECORD);
      CellIs(slot, cap);
      StillHeld(Image(), cap, end, slot, stamps);
      Write(slot, values);
    }

    /** Waits for the stream and reads the new stamps back, the newest `cap` slots of them when more were handed out. */
    method Collect()
      requires Valid()
      modifies this`copied, this`overflows, this`pending, dev, mirror
      ensures Valid() && copied == next && pending == []
      ensures overflows == old(overflows) + if old(next - copied) > cap then 1 else 0
      ensures forall s :: s in stamps ==> (Reported(s) <==> next - cap <= s)
    {
      hide Cell, Holds, Landed;
      Synchronize();
      NoneLands(dev[..]);
      ghost var device := dev[..];
      assert Holds(device, cap, next, stamps);
      ghost var mirrorBefore := mirror[..];
      if next != copied {
        var at := copied;
        if next - at > cap {
          at := next - cap;
          overflows := overflows + 1;
        }
        ghost var first := at;
        while at < next
          modifies mirror
          invariant first <= at <= next
          invariant dev[..] == device && CopiedRange(mirrorBefore, device, mirror[..], cap, first, at)
        {
          var pos := Cell(at, cap);
          var n := Min(cap - pos, next - at);
          ghost var mirrorWas := mirror[..];
          var i := 0;
          while i < n
            modifies mirror
            invariant 0 <= i <= n
            invariant Spliced(mirrorWas, mirror[..], pos, device[pos..pos + i])
          {
            mirror[pos + i] := dev[pos + i];
            i := i + 1;
          }
          CopyMore(mirrorBefore, device, mirrorWas, mirror[..], cap, first, at, n);
          at := at + n;
        }
        CollectHolds(mirrorBefore, device, mirror[..], cap, first, copied, next, stamps);
        copied := next;
      }
    }

    /** A slot whose stamp the mirror still has. */
    predicate Reported(slot: nat)
      reads this
    {
      slot < copied && slot + cap >= copied
    }

    /** A reported stamp is the one written for that slot, whatever was skipped, overwritten or collected since. */
    method Read(slot: nat) returns (value: int)
      requires Valid() && slot in stamps && Reported(slot)
      ensures value == stamps[slot]
    {
      value := mirror[Cell(slot, cap)];
      assert InWindow(slot, copied, cap) && mirror[..][Cell(slot, cap)] == value;
    }

    /** A record whose first and fourth stamps are reported is read whole: none of it was overwritten in between. */
    method ReadRecord(slot: nat, ghost values: seq<int>) returns (at: seq<int>)
      requires Valid() && |values| == 5 && Reported(slot) && Reported(slot + 3)
      requires forall i :: 0 <= i < 5 ==> slot + i in stamps && stamps[slot + i] == values[i]
      ensures at == values[..4]
    {
      hide Cell;
      assert values[..4] == [values[0], values[1], values[2], values[3]];
      var v0 := Read(slot);
      var v1 := Read(slot + 1);
      var v2 := Read(slot + 2);
      var v3 := Read(slot + 3);
      at := [v0, v1, v2, v3];
    }
  }

  /** `stamps'` adds a record's stamps and nothing else. */
  ghost predicate Stamped(stamps: map<nat, int>, stamps': map<nat, int>, slot: nat, values: seq<int>) {
    && (forall s :: s in stamps' <==> s in stamps || slot <= s < slot + |values|)
    && (forall s :: s in stamps' ==> stamps'[s] == if slot <= s < slot + |values| then values[s - slot] else stamps[s])
  }

  /** `cells'` is `cells` with `src` copied over it at `at`. */
  ghost predicate Spliced(cells: seq<int>, cells': seq<int>, at: nat, src: seq<int>) {
    && |cells'| == |cells| && at + |src| <= |cells|
    && forall c :: 0 <= c < |cells| ==> cells'[c] == if at <= c < at + |src| then src[c - at] else cells[c]
  }

  lemma SplicedNone(cells: seq<int>, at: nat)
    requires at <= |cells|
    ensures Spliced(cells, cells, at, [])
  {
  }

  lemma SplicedMore(cells: seq<int>, cells': seq<int>, at: nat, values: seq<int>, i: nat)
    requires i < |values| && at + |values| <= |cells| && Spliced(cells, cells', at, values[..i])
    ensures Spliced(cells, cells'[at + i := values[i]], at, values[..i + 1])
  {
  }

  lemma StillHeld(cells: seq<int>, cap: nat, end: nat, end': nat, stamps: map<nat, int>)
    requires |cells| == cap > 0 && end <= end' && Holds(cells, cap, end, stamps)
    requires forall s :: s in stamps ==> s < end
    ensures Holds(cells, cap, end', stamps)
  {
    hide Cell;
    forall s | s in stamps && InWindow(s, end', cap) ensures cells[Cell(s, cap)] == stamps[s] {
      assert InWindow(s, end, cap);
    }
  }

  lemma NewStampsHeld(cells: seq<int>, cells': seq<int>, cap: nat, slot: nat,
                      stamps: map<nat, int>, stamps': map<nat, int>, values: seq<int>)
    requires |cells| == cap > 0 && Holds(cells, cap, slot, stamps) && forall s :: s in stamps ==> s < slot
    requires Cell(slot, cap) + |values| <= cap && Spliced(cells, cells', Cell(slot, cap), values)
    requires Stamped(stamps, stamps', slot, values)
    ensures Holds(cells', cap, slot + |values|, stamps')
  {
    hide Cell;
    forall s | s in stamps' && InWindow(s, slot + |values|, cap) ensures cells'[Cell(s, cap)] == stamps'[s] {
      if s >= slot {
        CellsRun(slot, s - slot, cap);
      } else {
        Untouched(s, slot, |values|, cap);
        assert InWindow(s, slot, cap);
      }
    }
  }

  lemma OldMirrorHeld(cells: seq<int>, cap: nat, copied: nat,
                      stamps: map<nat, int>, stamps': map<nat, int>, slot: nat, values: seq<int>)
    requires |cells| == cap > 0 && Holds(cells, cap, copied, stamps) && copied <= slot
    requires Stamped(stamps, stamps', slot, values)
    ensures Holds(cells, cap, copied, stamps')
  {
    hide Cell;
  }

  /** The cells of slots [first, at) are the device's, the others as they were. */
  ghost predicate CopiedRange(before: seq<int>, dev: seq<int>, mirror: seq<int>, cap: nat, first: nat, at: nat) {
    && |before| == |dev| == |mirror| == cap > 0
    && (forall s :: first <= s < at ==> mirror[Cell(s, cap)] == dev[Cell(s, cap)])
    && (forall c :: 0 <= c < cap ==> mirror[c] == before[c] || exists s :: first <= s < at && Cell(s, cap) == c)
  }

  lemma CopyMore(before: seq<int>, dev: seq<int>, was: seq<int>, now: seq<int>, cap: nat, first: nat, at: nat, n: nat)
    requires CopiedRange(before, dev, was, cap, first, at) && first <= at && Cell(at, cap) + n <= cap
    requires Spliced(was, now, Cell(at, cap), dev[Cell(at, cap)..Cell(at, cap) + n])
    ensures CopiedRange(before, dev, now, cap, first, at + n)
  {
    hide Cell;
    forall s | first <= s < at + n ensures now[Cell(s, cap)] == dev[Cell(s, cap)] {
      if s >= at { CellsRun(at, s - at, cap); }
    }
    forall c | 0 <= c < cap ensures now[c] == before[c] || exists s :: first <= s < at + n && Cell(s, cap) == c {
      if Cell(at, cap) <= c < Cell(at, cap) + n {
        var s := at + (c - Cell(at, cap));
        CellsRun(at, c - Cell(at, cap), cap);
        assert Cell(s, cap) == c;
      }
    }
  }

  lemma CollectHolds(before: seq<int>, dev: seq<int>, mirror: seq<int>, cap: nat, first: nat, copied: nat, next: nat,
                     stamps: map<nat, int>)
    requires CopiedRange(before, dev, mirror, cap, first, next)
    requires first == (if next - copied > cap then next - cap else copied) && copied <= next
    requires Holds(dev, cap, next, stamps) && Holds(before, cap, copied, stamps)
    ensures Holds(mirror, cap, next, stamps)
  {
    hide Cell;
    forall t | t in stamps && InWindow(t, next, cap) ensures mirror[Cell(t, cap)] == stamps[t] {
      if t < first {
        assert InWindow(t, copied, cap);
        forall s | first <= s < next ensures Cell(s, cap) != Cell(t, cap) {
          DistinctCells(t, s, cap);
        }
        assert mirror[Cell(t, cap)] == before[Cell(t, cap)];
      }
    }
  }

  /** A slot still in the window shares no cell with a record written at its end. */
  lemma Untouched(s: nat, slot: nat, n: nat, cap: nat)
    requires cap > 0 && s < slot && InWindow(s, slot + n, cap) && Cell(slot, cap) + n <= cap
    ensures !(Cell(slot, cap) <= Cell(s, cap) < Cell(slot, cap) + n)
  {
    hide Cell;
    if Cell(slot, cap) <= Cell(s, cap) < Cell(slot, cap) + n {
      var i := Cell(s, cap) - Cell(slot, cap);
      CellsRun(slot, i, cap);
      DistinctCells(s, slot + i, cap);
    }
  }
}
