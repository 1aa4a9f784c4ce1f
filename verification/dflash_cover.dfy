/** The stage-side bookkeeping of the tail capture: which rows of each drained slice are wanted, and where they land. */
module DflashCover {
  import opened Common
  import opened DflashTail

  datatype CoverError = BadRange | EndedEarly | FirstSliceLate | NotContiguous
  datatype Take = Take(srcRow0: int, rows: int, dstRow0: int)

  /** The capture's state: rows [start, next) of [start, end) are taken. */
  datatype Cover = Cover(start: int, end: int, next: int) {
    ghost predicate Valid() { 0 <= start <= next <= end && start < end }
  }

  const NOTHING := Take(0, 0, 0)

  function OfferTo(c: Cover, o: Span): (r: Result<(Take, Cover), CoverError>) {
    var sliceEnd := o.start + o.rows;
    if o.rows <= 0 || sliceEnd <= c.start then Success((NOTHING, c))
    else if o.start >= c.end then
      if c.next != c.end then Failure(EndedEarly) else Success((NOTHING, c))
    else if c.next == c.start && o.start > c.start then Failure(FirstSliceLate)
    else
      var from := Max(o.start, c.start);
      if from != c.next then Failure(NotContiguous)
      else
        var upto := Min(sliceEnd, c.end);
        Success((Take(from - o.start, upto - from, from - c.start), c.(next := upto)))
  }

  class TailCover {
    const start: int
    const end: int
    var next: int

    ghost function State(): Cover
      reads this
    {
      Cover(start, end, next)
    }

    constructor (start: int, end: int)
      requires 0 <= start < end
      ensures State() == Cover(start, end, start) && State().Valid()
    {
      this.start, this.end, next := start, end, start;
    }

    /** The constructor with its range check. */
    static method Create(start: int, end: int) returns (r: Result<TailCover, CoverError>)
      ensures r.Success? <==> 0 <= start < end
      ensures r.Success? ==> fresh(r.value) && r.value.State() == Cover(start, end, start) && r.value.State().Valid()
      ensures r.Failure? ==> r.error == BadRange
    {
      if start < 0 || end <= start {
        return Failure(BadRange);
      }
      var c := new TailCover(start, end);
      return Success(c);
    }

    method OfferSlice(sliceStart: int, sliceRows: int) returns (r: Result<Take, CoverError>)
      requires State().Valid()
      modifies this
      ensures State().Valid()
      ensures match old(OfferTo(State(), Span(sliceStart, sliceRows)))
              case Success((t, c)) => r == Success(t) && State() == c
              case Failure(e) => r == Failure(e) && State() == old(State())
      ensures sliceRows <= 0 || sliceStart + sliceRows <= start ==> r == Success(Take(0, 0, 0))
    {
      if sliceRows <= 0 {
        return Success(NOTHING);
      }
      var sliceEnd := sliceStart + sliceRows;
      if sliceEnd <= start {
        return Success(NOTHING);
      }
      if sliceStart >= end {
        if next != end {
          return Failure(EndedEarly);
        }
        return Success(NOTHING);
      }
      if next == start && sliceStart > start {
        return Failure(FirstSliceLate);
      }
      var from := Max(sliceStart, start);
      if from != next {
        return Failure(NotContiguous);
      }
      var upto := Min(sliceEnd, end);
      r := Success(Take(from - sliceStart, upto - from, from - start));
      next := upto;
    }

    method Complete() returns (b: bool)
      ensures b <==> State().next == State().end
    {
      b := next == end;
    }
  }

  /** A row handed over: the position it is the feature row of, and the buffer row it lands on. */
  datatype Row = Row(position: int, bufferRow: int)

  function Rows(o: Span, t: Take): (r: seq<Row>) {
    seq(if t.rows >= 0 then t.rows else 0, i => Row(o.start + t.srcRow0 + i, t.dstRow0 + i))
  }

  /** Offer after offer until one throws: the state reached and every row handed over, in order. */
  function RunOffers(c: Cover, offers: seq<Span>): (r: Result<(Cover, seq<Row>), CoverError>) {
    if offers == [] then Success((c, []))
    else match RunOffers(c, offers[..|offers| - 1])
      case Failure(e) => Failure(e)
      case Success((before, rows)) =>
        match OfferTo(before, offers[|offers| - 1])
        case Failure(e) => Failure(e)
        case Success((t, after)) => Success((after, rows + Rows(offers[|offers| - 1], t)))
  }

  /** Whatever slices are offered, in whatever order: unless an offer throws, the rows handed over are exactly rows
      [start, next), once each, in order, row start + i on buffer row i. */
  lemma {:induction false} HandsOverEachRowOnce(start: int, end: int, offers: seq<Span>)
    requires 0 <= start < end
    requires RunOffers(Cover(start, end, start), offers).Success?
    ensures var (c, rows) := RunOffers(Cover(start, end, start), offers).value;
            && c.Valid() && c.start == start && c.end == end
            && rows == seq(c.next - start, i => Row(start + i, i))
  {
    if offers != [] {
      HandsOverEachRowOnce(start, end, offers[..|offers| - 1]);
    }
  }

  lemma {:induction false} ContiguousUp(offers: seq<Span>, from: int, to: int)
    requires Contiguous(offers, from, to)
    ensures from <= to
  {
    if offers != [] { ContiguousUp(offers[..|offers| - 1], from, offers[|offers| - 1].start); }
  }

  /** The slices of a call over [p0, to), in order, are all taken, and after them the tail reaches min(to, end). */
  lemma {:induction false} CallCovers(start: int, end: int, offers: seq<Span>, p0: int, to: int)
    requires 0 <= p0 <= start < end && Contiguous(offers, p0, to)
    ensures RunOffers(Cover(start, end, start), offers).Success?
    ensures RunOffers(Cover(start, end, start), offers).value.0 == Cover(start, end, Max(start, Min(to, end)))
  {
    if offers != [] {
      var last := offers[|offers| - 1];
      ContiguousUp(offers[..|offers| - 1], p0, last.start);
      CallCovers(start, end, offers[..|offers| - 1], p0, last.start);
    }
  }

  /** A whole call [p0, n) leaves the buffer holding the tail [s, n), each row once, at row position - s. */
  lemma CallFillsTail(s: int, n: int, offers: seq<Span>, p0: int)
    requires 0 <= p0 <= s < n && Contiguous(offers, p0, n)
    ensures RunOffers(Cover(s, n, s), offers) == Success((Cover(s, n, n), seq(n - s, i => Row(s + i, i))))
  {
    CallCovers(s, n, offers, p0, n);
    HandsOverEachRowOnce(s, n, offers);
  }

  /** So do the slices the call is cut into, wherever the tail starts in it. */
  lemma SlicesFillTail(p0: int, n: int, window: int, slice: int, cut: int)
    requires TailStart(p0, n, window, slice).Success? && cut >= 1
    ensures var s := TailStart(p0, n, window, slice).value;
            RunOffers(Cover(s, n, s), Shifted(SlicesFrom(0, n - p0, cut), p0))
            == Success((Cover(s, n, n), seq(n - s, i => Row(s + i, i))))
  {
    hide SlicesFrom, Shifted, Contiguous, RunOffers;
    var s := TailStart(p0, n, window, slice).value;
    TailStartRule(p0, n, window, slice);
    SlicesContiguous(0, n - p0, cut);
    ShiftedContiguous(SlicesFrom(0, n - p0, cut), p0, 0, n - p0);
    CallFillsTail(s, n, Shifted(SlicesFrom(0, n - p0, cut), p0), p0);
  }

  /** A hole is always noticed: if some row of the tail is offered by no slice, the tail is not reported complete. */
  lemma {:induction false} HoleNoticed(start: int, end: int, offers: seq<Span>, p: int)
    requires 0 <= start <= p < end
    requires forall i :: 0 <= i < |offers| ==> !(offers[i].start <= p < offers[i].start + offers[i].rows)
    ensures RunOffers(Cover(start, end, start), offers).Failure?
            || RunOffers(Cover(start, end, start), offers).value.0.next <= p
  {
    if offers != [] {
      HoleNoticed(start, end, offers[..|offers| - 1], p);
      if RunOffers(Cover(start, end, start), offers[..|offers| - 1]).Success? {
        HandsOverEachRowOnce(start, end, offers[..|offers| - 1]);
      }
    }
  }
}
