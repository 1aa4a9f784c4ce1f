/**
 What runs beside the host in a DirectStorage read: the storage queue filling ring slots, its fence, and the copy
 stream. A `Move` is one step of either; a schedule is any sequence of moves between two host calls.
 */
module DirectStorageDevice {
  import opened Common

  type byte = b: int | 0 <= b < 256

  /** One enqueued read with the signal enqueued behind it. `done`: the slot is filled (or the request failed). */
  datatype Request = Request(file: seq<byte>, off: nat, len: nat, slot: nat, fence: nat, done: bool)

  /** The copy stream is FIFO. `Record` marks a slot's `copied` event. */
  datatype StreamOp = Copy(slot: nat, at: nat, len: nat) | Record(slot: nat)

  datatype Device = Device(pending: seq<Request>, completed: nat, error: bool, slots: seq<seq<byte>>,
                           stream: seq<StreamOp>, streamError: bool, mem: seq<byte>)

  /** Requests fill in any order and may leave anything in their slot on the way; signals come in submission order; a
      request or a copy may fail. */
  datatype Move =
    | Fill(i: nat)
    | Garble(i: nat, bytes: seq<byte>)
    | FailRequest(i: nat)
    | Signal
    | StreamRun
    | StreamFail(bytes: seq<byte>)

  predicate InFlight(d: Device, i: nat) {
    && i < |d.pending| && !d.pending[i].done
    && d.pending[i].slot < |d.slots| && d.pending[i].len <= |d.slots[d.pending[i].slot]|
  }

  /** The move's effect; a move that is not enabled does nothing. */
  function Apply(d: Device, m: Move): (d': Device) {
    match m
    case Fill(i) =>
      if InFlight(d, i) && d.pending[i].off + d.pending[i].len <= |d.pending[i].file| then
        var p := d.pending[i];
        d.(slots := d.slots[p.slot := Splice(d.slots[p.slot], 0, p.file[p.off..p.off + p.len])],
           pending := d.pending[i := p.(done := true)])
      else d
    case Garble(i, bytes) =>
      if InFlight(d, i) && |bytes| == |d.slots[d.pending[i].slot]| then
        d.(slots := d.slots[d.pending[i].slot := bytes])
      else d
    case FailRequest(i) =>
      if InFlight(d, i) then d.(error := true, pending := d.pending[i := d.pending[i].(done := true)]) else d
    case Signal =>
      if |d.pending| > 0 && d.pending[0].done then
        d.(completed := d.pending[0].fence, pending := d.pending[1..])
      else d
    case StreamRun =>
      if |d.stream| > 0 then
        match d.stream[0]
        case Record(_) => d.(stream := d.stream[1..])
        case Copy(s, at, len) =>
          if s < |d.slots| && len <= |d.slots[s]| && at + len <= |d.mem| then
            d.(stream := d.stream[1..], mem := Splice(d.mem, at, d.slots[s][..len]))
          else d
      else d
    case StreamFail(bytes) =>
      if |d.stream| > 0 && d.stream[0].Copy? && |bytes| <= d.stream[0].len
         && d.stream[0].at + d.stream[0].len <= |d.mem| then
        d.(stream := d.stream[1..], streamError := true, mem := Splice(d.mem, d.stream[0].at, bytes))
      else d
  }

  function ApplyAll(d: Device, moves: seq<Move>): (d': Device) {
    if moves == [] then d else Apply(ApplyAll(d, moves[..|moves| - 1]), moves[|moves| - 1])
  }

  /** Nothing in flight: every request signalled, every copy done, nothing failed. */
  ghost predicate Idle(d: Device, fence: nat) {
    d.pending == [] && d.stream == [] && !d.error && !d.streamError && d.completed == fence
  }

  /** An idle device does nothing on its own, whatever the schedule. */
  lemma {:induction false} IdleStays(d: Device, fence: nat, moves: seq<Move>)
    requires Idle(d, fence)
    ensures ApplyAll(d, moves) == d
  {
    if moves != [] { IdleStays(d, fence, moves[..|moves| - 1]); }
  }

  /** What the devices can do: fill any request in flight, leave anything in its slot on the way, fail it, signal a finished
      head, run the next stream operation, or fail a copy with part of it done. */
  lemma DevicesCan(d: Device, i: nat, bytes: seq<byte>)
    ensures InFlight(d, i) && d.pending[i].off + d.pending[i].len <= |d.pending[i].file| ==>
              var p := d.pending[i];
              && Apply(d, Fill(i)).pending == d.pending[i := p.(done := true)]
              && Apply(d, Fill(i)).slots[p.slot][..p.len] == p.file[p.off..p.off + p.len]
    ensures InFlight(d, i) && |bytes| == |d.slots[d.pending[i].slot]| ==>
              Apply(d, Garble(i, bytes)) == d.(slots := d.slots[d.pending[i].slot := bytes])
    ensures InFlight(d, i) ==>
              Apply(d, FailRequest(i)).error && Apply(d, FailRequest(i)).pending == d.pending[i := d.pending[i].(done := true)]
    ensures d.pending != [] && d.pending[0].done ==>
              Apply(d, Signal) == d.(completed := d.pending[0].fence, pending := d.pending[1..])
    ensures d.stream != [] && d.stream[0].Record? ==> Apply(d, StreamRun) == d.(stream := d.stream[1..])
    ensures d.stream != [] && d.stream[0].Copy? && d.stream[0].at + d.stream[0].len <= |d.mem| && |bytes| <= d.stream[0].len ==>
              var e := Apply(d, StreamFail(bytes));
              e.streamError && e.stream == d.stream[1..] && e.mem[d.stream[0].at..d.stream[0].at + |bytes|] == bytes
  {
  }

  /** A schedule is its moves one after the other. */
  lemma ScheduleRuns(d: Device, moves: seq<Move>, m: Move)
    ensures ApplyAll(d, []) == d && ApplyAll(d, moves + [m]) == Apply(ApplyAll(d, moves), m)
  {
    assert (moves + [m])[..|moves|] == moves;
  }

  // ---- one read ---------------------------------------------------------------------------------------

  /** Where chunk `i` starts in the range. Proofs hide the product. */
  function ChunkStart(i: nat, chunk: nat): nat { i * chunk }

  /** Number of chunks, in 64-bit arithmetic. */
  function ChunkCount(bytes: nat, chunk: nat): nat
    requires chunk > 0
  {
    ToUint64(bytes + chunk - 1) / chunk
  }

  /** A read of file[offset, offset + bytes) to device memory at `dst`, entered with memory `mem0` and fence `f0`. */
  datatype Job = Job(file: seq<byte>, offset: nat, bytes: nat, dst: nat, mem0: seq<byte>, f0: nat, ring: nat, chunk: nat) {
    /** Device memory holds the destination; a file is shorter than 2^63 bytes. */
    ghost predicate Valid() {
      && ring > 0 && 0 < chunk < 0x1_0000_0000
      && offset < 0x1_0000_0000_0000_0000 && 0 < bytes < 0x1_0000_0000_0000_0000
      && dst + bytes <= |mem0| && |file| < 0x8000_0000_0000_0000
    }

    function Chunks(): nat
      requires chunk > 0
    {
      ChunkCount(bytes, chunk)
    }

    function Off(i: nat): nat { ChunkStart(i, chunk) }

    function Len(i: nat): int { Min(chunk, bytes - Off(i)) }

    function FileOff(i: nat): nat { ToUint64(offset + Off(i)) }

    function RequestFor(i: nat): Request
      requires ring > 0 && Len(i) >= 0
    {
      Request(file, FileOff(i), Len(i), Cell(i, ring), f0 + 1 + i, false)
    }

    /** The t-th operation the host issues to the stream: chunk 0's copy, its record, chunk 1's copy, ... */
    function OpAt(t: nat): StreamOp
      requires ring > 0 && Len(t / 2) >= 0
    {
      if t % 2 == 0 then Copy(Cell(t / 2, ring), dst + Off(t / 2), Len(t / 2)) else Record(Cell(t / 2, ring))
    }

    ghost predicate InFile(i: nat) { Len(i) >= 0 && FileOff(i) + Len(i) <= |file| }

    /** `slot` holds chunk i. */
    ghost predicate Holds(slot: seq<byte>, i: nat) {
      InFile(i) && Len(i) <= |slot| && slot[..Len(i)] == file[FileOff(i)..FileOff(i) + Len(i)]
    }

    /** Chunk i is at its place in memory. */
    ghost predicate Landed(mem: seq<byte>, i: nat) {
      && InFile(i) && dst + Off(i) + Len(i) <= |mem|
      && mem[dst + Off(i)..dst + Off(i) + Len(i)] == file[FileOff(i)..FileOff(i) + Len(i)]
    }
  }

  lemma ChunkInside(j: Job, i: nat)
    requires j.Valid() && i < j.Chunks()
    ensures j.Off(i) < j.bytes && 0 < j.Len(i) <= j.chunk && j.Off(i) + j.Len(i) <= j.bytes
  {
    var k := ToUint64(j.bytes + j.chunk - 1);
    assert k == j.chunk * (k / j.chunk) + k % j.chunk;
    MulLe(i + 1, k / j.chunk, j.chunk);
    assert (i + 1) * j.chunk == i * j.chunk + j.chunk;
    assert k <= j.bytes + j.chunk - 1;
  }

  lemma ChunksApart(j: Job, i: nat, k: nat)
    requires i < k
    ensures j.Off(i) + j.chunk <= j.Off(k)
  {
    MulLe(i + 1, k, j.chunk);
    assert (i + 1) * j.chunk == i * j.chunk + j.chunk;
  }

  /** The invariant of a read with `sub` chunks submitted and `q` stream operations issued (chunk i's copy is operation
      2i, its record 2i + 1), after any schedule:
      - the queue holds exactly the submitted requests not yet signalled, in order;
      - the stream holds exactly the issued operations not yet run, and everything of a chunk whose slot was
        submitted again has run, so no slot is refilled while a copy out of it is pending;
      - unless something failed, a filled slot holds its own chunk and a run copy has landed;
      - memory outside the destination is as it was. */
  ghost predicate Pipe(d: Device, j: Job, sub: nat, q: nat) {
    && j.Valid()
    && SlotsSized(d.slots, j)
    && sub <= j.Chunks() && sub <= q / 2 + j.ring
    && j.f0 + (q + 1) / 2 <= d.completed <= j.f0 + sub
    && QueueIs(d.pending, d.completed, j, sub)
    && StreamIs(d.stream, j, sub, q)
    && (!d.error ==> SlotsHold(d.slots, d.pending, d.completed, j, sub))
    && (!d.error && !d.streamError ==> AllLanded(d.mem, j, q - |d.stream|))
    && (q == |d.stream| ==> d.mem == j.mem0)
    && OutsideKept(d.mem, j)
  }

  ghost predicate SlotsSized(slots: seq<seq<byte>>, j: Job) {
    |slots| == j.ring && forall s :: 0 <= s < j.ring ==> |slots[s]| == j.chunk
  }

  ghost predicate RequestIs(p: Request, j: Job, i: int)
    requires j.ring > 0
  {
    i >= 0 && j.Len(i) >= 0 && p.(done := false) == j.RequestFor(i)
  }

  ghost predicate QueueIs(pending: seq<Request>, completed: nat, j: Job, sub: nat)
    requires j.ring > 0
  {
    && completed >= j.f0 && |pending| == sub - (completed - j.f0)
    && forall x {:trigger pending[x]} :: 0 <= x < |pending| ==> RequestIs(pending[x], j, completed - j.f0 + x)
  }

  ghost predicate OpIs(op: StreamOp, j: Job, t: int)
    requires j.ring > 0
  {
    t >= 0 && j.Len(t / 2) >= 0 && op == j.OpAt(t)
  }

  ghost predicate StreamIs(stream: seq<StreamOp>, j: Job, sub: nat, q: nat)
    requires j.ring > 0
  {
    && |stream| <= q && 2 * (sub - j.ring) <= q - |stream|
    && forall x {:trigger stream[x]} :: 0 <= x < |stream| ==> OpIs(stream[x], j, q - |stream| + x)
  }

  /** Chunk i has been filled: its request is signalled, or waits for its signal. */
  ghost predicate Ready(pending: seq<Request>, completed: nat, f0: nat, i: nat) {
    completed >= f0
    && (i < completed - f0 || (i - (completed - f0) < |pending| && pending[i - (completed - f0)].done))
  }

  /** Every filled chunk of the current window is in its slot. */
  ghost predicate SlotsHold(slots: seq<seq<byte>>, pending: seq<Request>, completed: nat, j: Job, sub: nat)
    requires j.ring > 0 && |slots| == j.ring
  {
    forall i: nat {:trigger Ready(pending, completed, j.f0, i)} ::
      sub - j.ring <= i < sub && Ready(pending, completed, j.f0, i) ==> j.Holds(slots[Cell(i, j.ring)], i)
  }

  /** The copies among the first `run` operations have landed. */
  ghost predicate AllLanded(mem: seq<byte>, j: Job, run: int) {
    forall i: nat {:trigger j.Landed(mem, i)} :: 2 * i < run ==> j.Landed(mem, i)
  }

  ghost predicate OutsideKept(mem: seq<byte>, j: Job) { SameOutside(j.mem0, mem, j.dst, j.bytes) }

  /** The two differ at most in [dst, dst + bytes). */
  ghost predicate SameOutside(before: seq<byte>, after: seq<byte>, dst: nat, bytes: nat) {
    |after| == |before| && forall x :: 0 <= x < |after| && !(dst <= x < dst + bytes) ==> after[x] == before[x]
  }

  // ---- every move keeps it --------------------------------------------------------------------------------

  lemma WindowCells(j: Job, sub: nat, i: nat, k: nat)
    requires j.ring > 0 && sub - j.ring <= i < sub && sub - j.ring <= k < sub && i != k
    ensures Cell(i, j.ring) != Cell(k, j.ring)
  {
    if i < k { DistinctCells(i, k, j.ring); } else { DistinctCells(k, i, j.ring); }
  }

  /** A filled slot holds its request's chunk. */
  lemma FillHolds(d: Device, i: nat, j: Job, k: nat)
    requires j.Valid() && |d.slots| == j.ring && InFlight(d, i) && RequestIs(d.pending[i], j, k)
    requires d.pending[i].off + d.pending[i].len <= |d.pending[i].file|
    ensures j.Holds(Apply(d, Fill(i)).slots[Cell(k, j.ring)], k)
  {
    hide Cell, ToUint64, Job.Off;
  }

  lemma QueueMoveKeeps(d: Device, m: Move, j: Job, sub: nat, q: nat)
    requires Pipe(d, j, sub, q) && (m.Fill? || m.Garble? || m.FailRequest?)
    ensures Pipe(Apply(d, m), j, sub, q)
  {
    hide Cell, Job.Off, Job.Len, Job.FileOff, Job.Chunks, Job.Holds, Job.Valid, StreamIs, AllLanded, OutsideKept, Splice;
    var d' := Apply(d, m);
    if InFlight(d, m.i) {
      var k := d.completed - j.f0 + m.i;
      assert RequestIs(d.pending[m.i], j, k);
      assert QueueIs(d'.pending, d'.completed, j, sub);
      assert SlotsSized(d'.slots, j);
      if !d'.error && d' != d {
        if m.Fill? { FillHolds(d, m.i, j, k); }
        forall i: nat | sub - j.ring <= i < sub && Ready(d'.pending, d'.completed, j.f0, i)
          ensures j.Holds(d'.slots[Cell(i, j.ring)], i)
        {
          if i != k {
            assert Ready(d.pending, d.completed, j.f0, i);
            WindowCells(j, sub, i, k);
          }
        }
      }
    }
  }

  lemma SignalKeeps(d: Device, j: Job, sub: nat, q: nat)
    requires Pipe(d, j, sub, q)
    ensures Pipe(Apply(d, Signal), j, sub, q)
  {
    hide Cell, Job.Chunks, Job.Valid, Job.Holds, RequestIs, StreamIs, AllLanded, OutsideKept, SlotsSized;
    var d' := Apply(d, Signal);
    if d' != d {
      HeadFence(d, j, sub, q);
      SlotsLength(d.slots, j);
      forall x | 0 <= x < |d'.pending| ensures RequestIs(d'.pending[x], j, d'.completed - j.f0 + x) {
        assert RequestIs(d.pending[x + 1], j, d.completed - j.f0 + (x + 1));
      }
      if !d'.error {
        forall i: nat | sub - j.ring <= i < sub && Ready(d'.pending, d'.completed, j.f0, i)
          ensures j.Holds(d'.slots[Cell(i, j.ring)], i)
        {
          assert Ready(d.pending, d.completed, j.f0, i);
        }
      }
    }
  }

  /** The oldest request signals the next fence value. */
  lemma HeadFence(d: Device, j: Job, sub: nat, q: nat)
    requires Pipe(d, j, sub, q) && d.pending != []
    ensures d.pending[0].fence == d.completed + 1
  {
    hide Cell, ToUint64, Job.Off, Job.Len, Job.FileOff, Job.Chunks, StreamIs, AllLanded, OutsideKept, SlotsSized;
    assert RequestIs(d.pending[0], j, d.completed - j.f0);
  }

  lemma SlotsLength(slots: seq<seq<byte>>, j: Job)
    requires SlotsSized(slots, j)
    ensures |slots| == j.ring
  {
  }

  lemma StreamMoveKeeps(d: Device, m: Move, j: Job, sub: nat, q: nat)
    requires Pipe(d, j, sub, q) && (m.StreamRun? || m.StreamFail?)
    ensures Pipe(Apply(d, m), j, sub, q)
  {
    hide Cell, ToUint64, Job.Off, Job.FileOff, Job.Chunks, QueueIs, AllLanded, SlotsHold, Splice;
    var d' := Apply(d, m);
    if |d.stream| > 0 && d' != d {
      var t := q - |d.stream|;
      assert OpIs(d.stream[0], j, t);
      ChunkInside(j, t / 2);
      forall x | 0 <= x < |d'.stream| ensures OpIs(d'.stream[x], j, q - |d'.stream| + x) {
        assert OpIs(d.stream[x + 1], j, t + (x + 1));
      }
      if !d'.error && !d'.streamError { CopyLands(d, j, sub, q); }
    }
  }

  /** A copy that runs brings its own chunk and disturbs no earlier one. */
  lemma CopyLands(d: Device, j: Job, sub: nat, q: nat)
    requires Pipe(d, j, sub, q) && d.stream != [] && !d.error && !d.streamError
    ensures Apply(d, StreamRun) != d ==> AllLanded(Apply(d, StreamRun).mem, j, q - |d.stream| + 1)
  {
    hide Cell, ToUint64, Job.Off, Job.FileOff, Job.Chunks, QueueIs, OutsideKept;
    var d', t := Apply(d, StreamRun), q - |d.stream|;
    var k := t / 2;
    assert OpIs(d.stream[0], j, t);
    ChunkInside(j, k);
    if d' != d {
      forall i: nat | 2 * i < t + 1 ensures j.Landed(d'.mem, i) {
        if d.stream[0].Copy? && i == k {
          assert Ready(d.pending, d.completed, j.f0, k);
        } else {
          assert j.Landed(d.mem, i);
          if d.stream[0].Copy? { ChunksApart(j, i, k); }
        }
      }
    }
  }

  lemma MoveKeeps(d: Device, m: Move, j: Job, sub: nat, q: nat)
    requires Pipe(d, j, sub, q)
    ensures Pipe(Apply(d, m), j, sub, q)
  {
    hide *;
    match m
    case Fill(_) => QueueMoveKeeps(d, m, j, sub, q);
    case Garble(_, _) => QueueMoveKeeps(d, m, j, sub, q);
    case FailRequest(_) => QueueMoveKeeps(d, m, j, sub, q);
    case Signal => SignalKeeps(d, j, sub, q);
    case StreamRun => StreamMoveKeeps(d, m, j, sub, q);
    case StreamFail(_) => StreamMoveKeeps(d, m, j, sub, q);
  }

  /** Whatever the queue and the stream do, in any interleaving and any number of moves, the invariant stays. */
  lemma {:induction false} ScheduleKeeps(d: Device, moves: seq<Move>, j: Job, sub: nat, q: nat)
    requires Pipe(d, j, sub, q)
    ensures Pipe(ApplyAll(d, moves), j, sub, q)
  {
    hide Pipe, Apply;
    if moves != [] {
      ScheduleKeeps(d, moves[..|moves| - 1], j, sub, q);
      MoveKeeps(ApplyAll(d, moves[..|moves| - 1]), moves[|moves| - 1], j, sub, q);
    }
  }
}
