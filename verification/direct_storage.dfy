/**
 The DirectStorage loader: the host loops of a read over the staging ring, against every schedule of the storage queue
 and the copy stream. The schedule and the failures of API calls are inputs (`Environment`); a blocking call first lets
 the schedule run and then runs the device on until what it waits for has happened.
 */
module DirectStorage {
  import opened Common
  import opened DirectStorageDevice

  /** DirectStorageLoader::kRingSlots and kChunkBytes; nothing below depends on these values. */
  const RING_SLOTS := 4
  const CHUNK_BYTES := 0x200_0000

  datatype ReadError = EarlierReadFailed | DeviceFailed

  datatype Environment = Environment(moves: nat -> seq<Move>, fails: nat -> bool)

  /** No host call fails, no request and no copy: the queue and the stream run in whatever order they like. */
  ghost predicate Faultless(env: Environment) {
    && (forall n :: !env.fails(n))
    && forall n, i :: 0 <= i < |env.moves(n)| ==> !env.moves(n)[i].FailRequest? && !env.moves(n)[i].StreamFail?
  }

  /** Nothing has failed so far. */
  predicate Healthy(d: Device) { !d.error && !d.streamError }

  // ---- host steps on the device -------------------------------------------------------------------------

  lemma StartPipe(d: Device, j: Job)
    requires j.Valid() && Idle(d, j.f0) && j.mem0 == d.mem
    requires |d.slots| == j.ring && forall s :: 0 <= s < j.ring ==> |d.slots[s]| == j.chunk
    ensures Pipe(d, j, 0, 0)
  {
  }

  lemma JobChunks(j: Job)
    requires j.Valid()
    ensures j.Chunks() == ChunkCount(j.bytes, j.chunk)
  {
  }

  lemma SubmitKeeps(d: Device, j: Job, sub: nat, q: nat)
    requires Pipe(d, j, sub, q) && sub < j.Chunks()
    requires sub + 1 <= q / 2 + j.ring && 2 * (sub + 1 - j.ring) <= q - |d.stream|
    ensures j.Len(sub) >= 0 && Pipe(d.(pending := d.pending + [j.RequestFor(sub)]), j, sub + 1, q)
  {
    hide Cell, ToUint64, Job.Off, Job.Chunks, OpIs;
    ChunkInside(j, sub);
    var d' := d.(pending := d.pending + [j.RequestFor(sub)]);
    assert RequestIs(d'.pending[|d.pending|], j, sub);
    assert QueueIs(d'.pending, d'.completed, j, sub + 1);
    assert StreamIs(d'.stream, j, sub + 1, q);
    if !d.error {
      forall i: nat | sub + 1 - j.ring <= i < sub + 1 && Ready(d'.pending, d'.completed, j.f0, i)
        ensures j.Holds(d'.slots[Cell(i, j.ring)], i)
      {
        assert Ready(d.pending, d.completed, j.f0, i);
      }
    }
  }

  lemma IssueKeeps(d: Device, j: Job, sub: nat, q: nat)
    requires Pipe(d, j, sub, q) && j.f0 + (q + 2) / 2 <= d.completed
    ensures j.Len(q / 2) >= 0 && Pipe(d.(stream := d.stream + [j.OpAt(q)]), j, sub, q + 1)
  {
    hide Cell, ToUint64, Job.Off, Job.Chunks, RequestIs;
    ChunkInside(j, q / 2);
    var d' := d.(stream := d.stream + [j.OpAt(q)]);
    assert OpIs(d'.stream[|d.stream|], j, q);
    assert StreamIs(d'.stream, j, sub, q + 1);
    assert QueueIs(d'.pending, d'.completed, j, sub);
    if !d.error {
      forall i: nat | sub - j.ring <= i < sub && Ready(d'.pending, d'.completed, j.f0, i)
        ensures j.Holds(d'.slots[Cell(i, j.ring)], i)
      {
        assert Ready(d.pending, d.completed, j.f0, i);
      }
    }
  }

  /** A slot whose last record has run is free: the copy out of its previous chunk is done. */
  lemma CopiedFreesSlot(d: Device, j: Job, sub: nat, q: nat)
    requires Pipe(d, j, sub, q) && q % 2 == 0 && j.ring <= sub < q / 2 + j.ring
    requires Record(Cell(sub, j.ring)) !in d.stream
    ensures 2 * (sub + 1 - j.ring) <= q - |d.stream|
  {
    hide Cell, ToUint64, Job.Off, Job.Chunks, RequestIs;
    var t, e := 2 * (sub - j.ring) + 1, q - |d.stream|;
    DistinctCells(sub - j.ring, sub, j.ring);
    OpQueued(d, j, sub, q, t);
  }

  /** An operation already issued has left the stream, or is in it. */
  lemma OpQueued(d: Device, j: Job, sub: nat, q: nat, t: nat)
    requires Pipe(d, j, sub, q) && t < q
    ensures t < q - |d.stream| || exists x :: 0 <= x < |d.stream| && OpIs(d.stream[x], j, t)
  {
    hide Cell, ToUint64, Job.Off, Job.Chunks, RequestIs, OpIs;
    var x := t - (q - |d.stream|);
    if x >= 0 { assert OpIs(d.stream[x], j, t); }
  }

  lemma HeadRequestRuns(d: Device, j: Job, sub: nat, q: nat)
    requires Pipe(d, j, sub, q) && d.pending != []
    ensures !d.pending[0].done ==> InFlight(d, 0)
  {
    hide Cell, ToUint64, Job.Off, Job.Chunks, OpIs;
    assert RequestIs(d.pending[0], j, d.completed - j.f0);
  }

  lemma HeadOpRuns(d: Device, j: Job, sub: nat, q: nat)
    requires Pipe(d, j, sub, q) && d.stream != []
    ensures Apply(d, StreamRun).stream == d.stream[1..]
    ensures Apply(d, StreamRun).pending == d.pending && Apply(d, StreamRun).error == d.error
    ensures Apply(d, StreamRun).streamError == d.streamError
  {
    hide Cell, ToUint64, Job.Off, Job.Chunks, RequestIs;
    var t := q - |d.stream|;
    assert OpIs(d.stream[0], j, t);
    ChunkInside(j, t / 2);
  }

  /** Signals only move up, the stream only shrinks, and an empty queue stays empty and fails no more. */
  ghost predicate Progress(d: Device, d': Device) {
    && d'.completed >= d.completed && |d'.stream| <= |d.stream|
    && (d.pending == [] ==> d'.pending == [] && d'.error == d.error)
  }

  lemma MoveProgress(d: Device, m: Move, j: Job, sub: nat, q: nat)
    requires Pipe(d, j, sub, q)
    ensures Progress(d, Apply(d, m))
  {
    hide Pipe, Splice;
    if d.pending != [] { HeadFence(d, j, sub, q); }
  }

  lemma {:induction false} ScheduleMonotone(d: Device, moves: seq<Move>, j: Job, sub: nat, q: nat)
    requires Pipe(d, j, sub, q)
    ensures Progress(d, ApplyAll(d, moves))
  {
    hide Pipe, Apply;
    if moves != [] {
      ScheduleMonotone(d, moves[..|moves| - 1], j, sub, q);
      ScheduleKeeps(d, moves[..|moves| - 1], j, sub, q);
      MoveProgress(ApplyAll(d, moves[..|moves| - 1]), moves[|moves| - 1], j, sub, q);
    }
  }

  // ---- reads that must succeed ----------------------------------------------------------------------------------

  lemma {:induction false} StaysHealthy(d: Device, moves: seq<Move>)
    requires Healthy(d) && forall i :: 0 <= i < |moves| ==> !moves[i].FailRequest? && !moves[i].StreamFail?
    ensures Healthy(ApplyAll(d, moves))
  {
    hide Splice;
    if moves != [] {
      StaysHealthy(d, moves[..|moves| - 1]);
    }
  }

  /** Every request of a range inside the file is inside the file; a read of no chunks makes none. */
  lemma HeadInFile(d: Device, j: Job, sub: nat, q: nat)
    requires Pipe(d, j, sub, q) && d.pending != [] && (j.offset + j.bytes <= |j.file| || j.Chunks() == 0)
    ensures d.pending[0].off + d.pending[0].len <= |d.pending[0].file|
  {
    hide Cell, ToUint64, Job.Off, Job.Chunks, OpIs;
    var i := d.completed - j.f0;
    assert RequestIs(d.pending[0], j, i);
    ChunkInside(j, i);
    Fits64(j.offset + j.Off(i));
  }

  // ---- the end of a read ------------------------------------------------------------------------------------

  /** No chunk of a read that succeeded wrapped around 2^64. */
  lemma {:induction false} NoWrap(j: Job, i: nat)
    requires j.Valid() && i < j.Chunks()
    requires forall k: nat :: k < j.Chunks() ==> j.InFile(k)
    ensures j.FileOff(i) == j.offset + j.Off(i)
  {
    hide ToUint64, Job.Off, Job.Chunks;
    Offsets(j, i);
    if i > 0 {
      NoWrap(j, i - 1);
      ChunkInside(j, i);
      assert j.InFile(i - 1);
    }
    Fits64(j.offset + j.Off(i));
  }

  lemma Offsets(j: Job, i: nat)
    ensures j.Off(0) == 0 && (i > 0 ==> j.Off(i) == j.Off(i - 1) + j.chunk)
  {
    if i > 0 { assert i * j.chunk == (i - 1) * j.chunk + j.chunk; }
  }

  lemma Fits64(x: nat)
    requires x < 0x1_0000_0000_0000_0000
    ensures ToUint64(x) == x
  {
  }

  /** 64-bit arithmetic yields the right number of chunks exactly when bytes + chunk - 1 does not wrap; when it does, it
      yields none. */
  lemma ChunksExact(j: Job)
    requires j.Valid()
    ensures j.bytes <= 0x1_0000_0000_0000_0000 - j.chunk ==>
              j.Chunks() > 0 && j.Off(j.Chunks() - 1) < j.bytes <= j.Off(j.Chunks())
    ensures j.bytes > 0x1_0000_0000_0000_0000 - j.chunk ==> j.Chunks() == 0
  {
    var k := ToUint64(j.bytes + j.chunk - 1);
    var n := k / j.chunk;
    assert k == j.chunk * n + k % j.chunk;
    if j.bytes <= 0x1_0000_0000_0000_0000 - j.chunk {
      assert k == j.bytes + j.chunk - 1;
      assert n == 0 ==> j.chunk * n == 0;
      assert (n - 1) * j.chunk == n * j.chunk - j.chunk;
    } else {
      assert k == j.bytes + j.chunk - 1 - 0x1_0000_0000_0000_0000;
      DivModOf(k, j.chunk, 0, k);
    }
  }

  /** All chunks landed is the whole range landed. */
  lemma RangeLanded(d: Device, j: Job)
    requires j.Valid() && OutsideKept(d.mem, j)
    requires forall i: nat :: i < j.Chunks() ==> j.Landed(d.mem, i)
    requires j.bytes <= 0x1_0000_0000_0000_0000 - j.chunk
    ensures j.offset + j.bytes <= |j.file|
    ensures d.mem == Splice(j.mem0, j.dst, j.file[j.offset..j.offset + j.bytes])
  {
    ChunksExact(j);
    var n := j.Chunks();
    ChunkInside(j, n - 1);
    assert n * j.chunk == (n - 1) * j.chunk + j.chunk;
    assert j.Landed(d.mem, n - 1);
    forall k: nat | k < n ensures j.InFile(k) { assert j.Landed(d.mem, k); }
    NoWrap(j, n - 1);
    var want := Splice(j.mem0, j.dst, j.file[j.offset..j.offset + j.bytes]);
    forall x | 0 <= x < |d.mem| ensures d.mem[x] == want[x] {
      if j.dst <= x < j.dst + j.bytes {
        ByteLanded(d, j, x - j.dst);
      }
    }
  }

  lemma ByteLanded(d: Device, j: Job, y: nat)
    requires j.Valid() && y < j.bytes && |d.mem| == |j.mem0|
    requires forall i: nat :: i < j.Chunks() ==> j.Landed(d.mem, i)
    requires j.bytes <= 0x1_0000_0000_0000_0000 - j.chunk
    ensures j.offset + y < |j.file| && d.mem[j.dst + y] == j.file[j.offset + y]
  {
    hide ToUint64, ChunkCount, Job.Chunks;
    var i := ChunkOf(j, y);
    assert j.Landed(d.mem, i);
    forall k: nat | k < j.Chunks() ensures j.InFile(k) { assert j.Landed(d.mem, k); }
    NoWrap(j, i);
    ChunkInside(j, i);
    assert j.offset + j.Off(i) + j.Len(i) <= |j.file|;
    var r := y - j.Off(i);
    hide Job.Off, Job.InFile;
    assert d.mem[j.dst + j.Off(i)..j.dst + j.Off(i) + j.Len(i)][r] == d.mem[j.dst + y];
    assert j.file[j.FileOff(i)..j.FileOff(i) + j.Len(i)][r] == j.file[j.offset + y];
  }

  /** The chunk a byte of the range is in. */
  lemma ChunkOf(j: Job, y: nat) returns (i: nat)
    requires j.Valid() && y < j.bytes && j.bytes <= 0x1_0000_0000_0000_0000 - j.chunk
    ensures i < j.Chunks() && j.Off(i) <= y < j.Off(i) + j.Len(i)
  {
    hide ToUint64, ChunkCount, Job.Chunks;
    i := y / j.chunk;
    assert y == j.chunk * i + y % j.chunk;
    ChunksExact(j);
    LessByFactor(j.chunk, i, j.Chunks());
  }

  // ---- the loader ---------------------------------------------------------------------------------------------

  class DirectStorageLoader {
    const ringSlots: nat
    const chunkBytes: nat
    const env: Environment
    var dev: Device
    var nextFence: nat
    var slotFence: seq<nat>
    var broken: bool
    var totalBytes: nat
    var calls: nat
    /** Host calls that have failed. */
    ghost var faults: nat

    ghost predicate Shape()
      reads this
    {
      && ringSlots > 0 && 0 < chunkBytes < 0x1_0000_0000
      && |slotFence| == ringSlots && |dev.slots| == ringSlots
      && forall s :: 0 <= s < ringSlots ==> |dev.slots[s]| == chunkBytes
    }

    /** Between calls a loader that is not broken has nothing in flight. */
    ghost predicate Valid()
      reads this
    {
      Shape() && (!broken ==> Idle(dev, nextFence))
    }

    /** In the middle of job j: `sub` chunks submitted, `q` stream operations issued. */
    ghost predicate Busy(j: Job, sub: nat, q: nat)
      reads this
    {
      && Shape() && !broken && j.ring == ringSlots && j.chunk == chunkBytes
      && Pipe(dev, j, sub, q)
      && nextFence == j.f0 + sub
      && forall i: nat {:trigger Cell(i, ringSlots)} ::
           sub - ringSlots <= i < sub ==> slotFence[Cell(i, ringSlots)] == j.f0 + 1 + i
    }

    /** Read j has every reason to succeed. */
    ghost predicate Smooth(j: Job)
      reads this
    {
      Faultless(env) && Healthy(dev) && (j.offset + j.bytes <= |j.file| || (j.chunk > 0 && j.Chunks() == 0))
    }

    constructor (env: Environment, mem: seq<byte>, ring: seq<seq<byte>>, chunkBytes: nat)
      requires ring != [] && 0 < chunkBytes < 0x1_0000_0000 && forall s :: 0 <= s < |ring| ==> |ring[s]| == chunkBytes
      ensures Valid() && !broken && dev.mem == mem && ringSlots == |ring| && this.chunkBytes == chunkBytes
      ensures this.env == env && totalBytes == 0 && dev.completed == nextFence == 0
    {
      this.env, this.chunkBytes, ringSlots := env, chunkBytes, |ring|;
      dev := Device([], 0, false, ring, [], false, mem);
      nextFence, slotFence, broken, totalBytes, calls := 0, seq(|ring|, _ => 0), false, 0, 0;
      faults := 0;
    }

    /** The loader as shipped: four slots of 32 MiB. */
    static method Create(env: Environment, mem: seq<byte>) returns (l: DirectStorageLoader)
      ensures fresh(l) && l.Valid() && !l.broken && l.dev.mem == mem && l.env == env
      ensures l.ringSlots == 4 && l.chunkBytes == 32 * 1024 * 1024
    {
      l := new DirectStorageLoader(env, mem, seq(RING_SLOTS, _ => seq(CHUNK_BYTES, _ => 0)), CHUNK_BYTES);
    }

    lemma Starts(j: Job)
      requires Valid() && !broken && j.Valid() && j.mem0 == dev.mem && j.f0 == nextFence
      requires j.ring == ringSlots && j.chunk == chunkBytes
      ensures Busy(j, 0, 0) && dev.pending == [] && Healthy(dev)
    {
      hide Pipe, Cell;
      StartPipe(dev, j);
    }

    lemma BusyPipe(j: Job, sub: nat, q: nat)
      requires Busy(j, sub, q)
      ensures Pipe(dev, j, sub, q) && Shape() && !broken && nextFence == j.f0 + sub
      ensures OutsideKept(dev.mem, j) && sub <= j.Chunks()
    {
    }

    lemma BusyRing(j: Job, sub: nat, q: nat)
      requires Busy(j, sub, q)
      ensures ringSlots > 0
    {
    }

    /** Between any two host calls the queue and the stream run as the schedule says. */
    method DevicesRun(ghost j: Job, ghost sub: nat, ghost q: nat)
      requires Busy(j, sub, q)
      modifies this`dev, this`calls
      ensures dev == ApplyAll(old(dev), env.moves(old(calls))) && calls == old(calls) + 1
      ensures Busy(j, sub, q)
      ensures old(Smooth(j)) ==> Smooth(j)
      ensures dev.completed >= old(dev.completed) && |dev.stream| <= |old(dev.stream)|
      ensures old(dev.pending) == [] ==> dev.pending == [] && dev.error == old(dev.error)
    {
      hide Pipe, ApplyAll;
      ScheduleKeeps(dev, env.moves(calls), j, sub, q);
      ScheduleMonotone(dev, env.moves(calls), j, sub, q);
      PipeShape(ApplyAll(dev, env.moves(calls)), j, sub, q);
      if Smooth(j) { StaysHealthy(dev, env.moves(calls)); }
      dev := ApplyAll(dev, env.moves(calls));
      calls := calls + 1;
    }

    /** A call that may fail, by itself and whatever the devices do. */
    method HostCall(ghost j: Job, ghost sub: nat, ghost q: nat) returns (failed: bool)
      requires Busy(j, sub, q)
      modifies this`dev, this`calls, this`faults
      ensures dev == ApplyAll(old(dev), env.moves(old(calls))) && calls == old(calls) + 1
      ensures failed == env.fails(old(calls)) && faults == old(faults) + if failed then 1 else 0
      ensures Busy(j, sub, q)
      ensures old(Smooth(j)) ==> Smooth(j) && !failed
      ensures dev.completed >= old(dev.completed) && |dev.stream| <= |old(dev.stream)|
      ensures old(dev.pending) == [] ==> dev.pending == [] && dev.error == old(dev.error)
    {
      hide Pipe, ApplyAll;
      failed := env.fails(calls);
      faults := faults + if failed then 1 else 0;
      DevicesRun(j, sub, q);
    }

    /** Enqueues the request and, behind it, the signal of the next fence value. */
    method Submit(file: seq<byte>, off: nat, n: nat, slot: nat, ghost j: Job, ghost sub: nat, ghost q: nat)
      requires Busy(j, sub, q) && sub < j.Chunks()
      requires sub + 1 <= q / 2 + j.ring && 2 * (sub + 1 - j.ring) <= q - |dev.stream|
      requires slot == Cell(sub, ringSlots) && file == j.file && off == j.FileOff(sub) && n == j.Len(sub)
      modifies this`dev, this`slotFence, this`nextFence
      ensures Busy(j, sub + 1, q) && dev.mem == old(dev.mem)
      ensures old(Smooth(j)) ==> Smooth(j)
    {
      hide Cell, Pipe;
      SubmitKeeps(dev, j, sub, q);
      nextFence := nextFence + 1;
      slotFence := slotFence[slot := nextFence];
      dev := dev.(pending := dev.pending + [Request(file, off, n, slot, nextFence, false)]);
      forall i: nat | sub + 1 - ringSlots <= i < sub + 1
        ensures slotFence[Cell(i, ringSlots)] == j.f0 + 1 + i
      {
        if i < sub { DistinctCells(i, sub, ringSlots); }
      }
    }

    /** hipEventSynchronize on a slot's `copied` event: runs the stream until its last record has run. */
    method AwaitCopied(slot: nat, ghost j: Job, ghost sub: nat, ghost q: nat) returns (failed: bool)
      requires Busy(j, sub, q)
      modifies this`dev, this`calls, this`faults
      ensures Busy(j, sub, q) && Record(slot) !in dev.stream
      ensures old(Smooth(j)) ==> Smooth(j) && !failed
      ensures !failed ==> faults == old(faults)
    {
      hide Pipe;
      failed := HostCall(j, sub, q);
      while Record(slot) in dev.stream
        invariant Busy(j, sub, q)
        invariant faults == old(faults) + if failed then 1 else 0
        invariant old(Smooth(j)) ==> Smooth(j)
        decreases |dev.stream|
      {
        StepStream(j, sub, q);
      }
    }

    method StepStream(ghost j: Job, ghost sub: nat, ghost q: nat)
      requires Busy(j, sub, q) && dev.stream != []
      modifies this`dev
      ensures Busy(j, sub, q) && |dev.stream| == |old(dev.stream)| - 1
      ensures dev.pending == old(dev.pending) && dev.error == old(dev.error)
      ensures dev.streamError == old(dev.streamError)
    {
      hide Pipe, Apply;
      MoveKeeps(dev, StreamRun, j, sub, q);
      HeadOpRuns(dev, j, sub, q);
      PipeShape(Apply(dev, StreamRun), j, sub, q);
      dev := Apply(dev, StreamRun);
    }

    /** Blocks until DirectStorage has filled the slot of chunk `con`, or the queue reports an error. */
    method WaitFilled(slot: nat, ghost j: Job, ghost sub: nat, ghost con: nat) returns (ok: bool)
      requires Busy(j, sub, 2 * con) && con < sub && slot == Cell(con, ringSlots)
      modifies this`dev, this`calls
      ensures Busy(j, sub, 2 * con)
      ensures old(Smooth(j)) ==> Smooth(j) && ok
      ensures ok ==> dev.completed >= j.f0 + 1 + con
      ensures ok && con + 1 == j.Chunks() ==> dev.pending == [] && !dev.error
    {
      hide Cell, Pipe;
      PipeCounts(dev, j, sub, 2 * con);
      DevicesRun(j, sub, 2 * con);
      PipeCounts(dev, j, sub, 2 * con);
      if dev.completed < slotFence[slot] {
        while dev.completed < slotFence[slot] && !dev.error
          invariant Busy(j, sub, 2 * con)
          invariant old(Smooth(j)) ==> Smooth(j)
          decreases |dev.pending|, if dev.pending != [] && !dev.pending[0].done then 1 else 0
        {
          PipeCounts(dev, j, sub, 2 * con);
          StepQueue(j, sub, 2 * con);
        }
      }
      if dev.error {
        return false;
      }
      PipeCounts(dev, j, sub, 2 * con);
      DevicesRun(j, sub, 2 * con);
      return dev.completed >= slotFence[slot];
    }

    /** The queue's next step towards the oldest signal. */
    method StepQueue(ghost j: Job, ghost sub: nat, ghost q: nat)
      requires Busy(j, sub, q) && dev.pending != []
      modifies this`dev
      ensures Busy(j, sub, q)
      ensures old(Smooth(j)) ==> Smooth(j)
      ensures |dev.pending| < |old(dev.pending)|
              || (|dev.pending| == |old(dev.pending)| && !old(dev.pending[0].done) && dev.pending[0].done)
    {
      var head := dev.pending[0];
      var m := if head.done then Signal
               else if head.off + head.len <= |head.file| then Fill(0) else FailRequest(0);
      if Smooth(j) { HeadInFile(dev, j, sub, q); }
      HeadRequestRuns(dev, j, sub, q);
      MoveKeeps(dev, m, j, sub, q);
      PipeShape(Apply(dev, m), j, sub, q);
      hide Pipe;
      dev := Apply(dev, m);
    }

    /** hipMemcpyAsync or hipEventRecord: one more operation on the stream, or a failed call. */
    method Issue(op: StreamOp, ghost j: Job, ghost sub: nat, ghost q: nat) returns (failed: bool)
      requires Busy(j, sub, q) && j.f0 + (q + 2) / 2 <= dev.completed
      requires j.Len(q / 2) >= 0 && op == j.OpAt(q)
      modifies this`dev, this`calls, this`faults
      ensures failed ==> Busy(j, sub, q)
      ensures !failed ==> Busy(j, sub, q + 1)
      ensures old(Smooth(j)) ==> Smooth(j) && !failed
      ensures !failed ==> faults == old(faults)
      ensures dev.completed >= old(dev.completed)
      ensures old(dev.pending) == [] ==> dev.pending == [] && dev.error == old(dev.error)
    {
      hide Pipe;
      failed := HostCall(j, sub, q);
      if !failed {
        IssueKeeps(dev, j, sub, q);
        dev := dev.(stream := dev.stream + [op]);
      }
    }

    /** hipStreamSynchronize: runs the stream dry; reports what failed on it. */
    method Synchronize(ghost j: Job, ghost sub: nat, ghost q: nat) returns (failed: bool)
      requires Busy(j, sub, q) && dev.pending == [] && !dev.error
      modifies this`dev, this`calls, this`faults
      ensures Busy(j, sub, q) && dev.stream == [] && dev.pending == [] && !dev.error
      ensures !failed ==> !dev.streamError
      ensures old(Smooth(j)) ==> !failed
      ensures !failed ==> faults == old(faults)
    {
      var f := HostCall(j, sub, q);
      while dev.stream != []
        invariant Busy(j, sub, q) && dev.pending == [] && !dev.error
        invariant old(Smooth(j)) ==> Smooth(j) && !f
        invariant faults == old(faults) + if f then 1 else 0
        decreases |dev.stream|
      {
        StepStream(j, sub, q);
      }
      failed := f || dev.streamError;
    }

    /**
     `file` is the opened file, or `None` when DirectStorage cannot open the path. Success(true) means the whole range
     is in memory at `dst` and nothing else changed, for every schedule and every interleaving with the queue and the
     stream, and it leaves nothing in flight. It is what a read inside the file ends in when no call fails. So does one
     so long that its chunk count wraps to none, without moving a byte.
     */
    method Read(file: Option<seq<byte>>, offset: nat, bytes: nat, dst: nat) returns (r: Result<bool, ReadError>)
      requires Valid()
      requires offset < 0x1_0000_0000_0000_0000 && bytes < 0x1_0000_0000_0000_0000 && dst + bytes <= |dev.mem|
      requires file.Some? ==> |file.value| < 0x8000_0000_0000_0000
      modifies this
      ensures Valid()
      ensures old(broken) ==> r == Failure(EarlierReadFailed) && broken
      ensures !old(broken) ==> (broken <==> r.Failure?)
      ensures r.Success? ==> (r.value <==> bytes == 0 || file.Some?)
      ensures !old(broken) && (bytes == 0 || file.None?) ==> r.Success?
      ensures !old(broken) && file.Some? && bytes > 0 && Faultless(env) ==>
                (r == Success(true) <==>
                  offset + bytes <= |file.value| || bytes > 0x1_0000_0000_0000_0000 - chunkBytes)
      ensures r.Success? ==> faults == old(faults)
      ensures r == Success(true) && 0 < bytes <= 0x1_0000_0000_0000_0000 - chunkBytes ==>
                && offset + bytes <= |file.value|
                && dev.mem == Splice(old(dev.mem), dst, file.value[offset..offset + bytes])
      ensures r.Success? && (!r.value || !(0 < bytes <= 0x1_0000_0000_0000_0000 - chunkBytes)) ==> dev.mem == old(dev.mem)
      ensures SameOutside(old(dev.mem), dev.mem, dst, bytes)
      ensures totalBytes == if r == Success(true) && bytes > 0 then ToUint64(old(totalBytes) + bytes) else old(totalBytes)
    {
      if broken {
        return Failure(EarlierReadFailed);
      }
      if bytes == 0 {
        return Success(true);
      }
      if file.None? {
        return Success(false);
      }
      hide Pipe, Cell, ToUint64, Idle, SameOutside, Job.Chunks, DirectStorageLoader.Busy, DirectStorageLoader.Shape;
      ghost var j := Job(file.value, offset, bytes, dst, dev.mem, nextFence, ringSlots, chunkBytes);
      Starts(j);
      ChunksExact(j);
      ghost var submitted;
      r, submitted := MoveChunks(file.value, offset, bytes, dst, j);
      if r.Failure? {
        return;
      }
      BusyPipe(j, submitted, 2 * j.Chunks());
      ReadDone(dev, j, submitted, 2 * j.Chunks());
      totalBytes := ToUint64(totalBytes + bytes);
    }

    /** The loop of a read: submit ahead, copy out the oldest, and wait for the stream at the end. */
    method MoveChunks(file: seq<byte>, offset: nat, bytes: nat, dst: nat, ghost j: Job)
      returns (r: Result<bool, ReadError>, ghost submitted: nat)
      requires Busy(j, 0, 0) && dev.pending == [] && !dev.error
      requires file == j.file && offset == j.offset && bytes == j.bytes && dst == j.dst
      modifies this
      ensures totalBytes == old(totalBytes)
      ensures old(Smooth(j)) ==> r.Success?
      ensures r.Success? ==> faults == old(faults)
      ensures r.Success? ==> r.value && Busy(j, submitted, 2 * j.Chunks())
      ensures r.Success? ==> dev.stream == [] && dev.pending == [] && !dev.error && !dev.streamError
      ensures r.Failure? ==> r == Failure(DeviceFailed) && broken && Valid() && OutsideKept(dev.mem, j)
    {
      hide Pipe, Cell, ToUint64, ChunkCount, Job.Chunks, Idle, SameOutside, DirectStorageLoader.Shape;
      BusyPipe(j, 0, 0);
      JobChunks(j);
      hide DirectStorageLoader.Busy;
      var nChunks := ChunkCount(bytes, chunkBytes);
      var consumed := 0;
      var ahead := 0;
      while consumed < nChunks
        invariant 0 <= consumed <= ahead <= nChunks == j.Chunks()
        invariant Busy(j, ahead, 2 * consumed) && totalBytes == old(totalBytes)
        invariant (old(Smooth(j)) ==> Smooth(j)) && faults == old(faults)
        invariant consumed == nChunks ==> dev.pending == [] && !dev.error
        decreases nChunks - consumed
      {
        // Submit as far ahead as there are slots.
        while ahead < nChunks && ahead - consumed < ringSlots
          invariant consumed <= ahead <= nChunks && Busy(j, ahead, 2 * consumed) && totalBytes == old(totalBytes)
          invariant (old(Smooth(j)) ==> Smooth(j)) && faults == old(faults)
          decreases nChunks - ahead
        {
          r := SubmitNext(file, offset, bytes, ahead, consumed, j);
          if r.Failure? {
            return r, ahead;
          }
          ahead := ahead + 1;
        }
        BusyRing(j, ahead, 2 * consumed);
        r := ConsumeNext(dst, bytes, ahead, consumed, j);
        if r.Failure? {
          return r, ahead;
        }
        consumed := consumed + 1;
      }
      var e := Synchronize(j, ahead, 2 * consumed);
      if e {
        r := Fail(j, ahead, 2 * consumed);
        return r, ahead;
      }
      return Success(true), ahead;
    }

    method Fail(ghost j: Job, ghost sub: nat, ghost q: nat) returns (r: Result<bool, ReadError>)
      requires Busy(j, sub, q)
      modifies this`broken
      ensures Valid() && broken && r == Failure(DeviceFailed) && OutsideKept(dev.mem, j)
    {
      broken := true;
      r := Failure(DeviceFailed);
    }

    /** The slot's last occupant must be copied out by now; wait until it is. */
    method SubmitNext(file: seq<byte>, offset: nat, bytes: nat, submitted: nat, consumed: nat, ghost j: Job)
      returns (r: Result<bool, ReadError>)
      requires Busy(j, submitted, 2 * consumed) && submitted < j.Chunks() && submitted < consumed + ringSlots
      requires file == j.file && offset == j.offset && bytes == j.bytes
      modifies this
      ensures totalBytes == old(totalBytes)
      ensures old(Smooth(j)) ==> Smooth(j) && r.Success?
      ensures r.Success? ==> faults == old(faults)
      ensures r.Success? ==> Busy(j, submitted + 1, 2 * consumed)
      ensures r.Failure? ==> r == Failure(DeviceFailed) && broken && Valid() && OutsideKept(dev.mem, j)
    {
      hide Pipe, Cell, ToUint64, Job.Chunks, ChunkStart;
      var off := ToUint64(offset + ChunkStart(submitted, chunkBytes));
      var n := Min(chunkBytes, bytes - ChunkStart(submitted, chunkBytes));
      assert off == j.FileOff(submitted) && n == j.Len(submitted);
      hide Job.FileOff, Job.Len, Job.Off;
      var slot := Cell(submitted, ringSlots);
      PipeCounts(dev, j, submitted, 2 * consumed);
      if submitted >= ringSlots {
        var e := AwaitCopied(slot, j, submitted, 2 * consumed);
        if e {
          r := Fail(j, submitted, 2 * consumed);
          return;
        }
        CopiedFreesSlot(dev, j, submitted, 2 * consumed);
      } else {
        PipeStream(dev, j, submitted, 2 * consumed);
      }
      ChunkInside(j, submitted);
      Submit(file, off, n, slot, j, submitted, 2 * consumed);
      return Success(true);
    }

    /** Waits for the oldest submitted chunk, copies it out of its slot and records the slot's event. */
    method ConsumeNext(dst: nat, bytes: nat, submitted: nat, consumed: nat, ghost j: Job)
      returns (r: Result<bool, ReadError>)
      requires Busy(j, submitted, 2 * consumed) && consumed < submitted && consumed < j.Chunks()
      requires dst == j.dst && bytes == j.bytes
      modifies this
      ensures totalBytes == old(totalBytes)
      ensures old(Smooth(j)) ==> Smooth(j) && r.Success?
      ensures r.Success? ==> faults == old(faults)
      ensures r.Success? ==> Busy(j, submitted, 2 * (consumed + 1))
      ensures r.Success? && consumed + 1 == j.Chunks() ==> dev.pending == [] && !dev.error
      ensures r.Failure? ==> r == Failure(DeviceFailed) && broken && Valid() && OutsideKept(dev.mem, j)
    {
      hide Pipe, Cell, ToUint64, Job.Chunks, Job.FileOff, ChunkStart;
      var slot := Cell(consumed, ringSlots);
      var at, len := dst + ChunkStart(consumed, chunkBytes), Min(chunkBytes, bytes - ChunkStart(consumed, chunkBytes));
      PipeCounts(dev, j, submitted, 2 * consumed);
      ChunkInside(j, consumed);
      assert Copy(slot, at, len) == j.OpAt(2 * consumed) && Record(slot) == j.OpAt(2 * consumed + 1);
      hide Job.Len, Job.Off, Job.OpAt;
      var ok := WaitFilled(slot, j, submitted, consumed);
      if !ok {
        r := Fail(j, submitted, 2 * consumed);
        return;
      }
      var e := Issue(Copy(slot, at, len), j, submitted, 2 * consumed);
      if e {
        r := Fail(j, submitted, 2 * consumed);
        return;
      }
      e := Issue(Record(slot), j, submitted, 2 * consumed + 1);
      if e {
        r := Fail(j, submitted, 2 * consumed + 1);
        return;
      }
      return Success(true);
    }
  }

  lemma PipeStream(d: Device, j: Job, sub: nat, q: nat)
    requires Pipe(d, j, sub, q)
    ensures |d.stream| <= q
  {
  }

  /** A read whose loop and final synchronize succeeded: idle again, and the destination holds the range. */
  lemma ReadDone(d: Device, j: Job, sub: nat, q: nat)
    requires Pipe(d, j, sub, q) && q == 2 * j.Chunks() && d.stream == [] && d.pending == [] && !d.error && !d.streamError
    ensures Idle(d, j.f0 + sub)
    ensures j.bytes <= 0x1_0000_0000_0000_0000 - j.chunk ==>
              && j.offset + j.bytes <= |j.file|
              && d.mem == Splice(j.mem0, j.dst, j.file[j.offset..j.offset + j.bytes])
    ensures j.bytes > 0x1_0000_0000_0000_0000 - j.chunk ==> d.mem == j.mem0
  {
    hide Job.Landed, Job.Off, ToUint64;
    ChunksExact(j);
    assert forall i: nat :: i < j.Chunks() ==> 2 * i < q;
    if j.bytes <= 0x1_0000_0000_0000_0000 - j.chunk { RangeLanded(d, j); }
  }

  lemma PipeShape(d: Device, j: Job, sub: nat, q: nat)
    requires Pipe(d, j, sub, q)
    ensures |d.slots| == j.ring && forall s :: 0 <= s < j.ring ==> |d.slots[s]| == j.chunk
  {
  }

  lemma PipeCounts(d: Device, j: Job, sub: nat, q: nat)
    requires Pipe(d, j, sub, q)
    ensures j.Valid() && sub <= j.Chunks() && sub <= q / 2 + j.ring
    ensures j.f0 + (q + 1) / 2 <= d.completed <= j.f0 + sub
    ensures |d.pending| == sub - (d.completed - j.f0)
  {
  }
}
