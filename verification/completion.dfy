/**
 The completion protocol of a guarded conversion, at every point a crash can happen: the writer's calls change the
 operating system's cache, any cached place may reach the device at any time and in any order (or be torn on the way),
 and only a sync waits for everything. A crash leaves what is on the device.
 */
module Completion {
  import opened Common

  type Bytes = seq<int>

  /** The places of the container file the protocol is about: tensor data, the data digest, the completion marker. */
  datatype Place = Data(i: nat) | Digest | Marker

  datatype Disk = Disk(data: seq<Bytes>, digest: Bytes, marker: int) {
    function At(p: Place): Option<Bytes> {
      match p
      case Data(i) => if i < |data| then Some(data[i]) else None
      case Digest => Some(digest)
      case Marker => Some([marker])
    }
  }

  /** `emitted`: what the emit jobs write. `zeros`: the pre-sized file. `hash`: the container digest, as stored text. */
  datatype Run = Run(emitted: seq<Bytes>, zeros: seq<Bytes>, placeholder: Bytes, hash: seq<Bytes> -> Bytes) {
    ghost predicate Valid() { |zeros| == |emitted| }
  }

  /** Where the converter is: FinalizeHeader; the emit pass; ReadBackDigests' sync; then two PatchHeader calls, each a
      sync, a write and a sync. `Stopped`: it threw, or it is done. */
  datatype Phase =
    | Start | Emitting | ReadBack
    | DigestSync | DigestWrite | DigestDone
    | MarkerSync | MarkerWrite | MarkerDone
    | Stopped

  datatype State = State(phase: Phase, written: set<nat>, cache: Disk, disk: Disk)

  datatype Step =
    | Host                           // the converter's next call
    | WriteTensor(i: nat)            // one tensor of the emit pass, in any order
    | Throw                          // the converter dies; what it cached may still reach the device
    | WriteBack(p: Place)            // one cached place reaches the device
    | Tear(p: Place, bytes: Bytes)   // part of one does

  function WriteBackTo(disk: Disk, cache: Disk, p: Place): Disk {
    match p
    case Data(i) => if i < |disk.data| && i < |cache.data| then disk.(data := disk.data[i := cache.data[i]]) else disk
    case Digest => disk.(digest := cache.digest)
    case Marker => disk.(marker := cache.marker)
  }

  /** A place whose cached content differs from the device's may be found half written; the marker is one character. */
  function TearTo(disk: Disk, cache: Disk, p: Place, bytes: Bytes): Disk {
    if disk.At(p) == cache.At(p) then disk
    else match p
      case Data(i) => if i < |disk.data| && i < |cache.data| then disk.(data := disk.data[i := bytes]) else disk
      case Digest => disk.(digest := bytes)
      case Marker => disk
  }

  function Next(run: Run, s: State, step: Step): State
    requires run.Valid()
  {
    match step
    case WriteBack(p) => s.(disk := WriteBackTo(s.disk, s.cache, p))
    case Tear(p, bytes) => s.(disk := TearTo(s.disk, s.cache, p, bytes))
    case Throw => s.(phase := Stopped)
    case WriteTensor(i) =>
      if s.phase == Emitting && i < |run.emitted| && i < |s.cache.data| then
        s.(written := s.written + {i}, cache := s.cache.(data := s.cache.data[i := run.emitted[i]]))
      else s
    case Host =>
      match s.phase
      case Start => s.(phase := Emitting, written := {}, cache := Disk(run.zeros, run.placeholder, 0))
      // Finish: throws unless every planned tensor was written.
      case Emitting => s.(phase := if forall i: nat :: i < |run.emitted| ==> i in s.written then ReadBack else Stopped)
      case ReadBack => s.(phase := DigestSync, disk := s.cache)
      case DigestSync => s.(phase := DigestWrite, disk := s.cache)
      case DigestWrite => s.(phase := DigestDone, cache := s.cache.(digest := run.hash(s.cache.data)))
      case DigestDone => s.(phase := MarkerSync, disk := s.cache)
      case MarkerSync => s.(phase := MarkerWrite, disk := s.cache)
      case MarkerWrite => s.(phase := MarkerDone, cache := s.cache.(marker := 1))
      case MarkerDone => s.(phase := Stopped, disk := s.cache)
      case Stopped => s
  }

  function RunSteps(run: Run, s: State, steps: seq<Step>): State
    requires run.Valid()
  {
    if steps == [] then s else Next(run, RunSteps(run, s, steps[..|steps| - 1]), steps[|steps| - 1])
  }

  /** The device holds a finished container of this run. */
  ghost predicate Complete(run: Run, d: Disk) {
    d.data == run.emitted && d.digest == run.hash(run.emitted)
  }

  /** What VerifyData checks of a baseline. */
  predicate DigestMatches(run: Run, d: Disk) {
    d.digest == run.hash(d.data)
  }

  // ---- every crash point --------------------------------------------------------------------------------

  predicate Synced(phase: Phase) {
    phase in {DigestSync, DigestWrite, DigestDone, MarkerSync, MarkerWrite, MarkerDone}
  }

  /** The invariant: the digest is only written over data that is on the device, and the marker only over both. */
  ghost predicate Inv(run: Run, s: State) {
    && (s.phase == Start ==> s.disk.marker != 1 && s.cache == s.disk)
    && (s.phase !in {Start, Stopped} ==> |s.cache.data| == |run.emitted|)
    && (s.cache.marker == 1 || s.disk.marker == 1 ==> Complete(run, s.cache) && Complete(run, s.disk))
    && (s.phase == Emitting ==>
          && s.cache.marker != 1
          && forall i :: i in s.written && i < |run.emitted| ==> s.cache.data[i] == run.emitted[i])
    && (s.phase == ReadBack ==> s.cache.data == run.emitted && s.cache.marker != 1)
    && (Synced(s.phase) ==> s.cache.data == s.disk.data == run.emitted)
    && (s.phase in {DigestDone, MarkerSync, MarkerWrite, MarkerDone} ==> s.cache.digest == run.hash(run.emitted))
    && (s.phase in {MarkerSync, MarkerWrite, MarkerDone} ==> s.disk.digest == run.hash(run.emitted))
  }

  lemma StepKeeps(run: Run, s: State, step: Step)
    requires run.Valid() && Inv(run, s)
    ensures Inv(run, Next(run, s, step))
  {
    match step
    case Host =>
      if s.phase == Emitting && forall i: nat :: i < |run.emitted| ==> i in s.written {
        assert s.cache.data == run.emitted;
      }
    case WriteTensor(i) =>
    case Throw =>
    case WriteBack(p) =>
    case Tear(p, bytes) =>
  }

  lemma {:induction false} RunKeeps(run: Run, s: State, steps: seq<Step>)
    requires run.Valid() && Inv(run, s)
    ensures Inv(run, RunSteps(run, s, steps))
  {
    if steps != [] {
      RunKeeps(run, s, steps[..|steps| - 1]);
      StepKeeps(run, RunSteps(run, s, steps[..|steps| - 1]), steps[|steps| - 1]);
    }
  }

  /** A conversion into a place that held no finished container: after a crash at any point, a marker on the device means
      every tensor and the digest are on the device too, whatever was written back, torn or reordered. */
  lemma MarkerMeansComplete(run: Run, before: Disk, steps: seq<Step>)
    requires run.Valid() && before.marker != 1
    ensures var s := RunSteps(run, State(Start, {}, before, before), steps);
            s.disk.marker == 1 ==> Complete(run, s.disk) && DigestMatches(run, s.disk)
  {
    RunKeeps(run, State(Start, {}, before, before), steps);
  }

  /** Over a finished container the marker alone does not: the old marker may still be on the device when new bytes are.
      The digest check is what refuses that file. */
  lemma OldMarkerSurvives(run: Run, before: Disk, i: nat)
    requires run.Valid() && before.marker == 1 && DigestMatches(run, before)
    requires i < |run.zeros| && i < |before.data| && before.data[i] != run.zeros[i]
    requires run.hash(before.data[i := run.zeros[i]]) != run.hash(before.data)
    ensures var s := RunSteps(run, State(Start, {}, before, before), [Host, WriteBack(Data(i))]);
            s.disk.marker == 1 && !DigestMatches(run, s.disk)
  {
    var s0 := State(Start, {}, before, before);
    var steps := [Host, WriteBack(Data(i))];
    assert steps[..1] == [Host] && [Host][..0] == [];
    assert RunSteps(run, s0, []) == s0;
    assert RunSteps(run, s0, [Host]) == Next(run, s0, Host);
    assert RunSteps(run, s0, steps) == Next(run, Next(run, s0, Host), WriteBack(Data(i)));
  }

  /** Exactly when the marker can be trusted on its own: at every crash point iff no finished container was overwritten
      (one whose digest tells it from the pre-sized file's zeros in some tensor). */
  lemma MarkerTrustedExactly(run: Run, before: Disk)
    requires run.Valid()
    requires before.marker == 1 ==>
               && DigestMatches(run, before)
               && exists i: nat :: i < |run.zeros| && i < |before.data| && before.data[i] != run.zeros[i]
                    && run.hash(before.data[i := run.zeros[i]]) != run.hash(before.data)
    ensures (forall steps :: RunSteps(run, State(Start, {}, before, before), steps).disk.marker == 1 ==>
               DigestMatches(run, RunSteps(run, State(Start, {}, before, before), steps).disk))
            <==> before.marker != 1
  {
    if before.marker != 1 {
      forall steps ensures RunSteps(run, State(Start, {}, before, before), steps).disk.marker == 1 ==>
                             DigestMatches(run, RunSteps(run, State(Start, {}, before, before), steps).disk) {
        MarkerMeansComplete(run, before, steps);
      }
    } else {
      var i: nat :| i < |run.zeros| && i < |before.data| && before.data[i] != run.zeros[i]
                    && run.hash(before.data[i := run.zeros[i]]) != run.hash(before.data);
      OldMarkerSurvives(run, before, i);
    }
  }

  /** What a crash can do to the device: any place may have arrived or not, on its own, and one that was on its way may hold
      anything, the marker's one character excepted. */
  lemma CrashCanLeave(run: Run, s: State, i: nat, bytes: Bytes)
    requires run.Valid() && i < |s.disk.data| && i < |s.cache.data|
    ensures Next(run, s, WriteBack(Data(i))).disk == s.disk.(data := s.disk.data[i := s.cache.data[i]])
    ensures Next(run, s, WriteBack(Digest)).disk == s.disk.(digest := s.cache.digest)
    ensures Next(run, s, WriteBack(Marker)).disk == s.disk.(marker := s.cache.marker)
    ensures s.disk.data[i] != s.cache.data[i] ==>
              Next(run, s, Tear(Data(i), bytes)).disk == s.disk.(data := s.disk.data[i := bytes])
    ensures s.disk.digest != s.cache.digest ==> Next(run, s, Tear(Digest, bytes)).disk == s.disk.(digest := bytes)
    ensures s.disk.data[i] == s.cache.data[i] ==> Next(run, s, Tear(Data(i), bytes)) == s
    ensures s.disk.digest == s.cache.digest ==> Next(run, s, Tear(Digest, bytes)) == s
    ensures Next(run, s, Tear(Marker, bytes)) == s && Next(run, s, Throw) == s.(phase := Stopped)
  {
  }

  // ---- marker and digest together -------------------------------------------------------------------------

  ghost predicate Injective(run: Run) {
    forall a, b :: run.hash(a) == run.hash(b) ==> a == b
  }

  /** Stored text that is the digest of no data, as the placeholder is. */
  ghost predicate NoHash(run: Run, text: Bytes) {
    forall a :: run.hash(a) != text
  }

  /** A digest field holds the old file's digest, this run's, or what is no digest at all. */
  ghost predicate Known(run: Run, before: Disk, text: Bytes) {
    text == before.digest || text == run.hash(run.emitted) || NoHash(run, text)
  }

  /** A digest torn between two texts does not happen to be the digest of other data. */
  ghost predicate TornKnown(run: Run, before: Disk, steps: seq<Step>) {
    forall step :: step in steps && step.Tear? && step.p == Digest ==> Known(run, before, step.bytes)
  }

  /** What holds over an old container too: the digest is only written over data that is on the device, and no digest
      field ever holds the digest of anything but the old data and the new. */
  ghost predicate DigestInv(run: Run, before: Disk, s: State) {
    && Known(run, before, s.cache.digest) && Known(run, before, s.disk.digest)
    && (s.phase == Emitting ==>
          && |s.cache.data| == |run.emitted|
          && forall i :: i in s.written && i < |run.emitted| ==> s.cache.data[i] == run.emitted[i])
    && (s.phase == ReadBack ==> s.cache.data == run.emitted)
    && (Synced(s.phase) ==> s.cache.data == s.disk.data == run.emitted)
  }

  lemma DigestStep(run: Run, before: Disk, s: State, step: Step)
    requires run.Valid() && NoHash(run, run.placeholder) && DigestInv(run, before, s)
    requires step.Tear? && step.p == Digest ==> Known(run, before, step.bytes)
    ensures DigestInv(run, before, Next(run, s, step))
  {
    hide Known;
    PlaceholderKnown(run, before);
    if step.Host? && s.phase == Emitting && forall i: nat :: i < |run.emitted| ==> i in s.written {
      assert s.cache.data == run.emitted;
    }
  }

  lemma PlaceholderKnown(run: Run, before: Disk)
    requires NoHash(run, run.placeholder)
    ensures Known(run, before, run.placeholder) && Known(run, before, before.digest)
    ensures Known(run, before, run.hash(run.emitted))
  {
  }

  lemma {:induction false} DigestRun(run: Run, before: Disk, steps: seq<Step>)
    requires run.Valid() && NoHash(run, run.placeholder) && TornKnown(run, before, steps)
    ensures DigestInv(run, before, RunSteps(run, State(Start, {}, before, before), steps))
  {
    hide Known;
    if steps == [] {
      PlaceholderKnown(run, before);
    } else {
      DigestRun(run, before, steps[..|steps| - 1]);
      DigestStep(run, before, RunSteps(run, State(Start, {}, before, before), steps[..|steps| - 1]), steps[|steps| - 1]);
    }
  }

  /** Whatever the place held before: at every crash point a file that passes the completion check and the data digest is
      the whole container of this run, or the old finished container untouched. */
  lemma MarkerAndDigestTrusted(run: Run, before: Disk, steps: seq<Step>)
    requires run.Valid() && Injective(run) && NoHash(run, run.placeholder) && TornKnown(run, before, steps)
    requires before.marker == 1 ==> DigestMatches(run, before)
    ensures var d := RunSteps(run, State(Start, {}, before, before), steps).disk;
            d.marker == 1 && DigestMatches(run, d) ==> Complete(run, d) || (before.marker == 1 && d == before)
  {
    var d := RunSteps(run, State(Start, {}, before, before), steps).disk;
    if before.marker != 1 {
      MarkerMeansComplete(run, before, steps);
    } else {
      DigestRun(run, before, steps);
      assert DigestMatches(run, d) ==> d.digest == before.digest || d.digest == run.hash(run.emitted);
    }
  }

  // ---- runs that finish -------------------------------------------------------------------------------------

  /** Where the converter is, so far are its files, whatever was there before. */
  ghost predicate OnTrack(run: Run, s: State) {
    && (s.phase == Emitting ==>
          && |s.cache.data| == |run.emitted|
          && forall i :: i in s.written && i < |run.emitted| ==> s.cache.data[i] == run.emitted[i])
    && (s.phase == ReadBack ==> s.cache.data == run.emitted)
    && (Synced(s.phase) ==> s.cache.data == s.disk.data == run.emitted)
    && (s.phase in {DigestDone, MarkerSync, MarkerWrite, MarkerDone} ==> s.cache.digest == run.hash(run.emitted))
    && (s.phase == MarkerDone ==> s.cache.marker == 1)
  }

  lemma OnTrackStep(run: Run, s: State, step: Step)
    requires run.Valid() && OnTrack(run, s)
    ensures OnTrack(run, Next(run, s, step))
  {
    if step.Host? && s.phase == Emitting && forall i: nat :: i < |run.emitted| ==> i in s.written {
      assert s.cache.data == run.emitted;
    }
  }

  lemma {:induction false} OnTrackRun(run: Run, before: Disk, steps: seq<Step>)
    requires run.Valid()
    ensures OnTrack(run, RunSteps(run, State(Start, {}, before, before), steps))
  {
    hide OnTrack;
    if steps == [] {
      OnTrackStart(run, before);
    } else {
      OnTrackRun(run, before, steps[..|steps| - 1]);
      OnTrackStep(run, RunSteps(run, State(Start, {}, before, before), steps[..|steps| - 1]), steps[|steps| - 1]);
    }
  }

  lemma OnTrackStart(run: Run, before: Disk)
    ensures OnTrack(run, State(Start, {}, before, before))
  {
  }

  /** Over any file, in every run: the converter's last call leaves the data, its digest and the marker on the device. */
  lemma LastCallCompletes(run: Run, before: Disk, steps: seq<Step>)
    requires run.Valid()
    ensures var s := RunSteps(run, State(Start, {}, before, before), steps);
            s.phase == MarkerDone ==>
              Next(run, s, Host) == State(Stopped, s.written, s.cache, Disk(run.emitted, run.hash(run.emitted), 1))
  {
    OnTrackRun(run, before, steps);
  }

  function EmitCalls(k: nat): seq<Step> {
    if k == 0 then [] else EmitCalls(k - 1) + [WriteTensor(k - 1)]
  }

  lemma {:induction false} EmitAll(run: Run, s: State, steps: seq<Step>, k: nat)
    requires run.Valid() && k <= |run.emitted|
    requires var t := RunSteps(run, s, steps); t.phase == Emitting && |t.cache.data| == |run.emitted|
    ensures var t := RunSteps(run, s, steps + EmitCalls(k));
            t.phase == Emitting && |t.cache.data| == |run.emitted| && forall i: nat :: i < k ==> i in t.written
  {
    if k == 0 {
      assert steps + EmitCalls(0) == steps;
    } else {
      EmitAll(run, s, steps, k - 1);
      assert (steps + EmitCalls(k))[..|steps + EmitCalls(k)| - 1] == steps + EmitCalls(k - 1);
    }
  }

  lemma OneMore(run: Run, s: State, steps: seq<Step>, step: Step)
    requires run.Valid()
    ensures RunSteps(run, s, steps + [step]) == Next(run, RunSteps(run, s, steps), step)
  {
    assert (steps + [step])[..|steps + [step]| - 1] == steps;
  }

  /** The state after `k` more of the converter's own calls. */
  function AfterCalls(run: Run, s: State, k: nat): State
    requires run.Valid()
  {
    if k == 0 then s else Next(run, AfterCalls(run, s, k - 1), Host)
  }

  lemma {:induction false} CallsAppend(run: Run, s: State, steps: seq<Step>, k: nat)
    requires run.Valid()
    ensures RunSteps(run, s, steps + seq(k, _ => Host)) == AfterCalls(run, RunSteps(run, s, steps), k)
  {
    if k == 0 {
      assert steps + seq(k, _ => Host) == steps;
    } else {
      CallsAppend(run, s, steps, k - 1);
      assert steps + seq(k, _ => Host) == (steps + seq(k - 1, _ => Host)) + [Host];
      OneMore(run, s, steps + seq(k - 1, _ => Host), Host);
    }
  }

  /** From the end of the emit pass, seven calls bring the converter to its last one. */
  lemma SevenCalls(run: Run, s: State)
    requires run.Valid() && s.phase == Emitting && forall i: nat :: i < |run.emitted| ==> i in s.written
    ensures AfterCalls(run, s, 7).phase == MarkerDone
  {
    assert AfterCalls(run, s, 1).phase == ReadBack;
    assert AfterCalls(run, s, 3).phase == DigestWrite;
    assert AfterCalls(run, s, 5).phase == MarkerSync;
  }

  /** A run nothing disturbs does finish, whatever was there before: marker, digest and data are all on the device. */
  lemma UndisturbedRunFinishes(run: Run, before: Disk)
    requires run.Valid()
    ensures var steps := [Host] + EmitCalls(|run.emitted|) + seq(8, _ => Host);
            RunSteps(run, State(Start, {}, before, before), steps).disk == Disk(run.emitted, run.hash(run.emitted), 1)
  {
    hide AfterCalls, Next;
    var s0 := State(Start, {}, before, before);
    OneMore(run, s0, [], Host);
    Begins(run, before);
    assert [] + [Host] == [Host];
    var emit := [Host] + EmitCalls(|run.emitted|);
    EmitAll(run, s0, [Host], |run.emitted|);
    CallsAppend(run, s0, emit, 7);
    SevenCalls(run, RunSteps(run, s0, emit));
    var most := emit + seq(7, _ => Host);
    LastCallCompletes(run, before, most);
    OneMore(run, s0, most, Host);
    assert emit + seq(8, _ => Host) == most + [Host];
  }

  lemma Begins(run: Run, before: Disk)
    requires run.Valid()
    ensures RunSteps(run, State(Start, {}, before, before), []) == State(Start, {}, before, before)
    ensures Next(run, State(Start, {}, before, before), Host)
            == State(Emitting, {}, Disk(run.zeros, run.placeholder, 0), before)
  {
  }
}

/**
 Publishing a trellis container: it is written as <output>.partial, checked once it is on the device and closed, and only
 then renamed. Directory changes reach the device in the order they were made, at any time.
 */
module Publish {
  import opened Common

  datatype Name = Output | Partial | VerifyFailed

  /** `Earlier`: what an earlier run left under a name. */
  datatype File = Earlier | New

  datatype DirOp = Remove(n: Name) | Create(n: Name) | Move(source: Name, target: Name)

  type Dir = map<Name, File>

  function ApplyOp(d: Dir, op: DirOp): Dir {
    match op
    case Remove(n) => d - {n}
    case Create(n) => d[n := New]
    case Move(a, b) => if a in d then (d - {a})[b := d[a]] else d
  }

  function ApplyOps(d: Dir, ops: seq<DirOp>): Dir {
    if ops == [] then d else ApplyOp(ApplyOps(d, ops[..|ops| - 1]), ops[|ops| - 1])
  }

  /** The new file: tensors written, and the verify result in its header (None: the placeholder). */
  datatype Content = Content(written: set<nat>, verify: Option<bool>)

  datatype Phase =
    | RemoveOutput | RemovePartial | RemoveFailed | Finalize | Emitting | SyncFile | Verify
    | PatchSync(ok: bool) | PatchWrite(ok: bool) | PatchDone(ok: bool) | Rename(ok: bool) | Stopped

  /** `dir0` is the directory the run starts from; `ops` the changes made, of which the first `settled` are on the device. */
  datatype State = State(phase: Phase, dir0: Dir, ops: seq<DirOp>, settled: nat, cache: Content, disk: Content) {
    function Now(): Dir { ApplyOps(dir0, ops) }

    /** The directory a crash leaves. */
    function OnDevice(): Dir
      requires settled <= |ops|
    {
      ApplyOps(dir0, ops[..settled])
    }
  }

  datatype Step =
    | Host
    | WriteTensor(i: nat)
    | Checked(ok: bool)              // the reconstruction check read the closed file and decided
    | Throw
    | SettleDir
    | WriteBack(written: set<nat>)   // some of the cached tensors, and perhaps the header, reach the device
    | WriteBackHeader

  /** `tensors`: how many were planned; `full`: --trellis-verify full. */
  function Next(tensors: nat, full: bool, s: State, step: Step): State {
    match step
    case Throw => s.(phase := Stopped)
    case SettleDir => if s.settled < |s.ops| then s.(settled := s.settled + 1) else s
    case WriteBack(w) => s.(disk := s.disk.(written := s.disk.written + (w * s.cache.written)))
    case WriteBackHeader => s.(disk := s.disk.(verify := s.cache.verify))
    case WriteTensor(i) =>
      if s.phase == Emitting && i < tensors then s.(cache := s.cache.(written := s.cache.written + {i})) else s
    case Checked(ok) => if s.phase == Verify && full then s.(phase := PatchSync(ok)) else s
    case Host =>
      match s.phase
      case RemoveOutput => s.(phase := RemovePartial, ops := s.ops + [Remove(Output)])
      case RemovePartial => s.(phase := RemoveFailed, ops := s.ops + [Remove(Partial)])
      case RemoveFailed => s.(phase := Finalize, ops := s.ops + [Remove(VerifyFailed)])
      case Finalize =>
        s.(phase := Emitting, ops := s.ops + [Create(Partial)], cache := Content({}, None), disk := Content({}, None))
      case Emitting => s.(phase := if forall i: nat :: i < tensors ==> i in s.cache.written then SyncFile else Stopped)
      case SyncFile => s.(phase := Verify, disk := s.cache)
      case Verify => if full then s else s.(phase := Rename(true))
      case PatchSync(ok) => s.(phase := PatchWrite(ok), disk := s.cache)
      case PatchWrite(ok) => s.(phase := PatchDone(ok), cache := s.cache.(verify := Some(ok)))
      case PatchDone(ok) => s.(phase := Rename(ok), disk := s.cache)
      case Rename(ok) => s.(phase := Stopped, ops := s.ops + [Move(Partial, if ok then Output else VerifyFailed)])
      case Stopped => s
  }

  function RunSteps(tensors: nat, full: bool, s: State, steps: seq<Step>): State {
    if steps == [] then s
    else Next(tensors, full, RunSteps(tensors, full, s, steps[..|steps| - 1]), steps[|steps| - 1])
  }

  /** A whole container, and with the full check one that passed it. */
  ghost predicate Finished(tensors: nat, full: bool, c: Content) {
    && (forall i: nat :: i < tensors ==> i in c.written)
    && (full ==> c.verify == Some(true))
  }

  const OPENING := [Remove(Output), Remove(Partial), Remove(VerifyFailed), Create(Partial)]

  /** How many of the opening directory changes a phase has behind it. */
  function Opened(phase: Phase): nat {
    match phase
    case RemoveOutput => 0
    case RemovePartial => 1
    case RemoveFailed => 2
    case Finalize => 3
    case _ => 4
  }

  ghost predicate Inv(tensors: nat, full: bool, s: State) {
    && s.settled <= |s.ops|
    && (s.phase.Stopped? || s.ops == OPENING[..Opened(s.phase)])
    && (s.phase.Stopped? ==>
          || s.ops <= OPENING
          || s.ops == OPENING + [Move(Partial, VerifyFailed)]
          || (s.ops == OPENING + [Move(Partial, Output)] && s.cache == s.disk && Finished(tensors, full, s.disk)))
    && (s.phase == SyncFile ==> forall i: nat :: i < tensors ==> i in s.cache.written)
    && (s.phase.Verify? || s.phase.PatchSync? || s.phase.PatchWrite? ==>
          s.cache == s.disk && forall i: nat :: i < tensors ==> i in s.cache.written)
    && (s.phase.PatchDone? ==> s.cache == s.disk.(verify := Some(s.phase.ok)) && forall i: nat :: i < tensors ==> i in s.cache.written)
    && (s.phase.Rename? ==>
          && s.cache == s.disk && (forall i: nat :: i < tensors ==> i in s.cache.written)
          && (full ==> s.cache.verify == Some(s.phase.ok)))
  }

  lemma StepKeeps(tensors: nat, full: bool, s: State, step: Step)
    requires Inv(tensors, full, s)
    ensures Inv(tensors, full, Next(tensors, full, s, step))
  {
    if step.WriteBack? && s.cache == s.disk {
      assert s.disk.written + (step.written * s.cache.written) == s.disk.written;
    }
    if step.Throw? && !s.phase.Stopped? {
      assert OPENING[..Opened(s.phase)] <= OPENING;
    }
  }

  lemma {:induction false} RunKeeps(tensors: nat, full: bool, s: State, steps: seq<Step>)
    requires Inv(tensors, full, s)
    ensures Inv(tensors, full, RunSteps(tensors, full, s, steps))
  {
    hide Inv;
    if steps != [] {
      RunKeeps(tensors, full, s, steps[..|steps| - 1]);
      StepKeeps(tensors, full, RunSteps(tensors, full, s, steps[..|steps| - 1]), steps[|steps| - 1]);
    }
  }

  /** Directory after a prefix of the changes a run can make. */
  lemma PrefixOutput(d: Dir, ops: seq<DirOp>, k: nat)
    requires k <= |ops| && (ops <= OPENING || exists t :: ops == OPENING + [Move(Partial, t)])
    requires forall n :: n in d ==> d[n] == Earlier
    ensures var e := ApplyOps(d, ops[..k]);
            Output in e ==> (e[Output] == Earlier && k == 0)
                            || (e[Output] == New && ops == OPENING + [Move(Partial, Output)] && k == 5)
  {
    var full := if ops <= OPENING then OPENING else ops;
    assert ops[..k] == full[..k];
    Unfold(d, full, k);
  }

  lemma Unfold(d: Dir, ops: seq<DirOp>, k: nat)
    requires k <= |ops| <= 5 && (ops == OPENING || exists t :: ops == OPENING + [Move(Partial, t)])
    ensures var d1 := ApplyOp(d, Remove(Output));
            var d4 := ApplyOp(ApplyOp(ApplyOp(d1, Remove(Partial)), Remove(VerifyFailed)), Create(Partial));
            && (k == 0 ==> ApplyOps(d, ops[..k]) == d)
            && (1 <= k <= 4 ==> Output !in ApplyOps(d, ops[..k]))
            && (k == 5 ==> ApplyOps(d, ops[..k]) == ApplyOp(d4, ops[4]) && Output !in d4 && Partial in d4 && d4[Partial] == New)
  {
    if k > 0 {
      assert ops[..k][..k - 1] == ops[..k - 1];
      Unfold(d, ops, k - 1);
      var e := ApplyOps(d, ops[..k - 1]);
      assert ApplyOps(d, ops[..k]) == ApplyOp(e, ops[k - 1]);
      if k == 5 { Opening4(d, ops); }
    }
  }

  lemma Opening4(d: Dir, ops: seq<DirOp>)
    requires |ops| >= 4 && ops[..4] == OPENING
    ensures ApplyOps(d, ops[..4])
            == ApplyOp(ApplyOp(ApplyOp(ApplyOp(d, Remove(Output)), Remove(Partial)), Remove(VerifyFailed)), Create(Partial))
  {
    assert OPENING[..3][..2] == OPENING[..2] && OPENING[..2][..1] == OPENING[..1] && OPENING[..1][..0] == [];
    assert ApplyOps(d, []) == d;
    assert ApplyOps(d, OPENING[..1]) == ApplyOp(d, Remove(Output));
    assert ApplyOps(d, OPENING[..2]) == ApplyOp(ApplyOp(d, Remove(Output)), Remove(Partial));
    assert ApplyOps(d, OPENING[..3]) == ApplyOp(ApplyOp(ApplyOp(d, Remove(Output)), Remove(Partial)), Remove(VerifyFailed));
    assert OPENING[..3] == ops[..4][..3];
  }

  /** At every point of every run, and after a crash there: <output> is absent, or still what an earlier run left before the
      removal settled, or a whole container of this run that passed the check it was to pass. */
  lemma OutputNeverUnfinished(tensors: nat, full: bool, dir0: Dir, steps: seq<Step>)
    requires forall n :: n in dir0 ==> dir0[n] == Earlier
    ensures var s := RunSteps(tensors, full, State(RemoveOutput, dir0, [], 0, Content({}, None), Content({}, None)), steps);
            && s.settled <= |s.ops|
            && (Output in s.OnDevice() ==>
                  || (s.OnDevice()[Output] == Earlier && s.settled == 0)
                  || (s.OnDevice()[Output] == New && Finished(tensors, full, s.disk)))
            && (Output in s.Now() ==>
                  || (s.Now()[Output] == Earlier && s.ops == [])
                  || (s.Now()[Output] == New && Finished(tensors, full, s.disk)))
  {
    var s0 := State(RemoveOutput, dir0, [], 0, Content({}, None), Content({}, None));
    RunKeeps(tensors, full, s0, steps);
    var s := RunSteps(tensors, full, s0, steps);
    Dir0Kept(tensors, full, s0, steps);
    assert s.phase.Stopped? || OPENING[..Opened(s.phase)] <= OPENING;
    PrefixOutput(dir0, s.ops, s.settled);
    PrefixOutput(dir0, s.ops, |s.ops|);
    assert s.ops[..|s.ops|] == s.ops;
  }

  lemma {:induction false} Dir0Kept(tensors: nat, full: bool, s: State, steps: seq<Step>)
    ensures RunSteps(tensors, full, s, steps).dir0 == s.dir0
  {
    if steps != [] { Dir0Kept(tensors, full, s, steps[..|steps| - 1]); }
  }

  // ---- what a run that gets there publishes ---------------------------------------------------------------------

  /** In every run, the rename of a container that passed makes it <output> and nothing else stays beside it; one that failed
      its check becomes <output>.verify-failed, and there is no <output>. */
  lemma RenameDecides(tensors: nat, full: bool, dir0: Dir, steps: seq<Step>)
    requires forall n :: n in dir0 ==> dir0[n] == Earlier
    ensures var s := RunSteps(tensors, full, State(RemoveOutput, dir0, [], 0, Content({}, None), Content({}, None)), steps);
            s.phase.Rename? ==>
              var d := Next(tensors, full, s, Host).Now();
              && d == (if s.phase.ok then map[Output := New] else map[VerifyFailed := New])
              && (full ==> s.disk.verify == Some(s.phase.ok)) && (!full ==> s.phase.ok)
              && forall i: nat :: i < tensors ==> i in s.disk.written
  {
    var s0 := State(RemoveOutput, dir0, [], 0, Content({}, None), Content({}, None));
    RunKeeps(tensors, full, s0, steps);
    Dir0Kept(tensors, full, s0, steps);
    VerdictNeedsCheck(tensors, full, s0, steps);
    var s := RunSteps(tensors, full, s0, steps);
    if s.phase.Rename? {
      var ops := Next(tensors, full, s, Host).ops;
      assert OPENING[..4] == OPENING == ops[..4] && ops[..5] == ops;
      Opening4(dir0, ops);
      assert ApplyOps(dir0, ops) == ApplyOp(ApplyOps(dir0, ops[..4]), ops[4]);
      OnlyPartial(dir0);
    }
  }

  lemma OnlyPartial(d: Dir)
    ensures ApplyOp(ApplyOp(ApplyOp(ApplyOp(d, Remove(Output)), Remove(Partial)), Remove(VerifyFailed)), Create(Partial))
            == map[Partial := New]
  {
    var e := ApplyOp(ApplyOp(ApplyOp(d, Remove(Output)), Remove(Partial)), Remove(VerifyFailed));
    forall n | n in e ensures false {
      match n
      case Output =>
      case Partial =>
      case VerifyFailed =>
    }
  }

  /** Without the full check no verdict but the passing one is reached. */
  lemma {:induction false} VerdictNeedsCheck(tensors: nat, full: bool, s: State, steps: seq<Step>)
    requires s.phase == RemoveOutput
    ensures var t := RunSteps(tensors, full, s, steps);
            !full ==> !t.phase.PatchSync? && !t.phase.PatchWrite? && !t.phase.PatchDone? && t.phase != Rename(false)
  {
    if steps != [] { VerdictNeedsCheck(tensors, full, s, steps[..|steps| - 1]); }
  }

  /** The emit pass, tensor by tensor. */
  function EmitCalls(k: nat): seq<Step> {
    if k == 0 then [] else EmitCalls(k - 1) + [WriteTensor(k - 1)]
  }

  /** The converter's own calls from end to end; with the full check, the check says `ok`. */
  function OwnCalls(tensors: nat, full: bool, ok: bool): seq<Step> {
    [Host, Host, Host, Host] + EmitCalls(tensors) + [Host, Host]
    + if full then [Checked(ok), Host, Host, Host, Host] else [Host, Host]
  }

  lemma {:induction false} RunOn(tensors: nat, full: bool, s: State, a: seq<Step>, b: seq<Step>)
    ensures RunSteps(tensors, full, s, a + b) == RunSteps(tensors, full, RunSteps(tensors, full, s, a), b)
  {
    if b == [] {
      assert a + b == a;
    } else {
      RunOn(tensors, full, s, a, b[..|b| - 1]);
      assert (a + b)[..|a + b| - 1] == a + b[..|b| - 1];
    }
  }

  lemma RunTwo(tensors: nat, full: bool, s: State, x: Step, y: Step)
    ensures RunSteps(tensors, full, s, [x, y]) == Next(tensors, full, Next(tensors, full, s, x), y)
  {
    assert [x, y][..1] == [x] && [x][..0] == [];
    assert RunSteps(tensors, full, s, [x]) == Next(tensors, full, s, x);
  }

  lemma {:induction false} EmitAll(tensors: nat, full: bool, s: State, k: nat)
    requires s.phase == Emitting && k <= tensors
    ensures var t := RunSteps(tensors, full, s, EmitCalls(k));
            t.phase == Emitting && t.dir0 == s.dir0 && t.ops == s.ops && forall i: nat :: i < k ==> i in t.cache.written
  {
    if k > 0 {
      EmitAll(tensors, full, s, k - 1);
      assert EmitCalls(k)[..|EmitCalls(k)| - 1] == EmitCalls(k - 1);
    }
  }

  lemma Opens(tensors: nat, full: bool, dir0: Dir)
    ensures var s0 := State(RemoveOutput, dir0, [], 0, Content({}, None), Content({}, None));
            RunSteps(tensors, full, s0, [Host, Host, Host, Host]).phase == Emitting
  {
    var s0 := State(RemoveOutput, dir0, [], 0, Content({}, None), Content({}, None));
    RunOn(tensors, full, s0, [Host, Host], [Host, Host]);
    assert [Host, Host] + [Host, Host] == [Host, Host, Host, Host];
    RunTwo(tensors, full, s0, Host, Host);
    RunTwo(tensors, full, RunSteps(tensors, full, s0, [Host, Host]), Host, Host);
  }

  lemma Closes(tensors: nat, full: bool, ok: bool, s: State)
    requires s.phase == Emitting && forall i: nat :: i < tensors ==> i in s.cache.written
    ensures var t := RunSteps(tensors, full, RunSteps(tensors, full, s, [Host, Host]),
                              if full then [Checked(ok), Host, Host, Host] else [Host]);
            t.phase == Rename(!full || ok)
  {
    RunTwo(tensors, full, s, Host, Host);
    var v := RunSteps(tensors, full, s, [Host, Host]);
    if full {
      RunOn(tensors, full, v, [Checked(ok), Host], [Host, Host]);
      assert [Checked(ok), Host] + [Host, Host] == [Checked(ok), Host, Host, Host];
      RunTwo(tensors, full, v, Checked(ok), Host);
      RunTwo(tensors, full, RunSteps(tensors, full, v, [Checked(ok), Host]), Host, Host);
    } else {
      assert [Host][..0] == [];
      assert RunSteps(tensors, full, v, []) == v;
    }
  }

  /** A run nothing disturbs publishes: whatever was there before, it ends with <output> the whole new container, or, when
      the full check refused it, with it under <output>.verify-failed and no <output>. */
  lemma UndisturbedRunPublishes(tensors: nat, full: bool, ok: bool, dir0: Dir)
    requires forall n :: n in dir0 ==> dir0[n] == Earlier
    ensures var s := RunSteps(tensors, full, State(RemoveOutput, dir0, [], 0, Content({}, None), Content({}, None)),
                              OwnCalls(tensors, full, ok));
            && s.Now() == (if !full || ok then map[Output := New] else map[VerifyFailed := New])
            && (forall i: nat :: i < tensors ==> i in s.disk.written)
            && (Finished(tensors, full, s.disk) <==> !full || ok)
  {
    hide Next;
    var s0 := State(RemoveOutput, dir0, [], 0, Content({}, None), Content({}, None));
    var open, emit := [Host, Host, Host, Host], EmitCalls(tensors);
    var close := if full then [Checked(ok), Host, Host, Host] else [Host];
    Opens(tensors, full, dir0);
    RunOn(tensors, full, s0, open, emit);
    EmitAll(tensors, full, RunSteps(tensors, full, s0, open), tensors);
    RunOn(tensors, full, s0, open + emit, [Host, Host]);
    RunOn(tensors, full, s0, open + emit + [Host, Host], close);
    Closes(tensors, full, ok, RunSteps(tensors, full, s0, open + emit));
    var most := open + emit + [Host, Host] + close;
    assert OwnCalls(tensors, full, ok) == most + [Host];
    assert (most + [Host])[..|most|] == most;
    RenameDecides(tensors, full, dir0, most);
    LastCall(tensors, full, RunSteps(tensors, full, s0, most));
  }

  /** Directory changes reach the device one by one, in their order; once all have, a crash leaves what the run made. */
  lemma {:induction false} Settles(tensors: nat, full: bool, s: State, k: nat)
    requires s.settled + k <= |s.ops|
    ensures RunSteps(tensors, full, s, seq(k, _ => SettleDir)) == s.(settled := s.settled + k)
    ensures s.settled + k == |s.ops| ==> RunSteps(tensors, full, s, seq(k, _ => SettleDir)).OnDevice() == s.Now()
  {
    if k > 0 {
      Settles(tensors, full, s, k - 1);
      assert seq(k, _ => SettleDir)[..k - 1] == seq(k - 1, _ => SettleDir);
    }
    assert s.ops[..|s.ops|] == s.ops;
  }

  lemma LastCall(tensors: nat, full: bool, s: State)
    requires s.phase.Rename?
    ensures Next(tensors, full, s, Host).disk == s.disk
  {
  }
}
