# r4dx host-side bookkeeping: model and proofs

r4dx runs and converts language models on a GPU. Around the GPU work sits host code that decides where rows go, which
bytes may be reused, when a slot is free and what a crash leaves behind. This project models that code and proves what it
promises. Each module follows one source component; code that updates state in place is a class or an array loop proved
against a specification function, and the main theorems are about that function over every input, run or schedule.

| files | component |
|---|---|
| `dflash_ring`, `dflash_draft`, `dflash_feed` | the drafter's K/V ring with append, gap, rewind and reset; its flat stores; its host injection loop |
| `dflash_tail`, `dflash_cover` | injecting only the last window of rows, and collecting exactly those rows |
| `direct_storage_device`, `direct_storage` | the storage queue, the copy stream and the host loop over a ring of staging slots |
| `batch_plan`, `batch_run` | batched decode slots: the slot table, the step check, the metadata array, and whole runs |
| `layout_set`, `reuse_plan`, `reuse_sound` | layout set ids, the reuse planner, and why a partial recomputation equals a full one |
| `completion` | marker, digest and rename order at every crash point (modules Completion and Publish) |
| `topk_merge`, `selector_walk` | the sharded top-k merge and the selector's lattice walk |
| `probe_ring` | the debug probe's stamp ring and its mirror |
| `layout_audit`, `layout_tables`, `layout_names` | the text-stack coverage audit, the five layouts' name tables and skip rules, and what turns on the names |
| `awq_source`, `fused_experts` | virtual checkpoint tensors: packed nibbles, views of fused experts |
| `wav`, `float_round`, `bf16`, `audio_embed`, `fake_quant` | RIFF decoding, rounding to double, float and bf16, the row-parallel embedder, fake quantization |

## How the model stands for the code

- K/V encodings, logits, float products and softmax values are uninterpreted functions of their inputs; the embedder and
  the quantizers are over the reals. Integer PCM is rounded where the decoder rounds: the quotient to double, its cast to
  float. Order-only floats (`Logit`) keep NaN and both infinities.
- Fixed-width arithmetic is written out where it can matter: 64-bit chunk counts and offsets, 32-bit metadata entries and
  ids, the layer index, bf16 patterns, WAV samples. Positions and counters below 2^63 are plain integers.
- Devices are state machines. The storage queue fills requests in any order and signals fences in submission order; the
  stream is first in, first out; a wait returns only when its fence or the error has fired. A schedule is any sequence of
  such moves between two host calls, and any host call may fail. `kRingSlots` is 4 and `kChunkBytes` 32 MiB in
  `src/core/include/r4dx/core/direct_storage.hpp`; the proofs take any positive ring and any chunk below 2^32.
- A crash leaves what is on the device: cached writes reach it at any time, in any order, possibly torn, and only a sync
  waits for all of them. Directory changes reach it in order.

## Where the code and its documentation part

- `DirectStorageLoader.Read`: more than 2^64 - chunk bytes counts as 0 chunks, and the call reports success without
  reading (`ChunksExact`, and the clauses of `Read` about such sizes).
- The ring write's single wrap needs rows <= slots + 1 for every start; the two load bounds do not imply it
  (`OneWrapFitsExactly`).
- The completion marker alone is trustworthy only where no finished container was overwritten (`MarkerTrustedExactly`);
  marker and digest together are trustworthy everywhere (`MarkerAndDigestTrusted`).
- Integer PCM does not always stay below 1: a 32-bit mean of 1 - 2^-25 or more is stored as 1.0
  (`StoredInRangeExactly`, `FullScaleIsOne`).
- `Advance` does not bound a slot's position; the step check does (`SlotsAreIndependent`). The 32-bit KV addresses are
  exact up to slots * ctx <= 2^31 (`AddressesFitExactly`).
- The coverage audit never reports names of layers past the config's last (`FullAuditEmptyIff`). The `LayerOf` of the
  gemma, lfm2 and llama layouts has no overflow guard: it overflows exactly when the digits after the prefix spell a number
  past its index type, 32 bits wide for gemma and 64 for the others (`ScanUnguarded`).
- The fused-experts source looks for a stored per-expert tensor of expert 0 only; another one is listed twice
  (`RepeatsExactly`, `StrayListedTwice`).
- The WAV walk's comment counts a data length of 0 among streamed files; the code takes 0 bytes (`ZeroDataLengthRefused`).
- `FakeQuantWApplyRef` reads past the table of its whole groups when the group does not divide K (`TableFitsExactly`), and
  `FakeQuantRowRef` past its row when the block size does not (`ExtentFitsExactly`).
- `dflash_draft.cpp:395-396` says only `Reset` lowers the valid-from bound; `Rewind` below it lowers it too, to an empty range (`StepRefines` covers both).
- A sample rate of 2^31 or more comes out negative: the field is cast to int (`RecoversMonoMeans`).
- `ValidFrom()` itself differs between a drafter fed everything and one fed the tail; what drafts read does not.

## Model

| member | source | states |
|---|---|---|
| DflashRing.StepRefines | src/model/dflash_draft.cpp:364-466 | one inject, gap, rewind or reset keeps `0 <= valid_from <= n_injected` and the agreement of ring and log: each readable position is in cell `p % slots` with the last row injected for it |
| DflashRing.RunRefines | src/model/dflash_draft.cpp:364-466 | after every sequence of the three calls, accepted or refused, the ring refines the unbounded truncatable log of what was injected |
| DflashRing.InjectRefines | src/model/dflash_draft.cpp:380-464 | an append, or an injection past a gap, is an append to the log or a restart of it at the gap's end |
| DflashRing.PutAllWritten | src/model/dflash_draft.cpp:441-462 | of rows longer than the ring, the last `slots` survive, each in its own cell |
| DflashRing.PutAllKept | src/model/dflash_draft.cpp:441-462 | writing rows leaves every position that is still inside the window alone |
| DflashRing.RunOwners | src/model/dflash_draft.h:236-247 | tagging cells with the position they were written for: after every run the readable range is exactly the positions whose cell is still their own |
| DflashRing.VisibleIffNotOverwritten | src/model/dflash_draft.h:241-262 | a position of the log is readable if and only if nothing has overwritten its cell since: neither `Rewind` nor a gap gives up more than it must |
| DflashRing.AttentionReadsLog | src/model/dflash_draft.h:29-38 | the rows a draft step attends to are the log's rows of the same positions, clipped to window and valid range |
| DflashRing.StepSame | src/model/dflash_draft.cpp:364-466 | drafters that agree on frontier and readable rows accept the same calls and agree again afterwards |
| DflashRing.SameForever | src/model/dflash_draft.cpp:364-466 | such drafters are indistinguishable: under every later inject, gap, rewind and reset they refuse the same calls and every draft reads the same rows |
| DflashDraft.TwoCopiesArePutAll | src/model/dflash_draft.cpp:441-462 | the at most two copies of the ring write equal writing the rows one position at a time modulo the ring, also when they overlap |
| DflashDraft.OneWrapFitsExactly | src/model/dflash_draft.cpp:243-248 | when the second copy stays inside its layer's region, exactly: rows + start % slots <= 2 * slots, so for every start iff rows <= slots + 1; the load bounds alone (window 1, 64 rows) do not give it |
| DflashDraft.SpliceRegion | src/model/dflash_draft.cpp:441-462 | a copy inside one layer's region changes that region as the ring write should and no other layer's |
| DflashDraft.DflashDraft.constructor | src/model/dflash_draft.cpp:243-248 | a loaded drafter has empty rings for every layer and frontier 0 |
| DflashDraft.DflashDraft.Reset | src/model/dflash_draft.h:236-240 | both rings of every layer take the reset step; the rope delta stays |
| DflashDraft.DflashDraft.SetRopeDelta | src/model/dflash_draft.h:284-286 | only the rope delta changes |
| DflashDraft.DflashDraft.Rewind | src/model/dflash_draft.cpp:364-371 | every layer's K and V ring takes the rewind step, or nothing changes and the call is refused, exactly for n outside [0, InjectedCount()] |
| DflashDraft.DflashDraft.WriteLayer | src/model/dflash_draft.cpp:441-462 | one layer's cells become what a position-by-position ring write gives; every other layer's cells stay |
| DflashDraft.DflashDraft.InjectFeatures | src/model/dflash_draft.cpp:373-466 | every layer's K and V ring takes the inject step; in each layer's store the cell of every position still inside the ring holds that layer's encoding of its own feature row at its rope position; refusals (too many rows, below the frontier) change nothing |
| DflashDraft.KeysLand | src/model/dflash_draft.cpp:441-462 | cell il * slots + position % slots of the flat K store holds layer il's key of that position's row, for every row of the call the ring still holds |
| DflashTail.TailStartRule | src/model/dflash_tail_plan.h:24-31 | exactly bad arguments are refused; the tail start is the last point of the call's slice grid that leaves a whole window, or the call's start when none does, so at least a window and less than a window and a slice is injected |
| DflashTail.TailSlices | src/model/dflash_tail_plan.h:33-42 | the slices follow one another from 0 to the row count, each of 1 to `slice` rows; a slice below 1 is refused |
| DflashTail.SlicesContiguous | src/model/dflash_tail_plan.h:33-42 | whatever the row count, cutting from any row on covers the rest once, in order |
| DflashTail.CallsSuffix | src/model/dflash_tail_plan.h:24-42 | the slices of the tail are a suffix of the slices of the full run, same starts and same row counts |
| DflashTail.CallsContiguous | src/model/dflash_tail_plan.h:33-42 | the injections of a call are contiguous and end where the call ends |
| DflashTail.ContiguousRun | src/model/dflash_draft.cpp:373-466 | contiguous injections from the frontier on append all their rows to the log |
| DflashTail.GapThenTail | src/model/dflash_tail_plan.h:24-69 | a drafter fed only the tail after a gap holds the same last window as one fed everything |
| DflashTail.TailFeedsTheSameDrafter | src/model/dflash_tail_plan.h:24-69 | for every call starting at the frontier: the tail from `DflashTailStart` is accepted by `CheckTailInject` and leaves a drafter that no later run can tell from one fed every row |
| DflashTail.CheckTailInjectExact | src/model/dflash_tail_plan.h:52-69 | over the ring's own window, `CheckTailInject` accepts the last rows of a call exactly when they end at the Model's position, the drafter can inject them, and they leave the same drafter as injecting every row; a larger window refuses more |
| DflashTail.RefusalsTrue | src/model/dflash_tail_plan.h:52-69 | for every window: each refusal names a fault the call has, and a call is taken only when it has none of them |
| DflashCover.TailCover.Create | src/model/dflash_tail_plan.h:76-78 | an empty or negative range is refused; otherwise nothing is handed over yet |
| DflashCover.TailCover.OfferSlice | src/model/dflash_tail_plan.h:84-108 | the part of a slice that falls into the tail, with its place in the tail buffer; late first slices and holes are errors that change nothing |
| DflashCover.TailCover.Complete | src/model/dflash_tail_plan.h:109-109 | true exactly when every row of the tail was handed over |
| DflashCover.HandsOverEachRowOnce | src/model/dflash_tail_plan.h:72-116 | whatever is offered without an error, the rows handed over are [start, next) in order, each once, at its own place |
| DflashCover.CallCovers | src/model/dflash_tail_plan.h:72-116 | contiguous slices from at or before the tail start to its end are accepted and complete it |
| DflashCover.CallFillsTail | src/model/dflash_tail_plan.h:72-116 | slices that follow one another over a call hand over exactly the rows [s, n), each once |
| DflashCover.SlicesFillTail | src/model/dflash_tail_plan.h:24-116 | so do the slices a call is cut into, with the tail starting where `DflashTailStart` puts it |
| DflashCover.HoleNoticed | src/model/dflash_tail_plan.h:98-102 | a missing position makes the cover refuse or stay incomplete: no hole goes unnoticed |
| DflashFeed.SliceEncodes | src/model/hybrid_model.cpp:22-37 | a slice of the host buffer encodes as those rows of the conversation, feature rows and rope positions alike |
| DflashFeed.InjectSlice | src/model/hybrid_model.cpp:22-37 | one slice of the host buffer is injected at its position into every layer |
| DflashFeed.InjectFeatureRowsFromHost | src/model/hybrid_model.cpp:22-37 | the slice loop leaves every layer's rings as running the whole call list on them would; a slice below 1, slices above the drafter's row limit and a start below its frontier are refused with nothing changed |
| DirectStorageDevice.IdleStays | src/core/direct_storage.cpp:238-273 | a device with nothing in flight stays so under every schedule: the first `kRingSlots` submissions of a call need no event wait |
| DirectStorageDevice.ChunksApart | src/core/direct_storage.cpp:244-249 | distinct chunks land in disjoint ranges of the destination |
| DirectStorageDevice.FillHolds | src/core/direct_storage.cpp:197-212 | a request the queue completes leaves its own chunk in its slot |
| DirectStorageDevice.QueueMoveKeeps | src/core/direct_storage.cpp:197-236 | filling, disturbing or failing any unfinished request keeps the pipeline invariant: no slot is refilled while a copy out of it is pending |
| DirectStorageDevice.SignalKeeps | src/core/direct_storage.cpp:208-212 | fences are signalled in submission order, and only behind their request |
| DirectStorageDevice.CopyLands | src/core/direct_storage.cpp:259-266 | a copy that runs reads its own chunk and puts it at its own place |
| DirectStorageDevice.StreamMoveKeeps | src/core/direct_storage.cpp:259-269 | running or failing the next stream operation keeps the invariant |
| DirectStorageDevice.ScheduleKeeps | src/core/direct_storage.cpp:197-273 | every interleaving of queue and stream, of any length, keeps the invariant between two host calls |
| DirectStorage.SubmitKeeps | src/core/direct_storage.cpp:197-212 | submitting a chunk into a slot whose previous copy has run keeps the invariant |
| DirectStorage.IssueKeeps | src/core/direct_storage.cpp:261-265 | issuing the copy or the record of a filled chunk keeps the invariant |
| DirectStorage.CopiedFreesSlot | src/core/direct_storage.cpp:253-257 | once a slot's last record has run, the copy out of its previous chunk has run: the slot may be reused |
| DirectStorage.ScheduleMonotone | src/core/direct_storage.cpp:197-273 | no schedule takes back a signal or adds stream work |
| DirectStorage.ChunksExact | src/core/direct_storage.cpp:244-249 | the chunk count in 64-bit arithmetic is exact up to 2^64 - chunk bytes and 0 above |
| DirectStorage.NoWrap | src/core/direct_storage.cpp:245-256 | chunk offsets into the file do not wrap for a file that holds the range |
| DirectStorage.RangeLanded | src/core/direct_storage.cpp:238-273 | all chunks landed means the destination is the file range |
| DirectStorage.DirectStorageLoader.constructor | src/core/direct_storage.cpp:275-285 | a new loader is idle and not broken |
| DirectStorage.DirectStorageLoader.Create | src/core/include/r4dx/core/direct_storage.hpp:20-24 | the loader as shipped has four slots of 32 MiB |
| DirectStorageDevice.DevicesCan | src/core/direct_storage.cpp:197-236 | what the schedules are made of: any request in flight may be filled, garbled or failed, in any order, and any copy may fail half done |
| DirectStorage.DirectStorageLoader.DevicesRun | src/core/direct_storage.cpp:238-273 | between two host calls the devices run the schedule's moves; the pipeline invariant holds again, and nothing fails that the schedule does not fail |
| DirectStorage.DirectStorageLoader.HostCall | src/core/direct_storage.cpp:220-222 | a call fails exactly when the environment says so, and every failure is counted |
| DirectStorage.DirectStorageLoader.Submit | src/core/direct_storage.cpp:197-212 | the request carries its chunk's file range and slot, the slot its fence value; one more chunk is in flight |
| DirectStorage.DirectStorageLoader.AwaitCopied | src/core/direct_storage.cpp:255-255 | terminates, and no record of the slot is pending |
| DirectStorage.DirectStorageLoader.WaitFilled | src/core/direct_storage.cpp:224-236 | terminates; returns success only when the slot holds its chunk, and always when nothing failed and the range is in the file; after the last chunk nothing is queued |
| DirectStorage.DirectStorageLoader.Issue | src/core/direct_storage.cpp:261-265 | one more operation, in order, behind those issued |
| DirectStorage.DirectStorageLoader.Synchronize | src/core/direct_storage.cpp:268-269 | the stream is empty, and an error on it is reported |
| DirectStorage.DirectStorageLoader.SubmitNext | src/core/direct_storage.cpp:251-258 | the next chunk is submitted into a slot nobody reads any more, or the loader is broken |
| DirectStorage.DirectStorageLoader.ConsumeNext | src/core/direct_storage.cpp:259-266 | the oldest chunk's copy and record are on the stream, or the loader is broken |
| DirectStorage.DirectStorageLoader.Fail | src/core/direct_storage.cpp:214-217 | the loader is broken and the call fails; memory outside the destination is as it was |
| DirectStorage.DirectStorageLoader.Read | src/core/direct_storage.cpp:238-273 | terminates on every schedule; success with a readable file and a size up to 2^64 - chunk bytes means `dst` holds `file[offset..offset+bytes]`, nothing else changed and no host call failed; when no call, request or copy fails an unbroken loader succeeds exactly if the range is in the file or longer than that; a failure breaks the loader for good; an unbroken loader has nothing in flight afterwards |
| DirectStorage.ReadDone | src/core/direct_storage.cpp:268-273 | a read that synchronized without an error is idle again and its range has landed |
| BatchPlan.SlotTable.Create | src/model/batch_plan.h:58-63 | 1 to 16 free slots and a positive context, or an error |
| BatchPlan.SlotTable.Activate | src/model/batch_plan.h:70-82 | a slot becomes active at a position inside the context, or nothing changes |
| BatchPlan.SlotTable.Release | src/model/batch_plan.h:83-86 | only the one slot is freed |
| BatchPlan.SlotTable.Clear | src/model/batch_plan.h:87-89 | every slot is free |
| BatchPlan.SlotTable.Advance | src/model/batch_plan.h:91-96 | only the one slot's position moves, by one, without a bound of its own |
| BatchPlan.VerdictExact | src/model/batch_plan.h:121-141 | no complaint is raised exactly for a legal step: 1 to slots rows, distinct active slots, each with room |
| BatchPlan.BitsDistinct | src/model/batch_plan.h:128-133 | different slots have different bits: the mask decides distinctness |
| BatchPlan.MarkAdds | src/model/batch_plan.h:128-133 | marking a slot marks it and no other |
| BatchPlan.CheckStep | src/model/batch_plan.h:121-141 | the loop over the bit mask returns the first problem in row order, or none |
| BatchPlan.FillStepMeta | src/model/batch_plan.h:147-171 | an illegal step throws and writes nothing; a legal one writes each row's id, rope position, KV address, used length, GDN lines and mrope rows at their offsets, and no other entry; row by row the GDN line is the slot plus one, inside the table, never the reserved line 0 and never shared |
| BatchPlan.WriteRow | src/model/batch_plan.h:152-169 | one row's entries, and no others |
| BatchPlan.RowWritten | src/model/batch_plan.h:152-169 | the sections of different rows do not overlap |
| BatchPlan.AddressesFitExactly | src/model/batch_plan.h:155-158 | the 32-bit entries are exact for every slot and position if and only if slots * ctx <= 2^31 and ctx < 2^31 |
| BatchRun.RegionsApart | src/model/batch_plan.h:10-13 | the KV regions of different slots are disjoint |
| BatchRun.RowDecodes | src/model/batch_plan.h:147-171 | a row of a step decodes its own slot's sequence by one token, whatever the other rows do |
| BatchRun.StepIsIndependent | src/model/model.cpp:3080-3285 | after a legal step and its advances every stepped slot holds its sequence decoded by its token and every other slot what it held |
| BatchRun.CallsTaken | src/model/model.cpp:2976-3285 | which calls are taken, in plain bounds, and the whole slot table after each; a refused call changes neither table nor device |
| BatchRun.ImportHolds | src/model/model.cpp:2976-3062 | importing a prefilled sequence fills its slot and changes no other |
| BatchRun.FailedImportHolds | src/model/model.cpp:2995-3029 | an import that throws midway leaves anything in its own slot, frees it and changes no other |
| BatchRun.NextHolds | src/model/model.cpp:2976-3285 | each call of the batch engine, imports and steps that throw midway included, acts on every slot as it would on that sequence alone |
| BatchRun.SlotsAreIndependent | src/model/batch_plan.h:10-14 | over every run of imports, releases and steps, any of them failing midway, each slot's region holds exactly its own sequence, as if it were decoded alone, and never outgrows its context |
| LayoutSets.ParseLayoutSetId | src/convert/include/r4dx_convert/linear_layouts.hpp:135-175 | the token loop reads a canonical id, or refuses |
| LayoutSets.RoundTrip | src/convert/include/r4dx_convert/linear_layouts.hpp:123-175 | parsing the id of a writable layout set gives the set back, ignored fields at their defaults |
| LayoutSets.ParsesExactly | src/convert/include/r4dx_convert/linear_layouts.hpp:135-175 | a string is accepted exactly when it is the id of a writable set |
| LayoutSets.IdInjective | src/convert/include/r4dx_convert/linear_layouts.hpp:118-133 | writable sets with one id are the same set up to ignored fields |
| LayoutSets.NamesFollowId | src/convert/include/r4dx_convert/linear_layouts.hpp:93-121 | linears with the same id plan the same tensor names |
| LayoutSets.IdsSpelled | src/convert/include/r4dx_convert/linear_layouts.hpp:123-133 | the ids as recorded: none, bf16, w4a16.g64, w8a16.g128, trellis.k4, and joined by + |
| LayoutSets.NamesSpelled | src/convert/include/r4dx_convert/linear_layouts.hpp:93-113 | the tensor names as the loader looks for them |
| LayoutSets.DecimalDigits | src/convert/include/r4dx_convert/linear_layouts.hpp:123-133 | printed numbers read back |
| LayoutSets.SplitJoin | src/convert/include/r4dx_convert/linear_layouts.hpp:135-150 | splitting what was joined gives the tokens back |
| ReusePlanner.ReadRecord | src/convert/main.cpp:1657-1683 | the record is accepted exactly when it names this run's linears, each with a canonical set |
| ReusePlanner.CheckGroups | src/convert/main.cpp:1685-1712 | the runtime's group map must list exactly the linears off the default group, at their group |
| ReusePlanner.CheckKept | src/convert/main.cpp:1713-1727 | every linear recorded as kept in bf16 must be so in the record |
| ReusePlanner.CopyJob | src/convert/main.cpp:1770-1788 | a job is copied only if its every tensor is in the baseline with the same shape and size |
| ReusePlanner.RecomputeJob | src/convert/main.cpp:1739-1768 | an affected job's baseline tensors must be exactly those its recorded set names |
| ReusePlanner.PlanJobs | src/convert/main.cpp:1735-1789 | a job is copied exactly when it writes no linear or the id of its layout set now is the id of the recorded one; counts and bytes are those of the copied and the recomputed tensors |
| ReusePlanner.PlanReuse | src/convert/main.cpp:1643-1796 | the planner succeeds exactly for a consistent baseline, and a refusal names the first record that is wrong; a job is copied if and only if it writes no linear or the baseline records exactly this run's id for its linear, and the recomputed linears are exactly those of the other jobs |
| ReusePlanner.TotalsConserved | src/convert/main.cpp:1619-1626 | copied plus recomputed tensors and bytes are the planned totals |
| ReuseSound.ReuseIsAFullRun | src/convert/main.cpp:1643-1796 | if the baseline holds what a full run with its recorded sets writes and the planner accepts it, copying the marked jobs and emitting the rest writes the same name-to-bytes map as emitting every job |
| ReuseSound.ReuseWritesTheSame | src/convert/main.cpp:3280-3291 | the same for the first k jobs, one job at a time |
| ReuseSound.UnaffectedSame | src/convert/main.cpp:1628-1640 | a job whose set id is unchanged emits the same tensors under either run's sets |
| ReuseSound.CopiesFromBaseline | src/convert/main.cpp:3280-3291 | whatever the baseline holds, a copied job's tensors come out of it byte by byte |
| ReuseSound.HonestBaselineAccepted | src/convert/main.cpp:1643-1796 | the planner refuses no baseline that a full run with a truthful record wrote |
| Completion.StepKeeps | src/convert/main.cpp:3252-3345 | every host call, write-back and torn write keeps: the digest is only written over durable data, the marker only over both |
| Completion.RunKeeps | src/convert/main.cpp:3252-3345 | so after every run, crashed anywhere |
| Completion.MarkerMeansComplete | src/convert/main.cpp:3308-3340 | converting into a place that held no finished container: at every crash point a marker on the device means every tensor and the digest are on the device and match |
| Completion.OldMarkerSurvives | src/convert/main.cpp:3308-3340 | over a finished container the marker alone can outlive its data; the digest check is what refuses that file |
| Completion.MarkerTrustedExactly | src/convert/main.cpp:3308-3340 | the marker is trustworthy on its own at every crash point if and only if no finished container was overwritten |
| Completion.DigestRun | src/convert/main.cpp:3252-3345 | over any earlier file, at every point of every crashed run each digest field holds the old digest, this run's, or no digest at all |
| Completion.MarkerAndDigestTrusted | src/convert/main.cpp:3308-3340 | whatever file was there before: at every crash point a file that passes the completion check and the data digest is this run's whole container or the old finished one untouched |
| Completion.CrashCanLeave | src/convert/main.cpp:3252-3345 | what the runs are made of: any place may reach the device alone, and any but the marker may be found torn to anything |
| Completion.EmitAll | src/convert/include/r4dx_convert/container_writer.hpp:242-258 | writing every planned tensor lets Finish pass |
| Completion.LastCallCompletes | src/convert/main.cpp:3308-3345 | over any earlier file, in every run: the last call leaves the data, its digest and the marker on the device |
| Completion.UndisturbedRunFinishes | src/convert/main.cpp:3252-3345 | a run nothing disturbs ends with data, digest and marker on the device, whatever was there before |
| Publish.StepKeeps | src/convert/main.cpp:3252-3391 | every call and every settling of directory or file keeps the publish invariant |
| Publish.RunKeeps | src/convert/main.cpp:3252-3391 | so after every run |
| Publish.OutputNeverUnfinished | src/convert/main.cpp:3252-3391 | at every point of every trellis run and after a crash there, `<output>` is absent, or still an earlier run's before its removal settled, or a whole container that passed the check asked for |
| Publish.RenameDecides | src/convert/main.cpp:3360-3391 | in every run, the rename after a passed check leaves `<output>` as the only name, and after a failed one `<output>.verify-failed` |
| Publish.UndisturbedRunPublishes | src/convert/main.cpp:3252-3391 | a run nothing disturbs ends with `<output>` the whole new container and nothing beside it, whatever was there before, or with it as `<output>.verify-failed` and no `<output>` exactly when the full check refused it |
| Publish.Settles | src/convert/main.cpp:3252-3391 | once every directory change has settled, a crash leaves the directory the run made |
| TopKMerge.TopKUnique | src/model/tp/tp_vocab.h:6-12 | a row has one top-k under "larger value, then smaller id", padding included |
| TopKMerge.TopKInNumbers | src/model/tp/tp_vocab.h:6-12 | a top-k list falls in value and, where equal, rises in id; its entries are its row's own; what it leaves out is no larger, with a larger id where it is as large |
| TopKMerge.MergedOrdered | src/model/tp/tp_vocab.h:130-157 | the merge is sorted, as long as asked, and lists every real entry at most once |
| TopKMerge.MergedTakesBest | src/model/tp/tp_vocab.h:130-157 | an entry left out of the merge is beaten by every entry in it |
| TopKMerge.GlobalTopK | src/model/dflash_draft.cpp:741-747 | making ids global turns a shard's top-k into the top-k of that part of the vocabulary; no id wraps and the padding stays |
| TopKMerge.MovedPaddingWins | src/model/dflash_draft.cpp:741-747 | had the padding been moved as well, it would have wrapped and beaten a real -inf |
| TopKMerge.GlobaliseIds | src/model/dflash_draft.cpp:745-747 | the in-place loop makes every id global except the padding's |
| TopKMerge.PickBest | src/model/tp/tp_vocab.h:142-151 | the rank loop finds the best next entry, the lowest rank on a tie, and its flat index |
| TopKMerge.MergeRow | src/model/tp/tp_vocab.h:139-156 | one output row is the merge of the ranks' lists of that row, and only that row is written |
| TopKMerge.MergeTopK | src/model/tp/tp_vocab.h:130-157 | every output row is the merge of its lists out of the flat [world][rows][k] arrays; a bad world or k changes nothing |
| TopKMerge.MergeOfShards | src/model/tp/tp_vocab.h:6-12 | merging top-k lists of contiguous shards gives a top-k of the whole row |
| TopKMerge.SplitMergeIsWholeRow | src/model/dflash_draft.cpp:728-765 | for every split into contiguous shards the merge of the per-shard lists with global ids equals the whole row's top-k, ties, infinities, NaNs and padding included |
| TopKMerge.OutputIsTopK | src/model/tp/tp_vocab.h:125-157 | from array to array: where the k entries at (rank * rows + row) * k are the top-k of each rank's shard, the k output entries at row * k are the top-k of the whole row |
| Selector.FirstMaxIsFirstMax | src/model/dflash_draft.cpp:858-861 | without NaN the choice is the first of the largest scores; a NaN in front is never replaced |
| Selector.EdgeInNumbers | src/model/dflash_draft.cpp:817-834 | where nothing rounds, an edge is the sum of predecessor * gate * successor over the ranks plus the candidate's logit, each at its flat place |
| Selector.GateInNumbers | src/model/dflash_draft.cpp:876-879 | a gate of 0 or less never trips, nor does a NaN confidence; otherwise every number below the gate does |
| Selector.ScoreRow | src/model/dflash_draft.cpp:844-855 | the untraced row: the edges from the token stood on to every candidate |
| Selector.ScoreMatrix | src/model/dflash_draft.cpp:822-838 | the traced matrix has the right row for every previous candidate |
| Selector.CheckCandidates | src/model/dflash_draft.cpp:806-814 | the first candidate outside the vocabulary is found before any codebook is indexed |
| Selector.ScorePosition | src/model/dflash_draft.cpp:815-875 | traced or not, the same choice and the same confidence; the trace notes only this position |
| Selector.SelectorWalk | src/model/dflash_draft.cpp:782-895 | `P[pred_idx]` is always the last token taken, so traced and untraced walks return the same greedy path or the same refusal, discarded whole when shorter than n_min; a trace holds the matrix, choice and confidence of every step and of the position the gate stopped at, and its start values everywhere after |
| Selector.WalkIsGreedyPath | src/model/dflash_draft.cpp:782-895 | a path is returned if and only if it is the greedy path of the first-order lattice: each token the choice after the one before, ending exactly at the gate, the cap or the block |
| Selector.WalkPrefix | src/model/dflash_draft.cpp:800-884 | a smaller k or a larger p_min only cuts the path short |
| Selector.DraftPrefix | src/model/dflash_draft.cpp:886-893 | the same for drafts under any n_min |
| Selector.RefusesExactlyShortRows | src/model/dflash_draft.cpp:806-814 | the walk refuses a row's candidates exactly when fewer than top_k of its logits are numbers |
| ProbeRing.Probe.constructor | src/model/debug_probe.cpp:85-87 | an empty ring and an empty mirror |
| ProbeRing.Probe.Alloc | src/model/debug_probe.cpp:148-154 | the record's slots are consecutive and never wrap; only the ring's end is skipped |
| ProbeRing.Probe.DeviceStep | src/model/debug_probe.cpp:156-160 | the device writes the oldest launched stamp, at any time; what the ring will hold is unchanged by when |
| ProbeRing.Probe.Write | src/model/debug_probe.cpp:156-160 | once launched, the record's stamps will be in their cells and every other slot of the last `cap` keeps its own |
| ProbeRing.Probe.Stamp | src/model/debug_probe.cpp:156-160 | one new stamp; all earlier ones still on record |
| ProbeRing.Probe.AfterMlp | src/model/debug_probe.cpp:205-210 | five stamps in one record of five slots that do not wrap |
| ProbeRing.Probe.Collect | src/model/debug_probe.cpp:234-252 | waits for the stream; then the mirror holds every stamp of the last `cap` slots, an overflow is counted exactly when more were handed out, and exactly the stamps of the last `cap` slots are reported |
| ProbeRing.Probe.Read | src/model/debug_probe.h:122-122 | a slot `Valid` reports reads its own stamp from the mirror, whatever was skipped, overwritten or collected since |
| ProbeRing.Probe.ReadRecord | src/model/debug_probe.cpp:333-340 | a record whose first and fourth stamps are reported is read whole |
| LayoutAudit.ScanLayer | src/convert/qwen4exp_layout.cpp:24-39 | the scan returns the layer index of a layer name and -1 for others; its guard drops exactly the indices that do not fit the index type and nothing overflows |
| LayoutAudit.ScanUnguarded | src/convert/llama_layout.cpp:20-27 | the scan without a guard overflows exactly when the digits after the prefix spell a number past the index type's range, and otherwise agrees with the guarded one |
| LayoutAudit.FitsThroughoutIffFits | src/convert/qwen4exp_layout.cpp:31-37 | accumulating digits overflows at some point if and only if the whole number does not fit |
| LayoutAudit.PrintedLayer | src/convert/qwen4exp_layout.cpp:145-146 | the scan reads back the index the layout printed |
| LayoutAudit.AddTextStack | src/convert/qwen4exp_layout.cpp:110-229 | a depth outside [0, layers] or the first missing, misshapen or unexpected tensor is refused; otherwise exactly the tensors of the first layers and the globals are consumed |
| LayoutAudit.StackMeans | src/convert/qwen4exp_layout.cpp:110-229 | a depth is accepted exactly when every tensor of the layers below it and of the globals is there in its shape and no forbidden one is |
| LayoutAudit.ConsumedMeans | src/convert/qwen4exp_layout.cpp:110-229 | the consumed names are exactly those named by a line of a layer below the depth or of the globals |
| LayoutAudit.ProblemExplained | src/convert/qwen4exp_layout.cpp:110-229 | a refusal names a tensor that some line asks for and that is missing, misshapen or not allowed |
| LayoutAudit.DepthCuts | src/convert/qwen4exp_layout.cpp:110-229 | the tensors consumed at `--layers L` are exactly those of a full conversion with layer index below L |
| LayoutAudit.ShallowerAccepts | src/convert/qwen4exp_layout.cpp:110-229 | a checkpoint accepted at full depth is accepted at every depth |
| LayoutAudit.UnconsumedTensors | src/convert/qwen4exp_layout.cpp:236-247 | the audit loop keeps the names that are neither consumed nor skipped nor deferred, each as often as listed, and returns them in ascending order |
| LayoutAudit.SortedInOrder | src/convert/qwen4exp_layout.cpp:245-245 | the sorted names are in lexicographic order, for every list |
| LayoutAudit.AuditReports | src/convert/qwen4exp_layout.cpp:236-247 | a name is reported exactly when the checkpoint lists it and it is neither consumed nor skipped nor of a deferred layer |
| LayoutAudit.Partition | src/convert/qwen4exp_layout.cpp:236-247 | for a layout that names its layers right, every name is in exactly one class (consumed, skipped, deferred, reported) at every depth if and only if the skip rule leaves out nothing a full conversion consumes |
| LayoutAudit.ConsumedOnce | src/convert/qwen4exp_layout.cpp:110-229 | no tensor is consumed twice at any depth if no layer and no global consumes one twice |
| LayoutAudit.AuditAtDepth | src/convert/qwen4exp_layout.cpp:236-247 | the audit at any depth reports what the full audit reports of the layers below it |
| LayoutAudit.EmptyAuditStaysEmpty | src/convert/qwen4exp_layout.cpp:236-247 | an audit empty at full depth is empty at every depth |
| LayoutAudit.FullAuditEmptyIff | src/convert/qwen4exp_layout.cpp:236-247 | the full audit is empty exactly when each name is consumed, skipped, or of a layer past the config's last: those go unreported |
| LayoutTables.TablesWellNamed | src/convert/qwen4exp_layout.cpp:144-229 | every layer tensor of the qwen4_exp, qwen3_5_moe, gemma, lfm2 and llama tables carries its own layer's index and every global none, for every configuration and each layout's own index type: the depth and audit lemmas hold of all five |
| LayoutTables.QwenLayerTakes | src/convert/qwen4exp_layout.cpp:144-229 | every qwen layer asks for all lines of the mixer its position calls for and of every expert |
| LayoutTables.GlobalsAreNoLayers | src/convert/llama_layout.cpp:130-133 | names beside the layers, and the untied head, are of no layer |
| LayoutNames.Qwen4ExpNotSkipped | src/convert/qwen4exp_layout.cpp:110-234 | no tensor qwen4_exp consumes is a vision, draft-head or n-gram table tensor by its skip rule |
| LayoutNames.SkipRulesSpareConsumed | src/convert/qwen4exp_layout.cpp:231-234 | no layout's skip rule leaves out a tensor that the layout consumes: qwen4_exp, qwen3_5_moe, llama's rope buffers, gemma's modalities, lfm2's none |
| LayoutTables.SkippedExactly | src/convert/llama_layout.cpp:137-149 | exactly which names each layout's skip rule leaves out, as prefixes, suffixes and infixes |
| LayoutNames.EveryLayoutPartitions | src/convert/qwen4exp_layout.cpp:236-247 | so under each of the five tables and its skip rule every checkpoint name is in exactly one class at every depth |
| LayoutNames.UntiedConsumeOnce | src/convert/qwen4exp_layout.cpp:144-229 | qwen4_exp, qwen3_5_moe and llama consume every tensor at most once, for every configuration and depth |
| LayoutNames.TiedConsumeOnce | src/convert/gemma_layout.cpp:178-187 | gemma and lfm2 consume every tensor at most once, apart from the embedding, which is the head as well |
| LayoutTables.PassthroughDistinct | src/convert/gemma_layout.cpp:71-88 | no two passed-through tensors get one container name |
| LayoutTables.ModalitySpelled | src/convert/gemma_layout.cpp:71-88 | which names are passed through as vision and as audio, and under which container names |
| LayoutTables.AddModalities | src/convert/gemma_layout.cpp:189-206 | a wanted modality's tensors are consumed, and one without any is refused |
| LayoutTables.ModalitiesNeverReported | src/convert/gemma_layout.cpp:210-224 | a passed-through tensor is never reported, wanted or not, so gemma's audit obeys the depth lemmas |
| AwqSource.NibbleOfPack | src/convert/awq_source.cpp:110-112 | each of eight packed nibbles is read back by its shift |
| AwqSource.WordsOfGroup | src/convert/awq_source.cpp:108-112 | columns of a group fall into that group's words, eight a word |
| AwqSource.ValidMeans | src/convert/awq_source.cpp:145-151 | the sizes of the three tensors in N, K and the group |
| AwqSource.DequantGroup | src/convert/awq_source.cpp:105-116 | a group's weights at the output pointer, and nothing else |
| AwqSource.DequantRow | src/convert/awq_source.cpp:100-117 | a row's weights, and nothing else |
| AwqSource.DequantRows | src/convert/awq_source.cpp:90-118 | exactly a bad group or bad rows throw, before anything is written; otherwise row r, column k of the output is bf16((q[n,k] - z[n,k/G]) * scale[n,k/G]) and nothing else is touched |
| AwqSource.RowsAt | src/convert/awq_source.cpp:104-113 | element [r, k] is at r * K + k |
| AwqSource.RowsAreASlice | src/convert/awq_source.cpp:187-206 | any run of rows is the matching slice of the whole matrix |
| AwqSource.WeightOfPacked | src/convert/awq_source.cpp:100-113 | for codes packed eight to a word along K, zero points eight to a word along N and one scale a group: every weight is its own code less its group's zero point, at its group's scale |
| AwqSource.RowsOfPacked | src/convert/awq_source.cpp:90-118 | so the rows asked for are, element by element, the weights that were packed |
| AwqSource.Data | src/convert/awq_source.cpp:187-194 | the whole matrix |
| AwqSource.DataRows | src/convert/awq_source.cpp:196-206 | the slice of `Data` for rows inside the matrix, an error otherwise |
| FusedExperts.ViewElement | src/convert/fused_experts_source.cpp:80-94 | element [row, col] of a view is the fused element [e, row (+ I for up), col], inside the tensor |
| FusedExperts.Covered | src/convert/fused_experts_source.cpp:80-94 | every byte of the two fused tensors is in a view |
| FusedExperts.Disjoint | src/convert/fused_experts_source.cpp:80-94 | and in only one |
| FusedExperts.ViewNamesDistinct | src/convert/fused_experts_source.cpp:51-65 | no two views share a name, within or across layers, so no `emplace` is lost |
| FusedExperts.Create | src/convert/fused_experts_source.cpp:27-68 | succeeds exactly when every fused tensor has a fitting sibling and shape; the views are then exactly three per expert and layer |
| FusedExperts.AllFusedMeans | src/convert/fused_experts_source.cpp:27-50 | in the checkpoint's own words: every `<p>.mlp.experts.gate_up_proj` listed is bf16 [E, 2I, H] with a bf16 `down_proj` [E, H, I] and no stored gate of expert 0 |
| FusedExperts.ViewsSpelled | src/convert/fused_experts_source.cpp:51-65 | every expert's three names, spelled out, are views of their own layer, expert and kind |
| FusedExperts.DataRows | src/convert/fused_experts_source.cpp:98-106 | the address of a view's rows in the right fused tensor, for rows inside it |
| FusedExperts.RewriteNames | src/convert/fused_experts_source.cpp:108-118 | fused names are dropped and the views appended |
| FusedExperts.NamesAfterRewrite | src/convert/fused_experts_source.cpp:108-118 | the list then holds the other names and exactly the views |
| FusedExperts.RepeatsExactly | src/convert/fused_experts_source.cpp:27-118 | it has a name twice exactly when some matrix of some fused expert is stored on its own as well, of which Create looks only for expert 0's gate |
| FusedExperts.StrayListedTwice | src/convert/fused_experts_source.cpp:35-118 | such a checkpoint: two fused experts and a stored expert 1 gate; Create takes it (`StrayAccepted`) and the stray name is listed twice |
| Wav.WalkInside | src/audio/audio_wav.cpp:33-60 | a data chunk found lies inside the file |
| Wav.ReadSamples | src/audio/audio_wav.cpp:83-115 | each frame's channels are summed, divided and cast to the float that is stored |
| Wav.DecodeWav | src/audio/audio_wav.cpp:23-117 | terminates on every byte string, reads only inside it, and reports the first failing check |
| Wav.SkipsAll | src/audio/audio_wav.cpp:57-59 | unknown chunks are stepped over, pad byte and all |
| Wav.FormatReadExactly | src/audio/audio_wav.cpp:38-49 | a fmt body is read as a format if and only if its fields, little endian at 0, 2, 4, 12 and 14, say so, the real tag of an extensible one at 24; it is refused exactly when cut short |
| Wav.ReadsFormat | src/audio/audio_wav.cpp:38-49 | a fmt chunk is read from its own body, the extensible tag included |
| Wav.TakesData | src/audio/audio_wav.cpp:50-56 | data after fmt ends the walk, cut to what the file holds |
| Wav.FindsData | src/audio/audio_wav.cpp:33-60 | a well-formed file's format and data are found behind any unknown chunks |
| Wav.FindsDataFirst | src/audio/audio_wav.cpp:33-60 | so are they where the data stands in front of the format, with unknown chunks anywhere |
| Wav.AcceptsExactly | src/audio/audio_wav.cpp:61-79 | what is accepted: 1 to 64 channels, a rate, PCM of 8, 16, 24 or 32 bits or float of 32 or 64, a block alignment that fits, and one whole frame |
| Wav.OneDefect | src/audio/audio_wav.cpp:61-79 | a file with one thing wrong is refused for that thing |
| Wav.NotRiffExactly | src/audio/audio_wav.cpp:23-26 | a byte string is refused as no WAVE file exactly when its first twelve bytes are no RIFF/WAVE header |
| Wav.SampleRoundTrip | src/audio/audio_wav.cpp:100-111 | every 8, 16, 24 and 32-bit sample is read back, sign extension included |
| Wav.PcmInRange | src/audio/audio_wav.cpp:100-111 | every integer sample is in [-1, 1) for any bytes, one step below 1 at most |
| Wav.SumsAreExact | src/audio/audio_wav.cpp:93-113 | the double a frame is added up in never rounds, for any channel count and bytes |
| Wav.StoredInRangeExactly | src/audio/audio_wav.cpp:83-115 | the float stored for an integer PCM frame is in [-1, 1], and below 1 if and only if the frame's mean is below 1 - 2^-25 |
| Wav.ShortSamplesInRange | src/audio/audio_wav.cpp:83-115 | so 8, 16 and 24-bit files always stay in [-1, 1) |
| Wav.LongSampleInRangeExactly | src/audio/audio_wav.cpp:83-115 | and a 32-bit mono frame does exactly for samples below 0x7FFF_FFC0 |
| Wav.FullScaleIsOne | src/audio/audio_wav.cpp:107-113 | bytes FF FF FF 7F of a 32-bit mono file are stored as 1.0 |
| FloatRounding.RoundAgainst | src/audio/audio_wav.cpp:113-113 | rounding to the nearest float keeps to its side of every multiple of the local step (section 4.3.1 of IEEE 754-2019) |
| FloatRounding.RoundNearest | src/audio/audio_wav.cpp:113-113 | a number of the binade [2^k, 2^(k + 1)) moves by at most half a step of 2^(k - bits + 1) |
| FloatRounding.StoredRange | src/audio/audio_wav.cpp:113-113 | a double quotient in [-1, 1] cast to float stays there, and stays below 1 exactly below 1 - 2^-25 |
| Wav.RecoversMonoMeans | src/audio/audio_wav.cpp:23-117 | a well-formed integer PCM file decodes to its rate, channels and bits and to each frame's channel mean, rounded to double and to float, whatever unknown chunks it has and whatever follows |
| Wav.RecoversFloatMeans | src/audio/audio_wav.cpp:23-117 | a well-formed float file decodes to the narrowed mean of its patterns' values, both halves of a double included |
| Wav.ZeroDataLengthRefused | src/audio/audio_wav.cpp:51-54 | a data length of 0 is always refused, though the comment counts it among streamed files |
| Bf16.RoundsBits | src/audio/audio_embed.h:28-34 | half way or more goes up, a tie to the even pattern; no 32-bit overflow, sign kept |
| Bf16.NearestTiesToEven | src/audio/audio_embed.h:27-34 | roundTiesToEven (section 4.3.1 of IEEE 754-2019): no bf16 number is nearer, and ties go to the even one |
| Bf16.RoundingMonotone | src/audio/audio_embed.h:28-34 | larger magnitudes never round to smaller ones |
| Bf16.NaNStaysNaN | src/audio/audio_embed.h:31-31 | the result is a NaN exactly when the argument is; it keeps the upper half of a NaN and is quiet |
| Bf16.RoundTripExactly | src/audio/audio_embed.h:28-40 | a bf16 pattern survives the way through f32 exactly when it is no signalling NaN |
| AudioEmbed.OneOwner | src/audio/audio_embed.cpp:58-67 | every row has exactly one thread, for every row and thread count |
| AudioEmbed.RunThread | src/audio/audio_embed.cpp:58-69 | from any point a thread can run to its end and moves no other thread |
| AudioEmbed.SomeScheduleEnds | src/audio/audio_embed.cpp:58-69 | so for every row and thread count some schedule ends all threads |
| AudioEmbed.AnyScheduleIsSequential | src/audio/audio_embed.cpp:58-69 | every schedule of the threads ends in the sequential result, each row written once |
| AudioEmbed.LaneDot | src/audio/audio_embed.cpp:43-52 | eight lanes and a tail make the dot product, for every length |
| AudioEmbed.Normalise | src/audio/audio_embed.cpp:31-38 | cast, RMS norm, cast |
| AudioEmbed.EmbedRows | src/audio/audio_embed.cpp:27-56 | rows [r0, r1) of the result and nothing else |
| AudioEmbed.Embed | src/audio/audio_embed.cpp:20-70 | all rows, whatever thread count is asked for |
| FakeQuant.RintNearest | src/model/fake_quant_w.h:109-117 | rint is the nearest integer, halves to even |
| FakeQuant.ClampNearest | src/model/fake_quant_w.h:109-117 | the clamped code is nearer than any other code of the range |
| FakeQuant.MovesAtMostHalf | src/model/fake_quant_w.h:109-117 | a value in range is not clamped and moves by at most half the scale |
| FakeQuant.RoundingTwice | src/model/fake_quant_w.h:112-117 | rounding twice is rounding once |
| FakeQuant.MaxStays | src/model/fake_quant_w.h:103-117 | a group's largest value is on the grid and stays |
| FakeQuant.GroupIsFixed | src/model/fake_quant_w.h:103-117 | so the group's maximum and scale survive, and quantizing again changes nothing |
| FakeQuant.ScaleRef | src/model/fake_quant_w.h:103-107 | the loop finds max |w| / 127, or 1 for an all-zero or empty group |
| FakeQuant.TableRef | src/model/fake_quant_w.h:121-130 | the scale of every column group |
| FakeQuant.ApplyRef | src/model/fake_quant_w.h:134-141 | every value rounded under its own group's scale, for any table that reaches every row |
| FakeQuant.TableFitsExactly | src/model/fake_quant_w.h:121-141 | the table of whole groups reaches every row if and only if the group divides K |
| FakeQuant.MatrixIsFixed | src/model/fake_quant_w.h:119-141 | for every matrix whose K the group divides: the recomputed table is the same and applying again changes nothing |
| FakeQuant.MatrixMovesAtMostHalf | src/model/fake_quant_w.h:119-141 | no weight moves by more than half its group's scale |
| FakeQuant.GroupRef | src/model/fake_quant_act.h:93-115 | a group with a value that is no number passes through, a zero group gives zeros with scale 0, the others are quantized |
| FakeQuant.RowRef | src/model/fake_quant_act.h:118-129 | a row block by block, in every mode; a last block that is not whole takes the memory behind the row with it |
| FakeQuant.ExtentFitsExactly | src/model/fake_quant_act.h:118-129 | the blocks stay in the row if and only if the block size divides it |
| FakeQuant.ActRowTwice | src/model/fake_quant_act.h:118-129 | quantizing a row twice is quantizing it once, in every mode |

## Left out

- GPU kernels, GEMM and attention numerics, HIP, D3D12 and DXGI setup, device and event creation, locking: foreign code.
- Argument parsing, the CLI and server loops, logging, statistics and reports: single-branch checks and user interface.
- JSON parsing, sidecar headers, SHA-256, Hessian and rotation math: libraries and input formats; a digest is a function of the data.
- `File`'s open cache, timing totals and the loader's Create and Unload: no effect on what a read returns.
- `TemporalRopeRows`, `StepFingerprint` and the KV and GDN byte counts: pure and easy.
- `MergeArgmax` and `MergeRowSummaries`: the same order with k = 1 or short lists; the log-sum-exp is floating point.
- The logit softcap before the walk: a monotone map of the values, which keeps the order.
- The kit calls that register plan and emit jobs are not modelled, only which tensors they consume and check.
- `CheckExpertKbUniform`, the n-gram sidecar and config parsing: grouping and field checks.
- `AwqOverlay::Create` and its `RewriteNames`: the sizes it checks are `Matrix.Valid`; the name filter has the fused one's shape.
- The AWQ matrix is modelled on words and bf16 values, the fused tensors on byte addresses; the bytes of a mapped shard are not.
- Probe calls, spans and their aggregation: which stamps are read is modelled, not what is averaged.
- The embedder's threads are a pool of row steps; a row is one step, as rows are disjoint memory.
- The weight quantizer's matrices are sequences of rows rather than flat arrays.
- Wav.RecoversMonoMeans: for format before data; of a file with its data first `FindsDataFirst` says what is found, and `AcceptsExactly` and `DecodesFrames` the rest.
- Wav.RecoversFloatMeans: float patterns stand for any values and the narrowing is any function, so no range is claimed.
- AudioEmbed.LaneDot: over the reals, where the order of a sum does not matter; its rounding error is not modelled.
- DflashDraft.DflashDraft.InjectFeatures: asks for a call whose single wrap stays inside the store, as what lies behind the store is not modelled; `OneWrapFitsExactly` says which calls those are. Encodings are functions of layer, feature row, rope position and row count; the GEMMs are not modelled.
- DflashFeed.InjectSlice: asks the same of its slice.
- DflashFeed.InjectFeatureRowsFromHost: asks the same of every slice the drafter takes; the null pointer checks are not modelled.
- AudioEmbed.Embed: runs the threads' row ranges one after another; that any interleaving ends the same is `AnyScheduleIsSequential`.
- FakeQuant.ApplyRef: asks for a table that reaches every row, as what lies behind a shorter one is not modelled.
- FakeQuant.RowRef: asks for the memory its blocks reach.
- Completion.MarkerAndDigestTrusted: asks that the hash is injective, that the placeholder and a digest torn in the write are no digest of other data, and that an old finished file matches its own digest.
- Completion.OldMarkerSurvives: asks for a tensor whose zeroing changes the digest, because the digest function is uninterpreted.
- Completion.MarkerTrustedExactly: asks for the same of the overwritten container; an overwritten file the digest cannot tell from zeros is not covered.
- The W8 count patches of the header come before the digest and the marker and touch neither; they are not modelled, nor is the comparison of the copies' digests.
- DflashDraft.DflashDraft.constructor: the load bounds are preconditions, the throws are not modelled.
- The reuse guard's other fields (everything but linears, groups and kept linears): compared as a whole by code that is not modelled.
