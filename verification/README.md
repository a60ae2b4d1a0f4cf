# External sort engine and replay log: a Dafny model

The repository sorts more rows than fit in memory. A session buffers rows, spills
sorted runs to a scratch directory, compacts them through a 64-slot binary-counter
frontier, and at the end cascades groups of runs and streams one heap-driven merge,
with optional dedup. Beside it stands a replay log: one writer appends values to a
run file, any number of cursors read the committed prefix, and a terminal state and
wakeups tell them how it ends. Both run their file work as operations that outlive
cancelled callers, hold descriptor permits and count against one byte budget.

This project models that engine and proves what it promises.

| file | what it holds |
|---|---|
| `rows.dfy`, `stable_order.dfy` | rows, results, and the order every sort promises |
| `scratch.dfy` | the scratch directory, the byte ledger of one sort, the row-level run writer |
| `merge.dfy`, `cascade.dfy` | the heap merge, compaction of a group, the passes before the final merge |
| `frontier.dfy`, `carry.dfy` | the binary-counter frontier and the carry of a new run through it |
| `packing.dfy`, `run_counts.dfy` | when runs are cut, and how many runs that can make |
| `session.dfy`, `streams.dfy` | the session, the two output streams, whole sorts |
| `replay.dfy`, `replay_calls.dfy` | writer, cursors, watermark, terminal state, wakeups and storage ownership as a step system; how each call ends |
| `operations.dfy` | operation scopes, permits and ordered cleanup as a step system |
| `budget.dfy` | the shared compare-and-swap budget as a step system |
| `codec.dfy`, `run_file.dfy` | measure-then-write frames and the byte format of a run file |
| `run_bytes.dfy` | the scratch directory of rows as a directory of bytes |
| `planner.dfy` | the plan, its bounds, and what they imply for runs and passes |

How the model reads the program:

- Every asynchronous call ends in `Ok`, `Err` or `Cancelled`, chosen arbitrarily; a
  failed or cancelled file operation may still have had its effect on its own file.
  Nothing is assumed about when that happens, so the theorems hold for every schedule
  of failures and cancellations. No failure is invented either: the scratch directory
  counts its faults and the ledger its refusals, and every method's contract says that
  it ends as it does for exactly the cause that occurred during the call (`Explained`).
- Every reading of the live memory limit is arbitrary: a parameter of each push, and a
  free choice inside each reservation. What is proved of a sort holds for all of them.
- A sort is one sequential client, so it is written as classes whose methods change
  fields in place. The replay log, the operation scopes and the budget are shared by
  concurrent clients; each atomic access, notification and await point is one step of
  a step system there, and theorems quantify over every finite sequence of steps.
- Keys are integers: the engine only compares keys, and every finite set of totally
  ordered keys embeds in the integers with its order. Payloads are an abstract type.
- Sizes that the Rust layout fixes (an inline row, a merge slot, the session metadata)
  are parameters, `Layout`.

The centre is `Session.SortAll`: push anything, finish and drain. Whatever the plan,
the fan-in, the limit readings and the failures, the values that come out are a prefix
of the reference output of the accepted rows, and all of it when the stream ends
without an error; and if no operation failed and no reservation was refused, every row
is accepted and all of the output comes out. `StableOrder.ReferenceMeaning` says what the
reference output is without mentioning how it is computed.

## Where the code and its comments differ

`src/plan/planner.rs:52-56` says that the planned run buffer keeps the run count within
the square of the fan-in. It does not: a run is cut before a row would overflow it, so
runs can be little more than half full, or less. `Planner.FanSquaredIsExceeded` is a
concrete input with six runs for a fan-in of 2. Exactly when the claim holds is
`Planner.FanSquaredExactly`: every sort of at most `estimate` bytes whose rows weigh at
most `heaviest` stays within the square iff `estimate` is below `LeastTotal(square + 1,
buffer, heaviest)`, a closed form that can be evaluated before sorting. Rows of one
weight have an exact answer each (`RunCounts.UniformRuns`).

A run is cut to make room for a row that would overflow it, so two neighbouring runs
together should reach the threshold L, and n runs from T accepted bytes should satisfy
(n / 2) * L <= T. The code makes one exception possible: a push may spill the buffer to make room and then be refused the
first capacity of the new buffer. The session stays usable, with a run that was cut short.

- When the bound holds: with at most c such pushes, every sequence of pushes of non-empty
  rows meets it iff c = 0 or L <= 2 (`Packing.CutsBreakTheBound`); for every larger L one
  such push breaks it (`Packing.RefusalAfterSpillCuts`). With c of them ((n - c) / 2) * L
  <= T remains (`Packing.RunCountBound`).
- When such a push can happen: a spill releases at least the two rows of capacity that the
  next row then asks for, so the fixed limit has room for them, and only other holders of a
  shared budget or a shrunk live limit can refuse. `Session.SortSession.PushWithSize` says
  so of every call and `Session.PushEach` of whole sorts: there are at most as many such
  pushes as reservations that the fixed limit had room for and that were refused, and none
  at all in a sort that is `alone`, with its own budget and no pressure source, as
  `src/engine/session.rs:70-82` and `src/engine/budget.rs:42-50` set up an ungoverned
  session.
- What follows for a planned sort: if nothing squeezes it, the limit readings are at least
  eight times the planned buffer and the estimate holds, then (n / 2) * L <= T, at most
  2 * fan^2 + 1 runs are spilled when the two-pass target fits, and at most fan^2 below
  the least total above (`Planner.IngestPlanned`). Whether a sort is alone, the estimate and
  the target are known before it starts.

## Model

| member | source | states |
|---|---|---|
| StableOrder.ReferenceMeaning | src/engine/session.rs:255-279 | the promised output: without dedup a stable sort by key; with dedup strictly increasing keys, and a row is emitted iff it is the first accepted row of its key |
| StableOrder.StableSortOf | src/engine/session.rs:292-296 | a sequence is sorted by key with equal keys in push order iff it is the stable sort: the specification has exactly one answer |
| StableOrder.OrdinalSortIsStable | src/engine/session.rs:215-219 | any permutation ordered by key then ordinal, as an unstable sort returns it, is the stable sort of a buffer whose ordinals follow push order |
| StableOrder.SortSegmentFirst | src/engine/merge.rs:264-287 | sorting any contiguous segment first leaves the stable sort of the whole unchanged: why merging in passes is invisible |
| StableOrder.MergeStep | src/engine/merge.rs:87-93 | the least head by (key, source index), never looking at ordinals, is the first row of the stable sort of the sources in source order, and the remaining rows are what is left to sort |
| Merge.MergeState.PopLeast | src/engine/merge.rs:174-178 | popping returns the least entry by (key, source index) and removes exactly it |
| Merge.MergeState.PopHead | src/engine/merge.rs:174-180 | the popped source holds the least head, the heap still has one entry per source with a head, and the key charge is released |
| Merge.MergeState.AddSource | src/engine/merge.rs:156-166 | opening a non-empty run adds its rows as the last source, one heap entry for it, and exactly the charge of its head and key |
| Merge.MergeState.Refill | src/engine/merge.rs:79-84 | the source that lost its head moves to its next row with a matching heap entry; on failure the charges still agree with the sources |
| Merge.MergeState.TakeLeast | src/engine/merge.rs:173-189 | one step emits the first row of the stable sort of all unread rows and leaves the rest of it |
| Merge.MergeState.NextRow | src/engine/merge.rs:172-203 | the next row of the pending output, collapsed under dedup, or the end only when nothing is pending; it fails only for a fault or refusal that occurred; bytes held change exactly by what the state and the returned row account for |
| Merge.MergeState.ChargeBound | src/engine/merge.rs:95-103 | however long the input, an open merge holds its arrays and at most twice the largest buffered row per source plus the dedup key |
| Merge.ReadNext | src/engine/run.rs:183-233 | reading a source gives the row at its place and moves it by one, or ends it exactly when nothing remains; a read of a frame that is there fails only for a fault or refusal, and charges nothing then |
| Merge.Open | src/engine/merge.rs:140-169 | an opened merge will emit the reference output of its runs in path order; a failed opening releases every charge |
| Merge.Drain | src/engine/merge.rs:229-231 | copying a merge appends its whole pending output, in order, to the output run, one frame write per row, and touches no other file |
| Merge.MergeGroupToFile | src/engine/merge.rs:206-238 | afterwards the scratch files are exactly the old ones without the inputs plus one finished run holding the reference merge of the inputs; it fails only for a fault, a refusal or 2^64 rows; on every ending all charges are released and no other file was touched |
| Merge.RemoveInputs | src/engine/merge.rs:234-236 | removes exactly the input files |
| Cascade.GroupMerged | src/engine/merge.rs:267-284 | replacing a contiguous group by its merge in a fresh file keeps the stable sort of all live rows and keeps the files on disk exactly the live runs |
| Cascade.FoldNext | src/engine/merge.rs:267-284 | each group of a pass is at most fan-in runs, so no merge of a pass opens more files, and each group takes one off the chunks that are left |
| Cascade.FoldGroup | src/engine/merge.rs:268-283 | folding a group writes to a name no live file has, leaves a single run as it is with nothing written, and keeps the live rows' stable sort |
| Cascade.Pass | src/engine/merge.rs:265-286 | one pass folds n runs into the number of chunks of fan-in size and keeps files and order |
| Cascade.Fold | src/engine/merge.rs:263-287 | the loop ends with at most fan-in runs that are exactly the files on disk and still sort to the same rows, after exactly Depth passes, unless a fault or refusal occurred |
| Cascade.DepthIsLeast | src/engine/merge.rs:263-287 | the number of passes is the least p with n <= fan^(p+1), for all n and fan >= 2 |
| Cascade.FivePassesSuffice | src/engine/merge.rs:265 | a frontier of at most 64 runs needs at most five passes |
| Frontier.SlotIffBit | src/engine/session.rs:49-52 | in a covered frontier slot i is full iff bit i of the spill count is set |
| Frontier.SlotRun | src/engine/session.rs:49-51 | a full slot i holds the stable sort of 2^i consecutive original runs, from a start that the spill count determines |
| Frontier.SlotsInOrder | src/engine/session.rs:49-51 | for full slots i < j the runs of slot j end where those of slot i begin, or before: higher levels are older |
| Frontier.CoversCount | src/engine/session.rs:49-51 | the slots from a level up cover exactly the spill count's share of original runs |
| Frontier.CollectCovers | src/engine/session.rs:233-240 | reading the slots from high to low gives finished runs that together sort exactly like the covered original runs in push order |
| Frontier.CollectCount | src/engine/session.rs:233-240 | the collected runs are as many as the spill count has bits set |
| Frontier.CollectIsLive | src/engine/session.rs:233-240 | the collected frontier lists exactly the files on disk, each once, and sorts to the sort of all spilled rows |
| Frontier.CarryStops | src/engine/session.rs:345 | finding 64 full slots would need 2^64 spills, which the checked increment excludes |
| Frontier.RewriteCost | src/engine/session.rs:325-344 | n spills write every row at most (1 + floor(log2 n)) times |
| Frontier.Log2Bounds | src/engine/session.rs:318-345 | the logarithm of the rewrite bound is the exponent of the greatest power of two within the spill count |
| Frontier.SlotRowWrites | src/engine/session.rs:318-344 | a row that was pushed once and lies in slot L counts exactly L + 1 writes |
| CarryChain.EnterCarry | src/engine/session.rs:310-325 | a freshly written run joins a settled frontier as the carry of level 0 |
| CarryChain.CarryOn | src/engine/session.rs:331-343 | merging the older run of a full slot first with the carry gives the sorted carry of twice as many runs, under a name no file has |
| CarryChain.CarryOnCost | src/engine/session.rs:331-343 | a carry merge writes every row of its two runs exactly once more and no other row, so each carried row has been written level + 2 times afterwards |
| CarryChain.PlaceRun | src/engine/session.rs:326-330 | putting the carry into the first empty slot gives the settled frontier of one more spill |
| CarryChain.PlaceRunCost | src/engine/session.rs:326-330 | after n spills every row was written exactly as often as its slot says, and n minus popcount(n) carries were merged |
| Packing.PushAccepts | src/engine/session.rs:169-193 | whatever thresholds a push reads, the rows in runs and buffer, in order, grow by exactly the pushed row |
| Packing.PushPacks | src/engine/session.rs:169-193 | under a constant threshold L a push that is taken leaves the buffer below L, runs of several rows within L, and no new pair of neighbours below L together |
| Packing.AttemptsPack | src/engine/session.rs:169-193 | the same for every sequence of pushes that leave the session usable, taken or refused, but for at most one light pair per push that was refused after its spill |
| Packing.AttemptsAccept | src/engine/session.rs:161-194 | whatever thresholds are read and however pushes end, the rows in runs and buffer, in order, are exactly those of the pushes that were taken |
| Packing.CutsBreakTheBound | src/engine/session.rs:167-179 | with at most c pushes refused after their spill, every sequence of pushes of non-empty rows under a constant threshold L meets (n / 2) * L <= T iff c is 0 or L is at most 2 |
| Packing.RefusalAfterSpillCuts | src/engine/session/buffer.rs:48 | for every threshold above 2, a row of one byte, a push of L bytes refused after its spill and another row of one byte make two runs of two bytes in all, which break that bound |
| Packing.WithoutCuts | src/engine/session.rs:167-179 | with no push refused after its spill, refusals leave no trace: the session is that of the taken pushes alone |
| Packing.FewerRunsThanRows | src/engine/session.rs:284-291 | no run is empty, so the run count never passes the row count |
| RunCounts.OwnRuns | src/engine/session.rs:171-178 | rows of which any two neighbours overflow the threshold make a run each |
| RunCounts.RunsCostLeast | src/engine/session.rs:169-192 | n runs of rows up to a given weight take at least the least total bytes, for every sequence of rows |
| RunCounts.LeastIsReached | src/engine/session.rs:169-192 | for every n some rows of exactly the least total make n runs |
| RunCounts.RunBoundIsExact | src/engine/session.rs:169-192 | every sort up to a total and a row weight makes at most k runs iff the total is below the least that makes k + 1 |
| RunCounts.UniformRuns | src/engine/session.rs:169-192 | rows of one weight make at most k runs iff there are at most k times as many as the threshold holds, at least one |
| Packing.BufferLimit | src/engine/session/buffer.rs:59-69 | under every reading the threshold is the greatest that takes at most an eighth of it and stays within the plan, but at least one byte |
| Session.UnstableSort | src/engine/session.rs:292-296 | the buffer becomes a permutation of itself ordered by key, then ordinal |
| Session.SortSession.constructor | src/engine/session.rs:70-94 | a new session is usable and empty, has reserved nothing and written nothing |
| Session.SortSession.ReserveMetadata | src/engine/session/buffer.rs:16-33 | the session metadata is charged once, and only then counts as held |
| Session.SortSession.GrowBuffer | src/engine/session/buffer.rs:35-57 | a full buffer doubles its capacity; the new capacity is charged while the old still is, as the highest amount held shows; a refusal changes nothing |
| Session.SortSession.Admit | src/engine/session.rs:180-189 | an accepted row joins the buffer with the next ordinal, its bytes counted, and the checked sum cannot overflow |
| Session.SortSession.PushWithSize | src/engine/session.rs:161-194 | an Ok push accepts exactly its row; a push fails iff something failed, was cancelled or was refused during it or a 64-bit count is full; a push after which the session is failed had begun a spill, so a refusal outside a spill leaves the session usable with the accepted rows unchanged; a push refused after it spilled, with the session still usable, was refused something the fixed limit had room for, by other holders or a shrunk limit (or the row count is full); a failed session refuses with SessionFailed and touches nothing; between calls the bytes held are metadata, buffer capacity and buffered rows |
| Session.SortSession.Spill | src/engine/session.rs:283-346 | a spill returns Ok iff the session stays usable, and fails only for a fault, a refusal or the last run number, with its run number taken otherwise; stopping it at any await leaves the session failed; on success the buffer is the next run and all invariants hold |
| Session.SortSession.SpillBuffer | src/engine/session.rs:291-324 | writes the stable sort of the buffered rows as a finished run, releases the buffer's charges, and changes nothing else on disk |
| Session.SortSession.CarryUp | src/engine/session.rs:325-345 | the carry loop always ends in an empty slot, with the frontier settled and the failure latch released only there |
| Session.SortSession.CarryPast | src/engine/session.rs:326-343 | one carry with its slot already taken: on success the next level's carry, otherwise a state the latch keeps unusable |
| Session.SortSession.SlotFullIffBitSet | src/engine/session.rs:49-52 | in every usable session slot i is full iff bit i of next_run is set |
| Session.SortSession.SlotHoldsPowerOfTwo | src/engine/session.rs:49-51 | a full slot i holds the stable sort of 2^i consecutive spilled runs |
| Session.SortSession.SlotOrdinalsIncrease | src/engine/session.rs:49-51 | every row of a higher full slot was pushed before every row of a lower one |
| Session.SortSession.SlotRowsWritten | src/engine/session.rs:318-344 | every row in the file of slot L has been written to disk exactly L + 1 times |
| Session.SortSession.ScratchIsLive | src/engine/session.rs:310-344 | between calls the scratch files are exactly the slot paths, one per set bit and at most 64, and hold the multiset of all spilled rows |
| Session.SortSession.IngestionCost | src/engine/session.rs:318-345 | after n spills exactly n - popcount(n) carries were merged, every row was written at most 1 + floor(log2 n) times, and so all frame writes are at most rows * (1 + floor(log2 n)) |
| Session.SortSession.Finish | src/engine/session.rs:213-253 | the stream returned will yield the reference output of all accepted rows, from memory, with nothing on disk, iff nothing was spilled before; a failed session is refused; the final merge reads at most max_fan_in runs, 2 in memory, after the least number p of passes with which the live runs are at most that to the power p + 1, and at most five |
| Session.SortAll | src/engine/session.rs:152-253 | spilling is invisible: for every plan, request sequence, limit reading and failure schedule the values that come out are a prefix of the reference output of the accepted rows, and all of it on a clean end; with no fault and no refusal (and fewer than 2^64 - 1 requests) every push is Ok and the end is clean; the accepted rows carry, in order, the keys and values of exactly the requests that were Ok; a clean end leaves no scratch file and no byte held |
| Session.PushEach | src/engine/session.rs:161-194 | pushing a sequence accepts exactly the rows whose pushes were Ok, in order; with no fault and no refusal that is all of them; under constant readings the session is packed, and its runs few, but for one light pair per push refused after its spill; there are at most as many of those as squeezes of the sort, and none in a sort that is alone with its budget |
| Session.Deliver | src/engine/session.rs:213-280 | finishing and draining gives a prefix of the reference output, all of it on a clean end, which leaves nothing on disk and comes whenever nothing failed |
| Streams.MemoryStream.Next | src/engine/session.rs:259-280 | each poll yields the next value of the reference output, ends only when nothing is left, and the end releases every byte |
| Streams.MemoryStream.Remember | src/engine/session.rs:269-275 | under dedup the last yielded row's key and charge are kept, otherwise its bytes are released |
| Streams.MergeStream.Next | src/engine/merge.rs:322-340 | yielded values stay a prefix of the expected ones through every failure; a poll fails only for a cause that occurred during it; after an error no value follows and the next poll cleans up: an end leaves no scratch file and no charge, with or without an earlier error, unless the removal itself failed, which is reported once and not tried again; a clean end has yielded everything |
| Streams.MergeStream.Cleanup | src/engine/merge.rs:299-303 | cleanup ends the stream with an empty directory and no bytes held, or reports one error |
| Streams.CollectMerge | src/engine/merge.rs:307-342 | draining gives a prefix of the expected values; the end is clean iff nothing failed, was cancelled or was refused, and then all of them came out; reaching the end leaves nothing on disk and no charge unless the removal of the directory failed |
| Streams.CollectMemory | src/engine/session.rs:255-280 | draining the in-memory stream gives its whole pending output and releases every byte |
| Replay.CursorStepKeeps | src/engine/replay/cursor.rs:65-114 | every step of a cursor keeps its safety and the fact that an un-notified waiter has missed nothing |
| Replay.UndisturbedCall | src/engine/replay/cursor.rs:65-114 | a call with no step in between returns the next published value iff there is one; at the watermark the final end iff sealed, else it reports or parks; on a failed log an error, moving nothing |
| ReplayCalls.UndisturbedRead | src/engine/replay/cursor.rs:65-114 | the same from the call itself on: `next` registers a waiter and parks where `next_committed` returns the provisional end |
| ReplayCalls.RewoundCall | src/engine/replay/cursor.rs:58-61 | after any run, a call that follows a rewind returns the first published value, or the final end iff the log is sealed and empty |
| ReplayCalls.InterruptedRead | src/engine/replay/cursor.rs:68-95 | a read that fails or is cancelled moves nothing: the call after it returns what it would have returned |
| ReplayCalls.NewCursorReads | src/engine/replay/cursor.rs:33-56 | a new cursor starts at the beginning and a clone at the place of its original, and its first call returns the published value there |
| ReplayCalls.FailedLogReturnsNothing | src/engine/replay/cursor.rs:90 | once the log has failed, no call returns a value or a final end any more, beside one that had already checked for the second time |
| Replay.StepKeepsInv | src/engine/replay/publication.rs:33-76 | every step of writer, cursors, handles and orphaned file jobs keeps the invariant of the log |
| Replay.ReplaySafety | src/engine/replay/cursor.rs:33-95 | on every run the values that the calls of a cursor returned since it was made or last rewound, those of a clone's original included, are exactly the first published values, and it stands behind them; the final end was given only after the whole sealed log; published values are those of the successful appends, so the tail of a failed append is never returned |
| Replay.TerminalIsFinal | src/engine/replay/publication.rs:52-68 | published values only grow, and sealed or failed is final: nothing changes the state or the watermark again |
| Replay.UndisturbedAppend | src/engine/replay/writer.rs:138-160 | from every reachable idle writer of a live log an append can run to its end, and then exactly its value is published, the watermark is one higher and every waiter is notified |
| Replay.UndisturbedSeal | src/engine/replay/writer.rs:204-219 | likewise a seal makes the log final with exactly the published values and hands the storage to the replay |
| Replay.InterruptedCallFails | src/engine/replay/writer.rs:33-39 | an append or seal that fails or is cancelled at any await can run on, undisturbed, to a failed log with the published values unchanged and every waiter notified |
| Replay.InterruptedNeverPublishes | src/engine/replay/writer.rs:138-160 | once an append or seal failed or was cancelled at an await, on every continuation nothing is published again, the log is never sealed, and it is failed as soon as the writer moves on |
| Replay.NoLostWakeup | src/engine/replay/cursor.rs:102-114 | a parked waiter that was not notified has reached the watermark of a live log, or the writer stands between its change and its notification |
| Replay.ParkedReaderReturns | src/engine/replay/cursor.rs:102-114 | on every run a parked reader with a row or a terminal state to see returns by the pending notification and its own steps alone, with the next published value, the final end or the failure |
| ReplayCalls.LateFrameIsHidden | src/engine/replay/writer.rs:138-160 | the frame of a cancelled append may still land in the file, and no continuation ever publishes it |
| ReplayCalls.UndisturbedAbort | src/engine/replay/writer.rs:178-195 | an abort ends with a failed log, the published values as they were and every waiter notified; with no cursor left the storage is removed, and a cursor keeps it |
| ReplayCalls.AbortAgain | src/engine/replay/writer.rs:162-195 | an abort whose cleanup failed or was cancelled can be repeated, and then removes the storage |
| ReplayCalls.UndisturbedDrop | src/engine/replay/writer.rs:33-39 | dropping the writer of a live log fails it and notifies every waiter; with no cursor left the storage goes |
| ReplayCalls.UndisturbedClose | src/engine/replay/storage.rs:82-93 | closing a replay removes the storage by itself if no cursor is left, and otherwise leaves it to the cursors |
| ReplayCalls.LastOwnerRemoves | src/engine/replay/storage.rs:1-66 | from every reachable state without an owning writer, dropping the replay and every cursor lets the storage be removed |
| Replay.StorageOwned | src/engine/replay/storage.rs:56-93 | from the start of a removal on, over every continuation, there is no cursor, no replay and no file work of the writer, and a finished removal is final with no orphaned job left; the assigned-once assertion and the prepared-writer and active-owner expects never fire |
| Operations.StepKeepsInv | src/engine/operation.rs:28-54 | every step of operations, owners and cleanups keeps the counts, the removal order and the wakeups |
| Operations.RemovalComesLast | src/engine/cleanup.rs:70-92 | while a removal waits or runs, and ever after it succeeded, no file work of that scope waits or runs, including work left by cancelled callers |
| Operations.RemovalsNeverOverlap | src/engine/cleanup.rs:68-92 | a removal starts only when no operation of its scope, of any kind, is left, and while one is guarded no other operation of that scope is, an earlier removal left by a cancelled cleanup included |
| Operations.NeverResurrected | src/engine/cleanup.rs:68-92 | once a removal succeeded, the directory is absent in every later state |
| Operations.PermitsConserved | src/engine/operation.rs:67-109 | available permits plus running operations equal the total, the bytes used are exactly the charges of the waiting and running ones, and a scope's pending count is exactly its live guards |
| Operations.NoLostIdleWakeup | src/engine/operation.rs:34-54 | a parked, un-notified idle waiter with nothing pending always has a dropper about to notify it, and that notification wakes it |
| Operations.CancelledCallerReleasesNothing | src/engine/operation.rs:67-108 | on every run a running job keeps its permit, its memory charge and its guard until its own finish, and then its guard until its own drop, whoever is cancelled in between; as long as it does, the removal of its scope cannot start |
| Operations.AdvanceDecreases | src/engine/operation.rs:98-106 | each step that carries an operation on lowers the total remaining rank |
| Operations.SomeOperationAdvances | src/engine/operation.rs:98-108 | with at least one permit, some unfinished operation can always advance: none holds a permit while it waits for one |
| Operations.OperationsComplete | src/engine/operation.rs:89-109 | from every state that keeps the invariant all started operations can be finished, in at most their total rank of steps |
| Operations.UndisturbedWork | src/engine/operation.rs:67-109 | file work that nothing disturbs creates the directory and gives permit, bytes and guard back |
| Operations.CleanupCompletes | src/engine/operation.rs:34-45 | from every reachable state whose cleanup is registered, parked or ready, in-band or detached, the steps of unfinished operations and of that cleanup alone can end with the directory removed |
| Operations.OwnerCanLeave | src/engine/cleanup.rs:68-128 | from every reachable state of an open scope, or a closed one whose cleanup was cancelled or failed, a cleanup started then can remove the directory whatever is still running |
| Operations.OnlySuccessEnds | src/engine/cleanup.rs:82-91 | a cleanup ends only after a removal of its scope succeeded; after one that failed it can be tried again |
| Operations.CancelledWaiterNeverRuns | src/engine/operation.rs:91-100 | an operation whose caller is cancelled while it waits for its permit, a removal included, never touches or removes anything on any continuation |
| Operations.DirectoryFollows | src/engine/cleanup.rs:68-92 | on every step the directory of a scope changes only by file work of that scope or by a removal of it that succeeds |
| Operations.UndisturbedCleanup | src/engine/cleanup.rs:68-92 | once the owner is finished and its scope idle, a cleanup that nothing disturbs removes the directory and gives its permit and guard back |
| SharedBudget.StepKeepsInv | src/engine/budget.rs:72-99 | every atomic access of every thread keeps the invariant of the counter, with spurious failures and a limit read anew in each round |
| SharedBudget.DropSubtracts | src/engine/budget.rs:108-112 | the wrapping subtraction of a drop never wraps |
| SharedBudget.BudgetConserved | src/engine/budget.rs:72-112 | on every run used is the sum of outstanding charges and within the fixed limit, each successful swap respects the limit its thread last read, and peak is the greatest used once no reserver is between swap and update |
| SharedBudget.PeakBoundsUsed | src/engine/budget.rs:89-90 | once the thread whose swap set used has raised the peak, peak is never below that value again, whatever other reservers are mid-way |
| SharedBudget.UndisturbedReserve | src/engine/budget.rs:72-99 | a reservation that nothing disturbs is granted iff it fits the limit it read; then used grows by exactly its bytes and its charge exists, otherwise nothing changes |
| SharedBudget.ReservationEnds | src/engine/budget.rs:72-99 | on every run a thread inside reserve stays there, asking for the same bytes, until it has a charge of exactly these or read a limit below a value the counter had during this reservation plus its bytes; no lost or spurious swap refuses it, and a charge changes only by its own drop |
| SharedBudget.ReservationContinues | src/engine/budget.rs:72-99 | from every state inside a reservation, however often it lost, the undisturbed rest is granted iff the bytes fit beside the counter's value under the limit it reads, a stale value costing one more round unless it leaves no room |
| FrameCodec.Counter.Write | src/engine/codec.rs:22-31 | counts every byte and fails exactly when the count passes the limit |
| FrameCodec.FrameWriter.Write | src/engine/codec.rs:68-74 | appends a chunk iff it fits the measured size, otherwise changes nothing |
| FrameCodec.EncodeFrame | src/engine/codec.rs:37-61 | encoding succeeds iff the record fits the limit, its reservation is granted and both drives give the same size; then it is the second drive's bytes with its working space charged; a refused reservation and only that is MemoryBudget |
| RunFormat.LittleEndianRoundTrip | src/engine/run.rs:54 | a number in range reads back from its little-endian bytes |
| RunFormat.LittleEndianInjective | src/engine/run.rs:153 | every byte string is the encoding of the number it reads as, which fits its width |
| RunFormat.FrameRoundTrip | src/engine/run.rs:183-233 | a complete frame reads back as its row, with its weight and length, whatever follows it |
| RunFormat.FramesRoundTrip | src/engine/run.rs:69-96 | any rows written as frames read back as the same rows, whatever follows |
| RunFormat.FramesInjective | src/engine/run.rs:3-5 | equal frames hold equal rows, however many |
| RunFormat.FilesInjective | src/engine/run.rs:3-5 | equal finished files hold equal rows |
| RunFormat.CommittedFrame | src/engine/run.rs:160-233 | the frame of row k starts exactly behind the first k frames and reads as row k whatever complete or torn bytes follow the committed ones |
| RunFormat.RunWriter.WriteRow | src/engine/run.rs:69-96 | a row is written iff it fits the limit, its reservation is granted, the header fields hold it, the write completes and the count is not full; then the file grows by exactly that row, and otherwise all earlier rows stay committed |
| RunFormat.RunWriter.AppendFrame | src/engine/run.rs:83-95 | the append is whole iff the write completes, or torn anywhere behind the committed rows |
| RunFormat.RunWriter.Finish | src/engine/run.rs:98-116 | patching the header gives the file of exactly the written rows iff it completes; a torn patch leaves every row readable |
| RunFormat.RunReader.NextRow | src/engine/run.rs:183-233 | the reader's offset is always 8 plus the lengths of the frames before it; a committed row is returned iff the read completes and its charges are granted, whatever the tail or header says; a failed read moves neither offset nor remaining |
| RunFormat.ReadRun | src/engine/run.rs:137-158 | reading a finished file to its end succeeds iff every read completes and is granted, and then gives exactly the written rows and weights |
| RunBytes.ChangeRefines | src/engine/run.rs:40-116 | creating, appending to, patching and removing a run of rows is the byte operation on its image: a zero header, one more frame, the first eight bytes |
| RunBytes.RunRefines | src/engine/run.rs:40-116 | after any sequence of such changes the directory of rows and the directory of bytes agree |
| RunBytes.Perform | src/engine/run.rs:40-116 | an operation of the row-level directory that completes does that to the bytes, and one that does not leaves every other file's bytes alone |
| RunBytes.ReadsAgree | src/engine/run.rs:137-233 | the header and each frame of the bytes read back as the count and the row that the row-level directory returns for them |
| RunBytes.ImagesInjective | src/engine/run.rs:3-5 | directories of equal bytes hold equal runs |
| RunBytes.WriteRun | src/engine/run.rs:40-116 | writing a run frame by frame and header last succeeds iff every row fits and every write completes, and then the file is the image of the finished run of exactly these rows |
| Planner.ConstructibleIsSafe | src/config.rs:49-56 | every configuration the code can construct meets the preconditions of the planner's clamps |
| Planner.DivCeilIsLeast | src/plan/planner.rs:64-66 | the two-pass target is the least buffer whose fan-in squared multiple reaches the estimate |
| Planner.PlanBounds | src/plan/planner.rs:26-74 | fan-in and buffer stay in their bounds; buffer times fan-in squared reaches the estimate iff the target fits under the largest buffer and the memory cap; in memory iff a known estimate fits ceiling and headroom |
| Planner.BufferIsLeast | src/plan/planner.rs:58-74 | the planned buffer is the least one that configuration and headroom allow with which the estimate fits into fan-in squared buffers, or the greatest allowed if none does; in memory iff a known estimate fits ceiling and headroom |
| Planner.FanInIsShared | src/plan/planner.rs:42-50 | this sort and all active ones, at the planned fan-in each, stay within the free descriptors unless it is the floor of 2, and a larger fan-in below the cap would not |
| Planner.FdLimitIsShared | src/config.rs:44-56 | eight sorts at the derived cap stay within the descriptor limit less the safety margin unless it is the floor of 2, and a larger cap up to 64 would not |
| Planner.ConstructiblePlans | src/config.rs:5-41 | the default limits in numbers: 8 MiB in memory, buffers from 1 to 256 MiB, fan-in from 2 to 64 |
| Planner.FinishPlanned | src/engine/merge.rs:263-288 | a session with its plan never reads more runs at once than the configuration allows, and with runs as few as planned one pass is enough before the final merge |
| Planner.IngestPlanned | src/service/lease.rs:111-122 | in a session with the planned buffer that nothing squeezes, under ample limit readings and a true estimate, any sequence of pushes spills n runs with (n / 2) * L <= T, at most 2 * fan^2 + 1 of them when the two-pass target fits, and at most fan^2 below the least total that makes one more |
| Planner.FanSquaredExactly | src/plan/planner.rs:52-74 | every sort up to the estimate and a row weight stays within fan^2 runs iff the estimate is below the least total that makes one more |
| Planner.FanSquaredIsExceeded | src/plan/planner.rs:52-56 | a concrete input where the run count passes the square of the fan-in |

## Left out

- Tokio, the worker pool, the file system and CBOR: an operation completes, fails or is cancelled arbitrarily, and the serializer is any pair with decode after encode the identity.
- Weak memory: atomic accesses interleave sequentially consistently.
- The binary heap and the library sort: a set with a specified least-entry pop, and a sort specified by key and ordinal, which determines its result.
- Actor, handles, command channel, leases, statistics, scratch names, tracing and error texts: plumbing with easy counter properties.
- Replay, Operations, SharedBudget: written as steps on values and not as objects updated in place, because what is proved is about other clients' steps between any two accesses.
- Packing.AttemptsPack: states the packing bound for a constant threshold, because a changing one admits runs of any size; `Packing.AttemptsAccept` and `Session.SortAll` hold for every sequence of readings.
- RunCounts.RunBoundIsExact: is about pushes that are all taken, or refused without cutting a run (`Packing.WithoutCuts`), and about rows of at least one byte, since a row weighs at least its inline size.
- The session's byte ledger counts what a sort holds between its steps: metadata, buffer, merge heads and keys. The transient charges inside one operation (job metadata and frame working space) only appear in `EncodeFrame` and in `SharedBudget`.
- `RunBytes` ties completed changes of the scratch directory to bytes; a torn frame behind the committed rows, which `RunFormat` has, is an unknown file in `scratch.dfy`.
- A refused memory charge of a job itself counts as a fault of its operation in `scratch.dfy`, and reservations from within a job (`ReserveInside`) may be refused even in a sort that is alone, since the job's own charge is held beside them.
- A plan with a fan-in below 2, which the planner never makes, makes the cascade loop forever or panic; the model reads it as 2.
- Operations: a caller cancelled while it waits for its permit drops its guard and then its bytes with no step in between; the model lets go of the bytes first.
- A cancelled operation of a sort has its effect at once or never in `scratch.dfy`; that it may land later is modelled in `Operations` and, for replay frames, by the orphaned job of `Replay`.
- `Replay` and `Operations` are two step systems: that a removal waits for an orphaned job is a guard of `Replay`'s own steps, as `Operations` proves of the scope, and no product of both systems is built.
- The removal of merge inputs does not pass through an operation scope in the program; permit and scope theorems are about operations that do.
- Cleanup dropped outside a runtime, poisoned mutexes and panics of the operating system.
- Capacity checks of the allocator (`with_capacity`, `reserve_exact` and the assertions behind them).
- Targets with less than 64-bit addresses: sizes are taken to be 64-bit words.
