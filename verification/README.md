# Windows, traces, wakers and cursors: a model of win-ioring's hard core

This project models the parts of win-ioring and of its benchmark and test
harnesses whose correctness is a matter of arithmetic over runs or of protocol
over interleavings, and proves what they promise for every run.

- **The bounded-window runner** (`Depth`, `Verdict`, `Concurrency`). A runner keeps
  up to `n` operations outstanding, rolling or in batches, over a pool of buffers,
  and any outstanding operation may complete next. Its loop is proved to leave
  exactly the sample sum its closed form predicts, and the verdict drawn from it is
  proved exact. Means are exact rationals; the tolerance is the inequality
  |W - S| * 10^9 <= count.
- **Traces and fairness** (`Fnv`, `Verify`, `Scenarios`, `Fairness`, `Weaken`).
  FNV-1a over 64 bits (section 2 of draft-eastlake-fnv) on naturals with explicit
  wrap-around; an order-insensitive digest; the read and write-then-read scenarios
  driven through the runner; the ledger that compares every backend with the first;
  and the deliberately weakened backend it must catch.
- **The single-threaded executor** (`Executor`, `ExecutorProofs`, `Passes`,
  `Turns`, `Plays`, `Runtime`). A state machine in which a poll is any run of wakes, spawns
  and join polls ending Ready or Pending and other threads' wakes fall between any
  two steps; and the executor as objects changed in place, tied to it step by step.
- **Sequential files** (`FileProtocol`, `SequentialFile`). Claim, complete, observe
  and drop over a shared cursor, with clones.
- **Unbuffered I/O** (`Alignment`, `Unbuffered`, `UnbufferedReads`, `Pools`). From
  a host's alignment report through rounding, allocation and file creation to legal
  offsets and the loop that reads them.
- **Open cost** (`OpenCost`). The median and 90th percentile of timing samples.

`Arith`, `Sums` and `Options` hold shared definitions. `dafny verify dfyconfig.toml`
checks the whole project.

## What the proofs say about the code

- The 10^-9 tolerance makes the verdict exact below 10^9 operations and not from
  there on (`Verdict.ToleranceHidesOneSample`).
- The starvation flag is raised by the tail of every run with depth two or more, so
  a shortfall is never `Unexpected` (`Verdict.ShortfallIsNeverUnexpected`).
- A run that fails drops the buffers of the operations still outstanding: the pool
  is smaller afterwards (`Concurrency.Runner.Run`).
- The working file's documented content, byte i being i mod 251, holds only for
  files of one chunk: the buffer is refilled from its own start
  (`Unbuffered.DocumentedContentExactly`). The model follows the code.
- Exclusive access to a file does not stop two sequential futures existing at once
  when the file was cloned, nor the cursor being set under an outstanding operation.
  Either call is safe exactly when no operation is live, except for a start at the
  last offset and a cursor set to where it stands (`FileProtocol.DisciplineIsExact`);
  otherwise ranges can overlap or leave gaps (`FileProtocol.StartingThroughACloneBreaks`,
  `FileProtocol.SettingThroughACloneBreaks`).
- A thread-safe waker handle for a task that was spawned single-threaded never
  wakes it (`ExecutorProofs.WrongRegistryIsSilent`).

## Model

| member | source | states |
|---|---|---|
| Depth.PredictionIsTheSampleSum | crates/win-ioring-bench/src/concurrency.rs:84-109 | For both shapes, every count and every depth, the closed form is the sum of samples of a window that refills as the shape allows and samples once per completion |
| Depth.RollingSamples | crates/win-ioring-bench/src/concurrency.rs:84-109 | A rolling window met part-way through samples what a fresh rolling run of everything unfinished would |
| Depth.BatchedSamples | crates/win-ioring-bench/src/concurrency.rs:84-109 | A batched window met part-way through samples the triangle of what is outstanding, then whole batches |
| Depth.RollingClosedForm | crates/win-ioring-bench/src/concurrency.rs:84-109 | Sampling one completion at a time adds up to a plateau and one triangular tail |
| Depth.BatchedClosedForm | crates/win-ioring-bench/src/concurrency.rs:84-109 | Sampling batch by batch adds up to one triangle per full batch and one for the remainder |
| Depth.BatchedGrows | crates/win-ioring-bench/src/concurrency.rs:84-109 | The batched sum never falls as the depth rises, and rises strictly while the depth is below the count |
| Depth.BatchedIncrement | crates/win-ioring-bench/src/concurrency.rs:84-109 | One more operation adds between one and `depth` to the batched sum |
| Depth.PredictionGrows | crates/win-ioring-bench/src/concurrency.rs:84-109 | Either prediction is monotone in the depth, strictly so below the count |
| Depth.PredictionSaturates | crates/win-ioring-bench/src/concurrency.rs:84-109 | From a depth equal to the count upwards the prediction no longer changes |
| Depth.PredictionSeparatesDepths | crates/win-ioring-bench/src/concurrency.rs:84-109 | Two depths have the same prediction if and only if they are equal or the smaller already reaches the count |
| Depth.ShapesAreSeparable | crates/win-ioring-bench/src/concurrency.rs:56-109 | Rolling and batched predictions coincide if and only if the depth is one or reaches the count; otherwise rolling is larger by at least one sample |
| Depth.DepthOne | crates/win-ioring-bench/src/concurrency.rs:84-109 | At depth one either shape samples one per operation |
| Verdict.ToleranceOverOneCount | crates/win-ioring-bench/src/concurrency.rs:178 | A tolerance of 10^-9 between means over one count is a tolerance of count / 10^9 between their sums |
| Verdict.ToleranceIsReal | crates/win-ioring-bench/src/concurrency.rs:400-421 | For any two means the test is that their quotients differ by at most 10^-9 |
| Verdict.JudgedOnItsOwnCount | crates/win-ioring-bench/src/concurrency.rs:400-421 | Judged on its own count, a run is Matched if and only if its sum is within count / 10^9 of the prediction, hence exactly equal below 10^9 operations |
| Verdict.VerdictIsExact | crates/win-ioring-bench/src/concurrency.rs:400-421 | For a run with the figures a pool of `pool` buffers leaves: never a failure, and below 10^9 operations Matched if and only if the pool covers min(depth, count) |
| Verdict.VerdictNamesBothMeans | crates/win-ioring-bench/src/concurrency.rs:400-421 | The verdict carries the measured and the predicted mean, and a pool-bound run falls short of the prediction |
| Verdict.ToleranceHidesOneSample | crates/win-ioring-bench/src/concurrency.rs:178 | From 10^9 operations on the verdict is not exact: a pool one buffer short is still Matched |
| Verdict.WrongShapeIsCaught | crates/win-ioring-bench/src/concurrency.rs:400-421 | A full-pool run driven in the other shape is Mismatched if and only if 2 <= depth < count |
| Verdict.CollapsedBatchIsCaught | crates/win-ioring-bench/src/concurrency.rs:115-145 | A batched run that in fact kept one outstanding is Mismatched if and only if both depth and count are at least two |
| Verdict.ShortfallIsNeverUnexpected | crates/win-ioring-bench/src/concurrency.rs:378-397 | After a successful fresh run the shortfall is absent if and only if count and pool reach the depth, and Expected otherwise; Unexpected cannot arise |
| Fnv.FeedLoop | crates/win-ioring-bench/src/verify.rs:193-199 | The loop computes the fold of FNV-1a over the bytes |
| Fnv.XorByteIsInjective | crates/win-ioring-bench/src/verify.rs:193-199 | Equal results of exclusive-or with a byte have equal states exactly when they have equal bytes |
| Fnv.MulPrimeIsInjective | crates/win-ioring-bench/src/verify.rs:193-199 | Wrapping multiplication by the FNV prime never merges two states |
| Fnv.FeedConcat | crates/win-ioring-bench/src/verify.rs:193-204 | Feeding a concatenation is feeding its parts in turn |
| Fnv.FeedIsInjective | crates/win-ioring-bench/src/verify.rs:193-199 | Two different states stay different under any common bytes |
| Fnv.FeedByteSeparates | crates/win-ioring-bench/src/verify.rs:193-199 | States that differ, or bytes that differ, but not both, give different states |
| Fnv.OneByteNeverCollides | crates/win-ioring-bench/src/verify.rs:184-204 | Inputs of equal length that differ in exactly one byte never share a hash |
| Fnv.PublishedVectors | crates/win-ioring-bench/src/verify.rs:184-199 | The hashes of the empty string and of "a" are the published ones |
| Fnv.LittleEndianDigits | crates/win-ioring-bench/src/verify.rs:201-203 | Byte i of a fed word is its ith digit in base 256, lowest first |
| Fnv.LittleEndianIsInjective | crates/win-ioring-bench/src/verify.rs:201-203 | Words that fit are told apart by their bytes |
| Verify.Trace.constructor | crates/win-ioring-bench/src/verify.rs:51-53 | A new trace is empty |
| Verify.Trace.RecordIssued | crates/win-ioring-bench/src/verify.rs:56-58 | Appends the request in order and changes nothing else |
| Verify.Trace.RecordDelivered | crates/win-ioring-bench/src/verify.rs:70-87 | Adds the operation hash to the digest with wrap-around, its readable bytes to the total and one to the completions |
| Verify.Trace.AgreesWith | crates/win-ioring-bench/src/verify.rs:102-141 | Agrees if and only if the traces are equal; otherwise names the first difference in the documented order of checks |
| Verify.Compare | crates/win-ioring-bench/src/verify.rs:102-141 | The comparison, proved against the definition of a first difference |
| Verify.VerdictIsUnique | crates/win-ioring-bench/src/verify.rs:102-141 | Two traces have only one verdict |
| Verify.VerdictByCases | crates/win-ioring-bench/src/verify.rs:102-141 | The first of the five comparisons that fails is the one named, with both sides |
| Verify.StreamInFour | crates/win-ioring-bench/src/verify.rs:70-87 | An operation is hashed as phase, offset, count and bytes, in that order |
| Verify.StreamLayout | crates/win-ioring-bench/src/verify.rs:70-81 | Every byte the hash covers: phase code, offset and count in eight bytes each, then as many readable bytes as were transferred |
| Verify.OneNumberSeparatesHashes | crates/win-ioring-bench/src/verify.rs:70-87 | Deliveries alike but for one byte of offset or count never share a hash |
| Verify.DeliverAllIsASum | crates/win-ioring-bench/src/verify.rs:70-87 | Whatever the order, the digest is the sum of the hashes modulo 2^64 |
| Verify.CompletionOrderIsInvisible | crates/win-ioring-bench/src/verify.rs:70-87 | Two orders of the same deliveries leave the same trace |
| Verify.OneByteSeparatesHashes | crates/win-ioring-bench/src/verify.rs:70-87 | Deliveries alike but for one byte never share a hash |
| Verify.WriteAndReadBackDiffer | crates/win-ioring-bench/src/verify.rs:70-87 | A write and its identical read-back never share a hash, so they cannot cancel |
| Verify.OneChangedByteIsRejected | crates/win-ioring-bench/src/verify.rs:102-141 | Runs alike but for one byte of one delivery, in any completion orders, are told apart by the digest check |
| Verify.OneChangedNumberIsRejected | crates/win-ioring-bench/src/verify.rs:102-141 | Runs alike but for one byte of one offset or count, in any completion orders, are told apart by the digest check |
| Verify.WrappingAddSeparates | crates/win-ioring-bench/src/verify.rs:70-87 | Adding different hashes to one digest gives different digests |
| Pools.BufferPool.constructor | crates/win-ioring-bench/src/backends/tokio_fs.rs:59-66 | Holds `count` buffers, all of the given capacity |
| Pools.BufferPool.Take | crates/win-ioring-bench/src/backends/tokio_fs.rs:69-79 | Takes the last buffer, grown when too small; an empty pool answers WouldBlock and is unchanged |
| Pools.BufferPool.Put | crates/win-ioring-bench/src/backends/tokio_fs.rs:81-85 | Returns a buffer to the end of the pool |
| Pools.AlignedPool.Take | crates/win-ioring-bench/src/unbuffered.rs:1139-1161 | Takes the last buffer if it is large enough; either refusal leaves the pool exactly as it was |
| Pools.RegisteredPool.constructor | crates/win-ioring-bench/src/unbuffered.rs:630-680 | Starts with every index free |
| Pools.RegisteredPool.TakeBuffer | crates/win-ioring-bench/src/unbuffered.rs:630-676 | Free and taken indices stay a partition on every path; succeeds if and only if the length fits, an index is free and the check-out is granted, and each refusal is named |
| Pools.RegisteredPool.PutBuffer | crates/win-ioring-bench/src/unbuffered.rs:678-680 | Moves one index from taken back to free |
| Concurrency.Runner.constructor | crates/win-ioring-bench/src/concurrency.rs:289-303 | A fresh runner has depth at least one and no figures |
| Concurrency.Runner.Refill | crates/win-ioring-bench/src/concurrency.rs:328-356 | Adds exactly what the window, the remaining count and the pool allow; fails only with nothing outstanding and no buffer |
| Concurrency.Runner.CompleteOne | crates/win-ioring-bench/src/concurrency.rs:357-373 | Completes whichever pending operation is chosen, returns its buffer and records its delivery; a failure loses that buffer and records nothing |
| Concurrency.Runner.Run | crates/win-ioring-bench/src/concurrency.rs:314-375 | For every shape, count, depth, pool and completion order: success issues, performs and completes each index once, returns every buffer, and leaves the predicted sample sum at min(depth, pool) with peak min(count, depth, pool); failure means an operation failed, everything that completed before it is recorded, one more sample than that was taken, the peak was reached and buffers were lost; or the pool was empty and nothing happened |
| Concurrency.PartwayFigures | crates/win-ioring-bench/src/concurrency.rs:314-375 | After any completion the peak and the pool-bound flag are already final, the samples count the completions, and the sum is within the prediction |
| Concurrency.SampleIsAccounted | crates/win-ioring-bench/src/concurrency.rs:314-375 | One sample moves the figures along the reference sample sum |
| Concurrency.FiguresAreFinal | crates/win-ioring-bench/src/concurrency.rs:314-375 | When nothing is left the figures are the predicted ones |
| Concurrency.RunIsComplete | crates/win-ioring-bench/src/concurrency.rs:314-375 | With nothing pending and everything issued, each operation was performed once and completed once |
| Concurrency.AllPerformed | crates/win-ioring-bench/src/concurrency.rs:314-375 | An operation that has completed has been performed |
| Concurrency.WindowLoses | crates/win-ioring-bench/src/concurrency.rs:357-373 | A failing operation leaves strictly fewer buffers in the pool |
| Scenarios.RunIsSerial | crates/win-ioring-bench/src/scenario.rs:333-371 | A complete run in any order leaves the trace of the same operations done one at a time |
| Scenarios.FreshRunnerIsPredicted | crates/win-ioring-bench/src/scenario.rs:333-371 | The figures of a fresh runner give the exact verdicts on depth and shortfall |
| Scenarios.ReadPhase | crates/win-ioring-bench/src/scenario.rs:333-371 | Reads through a pool leave the trace and the figures that only the job and the file content determine |
| Scenarios.PositionalReadsOn | crates/win-ioring-bench/src/scenario.rs:333-371 | A read scenario issues operation i at its own offset for one block, ends in the trace of its job, the file untouched and every buffer back; it fails only on an empty pool |
| Scenarios.ReadTraceIs | crates/win-ioring-bench/src/scenario.rs:333-371 | That trace holds the sum of the hashes of what each read delivered at its own offset, their bytes and their number |
| Scenarios.CompareReadRuns | crates/win-ioring-bench/src/scenario.rs:333-371 | Two read runs of one job over equal content agree whatever their depths, shapes, pools and completion orders |
| Scenarios.CompareSequentialWithBulk | crates/win-ioring-bench/src/scenario.rs:87-96 | Sequential and bulk reads of equal parameters are driven in different shapes and still produce agreeing traces |
| Scenarios.CompareDifferentReads | crates/win-ioring-bench/src/scenario.rs:333-371 | Two read runs whose offsets first part at operation k are answered IssueOrder at k, with both requests |
| Scenarios.ShapeOf | crates/win-ioring-bench/src/scenario.rs:87-96 | Exactly the bulk read is batched |
| Scenarios.ReadsLeaveTheFile | crates/win-ioring-bench/src/scenario.rs:333-371 | Reads performed in any order leave the content alone |
| Scenarios.WriteOneBlock | crates/win-ioring-bench/src/scenario.rs:394-412 | Writing one block keeps every block written before |
| Scenarios.WritesFillTheFile | crates/win-ioring-bench/src/scenario.rs:394-412 | Writes performed in any order leave the pattern repeated once per operation |
| Scenarios.WritesAccumulate | crates/win-ioring-bench/src/scenario.rs:394-412 | Part-way through, exactly the blocks performed hold the pattern |
| Scenarios.PatternRepeats | crates/win-ioring-bench/src/scenario.rs:394-412 | A file whose every block is the pattern is the pattern repeated |
| Scenarios.ReadBackIsThePattern | crates/win-ioring-bench/src/scenario.rs:414-426 | Each read-back delivers exactly the pattern, in full |
| Scenarios.WritePhase | crates/win-ioring-bench/src/scenario.rs:394-412 | The write phase fills the file and leaves the serial write trace |
| Scenarios.WriteAndReadBack | crates/win-ioring-bench/src/scenario.rs:377-436 | For every interleaving of the writes and then of the reads, every block is issued twice at its own offset, the trace is fixed by block, count and reader, and byte j of the file is (j mod block) mod 251 |
| Scenarios.WriteReadTraceIs | crates/win-ioring-bench/src/scenario.rs:377-436 | That trace holds the sum of the hashes of every block written and every block read, each at its own offset |
| Scenarios.SerialPhaseCounts | crates/win-ioring-bench/src/scenario.rs:333-371 | A phase adds one completion per operation and the sum of what they deliver |
| Scenarios.FullPhaseBytes | crates/win-ioring-bench/src/scenario.rs:333-371 | A phase of full operations delivers count times block bytes |
| Fairness.Ledger.constructor | crates/win-ioring-bench/src/fairness.rs:43-47 | A new ledger has no reference |
| Fairness.Ledger.Find | crates/win-ioring-bench/src/fairness.rs:59-75 | Finds the first reference under the same scenario and depth |
| Fairness.Ledger.Observe | crates/win-ioring-bench/src/fairness.rs:52-88 | Accepts and keeps the first trace of a key; later traces are accepted if they agree and rejected with both names and the mismatch otherwise |
| Fairness.Ledger.Reference | crates/win-ioring-bench/src/fairness.rs:92-98 | Names the backend whose trace is the reference for a key, if any |
| Fairness.LookupIsFirst | crates/win-ioring-bench/src/fairness.rs:52-98 | A lookup finds the earliest observation under a key, or there is none |
| Fairness.ReferencesAreFirsts | crates/win-ioring-bench/src/fairness.rs:52-98 | After any sequence of observations there is at most one reference per key, and it is the first trace observed under it |
| Fairness.LedgerIsSound | crates/win-ioring-bench/src/fairness.rs:52-88 | Each observation is accepted if and only if it is the first of its key or equals the first |
| Fairness.AcceptedTracesAgree | crates/win-ioring-bench/src/fairness.rs:52-88 | Any two traces accepted under one key agree with each other |
| Fairness.LookupOnlyGrows | crates/win-ioring-bench/src/fairness.rs:52-98 | A reference never changes once made |
| Weaken.RunCounter.Reset | crates/win-ioring-bench/src/weaken.rs:77-79 | Forgets every run counted |
| Weaken.RunCounter.NextRun | crates/win-ioring-bench/src/weaken.rs:82-88 | Counts runs from zero |
| Weaken.Weakened.constructor | crates/win-ioring-bench/src/weaken.rs:160-172 | A run is hollow by its weakness, or from a given run on; only the latter counts a run |
| Weaken.Weakened.BeginRead | crates/win-ioring-bench/src/weaken.rs:223-235 | Numbers the reads in the order they begin and skips those the weakness names |
| Weaken.Skipped | crates/win-ioring-bench/src/weaken.rs:175-177 | n / 4 rounded up |
| Weaken.SkippedCounts | crates/win-ioring-bench/src/weaken.rs:175-177 | Of the read numbers below n exactly ceil(n / 4) are skipped |
| Weaken.KeptByNumber | crates/win-ioring-bench/src/weaken.rs:175-177 | The bytes of the reads not skipped add up to what the others deliver |
| Weaken.SkippingCosts | crates/win-ioring-bench/src/weaken.rs:223-244 | Skipping costs ceil(n / 4) blocks, more than none as soon as there is a read |
| Weaken.SkippedWorkIsSeen | crates/win-ioring-bench/src/weaken.rs:223-244 | A phase with skipped reads is rejected by its delivered bytes, short by exactly ceil(n / 4) blocks, whichever operations were skipped |
| Weaken.HollowReadsCarryNothing | crates/win-ioring-bench/src/weaken.rs:180-190 | A hollow read reports the honest count and leaves that many of the one hollow byte |
| Weaken.UnweakenedReadsAreHonest | crates/win-ioring-bench/src/weaken.rs:223-244 | A backend that is not weakened is the backend itself |
| Weaken.WeakenedReaderSkips | crates/win-ioring-bench/src/weaken.rs:223-244 | Under any numbering that uses each number once, the weakened reader skips the reads numbered 0, 4, 8, ... |
| Weaken.BeginReads | crates/win-ioring-bench/src/weaken.rs:223-235 | Reads first polled in any order take the numbers 0, 1, 2, ... in that order, each once, and are answered by them |
| Weaken.NumbersEnumerate | crates/win-ioring-bench/src/weaken.rs:223-235 | Numbering in any order uses each number below the count once |
| Weaken.SkippingReadsAreCaught | crates/win-ioring-bench/src/weaken.rs:223-244 | A read scenario over a work-skipping backend disagrees with the honest reference by DeliveredBytes, for every order of beginning |
| Weaken.SkippingReadBackIsCaught | crates/win-ioring-bench/src/weaken.rs:223-260 | Write-then-read over a work-skipping backend disagrees with the honest reference likewise; its writes are never skipped |
| Weaken.SkippingReadsAreRejected | crates/win-ioring-bench/src/fairness.rs:52-88 | End to end: an honest read scenario is accepted and the same one over a work-skipping backend is rejected with DeliveredBytes, short by ceil(n / 4) blocks, for all completion orders and orders of first polls |
| Weaken.SkippingReadBackIsRejected | crates/win-ioring-bench/src/fairness.rs:52-88 | End to end for write-then-read |
| Weaken.SecondIsRejected | crates/win-ioring-bench/src/fairness.rs:52-88 | The second trace of a key is rejected with its first difference from the first |
| Weaken.LedgerReports | crates/win-ioring-bench/src/fairness.rs:59-75 | What the comparator finds is what the ledger reports |
| Executor.DoSpawn | crates/win-ioring-tests/src/rt.rs:204-242 | A spawn takes the next id and puts its task behind what is pending; nothing fires, finishes or becomes ready |
| Executor.DoWake | crates/win-ioring-tests/src/rt.rs:150-154 | A wake fires at most its own id and moves no task |
| Executor.DoBeginPoll | crates/win-ioring-tests/src/rt.rs:505-511 | A poll pops the front of the queue and forgets wakes from before it |
| Executor.DoPollJoin | crates/win-ioring-tests/src/rt.rs:755-771 | After a poll of a handle its channel holds no value, so a value is handed over at most once; an empty channel stays empty |
| Executor.DoProcessWoken | crates/win-ioring-tests/src/rt.rs:645-667 | Processing wakes takes out of the waiting map exactly the tasks woken, and only appends to the ready queue |
| ExecutorProofs.OnlyOnePlace | crates/win-ioring-tests/src/rt.rs:485-559 | An id is in exactly one of pending, ready, in hand, waiting and finished, once, if and only if it was spawned |
| ExecutorProofs.RousedIds | crates/win-ioring-tests/src/rt.rs:645-655 | Processing wakes moves tasks from waiting to ready, each once, losing and inventing none |
| ExecutorProofs.RousedHas | crates/win-ioring-tests/src/rt.rs:645-655 | Everything woken and found waiting is moved |
| ExecutorProofs.RousedInOrder | crates/win-ioring-tests/src/rt.rs:645-655 | Woken tasks are queued in the order of their first wakes |
| ExecutorProofs.InvIsKept | crates/win-ioring-tests/src/rt.rs:485-559 | Every step keeps conservation, kinds, pending wakes, channels, joins, senders and registries consistent |
| ExecutorProofs.InvHoldsThroughout | crates/win-ioring-tests/src/rt.rs:485-559 | Hence every state of every run does |
| ExecutorProofs.InitialIsGood | crates/win-ioring-tests/src/rt.rs:427-437 | A new executor satisfies the invariant |
| ExecutorProofs.WakesAreRemembered | crates/win-ioring-tests/src/rt.rs:134-194 | A fired wake stays on record through any steps until its task is polled |
| ExecutorProofs.KindsStay | crates/win-ioring-tests/src/rt.rs:204-270 | The waker kind of a task never changes |
| ExecutorProofs.FiredWaiterIsMoved | crates/win-ioring-tests/src/rt.rs:645-667 | A waiting task whose waker fired is readied by the next processing of its registry |
| ExecutorProofs.NoWakeUpIsLost | crates/win-ioring-tests/src/rt.rs:134-194 | After a wake of its own kind and any further steps, a task not polled since and found waiting is readied by the next processing |
| ExecutorProofs.WrongRegistryIsSilent | crates/win-ioring-tests/src/rt.rs:637-642 | A wake sent through the registry of the other kind changes nothing: a thread-safe handle to a single-threaded task never wakes it |
| ExecutorProofs.StaleWakesAreSilent | crates/win-ioring-tests/src/rt.rs:512-522 | A finished task has no waker in either registry, so a stale wake reaches nobody |
| ExecutorProofs.FinishedIsNeverPolled | crates/win-ioring-tests/src/rt.rs:512-527 | A finished task stays finished and is never polled again, whatever stale wakes name it |
| ExecutorProofs.NothingLeftMeansAllFinished | crates/win-ioring-tests/src/rt.rs:500-503 | With nothing pending, ready, in hand or waiting, the finished ids are exactly those spawned |
| ExecutorProofs.FirstInFirstOut | crates/win-ioring-tests/src/rt.rs:505-538 | Over any run, the polls take the ready queue in order before anything added later |
| ExecutorProofs.EveryoneElseGoesFirst | crates/win-ioring-tests/src/rt.rs:505-538 | Between two polls of one task, everything ready at the first has been polled, in order |
| ExecutorProofs.StaysOut | crates/win-ioring-tests/src/rt.rs:505-538 | A task in neither queue is not polled until wakes are processed |
| ExecutorProofs.OncePerDrain | crates/win-ioring-tests/src/rt.rs:505-538 | Between two processings of wakes no task is polled twice |
| ExecutorProofs.SendFindsEmpty | crates/win-ioring-tests/src/rt.rs:733-747 | A send always finds its channel empty, so it is never refused |
| ExecutorProofs.YieldedOnce | crates/win-ioring-tests/src/rt.rs:755-771 | Over any run a handle yields exactly the sent value, once if it is taken in the run and not at all otherwise |
| ExecutorProofs.SentStays | crates/win-ioring-tests/src/rt.rs:733-771 | What was sent never changes, and a value is taken exactly by the poll that yields it |
| ExecutorProofs.JoinAnswers | crates/win-ioring-tests/src/rt.rs:755-771 | A handle waits until its task has sent, then yields the value, and answers RecvError only after having yielded it |
| ExecutorProofs.JoinNeverStalls | crates/win-ioring-tests/src/rt.rs:733-771 | A task waiting on a handle whose task has finished is readied by the next processing of its registry |
| Passes.ReachableIsGood | crates/win-ioring-tests/src/rt.rs:485-559 | Every state an executor can reach has the invariant |
| Passes.RunsConcat | crates/win-ioring-tests/src/rt.rs:485-559 | Runs compose |
| Passes.ChainedAt | crates/win-ioring-tests/src/rt.rs:485-559 | A run of the loop is a sequence of whole passes, each beginning where the last ended |
| Passes.EmptyingPollsAll | crates/win-ioring-tests/src/rt.rs:505-538 | Emptying the queue polls at least as often as it was long |
| Passes.APassPollsEachOnce | crates/win-ioring-tests/src/rt.rs:485-559 | A pass polls every task queued or newly spawned at its start exactly once |
| Passes.ProcessedIsQueued | crates/win-ioring-tests/src/rt.rs:544-548 | Processing both registries readies every waiting task whose waker fired, of either kind |
| Passes.WokenIsPolledNextPass | crates/win-ioring-tests/src/rt.rs:485-559 | Bounded response: a task waiting with its waker fired at the end of a drain is polled exactly once in the next pass |
| Passes.JoinIsAnsweredNextPass | crates/win-ioring-tests/src/rt.rs:485-559 | A task waiting on a handle whose task finished during a pass is polled exactly once in the next |
| Passes.NothingIsLeft | crates/win-ioring-tests/src/rt.rs:500-503 | When the loop breaks for want of work, every task ever spawned has finished |
| Passes.PendingCount | crates/win-ioring-tests/src/rt.rs:680-684 | Pending and finished tasks add up to the tasks spawned |
| Turns.DrainPlaysTurns | crates/win-ioring-tests/src/rt.rs:505-538 | A drain that was not stopped has played its turns one after another and left the queue empty or the observation over |
| Turns.LoopPlayGoesOn | crates/win-ioring-tests/src/rt.rs:491-556 | One trip of the loop: take spawns, break if nothing is left, drain, break at the goal, process both registries |
| Plays.SpawnsAreAsAsked | crates/win-ioring-tests/src/rt.rs:204-270 | A spawn is of the kind asked for, behind what is pending, and can be joined exactly when asked to be |
| Plays.ActionsKeep | crates/win-ioring-tests/src/rt.rs:204-242 | Whatever a poll does, the queue, the waiting, the finished and the poll in progress stay, and every spawn takes one id |
| Plays.WakesHappen | crates/win-ioring-tests/src/rt.rs:150-154 | Every wake of a poll that goes to its task registry fires it |
| Plays.HandlesArePolled | crates/win-ioring-tests/src/rt.rs:755-771 | Every poll of a handle that holds a value takes it |
| Plays.ReadyFinishes | crates/win-ioring-tests/src/rt.rs:513-522 | A ready poll finishes its task and sends its value to whoever can join it |
| Plays.PendingWaits | crates/win-ioring-tests/src/rt.rs:523-526 | A pending poll leaves its task waiting |
| Plays.PollTakesTheFront | crates/win-ioring-tests/src/rt.rs:505-527 | One poll takes the front of the queue, does everything its turn says, and finishes it exactly when ready |
| Plays.OutsideWakesLand | crates/win-ioring-tests/src/rt.rs:388-392 | Wakes of other threads move nothing and each reaches its thread-safe task |
| Plays.ProcessingReadies | crates/win-ioring-tests/src/rt.rs:544-548 | Processing queues those woken locally first, and leaves out nobody whose waker fired |
| Plays.GoalIsReached | crates/win-ioring-tests/src/rt.rs:505-543 | A task at place k of the queue is polled by the kth turn, and if ready then the loop stops with it |
| Plays.NewestIsReached | crates/win-ioring-tests/src/rt.rs:448-477 | A future just spawned and ready at its first poll ends the loop at the turn its place gives it, whatever the tasks before it do |
| Plays.AllAreFinished | crates/win-ioring-tests/src/rt.rs:505-538 | Turns that are ready and spawn nothing empty the queue, one each |
| Plays.EverythingFinishes | crates/win-ioring-tests/src/rt.rs:485-559 | With nobody waiting and such turns, the loop polls each task once and breaks with nothing left |
| Runtime.WakerRegistry.WakeTask | crates/win-ioring-tests/src/rt.rs:150-154 | Records a wake only for a task that has a waker |
| Runtime.WakerRegistry.GetAndClearWokenTasks | crates/win-ioring-tests/src/rt.rs:156-158 | Hands over the wakes in order and leaves none |
| Runtime.OneShot.Send | crates/win-ioring-tests/src/rt.rs:733-747 | Stores the value and names the waiting receiver if and only if the channel is empty |
| Runtime.OneShot.Poll | crates/win-ioring-tests/src/rt.rs:758-771 | Yields the value once and closes, answers RecvError when closed, and keeps the latest waker while empty |
| Runtime.LocalRuntime.constructor | crates/win-ioring-tests/src/rt.rs:427-437 | Starts in the initial state of the machine |
| Runtime.LocalRuntime.PendingTasks | crates/win-ioring-tests/src/rt.rs:680-684 | Counts exactly the tasks spawned and not finished |
| Runtime.LocalRuntime.Spawn | crates/win-ioring-tests/src/rt.rs:204-270 | Refines the spawn step, with a fresh id and a fresh channel |
| Runtime.LocalRuntime.Wake | crates/win-ioring-tests/src/rt.rs:334-338 | Refines the wake step |
| Runtime.LocalRuntime.ProcessNewSpawns | crates/win-ioring-tests/src/rt.rs:599-605 | Moves all pending spawns, in order, to the back of the queue |
| Runtime.LocalRuntime.ProcessWokenTasks | crates/win-ioring-tests/src/rt.rs:645-667 | Refines the processing of one registry |
| Runtime.LocalRuntime.PopFront | crates/win-ioring-tests/src/rt.rs:505-510 | Refines the start of a poll; the task polled is neither finished nor has it sent |
| Runtime.LocalRuntime.PollJoinHandle | crates/win-ioring-tests/src/rt.rs:17-28 | Refines the poll of a join handle |
| Runtime.LocalRuntime.SendOutput | crates/win-ioring-tests/src/rt.rs:220-242 | Refines the send of an output, which the channel always accepts |
| Runtime.LocalRuntime.PollFront | crates/win-ioring-tests/src/rt.rs:505-527 | One poll performs its actions in order and then finishes or suspends the task |
| Runtime.LocalRuntime.Drain | crates/win-ioring-tests/src/rt.rs:505-538 | Polls turn after turn, taking spawns after each, until the queue is empty or the goal is reached; it ends where playing those turns does, with one poll a turn |
| Runtime.LocalRuntime.OnePass | crates/win-ioring-tests/src/rt.rs:491-556 | One turn of the loop is a whole pass, or ends it by goal or for want of work |
| Runtime.LocalRuntime.RunUntil | crates/win-ioring-tests/src/rt.rs:485-559 | The loop ends in the state, at the turn and for the reason the play of its turns does; every turn was one poll or the start of one pass; it is a chain of whole passes and part of one; it stops if and only if the goal finished, and breaks only when everything has finished |
| Runtime.LocalRuntime.Run | crates/win-ioring-tests/src/rt.rs:480-482 | Returns only when every task ever spawned has finished; with nobody waiting and every turn ready it does, after one poll a task |
| Runtime.LocalRuntime.BlockOn | crates/win-ioring-tests/src/rt.rs:448-477 | Whenever it returns the result is there, so its expectation never fails, and it is the value of the poll that finished the future; a future ready at its first poll is returned at exactly the turn its place in the queue gives it |
| FileProtocol.InvIsKept | crates/win-ioring/src/file.rs:172-197 | Every start, completion, observation, drop and cursor change keeps guards, futures and cursor consistent |
| FileProtocol.InvHoldsThroughout | crates/win-ioring/src/file.rs:172-197 | Hence every state of every run does |
| FileProtocol.AtMostOneInTheKernel | crates/win-ioring/src/file.rs:172-197 | With any clones and drops, at most one sequential operation is in the kernel, and the flag is set if and only if exactly one guard is alive |
| FileProtocol.RefusedStartChangesNothing | crates/win-ioring/src/file.rs:506-540 | A start is refused if and only if the handle has no offset or an operation is in the kernel; observing and dropping the refusal returns the caller's buffer and leaves everything but the cached type as it was |
| FileProtocol.RefusalIsAnswered | crates/win-ioring/src/file.rs:506-540 | A start that does not reach the kernel answers, whenever polled, which of the three reasons stopped it, in their order, with the buffer given |
| FileProtocol.EveryBufferComesBack | crates/win-ioring/src/file.rs:710-732 | Every future, refused, failed or successful, gives back the buffer it was started with |
| FileProtocol.AnswerIsTheCompletion | crates/win-ioring/src/file.rs:710-732 | A future answers what its completion reported |
| FileProtocol.FirstQueryCounts | crates/win-ioring/src/file.rs:117-125 | The first answer of a type query is the one kept |
| FileProtocol.TypeIsFixed | crates/win-ioring/src/file.rs:117-132 | Once the handle type is cached, every later start is judged by it |
| FileProtocol.FutureKeepsItsBuffer | crates/win-ioring/src/file.rs:710-732 | Whatever else happens, a future keeps its own buffer and offset |
| FileProtocol.DroppedIsNeverObserved | crates/win-ioring/src/file.rs:429-441 | A dropped future is never observed, however its operation ends |
| FileProtocol.DropTakesTheFutureOnly | crates/win-ioring/src/file.rs:434-441 | Dropping a future leaves its operation, its guard and the cursor |
| FileProtocol.OnlyCompletionReleases | crates/win-ioring/src/file.rs:172-197 | Until its own completion an operation stays in the kernel, and no other start gets there |
| FileProtocol.UnobservedNeverMovesTheCursor | crates/win-ioring/src/file.rs:774-780 | Starts, completions and drops never move the cursor |
| FileProtocol.ObservingTilesExactly | crates/win-ioring/src/file.rs:774-780 | Observing a success keeps the tiling if and only if the cursor still stands where the operation started |
| FileProtocol.DisciplinedRunsTile | crates/win-ioring/src/file.rs:506-580 | While no operation reaches the kernel, and the cursor is not moved, behind one whose bytes are not observed yet, observed successes tile |
| FileProtocol.DisciplineIsExact | crates/win-ioring/src/file.rs:506-580 | After any disciplined run, a call leaves a state from which every disciplined continuation tiles if and only if that call keeps to the discipline |
| FileProtocol.StartIsSafeExactly | crates/win-ioring/src/file.rs:506-540 | An accepted start is safe if and only if no operation is live, or the cursor is at the last offset there is |
| FileProtocol.SetCursorIsSafeExactly | crates/win-ioring/src/file.rs:429-441 | Setting the cursor is safe if and only if no operation is live, or it is set to where it stands |
| FileProtocol.OneFileTiles | crates/win-ioring/src/file.rs:482-492 | Through one unshared file, whatever is dropped, refused, failed or short, successes observed since the cursor was set tile the file from there up to saturation |
| FileProtocol.EndIsTheTotal | crates/win-ioring/src/file.rs:774-780 | Saturating at each step is saturating once at the total |
| FileProtocol.TilesAreDisjoint | crates/win-ioring/src/file.rs:482-492 | Tiles do not overlap, short of the last offset a cursor can have |
| FileProtocol.ClonesOverlap | crates/win-ioring/src/file.rs:482-492 | Through clones the tiling fails: any start accepted while a finished operation is unobserved takes the same offset, and the two overlap as soon as the first of them to be observed moved a byte |
| FileProtocol.StartingThroughACloneBreaks | crates/win-ioring/src/file.rs:482-492 | From a fresh file, for every length of the first operation, a start through a clone breaks the tiling |
| FileProtocol.SettingThroughACloneBreaks | crates/win-ioring/src/file.rs:434-441 | From a fresh file, moving the cursor through a clone under an outstanding operation breaks the tiling |
| FileProtocol.ClonesReachOverlap | crates/win-ioring/src/file.rs:200-205 | Such a state is reached in two steps from a fresh file |
| SequentialFile.FileState.CheckHasFileOffset | crates/win-ioring/src/file.rs:117-132 | Queries the type at most once and refuses exactly pipes and character devices |
| SequentialFile.FileState.Claim | crates/win-ioring/src/file.rs:184-190 | Claims if and only if the flag was clear, and leaves it set |
| SequentialFile.FileState.AdvanceOnSuccess | crates/win-ioring/src/file.rs:774-780 | Moves the cursor by the bytes moved, saturating; a failure leaves it |
| SequentialFile.Operations.Start | crates/win-ioring/src/file.rs:506-580 | Refines the start step on all four outcomes |
| SequentialFile.Operations.Complete | crates/win-ioring/src/file.rs:172-197 | Refines terminal completion, future alive or not |
| SequentialFile.Operations.Observe | crates/win-ioring/src/file.rs:710-732 | Refines the last poll, answering the outcome with the buffer the future was started with |
| SequentialFile.Operations.DropFuture | crates/win-ioring/src/file.rs:429-441 | Refines a drop: operation, guard and cursor stay |
| SequentialFile.Operations.SetCursor | crates/win-ioring/src/file.rs:439-441 | Refines a cursor change |
| Alignment.HalvingIsExact | crates/win-ioring-bench/src/align.rs:150-182 | The test for a power of two accepts exactly the powers of two |
| Alignment.SmallerPowerDivides | crates/win-ioring-bench/src/align.rs:184-197 | Of two powers of two the smaller divides the larger |
| Alignment.ValidationIsExact | crates/win-ioring-bench/src/align.rs:150-182 | A report is accepted if and only if the logical sector is present and every answer present is a power of two |
| Alignment.FullMaskIsRefused | crates/win-ioring-bench/src/align.rs:124-126 | The largest alignment mask saturates to a report that is refused |
| Alignment.MaskOfAPower | crates/win-ioring-bench/src/align.rs:124-126 | The mask of a power of two is read back as that power |
| Alignment.MaskIsAcceptedExactly | crates/win-ioring-bench/src/align.rs:124-126 | A mask gives a power of two if and only if it is one less than a power that fits |
| Alignment.GranularityServesEveryAnswer | crates/win-ioring-bench/src/align.rs:184-197 | The granularity of an accepted report is one of its answers, a power of two, and a multiple of every non-zero answer |
| Alignment.RoundingIsLeast | crates/win-ioring-bench/src/align.rs:205-213 | Rounding gives the least multiple not below its argument, and refuses exactly when that does not fit |
| Unbuffered.CapacityIsWhole | crates/win-ioring-bench/src/aligned.rs:53-74 | An allocation is whole units, at least one, at least what was asked; refused if and only if the alignment is no power of two or no such size fits |
| Unbuffered.NewAlignedBuf | crates/win-ioring-bench/src/aligned.rs:53-94 | Succeeds if and only if the capacity is legal and memory is there; starts empty and zeroed |
| Unbuffered.AlignedBuf.constructor | crates/win-ioring-bench/src/aligned.rs:53-94 | A fresh allocation is zeroed and has delivered nothing |
| Unbuffered.AlignedBuf.Fill | crates/win-ioring-bench/src/aligned.rs:175-189 | Copies the source and nothing more, or refuses one too large and changes nothing |
| Unbuffered.AlignedBuf.SetLen | crates/win-ioring-bench/src/aligned.rs:133-140 | Exposes exactly the first `len` bytes |
| Unbuffered.FillPattern | crates/win-ioring-bench/src/unbuffered_workload.rs:286-291 | Byte i of the buffer is i mod 251 |
| Unbuffered.ChunkIsAPower | crates/win-ioring-bench/src/unbuffered_workload.rs:283-285 | The chunk is max(granularity, 2^20), a power of two in whole sectors |
| Unbuffered.WritePattern | crates/win-ioring-bench/src/unbuffered_workload.rs:314-322 | Every write is whole sectors, and the file ends as `bytes` bytes of the chunked pattern |
| Unbuffered.EnsureUnbufferedFile | crates/win-ioring-bench/src/unbuffered_workload.rs:269-324 | Refuses a partial sector and a buffered handle; otherwise byte j is (j mod chunk) mod 251 |
| Unbuffered.Create | crates/win-ioring-bench/src/unbuffered_workload.rs:209-230 | The file has the least legal size not below what was asked, byte j being (j mod max(granularity, 2^20)) mod 251, or a zero or overflowing size is refused |
| Unbuffered.PatternAgreesExactly | crates/win-ioring-bench/src/unbuffered_workload.rs:244-249 | A byte is the documented one if and only if its chunk number is a multiple of 251 |
| Unbuffered.DocumentedContentExactly | crates/win-ioring-bench/src/unbuffered_workload.rs:244-249 | The whole file is as documented if and only if it fits in one chunk |
| Unbuffered.Offsets | crates/win-ioring-bench/src/unbuffered_matrix.rs:212-244 | Every offset, sequential or random, is aligned, and its block stays inside a file of at least one block |
| Unbuffered.SequentialOffsetsStep | crates/win-ioring-bench/src/unbuffered_matrix.rs:230-233 | Sequential offsets start at zero and go up one boundary at a time, back to zero when the next block would not fit |
| Unbuffered.NextStateIsInjective | crates/win-ioring-bench/src/unbuffered_matrix.rs:235-241 | The generator never merges two states |
| Unbuffered.FirstStates | crates/win-ioring-bench/src/unbuffered_matrix.rs:235-241 | The first states from the seed, worked out |
| Unbuffered.FirstRandomOffsets | crates/win-ioring-bench/src/unbuffered_matrix.rs:234-243 | The first random offsets in a mebibyte, worked out |
| Unbuffered.EveryReadIsLegal | crates/win-ioring-bench/src/unbuffered_matrix.rs:212-244 | On every accepted host, reads of a created file start on every boundary the host named and stay inside it |
| Unbuffered.SequentialOffsetsCycle | crates/win-ioring-bench/src/unbuffered_matrix.rs:230-233 | Sequential offsets repeat exactly with the number of slots |
| UnbufferedReads.Refill | crates/win-ioring-bench/src/unbuffered_matrix.rs:285-300 | Issues offsets in order until they or the buffers run out; fails only on a buffer too small |
| UnbufferedReads.Await | crates/win-ioring-bench/src/unbuffered_matrix.rs:302-317 | Whichever read completes, its buffer goes back, and anything but a full read is an error |
| UnbufferedReads.IssueReads | crates/win-ioring-bench/src/unbuffered_matrix.rs:268-327 | Success means every read was full, every offset was read once, the total is exact, every buffer is back and no more than the pool were outstanding; failure means an empty pool, a buffer too small, or a read that did less |
| UnbufferedReads.StopsOnlyForAShortRead | crates/win-ioring-bench/src/unbuffered_matrix.rs:268-327 | With a usable pool the only way to fail is a short or failed read, and the error is that read's |
| OpenCost.SortInPlace | crates/win-ioring-bench/src/account.rs:332 | The samples end up sorted, in place |
| OpenCost.SortIsSorted | crates/win-ioring-bench/src/account.rs:332 | Sorting orders the samples and keeps them all |
| OpenCost.Summarise | crates/win-ioring-bench/src/account.rs:328-336 | Nothing for no samples; otherwise the values at ranks len / 2 and min(len * 9 / 10, len - 1) |
| OpenCost.RankIsRobust | crates/win-ioring-bench/src/account.rs:316-336 | A rank stays within the honest range while outliers are too few to reach it from either side |
| OpenCost.MedianIsRobust | crates/win-ioring-bench/src/account.rs:316-336 | With fewer than half the samples arbitrary, the median is between the smallest and the largest of the rest |
| OpenCost.P90IsRobust | crates/win-ioring-bench/src/account.rs:316-336 | With fewer than a tenth of the samples arbitrary, the 90th percentile is between the smallest and the largest of the rest |
| OpenCost.HalfIsTooMany | crates/win-ioring-bench/src/account.rs:316-336 | With half of them arbitrary it need not be |
| OpenCost.FiguresAreObserved | crates/win-ioring-bench/src/account.rs:328-336 | Both figures were observed, the median is not above the 90th percentile, more than nine tenths of the ranks are at or below that and at least a tenth at or above it |
| OpenCost.ArrivalOrderIsInvisible | crates/win-ioring-bench/src/account.rs:328-336 | The order of the samples does not matter |

## Left out

- The ring driver, registered-buffer runtime and pipes: not part of this model. A kernel completion, and the release of the guard in its payload, are single steps taken at any time; whether the driver accepts an operation is a parameter.
- Foreign calls (handle types, handle modes, alignment queries, opening files): their answers are parameters.
- Concurrency.Runner.Run: how an operation touches the file is a parameter that maps content to content at one moment between issue and completion; two operations that overlap in the kernel byte by byte are not modelled.
- Verdict.JudgedOnItsOwnCount: rounding in floating-point division is not modelled; means are exact rationals.
- Verify.Trace.RecordDelivered: the completion and byte counters are unbounded where the program's are 64-bit; the digest wraps as in the program.
- Concurrency.Runner.Refill: the only error of making an operation is an empty pool; the program passes any other error of that kind straight on.
- Verify.OneChangedByteIsRejected: covers one changed byte; that changes of several bytes are always seen rests on the absence of hash collisions and is not a theorem, and with it the rejection of hollow deliveries in general.
- Scenarios.WritePhase: every write moves its whole block and none fails; a short or failing write is covered only by the runner's own contract.
- Scenarios.WriteAndReadBack: likewise for its writes, and requires that the file size fits in 64 bits, as an offset must; the truncation of the file by opening it is its first step and the flush between the phases does nothing.
- Scenarios.PositionalReadsOn: the offsets are any function of the operation's index, which covers the sequential formula and the seeded generator; the generator of `scenario.rs` itself is not modelled.
- Weaken.SkippingReadsAreCaught: a skipped read hands its buffer back as it was; that stale content is a parameter.
- Runtime.LocalRuntime.RunUntil: the stop condition is the completion of one task, or none, which are the two the program uses; observes any finite number of polls and passes, so a run whose tasks wait for ever is reported as unfinished; nested runs from inside a poll are not modelled.
- Runtime.LocalRuntime.PollJoinHandle: the join handle of a thread-safe task goes through the futures crate's channel, which is modelled as the same one-shot channel; dropping a receiver is not modelled.
- Raw wakers, locks and cell borrows: a waker is the id and kind of its task, a locked registry operation is one step.
- YieldNow: it is a poll that wakes its own task, one of the actions a poll may take.
- Positional reads, writes and flushes of a file: they never touch the cursor.
- Unbuffered.Create: a write either succeeds in full or ends the run; what a failing write leaves behind is not described.
- Unbuffered.Offsets: the slot count is unbounded; in the program it overflows for a zero block over a file of 2^64 - 1 bytes with alignment one.
- OpenCost.SortInPlace: sorts by insertion where the program calls the library's unstable sort; the sorted sequence is the same.
- The timed-region marker, error texts, `Display`, slugs, grids, budgets and reports: fixed tables and formatting.
