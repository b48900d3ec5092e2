/**
 The application logic under test: positional reads, and write-then-read.

 Whatever the depth, the shape, the pool and the order in which operations take
 effect and complete, a scenario's trace is the one a serial run would leave.
 */
module Scenarios {
  import opened Arith
  import opened Concurrency
  import opened Depth
  import opened Fairness
  import opened Fnv
  import opened Pools
  import opened Sums
  import opened Verdict
  import opened Verify

  /** The window shape a scenario declares, and drives. */
  function ShapeOf(scenario: Scenario): (shape: Shape)
    ensures shape == Batched <==> scenario == BulkRead
  {
    if scenario.BulkRead? then Batched else Rolling
  }

  /** What one scenario run produced. */
  datatype ScenarioOutcome = ScenarioOutcome(trace: Trace, achieved: Achieved, shape: ShapeCheck)

  // ------------------------------------------------------------- serial traces

  /** What operation `i` records when it reports `outcomeOf(i)`. */
  function Report(phase: Phase, offsetOf: nat -> U64, outcomeOf: nat -> Outcome): nat -> Delivery {
    (i: nat) =>
         match outcomeOf(i)
         case Done(transferred, bytes) => Delivery(phase, offsetOf(i), transferred, bytes)
         case Failed(_) => Delivery(phase, offsetOf(i), 0, [])
  }

  /** The operations of a phase delivered one after another, in issue order. */
  function SerialPhase(view: TraceView, phase: Phase, offsetOf: nat -> U64, outcomeOf: nat -> Outcome, count: nat): TraceView {
    DeliverAll(view, Map(Report(phase, offsetOf, outcomeOf), Range(count)))
  }

  function IssueList(offsetOf: nat -> U64, block: U32, count: nat): (issued: seq<Issued>)
    ensures |issued| == count
  {
    seq(count, (i: nat) => Issued(offsetOf(i), block))
  }

  /** A complete run whose operations report `outcomeOf`, in any order, leaves the serial trace. */
  lemma RunIsSerial(job: Job, phase: Phase, start: Content, log: RunLog, count: nat, view: TraceView,
                    outcomeOf: nat -> Outcome)
    requires IsCompleteRun(job, phase, start, log, count)
    requires forall i | i in log.arrived :: log.arrived[i] == outcomeOf(i)
    ensures DeliverAll(view, log.deliveries) == SerialPhase(view, phase, job.offsetOf, outcomeOf, count)
  {
    var report := Report(phase, job.offsetOf, outcomeOf);
    assert log.deliveries == Map(report, log.order) by {
      hide ContentAfter;
      assert forall k | 0 <= k < |log.order| :: log.deliveries[k] == report(log.order[k]);
    }
    hide IsCompleteRun, Report;
    assert Enumerates(log.order, count);
    MapOfPermutation(report, log.order, Range(count));
    CompletionOrderIsInvisible(HashOf, view, log.deliveries, Map(report, Range(count)));
  }

  // ----------------------------------------------------------- the depth figures

  /** The depth figures a scenario reports, given what its pool could supply. */
  ghost predicate FiguresAsPredicted(achieved: Achieved, check: ShapeCheck, shape: Shape, operations: nat,
                                     depth: nat, supply: nat)
  {
    var configured := Max(depth, 1);
    && achieved.peak == Min(operations, Min(configured, supply))
    && achieved.mean == MeanOf(PredictedWeighted(shape, operations, Min(configured, supply)), operations)
    && achieved.shortfall == (if operations >= configured && supply >= configured then NoShortfall else Expected)
    && check.measured == achieved.mean
    && check.predicted == MeanOf(PredictedWeighted(shape, operations, configured), operations)
    && !check.IsFailure()
    && (operations < TOLERANCE_RECIPROCAL ==> (check.Matched? <==> supply >= Min(configured, operations)))
  }

  lemma FreshRunnerIsPredicted(shape: Shape, operations: nat, depth: nat, supply: nat)
    requires operations > 0 ==> supply > 0
    ensures var configured := Max(depth, 1);
            var weighted := PredictedWeighted(shape, operations, Min(configured, supply));
            var peak := Min(operations, Min(configured, supply));
            var starved, poolBound := operations > 0 && configured > 1, supply < Min(configured, operations);
            FiguresAsPredicted(
              Achieved(peak, MeanOf(weighted, operations), JudgeShortfall(configured, peak, starved, poolBound, operations)),
              Judge(shape, configured, weighted, operations, poolBound, operations), shape, operations, depth, supply)
  {
    var configured := Max(depth, 1);
    if operations > 0 {
      VerdictIsExact(shape, operations, configured, supply);
    } else {
      JudgedOnItsOwnCount(shape, configured, 0, false, 0);
    }
  }

  // ------------------------------------------------------------ positional reads

  /** What a backend's read of operation `i` reports of a file's content. */
  type Reader = (nat, Content) -> Outcome

  /** A read that delivers everything the file holds of the block, short only at end of file. */
  function HonestRead(content: Content, offset: U64, block: U32): Outcome {
    if offset >= |content| then Done(0, [])
    else
      var n := Min(block, |content| - offset);
      Done(n, content[offset..offset + n])
  }

  function HonestReader(offsetOf: nat -> U64, block: U32): Reader {
    (i: nat, content: Content) => HonestRead(content, offsetOf(i), block)
  }

  function ReadJob(block: U32, offsetOf: nat -> U64, read: Reader): Job {
    Job(block, offsetOf, (i: nat, content: Content) => Performed(content, read(i, content)))
  }

  /** The trace of a read scenario: a function of the job and the file alone. */
  function ReadTrace(content: Content, block: U32, offsetOf: nat -> U64, read: Reader, operations: nat): TraceView {
    SerialPhase(TraceView(IssueList(offsetOf, block, operations), 0, 0, 0), Read, offsetOf,
                ReadOf(read, content), operations)
  }

  /** What each read reports of a file that does not change under it. */
  function ReadOf(read: Reader, content: Content): nat -> Outcome {
    (i: nat) => read(i, content)
  }

  lemma PhasesIssueNothing(view: TraceView, phase: Phase, offsetOf: nat -> U64, outcomeOf: nat -> Outcome, count: nat)
    ensures SerialPhase(view, phase, offsetOf, outcomeOf, count).issued == view.issued
  {
    DeliverAllIsASum(HashOf, view, Map(Report(phase, offsetOf, outcomeOf), Range(count)));
  }

  lemma ReportsAre(phase: Phase, offsetOf: nat -> U64, outcomeOf: nat -> Outcome, count: nat, ds: seq<Delivery>)
    requires |ds| == count
    requires forall i: nat | i < count :: outcomeOf(i).Done?
               && ds[i] == Delivery(phase, offsetOf(i), outcomeOf(i).transferred, outcomeOf(i).bytes)
    ensures Map(Report(phase, offsetOf, outcomeOf), Range(count)) == ds
  {
    var report := Report(phase, offsetOf, outcomeOf);
    forall i: nat | i < count
      ensures Map(report, Range(count))[i] == ds[i]
    {
      assert Map(report, Range(count))[i] == report(i);
    }
  }

  /** A phase adds what `ds` lists, operation by operation: its hashes with wrap-around, its bytes and its number. */
  lemma PhaseDelivers(view: TraceView, phase: Phase, offsetOf: nat -> U64, outcomeOf: nat -> Outcome, count: nat,
                      ds: seq<Delivery>)
    requires |ds| == count
    requires forall i: nat | i < count :: outcomeOf(i).Done?
               && ds[i] == Delivery(phase, offsetOf(i), outcomeOf(i).transferred, outcomeOf(i).bytes)
    ensures SerialPhase(view, phase, offsetOf, outcomeOf, count)
         == TraceView(view.issued, (view.digest + Sum(HashOf, ds)) % TWO_64, view.deliveredBytes + Sum(BytesOf, ds),
                      view.completions + count)
  {
    ReportsAre(phase, offsetOf, outcomeOf, count, ds);
    hide Report, Sum, DeliverAll, HashOf, BytesOf;
    DeliversAll(view, ds);
  }

  lemma DeliversAll(view: TraceView, ds: seq<Delivery>)
    ensures DeliverAll(view, ds)
         == TraceView(view.issued, (view.digest + Sum(HashOf, ds)) % TWO_64, view.deliveredBytes + Sum(BytesOf, ds),
                      view.completions + |ds|)
  {
    hide Sum, DeliverAllBy, HashOf, BytesOf;
    DeliverAllIsASum(HashOf, view, ds);
  }

  /** What a read scenario leaves: each request as issued, and each read as it was delivered, at its own offset. */
  lemma ReadTraceIs(content: Content, block: U32, offsetOf: nat -> U64, read: Reader, operations: nat, ds: seq<Delivery>)
    requires |ds| == operations
    requires forall i: nat | i < operations :: read(i, content).Done?
               && ds[i] == Delivery(Read, offsetOf(i), read(i, content).transferred, read(i, content).bytes)
    ensures var trace := ReadTrace(content, block, offsetOf, read, operations);
            && |trace.issued| == operations
            && (forall i: nat | i < operations :: trace.issued[i] == Issued(offsetOf(i), block))
            && trace.digest == Sum(HashOf, ds) % TWO_64 && trace.deliveredBytes == Sum(BytesOf, ds)
            && trace.completions == operations
  {
    var issued := IssueList(offsetOf, block, operations);
    PhaseDelivers(TraceView(issued, 0, 0, 0), Read, offsetOf, ReadOf(read, content), operations, ds);
    assert forall i: nat | i < operations :: issued[i] == Issued(offsetOf(i), block);
    hide SerialPhase;
  }

  lemma {:induction false} ReadsLeaveTheFile(block: U32, offsetOf: nat -> U64, read: Reader, content: Content,
                                             performed: seq<nat>)
    ensures ContentAfter(ReadJob(block, offsetOf, read), content, performed) == content
  {
    if performed != [] {
      ReadsLeaveTheFile(block, offsetOf, read, content, performed[..|performed| - 1]);
    }
  }

  lemma ReadsReportTheFile(block: U32, offsetOf: nat -> U64, read: Reader, content: Content, log: RunLog)
    requires ReportsAreReal(ReadJob(block, offsetOf, read), content, log)
    ensures forall i | i in log.arrived :: log.arrived[i] == read(i, content)
  {
    var job := ReadJob(block, offsetOf, read);
    forall i | i in log.arrived ensures log.arrived[i] == read(i, content) {
      var k :| 0 <= k < |log.performed| && log.performed[k] == i;
      ReadsLeaveTheFile(block, offsetOf, read, content, log.performed[..k]);
    }
  }

  /** A phase of reads on a fresh runner. */
  method ReadPhase(pool: BufferPool, disk: Disk, trace: Trace, block: U32, operations: nat, depth: nat, shape: Shape,
                   offsetOf: nat -> U64, read: Reader, pick: nat -> nat)
    returns (r: Result<(Achieved, ShapeCheck)>)
    requires forall i: nat, content :: read(i, content).Done?
    modifies pool, disk, trace
    ensures r.Ok? <==> operations == 0 || old(pool.free) != []
    ensures r.Err? ==> r.error == WouldBlock
    ensures r.Ok? ==>
              && trace.View() == SerialPhase(old(trace.View()), Read, offsetOf, ReadOf(read, old(disk.content)), operations)
              && FiguresAsPredicted(r.value.0, r.value.1, shape, operations, depth, |old(pool.free)|)
              && disk.content == old(disk.content)
              && multiset(Ids(pool.free)) == multiset(Ids(old(pool.free)))
  {
    hide SerialPhase, IsCompleteRun, ContentAfter, PredictedWeighted, FiguresAsPredicted, Ids, KernelState;
    hide Judge, JudgeShortfall, MeanOf, DeliverAll, ReadOf, ReadJob;
    ghost var start, supply, before := disk.content, |pool.free|, trace.View();
    var runner := new Runner(pool, depth, shape);
    var ran;
    ghost var log;
    ran, log := runner.Run(operations, Read, trace, ReadJob(block, offsetOf, read), disk, pick);
    if ran.Err? {
      if operations == 0 || supply > 0 {
        ReadsNeverFail(block, offsetOf, read, start, log, disk.content, operations);
        assert false;
      }
      return Err(ran.error);
    }
    ReadRunIsSerial(block, offsetOf, read, start, log, operations, before);
    ReadsLeaveTheFile(block, offsetOf, read, start, log.performed);
    FreshRunnerIsPredicted(shape, operations, depth, supply);
    return Ok((runner.Achieve(operations), runner.CheckShape(operations)));
  }

  /** The measurement loop shared by every read scenario. */
  method PositionalReadsOn(pool: BufferPool, disk: Disk, block: U32, operations: nat, depth: nat, shape: Shape,
                           offsetOf: nat -> U64, read: Reader, pick: nat -> nat)
    returns (r: Result<ScenarioOutcome>)
    requires forall i: nat, content :: read(i, content).Done?
    modifies pool, disk
    ensures r.Ok? <==> operations == 0 || old(pool.free) != []
    ensures r.Err? ==> r.error == WouldBlock
    ensures r.Ok? ==>
              && fresh(r.value.trace)
              && |r.value.trace.issued| == operations
              && (forall i: nat | i < operations :: r.value.trace.issued[i] == Issued(offsetOf(i), block))
              && r.value.trace.View() == ReadTrace(old(disk.content), block, offsetOf, read, operations)
              && FiguresAsPredicted(r.value.achieved, r.value.shape, shape, operations, depth, |old(pool.free)|)
              && disk.content == old(disk.content)
              && multiset(Ids(pool.free)) == multiset(Ids(old(pool.free)))
  {
    hide SerialPhase, FiguresAsPredicted, Ids;
    var trace := new Trace();
    for i := 0 to operations
      invariant trace.View() == TraceView(IssueList(offsetOf, block, i), 0, 0, 0)
      modifies trace
    {
      trace.RecordIssued(offsetOf(i), block);
      assert IssueList(offsetOf, block, i + 1) == IssueList(offsetOf, block, i) + [Issued(offsetOf(i), block)];
    }
    var ran := ReadPhase(pool, disk, trace, block, operations, depth, shape, offsetOf, read, pick);
    PhasesIssueNothing(TraceView(IssueList(offsetOf, block, operations), 0, 0, 0), Read, offsetOf,
                       ReadOf(read, old(disk.content)), operations);
    assert forall i: nat | i < operations :: IssueList(offsetOf, block, operations)[i] == Issued(offsetOf(i), block);
    match ran
    case Err(e) => return Err(e);
    case Ok(figures) => return Ok(ScenarioOutcome(trace, figures.0, figures.1));
  }

  /**
   Two read runs of one job over the same content, whatever depth, shape, pool and
   schedule each has, are found to have done the same work.
   */
  method CompareReadRuns(pool: BufferPool, pool': BufferPool, disk: Disk, disk': Disk, block: U32, operations: nat,
                         offsetOf: nat -> U64, read: Reader, depth: nat, depth': nat, shape: Shape, shape': Shape,
                         pick: nat -> nat, pick': nat -> nat)
    returns (verdict: Agreement)
    requires forall i: nat, content :: read(i, content).Done?
    requires pool != pool' && disk != disk' && disk.content == disk'.content
    requires pool.free != [] && pool'.free != []
    modifies pool, pool', disk, disk'
    ensures verdict == Agree
  {
    hide ReadTrace, FiguresAsPredicted;
    ghost var start := disk.content;
    var a := PositionalReadsOn(pool, disk, block, operations, depth, shape, offsetOf, read, pick);
    var b := PositionalReadsOn(pool', disk', block, operations, depth', shape', offsetOf, read, pick');
    verdict := a.value.trace.AgreesWith(b.value.trace);
    VerdictIsUnique(a.value.trace.View(), b.value.trace.View(), verdict, Agree);
  }

  /** Sequential and bulk reads of equal parameters differ in shape only, and agree. */
  method CompareSequentialWithBulk(pool: BufferPool, pool': BufferPool, disk: Disk, disk': Disk, block: U32,
                                   operations: nat, offsetOf: nat -> U64, read: Reader, depth: nat, pick: nat -> nat,
                                   pick': nat -> nat)
    returns (verdict: Agreement)
    requires forall i: nat, content :: read(i, content).Done?
    requires pool != pool' && disk != disk' && disk.content == disk'.content
    requires pool.free != [] && pool'.free != []
    modifies pool, pool', disk, disk'
    ensures ShapeOf(SequentialRead) != ShapeOf(BulkRead) && verdict == Agree
  {
    verdict := CompareReadRuns(pool, pool', disk, disk', block, operations, offsetOf, read, depth, depth,
                               ShapeOf(SequentialRead), ShapeOf(BulkRead), pick, pick');
  }

  lemma PartAt(a: TraceView, b: TraceView, k: nat)
    requires |a.issued| == |b.issued| && k < |a.issued| && a.issued[k] != b.issued[k]
    requires forall i: nat | i < k :: a.issued[i] == b.issued[i]
    ensures IsVerdict(a, b, Disagree(IssueOrder(k, a.issued[k], b.issued[k])))
  {
    assert a.issued[..k] == b.issued[..k];
  }

  /** Two read runs whose offsets first part at operation `k` are told apart there. */
  method CompareDifferentReads(pool: BufferPool, pool': BufferPool, disk: Disk, disk': Disk, block: U32, operations: nat,
                               offsetOf: nat -> U64, offsetOf': nat -> U64, read: Reader, read': Reader, depth: nat,
                               shape: Shape, pick: nat -> nat, pick': nat -> nat, ghost k: nat)
    returns (verdict: Agreement)
    requires forall i: nat, content :: read(i, content).Done? && read'(i, content).Done?
    requires pool != pool' && disk != disk' && pool.free != [] && pool'.free != []
    requires k < operations && offsetOf(k) != offsetOf'(k) && forall i: nat | i < k :: offsetOf(i) == offsetOf'(i)
    modifies pool, pool', disk, disk'
    ensures verdict == Disagree(IssueOrder(k, Issued(offsetOf(k), block), Issued(offsetOf'(k), block)))
  {
    hide ReadTrace, FiguresAsPredicted, Ids;
    var a := PositionalReadsOn(pool, disk, block, operations, depth, shape, offsetOf, read, pick);
    var b := PositionalReadsOn(pool', disk', block, operations, depth, shape, offsetOf', read', pick');
    verdict := a.value.trace.AgreesWith(b.value.trace);
    PartAt(a.value.trace.View(), b.value.trace.View(), k);
    VerdictIsUnique(a.value.trace.View(), b.value.trace.View(), verdict,
                    Disagree(IssueOrder(k, Issued(offsetOf(k), block), Issued(offsetOf'(k), block))));
  }

  lemma ReadsNeverFail(block: U32, offsetOf: nat -> U64, read: Reader, start: Content, log: RunLog,
                       content: Content, issued: nat)
    requires forall i: nat, content :: read(i, content).Done?
    requires KernelState(ReadJob(block, offsetOf, read), start, content, log, issued)
    ensures forall i | i in log.arrived :: log.arrived[i].Done?
  {
    ReadsReportTheFile(block, offsetOf, read, start, log);
  }

  lemma ReadRunIsSerial(block: U32, offsetOf: nat -> U64, read: Reader, start: Content, log: RunLog,
                        operations: nat, view: TraceView)
    requires IsCompleteRun(ReadJob(block, offsetOf, read), Read, start, log, operations)
    ensures DeliverAll(view, log.deliveries) == SerialPhase(view, Read, offsetOf, ReadOf(read, start), operations)
  {
    ReadsReportTheFile(block, offsetOf, read, start, log);
    RunIsSerial(ReadJob(block, offsetOf, read), Read, start, log, operations, view, ReadOf(read, start));
  }

  // ------------------------------------------------------------- write-then-read

  /** The offset of the `i`th block, in wrapping 64-bit arithmetic. */
  function BlockOffset(block: U32): nat -> U64 {
    (i: nat) => (i * block) % TWO_64
  }

  /** The pattern every write sends: byte `i` is `i % 251`. */
  function Pattern(block: U32): (p: seq<Byte>)
    ensures |p| == block
  {
    seq(block, (i: nat) => i % 251)
  }

  function Zeros(n: nat): (z: seq<Byte>)
    ensures |z| == n
  {
    seq(n, (i: nat) => 0)
  }

  /** A positional write: the gap before it, if any, reads as zeros. */
  function Splice(content: Content, offset: nat, bytes: seq<Byte>): (r: Content)
    ensures |r| == Max(|content|, offset + |bytes|)
  {
    var padded := if offset > |content| then content + Zeros(offset - |content|) else content;
    padded[..offset] + bytes + (if offset + |bytes| < |padded| then padded[offset + |bytes|..] else [])
  }

  function WriteJob(block: U32): Job {
    Job(block, BlockOffset(block),
        (i: nat, content: Content) =>
          Performed(Splice(content, BlockOffset(block)(i), Pattern(block)), Done(block, Pattern(block))))
  }

  /** `n` copies of a pattern, end to end. */
  function Repeat(pattern: seq<Byte>, n: nat): seq<Byte> {
    if n == 0 then [] else Repeat(pattern, n - 1) + pattern
  }

  /** Every write of the phase reports its whole block, holding the pattern. */
  function WriteReports(block: U32): nat -> Outcome {
    (i: nat) => Done(block, Pattern(block))
  }

  lemma SpliceHits(content: Content, offset: nat, bytes: seq<Byte>)
    ensures Splice(content, offset, bytes)[offset..offset + |bytes|] == bytes
  {
  }

  lemma SpliceMisses(content: Content, offset: nat, bytes: seq<Byte>, a: nat, b: nat)
    requires a <= b <= |content| && (b <= offset || offset + |bytes| <= a)
    ensures Splice(content, offset, bytes)[a..b] == content[a..b]
  {
  }

  lemma BlocksApart(i: nat, j: nat, block: nat)
    requires i < j
    ensures (i + 1) * block == i * block + block <= j * block
  {
    MulMonotone(i + 1, j, block);
  }

  /** The blocks of the operations in `performed` hold the pattern, inside a file of at most `count` blocks. */
  ghost predicate BlocksWritten(content: Content, block: U32, performed: seq<nat>, count: nat) {
    && |content| <= count * block
    && forall i | i in performed :: HoldsPattern(content, block, i)
  }

  ghost predicate HoldsPattern(content: Content, block: U32, i: nat) {
    && i * block <= i * block + block <= |content|
    && content[i * block..i * block + block] == Pattern(block)
  }

  lemma WriteOneBlock(content: Content, block: U32, performed: seq<nat>, count: nat, j: nat)
    requires BlocksWritten(content, block, performed, count) && j < count && count * block < TWO_64
    ensures BlockOffset(block)(j) == j * block
    ensures BlocksWritten(Splice(content, j * block, Pattern(block)), block, performed + [j], count)
  {
    BlocksApart(j, count, block);
    var after := Splice(content, j * block, Pattern(block));
    SpliceHits(content, j * block, Pattern(block));
    forall i | i in performed + [j] ensures HoldsPattern(after, block, i) {
      if i < j {
        BlocksApart(i, j, block);
        SpliceMisses(content, j * block, Pattern(block), i * block, i * block + block);
      } else if j < i {
        BlocksApart(j, i, block);
        SpliceMisses(content, j * block, Pattern(block), i * block, i * block + block);
      }
    }
  }

  lemma {:induction false} WritesAccumulate(block: U32, performed: seq<nat>, count: nat)
    requires count * block < TWO_64
    requires forall k | 0 <= k < |performed| :: performed[k] < count
    ensures BlocksWritten(ContentAfter(WriteJob(block), [], performed), block, performed, count)
  {
    if performed == [] {
      MulMonotone(0, count, block);
    } else {
      var front, j := performed[..|performed| - 1], performed[|performed| - 1];
      WritesAccumulate(block, front, count);
      WriteOneBlock(ContentAfter(WriteJob(block), [], front), block, front, count, j);
      assert performed == front + [j];
    }
  }

  lemma {:induction false} PatternRepeats(content: Content, block: U32, n: nat)
    requires n * block <= |content|
    requires forall i: nat | i < n :: HoldsPattern(content, block, i)
    ensures content[..n * block] == Repeat(Pattern(block), n)
  {
    if n > 0 {
      BlocksApart(n - 1, n, block);
      assert HoldsPattern(content, block, n - 1);
      PatternRepeats(content, block, n - 1);
      assert content[..n * block] == content[..(n - 1) * block] + content[(n - 1) * block..n * block];
    }
  }

  /** Whatever order the writes take effect in, the file is the pattern, once per operation. */
  lemma WritesFillTheFile(block: U32, performed: seq<nat>, count: nat)
    requires count * block < TWO_64 && Enumerates(performed, count)
    ensures ContentAfter(WriteJob(block), [], performed) == Repeat(Pattern(block), count)
  {
    EnumerationFacts(performed, count);
    WritesAccumulate(block, performed, count);
    var content := ContentAfter(WriteJob(block), [], performed);
    if count > 0 {
      assert HoldsPattern(content, block, count - 1);
      BlocksApart(count - 1, count, block);
    }
    PatternRepeats(content, block, count);
    assert content[..count * block] == content;
  }

  lemma {:induction false} RepeatedBlocks(pattern: seq<Byte>, n: nat, i: nat)
    requires i < n
    ensures |Repeat(pattern, n)| == n * |pattern|
    ensures (i + 1) * |pattern| <= n * |pattern|
    ensures Repeat(pattern, n)[i * |pattern|..(i + 1) * |pattern|] == pattern
  {
    BlocksApart(n - 1, n, |pattern|);
    if n == 1 {
      assert Repeat(pattern, 0) == [];
    } else if i < n - 1 {
      RepeatedBlocks(pattern, n - 1, i);
    } else {
      RepeatedBlocks(pattern, n - 1, 0);
    }
  }

  /** Every block of the file has an offset that fits, and lies inside the file. */
  lemma BlockOffsetFits(block: U32, count: nat, i: nat)
    requires i < count && count * block < TWO_64
    ensures BlockOffset(block)(i) == i * block && i * block + block == (i + 1) * block <= count * block
  {
    BlocksApart(i, count, block);
  }

  lemma HonestReaderReads(offsetOf: nat -> U64, block: U32, i: nat, content: Content)
    ensures HonestReader(offsetOf, block)(i, content) == HonestRead(content, offsetOf(i), block)
  {
    hide HonestRead;
  }

  lemma HonestReaderNeverFails(offsetOf: nat -> U64, block: U32)
    ensures forall i: nat, content :: HonestReader(offsetOf, block)(i, content).Done?
  {
    forall i: nat, content: Content
      ensures HonestReader(offsetOf, block)(i, content).Done?
    {
      HonestReaderReads(offsetOf, block, i, content);
    }
  }

  /** Each read-back delivers exactly the pattern. */
  lemma ReadBackIsThePattern(block: U32, count: nat, i: nat)
    requires i < count && count * block < TWO_64
    ensures HonestReader(BlockOffset(block), block)(i, Repeat(Pattern(block), count)) == Done(block, Pattern(block))
  {
    var content := Repeat(Pattern(block), count);
    RepeatedBlocks(Pattern(block), count, i);
    BlockOffsetFits(block, count, i);
    hide Repeat, Pattern, BlockOffset, HonestReader, HonestRead;
    HonestReaderReads(BlockOffset(block), block, i, content);
    BlockIsRead(content, i * block, block, Pattern(block));
  }

  lemma BlockIsRead(content: Content, offset: U64, block: U32, bytes: seq<Byte>)
    requires offset + block <= |content| && |bytes| == block && content[offset..offset + block] == bytes
    ensures HonestRead(content, offset, block) == Done(block, bytes)
  {
  }

  /** The trace of write-then-read under a given read-back: fixed by the block, the count and the reader. */
  function WriteReadTrace(block: U32, operations: nat, read: Reader): TraceView {
    var issued := IssueList(BlockOffset(block), block, operations);
    var written := SerialPhase(TraceView(issued + issued, 0, 0, 0), Write, BlockOffset(block), WriteReports(block), operations);
    SerialPhase(written, Read, BlockOffset(block), ReadOf(read, Repeat(Pattern(block), operations)), operations)
  }

  /** Every block is asked for twice, once to be written and once to be read, at its own offset. */
  lemma WriteReadIssues(block: U32, operations: nat, read: Reader)
    requires operations * block < TWO_64
    ensures var issued := WriteReadTrace(block, operations, read).issued;
            && |issued| == 2 * operations
            && forall i: nat | i < operations ::
                 issued[i] == issued[operations + i] && issued[i].offset == i * block && issued[i].len == block
  {
    var issued := IssueList(BlockOffset(block), block, operations);
    var view := TraceView(issued + issued, 0, 0, 0);
    var written := SerialPhase(view, Write, BlockOffset(block), WriteReports(block), operations);
    PhasesIssueNothing(view, Write, BlockOffset(block), WriteReports(block), operations);
    PhasesIssueNothing(written, Read, BlockOffset(block), ReadOf(read, Repeat(Pattern(block), operations)), operations);
    IssuedBlocks(block, operations);
    hide SerialPhase, IssueList, Pattern, Repeat, BlockOffset, WriteReports, ReadOf;
    assert forall i: nat | i < operations :: (issued + issued)[i] == issued[i] == (issued + issued)[operations + i];
  }

  lemma IssuedBlocks(block: U32, operations: nat)
    requires operations * block < TWO_64
    ensures forall i: nat | i < operations ::
              && IssueList(BlockOffset(block), block, operations)[i].offset == i * block
              && IssueList(BlockOffset(block), block, operations)[i].len == block
  {
    forall i: nat | i < operations
      ensures IssueList(BlockOffset(block), block, operations)[i] == Issued(BlockOffset(block)(i), block)
      ensures BlockOffset(block)(i) == i * block
    {
      BlockOffsetFits(block, operations, i);
    }
  }

  /** What write-then-read leaves: the pattern written at every block's offset, then what each read delivered there. */
  lemma WriteReadTraceIs(block: U32, operations: nat, read: Reader, writes: seq<Delivery>, readBack: seq<Delivery>)
    requires operations * block < TWO_64 && |writes| == |readBack| == operations
    requires forall i: nat | i < operations :: writes[i].offset == readBack[i].offset == i * block
    requires forall i: nat | i < operations :: writes[i] == Delivery(Write, writes[i].offset, block, Pattern(block))
    requires var content := Repeat(Pattern(block), operations);
             forall i: nat | i < operations :: read(i, content).Done?
               && readBack[i] == Delivery(Read, readBack[i].offset, read(i, content).transferred, read(i, content).bytes)
    ensures var trace := WriteReadTrace(block, operations, read);
            && trace.digest == (Sum(HashOf, writes) + Sum(HashOf, readBack)) % TWO_64
            && trace.deliveredBytes == Sum(BytesOf, writes) + Sum(BytesOf, readBack)
            && trace.completions == 2 * operations
  {
    hide Pattern, Repeat, BlockOffset, IssueList, SerialPhase, Sum, HashOf, BytesOf, ReadOf, WriteReports;
    var issued := IssueList(BlockOffset(block), block, operations);
    var view := TraceView(issued + issued, 0, 0, 0);
    WritesDeliver(view, block, operations, writes);
    ReadsDeliver(SerialPhase(view, Write, BlockOffset(block), WriteReports(block), operations), block, operations, read,
                 Repeat(Pattern(block), operations), readBack);
    WrapOnce(Sum(HashOf, writes), Sum(HashOf, readBack));
  }

  lemma WritesDeliver(view: TraceView, block: U32, operations: nat, writes: seq<Delivery>)
    requires operations * block < TWO_64 && |writes| == operations
    requires forall i: nat | i < operations ::
               writes[i].offset == i * block && writes[i] == Delivery(Write, writes[i].offset, block, Pattern(block))
    ensures SerialPhase(view, Write, BlockOffset(block), WriteReports(block), operations)
         == TraceView(view.issued, (view.digest + Sum(HashOf, writes)) % TWO_64,
                      view.deliveredBytes + Sum(BytesOf, writes), view.completions + operations)
  {
    forall i: nat | i < operations
      ensures WriteReports(block)(i) == Done(block, Pattern(block)) && BlockOffset(block)(i) == writes[i].offset
    {
      BlockOffsetFits(block, operations, i);
    }
    hide Pattern, BlockOffset, SerialPhase, Sum, HashOf, BytesOf, WriteReports;
    PhaseDelivers(view, Write, BlockOffset(block), WriteReports(block), operations, writes);
  }

  lemma ReadsDeliver(view: TraceView, block: U32, operations: nat, read: Reader, content: Content, readBack: seq<Delivery>)
    requires operations * block < TWO_64 && |readBack| == operations
    requires forall i: nat | i < operations :: readBack[i].offset == i * block && read(i, content).Done?
               && readBack[i] == Delivery(Read, readBack[i].offset, read(i, content).transferred, read(i, content).bytes)
    ensures SerialPhase(view, Read, BlockOffset(block), ReadOf(read, content), operations)
         == TraceView(view.issued, (view.digest + Sum(HashOf, readBack)) % TWO_64,
                      view.deliveredBytes + Sum(BytesOf, readBack), view.completions + operations)
  {
    forall i: nat | i < operations
      ensures ReadOf(read, content)(i) == read(i, content) && BlockOffset(block)(i) == readBack[i].offset
    {
      BlockOffsetFits(block, operations, i);
    }
    hide BlockOffset, SerialPhase, Sum, HashOf, BytesOf, ReadOf;
    PhaseDelivers(view, Read, BlockOffset(block), ReadOf(read, content), operations, readBack);
  }

  /** The written file, byte by byte. */
  lemma RepeatedBytes(block: U32, operations: nat)
    ensures |Repeat(Pattern(block), operations)| == operations * block
    ensures forall j: nat | j < operations * block :: Repeat(Pattern(block), operations)[j] == (j % block) % 251
  {
    RepeatedLength(block, operations);
    hide Repeat, Pattern;
    assert block > 0 || operations * block == 0;
    forall j: nat | j < operations * block
      ensures Repeat(Pattern(block), operations)[j] == (j % block) % 251
    {
      RepeatedByte(block, operations, j);
    }
  }

  lemma RepeatedLength(block: U32, operations: nat)
    ensures |Repeat(Pattern(block), operations)| == operations * block
  {
    if operations > 0 {
      RepeatedBlocks(Pattern(block), operations, 0);
    }
  }

  lemma RepeatedByte(block: U32, operations: nat, j: nat)
    requires block > 0 && j < operations * block && |Repeat(Pattern(block), operations)| == operations * block
    ensures Repeat(Pattern(block), operations)[j] == (j % block) % 251
  {
    hide Repeat, Pattern;
    var i, r := BlockOf(j, block, operations);
    RepeatedBlocks(Pattern(block), operations, i);
    ByteOfABlock(Repeat(Pattern(block), operations), block, i, r);
  }

  /** Which block a byte is in. */
  lemma BlockOf(j: nat, block: nat, operations: nat) returns (i: nat, r: nat)
    requires block > 0 && j < operations * block
    ensures j == i * block + r && r == j % block && i < operations
  {
    i, r := j / block, j % block;
    if j / block >= operations {
      MulMonotone(operations, j / block, block);
    }
  }

  lemma ByteOfABlock(content: Content, block: U32, i: nat, r: nat)
    requires r < block && (i + 1) * block <= |content|
    requires content[i * block..(i + 1) * block] == Pattern(block)
    ensures i * block + r < |content| && content[i * block + r] == r % 251
  {
    assert (i + 1) * block == i * block + block;
    assert content[i * block..(i + 1) * block][r] == Pattern(block)[r];
  }

  lemma WritesReportThePattern(block: U32, log: RunLog)
    requires ReportsAreReal(WriteJob(block), [], log)
    ensures forall i | i in log.arrived :: log.arrived[i] == WriteReports(block)(i)
  {
    forall i | i in log.arrived ensures log.arrived[i] == Done(block, Pattern(block)) {
      var k :| 0 <= k < |log.performed| && log.performed[k] == i;
    }
  }

  lemma WriteRunIsSerial(block: U32, log: RunLog, operations: nat, view: TraceView)
    requires IsCompleteRun(WriteJob(block), Write, [], log, operations) && operations * block < TWO_64
    ensures DeliverAll(view, log.deliveries) == SerialPhase(view, Write, BlockOffset(block), WriteReports(block), operations)
    ensures ContentAfter(WriteJob(block), [], log.performed) == Repeat(Pattern(block), operations)
  {
    WritesReportThePattern(block, log);
    RunIsSerial(WriteJob(block), Write, [], log, operations, view, WriteReports(block));
    WritesFillTheFile(block, log.performed, operations);
  }

  lemma WritesNeverFail(block: U32, log: RunLog, content: Content, issued: nat)
    requires KernelState(WriteJob(block), [], content, log, issued)
    ensures forall i | i in log.arrived :: log.arrived[i].Done?
  {
    WritesReportThePattern(block, log);
  }

  method IssueBlocks(trace: Trace, block: U32, operations: nat)
    modifies trace
    ensures trace.View() == old(trace.View()).(issued := old(trace.issued) + IssueList(BlockOffset(block), block, operations))
  {
    ghost var before := trace.View();
    for i := 0 to operations
      invariant trace.View() == before.(issued := before.issued + IssueList(BlockOffset(block), block, i))
    {
      trace.RecordIssued((i * block) % TWO_64, block);
      assert IssueList(BlockOffset(block), block, i + 1)
          == IssueList(BlockOffset(block), block, i) + [Issued(BlockOffset(block)(i), block)];
    }
  }

  /** Writes a file, commits it, then reads it back; the figures are the read phase's. */
  method WriteAndReadBack(pool: BufferPool, disk: Disk, block: U32, operations: nat, depth: nat, shape: Shape,
                          read: Reader, pick: nat -> nat, pick': nat -> nat)
    returns (r: Result<ScenarioOutcome>)
    requires operations * block < TWO_64
    requires forall i: nat, content :: read(i, content).Done?
    modifies pool, disk
    ensures r.Ok? <==> operations == 0 || old(pool.free) != []
    ensures r.Ok? ==>
              && fresh(r.value.trace)
              && |r.value.trace.issued| == 2 * operations
              && (forall i: nat | i < operations ::
                    && r.value.trace.issued[i] == r.value.trace.issued[operations + i]
                    && r.value.trace.issued[i].offset == i * block && r.value.trace.issued[i].len == block)
              && r.value.trace.View() == WriteReadTrace(block, operations, read)
              && FiguresAsPredicted(r.value.achieved, r.value.shape, shape, operations, depth, |old(pool.free)|)
              && disk.content == Repeat(Pattern(block), operations)
              && |disk.content| == operations * block
              && (forall j: nat | j < operations * block :: disk.content[j] == (j % block) % 251)
              && multiset(Ids(pool.free)) == multiset(Ids(old(pool.free)))
  {
    hide SerialPhase, FiguresAsPredicted, IssueList, Repeat, Pattern, Ids;
    WriteReadIssues(block, operations, read);
    RepeatedBytes(block, operations);
    ghost var supply := |pool.free|;
    var trace := new Trace();
    IssueBlocks(trace, block, operations);
    IssueBlocks(trace, block, operations);
    ghost var issued := IssueList(BlockOffset(block), block, operations);
    assert [] + issued + issued == issued + issued;
    disk.content := [];
    var wrote := WritePhase(pool, disk, trace, block, operations, depth, shape, pick);
    if wrote.Err? {
      return Err(wrote.error);
    }
    SameIdsSameSize(pool.free, old(pool.free));
    var ran := ReadPhase(pool, disk, trace, block, operations, depth, shape, BlockOffset(block), read, pick');
    match ran
    case Err(e) => return Err(e);
    case Ok(figures) => return Ok(ScenarioOutcome(trace, figures.0, figures.1));
  }

  /** The write phase, on a file just truncated; its runner's figures are dropped. */
  method WritePhase(pool: BufferPool, disk: Disk, trace: Trace, block: U32, operations: nat, depth: nat, shape: Shape,
                    pick: nat -> nat)
    returns (r: Result<()>)
    requires operations * block < TWO_64 && disk.content == []
    modifies pool, disk, trace
    ensures r.Ok? <==> operations == 0 || old(pool.free) != []
    ensures r.Ok? ==>
              && trace.View() == SerialPhase(old(trace.View()), Write, BlockOffset(block), WriteReports(block), operations)
              && disk.content == Repeat(Pattern(block), operations)
              && multiset(Ids(pool.free)) == multiset(Ids(old(pool.free)))
  {
    hide SerialPhase, IsCompleteRun, ContentAfter, PredictedWeighted, Repeat, Pattern, KernelState, Ids;
    ghost var supply, before := |pool.free|, trace.View();
    var writer := new Runner(pool, depth, shape);
    ghost var log;
    r, log := writer.Run(operations, Write, trace, WriteJob(block), disk, pick);
    if r.Err? && (operations == 0 || supply > 0) {
      WritesNeverFail(block, log, disk.content, operations);
      assert false;
    }
    if r.Ok? {
      WriteRunIsSerial(block, log, operations, before);
    }
  }

  lemma SameIdsSameSize(a: seq<Buf>, b: seq<Buf>)
    requires multiset(Ids(a)) == multiset(Ids(b))
    ensures |a| == |b|
  {
    assert |multiset(Ids(a))| == |Ids(a)| && |multiset(Ids(b))| == |Ids(b)|;
  }

  // ------------------------------------------------------- what a trace counts

  /** A phase adds one completion per operation and the bytes each makes readable; it issues nothing. */
  lemma SerialPhaseCounts(view: TraceView, phase: Phase, offsetOf: nat -> U64, outcomeOf: nat -> Outcome, count: nat)
    ensures var after := SerialPhase(view, phase, offsetOf, outcomeOf, count);
            && after.issued == view.issued
            && after.completions == view.completions + count
            && after.deliveredBytes
               == view.deliveredBytes + Sum(BytesOf, Map(Report(phase, offsetOf, outcomeOf), Range(count)))
  {
    DeliverAllIsASum(HashOf, view, Map(Report(phase, offsetOf, outcomeOf), Range(count)));
  }

  /** Full reads deliver one block each. */
  lemma FullPhaseBytes(view: TraceView, phase: Phase, offsetOf: nat -> U64, outcomeOf: nat -> Outcome, count: nat, block: U32)
    requires forall i: nat | i < count :: outcomeOf(i).Done? && outcomeOf(i).transferred == block == |outcomeOf(i).bytes|
    ensures SerialPhase(view, phase, offsetOf, outcomeOf, count).deliveredBytes == view.deliveredBytes + count * block
  {
    SerialPhaseCounts(view, phase, offsetOf, outcomeOf, count);
    SumOfConstant(BytesOf, Map(Report(phase, offsetOf, outcomeOf), Range(count)), block);
  }
}
