/**
 Backends that deliberately do less, and what the comparison makes of the one
 that skips work.
 */
module Weaken {
  import opened Arith
  import opened Concurrency
  import opened Depth
  import opened Fairness
  import opened Fnv
  import opened Options
  import opened Pools
  import opened Scenarios
  import opened Sums
  import opened Verify

  datatype Weakness = NoWeakness | SkipsWork | HollowDelivery | HollowFromRun(from: nat)

  const HOLLOW: Byte := 0xA5
  const SKIP_EVERY: nat := 4

  /** How many runs weakened from some run on have begun since the last reset. */
  class RunCounter {
    var runs: nat

    constructor ()
      ensures runs == 0
    {
      runs := 0;
    }

    method Reset()
      modifies this
      ensures runs == 0
    {
      runs := 0;
    }

    method NextRun() returns (index: nat)
      modifies this
      ensures index == old(runs) && runs == old(runs) + 1
    {
      index := runs;
      runs := runs + 1;
    }
  }

  class Weakened {
    const weakness: Weakness
    const hollow: bool
    var begun: nat

    /** Decides once, when the wrapper is built, whether this run is hollow. */
    constructor (weakness: Weakness, counter: RunCounter)
      modifies counter
      ensures this.weakness == weakness && begun == 0
      ensures hollow <==> weakness.HollowDelivery? || (weakness.HollowFromRun? && old(counter.runs) >= weakness.from)
      ensures counter.runs == old(counter.runs) + if weakness.HollowFromRun? then 1 else 0
    {
      var isHollow := weakness.HollowDelivery?;
      if weakness.HollowFromRun? {
        var run := counter.NextRun();
        isHollow := run >= weakness.from;
      }
      this.weakness, this.hollow, this.begun := weakness, isHollow, 0;
    }

    /** Numbers a read, in the order reads reach the backend, and tells whether it is skipped. */
    method BeginRead() returns (skip: bool)
      modifies this
      ensures begun == old(begun) + 1
      ensures skip <==> Skips(weakness, old(begun))
    {
      skip := weakness.SkipsWork? && begun % SKIP_EVERY == 0;
      begun := begun + 1;
    }
  }

  predicate Skips(weakness: Weakness, index: nat) {
    weakness.SkipsWork? && index % SKIP_EVERY == 0
  }

  /**
   A backend's reads, weakened. `readNumber(i)` is the place operation `i` takes
   in the order reads reach the backend; `stale` is what its buffer held.
   */
  function WeakenedReader(inner: Reader, weakness: Weakness, hollow: bool, readNumber: nat -> nat, stale: seq<Byte>): Reader {
    (i: nat, content: Content) =>
      if Skips(weakness, readNumber(i)) then Done(0, stale)
      else match inner(i, content)
           case Done(transferred, bytes) =>
             if hollow then Done(transferred, seq(transferred, (k: nat) => HOLLOW)) else Done(transferred, bytes)
           case Failed(e) => Failed(e)
  }

  // ---------------------------------------------------------------- skipped work

  /** How many of `n` reads are skipped: one in four, counted from the first, rounded up. */
  function Skipped(n: nat): (k: nat)
    ensures k <= n && n <= SKIP_EVERY * k < n + SKIP_EVERY
  {
    (n + SKIP_EVERY - 1) / SKIP_EVERY
  }

  /** The numbers below `n` that a work-skipping backend skips. */
  ghost function SkippedNumbers(n: nat): (numbers: set<nat>) {
    set i: nat | i < n && Skips(SkipsWork, i)
  }

  lemma {:induction false} SkippedCounts(n: nat)
    ensures |SkippedNumbers(n)| == Skipped(n)
  {
    if n > 0 {
      SkippedCounts(n - 1);
      var last := n - 1;
      assert SkippedNumbers(n) == SkippedNumbers(last) + if Skips(SkipsWork, last) then {last} else {};
    }
  }

  /** What `count` reads of a block deliver when the skipped ones deliver nothing. */
  function KeptBytes(count: nat, block: nat): nat {
    Times(count - Skipped(count), block)
  }

  /** Full reads deliver what is kept and one block for every read that would have been skipped. */
  lemma SkippingCosts(count: nat, block: nat)
    ensures Times(count, block) == KeptBytes(count, block) + Times(Skipped(count), block)
    ensures count >= 1 && block >= 1 ==> Times(Skipped(count), block) > 0
  {
    SplitProduct(count - Skipped(count), Skipped(count), block);
    if count >= 1 {
      assert Skipped(count) >= 1;
      MulMonotone(1, Skipped(count), block);
    }
  }

  /** What the read with the given number leaves readable. */
  function BytesByNumber(block: nat): nat -> nat {
    (number: nat) => if number % SKIP_EVERY == 0 then 0 else block
  }

  lemma {:induction false} KeptByNumber(block: nat, n: nat)
    ensures Sum(BytesByNumber(block), Range(n)) == KeptBytes(n, block)
  {
    if n > 0 {
      var last: nat := n - 1;
      KeptByNumber(block, last);
      RangeGrows(last);
      SumConcat(BytesByNumber(block), Range(last), [last]);
      SumOne(BytesByNumber(block), last);
      KeptStep(block, last);
      hide Sum, KeptBytes;
    }
  }

  /** One read more is skipped or kept as its number says. */
  lemma KeptStep(block: nat, last: nat)
    ensures KeptBytes(last + 1, block) == KeptBytes(last, block) + BytesByNumber(block)(last)
  {
    if last % SKIP_EVERY == 0 {
      assert Skipped(last + 1) == Skipped(last) + 1;
    } else {
      assert Skipped(last + 1) == Skipped(last);
      SplitProduct(last - Skipped(last), 1, block);
    }
  }

  /** `outcomeOf` is `honest` with the skipped reads left out, under some numbering of the reads. */
  ghost predicate IsSkipping(honest: nat -> Outcome, outcomeOf: nat -> Outcome, readNumber: nat -> nat, count: nat) {
    && Enumerates(Map(readNumber, Range(count)), count)
    && forall i: nat | i < count ::
         if readNumber(i) % SKIP_EVERY == 0 then outcomeOf(i).Done? && outcomeOf(i).transferred == 0
         else outcomeOf(i) == honest(i)
  }

  ghost predicate AreFull(outcomeOf: nat -> Outcome, count: nat, block: U32) {
    forall i: nat | i < count :: outcomeOf(i).Done? && outcomeOf(i).transferred == block == |outcomeOf(i).bytes|
  }

  /** Whichever order the reads arrive in, skipping leaves exactly one block in four unread. */
  lemma SkippingPhaseBytes(view: TraceView, offsetOf: nat -> U64, honest: nat -> Outcome, outcomeOf: nat -> Outcome,
                           readNumber: nat -> nat, count: nat, block: U32)
    requires IsSkipping(honest, outcomeOf, readNumber, count) && AreFull(honest, count, block)
    ensures SerialPhase(view, Read, offsetOf, outcomeOf, count).deliveredBytes
         == view.deliveredBytes + KeptBytes(count, block)
  {
    SerialPhaseCounts(view, Read, offsetOf, outcomeOf, count);
    var ds, numbers := Map(Report(Read, offsetOf, outcomeOf), Range(count)), Map(readNumber, Range(count));
    forall k | 0 <= k < count ensures BytesOf(ds[k]) == BytesByNumber(block)(numbers[k]) {
      assert numbers[k] == readNumber(k);
    }
    SumsAgree(BytesOf, ds, BytesByNumber(block), numbers);
    SumOfPermutation(BytesByNumber(block), numbers, Range(count));
    KeptByNumber(block, count);
  }

  /**
   From the same start, a phase of full reads and the same phase skipping one read
   in four differ first in the bytes delivered, by one block per skipped read.
   */
  lemma SkippedWorkIsSeen(view: TraceView, offsetOf: nat -> U64, honest: nat -> Outcome, outcomeOf: nat -> Outcome,
                          readNumber: nat -> nat, count: nat, block: U32)
    requires count >= 1 && block >= 1
    requires IsSkipping(honest, outcomeOf, readNumber, count) && AreFull(honest, count, block)
    ensures var full, short := view.deliveredBytes + Times(count, block), view.deliveredBytes + KeptBytes(count, block);
            && full - short == Times(Skipped(count), block) > 0
            && IsVerdict(SerialPhase(view, Read, offsetOf, honest, count),
                         SerialPhase(view, Read, offsetOf, outcomeOf, count),
                         Disagree(DeliveredBytes(full, short)))
  {
    FullPhaseBytes(view, Read, offsetOf, honest, count, block);
    SkippingPhaseBytes(view, offsetOf, honest, outcomeOf, readNumber, count, block);
    SerialPhaseCounts(view, Read, offsetOf, honest, count);
    SerialPhaseCounts(view, Read, offsetOf, outcomeOf, count);
    SkippingCosts(count, block);
    hide SerialPhase, KeptBytes, Times;
    FewerBytes(SerialPhase(view, Read, offsetOf, honest, count), SerialPhase(view, Read, offsetOf, outcomeOf, count));
  }

  /** Runs of the same requests and as many completions differ first in the bytes delivered. */
  lemma FewerBytes(a: TraceView, b: TraceView)
    requires a.issued == b.issued && a.completions == b.completions && a.deliveredBytes != b.deliveredBytes
    ensures IsVerdict(a, b, Disagree(DeliveredBytes(a.deliveredBytes, b.deliveredBytes)))
  {
  }

  lemma WeakenedReaderSkips(inner: Reader, readNumber: nat -> nat, stale: seq<Byte>, content: Content, count: nat)
    requires Enumerates(Map(readNumber, Range(count)), count)
    requires forall i: nat | i < count :: ReadOf(inner, content)(i).Done?
    ensures IsSkipping(ReadOf(inner, content), ReadOf(WeakenedReader(inner, SkipsWork, false, readNumber, stale), content),
                       readNumber, count)
  {
    var weakened := WeakenedReader(inner, SkipsWork, false, readNumber, stale);
    forall i: nat | i < count
      ensures if readNumber(i) % SKIP_EVERY == 0 then ReadOf(weakened, content)(i) == Done(0, stale)
              else ReadOf(weakened, content)(i) == ReadOf(inner, content)(i)
    {
      assert ReadOf(weakened, content)(i) == weakened(i, content);
      assert ReadOf(inner, content)(i) == inner(i, content);
    }
  }

  /**
   A hollow backend reports every count honestly and leaves nothing but the one byte
   to be read: same transfers, same lengths, no content.
   */
  lemma HollowReadsCarryNothing(inner: Reader, weakness: Weakness, readNumber: nat -> nat, stale: seq<Byte>, i: nat,
                                content: Content)
    requires !weakness.SkipsWork? && inner(i, content).Done?
    ensures var honest, hollow := inner(i, content), WeakenedReader(inner, weakness, true, readNumber, stale)(i, content);
            && hollow.Done? && hollow.transferred == honest.transferred == |hollow.bytes|
            && forall k | 0 <= k < |hollow.bytes| :: hollow.bytes[k] == 0xA5
  {
  }

  /** A backend that is not weakened is the backend itself. */
  lemma UnweakenedReadsAreHonest(inner: Reader, readNumber: nat -> nat, stale: seq<Byte>, i: nat, content: Content)
    ensures WeakenedReader(inner, NoWeakness, false, readNumber, stale)(i, content) == inner(i, content)
  {
  }

  /** A read scenario that skips work is caught by the bytes it did not deliver. */
  lemma SkippingReadsAreCaught(content: Content, block: U32, offsetOf: nat -> U64, inner: Reader,
                               readNumber: nat -> nat, stale: seq<Byte>, operations: nat)
    requires operations >= 1 && block >= 1
    requires Enumerates(Map(readNumber, Range(operations)), operations)
    requires AreFull(ReadOf(inner, content), operations, block)
    ensures IsVerdict(
              ReadTrace(content, block, offsetOf, inner, operations),
              ReadTrace(content, block, offsetOf, WeakenedReader(inner, SkipsWork, false, readNumber, stale), operations),
              Disagree(DeliveredBytes(Times(operations, block), KeptBytes(operations, block))))
  {
    WeakenedReaderSkips(inner, readNumber, stale, content, operations);
    hide SerialPhase, KeptBytes, Times;
    SkippedWorkIsSeen(TraceView(IssueList(offsetOf, block, operations), 0, 0, 0), offsetOf, ReadOf(inner, content),
                      ReadOf(WeakenedReader(inner, SkipsWork, false, readNumber, stale), content),
                      readNumber, operations, block);
  }

  lemma ReadBackIsFull(block: U32, operations: nat)
    requires operations * block < TWO_64
    ensures AreFull(ReadOf(HonestReader(BlockOffset(block), block), Repeat(Pattern(block), operations)), operations, block)
  {
    var inner, content := HonestReader(BlockOffset(block), block), Repeat(Pattern(block), operations);
    forall i: nat | i < operations ensures ReadOf(inner, content)(i) == Done(block, Pattern(block)) {
      hide HonestReader, Repeat;
      ReadBackIsThePattern(block, operations, i);
    }
  }

  lemma WritesAreFull(view: TraceView, block: U32, operations: nat)
    ensures SerialPhase(view, Write, BlockOffset(block), WriteReports(block), operations).deliveredBytes
         == view.deliveredBytes + Times(operations, block)
  {
    FullPhaseBytes(view, Write, BlockOffset(block), WriteReports(block), operations, block);
  }

  /** So is write-then-read, whose writes are never skipped. */
  lemma SkippingReadBackIsCaught(block: U32, readNumber: nat -> nat, stale: seq<Byte>, operations: nat)
    requires operations >= 1 && block >= 1 && operations * block < TWO_64
    requires Enumerates(Map(readNumber, Range(operations)), operations)
    ensures var honest := HonestReader(BlockOffset(block), block);
            var written := Times(operations, block);
            IsVerdict(
              WriteReadTrace(block, operations, honest),
              WriteReadTrace(block, operations, WeakenedReader(honest, SkipsWork, false, readNumber, stale)),
              Disagree(DeliveredBytes(written + Times(operations, block), written + KeptBytes(operations, block))))
  {
    var inner, content := HonestReader(BlockOffset(block), block), Repeat(Pattern(block), operations);
    ReadBackIsFull(block, operations);
    var issued := IssueList(BlockOffset(block), block, operations);
    var view := TraceView(issued + issued, 0, 0, 0);
    WritesAreFull(view, block, operations);
    hide SerialPhase, KeptBytes, Times, Pattern, Repeat, HonestRead, HonestReader, IssueList, BlockOffset;
    WeakenedReaderSkips(inner, readNumber, stale, content, operations);
    hide WeakenedReader, IsSkipping, AreFull, IsVerdict, ReadOf, WriteReports;
    SkippedWorkIsSeen(SerialPhase(view, Write, BlockOffset(block), WriteReports(block), operations),
                      BlockOffset(block), ReadOf(inner, content),
                      ReadOf(WeakenedReader(inner, SkipsWork, false, readNumber, stale), content),
                      readNumber, operations, block);
  }

  /** The ledger's answer to a trace whose first difference from its reference is known. */
  lemma LedgerReports(reference: Observation, o: Observation, mismatch: Mismatch, r: Observed)
    requires IsVerdict(reference.trace, o.trace, Disagree(mismatch))
    requires IsAnswer(reference, o, r)
    ensures r == Rejected(FairnessFailure(o.scenario, o.depth, reference.backend, o.backend, mismatch))
  {
    if r.Rejected? {
      VerdictIsUnique(reference.trace, o.trace, Disagree(mismatch), Disagree(r.failure.mismatch));
    }
  }

  // ------------------------------------------------------- through the ledger

  /**
   Operations are first polled in `order`, which may be any order at all, and each
   then takes the next number; `skips` is what the backend answered it.
   */
  method BeginReads(weakened: Weakened, order: seq<nat>, count: nat) returns (readNumber: nat -> nat, skips: nat -> bool)
    requires weakened.begun == 0 && Enumerates(order, count)
    modifies weakened
    ensures weakened.begun == count == |order|
    ensures forall k | 0 <= k < count :: order[k] < count && readNumber(order[k]) == k
    ensures Enumerates(Map(readNumber, Range(count)), count)
    ensures forall i: nat | i < count :: skips(i) <==> Skips(weakened.weakness, readNumber(i))
  {
    EnumerationFacts(order, count);
    var numbers: map<nat, nat>, answers: map<nat, bool> := map[], map[];
    for k := 0 to count
      invariant weakened.begun == k
      invariant forall i: nat :: i in numbers <==> i in answers
      invariant forall j | 0 <= j < k :: order[j] in numbers && numbers[order[j]] == j
      invariant forall i: nat | i in numbers :: answers[i] <==> Skips(weakened.weakness, numbers[i])
    {
      var skip := weakened.BeginRead();
      numbers, answers := numbers[order[k] := k], answers[order[k] := skip];
    }
    forall i: nat | i < count
      ensures i in numbers
    {
      assert i in order;
      var k :| 0 <= k < |order| && order[k] == i;
    }
    readNumber := (i: nat) => if i in numbers then numbers[i] else 0;
    skips := (i: nat) => i in answers && answers[i];
    NumbersEnumerate(order, readNumber, count);
  }

  /** Numbering in any order uses each number once. */
  lemma NumbersEnumerate(order: seq<nat>, readNumber: nat -> nat, count: nat)
    requires Enumerates(order, count) && |order| == count
    requires forall k | 0 <= k < count :: readNumber(order[k]) == k
    ensures Enumerates(Map(readNumber, Range(count)), count)
  {
    MapOfPermutation(readNumber, order, Range(count));
    assert Map(readNumber, order) == Range(count);
  }

  /** What observing a first trace and then one that differs from it answers. */
  lemma SecondIsRejected(before: seq<Observation>, middle: seq<Observation>, after: seq<Observation>, a: Observation,
                         b: Observation, first: Observed, second: Observed, mismatch: Mismatch)
    requires Lookup(before, a).None? && SameKey(a, b)
    requires IsObserved(before, a, middle, first) && IsObserved(middle, b, after, second)
    requires IsVerdict(a.trace, b.trace, Disagree(mismatch))
    ensures first.Accepted? && middle == before + [a] && after == middle
    ensures second == Rejected(FairnessFailure(b.scenario, b.depth, a.backend, b.backend, mismatch))
  {
    assert middle[..|before|] == before;
    assert Lookup(middle, b) == Some(a) by {
      LookupIgnoresTheRest(before, a, b);
    }
    LedgerReports(a, b, mismatch, second);
  }

  /** The first poll of every read of a weakened run, and the reads it then makes. */
  method Weaken(inner: Reader, order: seq<nat>, count: nat, stale: seq<Byte>, counter: RunCounter)
    returns (reader: Reader, ghost readNumber: nat -> nat)
    requires Enumerates(order, count)
    modifies counter
    ensures Enumerates(Map(readNumber, Range(count)), count)
    ensures reader == WeakenedReader(inner, SkipsWork, false, readNumber, stale)
  {
    var weakened := new Weakened(SkipsWork, counter);
    var number, _ := BeginReads(weakened, order, count);
    reader, readNumber := WeakenedReader(inner, SkipsWork, weakened.hollow, number, stale), number;
  }

  /**
   End to end: an honest read scenario is accepted by the ledger, and the same one
   over a work-skipping backend is then rejected by exactly the bytes it did not
   deliver, whatever the depths of the pools, the completion orders and the order in
   which its reads are first polled.
   */
  method SkippingReadsAreRejected(ledger: Ledger, scenario: Scenario, depth: nat, honest: string, weak: string,
                                  pool: BufferPool, pool': BufferPool, disk: Disk, disk': Disk, block: U32,
                                  operations: nat, offsetOf: nat -> U64, inner: Reader, order: seq<nat>, stale: seq<Byte>,
                                  counter: RunCounter, pick: nat -> nat, pick': nat -> nat)
    returns (first: Observed, second: Observed)
    requires operations >= 1 && block >= 1 && Enumerates(order, operations)
    requires pool.free != [] && pool'.free != [] && pool != pool' && disk != disk' && disk.content == disk'.content
    requires (forall i: nat, content :: inner(i, content).Done?) && AreFull(ReadOf(inner, disk.content), operations, block)
    requires Lookup(ledger.references, Observation(scenario, depth, honest, EMPTY_TRACE)).None?
    modifies ledger, pool, pool', disk, disk', counter
    ensures first.Accepted?
    ensures second == Rejected(FairnessFailure(scenario, depth, honest, weak,
                                               DeliveredBytes(Times(operations, block), KeptBytes(operations, block))))
  {
    hide SerialPhase, FiguresAsPredicted, IsObserved, IsVerdict, AreFull, KeptBytes, ReadTrace, Ids, Enumerates;
    ghost var content, before := disk.content, ledger.references;
    var a := PositionalReadsOn(pool, disk, block, operations, depth, ShapeOf(scenario), offsetOf, inner, pick);
    first := ledger.Observe(scenario, depth, honest, a.value.trace);
    ghost var middle, seen := ledger.references, a.value.trace.View();
    var reader;
    ghost var readNumber;
    reader, readNumber := Weaken(inner, order, operations, stale, counter);
    var b := PositionalReadsOn(pool', disk', block, operations, depth, ShapeOf(scenario), offsetOf, reader, pick');
    second := ledger.Observe(scenario, depth, weak, b.value.trace);
    SkippingReadsAreCaught(content, block, offsetOf, inner, readNumber, stale, operations);
    SameKeyLookup(before, Observation(scenario, depth, honest, EMPTY_TRACE), Observation(scenario, depth, honest, seen));
    SecondIsRejected(before, middle, ledger.references, Observation(scenario, depth, honest, seen),
                     Observation(scenario, depth, weak, b.value.trace.View()), first, second,
                     DeliveredBytes(Times(operations, block), KeptBytes(operations, block)));
  }

  lemma SameKeyLookup(seen: seq<Observation>, a: Observation, b: Observation)
    requires SameKey(a, b)
    ensures Lookup(seen, a) == Lookup(seen, b)
  {
    LookupIgnoresTheRest(seen, a, b);
  }

  /** End to end for write-then-read: its reads are skipped, its writes never. */
  method SkippingReadBackIsRejected(ledger: Ledger, depth: nat, honest: string, weak: string, pool: BufferPool,
                                    pool': BufferPool, disk: Disk, disk': Disk, block: U32, operations: nat,
                                    order: seq<nat>, stale: seq<Byte>, counter: RunCounter,
                                    pickWrite: nat -> nat, pickRead: nat -> nat, pickWrite': nat -> nat, pickRead': nat -> nat)
    returns (first: Observed, second: Observed)
    requires operations >= 1 && block >= 1 && operations * block < TWO_64 && Enumerates(order, operations)
    requires pool.free != [] && pool'.free != [] && pool != pool' && disk != disk'
    requires Lookup(ledger.references, Observation(WriteThenRead, depth, honest, EMPTY_TRACE)).None?
    modifies ledger, pool, pool', disk, disk', counter
    ensures first.Accepted?
    ensures var written := Times(operations, block);
            second == Rejected(FairnessFailure(WriteThenRead, depth, honest, weak,
              DeliveredBytes(written + Times(operations, block), written + KeptBytes(operations, block))))
  {
    hide SerialPhase, FiguresAsPredicted, IsObserved, IsVerdict, KeptBytes, WriteReadTrace, Ids, Enumerates, Pattern, Repeat;
    ghost var before := ledger.references;
    var inner, shape := HonestReader(BlockOffset(block), block), ShapeOf(WriteThenRead);
    HonestReaderNeverFails(BlockOffset(block), block);
    var a := WriteAndReadBack(pool, disk, block, operations, depth, shape, inner, pickWrite, pickRead);
    first := ledger.Observe(WriteThenRead, depth, honest, a.value.trace);
    ghost var middle, seen := ledger.references, a.value.trace.View();
    var reader;
    ghost var readNumber;
    reader, readNumber := Weaken(inner, order, operations, stale, counter);
    var b := WriteAndReadBack(pool', disk', block, operations, depth, shape, reader, pickWrite', pickRead');
    second := ledger.Observe(WriteThenRead, depth, weak, b.value.trace);
    SkippingReadBackIsCaught(block, readNumber, stale, operations);
    SameKeyLookup(before, Observation(WriteThenRead, depth, honest, EMPTY_TRACE),
                  Observation(WriteThenRead, depth, honest, seen));
    ghost var written := Times(operations, block);
    SecondIsRejected(before, middle, ledger.references, Observation(WriteThenRead, depth, honest, seen),
                     Observation(WriteThenRead, depth, weak, b.value.trace.View()), first, second,
                     DeliveredBytes(written + Times(operations, block), written + KeptBytes(operations, block)));
  }
}
