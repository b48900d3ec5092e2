/**
 Keeping a bounded number of operations in flight.

 An operation is its index; what it does to the file and what it reports is the
 job's `perform`. The kernel may perform any outstanding operation at any time
 before it completes, and completions may arrive in any order: `pick` decides
 both, one choice per tick, and every contract below holds for every `pick`.
 */
module Concurrency {
  import opened Arith
  import opened Depth
  import opened Fnv
  import opened Pools
  import opened Sums
  import opened Verdict
  import opened Verify

  type Content = seq<Byte>

  datatype Outcome = Done(transferred: U32, bytes: seq<Byte>) | Failed(error: IoError)

  datatype Performed = Performed(content: Content, outcome: Outcome)

  /** `capacity` is the buffer each operation takes; `perform(i, content)` is operation `i` reaching the file. */
  datatype Job = Job(capacity: nat, offsetOf: nat -> U64, perform: (nat, Content) -> Performed)

  class Disk {
    var content: Content

    constructor (content: Content)
      ensures this.content == content
    {
      this.content := content;
    }
  }

  // ------------------------------------------------------------ what a run did

  /**
   A run's history: the order operations took effect, the order they completed,
   what each reported, and what was recorded of each completion.
   */
  datatype RunLog = RunLog(performed: seq<nat>, order: seq<nat>, arrived: map<nat, Outcome>, deliveries: seq<Delivery>)

  const EMPTY_LOG := RunLog([], [], map[], [])

  /** The file after the operations in `performed` took effect, in that order. */
  ghost function ContentAfter(job: Job, content: Content, performed: seq<nat>): Content {
    if performed == [] then content
    else job.perform(performed[|performed| - 1], ContentAfter(job, content, performed[..|performed| - 1])).content
  }

  /** Every reported outcome is what its operation saw at the moment it took effect. */
  ghost predicate ReportsAreReal(job: Job, content: Content, log: RunLog) {
    && log.arrived.Keys == (set i | i in log.performed)
    && forall k | 0 <= k < |log.performed| ::
         log.arrived[log.performed[k]]
         == job.perform(log.performed[k], ContentAfter(job, content, log.performed[..k])).outcome
  }

  ghost function DeliveryOf(job: Job, phase: Phase, i: nat, outcome: Outcome): Delivery
    requires outcome.Done?
  {
    Delivery(phase, job.offsetOf(i), outcome.transferred, outcome.bytes)
  }

  /** Each completion was recorded, in completion order, as the operation reported it. */
  ghost predicate RecordsAreReal(job: Job, phase: Phase, log: RunLog) {
    && |log.deliveries| == |log.order|
    && forall k | 0 <= k < |log.order| ::
         && log.order[k] in log.arrived && log.arrived[log.order[k]].Done?
         && log.deliveries[k] == DeliveryOf(job, phase, log.order[k], log.arrived[log.order[k]])
  }

  /** A finished run: each operation took effect once and completed once. */
  ghost predicate IsCompleteRun(job: Job, phase: Phase, content: Content, log: RunLog, count: nat) {
    && Enumerates(log.performed, count)
    && Enumerates(log.order, count)
    && ReportsAreReal(job, content, log)
    && RecordsAreReal(job, phase, log)
  }

  /** The file and the reports, part-way through a run that has issued `issued` operations. */
  ghost predicate KernelState(job: Job, start: Content, content: Content, log: RunLog, issued: nat) {
    && content == ContentAfter(job, start, log.performed)
    && ReportsAreReal(job, start, log)
    && multiset(log.performed) <= multiset(Range(issued))
  }

  // ----------------------------------------------------- steps of the bookkeeping

  /** A buffer leaving the pool for the window changes hands and nothing else. */
  lemma TakeMoves(before: seq<Buf>, after: seq<Buf>, holding: seq<Buf>, buffer: Buf)
    requires before != [] && after == before[..|before| - 1] && buffer.id == before[|before| - 1].id
    ensures multiset(Ids(after + (holding + [buffer]))) == multiset(Ids(before + holding))
  {
    IdsConcat(after, holding + [buffer]);
    IdsConcat(holding, [buffer]);
    IdsConcat(before, holding);
    assert before == after + [before[|before| - 1]];
    IdsConcat(after, [before[|before| - 1]]);
    assert Ids([buffer]) == Ids([before[|before| - 1]]);
  }

  /** A buffer leaving the window is what the window held less the rest. */
  lemma HandBack(free: seq<Buf>, holding: seq<Buf>, k: nat)
    requires k < |holding|
    ensures multiset(Ids(free + holding)) == multiset(Ids(free + RemoveAt(holding, k))) + multiset{holding[k].id}
    ensures multiset(Ids(free + holding)) == multiset(Ids((free + [holding[k]]) + RemoveAt(holding, k)))
    ensures multiset(Ids(free + RemoveAt(holding, k))) == multiset(Ids(free)) + multiset(Ids(RemoveAt(holding, k)))
  {
    IdsConcat(free, holding);
    IdsConcat(free, RemoveAt(holding, k));
    IdsConcat(free + [holding[k]], RemoveAt(holding, k));
    IdsConcat(free, [holding[k]]);
    assert Ids(RemoveAt(holding, k)) == RemoveAt(Ids(holding), k);
    RemoveAtMultiset(Ids(holding), k);
    assert Ids([holding[k]]) == [holding[k].id];
  }

  lemma RangeSplit(a: nat, b: nat)
    requires a <= b
    ensures multiset(Range(b)) == multiset(Range(a)) + multiset(Range(b)[a..])
  {
    assert Range(b) == Range(a) + Range(b)[a..];
  }

  lemma KernelStateGrows(job: Job, start: Content, content: Content, log: RunLog, a: nat, b: nat)
    requires a <= b && KernelState(job, start, content, log, a)
    ensures KernelState(job, start, content, log, b)
  {
    RangeSplit(a, b);
  }

  lemma PendingIsIssued(order: seq<nat>, pending: seq<nat>, issued: nat)
    requires multiset(order) + multiset(pending) == multiset(Range(issued))
    ensures forall i | 0 <= i < |pending| :: pending[i] < issued
  {
    RangeMultiset(issued);
    forall i | 0 <= i < |pending| ensures pending[i] < issued {
      assert pending[i] in multiset(pending);
      assert pending[i] in multiset(Range(issued));
    }
  }

  /** An outstanding operation taking effect. */
  lemma PerformOne(job: Job, start: Content, content: Content, log: RunLog, issued: nat, i: nat)
    requires KernelState(job, start, content, log, issued)
    requires i < issued && i !in log.arrived
    ensures |log.performed| < issued
    ensures var effect := job.perform(i, content);
            KernelState(job, start, effect.content,
                        log.(performed := log.performed + [i], arrived := log.arrived[i := effect.outcome]), issued)
  {
    PerformedFits(log.performed, issued, i);
    ReportsExtend(job, start, content, log, i);
  }

  lemma PerformedFits(performed: seq<nat>, issued: nat, i: nat)
    requires multiset(performed) <= multiset(Range(issued)) && i < issued && i !in performed
    ensures multiset(performed + [i]) <= multiset(Range(issued))
    ensures |performed| < issued
  {
    RangeMultiset(issued);
    assert multiset(performed + [i]) == multiset(performed) + multiset{i};
    SubsetSize(multiset(performed + [i]), multiset(Range(issued)));
  }

  lemma ReportsExtend(job: Job, start: Content, content: Content, log: RunLog, i: nat)
    requires content == ContentAfter(job, start, log.performed)
    requires ReportsAreReal(job, start, log) && i !in log.arrived
    ensures var effect := job.perform(i, content);
            var log' := log.(performed := log.performed + [i], arrived := log.arrived[i := effect.outcome]);
            ReportsAreReal(job, start, log') && effect.content == ContentAfter(job, start, log'.performed)
  {
    ContentExtends(job, start, log.performed, i);
    hide ContentAfter;
    var performed := log.performed + [i];
    var arrived := log.arrived[i := job.perform(i, content).outcome];
    assert performed[..|log.performed|] == log.performed;
    forall k | 0 <= k < |performed|
      ensures arrived[performed[k]] == job.perform(performed[k], ContentAfter(job, start, performed[..k])).outcome
    {
      if k < |log.performed| {
        assert performed[..k] == log.performed[..k];
        assert performed[k] in log.performed;
      }
    }
  }

  lemma ContentExtends(job: Job, start: Content, performed: seq<nat>, i: nat)
    ensures ContentAfter(job, start, performed + [i])
         == job.perform(i, ContentAfter(job, start, performed)).content
  {
    assert (performed + [i])[..|performed|] == performed;
  }

  lemma SubsetSize(a: multiset<nat>, b: multiset<nat>)
    requires a <= b
    ensures |a| <= |b|
  {
    assert b == a + (b - a);
  }

  lemma NothingYet(job: Job, phase: Phase, start: Content, view: TraceView)
    ensures KernelState(job, start, start, EMPTY_LOG, 0) && RecordsAreReal(job, phase, EMPTY_LOG)
    ensures DeliverAll(view, []) == view
  {
  }

  /** When everything issued has completed, everything has taken effect exactly once. */
  lemma AllPerformed(job: Job, start: Content, log: RunLog, count: nat)
    requires Enumerates(log.order, count) && ReportsAreReal(job, start, log)
    requires forall k | 0 <= k < |log.order| :: log.order[k] in log.arrived
    requires multiset(log.performed) <= multiset(Range(count))
    ensures Enumerates(log.performed, count)
  {
    EnumerationFacts(log.order, count);
    RangeMultiset(count);
    forall i: nat ensures multiset(log.performed)[i] == multiset(Range(count))[i] {
      if i < count {
        assert i in log.order;
        assert i in log.performed;
      }
    }
  }

  lemma PredictionFits(shape: Shape, count: nat, depth: nat)
    requires depth >= 1 || count == 0
    ensures PredictedWeighted(shape, count, depth) == SampleSum(shape, depth, 0, count)
  {
    if count > 0 {
      PredictionIsTheSampleSum(shape, count, depth);
    }
  }

  // ------------------------------------------------------------------ the runner

  datatype Achieved = Achieved(peak: nat, mean: Mean, shortfall: Shortfall)

  /** The runner's counters. */
  datatype Figures = Figures(peak: nat, weighted: nat, samples: nat, starved: bool, poolBound: bool)

  /**
   The counters part-way through a run of `count` on a pool of `supply`, after
   `completed` completions and with `outstanding` operations still out.
   */
  ghost predicate FiguresHold(shape: Shape, configured: nat, supply: nat, count: nat,
                              before: Figures, now: Figures, completed: nat, outstanding: nat)
  {
    var depth := Min(configured, supply);
    && completed + outstanding <= count && outstanding <= depth
    && now.samples == before.samples + completed
    && now.weighted + SampleSum(shape, depth, outstanding, count - completed - outstanding)
       == before.weighted + SampleSum(shape, depth, 0, count)
    && now.peak == (if completed == 0 then before.peak else Max(before.peak, Min(count, depth)))
    && (now.starved ==> before.starved || (count > 0 && configured > 1))
    && (before.starved || (configured > 1 && 0 < count == completed) ==> now.starved)
    && now.poolBound == (before.poolBound || (completed > 0 && supply < Min(configured, count)))
    && (completed == 0 ==> outstanding == 0)
  }

  lemma FiguresStart(shape: Shape, configured: nat, supply: nat, count: nat, now: Figures)
    ensures FiguresHold(shape, configured, supply, count, now, now, 0, 0)
  {
  }

  /** What the refill loop adds, stopped by the window, by the work or by the pool, is what the shape expects. */
  lemma RefillMatches(shape: Shape, configured: nat, supply: nat, outstanding: nat, left: nat, added: nat)
    requires outstanding <= supply
    ensures !MayRefill(shape, outstanding == 0) ==> RefillBy(shape, Min(configured, supply), outstanding, left) == 0
    ensures MayRefill(shape, outstanding == 0)
            && added == Max(0, Min(Min(configured - outstanding, left), supply - outstanding))
        ==> RefillBy(shape, Min(configured, supply), outstanding, left) == added
  {
  }

  /** One trip round the loop: a refill to `window`, one sample of it, one completion. */
  lemma SampleIsAccounted(shape: Shape, configured: nat, supply: nat, count: nat, before: Figures, was: Figures, now: Figures,
                          completed: nat, outstanding: nat, window: nat)
    requires configured >= 1 && window > 0 && completed + outstanding <= count
    requires window == outstanding + RefillBy(shape, Min(configured, supply), outstanding, count - completed - outstanding)
    requires FiguresHold(shape, configured, supply, count, before, was, completed, outstanding)
    requires now.peak == Max(was.peak, window) && now.weighted == was.weighted + window
    requires now.samples == was.samples + 1
    requires now.starved == (was.starved || (completed + window == count && window < configured))
    requires now.poolBound == (was.poolBound || (MayRefill(shape, outstanding == 0)
                                                  && completed + window < count && window < configured))
    ensures FiguresHold(shape, configured, supply, count, before, now, completed + 1, window - 1)
  {
  }

  /** The counters after `completed` completions, whatever is still out. */
  ghost predicate FiguresPartway(shape: Shape, configured: nat, supply: nat, count: nat,
                                 before: Figures, now: Figures, completed: nat)
  {
    exists outstanding: nat :: FiguresHold(shape, configured, supply, count, before, now, completed, outstanding)
  }

  lemma FiguresAt(shape: Shape, configured: nat, supply: nat, count: nat, before: Figures, now: Figures,
                  completed: nat, outstanding: nat)
    requires FiguresHold(shape, configured, supply, count, before, now, completed, outstanding)
    ensures FiguresPartway(shape, configured, supply, count, before, now, completed)
  {
  }

  lemma PartwayFigures(shape: Shape, configured: nat, supply: nat, count: nat, before: Figures, now: Figures, completed: nat)
    requires configured >= 1 && supply >= 1 && completed >= 1
    requires FiguresPartway(shape, configured, supply, count, before, now, completed)
    ensures completed <= count && now.samples == before.samples + completed
    ensures now.weighted <= before.weighted + PredictedWeighted(shape, count, Min(configured, supply))
    ensures now.peak == Max(before.peak, Min(count, Min(configured, supply)))
    ensures now.poolBound == (before.poolBound || supply < Min(configured, count))
  {
    PredictionFits(shape, count, Min(configured, supply));
  }

  lemma FiguresAreFinal(shape: Shape, configured: nat, supply: nat, count: nat, before: Figures, now: Figures)
    requires configured >= 1 && (count > 0 ==> supply >= 1)
    requires FiguresHold(shape, configured, supply, count, before, now, count, 0)
    ensures var depth := Min(configured, supply);
            && now.samples == before.samples + count
            && now.weighted == before.weighted + PredictedWeighted(shape, count, depth)
            && now.peak == Max(before.peak, Min(count, depth))
            && now.starved == (before.starved || (count > 0 && configured > 1))
            && now.poolBound == (before.poolBound || supply < Min(configured, count))
  {
    PredictionFits(shape, count, Min(configured, supply));
  }

  /** The loop's own variables: what is outstanding, in which buffers, and what has arrived. */
  datatype Window = Window(pending: seq<nat>, holding: seq<Buf>, issued: nat, tick: nat, arrived: map<nat, Outcome>)

  /** What a run was asked to do, and everything it found when it began. */
  datatype Begun = Begun(job: Job, phase: Phase, count: nat, start: Content, view: TraceView, free: seq<Buf>,
                         figures: Figures)

  /** Where every operation issued so far and every buffer of the pool is. */
  ghost predicate WindowHolds(log: RunLog, pending: seq<nat>, holding: seq<Buf>, free: seq<Buf>, free0: seq<Buf>,
                              issued: nat, count: nat)
  {
    && issued <= count && |pending| == |holding|
    && |log.order| + |pending| == issued
    && multiset(log.order) + multiset(pending) == multiset(Range(issued))
    && |free| + |pending| == |free0|
    && multiset(Ids(free + holding)) == multiset(Ids(free0))
  }

  lemma WindowRefills(log: RunLog, pending: seq<nat>, holding: seq<Buf>, free: seq<Buf>, pending': seq<nat>,
                      holding': seq<Buf>, free': seq<Buf>, free0: seq<Buf>, issued: nat, issued': nat, count: nat)
    requires WindowHolds(log, pending, holding, free, free0, issued, count) && issued <= issued' <= count
    requires pending' == pending + Range(issued')[issued..] && |pending'| == |holding'|
    requires |free'| == |free| - (issued' - issued)
    requires multiset(Ids(free' + holding')) == multiset(Ids(free + holding))
    ensures WindowHolds(log, pending', holding', free', free0, issued', count)
  {
    RangeSplit(issued, issued');
  }

  lemma WindowCompletes(log: RunLog, log': RunLog, pending: seq<nat>, holding: seq<Buf>, free: seq<Buf>,
                        free0: seq<Buf>, issued: nat, count: nat, k: nat)
    requires WindowHolds(log, pending, holding, free, free0, issued, count) && k < |pending|
    requires log'.order == log.order + [pending[k]]
    ensures WindowHolds(log', RemoveAt(pending, k), RemoveAt(holding, k), free + [holding[k]], free0, issued, count)
  {
    RemoveAtMultiset(pending, k);
    HandBack(free, holding, k);
  }

  /** An operation that fails takes its buffer with it. */
  lemma WindowLoses(log: RunLog, pending: seq<nat>, holding: seq<Buf>, free: seq<Buf>, free0: seq<Buf>,
                    issued: nat, count: nat, k: nat)
    requires WindowHolds(log, pending, holding, free, free0, issued, count) && k < |pending|
    ensures multiset(Ids(free)) < multiset(Ids(free0))
  {
    HandBack(free, holding, k);
  }

  /** The log after operation `i`, having arrived in `log1`, completes. */
  ghost function Completed(job: Job, phase: Phase, log: RunLog, log1: RunLog, i: nat): RunLog
    requires i in log1.arrived && log1.arrived[i].Done?
  {
    log1.(order := log.order + [i], deliveries := log.deliveries + [DeliveryOf(job, phase, i, log1.arrived[i])])
  }

  lemma CompletionIsRecorded(job: Job, phase: Phase, start: Content, content: Content, view0: TraceView,
                             log: RunLog, log1: RunLog, issued: nat, i: nat)
    requires KernelState(job, start, content, log1, issued)
    requires i in log1.arrived && log1.arrived[i].Done?
    requires RecordsAreReal(job, phase, log)
    requires forall j | j in log.arrived :: j in log1.arrived && log1.arrived[j] == log.arrived[j]
    ensures KernelState(job, start, content, Completed(job, phase, log, log1, i), issued)
    ensures RecordsAreReal(job, phase, Completed(job, phase, log, log1, i))
    ensures DeliverAll(view0, Completed(job, phase, log, log1, i).deliveries)
         == Deliver(DeliverAll(view0, log.deliveries), DeliveryOf(job, phase, i, log1.arrived[i]))
  {
    KernelForgetsOrder(job, start, content, log1, Completed(job, phase, log, log1, i), issued);
    RecordsExtend(job, phase, log, log1, i);
    hide KernelState, RecordsAreReal, DeliverAllBy, HashOf, BytesOf;
    LastDelivery(HashOf, view0, log.deliveries, DeliveryOf(job, phase, i, log1.arrived[i]));
  }

  lemma RecordsStay(job: Job, phase: Phase, log: RunLog, log': RunLog)
    requires RecordsAreReal(job, phase, log) && log'.order == log.order && log'.deliveries == log.deliveries
    requires forall i | i in log.arrived :: i in log'.arrived && log'.arrived[i] == log.arrived[i]
    ensures RecordsAreReal(job, phase, log')
  {
  }

  lemma RecordsExtend(job: Job, phase: Phase, log: RunLog, log1: RunLog, i: nat)
    requires i in log1.arrived && log1.arrived[i].Done?
    requires RecordsAreReal(job, phase, log)
    requires forall j | j in log.arrived :: j in log1.arrived && log1.arrived[j] == log.arrived[j]
    ensures RecordsAreReal(job, phase, Completed(job, phase, log, log1, i))
  {
  }

  lemma KernelForgetsOrder(job: Job, start: Content, content: Content, log: RunLog, log': RunLog, issued: nat)
    requires KernelState(job, start, content, log, issued)
    requires log'.performed == log.performed && log'.arrived == log.arrived
    ensures KernelState(job, start, content, log', issued)
  {
  }

  lemma RunIsComplete(job: Job, phase: Phase, start: Content, content: Content, log: RunLog, holding: seq<Buf>,
                      free: seq<Buf>, free0: seq<Buf>, count: nat)
    requires WindowHolds(log, [], holding, free, free0, count, count)
    requires KernelState(job, start, content, log, count) && RecordsAreReal(job, phase, log)
    ensures IsCompleteRun(job, phase, start, log, count) && content == ContentAfter(job, start, log.performed)
    ensures |log.order| == count && multiset(Ids(free)) == multiset(Ids(free0))
  {
    assert multiset(log.order) + multiset([]) == multiset(log.order);
    AllPerformed(job, start, log, count);
    assert free + holding == free;
  }

  class Runner {
    const pool: BufferPool
    const configured: nat
    const shape: Shape
    var peak: nat
    var weighted: nat
    var samples: nat
    var starved: bool
    var poolBound: bool

    constructor (pool: BufferPool, depth: nat, shape: Shape)
      ensures this.pool == pool && this.shape == shape && configured == Max(depth, 1)
      ensures peak == weighted == samples == 0 && !starved && !poolBound
    {
      this.pool, this.shape, this.configured := pool, shape, Max(depth, 1);
      peak, weighted, samples, starved, poolBound := 0, 0, 0, false, false;
    }

    /** The refill: bounded by the window, by what is left, and by the pool. */
    method Refill(job: Job, count: nat, pending: seq<nat>, holding: seq<Buf>, issued: nat)
      returns (r: Result<nat>, pending': seq<nat>, holding': seq<Buf>)
      requires configured >= 1 && issued <= count && |pending| == |holding|
      modifies this`poolBound, pool
      ensures r.Err? <==> pending == [] && issued < count && old(pool.free) == []
      ensures r.Err? ==> r.error == WouldBlock && pool.free == old(pool.free) && poolBound == old(poolBound)
      ensures r.Ok? ==>
                var added := r.value - issued;
                && added == Max(0, Min(Min(configured - |pending|, count - issued), |old(pool.free)|))
                && pending' == pending + Range(r.value)[issued..]
                && |holding'| == |pending'|
                && (added == 0 ==> pool.free == old(pool.free) && holding' == holding)
                && |pool.free| == |old(pool.free)| - added
                && multiset(Ids(pool.free + holding')) == multiset(Ids(old(pool.free) + holding))
                && (poolBound <==> old(poolBound) || (r.value < count && |pending'| < configured))
    {
      pending', holding' := pending, holding;
      var next := issued;
      while next < count && |pending'| < configured
        invariant issued <= next <= count
        invariant pending' == pending + Range(next)[issued..]
        invariant |holding'| == |pending'|
        invariant |pool.free| == |old(pool.free)| - (next - issued)
        invariant |pending'| <= Max(|pending|, configured)
        invariant multiset(Ids(pool.free + holding')) == multiset(Ids(old(pool.free) + holding))
        invariant next == issued ==> pool.free == old(pool.free) && holding' == holding
        invariant poolBound == old(poolBound)
      {
        ghost var before := pool.free;
        var taken := pool.Take(job.capacity);
        match taken
        case Ok(buffer) =>
          TakeMoves(before, pool.free, holding', buffer);
          pending', holding' := pending' + [next], holding' + [buffer];
          next := next + 1;
          RangeGrows(next - 1);
        case Err(e) =>
          if pending' != [] {
            poolBound := true;
            break;
          }
          return Err(e), pending', holding';
      }
      r := Ok(next);
    }

    /** Waits for a completion, letting the kernel perform outstanding operations meanwhile. */
    method AwaitNext(job: Job, pending: seq<nat>, disk: Disk, pick: nat -> nat, tick: nat,
                     arrived: map<nat, Outcome>, ghost start: Content, ghost log: RunLog, ghost issued: nat)
      returns (k: nat, tick': nat, arrived': map<nat, Outcome>, ghost log': RunLog)
      requires pending != [] && arrived == log.arrived
      requires forall i | 0 <= i < |pending| :: pending[i] < issued
      requires KernelState(job, start, disk.content, log, issued)
      modifies disk
      ensures k < |pending| && pending[k] in arrived'
      ensures arrived' == log'.arrived && log'.order == log.order && log'.deliveries == log.deliveries
      ensures KernelState(job, start, disk.content, log', issued)
      ensures forall i | i in arrived :: i in arrived' && arrived'[i] == arrived[i]
    {
      tick', arrived', log' := tick, arrived, log;
      k := pick(tick') % |pending|;
      while pending[k] !in arrived'
        invariant k < |pending| && arrived' == log'.arrived
        invariant log'.order == log.order && log'.deliveries == log.deliveries
        invariant KernelState(job, start, disk.content, log', issued)
        invariant forall i | i in arrived :: i in arrived' && arrived'[i] == arrived[i]
        decreases issued - |log'.performed|
      {
        var i := pending[k];
        var effect := job.perform(i, disk.content);
        PerformOne(job, start, disk.content, log', issued, i);
        disk.content := effect.content;
        arrived' := arrived'[i := effect.outcome];
        log' := log'.(performed := log'.performed + [i], arrived := arrived');
        tick' := tick' + 1;
        k := pick(tick') % |pending|;
      }
      tick' := tick' + 1;
    }

    /** One sample and one completion: recorded and its buffer returned, or its failure passed on. */
    method CompleteOne(phase: Phase, trace: Trace, job: Job, disk: Disk, pick: nat -> nat, tick: nat,
                       pending: seq<nat>, holding: seq<Buf>, arrived: map<nat, Outcome>,
                       ghost start: Content, ghost view0: TraceView, ghost log: RunLog, ghost issued: nat)
      returns (r: Result<()>, k: nat, tick': nat, arrived': map<nat, Outcome>, ghost log': RunLog)
      requires pending != [] && |holding| == |pending| && arrived == log.arrived
      requires forall i | 0 <= i < |pending| :: pending[i] < issued
      requires KernelState(job, start, disk.content, log, issued) && RecordsAreReal(job, phase, log)
      requires trace.View() == DeliverAll(view0, log.deliveries)
      modifies this`weighted, this`samples, pool, trace, disk
      ensures weighted == old(weighted) + |pending| && samples == old(samples) + 1
      ensures k < |pending| && arrived' == log'.arrived
      ensures KernelState(job, start, disk.content, log', issued)
      ensures r.Ok? ==>
                && log'.order == log.order + [pending[k]]
                && RecordsAreReal(job, phase, log') && trace.View() == DeliverAll(view0, log'.deliveries)
                && pool.free == old(pool.free) + [holding[k]]
      ensures r.Err? ==>
                && pool.free == old(pool.free) && pending[k] in arrived' && arrived'[pending[k]] == Failed(r.error)
                && log'.order == log.order && log'.deliveries == log.deliveries
                && RecordsAreReal(job, phase, log') && trace.View() == old(trace.View())
    {
      hide ContentAfter, KernelState, RecordsAreReal, DeliverAll, Deliver;
      k, tick', arrived', log' := AwaitNext(job, pending, disk, pick, tick, arrived, start, log, issued);
      weighted := weighted + |pending|;
      samples := samples + 1;
      var i := pending[k];
      match arrived'[i]
      case Failed(e) =>
        RecordsStay(job, phase, log, log');
        r := Err(e);
      case Done(transferred, bytes) =>
        trace.RecordDelivered(phase, job.offsetOf(i), transferred, bytes);
        CompletionIsRecorded(job, phase, start, disk.content, view0, log, log', issued, i);
        log' := Completed(job, phase, log, log', i);
        pool.Put(holding[k]);
        r := Ok(());
    }

    /**
     Runs `count` operations, keeping the configured number outstanding.

     Whatever completes when, a successful run leaves figures fixed by the shape,
     the count, the depth and the pool; a failing one has recorded exactly what
     completed before the failure, has sampled the failing operation too, and loses
     the buffers of the operations that were still outstanding.
     */
    method Run(count: nat, phase: Phase, trace: Trace, job: Job, disk: Disk, pick: nat -> nat)
      returns (r: Result<()>, ghost log: RunLog)
      requires configured >= 1
      modifies this, pool, trace, disk
      ensures r.Ok? ==>
                && IsCompleteRun(job, phase, old(disk.content), log, count)
                && trace.View() == DeliverAll(old(trace.View()), log.deliveries)
                && disk.content == ContentAfter(job, old(disk.content), log.performed)
                && multiset(Ids(pool.free)) == multiset(Ids(old(pool.free)))
      ensures r.Ok? ==>
                var supply := |old(pool.free)|;
                && samples == old(samples) + count
                && weighted == old(weighted) + PredictedWeighted(shape, count, Min(configured, supply))
                && peak == Max(old(peak), Min(count, Min(configured, supply)))
                && starved == (old(starved) || (count > 0 && configured > 1))
                && poolBound == (old(poolBound) || supply < Min(configured, count))
      ensures r.Err? && (count == 0 || old(pool.free) != []) ==>
                && (exists i :: i in log.arrived && log.arrived[i] == Failed(r.error))
                && KernelState(job, old(disk.content), disk.content, log, count)
                && RecordsAreReal(job, phase, log)
                && trace.View() == DeliverAll(old(trace.View()), log.deliveries)
                && multiset(Ids(pool.free)) < multiset(Ids(old(pool.free)))
      ensures r.Err? && (count == 0 || old(pool.free) != []) ==>
                var supply := |old(pool.free)|;
                && |log.order| < count
                && samples == old(samples) + |log.order| + 1
                && weighted <= old(weighted) + PredictedWeighted(shape, count, Min(configured, supply))
                && peak == Max(old(peak), Min(count, Min(configured, supply)))
                && poolBound == (old(poolBound) || supply < Min(configured, count))
      ensures count > 0 && old(pool.free) == [] ==>
                && r == Err(WouldBlock) && pool.free == [] && trace.View() == old(trace.View())
                && disk.content == old(disk.content) && samples == old(samples)
    {
      hide PredictedWeighted, DeliverAll, KernelState, RecordsAreReal, IsCompleteRun, WindowHolds, FiguresHold;
      hide FiguresPartway;
      ghost var begun := Begun(job, phase, count, disk.content, trace.View(), pool.free, Counters());
      var w := Window([], [], 0, 0, map[]);
      log := EMPTY_LOG;
      RunBegins(trace, disk, begun);
      var more := true;
      while more
        invariant Running(trace, disk, begun, w, log)
        invariant !more ==> w.pending == [] && w.issued == count
        decreases count - |log.order|, more
      {
        var turn;
        turn, w, log := Turn(trace, disk, pick, w, begun, log, count, phase, job);
        if turn.Err? {
          if begun.free != [] {
            PartwayFigures(shape, configured, |begun.free|, count, begun.figures, Counters(), |log.order| + 1);
          }
          return Err(turn.error), log;
        }
        more := turn.value;
      }
      RunIsComplete(job, phase, begun.start, disk.content, log, w.holding, pool.free, begun.free, count);
      FiguresAreFinal(shape, configured, |begun.free|, count, begun.figures, Counters());
      r := Ok(());
    }

    /** The loop's invariant: part-way through the run that began as `begun`. */
    ghost predicate Running(trace: Trace, disk: Disk, begun: Begun, w: Window, log: RunLog)
      reads this, pool, trace, disk
    {
      && configured >= 1
      && w.arrived == log.arrived
      && WindowHolds(log, w.pending, w.holding, pool.free, begun.free, w.issued, begun.count)
      && KernelState(begun.job, begun.start, disk.content, log, w.issued)
      && RecordsAreReal(begun.job, begun.phase, log) && trace.View() == DeliverAll(begun.view, log.deliveries)
      && FiguresHold(shape, configured, |begun.free|, begun.count, begun.figures, Counters(), |log.order|, |w.pending|)
      && (log.order == [] ==>
            && pool.free == begun.free && disk.content == begun.start && log == EMPTY_LOG
            && Counters() == begun.figures)
      && (begun.free == [] ==> log.order == [])
    }

    lemma RunBegins(trace: Trace, disk: Disk, begun: Begun)
      requires configured >= 1
      requires begun.start == disk.content && begun.view == trace.View()
      requires begun.free == pool.free && begun.figures == Counters()
      ensures Running(trace, disk, begun, Window([], [], 0, 0, map[]), EMPTY_LOG)
      ensures DeliverAll(begun.view, []) == begun.view
    {
      assert pool.free + [] == pool.free;
      NothingYet(begun.job, begun.phase, begun.start, begun.view);
      FiguresStart(shape, configured, |begun.free|, begun.count, begun.figures);
    }

    /** A run that began as `begun` has ended in the failure of one of its operations. */
    ghost predicate HasFailed(trace: Trace, disk: Disk, begun: Begun, log: RunLog, e: IoError)
      reads this, pool, trace, disk
    {
      && begun.free != []
      && (exists i :: i in log.arrived && log.arrived[i] == Failed(e))
      && KernelState(begun.job, begun.start, disk.content, log, begun.count)
      && RecordsAreReal(begun.job, begun.phase, log) && trace.View() == DeliverAll(begun.view, log.deliveries)
      && FiguresPartway(shape, configured, |begun.free|, begun.count, begun.figures, Counters(), |log.order| + 1)
      && multiset(Ids(pool.free)) < multiset(Ids(begun.free))
    }

    /** Between a refill and its sample: the window has been filled from `w` to `full`. */
    ghost predicate Filled(trace: Trace, disk: Disk, begun: Begun, w: Window, full: Window, log: RunLog, was: Figures)
      reads this, pool, trace, disk
    {
      && configured >= 1 && w.issued <= full.issued && full.arrived == log.arrived
      && WindowHolds(log, full.pending, full.holding, pool.free, begun.free, full.issued, begun.count)
      && KernelState(begun.job, begun.start, disk.content, log, full.issued)
      && RecordsAreReal(begun.job, begun.phase, log) && trace.View() == DeliverAll(begun.view, log.deliveries)
      && FiguresHold(shape, configured, |begun.free|, begun.count, begun.figures, was, |log.order|, |w.pending|)
      && |log.order| + |w.pending| <= begun.count
      && |full.pending| == |w.pending| + RefillBy(shape, Min(configured, |begun.free|), |w.pending|,
                                                  begun.count - |log.order| - |w.pending|)
      && Counters() == was.(poolBound := was.poolBound
                                         || (MayRefill(shape, |w.pending| == 0)
                                             && full.issued < begun.count && |full.pending| < configured))
    }

    /** The gate, then the refill: an error when nothing is outstanding and no buffer is to be had. */
    method GatedRefill(w: Window, count: nat, job: Job, ghost log: RunLog, ghost free0: seq<Buf>)
      returns (r: Result<()>, full: Window)
      requires configured >= 1 && WindowHolds(log, w.pending, w.holding, pool.free, free0, w.issued, count)
      modifies this`poolBound, pool
      ensures r.Ok? ==>
                && full.tick == w.tick && full.arrived == w.arrived && w.issued <= full.issued
                && WindowHolds(log, full.pending, full.holding, pool.free, free0, full.issued, count)
                && |full.pending| == |w.pending| + RefillBy(shape, Min(configured, |free0|), |w.pending|, count - w.issued)
                && poolBound == (old(poolBound) || (MayRefill(shape, |w.pending| == 0)
                                                    && full.issued < count && |full.pending| < configured))
      ensures r.Ok? && full.pending == [] ==> full == w && w.issued == count && pool.free == old(pool.free)
      ensures r.Err? ==>
                r.error == WouldBlock && free0 == [] && count > 0 && pool.free == [] && poolBound == old(poolBound)
    {
      hide RefillBy, Ids, Range;
      ghost var free := pool.free;
      RefillMatches(shape, configured, |free0|, |w.pending|, count - w.issued, 0);
      if !MayRefill(shape, w.pending == []) {
        return Ok(()), w;
      }
      var more, pending, holding := Refill(job, count, w.pending, w.holding, w.issued);
      if more.Err? {
        return Err(more.error), w;
      }
      WindowRefills(log, w.pending, w.holding, free, pending, holding, pool.free, free0, w.issued, more.value, count);
      RefillMatches(shape, configured, |free0|, |w.pending|, count - w.issued, more.value - w.issued);
      return Ok(()), Window(pending, holding, more.value, w.tick, w.arrived);
    }

    method TopUp(trace: Trace, disk: Disk, w: Window, ghost begun: Begun, ghost log: RunLog, count: nat, job: Job)
      returns (r: Result<()>, full: Window)
      requires Running(trace, disk, begun, w, log) && begun.count == count && begun.job == job
      modifies this`poolBound, pool
      ensures r.Ok? ==> Filled(trace, disk, begun, w, full, log, old(Counters()))
      ensures r.Ok? && full.pending == [] ==>
                full == w && w.issued == count && pool.free == old(pool.free) && poolBound == old(poolBound)
      ensures r.Err? ==>
                r.error == WouldBlock && begun.free == [] && count > 0 && pool.free == [] && poolBound == old(poolBound)
    {
      hide DeliverAll, KernelState, RecordsAreReal, FiguresHold, RefillBy;
      assert |log.order| + |w.pending| == w.issued <= count;
      hide WindowHolds;
      r, full := GatedRefill(w, count, job, log, begun.free);
      if r.Ok? {
        KernelStateGrows(job, begun.start, disk.content, log, w.issued, full.issued);
      }
    }

    lemma FilledFacts(trace: Trace, disk: Disk, begun: Begun, w: Window, full: Window, log: RunLog, was: Figures)
      requires Filled(trace, disk, begun, w, full, log, was) && full.pending != []
      ensures begun.free != [] && |full.pending| == |full.holding|
      ensures |log.order| + |full.pending| == full.issued <= begun.count
      ensures forall i | 0 <= i < |full.pending| :: full.pending[i] < full.issued
    {
      hide KernelState, RecordsAreReal, FiguresHold, DeliverAll, RefillBy;
      PendingIsIssued(log.order, full.pending, full.issued);
    }

    /** Takes the sample a completion is preceded by. */
    method TakeSample(full: Window, count: nat)
      modifies this`peak, this`starved
      ensures Counters() == old(Counters()).(
                peak := Max(old(peak), |full.pending|),
                starved := old(starved) || (full.issued >= count && |full.pending| < configured))
    {
      peak := Max(peak, |full.pending|);
      if full.issued >= count && |full.pending| < configured {
        starved := true;
      }
    }

    /** A completion leaves the loop's invariant, one operation further on. */
    lemma Landed(trace: Trace, disk: Disk, begun: Begun, full: Window, log: RunLog, log': RunLog, free: seq<Buf>, k: nat,
                 tick: nat, arrived: map<nat, Outcome>)
      requires configured >= 1 && k < |full.pending| && |full.pending| == |full.holding| && arrived == log'.arrived
      requires begun.free != [] && log'.order == log.order + [full.pending[k]]
      requires WindowHolds(log, full.pending, full.holding, free, begun.free, full.issued, begun.count)
      requires pool.free == free + [full.holding[k]]
      requires KernelState(begun.job, begun.start, disk.content, log', full.issued)
      requires RecordsAreReal(begun.job, begun.phase, log') && trace.View() == DeliverAll(begun.view, log'.deliveries)
      requires FiguresHold(shape, configured, |begun.free|, begun.count, begun.figures, Counters(), |log.order| + 1,
                           |full.pending| - 1)
      ensures Running(trace, disk, begun,
                      Window(RemoveAt(full.pending, k), RemoveAt(full.holding, k), full.issued, tick, arrived), log')
    {
      hide KernelState, RecordsAreReal, FiguresHold, DeliverAll, WindowHolds;
      WindowCompletes(log, log', full.pending, full.holding, free, begun.free, full.issued, begun.count, k);
    }

    /** A failure ends the run. */
    lemma Lost(trace: Trace, disk: Disk, begun: Begun, full: Window, log: RunLog, log': RunLog, k: nat, e: IoError)
      requires k < |full.pending| && begun.free != [] && log'.order == log.order
      requires full.pending[k] in log'.arrived && log'.arrived[full.pending[k]] == Failed(e)
      requires WindowHolds(log, full.pending, full.holding, pool.free, begun.free, full.issued, begun.count)
      requires KernelState(begun.job, begun.start, disk.content, log', full.issued) && full.issued <= begun.count
      requires RecordsAreReal(begun.job, begun.phase, log') && trace.View() == DeliverAll(begun.view, log'.deliveries)
      requires FiguresHold(shape, configured, |begun.free|, begun.count, begun.figures, Counters(), |log.order| + 1,
                           |full.pending| - 1)
      ensures HasFailed(trace, disk, begun, log', e)
    {
      hide KernelState, RecordsAreReal, FiguresHold, FiguresPartway, DeliverAll, WindowHolds;
      KernelStateGrows(begun.job, begun.start, disk.content, log', full.issued, begun.count);
      WindowLoses(log, full.pending, full.holding, pool.free, begun.free, full.issued, begun.count, k);
      FiguresAt(shape, configured, |begun.free|, begun.count, begun.figures, Counters(), |log.order| + 1,
                |full.pending| - 1);
    }

    /** One sample of a filled window, and the completion it precedes. */
    method SampleOne(trace: Trace, disk: Disk, pick: nat -> nat, full: Window, ghost begun: Begun, ghost log: RunLog,
                     count: nat, phase: Phase, job: Job, ghost w: Window, ghost was: Figures)
      returns (r: Result<()>, w': Window, ghost log': RunLog)
      requires Filled(trace, disk, begun, w, full, log, was) && full.pending != []
      requires begun.count == count && begun.phase == phase && begun.job == job
      modifies this, pool, trace, disk
      ensures r.Ok? ==> Running(trace, disk, begun, w', log') && |log'.order| == |log.order| + 1 <= count
      ensures r.Err? ==> HasFailed(trace, disk, begun, log', r.error)
    {
      hide DeliverAll, KernelState, RecordsAreReal, FiguresHold, RefillBy, Ids, WindowHolds, Running, HasFailed;
      ghost var free := pool.free;
      FilledFacts(trace, disk, begun, w, full, log, was);
      TakeSample(full, count);
      var k, tick, arrived;
      r, k, tick, arrived, log' := CompleteOne(phase, trace, job, disk, pick, full.tick, full.pending, full.holding,
                                               full.arrived, begun.start, begun.view, log, full.issued);
      SampleIsAccounted(shape, configured, |begun.free|, count, begun.figures, was, Counters(), |log.order|,
                        |w.pending|, |full.pending|);
      w' := Window(RemoveAt(full.pending, k), RemoveAt(full.holding, k), full.issued, tick, arrived);
      if r.Err? {
        Lost(trace, disk, begun, full, log, log', k, r.error);
      } else {
        Landed(trace, disk, begun, full, log, log', free, k, tick, arrived);
      }
    }

    /** One trip round the loop: Ok(false) when nothing was left outstanding. */
    method Turn(trace: Trace, disk: Disk, pick: nat -> nat, w: Window, ghost begun: Begun, ghost log: RunLog,
                count: nat, phase: Phase, job: Job)
      returns (r: Result<bool>, w': Window, ghost log': RunLog)
      requires Running(trace, disk, begun, w, log)
      requires begun.count == count && begun.phase == phase && begun.job == job
      modifies this, pool, trace, disk
      ensures r.Ok? ==> Running(trace, disk, begun, w', log')
      ensures r == Ok(true) ==> |log'.order| == |log.order| + 1 <= count
      ensures r == Ok(false) ==> log' == log && w'.pending == [] && w'.issued == count
      ensures r.Err? ==>
                if begun.free == [] then
                  && r.error == WouldBlock && count > 0 && pool.free == [] && trace.View() == begun.view
                  && disk.content == begun.start && samples == begun.figures.samples
                else HasFailed(trace, disk, begun, log', r.error)
    {
      hide DeliverAll, KernelState, RecordsAreReal, FiguresHold, WindowHolds, RefillBy;
      ghost var was := Counters();
      var filled, full := TopUp(trace, disk, w, begun, log, count, job);
      if filled.Err? {
        NothingYet(job, phase, begun.start, begun.view);
        assert log == EMPTY_LOG;
        return Err(filled.error), w, log;
      }
      if full.pending == [] {
        return Ok(false), w, log;
      }
      var sampled;
      sampled, w', log' := SampleOne(trace, disk, pick, full, begun, log, count, phase, job, w, was);
      r := if sampled.Err? then Err(sampled.error) else Ok(true);
    }

    /** What the run achieved, in concurrency terms. */
    function Achieve(operations: nat): Achieved
      reads this
    {
      Achieved(peak, MeanOf(weighted, samples), JudgeShortfall(configured, peak, starved, poolBound, operations))
    }

    /** Whether the measured mean is what the declared shape predicts for `count` operations. */
    function CheckShape(count: nat): ShapeCheck
      reads this
    {
      Judge(shape, configured, weighted, samples, poolBound, count)
    }

    ghost function Counters(): Figures
      reads this
    {
      Figures(peak, weighted, samples, starved, poolBound)
    }
  }
}
