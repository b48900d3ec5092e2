/**
 The executor's loop, pass by pass: take the spawns, poll until the ready queue is
 empty, then process the wakes of both registries.
 */
module Passes {
  import opened Options
  import opened Executor
  import opened ExecutorProofs
  import opened Sums

  lemma {:induction false} RunsConcat(s: State, a: seq<Event>, m: State, b: seq<Event>, t: State)
    requires Runs(s, a, m) && Runs(m, b, t)
    ensures Runs(s, a + b, t)
    ensures Polled(s, a + b) == Polled(s, a) + Polled(m, b)
    decreases |a|
  {
    if a == [] {
      assert a + b == b;
    } else {
      RunsConcat(Apply(s, a[0]), a[1..], m, b, t);
      assert (a + b)[1..] == a[1..] + b;
    }
  }

  lemma RunsNothing(s: State)
    ensures Runs(s, [], s) && WithoutProcessing([]) && Polled(s, []) == []
  {
  }

  /** Runs without processing compose into one without processing. */
  lemma RunsOn(s: State, a: seq<Event>, m: State, b: seq<Event>, t: State)
    requires Runs(s, a, m) && Runs(m, b, t) && WithoutProcessing(a) && WithoutProcessing(b)
    ensures Runs(s, a + b, t) && WithoutProcessing(a + b)
    ensures Polled(s, a + b) == Polled(s, a) + Polled(m, b)
  {
    RunsConcat(s, a, m, b, t);
    hide Runs, Polled;
  }

  ghost predicate WithoutPolls(events: seq<Event>) {
    forall i | 0 <= i < |events| :: !events[i].BeginPoll?
  }

  lemma {:induction false} NothingIsPolled(s: State, events: seq<Event>)
    requires WithoutPolls(events)
    ensures Polled(s, events) == []
    decreases |events|
  {
    hide Apply, Enabled;
    if events != [] && Enabled(s, events[0]) {
      NothingIsPolled(Apply(s, events[0]), events[1..]);
    }
  }

  lemma WakesAreNoProcessing(events: seq<Event>)
    requires OnlyWakes(events)
    ensures WithoutProcessing(events) && WithoutPolls(events)
  {
  }

  lemma RunsExtend(s: State, a: seq<Event>, m: State, e: Event)
    requires Runs(s, a, m) && Enabled(m, e)
    ensures Runs(s, a + [e], Apply(m, e))
    ensures Polled(s, a + [e]) == if e.BeginPoll? then Polled(s, a) + [m.ready[0].id] else Polled(s, a)
  {
    hide Apply, Enabled;
    assert Runs(Apply(m, e), [e][1..], Apply(m, e));
    assert Polled(Apply(m, e), [e][1..]) == [];
    RunsConcat(s, a, m, [e], Apply(m, e));
  }

  /** What an executor starting empty can come to. */
  ghost predicate Reachable(s: State) {
    exists events :: Runs(INITIAL, events, s)
  }

  lemma StartIsReachable()
    ensures Reachable(INITIAL)
  {
    RunsNothing(INITIAL);
  }

  lemma StepReaches(s: State, e: Event)
    requires Reachable(s) && Enabled(s, e)
    ensures Reachable(Apply(s, e))
  {
    var events :| Runs(INITIAL, events, s);
    RunsExtend(INITIAL, events, s, e);
  }

  /** Every reachable state has the invariant. */
  lemma ReachableIsGood(s: State)
    requires Reachable(s)
    ensures Inv(s)
  {
    var events :| Runs(INITIAL, events, s);
    InitialIsGood();
    InvHoldsThroughout(INITIAL, events, s);
  }

  lemma TakingIsARun(s: State, t: State)
    requires Enabled(s, TakeSpawns) && t == Apply(s, TakeSpawns)
    ensures Runs(s, [TakeSpawns], t) && WithoutProcessing([TakeSpawns]) && Polled(s, [TakeSpawns]) == []
  {
    RunsNothing(s);
    RunsExtend(s, [], s, TakeSpawns);
    assert [] + [TakeSpawns] == [TakeSpawns];
  }

  lemma PollingIsARun(s: State, t: State)
    requires Enabled(s, BeginPoll) && t == Apply(s, BeginPoll)
    ensures Runs(s, [BeginPoll], t) && WithoutProcessing([BeginPoll]) && Polled(s, [BeginPoll]) == [s.ready[0].id]
  {
    RunsNothing(s);
    RunsExtend(s, [], s, BeginPoll);
    assert [] + [BeginPoll] == [BeginPoll];
  }

  lemma RunsReach(s: State, events: seq<Event>, t: State)
    requires Reachable(s) && Runs(s, events, t)
    ensures Reachable(t) && Inv(t)
  {
    var before :| Runs(INITIAL, before, s);
    RunsConcat(INITIAL, before, s, events, t);
    ReachableIsGood(t);
  }

  /** The front task is neither finished nor has it sent anything. */
  lemma FrontIsFresh(s: State)
    requires Reachable(s) && s.current.None? && s.ready != []
    ensures s.ready[0].id !in s.finished && s.ready[0].id !in s.sent
  {
    ReachableIsGood(s);
    ReadyIsNowhereElse(s, 0);
  }

  lemma CurrentIsPolled(s: State)
    requires Reachable(s) && s.current.Some?
    ensures s.current.value.id in s.awaiting
  {
    ReachableIsGood(s);
  }

  lemma NextIdIsNew(s: State)
    requires Reachable(s)
    ensures s.nextId !in s.kind && s.nextId !in s.channels && s.nextId !in s.sent && s.nextId !in s.finished
  {
    ReachableIsGood(s);
    OnlyOnePlace(s, s.nextId);
    FreshIdIsNew(s);
  }

  ghost predicate OnlyWakes(events: seq<Event>) {
    forall i | 0 <= i < |events| :: events[i].Wake?
  }

  /** A whole pass: from `before`, `drain` empties the queue, and then wakes are processed. */
  datatype Pass = Pass(before: State, drain: seq<Event>, drained: State, outside: seq<Event>, after: State)

  const PROCESSING := [ProcessWoken(SingleThreaded), ProcessWoken(ThreadSafe)]

  ghost predicate IsPass(p: Pass) {
    && Reachable(p.before)
    && p.before.current.None?
    && p.drain != [] && p.drain[0] == TakeSpawns && WithoutProcessing(p.drain)
    && Runs(p.before, p.drain, p.drained)
    && p.drained.current.None? && p.drained.ready == []
    && OnlyWakes(p.outside)
    && Runs(p.drained, PROCESSING + p.outside, p.after)
  }

  lemma MakePass(p: Pass)
    requires Reachable(p.before) && p.before.current.None?
    requires p.drain != [] && p.drain[0] == TakeSpawns && WithoutProcessing(p.drain)
    requires Runs(p.before, p.drain, p.drained) && p.drained.current.None? && p.drained.ready == []
    requires OnlyWakes(p.outside) && Runs(p.drained, PROCESSING + p.outside, p.after)
    ensures IsPass(p)
  {
  }

  /** Passes that follow each other from one state to another. */
  ghost predicate Chained(s: State, passes: seq<Pass>, t: State)
    decreases |passes|
  {
    if passes == [] then s == t
    else
      var last := passes[|passes| - 1];
      IsPass(last) && last.after == t && Chained(s, passes[..|passes| - 1], last.before)
  }

  lemma ChainOfNone(s: State)
    ensures Chained(s, [], s)
  {
  }

  lemma ChainGrows(s: State, passes: seq<Pass>, p: Pass)
    requires Chained(s, passes, p.before) && IsPass(p)
    ensures Chained(s, passes + [p], p.after)
  {
    assert (passes + [p])[..|passes|] == passes;
  }

  /** How many polls a sequence of passes made. */
  ghost function PollCount(passes: seq<Pass>): nat
    decreases |passes|
  {
    var n := |passes| - 1;
    if n < 0 then 0 else PollCount(passes[..n]) + |Polled(passes[n].before, passes[n].drain)|
  }

  lemma NoPassesNoPolls()
    ensures PollCount([]) == 0
  {
  }

  lemma PollCountGrows(passes: seq<Pass>, p: Pass)
    ensures PollCount(passes + [p]) == PollCount(passes) + |Polled(p.before, p.drain)|
  {
    assert (passes + [p])[..|passes|] == passes;
  }

  lemma LastOfChain(s: State, passes: seq<Pass>, t: State)
    requires Chained(s, passes, t) && passes != []
    ensures passes[|passes| - 1].after == t
  {
  }

  lemma {:induction false} ChainedAt(s: State, passes: seq<Pass>, t: State, k: nat)
    requires Chained(s, passes, t) && k < |passes|
    ensures IsPass(passes[k])
    ensures k + 1 < |passes| ==> passes[k].after == passes[k + 1].before
    decreases |passes|
  {
    hide IsPass;
    var n := |passes| - 1;
    if k < n {
      ChainedAt(s, passes[..n], passes[n].before, k);
      assert passes[..n][k] == passes[k];
      if k + 1 < n {
        assert passes[..n][k + 1] == passes[k + 1];
      } else {
        LastOfChain(s, passes[..n], passes[n].before);
      }
    }
  }

  /** Emptying the queue polls everything that was in it. */
  lemma {:induction false} EmptyingPollsAll(s: State, events: seq<Event>, t: State)
    requires Runs(s, events, t)
    ensures |t.ready| + |Polled(s, events)| >= |s.ready|
    decreases |events|
  {
    if events != [] {
      QueueOnlyGrows(s, events[0]);
      EmptyingPollsAll(Apply(s, events[0]), events[1..], t);
      hide Apply, Runs;
    }
  }

  lemma InPrefix(queue: seq<TaskId>, all: seq<TaskId>, id: TaskId)
    requires |queue| <= |all| && all[..|queue|] == queue && id in queue
    ensures id in all
  {
    var i :| 0 <= i < |queue| && queue[i] == id;
    assert all[i] == all[..|queue|][i];
  }

  /**
   A pass polls everything that was queued or newly spawned when it began, and
   polls nothing twice.
   */
  lemma APassPollsEachOnce(p: Pass, id: TaskId)
    requires IsPass(p) && (id in IdsOf(p.before.ready) || id in IdsOf(p.before.pendingSpawns))
    ensures id in Polled(p.before, p.drain)
    ensures multiset(Polled(p.before, p.drain))[id] == 1
  {
    var s, rest := Apply(p.before, TakeSpawns), p.drain[1..];
    IdsOfConcat(p.before.ready, p.before.pendingSpawns);
    assert id in IdsOf(s.ready);
    assert Polled(p.before, p.drain) == Polled(s, rest);
    EmptyingPollsAll(s, rest, p.drained);
    FirstInFirstOut(s, rest, p.drained);
    InPrefix(IdsOf(s.ready), Polled(s, rest), id);
    ReachableIsGood(p.before);
    OncePerDrain(p.before, p.drain, p.drained);
    DistinctCountsOne(Polled(p.before, p.drain), id);
  }

  lemma {:induction false} DistinctCountsOne(ids: seq<TaskId>, id: TaskId)
    requires forall i, j | 0 <= i < j < |ids| :: ids[i] != ids[j]
    requires id in ids
    ensures multiset(ids)[id] == 1
    decreases |ids|
  {
    var n := |ids| - 1;
    assert ids == ids[..n] + [ids[n]];
    if id in ids[..n] {
      DistinctCountsOne(ids[..n], id);
      var i :| 0 <= i < n && ids[i] == id;
    }
  }

  /** The wakes after a drain only add to the queue. */
  lemma {:induction false} QueueKeeps(s: State, events: seq<Event>, t: State, task: Task)
    requires Runs(s, events, t) && task in s.ready
    requires forall i | 0 <= i < |events| :: events[i].Wake? || events[i].ProcessWoken?
    ensures task in t.ready
    decreases |events|
  {
    if events != [] {
      OnlyAdds(s, events[0], task);
      QueueKeeps(Apply(s, events[0]), events[1..], t, task);
    }
  }

  lemma OnlyAdds(s: State, e: Event, task: Task)
    requires Enabled(s, e) && (e.Wake? || e.ProcessWoken?) && task in s.ready
    ensures task in Apply(s, e).ready
  {
  }

  /** Processing one registry moves a waiting task, or leaves it waiting as it was. */
  lemma MovedOrStays(s: State, t: WakerType, id: TaskId)
    requires id in s.waiting && Enabled(s, ProcessWoken(t))
    ensures var r := Apply(s, ProcessWoken(t));
            s.waiting[id] in r.ready || (id in r.waiting && r.waiting[id] == s.waiting[id])
    ensures Apply(s, ProcessWoken(t)).current.None?
  {
    var woken := RegistryOf(s, t).woken;
    if id in woken {
      RousedHas(s.waiting, woken, id);
      assert Roused(s.waiting, woken) <= Apply(s, ProcessWoken(t)).ready[|s.ready|..];
    }
  }

  lemma BothProcessed(s: State, outside: seq<Event>, t: State)
    requires Runs(s, PROCESSING + outside, t)
    ensures Enabled(s, ProcessWoken(SingleThreaded))
    ensures var first := Apply(s, ProcessWoken(SingleThreaded));
            Enabled(first, ProcessWoken(ThreadSafe)) && Runs(Apply(first, ProcessWoken(ThreadSafe)), outside, t)
  {
    var all := PROCESSING + outside;
    assert all[0] == ProcessWoken(SingleThreaded);
    var first := Apply(s, all[0]);
    assert all[1..][0] == ProcessWoken(ThreadSafe) && all[1..][1..] == outside;
    assert Runs(first, all[1..], t);
    hide Apply;
  }

  lemma WaiterIsKnown(s: State, id: TaskId)
    requires Inv(s) && id in s.waiting
    ensures id in s.kind && s.waiting[id] == Task(id, s.kind[id])
  {
    assert IsKnown(s, s.waiting[id]);
  }

  lemma ProcessingKeepsKinds(s: State, t: WakerType)
    requires Enabled(s, ProcessWoken(t))
    ensures Apply(s, ProcessWoken(t)).kind == s.kind && Apply(s, ProcessWoken(t)).fired == s.fired
  {
  }

  lemma ProcessedIsQueued(s: State, id: TaskId)
    requires Inv(s) && s.current.None? && id in s.waiting && id in s.fired
    ensures var first := Apply(s, ProcessWoken(SingleThreaded));
            Enabled(first, ProcessWoken(ThreadSafe)) && s.waiting[id] in Apply(first, ProcessWoken(ThreadSafe)).ready
  {
    hide Inv, Apply;
    var task := s.waiting[id];
    var first := Apply(s, ProcessWoken(SingleThreaded));
    InvIsKept(s, ProcessWoken(SingleThreaded));
    MovedOrStays(s, SingleThreaded, id);
    WaiterIsKnown(s, id);
    ProcessingKeepsKinds(s, SingleThreaded);
    if s.kind[id] == SingleThreaded {
      FiredWaiterIsMoved(s, id);
    } else if task !in first.ready {
      FiredWaiterIsMoved(first, id);
    }
    if task in first.ready {
      OnlyAdds(first, ProcessWoken(ThreadSafe), task);
    }
  }

  lemma WokenIsQueued(p: Pass, id: TaskId)
    requires IsPass(p) && id in p.drained.waiting && id in p.drained.fired
    ensures p.drained.waiting[id] in p.after.ready
  {
    var s := p.drained;
    RunsReach(p.before, p.drain, s);
    BothProcessed(s, p.outside, p.after);
    ProcessedIsQueued(s, id);
    QueueKeeps(Apply(Apply(s, ProcessWoken(SingleThreaded)), ProcessWoken(ThreadSafe)), p.outside, p.after, s.waiting[id]);
    hide Inv, Apply, Runs;
  }

  /**
   Bounded response: a task found waiting with its waker fired at the end of one
   pass is polled in the next, exactly once.
   */
  lemma WokenIsPolledNextPass(p: Pass, q: Pass, id: TaskId)
    requires IsPass(p) && IsPass(q) && p.after == q.before
    requires id in p.drained.waiting && id in p.drained.fired
    ensures multiset(Polled(q.before, q.drain))[id] == 1
  {
    WokenIsQueued(p, id);
    RunsReach(p.before, p.drain, p.drained);
    assert p.drained.waiting[id].id == id;
    var i :| 0 <= i < |q.before.ready| && q.before.ready[i] == p.drained.waiting[id];
    assert IdsOf(q.before.ready)[i] == id;
    APassPollsEachOnce(q, id);
  }

  /** A task waiting on a join handle whose value was sent during a pass is polled in the next. */
  lemma JoinIsAnsweredNextPass(p: Pass, q: Pass, w: TaskId, j: TaskId)
    requires IsPass(p) && IsPass(q) && p.after == q.before
    requires w in p.drained.waiting && Expects(p.drained, w, j) && j in p.drained.finished && j in p.drained.channels
    ensures multiset(Polled(q.before, q.drain))[w] == 1
  {
    RunsReach(p.before, p.drain, p.drained);
    WokenIsPolledNextPass(p, q, w);
  }

  /** Nothing queued, waiting or still to be taken, and every task ever spawned has finished. */
  ghost predicate IsIdle(s: State) {
    && s.pendingSpawns == [] && s.ready == [] && s.waiting == map[]
    && forall id | 0 <= id < s.nextId :: id in s.finished
  }

  /** With nothing queued or waiting, every task ever spawned has finished. */
  lemma NothingIsLeft(s: State)
    requires Reachable(s) && s.pendingSpawns == [] && s.ready == [] && s.current.None? && s.waiting == map[]
    ensures IsIdle(s)
  {
    ReachableIsGood(s);
    forall id: TaskId | id < s.nextId
      ensures id in s.finished
    {
      NothingLeftMeansAllFinished(s, id);
    }
  }

  /** Every task is either pending or finished. */
  lemma PendingCount(s: State)
    requires Reachable(s) && s.current.None?
    ensures |s.ready| + |s.waiting| + |s.pendingSpawns| + |s.finished| == s.nextId
  {
    ReachableIsGood(s);
    assert |Places(s)| == |multiset(Range(s.nextId))| == |Range(s.nextId)|;
    assert |multiset(s.waiting.Keys)| == |s.waiting.Keys| == |s.waiting|;
    assert |CurrentIds(s)| == 0;
  }

  /** `Wake`, field by field. */
  lemma WakeIsApplied(s: State, t: WakerType, id: TaskId)
    ensures Apply(s, Wake(t, id)) ==
            s.(local := if t.SingleThreaded? then WakeIn(s.local, id) else s.local,
               shared := if t.SingleThreaded? then s.shared else WakeIn(s.shared, id),
               fired := if id in s.kind && s.kind[id] == t then s.fired + {id} else s.fired)
  {
  }

  lemma SpawnIsApplied(s: State, t: WakerType, joinable: bool)
    ensures Apply(s, Spawn(t, joinable)) ==
            s.(nextId := s.nextId + 1, pendingSpawns := s.pendingSpawns + [Task(s.nextId, t)],
               kind := s.kind[s.nextId := t],
               channels := if joinable then s.channels[s.nextId := Empty] else s.channels)
  {
  }

  lemma TakeSpawnsIsApplied(s: State)
    requires Enabled(s, TakeSpawns)
    ensures Apply(s, TakeSpawns) == s.(ready := s.ready + s.pendingSpawns, pendingSpawns := [])
  {
  }

  lemma BeginPollIsApplied(s: State)
    requires Enabled(s, BeginPoll)
    ensures var t := s.ready[0];
            Apply(s, BeginPoll) ==
            s.(ready := s.ready[1..], current := Some(t), fired := s.fired - {t.id}, awaiting := s.awaiting[t.id := {}],
               local := if t.wakerType.SingleThreaded? then s.local.(wakers := s.local.wakers + {t.id}) else s.local,
               shared := if t.wakerType.SingleThreaded? then s.shared else s.shared.(wakers := s.shared.wakers + {t.id}))
  {
  }

  lemma PollJoinIsApplied(s: State, j: TaskId)
    requires Enabled(s, PollJoin(j))
    ensures var t := s.current.value;
            Apply(s, PollJoin(j)) ==
            if s.channels[j].Empty?
            then s.(joinWaker := s.joinWaker[j := t], awaiting := s.awaiting[t.id := s.awaiting[t.id] + {j}])
            else s.(channels := s.channels[j := Closed], taken := s.taken + {j})
  {
  }

  lemma ReceiverFindsIt(s: State, value: int)
    requires Reachable(s) && Enabled(s, Send(value))
    ensures s.channels[s.current.value.id].Empty?
    ensures var id := s.current.value.id;
            var stored := s.(sent := s.sent[id := value], channels := s.channels[id := Data(value)]);
            Apply(s, Send(value)) ==
            if id in s.joinWaker then Apply(stored, Wake(s.joinWaker[id].wakerType, s.joinWaker[id].id)) else stored
  {
    ReachableIsGood(s);
    SendFindsEmpty(s, value);
    SendIsApplied(s, value);
    hide Reachable, Inv, Apply;
  }

  lemma SendIsApplied(s: State, value: int)
    requires Enabled(s, Send(value)) && s.channels[s.current.value.id].Empty?
    ensures var id := s.current.value.id;
            var stored := s.(sent := s.sent[id := value], channels := s.channels[id := Data(value)]);
            Apply(s, Send(value)) ==
            if id in s.joinWaker then Apply(stored, Wake(s.joinWaker[id].wakerType, s.joinWaker[id].id)) else stored
  {
  }

  lemma ProcessWokenIsApplied(s: State, t: WakerType)
    requires Enabled(s, ProcessWoken(t))
    ensures var woken := RegistryOf(s, t).woken;
            Apply(s, ProcessWoken(t)) ==
            s.(ready := s.ready + Roused(s.waiting, woken), waiting := StillWaiting(s.waiting, woken),
               local := if t.SingleThreaded? then s.local.(woken := []) else s.local,
               shared := if t.SingleThreaded? then s.shared else s.shared.(woken := []))
  {
  }

  lemma EndReadyIsApplied(s: State)
    requires Enabled(s, EndReady)
    ensures Apply(s, EndReady) ==
            s.(current := None, finished := s.finished + {s.current.value.id},
               local := Forget(s.local, s.current.value.id), shared := Forget(s.shared, s.current.value.id))
  {
  }

  lemma EndPendingIsApplied(s: State)
    requires Enabled(s, EndPending)
    ensures Apply(s, EndPending) == s.(current := None, waiting := s.waiting[s.current.value.id := s.current.value])
  {
  }
}
