/** What a play of the loop achieves: every action of a poll happens, and what can finish does. */
module Plays {
  import opened Options
  import opened Executor
  import opened ExecutorProofs
  import opened Passes
  import opened Turns

  // ------------------------------------------------------ what a poll cannot touch

  /** One action leaves the queue, the waiting, the finished and the poll in progress alone. */
  lemma ActionKeeps(s: State, a: Action)
    requires Reachable(s) && s.current.Some?
    ensures var r := Step(s, EventOf(a));
            && Reachable(r) && r.current == s.current && r.ready == s.ready && r.waiting == s.waiting
            && r.finished == s.finished && r.sent == s.sent && s.fired <= r.fired && s.taken <= r.taken
            && s.pendingSpawns <= r.pendingSpawns && (!a.SpawnTask? ==> r.pendingSpawns == s.pendingSpawns)
            && r.nextId == s.nextId + if a.SpawnTask? then 1 else 0
  {
    var e := EventOf(a);
    if Enabled(s, e) {
      StepReaches(s, e);
      match a
      case SpawnTask(t, joinable) => SpawnIsApplied(s, t, joinable);
      case WakeTask(t, id) => WakeIsApplied(s, t, id);
      case PollHandle(j) => PollJoinIsApplied(s, j);
    }
    hide Reachable;
  }

  /** A spawn is of the kind asked for, and can be joined exactly when asked to be. */
  lemma SpawnsAreAsAsked(s: State, a: Action)
    requires Reachable(s) && a.SpawnTask?
    ensures var r := Step(s, EventOf(a));
            && s.nextId in r.kind && r.kind[s.nextId] == a.wakerType && (s.nextId in r.channels <==> a.joinable)
            && r.pendingSpawns == s.pendingSpawns + [Task(s.nextId, a.wakerType)]
  {
    NextIdIsNew(s);
    SpawnIsApplied(s, a.wakerType, a.joinable);
  }

  /** How many tasks a poll spawns. */
  ghost function SpawnCount(actions: seq<Action>): nat
    decreases |actions|
  {
    var n := |actions| - 1;
    if n < 0 then 0 else SpawnCount(actions[..n]) + if actions[n].SpawnTask? then 1 else 0
  }

  /** So do all of them together, and every spawn among them takes an id. */
  lemma {:induction false} ActionsKeep(s: State, actions: seq<Action>)
    requires Reachable(s) && s.current.Some?
    ensures var r := Acted(s, actions);
            && Reachable(r) && r.current == s.current && r.ready == s.ready && r.waiting == s.waiting
            && r.finished == s.finished && r.sent == s.sent && s.fired <= r.fired && s.taken <= r.taken
            && s.pendingSpawns <= r.pendingSpawns && (SpawnCount(actions) == 0 ==> r.pendingSpawns == s.pendingSpawns)
            && r.nextId == s.nextId + SpawnCount(actions)
    decreases |actions|
  {
    hide Reachable, Step;
    var n := |actions| - 1;
    if n >= 0 {
      ActionsKeep(s, actions[..n]);
      ActionKeeps(Acted(s, actions[..n]), actions[n]);
    }
  }

  /** Actions `i` and after, played on what the ones before left. */
  lemma {:induction false} ActedSplits(s: State, actions: seq<Action>, i: nat)
    requires i <= |actions|
    ensures Acted(s, actions) == Acted(Acted(s, actions[..i]), actions[i..])
    decreases |actions|
  {
    hide Step;
    var n := |actions| - 1;
    if i == |actions| {
      assert actions[..i] == actions && actions[i..] == [];
    } else {
      ActedSplits(s, actions[..n], i);
      assert actions[..n][..i] == actions[..i] && actions[..n][i..] == actions[i..][..n - i];
      assert actions[i..][n - i] == actions[n];
    }
  }

  /** Every wake of a poll fires its task, if it goes to the task's own registry. */
  lemma WakesHappen(s: State, actions: seq<Action>, i: nat)
    requires Reachable(s) && s.current.Some? && i < |actions| && actions[i].WakeTask?
    requires var m := Acted(s, actions[..i]);
             actions[i].id in m.kind && m.kind[actions[i].id] == actions[i].registry
    ensures actions[i].id in Acted(s, actions).fired
  {
    var m, a := Acted(s, actions[..i]), actions[i];
    ActionsKeep(s, actions[..i]);
    WakeIsApplied(m, a.registry, a.id);
    ActedExtends(s, actions, i);
    ActionKeeps(m, a);
    ActedSplits(s, actions, i + 1);
    ActionsKeep(Step(m, EventOf(a)), actions[i + 1..]);
    hide Reachable, Acted, Apply;
  }

  /** Every poll of a handle that holds a value takes it. */
  lemma HandlesArePolled(s: State, actions: seq<Action>, i: nat)
    requires Reachable(s) && s.current.Some? && i < |actions| && actions[i].PollHandle?
    requires var m := Acted(s, actions[..i]); actions[i].joined in m.channels && m.channels[actions[i].joined].Data?
    ensures actions[i].joined in Acted(s, actions).taken
  {
    var m, a := Acted(s, actions[..i]), actions[i];
    ActionsKeep(s, actions[..i]);
    CurrentIsPolled(m);
    PollJoinIsApplied(m, a.joined);
    ActedExtends(s, actions, i);
    ActionKeeps(m, a);
    ActedSplits(s, actions, i + 1);
    ActionsKeep(Step(m, EventOf(a)), actions[i + 1..]);
    hide Reachable, Acted, Apply;
  }

  // ------------------------------------------------------------- how a poll ends

  /** Ready: the task is finished, and whoever can join it has its value. */
  lemma ReadyFinishes(s: State, value: int)
    requires Reachable(s) && s.current.Some?
    ensures var id, r := s.current.value.id, Ended(s, true, value);
            && Reachable(r) && r.current.None? && r.ready == s.ready && r.waiting == s.waiting
            && r.pendingSpawns == s.pendingSpawns && r.finished == s.finished + {id}
            && r.nextId == s.nextId && s.fired <= r.fired && r.taken == s.taken
            && (id in s.channels && id !in s.sent ==> id in r.sent && r.sent[id] == value)
  {
    var m := Step(s, Send(value));
    SendKeepsTheRest(s, value);
    EndReadyIsApplied(m);
    StepReaches(m, EndReady);
    hide Reachable, Apply;
  }

  lemma SendKeepsTheRest(s: State, value: int)
    requires Reachable(s) && s.current.Some?
    ensures var id, m := s.current.value.id, Step(s, Send(value));
            && Reachable(m) && m.current == s.current && m.ready == s.ready && m.waiting == s.waiting
            && m.pendingSpawns == s.pendingSpawns && m.finished == s.finished && Enabled(m, EndReady)
            && m.nextId == s.nextId && s.fired <= m.fired && m.taken == s.taken
            && (id in s.channels && id !in s.sent ==> id in m.sent && m.sent[id] == value)
  {
    if Enabled(s, Send(value)) {
      var id := s.current.value.id;
      StepReaches(s, Send(value));
      ReceiverFindsIt(s, value);
      var stored := s.(sent := s.sent[id := value], channels := s.channels[id := Data(value)]);
      if id in s.joinWaker {
        WakeIsApplied(stored, s.joinWaker[id].wakerType, s.joinWaker[id].id);
      }
    }
    hide Reachable, Apply;
  }

  /** Pending: the task waits. */
  lemma PendingWaits(s: State, value: int)
    requires Reachable(s) && s.current.Some? && s.current.value.id !in s.sent
    ensures var t, r := s.current.value, Ended(s, false, value);
            && Reachable(r) && r.current.None? && r.ready == s.ready && r.waiting == s.waiting[t.id := t]
            && r.pendingSpawns == s.pendingSpawns && r.finished == s.finished
            && r.nextId == s.nextId && r.fired == s.fired && r.taken == s.taken
  {
    EndPendingIsApplied(s);
    StepReaches(s, EndPending);
    hide Reachable, Apply;
  }

  /** One whole poll: the front task leaves the queue, everything it does happens, and it finishes exactly when it is ready. */
  lemma PollTakesTheFront(s: State, turn: Turn)
    requires Reachable(s) && s.current.None? && s.ready != []
    ensures var p, id := PolledOnce(s, turn), s.ready[0].id;
            && Reachable(p) && p.current.None? && p.ready == s.ready[1..] && s.pendingSpawns <= p.pendingSpawns
            && p.finished == (if turn.ready then s.finished + {id} else s.finished) && id !in s.finished
            && p.waiting == (if turn.ready then s.waiting else s.waiting[id := s.ready[0]])
            && (SpawnCount(turn.actions) == 0 ==> p.pendingSpawns == s.pendingSpawns)
            && p.nextId == s.nextId + SpawnCount(turn.actions)
            && (var done := Acted(Step(s, BeginPoll), turn.actions); done.fired <= p.fired && done.taken <= p.taken)
  {
    var begun := Step(s, BeginPoll);
    FrontIsFresh(s);
    BeginPollIsApplied(s);
    StepReaches(s, BeginPoll);
    DoBeginPollKeeps(s);
    hide Reachable, Apply;
    ActionsKeep(begun, turn.actions);
    var m := Acted(begun, turn.actions);
    if turn.ready {
      ReadyFinishes(m, turn.value);
    } else {
      PendingWaits(m, turn.value);
    }
    hide Acted, Ended;
  }

  lemma DoBeginPollKeeps(s: State)
    requires Enabled(s, BeginPoll)
    ensures Apply(s, BeginPoll).sent == s.sent && Apply(s, BeginPoll).nextId == s.nextId
  {
  }

  /** Wakes from other threads move nothing, and each reaches its thread-safe task. */
  lemma {:induction false} OutsideWakesLand(s: State, ids: seq<TaskId>)
    requires Reachable(s)
    ensures var r := WokenOutside(s, ids);
            && Reachable(r) && r.current == s.current && r.ready == s.ready && r.waiting == s.waiting
            && r.pendingSpawns == s.pendingSpawns && r.finished == s.finished && s.fired <= r.fired && r.kind == s.kind
            && r.shared.wakers == s.shared.wakers && s.shared.woken <= r.shared.woken && r.local == s.local
            && (forall id | id in ids && id in s.kind && s.kind[id].ThreadSafe? :: id in r.fired)
            && (forall id | id in ids && id in s.shared.wakers :: id in r.shared.woken)
    decreases |ids|
  {
    var n := |ids| - 1;
    if n >= 0 {
      OutsideWakesLand(s, ids[..n]);
      var m := WokenOutside(s, ids[..n]);
      WakeIsApplied(m, ThreadSafe, ids[n]);
      StepReaches(m, Wake(ThreadSafe, ids[n]));
      assert forall id | id in ids :: id in ids[..n] || id == ids[n];
    }
    hide Reachable, Apply;
  }

  /** A poll and the spawns and wakes after it: the queue loses its front and gains what was spawned. */
  lemma TurnTakesTheFront(s: State, turn: Turn)
    requires Reachable(s) && s.current.None? && s.ready != [] && s.pendingSpawns == []
    ensures var p, id := Step(PolledOnce(s, turn), TakeSpawns), s.ready[0].id;
            var r := WokenOutside(p, turn.outside);
            && Reachable(r) && r.current.None? && s.ready[1..] <= r.ready && r.pendingSpawns == []
            && r.finished == p.finished == (if turn.ready then s.finished + {id} else s.finished) && id !in s.finished
            && (turn.ready && SpawnCount(turn.actions) == 0 ==> r.ready == s.ready[1..] && r.waiting == s.waiting)
  {
    var m := PolledOnce(s, turn);
    PollTakesTheFront(s, turn);
    TakeSpawnsIsApplied(m);
    StepReaches(m, TakeSpawns);
    var p := Apply(m, TakeSpawns);
    OutsideWakesLand(p, turn.outside);
    hide Reachable, Apply, PolledOnce, WokenOutside;
  }

  // ------------------------------------------------------------------- processing

  /** After both registries are processed, first come those the local one woke, and nobody woken is left out. */
  lemma ProcessingReadies(s: State, ids: seq<TaskId>)
    requires Reachable(s) && s.current.None?
    ensures var r := Processed(s, ids);
            && s.ready + Roused(s.waiting, s.local.woken) <= r.ready
            && (forall id | id in s.waiting && id in s.fired :: s.waiting[id] in r.ready)
            && r.finished == s.finished && r.current.None? && r.pendingSpawns == s.pendingSpawns && Reachable(r)
            && (s.waiting == map[] ==> r.ready == s.ready && r.waiting == map[])
  {
    var first := Step(s, ProcessWoken(SingleThreaded));
    var both := Step(first, ProcessWoken(ThreadSafe));
    ProcessWokenIsApplied(s, SingleThreaded);
    StepReaches(s, ProcessWoken(SingleThreaded));
    ProcessWokenIsApplied(first, ThreadSafe);
    StepReaches(first, ProcessWoken(ThreadSafe));
    OutsideWakesLand(both, ids);
    ReachableIsGood(s);
    forall id | id in s.waiting && id in s.fired
      ensures s.waiting[id] in both.ready
    {
      ProcessedIsQueued(s, id);
    }
    if s.waiting == map[] {
      NobodyIsRoused(s.local.woken);
      NobodyIsRoused(first.shared.woken);
      assert first.waiting == map[];
    }
    hide Reachable, Apply, Inv, WokenOutside, Roused;
  }

  lemma {:induction false} NobodyIsRoused(woken: seq<TaskId>)
    ensures Roused(map[], woken) == []
    decreases |woken|
  {
    if woken != [] {
      NobodyIsRoused(woken[1..]);
    }
  }

  // --------------------------------------------------------------------- progress

  /** A task at place `k` of the queue is polled by the `k`th turn, and if it is then ready the drain stops with it. */
  lemma {:induction false} GoalIsReached(s: State, goal: TaskId, env: nat -> Turn, from: nat, fuel: nat, k: nat)
    requires Reachable(s) && s.current.None? && s.pendingSpawns == [] && k < |s.ready| && s.ready[k].id == goal
    requires from + k < fuel && env(from + k).ready && goal !in s.finished
    ensures var d := DrainPlay(s, Some(goal), env, from, fuel);
            d.stopped && d.tick == from + k + 1 && goal in d.state.finished
    decreases k
  {
    hide Reachable, Step, PolledOnce, WokenOutside, DrainPlay, SpawnCount;
    var turn := env(from);
    TurnTakesTheFront(s, turn);
    DrainPlayGoesOn(s, Some(goal), env, from, fuel);
    if k > 0 {
      DifferentPlaces(s, k);
      var next := WokenOutside(Step(PolledOnce(s, turn), TakeSpawns), turn.outside);
      assert next.ready[k - 1] == s.ready[1..][k - 1];
      assert s.ready[1..][k - 1] == s.ready[k];
      GoalIsReached(next, goal, env, from + 1, fuel, k - 1);
    }
  }

  lemma DifferentPlaces(s: State, k: nat)
    requires Reachable(s) && 0 < k < |s.ready|
    ensures s.ready[0].id != s.ready[k].id
  {
    ReachableIsGood(s);
    var ids := IdsOf(s.ready);
    if ids[0] == ids[k] {
      TwiceCountsTwo(ids, k);
      OnlyOnePlace(s, ids[0]);
    }
  }

  lemma TwiceCountsTwo(ids: seq<TaskId>, k: nat)
    requires 0 < k < |ids| && ids[0] == ids[k]
    ensures multiset(ids)[ids[0]] >= 2
  {
    assert ids == [ids[0]] + ids[1..];
    assert ids[1..][k - 1] == ids[0];
  }

  /** A future ready at its first poll is returned by its place in the queue, whatever the tasks before it do. */
  lemma NewestIsReached(s: State, goal: TaskId, env: nat -> Turn, fuel: nat)
    requires Reachable(s) && s.current.None? && s.pendingSpawns != []
    requires s.pendingSpawns[|s.pendingSpawns| - 1].id == goal && goal !in s.finished
    requires var n := |s.ready| + |s.pendingSpawns|; fuel >= n + 1 && env(n).ready
    ensures var n, e := |s.ready| + |s.pendingSpawns|, LoopPlay(s, Some(goal), env, 0, fuel);
            e.exit.Stopped? && e.tick == n + 1
  {
    var n := |s.ready| + |s.pendingSpawns|;
    var taken := Step(s, TakeSpawns);
    TakeSpawnsIsApplied(s);
    StepReaches(s, TakeSpawns);
    assert taken.ready[n - 1] == s.pendingSpawns[|s.pendingSpawns| - 1];
    hide Reachable, Apply, Step, DrainPlay;
    GoalIsReached(taken, goal, env, 1, fuel, n - 1);
  }

  ghost predicate AllReady(env: nat -> Turn) {
    forall k: nat :: env(k).ready && SpawnCount(env(k).actions) == 0
  }

  /** Turns that are ready and spawn nothing empty the queue, one each. */
  lemma {:induction false} AllAreFinished(s: State, env: nat -> Turn, from: nat, fuel: nat)
    requires Reachable(s) && s.current.None? && s.pendingSpawns == [] && AllReady(env) && from + |s.ready| <= fuel
    ensures var d := DrainPlay(s, None, env, from, fuel);
            && !d.stopped && d.tick == from + |s.ready| && d.state.ready == [] && d.state.waiting == s.waiting
            && d.state.pendingSpawns == [] && d.state.current.None? && Reachable(d.state)
    decreases |s.ready|
  {
    hide Reachable, Step, PolledOnce, WokenOutside, DrainPlay, SpawnCount;
    if s.ready == [] {
      DrainPlayStops(s, None, env, from, fuel);
    } else {
      var turn := env(from);
      TurnTakesTheFront(s, turn);
      DrainPlayGoesOn(s, None, env, from, fuel);
      var next := WokenOutside(Step(PolledOnce(s, turn), TakeSpawns), turn.outside);
      AllAreFinished(next, env, from + 1, fuel);
    }
  }

  /** With nobody waiting and every turn ready, the loop polls each task once and is done. */
  lemma EverythingFinishes(s: State, env: nat -> Turn, fuel: nat)
    requires Reachable(s) && s.current.None? && s.waiting == map[] && AllReady(env)
    requires fuel >= |s.ready| + |s.pendingSpawns| + 2
    ensures var n, e := |s.ready| + |s.pendingSpawns|, LoopPlay(s, None, env, 0, fuel);
            e.exit.Drained? && e.tick == if n == 0 then 0 else n + 1
  {
    var n := |s.ready| + |s.pendingSpawns|;
    var taken := Step(s, TakeSpawns);
    TakeSpawnsIsApplied(s);
    StepReaches(s, TakeSpawns);
    hide Reachable, Apply, Step, DrainPlay, Processed;
    if n > 0 {
      AllAreFinished(taken, env, 1, fuel);
      var d := DrainPlay(taken, None, env, 1, fuel);
      var next := Processed(d.state, env(0).outside);
      ProcessingReadies(d.state, env(0).outside);
      IdleAtOnce(next, env, n + 1, fuel);
    }
  }

  lemma IdleAtOnce(s: State, env: nat -> Turn, from: nat, fuel: nat)
    requires from < fuel && s.current.None? && s.ready == [] && s.waiting == map[] && s.pendingSpawns == []
    ensures var e := LoopPlay(s, None, env, from, fuel); e.exit.Drained? && e.tick == from
  {
    TakeSpawnsIsApplied(s);
    hide Apply, DrainPlay;
  }
}
