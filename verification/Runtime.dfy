/**
 The executor as the program keeps it: a ready queue, a waiting map, two waker
 registries, a spawner and the join channels, each changed in place. Every method
 is tied to the steps of the state machine in `Executor`.
 */
module Runtime {
  import opened Options
  import opened Executor
  import opened ExecutorProofs
  import opened Passes
  import opened Turns
  import opened Plays

  /** A registry of wakers, single-threaded or behind a lock. */
  class WakerRegistry {
    var wakers: set<TaskId>
    var woken: seq<TaskId>

    constructor ()
      ensures View() == Registry({}, [])
    {
      wakers, woken := {}, [];
    }

    function View(): Registry
      reads this
    {
      Registry(wakers, woken)
    }

    method RegisterWaker(id: TaskId)
      modifies this
      ensures View() == old(View()).(wakers := old(wakers) + {id})
    {
      wakers := wakers + {id};
    }

    method RemoveWaker(id: TaskId)
      modifies this
      ensures View() == Forget(old(View()), id) && wakers == old(wakers) - {id} && woken == old(woken)
    {
      wakers := wakers - {id};
    }

    method WakeTask(id: TaskId)
      modifies this
      ensures View() == WakeIn(old(View()), id) && wakers == old(wakers)
      ensures woken == if id in old(wakers) then old(woken) + [id] else old(woken)
    {
      if id in wakers {
        woken := woken + [id];
      }
    }

    method GetAndClearWokenTasks() returns (ids: seq<TaskId>)
      modifies this
      ensures ids == old(woken) && View() == old(View()).(woken := [])
    {
      ids, woken := woken, [];
    }
  }

  /** One half of what a join handle and its task share: the value's place and the receiver's waker. */
  class OneShot {
    var state: Channel
    var waker: Option<Task>

    constructor ()
      ensures state == Empty && waker == None
    {
      state, waker := Empty, None;
    }

    /** Stores the value and tells whom to wake; a channel that is not empty refuses. */
    method Send(value: int) returns (accepted: bool, wake: Option<Task>)
      modifies this`state
      ensures accepted <==> old(state).Empty?
      ensures state == if accepted then Data(value) else old(state)
      ensures wake == if accepted then waker else None
    {
      if state.Empty? {
        state := Data(value);
        return true, waker;
      }
      return false, None;
    }

    /** Takes the value if there is one; an empty channel keeps the poller's waker. */
    method Poll(poller: Task) returns (r: JoinPoll)
      modifies this
      ensures match old(state)
              case Empty => r == Waits && state == Empty && waker == Some(poller)
              case Data(v) => r == Yields(v) && state == Closed && waker == old(waker)
              case Closed => r == RecvError && state == Closed && waker == old(waker)
    {
      match state
      case Data(v) =>
        state := Closed;
        r := Yields(v);
      case Closed =>
        r := RecvError;
      case Empty =>
        waker := Some(poller);
        r := Waits;
    }
  }

  class LocalRuntime {
    var readyQueue: seq<Task>
    var waitingTasks: map<TaskId, Task>
    var running: bool
    const local: WakerRegistry
    const shared: WakerRegistry
    var nextTaskId: TaskId
    var pendingSpawns: seq<Task>
    var joins: map<TaskId, OneShot>
    ghost var current: Option<Task>
    ghost var kind: map<TaskId, WakerType>
    ghost var finished: set<TaskId>
    ghost var fired: set<TaskId>
    ghost var awaiting: map<TaskId, set<TaskId>>
    ghost var sent: map<TaskId, int>
    ghost var taken: set<TaskId>

    ghost function Channels(): map<TaskId, Channel>
      reads this`joins, joins.Values
    {
      map j | j in joins :: joins[j].state
    }

    ghost function Receivers(): map<TaskId, Task>
      reads this`joins, joins.Values
    {
      map j | j in joins && joins[j].waker.Some? :: joins[j].waker.value
    }

    ghost function View(): State
      reads this`nextTaskId, this`pendingSpawns, this`readyQueue, this`waitingTasks, this`current, this`joins, this`kind
      reads this`finished, this`fired, this`awaiting, this`sent, this`taken, local, shared, joins.Values
    {
      State(nextTaskId, pendingSpawns, readyQueue, waitingTasks, local.View(), shared.View(), current, Channels(),
            Receivers(), kind, finished, fired, awaiting, sent, taken)
    }

    ghost predicate ChannelsAreDistinct()
      reads this`joins
    {
      forall i, j | i in joins && j in joins && i != j :: joins[i] != joins[j]
    }

    /** The state the machine can reach, kept in objects that nothing else shares. */
    ghost predicate Valid()
      reads this`nextTaskId, this`pendingSpawns, this`readyQueue, this`waitingTasks, this`current, this`joins, this`kind
      reads this`finished, this`fired, this`awaiting, this`sent, this`taken, local, shared, joins.Values
    {
      && local != shared
      && ChannelsAreDistinct()
      && Reachable(View())
    }

    constructor ()
      ensures fresh(local) && fresh(shared) && Valid() && View() == INITIAL && !running && joins == map[]
    {
      local := new WakerRegistry();
      shared := new WakerRegistry();
      readyQueue, waitingTasks, running := [], map[], false;
      nextTaskId, pendingSpawns := 0, [];
      joins, finished := map[], {};
      current, kind, fired, awaiting, sent, taken := None, map[], {}, map[], map[], {};
      new;
      assert Channels() == map[] && Receivers() == map[];
      StartIsReachable();
    }

    /** How many tasks are queued, waiting or not yet taken. */
    method PendingTasks() returns (n: nat)
      requires Valid() && current.None?
      ensures n + |finished| == nextTaskId
    {
      n := |readyQueue| + |waitingTasks| + |pendingSpawns|;
      PendingCount(View());
    }

    /** A joinable task gets a channel of its own. */
    method AddChannel(id: TaskId)
      requires ChannelsAreDistinct() && id !in joins
      modifies this`joins
      ensures ChannelsAreDistinct() && fresh(joins.Values - old(joins.Values))
      ensures Channels() == old(Channels())[id := Empty] && Receivers() == old(Receivers())
    {
      ghost var channels, receivers := Channels(), Receivers();
      var channel := new OneShot();
      assert forall j | j in joins :: joins[j] != channel;
      joins := joins[id := channel];
      assert forall j | j in joins && j != id :: joins[j].state == channels[j];
      assert Channels() == channels[id := Empty];
      hide Channels;
      assert forall j | j in joins && j != id :: joins[j].waker.Some? <==> j in receivers;
      assert Receivers().Keys == receivers.Keys;
      assert Receivers() == receivers;
    }

    /** The spawner's own work: a fresh id, and the task at the back of what is pending. */
    method Enqueue(wakerType: WakerType, joinable: bool) returns (id: TaskId)
      requires ChannelsAreDistinct() && nextTaskId !in joins
      modifies this`nextTaskId, this`pendingSpawns, this`kind, this`joins
      ensures ChannelsAreDistinct() && fresh(joins.Values - old(joins.Values)) && id == old(nextTaskId)
      ensures nextTaskId == id + 1 && pendingSpawns == old(pendingSpawns) + [Task(id, wakerType)]
      ensures kind == old(kind)[id := wakerType] && Receivers() == old(Receivers())
      ensures Channels() == if joinable then old(Channels())[id := Empty] else old(Channels())
    {
      hide ChannelsAreDistinct, Channels, Receivers;
      id := nextTaskId;
      nextTaskId := nextTaskId + 1;
      pendingSpawns := pendingSpawns + [Task(id, wakerType)];
      kind := kind[id := wakerType];
      if joinable {
        AddChannel(id);
      }
    }

    /** Queues a task for the next time spawns are taken. */
    method Spawn(wakerType: WakerType, joinable: bool) returns (id: TaskId)
      requires Valid()
      modifies this`nextTaskId, this`pendingSpawns, this`kind, this`joins
      ensures Valid() && View() == Apply(old(View()), Event.Spawn(wakerType, joinable))
      ensures id == old(nextTaskId) == nextTaskId - 1 && id !in finished && fresh(joins.Values - old(joins.Values))
    {
      ViewFacts();
      hide Reachable, Apply, Channels, Receivers, ChannelsAreDistinct;
      ghost var before := View();
      SpawnIsApplied(before, wakerType, joinable);
      StepReaches(before, Event.Spawn(wakerType, joinable));
      NextIdIsNew(before);
      id := Enqueue(wakerType, joinable);
    }

    /** Fires a waker, from whichever thread holds it. */
    method FireWaker(wakerType: WakerType, id: TaskId)
      requires local != shared
      modifies this`fired, local, shared
      ensures View() == Apply(old(View()), Event.Wake(wakerType, id))
    {
      hide Reachable, Apply, Channels, Receivers, ChannelsAreDistinct;
      WakeIsApplied(View(), wakerType, id);
      if wakerType.SingleThreaded? {
        local.WakeTask(id);
      } else {
        shared.WakeTask(id);
      }
      if id in kind && kind[id] == wakerType {
        fired := fired + {id};
      }
    }

    method Wake(wakerType: WakerType, id: TaskId)
      requires Valid()
      modifies this`fired, local, shared
      ensures Valid() && View() == Apply(old(View()), Event.Wake(wakerType, id))
    {
      hide Reachable, Apply, Channels, Receivers, ChannelsAreDistinct;
      StepReaches(View(), Event.Wake(wakerType, id));
      FireWaker(wakerType, id);
    }

    method ProcessNewSpawns()
      requires Valid() && current.None?
      modifies this`readyQueue, this`pendingSpawns
      ensures Enabled(old(View()), TakeSpawns)
      ensures Valid() && View() == Apply(old(View()), TakeSpawns) && pendingSpawns == []
    {
      hide Reachable, Apply, Channels, Receivers, ChannelsAreDistinct;
      TakeSpawnsIsApplied(View());
      StepReaches(View(), TakeSpawns);
      var spawned := pendingSpawns;
      pendingSpawns := [];
      PushAll(spawned);
    }

    method PushAll(tasks: seq<Task>)
      modifies this`readyQueue
      ensures readyQueue == old(readyQueue) + tasks
    {
      for i := 0 to |tasks|
        invariant readyQueue == old(readyQueue) + tasks[..i]
      {
        readyQueue := readyQueue + [tasks[i]];
      }
      assert tasks[..|tasks|] == tasks;
    }

    /** Moves the woken tasks of one registry that are found waiting to the back of the queue. */
    method ProcessWokenTasks(wakerType: WakerType)
      requires Valid() && current.None?
      modifies this`readyQueue, this`waitingTasks, local, shared
      ensures Valid() && View() == Apply(old(View()), ProcessWoken(wakerType))
    {
      hide Reachable, Apply, Channels, Receivers, ChannelsAreDistinct;
      ghost var before := View();
      StepReaches(before, ProcessWoken(wakerType));
      ProcessWokenIsApplied(before, wakerType);
      var woken;
      if wakerType.SingleThreaded? {
        woken := local.GetAndClearWokenTasks();
      } else {
        woken := shared.GetAndClearWokenTasks();
      }
      MoveWoken(woken);
    }

    method MoveWoken(woken: seq<TaskId>)
      modifies this`readyQueue, this`waitingTasks
      ensures readyQueue == old(readyQueue) + Roused(old(waitingTasks), woken)
      ensures waitingTasks == StillWaiting(old(waitingTasks), woken)
    {
      for i := 0 to |woken|
        invariant readyQueue + Roused(waitingTasks, woken[i..]) == old(readyQueue) + Roused(old(waitingTasks), woken)
        invariant waitingTasks == StillWaiting(old(waitingTasks), woken[..i])
      {
        var id := woken[i];
        assert woken[i..][1..] == woken[i + 1..];
        assert woken[..i + 1] == woken[..i] + [id];
        if id in waitingTasks {
          readyQueue := readyQueue + [waitingTasks[id]];
          waitingTasks := waitingTasks - {id};
        }
      }
      assert woken[|woken|..] == [] && woken[..|woken|] == woken;
    }

    method RegisterWaker(task: Task)
      requires local != shared
      modifies local, shared
      ensures local.View() == if task.wakerType.SingleThreaded?
                              then old(local.View()).(wakers := old(local.View()).wakers + {task.id}) else old(local.View())
      ensures shared.View() == if task.wakerType.SingleThreaded?
                               then old(shared.View()) else old(shared.View()).(wakers := old(shared.View()).wakers + {task.id})
    {
      if task.wakerType.SingleThreaded? {
        local.RegisterWaker(task.id);
      } else {
        shared.RegisterWaker(task.id);
      }
    }

    /** The front task leaves the queue, with a fresh waker and no wake of its own on record. */
    method TakeFront() returns (task: Task)
      requires local != shared && readyQueue != []
      modifies this`readyQueue, this`current, this`fired, this`awaiting, local, shared
      ensures task == old(readyQueue)[0] && readyQueue == old(readyQueue)[1..] && current == Some(task)
      ensures fired == old(fired) - {task.id} && awaiting == old(awaiting)[task.id := {}]
      ensures local.View() == if task.wakerType.SingleThreaded?
                              then old(local.View()).(wakers := old(local.View()).wakers + {task.id}) else old(local.View())
      ensures shared.View() == if task.wakerType.SingleThreaded?
                               then old(shared.View()) else old(shared.View()).(wakers := old(shared.View()).wakers + {task.id})
    {
      task := readyQueue[0];
      readyQueue := readyQueue[1..];
      RegisterWaker(task);
      current, fired, awaiting := Some(task), fired - {task.id}, awaiting[task.id := {}];
    }

    /** Takes the front task in hand and registers its waker. */
    method PopFront() returns (task: Task)
      requires Valid() && current.None? && readyQueue != []
      modifies this`readyQueue, this`current, this`fired, this`awaiting, local, shared
      ensures Enabled(old(View()), BeginPoll)
      ensures Valid() && View() == Apply(old(View()), BeginPoll) == Step(old(View()), BeginPoll)
      ensures task == old(readyQueue)[0] && current == Some(task) && task.id !in sent && task.id !in finished
    {
      hide Reachable, Apply, Channels, Receivers, ChannelsAreDistinct;
      ghost var before := View();
      StepReaches(before, BeginPoll);
      BeginPollIsApplied(before);
      FrontIsFresh(before);
      task := TakeFront();
      assert View() == Apply(before, BeginPoll);
    }

    method PollChannel(task: Task, j: TaskId) returns (r: JoinPoll)
      requires ChannelsAreDistinct() && j in joins
      modifies joins[j]
      ensures r == match old(Channels())[j] case Empty => Waits case Data(v) => Yields(v) case Closed => RecvError
      ensures Channels() == if r.Waits? then old(Channels()) else old(Channels())[j := Closed]
      ensures Receivers() == if r.Waits? then old(Receivers())[j := task] else old(Receivers())
    {
      r := joins[j].Poll(task);
    }

    method PollAndNote(task: Task, j: TaskId) returns (r: JoinPoll)
      requires ChannelsAreDistinct() && j in joins && task.id in awaiting
      modifies this`awaiting, this`taken, joins[j]
      ensures r == match old(Channels())[j] case Empty => Waits case Data(v) => Yields(v) case Closed => RecvError
      ensures Channels() == if r.Waits? then old(Channels()) else old(Channels())[j := Closed]
      ensures Receivers() == if r.Waits? then old(Receivers())[j := task] else old(Receivers())
      ensures awaiting == if r.Waits? then old(awaiting)[task.id := old(awaiting)[task.id] + {j}] else old(awaiting)
      ensures taken == if r.Waits? then old(taken) else old(taken) + {j}
    {
      r := PollChannel(task, j);
      hide Channels, Receivers, ChannelsAreDistinct;
      if r.Waits? {
        awaiting := awaiting[task.id := awaiting[task.id] + {j}];
      } else {
        taken := taken + {j};
      }
    }

    /** Polling a join handle from the task in hand. */
    method PollJoinHandle(task: Task, j: TaskId) returns (r: JoinPoll)
      requires Valid() && current == Some(task) && j in joins
      modifies this`awaiting, this`taken, joins[j]
      ensures r == JoinResult(old(View()), j)
      ensures Valid() && Enabled(old(View()), PollJoin(j)) && View() == Apply(old(View()), PollJoin(j))
    {
      hide Reachable, Apply, Receivers, ChannelsAreDistinct;
      ghost var before := View();
      CurrentIsPolled(before);
      PollJoinIsApplied(before, j);
      StepReaches(before, PollJoin(j));
      r := PollAndNote(task, j);
      assert View() == Apply(before, PollJoin(j));
    }

    /** An empty channel accepts the value and names whoever waits on it. */
    method SendTo(id: TaskId, value: int) returns (waiter: Option<Task>)
      requires ChannelsAreDistinct() && id in joins && Channels()[id].Empty?
      modifies joins[id]
      ensures Channels() == old(Channels())[id := Data(value)] && Receivers() == old(Receivers())
      ensures waiter == if id in Receivers() then Some(Receivers()[id]) else None
    {
      var accepted;
      accepted, waiter := joins[id].Send(value);
      assert accepted;
    }

    /** The wrapper around a joinable task's future, sending its output: the channel always accepts it. */
    method SendOutput(task: Task, value: int)
      requires Valid() && current == Some(task) && task.id in joins && task.id !in sent
      modifies this`sent, this`fired, local, shared, joins[task.id]
      ensures Enabled(old(View()), Send(value))
      ensures Valid() && View() == Apply(old(View()), Send(value)) && task.id in sent
    {
      hide Reachable, Apply, Receivers, ChannelsAreDistinct;
      ghost var before := View();
      StepReaches(before, Send(value));
      ReceiverFindsIt(before, value);
      sent := sent[task.id := value];
      var waiter := SendTo(task.id, value);
      if waiter.Some? {
        WakeIsApplied(View(), waiter.value.wakerType, waiter.value.id);
        FireWaker(waiter.value.wakerType, waiter.value.id);
      }
      assert View() == Apply(before, Send(value));
    }

    /** One thing a future does while it is polled; a handle it does not hold is not polled. */
    method Perform(task: Task, action: Action) returns (ghost events: seq<Event>)
      requires Valid() && current == Some(task)
      modifies this`nextTaskId, this`pendingSpawns, this`kind, this`joins, this`fired, this`awaiting, this`taken
      modifies local, shared, joins.Values
      ensures Valid() && View() == Step(old(View()), EventOf(action))
      ensures Runs(old(View()), events, View()) && WithoutProcessing(events) && WithoutPolls(events)
      ensures fresh(joins.Values - old(joins.Values)) && old(nextTaskId) <= nextTaskId
    {
      hide Polled;
      hide Reachable, Apply, Runs;
      ghost var before := View();
      RunsNothing(before);
      events := [];
      match action
      case SpawnTask(wakerType, joinable) =>
        RunsExtend(before, [], before, Event.Spawn(wakerType, joinable));
        var _ := Spawn(wakerType, joinable);
        events := [] + [Event.Spawn(wakerType, joinable)];
      case WakeTask(wakerType, id) =>
        RunsExtend(before, [], before, Event.Wake(wakerType, id));
        Wake(wakerType, id);
        events := [] + [Event.Wake(wakerType, id)];
      case PollHandle(j) =>
        if j in joins {
          CurrentIsPolled(before);
          RunsExtend(before, [], before, PollJoin(j));
          var _ := PollJoinHandle(task, j);
          events := [] + [PollJoin(j)];
        }
    }

    method DropWakers(id: TaskId)
      requires local != shared
      modifies this`current, this`finished, local, shared
      ensures local.View() == Forget(old(local.View()), id) && shared.View() == Forget(old(shared.View()), id)
      ensures current.None? && finished == old(finished) + {id}
      ensures Channels() == old(Channels()) && Receivers() == old(Receivers())
    {
      hide Channels, Receivers;
      local.RemoveWaker(id);
      shared.RemoveWaker(id);
      current, finished := None, finished + {id};
    }

    /** A ready task is done: its wakers are dropped. */
    method Finish(task: Task)
      requires Valid() && current == Some(task) && (task.id in joins ==> task.id in sent)
      modifies this`current, this`finished, local, shared
      ensures Valid() && Enabled(old(View()), EndReady) && View() == Apply(old(View()), EndReady)
      ensures current.None? && finished == old(finished) + {task.id}
    {
      ViewFacts();
      hide Reachable, Apply, Channels, Receivers, ChannelsAreDistinct, Forget;
      ghost var before := View();
      StepReaches(before, EndReady);
      EndReadyIsApplied(before);
      DropWakers(task.id);
      assert View() == Apply(before, EndReady);
    }

    /** A pending task waits to be woken. */
    method Suspend(task: Task)
      requires Valid() && current == Some(task) && task.id !in sent
      modifies this`current, this`waitingTasks
      ensures Enabled(old(View()), EndPending)
      ensures Valid() && View() == Apply(old(View()), EndPending)
      ensures current.None?
    {
      hide Reachable, Apply, Channels, Receivers;
      StepReaches(View(), EndPending);
      EndPendingIsApplied(View());
      waitingTasks := waitingTasks[task.id := task];
      current := None;
    }

    /** The end of a poll. */
    method EndPoll(task: Task, ready: bool, value: int) returns (ghost events: seq<Event>)
      requires Valid() && current == Some(task) && task.id !in sent
      modifies this`waitingTasks, this`current, this`finished, this`sent, this`fired, local, shared, joins.Values
      ensures Valid() && Runs(old(View()), events, View()) && WithoutProcessing(events) && WithoutPolls(events)
      ensures View() == Ended(old(View()), ready, value)
      ensures current.None? && finished == if ready then old(finished) + {task.id} else old(finished)
    {
      hide Apply, Runs, Polled, Valid, View, Channels, Receivers;
      events := [];
      ghost var start := View();
      ViewFacts();
      RunsNothing(start);
      if ready {
        if task.id in joins {
          SendOutput(task, value);
          RunsExtend(start, events, start, Send(value));
          events := events + [Send(value)];
        }
        ghost var middle := View();
        Finish(task);
        RunsExtend(start, events, middle, EndReady);
        events := events + [EndReady];
      } else {
        Suspend(task);
        RunsExtend(start, events, start, EndPending);
        events := events + [EndPending];
      }
    }

    /** Wakes that other threads land between two steps of the loop. */
    method OutsideWakes(ids: seq<TaskId>) returns (ghost events: seq<Event>)
      requires Valid()
      modifies this`fired, local, shared
      ensures Valid() && Runs(old(View()), events, View()) && OnlyWakes(events)
      ensures View() == WokenOutside(old(View()), ids)
    {
      hide Reachable, Apply, Runs, Polled, Channels, Receivers;
      events := [];
      ghost var start := View();
      RunsNothing(start);
      for i := 0 to |ids|
        invariant Valid() && Runs(start, events, View()) && OnlyWakes(events)
        invariant View() == WokenOutside(start, ids[..i])
      {
        WokenExtends(start, ids, i);
        ghost var now := View();
        RunsExtend(start, events, now, Event.Wake(ThreadSafe, ids[i]));
        Wake(ThreadSafe, ids[i]);
        events := events + [Event.Wake(ThreadSafe, ids[i])];
      }
      assert ids[..|ids|] == ids;
    }

    /** The wakes of both registries, and those that land before the next pass. */
    method ProcessAll(ids: seq<TaskId>) returns (ghost outside: seq<Event>)
      requires Valid() && current.None?
      modifies this`readyQueue, this`waitingTasks, this`fired, local, shared
      ensures Valid() && OnlyWakes(outside) && Runs(old(View()), PROCESSING + outside, View())
      ensures View() == Processed(old(View()), ids)
    {
      hide Reachable, Apply, Runs, Polled;
      ghost var start := View();
      RunsNothing(start);
      RunsExtend(start, [], start, ProcessWoken(SingleThreaded));
      ProcessWokenTasks(SingleThreaded);
      RunsExtend(start, [] + [ProcessWoken(SingleThreaded)], View(), ProcessWoken(ThreadSafe));
      ProcessWokenTasks(ThreadSafe);
      assert [] + [ProcessWoken(SingleThreaded)] + [ProcessWoken(ThreadSafe)] == PROCESSING;
      ghost var now := View();
      outside := OutsideWakes(ids);
      RunsConcat(start, PROCESSING, now, outside, View());
    }

    /** Everything a future does in one poll, in order. */
    method PerformAll(task: Task, actions: seq<Action>) returns (ghost events: seq<Event>)
      requires Valid() && current == Some(task)
      modifies this`nextTaskId, this`pendingSpawns, this`kind, this`joins, this`fired, this`awaiting, this`taken
      modifies local, shared, joins.Values
      ensures Valid() && View() == Acted(old(View()), actions)
      ensures Runs(old(View()), events, View()) && WithoutProcessing(events) && Polled(old(View()), events) == []
      ensures fresh(joins.Values - old(joins.Values)) && old(nextTaskId) <= nextTaskId
    {
      hide Apply, Runs, Polled, Acted, Step, Valid, View, Channels, Receivers, WithoutProcessing, WithoutPolls, EventOf;
      ghost var start := View();
      events := [];
      RunsNothing(start);
      ActedNothing(start, actions);
      for i := 0 to |actions|
        invariant Valid() && current == Some(task) && Runs(start, events, View()) && WithoutProcessing(events)
        invariant View() == Acted(start, actions[..i]) && Polled(start, events) == []
        invariant fresh(joins.Values - old(joins.Values)) && old(nextTaskId) <= nextTaskId
      {
        ActedExtends(start, actions, i);
        ghost var now := View();
        ghost var more := Perform(task, actions[i]);
        NothingIsPolled(now, more);
        RunsOn(start, events, now, more, View());
        events := events + more;
      }
      assert actions[..|actions|] == actions;
    }

    /** Polls the front task. */
    method PollFront(turn: Turn) returns (task: Task, ghost events: seq<Event>)
      requires Valid() && current.None? && readyQueue != []
      modifies this, local, shared, joins.Values
      ensures Valid() && Runs(old(View()), events, View()) && WithoutProcessing(events)
      ensures current.None? && fresh(joins.Values - old(joins.Values)) && running == old(running) && old(nextTaskId) <= nextTaskId
      ensures View() == PolledOnce(old(View()), turn) && Polled(old(View()), events) == [task.id]
      ensures task == old(readyQueue)[0] && task.id !in old(finished)
      ensures finished == if turn.ready then old(finished) + {task.id} else old(finished)
    {
      hide Apply, Runs, Polled, Acted, Ended, Step, Valid, View, Channels, Receivers, WithoutProcessing, WithoutPolls;
      ghost var start := View();
      ViewFacts();
      task := PopFront();
      PollingIsARun(start, View());
      ghost var begun := View();
      ghost var done := PerformAll(task, turn.actions);
      RunsOn(start, [BeginPoll], begun, done, View());
      ghost var now := View();
      ghost var more := EndPoll(task, turn.ready, turn.value);
      NothingIsPolled(now, more);
      RunsOn(start, [BeginPoll] + done, now, more, View());
      events := [BeginPoll] + done + more;
    }

    /** Polls the front task and takes the spawns that follow. */
    method PollAndTake(turn: Turn) returns (task: Task, ghost events: seq<Event>)
      requires Valid() && current.None? && readyQueue != []
      modifies this, local, shared, joins.Values
      ensures Valid() && Runs(old(View()), events, View()) && WithoutProcessing(events)
      ensures View() == Step(PolledOnce(old(View()), turn), TakeSpawns) && View().finished == finished
      ensures |Polled(old(View()), events)| == 1
      ensures current.None? && fresh(joins.Values - old(joins.Values))
      ensures running == old(running) && old(nextTaskId) <= nextTaskId
      ensures task.id !in old(finished) && finished == if turn.ready then old(finished) + {task.id} else old(finished)
    {
      hide Apply, Runs, Polled, PolledOnce, Valid, View, Channels, Receivers, Enabled;
      ghost var start := View();
      task, events := PollFront(turn);
      ghost var now := View();
      ProcessNewSpawns();
      RunsExtend(start, events, now, TakeSpawns);
      events := events + [TakeSpawns];
      ViewFacts();
    }

    /**
     Polls until the queue is empty, the goal is reached or the observation ends.
     `tick` counts the turns used.
     */
    method Drain(goal: Option<TaskId>, env: nat -> Turn, from: nat, fuel: nat)
      returns (tick: nat, output: Option<int>, ghost events: seq<Event>)
      requires Valid() && current.None? && from <= fuel && (goal.Some? ==> goal.value !in finished)
      modifies this, local, shared, joins.Values
      ensures Valid() && Runs(old(View()), events, View()) && WithoutProcessing(events)
      ensures current.None? && fresh(joins.Values - old(joins.Values)) && running == old(running) && old(nextTaskId) <= nextTaskId
      ensures from <= tick <= fuel && (output.None? && tick < fuel ==> readyQueue == [])
      ensures output.Some? <==> goal.Some? && goal.value in finished
      ensures IsAnswer(output, env, from, tick) && |Polled(old(View()), events)| == tick - from
      ensures DrainPlay(old(View()), goal, env, from, fuel) == Played(View(), tick, output.Some?)
    {
      hide Polled, DrainPlay;
      hide Apply, Runs, Step, PolledOnce, WokenOutside, Valid, View, Channels, Receivers;
      hide WithoutProcessing, OnlyWakes, IsAnswer;
      ghost var start := View();
      RunsNothing(start);
      NoAnswerYet(env, from);
      tick, output, events := from, None, [];
      ViewFacts();
      while readyQueue != [] && tick < fuel
        invariant from <= tick <= fuel
        invariant Valid() && current.None? && Runs(start, events, View()) && WithoutProcessing(events)
        invariant fresh(joins.Values - old(joins.Values)) && running == old(running) && old(nextTaskId) <= nextTaskId
        invariant output.None? && (goal.Some? ==> goal.value !in finished)
        invariant |Polled(start, events)| == tick - from
        invariant View().ready == readyQueue
        invariant DrainPlay(start, goal, env, from, fuel) == DrainPlay(View(), goal, env, tick, fuel)
        decreases fuel - tick
      {
        ghost var now := View();
        var task;
        ghost var polled;
        var turn := env(tick);
        DrainPlayGoesOn(now, goal, env, tick, fuel);
        task, polled := PollAndTake(turn);
        tick := tick + 1;
        if turn.ready && goal == Some(task.id) {
          output := Some(turn.value);
          AnsweredNow(turn.value, env, from, tick);
        }
        RunsOn(start, events, now, polled, View());
        now, events := View(), events + polled;
        if output.Some? {
          break;
        }
        ghost var woken := OutsideWakes(turn.outside);
        WakesAreNoProcessing(woken);
        NothingIsPolled(now, woken);
        RunsOn(start, events, now, woken, View());
        events := events + woken;
        ViewFacts();
      }
      if output.None? {
        DrainPlayStops(View(), goal, env, tick, fuel);
        NoAnswerAt(env, from, tick);
      }
    }

    /** Drains, and says what the drain makes of a pass begun at `before`. */
    method DrainFrom(goal: Option<TaskId>, env: nat -> Turn, from: nat, fuel: nat, ghost before: State)
      returns (tick: nat, output: Option<int>, ghost drain: seq<Event>)
      requires Valid() && current.None? && from <= fuel && (goal.Some? ==> goal.value !in finished)
      requires Enabled(before, TakeSpawns) && View() == Apply(before, TakeSpawns)
      modifies this, local, shared, joins.Values
      ensures Valid() && Runs(before, drain, View()) && WithoutProcessing(drain) && drain != [] && drain[0] == TakeSpawns
      ensures current.None? && fresh(joins.Values - old(joins.Values)) && running == old(running) && old(nextTaskId) <= nextTaskId
      ensures from <= tick <= fuel && (output.None? && tick < fuel ==> readyQueue == [])
      ensures output.Some? <==> goal.Some? && goal.value in finished
      ensures IsAnswer(output, env, from, tick) && |Polled(before, drain)| == tick - from
      ensures DrainPlay(old(View()), goal, env, from, fuel) == Played(View(), tick, output.Some?)
    {
      hide Polled, DrainPlay;
      hide IsAnswer, Apply, Runs, Valid, View, Step, PolledOnce, Channels, Receivers, Enabled;
      ghost var taken := View();
      RunsNothing(before);
      RunsExtend(before, [], before, TakeSpawns);
      assert [] + [TakeSpawns] == [TakeSpawns];
      tick, output, drain := Drain(goal, env, from, fuel);
      RunsOn(before, [TakeSpawns], taken, drain, View());
      drain := [TakeSpawns] + drain;
    }

    /** Takes the spawns, and says whether there is anything left to do. */
    method BeginPass() returns (idle: bool)
      requires Valid() && current.None?
      modifies this`readyQueue, this`pendingSpawns
      ensures Valid() && Reachable(old(View())) && old(View()).current.None? && Enabled(old(View()), TakeSpawns)
      ensures View() == Apply(old(View()), TakeSpawns) == Step(old(View()), TakeSpawns)
      ensures Runs(old(View()), [TakeSpawns], View()) && WithoutProcessing([TakeSpawns])
      ensures Polled(old(View()), [TakeSpawns]) == [] && View().ready == readyQueue && View().waiting == waitingTasks
      ensures idle <==> readyQueue == [] && waitingTasks == map[]
      ensures idle ==> IsIdle(View())
    {
      hide Apply, Runs, Polled, Valid, View, Channels, Receivers, Reachable, IsIdle;
      ghost var before := View();
      ViewFacts();
      ProcessNewSpawns();
      TakingIsARun(before, View());
      ViewFacts();
      idle := readyQueue == [] && waitingTasks == map[];
      if idle {
        NothingIsLeft(View());
      }
    }

    /**
     One turn of the loop: take spawns, stop if nothing is left, drain, stop if the
     goal is reached, process wakes.
     */
    method OnePass(goal: Option<TaskId>, env: nat -> Turn, from: nat, fuel: nat)
      returns (tick: nat, exit: Exit, output: Option<int>, ghost pass: Pass)
      requires Valid() && current.None? && from < fuel && (goal.Some? ==> goal.value !in finished)
      modifies this, local, shared, joins.Values
      ensures Valid() && current.None? && fresh(joins.Values - old(joins.Values)) && running == old(running) && old(nextTaskId) <= nextTaskId
      ensures output.Some? <==> goal.Some? && goal.value in finished
      ensures exit.Stopped? <==> output.Some?
      ensures IsAnswer(output, env, from, tick)
      ensures PassEnds(old(View()), View(), exit, goal, env, from, tick, fuel, pass)
    {
      hide Apply, Runs, Processed, Valid, View, Channels, Receivers, IsPass, IsIdle, WithoutProcessing;
      hide Reachable, OnlyWakes, Enabled, PassEnds, Polled, DrainPlay, LoopPlay;
      hide IsAnswer;
      NoAnswerYet(env, from);
      ghost var before := View();
      tick, exit, output := from, Unfinished, None;
      var idle := BeginPass();
      hide Step;
      if idle {
        pass := Pass(before, [TakeSpawns], View(), [], View());
        exit := Drained;
        NothingToDo(before, View(), goal, env, from, fuel, pass);
        return;
      }
      ghost var drain;
      var turn := env(from);
      tick, output, drain := DrainFrom(goal, env, from + 1, fuel, before);
      AnswerSince(output, env, from, from + 1, tick);
      ViewFacts();
      ghost var drained := View();
      pass := Pass(before, drain, drained, [], drained);
      if output.Some? {
        exit := Stopped;
      }
      if output.Some? || tick == fuel {
        CutShort(before, View(), exit, goal, env, from, tick, fuel, pass);
      } else {
        pass := ClosePass(before, drain, turn.outside);
        CompletePass(before, View(), goal, env, from, tick, fuel, pass);
      }
    }

    /** The end of a whole pass: both registries processed. */
    method ClosePass(ghost before: State, ghost drain: seq<Event>, ids: seq<TaskId>) returns (ghost pass: Pass)
      requires Valid() && current.None? && readyQueue == [] && Reachable(before) && before.current.None?
      requires drain != [] && drain[0] == TakeSpawns && WithoutProcessing(drain) && Runs(before, drain, View())
      modifies this`readyQueue, this`waitingTasks, this`fired, local, shared
      ensures Valid() && IsPass(pass) && pass.before == before && pass.drained == old(View()) && pass.drain == drain
      ensures pass.after == View() == Processed(old(View()), ids)
    {
      hide Apply, Runs, Processed, Valid, View, Channels, Receivers, IsPass, WithoutProcessing, Reachable, OnlyWakes;
      ViewFacts();
      ghost var drained := View();
      ghost var outside := ProcessAll(ids);
      pass := Pass(before, drain, drained, outside, View());
      MakePass(pass);
    }

    lemma ViewFacts()
      requires Valid()
      ensures Reachable(View()) && View().current == current && View().nextId == nextTaskId
      ensures View().channels.Keys == joins.Keys && View().sent == sent
      ensures View().finished == finished
      ensures View().ready == readyQueue && View().waiting == waitingTasks && View().pendingSpawns == pendingSpawns
    {
    }

    /**
     The loop. Its run is a chain of whole passes and then at most part of one.
     When it returns by itself, either the goal is reached or everything ever
     spawned has finished.
     */
    method RunUntil(goal: Option<TaskId>, env: nat -> Turn, fuel: nat)
      returns (exit: Exit, output: Option<int>, tick: nat, ghost passes: seq<Pass>, ghost middle: State, ghost rest: seq<Event>)
      requires Valid() && current.None? && (goal.Some? ==> goal.value !in finished)
      modifies this, local, shared, joins.Values
      ensures Valid() && current.None? && !running && fresh(joins.Values - old(joins.Values)) && old(nextTaskId) <= nextTaskId
      ensures Chained(old(View()), passes, middle) && Runs(middle, rest, View()) && WithoutProcessing(rest)
      ensures output.Some? <==> goal.Some? && goal.value in finished
      ensures exit.Stopped? <==> output.Some?
      ensures exit.Unfinished? ==> tick == fuel
      ensures LoopPlay(old(View()), goal, env, 0, fuel) == Ending(View(), tick, exit)
      ensures tick == PollCount(passes) + |passes| + |Polled(middle, rest)|
                      + if exit.Stopped? || (exit.Unfinished? && fuel > 0) then 1 else 0
      ensures IsAnswer(output, env, 0, tick)
      ensures exit.Drained? ==> IsIdle(View())
    {
      hide Apply, Runs, Chained, WithoutProcessing, IsPass, IsIdle, Valid, View, Channels, Receivers;
      hide Step, Processed, WokenOutside, PassEnds, IsAnswer, LoopPlay, Polled, PollCount;
      tick := 0;
      running := true;
      ghost var start := View();
      ChainOfNone(start);
      exit, output, passes, middle, rest := Unfinished, None, [], start, [];
      NoAnswerYet(env, 0);
      RunsNothing(start);
      NoPassesNoPolls();
      LoopPlayStarts(start, goal, env, fuel);
      while running && tick < fuel && exit.Unfinished?
        invariant tick <= fuel && Valid() && current.None? && running
        invariant Chained(start, passes, middle) && Runs(middle, rest, View()) && WithoutProcessing(rest)
        invariant tick < fuel && exit.Unfinished? ==> middle == View() && rest == []
        invariant fresh(joins.Values - old(joins.Values)) && old(nextTaskId) <= nextTaskId
        invariant output.Some? <==> goal.Some? && goal.value in finished
        invariant exit.Stopped? <==> output.Some?
        invariant exit.Drained? ==> IsIdle(View())
        invariant IsAnswer(output, env, 0, tick)
        invariant LoopPlay(start, goal, env, 0, fuel)
               == if exit.Unfinished? && tick < fuel then LoopPlay(View(), goal, env, tick, fuel)
                  else Ending(View(), tick, exit)
        invariant tick == PollCount(passes) + |passes| + |Polled(middle, rest)|
                          + if exit.Stopped? || (exit.Unfinished? && tick == fuel && fuel > 0) then 1 else 0
        decreases fuel - tick, exit.Unfinished?
      {
        ghost var pass;
        ghost var before, was := View(), tick;
        RunsNothing(middle);
        tick, exit, output, pass := OnePass(goal, env, tick, fuel);
        AnswerSince(output, env, 0, was, tick);
        HowItEnded(before, View(), exit, goal, env, was, tick, fuel, pass);
        if exit.Unfinished? && tick < fuel {
          ChainGrows(start, passes, pass);
          PollCountGrows(passes, pass);
          passes, middle := passes + [pass], View();
          RunsNothing(middle);
        } else {
          rest := pass.drain;
        }
      }
      running := false;
    }

    /**
     Runs everything: when it returns, every task ever spawned has finished. With
     nobody waiting and every turn ready, it does return, after one poll a task.
     */
    method Run(env: nat -> Turn, fuel: nat) returns (exit: Exit, turns: nat)
      requires Valid() && current.None?
      modifies this, local, shared, joins.Values
      ensures Valid() && current.None? && !running
      ensures exit.Drained? || (exit.Unfinished? && turns == fuel)
      ensures exit.Drained? ==> IsIdle(View())
      ensures LoopPlay(old(View()), None, env, 0, fuel) == Ending(View(), turns, exit)
      ensures var n := |old(readyQueue)| + |old(pendingSpawns)|;
              old(waitingTasks) == map[] && AllReady(env) && fuel >= n + 2 ==>
                exit.Drained? && turns == if n == 0 then 0 else n + 1
    {
      hide Valid, View, Chained, Runs, Polled, PollCount, LoopPlay, AllReady, Channels, Receivers, WithoutProcessing, IsIdle;
      ghost var passes, middle, rest;
      var output;
      ghost var before := View();
      ViewFacts();
      exit, output, turns, passes, middle, rest := RunUntil(None, env, fuel);
      if before.waiting == map[] && AllReady(env) && fuel >= |before.ready| + |before.pendingSpawns| + 2 {
        EverythingFinishes(before, env, fuel);
      }
    }

    /**
     Runs until one future is done. However many tasks it leaves behind, when the
     loop returns the result is there to be taken. A future ready at its first poll
     is returned by the turn its place in the queue gives it, whatever the tasks
     before it do.
     */
    method BlockOn(env: nat -> Turn, fuel: nat) returns (exit: Exit, result: Option<int>, turns: nat)
      requires Valid() && current.None?
      modifies this, local, shared, joins.Values
      ensures Valid() && current.None? && !running
      ensures exit.Stopped? || (exit.Unfinished? && turns == fuel)
      ensures exit.Stopped? <==> result.Some?
      ensures exit.Stopped? ==> old(nextTaskId) in finished
      ensures IsAnswer(result, env, 0, turns)
      ensures LoopPlay(Apply(old(View()), Event.Spawn(SingleThreaded, false)), Some(old(nextTaskId)), env, 0, fuel)
           == Ending(View(), turns, exit)
      ensures var n := |old(readyQueue)| + |old(pendingSpawns)|;
              fuel >= n + 2 && env(n + 1).ready ==>
                exit.Stopped? && turns == n + 2 && result == Some(env(n + 1).value)
    {
      hide Valid, Chained, Runs, Polled, PollCount, LoopPlay, Channels, Receivers, WithoutProcessing;
      ghost var n := |readyQueue| + |pendingSpawns|;
      SpawnIsApplied(View(), SingleThreaded, false);
      var id := Spawn(SingleThreaded, false);
      ghost var before := View();
      ViewFacts();
      ghost var passes, middle, rest;
      exit, result, turns, passes, middle, rest := RunUntil(Some(id), env, fuel);
      if fuel >= n + 2 && env(n + 1).ready {
        NewestIsReached(before, id, env, fuel);
      }
    }
  }
}
