/** What the executor keeps in every reachable state, and what its runs guarantee. */
module ExecutorProofs {
  import opened Executor
  import opened Sums

  // --------------------------------------------------------------- conservation

  lemma IdsOfConcat(a: seq<Task>, b: seq<Task>)
    ensures IdsOf(a + b) == IdsOf(a) + IdsOf(b)
  {
  }

  /** Each id is somewhere at most once. */
  lemma OnlyOnePlace(s: State, id: TaskId)
    requires Conserved(s)
    ensures multiset(IdsOf(s.pendingSpawns))[id] + multiset(IdsOf(s.ready))[id] + CurrentIds(s)[id]
            + multiset(s.waiting.Keys)[id] + multiset(s.finished)[id]
         == if id < s.nextId then 1 else 0
  {
    RangeMultiset(s.nextId);
    assert Places(s)[id] == multiset(Range(s.nextId))[id];
  }

  /** A queued task is neither waiting nor finished nor being polled. */
  lemma ReadyIsNowhereElse(s: State, i: nat)
    requires Conserved(s) && i < |s.ready|
    ensures var id := s.ready[i].id;
            id < s.nextId && id !in s.waiting && id !in s.finished && (s.current.Some? ==> s.current.value.id != id)
  {
    var id := s.ready[i].id;
    OnlyOnePlace(s, id);
    assert IdsOf(s.ready)[i] in multiset(IdsOf(s.ready));
  }

  lemma CurrentIsNowhereElse(s: State)
    requires Conserved(s) && s.current.Some?
    ensures var id := s.current.value.id;
            && id < s.nextId && id !in s.waiting && id !in s.finished
            && id !in IdsOf(s.ready) && id !in IdsOf(s.pendingSpawns)
  {
    OnlyOnePlace(s, s.current.value.id);
  }

  /** Waking moves tasks from the waiting map to the queue, each once. */
  lemma {:induction false} RousedIds(waiting: map<TaskId, Task>, woken: seq<TaskId>)
    requires forall id | id in waiting :: waiting[id].id == id
    ensures multiset(IdsOf(Roused(waiting, woken))) + multiset(StillWaiting(waiting, woken).Keys)
         == multiset(waiting.Keys)
    ensures forall i | 0 <= i < |Roused(waiting, woken)| ::
              var t := Roused(waiting, woken)[i]; t.id in waiting && t == waiting[t.id]
    decreases |woken|
  {
    if woken == [] {
      assert StillWaiting(waiting, woken) == waiting;
    } else if woken[0] in waiting {
      var id, rest := woken[0], waiting - {woken[0]};
      RousedIds(rest, woken[1..]);
      IdsOfConcat([waiting[id]], Roused(rest, woken[1..]));
      assert StillWaiting(waiting, woken).Keys == StillWaiting(rest, woken[1..]).Keys;
      assert waiting.Keys == rest.Keys + {id};
      assert multiset(waiting.Keys) == multiset(rest.Keys) + multiset{id};
      assert IdsOf([waiting[id]]) == [id];
    } else {
      RousedIds(waiting, woken[1..]);
      assert StillWaiting(waiting, woken) == StillWaiting(waiting, woken[1..]);
    }
  }

  /** Everything woken and waiting is moved. */
  lemma {:induction false} RousedHas(waiting: map<TaskId, Task>, woken: seq<TaskId>, id: TaskId)
    requires id in waiting && id in woken
    ensures waiting[id] in Roused(waiting, woken)
    decreases |woken|
  {
    if woken[0] in waiting {
      if woken[0] != id {
        RousedHas(waiting - {woken[0]}, woken[1..], id);
      }
    } else {
      RousedHas(waiting, woken[1..], id);
    }
  }

  lemma SpawnConserves(s: State, t: WakerType, joinable: bool)
    requires Conserved(s)
    ensures Conserved(DoSpawn(s, t, joinable))
  {
    SpawnPlaces(s, t, joinable);
    RangeGrows(s.nextId);
    hide Places, Range;
  }

  lemma SpawnPlaces(s: State, t: WakerType, joinable: bool)
    ensures Places(DoSpawn(s, t, joinable)) == Places(s) + multiset{s.nextId}
  {
    IdsOfConcat(s.pendingSpawns, [Task(s.nextId, t)]);
    assert IdsOf([Task(s.nextId, t)]) == [s.nextId];
    hide IdsOf;
  }

  lemma SpawnKeeps(s: State, t: WakerType, joinable: bool)
    requires Inv(s)
    ensures KindsAgree(DoSpawn(s, t, joinable)) && NoWakeLost(DoSpawn(s, t, joinable))
    ensures ChannelsAgree(DoSpawn(s, t, joinable)) && JoinsWake(DoSpawn(s, t, joinable))
  {
    FreshIdIsNew(s);
    OnlyOnePlace(s, s.nextId);
    assert s.nextId !in s.finished;
    SpawnKeepsKinds(s, t, joinable);
    SpawnKeepsChannels(s, t, joinable);
    SpawnKeepsWakes(s, t, joinable);
    hide Conserved, KindsAgree, ChannelsAgree, NoWakeLost, JoinsWake, DoSpawn;
  }

  lemma SpawnKeepsWakes(s: State, t: WakerType, joinable: bool)
    requires NoWakeLost(s) && JoinsWake(s)
    ensures NoWakeLost(DoSpawn(s, t, joinable)) && JoinsWake(DoSpawn(s, t, joinable))
  {
  }

  lemma SpawnKeepsKinds(s: State, t: WakerType, joinable: bool)
    requires KindsAgree(s)
    ensures KindsAgree(DoSpawn(s, t, joinable))
  {
  }

  lemma SpawnKeepsChannels(s: State, t: WakerType, joinable: bool)
    requires ChannelsAgree(s) && s.nextId !in s.channels && s.nextId !in s.sent && s.nextId !in s.finished
    ensures ChannelsAgree(DoSpawn(s, t, joinable))
  {
  }

  lemma WakeConserves(s: State, t: WakerType, id: TaskId)
    requires Conserved(s)
    ensures Conserved(DoWake(s, t, id))
  {
  }

  lemma WakeKeeps(s: State, t: WakerType, id: TaskId)
    requires Inv(s)
    ensures KindsAgree(DoWake(s, t, id)) && NoWakeLost(DoWake(s, t, id))
    ensures ChannelsAgree(DoWake(s, t, id)) && JoinsWake(DoWake(s, t, id))
  {
    hide Conserved;
    WakeKeepsKinds(s, t, id);
    WakeKeepsWakes(s, t, id);
    WakeKeepsChannels(s, t, id);
    hide KindsAgree, NoWakeLost, ChannelsAgree;
  }

  lemma WakeKeepsChannels(s: State, t: WakerType, id: TaskId)
    requires ChannelsAgree(s)
    ensures ChannelsAgree(DoWake(s, t, id))
  {
  }

  lemma WakeKeepsKinds(s: State, t: WakerType, id: TaskId)
    requires KindsAgree(s)
    ensures KindsAgree(DoWake(s, t, id))
  {
  }

  lemma WakeKeepsWakes(s: State, t: WakerType, id: TaskId)
    requires KindsAgree(s) && NoWakeLost(s)
    ensures NoWakeLost(DoWake(s, t, id))
  {
    var s' := DoWake(s, t, id);
    if s.current.Some? {
      WakeReaches(s, t, id, s.current.value);
    }
    forall k | k in s.waiting ensures IsReachable(s', s'.waiting[k]) {
      WakeReaches(s, t, id, s.waiting[k]);
    }
  }

  /** A wake reaches the registry of the task it names, and disturbs no other. */
  lemma WakeReaches(s: State, t: WakerType, id: TaskId, task: Task)
    requires IsKnown(s, task) && IsReachable(s, task)
    ensures IsReachable(DoWake(s, t, id), task)
  {
  }

  lemma TakeSpawnsConserves(s: State)
    requires Conserved(s) && Enabled(s, TakeSpawns)
    ensures Conserved(DoTakeSpawns(s))
  {
    IdsOfConcat(s.ready, s.pendingSpawns);
    assert IdsOf([]) == [];
  }

  lemma TakeSpawnsKeeps(s: State)
    requires Inv(s) && Enabled(s, TakeSpawns)
    ensures KindsAgree(DoTakeSpawns(s)) && NoWakeLost(DoTakeSpawns(s))
    ensures ChannelsAgree(DoTakeSpawns(s)) && JoinsWake(DoTakeSpawns(s))
  {
  }

  lemma BeginPollConserves(s: State)
    requires Conserved(s) && Enabled(s, BeginPoll)
    ensures Conserved(DoBeginPoll(s))
  {
    BeginPollPlaces(s);
    hide Places, Range;
  }

  lemma BeginPollPlaces(s: State)
    requires Enabled(s, BeginPoll)
    ensures Places(DoBeginPoll(s)) == Places(s)
  {
    FrontId(s.ready);
    hide IdsOf;
    var s', id := DoBeginPoll(s), s.ready[0].id;
    assert CurrentIds(s) == multiset{} && CurrentIds(s') == multiset{id};
    assert s'.pendingSpawns == s.pendingSpawns && s'.ready == s.ready[1..];
    assert s'.waiting == s.waiting && s'.finished == s.finished;
    Exchange(multiset(IdsOf(s.pendingSpawns)), multiset(IdsOf(s.ready[1..])), id,
             multiset(s.waiting.Keys), multiset(s.finished));
  }

  lemma Exchange(a: multiset<TaskId>, b: multiset<TaskId>, x: TaskId, c: multiset<TaskId>, d: multiset<TaskId>)
    ensures a + (multiset{x} + b) + multiset{} + c + d == a + b + multiset{x} + c + d
  {
  }

  lemma FrontId(tasks: seq<Task>)
    requires tasks != []
    ensures multiset(IdsOf(tasks)) == multiset{tasks[0].id} + multiset(IdsOf(tasks[1..]))
  {
    assert IdsOf(tasks) == [tasks[0].id] + IdsOf(tasks[1..]);
  }

  lemma BeginPollKeeps(s: State)
    requires Inv(s) && Enabled(s, BeginPoll)
    ensures KindsAgree(DoBeginPoll(s)) && NoWakeLost(DoBeginPoll(s))
    ensures ChannelsAgree(DoBeginPoll(s)) && JoinsWake(DoBeginPoll(s))
  {
    ReadyIsNowhereElse(s, 0);
    assert forall id | id in s.waiting :: s.waiting[id].id == id;
    hide Conserved;
    BeginPollKeepsWakes(s);
    BeginPollKeepsKinds(s);
    BeginPollKeepsJoins(s);
    hide NoWakeLost, KindsAgree, JoinsWake;
  }

  lemma BeginPollKeepsJoins(s: State)
    requires JoinsWake(s) && Enabled(s, BeginPoll)
    ensures JoinsWake(DoBeginPoll(s))
  {
    var s', id := DoBeginPoll(s), s.ready[0].id;
    assert s'.awaiting[id] == {};
    assert forall w, j | Expects(s', w, j) :: w != id && Expects(s, w, j);
  }

  lemma BeginPollKeepsKinds(s: State)
    requires KindsAgree(s) && Enabled(s, BeginPoll)
    ensures KindsAgree(DoBeginPoll(s))
  {
  }

  lemma BeginPollKeepsWakes(s: State)
    requires NoWakeLost(s) && Enabled(s, BeginPoll)
    requires s.ready[0].id !in s.waiting && forall id | id in s.waiting :: s.waiting[id].id == id
    ensures NoWakeLost(DoBeginPoll(s))
  {
    var s' := DoBeginPoll(s);
    forall id | id in s'.waiting ensures IsReachable(s', s'.waiting[id]) {
      assert IsReachable(s, s.waiting[id]);
    }
  }

  lemma PollJoinConserves(s: State, j: TaskId)
    requires Conserved(s) && Enabled(s, PollJoin(j))
    ensures Conserved(DoPollJoin(s, j))
  {
  }

  lemma PollJoinKeeps(s: State, j: TaskId)
    requires Inv(s) && Enabled(s, PollJoin(j))
    ensures KindsAgree(DoPollJoin(s, j)) && NoWakeLost(DoPollJoin(s, j))
    ensures ChannelsAgree(DoPollJoin(s, j)) && JoinsWake(DoPollJoin(s, j))
  {
    hide Conserved;
    PollJoinKeepsJoins(s, j);
    hide JoinsWake;
  }

  lemma PollJoinKeepsJoins(s: State, j: TaskId)
    requires ChannelsAgree(s) && JoinsWake(s) && Enabled(s, PollJoin(j))
    ensures JoinsWake(DoPollJoin(s, j))
  {
    var s' := DoPollJoin(s, j);
    assert forall w, k | Expects(s', w, k) && k in s'.sent :: Expects(s, w, k);
  }

  lemma SendConserves(s: State, value: int)
    requires Conserved(s) && Enabled(s, Send(value))
    ensures Conserved(DoSend(s, value))
  {
    SamePlaces(s, DoSend(s, value));
  }

  lemma SamePlaces(s: State, s': State)
    requires Conserved(s)
    requires s'.pendingSpawns == s.pendingSpawns && s'.ready == s.ready && s'.current == s.current
    requires s'.waiting == s.waiting && s'.finished == s.finished && s'.nextId == s.nextId
    ensures Conserved(s')
  {
  }

  lemma SendKeeps(s: State, value: int)
    requires Inv(s) && Enabled(s, Send(value))
    ensures KindsAgree(DoSend(s, value)) && NoWakeLost(DoSend(s, value))
    ensures ChannelsAgree(DoSend(s, value)) && JoinsWake(DoSend(s, value))
  {
    CurrentIsNowhereElse(s);
    hide Conserved;
    var id := s.current.value.id;
    var stored := Stored(s, value);
    StoringKeeps(s, value);
    if id in s.joinWaker {
      var w := s.joinWaker[id];
      assert IsKnown(s, w);
      WakeKeepsKinds(stored, w.wakerType, w.id);
      WakeKeepsWakes(stored, w.wakerType, w.id);
      SendWakes(s, value, w);
    } else {
      NobodyExpects(s, value);
    }
    hide KindsAgree, NoWakeLost, ChannelsAgree, JoinsWake;
  }

  /** The value in the channel, before the wake. */
  function Stored(s: State, value: int): State
    requires s.current.Some?
  {
    var id := s.current.value.id;
    s.(sent := s.sent[id := value], channels := s.channels[id := Data(value)])
  }

  lemma StoringKeeps(s: State, value: int)
    requires KindsAgree(s) && NoWakeLost(s) && ChannelsAgree(s) && Enabled(s, Send(value))
    requires s.current.value.id !in s.finished
    ensures KindsAgree(Stored(s, value)) && NoWakeLost(Stored(s, value)) && ChannelsAgree(Stored(s, value))
    ensures s.channels[s.current.value.id].Empty?
  {
  }

  lemma NobodyExpects(s: State, value: int)
    requires JoinsWake(s) && s.current.Some? && s.current.value.id !in s.joinWaker
    ensures JoinsWake(Stored(s, value))
  {
  }

  /** Whoever expects the value just sent is the one woken. */
  lemma SendWakes(s: State, value: int, w: Task)
    requires JoinsWake(s) && s.current.Some?
    requires s.current.value.id in s.joinWaker && s.joinWaker[s.current.value.id] == w && IsKnown(s, w)
    ensures JoinsWake(DoWake(Stored(s, value), w.wakerType, w.id))
    ensures ChannelsAgree(Stored(s, value)) ==> ChannelsAgree(DoWake(Stored(s, value), w.wakerType, w.id))
  {
  }

  lemma EndReadyConserves(s: State)
    requires Conserved(s) && Enabled(s, EndReady)
    ensures Conserved(DoEndReady(s))
  {
    CurrentIsNowhereElse(s);
    var id := s.current.value.id;
    assert multiset(s.finished + {id}) == multiset(s.finished) + multiset{id};
  }

  lemma EndReadyKeeps(s: State)
    requires Inv(s) && Enabled(s, EndReady)
    ensures KindsAgree(DoEndReady(s)) && NoWakeLost(DoEndReady(s))
    ensures ChannelsAgree(DoEndReady(s)) && JoinsWake(DoEndReady(s))
  {
    CurrentIsNowhereElse(s);
  }

  lemma EndPendingConserves(s: State)
    requires Conserved(s) && Enabled(s, EndPending)
    ensures Conserved(DoEndPending(s))
  {
    EndPendingPlaces(s);
    hide Places, Range;
  }

  lemma EndPendingPlaces(s: State)
    requires Conserved(s) && Enabled(s, EndPending)
    ensures Places(DoEndPending(s)) == Places(s)
  {
    CurrentIsNowhereElse(s);
    hide IdsOf, Conserved;
    var s', id := DoEndPending(s), s.current.value.id;
    assert CurrentIds(s') == multiset{} && CurrentIds(s) == multiset{id};
    assert s'.waiting.Keys == s.waiting.Keys + {id};
    assert multiset(s.waiting.Keys + {id}) == multiset(s.waiting.Keys) + multiset{id};
    Settle(multiset(IdsOf(s.pendingSpawns)), multiset(IdsOf(s.ready)), id,
           multiset(s.waiting.Keys), multiset(s.finished));
  }

  lemma Settle(a: multiset<TaskId>, b: multiset<TaskId>, x: TaskId, c: multiset<TaskId>, d: multiset<TaskId>)
    ensures a + b + multiset{} + (c + multiset{x}) + d == a + b + multiset{x} + c + d
  {
  }

  lemma EndPendingKeeps(s: State)
    requires Inv(s) && Enabled(s, EndPending)
    ensures KindsAgree(DoEndPending(s)) && NoWakeLost(DoEndPending(s))
    ensures ChannelsAgree(DoEndPending(s)) && JoinsWake(DoEndPending(s))
  {
    CurrentIsNowhereElse(s);
  }

  lemma ProcessWokenConserves(s: State, t: WakerType)
    requires Conserved(s) && Enabled(s, ProcessWoken(t))
    ensures Conserved(DoProcessWoken(s, t))
  {
    var woken := RegistryOf(s, t).woken;
    RousedIds(s.waiting, woken);
    IdsOfConcat(s.ready, Roused(s.waiting, woken));
  }

  lemma ProcessWokenKeeps(s: State, t: WakerType)
    requires Inv(s) && Enabled(s, ProcessWoken(t))
    ensures KindsAgree(DoProcessWoken(s, t)) && NoWakeLost(DoProcessWoken(s, t))
    ensures ChannelsAgree(DoProcessWoken(s, t)) && JoinsWake(DoProcessWoken(s, t))
  {
    RousedIds(s.waiting, RegistryOf(s, t).woken);
    hide Conserved;
    ProcessWokenKeepsKinds(s, t);
    ProcessWokenKeepsWakes(s, t);
    hide KindsAgree, NoWakeLost;
  }

  lemma ProcessWokenKeepsKinds(s: State, t: WakerType)
    requires KindsAgree(s)
    requires forall i | 0 <= i < |Roused(s.waiting, RegistryOf(s, t).woken)| ::
               var r := Roused(s.waiting, RegistryOf(s, t).woken)[i]; r.id in s.waiting && r == s.waiting[r.id]
    ensures KindsAgree(DoProcessWoken(s, t))
  {
    hide Roused;
  }

  lemma ProcessWokenKeepsWakes(s: State, t: WakerType)
    requires NoWakeLost(s) && s.current.None? && forall id | id in s.waiting :: s.waiting[id].id == id
    ensures NoWakeLost(DoProcessWoken(s, t))
  {
    hide Roused;
    var s' := DoProcessWoken(s, t);
    forall id | id in s'.waiting ensures IsReachable(s', s'.waiting[id]) {
      assert IsReachable(s, s.waiting[id]);
    }
  }

  lemma FreshIdIsNew(s: State)
    requires KindsAgree(s) && ChannelsAgree(s)
    ensures s.nextId !in s.kind && s.nextId !in s.channels && s.nextId !in s.sent
  {
  }

  lemma SendersStayDone(s: State, e: Event)
    requires SendersAreDone(s) && Enabled(s, e)
    ensures SendersAreDone(Apply(s, e))
  {
  }

  lemma RegistriesStayAgreed(s: State, e: Event)
    requires Conserved(s) && KindsAgree(s) && RegistriesAgree(s) && Enabled(s, e)
    ensures RegistriesAgree(Apply(s, e))
  {
    hide Conserved;
    match e
    case BeginPoll =>
      ReadyIsNowhereElse(s, 0);
      assert IsKnown(s, s.ready[0]);
    case Spawn(_, _) => assert s.nextId !in s.kind;
    case _ => OthersKeepRegistries(s, e);
  }

  lemma OthersKeepRegistries(s: State, e: Event)
    requires RegistriesAgree(s) && Enabled(s, e) && !e.BeginPoll? && !e.Spawn?
    ensures RegistriesAgree(Apply(s, e))
  {
    hide DoSpawn, DoBeginPoll;
  }

  /** A wake for a finished task reaches nobody: its wakers are gone from both registries. */
  lemma StaleWakesAreSilent(s: State, t: WakerType, id: TaskId)
    requires Inv(s) && id in s.finished && id in s.kind
    ensures var r := Apply(s, Wake(t, id)); r.local == s.local && r.shared == s.shared && r.ready == s.ready
  {
    hide Conserved, KindsAgree, NoWakeLost, ChannelsAgree, JoinsWake, SendersAreDone;
  }

  /** The place of a task in a list of wakes. */
  ghost predicate FirstAt(woken: seq<TaskId>, id: TaskId, k: nat) {
    k < |woken| && woken[k] == id && forall j | 0 <= j < k :: woken[j] != id
  }

  /** Woken tasks are queued in the order of their first wakes. */
  lemma {:induction false} RousedInOrder(waiting: map<TaskId, Task>, woken: seq<TaskId>, i: nat, j: nat, k: nat, l: nat)
    requires forall id | id in waiting :: waiting[id].id == id
    requires i < j < |Roused(waiting, woken)|
    requires FirstAt(woken, Roused(waiting, woken)[i].id, k) && FirstAt(woken, Roused(waiting, woken)[j].id, l)
    ensures k < l
    decreases |woken|
  {
    var rest := woken[1..];
    RousedAreWoken(waiting, woken, j);
    if woken[0] in waiting {
      var fewer := waiting - {woken[0]};
      RousedAreWoken(fewer, rest, j - 1);
      if i > 0 {
        RousedAreWoken(fewer, rest, i - 1);
        RousedInOrder(fewer, rest, i - 1, j - 1, k - 1, l - 1);
      }
    } else {
      RousedAreWoken(waiting, rest, i);
      RousedAreWoken(waiting, rest, j);
      RousedInOrder(waiting, rest, i, j, k - 1, l - 1);
    }
  }

  lemma {:induction false} RousedAreWoken(waiting: map<TaskId, Task>, woken: seq<TaskId>, i: nat)
    requires forall id | id in waiting :: waiting[id].id == id
    requires i < |Roused(waiting, woken)|
    ensures Roused(waiting, woken)[i].id in waiting && Roused(waiting, woken)[i].id in woken
    decreases |woken|
  {
    if woken[0] in waiting {
      if i > 0 {
        RousedAreWoken(waiting - {woken[0]}, woken[1..], i - 1);
      }
    } else {
      RousedAreWoken(waiting, woken[1..], i);
    }
  }

  lemma InvIsKept(s: State, e: Event)
    requires Inv(s) && Enabled(s, e)
    ensures Inv(Apply(s, e))
  {
    hide Conserved, KindsAgree, NoWakeLost, ChannelsAgree, JoinsWake, SendersAreDone, RegistriesAgree;
    SendersStayDone(s, e);
    RegistriesStayAgreed(s, e);
    match e
    case Spawn(t, joinable) => SpawnConserves(s, t, joinable); SpawnKeeps(s, t, joinable);
    case Wake(t, id) => WakeConserves(s, t, id); WakeKeeps(s, t, id);
    case TakeSpawns => TakeSpawnsConserves(s); TakeSpawnsKeeps(s);
    case BeginPoll => BeginPollConserves(s); BeginPollKeeps(s);
    case PollJoin(j) => PollJoinConserves(s, j); PollJoinKeeps(s, j);
    case Send(value) => SendConserves(s, value); SendKeeps(s, value);
    case EndReady => EndReadyConserves(s); EndReadyKeeps(s);
    case EndPending => EndPendingConserves(s); EndPendingKeeps(s);
    case ProcessWoken(t) => ProcessWokenConserves(s, t); ProcessWokenKeeps(s, t);
  }

  /** Every state a run reaches keeps the invariant. */
  lemma {:induction false} InvHoldsThroughout(s: State, events: seq<Event>, s': State)
    requires Inv(s) && Runs(s, events, s')
    ensures Inv(s')
    decreases |events|
  {
    if events != [] {
      InvIsKept(s, events[0]);
      InvHoldsThroughout(Apply(s, events[0]), events[1..], s');
    }
  }

  lemma InitialIsGood()
    ensures Inv(INITIAL)
  {
    assert multiset(Range(0)) == multiset{};
  }

  // --------------------------------------------------------- no wake-up is lost

  /** A fired wake stays on record until its task is polled again. */
  lemma {:induction false} WakesAreRemembered(s: State, events: seq<Event>, s': State, id: TaskId)
    requires Runs(s, events, s') && id in s.fired && id !in Polled(s, events)
    ensures id in s'.fired
    decreases |events|
  {
    if events != [] {
      FiredUntilPolled(s, events[0], id);
      WakesAreRemembered(Apply(s, events[0]), events[1..], s', id);
    }
  }

  lemma FiredUntilPolled(s: State, e: Event, id: TaskId)
    requires Enabled(s, e) && id in s.fired && (e.BeginPoll? ==> s.ready[0].id != id)
    ensures id in Apply(s, e).fired
  {
    hide DoSpawn, DoWake, DoTakeSpawns, DoBeginPoll, DoPollJoin, DoSend, DoEndReady, DoEndPending, DoProcessWoken;
  }

  /** A wake through the other kind's registry is dropped: nothing at all changes. */
  lemma WrongRegistryIsSilent(s: State, t: WakerType, id: TaskId)
    requires Inv(s) && id in s.kind && s.kind[id] != t
    ensures Apply(s, Wake(t, id)) == s
  {
    hide Conserved, KindsAgree, NoWakeLost, ChannelsAgree, JoinsWake, SendersAreDone;
    assert t.SingleThreaded? ==> id !in s.local.wakers;
    assert t.ThreadSafe? ==> id !in s.shared.wakers;
  }

  /** Kinds are fixed at the spawn. */
  lemma {:induction false} KindsStay(s: State, events: seq<Event>, s': State, id: TaskId)
    requires Inv(s) && Runs(s, events, s') && id in s.kind
    ensures id in s'.kind && s'.kind[id] == s.kind[id]
    decreases |events|
  {
    if events != [] {
      assert id < s.nextId;
      InvIsKept(s, events[0]);
      KindStays(s, events[0], id);
      KindsStay(Apply(s, events[0]), events[1..], s', id);
    }
  }

  lemma KindStays(s: State, e: Event, id: TaskId)
    requires Enabled(s, e) && id in s.kind && id < s.nextId
    ensures id in Apply(s, e).kind && Apply(s, e).kind[id] == s.kind[id]
  {
    hide DoSpawn, DoWake, DoTakeSpawns, DoBeginPoll, DoPollJoin, DoSend, DoEndReady, DoEndPending, DoProcessWoken;
  }

  lemma FiredWaiterIsMoved(s: State, id: TaskId)
    requires Inv(s) && s.current.None? && id in s.waiting && id in s.fired
    ensures var s' := Apply(s, ProcessWoken(s.kind[id]));
            s.waiting[id] in s'.ready && id !in s'.waiting
  {
    assert IsKnown(s, s.waiting[id]) && IsReachable(s, s.waiting[id]) && s.waiting[id].id == id;
    var woken := RegistryOf(s, s.kind[id]).woken;
    RousedHas(s.waiting, woken, id);
    assert Roused(s.waiting, woken) <= Apply(s, ProcessWoken(s.kind[id])).ready[|s.ready|..];
  }

  lemma OwnWakeFires(s: State, id: TaskId)
    requires id in s.kind
    ensures var woken := Apply(s, Wake(s.kind[id], id)); id in woken.fired && woken.kind == s.kind
  {
  }

  /**
   Whatever happens after a task's own waker fires, if the task has not been polled
   again and is found waiting, the next processing of its registry readies it.
   */
  lemma NoWakeUpIsLost(s: State, id: TaskId, events: seq<Event>, s': State)
    requires Inv(s) && id in s.kind
    requires var woken := Apply(s, Wake(s.kind[id], id)); Runs(woken, events, s') && id !in Polled(woken, events)
    requires s'.current.None? && id in s'.waiting
    ensures var processed := Apply(s', ProcessWoken(s.kind[id]));
            s'.waiting[id] in processed.ready && id !in processed.waiting
  {
    hide Inv, Apply;
    var woken := Apply(s, Wake(s.kind[id], id));
    InvIsKept(s, Wake(s.kind[id], id));
    OwnWakeFires(s, id);
    WakesAreRemembered(woken, events, s', id);
    InvHoldsThroughout(woken, events, s');
    KindsStay(woken, events, s', id);
    FiredWaiterIsMoved(s', id);
  }

  // -------------------------------------------------------- finished means done

  lemma FrontIsUnfinished(s: State)
    requires Inv(s) && s.ready != []
    ensures s.ready[0].id !in s.finished
  {
    ReadyIsNowhereElse(s, 0);
  }

  /** A finished task is never polled again, whatever stale wakes name it. */
  lemma {:induction false} FinishedIsNeverPolled(s: State, events: seq<Event>, s': State, id: TaskId)
    requires Inv(s) && Runs(s, events, s') && id in s.finished
    ensures id !in Polled(s, events) && id in s'.finished
    decreases |events|
  {
    hide Inv, Apply;
    if events != [] {
      if events[0].BeginPoll? {
        FrontIsUnfinished(s);
      }
      InvIsKept(s, events[0]);
      FinishedStays(s, events[0], id);
      FinishedIsNeverPolled(Apply(s, events[0]), events[1..], s', id);
    }
  }

  lemma FinishedStays(s: State, e: Event, id: TaskId)
    requires Enabled(s, e) && id in s.finished
    ensures id in Apply(s, e).finished
  {
    hide DoSpawn, DoWake, DoTakeSpawns, DoBeginPoll, DoPollJoin, DoSend, DoEndReady, DoEndPending, DoProcessWoken;
  }

  /** With nothing queued, polled or waiting, every task ever spawned has finished. */
  lemma NothingLeftMeansAllFinished(s: State, id: TaskId)
    requires Conserved(s) && s.pendingSpawns == [] && s.ready == [] && s.current.None? && s.waiting == map[]
    ensures id in s.finished <==> id < s.nextId
  {
    OnlyOnePlace(s, id);
  }

  // -------------------------------------------------------------------- fairness

  lemma {:induction false} FirstInFirstOut(s: State, events: seq<Event>, s': State)
    requires Runs(s, events, s')
    ensures var polled, queue := Polled(s, events), IdsOf(s.ready);
            if |polled| <= |queue| then polled == queue[..|polled|] else polled[..|queue|] == queue
    decreases |events|
  {
    if events != [] {
      var next := Apply(s, events[0]);
      QueueOnlyGrows(s, events[0]);
      FirstInFirstOut(next, events[1..], s');
    }
  }

  lemma QueueOnlyGrows(s: State, e: Event)
    requires Enabled(s, e)
    ensures e.BeginPoll? ==> IdsOf(Apply(s, e).ready) == IdsOf(s.ready)[1..]
    ensures !e.BeginPoll? ==> IdsOf(s.ready) <= IdsOf(Apply(s, e).ready)
  {
    hide DoSpawn, DoWake, DoTakeSpawns, DoBeginPoll, DoPollJoin, DoSend, DoEndReady, DoEndPending, DoProcessWoken;
  }

  /**
   Bounded waiting: from the start of one poll of a task to its next, everything
   that stood in the ready queue is polled first, in order.
   */
  lemma EveryoneElseGoesFirst(s: State, events: seq<Event>, s': State, k: nat)
    requires Inv(s) && s.current.Some? && Runs(s, events, s')
    requires k < |Polled(s, events)| && Polled(s, events)[k] == s.current.value.id
    ensures k >= |s.ready| && Polled(s, events)[..|s.ready|] == IdsOf(s.ready)
  {
    FirstInFirstOut(s, events, s');
    assert k < |s.ready| ==> Polled(s, events)[k] == IdsOf(s.ready)[k];
    CurrentIsNowhereElse(s);
  }

  ghost predicate WithoutProcessing(events: seq<Event>) {
    forall i | 0 <= i < |events| :: !events[i].ProcessWoken?
  }

  /** A task outside both queues stays unpolled until wakes are processed. */
  lemma {:induction false} StaysOut(s: State, events: seq<Event>, s': State, id: TaskId)
    requires Runs(s, events, s') && WithoutProcessing(events) && id < s.nextId
    requires id !in IdsOf(s.ready) && id !in IdsOf(s.pendingSpawns)
    ensures id !in Polled(s, events)
    decreases |events|
  {
    if events != [] {
      StaysOutOneStep(s, events[0], id);
      StaysOut(Apply(s, events[0]), events[1..], s', id);
    }
  }

  lemma StaysOutOneStep(s: State, e: Event, id: TaskId)
    requires Enabled(s, e) && !e.ProcessWoken? && id < s.nextId
    requires id !in IdsOf(s.ready) && id !in IdsOf(s.pendingSpawns)
    ensures var s' := Apply(s, e);
            id < s'.nextId && id !in IdsOf(s'.ready) && id !in IdsOf(s'.pendingSpawns)
    ensures e.BeginPoll? ==> s.ready[0].id != id
  {
    IdsOfConcat(s.ready, s.pendingSpawns);
    match e
    case Spawn(t, _) => IdsOfConcat(s.pendingSpawns, [Task(s.nextId, t)]);
    case BeginPoll =>
      assert IdsOf(s.ready)[0] == s.ready[0].id;
      assert IdsOf(s.ready[1..]) == IdsOf(s.ready)[1..];
    case _ =>
  }

  lemma PolledIsNowhereElse(s: State)
    requires Inv(s) && Enabled(s, BeginPoll)
    ensures var next, id := Apply(s, BeginPoll), s.ready[0].id;
            id < next.nextId && id !in IdsOf(next.ready) && id !in IdsOf(next.pendingSpawns)
  {
    BeginPollConserves(s);
    CurrentIsNowhereElse(DoBeginPoll(s));
  }

  /** Between two processings of wakes no task is polled twice. */
  lemma {:induction false} OncePerDrain(s: State, events: seq<Event>, s': State)
    requires Inv(s) && Runs(s, events, s') && WithoutProcessing(events)
    ensures forall i, j | 0 <= i < j < |Polled(s, events)| :: Polled(s, events)[i] != Polled(s, events)[j]
    decreases |events|
  {
    hide Inv, Apply;
    if events != [] {
      var next := Apply(s, events[0]);
      InvIsKept(s, events[0]);
      OncePerDrain(next, events[1..], s');
      if events[0].BeginPoll? {
        PolledIsNowhereElse(s);
        StaysOut(next, events[1..], s', s.ready[0].id);
        PrependDistinct(s.ready[0].id, Polled(next, events[1..]));
      }
    }
  }

  lemma PrependDistinct(x: TaskId, rest: seq<TaskId>)
    requires x !in rest
    requires forall i, j | 0 <= i < j < |rest| :: rest[i] != rest[j]
    ensures forall i, j | 0 <= i < j < |[x] + rest| :: ([x] + rest)[i] != ([x] + rest)[j]
  {
  }

  // ----------------------------------------------------------------------- joins

  /** The sender's `send` never finds the channel anything but empty. */
  lemma SendFindsEmpty(s: State, value: int)
    requires Inv(s) && Enabled(s, Send(value))
    ensures s.channels[s.current.value.id].Empty?
    ensures Apply(s, Send(value)).channels[s.current.value.id] == Data(value)
  {
    CurrentIsNowhereElse(s);
    SendKeeps(s, value);
    hide Conserved, KindsAgree, NoWakeLost, JoinsWake;
    var id := s.current.value.id;
    assert id !in s.taken;
    assert Apply(s, Send(value)).sent[id] == value;
  }

  lemma TakenWasSent(s: State, j: TaskId)
    requires Inv(s) && j in s.taken
    ensures j in s.sent
  {
  }

  /** Over any run a join handle yields the sent value exactly once, in the step that takes it. */
  lemma {:induction false} YieldedOnce(s: State, events: seq<Event>, s': State, j: TaskId)
    requires Inv(s) && Runs(s, events, s')
    ensures j in s.taken ==> j in s'.taken
    ensures j in s.sent ==> j in s'.sent && s'.sent[j] == s.sent[j]
    ensures Yielded(s, events, j) == if j in s'.taken && j !in s.taken && j in s'.sent then [s'.sent[j]] else []
    decreases |events|
  {
    hide Inv, Apply;
    if events != [] {
      var next := Apply(s, events[0]);
      InvIsKept(s, events[0]);
      InvHoldsThroughout(next, events[1..], s');
      if j in s'.taken {
        TakenWasSent(s', j);
      }
      if j in next.taken {
        TakenWasSent(next, j);
      }
      YieldedOnce(next, events[1..], s', j);
      SentStays(s, events[0], j);
    }
  }

  lemma SentStays(s: State, e: Event, j: TaskId)
    requires Inv(s) && Enabled(s, e)
    ensures var s' := Apply(s, e);
            && (j in s.sent ==> j in s'.sent && s'.sent[j] == s.sent[j])
            && (j in s'.taken <==> j in s.taken || (e == PollJoin(j) && JoinResult(s, j).Yields?))
            && (e == PollJoin(j) && JoinResult(s, j).Yields? ==>
                  j in s.sent && j !in s.taken && JoinResult(s, j).value == s.sent[j])
  {
    hide Conserved, KindsAgree, NoWakeLost, JoinsWake;
    hide DoSpawn, DoWake, DoTakeSpawns, DoBeginPoll, DoPollJoin, DoSend, DoEndReady, DoEndPending, DoProcessWoken;
  }

  /** What a join handle answers from the very beginning: waiting, then the value once, then only errors. */
  lemma JoinAnswers(events: seq<Event>, s: State, j: TaskId)
    requires Runs(INITIAL, events, s) && j in s.channels
    ensures JoinResult(s, j).Waits? <==> j !in s.sent
    ensures JoinResult(s, j).Yields? ==> Yielded(INITIAL, events, j) == [] && JoinResult(s, j).value == s.sent[j]
    ensures JoinResult(s, j).RecvError? <==> j in s.sent && Yielded(INITIAL, events, j) == [s.sent[j]]
    ensures j in s.finished ==> !JoinResult(s, j).Waits?
  {
    InitialIsGood();
    InvHoldsThroughout(INITIAL, events, s);
    YieldedOnce(INITIAL, events, s, j);
  }

  /** A task pending on a join handle is readied by the next wake processing after the joined task finished. */
  lemma JoinNeverStalls(s: State, w: TaskId, j: TaskId)
    requires Inv(s) && s.current.None? && w in s.waiting
    requires Expects(s, w, j) && j in s.finished
    ensures var s' := Apply(s, ProcessWoken(s.kind[w]));
            s.waiting[w] in s'.ready && w !in s'.waiting
  {
    assert j in s.sent;
    FiredWaiterIsMoved(s, w);
  }
}
