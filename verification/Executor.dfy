/**
 The single-threaded executor as a state machine.

 A poll is an arbitrary run of steps: any wakes, any spawns, any polls of join
 handles, then Ready or Pending. Wakes from other threads may fall between any two
 steps. Every property below holds in every state such steps can reach.
 */
module Executor {
  import opened Options
  import opened Sums

  type TaskId = nat

  datatype WakerType = SingleThreaded | ThreadSafe

  datatype Task = Task(id: TaskId, wakerType: WakerType)

  /** A waker registry: the tasks it holds a waker for, and the wakes not yet processed. */
  datatype Registry = Registry(wakers: set<TaskId>, woken: seq<TaskId>)

  /** A join channel, as the receiver finds it. */
  datatype Channel = Empty | Data(value: int) | Closed

  /** What polling a join handle gives. */
  datatype JoinPoll = Waits | Yields(value: int) | RecvError

  /**
   The executor. The last six fields are history: the waker type each id was
   spawned with, the tasks that finished, those whose own waker fired since their
   last poll began, the join handles each task found empty since then, what each
   joined task sent, and whose value has been handed over.
   */
  datatype State = State(
    nextId: TaskId,
    pendingSpawns: seq<Task>,
    ready: seq<Task>,
    waiting: map<TaskId, Task>,
    local: Registry,
    shared: Registry,
    current: Option<Task>,
    channels: map<TaskId, Channel>,
    joinWaker: map<TaskId, Task>,
    kind: map<TaskId, WakerType>,
    finished: set<TaskId>,
    fired: set<TaskId>,
    awaiting: map<TaskId, set<TaskId>>,
    sent: map<TaskId, int>,
    taken: set<TaskId>
  )

  const INITIAL := State(0, [], [], map[], Registry({}, []), Registry({}, []), None, map[], map[], map[], {}, {}, map[], map[], {})

  datatype Event =
    | Spawn(wakerType: WakerType, joinable: bool)
    | Wake(registry: WakerType, id: TaskId)
    | TakeSpawns
    | BeginPoll
    | PollJoin(joined: TaskId)
    | Send(value: int)
    | EndReady
    | EndPending
    | ProcessWoken(registry: WakerType)

  // --------------------------------------------------------------------- steps

  function RegistryOf(s: State, t: WakerType): Registry {
    if t.SingleThreaded? then s.local else s.shared
  }

  /** A spawn only queues the task; it joins the ready queue when spawns are next taken. */
  function DoSpawn(s: State, t: WakerType, joinable: bool): (r: State)
    ensures r.finished == s.finished && r.sent == s.sent && r.taken == s.taken
    ensures r.fired == s.fired && r.ready == s.ready && forall id | id in s.kind && id != s.nextId :: id in r.kind && r.kind[id] == s.kind[id]
    ensures r.nextId == s.nextId + 1 && s.pendingSpawns < r.pendingSpawns && r.pendingSpawns[|s.pendingSpawns|].id == s.nextId
  {
    s.(nextId := s.nextId + 1,
       pendingSpawns := s.pendingSpawns + [Task(s.nextId, t)],
       kind := s.kind[s.nextId := t],
       channels := if joinable then s.channels[s.nextId := Empty] else s.channels)
  }

  /** A wake counts only while the registry holds a waker for the id. */
  function WakeIn(r: Registry, id: TaskId): Registry {
    if id in r.wakers then r.(woken := r.woken + [id]) else r
  }

  function DoWake(s: State, t: WakerType, id: TaskId): (r: State)
    ensures r.finished == s.finished && r.sent == s.sent && r.taken == s.taken
    ensures s.fired <= r.fired <= s.fired + {id} && r.ready == s.ready && r.kind == s.kind
  {
    s.(local := if t.SingleThreaded? then WakeIn(s.local, id) else s.local,
       shared := if t.SingleThreaded? then s.shared else WakeIn(s.shared, id),
       fired := if id in s.kind && s.kind[id] == t then s.fired + {id} else s.fired)
  }

  function DoTakeSpawns(s: State): (r: State)
    ensures r.finished == s.finished && r.sent == s.sent && r.taken == s.taken
    ensures r.fired == s.fired && s.ready <= r.ready && r.kind == s.kind
  {
    s.(ready := s.ready + s.pendingSpawns, pendingSpawns := [])
  }

  /** Pops the front task and registers its waker afresh. */
  function DoBeginPoll(s: State): (r: State)
    requires s.ready != []
    ensures r.finished == s.finished && r.sent == s.sent && r.taken == s.taken
    ensures r.fired == s.fired - {s.ready[0].id} && r.ready == s.ready[1..] && r.kind == s.kind
  {
    var t := s.ready[0];
    s.(ready := s.ready[1..], current := Some(t), fired := s.fired - {t.id}, awaiting := s.awaiting[t.id := {}],
       local := if t.wakerType.SingleThreaded? then s.local.(wakers := s.local.wakers + {t.id}) else s.local,
       shared := if t.wakerType.SingleThreaded? then s.shared else s.shared.(wakers := s.shared.wakers + {t.id}))
  }

  function JoinResult(s: State, j: TaskId): JoinPoll
    requires j in s.channels
  {
    match s.channels[j]
    case Empty => Waits
    case Data(v) => Yields(v)
    case Closed => RecvError
  }

  /** The current task polls a join handle: a value is taken, an empty channel keeps the poller's waker. */
  function DoPollJoin(s: State, j: TaskId): (r: State)
    requires s.current.Some? && j in s.channels && s.current.value.id in s.awaiting
    ensures r.finished == s.finished && r.sent == s.sent
    ensures r.taken == if s.channels[j].Empty? then s.taken else s.taken + {j}
    ensures j in r.channels && !r.channels[j].Data? && (r.channels[j].Empty? <==> s.channels[j].Empty?)
    ensures r.fired == s.fired && r.ready == s.ready && r.kind == s.kind
  {
    var t := s.current.value;
    if s.channels[j].Empty? then
      s.(joinWaker := s.joinWaker[j := t], awaiting := s.awaiting[t.id := s.awaiting[t.id] + {j}])
    else
      s.(channels := s.channels[j := Closed], taken := s.taken + {j})
  }

  /** The current task's wrapper sends its result and wakes whoever waits on the handle. */
  function DoSend(s: State, value: int): (r: State)
    requires s.current.Some?
    ensures r.finished == s.finished && r.sent == s.sent[s.current.value.id := value] && r.taken == s.taken
    ensures s.fired <= r.fired && r.ready == s.ready && r.kind == s.kind
  {
    var id := s.current.value.id;
    var sent := s.(sent := s.sent[id := value]);
    if id in s.channels && s.channels[id].Empty? then
      var stored := sent.(channels := s.channels[id := Data(value)]);
      if id in s.joinWaker then DoWake(stored, s.joinWaker[id].wakerType, s.joinWaker[id].id) else stored
    else sent
  }

  function Forget(r: Registry, id: TaskId): Registry {
    r.(wakers := r.wakers - {id})
  }

  function DoEndReady(s: State): (r: State)
    requires s.current.Some?
    ensures s.finished <= r.finished && r.sent == s.sent && r.taken == s.taken
    ensures r.fired == s.fired && r.ready == s.ready && r.kind == s.kind
  {
    var id := s.current.value.id;
    s.(current := None, finished := s.finished + {id}, local := Forget(s.local, id), shared := Forget(s.shared, id))
  }

  function DoEndPending(s: State): (r: State)
    requires s.current.Some?
    ensures r.finished == s.finished && r.sent == s.sent && r.taken == s.taken
    ensures r.fired == s.fired && r.ready == s.ready && r.kind == s.kind
  {
    s.(current := None, waiting := s.waiting[s.current.value.id := s.current.value])
  }

  /** The tasks a list of wakes moves, in order: each the first time it is found waiting. */
  function Roused(waiting: map<TaskId, Task>, woken: seq<TaskId>): seq<Task> {
    if woken == [] then []
    else if woken[0] in waiting then [waiting[woken[0]]] + Roused(waiting - {woken[0]}, woken[1..])
    else Roused(waiting, woken[1..])
  }

  function StillWaiting(waiting: map<TaskId, Task>, woken: seq<TaskId>): map<TaskId, Task> {
    map id | id in waiting && id !in woken :: waiting[id]
  }

  function DoProcessWoken(s: State, t: WakerType): (r: State)
    ensures r.finished == s.finished && r.sent == s.sent && r.taken == s.taken
    ensures r.fired == s.fired && s.ready <= r.ready && r.kind == s.kind
    ensures forall id | id in RegistryOf(s, t).woken :: id !in r.waiting
    ensures forall id | id in s.waiting && id !in RegistryOf(s, t).woken :: id in r.waiting
  {
    var woken := RegistryOf(s, t).woken;
    s.(ready := s.ready + Roused(s.waiting, woken), waiting := StillWaiting(s.waiting, woken),
       local := if t.SingleThreaded? then s.local.(woken := []) else s.local,
       shared := if t.SingleThreaded? then s.shared else s.shared.(woken := []))
  }

  /**
   When a step can happen. `Send` is limited by the sender being consumed, not by
   what the channel holds; a joinable task sends exactly when it is about to be
   Ready.
   */
  predicate Enabled(s: State, e: Event) {
    match e
    case Spawn(_, _) => true
    case Wake(_, _) => true
    case TakeSpawns => s.current.None?
    case BeginPoll => s.current.None? && s.ready != []
    case PollJoin(j) => s.current.Some? && j in s.channels && s.current.value.id in s.awaiting
    case Send(_) => s.current.Some? && s.current.value.id in s.channels && s.current.value.id !in s.sent
    case EndReady => s.current.Some? && (s.current.value.id in s.channels ==> s.current.value.id in s.sent)
    case EndPending => s.current.Some? && s.current.value.id !in s.sent
    case ProcessWoken(_) => s.current.None?
  }

  function Apply(s: State, e: Event): State
    requires Enabled(s, e)
  {
    match e
    case Spawn(t, joinable) => DoSpawn(s, t, joinable)
    case Wake(t, id) => DoWake(s, t, id)
    case TakeSpawns => DoTakeSpawns(s)
    case BeginPoll => DoBeginPoll(s)
    case PollJoin(j) => DoPollJoin(s, j)
    case Send(v) => DoSend(s, v)
    case EndReady => DoEndReady(s)
    case EndPending => DoEndPending(s)
    case ProcessWoken(t) => DoProcessWoken(s, t)
  }

  /** A run from one state to another. */
  ghost predicate Runs(s: State, events: seq<Event>, s': State)
    decreases |events|
  {
    if events == [] then s == s'
    else Enabled(s, events[0]) && Runs(Apply(s, events[0]), events[1..], s')
  }

  /** The ids polled in a run, in order. */
  ghost function Polled(s: State, events: seq<Event>): seq<TaskId>
    decreases |events|
  {
    if events == [] || !Enabled(s, events[0]) then []
    else
      var rest := Polled(Apply(s, events[0]), events[1..]);
      if events[0].BeginPoll? then [s.ready[0].id] + rest else rest
  }

  /** The values polls of one join handle yield in a run, in order. */
  ghost function Yielded(s: State, events: seq<Event>, j: TaskId): seq<int>
    decreases |events|
  {
    if events == [] || !Enabled(s, events[0]) then []
    else
      var rest := Yielded(Apply(s, events[0]), events[1..], j);
      if events[0] == PollJoin(j) && JoinResult(s, j).Yields? then [JoinResult(s, j).value] + rest else rest
  }

  // ----------------------------------------------------------------- invariants

  function IdsOf(tasks: seq<Task>): (ids: seq<TaskId>)
    ensures |ids| == |tasks|
  {
    Map((t: Task) => t.id, tasks)
  }

  function CurrentIds(s: State): multiset<TaskId> {
    if s.current.Some? then multiset{s.current.value.id} else multiset{}
  }

  /** Where every id is: the two queues, the poll in progress, the waiting map, or finished. */
  ghost function Places(s: State): multiset<TaskId> {
    multiset(IdsOf(s.pendingSpawns)) + multiset(IdsOf(s.ready)) + CurrentIds(s)
    + multiset(s.waiting.Keys) + multiset(s.finished)
  }

  /** Conservation: every id spawned is in exactly one place, exactly once. */
  ghost predicate Conserved(s: State) {
    && Places(s) == multiset(Range(s.nextId))
    && forall id | id in s.waiting :: s.waiting[id].id == id
  }

  ghost predicate IsKnown(s: State, t: Task) {
    t.id in s.kind && s.kind[t.id] == t.wakerType
  }

  /** Every task is of the kind it was spawned as. */
  ghost predicate KindsAgree(s: State) {
    && (forall id | id in s.kind :: id < s.nextId)
    && (forall i | 0 <= i < |s.pendingSpawns| :: IsKnown(s, s.pendingSpawns[i]))
    && (forall i | 0 <= i < |s.ready| :: IsKnown(s, s.ready[i]))
    && (s.current.Some? ==> IsKnown(s, s.current.value))
    && (forall id | id in s.waiting :: IsKnown(s, s.waiting[id]))
    && (forall j | j in s.joinWaker :: IsKnown(s, s.joinWaker[j]))
  }

  /** A polled task's own registry holds its waker, and its wake if it fired. */
  ghost predicate IsReachable(s: State, t: Task) {
    var r := RegistryOf(s, t.wakerType);
    t.id in r.wakers && (t.id in s.fired ==> t.id in r.woken)
  }

  /** No wake-up is lost: a wake fired since its task's last poll began is still waiting to be processed. */
  ghost predicate NoWakeLost(s: State) {
    && (s.current.Some? ==> IsReachable(s, s.current.value))
    && (forall id | id in s.waiting :: IsReachable(s, s.waiting[id]))
  }

  /** What a join channel holds is fixed by what was sent and what was taken. */
  ghost predicate ChannelsAgree(s: State) {
    && (forall j | j in s.channels :: j in s.kind)
    && (forall j | j in s.joinWaker :: j in s.channels)
    && (forall j | j in s.sent :: j in s.channels)
    && (forall j | j in s.taken :: j in s.sent)
    && (forall j | j in s.channels ::
          s.channels[j] == if j !in s.sent then Empty else if j in s.taken then Closed else Data(s.sent[j]))
    && (forall j | j in s.channels && j in s.finished :: j in s.sent)
  }

  /** Task `w` found `j` empty in its latest poll and `j` would still wake it. */
  ghost predicate Expects(s: State, w: TaskId, j: TaskId) {
    w in s.awaiting && j in s.awaiting[w] && j in s.joinWaker && s.joinWaker[j].id == w
  }

  /** A join never stalls: whoever still expects a value that was sent has been woken for it. */
  ghost predicate JoinsWake(s: State) {
    && (s.current.Some? ==> s.current.value.id in s.awaiting)
    && (forall w, j | Expects(s, w, j) && j in s.sent :: w in s.fired)
  }

  /** Only the task in hand, or one that has finished, has sent its result. */
  ghost predicate SendersAreDone(s: State) {
    forall j | j in s.sent :: j in s.finished || (s.current.Some? && s.current.value.id == j)
  }

  /** Each registry holds wakers only for tasks of its own kind, and none for a finished one. */
  ghost predicate RegistriesAgree(s: State) {
    && (forall id | id in s.local.wakers :: id in s.kind && s.kind[id].SingleThreaded?)
    && (forall id | id in s.shared.wakers :: id in s.kind && s.kind[id].ThreadSafe?)
    && (forall id | id in s.finished :: id !in s.local.wakers && id !in s.shared.wakers)
  }

  ghost predicate Inv(s: State) {
    && Conserved(s) && KindsAgree(s) && NoWakeLost(s) && ChannelsAgree(s) && JoinsWake(s)
    && SendersAreDone(s) && RegistriesAgree(s)
  }
}
