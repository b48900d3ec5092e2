/**
 Sequential operations over one file handle and its shared cursor, as a state
 machine. Clones of a file share the state; the borrow each sequential future holds
 is on the clone it was started from.
 */
module FileProtocol {
  import opened Options
  import opened Arith
  import opened Fnv

  type OpId = nat
  type FileId = nat

  const MAX_U64: U64 := 0xFFFF_FFFF_FFFF_FFFF
  const FILE_TYPE_CHAR: nat := 2
  const FILE_TYPE_PIPE: nat := 3

  datatype FileError = NotSeekable(fileType: nat) | OperationOutstanding | Driver(code: nat)

  /** How an operation ends: the bytes it moved, or why it failed. */
  datatype Transfer = Moved(bytes: U32) | Failed(error: FileError)

  datatype Stage = Rejected(error: FileError) | InFlight | Finished(outcome: Transfer) | Spent

  datatype Future = Future(file: FileId, offset: U64, buffer: nat, stage: Stage)

  /** Bytes an observed operation moved, and where. */
  datatype Extent = Extent(offset: U64, bytes: U32)

  /**
   `guards` are the operations holding a sequential guard, `kernel` those the kernel
   still works on. The last two fields are history: where the cursor was last set,
   and the successes observed since.
   */
  datatype State = State(
    cursor: U64,
    outstanding: bool,
    fileType: Option<nat>,
    futures: map<OpId, Future>,
    guards: set<OpId>,
    kernel: set<OpId>,
    next: OpId,
    base: U64,
    seen: seq<Extent>
  )

  const FRESH := State(0, false, None, map[], {}, {}, 0, 0, [])

  /** `Start` names what a type query would answer and whether the driver takes the operation. */
  datatype Event =
    | Start(file: FileId, buffer: nat, queried: nat, refusal: Option<nat>)
    | Complete(op: OpId, outcome: Transfer)
    | Observe(op: OpId)
    | Drop(op: OpId)
    | SetCursor(file: FileId, position: U64)

  function SaturatingAdd(a: U64, b: nat): U64 {
    Min(a + b, MAX_U64)
  }

  // --------------------------------------------------------------------- steps

  /** The handle's type: the first answer is kept. */
  function TypeOf(s: State, queried: nat): nat {
    if s.fileType.Some? then s.fileType.value else queried
  }

  predicate HasNoOffset(fileType: nat) {
    fileType == FILE_TYPE_PIPE || fileType == FILE_TYPE_CHAR
  }

  predicate IsBorrowed(s: State, file: FileId) {
    exists op | op in s.futures :: s.futures[op].file == file
  }

  function DoStart(s: State, file: FileId, buffer: nat, queried: nat, refusal: Option<nat>): State {
    var fileType := TypeOf(s, queried);
    var op := s.next;
    var known := s.(fileType := Some(fileType), next := op + 1);
    var future := Future(file, s.cursor, buffer, InFlight);
    if HasNoOffset(fileType) then
      known.(futures := s.futures[op := future.(stage := Rejected(NotSeekable(fileType)))])
    else if s.outstanding then
      known.(futures := s.futures[op := future.(stage := Rejected(OperationOutstanding))])
    else if refusal.Some? then
      // The guard is claimed and dropped again with the payload the driver hands back.
      known.(futures := s.futures[op := future.(stage := Finished(Failed(Driver(refusal.value))))])
    else
      known.(futures := s.futures[op := future], outstanding := true, guards := s.guards + {op}, kernel := s.kernel + {op})
  }

  /** Terminal completion drops the guard, whether or not the future is still there. */
  function DoComplete(s: State, op: OpId, outcome: Transfer): State {
    s.(kernel := s.kernel - {op}, guards := s.guards - {op}, outstanding := false,
       futures := if op in s.futures then s.futures[op := s.futures[op].(stage := Finished(outcome))] else s.futures)
  }

  /** What a future's last poll answers, with the buffer it gives back. */
  function Answer(f: Future): (Transfer, nat)
    requires f.stage.Rejected? || f.stage.Finished?
  {
    (if f.stage.Rejected? then Failed(f.stage.error) else f.stage.outcome, f.buffer)
  }

  function DoObserve(s: State, op: OpId): State
    requires op in s.futures && (s.futures[op].stage.Rejected? || s.futures[op].stage.Finished?)
  {
    var f := s.futures[op];
    var spent := s.(futures := s.futures[op := f.(stage := Spent)]);
    match Answer(f).0
    case Moved(n) => spent.(cursor := SaturatingAdd(s.cursor, n), seen := s.seen + [Extent(f.offset, n)])
    case Failed(_) => spent
  }

  function DoDrop(s: State, op: OpId): State {
    s.(futures := s.futures - {op})
  }

  function DoSetCursor(s: State, position: U64): State {
    s.(cursor := position, base := position, seen := [])
  }

  /** Starting and setting the cursor take the file exclusively, and a future keeps it so until dropped. */
  predicate Enabled(s: State, e: Event) {
    match e
    case Start(file, _, _, _) => !IsBorrowed(s, file)
    case Complete(op, _) => op in s.kernel
    case Observe(op) => op in s.futures && (s.futures[op].stage.Rejected? || s.futures[op].stage.Finished?)
    case Drop(op) => op in s.futures
    case SetCursor(file, _) => !IsBorrowed(s, file)
  }

  function Apply(s: State, e: Event): State
    requires Enabled(s, e)
  {
    match e
    case Start(file, buffer, queried, refusal) => DoStart(s, file, buffer, queried, refusal)
    case Complete(op, outcome) => DoComplete(s, op, outcome)
    case Observe(op) => DoObserve(s, op)
    case Drop(op) => DoDrop(s, op)
    case SetCursor(_, position) => DoSetCursor(s, position)
  }

  ghost predicate Runs(s: State, events: seq<Event>, t: State)
    decreases |events|
  {
    if events == [] then s == t
    else Enabled(s, events[0]) && Runs(Apply(s, events[0]), events[1..], t)
  }

  // ------------------------------------------------------------ one guard alive

  /** The flag is set exactly while one guard is alive, and guards are the operations in the kernel. */
  ghost predicate GuardsAgree(s: State) {
    && s.guards == s.kernel
    && (s.outstanding <==> s.guards != {})
    && (forall a, b | a in s.guards && b in s.guards :: a == b)
  }

  /** A future waits exactly while its operation is in the kernel. */
  ghost predicate FuturesAgree(s: State) {
    && (forall op | op in s.kernel :: op < s.next)
    && (forall op | op in s.futures :: op < s.next)
    && (forall op | op in s.futures :: s.futures[op].stage.InFlight? <==> op in s.kernel)
  }

  /** Where the successes observed since the cursor was last set leave it. */
  function End(base: U64, seen: seq<Extent>): U64
    decreases |seen|
  {
    var n := |seen| - 1;
    if n < 0 then base else SaturatingAdd(End(base, seen[..n]), seen[n].bytes)
  }

  ghost predicate Inv(s: State) {
    GuardsAgree(s) && FuturesAgree(s) && s.cursor == End(s.base, s.seen)
  }

  lemma EndExtends(base: U64, seen: seq<Extent>, e: Extent)
    ensures End(base, seen + [e]) == SaturatingAdd(End(base, seen), e.bytes)
  {
    assert (seen + [e])[..|seen|] == seen;
  }

  lemma StartKeeps(s: State, e: Event)
    requires Inv(s) && e.Start? && Enabled(s, e)
    ensures Inv(Apply(s, e))
  {
  }

  lemma CompletionKeeps(s: State, op: OpId, outcome: Transfer)
    requires Inv(s) && Enabled(s, Complete(op, outcome))
    ensures Inv(Apply(s, Complete(op, outcome)))
  {
  }

  lemma ObservingKeeps(s: State, op: OpId)
    requires Inv(s) && Enabled(s, Observe(op))
    ensures Inv(Apply(s, Observe(op)))
  {
    ObservingKeepsFutures(s, op);
    ObservingMovesTheCursor(s, op);
    hide Apply, GuardsAgree, FuturesAgree, End;
  }

  lemma ObservingKeepsFutures(s: State, op: OpId)
    requires GuardsAgree(s) && FuturesAgree(s) && Enabled(s, Observe(op))
    ensures GuardsAgree(Apply(s, Observe(op))) && FuturesAgree(Apply(s, Observe(op)))
  {
  }

  lemma ObservingMovesTheCursor(s: State, op: OpId)
    requires s.cursor == End(s.base, s.seen) && Enabled(s, Observe(op))
    ensures var t := Apply(s, Observe(op)); t.cursor == End(t.base, t.seen)
  {
    hide End;
    var f := s.futures[op];
    if Answer(f).0.Moved? {
      EndExtends(s.base, s.seen, Extent(f.offset, Answer(f).0.bytes));
    }
  }

  lemma InvIsKept(s: State, e: Event)
    requires Inv(s) && Enabled(s, e)
    ensures Inv(Apply(s, e))
  {
    match e
    case Start(_, _, _, _) => StartKeeps(s, e);
    case Complete(op, outcome) => CompletionKeeps(s, op, outcome);
    case Observe(op) => ObservingKeeps(s, op);
    case Drop(_) =>
    case SetCursor(_, _) =>
  }

  lemma {:induction false} InvHoldsThroughout(s: State, events: seq<Event>, t: State)
    requires Inv(s) && Runs(s, events, t)
    ensures Inv(t)
    decreases |events|
  {
    if events != [] {
      InvIsKept(s, events[0]);
      InvHoldsThroughout(Apply(s, events[0]), events[1..], t);
    }
  }

  /** In every reachable state at most one sequential operation is in the kernel, whatever is cloned or dropped. */
  lemma AtMostOneInTheKernel(events: seq<Event>, s: State)
    requires Runs(FRESH, events, s)
    ensures |s.kernel| == |s.guards| == if s.outstanding then 1 else 0
  {
    InvHoldsThroughout(FRESH, events, s);
    if s.outstanding {
      var op :| op in s.guards;
      assert s.guards == {op};
    }
  }

  // ---------------------------------------------------------------- refusals

  /** A start is refused exactly when the handle has no offset or an operation is in the kernel; nothing else changes. */
  lemma RefusedStartChangesNothing(s: State, file: FileId, buffer: nat, queried: nat, refusal: Option<nat>)
    requires Inv(s) && !IsBorrowed(s, file)
    ensures var t := Apply(s, Start(file, buffer, queried, refusal));
            && s.next in t.futures
            && (t.futures[s.next].stage.Rejected? <==> HasNoOffset(TypeOf(s, queried)) || s.kernel != {})
            && (t.futures[s.next].stage.Rejected? ==>
                  && t == s.(fileType := t.fileType, next := s.next + 1, futures := t.futures)
                  && t.futures - {s.next} == s.futures
                  && Enabled(t, Observe(s.next))
                  && Answer(t.futures[s.next]).1 == buffer
                  && Apply(Apply(t, Observe(s.next)), Drop(s.next)) == s.(fileType := t.fileType, next := s.next + 1))
  {
    assert s.next !in s.futures;
    var t := Apply(s, Start(file, buffer, queried, refusal));
    assert t.futures - {s.next} == s.futures;
    if t.futures[s.next].stage.Rejected? {
      var seen := Apply(t, Observe(s.next));
      assert seen.futures - {s.next} == s.futures;
    }
  }

  /** The answer that does not come from the kernel names what stopped the start, in the order it is looked at. */
  function RefusalOf(s: State, queried: nat, code: nat): FileError {
    var fileType := if s.fileType.Some? then s.fileType.value else queried;
    if fileType == 2 || fileType == 3 then NotSeekable(fileType)
    else if s.kernel != {} then OperationOutstanding
    else Driver(code)
  }

  /** A start that does not reach the kernel answers why, whenever it is polled, with the caller's own buffer. */
  lemma RefusalIsAnswered(s: State, file: FileId, buffer: nat, queried: nat, refusal: Option<nat>, events: seq<Event>,
                          t: State)
    requires Inv(s) && !IsBorrowed(s, file)
    requires var e := Start(file, buffer, queried, refusal);
             !IsAccepted(s, e) && Runs(Apply(s, e), events, t) && Enabled(t, Observe(s.next))
    ensures var code := if refusal.Some? then refusal.value else 0;
            Answer(t.futures[s.next]) == (Failed(RefusalOf(s, queried, code)), buffer)
  {
    var e := Start(file, buffer, queried, refusal);
    var m := Apply(s, e);
    InvIsKept(s, e);
    assert s.next in m.futures && s.next !in m.kernel;
    FutureKeepsItsBuffer(m, events, t, s.next);
    OutcomeStays(m, events, t, s.next);
  }

  /** Every future gives back the buffer it was started with. */
  lemma EveryBufferComesBack(s: State, file: FileId, buffer: nat, queried: nat, refusal: Option<nat>, events: seq<Event>,
                             t: State)
    requires Inv(s) && !IsBorrowed(s, file)
    requires Runs(Apply(s, Start(file, buffer, queried, refusal)), events, t) && Enabled(t, Observe(s.next))
    ensures Answer(t.futures[s.next]).1 == buffer
  {
    FutureKeepsItsBuffer(Apply(s, Start(file, buffer, queried, refusal)), events, t, s.next);
  }

  /** And answers what its completion reported. */
  lemma AnswerIsTheCompletion(s: State, op: OpId, outcome: Transfer, events: seq<Event>, t: State)
    requires Inv(s) && Enabled(s, Complete(op, outcome))
    requires Runs(Apply(s, Complete(op, outcome)), events, t) && Enabled(t, Observe(op))
    ensures Answer(t.futures[op]).0 == outcome
  {
    var m := Apply(s, Complete(op, outcome));
    InvIsKept(s, Complete(op, outcome));
    if op in s.futures {
      OutcomeStays(m, events, t, op);
    } else {
      DroppedStaysDropped(m, events, t, op);
    }
  }

  /** An outcome out of the kernel's hands stays as it is until it has been observed. */
  lemma {:induction false} OutcomeStays(s: State, events: seq<Event>, t: State, op: OpId)
    requires Inv(s) && Runs(s, events, t) && op in s.futures && op !in s.kernel && op in t.futures
    ensures t.futures[op].stage == s.futures[op].stage || t.futures[op].stage == Spent
    decreases |events|
  {
    if events != [] {
      var m := Apply(s, events[0]);
      InvIsKept(s, events[0]);
      OutcomeStaysOneStep(s, events[0], op);
      if op in m.futures {
        OutcomeStays(m, events[1..], t, op);
      } else {
        DroppedStaysDropped(m, events[1..], t, op);
      }
    }
  }

  lemma OutcomeStaysOneStep(s: State, e: Event, op: OpId)
    requires Inv(s) && Enabled(s, e) && op in s.futures && op !in s.kernel
    ensures var m := Apply(s, e);
            && op < m.next && op !in m.kernel
            && (op in m.futures ==> m.futures[op].stage == s.futures[op].stage || m.futures[op].stage == Spent)
  {
  }

  /** The answer a type query gives first is the one that counts. */
  lemma FirstQueryCounts(s: State, e: Event)
    requires e.Start? && Enabled(s, e)
    ensures Apply(s, e).fileType == if s.fileType.Some? then s.fileType else Some(e.queried)
  {
  }

  /** Once a handle's type is known, every later start is judged by the same answer. */
  lemma {:induction false} TypeIsFixed(s: State, events: seq<Event>, t: State)
    requires Runs(s, events, t) && s.fileType.Some?
    ensures t.fileType == s.fileType
    decreases |events|
  {
    if events != [] {
      TypeIsFixed(Apply(s, events[0]), events[1..], t);
    }
  }

  /** Whatever else happens, a future keeps its buffer, its offset and its file. */
  lemma {:induction false} FutureKeepsItsBuffer(s: State, events: seq<Event>, t: State, op: OpId)
    requires Runs(s, events, t) && op in s.futures && op < s.next && op in t.futures
    ensures t.futures[op].(stage := s.futures[op].stage) == s.futures[op]
    decreases |events|
  {
    if events != [] {
      var m := Apply(s, events[0]);
      if op in m.futures {
        FutureKeepsItsBuffer(m, events[1..], t, op);
      } else {
        DroppedStaysDropped(m, events[1..], t, op);
      }
    }
  }

  // ----------------------------------------------------------------- dropping

  /** The operations a run observes, in order. */
  ghost function Observations(events: seq<Event>): (ops: seq<OpId>)
    decreases |events|
  {
    if events == [] then []
    else if events[0].Observe? then [events[0].op] + Observations(events[1..])
    else Observations(events[1..])
  }

  lemma {:induction false} DroppedStaysDropped(s: State, events: seq<Event>, t: State, op: OpId)
    requires Runs(s, events, t) && op !in s.futures && op < s.next
    ensures op !in t.futures && op !in Observations(events)
    decreases |events|
  {
    if events != [] {
      DroppedStaysDropped(Apply(s, events[0]), events[1..], t, op);
    }
  }

  /** Dropping a future takes the future and nothing else: its operation, its guard and the cursor stay. */
  lemma DropTakesTheFutureOnly(s: State, op: OpId)
    requires Enabled(s, Drop(op))
    ensures Apply(s, Drop(op)) == s.(futures := s.futures - {op})
  {
  }

  /** Only its own completion takes an operation out of the kernel, so until then no other start gets there. */
  lemma {:induction false} OnlyCompletionReleases(s: State, events: seq<Event>, t: State, op: OpId, e: Event)
    requires Inv(s) && op in s.kernel && Runs(s, events, t)
    requires forall i | 0 <= i < |events| :: !(events[i].Complete? && events[i].op == op)
    requires e.Start? && Enabled(t, e)
    ensures op in t.kernel && !IsAccepted(t, e)
    decreases |events|
  {
    if events != [] {
      InvIsKept(s, events[0]);
      OnlyCompletionReleases(Apply(s, events[0]), events[1..], t, op, e);
    }
  }

  /** A dropped future's operation may complete, but it is never observed. */
  lemma DroppedIsNeverObserved(s: State, events: seq<Event>, t: State, op: OpId)
    requires Inv(s) && Enabled(s, Drop(op)) && Runs(Apply(s, Drop(op)), events, t)
    ensures op !in Observations(events) && op !in t.futures
  {
    DroppedStaysDropped(Apply(s, Drop(op)), events, t, op);
  }

  /** Only observing a success or setting the cursor moves it: completions and drops never do. */
  lemma {:induction false} UnobservedNeverMovesTheCursor(s: State, events: seq<Event>, t: State)
    requires Runs(s, events, t)
    requires forall i | 0 <= i < |events| :: !events[i].Observe? && !events[i].SetCursor?
    ensures t.cursor == s.cursor && t.seen == s.seen
    decreases |events|
  {
    if events != [] {
      UnobservedNeverMovesTheCursor(Apply(s, events[0]), events[1..], t);
    }
  }

  // -------------------------------------------------------------------- tiling

  /** Each observed success starts where the ones before it left the cursor. */
  ghost predicate Tiled(s: State) {
    forall i | 0 <= i < |s.seen| :: s.seen[i].offset == End(s.base, s.seen[..i])
  }

  /** An operation that still may move, or has moved, bytes nobody has observed. */
  predicate IsLive(f: Future) {
    f.stage.InFlight? || (f.stage.Finished? && f.stage.outcome.Moved?)
  }

  ghost predicate AllSettled(s: State) {
    forall op | op in s.futures :: !IsLive(s.futures[op])
  }

  /** A start that reaches the kernel. */
  predicate IsAccepted(s: State, e: Event) {
    e.Start? && !HasNoOffset(TypeOf(s, e.queried)) && !s.outstanding && e.refusal.None?
  }

  /**
   No operation reaches the kernel, and the cursor is not moved, while another one is
   live. Two calls are harmless even then: a start at the last offset there is, and
   setting the cursor to where it stands.
   */
  ghost predicate Disciplined(s: State, e: Event) {
    && (e.SetCursor? ==> AllSettled(s) || e.position == s.cursor)
    && (IsAccepted(s, e) ==> AllSettled(s) || s.cursor == MAX_U64)
  }

  ghost predicate RunsDisciplined(s: State, events: seq<Event>, t: State)
    decreases |events|
  {
    if events == [] then s == t
    else Enabled(s, events[0]) && Disciplined(s, events[0]) && RunsDisciplined(Apply(s, events[0]), events[1..], t)
  }

  /** The live operation, if there is one, is at the cursor; there are more only where the cursor can go no further. */
  ghost predicate AtTheCursor(s: State) {
    && (forall op | op in s.futures && IsLive(s.futures[op]) :: s.futures[op].offset == s.cursor)
    && (s.cursor == MAX_U64 ||
        forall a, b | a in s.futures && b in s.futures && IsLive(s.futures[a]) && IsLive(s.futures[b]) :: a == b)
  }

  lemma TiledExtends(s: State, t: State, e: Extent)
    requires Inv(s) && t.base == s.base && t.seen == s.seen + [e] && Tiled(s)
    ensures Tiled(t) <==> e.offset == s.cursor
  {
    assert t.seen[..|s.seen|] == s.seen;
    forall i | 0 <= i < |s.seen|
      ensures t.seen[i].offset == End(t.base, t.seen[..i])
    {
      assert t.seen[..i] == s.seen[..i];
    }
  }

  /** Observing a success keeps the tiling exactly when the cursor still stands where the operation started. */
  lemma ObservingTilesExactly(s: State, op: OpId)
    requires Inv(s) && Tiled(s) && Enabled(s, Observe(op)) && Answer(s.futures[op]).0.Moved?
    ensures Tiled(Apply(s, Observe(op))) <==> s.cursor == s.futures[op].offset
  {
    var f := s.futures[op];
    TiledExtends(s, Apply(s, Observe(op)), Extent(f.offset, Answer(f).0.bytes));
  }

  lemma DisciplineIsKept(s: State, e: Event)
    requires Inv(s) && AtTheCursor(s) && Tiled(s) && Enabled(s, e) && Disciplined(s, e)
    ensures AtTheCursor(Apply(s, e)) && Tiled(Apply(s, e))
  {
    match e
    case Start(_, _, _, _) => StartKeepsTheDiscipline(s, e);
    case Complete(op, outcome) => CompletionKeepsTheDiscipline(s, op, outcome);
    case Observe(op) => ObservingKeepsTheDiscipline(s, op);
    case Drop(_) =>
    case SetCursor(_, _) =>
  }

  lemma StartKeepsTheDiscipline(s: State, e: Event)
    requires Inv(s) && AtTheCursor(s) && Tiled(s) && e.Start? && Enabled(s, e) && Disciplined(s, e)
    ensures AtTheCursor(Apply(s, e)) && Tiled(Apply(s, e))
  {
  }

  lemma CompletionKeepsTheDiscipline(s: State, op: OpId, outcome: Transfer)
    requires Inv(s) && AtTheCursor(s) && Tiled(s) && Enabled(s, Complete(op, outcome))
    ensures AtTheCursor(Apply(s, Complete(op, outcome))) && Tiled(Apply(s, Complete(op, outcome)))
  {
  }

  lemma ObservingKeepsTheDiscipline(s: State, op: OpId)
    requires Inv(s) && AtTheCursor(s) && Tiled(s) && Enabled(s, Observe(op))
    ensures AtTheCursor(Apply(s, Observe(op))) && Tiled(Apply(s, Observe(op)))
  {
    if Answer(s.futures[op]).0.Moved? {
      ObservingTilesExactly(s, op);
      hide Inv, Tiled;
    }
  }

  /**
   While no operation reaches the kernel, and the cursor is not moved, behind a live
   one, observed successes tile the file from where the cursor was last set.
   */
  lemma {:induction false} DisciplinedRunsTile(s: State, events: seq<Event>, t: State)
    requires Inv(s) && AtTheCursor(s) && Tiled(s) && RunsDisciplined(s, events, t)
    ensures Inv(t) && Tiled(t) && AtTheCursor(t)
    decreases |events|
  {
    if events != [] {
      InvIsKept(s, events[0]);
      DisciplineIsKept(s, events[0]);
      DisciplinedRunsTile(Apply(s, events[0]), events[1..], t);
    }
  }

  // ------------------------------------------------- the discipline is exact

  /** However the run goes on, keeping to the discipline, it tiles. */
  ghost predicate TilesFromHere(s: State) {
    forall events, t :: RunsDisciplined(s, events, t) ==> Tiled(t)
  }

  lemma {:induction false} DisciplinedRunsAreRuns(s: State, events: seq<Event>, t: State)
    requires RunsDisciplined(s, events, t)
    ensures Runs(s, events, t)
    decreases |events|
  {
    hide Apply, Enabled, Disciplined;
    if events != [] {
      DisciplinedRunsAreRuns(Apply(s, events[0]), events[1..], t);
    }
  }

  lemma OneStep(s: State, e: Event)
    requires Enabled(s, e) && Disciplined(s, e)
    ensures RunsDisciplined(s, [e], Apply(s, e))
  {
    hide Apply, Enabled, Disciplined;
    assert RunsDisciplined(Apply(s, e), [e][1..], Apply(s, e));
  }

  lemma OneStepMore(s: State, e: Event, events: seq<Event>, t: State)
    requires Enabled(s, e) && Disciplined(s, e) && RunsDisciplined(Apply(s, e), events, t)
    ensures RunsDisciplined(s, [e] + events, t)
  {
    hide Apply, Enabled, Disciplined;
    assert ([e] + events)[1..] == events;
  }

  lemma TwoSteps(s: State, e: Event, f: Event)
    requires Enabled(s, e) && Disciplined(s, e) && Enabled(Apply(s, e), f) && Disciplined(Apply(s, e), f)
    ensures RunsDisciplined(s, [e, f], Apply(Apply(s, e), f))
  {
    OneStep(Apply(s, e), f);
    OneStepMore(s, e, [f], Apply(Apply(s, e), f));
    assert [e] + [f] == [e, f];
  }

  /** A success observed away from the cursor leaves a gap or an overlap. */
  lemma AwayFromTheCursor(s: State, op: OpId)
    requires Inv(s) && Enabled(s, Observe(op)) && Answer(s.futures[op]).0.Moved?
    requires s.futures[op].offset != s.cursor
    ensures !Tiled(Apply(s, Observe(op)))
  {
    var t, k := Apply(s, Observe(op)), |s.seen|;
    assert t.seen[..k] == s.seen && t.seen[k].offset == s.futures[op].offset;
  }

  /** Any live operation can still turn out a success that is observed. */
  lemma LiveCanBeObserved(s: State, op: OpId)
    requires Inv(s) && op in s.futures && IsLive(s.futures[op]) && s.futures[op].offset != s.cursor
    ensures !TilesFromHere(s)
  {
    var m := s;
    if s.futures[op].stage.InFlight? {
      m := Apply(s, Complete(op, Moved(0)));
      InvIsKept(s, Complete(op, Moved(0)));
    }
    AwayFromTheCursor(m, op);
    var t := Apply(m, Observe(op));
    OneStep(m, Observe(op));
    if s.futures[op].stage.InFlight? {
      OneStepMore(s, Complete(op, Moved(0)), [Observe(op)], t);
    }
  }

  /** Moving the cursor away from under a live operation can always break the tiling. */
  lemma SettingBehindALiveOneBreaks(s: State, e: Event)
    requires Inv(s) && AtTheCursor(s) && e.SetCursor? && Enabled(s, e) && !Disciplined(s, e)
    ensures !TilesFromHere(Apply(s, e))
  {
    var op :| op in s.futures && IsLive(s.futures[op]);
    InvIsKept(s, e);
    LiveCanBeObserved(Apply(s, e), op);
  }

  /** What an accepted start leaves: one more operation, at the cursor. */
  lemma StartedAtTheCursor(s: State, e: Event)
    requires Inv(s) && Enabled(s, e) && IsAccepted(s, e)
    ensures var a := Apply(s, e);
            && a == s.(fileType := a.fileType, next := s.next + 1, outstanding := true, guards := {s.next},
                       kernel := {s.next}, futures := s.futures[s.next := Future(e.file, s.cursor, e.buffer, InFlight)])
            && s.next !in s.futures
  {
    assert s.guards == {} && s.kernel == {};
  }

  lemma Completed(s: State, op: OpId, n: U32)
    requires Inv(s) && op in s.kernel && op in s.futures
    ensures var b := Apply(s, Complete(op, Moved(n)));
            && b == s.(guards := b.guards, kernel := b.kernel, outstanding := false,
                       futures := s.futures[op := s.futures[op].(stage := Finished(Moved(n)))])
  {
  }

  lemma Observed(s: State, op: OpId, n: U32)
    requires op in s.futures && s.futures[op].stage == Finished(Moved(n))
    ensures Enabled(s, Observe(op))
    ensures Apply(s, Observe(op))
         == s.(cursor := SaturatingAdd(s.cursor, n), seen := s.seen + [Extent(s.futures[op].offset, n)],
               futures := s.futures[op := s.futures[op].(stage := Spent)])
  {
  }

  /** Of two successes at one offset, the second to be observed overlaps the first as soon as that one moved a byte. */
  lemma SecondAtOneOffset(s: State, first: OpId, second: OpId, n: U32, m: U32)
    requires Inv(s) && first != second && first in s.futures && second in s.futures
    requires s.futures[first].stage == Finished(Moved(n)) && s.futures[second].stage == Finished(Moved(m))
    requires s.futures[first].offset == s.cursor == s.futures[second].offset
    requires 0 < n && s.cursor < MAX_U64
    ensures exists t ::
              && RunsDisciplined(s, [Observe(first), Observe(second)], t) && !Tiled(t)
              && t.seen == s.seen + [Extent(s.cursor, n), Extent(s.cursor, m)]
  {
    Observed(s, first, n);
    InvIsKept(s, Observe(first));
    var c := Apply(s, Observe(first));
    hide Inv, Apply, Enabled;
    Observed(c, second, m);
    AwayFromTheCursor(c, second);
    TwoSteps(s, Observe(first), Observe(second));
    hide Tiled, RunsDisciplined;
    assert s.seen + [Extent(s.cursor, n)] + [Extent(s.cursor, m)] == s.seen + [Extent(s.cursor, n), Extent(s.cursor, m)];
  }

  /** A start accepted behind a live operation can always break the tiling, short of the last offset. */
  lemma StartingBehindALiveOneBreaks(s: State, e: Event)
    requires Inv(s) && AtTheCursor(s) && Enabled(s, e) && IsAccepted(s, e) && !Disciplined(s, e)
    ensures !TilesFromHere(Apply(s, e))
  {
    var op :| op in s.futures && IsLive(s.futures[op]);
    var n := s.futures[op].stage.outcome.bytes;
    var a := Apply(s, e);
    StartedAtTheCursor(s, e);
    InvIsKept(s, e);
    Completed(a, s.next, 1);
    InvIsKept(a, Complete(s.next, Moved(1)));
    SecondAtOneOffset(Apply(a, Complete(s.next, Moved(1))), s.next, op, 1, n);
    hide Inv, Apply, Tiled;
    var t :| RunsDisciplined(Apply(a, Complete(s.next, Moved(1))), [Observe(s.next), Observe(op)], t) && !Tiled(t);
    OneStepMore(a, Complete(s.next, Moved(1)), [Observe(s.next), Observe(op)], t);
  }

  /**
   Exactly when a call is safe. Where the run has kept to the discipline so far, the
   next call leaves a state from which every further disciplined run tiles, if and
   only if that call keeps to the discipline too.
   */
  lemma DisciplineIsExact(s: State, e: Event)
    requires Inv(s) && AtTheCursor(s) && Tiled(s) && Enabled(s, e)
    ensures TilesFromHere(Apply(s, e)) <==> Disciplined(s, e)
  {
    if Disciplined(s, e) {
      InvIsKept(s, e);
      DisciplineIsKept(s, e);
      forall events, t | RunsDisciplined(Apply(s, e), events, t)
        ensures Tiled(t)
      {
        DisciplinedRunsTile(Apply(s, e), events, t);
      }
    } else if e.SetCursor? {
      SettingBehindALiveOneBreaks(s, e);
    } else {
      StartingBehindALiveOneBreaks(s, e);
    }
  }

  /** An accepted start is safe exactly when no operation is live, or the cursor can go no further. */
  lemma StartIsSafeExactly(events: seq<Event>, s: State, e: Event)
    requires RunsDisciplined(FRESH, events, s) && Enabled(s, e) && IsAccepted(s, e)
    ensures TilesFromHere(Apply(s, e)) <==> AllSettled(s) || s.cursor == MAX_U64
  {
    DisciplinedRunsTile(FRESH, events, s);
    DisciplineIsExact(s, e);
  }

  /** Setting the cursor is safe exactly when no operation is live, or it is set to where it stands. */
  lemma SetCursorIsSafeExactly(events: seq<Event>, s: State, file: FileId, position: U64)
    requires RunsDisciplined(FRESH, events, s) && Enabled(s, SetCursor(file, position))
    ensures TilesFromHere(Apply(s, SetCursor(file, position))) <==> AllSettled(s) || position == s.cursor
  {
    DisciplinedRunsTile(FRESH, events, s);
    DisciplineIsExact(s, SetCursor(file, position));
  }

  /** A run in which only one `File` value is used. */
  ghost predicate OnlyFile(events: seq<Event>, file: FileId) {
    forall i | 0 <= i < |events| :: match events[i]
                                    case Start(f, _, _, _) => f == file
                                    case SetCursor(f, _) => f == file
                                    case _ => true
  }

  lemma {:induction false} OneFileIsDisciplined(s: State, events: seq<Event>, t: State, file: FileId)
    requires Runs(s, events, t) && OnlyFile(events, file)
    requires forall op | op in s.futures :: s.futures[op].file == file
    ensures RunsDisciplined(s, events, t)
    decreases |events|
  {
    if events != [] {
      OneFileIsDisciplined(Apply(s, events[0]), events[1..], t, file);
    }
  }

  /**
   Through one unshared file, whatever is dropped, refused, failed or short, the
   successes observed since the cursor was last set tile the file from there.
   */
  lemma OneFileTiles(events: seq<Event>, s: State, file: FileId)
    requires Runs(FRESH, events, s) && OnlyFile(events, file)
    ensures Tiled(s) && s.cursor == End(s.base, s.seen)
    ensures s.cursor == SaturatingAdd(s.base, TotalBytes(s.seen))
  {
    OneFileIsDisciplined(FRESH, events, s, file);
    DisciplinedRunsTile(FRESH, events, s);
    EndIsTheTotal(s.base, s.seen);
  }

  function TotalBytes(seen: seq<Extent>): nat {
    if seen == [] then 0 else TotalBytes(seen[..|seen| - 1]) + seen[|seen| - 1].bytes
  }

  /** Saturating step by step is saturating once. */
  lemma {:induction false} EndIsTheTotal(base: U64, seen: seq<Extent>)
    ensures End(base, seen) == SaturatingAdd(base, TotalBytes(seen))
    decreases |seen|
  {
    if seen != [] {
      EndIsTheTotal(base, seen[..|seen| - 1]);
    }
  }

  lemma {:induction false} EndGrows(base: U64, seen: seq<Extent>, i: nat)
    requires i <= |seen|
    ensures End(base, seen[..i]) <= End(base, seen)
    decreases |seen|
  {
    var n := |seen| - 1;
    if i <= n {
      EndGrows(base, seen[..n], i);
      assert seen[..n][..i] == seen[..i];
    } else {
      assert seen[..i] == seen;
    }
  }

  /** Tiles do not overlap: a later one starts at or after the end of an earlier one, or at the last offset there is. */
  lemma TilesAreDisjoint(s: State, i: nat, j: nat)
    requires Tiled(s) && i < j < |s.seen|
    ensures s.seen[i].offset + s.seen[i].bytes <= s.seen[j].offset || s.seen[j].offset == MAX_U64
  {
    var upTo := s.seen[..j];
    assert upTo[..i + 1][..i] == s.seen[..i];
    EndGrows(s.base, upTo, i + 1);
  }

  /** Through clones such starts are not refused: two operations then share an offset, and count its bytes twice. */
  lemma ClonesOverlap(s: State, op: OpId, n: U32, m: U32, e: Event)
    requires Inv(s) && op in s.futures && s.futures[op].stage == Finished(Moved(n)) && s.futures[op].offset == s.cursor
    requires Enabled(s, e) && IsAccepted(s, e) && s.cursor < MAX_U64
    ensures 0 < n ==> exists t ::
              && Runs(s, [e, Complete(s.next, Moved(m)), Observe(op), Observe(s.next)], t) && !Tiled(t)
              && t.seen == s.seen + [Extent(s.cursor, n), Extent(s.cursor, m)]
    ensures 0 < m ==> exists t ::
              && Runs(s, [e, Complete(s.next, Moved(m)), Observe(s.next), Observe(op)], t) && !Tiled(t)
              && t.seen == s.seen + [Extent(s.cursor, m), Extent(s.cursor, n)]
  {
    var a := Apply(s, e);
    StartedAtTheCursor(s, e);
    InvIsKept(s, e);
    Completed(a, s.next, m);
    InvIsKept(a, Complete(s.next, Moved(m)));
    var b := Apply(a, Complete(s.next, Moved(m)));
    assert Enabled(a, Complete(s.next, Moved(m)));
    hide Inv, Apply, Enabled, Tiled;
    if 0 < n {
      SecondAtOneOffset(b, op, s.next, n, m);
      var t :| RunsDisciplined(b, [Observe(op), Observe(s.next)], t) && !Tiled(t)
               && t.seen == s.seen + [Extent(s.cursor, n), Extent(s.cursor, m)];
      DisciplinedRunsAreRuns(b, [Observe(op), Observe(s.next)], t);
      TwoThenTwo(s, e, Complete(s.next, Moved(m)), Observe(op), Observe(s.next), t);
    }
    if 0 < m {
      SecondAtOneOffset(b, s.next, op, m, n);
      var t :| RunsDisciplined(b, [Observe(s.next), Observe(op)], t) && !Tiled(t)
               && t.seen == s.seen + [Extent(s.cursor, m), Extent(s.cursor, n)];
      DisciplinedRunsAreRuns(b, [Observe(s.next), Observe(op)], t);
      TwoThenTwo(s, e, Complete(s.next, Moved(m)), Observe(s.next), Observe(op), t);
    }
  }

  lemma TwoThenTwo(s: State, e: Event, f: Event, g: Event, h: Event, t: State)
    requires Enabled(s, e) && Enabled(Apply(s, e), f) && Runs(Apply(Apply(s, e), f), [g, h], t)
    ensures Runs(s, [e, f, g, h], t)
  {
    hide Apply, Enabled;
    assert [e, f, g, h][1..] == [f, g, h] && [f, g, h][1..] == [g, h];
    assert Runs(Apply(s, e), [f, g, h], t);
  }

  /** Two clones of a file that has an offset do reach such a state. */
  lemma ClonesReachOverlap(n: U32)
    ensures var events := [Start(0, 0, 1, None), Complete(0, Moved(n))];
            exists s :: Runs(FRESH, events, s) && s.futures == map[0 := Future(0, 0, 0, Finished(Moved(n)))]
                        && s.cursor == 0 && !s.outstanding && s.fileType == Some(1) && s.next == 1
  {
    var events := [Start(0, 0, 1, None), Complete(0, Moved(n))];
    var a := Apply(FRESH, events[0]);
    var b := Apply(a, events[1]);
    assert events[1..] == [Complete(0, Moved(n))];
    assert Runs(b, events[1..][1..], b);
    assert Runs(a, events[1..], b);
  }

  lemma {:induction false} RunsConcat(s: State, a: seq<Event>, m: State, b: seq<Event>, t: State)
    requires Runs(s, a, m) && Runs(m, b, t)
    ensures Runs(s, a + b, t)
    decreases |a|
  {
    hide Apply, Enabled;
    if a == [] {
      assert a + b == b;
    } else {
      RunsConcat(Apply(s, a[0]), a[1..], m, b, t);
      assert (a + b)[1..] == a[1..] + b;
    }
  }

  /** From a fresh file, starting through a clone behind a success nobody has observed breaks the tiling. */
  lemma StartingThroughACloneBreaks(n: U32, m: U32)
    requires 0 < m
    ensures var events := [Start(0, 0, 1, None), Complete(0, Moved(n)),
                           Start(1, 0, 1, None), Complete(1, Moved(m)), Observe(1), Observe(0)];
            exists t :: Runs(FRESH, events, t) && !Tiled(t)
  {
    var before, after := [Start(0, 0, 1, None), Complete(0, Moved(n))],
                         [Start(1, 0, 1, None), Complete(1, Moved(m)), Observe(1), Observe(0)];
    ClonesReachOverlap(n);
    var s :| Runs(FRESH, before, s) && s.futures == map[0 := Future(0, 0, 0, Finished(Moved(n)))]
             && s.cursor == 0 && !s.outstanding && s.fileType == Some(1) && s.next == 1;
    InvHoldsThroughout(FRESH, before, s);
    ClonesOverlap(s, 0, n, m, Start(1, 0, 1, None));
    hide Inv, Apply, Enabled, Tiled;
    var t :| Runs(s, after, t) && !Tiled(t);
    RunsConcat(FRESH, before, s, after, t);
    assert before + after == [Start(0, 0, 1, None), Complete(0, Moved(n)),
                              Start(1, 0, 1, None), Complete(1, Moved(m)), Observe(1), Observe(0)];
  }

  lemma CursorSet(s: State, file: FileId, position: U64)
    requires !IsBorrowed(s, file)
    ensures Enabled(s, SetCursor(file, position))
    ensures Apply(s, SetCursor(file, position)) == s.(cursor := position, base := position, seen := [])
  {
  }

  lemma ThreeSteps(s: State, e: Event, f: Event, g: Event)
    requires Enabled(s, e) && Enabled(Apply(s, e), f) && Enabled(Apply(Apply(s, e), f), g)
    ensures Runs(s, [e, f, g], Apply(Apply(Apply(s, e), f), g))
  {
    hide Apply, Enabled;
    var t := Apply(Apply(Apply(s, e), f), g);
    assert Runs(Apply(Apply(s, e), f), [g], t) by {
      assert Runs(t, [g][1..], t);
    }
    assert [e, f, g][1..] == [f, g] && [f, g][1..] == [g];
    assert Runs(Apply(s, e), [f, g], t);
  }

  /** Moving the cursor while an operation is in the kernel, and then observing its success. */
  lemma SetUnderneath(s: State, op: OpId, n: U32, file: FileId, position: U64)
    requires Inv(s) && op in s.futures && op in s.kernel && s.futures[op].offset != position && !IsBorrowed(s, file)
    ensures exists t ::
              Runs(s, [SetCursor(file, position), Complete(op, Moved(n)), Observe(op)], t) && !Tiled(t)
  {
    CursorSet(s, file, position);
    var b := Apply(s, SetCursor(file, position));
    InvIsKept(s, SetCursor(file, position));
    Completed(b, op, n);
    InvIsKept(b, Complete(op, Moved(n)));
    var c := Apply(b, Complete(op, Moved(n)));
    Observed(c, op, n);
    AwayFromTheCursor(c, op);
    ThreeSteps(s, SetCursor(file, position), Complete(op, Moved(n)), Observe(op));
    hide Inv, Apply, Tiled, Runs;
  }

  /** So does moving the cursor through a clone while the other one's operation is outstanding. */
  lemma SettingThroughACloneBreaks(n: U32, position: U64)
    requires 0 < position
    ensures var events := [Start(0, 0, 1, None), SetCursor(1, position), Complete(0, Moved(n)), Observe(0)];
            exists t :: Runs(FRESH, events, t) && !Tiled(t)
  {
    var first, rest := Start(0, 0, 1, None), [SetCursor(1, position), Complete(0, Moved(n)), Observe(0)];
    StartedAtTheCursor(FRESH, first);
    InvIsKept(FRESH, first);
    var s := Apply(FRESH, first);
    assert Enabled(FRESH, first) && !IsBorrowed(s, 1);
    hide Inv, Apply, Enabled, Tiled, IsBorrowed;
    SetUnderneath(s, 0, n, 1, position);
    var t :| Runs(s, rest, t) && !Tiled(t);
    assert ([first] + rest)[1..] == rest;
    assert Runs(FRESH, [first] + rest, t);
    assert [first] + rest == [Start(0, 0, 1, None), SetCursor(1, position), Complete(0, Moved(n)), Observe(0)];
  }
}
