/** What a future does in one poll, and what a run of polls makes of the executor. */
module Turns {
  import opened Options
  import opened Executor
  import opened ExecutorProofs
  import opened Passes

  /** What a future does while it is polled. */
  datatype Action =
    | SpawnTask(wakerType: WakerType, joinable: bool)
    | WakeTask(registry: WakerType, id: TaskId)
    | PollHandle(joined: TaskId)

  /** One poll: what it does, whether it is then ready and with what, and the wakes other threads land after it. */
  datatype Turn = Turn(actions: seq<Action>, ready: bool, value: int, outside: seq<TaskId>)

  /** Why the loop returned; `Unfinished` is a run still going when the observation ends. */
  datatype Exit = Stopped | Drained | Unfinished

  /** A step, where it can happen. */
  function Step(s: State, e: Event): State {
    if Enabled(s, e) then Apply(s, e) else s
  }

  function EventOf(a: Action): Event {
    match a
    case SpawnTask(t, joinable) => Spawn(t, joinable)
    case WakeTask(t, id) => Wake(t, id)
    case PollHandle(j) => PollJoin(j)
  }

  /** The actions of a poll in order; a join handle that does not exist is not polled. */
  ghost function Acted(s: State, actions: seq<Action>): State
    decreases |actions|
  {
    var n := |actions| - 1;
    if n < 0 then s else Step(Acted(s, actions[..n]), EventOf(actions[n]))
  }

  /** A poll that is ready sends its value if anyone can join it. */
  ghost function Ended(s: State, ready: bool, value: int): State {
    if ready then Step(Step(s, Send(value)), EndReady) else Step(s, EndPending)
  }

  /** The front task polled once. */
  ghost function PolledOnce(s: State, turn: Turn): State {
    Ended(Acted(Step(s, BeginPoll), turn.actions), turn.ready, turn.value)
  }

  ghost function WokenOutside(s: State, ids: seq<TaskId>): State
    decreases |ids|
  {
    var n := |ids| - 1;
    if n < 0 then s else Step(WokenOutside(s, ids[..n]), Wake(ThreadSafe, ids[n]))
  }

  /** A poll, with the spawns and the wakes that follow it. */
  ghost function AfterTurn(s: State, turn: Turn): State {
    WokenOutside(Step(PolledOnce(s, turn), TakeSpawns), turn.outside)
  }

  /** The turns numbered `from` up to `until`, played in order. */
  ghost function AfterTurns(s: State, env: nat -> Turn, from: nat, until: nat): State
    requires from <= until
    decreases until
  {
    if from == until then s else AfterTurn(AfterTurns(s, env, from, until - 1), env(until - 1))
  }

  /** Both registries processed, and the wakes that land before the next pass. */
  ghost function Processed(s: State, ids: seq<TaskId>): State {
    WokenOutside(Step(Step(s, ProcessWoken(SingleThreaded)), ProcessWoken(ThreadSafe)), ids)
  }

  // -------------------------------------------------------------- the whole loop

  /** Where a drain ends, after how many turns, and whether it ended for having reached its goal. */
  datatype Played = Played(state: State, tick: nat, stopped: bool)

  /** The inner loop played from turn `from`: poll, take spawns, stop at the goal, let other threads in. */
  ghost function DrainPlay(s: State, goal: Option<TaskId>, env: nat -> Turn, from: nat, fuel: nat): (p: Played)
    requires from <= fuel
    ensures from <= p.tick <= fuel && (p.stopped ==> from < p.tick)
    decreases fuel - from
  {
    if from == fuel || s.ready == [] then Played(s, from, false)
    else
      var polled := Step(PolledOnce(s, env(from)), TakeSpawns);
      if goal.Some? && goal.value in polled.finished then Played(polled, from + 1, true)
      else DrainPlay(WokenOutside(polled, env(from).outside), goal, env, from + 1, fuel)
  }

  /** Where the loop ends, after how many turns, and why. */
  datatype Ending = Ending(state: State, tick: nat, exit: Exit)

  /** The whole loop played from turn `from`; a pass takes a turn of its own for the wakes that follow it. */
  ghost function LoopPlay(s: State, goal: Option<TaskId>, env: nat -> Turn, from: nat, fuel: nat): Ending
    requires from <= fuel
    decreases fuel - from
  {
    if from == fuel then Ending(s, from, Unfinished)
    else
      var taken := Step(s, TakeSpawns);
      if taken.ready == [] && taken.waiting == map[] then Ending(taken, from, Drained)
      else
        var d := DrainPlay(taken, goal, env, from + 1, fuel);
        if d.stopped then Ending(d.state, d.tick, Stopped)
        else if d.tick == fuel then Ending(d.state, d.tick, Unfinished)
        else LoopPlay(Processed(d.state, env(from).outside), goal, env, d.tick, fuel)
  }

  lemma DrainPlayStops(s: State, goal: Option<TaskId>, env: nat -> Turn, from: nat, fuel: nat)
    requires from <= fuel && (from == fuel || s.ready == [])
    ensures DrainPlay(s, goal, env, from, fuel) == Played(s, from, false)
  {
  }

  lemma DrainPlayGoesOn(s: State, goal: Option<TaskId>, env: nat -> Turn, from: nat, fuel: nat)
    requires from < fuel && s.ready != []
    ensures var polled := Step(PolledOnce(s, env(from)), TakeSpawns);
            DrainPlay(s, goal, env, from, fuel) ==
            if goal.Some? && goal.value in polled.finished then Played(polled, from + 1, true)
            else DrainPlay(WokenOutside(polled, env(from).outside), goal, env, from + 1, fuel)
  {
    hide Step, PolledOnce, WokenOutside;
  }

  lemma ActedNothing(s: State, actions: seq<Action>)
    ensures Acted(s, actions[..0]) == s
  {
  }

  lemma ActedExtends(s: State, actions: seq<Action>, n: nat)
    requires n < |actions|
    ensures Acted(s, actions[..n + 1]) == Step(Acted(s, actions[..n]), EventOf(actions[n]))
  {
    assert actions[..n + 1][..n] == actions[..n];
  }

  lemma WokenExtends(s: State, ids: seq<TaskId>, n: nat)
    requires n < |ids|
    ensures WokenOutside(s, ids[..n + 1]) == Step(WokenOutside(s, ids[..n]), Wake(ThreadSafe, ids[n]))
  {
    assert ids[..n + 1][..n] == ids[..n];
  }

  lemma {:induction false} FirstTurnFirst(s: State, env: nat -> Turn, from: nat, until: nat)
    requires from < until
    ensures AfterTurns(s, env, from, until) == AfterTurns(AfterTurn(s, env(from)), env, from + 1, until)
    decreases until
  {
    hide AfterTurn;
    if from + 1 < until {
      FirstTurnFirst(s, env, from, until - 1);
    } else {
      assert AfterTurns(s, env, from, from) == s;
    }
  }

  /** A drain that was not stopped has played the turns it used, one after another. */
  lemma {:induction false} DrainPlaysTurns(s: State, goal: Option<TaskId>, env: nat -> Turn, from: nat, fuel: nat)
    requires from <= fuel
    ensures var d := DrainPlay(s, goal, env, from, fuel);
            !d.stopped ==> d.state == AfterTurns(s, env, from, d.tick) && (d.tick == fuel || d.state.ready == [])
    decreases fuel - from
  {
    hide Step, PolledOnce, WokenOutside;
    if from < fuel && s.ready != [] {
      var next := WokenOutside(Step(PolledOnce(s, env(from)), TakeSpawns), env(from).outside);
      assert next == AfterTurn(s, env(from));
      DrainPlaysTurns(next, goal, env, from + 1, fuel);
      var d := DrainPlay(s, goal, env, from, fuel);
      if !d.stopped {
        FirstTurnFirst(s, env, from, d.tick);
      }
    }
  }

  /** What the loop stopped with: the value of the turn just played, which was ready. */
  ghost predicate IsAnswer(output: Option<int>, env: nat -> Turn, from: nat, tick: nat) {
    output.Some? ==> from < tick && env(tick - 1).ready && output.value == env(tick - 1).value
  }

  lemma NoAnswerYet(env: nat -> Turn, tick: nat)
    ensures IsAnswer(None, env, tick, tick)
  {
  }

  lemma NoAnswerAt(env: nat -> Turn, from: nat, tick: nat)
    ensures IsAnswer(None, env, from, tick)
  {
  }

  lemma AnsweredNow(value: int, env: nat -> Turn, from: nat, tick: nat)
    requires from < tick && env(tick - 1).ready && env(tick - 1).value == value
    ensures IsAnswer(Some(value), env, from, tick)
  {
  }

  lemma AnswerSince(output: Option<int>, env: nat -> Turn, earlier: nat, from: nat, tick: nat)
    requires earlier <= from && IsAnswer(output, env, from, tick)
    ensures IsAnswer(output, env, earlier, tick)
  {
  }

  /**
   How one turn of the loop ends: idle, with everything finished; as a whole pass,
   whose drain played the turns after `from` and whose wakes are those of turn
   `from`; or cut short by the goal or by the end of the observation. Each turn but
   the pass's own was one poll, and the loop's play goes on from where it ended.
   */
  ghost predicate PassEnds(before: State, after: State, exit: Exit, goal: Option<TaskId>, env: nat -> Turn, from: nat,
                           tick: nat, fuel: nat, pass: Pass)
  {
    && from < fuel && from <= tick <= fuel
    && (exit.Drained? ==> IsIdle(after) && tick == from)
    && |Polled(before, pass.drain)| == (if exit.Drained? then 0 else tick - from - 1)
    && if exit.Unfinished? && tick < fuel then
         && from < tick && IsPass(pass) && pass.before == before && pass.after == after
         && pass.drained == AfterTurns(Step(before, TakeSpawns), env, from + 1, tick)
         && after == Processed(pass.drained, env(from).outside)
         && LoopPlay(before, goal, env, from, fuel) == LoopPlay(after, goal, env, tick, fuel)
       else
         && Runs(before, pass.drain, after) && WithoutProcessing(pass.drain)
         && LoopPlay(before, goal, env, from, fuel) == Ending(after, tick, exit)
  }

  lemma NothingToDo(before: State, after: State, goal: Option<TaskId>, env: nat -> Turn, from: nat, fuel: nat, pass: Pass)
    requires from < fuel && IsIdle(after) && Runs(before, pass.drain, after) && WithoutProcessing(pass.drain)
    requires after == Step(before, TakeSpawns) && Polled(before, pass.drain) == []
    ensures PassEnds(before, after, Drained, goal, env, from, from, fuel, pass)
  {
    hide Step, Runs, Polled, WithoutProcessing;
  }

  lemma CutShort(before: State, after: State, exit: Exit, goal: Option<TaskId>, env: nat -> Turn, from: nat, tick: nat,
                 fuel: nat, pass: Pass)
    requires from < tick <= fuel && (exit.Stopped? || (exit.Unfinished? && tick == fuel))
    requires Runs(before, pass.drain, after) && WithoutProcessing(pass.drain) && |Polled(before, pass.drain)| == tick - from - 1
    requires var taken := Step(before, TakeSpawns);
             && !(taken.ready == [] && taken.waiting == map[])
             && DrainPlay(taken, goal, env, from + 1, fuel) == Played(after, tick, exit.Stopped?)
    ensures PassEnds(before, after, exit, goal, env, from, tick, fuel, pass)
  {
    hide Step, Runs, Polled, WithoutProcessing, DrainPlay;
  }

  lemma CompletePass(before: State, after: State, goal: Option<TaskId>, env: nat -> Turn, from: nat, tick: nat, fuel: nat,
                     pass: Pass)
    requires from < tick < fuel && IsPass(pass) && pass.before == before && pass.after == after
    requires after == Processed(pass.drained, env(from).outside) && |Polled(before, pass.drain)| == tick - from - 1
    requires var taken := Step(before, TakeSpawns);
             && !(taken.ready == [] && taken.waiting == map[])
             && DrainPlay(taken, goal, env, from + 1, fuel) == Played(pass.drained, tick, false)
    ensures PassEnds(before, after, Unfinished, goal, env, from, tick, fuel, pass)
  {
    hide Step, Polled, IsPass, Processed, AfterTurns, DrainPlay;
    DrainPlaysTurns(Step(before, TakeSpawns), goal, env, from + 1, fuel);
  }

  lemma HowItEnded(before: State, after: State, exit: Exit, goal: Option<TaskId>, env: nat -> Turn, from: nat, tick: nat,
                   fuel: nat, pass: Pass)
    requires PassEnds(before, after, exit, goal, env, from, tick, fuel, pass)
    ensures from <= tick <= fuel && (exit.Unfinished? ==> from < tick)
    ensures exit.Drained? ==> IsIdle(after) && tick == from
    ensures |Polled(before, pass.drain)| == (if exit.Drained? then 0 else tick - from - 1)
    ensures exit.Unfinished? && tick < fuel ==>
              && IsPass(pass) && pass.before == before && pass.after == after
              && LoopPlay(before, goal, env, from, fuel) == LoopPlay(after, goal, env, tick, fuel)
    ensures !(exit.Unfinished? && tick < fuel) ==>
              && Runs(before, pass.drain, after) && WithoutProcessing(pass.drain)
              && LoopPlay(before, goal, env, from, fuel) == Ending(after, tick, exit)
  {
    hide IsPass, IsIdle, Runs, WithoutProcessing, AfterTurns, Processed, LoopPlay, Polled, Step;
  }

  /** One pass of the play, spelt out. */
  lemma LoopPlayGoesOn(s: State, goal: Option<TaskId>, env: nat -> Turn, from: nat, fuel: nat)
    requires from < fuel
    ensures var taken := Step(s, TakeSpawns);
            var d := DrainPlay(taken, goal, env, from + 1, fuel);
            LoopPlay(s, goal, env, from, fuel) ==
            if taken.ready == [] && taken.waiting == map[] then Ending(taken, from, Drained)
            else if d.stopped then Ending(d.state, d.tick, Stopped)
            else if d.tick == fuel then Ending(d.state, d.tick, Unfinished)
            else LoopPlay(WokenOutside(Step(Step(d.state, ProcessWoken(SingleThreaded)), ProcessWoken(ThreadSafe)),
                                       env(from).outside), goal, env, d.tick, fuel)
  {
    hide Step, DrainPlay, WokenOutside;
  }

  lemma LoopPlayStarts(s: State, goal: Option<TaskId>, env: nat -> Turn, fuel: nat)
    ensures fuel == 0 ==> LoopPlay(s, goal, env, 0, fuel) == Ending(s, 0, Unfinished)
  {
  }
}
