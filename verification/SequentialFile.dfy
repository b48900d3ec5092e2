/**
 The shared state of a file as the program keeps it, with the futures and the
 driver's payloads around it, each changed in place. Every method is tied to a step
 of the state machine in `FileProtocol`.
 */
module SequentialFile {
  import opened Options
  import opened Fnv
  import opened FileProtocol

  /** What every clone of a file, and every operation naming it, shares. */
  class FileState {
    var cursor: U64
    var sequentialOutstanding: bool
    var fileType: Option<nat>

    constructor ()
      ensures cursor == 0 && !sequentialOutstanding && fileType == None
    {
      cursor, sequentialOutstanding, fileType := 0, false, None;
    }

    /** Asks the handle's type once and remembers it; pipes and character devices are refused. */
    method CheckHasFileOffset(queried: nat) returns (refusal: Option<FileError>)
      modifies this`fileType
      ensures fileType == Some(if old(fileType).Some? then old(fileType).value else queried)
      ensures refusal == if HasNoOffset(fileType.value) then Some(NotSeekable(fileType.value)) else None
      ensures refusal.Some? <==> fileType.value == 2 || fileType.value == 3
    {
      if fileType.None? {
        fileType := Some(queried);
      }
      return if HasNoOffset(fileType.value) then Some(NotSeekable(fileType.value)) else None;
    }

    /** Sets the flag whatever it was, and says whether this claim set it. */
    method Claim() returns (claimed: bool)
      modifies this`sequentialOutstanding
      ensures sequentialOutstanding && claimed == !old(sequentialOutstanding)
    {
      claimed := !sequentialOutstanding;
      sequentialOutstanding := true;
    }

    method ClearSequential()
      modifies this`sequentialOutstanding
      ensures !sequentialOutstanding
    {
      sequentialOutstanding := false;
    }

    /** A failure leaves the cursor alone. */
    method AdvanceOnSuccess(outcome: Transfer)
      modifies this`cursor
      ensures cursor == if outcome.Moved? then SaturatingAdd(old(cursor), outcome.bytes) else old(cursor)
      ensures outcome.Moved? && old(cursor) + outcome.bytes < TWO_64 ==> cursor == old(cursor) + outcome.bytes
      ensures outcome.Moved? && old(cursor) + outcome.bytes >= TWO_64 ==> cursor == TWO_64 - 1
    {
      if outcome.Moved? {
        cursor := SaturatingAdd(cursor, outcome.bytes);
      }
    }
  }

  /** Every sequential operation over one file state: the futures callers hold and the payloads the driver holds. */
  class Operations {
    const state: FileState
    var futures: map<OpId, Future>
    var payloads: set<OpId>
    var next: OpId
    ghost var guards: set<OpId>
    ghost var base: U64
    ghost var seen: seq<Extent>

    ghost function View(): State
      reads this, state
    {
      State(state.cursor, state.sequentialOutstanding, state.fileType, futures, guards, payloads, next, base, seen)
    }

    ghost predicate Valid()
      reads this, state
    {
      Inv(View())
    }

    constructor ()
      ensures fresh(state) && Valid() && View() == FRESH
    {
      state := new FileState();
      futures, payloads, next := map[], {}, 0;
      guards, base, seen := {}, 0, [];
    }

    /** Starts a read or a write at the cursor through one clone of the file. */
    method Start(file: FileId, buffer: nat, queried: nat, refusal: Option<nat>) returns (op: OpId)
      requires Valid() && !IsBorrowed(View(), file)
      modifies this, state
      ensures op == old(next) && Valid() && View() == Apply(old(View()), Event.Start(file, buffer, queried, refusal))
    {
      ghost var before := View();
      InvIsKept(before, Event.Start(file, buffer, queried, refusal));
      hide Inv;
      op := next;
      next := next + 1;
      var offset := state.cursor;
      var seekable := state.CheckHasFileOffset(queried);
      if seekable.Some? {
        futures := futures[op := Future(file, offset, buffer, Rejected(seekable.value))];
        return;
      }
      var claimed := state.Claim();
      if !claimed {
        futures := futures[op := Future(file, offset, buffer, Rejected(OperationOutstanding))];
        return;
      }
      guards := guards + {op};
      if refusal.Some? {
        guards := guards - {op};
        state.ClearSequential();
        futures := futures[op := Future(file, offset, buffer, Finished(Failed(Driver(refusal.value))))];
        OnlyGuard(before, op);
        return;
      }
      payloads := payloads + {op};
      futures := futures[op := Future(file, offset, buffer, InFlight)];
    }

    /** The driver's terminal completion: the payload goes, and its guard with it. */
    method Complete(op: OpId, outcome: Transfer)
      requires Valid() && op in payloads
      modifies this, state
      ensures Valid() && View() == Apply(old(View()), Event.Complete(op, outcome))
    {
      InvIsKept(View(), Event.Complete(op, outcome));
      hide Inv;
      payloads := payloads - {op};
      guards := guards - {op};
      state.ClearSequential();
      if op in futures {
        futures := futures[op := futures[op].(stage := Finished(outcome))];
      }
    }

    /** The last poll of a future: its outcome and the caller's own buffer. */
    method Observe(op: OpId) returns (outcome: Transfer, buffer: nat)
      requires Valid() && op in futures && (futures[op].stage.Rejected? || futures[op].stage.Finished?)
      modifies this, state
      ensures (outcome, buffer) == Answer(old(futures)[op]) && buffer == old(futures)[op].buffer
      ensures Valid() && View() == Apply(old(View()), Event.Observe(op))
    {
      InvIsKept(View(), Event.Observe(op));
      hide Inv;
      var f := futures[op];
      buffer := f.buffer;
      futures := futures[op := f.(stage := Spent)];
      if f.stage.Rejected? {
        outcome := Failed(f.stage.error);
        return;
      }
      outcome := f.stage.outcome;
      state.AdvanceOnSuccess(outcome);
      if outcome.Moved? {
        seen := seen + [Extent(f.offset, outcome.bytes)];
      }
    }

    /** Dropping a future leaves its operation, its guard and the cursor as they are. */
    method DropFuture(op: OpId)
      requires Valid() && op in futures
      modifies this
      ensures Valid() && View() == Apply(old(View()), Event.Drop(op))
    {
      InvIsKept(View(), Event.Drop(op));
      futures := futures - {op};
    }

    method SetCursor(file: FileId, position: U64)
      requires Valid() && !IsBorrowed(View(), file)
      modifies this, state
      ensures Valid() && View() == Apply(old(View()), Event.SetCursor(file, position))
    {
      InvIsKept(View(), Event.SetCursor(file, position));
      state.cursor := position;
      base, seen := position, [];
    }
  }

  /** A free slot has no guard of that name. */
  lemma OnlyGuard(s: State, op: OpId)
    requires Inv(s) && op == s.next
    ensures op !in s.guards
  {
  }
}
