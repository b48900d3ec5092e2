/**
 Buffer pools: the growing pool of the thread-pool backend, the fixed pool of
 sector-aligned buffers, and the free-index pool of registered buffers.
 */
module Pools {
  import opened Sums

  datatype IoError =
    | WouldBlock | InvalidInput | UnexpectedEof | Unsupported | OutOfMemory
    | BufferedHandle
    | Other(code: nat)

  datatype Result<+T> = Ok(value: T) | Err(error: IoError)

  /** A buffer, known by the allocation it is, with the capacity it has grown to. */
  datatype Buf = Buf(id: nat, capacity: nat)

  function Ids(buffers: seq<Buf>): (ids: seq<nat>)
    ensures |ids| == |buffers|
  {
    Map((b: Buf) => b.id, buffers)
  }

  lemma IdsConcat(a: seq<Buf>, b: seq<Buf>)
    ensures Ids(a + b) == Ids(a) + Ids(b)
  {
  }

  /** Buffers allocated once and handed out for the life of a run. */
  class BufferPool {
    var free: seq<Buf>

    constructor (count: nat, capacity: nat)
      ensures |free| == count
      ensures forall i | 0 <= i < count :: free[i] == Buf(i, capacity)
    {
      free := seq(count, (i: nat) => Buf(i, capacity));
    }

    /** Takes the last buffer, grown to what the caller needs; an empty pool refuses. */
    method Take(capacity: nat) returns (r: Result<Buf>)
      modifies this
      ensures old(free) == [] ==> r == Err(WouldBlock) && free == []
      ensures old(free) != [] ==>
                && r.Ok? && r.value.capacity == (if old(free)[|old(free)| - 1].capacity >= capacity
                                                 then old(free)[|old(free)| - 1].capacity else capacity)
                && r.value.id == old(free)[|old(free)| - 1].id
                && free == old(free)[..|old(free)| - 1]
    {
      if free == [] {
        return Err(WouldBlock);
      }
      var buffer := free[|free| - 1];
      free := free[..|free| - 1];
      if buffer.capacity < capacity {
        buffer := Buf(buffer.id, capacity);
      }
      r := Ok(buffer);
    }

    method Put(buffer: Buf)
      modifies this
      ensures free == old(free) + [buffer]
    {
      free := free + [buffer];
    }
  }

  /** Sector-aligned buffers of fixed capacity: one too small for the caller goes back. */
  class AlignedPool {
    var free: seq<Buf>

    constructor (buffers: seq<Buf>)
      ensures free == buffers
    {
      free := buffers;
    }

    /** A refusal of either kind leaves the pool exactly as it was. */
    method Take(capacity: nat) returns (r: Result<Buf>)
      modifies this
      ensures r.Ok? <==> old(free) != [] && old(free)[|old(free)| - 1].capacity >= capacity
      ensures r.Ok? ==> free + [r.value] == old(free)
      ensures r.Err? ==> free == old(free)
      ensures r.Err? ==> r.error == (if old(free) == [] then WouldBlock else InvalidInput)
    {
      if free == [] {
        return Err(WouldBlock);
      }
      var buffer := free[|free| - 1];
      free := free[..|free| - 1];
      if buffer.capacity < capacity {
        free := free + [buffer];
        return Err(InvalidInput);
      }
      return Ok(buffer);
    }

    method Put(buffer: Buf)
      modifies this
      ensures free == old(free) + [buffer]
    {
      free := free + [buffer];
    }
  }

  /** What the collection of registered buffers answers when an index is checked out. */
  datatype CheckOut = NotRegistered | Refused(error: IoError) | Granted

  /** Registered buffers, handed out by index; `taken` is what callers hold. */
  class RegisteredPool {
    const bufferLen: nat
    var free: seq<nat>
    ghost var taken: multiset<nat>

    constructor (count: nat, bufferLen: nat)
      ensures this.bufferLen == bufferLen && |free| == count && taken == multiset{}
      ensures forall i | 0 <= i < count :: free[i] == i
    {
      this.bufferLen := bufferLen;
      free, taken := seq(count, (i: nat) => i), multiset{};
    }

    /** Every index stays either free or taken, on the refusing paths too. */
    method TakeBuffer(capacity: nat, checkOut: nat -> CheckOut) returns (r: Result<nat>)
      modifies this
      ensures multiset(free) + taken == multiset(old(free)) + old(taken)
      ensures r.Ok? ==> taken == old(taken) + multiset{r.value} && old(free) == free + [r.value]
      ensures r.Err? ==> free == old(free) && taken == old(taken)
      ensures r.Ok? <==> capacity <= bufferLen && old(free) != []
                         && checkOut(old(free)[|old(free)| - 1]).Granted?
      ensures r.Err? ==>
                r.error == if capacity > bufferLen then InvalidInput
                           else if old(free) == [] then WouldBlock
                           else match checkOut(old(free)[|old(free)| - 1])
                                case Refused(e) => e
                                case _ => InvalidInput
    {
      if capacity > bufferLen {
        return Err(InvalidInput);
      }
      if free == [] {
        return Err(WouldBlock);
      }
      var index := free[|free| - 1];
      assert free == free[..|free| - 1] + [index];
      free := free[..|free| - 1];
      match checkOut(index)
      case NotRegistered =>
        free := free + [index];
        return Err(InvalidInput);
      case Refused(e) =>
        free := free + [index];
        return Err(e);
      case Granted =>
        taken := taken + multiset{index};
        return Ok(index);
    }

    method PutBuffer(index: nat)
      requires index in taken
      modifies this
      ensures free == old(free) + [index] && taken == old(taken) - multiset{index}
      ensures multiset(free) + taken == multiset(old(free)) + old(taken)
    {
      free, taken := free + [index], taken - multiset{index};
    }
  }
}
