/** Issuing reads as fast as a fixed pool of buffers allows, and totalling what they deliver. */
module UnbufferedReads {
  import opened Arith
  import opened Sums
  import opened Pools

  /** The reads issued and not yet completed, each with its buffer, and those completed in order. */
  datatype Flight = Flight(pending: seq<nat>, holding: seq<Buf>, next: nat, order: seq<nat>)

  /** What a read answers when it did all its work. */
  predicate IsFull(answer: Result<nat>, block: nat) {
    answer == Ok(block)
  }

  /** The error a read that did not do all its work ends the run with. */
  function ErrorOf(answer: Result<nat>): IoError {
    if answer.Err? then answer.error else UnexpectedEof
  }

  ghost predicate AllWide(free: seq<Buf>, block: nat) {
    forall b | b in multiset(free) :: b.capacity >= block
  }

  /** Every read issued is pending or completed, once; every buffer is free or held, once. */
  ghost predicate Accounted(f: Flight, free: seq<Buf>, free0: seq<Buf>, count: nat) {
    && f.next <= count && |f.pending| == |f.holding|
    && multiset(f.order) + multiset(f.pending) == multiset(Range(f.next))
    && multiset(free) + multiset(f.holding) == multiset(free0)
  }

  lemma SizesOf(f: Flight, free: seq<Buf>, free0: seq<Buf>, count: nat)
    requires Accounted(f, free, free0, count)
    ensures |f.order| + |f.pending| == f.next && |free| + |f.pending| == |free0|
  {
    assert |multiset(f.order) + multiset(f.pending)| == |multiset(Range(f.next))|;
    assert |multiset(free) + multiset(f.holding)| == |multiset(free0)|;
  }

  lemma Issued(f: Flight, free: seq<Buf>, free': seq<Buf>, free0: seq<Buf>, count: nat, buffer: Buf)
    requires Accounted(f, free, free0, count) && f.next < count && free' + [buffer] == free
    ensures Accounted(Flight(f.pending + [f.next], f.holding + [buffer], f.next + 1, f.order), free', free0, count)
  {
    RangeGrows(f.next);
    assert multiset(free) == multiset(free') + multiset{buffer};
  }

  lemma Landed(f: Flight, free: seq<Buf>, free0: seq<Buf>, count: nat, k: nat)
    requires Accounted(f, free, free0, count) && k < |f.pending|
    ensures Accounted(Flight(RemoveAt(f.pending, k), RemoveAt(f.holding, k), f.next, f.order + [f.pending[k]]),
                      free + [f.holding[k]], free0, count)
    ensures f.pending[k] < count
  {
    RemoveAtMultiset(f.pending, k);
    RemoveAtMultiset(f.holding, k);
    assert f.pending[k] in multiset(Range(f.next));
  }

  lemma StillWide(free: seq<Buf>, held: seq<Buf>, free0: seq<Buf>, block: nat)
    requires multiset(free) + multiset(held) == multiset(free0) && AllWide(free0, block) && free != []
    ensures free[|free| - 1].capacity >= block
  {
    assert free[|free| - 1] in multiset(free);
  }

  /**
   Issues until the offsets or the buffers run out. A dry pool is not an error
   here; a buffer too small is.
   */
  method Refill(pool: AlignedPool, offsets: seq<nat>, block: nat, f: Flight, read: seq<nat>, ghost free0: seq<Buf>)
    returns (r: Result<Flight>, read': seq<nat>)
    requires Accounted(f, pool.free, free0, |offsets|) && read == offsets[..f.next]
    modifies pool
    ensures r.Ok? ==>
              && Accounted(r.value, pool.free, free0, |offsets|) && r.value.order == f.order
              && f.next <= r.value.next && read' == offsets[..r.value.next]
              && (r.value.next == |offsets| || pool.free == [])
    ensures r.Err? ==> r.error == InvalidInput && !AllWide(free0, block) && free0 != [] && multiset(pool.free) <= multiset(free0)
  {
    var g := f;
    read' := read;
    while g.next < |offsets|
      invariant f.next <= g.next && g.order == f.order
      invariant Accounted(g, pool.free, free0, |offsets|) && read' == offsets[..g.next]
      decreases |offsets| - g.next
    {
      ghost var before := pool.free;
      var taken := pool.Take(block);
      match taken
      case Ok(buffer) =>
        Issued(g, before, pool.free, free0, |offsets|, buffer);
        read' := read' + [offsets[g.next]];
        g := Flight(g.pending + [g.next], g.holding + [buffer], g.next + 1, g.order);
      case Err(e) =>
        if e == WouldBlock {
          break;
        }
        if AllWide(free0, block) {
          StillWide(before, g.holding, free0, block);
        }
        assert before[0] in multiset(free0);
        return Err(e), read';
    }
    return Ok(g), read';
  }

  /** Waits for whichever read `choice` names; its buffer goes back before its answer is looked at. */
  method Await(pool: AlignedPool, f: Flight, choice: nat, block: nat, reply: nat -> Result<nat>, ghost free0: seq<Buf>,
               ghost count: nat)
    returns (r: Result<nat>, g: Flight)
    requires Accounted(f, pool.free, free0, count) && f.pending != []
    modifies pool
    ensures Accounted(g, pool.free, free0, count) && g.next == f.next && |g.pending| == |f.pending| - 1
    ensures |g.order| == |f.order| + 1 && g.order[..|f.order|] == f.order
    ensures var i := g.order[|f.order|];
            && i < count
            && (r.Ok? <==> IsFull(reply(i), block)) && (r.Ok? ==> r.value == block)
            && (r.Err? ==> r.error == ErrorOf(reply(i)))
  {
    var k := choice % |f.pending|;
    var i := f.pending[k];
    Landed(f, pool.free, free0, count, k);
    pool.Put(f.holding[k]);
    g := Flight(RemoveAt(f.pending, k), RemoveAt(f.holding, k), f.next, f.order + [i]);
    r := reply(i);
    if r.Ok? && r.value != block {
      r := Err(UnexpectedEof);
    }
  }

  /** The run so far: every completed read did all its work, and the pool bounds what is outstanding. */
  ghost predicate GoingWell(f: Flight, count: nat, block: nat, reply: nat -> Result<nat>, delivered: nat, peak: nat,
                            supply: nat)
  {
    && delivered == |f.order| * block
    && (forall i | i in f.order :: IsFull(reply(i), block))
    && peak <= supply
    && if f.order == [] then f.next == 0 else peak >= Min(count, supply) && supply > 0
  }

  lemma GoesOn(f: Flight, g: Flight, count: nat, block: nat, reply: nat -> Result<nat>, delivered: nat, peak: nat,
               supply: nat)
    requires GoingWell(f, count, block, reply, delivered, peak, supply) || (f.order == [] && delivered == 0)
    requires |g.order| == |f.order| + 1 && g.order[..|f.order|] == f.order && IsFull(reply(g.order[|f.order|]), block)
    requires Min(count, supply) <= peak <= supply && supply > 0
    ensures GoingWell(g, count, block, reply, delivered + block, peak, supply)
  {
    assert |g.order| * block == |f.order| * block + block;
    forall i | i in g.order ensures IsFull(reply(i), block) {
      var k :| 0 <= k < |g.order| && g.order[k] == i;
      if k < |f.order| {
        assert g.order[..|f.order|][k] == i;
      }
    }
  }

  /** Why a run ended early: an empty pool, a buffer too small, or a read that did less than its work. */
  ghost predicate Stopped(e: IoError, count: nat, block: nat, reply: nat -> Result<nat>, free0: seq<Buf>) {
    || (e == WouldBlock && free0 == [] && count > 0)
    || (e == InvalidInput && !AllWide(free0, block))
    || (exists i: nat :: i < count && !IsFull(reply(i), block) && e == ErrorOf(reply(i)))
  }

  /** One trip round the loop: false when nothing is left outstanding or to issue. */
  method Turn(pool: AlignedPool, offsets: seq<nat>, block: nat, reply: nat -> Result<nat>, pick: nat -> nat, f: Flight,
              read: seq<nat>, ghost delivered: nat, ghost peak: nat, ghost free0: seq<Buf>)
    returns (r: Result<bool>, bytes: nat, g: Flight, read': seq<nat>, ghost peak': nat)
    requires Accounted(f, pool.free, free0, |offsets|) && read == offsets[..f.next]
    requires GoingWell(f, |offsets|, block, reply, delivered, peak, |free0|)
    modifies pool
    ensures peak' <= |free0| && multiset(pool.free) <= multiset(free0)
    ensures r.Ok? ==> Accounted(g, pool.free, free0, |offsets|) && read' == offsets[..g.next]
    ensures r.Ok? ==> GoingWell(g, |offsets|, block, reply, delivered + bytes, peak', |free0|)
    ensures r == Ok(true) ==> |g.order| == |f.order| + 1 <= |offsets|
    ensures r == Ok(false) ==> g.order == f.order && bytes == 0 && g.pending == [] && g.next == |offsets|
    ensures r.Err? ==> Stopped(r.error, |offsets|, block, reply, free0)
    ensures offsets != [] && free0 == [] ==> r == Err(WouldBlock) && read' == []
  {
    hide AllWide, IsFull, ErrorOf;
    var filled;
    filled, read' := Refill(pool, offsets, block, f, read, free0);
    g := f;
    bytes, peak' := 0, peak;
    if filled.Err? {
      return Err(filled.error), bytes, g, read', peak';
    }
    g := filled.value;
    SizesOf(g, pool.free, free0, |offsets|);
    peak' := Max(peak, |g.pending|);
    if g.pending == [] {
      r := if g.next >= |offsets| then Ok(false) else Err(WouldBlock);
      return r, bytes, g, read', peak';
    }
    var answer, h := Await(pool, g, pick(|g.order|), block, reply, free0, |offsets|);
    SizesOf(h, pool.free, free0, |offsets|);
    ghost var i := h.order[|g.order|];
    if answer.Err? {
      assert i < |offsets| && !IsFull(reply(i), block) && answer.error == ErrorOf(reply(i));
      return Err(answer.error), bytes, h, read', peak';
    }
    GoesOn(f, h, |offsets|, block, reply, delivered, peak', |free0|);
    return Ok(true), answer.value, h, read', peak';
  }

  /**
   Reads every offset with as many outstanding as the pool has buffers. `reply` is
   what each read answers, and `pick` which outstanding read completes at each wait.
   */
  method IssueReads(pool: AlignedPool, offsets: seq<nat>, block: nat, reply: nat -> Result<nat>, pick: nat -> nat)
    returns (r: Result<nat>, read: seq<nat>, ghost order: seq<nat>, ghost peak: nat)
    modifies pool
    ensures peak <= |old(pool.free)| && multiset(pool.free) <= multiset(old(pool.free))
    ensures r.Ok? ==>
              && r.value == |offsets| * block && read == offsets && Enumerates(order, |offsets|)
              && (forall i: nat | i < |offsets| :: IsFull(reply(i), block))
              && peak >= Min(|offsets|, |old(pool.free)|)
              && multiset(pool.free) == multiset(old(pool.free))
    ensures r.Err? ==> Stopped(r.error, |offsets|, block, reply, old(pool.free))
    ensures offsets != [] && old(pool.free) == [] ==> r == Err(WouldBlock) && read == [] && pool.free == []
  {
    hide Stopped, IsFull, Enumerates;
    ghost var free0 := pool.free;
    var f := Flight([], [], 0, []);
    var delivered := 0;
    read, order, peak := [], [], 0;
    var more := true;
    while more
      invariant Accounted(f, pool.free, free0, |offsets|) && read == offsets[..f.next]
      invariant GoingWell(f, |offsets|, block, reply, delivered, peak, |free0|)
      invariant !more ==> f.pending == [] && f.next == |offsets|
      decreases |offsets| - |f.order|, more
    {
      hide Accounted, GoingWell;
      var turn, bytes;
      turn, bytes, f, read, peak := Turn(pool, offsets, block, reply, pick, f, read, delivered, peak, free0);
      if turn.Err? {
        return Err(turn.error), read, f.order, peak;
      }
      delivered, more := delivered + bytes, turn.value;
    }
    AllDone(f, pool.free, free0, offsets, read);
    return Ok(delivered), read, f.order, peak;
  }

  /**
   With buffers wide enough and at least one of them, a run succeeds exactly when
   every read answers in full.
   */
  lemma StopsOnlyForAShortRead(e: IoError, count: nat, block: nat, reply: nat -> Result<nat>, free0: seq<Buf>)
    requires Stopped(e, count, block, reply, free0) && AllWide(free0, block) && (count > 0 ==> free0 != [])
    ensures exists i: nat :: i < count && reply(i) != Ok(block)
                             && e == if reply(i).Err? then reply(i).error else UnexpectedEof
  {
  }

  lemma AllDone(f: Flight, free: seq<Buf>, free0: seq<Buf>, offsets: seq<nat>, read: seq<nat>)
    requires Accounted(f, free, free0, |offsets|) && f.pending == [] && f.next == |offsets|
    requires read == offsets[..f.next]
    ensures read == offsets && Enumerates(f.order, |offsets|) && forall i: nat | i < |offsets| :: i in f.order
    ensures multiset(free) == multiset(free0) && |f.order| == |offsets|
  {
    EnumerationFacts(f.order, |offsets|);
  }
}
