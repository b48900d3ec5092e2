/**
 Sector-aligned buffers, the working file they create, and the offsets read back
 from it.
 */
module Unbuffered {
  import opened Options
  import opened Arith
  import opened Pools
  import opened Fnv
  import opened Alignment

  const MAX_ISIZE: nat := TWO_64 / 2 - 1
  const MEBIBYTE: nat := 0x10_0000
  const MODULUS: nat := 251

  // ------------------------------------------------------------------- buffers

  /** An allocation of whole sectors; `len` is what was last delivered into it. */
  class AlignedBuf {
    const data: array<Byte>
    const align: nat
    var len: nat

    ghost predicate Valid()
      reads this
    {
      0 < align && data.Length % align == 0 && align <= data.Length <= MAX_ISIZE && len <= data.Length
    }

    constructor (capacity: nat, align: nat)
      requires 0 < align <= capacity <= MAX_ISIZE && capacity % align == 0
      ensures Valid() && fresh(data) && data.Length == capacity && this.align == align && len == 0
      ensures forall i | 0 <= i < capacity :: data[i] == 0
    {
      data := new Byte[capacity](_ => 0);
      this.align := align;
      len := 0;
    }

    function Filled(): seq<Byte>
      requires Valid()
      reads this, data
    {
      data[..len]
    }

    /** Copies what fits exactly as given; a source too large is refused untouched. */
    method Fill(src: seq<Byte>) returns (r: Result<()>)
      requires Valid()
      modifies this`len, data
      ensures Valid()
      ensures r == if |src| > data.Length then Err(InvalidInput) else Ok(())
      ensures r.Ok? ==> Filled() == src && data[|src|..] == old(data[|src|..])
      ensures r.Err? ==> len == old(len) && data[..] == old(data[..])
    {
      if |src| > data.Length {
        return Err(InvalidInput);
      }
      forall i | 0 <= i < |src| {
        data[i] := src[i];
      }
      len := |src|;
      return Ok(());
    }

    /** A read delivering more than the allocation holds is a bug in the caller. */
    method SetLen(n: nat)
      requires Valid() && n <= data.Length
      modifies this`len
      ensures Valid() && len == n && Filled() == data[..n]
    {
      len := n;
    }
  }

  /** The capacity an allocation gets: rounded up, at least one unit, and no more than an allocation may be. */
  function CapacityFor(capacity: nat, align: nat): (r: Result<nat>) {
    if !HalvesToOne(align) then Err(InvalidInput)
    else
      match NextMultiple(Max(capacity, align), align)
      case Err(e) => Err(e)
      case Ok(n) => if n > MAX_ISIZE - (align - 1) then Err(InvalidInput) else Ok(n)
  }

  /** Whatever was asked for, what is allocated is at least that, whole units, and never empty. */
  lemma CapacityIsWhole(capacity: nat, align: nat)
    ensures CapacityFor(capacity, align).Ok? ==>
              var n := CapacityFor(capacity, align).value;
              align > 0 && n % align == 0 && 0 < align <= n <= MAX_ISIZE && capacity <= n < Max(capacity, align) + align
    ensures CapacityFor(capacity, align).Err? <==>
              !IsPowerOfTwo(align)
              || forall n: nat | n % align == 0 && Max(capacity, align) <= n :: n + (align - 1) > MAX_ISIZE
  {
    HalvingIsExact(align);
    if HalvesToOne(align) {
      var least := Max(capacity, align);
      RoundingIsLeast(least, align, 0);
      MultipleAbove(least, align);
      if CapacityFor(capacity, align).Err? {
        forall n: nat | n % align == 0 && least <= n
          ensures n + (align - 1) > MAX_ISIZE
        {
          RoundingIsLeast(least, align, n);
        }
      }
    }
  }

  /** Allocates, unless rounding or the allocator refuses. */
  method NewAlignedBuf(capacity: nat, align: nat, outOfMemory: bool) returns (r: Result<AlignedBuf>)
    ensures r.Ok? <==> CapacityFor(capacity, align).Ok? && !outOfMemory
    ensures r.Ok? ==> fresh(r.value) && fresh(r.value.data) && r.value.Valid() && r.value.align == align
                      && r.value.data.Length == CapacityFor(capacity, align).value
    ensures r.Err? ==> r.error == if CapacityFor(capacity, align).Err? then InvalidInput else OutOfMemory
  {
    CapacityIsWhole(capacity, align);
    match CapacityFor(capacity, align)
    case Err(e) => return Err(e);
    case Ok(n) =>
      if outOfMemory {
        return Err(OutOfMemory);
      }
      var buffer := new AlignedBuf(n, align);
      return Ok(buffer);
  }

  // ------------------------------------------------------------- the working file

  /** A file open for unbuffered writing: its content, and the length of each write made. */
  class WorkingFile {
    var content: seq<Byte>
    var writes: seq<nat>

    constructor ()
      ensures content == [] && writes == []
    {
      content, writes := [], [];
    }

    method WriteAll(bytes: seq<Byte>, failure: Option<IoError>) returns (r: Result<()>)
      modifies this
      ensures r == if failure.Some? then Err(failure.value) else Ok(())
      ensures failure.None? ==> content == old(content) + bytes && writes == old(writes) + [|bytes|]
      ensures failure.Some? ==> content == old(content) && writes == old(writes)
    {
      if failure.Some? {
        return Err(failure.value);
      }
      content := content + bytes;
      writes := writes + [|bytes|];
      return Ok(());
    }
  }

  /** The byte the creation loop leaves at `j`. */
  function PatternByte(j: nat, chunk: nat): Byte
    requires chunk > 0
  {
    (j % chunk) % MODULUS
  }

  /** A write size large enough to be efficient, in whole sectors. */
  function ChunkFor(g: nat): nat
    requires g > 0
  {
    RoundUp(Max(g, MEBIBYTE), g)
  }

  lemma {:induction false} PowersAdd(a: nat, b: nat)
    ensures Pow2(a + b) == Pow2(a) * Pow2(b)
  {
    if a > 0 {
      PowersAdd(a - 1, b);
      Regroup(2, Pow2(a - 1), Pow2(b));
    }
  }

  lemma MebibyteIsAPower()
    ensures IsPowerOfTwo(MEBIBYTE)
  {
    assert Pow2(2) == 4;
    PowersAdd(2, 2);
    PowersAdd(4, 4);
    PowersAdd(8, 8);
    PowersAdd(16, 4);
    assert Pow2(20) == MEBIBYTE;
  }

  lemma ChunkIsAPower(g: nat)
    requires g > 0 && IsPowerOfTwo(g)
    ensures ChunkFor(g) == Max(g, MEBIBYTE) && IsPowerOfTwo(ChunkFor(g)) && ChunkFor(g) % g == 0
  {
    MebibyteIsAPower();
    SmallerPowerDivides(g, Max(g, MEBIBYTE));
  }

  lemma DifferenceOfMultiples(a: nat, b: nat, g: nat)
    requires g > 0 && a % g == 0 && b % g == 0 && b <= a
    ensures (a - b) % g == 0
  {
    var x: int, y: int := a / g, b / g;
    assert (x - y) * g == a - b by {
      assert a == x * g && b == y * g;
    }
    if x < y {
      MulAtLeast(y - x, g);
    }
    QuotientIsUnique(a - b, g, x - y, 0);
  }

  /** Fills a whole buffer with the pattern. */
  method FillPattern(buffer: AlignedBuf)
    requires buffer.Valid()
    modifies buffer.data
    ensures forall i | 0 <= i < buffer.data.Length :: buffer.data[i] == i % MODULUS
  {
    for i := 0 to buffer.data.Length
      invariant forall k | 0 <= k < i :: buffer.data[k] == k % MODULUS
    {
      buffer.data[i] := i % MODULUS;
    }
  }

  /** The file written so far, when `n` bytes have gone out in chunks. */
  ghost predicate IsPattern(content: seq<Byte>, chunk: nat) {
    chunk > 0 && forall j | 0 <= j < |content| :: content[j] == PatternByte(j, chunk)
  }

  lemma PatternExtends(content: seq<Byte>, more: seq<Byte>, chunk: nat)
    requires IsPattern(content, chunk) && |content| % chunk == 0 && |more| <= chunk
    requires forall i | 0 <= i < |more| :: more[i] == i % MODULUS
    ensures IsPattern(content + more, chunk)
  {
    var q := |content| / chunk;
    assert |content| == q * chunk;
    forall j | |content| <= j < |content| + |more|
      ensures (content + more)[j] == PatternByte(j, chunk)
    {
      var r := j - |content|;
      if r < chunk {
        QuotientIsUnique(j, chunk, q, r);
      }
    }
  }

  /**
   Writes `bytes` of pattern, in whole sectors only. `unbuffered` is what the
   handle's mode says, and `failure` what each write answers.
   */
  method EnsureUnbufferedFile(bytes: nat, report: Report, outOfMemory: bool, unbuffered: bool, failure: nat -> Option<IoError>)
    returns (r: Result<WorkingFile>)
    requires Validate(report).Ok?
    ensures bytes % Granularity(report) != 0 ==> r == Err(InvalidInput)
    ensures bytes % Granularity(report) == 0 && !outOfMemory && !unbuffered ==> r == Err(BufferedHandle)
    ensures bytes % Granularity(report) == 0 && !outOfMemory && unbuffered && (forall k: nat :: failure(k) == None) ==> r.Ok?
    ensures r.Ok? ==>
              && |r.value.content| == bytes && IsPattern(r.value.content, ChunkFor(Granularity(report)))
              && forall i | 0 <= i < |r.value.writes| ::
                   r.value.writes[i] > 0 && r.value.writes[i] % Granularity(report) == 0
  {
    var g := Granularity(report);
    GranularityServesEveryAnswer(report);
    if !IsAligned(bytes, g) {
      return Err(InvalidInput);
    }
    var chunk := ChunkFor(g);
    ChunkIsAPower(g);
    ChunkFits(g);
    var allocation := NewAlignedBuf(chunk, g, outOfMemory);
    if allocation.Err? {
      return Err(allocation.error);
    }
    var buffer := allocation.value;
    FillPattern(buffer);
    var file := new WorkingFile();
    if !unbuffered {
      return Err(BufferedHandle);
    }
    r := WritePattern(file, buffer, bytes, g, chunk, failure);
  }

  /** The write loop: whole chunks, and a last piece that is still whole sectors. */
  method WritePattern(file: WorkingFile, buffer: AlignedBuf, bytes: nat, g: nat, chunk: nat, failure: nat -> Option<IoError>)
    returns (r: Result<WorkingFile>)
    requires g > 0 && bytes % g == 0 && chunk > 0 && chunk % g == 0 && buffer.data.Length == chunk
    requires file.content == [] && file.writes == []
    requires forall i | 0 <= i < chunk :: buffer.data[i] == i % MODULUS
    modifies file
    ensures (forall k: nat :: failure(k) == None) ==> r.Ok?
    ensures r.Ok? ==> r.value == file && |file.content| == bytes && IsPattern(file.content, chunk)
    ensures forall i | 0 <= i < |file.writes| :: file.writes[i] > 0 && file.writes[i] % g == 0
  {
    var written, calls := 0, 0;
    ZeroIsAMultiple(chunk);
    ZeroIsAMultiple(g);
    while written < bytes
      invariant written == |file.content| <= bytes && written % g == 0
      invariant written < bytes ==> written % chunk == 0
      invariant IsPattern(file.content, chunk)
      invariant forall i | 0 <= i < |file.writes| :: file.writes[i] > 0 && file.writes[i] % g == 0
      decreases bytes - written
    {
      var take := Min(bytes - written, chunk);
      DifferenceOfMultiples(bytes, written, g);
      PatternExtends(file.content, buffer.data[..take], chunk);
      StepsOn(written, take, g, chunk);
      var wrote := file.WriteAll(buffer.data[..take], failure(calls));
      if wrote.Err? {
        return Err(wrote.error);
      }
      written, calls := written + take, calls + 1;
    }
    return Ok(file);
  }

  lemma ZeroIsAMultiple(g: nat)
    requires g > 0
    ensures 0 % g == 0
  {
  }

  lemma StepsOn(written: nat, take: nat, g: nat, chunk: nat)
    requires g > 0 && chunk > 0 && written % g == 0 && take % g == 0 && written % chunk == 0
    ensures (written + take) % g == 0
    ensures take == chunk ==> (written + take) % chunk == 0
  {
    var a, b := written / g, take / g;
    assert written == a * g && take == b * g;
    assert written + take == (a + b) * g + 0;
    QuotientIsUnique(written + take, g, a + b, 0);
    var q := written / chunk;
    assert written == q * chunk;
    if take == chunk {
      assert written + chunk == (q + 1) * chunk + 0;
      QuotientIsUnique(written + chunk, chunk, q + 1, 0);
    }
  }

  /** A chunk never outgrows what can be allocation. */
  lemma ChunkFits(g: nat)
    requires 0 < g <= MAX_U32 && IsPowerOfTwo(g)
    ensures CapacityFor(ChunkFor(g), g) == Ok(ChunkFor(g))
  {
    HalvingIsExact(g);
    ChunkIsAPower(g);
  }

  // --------------------------------------------- where the documentation is right

  /** 251 is odd, so it divides a number as soon as it divides its double. */
  lemma OddFactorOfADouble(half: nat)
    requires (2 * half) % MODULUS == 0
    ensures half % MODULUS == 0
  {
    var t := 2 * half / MODULUS;
    assert 2 * half == MODULUS * t;
    assert half == MODULUS * (t / 2);
  }

  lemma {:induction false} OddFactorSurvivesDoubling(k: nat, q: nat)
    requires (Pow2(k) * q) % MODULUS == 0
    ensures q % MODULUS == 0
  {
    if k == 0 {
      assert Pow2(k) * q == q;
    } else {
      var p := Pow2(k - 1);
      assert Pow2(k) == 2 * p;
      Regroup(2, p, q);
      OddFactorOfADouble(p * q);
      OddFactorSurvivesDoubling(k - 1, q);
    }
  }

  lemma Regroup(a: nat, b: nat, c: nat)
    ensures (a * b) * c == a * (b * c)
  {
  }

  /**
   The documented content is `j % 251`. What is written is that exactly at the
   bytes whose chunk number is a multiple of 251.
   */
  lemma PatternAgreesExactly(j: nat, chunk: nat)
    requires IsPowerOfTwo(chunk)
    ensures PatternByte(j, chunk) == j % MODULUS <==> (j / chunk) % MODULUS == 0
  {
    var q, r := Split(j, chunk);
    MultiplesOfAPower(chunk, q);
    AgreesAt(chunk, q, r);
  }

  lemma Split(j: nat, d: nat) returns (q: nat, r: nat)
    requires d > 0
    ensures q == j / d && r == j % d && j == d * q + r
  {
    q, r := j / d, j % d;
  }

  lemma AgreesAt(chunk: nat, q: nat, r: nat)
    ensures (chunk * q + r) % MODULUS == r % MODULUS <==> (chunk * q) % MODULUS == 0
  {
    AddingAMultiple(chunk * q, r);
  }

  lemma MultiplesOfAPower(chunk: nat, q: nat)
    requires IsPowerOfTwo(chunk)
    ensures (chunk * q) % MODULUS == 0 <==> q % MODULUS == 0
  {
    if (chunk * q) % MODULUS == 0 {
      var k :| chunk == Pow2(k);
      OddFactorSurvivesDoubling(k, q);
    }
    if q % MODULUS == 0 {
      MultipleTimes(chunk, q);
    }
  }

  lemma MultipleTimes(a: nat, q: nat)
    requires q % MODULUS == 0
    ensures (a * q) % MODULUS == 0
  {
    var t := q / MODULUS;
    assert q == t * MODULUS;
    Regroup(a, t, MODULUS);
    QuotientIsUnique(a * q, MODULUS, a * t, 0);
  }

  lemma AddingAMultiple(x: int, r: int)
    ensures (x + r) % MODULUS == r % MODULUS <==> x % MODULUS == 0
  {
  }

  /** So the whole file is as documented exactly when it fits in one chunk. */
  lemma DocumentedContentExactly(content: seq<Byte>, chunk: nat)
    requires IsPowerOfTwo(chunk) && IsPattern(content, chunk)
    ensures (forall j | 0 <= j < |content| :: content[j] == j % MODULUS) <==> |content| <= chunk
  {
    if |content| <= chunk {
      forall j | 0 <= j < |content| ensures content[j] == j % MODULUS {
        QuotientIsUnique(j, chunk, 0, j);
      }
    } else {
      QuotientIsUnique(chunk, chunk, 1, 0);
      PatternAgreesExactly(chunk, chunk);
    }
  }

  // ----------------------------------------------------------------- creation

  /** The size a working file gets, or why it is refused. */
  function SizeFor(bytes: U64, report: Report): Result<nat>
    requires Validate(report).Ok?
  {
    if bytes == 0 then Err(InvalidInput) else NextMultiple(bytes, Granularity(report))
  }

  /** Creating the file: the least legal size not below what was asked for, all of it written. */
  method Create(bytes: U64, report: Report, outOfMemory: bool, unbuffered: bool, failure: nat -> Option<IoError>)
    returns (r: Result<WorkingFile>)
    requires Validate(report).Ok?
    ensures bytes == 0 || SizeFor(bytes, report).Err? ==> r == Err(InvalidInput)
    ensures SizeFor(bytes, report).Ok? && !outOfMemory && unbuffered && (forall k: nat :: failure(k) == None) ==> r.Ok?
    ensures r.Ok? ==>
              && var n := |r.value.content|;
              && SizeFor(bytes, report) == Ok(n) && bytes <= n < bytes + Granularity(report)
              && (forall j | 0 <= j < n :: r.value.content[j] == (j % Max(Granularity(report), 0x10_0000)) % 251)
              && n % Granularity(report) == 0 && IsPattern(r.value.content, ChunkFor(Granularity(report)))
              && forall i | 0 <= i < |r.value.writes| ::
                   r.value.writes[i] > 0 && r.value.writes[i] % Granularity(report) == 0
  {
    if bytes == 0 {
      return Err(InvalidInput);
    }
    RoundingIsLeast(bytes, Granularity(report), 0);
    var size := NextMultiple(bytes, Granularity(report));
    if size.Err? {
      return Err(size.error);
    }
    r := EnsureUnbufferedFile(size.value, report, outOfMemory, unbuffered, failure);
    GranularityServesEveryAnswer(report);
    ChunkIsAPower(Granularity(report));
  }

  // -------------------------------------------------------------------- offsets

  const SEED: U64 := 0x2545_F491_4F6C_DD1D
  const MULTIPLIER: nat := 6_364_136_223_846_793_005
  const INCREMENT: nat := 1_442_695_040_888_963_407

  /** One step of the generator, wrapping at 64 bits. */
  function NextState(state: U64): U64 {
    (state * MULTIPLIER + INCREMENT) % TWO_64
  }

  /** The generator's state after `n` steps. */
  function StateAfter(n: nat): U64 {
    if n == 0 then SEED else NextState(StateAfter(n - 1))
  }

  /** Aligned places where a whole block still fits; a file too small has the one at zero. */
  function Slots(block: nat, align: nat, fileBytes: U64): (n: nat)
    ensures n > 0
  {
    (if fileBytes >= block then fileBytes - block else 0) / Max(align, 1) + 1
  }

  function SequentialOffset(i: nat, block: nat, align: nat, fileBytes: U64): nat {
    (i % Slots(block, align, fileBytes)) * Max(align, 1)
  }

  function RandomOffset(i: nat, block: nat, align: nat, fileBytes: U64): nat {
    (StateAfter(i + 1) / 0x1_0000 % Slots(block, align, fileBytes)) * Max(align, 1)
  }

  /** The offsets one iteration reads: a formula in order, or the generator's. */
  method Offsets(sequential: bool, operations: nat, block: nat, align: nat, fileBytes: U64) returns (offsets: seq<nat>)
    ensures |offsets| == operations
    ensures forall i | 0 <= i < operations ::
              offsets[i] == if sequential then SequentialOffset(i, block, align, fileBytes)
                            else RandomOffset(i, block, align, fileBytes)
    ensures forall i | 0 <= i < operations :: offsets[i] % Max(align, 1) == 0
    ensures forall i | 0 <= i < operations :: offsets[i] + block <= Max(fileBytes, block)
  {
    var step := Max(align, 1);
    var slots := Slots(block, align, fileBytes);
    if sequential {
      offsets := seq(operations, (i: nat) => SequentialOffset(i, block, align, fileBytes));
      forall i | 0 <= i < operations
        ensures offsets[i] % step == 0 && offsets[i] + block <= Max(fileBytes, block)
      {
        SlotIsLegal(i % slots, block, align, fileBytes);
      }
    } else {
      offsets := [];
      var state := SEED;
      for i := 0 to operations
        invariant |offsets| == i && state == StateAfter(i)
        invariant forall k | 0 <= k < i ::
                    offsets[k] == RandomOffset(k, block, align, fileBytes) && offsets[k] % step == 0
                    && offsets[k] + block <= Max(fileBytes, block)
      {
        state := NextState(state);
        SlotIsLegal(state / 0x1_0000 % slots, block, align, fileBytes);
        offsets := offsets + [state / 0x1_0000 % slots * step];
      }
    }
  }

  lemma SlotIsLegal(slot: nat, block: nat, align: nat, fileBytes: U64)
    requires slot < Slots(block, align, fileBytes)
    ensures (slot * Max(align, 1)) % Max(align, 1) == 0
    ensures slot * Max(align, 1) + block <= Max(fileBytes, block)
  {
    var step := Max(align, 1);
    var room := if fileBytes >= block then fileBytes - block else 0;
    assert slot * step == slot * step + 0;
    QuotientIsUnique(slot * step, step, slot, 0);
    MulMonotone(slot, room / step, step);
    assert room == (room / step) * step + room % step;
  }

  /**
   The chain: on every validated host, reads of a created file at the offsets
   generated for it start on every boundary the host named and stay inside it.
   */
  lemma EveryReadIsLegal(report: Report, bytes: U64, block: nat, slot: nat, d: nat)
    requires Validate(report).Ok? && SizeFor(bytes, report).Ok? && SizeFor(bytes, report).value <= MAX_USIZE
    requires var size := SizeFor(bytes, report).value; block <= size && slot < Slots(block, Granularity(report), size)
    requires IsAnswer(report, d)
    ensures var offset := slot * Granularity(report);
            offset % d == 0 && offset + block <= SizeFor(bytes, report).value
    ensures SizeFor(bytes, report).value % d == 0
  {
    var g, size := Granularity(report), SizeFor(bytes, report).value;
    GranularityServesEveryAnswer(report);
    RoundingIsLeast(bytes, g, 0);
    SlotIsLegal(slot, block, g, size);
    DivisibleThrough(slot * g, g, d);
    DivisibleThrough(size, g, d);
  }

  /** Sequential reads start at zero and go up by one boundary at a time, back to zero when the next block would not fit. */
  lemma SequentialOffsetsStep(i: nat, block: nat, align: nat, fileBytes: U64)
    requires block <= fileBytes
    ensures SequentialOffset(0, block, align, fileBytes) == 0
    ensures var here := SequentialOffset(i, block, align, fileBytes);
            SequentialOffset(i + 1, block, align, fileBytes) ==
            if here + Max(align, 1) + block <= fileBytes then here + Max(align, 1) else 0
  {
    var step, n := Max(align, 1), Slots(block, align, fileBytes);
    var a := i % n;
    NextSlot(i, n);
    SlotFits(a + 1, step, fileBytes - block);
    assert (a + 1) * step == a * step + step;
  }

  lemma NextSlot(i: nat, n: nat)
    requires n > 0
    ensures 0 % n == 0 && (i + 1) % n == if i % n + 1 < n then i % n + 1 else 0
  {
    var q, a := i / n, i % n;
    assert i == q * n + a;
    if a + 1 < n {
      QuotientIsUnique(i + 1, n, q, a + 1);
    } else {
      assert i + 1 == (q + 1) * n + 0;
      QuotientIsUnique(i + 1, n, q + 1, 0);
    }
  }

  /** A slot exists exactly when its offset leaves room for the block. */
  lemma SlotFits(slot: nat, step: nat, room: nat)
    requires step > 0
    ensures slot * step <= room <==> slot <= room / step
  {
    assert room == (room / step) * step + room % step;
    if slot <= room / step {
      MulMonotone(slot, room / step, step);
    } else {
      MulMonotone(room / step + 1, slot, step);
      assert (room / step + 1) * step == (room / step) * step + step;
    }
  }

  /** The inverse of the multiplier modulo 2^64: their product is one more than MULTIPLIER_TURNS turns of it. */
  const MULTIPLIER_INVERSE: nat := 13877824140714322085
  const MULTIPLIER_TURNS: nat := 4787856489426250814

  /** The generator never merges two states, so every state has one predecessor. */
  lemma NextStateIsInjective(a: U64, b: U64)
    requires NextState(a) == NextState(b)
    ensures a == b
  {
    var x, y := a * MULTIPLIER + INCREMENT, b * MULTIPLIER + INCREMENT;
    DivMod(x, TWO_64);
    DivMod(y, TWO_64);
    SplitDifference(a, b, MULTIPLIER);
    SplitDifference(x / TWO_64, y / TWO_64, TWO_64);
    InverseCancels(a - b, x / TWO_64 - y / TWO_64, MULTIPLIER, MULTIPLIER_INVERSE, MULTIPLIER_TURNS, TWO_64);
  }

  /** One step of the generator, worked out: `turns` turns of 2^64 and the state after. */
  lemma StateStep(state: U64, turns: nat, after: U64)
    requires state * MULTIPLIER + INCREMENT == turns * TWO_64 + after
    ensures NextState(state) == after
  {
    QuotientIsUnique(state * MULTIPLIER + INCREMENT, TWO_64, turns, after);
  }

  /** Where the seeded generator starts: its first two states, `a` and `b`. */
  lemma FirstStates(a: U64, b: U64)
    requires a == 0x78dc9d8b3d1cc268 && b == 0x3765a806006f4597
    ensures SEED == 0x2545f4914f6cdd1d && StateAfter(1) == a && StateAfter(2) == b
  {
    hide NextState;
    StateStep(SEED, 926609857788023689, a);
    StateStep(a, 3004612599068799966, b);
    assert StateAfter(1) == NextState(StateAfter(0));
    assert StateAfter(2) == NextState(StateAfter(1));
  }

  /** The first random reads of 4096 bytes in a mebibyte of 4096-byte sectors. */
  lemma FirstRandomOffsets(n: nat, fileBytes: U64)
    requires n == 4096 && fileBytes == 0x10_0000
    ensures RandomOffset(0, n, n, fileBytes) == 114688 && RandomOffset(1, n, n, fileBytes) == 454656
  {
    hide StateAfter;
    FirstStates(0x78dc9d8b3d1cc268, 0x3765a806006f4597);
    assert Slots(n, n, fileBytes) == 256;
  }

  /** Sequential reads visit each slot once before coming back to the first. */
  lemma SequentialOffsetsCycle(i: nat, j: nat, block: nat, align: nat, fileBytes: U64)
    ensures SequentialOffset(i, block, align, fileBytes) == SequentialOffset(j, block, align, fileBytes)
       <==> i % Slots(block, align, fileBytes) == j % Slots(block, align, fileBytes)
  {
    var n, step := Slots(block, align, fileBytes), Max(align, 1);
    var a, b := i % n, j % n;
    assert a * step == a * step + 0 && b * step == b * step + 0;
    QuotientIsUnique(a * step, step, a, 0);
    QuotientIsUnique(b * step, step, b, 0);
  }
}
