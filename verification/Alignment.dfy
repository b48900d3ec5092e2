/**
 What a host reports about unbuffered input and output, the granularity taken from
 it, and rounding to that granularity.
 */
module Alignment {
  import opened Arith
  import opened Pools
  import opened Fnv

  const MAX_USIZE: nat := TWO_64 - 1
  const MAX_U32: nat := 0xFFFF_FFFF

  // ------------------------------------------------------------- powers of two

  ghost predicate IsPowerOfTwo(n: nat) {
    exists k :: n == Pow2(k)
  }

  /** The test a program can make: halve while even. */
  function HalvesToOne(n: nat): bool {
    if n <= 1 then n == 1 else n % 2 == 0 && HalvesToOne(n / 2)
  }

  lemma {:induction false} HalvingFindsThePower(n: nat) returns (k: nat)
    requires HalvesToOne(n)
    ensures n == Pow2(k)
  {
    if n == 1 {
      k := 0;
    } else {
      k := HalvingFindsThePower(n / 2);
      k := k + 1;
    }
  }

  lemma {:induction false} PowersHalve(k: nat)
    ensures HalvesToOne(Pow2(k))
  {
    if k > 0 {
      PowersHalve(k - 1);
    }
  }

  /** The test accepts exactly the powers of two. */
  lemma HalvingIsExact(n: nat)
    ensures HalvesToOne(n) <==> IsPowerOfTwo(n)
  {
    if HalvesToOne(n) {
      var k := HalvingFindsThePower(n);
    }
    if IsPowerOfTwo(n) {
      var k :| n == Pow2(k);
      PowersHalve(k);
    }
  }

  lemma {:induction false} PowersDivide(a: nat, b: nat)
    requires a <= b
    ensures Pow2(b) % Pow2(a) == 0 && Pow2(a) <= Pow2(b)
    decreases b - a
  {
    if a < b {
      PowersDivide(a, b - 1);
      var q := Pow2(b - 1) / Pow2(a);
      assert Pow2(b) == (2 * q) * Pow2(a) + 0;
      QuotientIsUnique(Pow2(b), Pow2(a), 2 * q, 0);
    } else {
      assert Pow2(a) == 1 * Pow2(a) + 0;
      QuotientIsUnique(Pow2(a), Pow2(a), 1, 0);
    }
  }

  /** Of two powers of two the smaller divides the larger. */
  lemma SmallerPowerDivides(m: nat, n: nat)
    requires IsPowerOfTwo(m) && IsPowerOfTwo(n) && m <= n
    ensures n % m == 0
  {
    var a :| m == Pow2(a);
    var b :| n == Pow2(b);
    if a <= b {
      PowersDivide(a, b);
    } else {
      PowersDivide(b, a);
      PowersDivide(b, b);
    }
  }

  lemma DivisibleThrough(n: nat, g: nat, d: nat)
    requires g > 0 && d > 0 && n % g == 0 && g % d == 0
    ensures n % d == 0
  {
    var a, b := n / g, g / d;
    assert n == a * g && g == b * d;
    assert n == a * (b * d) == (a * b) * d + 0;
    QuotientIsUnique(n, d, a * b, 0);
  }

  // --------------------------------------------------------------------- reports

  /** The host's answers, zero where a source reported nothing. */
  datatype Report = Report(
    alignmentRequirement: U32,
    logicalSector: U32,
    physicalAtomicity: U32,
    physicalPerformance: U32,
    diskBytesPerSector: U32
  )

  /** The requirement is reported as a mask, and taken with a saturating increment. */
  function FromMask(mask: U32): U32 {
    Min(mask + 1, MAX_U32)
  }

  function Optional(r: Report): seq<U32> {
    [r.physicalAtomicity, r.physicalPerformance, r.alignmentRequirement, r.diskBytesPerSector]
  }

  /** Only the logical sector must be present; whatever is present must make sense. */
  function Validate(r: Report): (v: Result<()>)
    ensures v.Err? ==> v.error == Unsupported
  {
    if r.logicalSector == 0 || !HalvesToOne(r.logicalSector) then Err(Unsupported)
    else if exists i | 0 <= i < 4 :: Optional(r)[i] != 0 && !HalvesToOne(Optional(r)[i]) then Err(Unsupported)
    else Ok(())
  }

  function Granularity(r: Report): nat {
    Max(Max(Max(Max(r.logicalSector, r.physicalAtomicity), r.physicalPerformance), r.alignmentRequirement),
        r.diskBytesPerSector)
  }

  /** The answers that constrain unbuffered access. */
  ghost predicate IsAnswer(r: Report, d: nat) {
    d != 0 && (d == r.logicalSector || d == r.physicalAtomicity || d == r.physicalPerformance
               || d == r.alignmentRequirement || d == r.diskBytesPerSector)
  }

  lemma AnswersArePowers(r: Report, d: nat)
    requires Validate(r).Ok? && IsAnswer(r, d)
    ensures IsPowerOfTwo(d) && d <= Granularity(r)
  {
    HalvingIsExact(d);
    assert Optional(r)[0] == r.physicalAtomicity && Optional(r)[1] == r.physicalPerformance;
    assert Optional(r)[2] == r.alignmentRequirement && Optional(r)[3] == r.diskBytesPerSector;
    if d != r.logicalSector {
      var i :| 0 <= i < 4 && Optional(r)[i] == d;
    }
  }

  /** A validated granularity is one of the answers, a power of two, and a multiple of every answer. */
  lemma GranularityServesEveryAnswer(r: Report)
    requires Validate(r).Ok?
    ensures IsAnswer(r, Granularity(r)) && IsPowerOfTwo(Granularity(r))
    ensures forall d: nat | IsAnswer(r, d) :: Granularity(r) % d == 0
  {
    var g := Granularity(r);
    assert Optional(r)[0] == r.physicalAtomicity && Optional(r)[1] == r.physicalPerformance;
    assert Optional(r)[2] == r.alignmentRequirement && Optional(r)[3] == r.diskBytesPerSector;
    AnswersArePowers(r, g);
    forall d: nat | IsAnswer(r, d)
      ensures g % d == 0
    {
      AnswersArePowers(r, d);
      SmallerPowerDivides(d, g);
    }
  }

  /** A report is refused exactly when the sector is missing or some answer is not a power of two. */
  lemma ValidationIsExact(r: Report)
    ensures Validate(r).Ok? <==>
            r.logicalSector != 0 && forall d: nat | IsAnswer(r, d) :: IsPowerOfTwo(d)
  {
    if Validate(r).Ok? {
      forall d: nat | IsAnswer(r, d) ensures IsPowerOfTwo(d) {
        AnswersArePowers(r, d);
      }
    } else if r.logicalSector != 0 {
      HalvingIsExact(r.logicalSector);
      if HalvesToOne(r.logicalSector) {
        var i :| 0 <= i < 4 && Optional(r)[i] != 0 && !HalvesToOne(Optional(r)[i]);
        HalvingIsExact(Optional(r)[i]);
        assert IsAnswer(r, Optional(r)[i]);
      } else {
        assert IsAnswer(r, r.logicalSector);
      }
    }
  }

  /** The mask of an alignment that is a power of two is that alignment less one, and is read back as it. */
  lemma MaskOfAPower(a: nat)
    requires IsPowerOfTwo(a) && 0 < a <= MAX_U32
    ensures FromMask(a - 1) == a
  {
  }

  /** A mask is accepted exactly when it is one less than a power of two that fits. */
  lemma MaskIsAcceptedExactly(mask: U32)
    ensures IsPowerOfTwo(FromMask(mask)) <==> mask < MAX_U32 && IsPowerOfTwo(mask + 1)
  {
    HalvingIsExact(MAX_U32);
    assert !HalvesToOne(MAX_U32);
  }

  /** The largest mask saturates to an answer that is refused. */
  lemma FullMaskIsRefused(r: Report)
    requires r.alignmentRequirement == FromMask(MAX_U32)
    ensures Validate(r) == Err(Unsupported)
  {
    assert Optional(r)[2] == MAX_U32 && !HalvesToOne(MAX_U32);
  }

  // -------------------------------------------------------------------- rounding

  /** The next multiple of `g`. */
  function RoundUp(n: nat, g: nat): (up: nat)
    requires g > 0
    ensures n <= up < n + g
  {
    if n % g == 0 then n else n + (g - n % g)
  }

  /** The next multiple of `g`, or an overflow reported as such. */
  function NextMultiple(n: nat, g: nat): (r: Result<nat>)
    requires g > 0
  {
    if RoundUp(n, g) > MAX_USIZE then Err(InvalidInput) else Ok(RoundUp(n, g))
  }

  /** Rounding gives the least multiple not below `n`, and is refused exactly when that does not fit. */
  lemma RoundingIsLeast(n: nat, g: nat, m: nat)
    requires g > 0
    ensures NextMultiple(n, g).Ok? ==>
              var up := NextMultiple(n, g).value;
              up % g == 0 && n <= up < n + g && (m % g == 0 && n <= m ==> up <= m)
    ensures NextMultiple(n, g).Err? ==> NextMultiple(n, g).error == InvalidInput
    ensures NextMultiple(n, g).Err? && m % g == 0 && n <= m ==> m > MAX_USIZE
  {
    MultipleAbove(n, g);
    if m % g == 0 && n <= m {
      LeastMultiple(n, g, m);
    }
  }

  /** No multiple lies between a number and its rounding. */
  lemma LeastMultiple(n: nat, g: nat, m: nat)
    requires g > 0 && m % g == 0 && n <= m
    ensures RoundUp(n, g) <= m
  {
    var up := RoundUp(n, g);
    MultipleAbove(n, g);
    if m < up {
      // Two multiples less than `g` apart are the same.
      var a, b := m / g, up / g;
      assert m == a * g && up == b * g;
      assert (b - a) * g == up - m;
      if b - a >= 1 {
        MulAtLeast(b - a, g);
      } else {
        MulMonotone(b - a, 0, g);
      }
      assert false;
    }
  }

  lemma MultipleAbove(n: nat, g: nat)
    requires g > 0
    ensures RoundUp(n, g) % g == 0
  {
    var q := n / g;
    assert n == q * g + n % g;
    if n % g != 0 {
      assert n + (g - n % g) == (q + 1) * g + 0;
      QuotientIsUnique(n + (g - n % g), g, q + 1, 0);
    }
  }

  predicate IsAligned(n: nat, g: nat)
    requires g > 0
  {
    n % g == 0
  }
}
