/**
 What a run's depth figures are judged to mean: the shape check that can fail a
 run, and the shortfall that annotates it.
 */
module Verdict {
  import opened Arith
  import opened Depth

  /** An exact mean: `sum` over `count` samples. No sample at all reads as zero. */
  datatype Mean = Mean(sum: nat, count: nat)

  function MeanOf(sum: nat, count: nat): (m: Mean)
    ensures m.count > 0 && (count == 0 ==> m.sum == 0) && (count > 0 ==> m == Mean(sum, count))
  {
    if count == 0 then Mean(0, 1) else Mean(sum, count)
  }

  /** One over the depth tolerance: a difference within 10^-9 counts as agreement. */
  const TOLERANCE_RECIPROCAL: nat := 1_000_000_000

  function Distance(a: nat, b: nat): nat {
    if a <= b then b - a else a - b
  }

  /** |a - b| <= 10^-9, multiplied out. */
  predicate WithinTolerance(a: Mean, b: Mean) {
    Distance(Times(a.sum, b.count), Times(b.sum, a.count)) * TOLERANCE_RECIPROCAL <= Times(a.count, b.count)
  }

  datatype ShapeCheck =
    | Matched(predicted: Mean, measured: Mean)
    | PoolBound(predicted: Mean, measured: Mean)
    | Mismatched(predicted: Mean, measured: Mean)
  {
    predicate IsFailure() {
      Mismatched?
    }
  }

  datatype Shortfall = NoShortfall | Expected | Unexpected

  function Judge(shape: Shape, configured: nat, weighted: nat, samples: nat, poolBound: bool, count: nat): ShapeCheck {
    var predicted := MeanOf(PredictedWeighted(shape, count, configured), count);
    var measured := MeanOf(weighted, samples);
    if WithinTolerance(measured, predicted) then Matched(predicted, measured)
    else if poolBound then PoolBound(predicted, measured)
    else Mismatched(predicted, measured)
  }

  function JudgeShortfall(configured: nat, peak: nat, starved: bool, poolBound: bool, operations: nat): Shortfall {
    if peak >= configured then NoShortfall
    else if starved || poolBound || operations < configured then Expected
    else Unexpected
  }

  // ------------------------------------------------------------ the verdict

  /** Cross-multiplied, the tolerance is that of the quotients: a thousand-millionth either way. */
  lemma ToleranceIsReal(a: Mean, b: Mean)
    requires a.count > 0 && b.count > 0
    ensures WithinTolerance(a, b) <==>
            -0.000000001 <= a.sum as real / a.count as real - b.sum as real / b.count as real <= 0.000000001
  {
    var x, y := a.sum as real / a.count as real, b.sum as real / b.count as real;
    var gap, whole := a.sum * b.count - b.sum * a.count, a.count * b.count;
    CrossMultiplied(a.sum as real, a.count as real, b.sum as real, b.count as real);
    RealProducts(a.sum, b.count);
    RealProducts(b.sum, a.count);
    RealProducts(a.count, b.count);
    MulMonotone(1, a.count, b.count);
    hide Times;
    TimesIs(a.sum, b.count);
    TimesIs(b.sum, a.count);
    TimesIs(a.count, b.count);
    assert WithinTolerance(a, b) <==> -whole <= gap * 1_000_000_000 <= whole;
    Scaled(x - y, whole as real, gap as real);
  }

  lemma TimesIs(a: nat, b: nat)
    ensures Times(a, b) == a * b
  {
  }

  lemma CrossMultiplied(s: real, n: real, t: real, m: real)
    requires n > 0.0 && m > 0.0
    ensures (s / n - t / m) * (n * m) == s * m - t * n
  {
    var x, y := s / n, t / m;
    assert x * n == s && y * m == t;
    assert (x - y) * (n * m) == (x * n) * m - (y * m) * n;
  }

  lemma RealProducts(a: int, b: int)
    ensures (a * b) as real == a as real * b as real
  {
  }

  lemma Scaled(d: real, whole: real, gap: real)
    requires whole > 0.0 && d * whole == gap
    ensures -whole <= gap * 1_000_000_000.0 <= whole <==> -0.000000001 <= d <= 0.000000001
  {
    if d > 0.000000001 {
      assert (d - 0.000000001) * whole > 0.0;
    }
    if d < -0.000000001 {
      assert (-0.000000001 - d) * whole > 0.0;
    }
    if -0.000000001 <= d <= 0.000000001 {
      assert (0.000000001 - d) * whole >= 0.0;
      assert (d + 0.000000001) * whole >= 0.0;
    }
  }

  /** Over one count, tolerating 10^-9 of a mean is tolerating count over 10^9 of a sum. */
  lemma ToleranceOverOneCount(a: nat, b: nat, count: nat)
    requires count > 0
    ensures WithinTolerance(Mean(a, count), Mean(b, count))
       <==> Distance(a, b) * TOLERANCE_RECIPROCAL <= count
  {
    var gap := Distance(a, b);
    assert Distance(a * count, b * count) == gap * count by {
      if a <= b {
        SplitProduct(a, b - a, count);
        MulMonotone(a, b, count);
      } else {
        SplitProduct(b, a - b, count);
        MulMonotone(b, a, count);
      }
    }
    var scaled := gap * TOLERANCE_RECIPROCAL;
    assert gap * count * TOLERANCE_RECIPROCAL == scaled * count;
    if scaled <= count {
      MulMonotone(scaled, count, count);
    } else {
      MulMonotone(count + 1, scaled, count);
      SplitProduct(count, 1, count);
    }
  }

  /**
   A run judged on the count it ran matches exactly when its sum is within count
   over 10^9 of the prediction; below 10^9 operations that is equality.
   */
  lemma JudgedOnItsOwnCount(shape: Shape, configured: nat, weighted: nat, poolBound: bool, count: nat)
    requires count == 0 ==> weighted == 0
    ensures var verdict := Judge(shape, configured, weighted, count, poolBound, count);
            var gap := Distance(weighted, PredictedWeighted(shape, count, configured));
            && (verdict.Matched? <==> gap * TOLERANCE_RECIPROCAL <= count)
            && (count < TOLERANCE_RECIPROCAL ==>
                  (verdict.Matched? <==> weighted == PredictedWeighted(shape, count, configured)))
            && (!verdict.Matched? ==> verdict.PoolBound? == poolBound)
  {
    if count > 0 {
      ToleranceOverOneCount(weighted, PredictedWeighted(shape, count, configured), count);
    }
  }

  /**
   The verdict on a run whose pool bounds it at Min(configured, pool), as the
   runner leaves its figures: never a mismatch, and below 10^9 operations a match
   exactly when the pool could hold every operation the window wanted.
   */
  lemma VerdictIsExact(shape: Shape, count: nat, configured: nat, pool: nat)
    requires configured >= 1 && pool >= 1
    ensures var verdict := Judge(shape, configured, PredictedWeighted(shape, count, Min(configured, pool)),
                                 count, pool < Min(configured, count), count);
            && !verdict.IsFailure()
            && (count < TOLERANCE_RECIPROCAL ==> (verdict.Matched? <==> pool >= Min(configured, count)))
            && (pool >= Min(configured, count) ==> verdict.Matched?)
  {
    var depth := Min(configured, pool);
    JudgedOnItsOwnCount(shape, configured, PredictedWeighted(shape, count, depth), pool < Min(configured, count), count);
    PredictionSeparatesDepths(shape, count, depth, configured);
  }

  /**
   The verdict carries both means: the measured one is the run's own, the predicted
   one the configuration's, and a run bounded by its pool falls short of it.
   */
  lemma VerdictNamesBothMeans(shape: Shape, count: nat, configured: nat, pool: nat)
    requires configured >= 1 && pool >= 1 && count >= 1
    ensures var weighted := PredictedWeighted(shape, count, Min(configured, pool));
            var verdict := Judge(shape, configured, weighted, count, pool < Min(configured, count), count);
            && verdict.measured == Mean(weighted, count)
            && verdict.predicted == Mean(PredictedWeighted(shape, count, configured), count)
            && (verdict.PoolBound? ==> verdict.measured.sum < verdict.predicted.sum)
  {
    PredictionGrows(shape, count, Min(configured, pool), configured);
    VerdictIsExact(shape, count, configured, pool);
    hide PredictedWeighted;
  }

  /**
   The bound of 10^9 operations is sharp: from there on some run held short by
   its pool is reported as matching.
   */
  lemma ToleranceHidesOneSample(count: nat)
    requires count >= TOLERANCE_RECIPROCAL
    ensures var short := count - 1;
            && short < Min(count, count)
            && Judge(Rolling, count, PredictedWeighted(Rolling, count, short), count, true, count).Matched?
  {
    var short := count - 1;
    PredictionIsTheSampleSum(Rolling, count, short);
    PredictionIsTheSampleSum(Rolling, count, count);
    RollingClosedForm(short, count);
    RollingClosedForm(count, count);
    assert (count - short) * short == short;
    assert Triangle(count) == count + Triangle(short);
    JudgedOnItsOwnCount(Rolling, count, PredictedWeighted(Rolling, count, short), true, count);
  }

  /**
   A run with a full pool driven in one shape and judged as the other fails
   exactly when the shapes differ on it: a real window and more than one of it.
   */
  lemma WrongShapeIsCaught(declared: Shape, driven: Shape, count: nat, configured: nat)
    requires declared != driven && configured >= 1
    requires count < TOLERANCE_RECIPROCAL
    ensures Judge(declared, configured, PredictedWeighted(driven, count, configured), count, false, count).IsFailure()
       <==> 2 <= configured < count
  {
    JudgedOnItsOwnCount(declared, configured, PredictedWeighted(driven, count, configured), false, count);
    ShapesAreSeparable(count, configured);
  }

  /** A batch collapsed to one operation at a time fails whenever depth and count leave room to notice. */
  lemma CollapsedBatchIsCaught(count: nat, configured: nat)
    requires configured >= 1
    requires count < TOLERANCE_RECIPROCAL
    ensures Judge(Batched, configured, count, count, false, count).IsFailure() <==> configured >= 2 && count >= 2
  {
    DepthOne(count);
    JudgedOnItsOwnCount(Batched, configured, count, false, count);
    PredictionSeparatesDepths(Batched, count, 1, configured);
  }

  /**
   The shortfall of a finished run, as the runner leaves its figures. `starved` is
   raised by the last sample of every window deeper than one, so Unexpected
   cannot be reached.
   */
  lemma ShortfallIsNeverUnexpected(count: nat, configured: nat, pool: nat)
    requires configured >= 1 && pool >= 1
    ensures var shortfall := JudgeShortfall(configured, Min(count, Min(configured, pool)),
                                            count > 0 && configured > 1, pool < Min(configured, count), count);
            && shortfall == (if count >= configured && pool >= configured then NoShortfall else Expected)
  {
  }
}
