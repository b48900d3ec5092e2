/**
 The window shapes, the closed form for the depth a run must sustain, and the
 verdict that compares a run with it.

 A mean is an exact rational here: a sum and the number of samples it covers.
 */
module Depth {
  import opened Arith

  datatype Shape = Rolling | Batched

  /** The gate on entering the refill, given whether nothing is outstanding. */
  predicate MayRefill(shape: Shape, nothingOutstanding: bool) {
    shape == Rolling || nothingOutstanding
  }

  function Drain(d: nat): nat {
    d * (d + 1) / 2
  }

  /** The numerator of the predicted mean; its denominator is `count`. */
  function PredictedWeighted(shape: Shape, count: nat, configured: nat): nat {
    var n := Max(configured, 1);
    if count == 0 then 0
    else match shape
      case Rolling => if count >= n then Times(count - n, n) + Drain(n) else Drain(count)
      case Batched => Times(count / n, Drain(n)) + Drain(count % n)
  }

  /** A product of naturals, kept folded so that the closed form stays cheap to reason about. */
  function Times(a: nat, b: nat): (r: nat)
    ensures r == a * b
  {
    MulMonotone(0, a, b);
    a * b
  }

  // ---------------------------------------------------------- the reference

  /** How many operations a refill adds to a window of `outstanding`, with `left` not yet issued. */
  function RefillBy(shape: Shape, depth: nat, outstanding: nat, left: nat): (added: nat)
    ensures added <= left
  {
    if MayRefill(shape, outstanding == 0) && outstanding < depth then Min(depth - outstanding, left) else 0
  }

  /**
   What a window bounded at `depth` samples from here to the end of its run: one
   sample of the outstanding count per completion, refilling as the shape allows.
   */
  function SampleSum(shape: Shape, depth: nat, outstanding: nat, left: nat): nat
    decreases outstanding + left
  {
    var added := RefillBy(shape, depth, outstanding, left);
    var window := outstanding + added;
    if window == 0 then 0 else window + SampleSum(shape, depth, window - 1, left - added)
  }

  /** The same sum for the rolling shape, which depends only on what remains. */
  function RollingSum(depth: nat, remaining: nat): nat {
    if remaining == 0 then 0 else Min(depth, remaining) + RollingSum(depth, remaining - 1)
  }

  /** The same sum for the batched shape, one whole batch at a time. */
  function BatchedSum(depth: nat, remaining: nat): nat
    requires depth >= 1
  {
    if remaining == 0 then 0
    else var batch := Min(depth, remaining); Triangle(batch) + BatchedSum(depth, remaining - batch)
  }

  lemma {:induction false} RollingSamples(depth: nat, outstanding: nat, left: nat)
    requires 1 <= depth && outstanding <= depth
    ensures SampleSum(Rolling, depth, outstanding, left) == RollingSum(depth, outstanding + left)
    decreases outstanding + left
  {
    var added := RefillBy(Rolling, depth, outstanding, left);
    var window := outstanding + added;
    if window > 0 {
      RollingSamples(depth, window - 1, left - added);
    }
  }

  lemma {:induction false} BatchedSamples(depth: nat, outstanding: nat, left: nat)
    requires 1 <= depth && outstanding <= depth
    ensures SampleSum(Batched, depth, outstanding, left) == Triangle(outstanding) + BatchedSum(depth, left)
    decreases outstanding + left
  {
    if outstanding > 0 {
      BatchedSamples(depth, outstanding - 1, left);
    } else if left > 0 {
      var batch := Min(depth, left);
      BatchedSamples(depth, batch - 1, left - batch);
    }
  }

  lemma {:induction false} RollingClosedForm(depth: nat, count: nat)
    requires depth >= 1
    ensures RollingSum(depth, count)
         == if count >= depth then (count - depth) * depth + Triangle(depth) else Triangle(count)
  {
    if count > 0 {
      RollingClosedForm(depth, count - 1);
      if count > depth {
        assert (count - depth) * depth == (count - 1 - depth) * depth + depth;
      }
    }
  }

  lemma {:induction false} BatchedClosedForm(depth: nat, count: nat)
    requires depth >= 1
    ensures BatchedSum(depth, count) == (count / depth) * Triangle(depth) + Triangle(count % depth)
  {
    if count < depth {
      QuotientIsUnique(count, depth, 0, count);
      if count > 0 {
        assert BatchedSum(depth, 0) == 0;
      }
    } else {
      BatchedClosedForm(depth, count - depth);
      QuotientStep(count, depth, Triangle(depth));
    }
  }

  lemma QuotientStep(n: nat, d: nat, k: nat)
    requires 1 <= d <= n
    ensures n / d == (n - d) / d + 1 && n % d == (n - d) % d
    ensures (n / d) * k == ((n - d) / d) * k + k
  {
    var q, r := (n - d) / d, (n - d) % d;
    assert n - d == q * d + r;
    assert (q + 1) * d == q * d + d;
    QuotientIsUnique(n, d, q + 1, r);
    assert (q + 1) * k == q * k + k;
  }

  /** The closed form is what the sampling loop adds up to, for either shape. */
  lemma PredictionIsTheSampleSum(shape: Shape, count: nat, depth: nat)
    requires depth >= 1
    ensures PredictedWeighted(shape, count, depth) == SampleSum(shape, depth, 0, count)
    ensures PredictedWeighted(shape, count, depth)
         == match shape case Rolling => RollingSum(depth, count) case Batched => BatchedSum(depth, count)
  {
    match shape
    case Rolling => RollingPrediction(count, depth);
    case Batched => BatchedPrediction(count, depth);
  }

  lemma RollingPrediction(count: nat, depth: nat)
    requires depth >= 1
    ensures PredictedWeighted(Rolling, count, depth) == RollingSum(depth, count) == SampleSum(Rolling, depth, 0, count)
  {
    RollingSamples(depth, 0, count);
    RollingClosedForm(depth, count);
    hide SampleSum, RollingSum;
    TriangleClosedForm(depth);
    TriangleClosedForm(count);
  }

  lemma BatchedPrediction(count: nat, depth: nat)
    requires depth >= 1
    ensures PredictedWeighted(Batched, count, depth) == BatchedSum(depth, count) == SampleSum(Batched, depth, 0, count)
  {
    BatchedSamples(depth, 0, count);
    BatchedClosedForm(depth, count);
    hide SampleSum, BatchedSum;
    if count == 0 {
      QuotientIsUnique(0, depth, 0, 0);
    }
    TriangleClosedForm(depth);
    TriangleClosedForm(count % depth);
  }

  // ------------------------------------------- strict growth with the depth

  lemma {:induction false} RollingGrows(depth: nat, count: nat)
    requires depth >= 1
    ensures RollingSum(depth, count) <= RollingSum(depth + 1, count)
    ensures count > depth ==> RollingSum(depth, count) < RollingSum(depth + 1, count)
  {
    if count > 0 {
      RollingGrows(depth, count - 1);
    }
  }

  /** One more operation adds at most `depth` to a batched run, and at least one. */
  lemma {:induction false} BatchedIncrement(depth: nat, count: nat)
    requires depth >= 1
    ensures BatchedSum(depth, count) + 1 <= BatchedSum(depth, count + 1) <= BatchedSum(depth, count) + depth
  {
    FirstBatch(depth, count);
    FirstBatch(depth, count + 1);
    hide BatchedSum;
    if count >= depth {
      BatchedIncrement(depth, count - depth);
    }
  }

  lemma FirstBatch(depth: nat, count: nat)
    requires depth >= 1
    ensures count >= depth ==> BatchedSum(depth, count) == Triangle(depth) + BatchedSum(depth, count - depth)
    ensures count <= depth ==> BatchedSum(depth, count) == Triangle(count)
  {
    assert BatchedSum(depth, 0) == 0;
  }

  /** Larger batches majorize smaller ones: splitting the same count deeper strictly raises the sum. */
  lemma {:induction false} BatchedGrows(depth: nat, count: nat)
    requires depth >= 1
    ensures BatchedSum(depth, count) <= BatchedSum(depth + 1, count)
    ensures count > depth ==> BatchedSum(depth, count) < BatchedSum(depth + 1, count)
  {
    FirstBatch(depth, count);
    FirstBatch(depth + 1, count);
    hide BatchedSum;
    if count > depth {
      BatchedGrows(depth, count - depth - 1);
      BatchedIncrement(depth, count - depth - 1);
    }
  }

  /** Below the operation count, every extra unit of depth strictly raises the prediction. */
  lemma {:induction false} PredictionGrows(shape: Shape, count: nat, low: nat, high: nat)
    requires 1 <= low <= high
    ensures PredictedWeighted(shape, count, low) <= PredictedWeighted(shape, count, high)
    ensures low < high && low < count
        ==> PredictedWeighted(shape, count, low) < PredictedWeighted(shape, count, high)
    decreases high - low
  {
    if low < high {
      PredictionGrows(shape, count, low + 1, high);
      PredictionIsTheSampleSum(shape, count, low);
      PredictionIsTheSampleSum(shape, count, low + 1);
      RollingGrows(low, count);
      BatchedGrows(low, count);
    }
  }

  /** At or above the operation count, extra depth changes nothing. */
  lemma PredictionSaturates(shape: Shape, count: nat, depth: nat)
    requires 1 <= count <= depth
    ensures PredictedWeighted(shape, count, depth) == PredictedWeighted(shape, count, count) == Drain(count)
  {
    TriangleClosedForm(count);
    QuotientIsUnique(count, count, 1, 0);
    if count < depth {
      QuotientIsUnique(count, depth, 0, count);
    }
  }

  /** Two depths predict the same exactly when they are equal or neither is below the count. */
  lemma PredictionSeparatesDepths(shape: Shape, count: nat, low: nat, high: nat)
    requires 1 <= low <= high
    ensures PredictedWeighted(shape, count, low) == PredictedWeighted(shape, count, high)
       <==> low == high || count <= low
  {
    PredictionGrows(shape, count, low, high);
    if 1 <= count <= low {
      PredictionSaturates(shape, count, low);
      PredictionSaturates(shape, count, high);
    }
  }

  // --------------------------------------------------- shapes are separable

  /** A rolling window drops to one outstanding once; a batched one does so at every boundary. */
  lemma {:induction false} BatchedStaysBelowRolling(depth: nat, count: nat)
    requires depth >= 1
    ensures BatchedSum(depth, count) <= RollingSum(depth, count)
    ensures depth >= 2 && count > depth ==> BatchedSum(depth, count) < RollingSum(depth, count)
  {
    RollingClosedForm(depth, count);
    FirstBatch(depth, count);
    hide BatchedSum;
    if count <= depth {
      assert (depth - depth) * depth == 0;
    } else {
      BatchedStaysBelowRolling(depth, count - depth);
      RollingClosedForm(depth, count - depth);
      RollingGain(depth, count);
    }
  }

  /** Over one more window's worth of operations the rolling sum gains at least one batch's drain. */
  lemma RollingGain(depth: nat, count: nat)
    requires 1 <= depth < count
    ensures RollingSum(depth, count) >= Triangle(depth) + RollingSum(depth, count - depth)
    ensures depth >= 2 ==> RollingSum(depth, count) > Triangle(depth) + RollingSum(depth, count - depth)
  {
    RollingClosedForm(depth, count);
    RollingClosedForm(depth, count - depth);
    TriangleBelowSquare(depth);
    var tail := count - depth;
    if tail >= depth {
      SplitProduct(tail - depth, depth, depth);
    } else {
      TriangleBelowSquare(tail);
      SplitProduct(depth - tail, tail, tail);
      MulAtLeast(depth - tail, tail);
      assert tail * depth == depth * tail;
    }
  }

  lemma SplitProduct(a: int, b: int, c: int)
    ensures (a + b) * c == a * c + b * c
  {
  }

  lemma TriangleBelowSquare(d: nat)
    ensures Triangle(d) <= d * d
    ensures d >= 2 ==> Triangle(d) < d * d
  {
    TriangleClosedForm(d);
    assert d * (d + 1) == d * d + d;
    if d >= 2 {
      assert d * d >= 2 * d by { MulMonotone(2, d, d); }
    } else {
      assert d == 0 || d == 1;
    }
  }

  /**
   The two shapes predict the same mean exactly for depth one or a run that fits
   one window; everywhere else the rolling prediction is larger, by at least one
   over the count.
   */
  lemma ShapesAreSeparable(count: nat, depth: nat)
    requires depth >= 1
    ensures PredictedWeighted(Rolling, count, depth) == PredictedWeighted(Batched, count, depth)
       <==> depth == 1 || count <= depth
    ensures PredictedWeighted(Rolling, count, depth) >= PredictedWeighted(Batched, count, depth)
    ensures depth >= 2 && count > depth
        ==> PredictedWeighted(Rolling, count, depth) >= PredictedWeighted(Batched, count, depth) + 1
  {
    PredictionIsTheSampleSum(Rolling, count, depth);
    PredictionIsTheSampleSum(Batched, count, depth);
    BatchedStaysBelowRolling(depth, count);
    if depth == 1 {
      DepthOne(count);
    } else if 1 <= count <= depth {
      PredictionSaturates(Rolling, count, depth);
      PredictionSaturates(Batched, count, depth);
    }
  }

  /** At depth one every sample is one, whichever the shape. */
  lemma DepthOne(count: nat)
    ensures PredictedWeighted(Rolling, count, 1) == count
    ensures PredictedWeighted(Batched, count, 1) == count
  {
    assert Drain(1) == 1 && Drain(0) == 0;
    if count > 0 {
      QuotientIsUnique(count, 1, count, 0);
    }
  }
}
