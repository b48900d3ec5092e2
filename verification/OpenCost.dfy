/** Summarising a set of timing samples by its median and its ninetieth percentile. */
module OpenCost {
  import opened Options
  import opened Arith

  ghost predicate IsSorted(s: seq<nat>) {
    forall i, j | 0 <= i <= j < |s| :: s[i] <= s[j]
  }

  function Insert(x: nat, s: seq<nat>): (r: seq<nat>)
    ensures |r| == |s| + 1
  {
    if s == [] then [x]
    else if x <= s[0] then [x] + s
    else [s[0]] + Insert(x, s[1..])
  }

  /** The samples in order; which sort arrives at them does not matter. */
  function Sort(s: seq<nat>): (r: seq<nat>)
    ensures |r| == |s|
  {
    if s == [] then [] else Insert(s[0], Sort(s[1..]))
  }

  lemma {:induction false} InsertAdds(x: nat, s: seq<nat>)
    ensures multiset(Insert(x, s)) == multiset(s) + multiset{x}
    decreases |s|
  {
    if s != [] {
      InsertAdds(x, s[1..]);
      assert s == [s[0]] + s[1..];
    }
  }

  lemma PrependLeast(x: nat, s: seq<nat>)
    requires IsSorted(s) && forall i | 0 <= i < |s| :: x <= s[i]
    ensures IsSorted([x] + s)
  {
  }

  lemma NothingSmaller(x: nat, s: seq<nat>, least: nat)
    requires least <= x && forall i | 0 <= i < |s| :: least <= s[i]
    ensures forall i | 0 <= i < |Insert(x, s)| :: least <= Insert(x, s)[i]
  {
    InsertAdds(x, s);
    forall i | 0 <= i < |Insert(x, s)|
      ensures least <= Insert(x, s)[i]
    {
      assert Insert(x, s)[i] in multiset(s) + multiset{x};
    }
  }

  lemma {:induction false} InsertKeepsOrder(x: nat, s: seq<nat>)
    requires IsSorted(s)
    ensures IsSorted(Insert(x, s))
    decreases |s|
  {
    if s != [] && x > s[0] {
      InsertKeepsOrder(x, s[1..]);
      NothingSmaller(x, s[1..], s[0]);
      PrependLeast(s[0], Insert(x, s[1..]));
    }
  }

  lemma {:induction false} SortIsSorted(s: seq<nat>)
    ensures IsSorted(Sort(s)) && multiset(Sort(s)) == multiset(s)
    decreases |s|
  {
    if s != [] {
      SortIsSorted(s[1..]);
      InsertKeepsOrder(s[0], Sort(s[1..]));
      InsertAdds(s[0], Sort(s[1..]));
      assert s == [s[0]] + s[1..];
    }
  }

  function MedianIndex(n: nat): nat {
    n / 2
  }

  function P90Index(n: nat): nat
    requires n > 0
  {
    Min(n * 9 / 10, n - 1)
  }

  method SortInPlace(samples: array<nat>)
    modifies samples
    ensures samples[..] == Sort(old(samples[..]))
  {
    var sorted := Sort(samples[..]);
    SortIsSorted(samples[..]);
    forall i | 0 <= i < samples.Length {
      samples[i] := sorted[i];
    }
  }

  /** The median and the ninetieth percentile, both samples that were observed; nothing for no samples. */
  method Summarise(samples: array<nat>) returns (r: Option<(nat, nat)>)
    modifies samples
    ensures r.None? <==> samples.Length == 0
    ensures multiset(samples[..]) == multiset(old(samples[..])) && IsSorted(samples[..])
    ensures r.Some? ==>
              && r.value.0 == Sort(old(samples[..]))[MedianIndex(samples.Length)]
              && r.value.1 == Sort(old(samples[..]))[P90Index(samples.Length)]
  {
    if samples.Length == 0 {
      return None;
    }
    SortIsSorted(samples[..]);
    SortInPlace(samples);
    return Some((samples[MedianIndex(samples.Length)], samples[P90Index(samples.Length)]));
  }

  /** Part of a multiset that shares nothing with one summand lies in the other. */
  lemma LiesInTheRest(part: seq<nat>, sorted: seq<nat>, good: multiset<nat>, bad: multiset<nat>)
    requires multiset(part) <= multiset(sorted) && multiset(sorted) == good + bad
    requires forall x | x in part :: x !in good
    ensures |part| <= |bad|
  {
    assert multiset(part) <= bad;
    assert bad == multiset(part) + (bad - multiset(part));
  }

  /**
   Rank `i` of the samples stays within the honest ones' range: above their minimum
   while the outliers are at most `i`, below their maximum while they are fewer than
   what lies from `i` up.
   */
  lemma RankIsRobust(samples: seq<nat>, good: multiset<nat>, bad: multiset<nat>, lo: nat, hi: nat, i: nat)
    requires i < |samples| && multiset(samples) == good + bad
    requires forall x | x in good :: lo <= x <= hi
    ensures |bad| <= i ==> lo <= Sort(samples)[i]
    ensures |bad| < |samples| - i ==> Sort(samples)[i] <= hi
  {
    SortIsSorted(samples);
    var sorted := Sort(samples);
    if sorted[i] < lo {
      LowPart(sorted, i, good, bad, lo);
    }
    if sorted[i] > hi {
      HighPart(sorted, i, good, bad, hi);
    }
  }

  lemma LowPart(sorted: seq<nat>, i: nat, good: multiset<nat>, bad: multiset<nat>, lo: nat)
    requires i < |sorted| && IsSorted(sorted) && multiset(sorted) == good + bad && sorted[i] < lo
    requires forall x | x in good :: lo <= x
    ensures i < |bad|
  {
    assert sorted == sorted[..i + 1] + sorted[i + 1..];
    LiesInTheRest(sorted[..i + 1], sorted, good, bad);
  }

  lemma HighPart(sorted: seq<nat>, i: nat, good: multiset<nat>, bad: multiset<nat>, hi: nat)
    requires i < |sorted| && IsSorted(sorted) && multiset(sorted) == good + bad && sorted[i] > hi
    requires forall x | x in good :: x <= hi
    ensures |sorted| - i <= |bad|
  {
    assert sorted == sorted[..i] + sorted[i..];
    LiesInTheRest(sorted[i..], sorted, good, bad);
  }

  /** With fewer than half the samples arbitrary, the median is still between the smallest and largest of the rest. */
  lemma MedianIsRobust(samples: seq<nat>, good: multiset<nat>, bad: multiset<nat>, lo: nat, hi: nat)
    requires samples != [] && multiset(samples) == good + bad && 2 * |bad| < |samples| + |samples| % 2
    requires forall x | x in good :: lo <= x <= hi
    ensures lo <= Sort(samples)[MedianIndex(|samples|)] <= hi
  {
    RankIsRobust(samples, good, bad, lo, hi, MedianIndex(|samples|));
  }

  /** And no better: as soon as half are arbitrary, they can put the median anywhere above. */
  lemma HalfIsTooMany(n: nat, x: nat, outlier: nat)
    requires n > 0 && x < outlier
    ensures var k := (n + 1) / 2;
            var samples := seq(n - k, _ => x) + seq(k, _ => outlier);
            && |samples| == n && Sort(samples)[MedianIndex(n)] == outlier
  {
    var k := (n + 1) / 2;
    var samples := seq(n - k, _ => x) + seq(k, _ => outlier);
    SortIsSorted(samples);
    SortedIsItself(samples);
  }

  lemma {:induction false} SortedIsItself(s: seq<nat>)
    requires IsSorted(s)
    ensures Sort(s) == s
    decreases |s|
  {
    if s != [] {
      SortedIsItself(s[1..]);
      assert s == [s[0]] + s[1..];
    }
  }

  /** With fewer than a tenth of the samples arbitrary, so is the 90th percentile. */
  lemma P90IsRobust(samples: seq<nat>, good: multiset<nat>, bad: multiset<nat>, lo: nat, hi: nat)
    requires samples != [] && multiset(samples) == good + bad && 10 * |bad| < |samples|
    requires forall x | x in good :: lo <= x <= hi
    ensures lo <= Sort(samples)[P90Index(|samples|)] <= hi
  {
    RankIsRobust(samples, good, bad, lo, hi, P90Index(|samples|));
  }

  /** Both figures were observed; nine ranks in ten are at or below the second, and one in ten at or above it. */
  lemma FiguresAreObserved(samples: seq<nat>)
    requires samples != []
    ensures var n, sorted := |samples|, Sort(samples);
            && sorted[MedianIndex(n)] in samples && sorted[P90Index(n)] in samples
            && sorted[MedianIndex(n)] <= sorted[P90Index(n)]
            && (forall i | 0 <= i <= P90Index(n) :: sorted[i] <= sorted[P90Index(n)])
            && 10 * (P90Index(n) + 1) > 9 * n && 10 * (n - P90Index(n)) >= n
  {
    SortIsSorted(samples);
    var n, sorted := |samples|, Sort(samples);
    assert sorted[MedianIndex(n)] in multiset(sorted) && sorted[P90Index(n)] in multiset(sorted);
    assert MedianIndex(n) <= P90Index(n);
  }

  /** The order the samples arrived in is invisible. */
  lemma ArrivalOrderIsInvisible(a: seq<nat>, b: seq<nat>)
    requires multiset(a) == multiset(b)
    ensures Sort(a) == Sort(b)
  {
    SortIsSorted(a);
    SortIsSorted(b);
    SortedIsUnique(Sort(a), Sort(b));
  }

  lemma {:induction false} SortedIsUnique(s: seq<nat>, t: seq<nat>)
    requires IsSorted(s) && IsSorted(t) && multiset(s) == multiset(t)
    ensures s == t
    decreases |s|
  {
    assert |multiset(s)| == |multiset(t)|;
    if s != [] {
      LeastComesFirst(s, t);
      LeastComesFirst(t, s);
      WithoutTheFirst(s);
      WithoutTheFirst(t);
      SortedIsUnique(s[1..], t[1..]);
    }
  }

  lemma LeastComesFirst(s: seq<nat>, t: seq<nat>)
    requires s != [] && t != [] && IsSorted(s) && multiset(s) == multiset(t)
    ensures s[0] <= t[0]
  {
    assert t[0] in multiset(s);
  }

  lemma WithoutTheFirst(s: seq<nat>)
    requires s != []
    ensures multiset(s[1..]) == multiset(s) - multiset{s[0]}
  {
    assert s == [s[0]] + s[1..];
  }
}
