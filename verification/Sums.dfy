/** Sums over sequences, which do not depend on the order of their elements. */
module Sums {

  function Sum<T>(f: T -> nat, s: seq<T>): nat {
    if s == [] then 0 else f(s[0]) + Sum(f, s[1..])
  }

  function RemoveAt<T>(s: seq<T>, k: nat): (r: seq<T>)
    requires k < |s|
    ensures |r| == |s| - 1
  {
    s[..k] + s[k + 1..]
  }

  lemma RemoveAtMultiset<T>(s: seq<T>, k: nat)
    requires k < |s|
    ensures multiset(s) == multiset(RemoveAt(s, k)) + multiset{s[k]}
  {
    assert s == s[..k] + [s[k]] + s[k + 1..];
  }

  lemma {:induction false} SumConcat<T>(f: T -> nat, a: seq<T>, b: seq<T>)
    ensures Sum(f, a + b) == Sum(f, a) + Sum(f, b)
    decreases |a|
  {
    if a == [] {
      assert a + b == b;
    } else {
      SumConcat(f, a[1..], b);
      assert (a + b)[1..] == a[1..] + b;
    }
  }

  lemma SumOne<T>(f: T -> nat, x: T)
    ensures Sum(f, [x]) == f(x)
  {
    assert [x][1..] == [];
  }

  lemma SumRemoveAt<T>(f: T -> nat, s: seq<T>, k: nat)
    requires k < |s|
    ensures Sum(f, s) == Sum(f, RemoveAt(s, k)) + f(s[k])
  {
    var front, rest := s[..k], s[k + 1..];
    assert s == front + ([s[k]] + rest);
    assert RemoveAt(s, k) == front + rest;
    hide Sum, RemoveAt;
    SumConcat(f, front, [s[k]] + rest);
    SumConcat(f, [s[k]], rest);
    SumOne(f, s[k]);
    SumConcat(f, front, rest);
  }

  /** Reordering a sequence leaves its sum alone. */
  lemma {:induction false} SumOfPermutation<T>(f: T -> nat, a: seq<T>, b: seq<T>)
    requires multiset(a) == multiset(b)
    ensures Sum(f, a) == Sum(f, b)
    decreases |a|
  {
    if a == [] {
      assert |multiset(b)| == 0;
    } else {
      assert a[0] in multiset(b);
      var k :| 0 <= k < |b| && b[k] == a[0];
      DropMatching(a, b, k);
      SumOfPermutation(f, a[1..], RemoveAt(b, k));
      SumRemoveAt(f, b, k);
    }
  }

  /** The indices 0, 1, ..., n - 1. */
  function Range(n: nat): (s: seq<nat>)
    ensures |s| == n && forall i | 0 <= i < n :: s[i] == i
  {
    seq(n, i => i)
  }

  lemma RangeGrows(n: nat)
    ensures Range(n + 1) == Range(n) + [n]
  {
  }

  lemma {:induction false} RangeMultiset(n: nat)
    ensures forall i: nat :: multiset(Range(n))[i] == if i < n then 1 else 0
  {
    if n > 0 {
      RangeMultiset(n - 1);
      RangeGrows(n - 1);
    }
  }

  /** `order` lists each of 0, ..., n - 1 exactly once. */
  ghost predicate Enumerates(order: seq<nat>, n: nat) {
    multiset(order) == multiset(Range(n))
  }

  lemma EnumerationFacts(order: seq<nat>, n: nat)
    requires Enumerates(order, n)
    ensures |order| == n
    ensures forall i | 0 <= i < |order| :: order[i] < n
    ensures forall i: nat | i < n :: i in order
    ensures forall i, j | 0 <= i < j < |order| :: order[i] != order[j]
  {
    RangeMultiset(n);
    assert |multiset(order)| == |order| && |multiset(Range(n))| == n;
    forall i | 0 <= i < |order| ensures order[i] < n {
      assert order[i] in multiset(order);
    }
    forall i: nat | i < n ensures i in order {
      assert multiset(order)[i] == 1;
      assert i in multiset(order);
    }
    forall i, j | 0 <= i < j < |order| ensures order[i] != order[j] {
      RemoveAtMultiset(order, j);
      assert order[i] == RemoveAt(order, j)[i];
      assert order[i] in multiset(RemoveAt(order, j));
      assert multiset(order)[order[j]] == multiset(RemoveAt(order, j))[order[j]] + 1;
      assert multiset(Range(n))[order[j]] == 1;
    }
  }

  function Map<A, B>(f: A -> B, s: seq<A>): (r: seq<B>)
    ensures |r| == |s| && forall i | 0 <= i < |s| :: r[i] == f(s[i])
  {
    seq(|s|, i requires 0 <= i < |s| => f(s[i]))
  }

  /** Mapping a reordering gives a reordering of what mapping gives. */
  lemma {:induction false} MapOfPermutation<A, B>(f: A -> B, a: seq<A>, b: seq<A>)
    requires multiset(a) == multiset(b)
    ensures multiset(Map(f, a)) == multiset(Map(f, b))
    decreases |a|
  {
    if a == [] {
      assert |multiset(b)| == 0;
    } else {
      assert a[0] in multiset(b);
      var k :| 0 <= k < |b| && b[k] == a[0];
      DropMatching(a, b, k);
      MapOfPermutation(f, a[1..], RemoveAt(b, k));
      MapDrops(f, a, 0);
      MapDrops(f, b, k);
      assert RemoveAt(a, 0) == a[1..];
    }
  }

  lemma MapDrops<A, B>(f: A -> B, s: seq<A>, k: nat)
    requires k < |s|
    ensures multiset(Map(f, s)) == multiset(Map(f, RemoveAt(s, k))) + multiset{f(s[k])}
  {
    RemoveAtMultiset(Map(f, s), k);
    assert RemoveAt(Map(f, s), k) == Map(f, RemoveAt(s, k));
  }

  lemma DropMatching<T>(a: seq<T>, b: seq<T>, k: nat)
    requires a != [] && k < |b| && b[k] == a[0] && multiset(a) == multiset(b)
    ensures multiset(a[1..]) == multiset(RemoveAt(b, k))
  {
    RemoveAtMultiset(a, 0);
    RemoveAtMultiset(b, k);
    assert RemoveAt(a, 0) == a[1..];
    assert multiset(a[1..]) == multiset(a) - multiset{a[0]};
    assert multiset(RemoveAt(b, k)) == multiset(b) - multiset{a[0]};
  }

  /** Sums agree when their terms do, position by position. */
  lemma {:induction false} SumsAgree<A, B>(f: A -> nat, s: seq<A>, g: B -> nat, t: seq<B>)
    requires |s| == |t| && forall k | 0 <= k < |s| :: f(s[k]) == g(t[k])
    ensures Sum(f, s) == Sum(g, t)
    decreases |s|
  {
    if s != [] {
      SumsAgree(f, s[1..], g, t[1..]);
    }
  }

  lemma {:induction false} SumOfConstant<T>(f: T -> nat, s: seq<T>, c: nat)
    requires forall k | 0 <= k < |s| :: f(s[k]) == c
    ensures Sum(f, s) == |s| * c
    decreases |s|
  {
    if s != [] {
      SumOfConstant(f, s[1..], c);
      assert |s| * c == |s[1..]| * c + c;
    }
  }
}
