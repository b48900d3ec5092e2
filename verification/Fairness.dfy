/**
 The ledger: the first trace observed for each (scenario, depth), against which
 every later one is compared.
 */
module Fairness {
  import opened Options
  import opened Verify

  datatype Scenario = SequentialRead | RandomRead | WriteThenRead | BulkRead

  datatype Observation = Observation(scenario: Scenario, depth: nat, backend: string, trace: TraceView)

  datatype FairnessFailure = FairnessFailure(scenario: Scenario, depth: nat, reference: string, backend: string,
                                             mismatch: Mismatch)

  datatype Observed = Accepted | Rejected(failure: FairnessFailure)

  predicate SameKey(a: Observation, b: Observation) {
    a.scenario == b.scenario && a.depth == b.depth
  }

  /** The first observation with the key of `o`, if any. */
  function Lookup(seen: seq<Observation>, o: Observation): Option<Observation> {
    if seen == [] then None
    else
      var last := seen[|seen| - 1];
      match Lookup(seen[..|seen| - 1], o)
      case Some(first) => Some(first)
      case None => if SameKey(last, o) then Some(last) else None
  }

  /** `Lookup` is what its name says: the earliest observation with the key. */
  lemma {:induction false} LookupIsFirst(seen: seq<Observation>, o: Observation)
    ensures Lookup(seen, o).None? <==> forall j | 0 <= j < |seen| :: !SameKey(seen[j], o)
    ensures Lookup(seen, o).Some? ==>
              exists k :: 0 <= k < |seen| && seen[k] == Lookup(seen, o).value && SameKey(seen[k], o)
                          && forall j | 0 <= j < k :: !SameKey(seen[j], o)
  {
    if seen != [] {
      var front := seen[..|seen| - 1];
      LookupIsFirst(front, o);
      if Lookup(front, o).Some? {
        var k :| 0 <= k < |front| && front[k] == Lookup(front, o).value && SameKey(front[k], o)
                 && forall j | 0 <= j < k :: !SameKey(front[j], o);
        assert seen[k] == front[k];
      } else {
        assert forall j | 0 <= j < |front| :: seen[j] == front[j];
      }
    }
  }

  lemma {:induction false} LookupPastMisses(seen: seq<Observation>, k: nat, o: Observation)
    requires k < |seen| && Lookup(seen[..k], o).None? && SameKey(seen[k], o)
    ensures Lookup(seen, o) == Some(seen[k])
    decreases |seen|
  {
    var front := seen[..|seen| - 1];
    if k < |front| {
      assert front[..k] == seen[..k];
      LookupPastMisses(front, k, o);
    }
  }

  class Ledger {
    var references: seq<Observation>

    constructor ()
      ensures references == []
    {
      references := [];
    }

    /** The position of the reference for a key, or the number of references when there is none. */
    method Find(o: Observation) returns (k: nat)
      ensures k <= |references|
      ensures Lookup(references, o) == if k < |references| then Some(references[k]) else None
      ensures k < |references| ==> references[k].scenario == o.scenario && references[k].depth == o.depth
      ensures forall j | 0 <= j < k :: references[j].scenario != o.scenario || references[j].depth != o.depth
    {
      k := 0;
      while k < |references| && !SameKey(references[k], o)
        invariant k <= |references|
        invariant Lookup(references[..k], o).None?
        invariant forall j | 0 <= j < k :: references[j].scenario != o.scenario || references[j].depth != o.depth
      {
        assert references[..k + 1][..k] == references[..k];
        k := k + 1;
      }
      assert references[..|references|] == references;
      if k < |references| {
        LookupPastMisses(references, k, o);
      }
    }

    /** Records an observation, or reports that it disagrees with the first one of its key. */
    method Observe(scenario: Scenario, depth: nat, backend: string, trace: Trace) returns (r: Observed)
      modifies this
      ensures IsObserved(old(references), Observation(scenario, depth, backend, trace.View()), references, r)
      ensures references == old(references) || references == old(references) + [Observation(scenario, depth, backend, trace.View())]
      ensures references == old(references) <==>
              exists j :: 0 <= j < |old(references)|
                          && old(references)[j].scenario == scenario && old(references)[j].depth == depth
    {
      var o := Observation(scenario, depth, backend, trace.View());
      var k := Find(o);
      if k == |references| {
        references := references + [o];
        return Accepted;
      }
      var reference := references[k];
      var verdict := Compare(reference.trace, o.trace);
      match verdict
      case Agree => return Accepted;
      case Disagree(mismatch) =>
        return Rejected(FairnessFailure(scenario, depth, reference.backend, backend, mismatch));
    }

    /** The backend that ran a combination first, if any has. */
    method Reference(scenario: Scenario, depth: nat) returns (backend: Option<string>)
      ensures var first := Lookup(references, Observation(scenario, depth, "", EMPTY_TRACE));
              backend == if first.Some? then Some(first.value.backend) else None
    {
      var k := Find(Observation(scenario, depth, "", EMPTY_TRACE));
      return if k < |references| then Some(references[k].backend) else None;
    }
  }

  /** One call of `Observe`: from `before` to `after`, answering `r`. */
  ghost predicate IsObserved(before: seq<Observation>, o: Observation, after: seq<Observation>, r: Observed) {
    match Lookup(before, o)
    case None => after == before + [o] && r == Accepted
    case Some(reference) => after == before && IsAnswer(reference, o, r)
  }

  /** What `Observe` owes an observation whose key already has a reference. */
  ghost predicate IsAnswer(reference: Observation, o: Observation, r: Observed) {
    match r
    case Accepted => reference.trace == o.trace
    case Rejected(f) =>
      && f.scenario == o.scenario && f.depth == o.depth
      && f.reference == reference.backend && f.backend == o.backend
      && IsFirstDifference(reference.trace, o.trace, f.mismatch)
  }

  /** A ledger's whole life: `states[0]` is empty and each call takes it to the next state. */
  ghost predicate IsHistory(seen: seq<Observation>, states: seq<seq<Observation>>, answers: seq<Observed>) {
    && |states| == |seen| + 1 && |answers| == |seen|
    && states[0] == []
    && forall i | 0 <= i < |seen| :: IsObserved(states[i], seen[i], states[i + 1], answers[i])
  }

  /** No two references share a key. */
  ghost predicate KeysAreUnique(references: seq<Observation>) {
    forall i, j | 0 <= i < j < |references| :: !SameKey(references[i], references[j])
  }

  /**
   At every moment of any history there is one reference per key observed so far:
   the first observation with that key, and nothing under a key never observed.
   */
  lemma {:induction false} ReferencesAreFirsts(seen: seq<Observation>, states: seq<seq<Observation>>,
                                               answers: seq<Observed>, n: nat, o: Observation)
    requires IsHistory(seen, states, answers) && n <= |seen|
    ensures Lookup(states[n], o) == Lookup(seen[..n], o)
    ensures KeysAreUnique(states[n])
  {
    if n > 0 {
      var before, latest := states[n - 1], seen[n - 1];
      ReferencesAreFirsts(seen, states, answers, n - 1, o);
      ReferencesAreFirsts(seen, states, answers, n - 1, latest);
      assert IsObserved(before, latest, states[n], answers[n - 1]);
      assert seen[..n][..n - 1] == seen[..n - 1];
      if SameKey(latest, o) {
        LookupIgnoresTheRest(before, latest, o);
      }
      if Lookup(before, latest).None? {
        LookupIsFirst(before, latest);
        assert states[n][..|before|] == before;
      }
    }
  }

  /** A key already present stays looked up as it was when the same key is observed again. */
  lemma {:induction false} LookupIgnoresTheRest(before: seq<Observation>, latest: Observation, o: Observation)
    requires SameKey(latest, o)
    ensures Lookup(before, latest) == Lookup(before, o)
    decreases |before|
  {
    if before != [] {
      LookupIgnoresTheRest(before[..|before| - 1], latest, o);
    }
  }

  /**
   Soundness over any sequence of calls: an observation is accepted exactly when
   its trace equals the first one observed with its key, and a rejection names
   that first backend and the first difference from it.
   */
  lemma LedgerIsSound(seen: seq<Observation>, states: seq<seq<Observation>>, answers: seq<Observed>, i: nat)
    requires IsHistory(seen, states, answers) && i < |seen|
    ensures match Lookup(seen[..i], seen[i])
            case None => answers[i].Accepted?
            case Some(first) =>
              && (answers[i].Accepted? <==> seen[i].trace == first.trace)
              && IsAnswer(first, seen[i], answers[i])
  {
    ReferencesAreFirsts(seen, states, answers, i, seen[i]);
    assert IsObserved(states[i], seen[i], states[i + 1], answers[i]);
  }

  /** Everything accepted under one key agrees pairwise. */
  lemma AcceptedTracesAgree(seen: seq<Observation>, states: seq<seq<Observation>>, answers: seq<Observed>,
                            i: nat, j: nat)
    requires IsHistory(seen, states, answers) && i < j < |seen|
    requires SameKey(seen[i], seen[j]) && answers[i].Accepted? && answers[j].Accepted?
    ensures IsVerdict(seen[i].trace, seen[j].trace, Agree)
  {
    LedgerIsSound(seen, states, answers, i);
    LedgerIsSound(seen, states, answers, j);
    LookupIgnoresTheRest(seen[..i], seen[i], seen[j]);
    assert seen[..i + 1][..i] == seen[..i];
    LookupOnlyGrows(seen, i + 1, j, seen[j]);
  }

  lemma {:induction false} LookupOnlyGrows(seen: seq<Observation>, i: nat, j: nat, o: Observation)
    requires i <= j <= |seen| && Lookup(seen[..i], o).Some?
    ensures Lookup(seen[..j], o) == Lookup(seen[..i], o)
    decreases j
  {
    if i < j {
      LookupOnlyGrows(seen, i, j - 1, o);
      assert seen[..j][..j - 1] == seen[..j - 1];
    }
  }
}
