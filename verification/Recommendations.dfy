/** The evidence a recommendation is read from: passing artifacts joined with the capsules of their runs. */
module Recommendations {
  import opened Text
  import opened Sorting
  import opened Capsules

  /** A passing artifact joined with the capsule of its run. */
  datatype Evidence = Evidence(artifact: Artifact, capsule: Capsule)

  function CostKey(a: Artifact): real {
    if a.cost.Some? then a.cost.value else 999999.0
  }

  function DeltaKey(a: Artifact): real {
    if a.successDelta.Some? then a.successDelta.value else 0.0
  }

  /** Cheaper first, then the larger gain in success rate, then the newer. */
  predicate Better(x: Evidence, y: Evidence) {
    var a, b := x.artifact, y.artifact;
    if CostKey(a) != CostKey(b) then CostKey(a) < CostKey(b)
    else if DeltaKey(a) != DeltaKey(b) then DeltaKey(a) > DeltaKey(b)
    else LexLeq(b.createdAt, a.createdAt)
  }

  lemma BetterIsTotalPreorder()
    ensures TotalPreorder(Better)
  {
    forall x, y
      ensures Better(x, y) || Better(y, x)
    {
      LexTotal(x.artifact.createdAt, y.artifact.createdAt);
    }
    forall x, y, z | Better(x, y) && Better(y, z)
      ensures Better(x, z)
    {
      BetterTransitive(x, y, z);
    }
  }

  lemma BetterTransitive(x: Evidence, y: Evidence, z: Evidence)
    requires Better(x, y) && Better(y, z)
    ensures Better(x, z)
  {
    if LexLeq(y.artifact.createdAt, x.artifact.createdAt) && LexLeq(z.artifact.createdAt, y.artifact.createdAt) {
      LexTransitive(z.artifact.createdAt, y.artifact.createdAt, x.artifact.createdAt);
    }
  }

  predicate InScope(a: Artifact, capsules: map<string, Capsule>, scope: Option<string>) {
    && a.passed && a.run in capsules
    && (scope.None? || scope.value == "" || capsules[a.run].request.contract == scope.value)
  }

  /** The rows of the join, in the order of the artifact table. */
  function Joined(artifacts: seq<Artifact>, capsules: map<string, Capsule>, scope: Option<string>): seq<Evidence> {
    if artifacts == [] then []
    else
      (if InScope(artifacts[0], capsules, scope) then [Evidence(artifacts[0], capsules[artifacts[0].run])] else [])
      + Joined(artifacts[1..], capsules, scope)
  }

  lemma {:induction false} JoinedExactly(artifacts: seq<Artifact>, capsules: map<string, Capsule>,
                                         scope: Option<string>)
    ensures forall e :: e in Joined(artifacts, capsules, scope) <==>
              e.artifact in artifacts && InScope(e.artifact, capsules, scope) && e.capsule == capsules[e.artifact.run]
  {
    if artifacts != [] {
      JoinedExactly(artifacts[1..], capsules, scope);
      assert artifacts == [artifacts[0]] + artifacts[1..];
    }
  }

  const EVIDENCE_LIMIT := 5

  datatype Recommendation = Recommendation(provider: Option<string>, gpu: Option<string>, contract: Option<string>,
                                           evidence: seq<Evidence>)

  /** Up to five rows of the join, best first, with none left out that beats a listed one. */
  predicate BestEvidence(listed: seq<Evidence>, rows: seq<Evidence>) {
    && |listed| == (if |rows| < EVIDENCE_LIMIT then |rows| else EVIDENCE_LIMIT)
    && Sorted(listed, Better)
    && multiset(listed) <= multiset(rows)
    && (forall e :: e in multiset(rows) - multiset(listed) ==> forall i :: 0 <= i < |listed| ==> Better(listed[i], e))
  }

  lemma PrefixLeads(sorted: seq<Evidence>, n: nat, e: Evidence)
    requires Sorted(sorted, Better) && n <= |sorted| && e in sorted[n..]
    ensures forall i :: 0 <= i < n ==> Better(sorted[i], e)
  {
    var j :| 0 <= j < |sorted[n..]| && sorted[n..][j] == e;
    assert sorted[n + j] == e;
  }

  lemma SplitMultiset(sorted: seq<Evidence>, n: nat)
    requires n <= |sorted|
    ensures multiset(sorted) == multiset(sorted[..n]) + multiset(sorted[n..])
  {
    assert sorted == sorted[..n] + sorted[n..];
  }

  lemma PrefixIsBest(sorted: seq<Evidence>, rows: seq<Evidence>, n: nat)
    requires Sorted(sorted, Better) && multiset(sorted) == multiset(rows) && |sorted| == |rows|
    requires n == if |rows| < EVIDENCE_LIMIT then |rows| else EVIDENCE_LIMIT
    ensures BestEvidence(sorted[..n], rows)
  {
    SplitMultiset(sorted, n);
    assert multiset(rows) - multiset(sorted[..n]) == multiset(sorted[n..]);
    forall e | e in multiset(sorted[n..])
      ensures forall i :: 0 <= i < n ==> Better(sorted[..n][i], e)
    {
      PrefixLeads(sorted, n, e);
    }
  }

  /** The head of the listing is at least as good as every row in scope. */
  lemma HeadIsBest(listed: seq<Evidence>, rows: seq<Evidence>)
    requires BestEvidence(listed, rows) && rows != []
    ensures listed != [] && listed[0] in rows && forall e :: e in rows ==> Better(listed[0], e)
  {
    BetterIsTotalPreorder();
    assert listed[0] in multiset(listed);
    assert listed[0] in multiset(rows);
    forall e | e in rows
      ensures Better(listed[0], e)
    {
      assert e in multiset(rows);
      if e in listed {
        var i :| 0 <= i < |listed| && listed[i] == e;
        Reflexive(e, Better);
        assert i > 0 ==> Better(listed[0], listed[i]);
      } else {
        assert e !in multiset(listed);
        assert e in multiset(rows) - multiset(listed);
      }
    }
  }

  function Or(o: Option<real>, missing: real): real {
    if o.Some? then o.value else missing
  }

  /** A passing artifact of a run in scope is listed in the join, and no other. */
  lemma InScopeExactly(artifacts: seq<Artifact>, capsules: map<string, Capsule>, scope: Option<string>, a: Artifact)
    requires a in artifacts && a.run in capsules
    ensures Evidence(a, capsules[a.run]) in Joined(artifacts, capsules, scope) <==>
              a.passed && (scope.None? || scope.value == "" || capsules[a.run].request.contract == scope.value)
  {
    JoinedExactly(artifacts, capsules, scope);
  }

  /**
   * In numbers: nothing in scope costs less than the head of the listing, where no cost counts as 999999; nothing as
   * cheap gained more success; and nothing that ties in both is newer. At most five rows are listed.
   */
  lemma HeadBeats(listed: seq<Evidence>, rows: seq<Evidence>, e: Evidence)
    requires BestEvidence(listed, rows) && e in rows
    ensures 1 <= |listed| <= 5 && (|rows| >= 5 ==> |listed| == 5) && (|rows| < 5 ==> |listed| == |rows|)
    ensures var x, y := listed[0].artifact, e.artifact;
            var costX, costY := Or(x.cost, 999999.0), Or(y.cost, 999999.0);
            var gainX, gainY := Or(x.successDelta, 0.0), Or(y.successDelta, 0.0);
            && costX <= costY
            && (costX == costY ==> gainX >= gainY)
            && (costX == costY && gainX == gainY ==> LexLeq(y.createdAt, x.createdAt))
  {
    HeadIsBest(listed, rows);
    assert Better(listed[0], e);
  }
}
