/** Which sources win: within every tier the allocation takes the lowest scores first. */
module AllocationOrder {
  import opened Order
  import opened PilotSources
  import opened Allocation

  lemma BlakeOrder(records: seq<Record>, score: Score, split: Split, s: nat)
    ensures TotalPreorder(ByBlake(records, score, split, s))
  {
  }

  predicate NoLater(records: seq<Record>, score: Score, split: Split, s: nat, i: nat, j: nat) {
    ByBlake(records, score, split, s)(i, j)
  }

  lemma {:induction false} FilterAscends(s: seq<nat>, p: nat -> bool, le: (nat, nat) -> bool)
    requires Ascending(s, le)
    ensures Ascending(Filter(s, p), le)
  {
    if s != [] {
      FilterAscends(s[1..], p, le);
      FilterMembers(s[1..], p);
      forall y | y in Filter(s[1..], p)
        ensures le(s[0], y)
      {
        var k :| 0 <= k < |s[1..]| && s[1..][k] == y;
        assert le(s[0], s[k + 1]);
      }
    }
  }

  lemma {:induction false} FilterMembers(s: seq<nat>, p: nat -> bool)
    ensures forall y :: y in Filter(s, p) ==> y in s
  {
    if s != [] {
      FilterMembers(s[1..], p);
      assert s == [s[0]] + s[1..];
    }
  }

  lemma CutPrefersEarly(s: seq<nat>, k: nat, le: (nat, nat) -> bool, i: nat, j: nat)
    requires Ascending(s, le) && i in Take(s, k) && j in s && j !in Take(s, k)
    ensures le(i, j)
  {
    var a :| 0 <= a < |Take(s, k)| && Take(s, k)[a] == i;
    var b :| 0 <= b < |s| && s[b] == j;
    assert forall q :: 0 <= q < |Take(s, k)| ==> s[q] in Take(s, k);
    assert a < b;
  }

  lemma CandidatesAscend(records: seq<Record>, score: Score, split: Split, s: nat, reserved: set<nat>)
    ensures Ascending(Candidates(records, score, split, s, reserved), ByBlake(records, score, split, s))
  {
    BlakeOrder(records, score, split, s);
    SortAscends(Filter(Pool(records, split, s, |records|), NotIn(reserved)), ByBlake(records, score, split, s));
  }

  /** Anchors given priority score no later than anchors that were not. */
  lemma PriorityPrefersScore(records: seq<Record>, score: Score, split: Split, m: nat, quota: nat, reserved: set<nat>,
                             i: nat, j: nat)
    requires i in ChooseMaterial(records, score, split, m, quota, reserved).priority
    requires j in Candidates(records, score, split, m, reserved) && IsAnchor(records)(j)
    requires j !in ChooseMaterial(records, score, split, m, quota, reserved).priority
    ensures NoLater(records, score, split, m, i, j)
  {
    var le := ByBlake(records, score, split, m);
    var candidates := Candidates(records, score, split, m, reserved);
    var unsorted := Filter(candidates, IsAnchor(records));
    BlakeOrder(records, score, split, m);
    FilterSpec(candidates, IsAnchor(records));
    SortMembers(unsorted, le);
    SortAscends(unsorted, le);
    CutPrefersEarly(Sort(unsorted, le), Min(AnchorCap(quota), quota), le, i, j);
  }

  lemma TieredCut(a: seq<nat>, b: seq<nat>, k: nat, le: (nat, nat) -> bool, i: nat, j: nat)
    requires Ascending(a, le) && Ascending(b, le) && (forall x :: x in a ==> x !in b)
    requires i in Take(a + b, k) && j in a + b && j !in Take(a + b, k)
    requires i in a <==> j in a
    ensures le(i, j)
  {
    var p :| 0 <= p < |Take(a + b, k)| && Take(a + b, k)[p] == i;
    var q :| 0 <= q < |a + b| && (a + b)[q] == j;
    assert forall n :: 0 <= n < |Take(a + b, k)| ==> (a + b)[n] in Take(a + b, k);
    assert p < q;
    if i in a {
      assert p < |a| by {
        assert forall n :: |a| <= n < |a + b| ==> (a + b)[n] in b;
      }
      assert q < |a| by {
        assert forall n :: |a| <= n < |a + b| ==> (a + b)[n] in b;
      }
      assert a[p] == i && a[q] == j;
    } else {
      assert forall n :: 0 <= n < |a| ==> (a + b)[n] in a;
      assert b[p - |a|] == i && b[q - |a|] == j;
    }
  }

  /** Within the observed tier, and within the unseen tier, a chosen source scores no later than one left out. */
  lemma RemainderPrefersScore(records: seq<Record>, score: Score, split: Split, m: nat, quota: nat, reserved: set<nat>,
                              i: nat, j: nat)
    requires i in ChooseMaterial(records, score, split, m, quota, reserved).remainder
    requires j in Candidates(records, score, split, m, reserved)
    requires j !in ChooseMaterial(records, score, split, m, quota, reserved).Chosen()
    requires IsObserved(records)(i) == IsObserved(records)(j)
    ensures NoLater(records, score, split, m, i, j)
  {
    var le := ByBlake(records, score, split, m);
    var candidates := Candidates(records, score, split, m, reserved);
    var priority := ChooseMaterial(records, score, split, m, quota, reserved).priority;
    var rest := Filter(candidates, NotIn(ToSet(priority)));
    var observed, unseen := Filter(rest, IsObserved(records)), Filter(rest, Neither(IsObserved(records)));
    CandidatesAscend(records, score, split, m, reserved);
    FilterAscends(candidates, NotIn(ToSet(priority)), le);
    FilterAscends(rest, IsObserved(records), le);
    FilterAscends(rest, Neither(IsObserved(records)), le);
    FilterSpec(candidates, NotIn(ToSet(priority)));
    FilterSpec(rest, IsObserved(records));
    FilterSpec(rest, Neither(IsObserved(records)));
    assert i in observed + unseen && j in observed + unseen;
    TieredCut(observed, unseen, Monus(quota, |priority|), le, i, j);
  }

  // ---- the background ----

  /** Explicit empty labels are taken in score order. */
  lemma EmptiesPreferScore(records: seq<Record>, score: Score, split: Split, quota: nat, available: Counters, i: nat,
                           j: nat)
    requires i in ChooseBackground(records, score, split, quota, available).explicitEmpty
    requires j in Candidates(records, score, split, BACKGROUND, {}) && IsExplicit(records)(j)
    requires j !in ChooseBackground(records, score, split, quota, available).explicitEmpty
    ensures NoLater(records, score, split, BACKGROUND, i, j)
  {
    var le := ByBlake(records, score, split, BACKGROUND);
    var candidates := Candidates(records, score, split, BACKGROUND, {});
    CandidatesAscend(records, score, split, BACKGROUND, {});
    FilterAscends(candidates, IsExplicit(records), le);
    FilterSpec(candidates, IsExplicit(records));
    CutPrefersEarly(Filter(candidates, IsExplicit(records)), quota, le, i, j);
  }

  /** A material whose surplus is used up yields nothing more. */
  lemma {:induction false} ExhaustedYieldsNothing(records: seq<Record>, pool: seq<nat>, limit: nat, consumed: Counters,
                                                  capacity: Counters, m: nat, i: nat)
    requires |consumed| == |capacity| == MATERIALS && m < MATERIALS && consumed[m] >= capacity[m]
    requires HasStratum(records, i, m)
    ensures i !in TakeSafe(records, pool, limit, consumed, capacity).0
    decreases |pool|
  {
    if pool != [] && limit > 0 {
      if TakesProbe(records, pool[0], consumed, capacity) {
        var n := records[pool[0]].stratum.value;
        ExhaustedYieldsNothing(records, pool[1..], limit - 1, consumed[n := consumed[n] + 1], capacity, m, i);
      } else {
        ExhaustedYieldsNothing(records, pool[1..], limit, consumed, capacity, m, i);
      }
    }
  }

  /** Among the probes of one material, a probe walk takes the lowest scores first. */
  lemma {:induction false} WalkPrefersScore(records: seq<Record>, pool: seq<nat>, limit: nat, consumed: Counters,
                                            capacity: Counters, le: (nat, nat) -> bool, m: nat, i: nat, j: nat)
    requires |consumed| == |capacity| == MATERIALS && m < MATERIALS && Ascending(pool, le) && Distinct(pool)
    requires HasStratum(records, i, m) && HasStratum(records, j, m)
    requires i in TakeSafe(records, pool, limit, consumed, capacity).0
    requires j in pool && j !in TakeSafe(records, pool, limit, consumed, capacity).0
    ensures le(i, j)
    decreases |pool|
  {
    var b :| 0 <= b < |pool| && pool[b] == j;
    if TakesProbe(records, pool[0], consumed, capacity) {
      var n := records[pool[0]].stratum.value;
      if i == pool[0] {
        assert b > 0;
      } else {
        assert pool[1..][b - 1] == j;
        WalkPrefersScore(records, pool[1..], limit - 1, consumed[n := consumed[n] + 1], capacity, le, m, i, j);
      }
    } else if j == pool[0] {
      ExhaustedYieldsNothing(records, pool[1..], limit, consumed, capacity, m, i);
    } else {
      assert pool[1..][b - 1] == j;
      WalkPrefersScore(records, pool[1..], limit, consumed, capacity, le, m, i, j);
    }
  }

  /**
   * Probes beyond the anchor slice: of two candidates with the same current material, the one left out scores no
   * earlier.
   */
  lemma ProbesPreferScore(records: seq<Record>, score: Score, split: Split, quota: nat, available: Counters,
                          m: nat, i: nat, j: nat)
    requires |available| == MATERIALS && m < MATERIALS && HasStratum(records, i, m) && HasStratum(records, j, m)
    requires i in ChooseBackground(records, score, split, quota, available).remainder
    requires j in Candidates(records, score, split, BACKGROUND, {})
    requires j !in ChooseBackground(records, score, split, quota, available).Chosen()
    ensures NoLater(records, score, split, BACKGROUND, i, j)
  {
    var le := ByBlake(records, score, split, BACKGROUND);
    var b := ChooseBackground(records, score, split, quota, available);
    var candidates := Candidates(records, score, split, BACKGROUND, {});
    var keep := Both(NotIn(ToSet(b.explicitEmpty)), NotIn(ToSet(b.priority)));
    CandidatesSpec(records, score, split, BACKGROUND, {});
    CandidatesAscend(records, score, split, BACKGROUND, {});
    FilterAscends(candidates, keep, le);
    FilterSpec(candidates, keep);
    var consumed := RemainderIsWalk(records, score, split, quota, available, b);
    WalkPrefersScore(records, Filter(candidates, keep), Monus(Monus(quota, |b.explicitEmpty|), |b.priority|), consumed,
                     Surplus(available, quota), le, m, i, j);
  }

  lemma AnchorWalkIsCapped(records: seq<Record>, score: Score, split: Split, quota: nat, available: Counters,
                           explicitEmpty: seq<nat>)
    requires |available| == MATERIALS
    ensures Capped(AnchorWalk(records, score, split, quota, available, explicitEmpty).1, Surplus(available, quota))
  {
    var candidates := Candidates(records, score, split, BACKGROUND, {});
    var anchors := Sort(Filter(candidates, Both(IsAnchor(records), NotIn(ToSet(explicitEmpty)))),
                        ByBlake(records, score, split, BACKGROUND));
    TakeSafeSpec(records, anchors, Min(AnchorCap(quota), Monus(quota, |explicitEmpty|)), NONE_CONSUMED,
                 Surplus(available, quota));
  }

  /** The probes beyond the anchor slice are one walk over the candidates not taken yet. */
  lemma RemainderIsWalk(records: seq<Record>, score: Score, split: Split, quota: nat, available: Counters,
                        b: Background)
    returns (consumed: Counters)
    requires |available| == MATERIALS && b == ChooseBackground(records, score, split, quota, available)
    ensures Capped(consumed, Surplus(available, quota))
    ensures var others := Filter(Candidates(records, score, split, BACKGROUND, {}),
                                 Both(NotIn(ToSet(b.explicitEmpty)), NotIn(ToSet(b.priority))));
      b.remainder == TakeSafe(records, others, Monus(Monus(quota, |b.explicitEmpty|), |b.priority|), consumed,
                              Surplus(available, quota)).0
  {
    var candidates := Candidates(records, score, split, BACKGROUND, {});
    consumed := AnchorWalk(records, score, split, quota, available, b.explicitEmpty).1;
    AnchorWalkIsCapped(records, score, split, quota, available, b.explicitEmpty);
    TakeSafeSpec(records, Filter(candidates, Both(NotIn(ToSet(b.explicitEmpty)), NotIn(ToSet(b.priority)))),
                 Monus(Monus(quota, |b.explicitEmpty|), |b.priority|), consumed, Surplus(available, quota));
  }
}
