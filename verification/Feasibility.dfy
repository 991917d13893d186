/** The greedy allocation is complete: it meets every quota whenever some disjoint assignment does. */
module Feasibility {
  import opened Order
  import opened PilotSources
  import opened Allocation
  import EdgeMaps
  import opened Wrappers

  /** `material_available` */
  function Available(records: seq<Record>, split: Split): (r: Counters)
    ensures |r| == MATERIALS
  {
    seq(MATERIALS, m requires 0 <= m < MATERIALS => |Pool(records, split, m, |records|)|)
  }

  /** The sources chosen for one stratum; only the background reservation can take a material's sources away. */
  function ChosenFor(records: seq<Record>, score: Score, split: Split, quota: nat, s: nat): seq<nat> {
    var background := ChooseBackground(records, score, split, quota, Available(records, split)).Chosen();
    if s == BACKGROUND then background else ChooseMaterial(records, score, split, s, quota, ToSet(background)).Chosen()
  }

  function Shortage(records: seq<Record>, score: Score, split: Split, quota: nat, s: nat): nat {
    Monus(quota, |ChosenFor(records, score, split, quota, s)|)
  }

  predicate ValidStrata(records: seq<Record>) {
    forall i :: 0 <= i < |records| && records[i].Eligible() ==>
      records[i].stratum.Some? && records[i].stratum.value <= BACKGROUND
  }

  ghost predicate AllUsable(records: seq<Record>, split: Split, s: nat, xs: set<nat>) {
    forall i :: i in xs ==> i < |records| && Usable(records[i], split, s)
  }

  /** Disjoint sets of usable sources, one per stratum. */
  ghost predicate Assigns(records: seq<Record>, split: Split, f: seq<set<nat>>) {
    && |f| == BACKGROUND + 1
    && (forall s :: 0 <= s < |f| ==> AllUsable(records, split, s, f[s]))
    && (forall s, t :: 0 <= s < t < |f| ==> f[s] !! f[t])
  }

  ghost predicate Feasible(records: seq<Record>, split: Split, quota: nat) {
    exists f :: Assigns(records, split, f) && forall s :: 0 <= s < |f| ==> |f[s]| == quota
  }

  // ---- counting by stratum ----

  function OfStratum(records: seq<Record>, xs: set<nat>, s: nat): set<nat> {
    set i | i in xs && HasStratum(records, i, s)
  }

  ghost function Below(records: seq<Record>, xs: set<nat>, s: nat): set<nat> {
    set i | i in xs && i < |records| && records[i].stratum.Some? && records[i].stratum.value < s
  }

  lemma {:induction false} SizeByStrata(records: seq<Record>, xs: set<nat>, ys: set<nat>, s: nat)
    requires forall t :: 0 <= t < s ==> |OfStratum(records, xs, t)| <= |OfStratum(records, ys, t)|
    ensures |Below(records, xs, s)| <= |Below(records, ys, s)|
  {
    if s == 0 {
      assert Below(records, xs, 0) == {};
    } else {
      SizeByStrata(records, xs, ys, s - 1);
      BelowNext(records, xs, s - 1);
      BelowNext(records, ys, s - 1);
    }
  }

  lemma BelowNext(records: seq<Record>, xs: set<nat>, s: nat)
    ensures |Below(records, xs, s + 1)| == |Below(records, xs, s)| + |OfStratum(records, xs, s)|
  {
    assert Below(records, xs, s + 1) == Below(records, xs, s) + OfStratum(records, xs, s);
  }

  lemma {:induction false} CountIsSize(records: seq<Record>, xs: seq<nat>, m: nat)
    requires Distinct(xs)
    ensures CountOf(records, xs, m) == |OfStratum(records, ToSet(xs), m)|
  {
    if xs == [] {
      assert OfStratum(records, ToSet(xs), m) == {};
    } else {
      CountIsSize(records, xs[1..], m);
      assert xs == [xs[0]] + xs[1..];
      assert xs[0] !in xs[1..];
      var rest := OfStratum(records, ToSet(xs[1..]), m);
      assert OfStratum(records, ToSet(xs), m) == rest + if HasStratum(records, xs[0], m) then {xs[0]} else {};
    }
  }

  lemma {:induction false} PoolSize(records: seq<Record>, split: Split, m: nat, within: set<nat>)
    requires forall i :: i in within ==> i < |records| && Usable(records[i], split, m)
    ensures |within| <= |Pool(records, split, m, |records|)|
  {
    var pool := Pool(records, split, m, |records|);
    PoolSpec(records, split, m, |records|);
    SizeOfDistinct(pool);
    EdgeMaps.CardinalityMonotone(within, ToSet(pool));
  }

  lemma DistinctConcat(a: seq<nat>, b: seq<nat>)
    requires Distinct(a) && Distinct(b) && ToSet(a) !! ToSet(b)
    ensures Distinct(a + b) && ToSet(a + b) == ToSet(a) + ToSet(b)
  {
    forall i, j | 0 <= i < j < |a + b|
      ensures (a + b)[i] != (a + b)[j]
    {
      assert (a + b)[i] in (if i < |a| then ToSet(a) else ToSet(b));
      assert (a + b)[j] in (if j < |a| then ToSet(a) else ToSet(b));
    }
  }

  // ---- the background stratum ----

  /** What the reservation chose, and why it could not choose more. */
  ghost predicate BackgroundOutcome(records: seq<Record>, split: Split, quota: nat, b: Background) {
    && Distinct(b.Chosen()) && |b.Chosen()| <= quota
    && (forall i :: i in b.Chosen() ==> i < |records| && Usable(records[i], split, BACKGROUND))
    && (forall i :: i in b.explicitEmpty ==> i < |records| && records[i].stratum == Some(BACKGROUND))
    && (forall i :: i in b.priority + b.remainder ==> i < |records| && records[i].stratum != Some(BACKGROUND))
    && (b.priority + b.remainder != [] ==>
          forall i :: 0 <= i < |records| && Usable(records[i], split, BACKGROUND) && HasStratum(records, i, BACKGROUND)
            ==> i in b.explicitEmpty)
    && |b.priority| <= AnchorCap(quota)
    && (forall i :: i in b.priority ==> i < |records| && records[i].anchor)
    && (forall m :: 0 <= m < MATERIALS ==>
          |OfStratum(records, ToSet(b.Chosen()), m)| <= Monus(Available(records, split)[m], quota))
    && (|b.Chosen()| < quota ==>
          (forall i :: 0 <= i < |records| && Usable(records[i], split, BACKGROUND) && HasStratum(records, i, BACKGROUND)
             ==> i in b.Chosen()) &&
          forall m :: 0 <= m < MATERIALS ==>
            || |OfStratum(records, ToSet(b.Chosen()), m)| == Monus(Available(records, split)[m], quota)
            || (forall i :: 0 <= i < |records| && Usable(records[i], split, BACKGROUND) && HasStratum(records, i, m)
                  ==> i in b.Chosen()))
  }

  /** What two probe walks achieve together: within the surplus, and short of the limit only when nothing is left. */
  ghost predicate ProbeFacts(records: seq<Record>, others: seq<nat>, limit: nat, capacity: Counters,
                             first: seq<nat>, second: seq<nat>)
  {
    && |capacity| == MATERIALS && |first + second| <= limit && Distinct(first + second)
    && (forall i :: i in second ==> i in others)
    && (forall i :: i in first + second ==>
        i < |records| && records[i].stratum.Some? && records[i].stratum.value < MATERIALS)
    && (forall m :: 0 <= m < MATERIALS ==> |OfStratum(records, ToSet(first + second), m)| <= capacity[m])
    && (|first + second| < limit ==> forall m :: 0 <= m < MATERIALS ==>
          || |OfStratum(records, ToSet(first + second), m)| == capacity[m]
          || (forall i :: i in others && HasStratum(records, i, m) ==> i in second))
  }

  lemma {:induction false} TwoWalks(records: seq<Record>, anchors: seq<nat>, others: seq<nat>, cap: nat, limit: nat,
                                    capacity: Counters, first: (seq<nat>, Counters), second: (seq<nat>, Counters))
    requires |capacity| == MATERIALS && Distinct(anchors) && Distinct(others) && cap <= limit
    requires first == TakeSafe(records, anchors, cap, NONE_CONSUMED, capacity)
    requires second == TakeSafe(records, others, Monus(limit, |first.0|), first.1, capacity)
    requires ToSet(first.0) !! ToSet(others)
    ensures |first.0| <= cap && forall i :: i in first.0 ==> i in anchors
    ensures ProbeFacts(records, others, limit, capacity, first.0, second.0)
  {
    TakeSafeSpec(records, anchors, cap, NONE_CONSUMED, capacity);
    TakeSafeDistinct(records, anchors, cap, NONE_CONSUMED, capacity);
    TakeSafeSpec(records, others, Monus(limit, |first.0|), first.1, capacity);
    TakeSafeDistinct(records, others, Monus(limit, |first.0|), first.1, capacity);
    DistinctConcat(first.0, second.0);
    forall m | 0 <= m < MATERIALS
      ensures |OfStratum(records, ToSet(first.0 + second.0), m)| == second.1[m]
    {
      WalkCount(records, first.0, second.0, m);
    }
    if |first.0 + second.0| < limit {
      forall m | 0 <= m < MATERIALS
        ensures second.1[m] == capacity[m] || forall i :: i in others && HasStratum(records, i, m) ==> i in second.0
      {
        TakeSafeGreedy(records, others, Monus(limit, |first.0|), first.1, capacity, m);
      }
    }
  }

  lemma {:induction false} WalkCount(records: seq<Record>, a: seq<nat>, b: seq<nat>, m: nat)
    requires Distinct(a) && Distinct(b) && ToSet(a) !! ToSet(b)
    ensures |OfStratum(records, ToSet(a + b), m)| == CountOf(records, a, m) + CountOf(records, b, m)
  {
    CountIsSize(records, a, m);
    CountIsSize(records, b, m);
    DistinctConcat(a, b);
    assert OfStratum(records, ToSet(a + b), m) == OfStratum(records, ToSet(a), m) + OfStratum(records, ToSet(b), m);
  }

  /** The lists the reservation works with, and the facts about each. */
  lemma BackgroundParts(records: seq<Record>, score: Score, split: Split, quota: nat, available: Counters,
                        b: Background)
    returns (candidates: seq<nat>, empties: seq<nat>, others: seq<nat>)
    requires |available| == MATERIALS
    requires b == ChooseBackground(records, score, split, quota, available)
    ensures forall i: nat :: i in candidates <==> i < |records| && Usable(records[i], split, BACKGROUND)
    ensures forall i :: i in empties <==> i in candidates && HasStratum(records, i, BACKGROUND)
    ensures Distinct(empties) && b.explicitEmpty == Take(empties, quota)
    ensures forall i :: i in others <==> i in candidates && i !in b.explicitEmpty && i !in b.priority
    ensures forall i :: i in b.priority ==> i in candidates && IsAnchor(records)(i)
    ensures |b.priority| <= AnchorCap(quota)
    ensures ProbeFacts(records, others, Monus(quota, |b.explicitEmpty|), Surplus(available, quota), b.priority,
                       b.remainder)
  {
    candidates := Candidates(records, score, split, BACKGROUND, {});
    CandidatesSpec(records, score, split, BACKGROUND, {});
    empties := Filter(candidates, IsExplicit(records));
    FilterSpec(candidates, IsExplicit(records));
    var remaining := Monus(quota, |b.explicitEmpty|);
    var capacity := Surplus(available, quota);
    var notExplicit := NotIn(ToSet(b.explicitEmpty));
    var unsorted := Filter(candidates, Both(IsAnchor(records), notExplicit));
    FilterSpec(candidates, Both(IsAnchor(records), notExplicit));
    var anchors := Sort(unsorted, ByBlake(records, score, split, BACKGROUND));
    SortMembers(unsorted, ByBlake(records, score, split, BACKGROUND));
    SortDistinct(unsorted, ByBlake(records, score, split, BACKGROUND));
    var first := TakeSafe(records, anchors, Min(AnchorCap(quota), remaining), NONE_CONSUMED, capacity);
    others := Filter(candidates, Both(notExplicit, NotIn(ToSet(first.0))));
    FilterSpec(candidates, Both(notExplicit, NotIn(ToSet(first.0))));
    var second := TakeSafe(records, others, Monus(remaining, |first.0|), first.1, capacity);
    TwoWalks(records, anchors, others, Min(AnchorCap(quota), remaining), remaining, capacity, first, second);
  }

  lemma BackgroundChoice(records: seq<Record>, score: Score, split: Split, quota: nat)
    requires ValidStrata(records)
    ensures BackgroundOutcome(records, split, quota,
                              ChooseBackground(records, score, split, quota, Available(records, split)))
  {
    var b := ChooseBackground(records, score, split, quota, Available(records, split));
    var candidates, empties, others := BackgroundParts(records, score, split, quota, Available(records, split), b);
    BackgroundPartsSuffice(records, split, quota, b, candidates, empties, others);
  }

  lemma BackgroundPartsSuffice(records: seq<Record>, split: Split, quota: nat, b: Background,
                               candidates: seq<nat>, empties: seq<nat>, others: seq<nat>)
    requires forall i: nat :: i in candidates <==> i < |records| && Usable(records[i], split, BACKGROUND)
    requires forall i :: i in empties <==> i in candidates && HasStratum(records, i, BACKGROUND)
    requires Distinct(empties) && b.explicitEmpty == Take(empties, quota)
    requires forall i :: i in others <==> i in candidates && i !in b.explicitEmpty && i !in b.priority
    requires forall i :: i in b.priority ==> i in candidates && IsAnchor(records)(i)
    requires |b.priority| <= AnchorCap(quota)
    requires ProbeFacts(records, others, Monus(quota, |b.explicitEmpty|), Surplus(Available(records, split), quota),
                        b.priority, b.remainder)
    ensures BackgroundOutcome(records, split, quota, b)
  {
    var probes := b.priority + b.remainder;
    TakeDistinct(empties, quota);
    DistinctConcat(b.explicitEmpty, probes);
    assert b.Chosen() == b.explicitEmpty + probes;
    forall m | 0 <= m < MATERIALS
      ensures OfStratum(records, ToSet(b.Chosen()), m) == OfStratum(records, ToSet(probes), m)
    {
    }
    assert |b.explicitEmpty| < quota ==> b.explicitEmpty == empties;
    assert probes != [] ==> |b.explicitEmpty| < quota;
    if |b.Chosen()| < quota {
      assert b.explicitEmpty == empties;
      forall i, m | 0 <= m < MATERIALS && i in candidates && HasStratum(records, i, m) &&
        !(i in others && i !in b.remainder)
        ensures i in b.Chosen()
      {
        assert i !in b.explicitEmpty;
      }
    }
  }

  // ---- the material strata ----

  ghost predicate MaterialOutcome(records: seq<Record>, candidates: seq<nat>, quota: nat, c: Material) {
    && Distinct(c.Chosen()) && |c.Chosen()| == Min(quota, |candidates|)
    && (forall i :: i in c.Chosen() ==> i in candidates)
    && |c.priority| <= AnchorCap(quota)
    && (forall i :: i in c.priority ==> IsAnchor(records)(i))
    && (forall i, j :: i in c.remainder && !IsObserved(records)(i) && j in candidates && IsObserved(records)(j)
          ==> j in c.Chosen())
  }

  lemma {:induction false} FilterOut(s: seq<nat>, taken: seq<nat>)
    requires Distinct(s) && Distinct(taken) && forall i :: i in taken ==> i in s
    ensures |Filter(s, NotIn(ToSet(taken)))| == |s| - |taken|
  {
    var rest := Filter(s, NotIn(ToSet(taken)));
    FilterSpec(s, NotIn(ToSet(taken)));
    SizeOfDistinct(s);
    SizeOfDistinct(taken);
    SizeOfDistinct(rest);
    assert ToSet(rest) == ToSet(s) - ToSet(taken);
  }

  lemma {:induction false} FilterBoth(s: seq<nat>, p: nat -> bool)
    ensures |Filter(s, p)| + |Filter(s, Neither(p))| == |s|
  {
    if s != [] {
      FilterBoth(s[1..], p);
    }
  }

  lemma MaterialChoice(records: seq<Record>, score: Score, split: Split, m: nat, quota: nat, reserved: set<nat>)
    requires quota >= 1
    ensures MaterialOutcome(records, Candidates(records, score, split, m, reserved), quota,
                            ChooseMaterial(records, score, split, m, quota, reserved))
  {
    var candidates := Candidates(records, score, split, m, reserved);
    CandidatesSpec(records, score, split, m, reserved);
    var unsorted := Filter(candidates, IsAnchor(records));
    FilterSpec(candidates, IsAnchor(records));
    var anchors := Sort(unsorted, ByBlake(records, score, split, m));
    SortMembers(unsorted, ByBlake(records, score, split, m));
    SortDistinct(unsorted, ByBlake(records, score, split, m));
    var priority := Take(anchors, Min(AnchorCap(quota), quota));
    TakeDistinct(anchors, Min(AnchorCap(quota), quota));
    FilterOut(candidates, priority);
    var rest := Filter(candidates, NotIn(ToSet(priority)));
    FilterSpec(candidates, NotIn(ToSet(priority)));
    TieredRemainder(records, candidates, quota, priority, rest);
  }

  lemma TakePrefers(a: seq<nat>, b: seq<nat>, k: nat, i: nat)
    requires i in Take(a + b, k) && i !in a
    ensures forall j :: j in a ==> j in Take(a + b, k)
  {
    var r := Take(a + b, k);
    var n :| 0 <= n < |r| && r[n] == i;
    forall j | j in a
      ensures j in r
    {
      assert forall q :: 0 <= q < |a| && q < |r| ==> r[q] == a[q];
      var p :| 0 <= p < |a| && a[p] == j;
      assert r[p] == j;
    }
  }

  /** The remainder lists observed sources before unseen ones, so cutting it keeps that preference. */
  lemma {:induction false} TieredRemainder(records: seq<Record>, candidates: seq<nat>, quota: nat, priority: seq<nat>,
                                           rest: seq<nat>)
    requires Distinct(candidates) && Distinct(priority) && Distinct(rest) && |rest| == |candidates| - |priority|
    requires |priority| <= quota && |priority| <= AnchorCap(quota)
    requires forall i :: i in priority ==> i in candidates && IsAnchor(records)(i)
    requires forall i :: i in rest <==> i in candidates && i !in priority
    ensures var observed, unseen := Filter(rest, IsObserved(records)), Filter(rest, Neither(IsObserved(records)));
      MaterialOutcome(records, candidates, quota, Material(priority, Take(observed + unseen, Monus(quota, |priority|))))
  {
    var observed, unseen := Filter(rest, IsObserved(records)), Filter(rest, Neither(IsObserved(records)));
    FilterSpec(rest, IsObserved(records));
    FilterSpec(rest, Neither(IsObserved(records)));
    FilterBoth(rest, IsObserved(records));
    DistinctConcat(observed, unseen);
    var remainder := Take(observed + unseen, Monus(quota, |priority|));
    TakeDistinct(observed + unseen, Monus(quota, |priority|));
    DistinctConcat(priority, remainder);
    forall i | i in remainder && !IsObserved(records)(i)
      ensures forall j :: j in observed ==> j in remainder
    {
      TakePrefers(observed, unseen, Monus(quota, |priority|), i);
    }
  }

  /** The background reservation leaves each material its quota, or everything it has. */
  lemma CandidatesLeft(records: seq<Record>, score: Score, split: Split, quota: nat, m: nat)
    requires ValidStrata(records) && m < MATERIALS
    ensures var background := ChooseBackground(records, score, split, quota, Available(records, split)).Chosen();
      |Candidates(records, score, split, m, ToSet(background))| >= Min(quota, Available(records, split)[m])
    ensures var background := ChooseBackground(records, score, split, quota, Available(records, split)).Chosen();
      |Candidates(records, score, split, m, ToSet(background))| <= Available(records, split)[m]
  {
    var background := ChooseBackground(records, score, split, quota, Available(records, split)).Chosen();
    BackgroundChoice(records, score, split, quota);
    var pool := Pool(records, split, m, |records|);
    PoolSpec(records, split, m, |records|);
    CandidatesSpec(records, score, split, m, ToSet(background));
    TakenFromPool(pool, Candidates(records, score, split, m, ToSet(background)), ToSet(background),
                  OfStratum(records, ToSet(background), m), quota);
  }

  /** Taking no more than the surplus out of a pool leaves the quota, or all of it. */
  lemma TakenFromPool(pool: seq<nat>, left: seq<nat>, taken: set<nat>, ofStratum: set<nat>, quota: nat)
    requires Distinct(pool) && Distinct(left)
    requires forall i :: i in left <==> i in pool && i !in taken
    requires forall i :: i in pool && i in taken ==> i in ofStratum
    requires |ofStratum| <= Monus(|pool|, quota)
    ensures Min(quota, |pool|) <= |left| <= |pool|
  {
    SizeOfDistinct(pool);
    SizeOfDistinct(left);
    assert ToSet(left) == ToSet(pool) - taken;
    var lost := ToSet(pool) * taken;
    assert |ToSet(pool) - taken| == |ToSet(pool)| - |lost|;
    EdgeMaps.CardinalityMonotone(lost, ofStratum);
  }

  /** Probes never starve a material: its shortage is exactly what its own pool lacks. */
  lemma MaterialShortage(records: seq<Record>, score: Score, split: Split, quota: nat, m: nat)
    requires ValidStrata(records) && m < MATERIALS && quota >= 1
    ensures Shortage(records, score, split, quota, m) == Monus(quota, Available(records, split)[m])
    ensures |ChosenFor(records, score, split, quota, m)| == Min(quota, Available(records, split)[m])
  {
    var background := ChooseBackground(records, score, split, quota, Available(records, split)).Chosen();
    MaterialChoice(records, score, split, m, quota, ToSet(background));
    CandidatesLeft(records, score, split, quota, m);
  }

  // ---- the whole split ----

  function ChosenSets(records: seq<Record>, score: Score, split: Split, quota: nat): (f: seq<set<nat>>)
    ensures |f| == BACKGROUND + 1
  {
    seq(BACKGROUND + 1, s requires 0 <= s <= BACKGROUND => ToSet(ChosenFor(records, score, split, quota, s)))
  }

  lemma ChosenStratum(records: seq<Record>, score: Score, split: Split, quota: nat, s: nat)
    requires ValidStrata(records) && quota >= 1 && s <= BACKGROUND
    ensures var chosen := ChosenFor(records, score, split, quota, s);
      && Distinct(chosen) && |chosen| <= quota && |ToSet(chosen)| == |chosen|
      && (forall i :: i in chosen ==> i < |records| && Usable(records[i], split, s))
      && (s != BACKGROUND ==> ToSet(chosen) !! ToSet(ChosenFor(records, score, split, quota, BACKGROUND)))
  {
    var background := ChooseBackground(records, score, split, quota, Available(records, split)).Chosen();
    BackgroundChoice(records, score, split, quota);
    if s != BACKGROUND {
      MaterialChoice(records, score, split, s, quota, ToSet(background));
      CandidatesSpec(records, score, split, s, ToSet(background));
    }
    SizeOfDistinct(ChosenFor(records, score, split, quota, s));
  }

  /** The selection is itself a disjoint assignment of usable sources. */
  lemma ChosenAssigns(records: seq<Record>, score: Score, split: Split, quota: nat)
    requires ValidStrata(records) && quota >= 1
    ensures Assigns(records, split, ChosenSets(records, score, split, quota))
  {
    var f := ChosenSets(records, score, split, quota);
    forall s | 0 <= s < |f|
      ensures AllUsable(records, split, s, f[s])
      ensures s != BACKGROUND ==> f[s] !! f[BACKGROUND]
    {
      ChosenStratum(records, score, split, quota, s);
    }
    MaterialsAreApart(records, split, f);
  }

  /** Sources of different materials differ; only the background can share with another stratum. */
  lemma MaterialsAreApart(records: seq<Record>, split: Split, f: seq<set<nat>>)
    requires |f| == BACKGROUND + 1 && forall s :: 0 <= s < |f| ==> AllUsable(records, split, s, f[s])
    requires forall s :: 0 <= s < BACKGROUND ==> f[s] !! f[BACKGROUND]
    ensures Assigns(records, split, f)
  {
    forall s, t | 0 <= s < t < |f|
      ensures f[s] !! f[t]
    {
      if t < BACKGROUND {
        assert forall i :: i in f[s] ==> HasStratum(records, i, s);
        assert forall i :: i in f[t] ==> HasStratum(records, i, t);
      }
    }
  }

  lemma BelowIsAll(records: seq<Record>, xs: set<nat>)
    requires forall i :: i in xs ==> i < |records| && records[i].stratum.Some? && records[i].stratum.value <= BACKGROUND
    ensures Below(records, xs, BACKGROUND + 1) == xs
  {
  }

  /** What a reservation that fell short has of each stratum is all that any assignment can have. */
  lemma OutcomeCovers(records: seq<Record>, split: Split, quota: nat, b: Background, f: seq<set<nat>>, t: nat)
    requires BackgroundOutcome(records, split, quota, b) && Assigns(records, split, f)
    requires |b.Chosen()| < quota && t <= BACKGROUND
    requires forall m :: 0 <= m < MATERIALS ==> |f[m]| >= Min(quota, Available(records, split)[m])
    ensures |OfStratum(records, f[BACKGROUND], t)| <= |OfStratum(records, ToSet(b.Chosen()), t)|
  {
    if t < MATERIALS && |OfStratum(records, ToSet(b.Chosen()), t)| == Monus(Available(records, split)[t], quota) {
      SurplusBounds(records, split, quota, f, t);
    } else {
      EdgeMaps.CardinalityMonotone(OfStratum(records, f[BACKGROUND], t), OfStratum(records, ToSet(b.Chosen()), t));
    }
  }

  lemma OutcomeIsMaximal(records: seq<Record>, split: Split, quota: nat, b: Background, f: seq<set<nat>>)
    requires ValidStrata(records) && BackgroundOutcome(records, split, quota, b) && Assigns(records, split, f)
    requires |f[BACKGROUND]| <= quota
    requires forall m :: 0 <= m < MATERIALS ==> |f[m]| >= Min(quota, Available(records, split)[m])
    ensures |f[BACKGROUND]| <= |b.Chosen()|
  {
    if |b.Chosen()| < quota {
      forall t | 0 <= t < BACKGROUND + 1
        ensures |OfStratum(records, f[BACKGROUND], t)| <= |OfStratum(records, ToSet(b.Chosen()), t)|
      {
        OutcomeCovers(records, split, quota, b, f, t);
      }
      SizeByStrata(records, f[BACKGROUND], ToSet(b.Chosen()), BACKGROUND + 1);
      assert AllUsable(records, split, BACKGROUND, f[BACKGROUND]);
      BelowIsAll(records, f[BACKGROUND]);
      BelowIsAll(records, ToSet(b.Chosen()));
      SizeOfDistinct(b.Chosen());
    }
  }

  /** No assignment that gives every material its share fills more of the background quota than the greedy one. */
  lemma BackgroundIsMaximal(records: seq<Record>, score: Score, split: Split, quota: nat, f: seq<set<nat>>)
    requires ValidStrata(records) && quota >= 1 && Assigns(records, split, f)
    requires |f[BACKGROUND]| <= quota
    requires forall m :: 0 <= m < MATERIALS ==> |f[m]| >= Min(quota, Available(records, split)[m])
    ensures |f[BACKGROUND]| <= |ChosenFor(records, score, split, quota, BACKGROUND)|
  {
    BackgroundChoice(records, score, split, quota);
    OutcomeIsMaximal(records, split, quota, ChooseBackground(records, score, split, quota, Available(records, split)),
                     f);
  }

  /** A material can spare at most its surplus. */
  lemma SurplusBounds(records: seq<Record>, split: Split, quota: nat, f: seq<set<nat>>, m: nat)
    requires Assigns(records, split, f) && m < MATERIALS
    requires |f[m]| >= Min(quota, Available(records, split)[m])
    ensures |OfStratum(records, f[BACKGROUND], m)| <= Monus(Available(records, split)[m], quota)
  {
    var probes := OfStratum(records, f[BACKGROUND], m);
    assert f[m] !! probes;
    assert AllUsable(records, split, m, f[m]) && AllUsable(records, split, BACKGROUND, f[BACKGROUND]);
    PoolSize(records, split, m, f[m] + probes);
    assert |f[m] + probes| == |f[m]| + |probes|;
  }

  ghost predicate NoShortage(records: seq<Record>, score: Score, split: Split, quota: nat) {
    forall s :: 0 <= s <= BACKGROUND ==> Shortage(records, score, split, quota, s) == 0
  }

  /** A filled selection is the assignment asked for. */
  lemma FilledIsFeasible(records: seq<Record>, split: Split, quota: nat, f: seq<set<nat>>)
    requires Assigns(records, split, f) && forall s :: 0 <= s < |f| ==> |f[s]| == quota
    ensures Feasible(records, split, quota)
  {
  }

  lemma ChosenSize(records: seq<Record>, score: Score, split: Split, quota: nat, s: nat)
    requires ValidStrata(records) && quota >= 1 && s <= BACKGROUND
    ensures |ChosenSets(records, score, split, quota)[s]| == quota - Shortage(records, score, split, quota, s)
  {
    ChosenStratum(records, score, split, quota, s);
  }

  lemma FeasibleFillsStratum(records: seq<Record>, score: Score, split: Split, quota: nat, f: seq<set<nat>>, s: nat)
    requires ValidStrata(records) && quota >= 1 && s <= BACKGROUND
    requires Assigns(records, split, f) && forall t :: 0 <= t < |f| ==> |f[t]| == quota
    ensures Shortage(records, score, split, quota, s) == 0
  {
    if s == BACKGROUND {
      BackgroundIsMaximal(records, score, split, quota, f);
    } else {
      assert AllUsable(records, split, s, f[s]);
      PoolSize(records, split, s, f[s]);
      MaterialShortage(records, score, split, quota, s);
    }
  }

  /** All shortages are zero exactly when some disjoint assignment fills every quota. */
  lemma AllocatorIsComplete(records: seq<Record>, score: Score, split: Split, quota: nat)
    requires ValidStrata(records) && quota >= 1
    ensures NoShortage(records, score, split, quota) <==> Feasible(records, split, quota)
  {
    if NoShortage(records, score, split, quota) {
      NoShortageIsFeasible(records, score, split, quota);
    }
    if f :| Assigns(records, split, f) && forall s :: 0 <= s < |f| ==> |f[s]| == quota {
      forall s | 0 <= s <= BACKGROUND
        ensures Shortage(records, score, split, quota, s) == 0
      {
        FeasibleFillsStratum(records, score, split, quota, f, s);
      }
    }
  }

  lemma NoShortageIsFeasible(records: seq<Record>, score: Score, split: Split, quota: nat)
    requires ValidStrata(records) && quota >= 1 && NoShortage(records, score, split, quota)
    ensures Feasible(records, split, quota)
  {
    var f := ChosenSets(records, score, split, quota);
    ChosenAssigns(records, score, split, quota);
    forall s | 0 <= s < |f|
      ensures |f[s]| == quota
    {
      ChosenSize(records, score, split, quota, s);
    }
    FilledIsFeasible(records, split, quota, f);
  }
}
