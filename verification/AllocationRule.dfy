/** What the allocator chooses, said of the records: who is in, who is left out and why, and in which order. */
module AllocationRule {
  import opened Allocation
  import opened AllocationOrder
  import opened Feasibility
  import opened Order
  import opened PilotSources
  import opened Wrappers

  // ---- the records' own terms ----

  /** A source with nothing against it that currently carries a stratum. */
  predicate Carries(records: seq<Record>, split: Split, s: nat, i: nat) {
    i < |records| && records[i].reasons == {} && records[i].split == split && records[i].stratum == Some(s)
  }

  /** A source with nothing against it that carries a material and was once seen as background. */
  predicate Hinted(records: seq<Record>, split: Split, i: nat) {
    && i < |records| && records[i].reasons == {} && records[i].split == split
    && records[i].stratum.Some? && records[i].stratum.value != 9 && 9 in records[i].categories
  }

  /** Lower score first, then lower digest, then lower path. */
  predicate NotAfter(records: seq<Record>, score: Score, split: Split, s: nat, i: nat, j: nat) {
    i < |records| && j < |records| &&
    var x, y := records[i], records[j];
    var p, q := score(split, s, x.sha), score(split, s, y.sha);
    p < q || (p == q && (x.sha < y.sha || (x.sha == y.sha && x.path <= y.path)))
  }

  ghost predicate InOrder(records: seq<Record>, score: Score, split: Split, s: nat, list: seq<nat>) {
    forall a, b :: 0 <= a < b < |list| ==> list[a] != list[b] && NotAfter(records, score, split, s, list[a], list[b])
  }

  /** What is left of `a` once `b` is taken away. */
  function Rest(a: nat, b: nat): (r: nat)
    ensures if a >= b then r + b == a else r == 0
  {
    if a >= b then a - b else 0
  }

  function LeastOf(a: nat, b: nat, c: nat): (r: nat)
    ensures r <= a && r <= b && r <= c && (r == a || r == b || r == c)
  {
    if a <= b && a <= c then a else if b <= c then b else c
  }

  /** How many sources carry a stratum, and how many of those in a list do. */
  ghost function Stock(records: seq<Record>, split: Split, s: nat): nat {
    |set i | 0 <= i < |records| && Carries(records, split, s, i)|
  }

  ghost function CarriedIn(records: seq<Record>, list: seq<nat>, s: nat): nat {
    |set i | i in list && i < |records| && records[i].stratum == Some(s)|
  }

  // ---- the rule for the background ----

  /**
   * A walk over a pool of probes: in order, within the limit and within each material's surplus over its quota, passing
   * over a probe only when the limit or its material's surplus was used up before it.
   */
  ghost predicate IsWalk(records: seq<Record>, score: Score, split: Split, quota: nat, pool: set<nat>, limit: nat,
                         before: seq<nat>, walk: seq<nat>)
  {
    && InOrder(records, score, split, 9, walk) && |walk| <= limit && (forall i :: i in walk ==> i in pool)
    && (forall m :: 0 <= m < 9 ==>
          CarriedIn(records, before + walk, m) <= Rest(Stock(records, split, m), quota))
    && (forall j :: j in pool && j !in walk ==> Skipped(records, score, split, quota, limit, before, walk, j))
  }

  ghost predicate Skipped(records: seq<Record>, score: Score, split: Split, quota: nat, limit: nat, before: seq<nat>,
                          walk: seq<nat>, j: nat)
  {
    && j < |records| && records[j].stratum.Some?
    && (|| (|walk| == limit && forall i :: i in walk ==> NotAfter(records, score, split, 9, i, j))
        || (&& CarriedIn(records, before + walk, records[j].stratum.value) ==
                 Rest(Stock(records, split, records[j].stratum.value), quota)
            && forall i :: i in walk && i < |records| && records[i].stratum == records[j].stratum ==>
                 NotAfter(records, score, split, 9, i, j)))
  }

  ghost predicate BackgroundRule(records: seq<Record>, score: Score, split: Split, quota: nat, b: Background) {
    var probes := set i | 0 <= i < |records| && Hinted(records, split, i);
    var anchors := set i | i in probes && records[i].anchor;
    var left := Rest(quota, |b.explicitEmpty|);
    && EmptiesRule(records, score, split, quota, b.explicitEmpty)
    && IsWalk(records, score, split, quota, anchors, LeastOf(if quota < 5 then 1 else quota / 5, left, left), [],
              b.priority)
    && IsWalk(records, score, split, quota, probes - ToSet(b.priority), Rest(left, |b.priority|), b.priority,
              b.remainder)
  }

  // ---- the rule for a material ----

  /** Sources seen before come first; within either tier the order decides. */
  predicate TierNotAfter(records: seq<Record>, score: Score, split: Split, m: nat, i: nat, j: nat) {
    i < |records| && j < |records| &&
    if (records[i].categories != {}) == (records[j].categories != {}) then NotAfter(records, score, split, m, i, j)
    else records[i].categories != {}
  }

  /** The anchor slice: as many anchors as the fifth of the quota allows, the first of them, in order. */
  ghost predicate PriorityRule(records: seq<Record>, score: Score, split: Split, m: nat, quota: nat, anchors: set<nat>,
                               priority: seq<nat>)
  {
    && InOrder(records, score, split, m, priority) && (forall i :: i in priority ==> i in anchors)
    && |priority| == LeastOf(if quota < 5 then 1 else quota / 5, quota, |anchors|)
    && (forall i, j :: i in priority && j in anchors && j !in priority ==> NotAfter(records, score, split, m, i, j))
  }

  /** The rest: the first of the pool, sources seen before ahead of the others. */
  ghost predicate RemainderRule(records: seq<Record>, score: Score, split: Split, m: nat, left: nat, pool: set<nat>,
                                remainder: seq<nat>)
  {
    && |remainder| == LeastOf(left, left, |pool|) && (forall i :: i in remainder ==> i in pool)
    && (forall a, b :: 0 <= a < b < |remainder| ==>
          remainder[a] != remainder[b] && TierNotAfter(records, score, split, m, remainder[a], remainder[b]))
    && (forall i, j :: i in remainder && j in pool && j !in remainder ==> TierNotAfter(records, score, split, m, i, j))
  }

  ghost predicate MaterialRule(records: seq<Record>, score: Score, split: Split, m: nat, quota: nat, reserved: set<nat>,
                               c: Material)
  {
    var free := set i | 0 <= i < |records| && Carries(records, split, m, i) && i !in reserved;
    var anchors := set i | i in free && records[i].anchor;
    && PriorityRule(records, score, split, m, quota, anchors, c.priority)
    && RemainderRule(records, score, split, m, Rest(quota, |c.priority|), free - ToSet(c.priority), c.remainder)
  }

  // ---- the allocator's orders are those ----

  lemma BlakeIsNotAfter(records: seq<Record>, score: Score, split: Split, s: nat, i: nat, j: nat)
    requires i < |records| && j < |records|
    ensures ByBlake(records, score, split, s)(i, j) <==> NotAfter(records, score, split, s, i, j)
  {
  }

  lemma AscendingIsInOrder(records: seq<Record>, score: Score, split: Split, s: nat, list: seq<nat>)
    requires Ascending(list, ByBlake(records, score, split, s)) && Distinct(list)
    requires forall i :: i in list ==> i < |records|
    ensures InOrder(records, score, split, s, list)
  {
    forall a, b | 0 <= a < b < |list|
      ensures list[a] != list[b] && NotAfter(records, score, split, s, list[a], list[b])
    {
      assert list[a] in list && list[b] in list;
      BlakeIsNotAfter(records, score, split, s, list[a], list[b]);
    }
  }

  lemma UsableIs(r: Record, records: seq<Record>, split: Split, s: nat, i: nat)
    requires i < |records| && r == records[i]
    ensures s != 9 ==> (Usable(r, split, s) <==> Carries(records, split, s, i))
    ensures Usable(r, split, 9) <==> Carries(records, split, 9, i) || Hinted(records, split, i)
  {
  }

  lemma AvailableIsStock(records: seq<Record>, split: Split, m: nat)
    requires m < MATERIALS
    ensures Available(records, split)[m] == Stock(records, split, m)
  {
    var pool := Pool(records, split, m, |records|);
    PoolSpec(records, split, m, |records|);
    SizeOfDistinct(pool);
    forall i: nat
      ensures i in pool <==> i < |records| && Carries(records, split, m, i)
    {
      if i < |records| {
        UsableIs(records[i], records, split, m, i);
      }
    }
    assert ToSet(pool) == set i | 0 <= i < |records| && Carries(records, split, m, i);
  }

  lemma {:induction false} CarriedIsCount(records: seq<Record>, list: seq<nat>, m: nat)
    requires Distinct(list)
    ensures CarriedIn(records, list, m) == CountOf(records, list, m)
  {
    CountIsSize(records, list, m);
    assert OfStratum(records, ToSet(list), m) == set i | i in list && i < |records| && records[i].stratum == Some(m);
  }

  // ---- a walk ----

  /** A walk keeps its pool's order, and passes over a source only for the limit or for the material's surplus. */
  lemma {:induction false} WalkRule(records: seq<Record>, pool: seq<nat>, limit: nat, consumed: Counters,
                                    capacity: Counters, le: (nat, nat) -> bool)
    requires Capped(consumed, capacity) && Distinct(pool) && Ascending(pool, le)
    requires AreProbes(records, pool)
    ensures var r := TakeSafe(records, pool, limit, consumed, capacity);
      && |r.1| == MATERIALS && Ascending(r.0, le) && (forall i :: i in r.0 ==> i in pool)
      && (forall j :: j in pool && j !in r.0 ==> PassedOver(records, r.0, limit, r.1, capacity, le, j))
    decreases |pool|
  {
    TakeSafeSpec(records, pool, limit, consumed, capacity);
    if pool != [] && limit > 0 {
      assert pool == [pool[0]] + pool[1..];
      AscendingTail(pool, le);
      ProbesTail(records, pool);
      if TakesProbe(records, pool[0], consumed, capacity) {
        var m := records[pool[0]].stratum.value;
        WalkRule(records, pool[1..], limit - 1, consumed[m := consumed[m] + 1], capacity, le);
        HeadFirst(records, pool, limit, consumed, capacity, le);
      } else {
        WalkRule(records, pool[1..], limit, consumed, capacity, le);
        SkippedHead(records, pool, limit, consumed, capacity, le);
      }
    }
  }

  /** Sources that carry a material. */
  ghost predicate AreProbes(records: seq<Record>, pool: seq<nat>) {
    forall i :: i in pool ==> i < |records| && records[i].stratum.Some? && records[i].stratum.value < MATERIALS
  }

  lemma ProbesTail(records: seq<Record>, pool: seq<nat>)
    requires AreProbes(records, pool) && pool != []
    ensures AreProbes(records, pool[1..])
    ensures pool[0] < |records| && records[pool[0]].stratum.Some? && records[pool[0]].stratum.value < MATERIALS
  {
    assert pool[0] in pool;
  }

  lemma AscendingTail(s: seq<nat>, le: (nat, nat) -> bool)
    requires s != [] && Ascending(s, le) && Distinct(s)
    ensures Ascending(s[1..], le) && Distinct(s[1..])
  {
    forall i, j | 0 <= i < j < |s[1..]|
      ensures le(s[1..][i], s[1..][j]) && s[1..][i] != s[1..][j]
    {
      assert le(s[i + 1], s[j + 1]);
    }
  }

  ghost predicate PassedOver(records: seq<Record>, walk: seq<nat>, limit: nat, counters: Counters, capacity: Counters,
                             le: (nat, nat) -> bool, j: nat)
  {
    && |counters| == |capacity| == MATERIALS
    && j < |records| && records[j].stratum.Some? && records[j].stratum.value < MATERIALS
    && (|| (|walk| == limit && forall i :: i in walk ==> le(i, j))
        || (&& counters[records[j].stratum.value] == capacity[records[j].stratum.value]
            && forall i :: i in walk && HasStratum(records, i, records[j].stratum.value) ==> le(i, j)))
  }

  lemma HeadFirst(records: seq<Record>, pool: seq<nat>, limit: nat, consumed: Counters, capacity: Counters,
                  le: (nat, nat) -> bool)
    requires Capped(consumed, capacity) && Distinct(pool) && Ascending(pool, le) && pool != [] && limit > 0
    requires TakesProbe(records, pool[0], consumed, capacity)
    requires var m := records[pool[0]].stratum.value;
      var rest := TakeSafe(records, pool[1..], limit - 1, consumed[m := consumed[m] + 1], capacity);
      && |rest.1| == MATERIALS && Ascending(rest.0, le) && (forall i :: i in rest.0 ==> i in pool[1..])
      && (forall j :: j in pool[1..] && j !in rest.0 ==>
            PassedOver(records, rest.0, limit - 1, rest.1, capacity, le, j))
    ensures var r := TakeSafe(records, pool, limit, consumed, capacity);
      && |r.1| == MATERIALS && Ascending(r.0, le) && (forall i :: i in r.0 ==> i in pool)
      && (forall j :: j in pool && j !in r.0 ==> PassedOver(records, r.0, limit, r.1, capacity, le, j))
  {
    var h, m := pool[0], records[pool[0]].stratum.value;
    var rest := TakeSafe(records, pool[1..], limit - 1, consumed[m := consumed[m] + 1], capacity);
    forall x | x in pool[1..]
      ensures le(h, x)
    {
      var k :| 0 <= k < |pool[1..]| && pool[1..][k] == x;
      assert pool[k + 1] == x;
    }
    AscendingCons(h, rest.0, le);
    forall j | j in pool && j !in [h] + rest.0
      ensures PassedOver(records, [h] + rest.0, limit, rest.1, capacity, le, j)
    {
      assert j in pool[1..] && j !in rest.0;
    }
  }

  lemma AscendingCons(h: nat, s: seq<nat>, le: (nat, nat) -> bool)
    requires Ascending(s, le) && forall x :: x in s ==> le(h, x)
    ensures Ascending([h] + s, le)
  {
  }

  lemma {:induction false} SkippedHead(records: seq<Record>, pool: seq<nat>, limit: nat, consumed: Counters,
                                       capacity: Counters, le: (nat, nat) -> bool)
    requires Capped(consumed, capacity) && Distinct(pool) && pool != [] && limit > 0
    requires AreProbes(records, pool)
    requires !TakesProbe(records, pool[0], consumed, capacity)
    requires var r := TakeSafe(records, pool[1..], limit, consumed, capacity);
      && |r.1| == MATERIALS
      && (forall j :: j in pool[1..] && j !in r.0 ==> PassedOver(records, r.0, limit, r.1, capacity, le, j))
    ensures var r := TakeSafe(records, pool, limit, consumed, capacity);
      forall j :: j in pool && j !in r.0 ==> PassedOver(records, r.0, limit, r.1, capacity, le, j)
  {
    ProbesTail(records, pool);
    var r := TakeSafe(records, pool, limit, consumed, capacity);
    var h := pool[0];
    var m := records[h].stratum.value;
    TakeSafeSpec(records, pool, limit, consumed, capacity);
    forall i | HasStratum(records, i, m)
      ensures i !in r.0
    {
      ExhaustedYieldsNothing(records, pool[1..], limit, consumed, capacity, m, i);
    }
    assert pool == [h] + pool[1..];
  }

  // ---- the material choice follows its rule ----

  function TierLe(records: seq<Record>, score: Score, split: Split, m: nat): (nat, nat) -> bool {
    (i: nat, j: nat) => TierNotAfter(records, score, split, m, i, j)
  }

  /** The first `k` of an ascending list come no later than the rest of it. */
  lemma CutIsFirst(s: seq<nat>, k: nat, le: (nat, nat) -> bool)
    requires Ascending(s, le) && Distinct(s)
    ensures Ascending(Take(s, k), le) && Distinct(Take(s, k))
    ensures forall i, j :: i in Take(s, k) && j in s && j !in Take(s, k) ==> le(i, j)
  {
    TakeDistinct(s, k);
    assert forall a :: 0 <= a < |Take(s, k)| ==> Take(s, k)[a] == s[a];
    forall i, j | i in Take(s, k) && j in s && j !in Take(s, k)
      ensures le(i, j)
    {
      CutPrefersEarly(s, k, le, i, j);
    }
  }

  lemma FreeAre(records: seq<Record>, score: Score, split: Split, m: nat, reserved: set<nat>)
    requires m != 9
    ensures var free := set i | 0 <= i < |records| && Carries(records, split, m, i) && i !in reserved;
      var candidates := Candidates(records, score, split, m, reserved);
      && Distinct(candidates) && ToSet(candidates) == free && |candidates| == |free|
      && Ascending(candidates, ByBlake(records, score, split, m))
  {
    var candidates := Candidates(records, score, split, m, reserved);
    CandidatesSpec(records, score, split, m, reserved);
    CandidatesAscend(records, score, split, m, reserved);
    SizeOfDistinct(candidates);
    forall i: nat
      ensures i in candidates <==> i < |records| && Carries(records, split, m, i) && i !in reserved
    {
      if i < |records| {
        UsableIs(records[i], records, split, m, i);
      }
    }
  }

  /** Anchors among the candidates, in order. */
  function SortedAnchors(records: seq<Record>, score: Score, split: Split, m: nat, candidates: seq<nat>): seq<nat> {
    Sort(Filter(candidates, IsAnchor(records)), ByBlake(records, score, split, m))
  }

  /** The rest of the candidates, sources seen before first. */
  function Tiers(records: seq<Record>, candidates: seq<nat>, priority: seq<nat>): seq<nat> {
    var rest := Filter(candidates, NotIn(ToSet(priority)));
    Filter(rest, IsObserved(records)) + Filter(rest, Neither(IsObserved(records)))
  }

  lemma ChoiceIs(records: seq<Record>, score: Score, split: Split, m: nat, quota: nat, reserved: set<nat>)
    ensures var candidates := Candidates(records, score, split, m, reserved);
      var priority := Take(SortedAnchors(records, score, split, m, candidates), Min(AnchorCap(quota), quota));
      ChooseMaterial(records, score, split, m, quota, reserved) ==
        Material(priority, Take(Tiers(records, candidates, priority), Monus(quota, |priority|)))
  {
  }

  lemma AnchorsAre(records: seq<Record>, score: Score, split: Split, m: nat, candidates: seq<nat>)
    requires Distinct(candidates)
    ensures var sorted := SortedAnchors(records, score, split, m, candidates);
      var anchors := set i | i in candidates && i < |records| && records[i].anchor;
      && Distinct(sorted) && Ascending(sorted, ByBlake(records, score, split, m))
      && ToSet(sorted) == anchors && |sorted| == |anchors|
  {
    var unsorted, le := Filter(candidates, IsAnchor(records)), ByBlake(records, score, split, m);
    FilterSpec(candidates, IsAnchor(records));
    BlakeOrder(records, score, split, m);
    SortAscends(unsorted, le);
    SortMembers(unsorted, le);
    SortDistinct(unsorted, le);
    SizeOfDistinct(Sort(unsorted, le));
  }

  /** The candidates without the priority, sources seen before first. */
  lemma TiersAre(records: seq<Record>, score: Score, split: Split, m: nat, candidates: seq<nat>, priority: seq<nat>)
    requires Distinct(candidates) && Ascending(candidates, ByBlake(records, score, split, m))
    requires forall i :: i in candidates ==> i < |records|
    ensures var tiers := Tiers(records, candidates, priority);
      && Distinct(tiers) && Ascending(tiers, TierLe(records, score, split, m))
      && (forall i :: i in tiers <==> i in candidates && i !in priority)
  {
    var le := ByBlake(records, score, split, m);
    var rest := Filter(candidates, NotIn(ToSet(priority)));
    FilterSpec(candidates, NotIn(ToSet(priority)));
    FilterAscends(candidates, NotIn(ToSet(priority)), le);
    var seen, unseen := Filter(rest, IsObserved(records)), Filter(rest, Neither(IsObserved(records)));
    FilterSpec(rest, IsObserved(records));
    FilterSpec(rest, Neither(IsObserved(records)));
    FilterAscends(rest, IsObserved(records), le);
    FilterAscends(rest, Neither(IsObserved(records)), le);
    DistinctConcat(seen, unseen);
    TiersAscend(records, score, split, m, seen, unseen);
  }

  lemma TiersAscend(records: seq<Record>, score: Score, split: Split, m: nat, seen: seq<nat>, unseen: seq<nat>)
    requires Ascending(seen, ByBlake(records, score, split, m)) && Ascending(unseen, ByBlake(records, score, split, m))
    requires forall i :: i in seen ==> i < |records| && records[i].categories != {}
    requires forall i :: i in unseen ==> i < |records| && records[i].categories == {}
    ensures Ascending(seen + unseen, TierLe(records, score, split, m))
  {
    var tiers := seen + unseen;
    forall a, b | 0 <= a < b < |tiers|
      ensures TierNotAfter(records, score, split, m, tiers[a], tiers[b])
    {
      assert tiers[a] in (if a < |seen| then seen else unseen) && tiers[b] in (if b < |seen| then seen else unseen);
      BlakeIsNotAfter(records, score, split, m, tiers[a], tiers[b]);
    }
  }

  lemma SliceFollowsRule(records: seq<Record>, score: Score, split: Split, m: nat, quota: nat, anchors: set<nat>,
                         sorted: seq<nat>)
    requires quota >= 1 && Distinct(sorted) && Ascending(sorted, ByBlake(records, score, split, m))
    requires ToSet(sorted) == anchors && |sorted| == |anchors| && forall i :: i in anchors ==> i < |records|
    ensures PriorityRule(records, score, split, m, quota, anchors, Take(sorted, Min(AnchorCap(quota), quota)))
  {
    var k := Min(AnchorCap(quota), quota);
    CutIsFirst(sorted, k, ByBlake(records, score, split, m));
    forall i | i in Take(sorted, k)
      ensures i in anchors
    {
      assert i in ToSet(sorted);
    }
    AscendingIsInOrder(records, score, split, m, Take(sorted, k));
    forall i, j | i in Take(sorted, k) && j in anchors && j !in Take(sorted, k)
      ensures NotAfter(records, score, split, m, i, j)
    {
      BlakeIsNotAfter(records, score, split, m, i, j);
    }
  }

  lemma RestFollowsRule(records: seq<Record>, score: Score, split: Split, m: nat, left: nat, pool: set<nat>,
                        tiers: seq<nat>)
    requires Distinct(tiers) && Ascending(tiers, TierLe(records, score, split, m)) && ToSet(tiers) == pool
    ensures RemainderRule(records, score, split, m, left, pool, Take(tiers, left))
  {
    CutIsFirst(tiers, left, TierLe(records, score, split, m));
    SizeOfDistinct(tiers);
  }

  /** A material's choice, said of the records. */
  lemma MaterialFollowsRule(records: seq<Record>, score: Score, split: Split, m: nat, quota: nat, reserved: set<nat>)
    requires quota >= 1 && m != 9
    ensures MaterialRule(records, score, split, m, quota, reserved,
                         ChooseMaterial(records, score, split, m, quota, reserved))
  {
    var candidates := Candidates(records, score, split, m, reserved);
    ChoiceIs(records, score, split, m, quota, reserved);
    FreeAre(records, score, split, m, reserved);
    AnchorsAre(records, score, split, m, candidates);
    var free := set i | 0 <= i < |records| && Carries(records, split, m, i) && i !in reserved;
    ListsFollowRule(records, score, split, m, quota, reserved, free, candidates,
                    SortedAnchors(records, score, split, m, candidates));
  }

  lemma ListsFollowRule(records: seq<Record>, score: Score, split: Split, m: nat, quota: nat, reserved: set<nat>,
                        free: set<nat>, candidates: seq<nat>, sorted: seq<nat>)
    requires quota >= 1 && Distinct(candidates) && Ascending(candidates, ByBlake(records, score, split, m))
    requires free == set i | 0 <= i < |records| && Carries(records, split, m, i) && i !in reserved
    requires ToSet(candidates) == free
    requires Distinct(sorted) && Ascending(sorted, ByBlake(records, score, split, m))
    requires ToSet(sorted) == (set i | i in candidates && i < |records| && records[i].anchor)
    requires |sorted| == |ToSet(sorted)|
    ensures var priority := Take(sorted, Min(AnchorCap(quota), quota));
      MaterialRule(records, score, split, m, quota, reserved,
                   Material(priority, Take(Tiers(records, candidates, priority), Monus(quota, |priority|))))
  {
    var anchors := set i | i in free && records[i].anchor;
    assert ToSet(sorted) == anchors;
    SliceFollowsRule(records, score, split, m, quota, anchors, sorted);
    RestOfMaterial(records, score, split, m, quota, free, candidates, Take(sorted, Min(AnchorCap(quota), quota)));
  }

  lemma RestOfMaterial(records: seq<Record>, score: Score, split: Split, m: nat, quota: nat, free: set<nat>,
                       candidates: seq<nat>, priority: seq<nat>)
    requires Distinct(candidates) && Ascending(candidates, ByBlake(records, score, split, m))
    requires ToSet(candidates) == free && forall i :: i in free ==> i < |records|
    ensures RemainderRule(records, score, split, m, Rest(quota, |priority|), free - ToSet(priority),
                          Take(Tiers(records, candidates, priority), Monus(quota, |priority|)))
  {
    forall i | i in candidates
      ensures i < |records|
    {
      assert i in ToSet(candidates);
    }
    TiersAre(records, score, split, m, candidates, priority);
    var tiers := Tiers(records, candidates, priority);
    assert ToSet(tiers) == free - ToSet(priority);
    RestFollowsRule(records, score, split, m, Monus(quota, |priority|), free - ToSet(priority), tiers);
  }

  // ---- the background choice follows its rule ----

  lemma {:induction false} CarriedTogether(records: seq<Record>, a: seq<nat>, b: seq<nat>, m: nat)
    requires Distinct(a) && Distinct(b) && ToSet(a) !! ToSet(b)
    ensures CarriedIn(records, a + b, m) == CountOf(records, a, m) + CountOf(records, b, m)
  {
    WalkCount(records, a, b, m);
    assert OfStratum(records, ToSet(a + b), m) == set i | i in a + b && i < |records| && records[i].stratum == Some(m);
  }

  lemma SurplusIs(records: seq<Record>, split: Split, quota: nat, m: nat)
    requires m < MATERIALS
    ensures Surplus(Available(records, split), quota)[m] == Rest(Stock(records, split, m), quota)
  {
    AvailableIsStock(records, split, m);
  }

  /** The counters a walk starts from and those it leaves count what was taken. */
  ghost predicate CountersAre(records: seq<Record>, taken: seq<nat>, counters: Counters) {
    |counters| == MATERIALS && forall m :: 0 <= m < MATERIALS ==> counters[m] == CountOf(records, taken, m)
  }

  lemma {:induction false} TakeSafeIsWalk(records: seq<Record>, score: Score, split: Split, quota: nat, pool: seq<nat>,
                                          limit: nat, before: seq<nat>, consumed: Counters)
    requires Distinct(pool) && Ascending(pool, ByBlake(records, score, split, 9))
    requires AreProbes(records, pool)
    requires Distinct(before) && ToSet(before) !! ToSet(pool) && CountersAre(records, before, consumed)
    requires Capped(consumed, Surplus(Available(records, split), quota))
    ensures var walk := TakeSafe(records, pool, limit, consumed, Surplus(Available(records, split), quota));
      && IsWalk(records, score, split, quota, ToSet(pool), limit, before, walk.0)
      && Distinct(walk.0) && |walk.1| == MATERIALS && Capped(walk.1, Surplus(Available(records, split), quota))
      && (forall m :: 0 <= m < MATERIALS ==> walk.1[m] == CarriedIn(records, before + walk.0, m))
  {
    var capacity, le := Surplus(Available(records, split), quota), ByBlake(records, score, split, 9);
    var walk := TakeSafe(records, pool, limit, consumed, capacity);
    TakeSafeSpec(records, pool, limit, consumed, capacity);
    TakeSafeDistinct(records, pool, limit, consumed, capacity);
    WalkRule(records, pool, limit, consumed, capacity, le);
    AscendingIsInOrder(records, score, split, 9, walk.0);
    forall m | 0 <= m < MATERIALS
      ensures walk.1[m] == CarriedIn(records, before + walk.0, m)
      ensures capacity[m] == Rest(Stock(records, split, m), quota)
    {
      CarriedTogether(records, before, walk.0, m);
      SurplusIs(records, split, quota, m);
    }
    forall j | j in pool && j !in walk.0
      ensures Skipped(records, score, split, quota, limit, before, walk.0, j)
    {
      PassedIsSkipped(records, score, split, quota, limit, before, walk.0, walk.1, capacity, j);
    }
  }

  lemma PassedIsSkipped(records: seq<Record>, score: Score, split: Split, quota: nat, limit: nat, before: seq<nat>,
                        walk: seq<nat>, counters: Counters, capacity: Counters, j: nat)
    requires PassedOver(records, walk, limit, counters, capacity, ByBlake(records, score, split, 9), j)
    requires forall i :: i in walk ==> i < |records|
    requires var m := records[j].stratum.value;
      counters[m] == CarriedIn(records, before + walk, m) && capacity[m] == Rest(Stock(records, split, m), quota)
    ensures Skipped(records, score, split, quota, limit, before, walk, j)
  {
    forall i | i in walk
      ensures ByBlake(records, score, split, 9)(i, j) <==> NotAfter(records, score, split, 9, i, j)
    {
      BlakeIsNotAfter(records, score, split, 9, i, j);
    }
  }

  /** Every usable source for the background: those without an object, and those once seen so. */
  lemma BackgroundCandidatesAre(records: seq<Record>, score: Score, split: Split)
    ensures var candidates := Candidates(records, score, split, 9, {});
      && Distinct(candidates) && Ascending(candidates, ByBlake(records, score, split, 9))
      && (forall i: nat :: i in candidates <==> Carries(records, split, 9, i) || Hinted(records, split, i))
  {
    CandidatesSpec(records, score, split, BACKGROUND, {});
    CandidatesAscend(records, score, split, BACKGROUND, {});
    forall i: nat
      ensures i in Candidates(records, score, split, 9, {}) <==>
        Carries(records, split, 9, i) || Hinted(records, split, i)
    {
      if i < |records| {
        UsableIs(records[i], records, split, 9, i);
      }
    }
  }

  ghost predicate EmptiesRule(records: seq<Record>, score: Score, split: Split, quota: nat, chosen: seq<nat>) {
    var empties := set i | 0 <= i < |records| && Carries(records, split, 9, i);
    && InOrder(records, score, split, 9, chosen)
    && |chosen| == LeastOf(quota, quota, |empties|) && (forall i :: i in chosen ==> i in empties)
    && (forall i, j :: i in chosen && j in empties && j !in chosen ==> NotAfter(records, score, split, 9, i, j))
  }

  lemma EmptiesFollowRule(records: seq<Record>, score: Score, split: Split, quota: nat)
    ensures var listed := Filter(Candidates(records, score, split, 9, {}), IsExplicit(records));
      && EmptiesRule(records, score, split, quota, Take(listed, quota))
      && (|Take(listed, quota)| < quota ==> forall i: nat :: Carries(records, split, 9, i) ==> i in Take(listed, quota))
      && (forall i :: i in Take(listed, quota) ==> Carries(records, split, 9, i))
  {
    var candidates, le := Candidates(records, score, split, 9, {}), ByBlake(records, score, split, 9);
    BackgroundCandidatesAre(records, score, split);
    var listed := Filter(candidates, IsExplicit(records));
    FilterSpec(candidates, IsExplicit(records));
    FilterAscends(candidates, IsExplicit(records), le);
    var empties := set i | 0 <= i < |records| && Carries(records, split, 9, i);
    forall i: nat
      ensures i in listed <==> Carries(records, split, 9, i)
    {
    }
    assert ToSet(listed) == empties;
    SizeOfDistinct(listed);
    CutIsFirst(listed, quota, le);
    AscendingIsInOrder(records, score, split, 9, Take(listed, quota));
    forall i, j | i in Take(listed, quota) && j in empties && j !in Take(listed, quota)
      ensures NotAfter(records, score, split, 9, i, j)
    {
      BlakeIsNotAfter(records, score, split, 9, i, j);
    }
  }

  /** A walk that may take nothing takes nothing. */
  lemma NoWalk(records: seq<Record>, score: Score, split: Split, quota: nat, pool: set<nat>)
    requires forall j :: j in pool ==> j < |records| && records[j].stratum.Some?
    ensures IsWalk(records, score, split, quota, pool, 0, [], [])
  {
    forall m: nat
      ensures CarriedIn(records, [] + [], m) == 0
    {
      CarriedIsCount(records, [], m);
    }
  }

  /** A list of probes in the order of the background. */
  ghost predicate ProbeList(records: seq<Record>, score: Score, split: Split, pool: seq<nat>) {
    && Distinct(pool) && Ascending(pool, ByBlake(records, score, split, 9))
    && AreProbes(records, pool)
  }

  /** With every explicit empty taken, what is left of the candidates are the probes. */
  lemma ProbesLeft(records: seq<Record>, score: Score, split: Split, empties: seq<nat>, keep: nat -> bool)
    requires ValidStrata(records)
    requires forall i: nat :: Carries(records, split, 9, i) ==> i in empties
    requires forall i: nat :: keep(i) ==> i !in empties
    ensures ProbeList(records, score, split, Filter<nat>(Candidates(records, score, split, 9, {}), keep))
    ensures forall i: nat :: i in Filter<nat>(Candidates(records, score, split, 9, {}), keep) <==>
      Hinted(records, split, i) && keep(i)
  {
    var candidates: seq<nat> := Candidates(records, score, split, 9, {});
    BackgroundCandidatesAre(records, score, split);
    FilterSpec<nat>(candidates, keep);
    FilterAscends(candidates, keep, ByBlake(records, score, split, 9));
    forall i: nat
      ensures i in Filter<nat>(candidates, keep) <==>
        (Carries(records, split, 9, i) || Hinted(records, split, i)) && keep(i)
    {
    }
  }

  /** Sorting a list of probes changes nothing that matters. */
  lemma {:induction false} SortedProbes(records: seq<Record>, score: Score, split: Split, pool: seq<nat>)
    requires ProbeList(records, score, split, pool)
    ensures var sorted := Sort(pool, ByBlake(records, score, split, 9));
      ProbeList(records, score, split, sorted) && forall i :: i in sorted <==> i in pool
  {
    var le := ByBlake(records, score, split, 9);
    BlakeOrder(records, score, split, 9);
    SortAscends(pool, le);
    SortMembers(pool, le);
    SortDistinct(pool, le);
  }

  /** The walk over the anchors among the probes, once every explicit empty is taken. */
  lemma AnchorWalkFollowsRule(records: seq<Record>, score: Score, split: Split, quota: nat, empties: seq<nat>)
    requires ValidStrata(records) && |empties| < quota
    requires forall i: nat :: Carries(records, split, 9, i) ==> i in empties
    requires forall i :: i in empties ==> Carries(records, split, 9, i)
    ensures var first := AnchorWalk(records, score, split, quota, Available(records, split), empties);
      var left := Rest(quota, |empties|);
      var anchors := set i | 0 <= i < |records| && Hinted(records, split, i) && records[i].anchor;
      && IsWalk(records, score, split, quota, anchors, LeastOf(if quota < 5 then 1 else quota / 5, left, left), [],
                first.0)
      && Distinct(first.0) && CountersAre(records, first.0, first.1)
      && Capped(first.1, Surplus(Available(records, split), quota))
  {
    var anchored := Both(IsAnchor(records), NotIn(ToSet(empties)));
    var unsorted := Filter<nat>(Candidates(records, score, split, 9, {}), anchored);
    var sorted := Sort(unsorted, ByBlake(records, score, split, 9));
    var left := Rest(quota, |empties|);
    var cap := LeastOf(if quota < 5 then 1 else quota / 5, left, left);
    SortedAnchorProbes(records, score, split, empties);
    FirstWalk(records, score, split, quota, sorted, cap);
    assert Min(AnchorCap(quota), Monus(quota, |empties|)) == cap;
  }

  lemma SortedAnchorProbes(records: seq<Record>, score: Score, split: Split, empties: seq<nat>)
    requires ValidStrata(records)
    requires forall i: nat :: Carries(records, split, 9, i) ==> i in empties
    requires forall i :: i in empties ==> Carries(records, split, 9, i)
    ensures var anchored := Both(IsAnchor(records), NotIn(ToSet(empties)));
      var unsorted := Filter<nat>(Candidates(records, score, split, 9, {}), anchored);
      var sorted := Sort(unsorted, ByBlake(records, score, split, 9));
      && ProbeList(records, score, split, sorted)
      && ToSet(sorted) == set i | 0 <= i < |records| && Hinted(records, split, i) && records[i].anchor
  {
    var anchored := Both(IsAnchor(records), NotIn(ToSet(empties)));
    var unsorted := Filter<nat>(Candidates(records, score, split, 9, {}), anchored);
    ProbesLeft(records, score, split, empties, anchored);
    SortedProbes(records, score, split, unsorted);
  }

  lemma {:induction false} FirstWalk(records: seq<Record>, score: Score, split: Split, quota: nat, pool: seq<nat>,
                                     limit: nat)
    requires ProbeList(records, score, split, pool)
    ensures var first := TakeSafe(records, pool, limit, NONE_CONSUMED, Surplus(Available(records, split), quota));
      && IsWalk(records, score, split, quota, ToSet(pool), limit, [], first.0)
      && Distinct(first.0) && CountersAre(records, first.0, first.1)
      && Capped(first.1, Surplus(Available(records, split), quota))
  {
    TakeSafeIsWalk(records, score, split, quota, pool, limit, [], NONE_CONSUMED);
    TakeSafeSpec(records, pool, limit, NONE_CONSUMED, Surplus(Available(records, split), quota));
  }

  /** The walk over the other probes. */
  lemma {:induction false} RemainderFollowsRule(records: seq<Record>, score: Score, split: Split, quota: nat,
                                                empties: seq<nat>, first: (seq<nat>, Counters))
    requires ValidStrata(records) && forall i: nat :: Carries(records, split, 9, i) ==> i in empties
    requires forall i :: i in empties ==> Carries(records, split, 9, i)
    requires Distinct(first.0) && CountersAre(records, first.0, first.1)
    requires Capped(first.1, Surplus(Available(records, split), quota))
    ensures var kept := Both(NotIn(ToSet(empties)), NotIn(ToSet(first.0)));
      var others := Filter<nat>(Candidates(records, score, split, 9, {}), kept);
      var left := Rest(Rest(quota, |empties|), |first.0|);
      var second := TakeSafe(records, others, left, first.1, Surplus(Available(records, split), quota));
      var probes := set i | 0 <= i < |records| && Hinted(records, split, i);
      && |second.0| <= left
      && IsWalk(records, score, split, quota, probes - ToSet(first.0), left, first.0, second.0)
  {
    var kept := Both(NotIn(ToSet(empties)), NotIn(ToSet(first.0)));
    var others := Filter<nat>(Candidates(records, score, split, 9, {}), kept);
    ProbesLeft(records, score, split, empties, kept);
    assert ToSet(others) == (set i | 0 <= i < |records| && Hinted(records, split, i)) - ToSet(first.0);
    var left := Rest(Rest(quota, |empties|), |first.0|);
    TakeSafeIsWalk(records, score, split, quota, others, left, first.0, first.1);
    TakeSafeSpec(records, others, left, first.1, Surplus(Available(records, split), quota));
  }

  /** The lists of the background's choice, one from the other. */
  lemma FirstListsAre(records: seq<Record>, score: Score, split: Split, quota: nat)
    ensures var b := ChooseBackground(records, score, split, quota, Available(records, split));
      && b.explicitEmpty == Take(Filter<nat>(Candidates(records, score, split, 9, {}), IsExplicit(records)), quota)
      && b.priority == AnchorWalk(records, score, split, quota, Available(records, split), b.explicitEmpty).0
  {
  }

  lemma RemainderIs(records: seq<Record>, score: Score, split: Split, quota: nat, b: Background,
                    first: (seq<nat>, Counters))
    requires b == ChooseBackground(records, score, split, quota, Available(records, split))
    requires first == AnchorWalk(records, score, split, quota, Available(records, split), b.explicitEmpty)
    ensures var kept := Both(NotIn(ToSet(b.explicitEmpty)), NotIn(ToSet(first.0)));
      var left := Monus(Monus(quota, |b.explicitEmpty|), |first.0|);
      b.remainder == Take(TakeSafe(records, Filter<nat>(Candidates(records, score, split, 9, {}), kept), left, first.1,
                                   Surplus(Available(records, split), quota)).0, left)
  {
  }

  /** The background's choice, said of the records. */
  lemma BackgroundFollowsRule(records: seq<Record>, score: Score, split: Split, quota: nat)
    requires ValidStrata(records)
    ensures BackgroundRule(records, score, split, quota,
                           ChooseBackground(records, score, split, quota, Available(records, split)))
  {
    var b := ChooseBackground(records, score, split, quota, Available(records, split));
    var probes := set i | 0 <= i < |records| && Hinted(records, split, i);
    EmptiesFollowRule(records, score, split, quota);
    FirstListsAre(records, score, split, quota);
    if |b.explicitEmpty| < quota {
      BackgroundWithProbes(records, score, split, quota, b);
    } else {
      NoWalk(records, score, split, quota, probes);
      NoWalk(records, score, split, quota, set i | i in probes && records[i].anchor);
    }
  }

  lemma BackgroundWithProbes(records: seq<Record>, score: Score, split: Split, quota: nat, b: Background)
    requires ValidStrata(records) && |b.explicitEmpty| < quota
    requires b == ChooseBackground(records, score, split, quota, Available(records, split))
    requires EmptiesRule(records, score, split, quota, b.explicitEmpty)
    requires forall i: nat :: Carries(records, split, 9, i) ==> i in b.explicitEmpty
    requires forall i :: i in b.explicitEmpty ==> Carries(records, split, 9, i)
    ensures BackgroundRule(records, score, split, quota, b)
  {
    FirstListsAre(records, score, split, quota);
    var first := AnchorWalk(records, score, split, quota, Available(records, split), b.explicitEmpty);
    AnchorWalkFollowsRule(records, score, split, quota, b.explicitEmpty);
    RemainderWalk(records, score, split, quota, b, first);
    WalksMakeRule(records, score, split, quota, b);
  }

  lemma RemainderWalk(records: seq<Record>, score: Score, split: Split, quota: nat, b: Background,
                      first: (seq<nat>, Counters))
    requires ValidStrata(records) && forall i: nat :: Carries(records, split, 9, i) ==> i in b.explicitEmpty
    requires forall i :: i in b.explicitEmpty ==> Carries(records, split, 9, i)
    requires b == ChooseBackground(records, score, split, quota, Available(records, split))
    requires first == AnchorWalk(records, score, split, quota, Available(records, split), b.explicitEmpty)
    requires Distinct(first.0) && CountersAre(records, first.0, first.1)
    requires Capped(first.1, Surplus(Available(records, split), quota))
    ensures var left := Rest(Rest(quota, |b.explicitEmpty|), |first.0|);
      var probes := set i | 0 <= i < |records| && Hinted(records, split, i);
      IsWalk(records, score, split, quota, probes - ToSet(first.0), left, first.0, b.remainder)
  {
    RemainderIs(records, score, split, quota, b, first);
    RemainderFollowsRule(records, score, split, quota, b.explicitEmpty, first);
    var rest := Rest(quota, |b.explicitEmpty|);
    assert Monus(quota, |b.explicitEmpty|) == rest;
    assert Monus(rest, |first.0|) == Rest(rest, |first.0|);
  }

  lemma WalksMakeRule(records: seq<Record>, score: Score, split: Split, quota: nat, b: Background)
    requires EmptiesRule(records, score, split, quota, b.explicitEmpty)
    requires var left := Rest(quota, |b.explicitEmpty|);
      var anchors := set i | 0 <= i < |records| && Hinted(records, split, i) && records[i].anchor;
      IsWalk(records, score, split, quota, anchors, LeastOf(if quota < 5 then 1 else quota / 5, left, left), [],
             b.priority)
    requires var left := Rest(Rest(quota, |b.explicitEmpty|), |b.priority|);
      var probes := set i | 0 <= i < |records| && Hinted(records, split, i);
      IsWalk(records, score, split, quota, probes - ToSet(b.priority), left, b.priority, b.remainder)
    ensures BackgroundRule(records, score, split, quota, b)
  {
    var probes := set i | 0 <= i < |records| && Hinted(records, split, i);
    assert (set i | i in probes && records[i].anchor) ==
      set i | 0 <= i < |records| && Hinted(records, split, i) && records[i].anchor;
  }
}
