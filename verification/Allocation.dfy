/** Which sources a split's quotas choose: reserved background probes first, then each material. */
module Allocation {
  import opened Order
  import opened PilotSources
  import opened Wrappers

  type Score = (Split, nat, Digest) -> nat

  // ---- pools ----

  /** A record may fill stratum `s` of `split`: its own stratum, or background on a historical hint. */
  predicate Usable(r: Record, split: Split, s: nat) {
    r.Eligible() && r.split == split && r.stratum.Some? &&
    (r.stratum.value == s ||
     (s == BACKGROUND && r.stratum.value != BACKGROUND && BACKGROUND in r.categories))
  }

  /** `eligible[(split, stratum)]`, in scan order. */
  function Pool(records: seq<Record>, split: Split, s: nat, n: nat): seq<nat>
    requires n <= |records|
  {
    if n == 0 then [] else
      Pool(records, split, s, n - 1) + if Usable(records[n - 1], split, s) then [n - 1] else []
  }

  lemma {:induction false} PoolSpec(records: seq<Record>, split: Split, s: nat, n: nat)
    requires n <= |records|
    ensures forall i: nat :: i in Pool(records, split, s, n) <==> i < n && Usable(records[i], split, s)
    ensures Distinct(Pool(records, split, s, n))
  {
    if n > 0 {
      PoolSpec(records, split, s, n - 1);
      assert n - 1 !in Pool(records, split, s, n - 1);
    }
  }

  predicate TripleLe(x: (nat, nat, nat), y: (nat, nat, nat)) {
    x.0 < y.0 || (x.0 == y.0 && (x.1 < y.1 || (x.1 == y.1 && x.2 <= y.2)))
  }

  /** `(score, digest, path)` of a source competing for a stratum. */
  function BlakeKey(records: seq<Record>, score: Score, split: Split, s: nat, i: nat): (nat, nat, nat) {
    if i < |records| then (score(split, s, records[i].sha), records[i].sha, records[i].path) else (0, 0, 0)
  }

  function ByBlake(records: seq<Record>, score: Score, split: Split, s: nat): (nat, nat) -> bool {
    (i: nat, j: nat) => TripleLe(BlakeKey(records, score, split, s, i), BlakeKey(records, score, split, s, j))
  }

  function NotIn(taken: set<nat>): nat -> bool {
    (i: nat) => i !in taken
  }

  function Candidates(records: seq<Record>, score: Score, split: Split, s: nat, reserved: set<nat>): seq<nat> {
    Sort(Filter(Pool(records, split, s, |records|), NotIn(reserved)), ByBlake(records, score, split, s))
  }

  lemma CandidatesSpec(records: seq<Record>, score: Score, split: Split, s: nat, reserved: set<nat>)
    ensures var candidates := Candidates(records, score, split, s, reserved);
      && (forall i: nat :: i in candidates <==> i < |records| && Usable(records[i], split, s) && i !in reserved)
      && Distinct(candidates)
  {
    var pool := Pool(records, split, s, |records|);
    PoolSpec(records, split, s, |records|);
    FilterSpec(pool, NotIn(reserved));
    SortMembers(Filter(pool, NotIn(reserved)), ByBlake(records, score, split, s));
    SortDistinct(Filter(pool, NotIn(reserved)), ByBlake(records, score, split, s));
  }

  // ---- record properties used as filters ----

  function IsExplicit(records: seq<Record>): nat -> bool {
    (i: nat) => i < |records| && records[i].stratum == Some(BACKGROUND)
  }

  function IsAnchor(records: seq<Record>): nat -> bool {
    (i: nat) => i < |records| && records[i].anchor
  }

  function IsObserved(records: seq<Record>): nat -> bool {
    (i: nat) => i < |records| && records[i].categories != {}
  }

  function Both(p: nat -> bool, q: nat -> bool): nat -> bool {
    (i: nat) => p(i) && q(i)
  }

  function Neither(p: nat -> bool): nat -> bool {
    (i: nat) => !p(i)
  }

  function ToSet(s: seq<nat>): set<nat> {
    set i | i in s
  }

  function Min(a: nat, b: nat): nat {
    if a <= b then a else b
  }

  function Monus(a: nat, b: nat): nat {
    if a <= b then 0 else a - b
  }

  /** `max(1, quota // 5)` */
  function AnchorCap(quota: nat): nat {
    if quota / 5 >= 1 then quota / 5 else 1
  }

  // ---- background ----

  /** Per-material counters, indexed by material. */
  type Counters = seq<nat>

  predicate TakesProbe(records: seq<Record>, i: nat, consumed: Counters, capacity: Counters) {
    i < |records| && records[i].stratum.Some? &&
    var m := records[i].stratum.value;
    m < |capacity| && m < |consumed| && consumed[m] < capacity[m]
  }

  /** `take_safe_probes`: walk the pool, skipping materials with no surplus left, until `limit` are chosen. */
  function TakeSafe(records: seq<Record>, pool: seq<nat>, limit: nat, consumed: Counters, capacity: Counters)
    : (r: (seq<nat>, Counters))
    decreases |pool|
  {
    if pool == [] || limit == 0 then ([], consumed)
    else if !TakesProbe(records, pool[0], consumed, capacity) then
      TakeSafe(records, pool[1..], limit, consumed, capacity)
    else
      var m := records[pool[0]].stratum.value;
      var rest := TakeSafe(records, pool[1..], limit - 1, consumed[m := consumed[m] + 1], capacity);
      ([pool[0]] + rest.0, rest.1)
  }

  predicate HasStratum(records: seq<Record>, i: nat, m: nat) {
    i < |records| && records[i].stratum == Some(m)
  }

  /** How many of a list's sources currently carry material `m`. */
  ghost function CountOf(records: seq<Record>, s: seq<nat>, m: nat): nat {
    if s == [] then 0
    else (if HasStratum(records, s[0], m) then 1 else 0) + CountOf(records, s[1..], m)
  }

  ghost predicate Capped(consumed: Counters, capacity: Counters) {
    |consumed| == |capacity| == MATERIALS && forall m :: 0 <= m < MATERIALS ==> consumed[m] <= capacity[m]
  }

  /** The probe walk is safe and greedy: it never passes a surplus, and stops short only when nothing is left. */
  lemma {:induction false} TakeSafeSpec(records: seq<Record>, pool: seq<nat>, limit: nat, consumed: Counters,
                                        capacity: Counters)
    requires Capped(consumed, capacity)
    ensures var r := TakeSafe(records, pool, limit, consumed, capacity);
      && |r.0| <= limit
      && (forall i :: i in r.0 ==>
          i in pool && i < |records| && records[i].stratum.Some? && records[i].stratum.value < MATERIALS)
      && Capped(r.1, capacity)
      && (forall m :: 0 <= m < MATERIALS ==> r.1[m] == consumed[m] + CountOf(records, r.0, m))
    decreases |pool|
  {
    if pool != [] && limit > 0 {
      if TakesProbe(records, pool[0], consumed, capacity) {
        var m := records[pool[0]].stratum.value;
        TakeSafeSpec(records, pool[1..], limit - 1, consumed[m := consumed[m] + 1], capacity);
        var rest := TakeSafe(records, pool[1..], limit - 1, consumed[m := consumed[m] + 1], capacity).0;
        assert ([pool[0]] + rest)[1..] == rest;
      } else {
        TakeSafeSpec(records, pool[1..], limit, consumed, capacity);
      }
    }
  }

  /** A walk that stops short of its limit has, for each material, used up its surplus or taken every source. */
  lemma {:induction false} TakeSafeGreedy(records: seq<Record>, pool: seq<nat>, limit: nat, consumed: Counters,
                                          capacity: Counters, m: nat)
    requires Capped(consumed, capacity) && m < MATERIALS
    requires |TakeSafe(records, pool, limit, consumed, capacity).0| < limit
    ensures var r := TakeSafe(records, pool, limit, consumed, capacity);
      |r.1| == |capacity| == MATERIALS && consumed[m] <= r.1[m] &&
      (r.1[m] == capacity[m] || forall i :: i in pool && HasStratum(records, i, m) ==> i in r.0)
    decreases |pool|
  {
    TakeSafeSpec(records, pool, limit, consumed, capacity);
    if pool != [] {
      assert pool == [pool[0]] + pool[1..];
      if TakesProbe(records, pool[0], consumed, capacity) {
        var n := records[pool[0]].stratum.value;
        TakeSafeGreedy(records, pool[1..], limit - 1, consumed[n := consumed[n] + 1], capacity, m);
      } else {
        TakeSafeGreedy(records, pool[1..], limit, consumed, capacity, m);
      }
    }
  }

  lemma {:induction false} TakeSafeDistinct(records: seq<Record>, pool: seq<nat>, limit: nat, consumed: Counters,
                                            capacity: Counters)
    requires Capped(consumed, capacity) && Distinct(pool)
    ensures Distinct(TakeSafe(records, pool, limit, consumed, capacity).0)
    decreases |pool|
  {
    if pool != [] && limit > 0 {
      assert pool == [pool[0]] + pool[1..];
      if TakesProbe(records, pool[0], consumed, capacity) {
        var m := records[pool[0]].stratum.value;
        var next := consumed[m := consumed[m] + 1];
        TakeSafeDistinct(records, pool[1..], limit - 1, next, capacity);
        TakeSafeSpec(records, pool[1..], limit - 1, next, capacity);
        assert pool[0] !in pool[1..];
      } else {
        TakeSafeDistinct(records, pool[1..], limit, consumed, capacity);
      }
    }
  }

  datatype Background = Background(explicitEmpty: seq<nat>, priority: seq<nat>, remainder: seq<nat>)
  {
    function Chosen(): seq<nat> {
      explicitEmpty + priority + remainder
    }
  }

  const NONE_CONSUMED: Counters := [0, 0, 0, 0, 0, 0, 0, 0, 0]

  function Surplus(available: Counters, quota: nat): Counters {
    seq(|available|, m requires 0 <= m < |available| => Monus(available[m], quota))
  }

  /** The walk over the anchors among the probes, and the counters it leaves. */
  function AnchorWalk(records: seq<Record>, score: Score, split: Split, quota: nat, available: Counters,
                      explicitEmpty: seq<nat>): (seq<nat>, Counters) {
    var candidates := Candidates(records, score, split, BACKGROUND, {});
    var anchors := Sort(Filter(candidates, Both(IsAnchor(records), NotIn(ToSet(explicitEmpty)))),
                        ByBlake(records, score, split, BACKGROUND));
    TakeSafe(records, anchors, Min(AnchorCap(quota), Monus(quota, |explicitEmpty|)), NONE_CONSUMED,
             Surplus(available, quota))
  }

  /** The background stratum of one split: explicit empties, then anchors, then the rest, within the surplus. */
  function ChooseBackground(records: seq<Record>, score: Score, split: Split, quota: nat, available: Counters)
    : Background
  {
    var candidates := Candidates(records, score, split, BACKGROUND, {});
    var explicitEmpty := Take(Filter(candidates, IsExplicit(records)), quota);
    var remaining := Monus(quota, |explicitEmpty|);
    var first := AnchorWalk(records, score, split, quota, available, explicitEmpty);
    var others := Filter(candidates, Both(NotIn(ToSet(explicitEmpty)), NotIn(ToSet(first.0))));
    var second := TakeSafe(records, others, Monus(remaining, |first.0|), first.1, Surplus(available, quota));
    Background(explicitEmpty, first.0, Take(second.0, Monus(remaining, |first.0|)))
  }

  // ---- materials ----

  datatype Material = Material(priority: seq<nat>, remainder: seq<nat>)
  {
    function Chosen(): seq<nat> {
      priority + remainder
    }
  }

  /** One material: a bounded anchor slice, then historically observed sources, then unseen ones. */
  function ChooseMaterial(records: seq<Record>, score: Score, split: Split, m: nat, quota: nat, reserved: set<nat>)
    : Material
  {
    var candidates := Candidates(records, score, split, m, reserved);
    var anchors := Sort(Filter(candidates, IsAnchor(records)), ByBlake(records, score, split, m));
    var priority := Take(anchors, Min(AnchorCap(quota), quota));
    var rest := Filter(candidates, NotIn(ToSet(priority)));
    var remainder := Filter(rest, IsObserved(records)) + Filter(rest, Neither(IsObserved(records)));
    Material(priority, Take(remainder, Monus(quota, |priority|)))
  }
}
