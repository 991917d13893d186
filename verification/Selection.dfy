/** Row selection: pools, the quota loop over splits and strata, and the row each chosen source becomes. */
module Selection {
  import opened Order
  import opened PilotSources
  import opened Allocation
  import opened Feasibility
  import opened Wrappers

  datatype Cohort = HistoricalProbe | CurrentGroundTruth

  datatype SelectionReason =
    | ExplicitEmptyLabel
    | AnchorPriority
    | ProbeByScore
    | ObservedByScore
    | ByScore

  datatype Row = Row(
    split: Split,
    stratum: nat,
    selectionStratum: nat,
    currentStratum: nat,
    cohort: Cohort,
    rank: nat,
    score: nat,
    anchor: bool,
    reason: SelectionReason,
    path: Path,
    sha: Digest,
    labelFile: Label,
    explicitEmpty: bool,
    probe: bool,
    gtClass: Option<nat>,
    gtBox: Option<Box>,
    categories: set<nat>)

  datatype SelectionError = InvalidStratum | MissingLabel | BadProbe

  /** A (split, stratum) pair of the nested selection loops. */
  datatype Step = Step(split: Split, stratum: nat)

  const STRATA: nat := 10

  /** The inner loop's order: background before the materials. */
  function StratumAt(t: nat): nat {
    if t == 0 then BACKGROUND else t - 1
  }

  datatype Quotas = Quotas(training: nat, validation: nat)

  // ---- one row ----

  function PriorityFor(records: seq<Record>, score: Score, split: Split, quota: nat, s: nat): seq<nat> {
    var background := ChooseBackground(records, score, split, quota, Available(records, split));
    if s == BACKGROUND then background.priority
    else ChooseMaterial(records, score, split, s, quota, ToSet(background.Chosen())).priority
  }

  predicate IsProbe(record: Record, s: nat) {
    s == BACKGROUND && record.stratum != Some(BACKGROUND)
  }

  function RowFor(record: Record, score: Score, step: Step, rank: nat, priority: bool): Result<Row, SelectionError>
    requires record.stratum.Some?
  {
    var explicitEmpty := record.stratum == Some(BACKGROUND);
    var probe := IsProbe(record, step.stratum);
    if record.labelFile.None? then Err(MissingLabel)
    else if probe && (BACKGROUND !in record.categories || record.gtClass.None? || record.gtBox.None?) then Err(BadProbe)
    else
      var reason :=
        if explicitEmpty then ExplicitEmptyLabel
        else if priority then AnchorPriority
        else if probe then ProbeByScore
        else if step.stratum != BACKGROUND && record.categories != {} then ObservedByScore
        else ByScore;
      Ok(Row(step.split, step.stratum, step.stratum, record.stratum.value,
             if probe then HistoricalProbe else CurrentGroundTruth,
             rank, score(step.split, step.stratum, record.sha), record.anchor, reason,
             record.path, record.sha, record.labelFile.value, explicitEmpty, probe,
             record.gtClass, record.gtBox, record.categories))
  }

  predicate Selectable(records: seq<Record>, chosen: seq<nat>) {
    forall k :: 0 <= k < |chosen| ==> chosen[k] < |records| && records[chosen[k]].stratum.Some?
  }

  /** The rows of the first `n` chosen sources of one stratum, or the first error. */
  function RowsOf(records: seq<Record>, score: Score, step: Step, chosen: seq<nat>, priority: seq<nat>, n: nat)
    : Result<seq<Row>, SelectionError>
    requires n <= |chosen| && Selectable(records, chosen)
  {
    if n == 0 then Ok([])
    else
      var before := RowsOf(records, score, step, chosen, priority, n - 1);
      if before.Err? then before
      else
        var row := RowFor(records[chosen[n - 1]], score, step, n, chosen[n - 1] in priority);
        if row.Err? then Err(row.error) else Ok(before.value + [row.value])
  }

  // ---- the loops ----

  /** `take_safe_probes` */
  method TakeSafeProbes(records: seq<Record>, pool: seq<nat>, limit: nat, consumed: Counters, capacity: Counters)
    returns (probes: seq<nat>, counters: Counters)
    ensures (probes, counters) == TakeSafe(records, pool, limit, consumed, capacity)
  {
    probes, counters := [], consumed;
    var k := 0;
    ghost var whole := TakeSafe(records, pool, limit, consumed, capacity);
    assert pool[0..] == pool && [] + whole.0 == whole.0;
    while k < |pool|
      invariant k <= |pool| && |probes| <= limit
      invariant
        var rest := TakeSafe(records, pool[k..], limit - |probes|, counters, capacity);
        TakeSafe(records, pool, limit, consumed, capacity) == (probes + rest.0, rest.1)
    {
      if |probes| >= limit {
        assert TakeSafe(records, pool[k..], 0, counters, capacity) == ([], counters);
        break;
      }
      var i := pool[k];
      assert pool[k..][0] == i && pool[k..][1..] == pool[k + 1..];
      if TakesProbe(records, i, counters, capacity) {
        var m := records[i].stratum.value;
        ghost var rest := TakeSafe(records, pool[k + 1..], limit - |probes| - 1, counters[m := counters[m] + 1],
                                   capacity);
        assert probes + ([i] + rest.0) == (probes + [i]) + rest.0;
        probes := probes + [i];
        counters := counters[m := counters[m] + 1];
      }
      k := k + 1;
    }
    assert k == |pool| ==> pool[k..] == [];
    assert probes + [] == probes;
  }

  type Pools = map<Step, seq<nat>>

  /** `eligible.get(key, [])` */
  function Get(pools: Pools, step: Step): seq<nat> {
    if step in pools then pools[step] else []
  }

  ghost predicate ArePools(records: seq<Record>, n: nat, pools: Pools) {
    n <= |records| && forall split, s :: Get(pools, Step(split, s)) == Pool(records, split, s, n)
  }

  predicate BadStratum(record: Record) {
    record.Eligible() && (record.stratum.None? || record.stratum.value > BACKGROUND)
  }

  /** `eligible[key].append(record)` */
  method AddToPool(pools: Pools, step: Step, n: nat) returns (r: Pools)
    ensures forall other :: Get(r, other) == Get(pools, other) + if other == step then [n] else []
  {
    r := pools[step := Get(pools, step) + [n]];
  }

  lemma PoolGrows(records: seq<Record>, split: Split, s: nat, n: nat)
    requires n < |records|
    ensures Pool(records, split, s, n + 1) ==
      Pool(records, split, s, n) + if Usable(records[n], split, s) then [n] else []
  {
  }

  /** One source joins the pools it may serve. */
  method PoolOne(records: seq<Record>, pools: Pools, n: nat) returns (r: Pools)
    requires n < |records| && ArePools(records, n, pools) && !BadStratum(records[n])
    ensures ArePools(records, n + 1, r)
  {
    var record := records[n];
    r := pools;
    if record.Eligible() {
      var s := record.stratum.value;
      r := AddToPool(r, Step(record.split, s), n);
      if s != BACKGROUND && BACKGROUND in record.categories {
        r := AddToPool(r, Step(record.split, BACKGROUND), n);
      }
    }
    forall split, s
      ensures Get(r, Step(split, s)) == Pool(records, split, s, n + 1)
    {
      PoolGrows(records, split, s, n);
      assert Get(pools, Step(split, s)) == Pool(records, split, s, n);
    }
  }

  /** The bucketing loop: each eligible source joins its stratum, and background too on a historical hint. */
  method FillPools(records: seq<Record>) returns (r: Result<Pools, SelectionError>)
    ensures r.Ok? <==> ValidStrata(records)
    ensures r.Ok? ==> ArePools(records, |records|, r.value)
    ensures r.Err? ==> r.error == InvalidStratum
  {
    var pools: Pools := map[];
    var n := 0;
    while n < |records|
      invariant n <= |records| && forall i :: 0 <= i < n ==> !BadStratum(records[i])
      invariant ArePools(records, n, pools)
    {
      if BadStratum(records[n]) {
        return Err(InvalidStratum);
      }
      pools := PoolOne(records, pools, n);
      n := n + 1;
    }
    r := Ok(pools);
  }

  /** The loop that turns chosen sources into rows, ranked from one. */
  method EmitRows(records: seq<Record>, score: Score, step: Step, chosen: seq<nat>, priority: seq<nat>)
    returns (r: Result<seq<Row>, SelectionError>)
    requires Selectable(records, chosen)
    ensures r == RowsOf(records, score, step, chosen, priority, |chosen|)
  {
    var rows: seq<Row> := [];
    for n := 0 to |chosen|
      invariant RowsOf(records, score, step, chosen, priority, n) == Ok(rows)
    {
      var row := RowFor(records[chosen[n]], score, step, n + 1, chosen[n] in priority);
      if row.Err? {
        StopsAtError(records, score, step, chosen, priority, n + 1, |chosen|);
        return Err(row.error);
      }
      rows := rows + [row.value];
    }
    r := Ok(rows);
  }

  lemma {:induction false} StopsAtError(records: seq<Record>, score: Score, step: Step, chosen: seq<nat>,
                                        priority: seq<nat>, m: nat, n: nat)
    requires m <= n <= |chosen| && Selectable(records, chosen)
    requires RowsOf(records, score, step, chosen, priority, m).Err?
    ensures RowsOf(records, score, step, chosen, priority, n) == RowsOf(records, score, step, chosen, priority, m)
  {
    if m < n {
      StopsAtError(records, score, step, chosen, priority, m, n - 1);
    }
  }

  // ---- one stratum ----

  datatype Counts = Counts(eligible: nat, selected: nat, shortage: nat, observed: nat)

  /** What earlier strata of the split have taken from stratum `s`. */
  function ReservedFor(records: seq<Record>, score: Score, split: Split, quota: nat, s: nat): set<nat> {
    if s == BACKGROUND then {} else ToSet(ChosenFor(records, score, split, quota, BACKGROUND))
  }

  function CountsFor(records: seq<Record>, score: Score, split: Split, quota: nat, s: nat): Counts {
    var candidates := Candidates(records, score, split, s, ReservedFor(records, score, split, quota, s));
    var chosen := ChosenFor(records, score, split, quota, s);
    Counts(|candidates|, |chosen|, Monus(quota, |chosen|),
           if s == BACKGROUND then 0 else |Filter(candidates, IsObserved(records))|)
  }

  lemma ChosenIsSelectable(records: seq<Record>, score: Score, split: Split, quota: nat, s: nat)
    requires ValidStrata(records) && quota >= 1 && s <= BACKGROUND
    ensures Selectable(records, ChosenFor(records, score, split, quota, s))
  {
    ChosenStratum(records, score, split, quota, s);
    UsableIsSelectable(records, ChosenFor(records, score, split, quota, s), split, s);
  }

  lemma UsableIsSelectable(records: seq<Record>, chosen: seq<nat>, split: Split, s: nat)
    requires forall i :: i in chosen ==> i < |records| && Usable(records[i], split, s)
    ensures Selectable(records, chosen)
  {
    forall k | 0 <= k < |chosen|
      ensures chosen[k] < |records| && records[chosen[k]].stratum.Some?
    {
      assert chosen[k] in chosen;
    }
  }

  function StratumRows(records: seq<Record>, score: Score, step: Step, quota: nat): Result<seq<Row>, SelectionError>
    requires ValidStrata(records) && quota >= 1 && step.stratum <= BACKGROUND
  {
    ChosenIsSelectable(records, score, step.split, quota, step.stratum);
    var chosen := ChosenFor(records, score, step.split, quota, step.stratum);
    RowsOf(records, score, step, chosen, PriorityFor(records, score, step.split, quota, step.stratum), |chosen|)
  }

  /** `material_available` for one split */
  method CountAvailable(records: seq<Record>, pools: Pools, split: Split) returns (available: Counters)
    requires ArePools(records, |records|, pools)
    ensures available == Available(records, split)
  {
    available := [];
    for m := 0 to MATERIALS
      invariant |available| == m && forall k :: 0 <= k < m ==> available[k] == Available(records, split)[k]
    {
      assert Get(pools, Step(split, m)) == Pool(records, split, m, |records|);
      available := available + [|Get(pools, Step(split, m))|];
    }
  }

  /** The background branch: empties first, then two walks over the probes. */
  method ReserveBackground(records: seq<Record>, score: Score, split: Split, quota: nat, available: Counters,
                           candidates: seq<nat>) returns (b: Background)
    requires candidates == Candidates(records, score, split, BACKGROUND, {})
    ensures b == ChooseBackground(records, score, split, quota, available)
  {
    var explicitEmpty := Take(Filter(candidates, IsExplicit(records)), quota);
    var remaining := Monus(quota, |explicitEmpty|);
    var capacity := Surplus(available, quota);
    var notExplicit := NotIn(ToSet(explicitEmpty));
    var anchors := Sort(Filter(candidates, Both(IsAnchor(records), notExplicit)),
                        ByBlake(records, score, split, BACKGROUND));
    var priority, consumed := TakeSafeProbes(records, anchors, Min(AnchorCap(quota), remaining), NONE_CONSUMED,
                                             capacity);
    var others := Filter(candidates, Both(notExplicit, NotIn(ToSet(priority))));
    var remainder, _ := TakeSafeProbes(records, others, Monus(remaining, |priority|), consumed, capacity);
    b := Background(explicitEmpty, priority, Take(remainder, Monus(remaining, |priority|)));
  }

  /** As far as one stratum's usable sources go, only the background's choice is reserved. */
  ghost predicate ReservedOk(records: seq<Record>, step: Step, background: set<nat>, reserved: set<nat>) {
    forall i :: 0 <= i < |records| && Usable(records[i], step.split, step.stratum) ==>
      (i in reserved <==> step.stratum != BACKGROUND && i in background)
  }

  lemma SameCandidates(records: seq<Record>, score: Score, step: Step, quota: nat, reserved: set<nat>)
    requires ReservedOk(records, step, ToSet(ChosenFor(records, score, step.split, quota, BACKGROUND)), reserved)
    ensures Candidates(records, score, step.split, step.stratum, reserved) ==
            Candidates(records, score, step.split, step.stratum,
                       ReservedFor(records, score, step.split, quota, step.stratum))
  {
    PoolSpec(records, step.split, step.stratum, |records|);
    FilterSame(Pool(records, step.split, step.stratum, |records|), NotIn(reserved),
               NotIn(ReservedFor(records, score, step.split, quota, step.stratum)));
  }

  lemma SameMaterial(records: seq<Record>, score: Score, step: Step, quota: nat, reserved: set<nat>)
    requires ReservedOk(records, step, ToSet(ChosenFor(records, score, step.split, quota, BACKGROUND)), reserved)
    requires step.stratum != BACKGROUND
    ensures ChooseMaterial(records, score, step.split, step.stratum, quota, reserved) ==
            ChooseMaterial(records, score, step.split, step.stratum, quota,
                           ReservedFor(records, score, step.split, quota, step.stratum))
  {
    SameCandidates(records, score, step, quota, reserved);
  }

  /** The choice of one stratum and its counts. */
  method ChooseStratum(records: seq<Record>, score: Score, pools: Pools, available: Counters, step: Step, quota: nat,
                       reserved: set<nat>)
    returns (chosen: seq<nat>, priority: seq<nat>, counts: Counts)
    requires ArePools(records, |records|, pools) && available == Available(records, step.split)
    requires ReservedOk(records, step, ToSet(ChosenFor(records, score, step.split, quota, BACKGROUND)), reserved)
    requires step.stratum == BACKGROUND ==> reserved == {}
    ensures chosen == ChosenFor(records, score, step.split, quota, step.stratum)
    ensures priority == PriorityFor(records, score, step.split, quota, step.stratum)
    ensures counts == CountsFor(records, score, step.split, quota, step.stratum)
  {
    var split, s := step.split, step.stratum;
    var candidates := Sort(Filter(Get(pools, Step(split, s)), NotIn(reserved)), ByBlake(records, score, split, s));
    assert Get(pools, Step(split, s)) == Pool(records, split, s, |records|);
    SameCandidates(records, score, step, quota, reserved);
    if s == BACKGROUND {
      var b := ReserveBackground(records, score, split, quota, available, candidates);
      chosen, priority := b.Chosen(), b.priority;
      counts := Counts(|candidates|, |chosen|, Monus(quota, |chosen|), 0);
    } else {
      SameMaterial(records, score, step, quota, reserved);
      var m := ChooseMaterial(records, score, split, s, quota, reserved);
      chosen, priority := m.Chosen(), m.priority;
      counts := Counts(|candidates|, |chosen|, Monus(quota, |chosen|), |Filter(candidates, IsObserved(records))|);
    }
  }

  /** One pass of the inner loop: candidates, choice, counts and rows of one stratum. */
  method SelectStratum(records: seq<Record>, score: Score, pools: Pools, available: Counters, step: Step, quota: nat,
                       reserved: set<nat>)
    returns (rows: Result<seq<Row>, SelectionError>, chosen: seq<nat>, counts: Counts)
    requires ValidStrata(records) && quota >= 1 && step.stratum <= BACKGROUND
    requires ArePools(records, |records|, pools) && available == Available(records, step.split)
    requires ReservedOk(records, step, ToSet(ChosenFor(records, score, step.split, quota, BACKGROUND)), reserved)
    requires step.stratum == BACKGROUND ==> reserved == {}
    ensures chosen == ChosenFor(records, score, step.split, quota, step.stratum)
    ensures counts == CountsFor(records, score, step.split, quota, step.stratum)
    ensures rows == StratumRows(records, score, step, quota)
  {
    var priority;
    chosen, priority, counts := ChooseStratum(records, score, pools, available, step, quota, reserved);
    ChosenIsSelectable(records, score, step.split, quota, step.stratum);
    rows := EmitRows(records, score, step, chosen, priority);
  }

  // ---- both splits ----

  datatype Selected = Selected(rows: seq<Row>, counts: seq<(Step, Counts)>)

  predicate RowLe(x: Row, y: Row) {
    if x.split != y.split then x.split == Training
    else if x.stratum != y.stratum then x.stratum < y.stratum
    else if x.rank != y.rank then x.rank < y.rank
    else x.path <= y.path
  }

  /** The rows of the first `k` strata, or the first error among them. */
  function Collect(strata: seq<Result<seq<Row>, SelectionError>>, k: nat): Result<seq<Row>, SelectionError>
    requires k <= |strata|
  {
    if k == 0 then Ok([])
    else
      var before := Collect(strata, k - 1);
      if before.Err? then before
      else if strata[k - 1].Err? then strata[k - 1]
      else Ok(before.value + strata[k - 1].value)
  }

  lemma {:induction false} CollectStops(strata: seq<Result<seq<Row>, SelectionError>>, j: nat, k: nat)
    requires j <= k <= |strata| && Collect(strata, j).Err?
    ensures Collect(strata, k) == Collect(strata, j)
  {
    if j < k {
      CollectStops(strata, j, k - 1);
    }
  }

  function SplitStrata(records: seq<Record>, score: Score, split: Split,
                       quota: nat): (r: seq<Result<seq<Row>, SelectionError>>)
    requires ValidStrata(records) && quota >= 1
    ensures |r| == STRATA
    ensures forall t :: 0 <= t < STRATA ==> r[t] == StratumRows(records, score, Step(split, StratumAt(t)), quota)
  {
    seq(STRATA, t requires 0 <= t < STRATA => StratumRows(records, score, Step(split, StratumAt(t)), quota))
  }

  /** The rows of one split, or its first error. */
  function SplitRows(records: seq<Record>, score: Score, split: Split, quota: nat): Result<seq<Row>, SelectionError>
    requires ValidStrata(records) && quota >= 1
  {
    Collect(SplitStrata(records, score, split, quota), STRATA)
  }

  /** What the loops return: the rows of both splits in final order, or the first error. */
  function SelectionOf(records: seq<Record>, score: Score, quotas: Quotas): Result<seq<Row>, SelectionError>
    requires quotas.training >= 1 && quotas.validation >= 1
  {
    if !ValidStrata(records) then Err(InvalidStratum)
    else
      var training := SplitRows(records, score, Training, quotas.training);
      var validation := SplitRows(records, score, Validation, quotas.validation);
      if training.Err? then training
      else if validation.Err? then validation
      else Ok(Sort(training.value + validation.value, RowLe))
  }

  /** The per-stratum counters of one split, in the order they are recorded. */
  function SplitCounts(records: seq<Record>, score: Score, split: Split, quota: nat): (r: seq<(Step, Counts)>)
    ensures |r| == STRATA
    ensures forall t :: 0 <= t < STRATA ==>
      r[t] == (Step(split, StratumAt(t)), CountsFor(records, score, split, quota, StratumAt(t)))
  {
    seq(STRATA, t requires 0 <= t < STRATA =>
      (Step(split, StratumAt(t)), CountsFor(records, score, split, quota, StratumAt(t))))
  }

  /** The reservations of one split after its background and first materials, `t` strata in all. */
  ghost function ReservedUpTo(f: seq<set<nat>>, t: nat): set<nat>
    requires t <= STRATA == |f|
  {
    if t == 0 then {} else ReservedUpTo(f, t - 1) + f[StratumAt(t - 1)]
  }

  lemma {:induction false} ReservedMembers(f: seq<set<nat>>, t: nat, i: nat)
    requires t <= STRATA == |f| && i in ReservedUpTo(f, t)
    ensures i in f[BACKGROUND] || exists s :: 0 <= s < t - 1 && i in f[s]
  {
    if i !in f[StratumAt(t - 1)] {
      ReservedMembers(f, t - 1, i);
    }
  }

  lemma {:induction false} BackgroundReserved(f: seq<set<nat>>, t: nat)
    requires 1 <= t <= STRATA == |f|
    ensures f[BACKGROUND] <= ReservedUpTo(f, t)
  {
    if t > 1 {
      BackgroundReserved(f, t - 1);
    } else {
      assert StratumAt(0) == BACKGROUND;
    }
  }

  lemma {:induction false} ReservedStaysOk(records: seq<Record>, split: Split, f: seq<set<nat>>, t: nat)
    requires Assigns(records, split, f) && t < STRATA
    ensures ReservedOk(records, Step(split, StratumAt(t)), f[BACKGROUND], ReservedUpTo(f, t))
    ensures StratumAt(t) == BACKGROUND ==> ReservedUpTo(f, t) == {}
  {
    if t > 0 {
      BackgroundReserved(f, t);
      forall i | 0 <= i < |records| && Usable(records[i], split, t - 1) && i in ReservedUpTo(f, t)
        ensures i in f[BACKGROUND]
      {
        ReservedMembers(f, t, i);
        assert records[i].stratum == Some(t - 1);
      }
    }
  }

  ghost predicate Progress(strata: seq<Result<seq<Row>, SelectionError>>, expected: seq<(Step, Counts)>, t: nat,
                           selected: Selected) {
    t <= |strata| == |expected| && Collect(strata, t) == Ok(selected.rows) && selected.counts == expected[..t]
  }

  /** The specification's view of one split: rows, counters and chosen sets, stratum by stratum. */
  ghost predicate IsPlan(records: seq<Record>, score: Score, split: Split, quota: nat,
                         strata: seq<Result<seq<Row>, SelectionError>>, expected: seq<(Step, Counts)>,
                         sets: seq<set<nat>>)
  {
    && ValidStrata(records) && quota >= 1 && STRATA == |strata| == |sets| == |expected|
    && (forall use: nat :: OnDemand(use) ==>
          && strata == SplitStrata(records, score, split, quota)
          && expected == SplitCounts(records, score, split, quota)
          && sets == ChosenSets(records, score, split, quota))
  }

  /** What the specification says about the stratum in position `t`. */
  lemma PlanAt(records: seq<Record>, score: Score, split: Split, quota: nat,
               strata: seq<Result<seq<Row>, SelectionError>>, expected: seq<(Step, Counts)>, sets: seq<set<nat>>,
               t: nat)
    requires IsPlan(records, score, split, quota, strata, expected, sets) && t < STRATA
    ensures |strata| == |expected| == |sets| == STRATA
    ensures strata[t] == StratumRows(records, score, Step(split, StratumAt(t)), quota)
    ensures expected[t] == (Step(split, StratumAt(t)), CountsFor(records, score, split, quota, StratumAt(t)))
    ensures sets[BACKGROUND] == ToSet(ChosenFor(records, score, split, quota, BACKGROUND))
    ensures ReservedUpTo(sets, t + 1) ==
      ReservedUpTo(sets, t) + ToSet(ChosenFor(records, score, split, quota, StratumAt(t)))
    ensures ReservedOk(records, Step(split, StratumAt(t)), sets[BACKGROUND], ReservedUpTo(sets, t))
    ensures StratumAt(t) == BACKGROUND ==> ReservedUpTo(sets, t) == {}
  {
    assert OnDemand(0);
    ChosenAssigns(records, score, split, quota);
    ReservedStaysOk(records, split, sets, t);
  }

  /** One pass of the inner loop, folded into the growing result. */
  method SelectStep(records: seq<Record>, score: Score, pools: Pools, split: Split, quota: nat, available: Counters,
                    t: nat, reserved: set<nat>, before: Selected, ghost strata: seq<Result<seq<Row>, SelectionError>>,
                    ghost expected: seq<(Step, Counts)>, ghost sets: seq<set<nat>>)
    returns (r: Result<Selected, SelectionError>, taken: set<nat>)
    requires IsPlan(records, score, split, quota, strata, expected, sets) && t < STRATA == |strata| == |sets|
    requires ArePools(records, |records|, pools) && available == Available(records, split)
    requires Progress(strata, expected, t, before) && reserved == ReservedUpTo(sets, t)
    ensures taken == ReservedUpTo(sets, t + 1)
    ensures r.Ok? ==> Progress(strata, expected, t + 1, r.value)
    ensures r.Err? ==> Collect(strata, |strata|) == Err(r.error)
  {
    PlanAt(records, score, split, quota, strata, expected, sets, t);
    var step := Step(split, StratumAt(t));
    var more, chosen, count := SelectStratum(records, score, pools, available, step, quota, reserved);
    taken := reserved + ToSet(chosen);
    r := Extend(before, more, (step, count), strata, expected, t);
  }

  /** Append one stratum's rows and counters, or stop at its error. */
  method Extend(before: Selected, more: Result<seq<Row>, SelectionError>, count: (Step, Counts),
                ghost strata: seq<Result<seq<Row>, SelectionError>>,
                ghost expected: seq<(Step, Counts)>, ghost t: nat) returns (r: Result<Selected, SelectionError>)
    requires t < |strata| == |expected| && strata[t] == more && expected[t] == count
    requires Progress(strata, expected, t, before)
    ensures r.Ok? ==> Progress(strata, expected, t + 1, r.value)
    ensures r.Err? ==> Collect(strata, |strata|) == Err(r.error)
  {
    if more.Err? {
      CollectStops(strata, t + 1, |strata|);
      return Err(more.error);
    }
    r := Ok(Selected(before.rows + more.value, before.counts + [count]));
  }

  /** The loop over the strata of one split. */
  method SelectStrata(records: seq<Record>, score: Score, pools: Pools, split: Split, quota: nat,
                      ghost strata: seq<Result<seq<Row>, SelectionError>>, ghost expected: seq<(Step, Counts)>,
                      ghost sets: seq<set<nat>>)
    returns (r: Result<Selected, SelectionError>)
    requires IsPlan(records, score, split, quota, strata, expected, sets)
    requires ArePools(records, |records|, pools)
    ensures r.Ok? ==> Progress(strata, expected, |strata|, r.value)
    ensures r.Err? ==> Collect(strata, |strata|) == Err(r.error)
  {
    var available := CountAvailable(records, pools, split);
    var selected, reserved := Selected([], []), {};
    var t := 0;
    while t < STRATA
      invariant t <= STRATA && Progress(strata, expected, t, selected)
      invariant reserved == ReservedUpTo(sets, t)
    {
      var next;
      next, reserved := SelectStep(records, score, pools, split, quota, available, t, reserved, selected,
                                   strata, expected, sets);
      if next.Err? {
        return next;
      }
      selected, t := next.value, t + 1;
    }
    r := Ok(selected);
  }

  method SelectSplit(records: seq<Record>, score: Score, pools: Pools, split: Split, quota: nat)
    returns (r: Result<Selected, SelectionError>)
    requires ValidStrata(records) && quota >= 1
    requires ArePools(records, |records|, pools)
    ensures r.Ok? ==> SplitRows(records, score, split, quota) == Ok(r.value.rows)
    ensures r.Ok? ==> r.value.counts == SplitCounts(records, score, split, quota)
    ensures r.Err? ==> SplitRows(records, score, split, quota) == Err(r.error)
  {
    r := SelectStrata(records, score, pools, split, quota, SplitStrata(records, score, split, quota),
                      SplitCounts(records, score, split, quota), ChosenSets(records, score, split, quota));
  }
}
