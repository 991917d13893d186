/** What the selected rows say, in the terms of the records they come from and of the rules that chose them. */
module SelectionRule {
  import opened Allocation
  import opened AllocationRule
  import opened Feasibility
  import opened Order
  import opened PilotSources
  import opened Selection
  import opened Wrappers

  /** What one split's quotas choose: a background and nine materials. */
  datatype Plan = Plan(background: Background, materials: seq<Material>)
  {
    function Anchors(s: nat): seq<nat> {
      if s < |materials| then materials[s].priority else background.priority
    }

    function Listed(s: nat): seq<nat> {
      if s < |materials| then materials[s].priority + materials[s].remainder
      else background.explicitEmpty + background.priority + background.remainder
    }
  }

  ghost predicate PlanRule(records: seq<Record>, score: Score, split: Split, quota: nat, plan: Plan) {
    && |plan.materials| == 9 && BackgroundRule(records, score, split, quota, plan.background)
    && forall m :: 0 <= m < 9 ==>
         MaterialRule(records, score, split, m, quota, ToSet(plan.Listed(9)), plan.materials[m])
  }

  /** A row about a source that came up in stratum `s` at some rank, with or without anchor priority. */
  ghost predicate RowSays(record: Record, score: Score, split: Split, s: nat, rank: nat, anchored: bool, row: Row) {
    && row.split == split && row.stratum == s && row.selectionStratum == s && row.rank == rank
    && record.stratum == Some(row.currentStratum) && row.score == score(split, s, record.sha)
    && row.path == record.path && row.sha == record.sha && record.labelFile == Some(row.labelFile)
    && row.anchor == record.anchor && row.gtClass == record.gtClass && row.gtBox == record.gtBox
    && row.categories == record.categories
    && (row.explicitEmpty <==> record.stratum == Some(9))
    && (row.probe <==> s == 9 && record.stratum != Some(9))
    && (row.cohort == HistoricalProbe <==> s == 9 && record.stratum != Some(9))
    && (row.reason == ExplicitEmptyLabel <==> record.stratum == Some(9))
    && (row.reason == AnchorPriority <==> record.stratum != Some(9) && anchored)
    && (row.reason == ProbeByScore <==> record.stratum != Some(9) && !anchored && s == 9)
    && (row.reason == ObservedByScore <==>
          record.stratum != Some(9) && !anchored && s != 9 && record.categories != {})
  }

  /** A chosen source no row can be made of. */
  predicate Faulty(record: Record, s: nat) {
    record.labelFile.None? ||
    (s == 9 && record.stratum != Some(9) &&
     (9 !in record.categories || record.gtClass.None? || record.gtBox.None?))
  }

  ghost predicate RowIsPlanned(records: seq<Record>, score: Score, plan: Plan, row: Row) {
    && row.stratum <= 9 && 1 <= row.rank <= |plan.Listed(row.stratum)|
    && var i := plan.Listed(row.stratum)[row.rank - 1];
       i < |records| &&
       RowSays(records[i], score, row.split, row.stratum, row.rank, i in plan.Anchors(row.stratum), row)
  }

  /** Every place of a split's plan has its row. */
  ghost predicate Places(plan: Plan, split: Split, rows: seq<Row>) {
    forall s: nat, n: nat :: s <= 9 && 1 <= n <= |plan.Listed(s)| ==> HasPlace(rows, split, s, n)
  }

  ghost predicate HasPlace(rows: seq<Row>, split: Split, s: nat, n: nat) {
    exists k :: 0 <= k < |rows| && rows[k].split == split && rows[k].stratum == s && rows[k].rank == n
  }

  /** Training first, then by stratum with the background last, then by rank. */
  predicate Precedes(x: Row, y: Row) {
    || (x.split == Training && y.split == Validation)
    || (x.split == y.split && (x.stratum < y.stratum || (x.stratum == y.stratum && x.rank < y.rank)))
  }

  ghost predicate RowsPlanned(records: seq<Record>, score: Score, training: Plan, validation: Plan, rows: seq<Row>) {
    forall row :: row in rows ==>
      RowIsPlanned(records, score, if row.split == Training then training else validation, row)
  }

  ghost predicate RowsFollow(records: seq<Record>, score: Score, training: Plan, validation: Plan, rows: seq<Row>) {
    && RowsPlanned(records, score, training, validation, rows)
    && Places(training, Training, rows) && Places(validation, Validation, rows)
    && (forall a, b :: 0 <= a < b < |rows| ==> Precedes(rows[a], rows[b]))
  }

  /** What a stratum could use, what it took, what it still lacks, and how much of the first had been seen before. */
  ghost predicate CountsSay(records: seq<Record>, split: Split, quota: nat, plan: Plan, s: nat, counts: Counts) {
    && counts.selected == |plan.Listed(s)| && counts.shortage == Rest(quota, |plan.Listed(s)|)
    && if s == 9 then
         && counts.eligible ==
              |set i | 0 <= i < |records| && (Carries(records, split, 9, i) || Hinted(records, split, i))|
         && counts.observed == 0
       else
         var free := set i | 0 <= i < |records| && Carries(records, split, s, i) && i !in ToSet(plan.Listed(9));
         counts.eligible == |free| && counts.observed == |set i | i in free && records[i].categories != {}|
  }

  /** One split's counters: the background's, then those of the nine materials. */
  ghost predicate CountsFollow(records: seq<Record>, split: Split, quota: nat, plan: Plan, list: seq<(Step, Counts)>) {
    && |list| == 10
    && forall t :: 0 <= t < 10 ==>
         && list[t].0 == Step(split, if t == 0 then 9 else t - 1)
         && CountsSay(records, split, quota, plan, list[t].0.stratum, list[t].1)
  }

  /**
   * A selection: one row for every place of either split's plan, in order, each about its own source, and the counters
   * of training before those of validation.
   */
  ghost predicate SelectedByRule(records: seq<Record>, score: Score, quotas: Quotas, selected: Selected) {
    exists training, validation ::
      && PlanRule(records, score, Training, quotas.training, training)
      && PlanRule(records, score, Validation, quotas.validation, validation)
      && RowsFollow(records, score, training, validation, selected.rows)
      && |selected.counts| == 20
      && CountsFollow(records, Training, quotas.training, training, selected.counts[..10])
      && CountsFollow(records, Validation, quotas.validation, validation, selected.counts[10..])
  }

  // ---- the allocator's plan ----

  function PlanOf(records: seq<Record>, score: Score, split: Split, quota: nat): Plan {
    var background := ChooseBackground(records, score, split, quota, Available(records, split));
    Plan(background, seq(9, m requires 0 <= m < 9 =>
      ChooseMaterial(records, score, split, m, quota, ToSet(background.Chosen()))))
  }

  /** Every choice of the allocator follows its rule. */
  lemma PlanFollowsRule(records: seq<Record>, score: Score, split: Split, quota: nat)
    requires ValidStrata(records) && quota >= 1
    ensures PlanRule(records, score, split, quota, PlanOf(records, score, split, quota))
  {
    var plan := PlanOf(records, score, split, quota);
    BackgroundFollowsRule(records, score, split, quota);
    assert plan.Listed(9) == plan.background.Chosen();
    forall m | 0 <= m < 9
      ensures MaterialRule(records, score, split, m, quota, ToSet(plan.Listed(9)), plan.materials[m])
    {
      MaterialFollowsRule(records, score, split, m, quota, ToSet(plan.Listed(9)));
    }
  }

  lemma PlanLists(records: seq<Record>, score: Score, split: Split, quota: nat, s: nat)
    requires s <= 9
    ensures PlanOf(records, score, split, quota).Listed(s) == ChosenFor(records, score, split, quota, s)
    ensures PlanOf(records, score, split, quota).Anchors(s) == PriorityFor(records, score, split, quota, s)
  {
  }

  // ---- one stratum ----

  lemma RowForSays(record: Record, score: Score, step: Step, rank: nat, anchored: bool)
    requires record.stratum.Some?
    ensures var row := RowFor(record, score, step, rank, anchored);
      && (row.Ok? <==> !Faulty(record, step.stratum))
      && (row.Ok? ==> RowSays(record, score, step.split, step.stratum, rank, anchored, row.value))
  {
  }

  /** Row `k` of a stratum says what its `k`th source and the rank `k + 1` say. */
  lemma {:induction false} RowsOfSay(records: seq<Record>, score: Score, step: Step, chosen: seq<nat>,
                                     priority: seq<nat>, n: nat)
    requires n <= |chosen| && Selectable(records, chosen)
    ensures var rows := RowsOf(records, score, step, chosen, priority, n);
      && (rows.Ok? <==> forall k :: 0 <= k < n ==> !Faulty(records[chosen[k]], step.stratum))
      && (rows.Ok? ==> |rows.value| == n && forall k :: 0 <= k < n ==>
            RowSays(records[chosen[k]], score, step.split, step.stratum, k + 1, chosen[k] in priority, rows.value[k]))
  {
    if n > 0 {
      RowsOfSay(records, score, step, chosen, priority, n - 1);
      RowForSays(records[chosen[n - 1]], score, step, n, chosen[n - 1] in priority);
    }
  }

  /** The rows of one stratum of a plan, one for each place of it. */
  ghost predicate StratumFollows(records: seq<Record>, score: Score, plan: Plan, split: Split, s: nat,
                                 rows: seq<Row>) {
    && |rows| == |plan.Listed(s)|
    && forall k :: 0 <= k < |rows| ==>
         rows[k].split == split && rows[k].stratum == s && rows[k].rank == k + 1 &&
         RowIsPlanned(records, score, plan, rows[k])
  }

  /** No source of one stratum of a plan is faulty. */
  ghost predicate StratumSound(records: seq<Record>, plan: Plan, s: nat) {
    forall i :: i in plan.Listed(s) ==> i < |records| && !Faulty(records[i], s)
  }

  lemma StratumRowsFollow(records: seq<Record>, score: Score, step: Step, quota: nat)
    requires ValidStrata(records) && quota >= 1 && step.stratum <= 9
    ensures var rows := StratumRows(records, score, step, quota);
      var plan := PlanOf(records, score, step.split, quota);
      && (rows.Ok? <==> StratumSound(records, plan, step.stratum))
      && (rows.Ok? ==> StratumFollows(records, score, plan, step.split, step.stratum, rows.value))
  {
    ChosenIsSelectable(records, score, step.split, quota, step.stratum);
    PlanLists(records, score, step.split, quota, step.stratum);
    var chosen := ChosenFor(records, score, step.split, quota, step.stratum);
    RowsOfSay(records, score, step, chosen, PriorityFor(records, score, step.split, quota, step.stratum), |chosen|);
  }

  // ---- one split ----

  /** Rows of distinct places. */
  ghost predicate Apart(rows: seq<Row>) {
    forall a, b :: 0 <= a < b < |rows| ==> Differ(rows[a], rows[b])
  }

  predicate Differ(x: Row, y: Row) {
    x.split != y.split || x.stratum != y.stratum || x.rank != y.rank
  }

  lemma ApartTogether(a: seq<Row>, b: seq<Row>)
    requires Apart(a) && Apart(b) && forall x, y :: x in a && y in b ==> Differ(x, y)
    ensures Apart(a + b)
  {
    forall i, j | 0 <= i < j < |a + b|
      ensures Differ((a + b)[i], (a + b)[j])
    {
      assert (a + b)[i] in (if i < |a| then a else b) && (a + b)[j] in (if j < |a| then a else b);
    }
  }

  /** The rows of the first `t` strata of a plan. */
  ghost predicate PrefixFollows(records: seq<Record>, score: Score, plan: Plan, split: Split, t: nat, rows: seq<Row>) {
    && Apart(rows)
    && (forall row :: row in rows ==>
          row.split == split && RowIsPlanned(records, score, plan, row) && Visited(row.stratum, t))
    && (forall s: nat, n: nat :: s <= 9 && Visited(s, t) && 1 <= n <= |plan.Listed(s)| ==>
          HasPlace(rows, split, s, n))
  }

  /** Background first, then the materials. */
  predicate Visited(s: nat, t: nat) {
    t > 0 && (s == 9 || s + 1 < t)
  }

  lemma PrefixGrows(records: seq<Record>, score: Score, plan: Plan, split: Split, t: nat, before: seq<Row>, s: nat,
                    rows: seq<Row>)
    requires t < 10 && s == StratumAt(t) && PrefixFollows(records, score, plan, split, t, before)
    requires StratumFollows(records, score, plan, split, s, rows)
    ensures PrefixFollows(records, score, plan, split, t + 1, before + rows)
  {
    ApartTogether(before, rows);
    forall u: nat, n: nat | u <= 9 && Visited(u, t + 1) && 1 <= n <= |plan.Listed(u)|
      ensures HasPlace(before + rows, split, u, n)
    {
      if u == s {
        assert (before + rows)[|before| + n - 1] == rows[n - 1];
      } else {
        assert HasPlace(before, split, u, n);
        var k :| 0 <= k < |before| && before[k].split == split && before[k].stratum == u && before[k].rank == n;
        assert (before + rows)[k] == before[k];
      }
    }
  }

  /** No source of the first `t` strata of a plan is faulty. */
  ghost predicate Sound(records: seq<Record>, plan: Plan, t: nat) {
    forall s: nat :: s <= 9 && Visited(s, t) ==> StratumSound(records, plan, s)
  }

  ghost predicate AllSound(records: seq<Record>, plan: Plan) {
    forall s: nat :: s <= 9 ==> StratumSound(records, plan, s)
  }

  lemma AllVisited(records: seq<Record>, plan: Plan)
    ensures Sound(records, plan, 10) <==> AllSound(records, plan)
  {
    assert forall s: nat :: s <= 9 ==> Visited(s, 10);
  }

  lemma SoundGrows(records: seq<Record>, plan: Plan, t: nat, s: nat)
    requires t < 10 && s == StratumAt(t)
    ensures Sound(records, plan, t + 1) <==> (Sound(records, plan, t) && StratumSound(records, plan, s))
  {
    forall u: nat | u <= 9
      ensures Visited(u, t + 1) <==> (u == s || Visited(u, t))
    {
    }
  }

  /** The first `t` strata collect to the rows of the plan, or stop at a faulty source. */
  ghost predicate Collects(records: seq<Record>, score: Score, plan: Plan, split: Split,
                           rows: Result<seq<Row>, SelectionError>, t: nat)
  {
    && (rows.Ok? <==> Sound(records, plan, t))
    && (rows.Ok? ==> PrefixFollows(records, score, plan, split, t, rows.value))
  }

  lemma {:induction false} CollectStep(records: seq<Record>, score: Score, plan: Plan, split: Split,
                                       strata: seq<Result<seq<Row>, SelectionError>>, t: nat)
    requires t < 10 == |strata| && Collects(records, score, plan, split, Collect(strata, t), t)
    requires strata[t].Ok? <==> StratumSound(records, plan, StratumAt(t))
    requires strata[t].Ok? ==> StratumFollows(records, score, plan, split, StratumAt(t), strata[t].value)
    ensures Collects(records, score, plan, split, Collect(strata, t + 1), t + 1)
  {
    SoundGrows(records, plan, t, StratumAt(t));
    if Collect(strata, t + 1).Ok? {
      PrefixGrows(records, score, plan, split, t, Collect(strata, t).value, StratumAt(t), strata[t].value);
    }
  }

  lemma {:induction false} CollectFollows(records: seq<Record>, score: Score, split: Split, quota: nat, t: nat)
    requires ValidStrata(records) && quota >= 1 && t <= 10
    ensures Collects(records, score, PlanOf(records, score, split, quota), split,
                     Collect(SplitStrata(records, score, split, quota), t), t)
  {
    if t > 0 {
      var strata, s := SplitStrata(records, score, split, quota), StratumAt(t - 1);
      CollectFollows(records, score, split, quota, t - 1);
      StratumRowsFollow(records, score, Step(split, s), quota);
      assert strata[t - 1] == StratumRows(records, score, Step(split, s), quota);
      CollectStep(records, score, PlanOf(records, score, split, quota), split, strata, t - 1);
    }
  }

  // ---- both splits ----

  /** Sorting rows of distinct places puts them in order. */
  lemma {:induction false} SortedPrecede(rows: seq<Row>)
    requires Apart(rows)
    ensures var sorted := Sort(rows, RowLe);
      (forall row :: row in sorted <==> row in rows) &&
      forall a, b :: 0 <= a < b < |sorted| ==> Precedes(sorted[a], sorted[b])
  {
    var sorted := Sort(rows, RowLe);
    SortMembers(rows, RowLe);
    SortAscends(rows, RowLe);
    SortDistinct(rows, RowLe);
    forall a, b | 0 <= a < b < |sorted|
      ensures Precedes(sorted[a], sorted[b])
    {
      assert sorted[a] in rows && sorted[b] in rows && RowLe(sorted[a], sorted[b]);
    }
  }

  lemma PlacesKept(plan: Plan, split: Split, rows: seq<Row>, more: seq<Row>)
    requires Places(plan, split, rows) && forall row :: row in rows ==> row in more
    ensures Places(plan, split, more)
  {
    forall s: nat, n: nat | s <= 9 && 1 <= n <= |plan.Listed(s)|
      ensures HasPlace(more, split, s, n)
    {
      assert HasPlace(rows, split, s, n);
      var k :| 0 <= k < |rows| && rows[k].split == split && rows[k].stratum == s && rows[k].rank == n;
      assert rows[k] in more;
    }
  }

  lemma PlannedTogether(records: seq<Record>, score: Score, training: Plan, validation: Plan, a: seq<Row>,
                        b: seq<Row>)
    requires PrefixFollows(records, score, training, Training, 10, a)
    requires PrefixFollows(records, score, validation, Validation, 10, b)
    ensures Apart(a + b) && RowsPlanned(records, score, training, validation, a + b)
    ensures Places(training, Training, a) && Places(validation, Validation, b)
  {
    ApartTogether(a, b);
  }

  lemma {:induction false} BothFollow(records: seq<Record>, score: Score, training: Plan, validation: Plan, a: seq<Row>,
                                      b: seq<Row>)
    requires PrefixFollows(records, score, training, Training, 10, a)
    requires PrefixFollows(records, score, validation, Validation, 10, b)
    ensures RowsFollow(records, score, training, validation, Sort(a + b, RowLe))
  {
    var sorted := Sort(a + b, RowLe);
    PlannedTogether(records, score, training, validation, a, b);
    SortedPrecede(a + b);
    assert RowsPlanned(records, score, training, validation, sorted);
    forall row | row in a || row in b
      ensures row in sorted
    {
      assert row in a + b;
    }
    PlacesKept(training, Training, a, sorted);
    PlacesKept(validation, Validation, b, sorted);
  }

  // ---- the counters ----

  lemma {:induction false} FilterSize(s: seq<nat>, p: nat -> bool)
    requires Distinct(s)
    ensures |Filter(s, p)| == |set i | i in s && p(i)|
  {
    FilterSpec(s, p);
    SizeOfDistinct(Filter(s, p));
    assert ToSet(Filter(s, p)) == set i | i in s && p(i);
  }

  /** How many sources could serve a material, and how many of those had been seen before. */
  lemma CandidateCounts(records: seq<Record>, score: Score, split: Split, m: nat, taken: set<nat>)
    requires m < 9
    ensures var candidates: seq<nat> := Candidates(records, score, split, m, taken);
      var free := set i | 0 <= i < |records| && Carries(records, split, m, i) && i !in taken;
      && |candidates| == |free|
      && |Filter<nat>(candidates, IsObserved(records))| == |set i | i in free && records[i].categories != {}|
  {
    FreeAre(records, score, split, m, taken);
    var candidates: seq<nat> := Candidates(records, score, split, m, taken);
    var free := set i | 0 <= i < |records| && Carries(records, split, m, i) && i !in taken;
    FilterSize(candidates, IsObserved(records));
    assert forall i: nat :: i in candidates <==> i in ToSet(candidates);
    assert (set i | i in candidates && IsObserved(records)(i)) == set i | i in free && records[i].categories != {};
  }

  lemma BackgroundCounts(records: seq<Record>, score: Score, split: Split)
    ensures |Candidates(records, score, split, 9, {})| ==
      |set i | 0 <= i < |records| && (Carries(records, split, 9, i) || Hinted(records, split, i))|
  {
    BackgroundCandidatesAre(records, score, split);
    var candidates: seq<nat> := Candidates(records, score, split, 9, {});
    SizeOfDistinct(candidates);
    assert forall i: nat :: i in ToSet(candidates) <==> i in candidates;
    assert ToSet(candidates) ==
      set i | 0 <= i < |records| && (Carries(records, split, 9, i) || Hinted(records, split, i));
  }

  lemma CountsForSays(records: seq<Record>, score: Score, split: Split, quota: nat, s: nat)
    requires s <= 9
    ensures CountsSay(records, split, quota, PlanOf(records, score, split, quota), s,
                      CountsFor(records, score, split, quota, s))
  {
    PlanLists(records, score, split, quota, s);
    PlanLists(records, score, split, quota, 9);
    if s == 9 {
      BackgroundCounts(records, score, split);
    } else {
      CandidateCounts(records, score, split, s, ToSet(ChosenFor(records, score, split, quota, 9)));
    }
  }

  /** The counters recorded beside the rows. */
  lemma SplitCountsFollow(records: seq<Record>, score: Score, split: Split, quota: nat)
    ensures CountsFollow(records, split, quota, PlanOf(records, score, split, quota),
                         SplitCounts(records, score, split, quota))
  {
    var list := SplitCounts(records, score, split, quota);
    forall t | 0 <= t < 10
      ensures list[t].0 == Step(split, if t == 0 then 9 else t - 1)
      ensures CountsSay(records, split, quota, PlanOf(records, score, split, quota), list[t].0.stratum, list[t].1)
    {
      CountsForSays(records, score, split, quota, if t == 0 then 9 else t - 1);
    }
  }

  // ---- the whole selection ----

  /** The counters of both splits. */
  function CountsOf(records: seq<Record>, score: Score, quotas: Quotas): seq<(Step, Counts)> {
    SplitCounts(records, score, Training, quotas.training) + SplitCounts(records, score, Validation, quotas.validation)
  }

  lemma RulesTogether(records: seq<Record>, score: Score, quotas: Quotas, training: Plan, validation: Plan,
                      rows: seq<Row>, a: seq<(Step, Counts)>, b: seq<(Step, Counts)>)
    requires PlanRule(records, score, Training, quotas.training, training)
    requires PlanRule(records, score, Validation, quotas.validation, validation)
    requires RowsFollow(records, score, training, validation, rows)
    requires CountsFollow(records, Training, quotas.training, training, a)
    requires CountsFollow(records, Validation, quotas.validation, validation, b)
    ensures SelectedByRule(records, score, quotas, Selected(rows, a + b))
  {
    assert (a + b)[..10] == a && (a + b)[10..] == b;
  }

  /** With valid strata and both splits' rows there, the selection follows the rule. */
  lemma SelectionFollows(records: seq<Record>, score: Score, quotas: Quotas)
    requires quotas.training >= 1 && quotas.validation >= 1 && SelectionOf(records, score, quotas).Ok?
    ensures SelectedByRule(records, score, quotas,
                           Selected(SelectionOf(records, score, quotas).value, CountsOf(records, score, quotas)))
  {
    var training, validation := PlanOf(records, score, Training, quotas.training),
                                PlanOf(records, score, Validation, quotas.validation);
    CollectFollows(records, score, Training, quotas.training, 10);
    CollectFollows(records, score, Validation, quotas.validation, 10);
    PlanFollowsRule(records, score, Training, quotas.training);
    PlanFollowsRule(records, score, Validation, quotas.validation);
    SplitCountsFollow(records, score, Training, quotas.training);
    SplitCountsFollow(records, score, Validation, quotas.validation);
    BothFollow(records, score, training, validation, SplitRows(records, score, Training, quotas.training).value,
               SplitRows(records, score, Validation, quotas.validation).value);
    RulesTogether(records, score, quotas, training, validation, SelectionOf(records, score, quotas).value,
                  SplitCounts(records, score, Training, quotas.training),
                  SplitCounts(records, score, Validation, quotas.validation));
  }

  /** A selection succeeds exactly when strata are valid and no source of either plan is faulty. */
  lemma SucceedsExactlyWhen(records: seq<Record>, score: Score, quotas: Quotas)
    requires quotas.training >= 1 && quotas.validation >= 1
    ensures SelectionOf(records, score, quotas).Ok? <==>
      (&& ValidStrata(records)
       && AllSound(records, PlanOf(records, score, Training, quotas.training))
       && AllSound(records, PlanOf(records, score, Validation, quotas.validation)))
  {
    if ValidStrata(records) {
      AllVisited(records, PlanOf(records, score, Training, quotas.training));
      AllVisited(records, PlanOf(records, score, Validation, quotas.validation));
      CollectFollows(records, score, Training, quotas.training, 10);
      CollectFollows(records, score, Validation, quotas.validation, 10);
    }
  }

  /** `_selection_rows`: pools, then both splits, then the final ordering. */
  method SelectionRows(records: seq<Record>, score: Score, quotas: Quotas) returns (r: Result<Selected, SelectionError>)
    requires quotas.training >= 1 && quotas.validation >= 1
    ensures r.Ok? ==> SelectionOf(records, score, quotas) == Ok(r.value.rows)
    ensures r.Ok? ==> r.value.counts == CountsOf(records, score, quotas)
    ensures r.Ok? ==> SelectedByRule(records, score, quotas, r.value)
    ensures r.Ok? <==>
      (&& ValidStrata(records)
       && AllSound(records, PlanOf(records, score, Training, quotas.training))
       && AllSound(records, PlanOf(records, score, Validation, quotas.validation)))
    ensures r.Err? ==> SelectionOf(records, score, quotas) == Err(r.error)
  {
    SucceedsExactlyWhen(records, score, quotas);
    if SelectionOf(records, score, quotas).Ok? {
      SelectionFollows(records, score, quotas);
    }
    var pools := FillPools(records);
    if pools.Err? {
      return Err(pools.error);
    }
    var training := SelectSplit(records, score, pools.value, Training, quotas.training);
    if training.Err? {
      return training;
    }
    var validation := SelectSplit(records, score, pools.value, Validation, quotas.validation);
    if validation.Err? {
      return validation;
    }
    r := Ok(Selected(Sort(training.value.rows + validation.value.rows, RowLe),
                     training.value.counts + validation.value.counts));
  }
}
