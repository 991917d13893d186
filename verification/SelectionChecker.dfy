/** The independent re-check of selected rows, and the proof that every selection passes it. */
module SelectionChecker {
  import opened Order
  import opened PilotSources
  import opened Allocation
  import opened Feasibility
  import opened Selection
  import opened SelectionRule
  import opened Wrappers

  /** What one row must say about itself. */
  predicate RowOk(row: Row) {
    && row.selectionStratum <= BACKGROUND && row.stratum == row.selectionStratum
    && row.currentStratum <= BACKGROUND
    && if row.probe then
         && row.selectionStratum == BACKGROUND && row.currentStratum != BACKGROUND
         && !row.explicitEmpty && row.cohort == HistoricalProbe
         && BACKGROUND in row.categories && row.gtClass.Some? && row.gtBox.Some?
       else
         && row.cohort == CurrentGroundTruth && row.selectionStratum == row.currentStratum
         && row.explicitEmpty == (row.currentStratum == BACKGROUND)
         && (if row.currentStratum == BACKGROUND then row.reason == ExplicitEmptyLabel
             else if row.reason == AnchorPriority then row.anchor
             else if row.categories != {} then row.reason == ObservedByScore
             else row.reason == ByScore)
  }

  ghost predicate UniqueRows(rows: seq<Row>) {
    forall i, j :: 0 <= i < j < |rows| ==> rows[i].path != rows[j].path && rows[i].sha != rows[j].sha
  }

  ghost predicate SemanticsOk(rows: seq<Row>) {
    UniqueRows(rows) && forall row :: row in rows ==> RowOk(row)
  }

  /** `_verify_selected_semantics` */
  method VerifySelectedSemantics(rows: seq<Row>) returns (ok: bool)
    ensures ok <==> SemanticsOk(rows)
  {
    var paths: set<Path> := {};
    var hashes: set<Digest> := {};
    for k := 0 to |rows|
      invariant paths == set i | 0 <= i < k :: rows[i].path
      invariant hashes == set i | 0 <= i < k :: rows[i].sha
      invariant SemanticsOk(rows[..k])
    {
      var row := rows[k];
      if row.path in paths || row.sha in hashes || !RowOk(row) {
        assert row in rows;
        return false;
      }
      paths, hashes := paths + {row.path}, hashes + {row.sha};
      assert rows[..k + 1] == rows[..k] + [row];
    }
    assert rows[..|rows|] == rows;
    ok := true;
  }

  // ---- selected rows pass ----

  /** What scanning establishes: eligible sources are labelled, and one path has one content. */
  ghost predicate WellScanned(records: seq<Record>) {
    && (forall i :: 0 <= i < |records| && records[i].Eligible() ==> WellLabelled(records[i]))
    && (forall i, j :: 0 <= i < |records| && 0 <= j < |records| && records[i].path == records[j].path
          ==> records[i].sha == records[j].sha)
  }

  predicate WellLabelled(r: Record) {
    && r.labelFile.Some? && r.stratum.Some? && r.stratum.value <= BACKGROUND
    && (r.stratum.value != BACKGROUND ==> r.gtClass.Some? && r.gtBox.Some?)
  }

  /** Rows and the sources they came from. */
  ghost predicate RowsFrom(records: seq<Record>, rows: seq<Row>, picks: seq<nat>) {
    && |rows| == |picks|
    && (forall k :: 0 <= k < |rows| ==>
          && picks[k] < |records| && records[picks[k]].Eligible() && RowOk(rows[k])
          && rows[k].path == records[picks[k]].path && rows[k].sha == records[picks[k]].sha)
  }

  lemma RowPasses(record: Record, score: Score, step: Step, rank: nat, priority: bool)
    requires WellLabelled(record) && Usable(record, step.split, step.stratum) && step.stratum <= BACKGROUND
    requires priority ==> record.anchor
    ensures var row := RowFor(record, score, step, rank, priority);
      row.Ok? && RowOk(row.value) && row.value.path == record.path && row.value.sha == record.sha
  {
  }

  lemma {:induction false} RowsPass(records: seq<Record>, score: Score, step: Step, chosen: seq<nat>,
                                    priority: seq<nat>, n: nat)
    requires n <= |chosen| && Selectable(records, chosen) && step.stratum <= BACKGROUND
    requires forall k :: 0 <= k < |chosen| ==>
      chosen[k] < |records| && WellLabelled(records[chosen[k]]) && Usable(records[chosen[k]], step.split, step.stratum)
    requires forall i :: i in priority && i < |records| ==> records[i].anchor
    ensures var rows := RowsOf(records, score, step, chosen, priority, n);
      rows.Ok? && RowsFrom(records, rows.value, chosen[..n])
  {
    if n > 0 {
      RowsPass(records, score, step, chosen, priority, n - 1);
      RowPasses(records[chosen[n - 1]], score, step, n, chosen[n - 1] in priority);
      assert chosen[..n] == chosen[..n - 1] + [chosen[n - 1]];
    }
  }

  lemma PriorityIsAnchored(records: seq<Record>, score: Score, split: Split, quota: nat, s: nat)
    requires ValidStrata(records) && quota >= 1
    ensures forall i :: i in PriorityFor(records, score, split, quota, s) ==> IsAnchor(records)(i)
  {
    BackgroundChoice(records, score, split, quota);
    if s != BACKGROUND {
      MaterialChoice(records, score, split, s, quota, ReservedFor(records, score, split, quota, s));
    }
  }

  lemma {:induction false} RowsPassAll(records: seq<Record>, score: Score, step: Step, chosen: seq<nat>,
                                       priority: seq<nat>)
    requires WellScanned(records) && step.stratum <= BACKGROUND && Selectable(records, chosen)
    requires forall i :: i in chosen ==> i < |records| && Usable(records[i], step.split, step.stratum)
    requires forall i :: i in priority ==> IsAnchor(records)(i)
    ensures var rows := RowsOf(records, score, step, chosen, priority, |chosen|);
      rows.Ok? && RowsFrom(records, rows.value, chosen)
  {
    RowsPass(records, score, step, chosen, priority, |chosen|);
    assert chosen[..|chosen|] == chosen;
  }

  lemma StratumPasses(records: seq<Record>, score: Score, step: Step, quota: nat)
    requires WellScanned(records) && ValidStrata(records) && quota >= 1 && step.stratum <= BACKGROUND
    ensures var rows := StratumRows(records, score, step, quota);
      rows.Ok? && RowsFrom(records, rows.value, ChosenFor(records, score, step.split, quota, step.stratum))
  {
    ChosenIsSelectable(records, score, step.split, quota, step.stratum);
    ChosenStratum(records, score, step.split, quota, step.stratum);
    PriorityIsAnchored(records, score, step.split, quota, step.stratum);
    RowsPassAll(records, score, step, ChosenFor(records, score, step.split, quota, step.stratum),
                PriorityFor(records, score, step.split, quota, step.stratum));
  }

  /** The sources of the first `t` strata, in the order their rows are emitted. */
  ghost function Picks(lists: seq<seq<nat>>, t: nat): seq<nat>
    requires t <= STRATA == |lists|
  {
    if t == 0 then [] else Picks(lists, t - 1) + lists[StratumAt(t - 1)]
  }

  lemma RowsFromConcat(records: seq<Record>, a: seq<Row>, b: seq<Row>, p: seq<nat>, q: seq<nat>)
    requires RowsFrom(records, a, p) && RowsFrom(records, b, q)
    ensures RowsFrom(records, a + b, p + q)
  {
  }

  /** The rows collected so far are about the sources picked so far. */
  lemma {:induction false} RowsCollect(records: seq<Record>, strata: seq<Result<seq<Row>, SelectionError>>,
                                       lists: seq<seq<nat>>, t: nat)
    requires |strata| == |lists| == STRATA && t <= STRATA
    requires forall k :: 0 <= k < STRATA ==> strata[k].Ok? && RowsFrom(records, strata[k].value, lists[StratumAt(k)])
    ensures Collect(strata, t).Ok? && RowsFrom(records, Collect(strata, t).value, Picks(lists, t))
  {
    if t > 0 {
      RowsCollect(records, strata, lists, t - 1);
      RowsFromConcat(records, Collect(strata, t - 1).value, strata[t - 1].value, Picks(lists, t - 1),
                     lists[StratumAt(t - 1)]);
    }
  }

  /** No source is picked twice, and all belong to the split. */
  lemma {:induction false} PicksReserved(records: seq<Record>, lists: seq<seq<nat>>, split: Split, sets: seq<set<nat>>,
                                         t: nat)
    requires |lists| == STRATA && t <= STRATA && Assigns(records, split, sets)
    requires forall s :: 0 <= s < STRATA ==> Distinct(lists[s]) && sets[s] == ToSet(lists[s])
    ensures Distinct(Picks(lists, t)) && ToSet(Picks(lists, t)) == ReservedUpTo(sets, t)
    ensures forall i :: i in Picks(lists, t) ==> i < |records| && records[i].split == split
  {
    if t > 0 {
      PicksReserved(records, lists, split, sets, t - 1);
      var s := StratumAt(t - 1);
      StratumIsNew(records, split, sets, t);
      PicksGrow(records, split, Picks(lists, t - 1), lists[s], ReservedUpTo(sets, t - 1), sets[s]);
    }
  }

  lemma PicksGrow(records: seq<Record>, split: Split, picks: seq<nat>, chosen: seq<nat>, reserved: set<nat>,
                  added: set<nat>)
    requires Distinct(picks) && Distinct(chosen) && ToSet(picks) == reserved && ToSet(chosen) == added &&
      reserved !! added
    requires forall i :: i in picks ==> i < |records| && records[i].split == split
    requires forall i :: i in added ==> i < |records| && records[i].split == split
    ensures Distinct(picks + chosen) && ToSet(picks + chosen) == reserved + added
    ensures forall i :: i in picks + chosen ==> i < |records| && records[i].split == split
  {
    DistinctConcat(picks, chosen);
    forall i | i in picks + chosen
      ensures i < |records| && records[i].split == split
    {
      assert i in picks || i in added;
    }
  }

  /** The next stratum has taken nothing that an earlier one took. */
  lemma StratumIsNew(records: seq<Record>, split: Split, sets: seq<set<nat>>, t: nat)
    requires 0 < t <= STRATA && Assigns(records, split, sets)
    ensures ReservedUpTo(sets, t - 1) !! sets[StratumAt(t - 1)]
  {
    var s, earlier := StratumAt(t - 1), ReservedUpTo(sets, t - 1);
    forall i | i in earlier
      ensures i !in sets[s]
    {
      ReservedMembers(sets, t - 1, i);
      assert s == BACKGROUND ==> t == 1;
    }
  }

  lemma SplitMeetsChecker(records: seq<Record>, score: Score, split: Split, quota: nat) returns (picks: seq<nat>)
    requires WellScanned(records) && ValidStrata(records) && quota >= 1
    ensures SplitRows(records, score, split, quota).Ok?
    ensures RowsFrom(records, SplitRows(records, score, split, quota).value, picks)
    ensures Distinct(picks) && forall i :: i in picks ==> i < |records| && records[i].split == split
  {
    var lists := seq(STRATA, s requires 0 <= s < STRATA => ChosenFor(records, score, split, quota, s));
    var sets := ChosenSets(records, score, split, quota);
    ChosenAssigns(records, score, split, quota);
    var strata := SplitStrata(records, score, split, quota);
    forall s | 0 <= s < STRATA
      ensures Distinct(lists[s]) && sets[s] == ToSet(lists[s])
    {
      ChosenStratum(records, score, split, quota, s);
    }
    forall k | 0 <= k < STRATA
      ensures strata[k].Ok? && RowsFrom(records, strata[k].value, lists[StratumAt(k)])
    {
      StratumPasses(records, score, Step(split, StratumAt(k)), quota);
    }
    RowsCollect(records, strata, lists, STRATA);
    PicksReserved(records, lists, split, sets, STRATA);
    picks := Picks(lists, STRATA);
  }

  lemma RowsAreUnique(records: seq<Record>, rows: seq<Row>, picks: seq<nat>)
    requires WellScanned(records) && RowsFrom(records, rows, picks) && Distinct(picks) && OneCopyEach(records)
    ensures SemanticsOk(rows)
  {
    forall i, j | 0 <= i < j < |rows|
      ensures rows[i].path != rows[j].path && rows[i].sha != rows[j].sha
    {
      assert picks[i] < picks[j] || picks[j] < picks[i];
    }
  }

  lemma {:induction false} SortKeepsSemantics(rows: seq<Row>)
    requires SemanticsOk(rows)
    ensures SemanticsOk(Sort(rows, RowLe))
  {
    var sorted := Sort(rows, RowLe);
    SortMembers(rows, RowLe);
    SortDistinct(rows, RowLe);
    forall i, j | 0 <= i < j < |sorted|
      ensures sorted[i].path != sorted[j].path && sorted[i].sha != sorted[j].sha
    {
      assert sorted[i] in rows && sorted[j] in rows;
      var x :| 0 <= x < |rows| && rows[x] == sorted[i];
      var y :| 0 <= y < |rows| && rows[y] == sorted[j];
      assert x < y || y < x;
    }
  }

  ghost predicate OneCopyEach(records: seq<Record>) {
    forall i, j :: 0 <= i < j < |records| && records[i].Eligible() && records[j].Eligible() ==>
      records[i].sha != records[j].sha
  }

  lemma {:induction false} BothSplitsMeetChecker(records: seq<Record>, training: seq<Row>, validation: seq<Row>,
                                                 a: seq<nat>, b: seq<nat>)
    requires WellScanned(records) && OneCopyEach(records)
    requires RowsFrom(records, training, a) && RowsFrom(records, validation, b) && Distinct(a) && Distinct(b)
    requires forall i :: i in a ==> i < |records| && records[i].split == Training
    requires forall i :: i in b ==> i < |records| && records[i].split == Validation
    ensures SemanticsOk(Sort(training + validation, RowLe))
  {
    DistinctConcat(a, b);
    RowsAreUnique(records, training + validation, a + b);
    SortKeepsSemantics(training + validation);
  }

  /** Every selection from prepared, well-scanned records succeeds and passes the re-check. */
  lemma SelectionMeetsChecker(scanned: seq<Record>, exclusions: Exclusions, history: History, anchors: set<Digest>,
                              score: Score, quotas: Quotas, records: seq<Record>)
    requires WellScanned(scanned) && quotas.training >= 1 && quotas.validation >= 1
    requires records == Prepared(scanned, exclusions, history, anchors)
    ensures SelectionOf(records, score, quotas).Ok? && SemanticsOk(SelectionOf(records, score, quotas).value)
  {
    PreparedIsWellScanned(scanned, exclusions, history, anchors);
    CleanSelectionMeetsChecker(records, score, quotas);
  }

  lemma CleanSelectionMeetsChecker(records: seq<Record>, score: Score, quotas: Quotas)
    requires WellScanned(records) && ValidStrata(records) && OneCopyEach(records)
    requires quotas.training >= 1 && quotas.validation >= 1
    ensures SelectionOf(records, score, quotas).Ok? && SemanticsOk(SelectionOf(records, score, quotas).value)
  {
    var a := SplitMeetsChecker(records, score, Training, quotas.training);
    var b := SplitMeetsChecker(records, score, Validation, quotas.validation);
    BothSplitsMeetChecker(records, SplitRows(records, score, Training, quotas.training).value,
                          SplitRows(records, score, Validation, quotas.validation).value, a, b);
  }

  lemma PreparedIsWellScanned(scanned: seq<Record>, exclusions: Exclusions, history: History, anchors: set<Digest>)
    requires WellScanned(scanned)
    ensures var records := Prepared(scanned, exclusions, history, anchors);
      WellScanned(records) && ValidStrata(records) && OneCopyEach(records)
  {
    var records := Prepared(scanned, exclusions, history, anchors);
    forall i | 0 <= i < |records|
      ensures records[i].path == scanned[i].path && records[i].sha == scanned[i].sha
      ensures records[i].Eligible() ==> WellLabelled(records[i])
    {
      QuarantineOnlyAdds(scanned, i);
    }
    forall i, j | 0 <= i < j < |records| && records[i].Eligible() && records[j].Eligible()
      ensures records[i].sha != records[j].sha
    {
      PreparedIsClean(scanned, exclusions, history, anchors, i, j);
    }
  }

  /** Row `k` of a stratum is about the `k`th chosen source, ranked from one, under the stratum's own score. */
  lemma {:induction false} RowsDescribeChoice(records: seq<Record>, score: Score, step: Step, chosen: seq<nat>,
                                              priority: seq<nat>, n: nat, k: nat)
    requires k < n <= |chosen| && Selectable(records, chosen)
    requires RowsOf(records, score, step, chosen, priority, n).Ok?
    ensures var rows := RowsOf(records, score, step, chosen, priority, n).value;
      var source := records[chosen[k]];
      && |rows| == n
      && rows[k].rank == k + 1 && rows[k].split == step.split && rows[k].stratum == step.stratum
      && rows[k].path == source.path && rows[k].sha == source.sha && Some(rows[k].labelFile) == source.labelFile
      && rows[k].score == score(step.split, step.stratum, source.sha)
      && Some(rows[k].currentStratum) == source.stratum && rows[k].anchor == source.anchor
      && rows[k].gtClass == source.gtClass && rows[k].gtBox == source.gtBox && rows[k].categories == source.categories
  {
    if k < n - 1 {
      RowsDescribeChoice(records, score, step, chosen, priority, n - 1, k);
    }
    RowCount(records, score, step, chosen, priority, n - 1);
  }

  lemma {:induction false} RowCount(records: seq<Record>, score: Score, step: Step, chosen: seq<nat>,
                                    priority: seq<nat>, n: nat)
    requires n <= |chosen| && Selectable(records, chosen) && RowsOf(records, score, step, chosen, priority, n).Ok?
    ensures |RowsOf(records, score, step, chosen, priority, n).value| == n
  {
    if n > 0 {
      RowCount(records, score, step, chosen, priority, n - 1);
    }
  }

  lemma {:induction false} RowsAscend(rows: seq<Row>)
    ensures Ascending(Sort(rows, RowLe), RowLe)
  {
    SortAscends(rows, RowLe);
  }

  /** The rows come out training first, then by stratum, rank and path. */
  lemma SelectionIsOrdered(records: seq<Record>, score: Score, quotas: Quotas)
    requires quotas.training >= 1 && quotas.validation >= 1 && SelectionOf(records, score, quotas).Ok?
    ensures Ascending(SelectionOf(records, score, quotas).value, RowLe)
  {
    RowsAscend(SplitRows(records, score, Training, quotas.training).value +
               SplitRows(records, score, Validation, quotas.validation).value);
  }

  // ---- the whole build ----

  datatype BuildResult =
    | Built(rows: seq<Row>)
    | UnknownExclusion
    | SelectionFailed(error: SelectionError)
    | QuotaShortage
    | CheckFailed

  method Snapshot(scanned: seq<ScannedSource>) returns (records: seq<Record>)
    ensures records == Snaps(scanned)
  {
    records := [];
    for k := 0 to |scanned|
      invariant |records| == k && forall i :: 0 <= i < k ==> records[i] == scanned[i].Snap()
    {
      records := records + [scanned[k].Snap()];
    }
  }

  ghost predicate NoneShort(counts: seq<(Step, Counts)>) {
    forall k :: 0 <= k < |counts| ==> counts[k].1.shortage == 0
  }

  /** `any(shortages.values())` */
  method AnyShortage(counts: seq<(Step, Counts)>) returns (short: bool)
    ensures short <==> !NoneShort(counts)
  {
    for k := 0 to |counts|
      invariant forall i :: 0 <= i < k ==> counts[i].1.shortage == 0
    {
      if counts[k].1.shortage > 0 {
        return true;
      }
    }
    short := false;
  }

  lemma NoneShortConcat(a: seq<(Step, Counts)>, b: seq<(Step, Counts)>)
    ensures NoneShort(a + b) <==> NoneShort(a) && NoneShort(b)
  {
    assert forall k :: 0 <= k < |a| ==> (a + b)[k] == a[k];
    assert forall k :: 0 <= k < |b| ==> (a + b)[|a| + k] == b[k];
  }

  lemma SplitShortages(records: seq<Record>, score: Score, split: Split, quota: nat)
    requires ValidStrata(records) && quota >= 1
    ensures NoneShort(SplitCounts(records, score, split, quota)) <==> Feasible(records, split, quota)
  {
    var counts := SplitCounts(records, score, split, quota);
    AllocatorIsComplete(records, score, split, quota);
    if NoneShort(counts) {
      forall s | 0 <= s <= BACKGROUND
        ensures Shortage(records, score, split, quota, s) == 0
      {
        var k := if s == BACKGROUND then 0 else s + 1;
        assert StratumAt(k) == s && counts[k].1.shortage == 0;
      }
    }
    if NoShortage(records, score, split, quota) {
      forall k | 0 <= k < STRATA
        ensures counts[k].1.shortage == 0
      {
        assert Shortage(records, score, split, quota, StratumAt(k)) == 0;
      }
    }
  }

  /** Prepare, select, refuse on shortage, re-check: the core of `build_pilot_inputs`. */
  method BuildSelection(scanned: seq<ScannedSource>, exclusions: Exclusions, history: History, anchors: set<Digest>,
                        score: Score, quotas: Quotas) returns (r: BuildResult)
    requires DistinctObjects(scanned) && quotas.training >= 1 && quotas.validation >= 1
    modifies scanned
    ensures r.UnknownExclusion? <==> !AllKnown(old(Snaps(scanned)), exclusions)
    ensures r.Built? ==> SemanticsOk(r.rows) && SelectionOf(Snaps(scanned), score, quotas) == Ok(r.rows)
    ensures r.Built? ==>
      exists counts :: NoneShort(counts) && SelectedByRule(Snaps(scanned), score, quotas, Selected(r.rows, counts))
    ensures WellScanned(old(Snaps(scanned))) ==> !r.SelectionFailed? && !r.CheckFailed?
    ensures !r.UnknownExclusion? ==>
      Snaps(scanned) == Prepared(old(Snaps(scanned)), exclusions, history, anchors)
    ensures WellScanned(old(Snaps(scanned))) && !r.UnknownExclusion? ==>
      (r.Built? <==>
         Feasible(Snaps(scanned), Training, quotas.training) && Feasible(Snaps(scanned), Validation, quotas.validation))
  {
    ghost var before := Snaps(scanned);
    var known := PrepareSources(scanned, exclusions, history, anchors);
    if !known {
      return UnknownExclusion;
    }
    var records := Snapshot(scanned);
    r := SelectAndCheck(records, score, quotas);
    if WellScanned(before) {
      BuildIsComplete(before, exclusions, history, anchors, score, quotas, records);
    }
  }

  lemma BuildIsComplete(scanned: seq<Record>, exclusions: Exclusions, history: History, anchors: set<Digest>,
                        score: Score, quotas: Quotas, records: seq<Record>)
    requires WellScanned(scanned) && quotas.training >= 1 && quotas.validation >= 1
    requires records == Prepared(scanned, exclusions, history, anchors)
    ensures SelectionOf(records, score, quotas).Ok? && SemanticsOk(SelectionOf(records, score, quotas).value)
    ensures NoneShort(SplitCounts(records, score, Training, quotas.training)) <==>
      Feasible(records, Training, quotas.training)
    ensures NoneShort(SplitCounts(records, score, Validation, quotas.validation)) <==>
            Feasible(records, Validation, quotas.validation)
  {
    SelectionMeetsChecker(scanned, exclusions, history, anchors, score, quotas, records);
    PreparedIsWellScanned(scanned, exclusions, history, anchors);
    SplitShortages(records, score, Training, quotas.training);
    SplitShortages(records, score, Validation, quotas.validation);
  }

  method SelectAndCheck(records: seq<Record>, score: Score, quotas: Quotas) returns (r: BuildResult)
    requires quotas.training >= 1 && quotas.validation >= 1
    ensures !r.UnknownExclusion?
    ensures r.SelectionFailed? <==> SelectionOf(records, score, quotas).Err?
    ensures r.Built? ==> SemanticsOk(r.rows) && SelectionOf(records, score, quotas) == Ok(r.rows)
    ensures r.Built? ==>
      exists counts :: NoneShort(counts) && SelectedByRule(records, score, quotas, Selected(r.rows, counts))
    ensures r.CheckFailed? ==>
      SelectionOf(records, score, quotas).Ok? && !SemanticsOk(SelectionOf(records, score, quotas).value)
    ensures (r.Built? || r.CheckFailed?) <==>
      (SelectionOf(records, score, quotas).Ok? && NoneShort(SplitCounts(records, score, Training, quotas.training)) &&
       NoneShort(SplitCounts(records, score, Validation, quotas.validation)))
  {
    var selected := SelectionRows(records, score, quotas);
    if selected.Err? {
      return SelectionFailed(selected.error);
    }
    var short := AnyShortage(selected.value.counts);
    NoneShortConcat(SplitCounts(records, score, Training, quotas.training),
                    SplitCounts(records, score, Validation, quotas.validation));
    if short {
      return QuotaShortage;
    }
    var ok := VerifySelectedSemantics(selected.value.rows);
    r := if ok then Built(selected.value.rows) else CheckFailed;
  }
}
