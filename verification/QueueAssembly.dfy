/** The assembler of quality exclusions: everything it checks of the teacher queue's report, in its own order. */
module QueueAssembly {
  import opened Order
  import opened QueuePartition
  import opened Wrappers

  /**
   * What the assembler knows besides the three files: the audited digests, the digests of the capture inventory (absent
   * where one is not in lower case), the objective exclusions with their paths, and whether a queue with nothing to
   * exclude is covered. `marksUnusable` is the prefix test on a reason; `queueRowOk` and `sourceOk` check a queue
   * line's own fields, and its inventory row, time and image.
   */
  datatype Policy = Policy(
    known: set<Digest>,
    inventory: seq<Option<Digest>>,
    objective: map<Digest, nat>,
    zeroCoverage: bool,
    marksUnusable: Reason -> bool,
    queueRowOk: Line -> bool,
    sourceOk: Line -> bool)

  // ---- rows with an identity of their own ----

  /** Digests in lower case, and no digest and no line number twice. */
  ghost predicate UniqueRows(rows: seq<Line>) {
    && AllPlain(rows)
    && (forall i, j :: 0 <= i < j < |rows| ==> rows[i].sha != rows[j].sha && rows[i].number != rows[j].number)
  }

  /** The row a dictionary keeps for a line number. */
  function LineAt(rows: seq<Line>, number: nat): Option<Line> {
    if rows == [] then None
    else if rows[|rows| - 1].number == number then Some(rows[|rows| - 1])
    else LineAt(rows[..|rows| - 1], number)
  }

  lemma {:induction false} LineAtIsRow(rows: seq<Line>, number: nat)
    ensures LineAt(rows, number).Some? ==>
      LineAt(rows, number).value in rows && LineAt(rows, number).value.number == number
    ensures LineAt(rows, number).None? <==> forall row :: row in rows ==> row.number != number
  {
    if rows != [] {
      LineAtIsRow(rows[..|rows| - 1], number);
      assert rows == rows[..|rows| - 1] + [rows[|rows| - 1]];
    }
  }

  lemma {:induction false} UniqueLine(rows: seq<Line>, row: Line)
    requires UniqueRows(rows) && row in rows
    ensures LineAt(rows, row.number) == Some(row)
  {
    LineAtIsRow(rows, row.number);
  }

  lemma UniqueInit(rows: seq<Line>)
    requires rows != [] && UniqueRows(rows)
    ensures var init, last := rows[..|rows| - 1], rows[|rows| - 1];
      && UniqueRows(init) && Plain(last)
      && (forall row :: row in rows <==> row in init || row == last)
      && (forall row :: row in init ==> row.sha != last.sha)
  {
    var init, last := rows[..|rows| - 1], rows[|rows| - 1];
    assert rows == init + [last];
    forall row | row in init
      ensures row.sha != last.sha
    {
      var k :| 0 <= k < |init| && init[k] == row;
      assert rows[k].sha != rows[|rows| - 1].sha;
    }
  }

  lemma {:induction false} UniqueRow(rows: seq<Line>, row: Line)
    requires UniqueRows(rows) && row in rows
    ensures RowsWith(rows, row.sha.value) == [row] && LastOf(rows, row.sha.value) == Some(row)
  {
    UniqueInit(rows);
    var init, last := rows[..|rows| - 1], rows[|rows| - 1];
    if row == last {
      NoRows(init, row.sha.value);
    } else {
      UniqueRow(init, row);
    }
  }

  lemma {:induction false} UniqueShas(rows: seq<Line>, sha: Digest)
    requires UniqueRows(rows)
    ensures |RowsWith(rows, sha)| <= 1 && (sha in ShasOf(rows) <==> |RowsWith(rows, sha)| == 1)
    ensures sha in ShasOf(rows) ==>
      RowsWith(rows, sha)[0] in rows && RowsWith(rows, sha)[0].sha == Some(sha) &&
      LastOf(rows, sha) == Some(RowsWith(rows, sha)[0])
  {
    if sha in ShasOf(rows) {
      var row :| row in rows && row.sha == Some(sha);
      UniqueRow(rows, row);
    } else {
      NoRows(rows, sha);
    }
  }

  /** `_index_unique_rows`, by line number. */
  method IndexUniqueRows(rows: seq<Line>) returns (r: Option<map<nat, Line>>)
    ensures r.Some? <==> UniqueRows(rows)
    ensures r.Some? ==> forall n :: LineAt(rows, n) == if n in r.value then Some(r.value[n]) else None
  {
    var byLine: map<nat, Line>, shas: set<Digest> := map[], {};
    for n := 0 to |rows|
      invariant UniqueRows(rows[..n]) && shas == ShasOf(rows[..n])
      invariant forall k :: LineAt(rows[..n], k) == if k in byLine then Some(byLine[k]) else None
    {
      var row := rows[n];
      assert rows[..n + 1] == rows[..n] + [row] && rows[..n + 1][..n] == rows[..n];
      UniqueNext(rows, n);
      LineAtIsRow(rows[..n], row.number);
      if row.number in byLine || !Plain(row) || row.sha.value in shas {
        return None;
      }
      byLine, shas := byLine[row.number := row], shas + {row.sha.value};
      assert shas == ShasOf(rows[..n + 1]);
    }
    assert rows[..|rows|] == rows;
    r := Some(byLine);
  }

  /** One more row: the rows stay unique exactly when it is plain and repeats nothing. */
  lemma UniqueNext(rows: seq<Line>, n: nat)
    requires n < |rows| && UniqueRows(rows[..n])
    ensures var row := rows[n];
      UniqueRows(rows[..n + 1]) <==>
        Plain(row) && row.sha.value !in ShasOf(rows[..n]) && forall k :: 0 <= k < n ==> rows[k].number != row.number
    ensures !UniqueRows(rows[..n + 1]) ==> !UniqueRows(rows)
  {
    var row := rows[n];
    assert rows[..n + 1] == rows[..n] + [row];
  }

  // ---- one rejection that records a decision ----

  ghost predicate InventoryUnique(inventory: seq<Option<Digest>>) {
    (forall k :: 0 <= k < |inventory| ==> inventory[k].Some?) && Distinct(inventory)
  }

  /** The inventory by digest: every row has one, and none occurs twice. */
  method IndexInventory(inventory: seq<Option<Digest>>) returns (ok: bool)
    ensures ok <==> InventoryUnique(inventory)
  {
    var seen: set<Digest> := {};
    for n := 0 to |inventory|
      invariant InventoryUnique(inventory[..n])
      invariant forall sha :: sha in seen <==> Some(sha) in inventory[..n]
    {
      var row := inventory[n];
      assert inventory[..n + 1] == inventory[..n] + [row] && row in inventory;
      if row.None? {
        return false;
      }
      if row.value in seen {
        ghost var k :| 0 <= k < n && inventory[..n][k] == row;
        assert inventory[k] == inventory[n];
        return false;
      }
      seen := seen + {row.value};
    }
    assert inventory[..|inventory|] == inventory;
    ok := true;
  }

  /** What the row loop demands of a rejection with a recorded decision, given the two lines it names. */
  predicate RecordedOk(policy: Policy, checks: Checks, x: Rejection, line: Line, answer: Line)
    requires x.quality.Some?
  {
    var quality := x.quality.value;
    && x.sha.Some? && quality < QUALITIES
    && (if quality == USABLE then forall reason :: reason in x.reasons ==> !policy.marksUnusable(reason)
        else x.reasons == [checks.unusable(quality)])
    && x.sha.value !in policy.known
    && line.sha == x.sha && answer.sha == x.sha && policy.queueRowOk(line)
    && answer.inputSha == x.sha && answer.inputLower && answer.imageRef == line.imageRef
    && Decided(answer) && answer.opinion.decision.value.quality == quality
    && (quality != USABLE ==>
          answer.opinion.decision.value.confidence >= checks.minimum && x.sha in policy.inventory &&
            policy.sourceOk(line))
  }

  predicate RejectionOk(policy: Policy, checks: Checks, queue: seq<Line>, labels: seq<Line>, x: Rejection) {
    x.quality.Some? ==>
      && x.queueLine.Some? && x.labelLine.Some?
      && LineAt(queue, x.queueLine.value).Some? && LineAt(labels, x.labelLine.value).Some?
      && RecordedOk(policy, checks, x, LineAt(queue, x.queueLine.value).value, LineAt(labels, x.labelLine.value).value)
  }

  predicate Excludes(x: Rejection) {
    x.quality.Some? && x.quality.value != USABLE
  }

  /** No digest is excluded and then decided again. */
  ghost predicate ExcludedOnce(rejections: seq<Rejection>) {
    forall i, j :: 0 <= i < j < |rejections| && Excludes(rejections[i]) && rejections[j].quality.Some? ==>
      rejections[i].sha != rejections[j].sha
  }

  /** The excluded digests with the image each queue line names. */
  function ExcludedBy(queue: seq<Line>, rejections: seq<Rejection>): map<Digest, nat> {
    if rejections == [] then map[]
    else
      var before, x := ExcludedBy(queue, rejections[..|rejections| - 1]), rejections[|rejections| - 1];
      if Excludes(x) && x.sha.Some? && x.queueLine.Some? && LineAt(queue, x.queueLine.value).Some?
      then before[x.sha.value := LineAt(queue, x.queueLine.value).value.imageRef]
      else before
  }

  ghost predicate QualityOk(policy: Policy, checks: Checks, queue: seq<Line>, labels: seq<Line>,
                            rejections: seq<Rejection>) {
    && UniqueRows(queue) && UniqueRows(labels) && InventoryUnique(policy.inventory)
    && (forall x :: x in rejections ==> RejectionOk(policy, checks, queue, labels, x))
    && ExcludedOnce(rejections)
  }

  /** `_quality_rows` */
  method QualityRows(policy: Policy, checks: Checks, queue: seq<Line>, labels: seq<Line>, rejections: seq<Rejection>)
    returns (r: Option<map<Digest, nat>>)
    ensures r.Some? <==> QualityOk(policy, checks, queue, labels, rejections)
    ensures r.Some? ==> r.value == ExcludedBy(queue, rejections)
  {
    var queueByLine := IndexUniqueRows(queue);
    var labelByLine := IndexUniqueRows(labels);
    var inventoryOk := IndexInventory(policy.inventory);
    if queueByLine.None? || labelByLine.None? || !inventoryOk {
      return None;
    }
    var excluded: map<Digest, nat> := map[];
    for n := 0 to |rejections|
      invariant forall x :: x in rejections[..n] ==> RejectionOk(policy, checks, queue, labels, x)
      invariant ExcludedOnce(rejections[..n]) && excluded == ExcludedBy(queue, rejections[..n])
    {
      var x := rejections[n];
      assert x in rejections && rejections[..n + 1] == rejections[..n] + [x] &&
        rejections[..n + 1][..n] == rejections[..n];
      var fine := RejectionOk(policy, checks, queue, labels, x);
      if !fine {
        return None;
      }
      ExcludedNext(policy, checks, queue, labels, rejections, n);
      if x.quality.Some? && x.sha.value in excluded {
        return None;
      }
      if Excludes(x) {
        excluded := excluded[x.sha.value := queueByLine.value[x.queueLine.value].imageRef];
      }
    }
    assert rejections[..|rejections|] == rejections;
    r := Some(excluded);
  }

  lemma {:induction false} ExcludedMembers(policy: Policy, checks: Checks, queue: seq<Line>, labels: seq<Line>,
                                           rejections: seq<Rejection>)
    requires forall x :: x in rejections ==> RejectionOk(policy, checks, queue, labels, x)
    ensures forall sha :: sha in ExcludedBy(queue, rejections) <==>
      exists k :: 0 <= k < |rejections| && Excludes(rejections[k]) && rejections[k].sha == Some(sha)
  {
    if rejections != [] {
      var init := rejections[..|rejections| - 1];
      assert rejections == init + [rejections[|rejections| - 1]];
      assert rejections[|rejections| - 1] in rejections;
      ExcludedMembers(policy, checks, queue, labels, init);
    }
  }

  lemma {:induction false} ExcludedNext(policy: Policy, checks: Checks, queue: seq<Line>, labels: seq<Line>,
                                        rejections: seq<Rejection>, n: nat)
    requires n < |rejections| && forall x :: x in rejections[..n] ==> RejectionOk(policy, checks, queue, labels, x)
    requires ExcludedOnce(rejections[..n]) && RejectionOk(policy, checks, queue, labels, rejections[n])
    ensures var x := rejections[n];
      ExcludedOnce(rejections[..n + 1]) <==>
        !(x.quality.Some? && x.sha.value in ExcludedBy(queue, rejections[..n]))
    ensures !ExcludedOnce(rejections[..n + 1]) ==> !ExcludedOnce(rejections)
  {
    ExcludedMembers(policy, checks, queue, labels, rejections[..n]);
    assert rejections[..n + 1] == rejections[..n] + [rejections[n]];
    OnceNext(rejections[..n], rejections[n], ExcludedBy(queue, rejections[..n]).Keys);
  }

  lemma OnceNext(earlier: seq<Rejection>, x: Rejection, excluded: set<Digest>)
    requires ExcludedOnce(earlier) && (x.quality.Some? ==> x.sha.Some?)
    requires forall sha :: sha in excluded <==>
      exists k :: 0 <= k < |earlier| && Excludes(earlier[k]) && earlier[k].sha == Some(sha)
    ensures ExcludedOnce(earlier + [x]) <==> !(x.quality.Some? && x.sha.value in excluded)
  {
    var now := earlier + [x];
    if x.quality.Some? && x.sha.value in excluded {
      var k :| 0 <= k < |earlier| && Excludes(earlier[k]) && earlier[k].sha == x.sha;
      assert now[k] == earlier[k] && now[|earlier|] == x;
    }
  }

  // ---- the whole of the assembler's checks ----

  function InventoryShas(inventory: seq<Option<Digest>>): set<Digest> {
    set x | x in inventory && x.Some? :: x.value
  }

  /** Different sources, different paths. */
  ghost predicate DistinctPaths(excluded: map<Digest, nat>) {
    forall a, b :: a in excluded && b in excluded && excluded[a] == excluded[b] ==> a == b
  }

  /** Objective exclusions come from outside the queue and the inventory, and no two exclusions name one path. */
  ghost predicate ExclusionsOk(policy: Policy, queue: seq<Line>, excluded: map<Digest, nat>) {
    && excluded.Keys !! policy.objective.Keys
    && policy.objective.Keys !! ShasOf(queue) + InventoryShas(policy.inventory)
    && DistinctPaths(excluded + policy.objective)
    && (excluded == map[] && policy.objective == map[] ==> policy.zeroCoverage)
  }

  ghost predicate AssemblyOk(policy: Policy, checks: Checks, queue: seq<Line>, labels: seq<Line>, r: Report) {
    && ReportOk(r, |queue|)
    && QualityOk(policy, checks, queue, labels, r.rejections)
    && ExclusionsOk(policy, queue, ExcludedBy(queue, r.rejections))
    && OutputsOk(r, queue, labels, ExcludedBy(queue, r.rejections).Keys + policy.objective.Keys)
    && RecheckOk(checks.minimum, r, queue, labels)
  }

  method AllDistinct(s: seq<nat>) returns (ok: bool)
    ensures ok <==> Distinct(s)
  {
    var seen: set<nat> := {};
    for n := 0 to |s|
      invariant Distinct(s[..n]) && seen == AsSet(s[..n])
    {
      assert s[..n + 1] == s[..n] + [s[n]];
      if s[n] in seen {
        var k :| 0 <= k < n && s[..n][k] == s[n];
        assert s[k] == s[n];
        return false;
      }
      seen := seen + {s[n]};
    }
    assert s[..|s|] == s;
    ok := true;
  }

  /** `len({row["path"] for row in quality_rows}) != len(quality_rows)` */
  method PathsDiffer(excluded: map<Digest, nat>) returns (ok: bool)
    ensures ok <==> DistinctPaths(excluded)
  {
    var order := SortedNats(excluded.Keys);
    var paths := PathsOf(excluded, order);
    ok := AllDistinct(paths);
    ListedPathsDiffer(excluded, order);
  }

  function PathsOf(excluded: map<Digest, nat>, order: seq<Digest>): (paths: seq<nat>)
    requires forall sha :: sha in order ==> sha in excluded
    ensures |paths| == |order| && forall k :: 0 <= k < |order| ==> paths[k] == excluded[order[k]]
  {
    seq(|order|, k requires 0 <= k < |order| => assert order[k] in order; excluded[order[k]])
  }

  lemma ListedPathsDiffer(excluded: map<Digest, nat>, order: seq<Digest>)
    requires Distinct(order) && forall sha :: sha in order <==> sha in excluded
    ensures Distinct(PathsOf(excluded, order)) <==> DistinctPaths(excluded)
  {
    var paths := PathsOf(excluded, order);
    if Distinct(paths) {
      forall a, b | a in excluded && b in excluded && excluded[a] == excluded[b]
        ensures a == b
      {
        var i :| 0 <= i < |order| && order[i] == a;
        var j :| 0 <= j < |order| && order[j] == b;
        assert paths[i] == paths[j];
      }
    }
    if DistinctPaths(excluded) {
      forall i, j | 0 <= i < j < |order|
        ensures paths[i] != paths[j]
      {
        assert order[i] in order && order[j] in order && order[i] != order[j];
      }
    }
  }

  /** The assembler's checks of the queue report, up to the consensus re-evaluation. */
  method Assemble(policy: Policy, checks: Checks, queue: seq<Line>, labels: seq<Line>, r: Report) returns (ok: bool)
    ensures ok <==> AssemblyOk(policy, checks, queue, labels, r)
  {
    ok := ValidateRejections(r, |queue|);
    if !ok {
      return;
    }
    var selected := QualityRows(policy, checks, queue, labels, r.rejections);
    if selected.None? {
      return false;
    }
    var excluded := selected.value;
    if !(excluded.Keys !! policy.objective.Keys) ||
       !(policy.objective.Keys !! ShasOf(queue) + InventoryShas(policy.inventory)) {
      return false;
    }
    ok := PathsDiffer(excluded + policy.objective);
    if ok {
      ok := ValidatePartition(r, queue, labels, excluded.Keys + policy.objective.Keys);
    }
    if ok {
      ok := Recheck(checks.minimum, r, queue, labels);
    }
    ok := ok && (excluded == map[] && policy.objective == map[] ==> policy.zeroCoverage);
  }

  // ---- when the producer's report passes ----

  /** A queue line and the label of the same source, as the assembler wants them. */
  predicate PairOk(policy: Policy, checks: Checks, line: Line, answer: Line)
    requires line.sha.Some?
  {
    var reasons := JudgeOf(checks)(line, answer).0;
    var bound := answer.inputLower && answer.imageRef == line.imageRef;
    if reasons == [] then bound
    else match answer.opinion.decision
      case None => true
      case Some(d) =>
        && bound && answer.inputSha == line.sha && Decided(answer)
        && line.sha.value !in policy.known && policy.queueRowOk(line)
        && if d.Usable() then forall reason :: reason in reasons ==> !policy.marksUnusable(reason)
           else
             && (forall reason :: reason in reasons ==> reason == checks.unusable(d.quality))
             && d.confidence >= checks.minimum && line.sha in policy.inventory && policy.sourceOk(line)
  }

  predicate IsUnusable(queue: seq<Line>, labels: seq<Line>, sha: Digest) {
    && LastOf(queue, sha).Some? && LastOf(labels, sha).Some?
    && LastOf(labels, sha).value.opinion.decision.Some? && !LastOf(labels, sha).value.opinion.decision.value.Usable()
  }

  /** The sources whose only label calls them unusable, with the images their queue lines name. */
  function Unusable(queue: seq<Line>, labels: seq<Line>): map<Digest, nat> {
    map sha | sha in ShasOf(queue) && IsUnusable(queue, labels, sha) :: LastOf(queue, sha).value.imageRef
  }

  predicate Pair(queue: seq<Line>, labels: seq<Line>, line: Line, answer: Line) {
    line in queue && answer in labels && line.sha == answer.sha
  }

  ghost predicate PairsOk(policy: Policy, checks: Checks, queue: seq<Line>, labels: seq<Line>) {
    forall line, answer :: Pair(queue, labels, line, answer) ==> line.sha.Some? && PairOk(policy, checks, line, answer)
  }

  /** What the three files must be for the emitted report to be assembled. */
  ghost predicate Agreeable(policy: Policy, checks: Checks, queue: seq<Line>, labels: seq<Line>) {
    && UniqueRows(queue) && UniqueRows(labels) && InventoryUnique(policy.inventory)
    && PairsOk(policy, checks, queue, labels)
    && ExclusionsOk(policy, queue, Unusable(queue, labels))
  }

  /** The pairs that the producer rejects, and those that it passes. */
  ghost predicate RejectedOk(policy: Policy, checks: Checks, queue: seq<Line>, labels: seq<Line>) {
    forall line, answer :: Pair(queue, labels, line, answer) && ReasonsFor(checks, line, answer) != [] ==>
      line.sha.Some? && PairOk(policy, checks, line, answer)
  }

  ghost predicate PassingBound(checks: Checks, queue: seq<Line>, labels: seq<Line>) {
    forall line, answer :: Pair(queue, labels, line, answer) && ReasonsFor(checks, line, answer) == [] ==>
      answer.inputLower && answer.imageRef == line.imageRef
  }

  lemma PairsSplit(policy: Policy, checks: Checks, queue: seq<Line>, labels: seq<Line>)
    requires UniqueRows(queue)
    ensures PairsOk(policy, checks, queue, labels) <==>
      RejectedOk(policy, checks, queue, labels) && PassingBound(checks, queue, labels)
  {
    forall line, answer | Pair(queue, labels, line, answer)
      ensures line.sha.Some?
      ensures ReasonsFor(checks, line, answer) == [] ==>
        (PairOk(policy, checks, line, answer) <==> answer.inputLower && answer.imageRef == line.imageRef)
    {
      UniqueRow(queue, line);
    }
  }

  function ReasonsFor(checks: Checks, line: Line, answer: Line): seq<Reason> {
    JudgeOf(checks)(line, answer).0
  }

  /** The rejection of a source whose line and only label have something against them. */
  function RejectionFor(checks: Checks, line: Line, answer: Line): Rejection {
    Rejection(line.sha, Some(line.number), Some(answer.number), SortedNats(AsSet(ReasonsFor(checks, line, answer))),
              QualityOf(answer))
  }

  lemma {:induction false} PairFate(names: Reasons, checks: Checks, queue: seq<Line>, labels: seq<Line>, line: Line,
                                    answer: Line)
    requires UniqueRows(queue) && UniqueRows(labels) && Pair(queue, labels, line, answer)
    ensures line.sha.Some? && line.sha.value in ShasOf(queue)
    ensures LastOf(queue, line.sha.value) == Some(line) && LastOf(labels, line.sha.value) == Some(answer)
    ensures RowsWith(queue, line.sha.value) == [line] && RowsWith(labels, line.sha.value) == [answer]
    ensures ReasonsFor(checks, line, answer) != [] ==>
      FateIn(names, JudgeOf(checks), queue, labels)(line.sha.value) == Rejected(RejectionFor(checks, line, answer))
  {
    UniqueRow(queue, line);
    UniqueRow(labels, answer);
  }

  /** Every rejection that records a decision is that of a pair. */
  lemma RecordedIsPair(names: Reasons, checks: Checks, queue: seq<Line>, labels: seq<Line>, r: Report, x: Rejection)
    returns (line: Line, answer: Line)
    requires UniqueRows(queue) && UniqueRows(labels) && Faithful(names, JudgeOf(checks), queue, labels, r)
    requires x in r.rejections && x.quality.Some?
    ensures Pair(queue, labels, line, answer) && ReasonsFor(checks, line, answer) != []
    ensures x == RejectionFor(checks, line, answer)
  {
    var sha := x.sha.value;
    var fate := FateIn(names, JudgeOf(checks), queue, labels)(sha);
    assert sha in ShasOf(queue);
    assert sha in Named(r.rejections);
    assert fate.Rejected? && fate.rejection in r.rejections;
    FateIsWellRejected(names, JudgeOf(checks), sha, RowsWith(queue, sha), RowsWith(labels, sha));
    OnlyRejection(r.rejections, x);
    assert fate.rejection == x;
    UniqueShas(queue, sha);
    UniqueShas(labels, sha);
    line, answer := RowsWith(queue, sha)[0], RowsWith(labels, sha)[0];
  }

  /** A single distinct reason is what the sorted list of reasons holds exactly when every reason is that one. */
  lemma OnlyReason(reasons: seq<Reason>, reason: Reason)
    requires reasons != []
    ensures SortedNats(AsSet(reasons)) == [reason] <==> forall x :: x in reasons ==> x == reason
    ensures forall x :: x in SortedNats(AsSet(reasons)) <==> x in reasons
  {
    var listed := SortedNats(AsSet(reasons));
    assert forall x :: x in listed <==> x in AsSet(reasons);
    if forall x :: x in reasons ==> x == reason {
      assert reasons[0] in reasons;
      assert AsSet(reasons) == AsSet([reason]);
      SingleIsCanonical(reason);
    } else {
      var x :| x in reasons && x != reason;
      assert x in listed;
    }
  }

  lemma PairRejection(policy: Policy, checks: Checks, queue: seq<Line>, labels: seq<Line>, line: Line, answer: Line)
    requires UniqueRows(queue) && UniqueRows(labels) && Pair(queue, labels, line, answer)
    requires ReasonsFor(checks, line, answer) != [] && line.sha.Some?
    ensures RejectionOk(policy, checks, queue, labels, RejectionFor(checks, line, answer)) <==>
            PairOk(policy, checks, line, answer)
  {
    UniqueLine(queue, line);
    UniqueLine(labels, answer);
    var reasons := ReasonsFor(checks, line, answer);
    if answer.opinion.decision.Some? {
      OnlyReason(reasons, checks.unusable(answer.opinion.decision.value.quality));
    }
  }

  /** The row loop accepts the producer's rejections exactly when every rejected pair is in order. */
  lemma RejectionsExactly(names: Reasons, policy: Policy, checks: Checks, queue: seq<Line>, labels: seq<Line>,
                          r: Report)
    requires UniqueRows(queue) && UniqueRows(labels) && Faithful(names, JudgeOf(checks), queue, labels, r)
    ensures (forall x :: x in r.rejections ==> RejectionOk(policy, checks, queue, labels, x)) <==>
            RejectedOk(policy, checks, queue, labels)
  {
    forall line, answer | Pair(queue, labels, line, answer) && ReasonsFor(checks, line, answer) != []
      ensures line.sha.Some? && RejectionFor(checks, line, answer) in r.rejections
      ensures RejectionOk(policy, checks, queue, labels, RejectionFor(checks, line, answer)) <==>
              PairOk(policy, checks, line, answer)
    {
      PairFate(names, checks, queue, labels, line, answer);
      PairRejection(policy, checks, queue, labels, line, answer);
    }
    forall x | x in r.rejections && x.quality.Some?
      ensures exists line, answer ::
                && Pair(queue, labels, line, answer) && ReasonsFor(checks, line, answer) != []
                && x == RejectionFor(checks, line, answer)
    {
      var line, answer := RecordedIsPair(names, checks, queue, labels, r, x);
    }
  }

  lemma UnusableHasReason(checks: Checks, line: Line, answer: Line)
    requires answer.opinion.decision.Some? && !answer.opinion.decision.value.Usable()
    ensures ReasonsFor(checks, line, answer) != []
  {
    assert checks.unusable(answer.opinion.decision.value.quality) in ReasonsFor(checks, line, answer);
  }

  // ---- the exclusions ----

  lemma {:induction false} ExcludedImages(queue: seq<Line>, rejections: seq<Rejection>, x: Rejection)
    requires x in rejections && Excludes(x) && x.sha.Some? && x.queueLine.Some? &&
      LineAt(queue, x.queueLine.value).Some?
    requires forall i, j :: 0 <= i < j < |rejections| ==> rejections[i].sha != rejections[j].sha
    ensures x.sha.value in ExcludedBy(queue, rejections)
    ensures ExcludedBy(queue, rejections)[x.sha.value] == LineAt(queue, x.queueLine.value).value.imageRef
  {
    var init, last := rejections[..|rejections| - 1], rejections[|rejections| - 1];
    assert rejections == init + [last];
    if x != last {
      assert x in init;
      ExcludedImages(queue, init, x);
      var k :| 0 <= k < |init| && init[k] == x;
      assert rejections[k].sha != rejections[|rejections| - 1].sha;
    }
  }

  lemma {:induction false} ExcludedIsListed(queue: seq<Line>, rejections: seq<Rejection>, sha: Digest)
    requires sha in ExcludedBy(queue, rejections)
    ensures exists x :: x in rejections && Excludes(x) && x.sha == Some(sha)
  {
    var init, last := rejections[..|rejections| - 1], rejections[|rejections| - 1];
    assert rejections == init + [last];
    if sha in ExcludedBy(queue, init) {
      ExcludedIsListed(queue, init, sha);
    } else {
      assert last in rejections;
    }
  }

  /** The row loop excludes exactly the sources whose only label calls them unusable. */
  lemma {:induction false} ExcludesUnusable(names: Reasons, checks: Checks, queue: seq<Line>, labels: seq<Line>,
                                            r: Report)
    requires UniqueRows(queue) && UniqueRows(labels) && Faithful(names, JudgeOf(checks), queue, labels, r)
    ensures ExcludedBy(queue, r.rejections) == Unusable(queue, labels)
  {
    forall sha | sha in ExcludedBy(queue, r.rejections)
      ensures sha in Unusable(queue, labels)
    {
      ExcludedIsUnusable(names, checks, queue, labels, r, sha);
    }
    forall sha | sha in Unusable(queue, labels)
      ensures var excluded := ExcludedBy(queue, r.rejections);
        sha in excluded && excluded[sha] == Unusable(queue, labels)[sha]
    {
      UnusableIsExcluded(names, checks, queue, labels, r, sha);
    }
    SameMap(ExcludedBy(queue, r.rejections), Unusable(queue, labels));
  }

  lemma SameMap(a: map<Digest, nat>, b: map<Digest, nat>)
    requires forall sha :: sha in a ==> sha in b
    requires forall sha :: sha in b ==> sha in a && a[sha] == b[sha]
    ensures a == b
  {
  }

  lemma {:induction false} ExcludedIsUnusable(names: Reasons, checks: Checks, queue: seq<Line>, labels: seq<Line>,
                                              r: Report, sha: Digest)
    requires UniqueRows(queue) && UniqueRows(labels) && Faithful(names, JudgeOf(checks), queue, labels, r)
    requires sha in ExcludedBy(queue, r.rejections)
    ensures sha in Unusable(queue, labels)
  {
    ExcludedIsListed(queue, r.rejections, sha);
    var x :| x in r.rejections && Excludes(x) && x.sha == Some(sha);
    var line, answer := RecordedIsPair(names, checks, queue, labels, r, x);
    UnusablePair(queue, labels, line, answer);
  }

  lemma UnusablePair(queue: seq<Line>, labels: seq<Line>, line: Line, answer: Line)
    requires UniqueRows(queue) && UniqueRows(labels) && Pair(queue, labels, line, answer)
    requires answer.opinion.decision.Some? && !answer.opinion.decision.value.Usable()
    ensures line.sha.Some? && line.sha.value in Unusable(queue, labels)
  {
    UniqueRow(queue, line);
    UniqueRow(labels, answer);
    assert IsUnusable(queue, labels, line.sha.value);
  }

  lemma {:induction false} UnusableIsExcluded(names: Reasons, checks: Checks, queue: seq<Line>, labels: seq<Line>,
                                              r: Report, sha: Digest)
    requires UniqueRows(queue) && UniqueRows(labels) && Faithful(names, JudgeOf(checks), queue, labels, r)
    requires sha in Unusable(queue, labels)
    ensures var excluded := ExcludedBy(queue, r.rejections);
      sha in excluded && excluded[sha] == Unusable(queue, labels)[sha]
  {
    var line, answer := LastOf(queue, sha).value, LastOf(labels, sha).value;
    UniqueShas(queue, sha);
    LastIsLast(labels, sha);
    RowsAreRows(labels, sha);
    UniqueShas(labels, sha);
    UnusableHasReason(checks, line, answer);
    PairFate(names, checks, queue, labels, line, answer);
    UniqueLine(queue, line);
    ExcludedImages(queue, r.rejections, RejectionFor(checks, line, answer));
  }

  // ---- the outputs ----

  /** With unique rows and exclusions in order, the outputs pass exactly when every passing pair is bound. */
  lemma OutputsExactly(policy: Policy, checks: Checks, queue: seq<Line>, labels: seq<Line>)
    requires UniqueRows(queue) && UniqueRows(labels) && ExclusionsOk(policy, queue, Unusable(queue, labels))
    ensures OutputsAgree(checks, queue, labels, Unusable(queue, labels).Keys + policy.objective.Keys) <==>
            PassingBound(checks, queue, labels)
  {
    forall sha | sha in ShasOf(queue)
      ensures DecidedIsUnique(queue, labels, sha)
    {
      UniqueShas(queue, sha);
      UniqueShas(labels, sha);
      LastIsLast(labels, sha);
    }
    var excluded := Unusable(queue, labels).Keys + policy.objective.Keys;
    forall sha | sha in ShasOf(queue) && Passes(checks, queue, labels, sha)
      ensures sha !in excluded
      ensures exists line, answer ::
                && Pair(queue, labels, line, answer) && ReasonsFor(checks, line, answer) == []
                && (BoundLabel(queue, labels, sha) <==> answer.inputLower && answer.imageRef == line.imageRef)
    {
      PassingPair(checks, queue, labels, sha);
    }
    forall line, answer | Pair(queue, labels, line, answer) && ReasonsFor(checks, line, answer) == []
      ensures line.sha.Some? && line.sha.value in ShasOf(queue) && Passes(checks, queue, labels, line.sha.value)
      ensures BoundLabel(queue, labels, line.sha.value) <==> answer.inputLower && answer.imageRef == line.imageRef
    {
      UniqueRow(queue, line);
      UniqueRow(labels, answer);
    }
  }

  lemma {:induction false} PassingPair(checks: Checks, queue: seq<Line>, labels: seq<Line>, sha: Digest)
    requires UniqueRows(queue) && UniqueRows(labels) && sha in ShasOf(queue) && Passes(checks, queue, labels, sha)
    ensures sha !in Unusable(queue, labels)
    ensures var line, answer := RowsWith(queue, sha)[0], RowsWith(labels, sha)[0];
      && Pair(queue, labels, line, answer) && ReasonsFor(checks, line, answer) == []
      && (BoundLabel(queue, labels, sha) <==> answer.inputLower && answer.imageRef == line.imageRef)
  {
    UniqueShas(queue, sha);
    UniqueShas(labels, sha);
    RowsAreRows(labels, sha);
    var line, answer := RowsWith(queue, sha)[0], RowsWith(labels, sha)[0];
    assert answer in RowsWith(labels, sha) && answer.sha == Some(sha);
    if sha !in ShasOf(labels) {
      NoRows(labels, sha);
    }
    if answer.opinion.decision.Some? && !answer.opinion.decision.value.Usable() {
      UnusableHasReason(checks, line, answer);
    }
  }

  // ---- producer and assembler ----

  /** A report that splits a queue of unique rows by fate is assembled exactly when every pair is in order. */
  lemma FaithfulAssemblesExactlyWhen(names: Reasons, policy: Policy, checks: Checks, queue: seq<Line>,
                                     labels: seq<Line>, r: Report)
    requires UniqueRows(queue) && UniqueRows(labels) && Faithful(names, JudgeOf(checks), queue, labels, r)
    requires Counted(r) && r.queueRows == |queue| && r.rejections == Sort(r.rejections, RejectionLe)
    ensures AssemblyOk(policy, checks, queue, labels, r) <==> Agreeable(policy, checks, queue, labels)
  {
    DistinctDecidesOnce(r.rejections);
    QualityExactly(names, policy, checks, queue, labels, r);
    ExcludesUnusable(names, checks, queue, labels, r);
    PairsSplit(policy, checks, queue, labels);
    AssemblyPieces(names, policy, checks, queue, labels, r, Unusable(queue, labels));
  }

  lemma QualityExactly(names: Reasons, policy: Policy, checks: Checks, queue: seq<Line>, labels: seq<Line>, r: Report)
    requires UniqueRows(queue) && UniqueRows(labels) && Faithful(names, JudgeOf(checks), queue, labels, r)
    ensures QualityOk(policy, checks, queue, labels, r.rejections) <==>
      InventoryUnique(policy.inventory) && RejectedOk(policy, checks, queue, labels)
  {
    DistinctDecidesOnce(r.rejections);
    DecidedExcludesOnce(r.rejections);
    RejectionsExactly(names, policy, checks, queue, labels, r);
  }

  lemma DecidedExcludesOnce(rejections: seq<Rejection>)
    requires DecidedOnce(rejections)
    ensures ExcludedOnce(rejections)
  {
  }

  /** The order of the checks does not matter for their verdict. */
  lemma AssemblyPieces(names: Reasons, policy: Policy, checks: Checks, queue: seq<Line>, labels: seq<Line>, r: Report,
                       excluded: map<Digest, nat>)
    requires UniqueRows(queue) && UniqueRows(labels) && Faithful(names, JudgeOf(checks), queue, labels, r)
    requires Counted(r) && excluded == Unusable(queue, labels)
    ensures
      ExclusionsOk(policy, queue, excluded) &&
      OutputsOk(r, queue, labels, excluded.Keys + policy.objective.Keys) && RecheckOk(checks.minimum, r, queue, labels)
      <==> ExclusionsOk(policy, queue, excluded) && PassingBound(checks, queue, labels)
  {
    FaithfulPassesExactlyWhen(names, checks, queue, labels, excluded.Keys + policy.objective.Keys, r);
    if ExclusionsOk(policy, queue, excluded) {
      OutputsExactly(policy, checks, queue, labels);
    }
  }

  /**
   * Producer and assembler agree on exactly these inputs: rows with digests in lower case and nothing repeated, every
   * queue line and its label in order, and exclusions that keep apart.
   */
  method ProduceAndAssemble(names: Reasons, policy: Policy, checks: Checks, queue: seq<Line>, labels: seq<Line>)
    returns (r: Report, ok: bool)
    ensures ok <==> Agreeable(policy, checks, queue, labels)
    ensures Lawful(names, AgainstBy(checks), IsNegative(), queue, labels, r)
    ensures AllValid(queue) && AllValid(labels) ==> Faithful(names, JudgeOf(checks), queue, labels, r)
  {
    r := Produce(names, JudgeOf(checks), queue, labels);
    LawOfChecks(names, checks, queue, labels, r);
    if UniqueRows(queue) && UniqueRows(labels) {
      FaithfulAssemblesExactlyWhen(names, policy, checks, queue, labels, r);
    }
    ok := Assemble(policy, checks, queue, labels, r);
  }

  // ---- inputs on which the two disagree ----

  const SAMPLE_NAMES := Reasons(0, 1, 2, 3, 4, 5)
  const SAMPLE_CHECKS := Checks(0.5, 6, 7, SampleUnusable, SampleOthers)
  const SAMPLE_POLICY := Policy({}, [Some(5)], map[], true, SampleMarks, SampleFine, SampleFine)

  function SampleUnusable(quality: nat): Reason {
    10 + quality
  }

  function SampleOthers(line: Line, answer: Line): seq<Reason> {
    []
  }

  predicate SampleMarks(reason: Reason) {
    reason >= 10
  }

  predicate SampleFine(line: Line) {
    true
  }

  /** Source 5 at a line of the queue, naming image 1; what a label would carry plays no part there. */
  function SampleLine(number: LineNumber): Line {
    Line(Some(5), true, number, 1, None, false, Opinion(None, [0]))
  }

  /** Its label: the image it names, how it spells its input digest, and a decision. */
  function SampleLabel(imageRef: nat, lower: bool, decision: Decision): Line {
    Line(Some(5), true, 1, imageRef, Some(5), lower, Opinion(Some(decision), []))
  }

  lemma SampleReasons(number: LineNumber, imageRef: nat, lower: bool, decision: Decision)
    ensures ReasonsFor(SAMPLE_CHECKS, SampleLine(number), SampleLabel(imageRef, lower, decision)) ==
      (if decision.confidence < 0.5 then [6] else []) + (if decision.Usable() then [] else [10 + decision.quality])
  {
    var line, answer := SampleLine(number), SampleLabel(imageRef, lower, decision);
    assert SAMPLE_CHECKS.others(line, answer) == SampleOthers(line, answer) == [];
    assert SAMPLE_CHECKS.unusable(decision.quality) == SampleUnusable(decision.quality);
    assert answer.opinion.reasons == [] && answer.inputSha == line.sha && answer.opinion.decision == Some(decision);
  }

  lemma SingleRow(row: Line)
    requires Plain(row)
    ensures UniqueRows([row]) && ShasOf([row]) == {row.sha.value}
    ensures RowsWith([row], row.sha.value) == [row] && LastOf([row], row.sha.value) == Some(row)
  {
    var rows := [row];
    assert rows[..0] == [] && rows[0] == row && row in rows;
  }

  /** One line and its label: the two agree exactly when the pair is in order. */
  lemma SinglePair(line: Line, answer: Line)
    requires Plain(line) && Plain(answer) && line.sha == answer.sha
    ensures Agreeable(SAMPLE_POLICY, SAMPLE_CHECKS, [line], [answer]) <==>
      PairOk(SAMPLE_POLICY, SAMPLE_CHECKS, line, answer)
  {
    SingleRow(line);
    SingleRow(answer);
    assert Pair([line], [answer], line, answer);
    SinglePath([line], [answer], line.sha.value);
  }

  lemma SinglePath(queue: seq<Line>, labels: seq<Line>, sha: Digest)
    requires ShasOf(queue) == {sha}
    ensures ExclusionsOk(SAMPLE_POLICY, queue, Unusable(queue, labels))
  {
    var excluded := Unusable(queue, labels);
    assert excluded + map[] == excluded;
    assert forall a :: a in excluded ==> a == sha;
  }

  lemma SingleFate(line: Line, answer: Line, r: Report)
    requires Plain(line) && Plain(answer) && line.sha == answer.sha
    requires Faithful(SAMPLE_NAMES, JudgeOf(SAMPLE_CHECKS), [line], [answer], r)
    ensures line.sha.value in r.accepted + r.empty <==> ReasonsFor(SAMPLE_CHECKS, line, answer) == []
  {
    SingleRow(line);
    SingleRow(answer);
  }

  /**
   * The producer accepts a source whatever the spelling of its label's input digest and whatever image the label names;
   * the assembler wants lower case and the queue line's own image.
   */
  method BindingDecides(imageRef: nat, lower: bool) returns (r: Report, ok: bool)
    ensures 5 in r.accepted + r.empty && (ok <==> lower && imageRef == 1)
  {
    var line, answer := SampleLine(1), SampleLabel(imageRef, lower, Decision(USABLE, false, 1.0));
    r, ok := ProduceAndAssemble(SAMPLE_NAMES, SAMPLE_POLICY, SAMPLE_CHECKS, [line], [answer]);
    SampleReasons(1, imageRef, lower, Decision(USABLE, false, 1.0));
    SinglePair(line, answer);
    SingleFate(line, answer, r);
  }

  /** An unusable source is excluded only when nothing else speaks against it: here, its confidence. */
  method OneReasonDecides(confidence: real) returns (r: Report, ok: bool)
    ensures 5 !in r.accepted + r.empty && (ok <==> confidence >= 0.5)
  {
    var line, answer := SampleLine(1), SampleLabel(1, true, Decision(1, false, confidence));
    r, ok := ProduceAndAssemble(SAMPLE_NAMES, SAMPLE_POLICY, SAMPLE_CHECKS, [line], [answer]);
    SampleReasons(1, 1, true, Decision(1, false, confidence));
    assert confidence < 0.5 ==> ReasonsFor(SAMPLE_CHECKS, line, answer)[0] == 6;
    SinglePair(line, answer);
    SingleFate(line, answer, r);
  }

  lemma RepeatedRows(first: Line, second: Line)
    requires Plain(first) && first.sha == second.sha
    ensures !UniqueRows([first, second]) && first.sha.value in ShasOf([first, second])
    ensures RowsWith([first, second], first.sha.value) == [first, second]
  {
    var rows := [first, second];
    assert rows[0].sha == rows[1].sha && first in rows && rows[..1] == [first];
    SingleRow(first);
  }

  /** A queue that repeats a digest is never assembled, although its report names the source. */
  method RepeatIsRefused() returns (r: Report, ok: bool)
    ensures 5 in Named(r.rejections) && !ok
  {
    var first, second, answer := SampleLine(1), SampleLine(2), SampleLabel(1, true, Decision(USABLE, false, 1.0));
    var queue := [first, second];
    r, ok := ProduceAndAssemble(SAMPLE_NAMES, SAMPLE_POLICY, SAMPLE_CHECKS, queue, [answer]);
    RepeatedRows(first, second);
    assert FateIn(SAMPLE_NAMES, JudgeOf(SAMPLE_CHECKS), queue, [answer])(5).Rejected?;
  }
}
