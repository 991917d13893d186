/** The teacher queue: one pass sorts every source into accepted, empty scene or rejected; a validator re-checks it. */
module QueuePartition {
  import opened Order
  import opened Wrappers

  /** The quality reasons of the teacher contract: usable, and four that are not. */
  const USABLE: nat := 0
  const QUALITIES: nat := 5

  type Quality = q: nat | q < QUALITIES

  /** A decision is usable exactly when its quality reason says so. */
  datatype Decision = Decision(quality: Quality, negative: bool, confidence: real) {
    predicate Usable() {
      quality == USABLE
    }
  }

  datatype RawOpinion = Opinion(decision: Option<Decision>, reasons: seq<Reason>)

  /** `_teacher_consensus` of a label: without a decision there is always a reason. */
  type Opinion = o: RawOpinion | o.decision.None? ==> o.reasons != [] witness Opinion(None, [0])

  /** The loaders count lines from one. */
  type LineNumber = n: nat | n > 0 witness 1

  /**
   * A line of either file; the SHA is absent when it is not a digest in either case, and `lower` says that it is
   * spelled in lower case. A label also names the image it was given, by a digest in either case, and carries the
   * consensus.
   */
  datatype Line = Line(sha: Option<Digest>, lower: bool, number: LineNumber, imageRef: nat, inputSha: Option<Digest>,
                       inputLower: bool, opinion: Opinion)

  /** Rejection reasons, by rank in string order. */
  type Reason = nat

  datatype Reasons = Reasons(duplicateQueue: Reason, missingLabel: Reason, duplicateLabel: Reason, labelOnly: Reason,
                             badQueueSha: Reason, badLabelSha: Reason)

  /** `quality` is recorded when the label came to a decision; the usable flag goes with it. */
  datatype Rejection = Rejection(sha: Option<Digest>, queueLine: Option<nat>, labelLine: Option<nat>,
                                 reasons: seq<Reason>, quality: Option<nat>)

  /**
   * What the consensus, quality and localisation checks say of a queue line and its label: reasons, and whether
   * negative.
   */
  type Judge = (Line, Line) -> (seq<Reason>, bool)

  datatype Fate = Accepted | EmptyScene | Rejected(rejection: Rejection)

  /** The accepted and empty-scene outputs, and the rejection report with its counts. */
  datatype Report = Report(accepted: seq<Digest>, empty: seq<Digest>, acceptedCount: nat, cropReady: nat,
                           emptyRows: nat, queueRows: nat, rejectedRecords: nat, reasonCounts: multiset<Reason>,
                           rejections: seq<Rejection>)

  // ---- what becomes of one source ----

  function RowsWith(rows: seq<Line>, sha: Digest): seq<Line> {
    if rows == [] then []
    else
      RowsWith(rows[..|rows| - 1], sha) + if rows[|rows| - 1].sha == Some(sha) then [rows[|rows| - 1]] else []
  }

  function ShasOf(rows: seq<Line>): set<Digest> {
    set row | row in rows && row.sha.Some? :: row.sha.value
  }

  function AsSet(s: seq<nat>): set<nat> {
    set x | x in s
  }

  function QualityOf(row: Line): Option<nat> {
    if row.opinion.decision.Some? then Some(row.opinion.decision.value.quality) else None
  }

  function FateOf(names: Reasons, judge: Judge, sha: Digest, queueRows: seq<Line>, labelRows: seq<Line>): Fate {
    if |queueRows| != 1 then Rejected(Rejection(Some(sha), None, None, [names.duplicateQueue], None))
    else if |labelRows| == 0 then Rejected(Rejection(Some(sha), None, None, [names.missingLabel], None))
    else if |labelRows| != 1 then Rejected(Rejection(Some(sha), None, None, [names.duplicateLabel], None))
    else
      var verdict := judge(queueRows[0], labelRows[0]);
      if verdict.0 != [] then
        Rejected(Rejection(Some(sha), Some(queueRows[0].number), Some(labelRows[0].number),
                           SortedNats(AsSet(verdict.0)), QualityOf(labelRows[0])))
      else if verdict.1 then EmptyScene
      else Accepted
  }

  /** The three lists after the first `n` sources. */
  datatype Lists = Lists(accepted: seq<Digest>, empty: seq<Digest>, rejected: seq<Rejection>)

  function Place(lists: Lists, sha: Digest, fate: Fate): Lists {
    match fate
    case Accepted => lists.(accepted := lists.accepted + [sha])
    case EmptyScene => lists.(empty := lists.empty + [sha])
    case Rejected(r) => lists.(rejected := lists.rejected + [r])
  }

  function Outcomes(fate: Digest -> Fate, order: seq<Digest>): Lists {
    if order == [] then Lists([], [], [])
    else Place(Outcomes(fate, order[..|order| - 1]), order[|order| - 1], fate(order[|order| - 1]))
  }

  ghost predicate Increasing(s: seq<Digest>) {
    forall i, j :: 0 <= i < j < |s| ==> s[i] < s[j]
  }

  function Named(rejections: seq<Rejection>): set<Digest> {
    set r | r in rejections && r.sha.Some? :: r.sha.value
  }

  predicate Canonical(r: Rejection) {
    && r.reasons != [] && r.reasons == SortedNats(AsSet(r.reasons))
    && (r.queueLine.Some? ==> r.queueLine.value > 0) && (r.labelLine.Some? ==> r.labelLine.value > 0)
  }

  /** Each rejection carries its own source and canonical reasons. */
  ghost predicate WellRejected(fate: Digest -> Fate, sha: Digest) {
    fate(sha).Rejected? ==> fate(sha).rejection.sha == Some(sha) && Canonical(fate(sha).rejection)
  }

  /** Every source lands in exactly one list; the first two stay sorted and the third repeats no source. */
  ghost predicate Partitions(order: seq<Digest>, lists: Lists) {
    && Increasing(lists.accepted) && Increasing(lists.empty)
    && (forall i, j :: 0 <= i < j < |lists.rejected| ==> lists.rejected[i].sha != lists.rejected[j].sha)
    && (forall r :: r in lists.rejected ==> r.sha.Some? && Canonical(r))
    && (forall sha :: sha in order <==> sha in lists.accepted || sha in lists.empty || sha in Named(lists.rejected))
    && (forall sha :: !(sha in lists.accepted && sha in lists.empty))
    && (forall sha :: !(sha in lists.accepted && sha in Named(lists.rejected)))
    && (forall sha :: !(sha in lists.empty && sha in Named(lists.rejected)))
  }

  lemma {:induction false} OutcomesPartition(fate: Digest -> Fate, order: seq<Digest>)
    requires Increasing(order) && forall sha :: sha in order ==> WellRejected(fate, sha)
    ensures Partitions(order, Outcomes(fate, order))
  {
    if order != [] {
      var earlier, last := order[..|order| - 1], order[|order| - 1];
      OutcomesPartition(fate, earlier);
      assert order == earlier + [last] && last !in earlier;
      PlacePartitions(earlier, Outcomes(fate, earlier), last, fate);
    }
  }

  lemma PlacePartitions(earlier: seq<Digest>, lists: Lists, last: Digest, fate: Digest -> Fate)
    requires Partitions(earlier, lists) && WellRejected(fate, last)
    requires forall sha :: sha in earlier ==> sha < last
    ensures Partitions(earlier + [last], Place(lists, last, fate(last)))
  {
    assert last !in lists.accepted && last !in lists.empty && last !in Named(lists.rejected);
    match fate(last)
    case Accepted =>
      IncreasingNext(lists.accepted, last, earlier);
      assert forall sha :: sha in lists.accepted + [last] <==> sha in lists.accepted || sha == last;
    case EmptyScene =>
      IncreasingNext(lists.empty, last, earlier);
      assert forall sha :: sha in lists.empty + [last] <==> sha in lists.empty || sha == last;
    case Rejected(r) =>
      RejectedNext(lists.rejected, r, last);
  }

  lemma IncreasingNext(s: seq<Digest>, last: Digest, earlier: seq<Digest>)
    requires Increasing(s) && forall sha :: sha in s ==> sha in earlier
    requires forall sha :: sha in earlier ==> sha < last
    ensures Increasing(s + [last])
  {
    forall i | 0 <= i < |s|
      ensures s[i] < last
    {
      assert s[i] in s;
    }
  }

  lemma RejectedNext(rejected: seq<Rejection>, r: Rejection, sha: Digest)
    requires r.sha == Some(sha) && sha !in Named(rejected)
    requires forall i, j :: 0 <= i < j < |rejected| ==> rejected[i].sha != rejected[j].sha
    ensures Named(rejected + [r]) == Named(rejected) + {sha}
    ensures forall i, j :: 0 <= i < j < |rejected + [r]| ==> (rejected + [r])[i].sha != (rejected + [r])[j].sha
  {
    assert forall x :: x in rejected + [r] <==> x in rejected || x == r;
    forall i | 0 <= i < |rejected|
      ensures rejected[i].sha != Some(sha)
    {
      assert rejected[i] in rejected;
    }
  }

  // ---- the report's order ----

  /** Lexicographic order of reason tuples. */
  predicate ReasonsLe(x: seq<Reason>, y: seq<Reason>) {
    x == [] || (y != [] && (x[0] < y[0] || (x[0] == y[0] && ReasonsLe(x[1..], y[1..]))))
  }

  lemma {:induction false} ReasonsLeTotal(x: seq<Reason>, y: seq<Reason>)
    ensures ReasonsLe(x, y) || ReasonsLe(y, x)
  {
    if x != [] && y != [] {
      ReasonsLeTotal(x[1..], y[1..]);
    }
  }

  lemma {:induction false} ReasonsLeTransitive(x: seq<Reason>, y: seq<Reason>, z: seq<Reason>)
    requires ReasonsLe(x, y) && ReasonsLe(y, z)
    ensures ReasonsLe(x, z)
  {
    if x != [] && x[0] == y[0] && y[0] == z[0] {
      ReasonsLeTransitive(x[1..], y[1..], z[1..]);
    }
  }

  /** An absent value sorts first: "" before any digest, -1 before any line. */
  function Rank(value: Option<nat>): int {
    if value.None? then -1 else value.value
  }

  /** `(sha or "", queue_line, label_line, reasons)` */
  predicate RejectionLe(x: Rejection, y: Rejection) {
    if x.sha != y.sha then Rank(x.sha) < Rank(y.sha)
    else if x.queueLine != y.queueLine then Rank(x.queueLine) < Rank(y.queueLine)
    else if x.labelLine != y.labelLine then Rank(x.labelLine) < Rank(y.labelLine)
    else ReasonsLe(x.reasons, y.reasons)
  }

  lemma RejectionOrder()
    ensures TotalPreorder(RejectionLe)
  {
    forall x: Rejection, y: Rejection
      ensures RejectionLe(x, y) || RejectionLe(y, x)
    {
      ReasonsLeTotal(x.reasons, y.reasons);
    }
    forall x: Rejection, y: Rejection, z: Rejection | RejectionLe(x, y) && RejectionLe(y, z)
      ensures RejectionLe(x, z)
    {
      if x.sha == y.sha == z.sha && x.queueLine == y.queueLine == z.queueLine &&
        x.labelLine == y.labelLine == z.labelLine {
        ReasonsLeTransitive(x.reasons, y.reasons, z.reasons);
      }
    }
  }

  /** Reason by reason, and a tuple before its extensions. */
  ghost predicate ReasonsPrecede(x: seq<Reason>, y: seq<Reason>) {
    exists n: nat :: SplitsAt(x, y, n)
  }

  /** They agree up to position `n`, where the first ends or has the lower reason. */
  ghost predicate SplitsAt(x: seq<Reason>, y: seq<Reason>, n: nat) {
    n <= |x| && n <= |y| && x[..n] == y[..n] && (n == |x| || (n < |y| && x[n] < y[n]))
  }

  /** An absent value before any other. */
  predicate Lower(x: Option<nat>, y: Option<nat>) {
    y.Some? && (x.None? || x.value < y.value)
  }

  /** By source, then queue line, then label line, then reasons. */
  ghost predicate Precedes(x: Rejection, y: Rejection) {
    || Lower(x.sha, y.sha)
    || (x.sha == y.sha && Lower(x.queueLine, y.queueLine))
    || (x.sha == y.sha && x.queueLine == y.queueLine && Lower(x.labelLine, y.labelLine))
    || (x.sha == y.sha && x.queueLine == y.queueLine && x.labelLine == y.labelLine &&
        ReasonsPrecede(x.reasons, y.reasons))
  }

  lemma CommonHead(x: seq<Reason>, y: seq<Reason>, n: nat)
    requires n <= |x| && n <= |y| && x[..n] == y[..n]
    ensures n > 0 ==> x[0] == y[0]
  {
    if n > 0 {
      assert x[..n][0] == y[..n][0];
    }
  }

  lemma {:induction false} ReasonsLeIs(x: seq<Reason>, y: seq<Reason>)
    ensures ReasonsLe(x, y) <==> ReasonsPrecede(x, y)
  {
    if x == [] {
      assert SplitsAt(x, y, 0);
    } else if y != [] && x[0] == y[0] {
      ReasonsLeIs(x[1..], y[1..]);
      forall n: nat
        ensures SplitsAt(x[1..], y[1..], n) <==> SplitsAt(x, y, n + 1)
      {
        if n < |x| && n < |y| {
          assert x[..n + 1] == [x[0]] + x[1..][..n] && y[..n + 1] == [y[0]] + y[1..][..n];
        }
      }
      if n: nat :| SplitsAt(x[1..], y[1..], n) {
        assert SplitsAt(x, y, n + 1);
      }
      if n: nat :| SplitsAt(x, y, n) {
        assert SplitsAt(x[1..], y[1..], n - 1);
      }
    } else if y != [] {
      assert x[0] < y[0] ==> SplitsAt(x, y, 0);
      forall n: nat | SplitsAt(x, y, n)
        ensures n == 0
      {
        CommonHead(x, y, n);
      }
    }
  }

  /** The report's canonical order, spelled out. */
  lemma OrderSpelledOut(x: Rejection, y: Rejection)
    ensures RejectionLe(x, y) <==> Precedes(x, y)
  {
    ReasonsLeIs(x.reasons, y.reasons);
  }

  ghost predicate InOrder(rejections: seq<Rejection>) {
    forall i, j :: 0 <= i < j < |rejections| ==> Precedes(rejections[i], rejections[j])
  }

  lemma {:induction false} SortedIsInOrder(rejections: seq<Rejection>)
    ensures rejections == Sort(rejections, RejectionLe) <==> InOrder(rejections)
  {
    RejectionOrder();
    SortAscends(rejections, RejectionLe);
    forall i, j | 0 <= i < j < |rejections|
      ensures RejectionLe(rejections[i], rejections[j]) <==> Precedes(rejections[i], rejections[j])
    {
      OrderSpelledOut(rejections[i], rejections[j]);
    }
    if InOrder(rejections) {
      SortFixesAscending(rejections, RejectionLe);
    }
  }

  /** `Counter(reason for row in rejections for reason in row["reasons"])` */
  function CountReasons(rejections: seq<Rejection>): multiset<Reason> {
    if rejections == [] then multiset{}
    else CountReasons(rejections[..|rejections| - 1]) + multiset(rejections[|rejections| - 1].reasons)
  }

  ghost function Naming(rejections: seq<Rejection>, reason: Reason): set<nat> {
    set k | 0 <= k < |rejections| && reason in rejections[k].reasons
  }

  lemma NamingNext(rejections: seq<Rejection>, x: Rejection, reason: Reason)
    ensures |Naming(rejections + [x], reason)| == |Naming(rejections, reason)| + if reason in x.reasons then 1 else 0
  {
    var all := rejections + [x];
    assert forall k: nat :: k in Naming(all, reason) <==> k < |all| && reason in all[k].reasons;
    assert Naming(all, reason) == Naming(rejections, reason) + if reason in x.reasons then {|rejections|} else {};
  }

  /** Where no rejection repeats a reason, the counter of a reason is the number of rejections that name it. */
  lemma {:induction false} ReasonsCounted(rejections: seq<Rejection>, reason: Reason)
    requires forall k :: 0 <= k < |rejections| ==> Distinct(rejections[k].reasons)
    ensures CountReasons(rejections)[reason] == |Naming(rejections, reason)|
  {
    if rejections == [] {
      assert Naming(rejections, reason) == {};
    } else {
      var init, last := rejections[..|rejections| - 1], rejections[|rejections| - 1];
      ReasonsCounted(init, reason);
      assert rejections == init + [last];
      NamingNext(init, last, reason);
      CountedOnce(last.reasons, reason);
    }
  }

  lemma CountedOnce(reasons: seq<Reason>, reason: Reason)
    requires Distinct(reasons)
    ensures multiset(reasons)[reason] == if reason in reasons then 1 else 0
  {
    if reason in reasons {
      OnceInMultiset(reasons, reason);
    }
  }

  /** Every count of the report is that of what it counts. */
  ghost predicate Counted(r: Report) {
    && r.acceptedCount == |r.accepted| + |r.empty| && r.cropReady == |r.accepted| && r.emptyRows == |r.empty|
    && r.rejectedRecords == |r.rejections| && r.reasonCounts == CountReasons(r.rejections)
  }

  // ---- the producer ----

  /** The rejections of malformed rows: one each, in the order of the rows. */
  ghost predicate Malformed(rows: seq<Line>, reason: Reason, fromQueue: bool, at: seq<nat>, invalid: seq<Rejection>) {
    && |at| == |invalid| && Increasing(at)
    && (forall n: nat :: n in at <==> n < |rows| && rows[n].sha.None?)
    && (forall k :: 0 <= k < |at| ==>
          at[k] < |rows| &&
          invalid[k] == (if fromQueue then Rejection(None, Some(rows[at[k]].number), None, [reason], None)
                         else Rejection(None, None, Some(rows[at[k]].number), [reason], None)))
  }

  ghost predicate AllMalformed(rows: seq<Line>, reason: Reason, fromQueue: bool, invalid: seq<Rejection>) {
    exists at :: Malformed(rows, reason, fromQueue, at, invalid)
  }

  lemma MalformedNext(rows: seq<Line>, row: Line, reason: Reason, fromQueue: bool, at: seq<nat>,
                      invalid: seq<Rejection>)
    requires Malformed(rows, reason, fromQueue, at, invalid) && row.sha.None?
    ensures var x := if fromQueue then Rejection(None, Some(row.number), None, [reason], None)
                     else Rejection(None, None, Some(row.number), [reason], None);
      Malformed(rows + [row], reason, fromQueue, at + [|rows|], invalid + [x])
  {
    forall k | 0 <= k < |at|
      ensures at[k] < |rows|
    {
      assert at[k] in at;
    }
  }

  lemma MalformedSame(rows: seq<Line>, row: Line, reason: Reason, fromQueue: bool, at: seq<nat>,
                      invalid: seq<Rejection>)
    requires Malformed(rows, reason, fromQueue, at, invalid) && row.sha.Some?
    ensures Malformed(rows + [row], reason, fromQueue, at, invalid)
  {
  }

  ghost predicate Grouped(rows: seq<Line>, groups: map<Digest, seq<Line>>) {
    groups.Keys == ShasOf(rows) && forall sha :: sha in groups ==> groups[sha] == RowsWith(rows, sha)
  }

  lemma GroupedNext(rows: seq<Line>, row: Line, groups: map<Digest, seq<Line>>)
    requires Grouped(rows, groups)
    ensures row.sha.None? ==> Grouped(rows + [row], groups)
    ensures row.sha.Some? ==>
      Grouped(rows + [row], groups[row.sha.value := Get(groups, row.sha.value) + [row]])
  {
    assert (rows + [row])[..|rows|] == rows;
    assert ShasOf(rows + [row]) == ShasOf(rows) + if row.sha.Some? then {row.sha.value} else {};
    if row.sha.Some? {
      NoRows(rows, row.sha.value);
    }
  }

  lemma MalformedAre(rows: seq<Line>, reason: Reason, fromQueue: bool, at: seq<nat>, invalid: seq<Rejection>)
    requires Malformed(rows, reason, fromQueue, at, invalid)
    ensures invalid == [] <==> forall row :: row in rows ==> row.sha.Some?
    ensures forall r :: r in invalid ==> r.sha == None
  {
    if invalid != [] {
      assert at[0] in at && rows[at[0]] in rows;
    }
  }

  /** Rows by SHA, and one rejection for every malformed row. */
  method GroupRows(rows: seq<Line>, reason: Reason, fromQueue: bool)
    returns (groups: map<Digest, seq<Line>>, invalid: seq<Rejection>)
    ensures Grouped(rows, groups)
    ensures AllMalformed(rows, reason, fromQueue, invalid)
    ensures invalid == [] <==> forall row :: row in rows ==> row.sha.Some?
    ensures forall r :: r in invalid ==> r.sha == None
  {
    groups, invalid := map[], [];
    ghost var at: seq<nat> := [];
    for n := 0 to |rows|
      invariant Grouped(rows[..n], groups) && Malformed(rows[..n], reason, fromQueue, at, invalid)
    {
      var row := rows[n];
      assert rows[..n + 1] == rows[..n] + [row];
      GroupedNext(rows[..n], row, groups);
      if row.sha.None? {
        MalformedNext(rows[..n], row, reason, fromQueue, at, invalid);
        var line := Some(row.number);
        invalid := invalid + [Rejection(None, if fromQueue then line else None, if fromQueue then None else line,
                                        [reason], None)];
        at := at + [n];
      } else {
        MalformedSame(rows[..n], row, reason, fromQueue, at, invalid);
        groups := groups[row.sha.value := Get(groups, row.sha.value) + [row]];
      }
    }
    assert rows[..|rows|] == rows;
    MalformedAre(rows, reason, fromQueue, at, invalid);
  }

  lemma SortedIsCanonical(reasons: seq<Reason>)
    requires reasons != []
    ensures var s := SortedNats(AsSet(reasons)); s != [] && s == SortedNats(AsSet(s))
  {
    var s := SortedNats(AsSet(reasons));
    assert reasons[0] in s;
    assert AsSet(s) == AsSet(reasons);
  }

  lemma SingleIsCanonical(reason: Reason)
    ensures SortedNats(AsSet([reason])) == [reason]
  {
    assert AsSet([reason]) == {reason};
    var s := SortedNats({reason});
    assert |s| == 1 && s[0] in s;
  }

  function FateIn(names: Reasons, judge: Judge, queue: seq<Line>, labels: seq<Line>): Digest -> Fate {
    (sha: Digest) => FateOf(names, judge, sha, RowsWith(queue, sha), RowsWith(labels, sha))
  }

  lemma FateIsWellRejected(names: Reasons, judge: Judge, sha: Digest, q: seq<Line>, l: seq<Line>)
    ensures var fate := FateOf(names, judge, sha, q, l);
      fate.Rejected? ==> fate.rejection.sha == Some(sha) && Canonical(fate.rejection)
  {
    SingleIsCanonical(names.duplicateQueue);
    SingleIsCanonical(names.missingLabel);
    SingleIsCanonical(names.duplicateLabel);
    if |q| == 1 && |l| == 1 && judge(q[0], l[0]).0 != [] {
      SortedIsCanonical(judge(q[0], l[0]).0);
    }
  }

  function Get(groups: map<Digest, seq<Line>>, sha: Digest): seq<Line> {
    if sha in groups then groups[sha] else []
  }

  /** The main loop over the sorted queue sources. */
  method DecideAll(names: Reasons, judge: Judge, queueGroups: map<Digest, seq<Line>>,
                   labelGroups: map<Digest, seq<Line>>, order: seq<Digest>, ghost fate: Digest -> Fate)
    returns (lists: Lists)
    requires forall sha :: sha in order ==>
      sha in queueGroups && FateOf(names, judge, sha, queueGroups[sha], Get(labelGroups, sha)) == fate(sha)
    ensures lists == Outcomes(fate, order)
  {
    lists := Lists([], [], []);
    for n := 0 to |order|
      invariant lists == Outcomes(fate, order[..n])
    {
      var sha := order[n];
      assert sha in order && order[..n + 1][..n] == order[..n];
      lists := Place(lists, sha, FateOf(names, judge, sha, queueGroups[sha], Get(labelGroups, sha)));
    }
    assert order[..|order|] == order;
  }

  lemma {:induction false} NoRows(rows: seq<Line>, sha: Digest)
    ensures sha !in ShasOf(rows) ==> RowsWith(rows, sha) == []
  {
    if rows != [] {
      NoRows(rows[..|rows| - 1], sha);
      assert rows == rows[..|rows| - 1] + [rows[|rows| - 1]];
    }
  }

  /** The rejection of a source that is only labelled. */
  function Stray(names: Reasons, sha: Digest): Rejection {
    Rejection(Some(sha), None, None, [names.labelOnly], None)
  }

  function LabelOnly(names: Reasons, order: seq<Digest>): seq<Rejection> {
    if order == [] then []
    else LabelOnly(names, order[..|order| - 1]) + [Stray(names, order[|order| - 1])]
  }

  /** Labels whose source is not queued are rejected too. */
  method RejectLabelOnly(names: Reasons, order: seq<Digest>) returns (rejected: seq<Rejection>)
    ensures rejected == LabelOnly(names, order)
  {
    rejected := [];
    for n := 0 to |order|
      invariant rejected == LabelOnly(names, order[..n])
    {
      assert order[..n + 1][..n] == order[..n];
      rejected := rejected + [Stray(names, order[n])];
    }
    assert order[..|order|] == order;
  }

  lemma {:induction false} StraysAreListed(names: Reasons, order: seq<Digest>)
    ensures forall sha :: sha in order ==> Stray(names, sha) in LabelOnly(names, order)
    ensures forall r :: r in LabelOnly(names, order) ==>
      r.sha.Some? && r.sha.value in order && r == Stray(names, r.sha.value)
  {
    if order != [] {
      StraysAreListed(names, order[..|order| - 1]);
      assert order == order[..|order| - 1] + [order[|order| - 1]];
    }
  }

  lemma {:induction false} StraysAreDistinct(names: Reasons, order: seq<Digest>)
    requires Increasing(order)
    ensures |LabelOnly(names, order)| == |order|
    ensures forall i :: 0 <= i < |order| ==> LabelOnly(names, order)[i] == Stray(names, order[i])
  {
    if order != [] {
      StraysAreDistinct(names, order[..|order| - 1]);
    }
  }

  lemma {:induction false} LabelOnlyNames(names: Reasons, order: seq<Digest>)
    requires Increasing(order)
    ensures var rejected := LabelOnly(names, order);
      && Named(rejected) == (set sha | sha in order)
      && (forall r :: r in rejected ==> r.sha.Some? && r == Stray(names, r.sha.value))
      && (forall r :: r in rejected ==> r.sha.Some? && Canonical(r))
      && (forall i, j :: 0 <= i < j < |rejected| ==> rejected[i].sha != rejected[j].sha)
  {
    StraysAreListed(names, order);
    StraysAreDistinct(names, order);
    SingleIsCanonical(names.labelOnly);
    forall sha | sha in order
      ensures sha in Named(LabelOnly(names, order))
    {
      assert Stray(names, sha) in LabelOnly(names, order);
    }
  }

  // ---- what the report says ----

  ghost predicate AllValid(rows: seq<Line>) {
    forall row :: row in rows ==> row.sha.Some?
  }

  /** Each queued source has exactly the place its fate gives it. */
  ghost predicate PlacedByFate(fate: Digest -> Fate, queued: set<Digest>, r: Report) {
    && (forall sha :: sha in r.accepted <==> sha in queued && fate(sha).Accepted?)
    && (forall sha :: sha in r.empty <==> sha in queued && fate(sha).EmptyScene?)
    && (forall sha :: sha in queued && fate(sha).Rejected? ==> fate(sha).rejection in r.rejections)
  }

  lemma {:induction false} OutcomesByFate(fate: Digest -> Fate, order: seq<Digest>)
    ensures var lists := Outcomes(fate, order);
      && (forall sha :: sha in lists.accepted <==> sha in order && fate(sha).Accepted?)
      && (forall sha :: sha in lists.empty <==> sha in order && fate(sha).EmptyScene?)
      && (forall sha :: sha in order && fate(sha).Rejected? ==> fate(sha).rejection in lists.rejected)
      && (forall r :: r in lists.rejected ==> exists sha :: sha in order && fate(sha) == Rejected(r))
  {
    if order != [] {
      var earlier, last := order[..|order| - 1], order[|order| - 1];
      OutcomesByFate(fate, earlier);
      assert order == earlier + [last];
    }
  }

  ghost predicate RejectionsDistinct(rejections: seq<Rejection>) {
    && (forall r :: r in rejections ==> r.sha.Some? && Canonical(r))
    && (forall i, j :: 0 <= i < j < |rejections| ==> rejections[i].sha != rejections[j].sha)
  }

  /** Accepted, empty-scene and rejected sources split the queue; rejections may also name label-only sources. */
  ghost predicate SplitsQueue(r: Report, queued: set<Digest>) {
    && Increasing(r.accepted) && Increasing(r.empty) && RejectionsDistinct(r.rejections)
    && (forall sha :: sha in queued <==>
          sha in r.accepted || sha in r.empty || (sha in Named(r.rejections) && sha in queued))
    && (forall sha :: !(sha in r.accepted && sha in r.empty))
    && (forall sha :: !(sha in r.accepted && sha in Named(r.rejections)))
    && (forall sha :: !(sha in r.empty && sha in Named(r.rejections)))
  }

  lemma JoinRejections(a: seq<Rejection>, b: seq<Rejection>)
    requires RejectionsDistinct(a) && RejectionsDistinct(b) && Named(a) !! Named(b)
    ensures RejectionsDistinct(a + b) && Named(a + b) == Named(a) + Named(b)
  {
    forall i, j | 0 <= i < |a| && 0 <= j < |b|
      ensures a[i].sha != b[j].sha
    {
      assert a[i] in a && b[j] in b;
      assert a[i].sha.value in Named(a) && b[j].sha.value in Named(b);
    }
    assert forall x :: x in a + b <==> x in a || x in b;
  }

  lemma {:induction false} SortRejections(rejections: seq<Rejection>)
    ensures var sorted := Sort(rejections, RejectionLe);
      && Sort(sorted, RejectionLe) == sorted && Named(sorted) == Named(rejections)
      && (forall x :: x in sorted <==> x in rejections)
      && (RejectionsDistinct(rejections) ==> RejectionsDistinct(sorted))
  {
    RejectionOrder();
    SortAscends(rejections, RejectionLe);
    SortMembers(rejections, RejectionLe);
    SortFixesAscending(Sort(rejections, RejectionLe), RejectionLe);
    if RejectionsDistinct(rejections) {
      SortKeepsDistinct(rejections, Sort(rejections, RejectionLe));
    }
  }

  lemma SortKeepsDistinct(a: seq<Rejection>, b: seq<Rejection>)
    requires RejectionsDistinct(a) && multiset(a) == multiset(b)
    ensures RejectionsDistinct(b)
  {
    SameMembers(a, b);
    assert Distinct(a);
    PermutationDistinct(a, b);
    forall i, j | 0 <= i < j < |b|
      ensures b[i].sha != b[j].sha
    {
      assert b[i] in a && b[j] in a;
      var x :| 0 <= x < |a| && a[x] == b[i];
      var y :| 0 <= y < |a| && a[y] == b[j];
      assert x < y || y < x;
    }
  }

  // ---- the report, said of the lines ----

  /** What speaks against a queue line and its label. */
  type Against = (Line, Line, Reason) -> bool

  function Spoken(judge: Judge): Against {
    (line: Line, answer: Line, reason: Reason) => reason in judge(line, answer).0
  }

  function Negated(judge: Judge): (Line, Line) -> bool {
    (line: Line, answer: Line) => judge(line, answer).1
  }

  ghost predicate Absent(rows: seq<Line>, sha: Digest) {
    forall k :: 0 <= k < |rows| ==> rows[k].sha != Some(sha)
  }

  ghost predicate OnlyAt(rows: seq<Line>, sha: Digest, k: nat) {
    k < |rows| && rows[k].sha == Some(sha) && forall j :: 0 <= j < |rows| && rows[j].sha == Some(sha) ==> j == k
  }

  ghost predicate Repeated(rows: seq<Line>, sha: Digest) {
    exists j, k :: 0 <= j < k < |rows| && rows[j].sha == Some(sha) && rows[k].sha == Some(sha)
  }

  /** The only queue line and the only label of a source. */
  ghost predicate OnlyPair(queue: seq<Line>, labels: seq<Line>, sha: Digest, j: nat, k: nat) {
    OnlyAt(queue, sha, j) && OnlyAt(labels, sha, k)
  }

  ghost predicate Clean(against: Against, line: Line, answer: Line) {
    forall reason :: !against(line, answer, reason)
  }

  /** The rejection of such a pair: both line numbers, every reason once and in order, and the decision's quality. */
  ghost predicate RejectsPair(against: Against, sha: Digest, line: Line, answer: Line, x: Rejection) {
    && x.sha == Some(sha) && x.queueLine == Some(line.number) && x.labelLine == Some(answer.number)
    && (forall i, j :: 0 <= i < j < |x.reasons| ==> x.reasons[i] < x.reasons[j])
    && (forall reason :: reason in x.reasons <==> against(line, answer, reason))
    && (x.quality.Some? <==> answer.opinion.decision.Some?)
    && (x.quality.Some? ==> x.quality.value == answer.opinion.decision.value.quality)
  }

  /** Where a source is listed, and why. */
  ghost predicate ListedAs(names: Reasons, against: Against, negative: (Line, Line) -> bool, queue: seq<Line>,
                           labels: seq<Line>, lists: Lists, sha: Digest)
  {
    && (sha in lists.accepted <==> exists j: nat, k: nat ::
          OnlyPair(queue, labels, sha, j, k) && Clean(against, queue[j], labels[k]) && !negative(queue[j], labels[k]))
    && (sha in lists.empty <==> exists j: nat, k: nat ::
          OnlyPair(queue, labels, sha, j, k) && Clean(against, queue[j], labels[k]) && negative(queue[j], labels[k]))
    && (forall j: nat, k: nat :: OnlyPair(queue, labels, sha, j, k) && !Clean(against, queue[j], labels[k]) ==>
          exists x :: x in lists.rejected && RejectsPair(against, sha, queue[j], labels[k], x))
    && (Repeated(queue, sha) ==>
          Rejection(Some(sha), None, None, [names.duplicateQueue], None) in lists.rejected)
    && (forall j: nat :: OnlyAt(queue, sha, j) && Absent(labels, sha) ==>
          Rejection(Some(sha), None, None, [names.missingLabel], None) in lists.rejected)
    && (forall j: nat :: OnlyAt(queue, sha, j) && Repeated(labels, sha) ==>
          Rejection(Some(sha), None, None, [names.duplicateLabel], None) in lists.rejected)
    && (Absent(queue, sha) && !Absent(labels, sha) ==>
          Rejection(Some(sha), None, None, [names.labelOnly], None) in lists.rejected)
    && (Absent(queue, sha) && Absent(labels, sha) ==>
          forall x :: x in lists.rejected ==> x.sha != Some(sha))
  }

  /** Every source in its list, every malformed row beside them, and nothing else. */
  ghost predicate Lawful(names: Reasons, against: Against, negative: (Line, Line) -> bool, queue: seq<Line>,
                         labels: seq<Line>, r: Report)
  {
    exists lists, invalidQueue, invalidLabels ::
      && AllListed(names, against, negative, queue, labels, lists)
      && AllMalformed(queue, names.badQueueSha, true, invalidQueue)
      && AllMalformed(labels, names.badLabelSha, false, invalidLabels)
      && Gathers(r, lists, invalidQueue, invalidLabels)
  }

  ghost predicate AllListed(names: Reasons, against: Against, negative: (Line, Line) -> bool, queue: seq<Line>,
                            labels: seq<Line>, lists: Lists)
  {
    && (forall sha :: ListedAs(names, against, negative, queue, labels, lists, sha))
    && (forall x :: x in lists.rejected ==> x.sha.Some?)
    && (forall i, j :: 0 <= i < j < |lists.rejected| ==> lists.rejected[i].sha != lists.rejected[j].sha)
  }

  ghost predicate Gathers(r: Report, lists: Lists, invalidQueue: seq<Rejection>, invalidLabels: seq<Rejection>) {
    && r.accepted == lists.accepted && r.empty == lists.empty && Increasing(r.accepted) && Increasing(r.empty)
    && multiset(r.rejections) == multiset(lists.rejected) + multiset(invalidQueue) + multiset(invalidLabels)
  }

  lemma {:induction false} RowsWithSays(rows: seq<Line>, sha: Digest)
    ensures Absent(rows, sha) <==> RowsWith(rows, sha) == []
    ensures forall k: nat :: OnlyAt(rows, sha, k) ==> RowsWith(rows, sha) == [rows[k]]
    ensures |RowsWith(rows, sha)| == 1 <==> exists k: nat :: OnlyAt(rows, sha, k)
    ensures Repeated(rows, sha) <==> |RowsWith(rows, sha)| > 1
  {
    if rows != [] {
      var init, n := rows[..|rows| - 1], |rows| - 1;
      RowsWithSays(init, sha);
      assert rows == init + [rows[n]];
      if rows[n].sha == Some(sha) {
        LastAdds(init, rows[n], sha);
        assert Absent(init, sha) ==> OnlyAt(rows, sha, n);
      } else {
        OtherAddsNothing(init, rows[n], sha);
      }
    }
  }

  lemma LastAdds(init: seq<Line>, row: Line, sha: Digest)
    requires row.sha == Some(sha)
    ensures !Absent(init + [row], sha)
    ensures forall k: nat :: OnlyAt(init + [row], sha, k) <==> k == |init| && Absent(init, sha)
    ensures Repeated(init + [row], sha) <==> !Absent(init, sha)
  {
    var rows := init + [row];
    assert rows[|init|] == row && forall k :: 0 <= k < |init| ==> rows[k] == init[k];
    if !Absent(init, sha) {
      var j :| 0 <= j < |init| && init[j].sha == Some(sha);
      assert rows[j].sha == Some(sha);
    }
  }

  lemma OtherAddsNothing(init: seq<Line>, row: Line, sha: Digest)
    requires row.sha != Some(sha)
    ensures Absent(init + [row], sha) <==> Absent(init, sha)
    ensures forall k: nat :: OnlyAt(init + [row], sha, k) <==> OnlyAt(init, sha, k)
    ensures Repeated(init + [row], sha) <==> Repeated(init, sha)
  {
    var rows := init + [row];
    assert rows[|init|] == row && forall k :: 0 <= k < |init| ==> rows[k] == init[k];
    if Repeated(init, sha) {
      var j, k :| 0 <= j < k < |init| && init[j].sha == Some(sha) && init[k].sha == Some(sha);
      assert rows[j].sha == Some(sha) && rows[k].sha == Some(sha);
    }
  }

  /** The place a source's fate gives it, said of its lines. */
  lemma {:induction false} FateIsListed(names: Reasons, judge: Judge, queue: seq<Line>, labels: seq<Line>, lists: Lists,
                                        sha: Digest)
    requires var fate := FateOf(names, judge, sha, RowsWith(queue, sha), RowsWith(labels, sha));
      && (sha in lists.accepted <==> !Absent(queue, sha) && fate.Accepted?)
      && (sha in lists.empty <==> !Absent(queue, sha) && fate.EmptyScene?)
      && (!Absent(queue, sha) && fate.Rejected? ==> fate.rejection in lists.rejected)
    requires Absent(queue, sha) && !Absent(labels, sha) ==> Stray(names, sha) in lists.rejected
    requires Absent(queue, sha) && Absent(labels, sha) ==> forall x :: x in lists.rejected ==> x.sha != Some(sha)
    ensures ListedAs(names, Spoken(judge), Negated(judge), queue, labels, lists, sha)
  {
    RowsWithSays(queue, sha);
    RowsWithSays(labels, sha);
    var against := Spoken(judge);
    if |RowsWith(queue, sha)| == 1 && |RowsWith(labels, sha)| == 1 {
      var j: nat :| OnlyAt(queue, sha, j);
      var k: nat :| OnlyAt(labels, sha, k);
      assert OnlyPair(queue, labels, sha, j, k);
      var reasons := judge(queue[j], labels[k]).0;
      assert forall j', k' :: OnlyPair(queue, labels, sha, j', k') ==> j' == j && k' == k;
      assert Clean(against, queue[j], labels[k]) <==> reasons == [] by {
        if reasons != [] {
          assert against(queue[j], labels[k], reasons[0]);
        }
      }
      if reasons != [] {
        var x := FateOf(names, judge, sha, [queue[j]], [labels[k]]).rejection;
        assert RejectsPair(against, sha, queue[j], labels[k], x);
      }
    }
  }

  /** The decided sources' lists: each where its fate puts it, and no rejection twice. */
  lemma {:induction false} DecidedLists(names: Reasons, judge: Judge, queue: seq<Line>, labels: seq<Line>,
                                        order: seq<Digest>, lists: Lists)
    requires Increasing(order) && lists == Outcomes(FateIn(names, judge, queue, labels), order)
    ensures Increasing(lists.accepted) && Increasing(lists.empty) && RejectionsDistinct(lists.rejected)
    ensures forall x :: x in lists.rejected ==> x.sha.Some? && x.sha.value in order
    ensures forall sha ::
      var fate := FateOf(names, judge, sha, RowsWith(queue, sha), RowsWith(labels, sha));
      && (sha in lists.accepted <==> sha in order && fate.Accepted?)
      && (sha in lists.empty <==> sha in order && fate.EmptyScene?)
      && (sha in order && fate.Rejected? ==> fate.rejection in lists.rejected)
  {
    AllWellRejected(names, judge, queue, labels, order);
    OutcomesPartition(FateIn(names, judge, queue, labels), order);
    OutcomesByFate(FateIn(names, judge, queue, labels), order);
    forall x | x in lists.rejected
      ensures x.sha.Some? && x.sha.value in order
    {
      assert x.sha.value in Named(lists.rejected);
    }
  }

  lemma {:induction false} StraysJoin(names: Reasons, order: seq<Digest>, rejected: seq<Rejection>,
                                      labelOrder: seq<Digest>, labelOnly: seq<Rejection>)
    requires RejectionsDistinct(rejected) && forall x :: x in rejected ==> x.sha.Some? && x.sha.value in order
    requires Increasing(labelOrder) && labelOnly == LabelOnly(names, labelOrder)
    requires forall sha :: sha in labelOrder ==> sha !in order
    ensures RejectionsDistinct(rejected + labelOnly)
    ensures forall sha :: sha in labelOrder ==> Stray(names, sha) in labelOnly
    ensures forall x :: x in labelOnly ==> x.sha.Some? && x.sha.value in labelOrder
  {
    LabelOnlyNames(names, labelOrder);
    JoinRejections(rejected, labelOnly);
    StraysAreListed(names, labelOrder);
  }

  /** The producer's lists, with the strays among the rejections, list every source as its lines say. */
  lemma {:induction false} ListsAreLawful(names: Reasons, judge: Judge, queue: seq<Line>, labels: seq<Line>,
                                          lists: Lists, labelOnly: seq<Rejection>)
    requires lists == Outcomes(FateIn(names, judge, queue, labels), SortedNats(ShasOf(queue)))
    requires labelOnly == LabelOnly(names, SortedNats(ShasOf(labels) - ShasOf(queue)))
    ensures Increasing(lists.accepted) && Increasing(lists.empty)
    ensures var all := lists.(rejected := lists.rejected + labelOnly);
      AllListed(names, Spoken(judge), Negated(judge), queue, labels, all)
  {
    var order, labelOrder := SortedNats(ShasOf(queue)), SortedNats(ShasOf(labels) - ShasOf(queue));
    var all := lists.(rejected := lists.rejected + labelOnly);
    DecidedLists(names, judge, queue, labels, order, lists);
    StraysJoin(names, order, lists.rejected, labelOrder, labelOnly);
    forall sha
      ensures ListedAs(names, Spoken(judge), Negated(judge), queue, labels, all, sha)
    {
      SourceIsListed(names, judge, queue, labels, lists, order, labelOrder, labelOnly, sha);
    }
  }

  /** One source's place in the lists, the strays among the rejections. */
  lemma {:induction false} SourceIsListed(names: Reasons, judge: Judge, queue: seq<Line>, labels: seq<Line>,
                                          lists: Lists, order: seq<Digest>, labelOrder: seq<Digest>,
                                          labelOnly: seq<Rejection>, sha: Digest)
    requires sha in order <==> sha in ShasOf(queue)
    requires sha in labelOrder <==> sha in ShasOf(labels) && sha !in ShasOf(queue)
    requires var fate := FateOf(names, judge, sha, RowsWith(queue, sha), RowsWith(labels, sha));
      && (sha in lists.accepted <==> sha in order && fate.Accepted?)
      && (sha in lists.empty <==> sha in order && fate.EmptyScene?)
      && (sha in order && fate.Rejected? ==> fate.rejection in lists.rejected)
    requires sha in labelOrder ==> Stray(names, sha) in labelOnly
    requires forall x :: x in lists.rejected && x.sha == Some(sha) ==> sha in order
    requires forall x :: x in labelOnly && x.sha == Some(sha) ==> sha in labelOrder
    ensures ListedAs(names, Spoken(judge), Negated(judge), queue, labels,
                     lists.(rejected := lists.rejected + labelOnly), sha)
  {
    QueuedIsPresent(queue, sha);
    QueuedIsPresent(labels, sha);
    FateIsListed(names, judge, queue, labels, lists.(rejected := lists.rejected + labelOnly), sha);
  }

  lemma QueuedIsPresent(rows: seq<Line>, sha: Digest)
    ensures sha in ShasOf(rows) <==> !Absent(rows, sha)
  {
    if !Absent(rows, sha) {
      var k :| 0 <= k < |rows| && rows[k].sha == Some(sha);
      assert rows[k] in rows;
    }
  }

  lemma ReportGathers(invalidQueue: seq<Rejection>, invalidLabels: seq<Rejection>, lists: Lists,
                      labelOnly: seq<Rejection>, r: Report)
    requires Assembled(invalidQueue + invalidLabels, lists, labelOnly, r)
    requires Increasing(lists.accepted) && Increasing(lists.empty)
    ensures Gathers(r, lists.(rejected := lists.rejected + labelOnly), invalidQueue, invalidLabels)
  {
    SortMembers(invalidQueue + invalidLabels + (lists.rejected + labelOnly), RejectionLe);
    assert multiset(r.rejections) ==
      multiset(invalidQueue) + multiset(invalidLabels) + multiset(lists.rejected + labelOnly);
  }

  lemma {:induction false} ReportIsLawful(names: Reasons, judge: Judge, queue: seq<Line>, labels: seq<Line>,
                                          lists: Lists, labelOnly: seq<Rejection>, invalidQueue: seq<Rejection>,
                                          invalidLabels: seq<Rejection>, r: Report)
    requires lists == Outcomes(FateIn(names, judge, queue, labels), SortedNats(ShasOf(queue)))
    requires labelOnly == LabelOnly(names, SortedNats(ShasOf(labels) - ShasOf(queue)))
    requires AllMalformed(queue, names.badQueueSha, true, invalidQueue)
    requires AllMalformed(labels, names.badLabelSha, false, invalidLabels)
    requires Assembled(invalidQueue + invalidLabels, lists, labelOnly, r)
    ensures Lawful(names, Spoken(judge), Negated(judge), queue, labels, r)
  {
    ListsAreLawful(names, judge, queue, labels, lists, labelOnly);
    ReportGathers(invalidQueue, invalidLabels, lists, labelOnly, r);
  }

  // ---- producing and validating ----

  /** Sources outside the queue are rejected exactly when they are labelled, and for that reason alone. */
  ghost predicate StraysListed(names: Reasons, queued: set<Digest>, labelled: set<Digest>, r: Report) {
    && (forall x :: x in r.rejections && x.sha.Some? && x.sha.value !in queued ==>
          x.sha.value in labelled && x == Stray(names, x.sha.value))
    && (forall sha :: sha in labelled && sha !in queued ==> sha in Named(r.rejections))
  }

  /** What the producer's lists amount to when every input line is well formed. */
  ghost predicate Faithful(names: Reasons, judge: Judge, queue: seq<Line>, labels: seq<Line>, r: Report) {
    && SplitsQueue(r, ShasOf(queue)) && PlacedByFate(FateIn(names, judge, queue, labels), ShasOf(queue), r)
    && StraysListed(names, ShasOf(queue), ShasOf(labels), r)
  }

  /** The unsorted rejections of well-formed inputs: the queue's own and those of label-only sources. */
  lemma {:induction false} ListsAreFaithful(names: Reasons, fate: Digest -> Fate, order: seq<Digest>,
                                            labelOrder: seq<Digest>, queued: set<Digest>, labelled: set<Digest>,
                                            r: Report)
    requires Increasing(order) && Increasing(labelOrder)
    requires forall sha :: sha in order <==> sha in queued
    requires forall sha :: sha in labelOrder <==> sha in labelled && sha !in queued
    requires forall sha :: sha in order ==> WellRejected(fate, sha)
    requires r.accepted == Outcomes(fate, order).accepted && r.empty == Outcomes(fate, order).empty
    requires r.rejections == Sort(Outcomes(fate, order).rejected + LabelOnly(names, labelOrder), RejectionLe)
    ensures SplitsQueue(r, queued) && PlacedByFate(fate, queued, r) && StraysListed(names, queued, labelled, r)
  {
    OutcomesPartition(fate, order);
    OutcomesByFate(fate, order);
    LabelOnlyNames(names, labelOrder);
    JoinRejections(Outcomes(fate, order).rejected, LabelOnly(names, labelOrder));
    SortRejections(Outcomes(fate, order).rejected + LabelOnly(names, labelOrder));
  }

  /** The decision loop and the label-only loop over grouped lines. */
  method DecideQueue(names: Reasons, judge: Judge, queueGroups: map<Digest, seq<Line>>,
                     labelGroups: map<Digest, seq<Line>>, ghost queue: seq<Line>, ghost labels: seq<Line>)
    returns (lists: Lists, labelOnly: seq<Rejection>)
    requires Grouped(queue, queueGroups) && Grouped(labels, labelGroups)
    ensures lists == Outcomes(FateIn(names, judge, queue, labels), SortedNats(ShasOf(queue)))
    ensures labelOnly == LabelOnly(names, SortedNats(ShasOf(labels) - ShasOf(queue)))
  {
    var order := SortedNats(queueGroups.Keys);
    ghost var fate := FateIn(names, judge, queue, labels);
    forall sha | sha in order
      ensures sha in queueGroups && FateOf(names, judge, sha, queueGroups[sha], Get(labelGroups, sha)) == fate(sha)
    {
      NoRows(labels, sha);
    }
    lists := DecideAll(names, judge, queueGroups, labelGroups, order, fate);
    labelOnly := RejectLabelOnly(names, SortedNats(labelGroups.Keys - queueGroups.Keys));
  }

  lemma AllWellRejected(names: Reasons, judge: Judge, queue: seq<Line>, labels: seq<Line>, order: seq<Digest>)
    ensures forall sha :: sha in order ==> WellRejected(FateIn(names, judge, queue, labels), sha)
  {
    forall sha | sha in order
      ensures WellRejected(FateIn(names, judge, queue, labels), sha)
    {
      FateIsWellRejected(names, judge, sha, RowsWith(queue, sha), RowsWith(labels, sha));
    }
  }

  /** The producer: group, decide, add label-only rejections, sort, count. */
  method Produce(names: Reasons, judge: Judge, queue: seq<Line>, labels: seq<Line>) returns (r: Report)
    ensures r.queueRows == |queue| && Counted(r)
    ensures r.rejections == Sort(r.rejections, RejectionLe) && InOrder(r.rejections)
    ensures Lawful(names, Spoken(judge), Negated(judge), queue, labels, r)
    ensures AllValid(queue) && AllValid(labels) ==> Faithful(names, judge, queue, labels, r)
    ensures !(AllValid(queue) && AllValid(labels)) ==> exists x :: x in r.rejections && x.sha == None
  {
    var queueGroups, invalidQueue := GroupRows(queue, names.badQueueSha, true);
    var labelGroups, invalidLabels := GroupRows(labels, names.badLabelSha, false);
    var lists, labelOnly := DecideQueue(names, judge, queueGroups, labelGroups, queue, labels);
    r := Assemble(|queue|, invalidQueue + invalidLabels, lists, labelOnly);
    SortedIsInOrder(r.rejections);
    ReportIsLawful(names, judge, queue, labels, lists, labelOnly, invalidQueue, invalidLabels, r);
    if AllValid(queue) && AllValid(labels) {
      WellFormedIsFaithful(names, judge, queue, labels, lists, labelOnly, r);
    } else {
      InvalidIsListed(invalidQueue, invalidLabels);
    }
  }

  lemma InvalidIsListed(a: seq<Rejection>, b: seq<Rejection>)
    requires a != [] || b != []
    requires forall r :: r in a || r in b ==> r.sha == None
    ensures exists x :: x in a + b && x.sha == None
  {
    var x := if a != [] then a[0] else b[0];
    assert x in a + b;
  }

  lemma {:induction false} WellFormedIsFaithful(names: Reasons, judge: Judge, queue: seq<Line>, labels: seq<Line>,
                                                lists: Lists, labelOnly: seq<Rejection>, r: Report)
    requires lists == Outcomes(FateIn(names, judge, queue, labels), SortedNats(ShasOf(queue)))
    requires labelOnly == LabelOnly(names, SortedNats(ShasOf(labels) - ShasOf(queue)))
    requires Assembled([], lists, labelOnly, r)
    ensures Faithful(names, judge, queue, labels, r)
  {
    var order, labelOrder := SortedNats(ShasOf(queue)), SortedNats(ShasOf(labels) - ShasOf(queue));
    AllWellRejected(names, judge, queue, labels, order);
    OutcomesPartition(FateIn(names, judge, queue, labels), order);
    assert [] + (lists.rejected + labelOnly) == lists.rejected + labelOnly;
    ListsAreFaithful(names, FateIn(names, judge, queue, labels), order, labelOrder, ShasOf(queue), ShasOf(labels), r);
  }

  /** What sorting the lists must give; the first two are already sorted. */
  ghost predicate Assembled(invalid: seq<Rejection>, lists: Lists, labelOnly: seq<Rejection>, r: Report) {
    && r.rejections == Sort(invalid + (lists.rejected + labelOnly), RejectionLe)
    && (Increasing(lists.accepted) ==> r.accepted == lists.accepted)
    && (Increasing(lists.empty) ==> r.empty == lists.empty)
  }

  /** The final sorts and counts. */
  method Assemble(queueRows: nat, invalid: seq<Rejection>, lists: Lists, labelOnly: seq<Rejection>) returns (r: Report)
    ensures r.queueRows == queueRows && Counted(r)
    ensures r.rejections == Sort(r.rejections, RejectionLe) && Assembled(invalid, lists, labelOnly, r)
    ensures forall x :: x in invalid ==> x in r.rejections
  {
    var all := invalid + (lists.rejected + labelOnly);
    SortRejections(all);
    if Increasing(lists.accepted) {
      SortFixesAscending(lists.accepted, NatLe);
    }
    if Increasing(lists.empty) {
      SortFixesAscending(lists.empty, NatLe);
    }
    var rejections := Sort(all, RejectionLe);
    var accepted, empty := Sort(lists.accepted, NatLe), Sort(lists.empty, NatLe);
    r := Report(accepted, empty, |accepted| + |empty|, |accepted|, |empty|, queueRows, |rejections|,
                CountReasons(rejections), rejections);
  }

  /** Decided rejections name their source, and no two the same one. */
  ghost predicate DecidedOnce(rejections: seq<Rejection>) {
    && (forall k :: 0 <= k < |rejections| && rejections[k].quality.Some? ==> rejections[k].sha.Some?)
    && (forall i, j :: 0 <= i < j < |rejections| && rejections[i].quality.Some? && rejections[j].quality.Some? ==>
          rejections[i].sha != rejections[j].sha)
  }

  function DecidedNames(rejections: seq<Rejection>): set<Digest> {
    set x | x in rejections && x.quality.Some? && x.sha.Some? :: x.sha.value
  }

  /** Whether a further row may follow; `seen` are the sources decided so far. */
  predicate MayFollow(seen: set<Digest>, x: Rejection) {
    x.quality.Some? ==> x.sha.Some? && x.sha.value !in seen
  }

  lemma DecidedNext(earlier: seq<Rejection>, x: Rejection)
    requires DecidedOnce(earlier)
    ensures DecidedOnce(earlier + [x]) <==> MayFollow(DecidedNames(earlier), x)
  {
    var all := earlier + [x];
    if DecidedOnce(all) && x.quality.Some? {
      assert all[|earlier|] == x;
      forall k | 0 <= k < |earlier| && earlier[k].quality.Some?
        ensures earlier[k].sha != x.sha
      {
        assert all[k] == earlier[k];
      }
    }
    if MayFollow(DecidedNames(earlier), x) {
      forall k | 0 <= k < |earlier| && earlier[k].quality.Some? && x.quality.Some?
        ensures earlier[k].sha != x.sha
      {
        assert earlier[k] in earlier;
      }
    }
  }

  lemma DecidedPrefix(rejections: seq<Rejection>, n: nat)
    requires n <= |rejections| && DecidedOnce(rejections)
    ensures DecidedOnce(rejections[..n])
  {
  }

  lemma DecidedNamesNext(earlier: seq<Rejection>, x: Rejection)
    ensures DecidedNames(earlier + [x]) ==
      DecidedNames(earlier) + if x.quality.Some? && x.sha.Some? then {x.sha.value} else {}
  {
    assert forall y :: y in earlier + [x] <==> y in earlier || y == x;
  }

  /** The row loop of the report check. */
  method CheckRejections(rejections: seq<Rejection>) returns (ok: bool)
    ensures ok <==> (forall x :: x in rejections ==> Canonical(x)) && DecidedOnce(rejections)
  {
    var seen: set<Digest> := {};
    for n := 0 to |rejections|
      invariant forall x :: x in rejections[..n] ==> Canonical(x)
      invariant DecidedOnce(rejections[..n]) && seen == DecidedNames(rejections[..n])
    {
      var x := rejections[n];
      assert x in rejections && rejections[..n + 1] == rejections[..n] + [x];
      var fine := RowPasses(seen, rejections[..n], x);
      if !fine {
        if DecidedOnce(rejections) {
          DecidedPrefix(rejections, n + 1);
        }
        return false;
      }
      seen := seen + if x.quality.Some? then {x.sha.value} else {};
    }
    assert rejections[..|rejections|] == rejections;
    ok := true;
  }

  /** One row against the rows before it. */
  method RowPasses(seen: set<Digest>, ghost earlier: seq<Rejection>, x: Rejection) returns (ok: bool)
    requires DecidedOnce(earlier) && seen == DecidedNames(earlier)
    ensures ok <==> Canonical(x) && DecidedOnce(earlier + [x])
    ensures ok ==> MayFollow(seen, x)
    ensures DecidedNames(earlier + [x]) == seen + if x.quality.Some? && x.sha.Some? then {x.sha.value} else {}
  {
    DecidedNext(earlier, x);
    DecidedNamesNext(earlier, x);
    ok := Canonical(x) && MayFollow(seen, x);
  }

  method Recount(rejections: seq<Rejection>) returns (counted: multiset<Reason>)
    ensures counted == CountReasons(rejections)
  {
    counted := multiset{};
    for n := 0 to |rejections|
      invariant counted == CountReasons(rejections[..n])
    {
      assert rejections[..n + 1][..n] == rejections[..n];
      counted := counted + multiset(rejections[n].reasons);
    }
    assert rejections[..|rejections|] == rejections;
  }

  ghost predicate ReportOk(r: Report, queueRows: nat) {
    && r.queueRows == queueRows && r.rejectedRecords == |r.rejections|
    && (forall x :: x in r.rejections ==> Canonical(x)) && DecidedOnce(r.rejections)
    && r.reasonCounts == CountReasons(r.rejections) && r.rejections == Sort(r.rejections, RejectionLe)
  }

  /** A rejection's reasons in strict order, at least one, and line numbers from one. */
  predicate WellFormed(x: Rejection) {
    && x.reasons != [] && (forall i, j :: 0 <= i < j < |x.reasons| ==> x.reasons[i] < x.reasons[j])
    && (x.queueLine.Some? ==> x.queueLine.value >= 1) && (x.labelLine.Some? ==> x.labelLine.value >= 1)
  }

  ghost predicate AllWellFormed(rejections: seq<Rejection>) {
    forall k :: 0 <= k < |rejections| ==> WellFormed(rejections[k])
  }

  /** What the report check accepts, without sorting or counting. */
  ghost predicate ReportSays(r: Report, queueRows: nat) {
    && r.queueRows == queueRows && r.rejectedRecords == |r.rejections|
    && AllWellFormed(r.rejections) && DecidedOnce(r.rejections) && InOrder(r.rejections)
    && (forall reason :: r.reasonCounts[reason] == |Naming(r.rejections, reason)|)
  }

  lemma CanonicalIsWellFormed(x: Rejection)
    ensures Canonical(x) <==> WellFormed(x)
  {
    StrictIsSorted(x.reasons);
  }

  /** Strictly ascending reasons are what sorting their set gives. */
  lemma StrictIsSorted(reasons: seq<Reason>)
    ensures reasons == SortedNats(AsSet(reasons)) <==>
      forall i, j :: 0 <= i < j < |reasons| ==> reasons[i] < reasons[j]
  {
    if forall i, j :: 0 <= i < j < |reasons| ==> reasons[i] < reasons[j] {
      NatOrder();
      AscendingListingIsUnique(reasons, SortedNats(AsSet(reasons)), NatLe);
    }
  }

  /** The counters of well-formed rejections are numbers of rejections. */
  lemma {:induction false} CountsAreNamings(rejections: seq<Rejection>, counts: multiset<Reason>)
    requires AllWellFormed(rejections)
    ensures counts == CountReasons(rejections) <==> forall reason :: counts[reason] == |Naming(rejections, reason)|
  {
    forall reason
      ensures CountReasons(rejections)[reason] == |Naming(rejections, reason)|
    {
      forall k | 0 <= k < |rejections|
        ensures Distinct(rejections[k].reasons)
      {
        assert WellFormed(rejections[k]);
      }
      ReasonsCounted(rejections, reason);
    }
  }

  lemma AllCanonical(rejections: seq<Rejection>)
    ensures (forall x :: x in rejections ==> Canonical(x)) <==> AllWellFormed(rejections)
  {
    forall k | 0 <= k < |rejections|
      ensures Canonical(rejections[k]) <==> WellFormed(rejections[k])
      ensures rejections[k] in rejections
    {
      CanonicalIsWellFormed(rejections[k]);
    }
  }

  lemma ReportExactly(r: Report, queueRows: nat)
    ensures ReportOk(r, queueRows) <==> ReportSays(r, queueRows)
  {
    AllCanonical(r.rejections);
    if AllWellFormed(r.rejections) {
      CountsAreNamings(r.rejections, r.reasonCounts);
    }
    SortedIsInOrder(r.rejections);
  }

  /** `_validate_rejection_report`: both counts, canonical rows decided once, recounted reasons, canonical order. */
  method ValidateRejections(r: Report, queueRows: nat) returns (ok: bool)
    ensures ok <==> ReportOk(r, queueRows)
    ensures ok <==> ReportSays(r, queueRows)
  {
    ReportExactly(r, queueRows);
    if r.queueRows != queueRows || r.rejectedRecords != |r.rejections| {
      return false;
    }
    var rowsOk := CheckRejections(r.rejections);
    var counted := Recount(r.rejections);
    ok := rowsOk && r.reasonCounts == counted && r.rejections == Sort(r.rejections, RejectionLe);
  }

  /** Strictly increasing, as `shas == sorted(shas)` and no repeats. */
  method IsIncreasing(shas: seq<Digest>) returns (ok: bool)
    ensures ok <==> Increasing(shas)
  {
    for n := 0 to |shas|
      invariant Increasing(shas[..n])
    {
      if n > 0 && shas[n - 1] >= shas[n] {
        return false;
      }
      assert shas[..n + 1] == shas[..n] + [shas[n]];
    }
    assert shas[..|shas|] == shas;
    ok := true;
  }

  /** The rejected SHAs, unless one is missing or repeated. */
  method RejectedShas(rejections: seq<Rejection>) returns (r: Option<set<Digest>>)
    ensures r.Some? <==>
      (&& (forall x :: x in rejections ==> x.sha.Some?)
       && (forall i, j :: 0 <= i < j < |rejections| ==> rejections[i].sha != rejections[j].sha))
    ensures r.Some? ==> r.value == Named(rejections)
  {
    var seen: set<Digest> := {};
    for n := 0 to |rejections|
      invariant forall k :: 0 <= k < n ==> rejections[k].sha.Some? && rejections[k].sha.value in seen
      invariant forall sha :: sha in seen ==> exists k :: 0 <= k < n && rejections[k].sha == Some(sha)
      invariant forall i, j :: 0 <= i < j < n ==> rejections[i].sha != rejections[j].sha
    {
      if rejections[n].sha.None? {
        assert rejections[n] in rejections;
        return None;
      }
      if rejections[n].sha.value in seen {
        return None;
      }
      seen := seen + {rejections[n].sha.value};
    }
    assert seen == Named(rejections) by {
      forall sha | sha in seen
        ensures sha in Named(rejections)
      {
        var k :| 0 <= k < |rejections| && rejections[k].sha == Some(sha);
        assert rejections[k] in rejections;
      }
    }
    r := Some(seen);
  }

  /** The partition check over sets, as the validator writes it. */
  predicate PartitionOk(accepted: set<Digest>, empty: set<Digest>, rejected: set<Digest>, queued: set<Digest>) {
    && accepted !! empty && (accepted + empty) !! (rejected * queued) && accepted + empty <= queued
    && accepted + empty + rejected * queued == queued
  }

  /** Digests as the validator demands them: present, and in lower case. */
  predicate Plain(row: Line) {
    row.sha.Some? && row.lower
  }

  ghost predicate AllPlain(rows: seq<Line>) {
    forall row :: row in rows ==> Plain(row)
  }

  ghost predicate OutputsOk(r: Report, queue: seq<Line>, labels: seq<Line>, excluded: set<Digest>) {
    && Increasing(r.accepted) && Increasing(r.empty) && AllPlain(queue) && AllPlain(labels)
    && |r.accepted| == r.cropReady && |r.empty| == r.emptyRows && |r.accepted| + |r.empty| == r.acceptedCount
    && (forall x :: x in r.rejections ==> x.sha.Some?)
    && (forall i, j :: 0 <= i < j < |r.rejections| ==> r.rejections[i].sha != r.rejections[j].sha)
    && excluded !! AsSet(r.accepted) + AsSet(r.empty)
    && PartitionOk(AsSet(r.accepted), AsSet(r.empty), Named(r.rejections), ShasOf(queue))
  }

  ghost predicate Rejects(rejections: seq<Rejection>, sha: Digest) {
    exists k :: 0 <= k < |rejections| && rejections[k].sha == Some(sha)
  }

  /** Accepted and empty sources are queued, neither rejected nor excluded, and apart; no queued source is missing. */
  ghost predicate Placed(r: Report, queue: seq<Line>, excluded: set<Digest>, sha: Digest) {
    && (sha in r.accepted || sha in r.empty ==>
          !Absent(queue, sha) && !Rejects(r.rejections, sha) && sha !in excluded)
    && !(sha in r.accepted && sha in r.empty)
    && (!Absent(queue, sha) ==> sha in r.accepted || sha in r.empty || Rejects(r.rejections, sha))
  }

  /** What the output check accepts, source by source. */
  ghost predicate OutputsSay(r: Report, queue: seq<Line>, labels: seq<Line>, excluded: set<Digest>) {
    && (forall i, j :: 0 <= i < j < |r.accepted| ==> r.accepted[i] < r.accepted[j])
    && (forall i, j :: 0 <= i < j < |r.empty| ==> r.empty[i] < r.empty[j])
    && r.cropReady == |r.accepted| && r.emptyRows == |r.empty| && r.acceptedCount == |r.accepted| + |r.empty|
    && (forall k :: 0 <= k < |queue| ==> queue[k].sha.Some? && queue[k].lower)
    && (forall k :: 0 <= k < |labels| ==> labels[k].sha.Some? && labels[k].lower)
    && (forall k :: 0 <= k < |r.rejections| ==> r.rejections[k].sha.Some?)
    && (forall i, j :: 0 <= i < j < |r.rejections| ==> r.rejections[i].sha != r.rejections[j].sha)
    && (forall sha: Digest :: Placed(r, queue, excluded, sha))
  }

  lemma PlainRows(rows: seq<Line>)
    ensures AllPlain(rows) <==> forall k :: 0 <= k < |rows| ==> rows[k].sha.Some? && rows[k].lower
  {
    forall k | 0 <= k < |rows|
      ensures Plain(rows[k]) <==> rows[k].sha.Some? && rows[k].lower
      ensures rows[k] in rows
    {
    }
  }

  lemma RejectedRows(rejections: seq<Rejection>)
    ensures (forall x :: x in rejections ==> x.sha.Some?) <==>
      forall k :: 0 <= k < |rejections| ==> rejections[k].sha.Some?
  {
    assert forall k :: 0 <= k < |rejections| ==> rejections[k] in rejections;
  }

  lemma PlacedExactly(r: Report, queue: seq<Line>, excluded: set<Digest>)
    ensures (forall sha: Digest :: Placed(r, queue, excluded, sha)) <==>
      (&& excluded !! AsSet(r.accepted) + AsSet(r.empty)
       && PartitionOk(AsSet(r.accepted), AsSet(r.empty), Named(r.rejections), ShasOf(queue)))
  {
    var a, e, n, q := AsSet(r.accepted), AsSet(r.empty), Named(r.rejections), ShasOf(queue);
    forall sha: Digest
      ensures Placed(r, queue, excluded, sha) <==> PlacedIn(a, e, n, q, excluded, sha)
    {
      QueuedIsPresent(queue, sha);
      if Rejects(r.rejections, sha) {
        var k :| 0 <= k < |r.rejections| && r.rejections[k].sha == Some(sha);
        assert r.rejections[k] in r.rejections;
      }
    }
    if PlacedSets(a, e, n, q, excluded) {
      forall sha: Digest
        ensures Placed(r, queue, excluded, sha)
      {
        assert PlacedIn(a, e, n, q, excluded, sha);
      }
    }
    SetsPlaced(a, e, n, q, excluded);
  }

  ghost predicate PlacedSets(a: set<Digest>, e: set<Digest>, n: set<Digest>, q: set<Digest>, x: set<Digest>) {
    forall sha: Digest :: PlacedIn(a, e, n, q, x, sha)
  }

  ghost predicate PlacedIn(a: set<Digest>, e: set<Digest>, n: set<Digest>, q: set<Digest>, x: set<Digest>, sha: Digest)
  {
    && (sha in a || sha in e ==> sha in q && sha !in n && sha !in x)
    && !(sha in a && sha in e) && (sha in q ==> sha in a || sha in e || sha in n)
  }

  lemma SetsPlaced(a: set<Digest>, e: set<Digest>, n: set<Digest>, q: set<Digest>, x: set<Digest>)
    ensures PlacedSets(a, e, n, q, x) <==> x !! a + e && PartitionOk(a, e, n, q)
  {
    if PlacedSets(a, e, n, q, x) {
      assert forall sha :: sha in a + e + n * q ==> PlacedIn(a, e, n, q, x, sha);
      assert forall sha :: sha in q ==> PlacedIn(a, e, n, q, x, sha);
      assert a + e + n * q == q;
    }
    if x !! a + e && PartitionOk(a, e, n, q) {
      forall sha
        ensures PlacedIn(a, e, n, q, x, sha)
      {
        assert sha in q <==> sha in a + e + n * q;
        assert !(sha in a + e && sha in n * q);
      }
    }
  }

  /** `_validate_teacher_acceptance_outputs`, its counts and its partition. */
  method ValidatePartition(r: Report, queue: seq<Line>, labels: seq<Line>, excluded: set<Digest>) returns (ok: bool)
    ensures ok <==> OutputsOk(r, queue, labels, excluded)
    ensures ok <==> OutputsSay(r, queue, labels, excluded)
  {
    PlacedExactly(r, queue, excluded);
    PlainRows(queue);
    PlainRows(labels);
    RejectedRows(r.rejections);
    var sortedAccepted := IsIncreasing(r.accepted);
    var sortedEmpty := IsIncreasing(r.empty);
    var rejected := RejectedShas(r.rejections);
    if !sortedAccepted || !sortedEmpty || rejected.None? {
      return false;
    }
    if |r.accepted| != r.cropReady || |r.empty| != r.emptyRows || |r.accepted| + |r.empty| != r.acceptedCount {
      return false;
    }
    if (exists row :: row in queue && !Plain(row)) || (exists row :: row in labels && !Plain(row)) {
      return false;
    }
    ok := && excluded !! AsSet(r.accepted) + AsSet(r.empty)
          && PartitionOk(AsSet(r.accepted), AsSet(r.empty), rejected.value, ShasOf(queue));
  }

  // ---- the consensus, evaluated again ----

  /** The row a dictionary keeps for a digest. */
  function LastOf(rows: seq<Line>, sha: Digest): Option<Line> {
    if rows == [] then None
    else if rows[|rows| - 1].sha == Some(sha) then Some(rows[|rows| - 1])
    else LastOf(rows[..|rows| - 1], sha)
  }

  lemma {:induction false} LastIsLast(rows: seq<Line>, sha: Digest)
    ensures var found := RowsWith(rows, sha);
      LastOf(rows, sha) == if found == [] then None else Some(found[|found| - 1])
  {
    if rows != [] {
      LastIsLast(rows[..|rows| - 1], sha);
    }
  }

  /** A consensus without any reason against it. */
  predicate Decided(answer: Line) {
    answer.opinion.decision.Some? && answer.opinion.reasons == []
  }

  /** A rejection that records both lines and this very decision. */
  predicate Records(x: Rejection, decision: Decision) {
    x.queueLine.Some? && x.labelLine.Some? && x.quality == Some(decision.quality)
  }

  /** A decided source is rejected with its exact decision, or is usable. */
  ghost predicate QueuedOk(rejections: seq<Rejection>, labels: seq<Line>, sha: Digest) {
    var answer := LastOf(labels, sha);
    answer.Some? && Decided(answer.value) ==>
      && (sha !in Named(rejections) ==> answer.value.opinion.decision.value.Usable())
      && (forall x :: x in rejections && x.sha == Some(sha) ==> Records(x, answer.value.opinion.decision.value))
  }

  /** An accepted source has a label of its own, bound to the queue line, with a usable and confident consensus. */
  predicate AcceptedOk(minimum: real, queue: seq<Line>, labels: seq<Line>, sha: Digest) {
    var line, answer := LastOf(queue, sha), LastOf(labels, sha);
    && line.Some? && answer.Some? && answer.value.inputSha == Some(sha) && answer.value.inputLower
    && answer.value.imageRef == line.value.imageRef && Decided(answer.value)
    && answer.value.opinion.decision.value.Usable() && answer.value.opinion.decision.value.confidence >= minimum
  }

  ghost predicate RecheckOk(minimum: real, r: Report, queue: seq<Line>, labels: seq<Line>) {
    && (forall sha :: sha in ShasOf(queue) ==> QueuedOk(r.rejections, labels, sha))
    && (forall sha :: sha in r.accepted || sha in r.empty ==> AcceptedOk(minimum, queue, labels, sha))
  }

  // ---- the same, said of the lines ----

  ghost predicate LastAt(rows: seq<Line>, sha: Digest, k: nat) {
    k < |rows| && rows[k].sha == Some(sha) && forall j :: k < j < |rows| ==> rows[j].sha != Some(sha)
  }

  /** Rejections after a decision record both lines and its quality, and there is one unless that quality is usable. */
  ghost predicate KeepsDecision(rejections: seq<Rejection>, sha: Digest, answer: Line) {
    answer.opinion.reasons == [] && answer.opinion.decision.Some? ==>
      && (forall x :: x in rejections && x.sha == Some(sha) ==>
            x.queueLine.Some? && x.labelLine.Some? && x.quality == Some(answer.opinion.decision.value.quality))
      && (answer.opinion.decision.value.quality != 0 ==> exists x :: x in rejections && x.sha == Some(sha))
  }

  /** The label names the digest and the line's image, and is decided, usable and confident. */
  predicate Supports(minimum: real, line: Line, answer: Line, sha: Digest) {
    && answer.inputSha == Some(sha) && answer.inputLower && answer.imageRef == line.imageRef
    && answer.opinion.reasons == [] && answer.opinion.decision.Some?
    && answer.opinion.decision.value.quality == 0 && answer.opinion.decision.value.confidence >= minimum
  }

  ghost predicate Supported(minimum: real, queue: seq<Line>, labels: seq<Line>, sha: Digest) {
    exists j: nat, k: nat ::
      LastAt(queue, sha, j) && LastAt(labels, sha, k) && Supports(minimum, queue[j], labels[k], sha)
  }

  /** What the re-evaluation demands of the last lines of either file. */
  ghost predicate RecheckSays(minimum: real, r: Report, queue: seq<Line>, labels: seq<Line>) {
    && (forall sha, k: nat :: sha in ShasOf(queue) && LastAt(labels, sha, k) ==>
          KeepsDecision(r.rejections, sha, labels[k]))
    && (forall sha :: sha in r.accepted || sha in r.empty ==> Supported(minimum, queue, labels, sha))
  }

  lemma {:induction false} LastOfIsLastAt(rows: seq<Line>, sha: Digest)
    ensures forall k: nat :: LastAt(rows, sha, k) ==> LastOf(rows, sha) == Some(rows[k])
    ensures LastOf(rows, sha).Some? ==> exists k: nat :: LastAt(rows, sha, k)
  {
    if rows != [] {
      var init, n := rows[..|rows| - 1], |rows| - 1;
      LastOfIsLastAt(init, sha);
      if rows[n].sha == Some(sha) {
        assert LastAt(rows, sha, n);
      } else {
        forall k: nat
          ensures LastAt(rows, sha, k) <==> LastAt(init, sha, k)
        {
          assert k < n ==> init[k] == rows[k];
        }
      }
    }
  }

  /** The re-evaluation's demands are those on the last lines. */
  lemma RecheckSpelledOut(minimum: real, r: Report, queue: seq<Line>, labels: seq<Line>)
    ensures RecheckOk(minimum, r, queue, labels) <==> RecheckSays(minimum, r, queue, labels)
  {
    forall sha
      ensures QueuedOk(r.rejections, labels, sha) <==>
        forall k: nat :: LastAt(labels, sha, k) ==> KeepsDecision(r.rejections, sha, labels[k])
      ensures AcceptedOk(minimum, queue, labels, sha) <==> Supported(minimum, queue, labels, sha)
    {
      LastOfIsLastAt(labels, sha);
      LastOfIsLastAt(queue, sha);
      NamedIsThere(r.rejections, sha);
    }
  }

  lemma NamedIsThere(rejections: seq<Rejection>, sha: Digest)
    ensures sha in Named(rejections) <==> exists x :: x in rejections && x.sha == Some(sha)
  {
  }

  /** `{sha: row for row in rows}` */
  method IndexRows(rows: seq<Line>) returns (index: map<Digest, Line>)
    ensures index.Keys == ShasOf(rows)
    ensures forall sha :: LastOf(rows, sha) == if sha in index then Some(index[sha]) else None
  {
    index := map[];
    for n := 0 to |rows|
      invariant index.Keys == ShasOf(rows[..n])
      invariant forall sha :: LastOf(rows[..n], sha) == if sha in index then Some(index[sha]) else None
    {
      assert rows[..n + 1] == rows[..n] + [rows[n]] && rows[..n + 1][..n] == rows[..n];
      if rows[n].sha.Some? {
        index := index[rows[n].sha.value := rows[n]];
      }
    }
    assert rows[..|rows|] == rows;
  }

  /** `dict(zip(rejected_shas, rejections))`, of rejections with distinct sources. */
  method IndexRejections(rejections: seq<Rejection>) returns (index: map<Digest, Rejection>)
    requires forall x :: x in rejections ==> x.sha.Some?
    requires forall i, j :: 0 <= i < j < |rejections| ==> rejections[i].sha != rejections[j].sha
    ensures index.Keys == Named(rejections)
    ensures forall x :: x in rejections ==> index[x.sha.value] == x
  {
    index := map[];
    for n := 0 to |rejections|
      invariant forall sha :: sha in index ==> index[sha] in rejections[..n] && index[sha].sha == Some(sha)
      invariant forall k :: 0 <= k < n ==>
        rejections[k].sha.value in index && index[rejections[k].sha.value] == rejections[k]
    {
      assert rejections[n] in rejections;
      assert rejections[..n + 1] == rejections[..n] + [rejections[n]];
      index := index[rejections[n].sha.value := rejections[n]];
    }
  }

  /** One queued source of the first loop. */
  predicate QueuedPasses(rejected: map<Digest, Rejection>, labels: map<Digest, Line>, sha: Digest) {
    sha in labels && Decided(labels[sha]) ==>
      var decision := labels[sha].opinion.decision.value;
      if sha in rejected then Records(rejected[sha], decision) else decision.Usable()
  }

  /** The two loops that evaluate the consensus again. */
  method Recheck(minimum: real, r: Report, queue: seq<Line>, labels: seq<Line>) returns (ok: bool)
    requires forall x :: x in r.rejections ==> x.sha.Some?
    requires forall i, j :: 0 <= i < j < |r.rejections| ==> r.rejections[i].sha != r.rejections[j].sha
    ensures ok <==> RecheckOk(minimum, r, queue, labels)
    ensures ok <==> RecheckSays(minimum, r, queue, labels)
  {
    RecheckSpelledOut(minimum, r, queue, labels);
    var queueBySha := IndexRows(queue);
    var labelBySha := IndexRows(labels);
    var rejectionBySha := IndexRejections(r.rejections);
    ok := RecheckQueued(rejectionBySha, labelBySha, r.rejections, labels, queueBySha.Keys);
    if ok {
      ok := RecheckAccepted(minimum, r.accepted + r.empty, queue, labels);
    }
  }

  method RecheckQueued(rejected: map<Digest, Rejection>, labelBySha: map<Digest, Line>,
                       ghost rejections: seq<Rejection>, ghost labels: seq<Line>, queued: set<Digest>)
    returns (ok: bool)
    requires rejected.Keys == Named(rejections) && forall x :: x in rejections && x.sha.Some? ==>
      rejected[x.sha.value] == x
    requires forall sha :: LastOf(labels, sha) == if sha in labelBySha then Some(labelBySha[sha]) else None
    ensures ok <==> forall sha :: sha in queued ==> QueuedOk(rejections, labels, sha)
  {
    var order := SortedNats(queued);
    for n := 0 to |order|
      invariant forall k :: 0 <= k < n ==> QueuedOk(rejections, labels, order[k])
    {
      var sha := order[n];
      assert sha in order;
      var passes := QueuedPasses(rejected, labelBySha, sha);
      assert passes <==> QueuedOk(rejections, labels, sha);
      if !passes {
        return false;
      }
    }
    ok := true;
  }

  method RecheckAccepted(minimum: real, accepted: seq<Digest>, queue: seq<Line>, labels: seq<Line>) returns (ok: bool)
    ensures ok <==> forall sha :: sha in accepted ==> AcceptedOk(minimum, queue, labels, sha)
  {
    for n := 0 to |accepted|
      invariant forall k :: 0 <= k < n ==> AcceptedOk(minimum, queue, labels, accepted[k])
    {
      var accepts := AcceptedOk(minimum, queue, labels, accepted[n]);
      if !accepts {
        assert accepted[n] in accepted;
        return false;
      }
    }
    ok := true;
  }

  // ---- when the two agree ----

  /** What the producer checks of a queue line and its only label; the validator looks at the consensus alone. */
  datatype Checks = Checks(minimum: real, lowConfidence: Reason, inputMismatch: Reason, unusable: nat -> Reason,
                           others: (Line, Line) -> seq<Reason>)

  function JudgeOf(checks: Checks): Judge {
    (line: Line, answer: Line) => (
      answer.opinion.reasons
      + (if answer.inputSha == line.sha then [] else [checks.inputMismatch])
      + (match answer.opinion.decision
         case None => []
         case Some(d) =>
           (if d.confidence < checks.minimum then [checks.lowConfidence] else [])
           + (if d.Usable() then [] else [checks.unusable(d.quality)]))
      + checks.others(line, answer),
      answer.opinion.decision.Some? && answer.opinion.decision.value.negative)
  }

  /** What can be said against a queue line and its only label. */
  predicate Speaks(checks: Checks, line: Line, answer: Line, reason: Reason) {
    || reason in answer.opinion.reasons
    || (answer.inputSha != line.sha && reason == checks.inputMismatch)
    || (answer.opinion.decision.Some? &&
        (|| (answer.opinion.decision.value.confidence < checks.minimum && reason == checks.lowConfidence)
         || (answer.opinion.decision.value.quality != 0 &&
             reason == checks.unusable(answer.opinion.decision.value.quality))))
    || reason in checks.others(line, answer)
  }

  function AgainstBy(checks: Checks): Against {
    (line: Line, answer: Line, reason: Reason) => Speaks(checks, line, answer, reason)
  }

  function IsNegative(): (Line, Line) -> bool {
    (line: Line, answer: Line) => answer.opinion.decision.Some? && answer.opinion.decision.value.negative
  }

  lemma NoMembers(s: seq<Reason>)
    ensures s == [] <==> forall x :: x !in s
  {
    if s != [] {
      assert s[0] in s;
    }
  }

  /** Nothing speaks against a pair exactly when its label came to a bound, confident, usable decision. */
  lemma CleanExactly(checks: Checks, line: Line, answer: Line)
    ensures Clean(AgainstBy(checks), line, answer) <==>
      (&& answer.opinion.decision.Some? && answer.opinion.reasons == [] && answer.inputSha == line.sha
       && answer.opinion.decision.value.confidence >= checks.minimum
       && answer.opinion.decision.value.quality == 0 && checks.others(line, answer) == [])
  {
    var against, others := AgainstBy(checks), checks.others(line, answer);
    if Clean(against, line, answer) {
      assert !against(line, answer, checks.inputMismatch) && !against(line, answer, checks.lowConfidence);
      assert forall reason :: reason in answer.opinion.reasons ==> against(line, answer, reason);
      assert forall reason :: reason in others ==> against(line, answer, reason);
      NoMembers(answer.opinion.reasons);
      NoMembers(others);
      if answer.opinion.decision.Some? {
        assert !against(line, answer, checks.unusable(answer.opinion.decision.value.quality));
      }
    }
  }

  lemma JudgeSpeaks(checks: Checks, line: Line, answer: Line)
    ensures forall reason :: Spoken(JudgeOf(checks))(line, answer, reason) <==> AgainstBy(checks)(line, answer, reason)
    ensures Negated(JudgeOf(checks))(line, answer) <==> IsNegative()(line, answer)
    ensures Clean(Spoken(JudgeOf(checks)), line, answer) <==> Clean(AgainstBy(checks), line, answer)
  {
    var own, others := answer.opinion.reasons, checks.others(line, answer);
    var input := if answer.inputSha == line.sha then [] else [checks.inputMismatch];
    var decided := match answer.opinion.decision
      case None => []
      case Some(d) =>
        (if d.confidence < checks.minimum then [checks.lowConfidence] else [])
        + (if d.Usable() then [] else [checks.unusable(d.quality)]);
    assert JudgeOf(checks)(line, answer).0 == own + input + decided + others;
    assert forall reason ::
      reason in own + input + decided + others <==>
      reason in own || reason in input || reason in decided || reason in others;
  }

  /** The report of a queue judged by the checks, said of the lines alone. */
  lemma LawOfChecks(names: Reasons, checks: Checks, queue: seq<Line>, labels: seq<Line>, r: Report)
    requires Lawful(names, Spoken(JudgeOf(checks)), Negated(JudgeOf(checks)), queue, labels, r)
    ensures Lawful(names, AgainstBy(checks), IsNegative(), queue, labels, r)
  {
    var lists, invalidQueue, invalidLabels :|
      && AllListed(names, Spoken(JudgeOf(checks)), Negated(JudgeOf(checks)), queue, labels, lists)
      && AllMalformed(queue, names.badQueueSha, true, invalidQueue)
      && AllMalformed(labels, names.badLabelSha, false, invalidLabels)
      && Gathers(r, lists, invalidQueue, invalidLabels);
    forall sha
      ensures ListedAs(names, AgainstBy(checks), IsNegative(), queue, labels, lists, sha)
    {
      SameListing(names, checks, queue, labels, lists, sha);
    }
  }

  lemma SameListing(names: Reasons, checks: Checks, queue: seq<Line>, labels: seq<Line>, lists: Lists, sha: Digest)
    requires ListedAs(names, Spoken(JudgeOf(checks)), Negated(JudgeOf(checks)), queue, labels, lists, sha)
    ensures ListedAs(names, AgainstBy(checks), IsNegative(), queue, labels, lists, sha)
  {
    forall j: nat, k: nat | OnlyPair(queue, labels, sha, j, k)
      ensures Clean(Spoken(JudgeOf(checks)), queue[j], labels[k]) <==> Clean(AgainstBy(checks), queue[j], labels[k])
      ensures Negated(JudgeOf(checks))(queue[j], labels[k]) <==> IsNegative()(queue[j], labels[k])
      ensures forall x :: RejectsPair(Spoken(JudgeOf(checks)), sha, queue[j], labels[k], x) <==>
        RejectsPair(AgainstBy(checks), sha, queue[j], labels[k], x)
    {
      JudgeSpeaks(checks, queue[j], labels[k]);
    }
  }

  /** One queue line, one label, and nothing against them. */
  predicate Passes(checks: Checks, queue: seq<Line>, labels: seq<Line>, sha: Digest) {
    var lines, found := RowsWith(queue, sha), RowsWith(labels, sha);
    |lines| == 1 && |found| == 1 && JudgeOf(checks)(lines[0], found[0]).0 == []
  }

  /** A source whose last label came to a decision occurs once in either file. */
  predicate DecidedIsUnique(queue: seq<Line>, labels: seq<Line>, sha: Digest) {
    LastOf(labels, sha).Some? && Decided(LastOf(labels, sha).value) ==>
      |RowsWith(queue, sha)| == 1 && |RowsWith(labels, sha)| == 1
  }

  /** The label spells its input digest in lower case and names the queue line's image. */
  predicate BoundLabel(queue: seq<Line>, labels: seq<Line>, sha: Digest) {
    var line, answer := LastOf(queue, sha), LastOf(labels, sha);
    line.Some? && answer.Some? && answer.value.inputLower && answer.value.imageRef == line.value.imageRef
  }

  lemma {:induction false} RowsAreRows(rows: seq<Line>, sha: Digest)
    ensures forall row :: row in RowsWith(rows, sha) ==> row.sha == Some(sha)
  {
    if rows != [] {
      RowsAreRows(rows[..|rows| - 1], sha);
    }
  }

  lemma PassesIsPlaced(names: Reasons, checks: Checks, queue: seq<Line>, labels: seq<Line>, sha: Digest)
    ensures Passes(checks, queue, labels, sha) <==>
      !FateIn(names, JudgeOf(checks), queue, labels)(sha).Rejected?
  {
  }

  lemma PassesMeetsRecheck(checks: Checks, queue: seq<Line>, labels: seq<Line>, sha: Digest)
    requires Passes(checks, queue, labels, sha)
    ensures AcceptedOk(checks.minimum, queue, labels, sha) <==> BoundLabel(queue, labels, sha)
  {
    LastIsLast(queue, sha);
    LastIsLast(labels, sha);
    RowsAreRows(queue, sha);
    RowsAreRows(labels, sha);
    var line, answer := RowsWith(queue, sha)[0], RowsWith(labels, sha)[0];
    assert line in RowsWith(queue, sha);
    assert answer.opinion.reasons == [] && answer.inputSha == line.sha;
  }

  lemma QueuedExactly(names: Reasons, checks: Checks, queue: seq<Line>, labels: seq<Line>, r: Report, sha: Digest)
    requires Faithful(names, JudgeOf(checks), queue, labels, r) && sha in ShasOf(queue)
    ensures QueuedOk(r.rejections, labels, sha) <==> DecidedIsUnique(queue, labels, sha)
  {
    LastIsLast(labels, sha);
    var fate := FateIn(names, JudgeOf(checks), queue, labels)(sha);
    var answer := LastOf(labels, sha);
    if answer.Some? && Decided(answer.value) {
      if fate.Rejected? {
        OnlyRejection(r.rejections, fate.rejection);
      } else {
        assert sha in r.accepted || sha in r.empty;
      }
    }
  }

  lemma OnlyRejection(rejections: seq<Rejection>, x: Rejection)
    requires RejectionsDistinct(rejections) && x in rejections
    ensures x.sha.Some? && x.sha.value in Named(rejections)
    ensures forall y :: y in rejections && y.sha == x.sha ==> y == x
  {
  }

  ghost predicate NoneExcluded(r: Report, excluded: set<Digest>) {
    forall sha :: sha in r.accepted || sha in r.empty ==> sha !in excluded
  }

  lemma SplitIsPartition(r: Report, queued: set<Digest>)
    requires SplitsQueue(r, queued)
    ensures PartitionOk(AsSet(r.accepted), AsSet(r.empty), Named(r.rejections), queued)
  {
    assert forall sha :: sha in AsSet(r.accepted) <==> sha in r.accepted;
    assert forall sha :: sha in AsSet(r.empty) <==> sha in r.empty;
  }

  lemma ApartFromLists(a: seq<Digest>, b: seq<Digest>, excluded: set<Digest>)
    ensures excluded !! AsSet(a) + AsSet(b) <==> forall sha :: sha in a || sha in b ==> sha !in excluded
  {
    if forall sha :: sha in a || sha in b ==> sha !in excluded {
      assert forall sha :: sha in AsSet(a) + AsSet(b) ==> sha in a || sha in b;
    } else {
      var sha :| (sha in a || sha in b) && sha in excluded;
      assert sha in AsSet(a) + AsSet(b);
    }
  }

  lemma DistinctDecidesOnce(rejections: seq<Rejection>)
    requires RejectionsDistinct(rejections)
    ensures DecidedOnce(rejections) && forall x :: x in rejections ==> Canonical(x)
  {
    assert forall k :: 0 <= k < |rejections| ==> rejections[k] in rejections;
  }

  /** The producer's split of the queue passes the partition unless a digest or an exclusion stands in the way. */
  lemma SplitPasses(r: Report, queue: seq<Line>, labels: seq<Line>, excluded: set<Digest>)
    requires SplitsQueue(r, ShasOf(queue)) && Counted(r)
    ensures OutputsOk(r, queue, labels, excluded) <==>
      AllPlain(queue) && AllPlain(labels) && NoneExcluded(r, excluded)
  {
    SplitIsPartition(r, ShasOf(queue));
    ApartFromLists(r.accepted, r.empty, excluded);
  }

  ghost predicate DecidedAreUnique(queue: seq<Line>, labels: seq<Line>) {
    forall sha :: sha in ShasOf(queue) ==> DecidedIsUnique(queue, labels, sha)
  }

  ghost predicate PassingAreBound(checks: Checks, queue: seq<Line>, labels: seq<Line>) {
    forall sha :: sha in ShasOf(queue) && Passes(checks, queue, labels, sha) ==> BoundLabel(queue, labels, sha)
  }

  ghost predicate PassingAreKept(checks: Checks, queue: seq<Line>, labels: seq<Line>, excluded: set<Digest>) {
    forall sha :: sha in ShasOf(queue) && Passes(checks, queue, labels, sha) ==> sha !in excluded
  }

  /** What the lines must be for the outputs of a report that splits the queue by fate to pass. */
  ghost predicate OutputsAgree(checks: Checks, queue: seq<Line>, labels: seq<Line>, excluded: set<Digest>) {
    && AllPlain(queue) && AllPlain(labels) && DecidedAreUnique(queue, labels)
    && PassingAreBound(checks, queue, labels) && PassingAreKept(checks, queue, labels, excluded)
  }

  lemma FaithfulPassesExactlyWhen(names: Reasons, checks: Checks, queue: seq<Line>, labels: seq<Line>,
                                  excluded: set<Digest>, r: Report)
    requires Counted(r) && Faithful(names, JudgeOf(checks), queue, labels, r)
    ensures OutputsOk(r, queue, labels, excluded) && RecheckOk(checks.minimum, r, queue, labels)
      <==> OutputsAgree(checks, queue, labels, excluded)
  {
    SplitPasses(r, queue, labels, excluded);
    RecheckExactly(names, checks, queue, labels, r);
    KeptExactly(names, checks, queue, labels, excluded, r);
  }

  lemma KeptExactly(names: Reasons, checks: Checks, queue: seq<Line>, labels: seq<Line>, excluded: set<Digest>,
                    r: Report)
    requires Faithful(names, JudgeOf(checks), queue, labels, r)
    ensures NoneExcluded(r, excluded) <==> PassingAreKept(checks, queue, labels, excluded)
  {
    AcceptedArePassed(names, checks, queue, labels, r);
  }

  lemma AcceptedArePassed(names: Reasons, checks: Checks, queue: seq<Line>, labels: seq<Line>, r: Report)
    requires Faithful(names, JudgeOf(checks), queue, labels, r)
    ensures forall sha :: sha in r.accepted || sha in r.empty <==>
      sha in ShasOf(queue) && Passes(checks, queue, labels, sha)
  {
    forall sha
      ensures sha in r.accepted || sha in r.empty <==> sha in ShasOf(queue) && Passes(checks, queue, labels, sha)
    {
      PassesIsPlaced(names, checks, queue, labels, sha);
    }
  }

  /** The consensus evaluated again, on a report that splits the queue by fate. */
  lemma RecheckExactly(names: Reasons, checks: Checks, queue: seq<Line>, labels: seq<Line>, r: Report)
    requires Faithful(names, JudgeOf(checks), queue, labels, r)
    ensures RecheckOk(checks.minimum, r, queue, labels) <==>
      DecidedAreUnique(queue, labels) && PassingAreBound(checks, queue, labels)
  {
    forall sha | sha in ShasOf(queue)
      ensures QueuedOk(r.rejections, labels, sha) <==> DecidedIsUnique(queue, labels, sha)
    {
      QueuedExactly(names, checks, queue, labels, r, sha);
    }
    AcceptedArePassed(names, checks, queue, labels, r);
    forall sha | sha in ShasOf(queue) && Passes(checks, queue, labels, sha)
      ensures AcceptedOk(checks.minimum, queue, labels, sha) <==> BoundLabel(queue, labels, sha)
    {
      PassesMeetsRecheck(checks, queue, labels, sha);
    }
  }
}
