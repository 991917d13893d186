/** Producer meets checker: the auditor's own report is accepted exactly when nothing leaks. */
module RoundTrip {
  import opened Agreement
  import opened AuditReport
  import opened Clusters
  import Conservation
  import opened EdgeMaps
  import opened Graph
  import opened GraphEvidence
  import opened NearPairs
  import opened Order
  import opened Validator
  import opened Wrappers

  function BlockingClusters(clusters: seq<Cluster>): nat {
    if clusters == [] then 0
    else BlockingClusters(clusters[..|clusters| - 1]) + if clusters[|clusters| - 1].blocking then 1 else 0
  }

  /** The report `build_near_duplicate_report` assembles. */
  function AuditorReport(sha: Sha, inputs: Inputs, candidates: seq<Entry>, protected_: seq<Entry>,
                               evidence: Evidence): Report
  {
    var entries := Sort(candidates + protected_, ById);
    var blocked := BlockingClusters(evidence.clusters);
    Report(if blocked > 0 then "blocked" else "passed", blocked == 0,
           Coverage(|candidates|, |protected_|, |inputs.protectedSources|, |candidates| + |protected_|, true),
           sha(DigestList(SortedNats(PayloadImages(candidates, true)))),
           sha(DigestList(SortedNats(PayloadImages(protected_, false)))),
           entries, evidence.edges, evidence.clusters,
           Summary(|evidence.edges|, |evidence.clusters|, blocked, SameRoleDuplicates(evidence.clusters)))
  }

  /** Verified records of exactly the manifests and the inventory. */
  ghost predicate HonestRecords(sha: Sha, inputs: Inputs, candidates: seq<Entry>, protected_: seq<Entry>) {
    var all := candidates + protected_;
    && InputsOk(sha, inputs)
    && |candidates| == inputs.candidateAssets && |protected_| == inputs.protectedAssets
    && (forall i :: 0 <= i < |all| ==> EntryOk(sha, inputs.protectedSources, all[i]))
    && DistinctIdsOf(all) && SplitByRole(candidates, protected_)
    && ViewsCovered(inputs, all)
    && EntriesMatchInputs(sha, inputs, all)
  }

  // ---- the checks on entries do not depend on their order ----

  lemma {:induction false} ViewsOfConcat(a: seq<Entry>, b: seq<Entry>, candidate: bool, source: bool)
    ensures Views(a + b, candidate, source) == Views(a, candidate, source) + Views(b, candidate, source)
    decreases |b|
  {
    if b == [] {
      assert a + b == a;
    } else {
      ViewsOfConcat(a, b[..|b| - 1], candidate, source);
      LastOfConcat(a, b);
    }
  }

  lemma {:induction false} CountByConcat<T>(a: seq<Entry>, b: seq<Entry>, f: Entry -> T)
    ensures CountBy(a + b, f) == CountBy(a, f) + CountBy(b, f)
    decreases |b|
  {
    if b == [] {
      assert a + b == a;
    } else {
      CountByConcat(a, b[..|b| - 1], f);
      LastOfConcat(a, b);
    }
  }

  /** The counter of one view of a list. */
  function ViewCount<T>(entries: seq<Entry>, candidate: bool, source: bool, f: Entry -> T): multiset<T> {
    CountBy(Views(entries, candidate, source), f)
  }

  lemma ViewCountConcat<T>(a: seq<Entry>, b: seq<Entry>, candidate: bool, source: bool, f: Entry -> T)
    ensures ViewCount(a + b, candidate, source, f) ==
      ViewCount(a, candidate, source, f) + ViewCount(b, candidate, source, f)
  {
    ViewsOfConcat(a, b, candidate, source);
    CountByConcat(Views(a, candidate, source), Views(b, candidate, source), f);
  }

  /** A counter that adds up over concatenation does not see the order of a list. */
  ghost predicate AddsUp<T(!new)>(count: seq<Entry> -> multiset<T>) {
    forall a, b :: count(a + b) == count(a) + count(b)
  }

  lemma {:induction false} InsertCount<T(!new)>(x: Entry, s: seq<Entry>, count: seq<Entry> -> multiset<T>)
    requires AddsUp(count)
    ensures count(Insert(x, s, ById)) == count([x]) + count(s)
  {
    if s != [] && ById(s[0], x) {
      InsertCount(x, s[1..], count);
      assert s == [s[0]] + s[1..];
    } else {
      assert Insert(x, s, ById) == [x] + s;
    }
  }

  lemma {:induction false} SortCount<T(!new)>(s: seq<Entry>, count: seq<Entry> -> multiset<T>)
    requires AddsUp(count)
    ensures count(Sort(s, ById)) == count(s)
  {
    if s != [] {
      var n := |s| - 1;
      SortCount(s[..n], count);
      InsertCount(s[n], Sort(s[..n], ById), count);
      assert s == s[..n] + [s[n]];
    }
  }

  lemma {:induction false} SortViewCount<T(!new)>(s: seq<Entry>, candidate: bool, source: bool, f: Entry -> T)
    ensures ViewCount(Sort(s, ById), candidate, source, f) == ViewCount(s, candidate, source, f)
  {
    var count := (entries: seq<Entry>) => ViewCount(entries, candidate, source, f);
    forall a, b
      ensures count(a + b) == count(a) + count(b)
    {
      ViewCountConcat(a, b, candidate, source, f);
    }
    SortCount(s, count);
  }

  lemma {:induction false} SameViewKeys(a: seq<Entry>, b: seq<Entry>, candidate: bool, source: bool)
    requires forall e :: e in a <==> e in b
    ensures EntryKeys(Views(a, candidate, source)) == EntryKeys(Views(b, candidate, source))
  {
    forall e
      ensures e in Views(a, candidate, source) <==> e in Views(b, candidate, source)
    {
      ViewMembers(a, candidate, source, e);
      ViewMembers(b, candidate, source, e);
    }
  }

  lemma {:induction false} SortedViewsCovered(inputs: Inputs, all: seq<Entry>)
    requires ViewsCovered(inputs, all)
    ensures ViewsCovered(inputs, Sort(all, ById))
  {
    SortViewCount(all, true, true, RoleSource);
    SortViewCount(all, true, false, RoleSource);
    SortViewCount(all, false, true, SourceShaOf);
    SortViewCount(all, false, false, SourceShaOf);
  }

  lemma {:induction false} SortedKeys(sha: Sha, inputs: Inputs, all: seq<Entry>)
    requires EntriesMatchInputs(sha, inputs, all)
    ensures EntriesMatchInputs(sha, inputs, Sort(all, ById))
  {
    var entries := Sort(all, ById);
    SortMembers(all, ById);
    SameViewKeys(entries, all, true, true);
    SameViewKeys(entries, all, true, false);
    assert ProtectedKeys(entries) == ProtectedKeys(all);
  }

  lemma {:induction false} SortedEntriesOk(sha: Sha, inputs: Inputs, candidates: seq<Entry>, protected_: seq<Entry>)
    requires HonestRecords(sha, inputs, candidates, protected_)
    ensures var entries := Sort(candidates + protected_, ById);
      && (forall i :: 0 <= i < |entries| ==> EntryOk(sha, inputs.protectedSources, entries[i]))
      && |entries| == |candidates| + |protected_|
      && StrictlyByAssetId(entries) && Nodes(entries) == Nodes(candidates + protected_) && DistinctIdsOf(entries)
  {
    var all := candidates + protected_;
    SortedHalf(all);
    OkKeepsMembers(sha, inputs.protectedSources, all, Sort(all, ById));
  }

  lemma OkKeepsMembers(sha: Sha, protectedSources: set<Digest>, all: seq<Entry>, entries: seq<Entry>)
    requires forall i :: 0 <= i < |all| ==> EntryOk(sha, protectedSources, all[i])
    requires forall e :: e in entries ==> e in all
    ensures forall i :: 0 <= i < |entries| ==> EntryOk(sha, protectedSources, entries[i])
  {
    forall i | 0 <= i < |entries|
      ensures EntryOk(sha, protectedSources, entries[i])
    {
      assert entries[i] in entries;
      var k :| 0 <= k < |all| && all[k] == entries[i];
    }
  }

  lemma PayloadsOfHalves(candidates: seq<Entry>, protected_: seq<Entry>, entries: seq<Entry>)
    requires SplitByRole(candidates, protected_) && forall e :: e in entries <==> e in candidates + protected_
    ensures PayloadImages(entries, true) == PayloadImages(candidates, true)
    ensures PayloadImages(entries, false) == PayloadImages(protected_, false)
  {
  }

  lemma {:induction false} NoBlockingClusters(clusters: seq<Cluster>)
    ensures BlockingClusters(clusters) == 0 <==> !SomeClusterBlocks(clusters)
    decreases |clusters|
  {
    if clusters != [] {
      var init, c := clusters[..|clusters| - 1], clusters[|clusters| - 1];
      NoBlockingClusters(init);
      assert clusters == init + [c];
      assert c in clusters && forall d :: d in init ==> d in clusters;
    }
  }

  /** Unblocked evidence passes the graph checks on the sorted entries. */
  lemma UnblockedGraphOk(sha: Sha, candidates: seq<Entry>, protected_: seq<Entry>, cap: nat, report: Report)
    requires DistinctIdsOf(candidates + protected_) && SplitByRole(candidates, protected_)
    requires Nodes(report.entries) == Nodes(candidates + protected_)
    requires IsEvidence(sha, Nodes(report.entries), cap, Ok(Evidence(report.edges, report.clusters)))
    requires OrderedByVisit(VisitOrder(candidates, protected_), report.edges)
    requires !SomeEdgeBlocks(report.edges)
    ensures GraphOk(sha, report, cap)
  {
    NodesDistinct(candidates + protected_);
    UnblockedRendersById(candidates, protected_, report.edges);
    Conservation.ListingSize(Nodes(report.entries), report.edges);
  }

  lemma {:induction false} HonestEntriesOk(sha: Sha, inputs: Inputs, candidates: seq<Entry>, protected_: seq<Entry>)
    requires HonestRecords(sha, inputs, candidates, protected_)
    ensures EntriesOk(sha, inputs, Sort(candidates + protected_, ById))
  {
    SortedEntriesOk(sha, inputs, candidates, protected_);
    SortedViewsCovered(inputs, candidates + protected_);
    SortedKeys(sha, inputs, candidates + protected_);
  }

  lemma HonestPayloads(sha: Sha, inputs: Inputs, candidates: seq<Entry>, protected_: seq<Entry>, evidence: Evidence)
    requires SplitByRole(candidates, protected_)
    ensures PayloadsBound(sha, AuditorReport(sha, inputs, candidates, protected_, evidence))
  {
    SortMembers(candidates + protected_, ById);
    PayloadsOfHalves(candidates, protected_, Sort(candidates + protected_, ById));
  }

  lemma HonestHeader(sha: Sha, inputs: Inputs, candidates: seq<Entry>, protected_: seq<Entry>, evidence: Evidence)
    requires |candidates| == inputs.candidateAssets && |protected_| == inputs.protectedAssets
    requires !SomeClusterBlocks(evidence.clusters)
    ensures var report := AuditorReport(sha, inputs, candidates, protected_, evidence);
      HeaderOk(inputs, report) && SummaryOk(report)
  {
    NoBlockingClusters(evidence.clusters);
    SortMembers(candidates + protected_, ById);
  }

  lemma HonestGraph(sha: Sha, inputs: Inputs, candidates: seq<Entry>, protected_: seq<Entry>, cap: nat,
                    evidence: Evidence)
    requires DistinctIdsOf(candidates + protected_) && SplitByRole(candidates, protected_)
    requires IsEvidence(sha, Nodes(candidates + protected_), cap, Ok(evidence))
    requires OrderedByVisit(VisitOrder(candidates, protected_), evidence.edges)
    requires NoLeak(Nodes(candidates + protected_))
    ensures GraphOk(sha, AuditorReport(sha, inputs, candidates, protected_, evidence), cap)
    ensures !SomeClusterBlocks(evidence.clusters)
  {
    var nodes := Nodes(candidates + protected_);
    SortMembers(candidates + protected_, ById);
    assert Nodes(Sort(candidates + protected_, ById)) == nodes;
    NodesDistinct(candidates + protected_);
    UnblockedMeansNoLeak(nodes, evidence.edges);
    BlockingEquivalence(sha, nodes, evidence.edges, evidence.clusters);
    UnblockedGraphOk(sha, candidates, protected_, cap, AuditorReport(sha, inputs, candidates, protected_, evidence));
  }

  /** Producer and checker meet: the auditor's report on honest records is accepted iff no two roles leak. */
  lemma HonestReportAcceptedIffNoLeak(sha: Sha, inputs: Inputs, candidates: seq<Entry>, protected_: seq<Entry>,
                                      cap: nat, evidence: Evidence)
    requires HonestRecords(sha, inputs, candidates, protected_)
    requires IsEvidence(sha, Nodes(candidates + protected_), cap, Ok(evidence))
    requires OrderedByVisit(VisitOrder(candidates, protected_), evidence.edges)
    ensures Accepts(sha, inputs, AuditorReport(sha, inputs, candidates, protected_, evidence), cap) <==>
            NoLeak(Nodes(candidates + protected_))
    ensures NoLeak(Nodes(candidates + protected_)) <==> RolesUnlike(Nodes(candidates + protected_))
  {
    OkEntriesAreHashed(sha, inputs.protectedSources, candidates + protected_);
    NoLeakIsUnlike(Nodes(candidates + protected_));
    var report := AuditorReport(sha, inputs, candidates, protected_, evidence);
    SortedEntriesOk(sha, inputs, candidates, protected_);
    if Accepts(sha, inputs, report, cap) {
      AcceptedMeansNoLeak(sha, inputs, report, cap);
    }
    if NoLeak(Nodes(candidates + protected_)) {
      HonestEntriesOk(sha, inputs, candidates, protected_);
      HonestPayloads(sha, inputs, candidates, protected_, evidence);
      HonestGraph(sha, inputs, candidates, protected_, cap, evidence);
      HonestHeader(sha, inputs, candidates, protected_, evidence);
    }
  }

  lemma VisitHashed(sha: Sha, ps: set<Digest>, candidates: seq<Entry>, protected_: seq<Entry>)
    requires DistinctIdsOf(candidates + protected_)
    requires forall i :: 0 <= i < |candidates + protected_| ==> EntryOk(sha, ps, (candidates + protected_)[i])
    ensures Hashed(VisitOrder(candidates, protected_))
  {
    var all, visit := candidates + protected_, VisitOrder(candidates, protected_);
    VisitDistinct(candidates, protected_);
    forall i | 0 <= i < |visit|
      ensures ValidSignature(visit[i].phash)
    {
      assert visit[i] in Nodes(visit);
      var k :| 0 <= k < |all| && all[k] == visit[i];
      assert PayloadOk(all[k]);
    }
  }

  ghost function BlockingAt(clusters: seq<Cluster>): set<nat> {
    set k | 0 <= k < |clusters| && clusters[k].blocking
  }

  ghost function QuietAt(clusters: seq<Cluster>): set<nat> {
    set k | 0 <= k < |clusters| && !clusters[k].blocking && clusters[k].edgeCount > 0
  }

  lemma BlockingNext(init: seq<Cluster>, c: Cluster)
    ensures |BlockingAt(init + [c])| == |BlockingAt(init)| + if c.blocking then 1 else 0
  {
    assert BlockingAt(init + [c]) == BlockingAt(init) + if c.blocking then {|init|} else {};
  }

  lemma QuietNext(init: seq<Cluster>, c: Cluster)
    ensures |QuietAt(init + [c])| == |QuietAt(init)| + if !c.blocking && c.edgeCount > 0 then 1 else 0
  {
    assert QuietAt(init + [c]) == QuietAt(init) + if !c.blocking && c.edgeCount > 0 then {|init|} else {};
  }

  lemma {:induction false} CountersAreNumbers(clusters: seq<Cluster>)
    ensures BlockingClusters(clusters) == |BlockingAt(clusters)|
    ensures SameRoleDuplicates(clusters) == |QuietAt(clusters)|
  {
    if clusters == [] {
      assert BlockingAt(clusters) == {} && QuietAt(clusters) == {};
    } else {
      var init, c := clusters[..|clusters| - 1], clusters[|clusters| - 1];
      CountersAreNumbers(init);
      assert clusters == init + [c];
      BlockingNext(init, c);
      QuietNext(init, c);
    }
  }

  /** Blocked exactly when some cluster blocks, with the numbers of edges, clusters and clusters of either kind. */
  ghost predicate StatusSays(report: Report) {
    && (report.ok <==> forall k :: 0 <= k < |report.clusters| ==> !report.clusters[k].blocking)
    && report.status == (if report.ok then "passed" else "blocked")
    && report.summary.edges == |report.edges| && report.summary.clusters == |report.clusters|
    && report.summary.blockingClusters == |BlockingAt(report.clusters)|
    && report.summary.sameRoleClusters == |QuietAt(report.clusters)|
  }

  lemma StatusFollows(report: Report)
    requires var blocked := BlockingClusters(report.clusters);
      && report.status == (if blocked > 0 then "blocked" else "passed") && report.ok == (blocked == 0)
      && report.summary == Summary(|report.edges|, |report.clusters|, blocked, SameRoleDuplicates(report.clusters))
    ensures StatusSays(report)
  {
    CountersAreNumbers(report.clusters);
    var blocking := BlockingAt(report.clusters);
    if k :| 0 <= k < |report.clusters| && report.clusters[k].blocking {
      assert k in blocking;
    }
    assert report.ok <==> blocking == {};
  }

  /** `build_near_duplicate_report`, from verified records to the report. */
  method BuildReport(sha: Sha, inputs: Inputs, candidates: seq<Entry>, protected_: seq<Entry>, cap: nat)
    returns (r: Result<Report, Failure>, ghost evidence: Evidence)
    requires Injective(sha) && HonestRecords(sha, inputs, candidates, protected_)
    ensures r.Err? <==> |EdgesWithin(Nodes(candidates + protected_))| > cap
    ensures r.Ok? ==> IsEvidence(sha, Nodes(candidates + protected_), cap, Ok(evidence))
    ensures r.Ok? ==> OrderedByVisit(VisitOrder(candidates, protected_), evidence.edges)
    ensures r.Ok? ==> r.value == AuditorReport(sha, inputs, candidates, protected_, evidence)
    ensures r.Ok? ==> StatusSays(r.value)
  {
    VisitDistinct(candidates, protected_);
    VisitHashed(sha, inputs.protectedSources, candidates, protected_);
    var built := AuditorEvidence(sha, VisitOrder(candidates, protected_), cap);
    evidence := Evidence([], []);
    if built.Err? {
      return Err(built.error), evidence;
    }
    evidence := built.value;
    r := Ok(AuditorReport(sha, inputs, candidates, protected_, built.value));
    StatusFollows(r.value);
  }

  /** Audit, then validate: within the edge cap the honest pipeline accepts exactly the leak-free datasets. */
  method AuditAndValidate(sha: Sha, inputs: Inputs, candidates: seq<Entry>, protected_: seq<Entry>, cap: nat)
    returns (accepted: bool)
    requires Injective(sha) && HonestRecords(sha, inputs, candidates, protected_)
    ensures accepted <==> |EdgesWithin(Nodes(candidates + protected_))| <= cap && NoLeak(Nodes(candidates + protected_))
    ensures accepted <==>
      |EdgesWithin(Nodes(candidates + protected_))| <= cap && RolesUnlike(Nodes(candidates + protected_))
  {
    ghost var evidence;
    var built;
    built, evidence := BuildReport(sha, inputs, candidates, protected_, cap);
    if built.Err? {
      return false;
    }
    var verdict := Validate(sha, inputs, built.value, cap);
    HonestReportAcceptedIffNoLeak(sha, inputs, candidates, protected_, cap, evidence);
    accepted := verdict.Accepted?;
  }
}
