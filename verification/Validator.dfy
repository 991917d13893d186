/** `_validate_near_duplicate_audit`: the checks in program order, proved to accept exactly the good reports. */
module Validator {
  import opened AcceptanceRule
  import opened Agreement
  import opened AuditReport
  import opened Clusters
  import opened Conservation
  import opened EdgeMaps
  import opened Graph
  import opened GraphEvidence
  import opened NearPairs
  import opened Order
  import opened Wrappers

  datatype Rejection =
    | BadStatus
    | BadCoverage
    | BadRows
    | BadInventory
    | BadEntry
    | ViewsIncomplete
    | ManifestMismatch
    | InventoryMismatch
    | NotOrdered
    | EdgesDiffer
    | ClustersDiffer
    | PayloadBinding
    | SummaryMismatch
    | BadEdge
    | BadCluster

  datatype Verdict = Accepted | Rejected(why: Rejection)

  // ---- expected identities ----

  method ExpectRole(role: string, rows: seq<ManifestRow>)
    returns (ok: bool, sources: set<CandidateKey>, crops: set<CandidateKey>)
    ensures ok <==> forall row :: row in rows ==> row.sampleId != ""
    ensures ok ==> sources == set row | row in rows :: SourceKey(role, row)
    ensures ok ==> crops == set row | row in rows :: CropKey(role, row)
  {
    sources, crops := {}, {};
    for k := 0 to |rows|
      invariant forall row :: row in rows[..k] ==> row.sampleId != ""
      invariant sources == set row | row in rows[..k] :: SourceKey(role, row)
      invariant crops == set row | row in rows[..k] :: CropKey(role, row)
    {
      assert rows[..k + 1] == rows[..k] + [rows[k]];
      if rows[k].sampleId == "" {
        assert rows[k] in rows;
        return false, sources, crops;
      }
      sources := sources + {SourceKey(role, rows[k])};
      crops := crops + {CropKey(role, rows[k])};
    }
    assert rows[..|rows|] == rows;
    ok := true;
  }

  method ExpectRows(rows: map<string, seq<ManifestRow>>)
    returns (ok: bool, sources: set<CandidateKey>, crops: set<CandidateKey>, count: nat)
    ensures ok <==> rows.Keys == CANDIDATE_ROLES &&
                    forall role, row :: role in rows && row in rows[role] ==> row.sampleId != ""
    ensures ok ==> sources == ExpectedSources(rows) && crops == ExpectedCrops(rows) && count == CountRows(rows)
  {
    sources, crops, count := {}, {}, 0;
    if rows.Keys != CANDIDATE_ROLES {
      return false, sources, crops, count;
    }
    var okTrain, trainSources, trainCrops := ExpectRole("train", rows["train"]);
    var okHeld, heldSources, heldCrops := ExpectRole("model_validation", rows["model_validation"]);
    ok := okTrain && okHeld;
    sources, crops := trainSources + heldSources, trainCrops + heldCrops;
    count := |rows["train"]| + |rows["model_validation"]|;
    assert forall role :: role in rows <==> role == "train" || role == "model_validation";
    if ok {
      assert sources == ExpectedSources(rows);
      assert crops == ExpectedCrops(rows);
    }
  }

  method ExpectObjects(sha: Sha, objects: seq<InventoryObject>) returns (expected: set<ProtectedKey>)
    ensures expected == ExpectedProtected(sha, objects)
  {
    expected := {};
    for k := 0 to |objects|
      invariant expected == set o | o in objects[..k] :: ObjectKey(sha, o)
    {
      assert objects[..k + 1] == objects[..k] + [objects[k]];
      expected := expected + {ObjectKey(sha, objects[k])};
    }
    assert objects[..|objects|] == objects;
  }

  // ---- entries ----

  datatype Tally = Tally(
    byId: map<Digest, Entry>,
    candidateSources: multiset<(string, Digest)>,
    candidateCrops: multiset<(string, Digest)>,
    protectedSources: multiset<Digest>,
    protectedCrops: multiset<Digest>,
    sourceKeys: set<CandidateKey>,
    cropKeys: set<CandidateKey>,
    protectedKeys: set<ProtectedKey>)

  ghost predicate Indexes(byId: map<Digest, Entry>, entries: seq<Entry>) {
    && (forall e :: e in entries ==> e.assetId in byId && byId[e.assetId] == e)
    && (forall id :: id in byId ==> byId[id] in entries && byId[id].assetId == id)
  }

  ghost predicate TallyOf(tally: Tally, entries: seq<Entry>) {
    && Indexes(tally.byId, entries)
    && tally.candidateSources == RoleSources(Views(entries, true, true))
    && tally.candidateCrops == RoleSources(Views(entries, true, false))
    && tally.protectedSources == SourcesOf(Views(entries, false, true))
    && tally.protectedCrops == SourcesOf(Views(entries, false, false))
    && tally.sourceKeys == EntryKeys(Views(entries, true, true))
    && tally.cropKeys == EntryKeys(Views(entries, true, false))
    && tally.protectedKeys == ProtectedKeys(entries)
  }

  function RoleCount(e: Entry, counted: bool): multiset<(string, Digest)> {
    if counted then multiset{RoleSource(e)} else multiset{}
  }

  function SourceCount(e: Entry, counted: bool): multiset<Digest> {
    if counted then multiset{e.sourceSha} else multiset{}
  }

  function KeyOf(e: Entry, counted: bool): set<CandidateKey> {
    if counted then {EntryKey(e)} else {}
  }

  /** What one pass of the entry loop adds. */
  function Count(t: Tally, e: Entry): Tally {
    var candidate, source := IsCandidate(e), IsSource(e);
    Tally(
      t.byId[e.assetId := e],
      t.candidateSources + RoleCount(e, candidate && source),
      t.candidateCrops + RoleCount(e, candidate && !source),
      t.protectedSources + SourceCount(e, !candidate && source),
      t.protectedCrops + SourceCount(e, !candidate && !source),
      t.sourceKeys + KeyOf(e, candidate && source),
      t.cropKeys + KeyOf(e, candidate && !source),
      t.protectedKeys + if candidate then {} else {ProtectedEntryKey(e)})
  }

  const NOTHING := Tally(map[], multiset{}, multiset{}, multiset{}, multiset{}, {}, {}, {})

  ghost function CountAll(entries: seq<Entry>): Tally {
    if entries == [] then NOTHING else Count(CountAll(entries[..|entries| - 1]), entries[|entries| - 1])
  }

  lemma ViewStep(entries: seq<Entry>, candidate: bool, source: bool)
    requires entries != []
    ensures var init, e := entries[..|entries| - 1], entries[|entries| - 1];
      var here := IsCandidate(e) == candidate && IsSource(e) == source;
      && EntryKeys(Views(entries, candidate, source)) == EntryKeys(Views(init, candidate, source)) + KeyOf(e, here)
      && RoleSources(Views(entries, candidate, source)) ==
         RoleSources(Views(init, candidate, source)) + RoleCount(e, here)
      && SourcesOf(Views(entries, candidate, source)) ==
         SourcesOf(Views(init, candidate, source)) + SourceCount(e, here)
  {
    var init, e := entries[..|entries| - 1], entries[|entries| - 1];
    var before := Views(init, candidate, source);
    if IsCandidate(e) == candidate && IsSource(e) == source {
      assert Views(entries, candidate, source) == before + [e];
      KeysNext(before, e);
      CountNextBy(before, e, RoleSource);
      CountNextBy(before, e, SourceShaOf);
    } else {
      assert Views(entries, candidate, source) == before;
    }
  }

  lemma KeysNext(before: seq<Entry>, e: Entry)
    ensures EntryKeys(before + [e]) == EntryKeys(before) + {EntryKey(e)}
  {
    assert forall x :: x in before + [e] <==> x in before || x == e;
  }

  lemma {:induction false} CountNextBy<T>(before: seq<Entry>, e: Entry, f: Entry -> T)
    ensures CountBy(before + [e], f) == CountBy(before, f) + multiset{f(e)}
  {
    assert (before + [e])[..|before|] == before;
  }

  lemma ProtectedStep(entries: seq<Entry>)
    requires entries != []
    ensures var init, e := entries[..|entries| - 1], entries[|entries| - 1];
      ProtectedKeys(entries) == ProtectedKeys(init) + if IsCandidate(e) then {} else {ProtectedEntryKey(e)}
  {
    assert entries == entries[..|entries| - 1] + [entries[|entries| - 1]];
  }

  lemma ByIdStep(byId: map<Digest, Entry>, entries: seq<Entry>)
    requires entries != [] && DistinctIdsOf(entries) && Indexes(byId, entries[..|entries| - 1])
    ensures var e := entries[|entries| - 1]; Indexes(byId[e.assetId := e], entries)
  {
    var init, e := entries[..|entries| - 1], entries[|entries| - 1];
    assert entries == init + [e];
    forall i | 0 <= i < |init|
      ensures init[i].assetId != e.assetId
    {
      assert entries[i] == init[i];
    }
  }

  lemma {:induction false} CountAllSpec(entries: seq<Entry>)
    requires DistinctIdsOf(entries)
    ensures TallyOf(CountAll(entries), entries)
    decreases |entries|
  {
    if entries != [] {
      CountAllSpec(entries[..|entries| - 1]);
      ViewStep(entries, true, true);
      ViewStep(entries, true, false);
      ViewStep(entries, false, true);
      ViewStep(entries, false, false);
      ProtectedStep(entries);
      ByIdStep(CountAll(entries[..|entries| - 1]).byId, entries);
    }
  }

  lemma {:induction false} CountedIds(entries: seq<Entry>)
    requires DistinctIdsOf(entries)
    ensures Indexes(CountAll(entries).byId, entries)
  {
    CountAllSpec(entries);
  }

  lemma CountNext(entries: seq<Entry>, k: nat)
    requires k < |entries|
    ensures CountAll(entries[..k + 1]) == Count(CountAll(entries[..k]), entries[k])
  {
    assert entries[..k + 1][..k] == entries[..k];
  }

  /** The ids seen so far decide whether the next entry is a duplicate. */
  lemma NextId(entries: seq<Entry>, k: nat)
    requires k < |entries| && DistinctIdsOf(entries[..k])
    ensures entries[k].assetId in CountAll(entries[..k]).byId ==> !DistinctIdsOf(entries)
    ensures entries[k].assetId !in CountAll(entries[..k]).byId ==> DistinctIdsOf(entries[..k + 1])
  {
    CountedIds(entries[..k]);
    var byId := CountAll(entries[..k]).byId;
    if entries[k].assetId in byId {
      DuplicateId(entries, k, byId);
    } else {
      FreshId(entries, k, byId);
    }
  }

  /** The per-entry check, as a value. */
  function EntryTest(sha: Sha, protectedSources: set<Digest>): Entry -> bool {
    (e: Entry) => EntryOk(sha, protectedSources, e)
  }

  ghost predicate PassUpTo(test: Entry -> bool, entries: seq<Entry>, n: nat)
    requires n <= |entries|
  {
    n == 0 || (PassUpTo(test, entries, n - 1) && test(entries[n - 1]))
  }

  lemma {:induction false} PassUpToIsAll(test: Entry -> bool, entries: seq<Entry>, n: nat)
    requires n <= |entries|
    ensures PassUpTo(test, entries, n) <==> forall i :: 0 <= i < n ==> test(entries[i])
  {
    if n > 0 {
      PassUpToIsAll(test, entries, n - 1);
    }
  }

  ghost predicate OkUpTo(sha: Sha, protectedSources: set<Digest>, entries: seq<Entry>, n: nat)
    requires n <= |entries|
  {
    PassUpTo(EntryTest(sha, protectedSources), entries, n)
  }

  lemma OkUpToIsAll(sha: Sha, protectedSources: set<Digest>, entries: seq<Entry>, n: nat)
    requires n <= |entries|
    ensures OkUpTo(sha, protectedSources, entries, n) <==>
            forall i :: 0 <= i < n ==> EntryOk(sha, protectedSources, entries[i])
  {
    PassUpToIsAll(EntryTest(sha, protectedSources), entries, n);
  }

  /** The per-entry loop: shape, identity, duplicate ids, and the view counters. */
  method CheckEntries(sha: Sha, protectedSources: set<Digest>, entries: seq<Entry>) returns (ok: bool, tally: Tally)
    ensures ok <==> OkUpTo(sha, protectedSources, entries, |entries|) && DistinctIdsOf(entries)
    ensures ok ==> tally == CountAll(entries)
  {
    tally := NOTHING;
    for k := 0 to |entries|
      invariant OkUpTo(sha, protectedSources, entries, k) && DistinctIdsOf(entries[..k])
      invariant tally == CountAll(entries[..k])
    {
      NextId(entries, k);
      CountNext(entries, k);
      if !EntryOk(sha, protectedSources, entries[k]) {
        OkStops(sha, protectedSources, entries, k, |entries|);
        return false, tally;
      }
      if entries[k].assetId in tally.byId {
        return false, tally;
      }
      tally := Count(tally, entries[k]);
    }
    assert entries[..|entries|] == entries;
    ok := true;
  }

  lemma OkStops(sha: Sha, protectedSources: set<Digest>, entries: seq<Entry>, k: nat, n: nat)
    requires k < n <= |entries| && !EntryOk(sha, protectedSources, entries[k])
    ensures !OkUpTo(sha, protectedSources, entries, n)
  {
    OkUpToIsAll(sha, protectedSources, entries, n);
  }

  lemma FreshId(entries: seq<Entry>, k: nat, byId: map<Digest, Entry>)
    requires k < |entries| && DistinctIdsOf(entries[..k])
    requires Indexes(byId, entries[..k]) && entries[k].assetId !in byId
    ensures DistinctIdsOf(entries[..k + 1])
  {
    forall i | 0 <= i < k
      ensures entries[i].assetId != entries[k].assetId
    {
      assert entries[..k][i] in entries[..k];
    }
    forall i, j | 0 <= i < j < k
      ensures entries[i].assetId != entries[j].assetId
    {
      assert entries[..k][i].assetId != entries[..k][j].assetId;
    }
  }

  lemma DuplicateId(entries: seq<Entry>, k: nat, byId: map<Digest, Entry>)
    requires k < |entries| && Indexes(byId, entries[..k]) && entries[k].assetId in byId
    ensures !DistinctIdsOf(entries)
  {
    var e := byId[entries[k].assetId];
    var i :| 0 <= i < k && entries[..k][i] == e;
    assert entries[i].assetId == entries[k].assetId;
  }

  // ---- edges ----

  predicate EdgeShaped(byId: map<Digest, Entry>, e: Edge) {
    && e.left in byId && e.right in byId && e.left < e.right
    && (e.distance.Some? ==> e.distance.value <= PHASH_DISTANCE)
    && e.evidence != []
    && (forall i, j :: 0 <= i < j < |e.evidence| ==>
        StringLe(e.evidence[i], e.evidence[j]) && e.evidence[i] != e.evidence[j])
    && (forall i :: 0 <= i < |e.evidence| ==> e.evidence[i] in {PERCEPTUAL_HASH, EXACT_IMAGE, SOURCE})
  }

  /** `edge["blocking"] is not cross_role or cross_role` */
  predicate EdgeHarmless(byId: map<Digest, Entry>, e: Edge)
    requires e.left in byId && e.right in byId
  {
    !e.blocking && byId[e.left].role == byId[e.right].role
  }

  ghost predicate EdgesHarmless(byId: map<Digest, Entry>, edges: seq<Edge>) {
    && (forall i :: 0 <= i < |edges| ==> EdgeShaped(byId, edges[i]) && EdgeHarmless(byId, edges[i]))
    && (forall i, j :: 0 <= i < j < |edges| ==> (edges[i].left, edges[i].right) != (edges[j].left, edges[j].right))
  }

  /** An edge between known entries of one role, ends in order, its evidence named in order and its distance small. */
  ghost predicate EdgeSays(byId: map<Digest, Entry>, e: Edge) {
    && e.left in byId && e.right in byId && e.left < e.right && byId[e.left].role == byId[e.right].role && !e.blocking
    && (e.distance.Some? ==> e.distance.value <= 4)
    && e.evidence != [] && (forall name :: name in e.evidence ==>
          name == "perceptual_hash" || name == "exact_image_sha256" || name == "source_sha256")
    && (forall i, j :: 0 <= i < j < |e.evidence| ==> NamedBefore(e.evidence[i], e.evidence[j]))
  }

  ghost predicate NamedBefore(x: string, y: string) {
    x != y && exists n: nat :: TurnsAt(x, y, n)
  }

  lemma EdgeExactly(byId: map<Digest, Entry>, e: Edge)
    ensures EdgeSays(byId, e) <==> EdgeShaped(byId, e) && EdgeHarmless(byId, e)
  {
    forall i, j | 0 <= i < j < |e.evidence|
      ensures NamedBefore(e.evidence[i], e.evidence[j]) <==>
        StringLe(e.evidence[i], e.evidence[j]) && e.evidence[i] != e.evidence[j]
    {
      StringLeSpelledOut(e.evidence[i], e.evidence[j]);
    }
    assert forall i :: 0 <= i < |e.evidence| ==> e.evidence[i] in e.evidence;
  }

  method CheckEdges(byId: map<Digest, Entry>, edges: seq<Edge>) returns (ok: bool)
    ensures ok <==> EdgesHarmless(byId, edges)
    ensures ok <==>
      (&& (forall k :: 0 <= k < |edges| ==> EdgeSays(byId, edges[k]))
       && (forall i, j :: 0 <= i < j < |edges| ==> edges[i].left != edges[j].left || edges[i].right != edges[j].right))
  {
    forall k | 0 <= k < |edges|
      ensures EdgeSays(byId, edges[k]) <==> EdgeShaped(byId, edges[k]) && EdgeHarmless(byId, edges[k])
    {
      EdgeExactly(byId, edges[k]);
    }
    var pairs: set<(Digest, Digest)> := {};
    for k := 0 to |edges|
      invariant EdgesHarmless(byId, edges[..k])
      invariant forall p :: p in pairs <==> exists i :: 0 <= i < k && p == (edges[i].left, edges[i].right)
    {
      var e := edges[k];
      assert forall i :: 0 <= i < k ==> edges[..k][i] == edges[i];
      if !EdgeShaped(byId, e) || (e.left, e.right) in pairs {
        return false;
      }
      if !EdgeHarmless(byId, e) {
        return false;
      }
      pairs := pairs + {(e.left, e.right)};
      assert edges[..k + 1] == edges[..k] + [e];
    }
    assert edges[..|edges|] == edges;
    ok := true;
  }

  lemma EvidenceNames(a: Entry, b: Entry)
    requires HasEdge(a, b)
    ensures InfoOf(a, b).evidence != {}
    ensures forall name :: name in InfoOf(a, b).evidence ==> name in {PERCEPTUAL_HASH, EXACT_IMAGE, SOURCE}
  {
    if Near(a, b) {
      assert PERCEPTUAL_HASH in InfoOf(a, b).evidence;
    } else if a.imageSha == b.imageSha {
      assert EXACT_IMAGE in InfoOf(a, b).evidence;
    } else {
      assert SOURCE in InfoOf(a, b).evidence;
    }
  }

  lemma ListingShaped(names: set<string>)
    requires names != {}
    ensures var listing := SortedStrings(names);
      && listing != []
      && (forall i, j :: 0 <= i < j < |listing| ==> StringLe(listing[i], listing[j]) && listing[i] != listing[j])
      && (forall i :: 0 <= i < |listing| ==> listing[i] in names)
  {
    var listing := SortedStrings(names);
    assert forall i :: 0 <= i < |listing| ==> listing[i] in listing;
    assert forall i, j :: 0 <= i < j < |listing| ==> StringLe(listing[i], listing[j]);
  }

  lemma DistanceShaped(a: Entry, b: Entry)
    ensures RenderEdge(a, b).distance.Some? ==> RenderEdge(a, b).distance.value <= PHASH_DISTANCE
  {
    NearIsWithin(a, b);
  }

  lemma RenderedShaped(byId: map<Digest, Entry>, entries: seq<Entry>, a: Entry, b: Entry)
    requires Indexes(byId, entries) && DistinctIdsOf(entries) && (a, b) in EdgesWithin(Nodes(entries))
    ensures EdgeShaped(byId, RenderEdge(a, b))
    ensures EdgeHarmless(byId, RenderEdge(a, b)) <==> a.role == b.role
  {
    RenderedIndexed(byId, entries, a, b);
    RenderedNames(a, b);
    DistanceShaped(a, b);
  }

  lemma RenderedNames(a: Entry, b: Entry)
    requires HasEdge(a, b)
    ensures var names := RenderEdge(a, b).evidence;
      && names != [] && (forall i :: 0 <= i < |names| ==> names[i] in {PERCEPTUAL_HASH, EXACT_IMAGE, SOURCE})
      && (forall i, j :: 0 <= i < j < |names| ==> StringLe(names[i], names[j]) && names[i] != names[j])
  {
    EvidenceNames(a, b);
    ListingShaped(InfoOf(a, b).evidence);
  }

  lemma RenderedIndexed(byId: map<Digest, Entry>, entries: seq<Entry>, a: Entry, b: Entry)
    requires Indexes(byId, entries) && DistinctIdsOf(entries) && (a, b) in EdgesWithin(Nodes(entries))
    ensures var e := RenderEdge(a, b);
      && e.left in byId && e.right in byId && e.left < e.right
      && (EdgeHarmless(byId, e) <==> a.role == b.role)
  {
    RenderedEnds(a, b);
  }

  /** Once the edges are the graph's edges, every shape check passes and only a cross-role edge can fail. */
  lemma EdgeChecksAreBlocking(byId: map<Digest, Entry>, entries: seq<Entry>, edges: seq<Edge>)
    requires Indexes(byId, entries) && DistinctIdsOf(entries) && IsEdgeListing(Nodes(entries), edges)
    ensures EdgesHarmless(byId, edges) <==> !SomeEdgeBlocks(edges)
  {
    var nodes := Nodes(entries);
    NodesDistinct(entries);
    forall i | 0 <= i < |edges|
      ensures EdgeShaped(byId, edges[i]) && (EdgeHarmless(byId, edges[i]) <==> !edges[i].blocking)
    {
      assert edges[i] in edges;
      var a, b :| (a, b) in EdgesWithin(nodes) && edges[i] == RenderEdge(a, b);
      RenderedShaped(byId, entries, a, b);
      RenderedEnds(a, b);
    }
    forall i, j | 0 <= i < j < |edges|
      ensures (edges[i].left, edges[i].right) != (edges[j].left, edges[j].right)
    {
      EndsIdentify(nodes, edges, i, j);
    }
  }

  lemma EndsIdentify(nodes: set<Entry>, edges: seq<Edge>, i: nat, j: nat)
    requires DistinctIds(nodes) && IsEdgeListing(nodes, edges) && i < j < |edges|
    ensures (edges[i].left, edges[i].right) != (edges[j].left, edges[j].right)
  {
    assert edges[i] in edges && edges[j] in edges && edges[i] != edges[j];
    var a, b :| (a, b) in EdgesWithin(nodes) && edges[i] == RenderEdge(a, b);
    var c, d :| (c, d) in EdgesWithin(nodes) && edges[j] == RenderEdge(c, d);
    RenderedEnds(a, b);
    RenderedEnds(c, d);
  }

  // ---- clusters ----

  function MembersOf(byId: map<Digest, Entry>, ids: seq<Digest>): set<Entry> {
    set id | id in ids && id in byId :: byId[id]
  }

  predicate MembershipOk(byId: map<Digest, Entry>, covered: set<Digest>, c: Cluster) {
    && c.memberIds != []
    && (forall i, j :: 0 <= i < j < |c.memberIds| ==> c.memberIds[i] < c.memberIds[j])
    && (forall i :: 0 <= i < |c.memberIds| ==> c.memberIds[i] in byId && c.memberIds[i] !in covered)
  }

  /** Role, cohort, view and image lists, the cluster id, and the flags, recomputed from the members. */
  predicate DescriptionOk(sha: Sha, byId: map<Digest, Entry>, c: Cluster) {
    var members := MembersOf(byId, c.memberIds);
    var expected := ClusterFor(sha, members, c.edgeCount);
    && c.roles == expected.roles && c.cohorts == expected.cohorts && c.viewKinds == expected.viewKinds
    && c.memberImages == expected.memberImages && c.clusterId == expected.clusterId
  }

  predicate CountsAsBlocking(c: Cluster) {
    c.blocking || c.multiRole || |c.roles| > 1
  }

  /** What the cluster loop computes: how it ends, or the counts and the ids covered. */
  datatype ClusterScan = ClusterScan(shaped: bool, blocking: nat, sameRole: nat, covered: set<Digest>)

  ghost function ScanOf(sha: Sha, byId: map<Digest, Entry>, clusters: seq<Cluster>): ClusterScan {
    if clusters == [] then ClusterScan(true, 0, 0, {})
    else
      var before, c := ScanOf(sha, byId, clusters[..|clusters| - 1]), clusters[|clusters| - 1];
      ScanStep(sha, byId, before, c)
  }

  function ScanStep(sha: Sha, byId: map<Digest, Entry>, before: ClusterScan, c: Cluster): ClusterScan {
    if !before.shaped || !MembershipOk(byId, before.covered, c) || !DescriptionOk(sha, byId, c) then
      before.(shaped := false)
    else
      ClusterScan(true,
                  before.blocking + if CountsAsBlocking(c) then 1 else 0,
                  before.sameRole + if !CountsAsBlocking(c) && c.edgeCount > 0 then 1 else 0,
                  before.covered + set id | id in c.memberIds)
  }

  lemma {:induction false} StaysUnshaped(sha: Sha, byId: map<Digest, Entry>, clusters: seq<Cluster>, k: nat)
    requires k <= |clusters| && !ScanOf(sha, byId, clusters[..k]).shaped
    ensures !ScanOf(sha, byId, clusters).shaped
    decreases |clusters|
  {
    if k < |clusters| {
      assert clusters[..|clusters| - 1][..k] == clusters[..k];
      StaysUnshaped(sha, byId, clusters[..|clusters| - 1], k);
    } else {
      assert clusters[..k] == clusters;
    }
  }

  /** What a cluster says of its members. */
  ghost predicate ClusterSays(sha: Sha, members: set<Entry>, c: Cluster) {
    && c.clusterId == sha(ClusterPreimage(ALGORITHM_ID, 4, c.memberImages))
    && (forall i, j :: 0 <= i < j < |c.memberImages| ==> c.memberImages[i] < c.memberImages[j])
    && (forall image :: image in c.memberImages <==> exists e :: e in members && e.imageSha == image)
    && AreNames(c.roles) && (forall name :: name in c.roles <==> exists e :: e in members && e.role == name)
    && AreNames(c.cohorts) && (forall name :: name in c.cohorts <==> exists e :: e in members && e.cohort == name)
    && AreNames(c.viewKinds)
    && (forall name :: name in c.viewKinds <==> exists e :: e in members && e.viewKind == name)
  }

  ghost predicate AreNames(names: seq<string>) {
    forall i, j :: 0 <= i < j < |names| ==> NamedBefore(names[i], names[j])
  }

  /** Its members are known, in order, and in no cluster before it. */
  ghost predicate MembersSay(byId: map<Digest, Entry>, clusters: seq<Cluster>, k: nat)
    requires k < |clusters|
  {
    && clusters[k].memberIds != [] && (forall id :: id in clusters[k].memberIds ==> id in byId)
    && (forall i, j :: 0 <= i < j < |clusters[k].memberIds| ==> clusters[k].memberIds[i] < clusters[k].memberIds[j])
    && (forall b, id :: 0 <= b < k && id in clusters[b].memberIds ==> id !in clusters[k].memberIds)
  }

  lemma NamesSay(names: seq<string>, expected: set<string>)
    ensures names == SortedStrings(expected) <==> AreNames(names) && forall name :: name in names <==> name in expected
  {
    StringOrder();
    forall i, j | 0 <= i < j < |names|
      ensures NamedBefore(names[i], names[j]) <==> StringLe(names[i], names[j]) && names[i] != names[j]
    {
      StringLeSpelledOut(names[i], names[j]);
    }
    if AreNames(names) && forall name :: name in names <==> name in expected {
      AscendingListingIsUnique(names, SortedStrings(expected), StringLe);
    }
  }

  lemma DigestsSay(digests: seq<Digest>, expected: set<Digest>)
    ensures digests == SortedNats(expected) <==>
      (&& (forall i, j :: 0 <= i < j < |digests| ==> digests[i] < digests[j])
       && forall x :: x in digests <==> x in expected)
  {
    if (forall i, j :: 0 <= i < j < |digests| ==> digests[i] < digests[j]) &&
      forall x :: x in digests <==> x in expected {
      NatOrder();
      AscendingListingIsUnique(digests, SortedNats(expected), NatLe);
    }
  }

  lemma ImagesSay(images: seq<Digest>, members: set<Entry>)
    ensures images == SortedNats(ImagesOf(members)) <==>
      (&& (forall i, j :: 0 <= i < j < |images| ==> images[i] < images[j])
       && forall image :: image in images <==> exists e :: e in members && e.imageSha == image)
  {
    DigestsSay(images, ImagesOf(members));
  }

  lemma RolesSay(names: seq<string>, members: set<Entry>)
    ensures names == SortedStrings(RolesOf(members)) <==>
      AreNames(names) && forall name :: name in names <==> exists e :: e in members && e.role == name
  {
    NamesSay(names, RolesOf(members));
  }

  lemma CohortsSay(names: seq<string>, members: set<Entry>)
    ensures names == SortedStrings(set e | e in members :: e.cohort) <==>
      AreNames(names) && forall name :: name in names <==> exists e :: e in members && e.cohort == name
  {
    NamesSay(names, set e | e in members :: e.cohort);
  }

  lemma ViewKindsSay(names: seq<string>, members: set<Entry>)
    ensures names == SortedStrings(set e | e in members :: e.viewKind) <==>
      AreNames(names) && forall name :: name in names <==> exists e :: e in members && e.viewKind == name
  {
    NamesSay(names, set e | e in members :: e.viewKind);
  }

  lemma DescriptionExactly(sha: Sha, members: set<Entry>, c: Cluster)
    ensures ClusterSays(sha, members, c) <==>
      (&& c.clusterId == sha(ClusterPreimage(ALGORITHM_ID, 4, c.memberImages))
       && c.memberImages == SortedNats(ImagesOf(members)) && c.roles == SortedStrings(RolesOf(members))
       && c.cohorts == SortedStrings(set e | e in members :: e.cohort)
       && c.viewKinds == SortedStrings(set e | e in members :: e.viewKind))
  {
    ImagesSay(c.memberImages, members);
    RolesSay(c.roles, members);
    CohortsSay(c.cohorts, members);
    ViewKindsSay(c.viewKinds, members);
  }

  /** The tests on cluster `k` of a list, in the terms of its members. */
  ghost predicate ClusterFits(sha: Sha, byId: map<Digest, Entry>, clusters: seq<Cluster>, k: nat)
    requires k < |clusters|
  {
    && MembersSay(byId, clusters, k)
    && ClusterSays(sha, set id | id in clusters[k].memberIds && id in byId :: byId[id], clusters[k])
  }

  ghost function Covered(clusters: seq<Cluster>, n: nat): set<Digest>
    requires n <= |clusters|
  {
    set k, id | 0 <= k < n && id in clusters[k].memberIds :: id
  }

  lemma TestsFit(sha: Sha, byId: map<Digest, Entry>, clusters: seq<Cluster>, k: nat)
    requires k < |clusters|
    ensures ClusterFits(sha, byId, clusters, k) <==>
      MembershipOk(byId, Covered(clusters, k), clusters[k]) && DescriptionOk(sha, byId, clusters[k])
  {
    var c := clusters[k];
    DescriptionExactly(sha, MembersOf(byId, c.memberIds), c);
    assert MembersSay(byId, clusters, k) <==> MembershipOk(byId, Covered(clusters, k), c) by {
      assert forall i :: 0 <= i < |c.memberIds| ==> c.memberIds[i] in c.memberIds;
    }
  }

  predicate SpansRoles(c: Cluster) {
    c.blocking || c.multiRole || |c.roles| >= 2
  }

  ghost function Spanning(clusters: seq<Cluster>, n: nat): set<nat>
    requires n <= |clusters|
  {
    set k | 0 <= k < n && SpansRoles(clusters[k])
  }

  ghost function Quiet(clusters: seq<Cluster>, n: nat): set<nat>
    requires n <= |clusters|
  {
    set k | 0 <= k < n && !SpansRoles(clusters[k]) && clusters[k].edgeCount > 0
  }

  lemma CoveredNext(clusters: seq<Cluster>, n: nat)
    requires n < |clusters|
    ensures Covered(clusters, n + 1) == Covered(clusters, n) + set id | id in clusters[n].memberIds
  {
  }

  lemma SpanningNext(clusters: seq<Cluster>, n: nat)
    requires n < |clusters|
    ensures |Spanning(clusters, n + 1)| == |Spanning(clusters, n)| + if SpansRoles(clusters[n]) then 1 else 0
  {
    assert Spanning(clusters, n + 1) == Spanning(clusters, n) + if SpansRoles(clusters[n]) then {n} else {};
  }

  lemma QuietNext(clusters: seq<Cluster>, n: nat)
    requires n < |clusters|
    ensures |Quiet(clusters, n + 1)| ==
      |Quiet(clusters, n)| + if !SpansRoles(clusters[n]) && clusters[n].edgeCount > 0 then 1 else 0
  {
    assert Quiet(clusters, n + 1) ==
      Quiet(clusters, n) + if !SpansRoles(clusters[n]) && clusters[n].edgeCount > 0 then {n} else {};
  }

  ghost predicate AllFit(sha: Sha, byId: map<Digest, Entry>, clusters: seq<Cluster>, n: nat)
    requires n <= |clusters|
  {
    forall k :: 0 <= k < n ==> ClusterFits(sha, byId, clusters, k)
  }

  ghost predicate ScanCounts(scan: ClusterScan, clusters: seq<Cluster>, n: nat)
    requires n <= |clusters|
  {
    && scan.covered == Covered(clusters, n) && scan.blocking == |Spanning(clusters, n)|
    && scan.sameRole == |Quiet(clusters, n)|
  }

  lemma {:induction false} StepSays(sha: Sha, byId: map<Digest, Entry>, clusters: seq<Cluster>, n: nat,
                                    before: ClusterScan)
    requires n < |clusters| && (before.shaped <==> AllFit(sha, byId, clusters, n))
    requires before.shaped ==> ScanCounts(before, clusters, n)
    ensures var scan := ScanStep(sha, byId, before, clusters[n]);
      && (scan.shaped <==> AllFit(sha, byId, clusters, n + 1))
      && (scan.shaped ==> ScanCounts(scan, clusters, n + 1))
  {
    assert AllFit(sha, byId, clusters, n + 1) <==>
      (AllFit(sha, byId, clusters, n) && ClusterFits(sha, byId, clusters, n));
    TestsFit(sha, byId, clusters, n);
    CoveredNext(clusters, n);
    SpanningNext(clusters, n);
    QuietNext(clusters, n);
  }

  /** The scan of the first `n` clusters, said of them. */
  lemma {:induction false} ScanSays(sha: Sha, byId: map<Digest, Entry>, clusters: seq<Cluster>, n: nat)
    requires n <= |clusters|
    ensures var scan := ScanOf(sha, byId, clusters[..n]);
      && (scan.shaped <==> AllFit(sha, byId, clusters, n)) && (scan.shaped ==> ScanCounts(scan, clusters, n))
  {
    if n > 0 {
      ScanSays(sha, byId, clusters, n - 1);
      assert clusters[..n][..n - 1] == clusters[..n - 1];
      StepSays(sha, byId, clusters, n - 1, ScanOf(sha, byId, clusters[..n - 1]));
    }
  }

  lemma {:induction false} ListSays(sha: Sha, byId: map<Digest, Entry>, clusters: seq<Cluster>)
    ensures var scan := ScanOf(sha, byId, clusters);
      && (scan.shaped <==> AllFit(sha, byId, clusters, |clusters|))
      && (scan.shaped ==> ScanCounts(scan, clusters, |clusters|))
  {
    ScanSays(sha, byId, clusters, |clusters|);
    assert clusters[..|clusters|] == clusters;
  }

  /** The loop over the clusters. */
  method ScanClusters(sha: Sha, byId: map<Digest, Entry>, clusters: seq<Cluster>) returns (scan: ClusterScan)
    ensures scan.shaped <==> ScanOf(sha, byId, clusters).shaped
    ensures scan.shaped ==> scan == ScanOf(sha, byId, clusters)
  {
    scan := ClusterScan(true, 0, 0, {});
    for k := 0 to |clusters|
      invariant scan.shaped && scan == ScanOf(sha, byId, clusters[..k])
    {
      assert clusters[..k + 1][..k] == clusters[..k];
      scan := ScanStep(sha, byId, scan, clusters[k]);
      if !scan.shaped {
        StaysUnshaped(sha, byId, clusters, k + 1);
        return;
      }
    }
    assert clusters[..|clusters|] == clusters;
  }

  method CheckClusters(sha: Sha, byId: map<Digest, Entry>, clusters: seq<Cluster>) returns (scan: ClusterScan)
    ensures scan.shaped <==> ScanOf(sha, byId, clusters).shaped
    ensures scan.shaped ==> scan == ScanOf(sha, byId, clusters)
    ensures scan.shaped <==> AllFit(sha, byId, clusters, |clusters|)
    ensures scan.shaped ==> ScanCounts(scan, clusters, |clusters|)
  {
    scan := ScanClusters(sha, byId, clusters);
    ListSays(sha, byId, clusters);
  }

  /** Looking a component's ids up gives the component back. */
  lemma LookupComponent(sha: Sha, byId: map<Digest, Entry>, entries: seq<Entry>, a: Entry)
    requires Indexes(byId, entries) && DistinctIdsOf(entries) && a in Nodes(entries)
    ensures MembersOf(byId, ClusterOf(sha, Nodes(entries), a).memberIds) == Component(Nodes(entries), a)
  {
    LookupMembers(byId, entries, Component(Nodes(entries), a));
  }

  lemma LookupMembers(byId: map<Digest, Entry>, entries: seq<Entry>, members: set<Entry>)
    requires Indexes(byId, entries) && forall e :: e in members ==> e in entries
    ensures MembersOf(byId, SortedNats(IdsOf(members))) == members
  {
    var ids := SortedNats(IdsOf(members));
    forall e
      ensures e in MembersOf(byId, ids) <==> e in members
    {
      if e in members {
        assert e.assetId in ids && byId[e.assetId] == e;
      }
      if e in MembersOf(byId, ids) {
        var id :| id in ids && id in byId && byId[id] == e;
        var x :| x in members && x.assetId == id;
        assert byId[x.assetId] == x;
      }
    }
  }

  lemma ClusterDescribed(sha: Sha, byId: map<Digest, Entry>, entries: seq<Entry>, a: Entry)
    requires Indexes(byId, entries) && DistinctIdsOf(entries) && a in Nodes(entries)
    ensures DescriptionOk(sha, byId, ClusterOf(sha, Nodes(entries), a))
    ensures var c := ClusterOf(sha, Nodes(entries), a); CountsAsBlocking(c) <==> c.blocking
  {
    LookupComponent(sha, byId, entries, a);
  }

  lemma ClusterMembership(sha: Sha, byId: map<Digest, Entry>, entries: seq<Entry>, clusters: seq<Cluster>, k: nat,
                          covered: set<Digest>)
    requires Indexes(byId, entries) && DistinctIdsOf(entries) && IsClusterList(sha, Nodes(entries), clusters)
    requires k < |clusters|
    requires forall id :: id in covered <==> exists i :: 0 <= i < k && id in clusters[i].memberIds
    ensures MembershipOk(byId, covered, clusters[k])
  {
    var nodes := Nodes(entries);
    NodesDistinct(entries);
    assert clusters[k] in clusters;
    var a :| a in nodes && clusters[k] == ClusterOf(sha, nodes, a);
    ClusterShape(sha, nodes, a);
    assert a.assetId in IdsOf(Component(nodes, a));
    assert a.assetId in clusters[k].memberIds;
    forall m | 0 <= m < |clusters[k].memberIds|
      ensures clusters[k].memberIds[m] in byId && clusters[k].memberIds[m] !in covered
    {
      var id := clusters[k].memberIds[m];
      assert id in clusters[k].memberIds;
      var x :| x in Component(nodes, a) && x.assetId == id;
      forall i | 0 <= i < k
        ensures id !in clusters[i].memberIds
      {
        ClustersPartition(sha, nodes, clusters, x, i, k);
      }
    }
  }

  ghost predicate ClustersFine(sha: Sha, byId: map<Digest, Entry>, clusters: seq<Cluster>) {
    forall i :: 0 <= i < |clusters| ==>
      DescriptionOk(sha, byId, clusters[i]) && (CountsAsBlocking(clusters[i]) <==> clusters[i].blocking)
  }

  lemma ListedClustersFine(sha: Sha, byId: map<Digest, Entry>, entries: seq<Entry>, clusters: seq<Cluster>)
    requires Indexes(byId, entries) && DistinctIdsOf(entries) && IsClusterList(sha, Nodes(entries), clusters)
    ensures ClustersFine(sha, byId, clusters)
  {
    forall i | 0 <= i < |clusters|
      ensures DescriptionOk(sha, byId, clusters[i]) && (CountsAsBlocking(clusters[i]) <==> clusters[i].blocking)
    {
      assert clusters[i] in clusters;
      var a :| a in Nodes(entries) && clusters[i] == ClusterOf(sha, Nodes(entries), a);
      ClusterDescribed(sha, byId, entries, a);
    }
  }

  ghost predicate CoveredBy(covered: set<Digest>, clusters: seq<Cluster>, k: nat)
    requires k <= |clusters|
  {
    forall id :: id in covered <==> exists i :: 0 <= i < k && id in clusters[i].memberIds
  }

  lemma CoveredStep(covered: set<Digest>, clusters: seq<Cluster>, k: nat)
    requires k < |clusters| && CoveredBy(covered, clusters, k)
    ensures CoveredBy(covered + (set id | id in clusters[k].memberIds), clusters, k + 1)
  {
  }

  /** On the graph's own clusters every shape check passes. */
  lemma {:induction false} ClusterChecksPass(sha: Sha, byId: map<Digest, Entry>, entries: seq<Entry>,
                                             clusters: seq<Cluster>, k: nat)
    requires Indexes(byId, entries) && DistinctIdsOf(entries) && IsClusterList(sha, Nodes(entries), clusters)
    requires ClustersFine(sha, byId, clusters) && k <= |clusters|
    ensures ScanOf(sha, byId, clusters[..k]).shaped
    ensures CoveredBy(ScanOf(sha, byId, clusters[..k]).covered, clusters, k)
    decreases k
  {
    if k > 0 {
      ClusterChecksPass(sha, byId, entries, clusters, k - 1);
      assert clusters[..k][..k - 1] == clusters[..k - 1];
      var before := ScanOf(sha, byId, clusters[..k - 1]);
      ClusterMembership(sha, byId, entries, clusters, k - 1, before.covered);
      CoveredStep(before.covered, clusters, k - 1);
    }
  }

  ghost function BlockingCount(clusters: seq<Cluster>): nat {
    if clusters == [] then 0
    else BlockingCount(clusters[..|clusters| - 1]) + if CountsAsBlocking(clusters[|clusters| - 1]) then 1 else 0
  }

  ghost function QuietDuplicates(clusters: seq<Cluster>): nat {
    if clusters == [] then 0
    else QuietDuplicates(clusters[..|clusters| - 1]) +
         var c := clusters[|clusters| - 1]; if !CountsAsBlocking(c) && c.edgeCount > 0 then 1 else 0
  }

  lemma {:induction false} ShapedScanCounts(sha: Sha, byId: map<Digest, Entry>, clusters: seq<Cluster>)
    requires ScanOf(sha, byId, clusters).shaped
    ensures ScanOf(sha, byId, clusters).blocking == BlockingCount(clusters)
    ensures ScanOf(sha, byId, clusters).sameRole == QuietDuplicates(clusters)
    decreases |clusters|
  {
    if clusters != [] {
      ShapedScanCounts(sha, byId, clusters[..|clusters| - 1]);
    }
  }

  /** The loop's counts are the numbers of blocking and of same-role duplicate clusters. */
  lemma {:induction false} ClusterCounts(clusters: seq<Cluster>)
    requires forall i :: 0 <= i < |clusters| ==> (CountsAsBlocking(clusters[i]) <==> clusters[i].blocking)
    ensures BlockingCount(clusters) == 0 <==> !SomeClusterBlocks(clusters)
    ensures QuietDuplicates(clusters) == SameRoleDuplicates(clusters)
    decreases |clusters|
  {
    if clusters != [] {
      var init, c := clusters[..|clusters| - 1], clusters[|clusters| - 1];
      ClusterCounts(init);
      assert clusters == init + [c];
      assert c in clusters && forall d :: d in init ==> d in clusters;
    }
  }

  /** The clusters cover exactly the entries' ids. */
  lemma ClustersCoverIds(sha: Sha, byId: map<Digest, Entry>, entries: seq<Entry>, clusters: seq<Cluster>,
                         covered: set<Digest>)
    requires Indexes(byId, entries) && DistinctIdsOf(entries) && IsClusterList(sha, Nodes(entries), clusters)
    requires CoveredBy(covered, clusters, |clusters|)
    ensures covered == byId.Keys
  {
    NodesDistinct(entries);
    forall id | id in byId
      ensures id in covered
    {
      ClustersPartition(sha, Nodes(entries), clusters, byId[id], 0, 0);
      var c :| c in clusters && byId[id].assetId in c.memberIds;
      var i :| 0 <= i < |clusters| && clusters[i] == c;
    }
    forall id | id in covered
      ensures id in byId
    {
      var i :| 0 <= i < |clusters| && id in clusters[i].memberIds;
      MembersAreKnown(sha, byId, entries, clusters, i, id);
    }
  }

  lemma MembersAreKnown(sha: Sha, byId: map<Digest, Entry>, entries: seq<Entry>, clusters: seq<Cluster>, i: nat,
                        id: Digest)
    requires Indexes(byId, entries) && IsClusterList(sha, Nodes(entries), clusters)
    requires i < |clusters| && id in clusters[i].memberIds
    ensures id in byId
  {
    assert clusters[i] in clusters;
    var a :| a in Nodes(entries) && clusters[i] == ClusterOf(sha, Nodes(entries), a);
    var x := MemberBehind(sha, Nodes(entries), a, id);
    assert x in entries;
  }

  lemma MemberBehind(sha: Sha, nodes: set<Entry>, a: Entry, id: Digest) returns (x: Entry)
    requires id in ClusterOf(sha, nodes, a).memberIds
    ensures x in nodes && x.assetId == id
  {
    var members := Component(nodes, a);
    assert id in IdsOf(members);
    x :| x in members && x.assetId == id;
  }

  // ---- the whole validation ----

  lemma {:induction false} FineClustersScan(sha: Sha, byId: map<Digest, Entry>, entries: seq<Entry>,
                                            clusters: seq<Cluster>)
    requires Indexes(byId, entries) && DistinctIdsOf(entries) && IsClusterList(sha, Nodes(entries), clusters)
    ensures var scan := ScanOf(sha, byId, clusters);
      && scan.shaped && scan.covered == byId.Keys
      && (scan.blocking == 0 <==> !SomeClusterBlocks(clusters))
      && scan.sameRole == SameRoleDuplicates(clusters)
  {
    assert clusters[..|clusters|] == clusters;
    ListedClustersFine(sha, byId, entries, clusters);
    ClusterChecksPass(sha, byId, entries, clusters, |clusters|);
    ClustersCoverIds(sha, byId, entries, clusters, ScanOf(sha, byId, clusters).covered);
    ShapedScanCounts(sha, byId, clusters);
    ClusterCounts(clusters);
  }

  /** Equality with the rebuilt evidence is being the graph's evidence in id order. */
  lemma {:induction false} RebuiltIsGraph(sha: Sha, entries: seq<Entry>, cap: nat, r: Result<Evidence, Failure>,
                                          edges: seq<Edge>, clusters: seq<Cluster>)
    requires Hashed(entries) && DistinctIdsOf(entries) && |edges| <= cap
    requires IsEvidence(sha, Nodes(entries), cap, r)
    requires r.Ok? ==> OrderedByVisit(Sort(entries, ById), r.value.edges)
    ensures (r.Ok? && r.value.edges == edges) <==> IsEdgeListing(Nodes(entries), edges) && StrictlyById(edges)
    ensures r.Ok? ==> (r.value.clusters == clusters <==> IsClusterList(sha, Nodes(entries), clusters))
  {
    NodesDistinct(entries);
    if r.Ok? {
      ReorderedEntries(entries, Sort(entries, ById));
      IdOrderRendersById(Sort(entries, ById), r.value.edges);
      if IsEdgeListing(Nodes(entries), edges) && StrictlyById(edges) {
        StrictListingUnique(edges, r.value.edges);
      }
      if IsClusterList(sha, Nodes(entries), clusters) {
        ClusterListUnique(sha, Nodes(entries), clusters, r.value.clusters);
      }
    } else if IsEdgeListing(Nodes(entries), edges) {
      ListingSize(Nodes(entries), edges);
    }
  }

  lemma PayloadsHash(entries: seq<Entry>, sha: Sha, ps: set<Digest>)
    requires OkUpTo(sha, ps, entries, |entries|)
    ensures Hashed(entries)
  {
    OkUpToIsAll(sha, ps, entries, |entries|);
    forall i | 0 <= i < |entries|
      ensures ValidSignature(entries[i].phash)
    {
      assert EntryOk(sha, ps, entries[i]);
    }
  }

  /** Rebuild the graph and compare; then the edge, cluster and summary passes. */
  method CheckGraph(sha: Sha, report: Report, byId: map<Digest, Entry>, cap: nat, payloadsBound: bool)
    returns (v: Verdict)
    requires Injective(sha) && Hashed(report.entries) && DistinctIdsOf(report.entries)
    requires Indexes(byId, report.entries) && |report.edges| <= cap
    ensures v.Accepted? <==> payloadsBound && GraphOk(sha, report, cap) && SummaryOk(report)
  {
    var entries, nodes := report.entries, Nodes(report.entries);
    var rebuilt := ReconstructEvidence(sha, entries, cap);
    RebuiltIsGraph(sha, entries, cap, rebuilt, report.edges, report.clusters);
    if rebuilt.Err? || rebuilt.value.edges != report.edges {
      return Rejected(EdgesDiffer);
    }
    if rebuilt.value.clusters != report.clusters {
      return Rejected(ClustersDiffer);
    }
    if !payloadsBound {
      return Rejected(PayloadBinding);
    }
    EdgeChecksAreBlocking(byId, entries, report.edges);
    FineClustersScan(sha, byId, entries, report.clusters);
    NodesDistinct(entries);
    BlockingEquivalence(sha, nodes, report.edges, report.clusters);
    var summary := report.summary;
    if summary.edges != |report.edges| || summary.clusters != |report.clusters| {
      return Rejected(SummaryMismatch);
    }
    var harmless := CheckEdges(byId, report.edges);
    if !harmless {
      return Rejected(BadEdge);
    }
    var scan := CheckClusters(sha, byId, report.clusters);
    if !scan.shaped || scan.blocking > 0 || summary.blockingClusters != 0 {
      return Rejected(BadCluster);
    }
    if scan.covered != byId.Keys || summary.sameRoleClusters != scan.sameRole {
      return Rejected(SummaryMismatch);
    }
    v := Accepted;
  }

  lemma {:induction false} OrderedEntries(entries: seq<Entry>)
    requires DistinctIdsOf(entries)
    ensures entries == Sort(entries, ById) <==> StrictlyByAssetId(entries)
  {
    if StrictlyByAssetId(entries) {
      SortFixesAscending(entries, ById);
    }
    SortAscends(entries, ById);
    assert entries == Sort(entries, ById) ==> forall i, j :: 0 <= i < j < |entries| ==> ById(entries[i], entries[j]);
  }

  /** Everything the entries are checked for before the graph is rebuilt. */
  ghost predicate EntriesFine(sha: Sha, inputs: Inputs, entries: seq<Entry>) {
    && OkUpTo(sha, inputs.protectedSources, entries, |entries|)
    && StrictlyByAssetId(entries)
    && ViewsCovered(inputs, entries)
    && EntriesMatchInputs(sha, inputs, entries)
  }

  method CheckIdentities(sha: Sha, inputs: Inputs, entries: seq<Entry>, sources: set<CandidateKey>,
                         crops: set<CandidateKey>, objects: set<ProtectedKey>)
    returns (v: Verdict, byId: map<Digest, Entry>)
    requires sources == ExpectedSources(inputs.rows) && crops == ExpectedCrops(inputs.rows)
    requires objects == ExpectedProtected(sha, inputs.objects)
    ensures v.Accepted? <==> EntriesFine(sha, inputs, entries)
    ensures v.Accepted? ==> DistinctIdsOf(entries) && Indexes(byId, entries)
  {
    byId := map[];
    var ok, tally := CheckEntries(sha, inputs.protectedSources, entries);
    if !ok {
      return Rejected(BadEntry), byId;
    }
    CountAllSpec(entries);
    OrderedEntries(entries);
    byId := tally.byId;
    if !CountersCovered(inputs, tally.candidateSources, tally.candidateCrops, tally.protectedSources,
                        tally.protectedCrops) {
      return Rejected(ViewsIncomplete), byId;
    }
    if tally.sourceKeys != sources || tally.cropKeys != crops {
      return Rejected(ManifestMismatch), byId;
    }
    if tally.protectedKeys != objects {
      return Rejected(InventoryMismatch), byId;
    }
    if entries != Sort(entries, ById) {
      return Rejected(NotOrdered), byId;
    }
    v := Accepted;
  }

  /** The manifest and inventory expectations, and the counts that must match them. */
  method CheckInputs(sha: Sha, inputs: Inputs)
    returns (v: Verdict, sources: set<CandidateKey>, crops: set<CandidateKey>, objects: set<ProtectedKey>)
    requires inputs.protectedSources != {} && inputs.protectedAssets >= 1
    ensures v.Accepted? <==> InputsOk(sha, inputs)
    ensures v.Accepted? ==> sources == ExpectedSources(inputs.rows) && crops == ExpectedCrops(inputs.rows)
    ensures v.Accepted? ==> objects == ExpectedProtected(sha, inputs.objects)
  {
    var ok, count;
    objects := {};
    ok, sources, crops, count := ExpectRows(inputs.rows);
    if !ok || inputs.candidateAssets != 2 * count || |sources| != count || |crops| != count {
      return Rejected(BadRows), sources, crops, objects;
    }
    objects := ExpectObjects(sha, inputs.objects);
    if |objects| != inputs.protectedAssets {
      return Rejected(BadInventory), sources, crops, objects;
    }
    v := Accepted;
  }

  /** `_validate_near_duplicate_audit`: accepted exactly when `Accepts` holds. */
  method Validate(sha: Sha, inputs: Inputs, report: Report, cap: nat) returns (v: Verdict)
    requires Injective(sha)
    ensures v.Accepted? <==> Accepts(sha, inputs, report, cap)
    ensures v.Accepted? <==> Deserves(sha, inputs, report, cap)
  {
    AcceptsExactly(sha, inputs, report, cap);
    if report.status != "passed" || !report.ok {
      return Rejected(BadStatus);
    }
    if report.coverage != ExpectedCoverage(inputs) || inputs.protectedSources == {} || inputs.protectedAssets < 1 {
      return Rejected(BadCoverage);
    }
    if |report.entries| != inputs.candidateAssets + inputs.protectedAssets || |report.edges| > cap {
      return Rejected(BadCoverage);
    }
    var sources, crops, objects, byId;
    v, sources, crops, objects := CheckInputs(sha, inputs);
    if v.Rejected? {
      return;
    }
    v, byId := CheckIdentities(sha, inputs, report.entries, sources, crops, objects);
    OkUpToIsAll(sha, inputs.protectedSources, report.entries, |report.entries|);
    if v.Rejected? {
      return;
    }
    PayloadsHash(report.entries, sha, inputs.protectedSources);
    v := CheckGraph(sha, report, byId, cap, PayloadsBound(sha, report));
  }

  // ---- what acceptance buys ----

  /** Leakage theorem: no accepted report hides two entries of different roles that share source bytes, image
      bytes, or a rotation within the radius, whatever edges it lists. */
  lemma AcceptedMeansNoLeak(sha: Sha, inputs: Inputs, report: Report, cap: nat)
    requires Accepts(sha, inputs, report, cap)
    ensures NoLeak(Nodes(report.entries)) && RolesUnlike(Nodes(report.entries))
  {
    NodesDistinct(report.entries);
    OkEntriesAreHashed(sha, inputs.protectedSources, report.entries);
    UnblockedMeansNoLeak(Nodes(report.entries), report.edges);
  }

  lemma OkEntriesAreHashed(sha: Sha, protectedSources: set<Digest>, entries: seq<Entry>)
    requires forall i :: 0 <= i < |entries| ==> EntryOk(sha, protectedSources, entries[i])
    ensures HashedNodes(Nodes(entries))
  {
    forall e | e in Nodes(entries)
      ensures PerceptualHash.AllHashes(e.phash)
    {
      var i :| 0 <= i < |entries| && entries[i] == e;
      assert PayloadOk(entries[i]);
    }
  }

  /** Every manifest row is there as a source view and as a crop view. */
  lemma AcceptedCoversRows(sha: Sha, inputs: Inputs, report: Report, cap: nat, role: string, row: ManifestRow)
    requires Accepts(sha, inputs, report, cap)
    requires role in inputs.rows && row in inputs.rows[role]
    ensures exists e :: e in report.entries && IsCandidate(e) && IsSource(e) && EntryKey(e) == SourceKey(role, row)
    ensures exists e :: e in report.entries && IsCandidate(e) && !IsSource(e) && EntryKey(e) == CropKey(role, row)
  {
    assert SourceKey(role, row) in ExpectedSources(inputs.rows);
    assert CropKey(role, row) in ExpectedCrops(inputs.rows);
    var e :| e in Views(report.entries, true, true) && EntryKey(e) == SourceKey(role, row);
    ViewMembers(report.entries, true, true, e);
    var f :| f in Views(report.entries, true, false) && EntryKey(f) == CropKey(role, row);
    ViewMembers(report.entries, true, false, f);
  }

  function ViewKey(role: string, row: ManifestRow, source: bool): CandidateKey {
    if source then SourceKey(role, row) else CropKey(role, row)
  }

  /** Every candidate entry comes from a manifest row of its own role. */
  lemma AcceptedEntriesAreRows(sha: Sha, inputs: Inputs, report: Report, cap: nat, e: Entry)
    requires Accepts(sha, inputs, report, cap)
    requires e in report.entries && IsCandidate(e)
    ensures e.role in inputs.rows
    ensures exists row :: row in inputs.rows[e.role] && EntryKey(e) == ViewKey(e.role, row, IsSource(e))
  {
    ViewMembers(report.entries, true, IsSource(e), e);
    assert EntryKey(e) in EntryKeys(Views(report.entries, true, IsSource(e)));
    if IsSource(e) {
      var role, row :| role in inputs.rows && row in inputs.rows[role] && EntryKey(e) == SourceKey(role, row);
    } else {
      var role, row :| role in inputs.rows && row in inputs.rows[role] && EntryKey(e) == CropKey(role, row);
    }
  }

  lemma CropOf(sha: Sha, inputs: Inputs, report: Report, cap: nat, role: string, row: ManifestRow) returns (e: Entry)
    requires Accepts(sha, inputs, report, cap)
    requires role in inputs.rows && row in inputs.rows[role]
    ensures e in Nodes(report.entries) && e.role == role && e.sourceSha == row.sourceSha && e.imageSha == row.imageSha
    ensures e.sourceSha !in inputs.protectedSources
  {
    AcceptedCoversRows(sha, inputs, report, cap, role, row);
    e :| e in report.entries && IsCandidate(e) && !IsSource(e) && EntryKey(e) == CropKey(role, row);
    CandidateIsUnprotected(sha, inputs, report.entries, e);
  }

  lemma CandidateIsUnprotected(sha: Sha, inputs: Inputs, entries: seq<Entry>, e: Entry)
    requires EntriesOk(sha, inputs, entries) && e in entries && IsCandidate(e)
    ensures e.sourceSha !in inputs.protectedSources
  {
    var i :| 0 <= i < |entries| && entries[i] == e;
    assert EntryOk(sha, inputs.protectedSources, entries[i]);
  }

  /** In particular the two candidate roles share no source and no image, and none is protected. */
  lemma AcceptedRowsAreSeparated(sha: Sha, inputs: Inputs, report: Report, cap: nat, train: ManifestRow,
                                 held: ManifestRow)
    requires Accepts(sha, inputs, report, cap)
    requires "train" in inputs.rows && train in inputs.rows["train"]
    requires "model_validation" in inputs.rows && held in inputs.rows["model_validation"]
    ensures train.sourceSha != held.sourceSha && train.imageSha != held.imageSha
    ensures train.sourceSha !in inputs.protectedSources && held.sourceSha !in inputs.protectedSources
  {
    AcceptedMeansNoLeak(sha, inputs, report, cap);
    var a := CropOf(sha, inputs, report, cap, "train", train);
    var b := CropOf(sha, inputs, report, cap, "model_validation", held);
  }
}
