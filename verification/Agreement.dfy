/** The auditor and the authority builder agree, and what blocking means on either side. */
module Agreement {
  import opened Clusters
  import opened EdgeMaps
  import opened Graph
  import opened GraphEvidence
  import opened NearPairs
  import opened Order
  import opened Wrappers

  const CANDIDATE_ROLES: set<string> := {"train", "model_validation"}

  lemma NodesDistinct(entries: seq<Entry>)
    requires DistinctIdsOf(entries)
    ensures DistinctIds(Nodes(entries))
  {
  }

  // ---- same outcome, same clusters, same edges ----

  lemma OutcomesAgree(sha: Sha, nodes: set<Entry>, cap: nat, a: Result<Evidence, Failure>, b: Result<Evidence, Failure>)
    requires IsEvidence(sha, nodes, cap, a) && IsEvidence(sha, nodes, cap, b)
    ensures a.Err? <==> b.Err?
    ensures a.Err? ==> a == b
    ensures a.Ok? ==> a.value.clusters == b.value.clusters
    ensures a.Ok? ==> forall e :: e in a.value.edges <==> e in b.value.edges
    ensures a.Ok? ==> |a.value.edges| == |b.value.edges|
  {
    if a.Ok? {
      ClusterListUnique(sha, nodes, a.value.clusters, b.value.clusters);
      var all := set e | e in a.value.edges;
      DistinctListing(a.value.edges, all);
      DistinctListing(b.value.edges, all);
    }
  }

  predicate EdgeBefore(e: Edge, f: Edge) {
    e.left < f.left || (e.left == f.left && e.right < f.right)
  }

  ghost predicate StrictlyById(edges: seq<Edge>) {
    forall i, j :: 0 <= i < j < |edges| ==> EdgeBefore(edges[i], edges[j])
  }

  lemma {:induction false} StrictListingUnique(a: seq<Edge>, b: seq<Edge>)
    requires StrictlyById(a) && StrictlyById(b)
    requires forall e :: e in a <==> e in b
    ensures a == b
    decreases |a|
  {
    assert b != [] ==> b[0] in a;
    if a != [] {
      assert a[0] in b && b[0] in a;
      assert a[0] == b[0];
      forall e
        ensures e in a[1..] <==> e in b[1..]
      {
        assert e in a[1..] ==> e in a && e != a[0];
        assert e in b[1..] ==> e in b && e != b[0];
      }
      StrictListingUnique(a[1..], b[1..]);
      assert a == [a[0]] + a[1..] && b == [b[0]] + b[1..];
    }
  }

  /** When every key points from its smaller id to its larger one, the rendering is in id order. */
  lemma OrientedRendersById(entries: seq<Entry>, keys: seq<Pos>, edges: seq<Edge>)
    requires DistinctIdsOf(entries) && Rendered(entries, keys, edges) && Ascending(keys, ByIds(entries))
    requires forall k :: 0 <= k < |keys| ==> entries[keys[k].0].assetId < entries[keys[k].1].assetId
    ensures StrictlyById(edges)
  {
    forall i, j | 0 <= i < j < |edges|
      ensures EdgeBefore(edges[i], edges[j])
    {
      OrientedPair(entries, keys, edges, i, j);
    }
  }

  lemma OrientedPair(entries: seq<Entry>, keys: seq<Pos>, edges: seq<Edge>, i: nat, j: nat)
    requires DistinctIdsOf(entries) && Rendered(entries, keys, edges) && Ascending(keys, ByIds(entries))
    requires forall k :: 0 <= k < |keys| ==> entries[keys[k].0].assetId < entries[keys[k].1].assetId
    requires i < j < |edges|
    ensures EdgeBefore(edges[i], edges[j])
  {
    assert ByIds(entries)(keys[i], keys[j]);
    RenderedEnds(entries[keys[i].0], entries[keys[i].1]);
    RenderedEnds(entries[keys[j].0], entries[keys[j].1]);
    assert keys[i] != keys[j];
    SameEndpoints(entries, keys[i], keys[j]);
  }

  /** Visiting in id order renders the edges in id order. */
  lemma IdOrderRendersById(entries: seq<Entry>, edges: seq<Edge>)
    requires forall i, j :: 0 <= i < j < |entries| ==> entries[i].assetId < entries[j].assetId
    requires OrderedByVisit(entries, edges)
    ensures StrictlyById(edges)
  {
    var keys: seq<Pos> :| Rendered(entries, keys, edges) && Ascending(keys, ByIds(entries));
    OrientedRendersById(entries, keys, edges);
  }

  /** `candidate_records + protected_records`, each sorted on its canonical bytes, whose first field is the id. */
  function VisitOrder(candidates: seq<Entry>, protected_: seq<Entry>): seq<Entry> {
    Sort(candidates, ById) + Sort(protected_, ById)
  }

  ghost predicate SplitByRole(candidates: seq<Entry>, protected_: seq<Entry>) {
    && (forall e :: e in candidates ==> e.role in CANDIDATE_ROLES)
    && (forall e :: e in protected_ ==> e.role !in CANDIDATE_ROLES)
  }

  lemma {:induction false} SortedHalf(part: seq<Entry>)
    requires DistinctIdsOf(part)
    ensures forall i, j :: 0 <= i < j < |Sort(part, ById)| ==> Sort(part, ById)[i].assetId < Sort(part, ById)[j].assetId
    ensures forall e :: e in Sort(part, ById) <==> e in part
    ensures |Sort(part, ById)| == |part|
  {
    var sorted := Sort(part, ById);
    SortMembers(part, ById);
    SortAscends(part, ById);
    PermutationDistinct(part, sorted);
    forall i, j | 0 <= i < j < |sorted|
      ensures sorted[i].assetId < sorted[j].assetId
    {
      assert ById(sorted[i], sorted[j]) && sorted[i] != sorted[j];
      assert sorted[i] in sorted && sorted[j] in sorted;
      var x :| 0 <= x < |part| && part[x] == sorted[i];
      var y :| 0 <= y < |part| && part[y] == sorted[j];
      assert x != y;
    }
  }

  /** Without an edge across roles, no edge crosses the two halves, so the auditor's order is id order too. */
  lemma UnblockedRendersById(candidates: seq<Entry>, protected_: seq<Entry>, edges: seq<Edge>)
    requires DistinctIdsOf(candidates + protected_) && SplitByRole(candidates, protected_)
    requires OrderedByVisit(VisitOrder(candidates, protected_), edges)
    requires forall e :: e in edges ==> !e.blocking
    ensures StrictlyById(edges)
  {
    var entries := VisitOrder(candidates, protected_);
    HalfDistinct(candidates, protected_);
    SortedHalf(candidates);
    SortedHalf(protected_);
    var keys: seq<Pos> :| Rendered(entries, keys, edges) && Ascending(keys, ByIds(entries));
    forall k | 0 <= k < |keys|
      ensures entries[keys[k].0].assetId < entries[keys[k].1].assetId
    {
      UnblockedKey(candidates, protected_, entries, keys[k].0, keys[k].1, edges[k]);
    }
    VisitDistinct(candidates, protected_);
    OrientedRendersById(entries, keys, edges);
  }

  lemma HalfDistinct(candidates: seq<Entry>, protected_: seq<Entry>)
    requires DistinctIdsOf(candidates + protected_)
    ensures DistinctIdsOf(candidates) && DistinctIdsOf(protected_)
    ensures forall c, p :: c in candidates && p in protected_ ==> c.assetId != p.assetId
  {
    var all := candidates + protected_;
    forall i, j | 0 <= i < j < |candidates|
      ensures candidates[i].assetId != candidates[j].assetId
    {
      assert all[i] == candidates[i] && all[j] == candidates[j];
    }
    forall i, j | 0 <= i < j < |protected_|
      ensures protected_[i].assetId != protected_[j].assetId
    {
      assert all[|candidates| + i] == protected_[i] && all[|candidates| + j] == protected_[j];
    }
    forall c, p | c in candidates && p in protected_
      ensures c.assetId != p.assetId
    {
      var i :| 0 <= i < |candidates| && candidates[i] == c;
      var j :| 0 <= j < |protected_| && protected_[j] == p;
      assert all[i] == c && all[|candidates| + j] == p;
    }
  }

  /** The auditor's visiting order is a permutation of its records. */
  lemma VisitDistinct(candidates: seq<Entry>, protected_: seq<Entry>)
    requires DistinctIdsOf(candidates + protected_)
    ensures DistinctIdsOf(VisitOrder(candidates, protected_))
    ensures Nodes(VisitOrder(candidates, protected_)) == Nodes(candidates + protected_)
  {
    var visit := VisitOrder(candidates, protected_);
    HalfDistinct(candidates, protected_);
    SortedHalf(candidates);
    SortedHalf(protected_);
    forall i, j | 0 <= i < j < |visit|
      ensures visit[i].assetId != visit[j].assetId
    {
      if i < |candidates| <= j {
        assert visit[i] in Sort(candidates, ById) && visit[j] in Sort(protected_, ById);
      }
    }
  }

  lemma UnblockedKey(candidates: seq<Entry>, protected_: seq<Entry>, entries: seq<Entry>, i: nat, j: nat, e: Edge)
    requires SplitByRole(candidates, protected_) && entries == VisitOrder(candidates, protected_)
    requires DistinctIdsOf(candidates) && DistinctIdsOf(protected_)
    requires i < j < |entries| && e == RenderEdge(entries[i], entries[j]) && !e.blocking
    ensures entries[i].assetId < entries[j].assetId
  {
    SortedHalf(candidates);
    SortedHalf(protected_);
    RenderedEnds(entries[i], entries[j]);
    forall k | 0 <= k < |entries|
      ensures entries[k].role in CANDIDATE_ROLES <==> k < |candidates|
    {
      assert k < |candidates| ==> entries[k] in Sort(candidates, ById);
      assert k >= |candidates| ==> entries[k] in Sort(protected_, ById);
    }
  }

  /** Two builders, two orders: with nothing blocking, even the rendered edge lists are identical. */
  lemma {:induction false} UnblockedListsAgree(sha: Sha, candidates: seq<Entry>, protected_: seq<Entry>,
                                               entries: seq<Entry>, cap: nat, audited: Evidence, rebuilt: Evidence)
    requires DistinctIdsOf(candidates + protected_) && SplitByRole(candidates, protected_)
    requires DistinctIdsOf(entries) && Hashed(entries)
    requires Nodes(entries) == Nodes(candidates + protected_)
    requires IsEvidence(sha, Nodes(entries), cap, Ok(audited)) && IsEvidence(sha, Nodes(entries), cap, Ok(rebuilt))
    requires OrderedByVisit(VisitOrder(candidates, protected_), audited.edges)
    requires OrderedByVisit(Sort(entries, ById), rebuilt.edges)
    requires forall e :: e in audited.edges ==> !e.blocking
    ensures audited == rebuilt
  {
    OutcomesAgree(sha, Nodes(entries), cap, Ok(audited), Ok(rebuilt));
    UnblockedRendersById(candidates, protected_, audited.edges);
    ReorderedEntries(entries, Sort(entries, ById));
    IdOrderRendersById(Sort(entries, ById), rebuilt.edges);
    StrictListingUnique(audited.edges, rebuilt.edges);
  }

  // ---- exactly when the two lists are equal ----

  /** `p` is the position of an edge, its ends in visiting order. */
  predicate IsEdgeAt(entries: seq<Entry>, p: Pos) {
    p.0 < p.1 < |entries| && HasEdge(entries[p.0], entries[p.1])
  }

  /** The ids an edge is rendered with, the smaller one first. */
  function RenderedIds(entries: seq<Entry>, p: Pos): (nat, nat) {
    if p.0 < |entries| && p.1 < |entries| then EndIds(entries[p.0], entries[p.1]) else (0, 0)
  }

  /** Sorting the edges by their ends' ids as visited also sorts them by their ids as rendered. */
  ghost predicate VisitKeepsIdOrder(entries: seq<Entry>) {
    forall p: Pos, q: Pos ::
      IsEdgeAt(entries, p) && IsEdgeAt(entries, q) && PairLe(IdPair(entries, p), IdPair(entries, q)) ==>
      PairLe(RenderedIds(entries, p), RenderedIds(entries, q))
  }

  /** The position of one key in the rendered order comes no later than another's, as their visited ids do. */
  lemma KeyOrder(entries: seq<Entry>, keys: seq<Pos>, i: nat, j: nat)
    requires DistinctIdsOf(entries) && InRange(keys, |entries|) && Distinct(keys) && Ascending(keys, ByIds(entries))
    requires i < |keys| && j < |keys| && PairLe(IdPair(entries, keys[i]), IdPair(entries, keys[j]))
    ensures i <= j
  {
  }

  lemma RenderedAt(entries: seq<Entry>, keys: seq<Pos>, edges: seq<Edge>, k: nat)
    requires Rendered(entries, keys, edges) && k < |keys|
    ensures (edges[k].left, edges[k].right) == RenderedIds(entries, keys[k]) && IsEdgeAt(entries, keys[k])
  {
    RenderedEnds(entries[keys[k].0], entries[keys[k].1]);
    assert keys[k] in keys;
  }

  lemma StrictKeepsOrder(entries: seq<Entry>, keys: seq<Pos>, edges: seq<Edge>, p: Pos, q: Pos)
    requires DistinctIdsOf(entries) && Rendered(entries, keys, edges) && Ascending(keys, ByIds(entries))
    requires StrictlyById(edges) && IsEdgeAt(entries, p) && IsEdgeAt(entries, q)
    requires PairLe(IdPair(entries, p), IdPair(entries, q))
    ensures PairLe(RenderedIds(entries, p), RenderedIds(entries, q))
  {
    assert p in keys && q in keys;
    var i :| 0 <= i < |keys| && keys[i] == p;
    var j :| 0 <= j < |keys| && keys[j] == q;
    KeyOrder(entries, keys, i, j);
    RenderedAt(entries, keys, edges, i);
    RenderedAt(entries, keys, edges, j);
    assert i < j ==> EdgeBefore(edges[i], edges[j]);
  }

  lemma KeptIsStrict(entries: seq<Entry>, keys: seq<Pos>, edges: seq<Edge>, i: nat, j: nat)
    requires DistinctIdsOf(entries) && Rendered(entries, keys, edges) && Ascending(keys, ByIds(entries))
    requires VisitKeepsIdOrder(entries) && i < j < |edges|
    ensures EdgeBefore(edges[i], edges[j])
  {
    RenderedAt(entries, keys, edges, i);
    RenderedAt(entries, keys, edges, j);
    assert ByIds(entries)(keys[i], keys[j]);
    assert keys[i] != keys[j];
    SameEndpoints(entries, keys[i], keys[j]);
  }

  lemma RenderedByIdIff(entries: seq<Entry>, keys: seq<Pos>, edges: seq<Edge>)
    requires DistinctIdsOf(entries) && Rendered(entries, keys, edges) && Ascending(keys, ByIds(entries))
    ensures StrictlyById(edges) <==> VisitKeepsIdOrder(entries)
  {
    if StrictlyById(edges) {
      forall p: Pos, q: Pos |
        IsEdgeAt(entries, p) && IsEdgeAt(entries, q) && PairLe(IdPair(entries, p), IdPair(entries, q))
        ensures PairLe(RenderedIds(entries, p), RenderedIds(entries, q))
      {
        StrictKeepsOrder(entries, keys, edges, p, q);
      }
    }
    if VisitKeepsIdOrder(entries) {
      forall i, j | 0 <= i < j < |edges|
        ensures EdgeBefore(edges[i], edges[j])
      {
        KeptIsStrict(entries, keys, edges, i, j);
      }
    }
  }

  /** The auditor's and the re-deriver's edge lists are equal exactly when the visiting order keeps the id order. */
  lemma {:induction false} ListsAgreeExactlyWhen(candidates: seq<Entry>, protected_: seq<Entry>, entries: seq<Entry>,
                                                 audited: seq<Edge>, rebuilt: seq<Edge>)
    requires DistinctIdsOf(candidates + protected_) && DistinctIdsOf(entries) && Hashed(entries)
    requires Nodes(entries) == Nodes(candidates + protected_)
    requires OrderedByVisit(VisitOrder(candidates, protected_), audited)
    requires OrderedByVisit(Sort(entries, ById), rebuilt)
    ensures audited == rebuilt <==> VisitKeepsIdOrder(VisitOrder(candidates, protected_))
  {
    var visit, ordered := VisitOrder(candidates, protected_), Sort(entries, ById);
    VisitDistinct(candidates, protected_);
    ReorderedEntries(entries, ordered);
    IdOrderRendersById(ordered, rebuilt);
    var keys: seq<Pos> :| Rendered(visit, keys, audited) && Ascending(keys, ByIds(visit));
    RenderedByIdIff(visit, keys, audited);
    RenderedIsListing(visit, keys, audited);
    var others: seq<Pos> :| Rendered(ordered, others, rebuilt);
    RenderedIsListing(ordered, others, rebuilt);
    if StrictlyById(audited) {
      StrictListingUnique(audited, rebuilt);
    }
  }

  /** Both programs on one data set: the same edges, in the same order exactly when visiting keeps the id order. */
  method RunBoth(sha: Sha, candidates: seq<Entry>, protected_: seq<Entry>, cap: nat)
    returns (audited: Result<Evidence, Failure>, rebuilt: Result<Evidence, Failure>)
    requires Injective(sha) && DistinctIdsOf(candidates + protected_) && Hashed(candidates + protected_)
    ensures audited.Ok? <==> |EdgesWithin(Nodes(candidates + protected_))| <= cap
    ensures audited.Ok? <==> rebuilt.Ok?
    ensures audited.Ok? ==>
      && IsEdgeListing(Nodes(candidates + protected_), audited.value.edges)
      && (forall e :: e in audited.value.edges <==> e in rebuilt.value.edges)
      && audited.value.clusters == rebuilt.value.clusters
      && (audited.value.edges == rebuilt.value.edges <==> VisitKeepsIdOrder(VisitOrder(candidates, protected_)))
  {
    var entries, visit := candidates + protected_, VisitOrder(candidates, protected_);
    VisitDistinct(candidates, protected_);
    VisitHashed(candidates, protected_);
    audited := AuditorEvidence(sha, visit, cap);
    rebuilt := ReconstructEvidence(sha, entries, cap);
    OutcomesAgree(sha, Nodes(entries), cap, audited, rebuilt);
    if audited.Ok? && rebuilt.Ok? {
      ListsAgreeExactlyWhen(candidates, protected_, entries, audited.value.edges, rebuilt.value.edges);
    }
  }

  lemma VisitHashed(candidates: seq<Entry>, protected_: seq<Entry>)
    requires Hashed(candidates + protected_)
    requires Nodes(VisitOrder(candidates, protected_)) == Nodes(candidates + protected_)
    ensures Hashed(VisitOrder(candidates, protected_))
  {
    var visit := VisitOrder(candidates, protected_);
    forall i | 0 <= i < |visit|
      ensures ValidSignature(visit[i].phash)
    {
      assert visit[i] in Nodes(visit);
      var k :| 0 <= k < |candidates + protected_| && (candidates + protected_)[k] == visit[i];
    }
  }

  // ---- blocking, read from edges or from clusters ----

  ghost predicate SomeEdgeBlocks(edges: seq<Edge>) {
    exists e :: e in edges && e.blocking
  }

  ghost predicate SomeClusterBlocks(clusters: seq<Cluster>) {
    exists c :: c in clusters && c.blocking
  }

  lemma TwoRoles(members: set<Entry>)
    ensures |SortedStrings(RolesOf(members))| > 1 <==> exists a, b :: a in members && b in members && a.role != b.role
  {
    var roles := SortedStrings(RolesOf(members));
    if |roles| > 1 {
      assert roles[0] in roles && roles[1] in roles && roles[0] != roles[1];
      var a :| a in members && a.role == roles[0];
      var b :| b in members && b.role == roles[1];
    }
    if a, b :| a in members && b in members && a.role != b.role {
      assert a.role in RolesOf(members) && b.role in RolesOf(members);
      assert a.role in roles && b.role in roles;
    }
  }

  lemma {:induction false} RoleChangesOnPath(nodes: set<Entry>, path: seq<Entry>) returns (a: Entry, b: Entry)
    requires IsPath(nodes, path) && path[0].role != path[|path| - 1].role
    ensures a in nodes && b in nodes && HasEdge(a, b) && a.role != b.role
    decreases |path|
  {
    if path[0].role != path[1].role {
      a, b := path[0], path[1];
      assert HasEdge(path[0], path[0 + 1]);
    } else {
      assert IsPath(nodes, path[1..]) by {
        forall k | 0 <= k < |path| - 2
          ensures HasEdge(path[1..][k], path[1..][k + 1])
        {
          assert HasEdge(path[k + 1], path[k + 2]);
        }
      }
      a, b := RoleChangesOnPath(nodes, path[1..]);
    }
  }

  lemma ClusterBlocks(sha: Sha, nodes: set<Entry>, a: Entry)
    ensures ClusterOf(sha, nodes, a).blocking <==>
      exists x, y :: x in Component(nodes, a) && y in Component(nodes, a) && x.role != y.role
  {
    TwoRoles(Component(nodes, a));
  }

  lemma EdgeMakesClusterBlock(sha: Sha, nodes: set<Entry>, edges: seq<Edge>) returns (a: Entry)
    requires IsEdgeListing(nodes, edges) && SomeEdgeBlocks(edges)
    ensures a in nodes && ClusterOf(sha, nodes, a).blocking
  {
    var e :| e in edges && e.blocking;
    var u, v :| (u, v) in EdgesWithin(nodes) && e == RenderEdge(u, v);
    a := u;
    RenderedEnds(u, v);
    ConnectedSelf(nodes, u);
    ConnectedEdge(nodes, u, v);
    assert u in Component(nodes, u) && v in Component(nodes, u);
    ClusterBlocks(sha, nodes, u);
  }

  lemma ClusterMakesEdgeBlock(sha: Sha, nodes: set<Entry>, edges: seq<Edge>, a: Entry)
    requires DistinctIds(nodes) && IsEdgeListing(nodes, edges)
    requires a in nodes && ClusterOf(sha, nodes, a).blocking
    ensures SomeEdgeBlocks(edges)
  {
    ClusterBlocks(sha, nodes, a);
    var x, y :| x in Component(nodes, a) && y in Component(nodes, a) && x.role != y.role;
    ConnectedSymmetric(nodes, a, x);
    ConnectedTransitive(nodes, x, a, y);
    var path :| IsPath(nodes, path) && path[0] == x && path[|path| - 1] == y;
    var u, v := RoleChangesOnPath(nodes, path);
    EdgeBlocks(nodes, edges, u, v);
  }

  /** Some cluster spans two roles exactly when some edge joins two roles. */
  lemma BlockingEquivalence(sha: Sha, nodes: set<Entry>, edges: seq<Edge>, clusters: seq<Cluster>)
    requires DistinctIds(nodes)
    requires IsEdgeListing(nodes, edges) && IsClusterList(sha, nodes, clusters)
    ensures SomeEdgeBlocks(edges) <==> SomeClusterBlocks(clusters)
  {
    if SomeEdgeBlocks(edges) {
      var a := EdgeMakesClusterBlock(sha, nodes, edges);
      assert ClusterOf(sha, nodes, a) in clusters;
    }
    if SomeClusterBlocks(clusters) {
      var c :| c in clusters && c.blocking;
      var a :| a in nodes && c == ClusterOf(sha, nodes, a);
      ClusterMakesEdgeBlock(sha, nodes, edges, a);
    }
  }

  /** Two differently-roled entries with an edge put a blocking edge in every listing. */
  lemma EdgeBlocks(nodes: set<Entry>, edges: seq<Edge>, u: Entry, v: Entry)
    requires DistinctIds(nodes) && IsEdgeListing(nodes, edges)
    requires u in nodes && v in nodes && HasEdge(u, v) && u.role != v.role
    ensures SomeEdgeBlocks(edges)
  {
    EdgeSymmetric(u, v);
    var a, b := if u.assetId < v.assetId then u else v, if u.assetId < v.assetId then v else u;
    assert (a, b) in EdgesWithin(nodes);
    RenderedEnds(a, b);
    assert RenderEdge(a, b) in edges;
  }

  /** Leakage-free: no two entries of different roles share bytes, a source, or a close signature. */
  ghost predicate NoLeak(nodes: set<Entry>) {
    forall a, b :: a in nodes && b in nodes && a.role != b.role ==>
      a.sourceSha != b.sourceSha && a.imageSha != b.imageSha &&
      forall x, y :: x in a.phash && y in b.phash ==> PHASH_DISTANCE < PerceptualHash.BitDistance(x, y)
  }

  /** Two entries share no source and no image, and every two of their hashes differ in more than four binary digits. */
  ghost predicate Unlike(a: Entry, b: Entry) {
    && a.sourceSha != b.sourceSha && a.imageSha != b.imageSha
    && (forall x, y :: x in a.phash && y in b.phash ==> 4 < |PerceptualHash.Differing(x, y)|)
  }

  /** The same as leakage-free, in binary digits: entries of different roles are unlike each other. */
  ghost predicate RolesUnlike(nodes: set<Entry>) {
    forall a, b :: a in nodes && b in nodes && a.role != b.role ==> Unlike(a, b)
  }

  ghost predicate HashedNodes(nodes: set<Entry>) {
    forall e :: e in nodes ==> PerceptualHash.AllHashes(e.phash)
  }

  lemma NoLeakIsUnlike(nodes: set<Entry>)
    requires HashedNodes(nodes)
    ensures NoLeak(nodes) <==> RolesUnlike(nodes)
  {
    forall a, b | a in nodes && b in nodes
      ensures Unlike(a, b) <==>
        && a.sourceSha != b.sourceSha && a.imageSha != b.imageSha
        && (forall x, y :: x in a.phash && y in b.phash ==> PHASH_DISTANCE < PerceptualHash.BitDistance(x, y))
    {
      forall x, y | x in a.phash && y in b.phash
        ensures PerceptualHash.BitDistance(x, y) == |PerceptualHash.Differing(x, y)|
      {
        PerceptualHash.DistanceIsDifferingDigits(x, y);
      }
    }
  }

  /** No blocking edge means no leak, and conversely. */
  lemma UnblockedMeansNoLeak(nodes: set<Entry>, edges: seq<Edge>)
    requires DistinctIds(nodes) && IsEdgeListing(nodes, edges)
    ensures !SomeEdgeBlocks(edges) <==> NoLeak(nodes)
    ensures HashedNodes(nodes) ==> (!SomeEdgeBlocks(edges) <==> RolesUnlike(nodes))
  {
    BlockingIsCrossing(nodes, edges);
    assert NoLeak(nodes) <==> forall a, b :: a in nodes && b in nodes && a.role != b.role ==> !HasEdge(a, b);
    if HashedNodes(nodes) {
      NoLeakIsUnlike(nodes);
    }
  }

  /** Some edge blocks exactly when an edge joins two roles. */
  lemma BlockingIsCrossing(nodes: set<Entry>, edges: seq<Edge>)
    requires DistinctIds(nodes) && IsEdgeListing(nodes, edges)
    ensures SomeEdgeBlocks(edges) <==> exists a, b :: a in nodes && b in nodes && a.role != b.role && HasEdge(a, b)
  {
    if a, b :| a in nodes && b in nodes && a.role != b.role && HasEdge(a, b) {
      EdgeBlocks(nodes, edges, a, b);
    }
    if SomeEdgeBlocks(edges) {
      var e :| e in edges && e.blocking;
      var a, b :| (a, b) in EdgesWithin(nodes) && e == RenderEdge(a, b);
      RenderedEnds(a, b);
      assert HasEdge(a, b) && a in nodes && b in nodes && a.role != b.role;
    }
  }
}
