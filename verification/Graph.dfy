/** What the near-duplicate graph of a set of entries is, whatever order the entries are visited in. */
module Graph {
  import opened Order
  import opened PerceptualHash
  import opened Wrappers

  const PHASH_DISTANCE: nat := 4
  const ALGORITHM_ID := "oneexpo_phash_rot4_v1"

  const PERCEPTUAL_HASH := "perceptual_hash"
  const EXACT_IMAGE := "exact_image_sha256"
  const SOURCE := "source_sha256"

  /** What the program hashes; the hash itself is a parameter of every member that needs it. */
  datatype Preimage =
    | AssetPreimage(cohort: string, imageSha: Digest, role: string, sampleId: string, sourceSha: Digest,
                    viewKind: string)
    | ClusterPreimage(algorithm: string, threshold: nat, images: seq<Digest>)
    | DigestList(digests: seq<Digest>)
    | PathPreimage(path: string)

  type Sha = Preimage -> Digest

  ghost predicate Injective(sha: Sha) {
    forall x, y :: sha(x) == sha(y) ==> x == y
  }

  datatype Entry = Entry(
    assetId: Digest,
    role: string,
    cohort: string,
    viewKind: string,
    sampleId: string,
    sourceSha: Digest,
    imageSha: Digest,
    size: int,
    width: int,
    height: int,
    phash: seq<nat>)

  // ---- edges ----

  /** The rotation-minimum distance; past every threshold when a side has no hash at all. */
  function Spread(a: Entry, b: Entry): nat {
    if |a.phash| > 0 && |b.phash| > 0 then SignatureDistance(a.phash, b.phash) else HASH_BITS + 1
  }

  /** The test the program makes. */
  predicate Within(a: Entry, b: Entry) {
    Spread(a, b) <= PHASH_DISTANCE
  }

  /** What it means: some rotation of one is within the radius of some rotation of the other. */
  predicate Near(a: Entry, b: Entry) {
    exists x, y :: x in a.phash && y in b.phash && BitDistance(x, y) <= PHASH_DISTANCE
  }

  lemma NearIsWithin(a: Entry, b: Entry)
    ensures Near(a, b) <==> Within(a, b)
  {
    if |a.phash| > 0 && |b.phash| > 0 {
      SignatureDistanceIsLeast(a.phash, b.phash);
    }
  }

  /** In binary digits: within the radius is at most four differing digits between some two of the hashes. */
  lemma WithinIsFourDigits(a: Entry, b: Entry)
    requires AllHashes(a.phash) && AllHashes(b.phash)
    ensures Within(a, b) <==> exists x, y :: x in a.phash && y in b.phash && |Differing(x, y)| <= 4
  {
    NearIsWithin(a, b);
    forall x, y | x in a.phash && y in b.phash
      ensures BitDistance(x, y) == |Differing(x, y)|
    {
      DistanceIsDifferingDigits(x, y);
    }
  }

  predicate HasEdge(a: Entry, b: Entry) {
    Near(a, b) || a.imageSha == b.imageSha || a.sourceSha == b.sourceSha
  }

  datatype EdgeInfo = EdgeInfo(distance: Option<nat>, evidence: set<string>)

  function InfoOf(a: Entry, b: Entry): EdgeInfo {
    EdgeInfo(
      if a.imageSha == b.imageSha then Some(0) else if Near(a, b) then Some(Spread(a, b)) else None,
      (if Near(a, b) then {PERCEPTUAL_HASH} else {}) +
      (if a.imageSha == b.imageSha then {EXACT_IMAGE} else {}) +
      (if a.sourceSha == b.sourceSha then {SOURCE} else {}))
  }

  datatype Edge = Edge(left: Digest, right: Digest, distance: Option<nat>, evidence: seq<string>, blocking: bool)

  function SortedStrings(s: set<string>): (r: seq<string>)
    ensures StrictlyAscending(r, StringLe)
    ensures forall x :: x in r <==> x in s
    ensures |r| == |s|
  {
    StringOrder();
    SortedSet(s, StringLe)
  }

  /** Endpoint ids in order, distance, sorted evidence, and whether the two roles differ. */
  function RenderWith(a: Entry, b: Entry, info: EdgeInfo): Edge {
    Edge(if a.assetId <= b.assetId then a.assetId else b.assetId,
         if a.assetId <= b.assetId then b.assetId else a.assetId,
         info.distance, SortedStrings(info.evidence), a.role != b.role)
  }

  function RenderEdge(a: Entry, b: Entry): Edge {
    RenderWith(a, b, InfoOf(a, b))
  }

  /** A rendered edge's endpoints, smaller id first. */
  function EndIds(a: Entry, b: Entry): (Digest, Digest) {
    if a.assetId <= b.assetId then (a.assetId, b.assetId) else (b.assetId, a.assetId)
  }

  lemma RenderedEnds(a: Entry, b: Entry)
    ensures RenderEdge(a, b).left == EndIds(a, b).0 && RenderEdge(a, b).right == EndIds(a, b).1
    ensures RenderEdge(a, b).blocking <==> a.role != b.role
  {
  }

  lemma NearSymmetric(a: Entry, b: Entry)
    ensures Near(a, b) <==> Near(b, a)
    ensures InfoOf(a, b) == InfoOf(b, a)
    ensures RenderEdge(a, b) == RenderEdge(b, a)
    ensures HasEdge(a, b) <==> HasEdge(b, a)
  {
    NearIsWithin(a, b);
    NearIsWithin(b, a);
    if |a.phash| > 0 && |b.phash| > 0 {
      SignatureDistanceSymmetric(a.phash, b.phash);
    }
  }

  lemma EdgeSymmetric(a: Entry, b: Entry)
    ensures HasEdge(a, b) <==> HasEdge(b, a)
  {
    NearSymmetric(a, b);
  }

  // ---- components ----

  ghost predicate IsPath(nodes: set<Entry>, path: seq<Entry>) {
    && |path| > 0
    && (forall k :: 0 <= k < |path| ==> path[k] in nodes)
    && (forall k :: 0 <= k < |path| - 1 ==> HasEdge(path[k], path[k + 1]))
  }

  ghost predicate Connected(nodes: set<Entry>, a: Entry, b: Entry) {
    exists path :: IsPath(nodes, path) && path[0] == a && path[|path| - 1] == b
  }

  ghost function Component(nodes: set<Entry>, a: Entry): set<Entry> {
    set b | b in nodes && Connected(nodes, a, b)
  }

  ghost predicate DistinctIds(nodes: set<Entry>) {
    forall a, b :: a in nodes && b in nodes && a.assetId == b.assetId ==> a == b
  }

  /** The undirected edges among `members`, each oriented from the smaller asset id. */
  ghost function EdgesWithin(members: set<Entry>): set<(Entry, Entry)> {
    set a, b | a in members && b in members && a.assetId < b.assetId && HasEdge(a, b) :: (a, b)
  }

  // ---- clusters ----

  datatype Cluster = Cluster(
    clusterId: Digest,
    memberIds: seq<Digest>,
    memberImages: seq<Digest>,
    roles: seq<string>,
    cohorts: seq<string>,
    viewKinds: seq<string>,
    edgeCount: nat,
    multiRole: bool,
    blocking: bool)

  function ImagesOf(members: set<Entry>): set<Digest> {
    set e | e in members :: e.imageSha
  }

  function IdsOf(members: set<Entry>): set<Digest> {
    set e | e in members :: e.assetId
  }

  function RolesOf(members: set<Entry>): set<string> {
    set e | e in members :: e.role
  }

  function ClusterFor(sha: Sha, members: set<Entry>, edgeCount: nat): Cluster {
    var images := SortedNats(ImagesOf(members));
    var roles := SortedStrings(RolesOf(members));
    Cluster(sha(ClusterPreimage(ALGORITHM_ID, PHASH_DISTANCE, images)),
            SortedNats(IdsOf(members)), images, roles,
            SortedStrings(set e | e in members :: e.cohort),
            SortedStrings(set e | e in members :: e.viewKind),
            edgeCount, |roles| > 1, |roles| > 1)
  }

  ghost function ClusterOf(sha: Sha, nodes: set<Entry>, a: Entry): Cluster {
    var members := Component(nodes, a);
    ClusterFor(sha, members, |EdgesWithin(members)|)
  }

  /** The cluster list of a graph: one cluster per component, ascending by cluster id. */
  ghost predicate IsClusterList(sha: Sha, nodes: set<Entry>, clusters: seq<Cluster>) {
    && (forall i, j :: 0 <= i < j < |clusters| ==> clusters[i].clusterId < clusters[j].clusterId)
    && (forall c :: c in clusters <==> exists a :: a in nodes && c == ClusterOf(sha, nodes, a))
  }

  /** An edge list of a graph: every edge once, in some order. */
  ghost predicate IsEdgeListing(nodes: set<Entry>, edges: seq<Edge>) {
    && Distinct(edges)
    && (forall e :: e in edges <==> exists a, b :: (a, b) in EdgesWithin(nodes) && e == RenderEdge(a, b))
  }

  /** A graph has only one cluster list. */
  lemma {:induction false} ClusterListUnique(sha: Sha, nodes: set<Entry>, c1: seq<Cluster>, c2: seq<Cluster>)
    requires IsClusterList(sha, nodes, c1) && IsClusterList(sha, nodes, c2)
    ensures c1 == c2
  {
    AscendingIdsUnique(c1, c2);
  }

  lemma {:induction false} AscendingIdsUnique(c1: seq<Cluster>, c2: seq<Cluster>)
    requires forall i, j :: 0 <= i < j < |c1| ==> c1[i].clusterId < c1[j].clusterId
    requires forall i, j :: 0 <= i < j < |c2| ==> c2[i].clusterId < c2[j].clusterId
    requires forall c :: c in c1 <==> c in c2
    ensures c1 == c2
    decreases |c1|
  {
    assert c2 != [] ==> c2[0] in c1;
    if c1 != [] {
      assert c1[0] in c2 && c2[0] in c1;
      assert c1[0] == c2[0];
      forall c
        ensures c in c1[1..] <==> c in c2[1..]
      {
        assert c in c1[1..] ==> c in c1 && c != c1[0];
        assert c in c2[1..] ==> c in c2 && c != c2[0];
      }
      AscendingIdsUnique(c1[1..], c2[1..]);
      assert c1 == [c1[0]] + c1[1..] && c2 == [c2[0]] + c2[1..];
    }
  }

  // ---- connectivity is an equivalence ----

  lemma ConnectedSelf(nodes: set<Entry>, a: Entry)
    requires a in nodes
    ensures Connected(nodes, a, a)
  {
    assert IsPath(nodes, [a]);
  }

  lemma ConnectedEdge(nodes: set<Entry>, a: Entry, b: Entry)
    requires a in nodes && b in nodes && HasEdge(a, b)
    ensures Connected(nodes, a, b)
  {
    assert IsPath(nodes, [a, b]);
  }

  lemma ConnectedTransitive(nodes: set<Entry>, a: Entry, b: Entry, c: Entry)
    requires Connected(nodes, a, b) && Connected(nodes, b, c)
    ensures Connected(nodes, a, c)
  {
    var p :| IsPath(nodes, p) && p[0] == a && p[|p| - 1] == b;
    var q :| IsPath(nodes, q) && q[0] == b && q[|q| - 1] == c;
    var r := p + q[1..];
    assert r[|r| - 1] == c;
    forall m | 0 <= m < |r| - 1
      ensures HasEdge(r[m], r[m + 1])
    {
      if m >= |p| - 1 {
        assert r[m] == q[m - |p| + 1] && r[m + 1] == q[m - |p| + 2];
      }
    }
    assert IsPath(nodes, r);
  }

  lemma ConnectedSymmetric(nodes: set<Entry>, a: Entry, b: Entry)
    requires Connected(nodes, a, b)
    ensures Connected(nodes, b, a)
  {
    var p :| IsPath(nodes, p) && p[0] == a && p[|p| - 1] == b;
    var r := seq(|p|, m requires 0 <= m < |p| => p[|p| - 1 - m]);
    forall m | 0 <= m < |r| - 1
      ensures HasEdge(r[m], r[m + 1])
    {
      assert HasEdge(p[|p| - 2 - m], p[|p| - 1 - m]);
      EdgeSymmetric(p[|p| - 2 - m], p[|p| - 1 - m]);
    }
    assert IsPath(nodes, r);
  }

  lemma SameComponent(nodes: set<Entry>, a: Entry, b: Entry)
    requires a in nodes && b in nodes
    ensures Connected(nodes, a, b) <==> Component(nodes, a) == Component(nodes, b)
    ensures Connected(nodes, a, b) <==> Component(nodes, a) * Component(nodes, b) != {}
  {
    ConnectedSelf(nodes, a);
    ConnectedSelf(nodes, b);
    assert a in Component(nodes, a) && b in Component(nodes, b);
    forall c | c in nodes && Connected(nodes, a, b)
      ensures c in Component(nodes, a) <==> c in Component(nodes, b)
    {
      ConnectedSymmetric(nodes, a, b);
      if Connected(nodes, a, c) {
        ConnectedTransitive(nodes, b, a, c);
      }
      if Connected(nodes, b, c) {
        ConnectedTransitive(nodes, a, b, c);
      }
    }
    forall c | c in Component(nodes, a) && c in Component(nodes, b)
      ensures Connected(nodes, a, b)
    {
      ConnectedSymmetric(nodes, b, c);
      ConnectedTransitive(nodes, a, c, b);
    }
    if Connected(nodes, a, b) {
      assert a in Component(nodes, a) * Component(nodes, b);
    }
  }

  /** Entries with one image always share a component, so components have disjoint image sets. */
  lemma ComponentsShareNoImage(nodes: set<Entry>, a: Entry, b: Entry)
    requires a in nodes && b in nodes
    requires ImagesOf(Component(nodes, a)) * ImagesOf(Component(nodes, b)) != {}
    ensures Component(nodes, a) == Component(nodes, b)
  {
    var image :| image in ImagesOf(Component(nodes, a)) && image in ImagesOf(Component(nodes, b));
    var x :| x in Component(nodes, a) && x.imageSha == image;
    var y :| y in Component(nodes, b) && y.imageSha == image;
    ConnectedEdge(nodes, x, y);
    ConnectedTransitive(nodes, a, x, y);
    ConnectedSymmetric(nodes, b, y);
    ConnectedTransitive(nodes, a, y, b);
    SameComponent(nodes, a, b);
  }

  /** With a collision-free hash, distinct components get distinct cluster ids. */
  lemma ClusterIdsDistinct(sha: Sha, nodes: set<Entry>, a: Entry, b: Entry)
    requires Injective(sha) && a in nodes && b in nodes
    requires ClusterOf(sha, nodes, a).clusterId == ClusterOf(sha, nodes, b).clusterId
    ensures Component(nodes, a) == Component(nodes, b)
  {
    var ia, ib := ImagesOf(Component(nodes, a)), ImagesOf(Component(nodes, b));
    assert ClusterPreimage(ALGORITHM_ID, PHASH_DISTANCE, SortedNats(ia)) ==
           ClusterPreimage(ALGORITHM_ID, PHASH_DISTANCE, SortedNats(ib));
    ConnectedSelf(nodes, a);
    assert a in Component(nodes, a);
    assert a.imageSha in ia;
    assert a.imageSha in SortedNats(ib);
    assert a.imageSha in ib;
    ComponentsShareNoImage(nodes, a, b);
  }
}
