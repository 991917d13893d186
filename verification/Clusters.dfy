/** Connected components out of the union-find, as the cluster list of the graph. */
module Clusters {
  import opened EdgeMaps
  import opened Graph
  import opened Order
  import UF = UnionFind

  ghost predicate DistinctIdsOf(entries: seq<Entry>) {
    forall i, j :: 0 <= i < j < |entries| ==> entries[i].assetId != entries[j].assetId
  }

  ghost function Nodes(entries: seq<Entry>): set<Entry> {
    set e | e in entries
  }

  /** `keys` lists every edge position of the graph exactly once. */
  ghost predicate IsEdgeKeys(entries: seq<Entry>, keys: seq<Pos>) {
    && Distinct(keys)
    && UF.LinksBelow(keys, |entries|)
    && (forall p: Pos :: p in keys <==> p.0 < p.1 < |entries| && HasEdge(entries[p.0], entries[p.1]))
  }

  // ---- label classes are components ----

  lemma {:induction false} IndexPathIsEntryPath(entries: seq<Entry>, keys: seq<Pos>, path: seq<nat>)
    requires IsEdgeKeys(entries, keys)
    requires UF.IsPath(keys, |entries|, path)
    ensures Connected(Nodes(entries), entries[path[0]], entries[path[|path| - 1]])
    decreases |path|
  {
    var nodes := Nodes(entries);
    var n := |path|;
    if n == 1 {
      ConnectedSelf(nodes, entries[path[0]]);
    } else {
      var init := path[..n - 1];
      assert UF.IsPath(keys, |entries|, init) by {
        forall k | 0 <= k < |init| - 1
          ensures UF.Linked(keys, init[k], init[k + 1])
        {
          assert UF.Linked(keys, path[k], path[k + 1]);
        }
      }
      IndexPathIsEntryPath(entries, keys, init);
      var i, j := path[n - 2], path[n - 1];
      assert UF.Linked(keys, path[n - 2], path[n - 2 + 1]);
      EdgeSymmetric(entries[i], entries[j]);
      ConnectedEdge(nodes, entries[i], entries[j]);
      ConnectedTransitive(nodes, entries[path[0]], entries[i], entries[j]);
    }
  }

  lemma {:induction false} EdgeSameLabel(entries: seq<Entry>, keys: seq<Pos>, i: nat, j: nat)
    requires IsEdgeKeys(entries, keys)
    requires i < |entries| && j < |entries| && HasEdge(entries[i], entries[j])
    ensures UF.Labels(|entries|, keys)[i] == UF.Labels(|entries|, keys)[j]
  {
    EdgeSymmetric(entries[i], entries[j]);
    if i < j {
      assert (i, j) in keys;
      UF.LinkedSameLabel(|entries|, keys, i, j);
    } else if j < i {
      assert (j, i) in keys;
      UF.LinkedSameLabel(|entries|, keys, j, i);
    }
  }

  lemma {:induction false} EntryPathSameLabel(entries: seq<Entry>, keys: seq<Pos>, path: seq<Entry>, i: nat, j: nat)
    requires IsEdgeKeys(entries, keys) && DistinctIdsOf(entries)
    requires IsPath(Nodes(entries), path) && i < |entries| && j < |entries|
    requires path[0] == entries[i] && path[|path| - 1] == entries[j]
    ensures UF.Labels(|entries|, keys)[i] == UF.Labels(|entries|, keys)[j]
    decreases |path|
  {
    var n := |path|;
    if n > 1 {
      var init := path[..n - 1];
      assert IsPath(Nodes(entries), init) by {
        forall k | 0 <= k < |init| - 1
          ensures HasEdge(init[k], init[k + 1])
        {
          assert HasEdge(path[k], path[k + 1]);
        }
      }
      assert path[n - 2] in Nodes(entries);
      var k :| 0 <= k < |entries| && entries[k] == path[n - 2];
      EntryPathSameLabel(entries, keys, init, i, k);
      assert HasEdge(path[n - 2], path[n - 2 + 1]);
      EdgeSameLabel(entries, keys, k, j);
    }
  }

  /** Two positions carry one union-find root exactly when their entries are connected. */
  lemma {:induction false} LabelsAreConnectivity(entries: seq<Entry>, keys: seq<Pos>, i: nat, j: nat)
    requires IsEdgeKeys(entries, keys) && DistinctIdsOf(entries)
    requires i < |entries| && j < |entries|
    ensures UF.Labels(|entries|, keys)[i] == UF.Labels(|entries|, keys)[j] <==>
            Connected(Nodes(entries), entries[i], entries[j])
  {
    var n := |entries|;
    UF.LabelsAreComponents(n, keys, i, j);
    if UF.Connected(keys, n, i, j) {
      var path :| UF.IsPath(keys, n, path) && path[0] == i && path[|path| - 1] == j;
      IndexPathIsEntryPath(entries, keys, path);
    }
    if Connected(Nodes(entries), entries[i], entries[j]) {
      var path :| IsPath(Nodes(entries), path) && path[0] == entries[i] && path[|path| - 1] == entries[j];
      EntryPathSameLabel(entries, keys, path, i, j);
    }
  }

  /** Labels that partition the entries into their components, each named by one of its positions. */
  ghost predicate Partitions(entries: seq<Entry>, labels: seq<nat>) {
    && |labels| == |entries|
    && (forall i :: 0 <= i < |entries| ==> labels[i] < |entries| && labels[labels[i]] == labels[i])
    && (forall i, j :: 0 <= i < |entries| && 0 <= j < |entries| ==>
        (labels[i] == labels[j] <==> Connected(Nodes(entries), entries[i], entries[j])))
  }

  lemma {:induction false} LabelAt(entries: seq<Entry>, keys: seq<Pos>, labels: seq<nat>, i: nat, j: nat)
    requires IsEdgeKeys(entries, keys) && DistinctIdsOf(entries) && labels == UF.Labels(|entries|, keys)
    requires i < |entries| && j < |entries|
    ensures labels[i] == labels[j] <==> Connected(Nodes(entries), entries[i], entries[j])
    ensures labels[i] < |entries| && labels[labels[i]] == labels[i]
  {
    LabelsAreConnectivity(entries, keys, i, j);
    UF.LabelIsConnected(|entries|, keys, i);
  }

  lemma {:induction false} LabelsPartition(entries: seq<Entry>, keys: seq<Pos>, labels: seq<nat>)
    requires IsEdgeKeys(entries, keys) && DistinctIdsOf(entries) && labels == UF.Labels(|entries|, keys)
    ensures Partitions(entries, labels)
  {
    forall i, j | 0 <= i < |entries| && 0 <= j < |entries|
      ensures labels[i] == labels[j] <==> Connected(Nodes(entries), entries[i], entries[j])
    {
      LabelAt(entries, keys, labels, i, j);
    }
    forall i | 0 <= i < |entries|
      ensures labels[i] < |entries| && labels[labels[i]] == labels[i]
    {
      LabelAt(entries, keys, labels, i, i);
    }
  }

  function MembersAt(entries: seq<Entry>, indexes: seq<nat>): set<Entry> {
    set k | k in indexes && k < |entries| :: entries[k]
  }

  lemma {:induction false} LabelClassIsComponent(entries: seq<Entry>, labels: seq<nat>, i: nat)
    requires Partitions(entries, labels) && i < |entries|
    ensures MembersAt(entries, IndexesOf(labels, labels[i], |entries|)) == Component(Nodes(entries), entries[i])
  {
    var indexes := IndexesOf(labels, labels[i], |entries|);
    IndexesOfSpec(labels, labels[i], |entries|);
    forall e
      ensures e in MembersAt(entries, indexes) <==> e in Component(Nodes(entries), entries[i])
    {
      if e in Component(Nodes(entries), entries[i]) {
        var k :| 0 <= k < |entries| && entries[k] == e;
        assert k in indexes;
      }
    }
  }

  // ---- edges per root ----

  /** How many edges start in the class of `root`. */
  ghost function CountAt(labels: seq<nat>, keys: seq<Pos>, root: nat): nat
    requires UF.LinksBelow(keys, |labels|)
  {
    if keys == [] then 0
    else CountAt(labels, keys[..|keys| - 1], root) + if labels[keys[|keys| - 1].0] == root then 1 else 0
  }

  ghost function KeysAt(labels: seq<nat>, keys: seq<Pos>, root: nat): set<Pos>
    requires UF.LinksBelow(keys, |labels|)
  {
    set k | 0 <= k < |keys| && labels[keys[k].0] == root :: keys[k]
  }

  lemma KeysAtNext(labels: seq<nat>, keys: seq<Pos>, last: Pos, root: nat)
    requires UF.LinksBelow(keys + [last], |labels|)
    ensures UF.LinksBelow(keys, |labels|) && last.0 < |labels|
    ensures KeysAt(labels, keys + [last], root) ==
            KeysAt(labels, keys, root) + if labels[last.0] == root then {last} else {}
  {
    var all := keys + [last];
    assert all[|keys|] == last && forall k :: 0 <= k < |keys| ==> all[k] == keys[k];
  }

  lemma {:induction false} CountAtIsSize(labels: seq<nat>, keys: seq<Pos>, root: nat)
    requires UF.LinksBelow(keys, |labels|) && Distinct(keys)
    ensures CountAt(labels, keys, root) == |KeysAt(labels, keys, root)|
    decreases |keys|
  {
    if keys != [] {
      var init, last := keys[..|keys| - 1], keys[|keys| - 1];
      assert keys == init + [last];
      CountAtIsSize(labels, init, root);
      KeysAtNext(labels, init, last, root);
      assert last !in KeysAt(labels, init, root);
    }
  }

  ghost function Oriented(entries: seq<Entry>, p: Pos): (Entry, Entry)
    requires p.0 < |entries| && p.1 < |entries|
  {
    var a, b := entries[p.0], entries[p.1];
    if a.assetId < b.assetId then (a, b) else (b, a)
  }

  lemma OrientedInjective(entries: seq<Entry>, p: Pos, q: Pos)
    requires DistinctIdsOf(entries) && p.0 < p.1 < |entries| && q.0 < q.1 < |entries|
    requires Oriented(entries, p) == Oriented(entries, q)
    ensures p == q
  {
  }

  lemma OrientedWithin(entries: seq<Entry>, keys: seq<Pos>, labels: seq<nat>, i: nat, p: Pos)
    requires IsEdgeKeys(entries, keys) && DistinctIdsOf(entries) && Partitions(entries, labels) && i < |entries|
    requires p in keys && labels[p.0] == labels[i]
    ensures Oriented(entries, p) in EdgesWithin(Component(Nodes(entries), entries[i]))
  {
    var a, b := entries[p.0], entries[p.1];
    ConnectedEdge(Nodes(entries), a, b);
    EdgeSymmetric(a, b);
  }

  /** Every edge has its key, whichever endpoint comes first. */
  lemma EdgeKey(entries: seq<Entry>, keys: seq<Pos>, x: nat, y: nat)
    requires IsEdgeKeys(entries, keys) && x < |entries| && y < |entries| && x != y
    requires HasEdge(entries[x], entries[y])
    ensures (if x < y then (x, y) else (y, x)) in keys
  {
    EdgeSymmetric(entries[x], entries[y]);
  }

  /** The positions of an edge's two ends. */
  lemma EdgeEnds(entries: seq<Entry>, members: set<Entry>, q: (Entry, Entry)) returns (x: nat, y: nat)
    requires members <= Nodes(entries) && q in EdgesWithin(members)
    ensures x < |entries| && y < |entries| && x != y && entries[x] == q.0 && entries[y] == q.1
    ensures q.0 in members && q.1 in members && HasEdge(entries[x], entries[y]) && q.0.assetId < q.1.assetId
  {
    x :| 0 <= x < |entries| && entries[x] == q.0;
    y :| 0 <= y < |entries| && entries[y] == q.1;
  }

  lemma OrientedCovers(entries: seq<Entry>, keys: seq<Pos>, labels: seq<nat>, i: nat, q: (Entry, Entry))
    returns (p: Pos)
    requires IsEdgeKeys(entries, keys) && DistinctIdsOf(entries) && Partitions(entries, labels) && i < |entries|
    requires q in EdgesWithin(Component(Nodes(entries), entries[i]))
    ensures p in keys && labels[p.0] == labels[i] && Oriented(entries, p) == q
  {
    var x, y := EdgeEnds(entries, Component(Nodes(entries), entries[i]), q);
    EdgeKey(entries, keys, x, y);
    p := if x < y then (x, y) else (y, x);
  }

  ghost function Orienter(entries: seq<Entry>, default: Entry): Pos -> (Entry, Entry) {
    (p: Pos) => if p.0 < |entries| && p.1 < |entries| then Oriented(entries, p) else (default, default)
  }

  lemma {:induction false} CountIsEdgesWithin(entries: seq<Entry>, keys: seq<Pos>, labels: seq<nat>, i: nat)
    requires IsEdgeKeys(entries, keys) && DistinctIdsOf(entries) && Partitions(entries, labels) && i < |entries|
    ensures CountAt(labels, keys, labels[i]) == |EdgesWithin(Component(Nodes(entries), entries[i]))|
  {
    var edges := EdgesWithin(Component(Nodes(entries), entries[i]));
    var here := KeysAt(labels, keys, labels[i]);
    CountAtIsSize(labels, keys, labels[i]);
    var f := Orienter(entries, entries[i]);
    forall p | p in here
      ensures p in keys && labels[p.0] == labels[i] && p.0 < p.1 < |entries| && f(p) == Oriented(entries, p)
      ensures f(p) in edges
    {
      OrientedWithin(entries, keys, labels, i, p);
    }
    forall p, q | p in here && q in here && f(p) == f(q)
      ensures p == q
    {
      OrientedInjective(entries, p, q);
    }
    forall q | q in edges
      ensures exists p :: p in here && f(p) == q
    {
      var p := OrientedCovers(entries, keys, labels, i, q);
      var k :| 0 <= k < |keys| && keys[k] == p;
      assert p in here && f(p) == q;
    }
    ImageSize(here, edges, f);
  }

  // ---- the imperative tail ----

  /** `[find(index) for index in range(n)]`, with path halving along the way. */
  method FindAll(uf: UF.UnionFind) returns (roots: seq<nat>)
    requires uf.Valid()
    modifies uf.parent
    ensures uf.Valid() && UF.Roots(uf.parent[..]) == old(UF.Roots(uf.parent[..]))
    ensures roots == old(UF.Roots(uf.parent[..]))
  {
    roots := [];
    for index := 0 to uf.parent.Length
      invariant uf.Valid() && UF.Roots(uf.parent[..]) == old(UF.Roots(uf.parent[..]))
      invariant |roots| == index && forall k :: 0 <= k < index ==> roots[k] == old(UF.Roots(uf.parent[..]))[k]
    {
      var root := uf.Find(index);
      roots := roots + [root];
    }
  }

  /** `for left, _ in edge_values: edge_count_by_root[find(left)] += 1` */
  method CountEdges(uf: UF.UnionFind, keys: seq<Pos>) returns (counts: map<nat, nat>)
    requires uf.Valid() && UF.LinksBelow(keys, uf.parent.Length)
    modifies uf.parent
    ensures uf.Valid()
    ensures forall root :: (if root in counts then counts[root] else 0) ==
                           CountAt(old(UF.Roots(uf.parent[..])), keys, root)
  {
    counts := map[];
    ghost var labels := UF.Roots(uf.parent[..]);
    for k := 0 to |keys|
      invariant uf.Valid() && UF.Roots(uf.parent[..]) == labels
      invariant forall root :: (if root in counts then counts[root] else 0) == CountAt(labels, keys[..k], root)
    {
      var root := uf.Find(keys[k].0);
      assert keys[..k + 1][..k] == keys[..k];
      counts := counts[root := (if root in counts then counts[root] else 0) + 1];
    }
    assert keys[..|keys|] == keys;
  }

  ghost function RootCluster(sha: Sha, entries: seq<Entry>, keys: seq<Pos>, labels: seq<nat>, root: nat): Cluster
    requires UF.LinksBelow(keys, |entries|) && |labels| == |entries|
  {
    ClusterFor(sha, MembersAt(entries, IndexesOf(labels, root, |entries|)), CountAt(labels, keys, root))
  }

  ghost predicate ClustersByRoot(sha: Sha, entries: seq<Entry>, keys: seq<Pos>, labels: seq<nat>, order: seq<nat>,
                                 clusters: seq<Cluster>)
  {
    && UF.LinksBelow(keys, |entries|) && |labels| == |entries|
    && |clusters| == |order|
    && (forall k :: 0 <= k < |order| ==> clusters[k] == RootCluster(sha, entries, keys, labels, order[k]))
  }

  predicate ByClusterId(c: Cluster, d: Cluster) {
    c.clusterId <= d.clusterId
  }

  /** The cluster built for a root is the cluster of every entry labelled with it. */
  lemma RootClusterIs(sha: Sha, entries: seq<Entry>, keys: seq<Pos>, labels: seq<nat>, i: nat)
    requires IsEdgeKeys(entries, keys) && DistinctIdsOf(entries) && Partitions(entries, labels) && i < |entries|
    ensures RootCluster(sha, entries, keys, labels, labels[i]) == ClusterOf(sha, Nodes(entries), entries[i])
  {
    LabelClassIsComponent(entries, labels, i);
    CountIsEdgesWithin(entries, keys, labels, i);
  }

  /** Different roots give clusters with different ids. */
  lemma RootClustersDiffer(sha: Sha, entries: seq<Entry>, labels: seq<nat>, i: nat, j: nat)
    requires Injective(sha) && Partitions(entries, labels)
    requires i < |entries| && j < |entries| && labels[i] != labels[j]
    ensures ClusterOf(sha, Nodes(entries), entries[i]).clusterId != ClusterOf(sha, Nodes(entries), entries[j]).clusterId
  {
    var nodes := Nodes(entries);
    SameComponent(nodes, entries[i], entries[j]);
    if ClusterOf(sha, nodes, entries[i]).clusterId == ClusterOf(sha, nodes, entries[j]).clusterId {
      ClusterIdsDistinct(sha, nodes, entries[i], entries[j]);
    }
  }

  /** What each entry's cluster is, entry by entry. */
  ghost function EntryClusters(sha: Sha, entries: seq<Entry>): (r: seq<Cluster>)
    ensures |r| == |entries| && forall i :: 0 <= i < |r| ==> r[i] == ClusterOf(sha, Nodes(entries), entries[i])
  {
    seq(|entries|, i requires 0 <= i < |entries| => ClusterOf(sha, Nodes(entries), entries[i]))
  }

  /** One cluster per label lists every entry's cluster once. */
  lemma LabelListing(all: seq<Cluster>, labels: seq<nat>, order: seq<nat>, unsorted: seq<Cluster>)
    requires |all| == |labels| && |unsorted| == |order|
    requires Distinct(order) && forall r :: r in order <==> r in labels
    requires forall k :: 0 <= k < |order| ==>
      order[k] < |labels| && labels[order[k]] == order[k] && unsorted[k] == all[order[k]]
    requires forall i :: 0 <= i < |labels| ==> labels[i] < |labels| && all[i] == all[labels[i]]
    requires forall i, j :: 0 <= i < |labels| && 0 <= j < |labels| && labels[i] != labels[j] ==>
      all[i].clusterId != all[j].clusterId
    ensures forall i, j :: 0 <= i < j < |unsorted| ==> unsorted[i].clusterId != unsorted[j].clusterId
    ensures forall c :: c in unsorted <==> c in all
  {
    forall i | 0 <= i < |all|
      ensures all[i] in unsorted
    {
      assert labels[i] in order;
      var k :| 0 <= k < |order| && order[k] == labels[i];
      assert unsorted[k] == all[i];
    }
    forall k | 0 <= k < |unsorted|
      ensures unsorted[k] in all
    {
      assert unsorted[k] == all[order[k]];
    }
  }

  /** A label that occurs labels itself. */
  lemma LabelIsOwn(entries: seq<Entry>, labels: seq<nat>, root: nat)
    requires Partitions(entries, labels) && root in labels
    ensures root < |entries| && labels[root] == root
  {
    var i :| 0 <= i < |labels| && labels[i] == root;
  }

  /** The root's own entry carries the root's cluster. */
  lemma RootEntry(sha: Sha, entries: seq<Entry>, keys: seq<Pos>, labels: seq<nat>, root: nat)
    requires IsEdgeKeys(entries, keys) && DistinctIdsOf(entries) && Partitions(entries, labels)
    requires root < |entries| && labels[root] == root
    ensures RootCluster(sha, entries, keys, labels, root) == EntryClusters(sha, entries)[root]
  {
    RootClusterIs(sha, entries, keys, labels, root);
  }

  lemma SameLabelSameCluster(sha: Sha, entries: seq<Entry>, keys: seq<Pos>, labels: seq<nat>, i: nat)
    requires IsEdgeKeys(entries, keys) && DistinctIdsOf(entries) && Partitions(entries, labels) && i < |entries|
    ensures labels[i] < |entries| && EntryClusters(sha, entries)[i] == EntryClusters(sha, entries)[labels[i]]
  {
    RootClusterIs(sha, entries, keys, labels, i);
    RootClusterIs(sha, entries, keys, labels, labels[i]);
  }

  lemma EntryClustersAre(sha: Sha, entries: seq<Entry>)
    ensures forall c :: c in EntryClusters(sha, entries) <==>
      exists a :: a in Nodes(entries) && c == ClusterOf(sha, Nodes(entries), a)
  {
    var all, nodes := EntryClusters(sha, entries), Nodes(entries);
    forall i | 0 <= i < |entries|
      ensures entries[i] in nodes && all[i] == ClusterOf(sha, nodes, entries[i]) && all[i] in all
    {
    }
    forall a | a in nodes
      ensures exists i :: 0 <= i < |entries| && entries[i] == a
    {
    }
  }

  lemma RootListing(sha: Sha, entries: seq<Entry>, keys: seq<Pos>, labels: seq<nat>, order: seq<nat>,
                    unsorted: seq<Cluster>, all: seq<Cluster>)
    requires Injective(sha) && IsEdgeKeys(entries, keys) && DistinctIdsOf(entries) && Partitions(entries, labels)
    requires Distinct(order) && forall r :: r in order <==> r in labels
    requires ClustersByRoot(sha, entries, keys, labels, order, unsorted)
    requires all == EntryClusters(sha, entries)
    ensures forall i, j :: 0 <= i < j < |unsorted| ==> unsorted[i].clusterId != unsorted[j].clusterId
    ensures forall c :: c in unsorted <==> c in all
  {
    forall k | 0 <= k < |order|
      ensures order[k] < |labels| && labels[order[k]] == order[k] && unsorted[k] == all[order[k]]
    {
      LabelIsOwn(entries, labels, order[k]);
      RootEntry(sha, entries, keys, labels, order[k]);
    }
    forall i | 0 <= i < |labels|
      ensures labels[i] < |labels| && all[i] == all[labels[i]]
    {
      SameLabelSameCluster(sha, entries, keys, labels, i);
    }
    forall i, j | 0 <= i < |labels| && 0 <= j < |labels| && labels[i] != labels[j]
      ensures all[i].clusterId != all[j].clusterId
    {
      RootClustersDiffer(sha, entries, labels, i, j);
    }
    LabelListing(all, labels, order, unsorted);
  }

  lemma {:induction false} StrictById(unsorted: seq<Cluster>, sorted: seq<Cluster>)
    requires sorted == Sort(unsorted, ByClusterId)
    requires forall i, j :: 0 <= i < j < |unsorted| ==> unsorted[i].clusterId != unsorted[j].clusterId
    ensures forall i, j :: 0 <= i < j < |sorted| ==> sorted[i].clusterId < sorted[j].clusterId
    ensures forall c :: c in sorted <==> c in unsorted
  {
    SortMembers(unsorted, ByClusterId);
    SortAscends(unsorted, ByClusterId);
    PermutationDistinct(unsorted, sorted);
    forall i, j | 0 <= i < j < |sorted|
      ensures sorted[i].clusterId < sorted[j].clusterId
    {
      assert ByClusterId(sorted[i], sorted[j]);
      assert sorted[i] in sorted && sorted[j] in sorted;
      var x :| 0 <= x < |unsorted| && unsorted[x] == sorted[i];
      var y :| 0 <= y < |unsorted| && unsorted[y] == sorted[j];
      assert x != y;
    }
  }

  ghost predicate IsRootCluster(sha: Sha, entries: seq<Entry>, keys: seq<Pos>, roots: seq<nat>, root: nat, c: Cluster)
    requires UF.LinksBelow(keys, |entries|) && |roots| == |entries|
  {
    forall use: nat :: OnDemand(use) ==> c == RootCluster(sha, entries, keys, roots, root)
  }

  lemma AllRootClusters(sha: Sha, entries: seq<Entry>, keys: seq<Pos>, roots: seq<nat>, order: seq<nat>,
                        clusters: seq<Cluster>)
    requires UF.LinksBelow(keys, |entries|) && |roots| == |entries| && |clusters| == |order|
    requires forall m :: 0 <= m < |order| ==> IsRootCluster(sha, entries, keys, roots, order[m], clusters[m])
    ensures ClustersByRoot(sha, entries, keys, roots, order, clusters)
  {
    assert OnDemand(0);
  }

  /** The counter holds every root's number of edges. */
  ghost predicate CountsAre(roots: seq<nat>, keys: seq<Pos>, counts: map<nat, nat>)
    requires UF.LinksBelow(keys, |roots|)
  {
    forall use: nat :: OnDemand(use) ==>
      forall root :: (if root in counts then counts[root] else 0) == CountAt(roots, keys, root)
  }

  /** One root's members and edge count, rendered. */
  method RenderRoot(sha: Sha, entries: seq<Entry>, keys: seq<Pos>, roots: seq<nat>, counts: map<nat, nat>, root: nat,
                    group: seq<nat>) returns (c: Cluster)
    requires UF.LinksBelow(keys, |entries|) && |roots| == |entries| && group == IndexesOf(roots, root, |entries|)
    requires CountsAre(roots, keys, counts)
    ensures IsRootCluster(sha, entries, keys, roots, root, c)
  {
    assert OnDemand(0);
    var count := if root in counts then counts[root] else 0;
    c := ClusterFor(sha, MembersAt(entries, group), count);
  }

  /** Where a label first occurs, or the end of the list. */
  ghost function FirstAt(labels: seq<nat>, root: nat): nat {
    var indexes := IndexesOf(labels, root, |labels|);
    if indexes == [] then |labels| else indexes[0]
  }

  /** One cluster per root, in the order the roots first appear. */
  method ClustersInRootOrder(sha: Sha, entries: seq<Entry>, keys: seq<Pos>, roots: seq<nat>, counts: map<nat, nat>)
    returns (clusters: seq<Cluster>, order: seq<nat>)
    requires UF.LinksBelow(keys, |entries|) && |roots| == |entries| && CountsAre(roots, keys, counts)
    ensures Distinct(order) && forall r :: r in order <==> r in roots
    ensures forall i, j :: 0 <= i < j < |order| ==> FirstAt(roots, order[i]) < FirstAt(roots, order[j])
    ensures ClustersByRoot(sha, entries, keys, roots, order, clusters)
  {
    var appearance, groups := GroupByDigest(roots);
    order := appearance;
    clusters := [];
    var k := 0;
    while k < |appearance|
      invariant k == |clusters| <= |appearance|
      invariant forall m :: 0 <= m < k ==> IsRootCluster(sha, entries, keys, roots, appearance[m], clusters[m])
    {
      var root := appearance[k];
      assert root in appearance;
      var cluster := RenderRoot(sha, entries, keys, roots, counts, root, groups[root]);
      clusters, k := clusters + [cluster], k + 1;
    }
    AllRootClusters(sha, entries, keys, roots, appearance, clusters);
  }

  /** Unite, collect members and edge counts by root, render, then `clusters.sort(key=cluster_id)`. */
  method BuildClusters(sha: Sha, entries: seq<Entry>, keys: seq<Pos>) returns (clusters: seq<Cluster>)
    requires Injective(sha) && IsEdgeKeys(entries, keys) && DistinctIdsOf(entries)
    ensures IsClusterList(sha, Nodes(entries), clusters)
  {
    var uf := UF.UniteAll(|entries|, keys);
    var roots := FindAll(uf);
    LabelsPartition(entries, keys, roots);
    var counts := CountEdges(uf, keys);
    var order;
    clusters, order := ClustersInRootOrder(sha, entries, keys, roots, counts);
    RootListing(sha, entries, keys, roots, order, clusters, EntryClusters(sha, entries));
    EntryClustersAre(sha, entries);
    StrictById(clusters, Sort(clusters, ByClusterId));
    clusters := Sort(clusters, ByClusterId);
  }
}
