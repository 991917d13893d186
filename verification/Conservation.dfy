/** Counting laws of the cluster list: members and edges are conserved, and edge counts are bounded. */
module Conservation {
  import opened Clusters
  import opened EdgeMaps
  import opened Graph
  import opened GraphEvidence
  import opened Order
  import UF = UnionFind

  // ---- sums over root lists ----

  ghost function SumOver(order: seq<nat>, f: nat -> nat): nat {
    if order == [] then 0 else f(order[0]) + SumOver(order[1..], f)
  }

  lemma {:induction false} SumOverEqual(order: seq<nat>, f: nat -> nat, g: nat -> nat)
    requires forall r :: r in order ==> f(r) == g(r)
    ensures SumOver(order, f) == SumOver(order, g)
  {
    if order != [] {
      assert order[0] in order;
      SumOverEqual(order[1..], f, g);
    }
  }

  /** Adding one at a single root adds one to the sum when the root is listed once. */
  lemma {:induction false} SumOverBump(order: seq<nat>, f: nat -> nat, g: nat -> nat, root: nat)
    requires Distinct(order) && root in order
    requires forall r :: g(r) == f(r) + if r == root then 1 else 0
    ensures SumOver(order, g) == SumOver(order, f) + 1
  {
    if order[0] == root {
      SumOverEqual(order[1..], f, g);
    } else {
      SumOverBump(order[1..], f, g, root);
    }
  }

  lemma {:induction false} SumOverZero(order: seq<nat>, f: nat -> nat)
    requires forall r :: f(r) == 0
    ensures SumOver(order, f) == 0
  {
    if order != [] {
      SumOverZero(order[1..], f);
    }
  }

  lemma {:induction false} SumOverBound(order: seq<nat>, f: nat -> nat, g: nat -> nat)
    requires forall r :: r in order ==> f(r) <= 1 + g(r)
    ensures SumOver(order, f) <= |order| + SumOver(order, g)
  {
    if order != [] {
      assert order[0] in order;
      SumOverBound(order[1..], f, g);
    }
  }

  ghost function EdgesAt(labels: seq<nat>, keys: seq<Pos>): nat -> nat
    requires UF.LinksBelow(keys, |labels|)
  {
    r => CountAt(labels, keys, r)
  }

  ghost function SizesAt(labels: seq<nat>, n: nat): nat -> nat
    requires n <= |labels|
  {
    r => |IndexesOf(labels, r, n)|
  }

  lemma {:induction false} EdgesSum(labels: seq<nat>, keys: seq<Pos>, order: seq<nat>)
    requires UF.LinksBelow(keys, |labels|) && Distinct(order) && forall r :: r in labels ==> r in order
    ensures SumOver(order, EdgesAt(labels, keys)) == |keys|
    decreases |keys|
  {
    if keys == [] {
      SumOverZero(order, EdgesAt(labels, keys));
    } else {
      var init, last := keys[..|keys| - 1], keys[|keys| - 1];
      EdgesSum(labels, init, order);
      SumOverBump(order, EdgesAt(labels, init), EdgesAt(labels, keys), labels[last.0]);
    }
  }

  lemma {:induction false} SizesSum(labels: seq<nat>, n: nat, order: seq<nat>)
    requires n <= |labels| && Distinct(order) && forall r :: r in labels ==> r in order
    ensures SumOver(order, SizesAt(labels, n)) == n
    decreases n
  {
    if n == 0 {
      SumOverZero(order, SizesAt(labels, 0));
    } else {
      SizesSum(labels, n - 1, order);
      SumOverBump(order, SizesAt(labels, n - 1), SizesAt(labels, n), labels[n - 1]);
    }
  }

  // ---- a connected class of k has at least k - 1 edges ----

  lemma {:induction false} MergedSizes(labels: seq<nat>, left: nat, right: nat, n: nat, r: nat)
    requires left < |labels| && right < |labels| && n <= |labels|
    ensures var a, b := labels[left], labels[right];
      var low, high := if a <= b then a else b, if a <= b then b else a;
      |IndexesOf(UF.Merge(labels, left, right), r, n)| ==
      if low == high then |IndexesOf(labels, r, n)|
      else if r == high then 0
      else |IndexesOf(labels, r, n)| + if r == low then |IndexesOf(labels, high, n)| else 0
  {
    if n > 0 {
      MergedSizes(labels, left, right, n - 1, r);
    }
  }

  lemma {:induction false} MergedCounts(labels: seq<nat>, left: nat, right: nat, keys: seq<Pos>, r: nat)
    requires left < |labels| && right < |labels| && UF.LinksBelow(keys, |labels|)
    ensures var a, b := labels[left], labels[right];
      var low, high := if a <= b then a else b, if a <= b then b else a;
      CountAt(UF.Merge(labels, left, right), keys, r) ==
      if low == high then CountAt(labels, keys, r)
      else if r == high then 0
      else CountAt(labels, keys, r) + if r == low then CountAt(labels, keys, high) else 0
    decreases |keys|
  {
    if keys != [] {
      MergedCounts(labels, left, right, keys[..|keys| - 1], r);
    }
  }

  lemma {:induction false} IdentityClass(n: nat, m: nat, r: nat)
    requires m <= n
    ensures |IndexesOf(UF.Identity(n), r, m)| == if r < m then 1 else 0
  {
    if m > 0 {
      IdentityClass(n, m - 1, r);
    }
  }

  lemma {:induction false} ClassNeedsEdges(n: nat, keys: seq<Pos>, r: nat)
    requires UF.LinksBelow(keys, n)
    ensures |IndexesOf(UF.Labels(n, keys), r, n)| <= 1 + CountAt(UF.Labels(n, keys), keys, r)
    decreases |keys|
  {
    if keys == [] {
      IdentityClass(n, n, r);
    } else {
      var init, last := keys[..|keys| - 1], keys[|keys| - 1];
      var labels := UF.Labels(n, init);
      MergedSizes(labels, last.0, last.1, n, r);
      MergedCounts(labels, last.0, last.1, init, r);
      ClassNeedsEdges(n, init, labels[last.0]);
      ClassNeedsEdges(n, init, labels[last.1]);
      ClassNeedsEdges(n, init, r);
    }
  }

  // ---- at most k (k - 1) / 2 edges among k entries ----

  ghost function Touching(members: set<Entry>, x: Entry): set<(Entry, Entry)> {
    set q | q in EdgesWithin(members) && (q.0 == x || q.1 == x)
  }

  ghost function OtherEnd(x: Entry): ((Entry, Entry)) -> Entry {
    (q: (Entry, Entry)) => if q.0 == x then q.1 else q.0
  }

  lemma TouchingBound(members: set<Entry>, x: Entry)
    requires DistinctIds(members) && x in members
    ensures |Touching(members, x)| <= |members| - 1
  {
    var f := OtherEnd(x);
    var touching := Touching(members, x);
    var ends := set q | q in touching :: f(q);
    ImageSize<(Entry, Entry), Entry>(touching, ends, f);
    assert ends <= members - {x};
    CardinalityMonotone(ends, members - {x});
  }

  lemma EdgesSplit(members: set<Entry>, x: Entry)
    requires x in members
    ensures |EdgesWithin(members)| <= |EdgesWithin(members - {x})| + |Touching(members, x)|
  {
    assert EdgesWithin(members) == EdgesWithin(members - {x}) + Touching(members, x);
  }

  /** `k (k - 1) / 2`, the pairs among k things. */
  ghost function PairsAmong(k: nat): nat {
    if k == 0 then 0 else PairsAmong(k - 1) + (k - 1)
  }

  lemma {:induction false} PairsAmongFormula(k: nat)
    ensures 2 * PairsAmong(k) == k * (k - 1)
  {
    if k > 0 {
      PairsAmongFormula(k - 1);
      assert (k - 1) * (k - 2) + 2 * (k - 1) == k * (k - 1);
    }
  }

  lemma {:induction false} PairBound(members: set<Entry>)
    requires DistinctIds(members)
    ensures |EdgesWithin(members)| <= PairsAmong(|members|)
    decreases members
  {
    if members == {} {
      assert EdgesWithin(members) == {};
    } else {
      var x :| x in members;
      PairBound(members - {x});
      TouchingBound(members, x);
      EdgesSplit(members, x);
    }
  }

  // ---- the laws ----

  ghost function EdgeCounts(clusters: seq<Cluster>): nat {
    if clusters == [] then 0 else clusters[0].edgeCount + EdgeCounts(clusters[1..])
  }

  ghost function MemberCounts(clusters: seq<Cluster>): nat {
    if clusters == [] then 0 else |clusters[0].memberIds| + MemberCounts(clusters[1..])
  }

  lemma {:induction false} InsertCounts(c: Cluster, s: seq<Cluster>)
    ensures EdgeCounts(Insert(c, s, ByClusterId)) == c.edgeCount + EdgeCounts(s)
    ensures MemberCounts(Insert(c, s, ByClusterId)) == |c.memberIds| + MemberCounts(s)
  {
    if s != [] && ByClusterId(s[0], c) {
      InsertCounts(c, s[1..]);
    }
  }

  lemma {:induction false} CountsAppend(s: seq<Cluster>, c: Cluster)
    ensures EdgeCounts(s + [c]) == EdgeCounts(s) + c.edgeCount
    ensures MemberCounts(s + [c]) == MemberCounts(s) + |c.memberIds|
  {
    if s != [] {
      CountsAppend(s[1..], c);
      assert (s + [c])[1..] == s[1..] + [c];
    }
  }

  lemma {:induction false} SortKeepsCounts(s: seq<Cluster>)
    ensures EdgeCounts(Sort(s, ByClusterId)) == EdgeCounts(s)
    ensures MemberCounts(Sort(s, ByClusterId)) == MemberCounts(s)
  {
    if s != [] {
      var n := |s| - 1;
      SortKeepsCounts(s[..n]);
      InsertCounts(s[n], Sort(s[..n], ByClusterId));
      CountsAppend(s[..n], s[n]);
      assert s == s[..n] + [s[n]];
    }
  }

  lemma {:induction false} CountsByRoot(clusters: seq<Cluster>, order: seq<nat>, edges: nat -> nat, sizes: nat -> nat)
    requires |clusters| == |order|
    requires forall k :: 0 <= k < |order| ==>
      clusters[k].edgeCount == edges(order[k]) && |clusters[k].memberIds| == sizes(order[k])
    ensures EdgeCounts(clusters) == SumOver(order, edges)
    ensures MemberCounts(clusters) == SumOver(order, sizes)
  {
    if order != [] {
      CountsByRoot(clusters[1..], order[1..], edges, sizes);
    }
  }

  /** Any finite set of entries can be listed. */
  lemma {:induction false} ListNodes(nodes: set<Entry>) returns (entries: seq<Entry>)
    requires DistinctIds(nodes)
    ensures Nodes(entries) == nodes && DistinctIdsOf(entries) && |entries| == |nodes|
    decreases nodes
  {
    if nodes == {} {
      entries := [];
    } else {
      var x :| x in nodes;
      var rest := ListNodes(nodes - {x});
      entries := [x] + rest;
      forall j | 0 <= j < |rest|
        ensures rest[j].assetId != x.assetId
      {
        assert rest[j] in Nodes(rest);
      }
      assert Nodes(entries) == {x} + Nodes(rest);
    }
  }

  lemma {:induction false} MembersAtSize(entries: seq<Entry>, labels: seq<nat>, root: nat)
    requires |labels| == |entries| && DistinctIdsOf(entries)
    ensures |SortedNats(IdsOf(MembersAt(entries, IndexesOf(labels, root, |entries|))))| ==
      |IndexesOf(labels, root, |entries|)|
  {
    var indexes := IndexesOf(labels, root, |entries|);
    IndexesOfSpec(labels, root, |entries|);
    MembersAtCount(entries, indexes);
    IdsCount(MembersAt(entries, indexes));
  }

  lemma MembersAtCount(entries: seq<Entry>, indexes: seq<nat>)
    requires DistinctIdsOf(entries) && Increasing(indexes) && forall k: nat :: k in indexes ==> k < |entries|
    ensures |MembersAt(entries, indexes)| == |indexes|
  {
    var all := set k: nat | k in indexes;
    DistinctListing<nat>(indexes, all);
    if indexes == [] {
      assert MembersAt(entries, indexes) == {};
    } else {
      assert indexes[0] in indexes;
      var f := (k: nat) => if k < |entries| then entries[k] else entries[0];
      ImageSize<nat, Entry>(all, MembersAt(entries, indexes), f);
    }
  }

  lemma KeysOf(entries: seq<Entry>) returns (keys: seq<Pos>)
    requires DistinctIdsOf(entries)
    ensures IsEdgeKeys(entries, keys) && |keys| == |EdgesWithin(Nodes(entries))|
  {
    PairOrder();
    keys := SortedSet<Pos>(AllEdges(entries).Keys, PairLe);
    ListedKeys(entries, AllEdges(entries), keys);
    EdgeTotal(entries, keys);
  }

  /** A listing of the edge keys, the labels, the roots and the clusters they give. */
  lemma RootForm(sha: Sha, entries: seq<Entry>) returns (keys: seq<Pos>, labels: seq<nat>, order: seq<nat>,
                                                        unsorted: seq<Cluster>)
    requires Injective(sha) && DistinctIdsOf(entries)
    ensures IsEdgeKeys(entries, keys) && |keys| == |EdgesWithin(Nodes(entries))|
    ensures labels == UF.Labels(|entries|, keys) && Partitions(entries, labels)
    ensures Distinct(order) && forall r :: r in order <==> r in labels
    ensures ClustersByRoot(sha, entries, keys, labels, order, unsorted)
    ensures IsClusterList(sha, Nodes(entries), Sort(unsorted, ByClusterId))
  {
    keys := KeysOf(entries);
    labels := UF.Labels(|entries|, keys);
    LabelsPartition(entries, keys, labels);
    order, unsorted := RootsAndClusters(sha, entries, keys, labels);
  }

  lemma RootsAndClusters(sha: Sha, entries: seq<Entry>, keys: seq<Pos>, labels: seq<nat>)
    returns (order: seq<nat>, unsorted: seq<Cluster>)
    requires Injective(sha) && IsEdgeKeys(entries, keys) && DistinctIdsOf(entries) && Partitions(entries, labels)
    ensures Distinct(order) && forall r :: r in order <==> r in labels
    ensures ClustersByRoot(sha, entries, keys, labels, order, unsorted)
    ensures IsClusterList(sha, Nodes(entries), Sort(unsorted, ByClusterId))
  {
    order := SortedNats(set r | r in labels);
    unsorted := seq(|order|, k requires 0 <= k < |order| => RootCluster(sha, entries, keys, labels, order[k]));
    RootListing(sha, entries, keys, labels, order, unsorted, EntryClusters(sha, entries));
    EntryClustersAre(sha, entries);
    StrictById(unsorted, Sort(unsorted, ByClusterId));
  }

  /** Members and edges are conserved over the clusters, so there are at least n - m clusters. */
  lemma {:induction false} ClusterConservation(sha: Sha, nodes: set<Entry>, edges: seq<Edge>, clusters: seq<Cluster>)
    requires Injective(sha) && DistinctIds(nodes)
    requires IsEdgeListing(nodes, edges) && IsClusterList(sha, nodes, clusters)
    ensures MemberCounts(clusters) == |nodes|
    ensures EdgeCounts(clusters) == |edges|
    ensures |clusters| + |edges| >= |nodes|
  {
    var entries := ListNodes(nodes);
    var keys, labels, order, unsorted := RootForm(sha, entries);
    ClusterListUnique(sha, nodes, clusters, Sort(unsorted, ByClusterId));
    SortKeepsCounts(unsorted);
    SortMembers(unsorted, ByClusterId);
    ListingSize(nodes, edges);
    var e, m := EdgesAt(labels, keys), SizesAt(labels, |entries|);
    forall k | 0 <= k < |order|
      ensures unsorted[k].edgeCount == e(order[k]) && |unsorted[k].memberIds| == m(order[k])
    {
      MembersAtSize(entries, labels, order[k]);
    }
    CountsByRoot(unsorted, order, e, m);
    EdgesSum(labels, keys, order);
    SizesSum(labels, |entries|, order);
    forall r | r in order
      ensures m(r) <= 1 + e(r)
    {
      ClassNeedsEdges(|entries|, keys, r);
    }
    SumOverBound(order, m, e);
  }

  /** An edge list has as many edges as the graph. */
  lemma ListingSize(nodes: set<Entry>, edges: seq<Edge>)
    requires DistinctIds(nodes) && IsEdgeListing(nodes, edges)
    ensures |edges| == |EdgesWithin(nodes)|
  {
    var f := (q: (Entry, Entry)) => RenderEdge(q.0, q.1);
    var all := set e | e in edges;
    DistinctListing(edges, all);
    forall p, q | p in EdgesWithin(nodes) && q in EdgesWithin(nodes) && f(p) == f(q)
      ensures p == q
    {
      RenderedEnds(p.0, p.1);
      RenderedEnds(q.0, q.1);
    }
    forall q | q in EdgesWithin(nodes)
      ensures f(q) in all
    {
      assert (q.0, q.1) in EdgesWithin(nodes);
    }
    forall e | e in all
      ensures exists q :: q in EdgesWithin(nodes) && f(q) == e
    {
      var a, b :| (a, b) in EdgesWithin(nodes) && e == RenderEdge(a, b);
      assert f((a, b)) == e;
    }
    ImageSize<(Entry, Entry), Edge>(EdgesWithin(nodes), all, f);
  }

  lemma ClusterEdgesAtLeast(sha: Sha, nodes: set<Entry>, clusters: seq<Cluster>, c: Cluster)
    requires Injective(sha) && DistinctIds(nodes) && IsClusterList(sha, nodes, clusters) && c in clusters
    ensures |c.memberIds| - 1 <= c.edgeCount
  {
    var entries := ListNodes(nodes);
    var keys, labels, order, unsorted := RootForm(sha, entries);
    ClusterListUnique(sha, nodes, clusters, Sort(unsorted, ByClusterId));
    SortMembers(unsorted, ByClusterId);
    var k :| 0 <= k < |unsorted| && unsorted[k] == c;
    MembersAtSize(entries, labels, order[k]);
    ClassNeedsEdges(|entries|, keys, order[k]);
  }

  lemma ClusterShape(sha: Sha, nodes: set<Entry>, a: Entry)
    requires DistinctIds(nodes) && a in nodes
    ensures var c, members := ClusterOf(sha, nodes, a), Component(nodes, a);
      c.edgeCount == |EdgesWithin(members)| && |c.memberIds| == |members| && a in members
  {
    ConnectedSelf(nodes, a);
    IdsCount(Component(nodes, a));
  }

  /** A cluster of k members has between k - 1 and k (k - 1) / 2 edges: none exactly when it is a singleton. */
  lemma ClusterEdgeBounds(sha: Sha, nodes: set<Entry>, clusters: seq<Cluster>, c: Cluster)
    requires Injective(sha) && DistinctIds(nodes) && IsClusterList(sha, nodes, clusters) && c in clusters
    ensures |c.memberIds| >= 1
    ensures |c.memberIds| - 1 <= c.edgeCount <= PairsAmong(|c.memberIds|)
    ensures c.edgeCount == 0 <==> |c.memberIds| == 1
  {
    ClusterEdgesAtLeast(sha, nodes, clusters, c);
    var a :| a in nodes && c == ClusterOf(sha, nodes, a);
    ClusterShape(sha, nodes, a);
    PairBound(Component(nodes, a));
    assert PairsAmong(1) == 0;
  }

  lemma IdsCount(members: set<Entry>)
    requires DistinctIds(members)
    ensures |IdsOf(members)| == |members|
  {
    var f := (e: Entry) => e.assetId;
    ImageSize<Entry, nat>(members, IdsOf(members), f);
  }

  /** The member lists partition the entries: each entry is in exactly one cluster. */
  lemma ClustersPartition(sha: Sha, nodes: set<Entry>, clusters: seq<Cluster>, a: Entry, i: nat, j: nat)
    requires DistinctIds(nodes) && IsClusterList(sha, nodes, clusters) && a in nodes
    ensures exists c :: c in clusters && a.assetId in c.memberIds
    ensures
      i < |clusters| && j < |clusters| && a.assetId in clusters[i].memberIds && a.assetId in clusters[j].memberIds ==>
      i == j
  {
    ConnectedSelf(nodes, a);
    assert a in Component(nodes, a);
    assert a.assetId in IdsOf(Component(nodes, a));
    assert ClusterOf(sha, nodes, a) in clusters;
    if i < |clusters| && a.assetId in clusters[i].memberIds {
      OnlyOwnCluster(sha, nodes, clusters, a, i);
    }
    if j < |clusters| && a.assetId in clusters[j].memberIds {
      OnlyOwnCluster(sha, nodes, clusters, a, j);
    }
  }

  lemma OnlyOwnCluster(sha: Sha, nodes: set<Entry>, clusters: seq<Cluster>, a: Entry, i: nat)
    requires DistinctIds(nodes) && IsClusterList(sha, nodes, clusters) && a in nodes
    requires i < |clusters| && a.assetId in clusters[i].memberIds
    ensures clusters[i] == ClusterOf(sha, nodes, a)
  {
    assert clusters[i] in clusters;
    var b :| b in nodes && clusters[i] == ClusterOf(sha, nodes, b);
    IdInCluster(sha, nodes, b, a);
    SameComponent(nodes, b, a);
  }

  lemma IdInCluster(sha: Sha, nodes: set<Entry>, b: Entry, a: Entry)
    requires DistinctIds(nodes) && a in nodes && a.assetId in ClusterOf(sha, nodes, b).memberIds
    ensures a in Component(nodes, b)
  {
    assert a.assetId in IdsOf(Component(nodes, b));
  }
}
