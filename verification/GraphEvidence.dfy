/** From an edge map to rendered edges and clusters, and the two graph builders as a whole. */
module GraphEvidence {
  import opened Clusters
  import opened EdgeMaps
  import opened Graph
  import opened GraphBuilders
  import opened NearPairs
  import opened Order
  import opened Wrappers

  lemma EdgeAt(entries: seq<Entry>, p: Pos)
    ensures p in AllEdges(entries) <==> p.0 < p.1 < |entries| && HasEdge(entries[p.0], entries[p.1])
    ensures p in AllEdges(entries) ==> AllEdges(entries)[p] == InfoOf(entries[p.0], entries[p.1])
  {
    assert p == (p.0, p.1);
  }

  // ---- rendered edges ----

  ghost predicate InRange(keys: seq<Pos>, n: nat) {
    forall k :: 0 <= k < |keys| ==> keys[k].0 < keys[k].1 < n
  }

  function IdPair(entries: seq<Entry>, p: Pos): (nat, nat) {
    if p.0 < |entries| && p.1 < |entries| then (entries[p.0].assetId, entries[p.1].assetId) else (0, 0)
  }

  /** `key=lambda item: (left asset id, right asset id)` */
  function ByIds(entries: seq<Entry>): (Pos, Pos) -> bool {
    (p: Pos, q: Pos) => PairLe(IdPair(entries, p), IdPair(entries, q))
  }

  lemma ByIdsOrders(entries: seq<Entry>)
    ensures TotalPreorder(ByIds(entries))
  {
    PairOrder();
  }

  lemma ListedKeys(entries: seq<Entry>, edges: EdgeMap, keys: seq<Pos>)
    requires edges == AllEdges(entries)
    requires Distinct(keys) && forall p: Pos :: p in keys <==> p in edges
    ensures IsEdgeKeys(entries, keys) && InRange(keys, |entries|)
    ensures forall k :: 0 <= k < |keys| ==> edges[keys[k]] == InfoOf(entries[keys[k].0], entries[keys[k].1])
  {
    forall p: Pos
      ensures p in keys <==> p.0 < p.1 < |entries| && HasEdge(entries[p.0], entries[p.1])
      ensures p in keys ==> edges[p] == InfoOf(entries[p.0], entries[p.1])
    {
      EdgeAt(entries, p);
    }
    assert forall k :: 0 <= k < |keys| ==> keys[k] in keys;
  }

  /** `sorted(edge_values, key=asset ids)` */
  function SortKeys(entries: seq<Entry>, listing: seq<Pos>): seq<Pos> {
    Sort<Pos>(listing, ByIds(entries))
  }

  lemma SortKeysSpec(entries: seq<Entry>, listing: seq<Pos>)
    requires Distinct(listing)
    ensures var keys := SortKeys(entries, listing);
      Distinct(keys) && (forall p: Pos :: p in keys <==> p in listing) && Ascending(keys, ByIds(entries))
  {
    var keys := SortKeys(entries, listing);
    SortMembers<Pos>(listing, ByIds(entries));
    forall p: Pos
      ensures p in keys <==> p in listing
    {
      assert p in keys <==> p in multiset(keys);
      assert p in listing <==> p in multiset(listing);
    }
    PermutationDistinct<Pos>(listing, keys);
    ByIdsOrders(entries);
    SortAscends<Pos>(listing, ByIds(entries));
  }

  /** The rendering loop, one edge per key. */
  method RenderEdges(entries: seq<Entry>, edgeValues: EdgeMap, keys: seq<Pos>) returns (rendered: seq<Edge>)
    requires InRange(keys, |entries|) && forall k :: 0 <= k < |keys| ==> keys[k] in edgeValues
    ensures |rendered| == |keys|
    ensures forall k :: 0 <= k < |keys| ==>
      rendered[k] == RenderWith(entries[keys[k].0], entries[keys[k].1], edgeValues[keys[k]])
  {
    rendered := [];
    for k := 0 to |keys|
      invariant |rendered| == k
      invariant forall m :: 0 <= m < k ==>
        rendered[m] == RenderWith(entries[keys[m].0], entries[keys[m].1], edgeValues[keys[m]])
    {
      var edge := RenderWith(entries[keys[k].0], entries[keys[k].1], edgeValues[keys[k]]);
      rendered := rendered + [edge];
    }
  }

  // ---- what a rendered list says about the graph ----

  ghost predicate Rendered(entries: seq<Entry>, keys: seq<Pos>, edges: seq<Edge>) {
    && IsEdgeKeys(entries, keys) && InRange(keys, |entries|)
    && |edges| == |keys|
    && (forall k :: 0 <= k < |keys| ==> edges[k] == RenderEdge(entries[keys[k].0], entries[keys[k].1]))
  }

  lemma RenderedDistinct(entries: seq<Entry>, keys: seq<Pos>, edges: seq<Edge>)
    requires Rendered(entries, keys, edges) && DistinctIdsOf(entries)
    ensures Distinct(edges)
  {
    forall i, j | 0 <= i < j < |edges|
      ensures edges[i] != edges[j]
    {
      assert keys[i] != keys[j];
      SameEndpoints(entries, keys[i], keys[j]);
      RenderedEnds(entries[keys[i].0], entries[keys[i].1]);
      RenderedEnds(entries[keys[j].0], entries[keys[j].1]);
    }
  }

  lemma RenderedIsListing(entries: seq<Entry>, keys: seq<Pos>, edges: seq<Edge>)
    requires Rendered(entries, keys, edges) && DistinctIdsOf(entries)
    ensures IsEdgeListing(Nodes(entries), edges)
  {
    var nodes := Nodes(entries);
    RenderedDistinct(entries, keys, edges);
    forall e | e in edges
      ensures exists a, b :: (a, b) in EdgesWithin(nodes) && e == RenderEdge(a, b)
    {
      var k :| 0 <= k < |edges| && edges[k] == e;
      assert keys[k] in keys;
      var q := Oriented(entries, keys[k]);
      KeyIsEdge(entries, keys, keys[k]);
      assert (q.0, q.1) in EdgesWithin(nodes) && e == RenderEdge(q.0, q.1);
    }
    forall a, b | (a, b) in EdgesWithin(nodes)
      ensures RenderEdge(a, b) in edges
    {
      var p := EdgeHasKey(entries, keys, a, b);
      var k :| 0 <= k < |keys| && keys[k] == p;
      assert edges[k] == RenderEdge(a, b);
    }
  }

  lemma KeyIsEdge(entries: seq<Entry>, keys: seq<Pos>, p: Pos)
    requires IsEdgeKeys(entries, keys) && DistinctIdsOf(entries) && p in keys
    ensures Oriented(entries, p) in EdgesWithin(Nodes(entries))
    ensures RenderEdge(Oriented(entries, p).0, Oriented(entries, p).1) == RenderEdge(entries[p.0], entries[p.1])
  {
    NearSymmetric(entries[p.0], entries[p.1]);
  }

  lemma EdgeHasKey(entries: seq<Entry>, keys: seq<Pos>, a: Entry, b: Entry) returns (p: Pos)
    requires IsEdgeKeys(entries, keys) && DistinctIdsOf(entries) && (a, b) in EdgesWithin(Nodes(entries))
    ensures p in keys && Oriented(entries, p) == (a, b)
    ensures RenderEdge(entries[p.0], entries[p.1]) == RenderEdge(a, b)
  {
    var x, y := EdgeEnds(entries, Nodes(entries), (a, b));
    EdgeKey(entries, keys, x, y);
    NearSymmetric(a, b);
    p := if x < y then (x, y) else (y, x);
  }

  lemma SameEndpoints(entries: seq<Entry>, p: Pos, q: Pos)
    requires DistinctIdsOf(entries) && p.0 < p.1 < |entries| && q.0 < q.1 < |entries| && p != q
    ensures EndIds(entries[p.0], entries[p.1]) != EndIds(entries[q.0], entries[q.1])
  {
  }

  lemma EdgeTotal(entries: seq<Entry>, keys: seq<Pos>)
    requires IsEdgeKeys(entries, keys) && DistinctIdsOf(entries)
    ensures |keys| == |EdgesWithin(Nodes(entries))|
  {
    var edges := EdgesWithin(Nodes(entries));
    var here := set p: Pos | p in keys;
    DistinctListing<Pos>(keys, here);
    assert keys == [] || keys[0] in keys;
    if entries == [] {
      assert edges == {};
    } else {
      var f := Orienter(entries, entries[0]);
      forall p | p in here
        ensures p.0 < p.1 < |entries| && f(p) == Oriented(entries, p) && f(p) in edges
      {
        KeyIsEdge(entries, keys, p);
      }
      forall p, q | p in here && q in here && f(p) == f(q)
        ensures p == q
      {
        OrientedInjective(entries, p, q);
      }
      forall q | q in edges
        ensures exists p :: p in here && f(p) == q
      {
        var p := EdgeHasKey(entries, keys, q.0, q.1);
        assert p in here && f(p) == q;
      }
      ImageSize<Pos, (Entry, Entry)>(here, edges, f);
    }
  }

  // ---- the two builders ----

  datatype Evidence = Evidence(edges: seq<Edge>, clusters: seq<Cluster>)

  /** What any correct builder returns for a set of entries, whatever order it visits them in. */
  ghost predicate IsEvidence(sha: Sha, nodes: set<Entry>, cap: nat, r: Result<Evidence, Failure>) {
    && (r.Err? <==> |EdgesWithin(nodes)| > cap)
    && (r.Err? ==> r.error == EdgeCap)
    && (r.Ok? ==> IsEdgeListing(nodes, r.value.edges) && IsClusterList(sha, nodes, r.value.clusters))
  }

  /** Edges come out ordered by the endpoints' ids taken in visiting order. */
  ghost predicate OrderedByVisit(entries: seq<Entry>, edges: seq<Edge>) {
    exists keys :: Rendered(entries, keys, edges) && Ascending(keys, ByIds(entries))
  }

  /** `sorted(edge_values)` */
  function Listing(edges: EdgeMap): (keys: seq<Pos>)
    ensures Distinct(keys) && forall p: Pos :: p in keys <==> p in edges
  {
    PairOrder();
    SortedSet<Pos>(edges.Keys, PairLe)
  }

  /** The rendered edges, ordered by the endpoints' ids. */
  method RenderSorted(entries: seq<Entry>, edgeValues: EdgeMap, listing: seq<Pos>) returns (edges: seq<Edge>)
    requires DistinctIdsOf(entries) && edgeValues == AllEdges(entries)
    requires Distinct(listing) && forall p: Pos :: p in listing <==> p in edgeValues
    ensures IsEdgeListing(Nodes(entries), edges) && OrderedByVisit(entries, edges)
  {
    SortKeysSpec(entries, listing);
    var keys := SortKeys(entries, listing);
    ListedKeys(entries, edgeValues, keys);
    edges := RenderEdges(entries, edgeValues, keys);
    assert Rendered(entries, keys, edges);
    RenderedIsListing(entries, keys, edges);
  }

  /** Everything after the edge map, spelled out identically in both programs. */
  method Render(sha: Sha, entries: seq<Entry>, edgeValues: EdgeMap) returns (evidence: Evidence)
    requires Injective(sha) && DistinctIdsOf(entries) && edgeValues == AllEdges(entries)
    ensures IsEdgeListing(Nodes(entries), evidence.edges) && OrderedByVisit(entries, evidence.edges)
    ensures IsClusterList(sha, Nodes(entries), evidence.clusters)
  {
    var listing := Listing(edgeValues);
    ListedKeys(entries, edgeValues, listing);
    var edges := RenderSorted(entries, edgeValues, listing);
    var clusters := BuildClusters(sha, entries, listing);
    evidence := Evidence(edges, clusters);
  }

  lemma CapIsOrderFree(entries: seq<Entry>)
    requires DistinctIdsOf(entries)
    ensures |AllEdges(entries)| == |EdgesWithin(Nodes(entries))|
  {
    PairOrder();
    var listing: seq<Pos> := SortedSet(AllEdges(entries).Keys, PairLe);
    ListedKeys(entries, AllEdges(entries), listing);
    EdgeTotal(entries, listing);
  }

  /** `_graph_evidence` of the auditor. */
  method AuditorEvidence(sha: Sha, records: seq<Entry>, cap: nat) returns (r: Result<Evidence, Failure>)
    requires Injective(sha) && Hashed(records) && DistinctIdsOf(records)
    ensures IsEvidence(sha, Nodes(records), cap, r)
    ensures r.Ok? ==> OrderedByVisit(records, r.value.edges)
  {
    CapIsOrderFree(records);
    var edgeValues := AuditorEdges(records, cap);
    if edgeValues.Err? {
      return Err(edgeValues.error);
    }
    var evidence := Render(sha, records, edgeValues.value);
    r := Ok(evidence);
  }

  predicate ById(a: Entry, b: Entry) {
    a.assetId <= b.assetId
  }

  /** `_reconstruct_near_duplicate_graph` of the authority builder: same graph over its own node order. */
  method ReconstructEvidence(sha: Sha, entries: seq<Entry>, cap: nat) returns (r: Result<Evidence, Failure>)
    requires Injective(sha) && Hashed(entries) && DistinctIdsOf(entries)
    ensures IsEvidence(sha, Nodes(entries), cap, r)
    ensures r.Ok? ==> OrderedByVisit(Sort(entries, ById), r.value.edges)
  {
    var ordered := Sort(entries, ById);
    ReorderedEntries(entries, ordered);
    CapIsOrderFree(ordered);
    var edgeValues := RederiveEdges(ordered, cap);
    if edgeValues.Err? {
      return Err(edgeValues.error);
    }
    var evidence := Render(sha, ordered, edgeValues.value);
    r := Ok(evidence);
  }

  lemma {:induction false} ReorderedEntries(entries: seq<Entry>, ordered: seq<Entry>)
    requires Hashed(entries) && DistinctIdsOf(entries) && ordered == Sort(entries, ById)
    ensures Hashed(ordered) && DistinctIdsOf(ordered) && Nodes(ordered) == Nodes(entries)
    ensures forall i, j :: 0 <= i < j < |ordered| ==> ordered[i].assetId < ordered[j].assetId
  {
    SortMembers(entries, ById);
    SortAscends(entries, ById);
    PermutationDistinct(entries, ordered);
    forall i | 0 <= i < |ordered|
      ensures ordered[i] in entries
    {
      assert ordered[i] in ordered;
    }
    forall i, j | 0 <= i < j < |ordered|
      ensures ordered[i].assetId < ordered[j].assetId
    {
      assert ById(ordered[i], ordered[j]) && ordered[i] != ordered[j];
      var x :| 0 <= x < |entries| && entries[x] == ordered[i];
      var y :| 0 <= y < |entries| && entries[y] == ordered[j];
      assert x != y;
    }
  }
}
