/** Building `edge_values`: radius-search edges joined with exact-image and same-source edges. */
module EdgeMaps {
  import opened Graph
  import opened NearPairs
  import opened Order
  import opened PerceptualHash
  import opened Wrappers

  type Pos = (nat, nat)
  type EdgeMap = map<Pos, EdgeInfo>

  /** The whole edge map of an entry list, by definition. */
  ghost function AllEdges(entries: seq<Entry>): EdgeMap {
    map i: nat, j: nat | i < j < |entries| && HasEdge(entries[i], entries[j])
      :: (i, j) := InfoOf(entries[i], entries[j])
  }

  ghost predicate Hashed(entries: seq<Entry>) {
    forall i :: 0 <= i < |entries| ==> ValidSignature(entries[i].phash)
  }

  // ---- the radius-search part ----

  ghost function Signatures(entries: seq<Entry>): (sigs: seq<seq<int>>)
    ensures Hashed(entries) ==> ValidUpTo(sigs, |entries|)
  {
    seq(|entries|, i requires 0 <= i < |entries| => entries[i].phash)
  }

  function NearInfo(distance: nat): EdgeInfo {
    EdgeInfo(Some(distance), {PERCEPTUAL_HASH})
  }

  /** Recording found pairs one after the other. */
  ghost function RecordAll(pairs: seq<Pair>): EdgeMap {
    if pairs == [] then map[]
    else
      var last := pairs[|pairs| - 1];
      RecordAll(pairs[..|pairs| - 1])[(last.left, last.right) := NearInfo(last.distance)]
  }

  lemma {:induction false} RecordAllSpec(pairs: seq<Pair>, k: Pos)
    ensures k in RecordAll(pairs) <==> exists p :: p in pairs && k == (p.left, p.right)
    ensures k in RecordAll(pairs) ==>
      exists p :: p in pairs && k == (p.left, p.right) && RecordAll(pairs)[k] == NearInfo(p.distance)
    decreases |pairs|
  {
    if pairs != [] {
      RecordAllSpec(pairs[..|pairs| - 1], k);
      assert pairs == pairs[..|pairs| - 1] + [pairs[|pairs| - 1]];
    }
  }

  /** The edges the radius search contributes. */
  ghost function NearEdges(entries: seq<Entry>): EdgeMap
    requires Hashed(entries)
  {
    RecordAll(BrutePairs(Signatures(entries), PHASH_DISTANCE, |entries|))
  }

  lemma NearAt(entries: seq<Entry>, k: Pos)
    requires Hashed(entries)
    ensures var near := NearEdges(entries);
      && (k in near <==> k.0 < k.1 < |entries| && Near(entries[k.0], entries[k.1]))
      && (k in near ==> near[k] == NearInfo(Spread(entries[k.0], entries[k.1])))
  {
    var sigs := Signatures(entries);
    var pairs := BrutePairs(sigs, PHASH_DISTANCE, |entries|);
    BrutePairsSpec(sigs, PHASH_DISTANCE, |entries|);
    RecordAllSpec(pairs, k);
    if k.0 < k.1 < |entries| {
      NearIsWithin(entries[k.0], entries[k.1]);
      assert Gap(sigs, k.0, k.1) == Spread(entries[k.0], entries[k.1]);
      assert Near(entries[k.0], entries[k.1]) ==> Pair(k.0, k.1, Gap(sigs, k.0, k.1)) in pairs;
    }
  }

  lemma CardinalityMonotone<T>(a: set<T>, b: set<T>)
    requires a <= b
    ensures |a| <= |b|
  {
    assert b == a + (b - a);
  }

  /** Cardinality of a map only grows when keys are added. */
  lemma FewerKeys(a: EdgeMap, b: EdgeMap)
    requires a.Keys <= b.Keys
    ensures |a| <= |b|
  {
    CardinalityMonotone(a.Keys, b.Keys);
  }

  lemma {:induction false} DistinctListing<T>(s: seq<T>, elements: set<T>)
    requires Distinct(s) && forall x :: x in elements <==> x in s
    ensures |elements| == |s|
    decreases |s|
  {
    if s == [] {
      assert elements == {};
    } else {
      var rest := elements - {s[0]};
      assert s[0] in elements;
      forall x
        ensures x in rest <==> x in s[1..]
      {
        assert x in s <==> x == s[0] || x in s[1..];
      }
      DistinctListing(s[1..], rest);
    }
  }

  // ---- joining groups of equal digests ----

  /** `edge = edge_values.setdefault(key, blank)`, then the evidence name and the exact distance. */
  function Mark(info: EdgeInfo, evidence: string, exact: bool): EdgeInfo {
    EdgeInfo(if exact then Some(0) else info.distance, info.evidence + {evidence})
  }

  const BLANK := EdgeInfo(None, {})

  function MarkPair(edges: EdgeMap, key: Pos, evidence: string, exact: bool): EdgeMap {
    edges[key := Mark(if key in edges then edges[key] else BLANK, evidence, exact)]
  }

  /** Marking a list of pairs one after the other. */
  ghost function MarkAll(edges: EdgeMap, pairs: seq<Pos>, evidence: string, exact: bool): EdgeMap {
    if pairs == [] then edges
    else MarkPair(MarkAll(edges, pairs[..|pairs| - 1], evidence, exact), pairs[|pairs| - 1], evidence, exact)
  }

  lemma {:induction false} MarkAllSpec(edges: EdgeMap, pairs: seq<Pos>, evidence: string, exact: bool, p: Pos)
    ensures var all := MarkAll(edges, pairs, evidence, exact);
      && (p in all <==> p in edges || p in pairs)
      && (p in all ==> var info := if p in edges then edges[p] else BLANK;
                       all[p] == if p in pairs then Mark(info, evidence, exact) else info)
    decreases |pairs|
  {
    if pairs != [] {
      var init, last := pairs[..|pairs| - 1], pairs[|pairs| - 1];
      MarkAllSpec(edges, init, evidence, exact, p);
      assert pairs == init + [last];
    }
  }

  lemma {:induction false} MarkAllAppend(edges: EdgeMap, first: seq<Pos>, second: seq<Pos>, evidence: string,
                                         exact: bool)
    ensures MarkAll(edges, first + second, evidence, exact) ==
            MarkAll(MarkAll(edges, first, evidence, exact), second, evidence, exact)
    decreases |second|
  {
    if second == [] {
      assert first + second == first;
    } else {
      var init, last := second[..|second| - 1], second[|second| - 1];
      MarkAllAppend(edges, first, init, evidence, exact);
      var all := first + second;
      assert all[..|all| - 1] == first + init && all[|all| - 1] == last;
    }
  }

  /** The pairs of a group in visiting order, up to loop positions `position` and `k`. */
  ghost function Visited(indexes: seq<nat>, position: nat, k: nat): seq<Pos>
    requires position <= |indexes| && position + 1 <= k && k <= |indexes| + 1
    requires position < |indexes| ==> k <= |indexes|
    decreases position, k
  {
    if k > position + 1 then Visited(indexes, position, k - 1) + [(indexes[position], indexes[k - 1])]
    else if position == 0 then []
    else Visited(indexes, position - 1, |indexes|)
  }

  ghost function GroupPairs(indexes: seq<nat>): seq<Pos> {
    Visited(indexes, |indexes|, |indexes| + 1)
  }

  lemma {:induction false} VisitedSpec(indexes: seq<nat>, position: nat, k: nat, p: Pos)
    requires position <= |indexes| && position + 1 <= k && k <= |indexes| + 1
    requires position < |indexes| ==> k <= |indexes|
    ensures p in Visited(indexes, position, k) <==>
      exists x, y :: 0 <= x < y < |indexes| && (x < position || (x == position && y < k)) &&
        p == (indexes[x], indexes[y])
    decreases position, k
  {
    if k > position + 1 {
      VisitedSpec(indexes, position, k - 1, p);
    } else if position > 0 {
      VisitedSpec(indexes, position - 1, |indexes|, p);
    }
  }

  /** What is still to visit only extends the list. */
  lemma {:induction false} VisitedPrefix(indexes: seq<nat>, position: nat, k: nat)
    requires position <= |indexes| && position + 1 <= k && k <= |indexes| + 1
    requires position < |indexes| ==> k <= |indexes|
    ensures Visited(indexes, position, k) <= GroupPairs(indexes)
    decreases |indexes| - position, |indexes| + 1 - k
  {
    if position < |indexes| {
      if k < |indexes| {
        VisitedPrefix(indexes, position, k + 1);
      } else {
        VisitedPrefix(indexes, position + 1, position + 2);
      }
    }
  }

  /** Once a prefix of the marks is over the cap, so is the whole. */
  lemma {:induction false} OverStaysOver(edges: EdgeMap, some: seq<Pos>, all: seq<Pos>, evidence: string, exact: bool)
    requires some <= all
    ensures |MarkAll(edges, some, evidence, exact)| <= |MarkAll(edges, all, evidence, exact)|
  {
    forall p | p in MarkAll(edges, some, evidence, exact).Keys
      ensures p in MarkAll(edges, all, evidence, exact).Keys
    {
      MarkAllSpec(edges, some, evidence, exact, p);
      MarkAllSpec(edges, all, evidence, exact, p);
      assert forall k :: 0 <= k < |some| ==> some[k] == all[k];
    }
    FewerKeys(MarkAll(edges, some, evidence, exact), MarkAll(edges, all, evidence, exact));
  }

  lemma VisitedStep(edges: EdgeMap, indexes: seq<nat>, position: nat, k: nat, evidence: string, exact: bool)
    requires position < k < |indexes|
    ensures MarkAll(edges, Visited(indexes, position, k + 1), evidence, exact) ==
            MarkPair(MarkAll(edges, Visited(indexes, position, k), evidence, exact),
                     (indexes[position], indexes[k]), evidence, exact)
  {
    var visited := Visited(indexes, position, k + 1);
    assert visited[..|visited| - 1] == Visited(indexes, position, k);
  }

  /** The edge map after each pass of the innermost loop, by the loop variable. */
  ghost predicate RowMarks(marks: seq<EdgeMap>, indexes: seq<nat>, position: nat, evidence: string, exact: bool) {
    && |marks| == |indexes| + 1 && position < |indexes|
    && (forall k :: position < k < |indexes| ==>
          marks[k + 1] == MarkPair(marks[k], (indexes[position], indexes[k]), evidence, exact))
  }

  /** The innermost loop. */
  method JoinRow(start: EdgeMap, indexes: seq<nat>, position: nat, evidence: string, exact: bool, cap: nat,
                 ghost marks: seq<EdgeMap>)
    returns (joined: EdgeMap, over: bool, ghost reached: nat)
    requires RowMarks(marks, indexes, position, evidence, exact) && start == marks[position + 1] && |start| <= cap
    ensures position < reached <= |indexes| && joined == marks[reached] && (over <==> |joined| > cap)
    ensures !over ==> reached == |indexes|
  {
    joined := start;
    for k := position + 1 to |indexes|
      invariant joined == marks[k] && |joined| <= cap
    {
      joined := MarkPair(joined, (indexes[position], indexes[k]), evidence, exact);
      if |joined| > cap {
        return joined, true, k + 1;
      }
    }
    over, reached := false, |indexes|;
  }

  /** What marking the pairs visited so far leaves, at every point of one row. */
  ghost function MarksOf(edges: EdgeMap, indexes: seq<nat>, position: nat, evidence: string, exact: bool)
    : (marks: seq<EdgeMap>)
    requires position < |indexes|
    ensures |marks| == |indexes| + 1
    ensures forall k :: position < k <= |indexes| ==>
      marks[k] == MarkAll(edges, Visited(indexes, position, k), evidence, exact)
  {
    seq(|indexes| + 1, k requires 0 <= k <= |indexes| =>
      if k > position then MarkAll(edges, Visited(indexes, position, k), evidence, exact) else edges)
  }

  lemma MarksStep(edges: EdgeMap, indexes: seq<nat>, position: nat, evidence: string, exact: bool)
    requires position < |indexes|
    ensures RowMarks(MarksOf(edges, indexes, position, evidence, exact), indexes, position, evidence, exact)
  {
    forall k | position < k < |indexes|
      ensures var marks := MarksOf(edges, indexes, position, evidence, exact);
        marks[k + 1] == MarkPair(marks[k], (indexes[position], indexes[k]), evidence, exact)
    {
      VisitedStep(edges, indexes, position, k, evidence, exact);
    }
  }

  lemma {:induction false} GroupBounds(edges: EdgeMap, indexes: seq<nat>, position: nat, k: nat, evidence: string,
                                       exact: bool)
    requires position < k <= |indexes|
    ensures |MarkAll(edges, Visited(indexes, position, k), evidence, exact)| <=
            |MarkAll(edges, GroupPairs(indexes), evidence, exact)|
  {
    VisitedPrefix(indexes, position, k);
    OverStaysOver(edges, Visited(indexes, position, k), GroupPairs(indexes), evidence, exact);
  }

  /** One pass of the outer loop over a group. */
  method JoinNext(ghost edges: EdgeMap, soFar: EdgeMap, indexes: seq<nat>, position: nat, evidence: string, exact: bool,
                  cap: nat)
    returns (joined: EdgeMap, over: bool)
    requires position < |indexes| && |soFar| <= cap
    requires soFar == MarkAll(edges, Visited(indexes, position, position + 1), evidence, exact)
    ensures (over <==> |joined| > cap) && |joined| <= |MarkAll(edges, GroupPairs(indexes), evidence, exact)|
    ensures !over ==> joined == MarkAll(edges, Visited(indexes, position + 1, position + 2), evidence, exact)
  {
    ghost var marks, reached := MarksOf(edges, indexes, position, evidence, exact), 0;
    MarksStep(edges, indexes, position, evidence, exact);
    joined, over, reached := JoinRow(soFar, indexes, position, evidence, exact, cap, marks);
    GroupBounds(edges, indexes, position, reached, evidence, exact);
  }

  /** The two inner loops over one group. */
  method JoinGroup(edges: EdgeMap, indexes: seq<nat>, evidence: string, exact: bool, cap: nat)
    returns (joined: EdgeMap, over: bool)
    requires |edges| <= cap
    ensures over <==> |MarkAll(edges, GroupPairs(indexes), evidence, exact)| > cap
    ensures !over ==> joined == MarkAll(edges, GroupPairs(indexes), evidence, exact)
  {
    joined, over := edges, false;
    for position := 0 to |indexes|
      invariant joined == MarkAll(edges, Visited(indexes, position, position + 1), evidence, exact)
      invariant |joined| <= cap && !over
    {
      joined, over := JoinNext(edges, joined, indexes, position, evidence, exact, cap);
      if over {
        return;
      }
    }
  }

  /** Ascending positions below `n` whose digest is `digest`. */
  ghost function IndexesOf(digests: seq<Digest>, digest: Digest, n: nat): seq<nat>
    requires n <= |digests|
  {
    if n == 0 then [] else
      IndexesOf(digests, digest, n - 1) + if digests[n - 1] == digest then [n - 1] else []
  }

  ghost predicate Increasing(s: seq<nat>) {
    forall x, y :: 0 <= x < y < |s| ==> s[x] < s[y]
  }

  lemma {:induction false} IndexesOfSpec(digests: seq<Digest>, digest: Digest, n: nat)
    requires n <= |digests|
    ensures forall k: nat :: k in IndexesOf(digests, digest, n) <==> k < n && digests[k] == digest
    ensures Increasing(IndexesOf(digests, digest, n))
  {
    if n > 0 {
      IndexesOfSpec(digests, digest, n - 1);
      var init := IndexesOf(digests, digest, n - 1);
      forall x | 0 <= x < |init|
        ensures init[x] < n - 1
      {
        assert init[x] in init;
      }
      assert Increasing(init + [n - 1]);
    }
  }

  /** The visited pairs of one digest's group are exactly the pairs of positions carrying that digest. */
  lemma {:induction false} GroupPairsSpec(digests: seq<Digest>, digest: Digest, p: Pos)
    ensures p in GroupPairs(IndexesOf(digests, digest, |digests|)) <==>
      p.0 < p.1 < |digests| && digests[p.0] == digests[p.1] == digest
  {
    IndexesOfSpec(digests, digest, |digests|);
    PairsOfIncreasing(IndexesOf(digests, digest, |digests|), p);
  }

  lemma PairsOfIncreasing(group: seq<nat>, p: Pos)
    requires Increasing(group)
    ensures p in GroupPairs(group) <==> p.0 < p.1 && p.0 in group && p.1 in group
  {
    VisitedSpec(group, |group|, |group| + 1, p);
    if p.0 < p.1 && p.0 in group && p.1 in group {
      var x :| 0 <= x < |group| && group[x] == p.0;
      var y :| 0 <= y < |group| && group[y] == p.1;
      assert x < y;
    }
  }

  /** Every group's pairs, in the order the digests are visited. */
  ghost function AllGroupPairs(digests: seq<Digest>, order: seq<Digest>): seq<Pos> {
    if order == [] then []
    else AllGroupPairs(digests, order[..|order| - 1]) +
         GroupPairs(IndexesOf(digests, order[|order| - 1], |digests|))
  }

  lemma {:induction false} AllGroupPairsSpec(digests: seq<Digest>, order: seq<Digest>, p: Pos)
    ensures p in AllGroupPairs(digests, order) <==>
      p.0 < p.1 < |digests| && digests[p.0] == digests[p.1] && digests[p.0] in order
    decreases |order|
  {
    if order != [] {
      var init, last := order[..|order| - 1], order[|order| - 1];
      assert order == init + [last];
      AllGroupPairsSpec(digests, init, p);
      GroupPairsSpec(digests, last, p);
    }
  }

  lemma {:induction false} AllGroupPairsPrefix(digests: seq<Digest>, order: seq<Digest>, g: nat)
    requires g <= |order|
    ensures AllGroupPairs(digests, order[..g]) <= AllGroupPairs(digests, order)
    decreases |order|
  {
    if g < |order| {
      AllGroupPairsPrefix(digests, order[..|order| - 1], g);
      assert order[..|order| - 1][..g] == order[..g];
    } else {
      assert order[..g] == order;
    }
  }

  lemma {:induction false} NoIndexes(digests: seq<Digest>, d: Digest, n: nat)
    requires n <= |digests| && forall k :: 0 <= k < n ==> digests[k] != d
    ensures IndexesOf(digests, d, n) == []
  {
    if n > 0 {
      NoIndexes(digests, d, n - 1);
    }
  }

  /** The first position of a group, if there is one. */
  function StartOf(groups: map<Digest, seq<nat>>, d: Digest): int {
    if d in groups && groups[d] != [] then groups[d][0] else -1
  }

  ghost predicate ByFirst(order: seq<Digest>, groups: map<Digest, seq<nat>>) {
    forall i, j :: 0 <= i < j < |order| ==> 0 <= StartOf(groups, order[i]) < StartOf(groups, order[j])
  }

  /** Every digest met among the first `n`, with all its positions. */
  ghost predicate Collected(digests: seq<Digest>, n: nat, groups: map<Digest, seq<nat>>) {
    && n <= |digests|
    && (forall d :: d in groups ==> groups[d] == IndexesOf(digests, d, n) && 0 <= StartOf(groups, d) < n)
    && (forall k :: 0 <= k < n ==> digests[k] in groups)
  }

  /** The groups collected so far, listed in the order of their first positions. */
  ghost predicate Grouped(digests: seq<Digest>, n: nat, order: seq<Digest>, groups: map<Digest, seq<nat>>) {
    && Collected(digests, n, groups) && Distinct(order)
    && (forall d :: d in order <==> d in groups) && ByFirst(order, groups)
  }

  lemma CollectedNext(digests: seq<Digest>, n: nat, groups: map<Digest, seq<nat>>)
    requires n < |digests| && Collected(digests, n, groups)
    ensures var d := digests[n];
      Collected(digests, n + 1, groups[d := (if d in groups then groups[d] else []) + [n]])
  {
    if digests[n] !in groups {
      NoIndexes(digests, digests[n], n);
    }
  }

  /** One position joins its digest's group, or starts it. */
  method GroupOne(digests: seq<Digest>, n: nat, order: seq<Digest>, groups: map<Digest, seq<nat>>)
    returns (newOrder: seq<Digest>, newGroups: map<Digest, seq<nat>>)
    requires n < |digests| && Grouped(digests, n, order, groups)
    ensures Grouped(digests, n + 1, newOrder, newGroups)
  {
    var d := digests[n];
    newOrder := if d in groups then order else order + [d];
    newGroups := groups[d := (if d in groups then groups[d] else []) + [n]];
    CollectedNext(digests, n, groups);
    StartsKeepOrder(order, groups, newOrder, newGroups, d, n);
  }

  lemma StartsKeepOrder(order: seq<Digest>, groups: map<Digest, seq<nat>>, newOrder: seq<Digest>,
                        newGroups: map<Digest, seq<nat>>, d: Digest, n: nat)
    requires ByFirst(order, groups) && forall x :: x in order <==> x in groups
    requires forall x :: x in groups ==> 0 <= StartOf(groups, x) < n
    requires newGroups == groups[d := (if d in groups then groups[d] else []) + [n]]
    requires newOrder == if d in groups then order else order + [d]
    ensures ByFirst(newOrder, newGroups)
  {
    forall x | x in order
      ensures StartOf(newGroups, x) == StartOf(groups, x) < n
    {
    }
    assert d !in groups ==> StartOf(newGroups, d) == n;
    forall i, j | 0 <= i < j < |newOrder|
      ensures 0 <= StartOf(newGroups, newOrder[i]) < StartOf(newGroups, newOrder[j])
    {
      assert order[i] in order;
      assert j < |order| ==> order[j] in order;
    }
  }

  /** Group every position by its digest, keeping the order in which digests first appear. */
  method GroupByDigest(digests: seq<Digest>) returns (order: seq<Digest>, groups: map<Digest, seq<nat>>)
    ensures forall d :: d in order ==> d in groups && groups[d] == IndexesOf(digests, d, |digests|)
    ensures forall d :: d in order <==> d in digests
    ensures Distinct(order) && ByFirst(order, groups)
  {
    order, groups := [], map[];
    for n := 0 to |digests|
      invariant Grouped(digests, n, order, groups)
    {
      order, groups := GroupOne(digests, n, order, groups);
    }
    forall d | d in order
      ensures d in digests
    {
      IndexesOfSpec(digests, d, |digests|);
      assert groups[d][0] in groups[d];
    }
  }

  /** The map with every pair of equal digests marked. */
  ghost function JoinedOn(edges: EdgeMap, digests: seq<Digest>, evidence: string, exact: bool): EdgeMap {
    MarkAll(edges, AllGroupPairs(digests, digests), evidence, exact)
  }

  lemma {:induction false} JoinedOnSpec(edges: EdgeMap, digests: seq<Digest>, order: seq<Digest>, evidence: string,
                                        exact: bool)
    requires forall d :: d in order <==> d in digests
    ensures MarkAll(edges, AllGroupPairs(digests, order), evidence, exact) == JoinedOn(edges, digests, evidence, exact)
  {
    var a := MarkAll(edges, AllGroupPairs(digests, order), evidence, exact);
    var b := JoinedOn(edges, digests, evidence, exact);
    forall p
      ensures p in a <==> p in b
      ensures p in a ==> a[p] == b[p]
    {
      AllGroupPairsSpec(digests, order, p);
      AllGroupPairsSpec(digests, digests, p);
      MarkAllSpec(edges, AllGroupPairs(digests, order), evidence, exact, p);
      MarkAllSpec(edges, AllGroupPairs(digests, digests), evidence, exact, p);
    }
  }

  lemma GroupStep(edges: EdgeMap, digests: seq<Digest>, order: seq<Digest>, g: nat, evidence: string, exact: bool)
    requires g < |order|
    ensures MarkAll(edges, AllGroupPairs(digests, order[..g + 1]), evidence, exact) ==
            MarkAll(MarkAll(edges, AllGroupPairs(digests, order[..g]), evidence, exact),
                    GroupPairs(IndexesOf(digests, order[g], |digests|)), evidence, exact)
    ensures |MarkAll(edges, AllGroupPairs(digests, order[..g + 1]), evidence, exact)| <=
            |MarkAll(edges, AllGroupPairs(digests, order), evidence, exact)|
  {
    assert order[..g + 1][..g] == order[..g];
    MarkAllAppend(edges, AllGroupPairs(digests, order[..g]), GroupPairs(IndexesOf(digests, order[g], |digests|)),
                  evidence, exact);
    AllGroupPairsPrefix(digests, order, g + 1);
    OverStaysOver(edges, AllGroupPairs(digests, order[..g + 1]), AllGroupPairs(digests, order), evidence, exact);
  }

  /** One pass of the `for indexes in groups.values()` joins. */
  method JoinEqual(edges: EdgeMap, digests: seq<Digest>, evidence: string, exact: bool, cap: nat)
    returns (r: Result<EdgeMap, Failure>)
    requires |edges| <= cap
    ensures var whole := JoinedOn(edges, digests, evidence, exact);
      r == if |whole| > cap then Err(EdgeCap) else Ok(whole)
  {
    var order, groups := GroupByDigest(digests);
    JoinedOnSpec(edges, digests, order, evidence, exact);
    var joined := edges;
    for g := 0 to |order|
      invariant joined == MarkAll(edges, AllGroupPairs(digests, order[..g]), evidence, exact)
      invariant |joined| <= cap
    {
      GroupStep(edges, digests, order, g, evidence, exact);
      var over;
      joined, over := JoinGroup(joined, groups[order[g]], evidence, exact, cap);
      if over {
        return Err(EdgeCap);
      }
    }
    assert order[..|order|] == order;
    r := Ok(joined);
  }

  /** The exact-image join, then the same-source join. */
  method JoinIdentities(near: EdgeMap, entries: seq<Entry>, cap: nat) returns (r: Result<EdgeMap, Failure>)
    requires Hashed(entries) && near == NearEdges(entries) && |near| <= cap
    ensures r == if |AllEdges(entries)| > cap then Err(EdgeCap) else Ok(AllEdges(entries))
  {
    var images := seq(|entries|, i requires 0 <= i < |entries| => entries[i].imageSha);
    var sources := seq(|entries|, i requires 0 <= i < |entries| => entries[i].sourceSha);
    JoinsGiveAllEdges(entries, images, sources);
    r := JoinEqual(near, images, EXACT_IMAGE, true, cap);
    if r.Ok? {
      r := JoinEqual(r.value, sources, SOURCE, false, cap);
    }
  }

  lemma MarksGiveInfo(a: Entry, b: Entry)
    requires HasEdge(a, b)
    ensures var near := if Near(a, b) then NearInfo(Spread(a, b)) else BLANK;
      var image := if a.imageSha == b.imageSha then Mark(near, EXACT_IMAGE, true) else near;
      (if a.sourceSha == b.sourceSha then Mark(image, SOURCE, false) else image) == InfoOf(a, b)
  {
  }

  ghost predicate DigestsOf(entries: seq<Entry>, images: seq<Digest>, sources: seq<Digest>) {
    |images| == |entries| && |sources| == |entries| &&
    forall i :: 0 <= i < |entries| ==> images[i] == entries[i].imageSha && sources[i] == entries[i].sourceSha
  }

  lemma JoinsGiveAllEdges(entries: seq<Entry>, images: seq<Digest>, sources: seq<Digest>)
    requires Hashed(entries) && DigestsOf(entries, images, sources)
    ensures var withImages := JoinedOn(NearEdges(entries), images, EXACT_IMAGE, true);
      JoinedOn(withImages, sources, SOURCE, false) == AllEdges(entries) &&
      |withImages| <= |AllEdges(entries)|
  {
    var near := NearEdges(entries);
    var withImages := JoinedOn(near, images, EXACT_IMAGE, true);
    var all := JoinedOn(withImages, sources, SOURCE, false);
    OverStaysOver(withImages, [], AllGroupPairs(sources, sources), SOURCE, false);
    forall p: Pos
      ensures p in all <==> p.0 < p.1 < |entries| && HasEdge(entries[p.0], entries[p.1])
      ensures p in all ==> all[p] == InfoOf(entries[p.0], entries[p.1])
    {
      JoinAt(entries, images, sources, near, withImages, p);
    }
    EdgeMapIs(entries, all);
  }

  lemma EdgeMapIs(entries: seq<Entry>, all: EdgeMap)
    requires forall p: Pos :: p in all <==> p.0 < p.1 < |entries| && HasEdge(entries[p.0], entries[p.1])
    requires forall p: Pos :: p in all ==> all[p] == InfoOf(entries[p.0], entries[p.1])
    ensures all == AllEdges(entries)
  {
  }

  lemma JoinAt(entries: seq<Entry>, images: seq<Digest>, sources: seq<Digest>, near: EdgeMap, withImages: EdgeMap,
               p: Pos)
    requires DigestsOf(entries, images, sources)
    requires Hashed(entries) && near == NearEdges(entries)
    requires withImages == JoinedOn(near, images, EXACT_IMAGE, true)
    ensures var all := JoinedOn(withImages, sources, SOURCE, false);
      && (p in all <==> p.0 < p.1 < |entries| && HasEdge(entries[p.0], entries[p.1]))
      && (p in all ==> all[p] == InfoOf(entries[p.0], entries[p.1]))
  {
    AllGroupPairsSpec(images, images, p);
    AllGroupPairsSpec(sources, sources, p);
    MarkAllSpec(near, AllGroupPairs(images, images), EXACT_IMAGE, true, p);
    MarkAllSpec(withImages, AllGroupPairs(sources, sources), SOURCE, false, p);
    NearAt(entries, p);
    if p.0 < p.1 < |entries| {
      var a, b := entries[p.0], entries[p.1];
      assert images[p.0] in images && sources[p.0] in sources;
      if HasEdge(a, b) {
        MarksGiveInfo(a, b);
      }
    }
  }
}
