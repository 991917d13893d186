/** The auditor's and the authority builder's edge construction, each proved against one definition. */
module GraphBuilders {
  import opened EdgeMaps
  import opened Graph
  import opened NearPairs
  import opened Order
  import opened PerceptualHash
  import opened Wrappers

  /** Every recorded prefix of the search is bounded by the whole graph. */
  lemma {:induction false} NearBounded(entries: seq<Entry>, pairs: seq<Pair>)
    requires Hashed(entries)
    requires pairs <= BrutePairs(Signatures(entries), PHASH_DISTANCE, |entries|)
    ensures |RecordAll(pairs)| == |pairs| <= |AllEdges(entries)|
  {
    var all := BrutePairs(Signatures(entries), PHASH_DISTANCE, |entries|);
    BrutePairsSpec(Signatures(entries), PHASH_DISTANCE, |entries|);
    DistinctPairsCount(pairs);
    forall k: Pos | k in RecordAll(pairs).Keys
      ensures k in AllEdges(entries).Keys
    {
      RecordAllSpec(pairs, k);
      var p :| p in pairs && k == (p.left, p.right);
      assert p in all;
      RecordAllSpec(all, k);
      NearAt(entries, k);
    }
    FewerKeys(RecordAll(pairs), AllEdges(entries));
  }

  lemma {:induction false} DistinctPairsCount(pairs: seq<Pair>)
    requires forall i, j :: 0 <= i < j < |pairs| ==> Before(pairs[i], pairs[j])
    ensures |RecordAll(pairs)| == |pairs|
  {
    if pairs != [] {
      var init, last := pairs[..|pairs| - 1], pairs[|pairs| - 1];
      DistinctPairsCount(init);
      RecordAllSpec(init, (last.left, last.right));
      assert RecordAll(pairs).Keys == RecordAll(init).Keys + {(last.left, last.right)};
    }
  }

  lemma {:induction false} BrutePairsPrefix(sigs: seq<seq<int>>, t: nat, row: nat, upTo: nat, rows: nat)
    requires upTo <= row < rows && ValidUpTo(sigs, rows)
    ensures BrutePairs(sigs, t, row) + BruteRow(sigs, t, row, upTo) <= BrutePairs(sigs, t, rows)
    decreases rows - row, row - upTo
  {
    if upTo < row {
      BrutePairsPrefix(sigs, t, row, upTo + 1, rows);
      BruteRowStep(sigs, t, row, upTo, BrutePairs(sigs, t, row));
    } else if row + 1 < rows {
      BrutePairsPrefix(sigs, t, row + 1, 0, rows);
    }
  }

  // ---- auditor: pairs first, edge map second ----

  method AuditorEdges(entries: seq<Entry>, cap: nat) returns (r: Result<EdgeMap, Failure>)
    requires Hashed(entries)
    ensures r == if |AllEdges(entries)| > cap then Err(EdgeCap) else Ok(AllEdges(entries))
  {
    var sigs: seq<seq<int>> := seq(|entries|, i requires 0 <= i < |entries| => entries[i].phash);
    assert sigs == Signatures(entries);
    var found := Search(sigs, PHASH_DISTANCE, cap);
    if found.Err? {
      StoppedOverCap(entries, cap, found.error);
      return Err(EdgeCap);
    }
    NearBounded(entries, found.value);
    var edges := RecordPairs(found.value);
    r := JoinIdentities(edges, entries, cap);
  }

  /** One perceptual edge for every pair found. */
  method RecordPairs(pairs: seq<Pair>) returns (edges: EdgeMap)
    ensures edges == RecordAll(pairs)
  {
    edges := map[];
    for k := 0 to |pairs|
      invariant edges == RecordAll(pairs[..k])
    {
      assert pairs[..k + 1][..k] == pairs[..k];
      edges := edges[(pairs[k].left, pairs[k].right) := NearInfo(pairs[k].distance)];
    }
    assert pairs[..|pairs|] == pairs;
  }

  lemma StoppedOverCap(entries: seq<Entry>, cap: nat, why: Failure)
    requires Hashed(entries)
    requires exists row: nat :: StopsAt(Signatures(entries), PHASH_DISTANCE, cap, row, why)
    ensures |AllEdges(entries)| > cap
  {
    var sigs := Signatures(entries);
    var row: nat :| StopsAt(sigs, PHASH_DISTANCE, cap, row, why);
    BrutePairsPrefix(sigs, PHASH_DISTANCE, row, row, |entries|);
    NearBounded(entries, BrutePairs(sigs, PHASH_DISTANCE, row + 1));
  }

  // ---- authority builder: straight into the edge map ----

  /** The edge map in the middle of row `right`, everything left of `upTo` scanned. */
  ghost function RowEdges(entries: seq<Entry>, right: nat, upTo: nat): EdgeMap
    requires Hashed(entries) && upTo <= right < |entries|
  {
    var sigs := Signatures(entries);
    RecordAll(BrutePairs(sigs, PHASH_DISTANCE, right) + BruteRow(sigs, PHASH_DISTANCE, right, upTo))
  }

  /** Column by column, row `right` adds an edge exactly where the two entries are near. */
  ghost predicate RowSteps(entries: seq<Entry>, right: nat, rows: seq<EdgeMap>) {
    right < |entries| && |rows| == right + 1 &&
    forall d :: 0 <= d < right ==>
      rows[d + 1] == if Within(entries[d], entries[right])
                     then rows[d][(d, right) := NearInfo(Spread(entries[d], entries[right]))]
                     else rows[d]
  }

  lemma RowEdgesStep(entries: seq<Entry>, right: nat, left: nat)
    requires Hashed(entries) && left < right < |entries|
    ensures RowEdges(entries, right, left + 1) ==
            if Within(entries[left], entries[right])
            then RowEdges(entries, right, left)[(left, right) := NearInfo(Spread(entries[left], entries[right]))]
            else RowEdges(entries, right, left)
  {
    var sigs := Signatures(entries);
    var soFar := BrutePairs(sigs, PHASH_DISTANCE, right);
    var next := soFar + BruteRow(sigs, PHASH_DISTANCE, right, left + 1);
    BruteRowStep(sigs, PHASH_DISTANCE, right, left, soFar);
    var before := soFar + BruteRow(sigs, PHASH_DISTANCE, right, left);
    assert Gap(sigs, left, right) == Spread(entries[left], entries[right]);
    if Within(entries[left], entries[right]) {
      assert next[..|next| - 1] == before;
    } else {
      assert next == before;
    }
  }

  ghost function RowHistory(entries: seq<Entry>, right: nat): (rows: seq<EdgeMap>)
    requires Hashed(entries) && right < |entries|
    ensures |rows| == right + 1
  {
    seq(right + 1, d requires 0 <= d <= right => RowEdges(entries, right, d))
  }

  lemma RowHistorySteps(entries: seq<Entry>, right: nat)
    requires Hashed(entries) && right < |entries|
    ensures RowSteps(entries, right, RowHistory(entries, right))
  {
    forall d: nat | d < right
      ensures var rows := RowHistory(entries, right);
        rows[d + 1] == if Within(entries[d], entries[right])
                       then rows[d][(d, right) := NearInfo(Spread(entries[d], entries[right]))]
                       else rows[d]
    {
      RowEdgesStep(entries, right, d);
    }
  }

  lemma RowHistoryEnds(entries: seq<Entry>, right: nat)
    requires Hashed(entries) && right < |entries|
    ensures RowHistory(entries, right)[0] == RecordAll(BrutePairs(Signatures(entries), PHASH_DISTANCE, right))
    ensures RowHistory(entries, right)[right] == RecordAll(BrutePairs(Signatures(entries), PHASH_DISTANCE, right + 1))
  {
    var soFar := BrutePairs(Signatures(entries), PHASH_DISTANCE, right);
    assert soFar + [] == soFar;
  }

  lemma RowBounded(entries: seq<Entry>, right: nat, upTo: nat)
    requires Hashed(entries) && upTo <= right < |entries|
    ensures |RowEdges(entries, right, upTo)| <= |AllEdges(entries)|
  {
    var sigs := Signatures(entries);
    BrutePairsPrefix(sigs, PHASH_DISTANCE, right, upTo, |entries|);
    NearBounded(entries, BrutePairs(sigs, PHASH_DISTANCE, right) + BruteRow(sigs, PHASH_DISTANCE, right, upTo));
  }

  lemma {:induction false} FarStepsKeepEdges(entries: seq<Entry>, right: nat, rows: seq<EdgeMap>, from: nat, upTo: nat)
    requires RowSteps(entries, right, rows) && from <= upTo <= right
    requires forall d :: from <= d < upTo ==> !Within(entries[d], entries[right])
    ensures rows[upTo] == rows[from]
    decreases upTo - from
  {
    if from < upTo {
      FarStepsKeepEdges(entries, right, rows, from + 1, upTo);
    }
  }

  ghost predicate CoversRow(entries: seq<Entry>, right: nat, candidates: set<nat>)
    requires right < |entries|
  {
    && (forall d :: d in candidates ==> d < right)
    && (forall d :: 0 <= d < right && Within(entries[d], entries[right]) ==> d in candidates)
  }

  lemma WalkTo(entries: seq<Entry>, right: nat, rows: seq<EdgeMap>, candidates: set<nat>, ordered: seq<nat>, k: nat)
    requires RowSteps(entries, right, rows) && CoversRow(entries, right, candidates)
    requires Lists(ordered, candidates, right) && k <= |ordered|
    ensures Reached(ordered, k) <= NextStop(ordered, k, right) <= right
    ensures rows[Reached(ordered, k)] == rows[NextStop(ordered, k, right)]
  {
    NothingBetween(ordered, candidates, right, k);
    FarStepsKeepEdges(entries, right, rows, Reached(ordered, k), NextStop(ordered, k, right));
  }

  /** Measure one candidate and record the edge if it is within the radius. */
  method RederiveCandidate(entries: seq<Entry>, candidates: set<nat>, ordered: seq<nat>, right: nat, k: nat,
                           unique: seq<nat>, edges: EdgeMap, ghost rows: seq<EdgeMap>)
    returns (next: EdgeMap)
    requires Hashed(entries) && RowSteps(entries, right, rows) && CoversRow(entries, right, candidates)
    requires Lists(ordered, candidates, right) && k < |ordered|
    requires SameHashes(unique, entries[right].phash)
    requires Reached(ordered, k) <= right && edges == rows[Reached(ordered, k)]
    ensures Reached(ordered, k + 1) <= right && next == rows[Reached(ordered, k + 1)]
  {
    WalkTo(entries, right, rows, candidates, ordered, k);
    var left := ordered[k];
    var distance := Measure(entries[left].phash, unique, entries[right].phash);
    next := if distance <= PHASH_DISTANCE then edges[(left, right) := NearInfo(distance)] else edges;
  }

  /** One row of the re-derivation: candidates, ascending, straight into the edge map. */
  method RederiveRow(entries: seq<Entry>, candidates: set<nat>, right: nat, unique: seq<nat>, start: EdgeMap, cap: nat,
                     ghost rows: seq<EdgeMap>)
    returns (edges: EdgeMap, over: bool, ghost reached: nat)
    requires Hashed(entries) && RowSteps(entries, right, rows) && CoversRow(entries, right, candidates)
    requires SameHashes(unique, entries[right].phash)
    requires start == rows[0] && |start| <= cap
    ensures reached <= right && edges == rows[reached] && (over <==> |edges| > cap)
    ensures !over ==> edges == rows[right]
  {
    edges, over, reached := start, false, 0;
    var ordered := SortedNats(candidates);
    ListedBelow(candidates, right, ordered);
    for k := 0 to |ordered|
      invariant reached == Reached(ordered, k) <= right
      invariant edges == rows[reached] && |edges| <= cap && !over
    {
      edges := RederiveCandidate(entries, candidates, ordered, right, k, unique, edges, rows);
      reached := Reached(ordered, k + 1);
      over := |edges| > cap;
      if over {
        return;
      }
    }
    WalkTo(entries, right, rows, candidates, ordered, |ordered|);
  }

  /** The first `rows` rows are recorded and posted, within the cap. */
  ghost predicate RowsDone(entries: seq<Entry>, rows: nat, edges: EdgeMap, buckets: Buckets, cap: nat)
    requires Hashed(entries)
  {
    && rows <= |entries| && |edges| <= cap
    && BucketsOf(buckets, Signatures(entries), PHASH_DISTANCE, rows)
    && edges == RecordAll(BrutePairs(Signatures(entries), PHASH_DISTANCE, rows))
  }

  /** One row: look the candidates up, scan them, then post the row's own keys. */
  method RederiveNext(entries: seq<Entry>, buckets: Buckets, right: nat, start: EdgeMap, cap: nat)
    returns (edges: EdgeMap, posted: Buckets, over: bool)
    requires Hashed(entries) && right < |entries| && RowsDone(entries, right, start, buckets, cap)
    ensures over ==> exists d: nat :: d <= right && |RowEdges(entries, right, d)| > cap
    ensures !over ==> RowsDone(entries, right + 1, edges, posted, cap)
  {
    ghost var sigs := Signatures(entries);
    var unique := UniqueHashes(entries[right].phash);
    var candidates := CollectCandidates(buckets, unique, PHASH_DISTANCE);
    assert CoversRow(entries, right, candidates) by {
      CandidatesAreComplete(candidates, buckets, sigs, PHASH_DISTANCE, right, unique);
      assert forall d :: 0 <= d < right ==> Gap(sigs, d, right) == Spread(entries[d], entries[right]);
    }
    ghost var rows := RowHistory(entries, right);
    RowHistorySteps(entries, right);
    RowHistoryEnds(entries, right);
    ghost var reached;
    edges, over, reached := RederiveRow(entries, candidates, right, unique, start, cap, rows);
    posted := buckets;
    if over {
      assert rows[reached] == RowEdges(entries, right, reached);
    } else {
      posted := PostKeys(buckets, unique, PHASH_DISTANCE, right);
      assert forall key :: key in KeySet(unique, PHASH_DISTANCE) <==> key in KeySet(sigs[right], PHASH_DISTANCE);
    }
  }

  lemma OverRow(entries: seq<Entry>, right: nat, cap: nat)
    requires Hashed(entries) && right < |entries|
    requires exists d: nat :: d <= right && |RowEdges(entries, right, d)| > cap
    ensures |AllEdges(entries)| > cap
  {
    var d: nat :| d <= right && |RowEdges(entries, right, d)| > cap;
    RowBounded(entries, right, d);
  }

  method RederiveEdges(entries: seq<Entry>, cap: nat) returns (r: Result<EdgeMap, Failure>)
    requires Hashed(entries)
    ensures r == if |AllEdges(entries)| > cap then Err(EdgeCap) else Ok(AllEdges(entries))
  {
    var edges: EdgeMap := map[];
    var buckets: Buckets := map[];
    for right := 0 to |entries|
      invariant RowsDone(entries, right, edges, buckets, cap)
    {
      var over;
      edges, buckets, over := RederiveNext(entries, buckets, right, edges, cap);
      if over {
        OverRow(entries, right, cap);
        return Err(EdgeCap);
      }
    }
    r := JoinIdentities(edges, entries, cap);
  }
}
