/** The pigeonhole bucket search shared by the auditor and the authority builder. */
module NearPairs {
  import opened Order
  import opened PerceptualHash
  import opened Wrappers

  datatype Failure =
    | BadThreshold
    | BadSignature
    | EdgeCap

  type Buckets = map<Key, set<nat>>

  predicate ValidSignature(s: seq<int>) {
    |s| > 0 && forall k :: 0 <= k < |s| ==> IsHash(s[k])
  }

  ghost function KeySet(hashes: seq<nat>, t: nat): set<Key> {
    set v, key | v in hashes && key in Keys(v, t) :: key
  }

  ghost predicate Holds(buckets: Buckets, key: Key, j: nat) {
    key in buckets && j in buckets[key]
  }

  method CollectCandidates(buckets: Buckets, hashes: seq<nat>, t: nat) returns (candidates: set<nat>)
    requires t <= MAX_THRESHOLD
    ensures forall j :: j in candidates <==> exists key :: key in KeySet(hashes, t) && Holds(buckets, key, j)
  {
    candidates := {};
    for n := 0 to |hashes|
      invariant forall j :: j in candidates <==> exists key :: key in KeySet(hashes[..n], t) && Holds(buckets, key, j)
    {
      var keys := BucketKeys(hashes[n], t);
      ghost var seen := KeySet(hashes[..n], t);
      for k := 0 to |keys|
        invariant forall j :: j in candidates <==>
          exists key :: (key in seen || key in keys[..k]) && Holds(buckets, key, j)
      {
        var found := if keys[k] in buckets then buckets[keys[k]] else {};
        assert forall j: nat :: j in found <==> Holds(buckets, keys[k], j);
        candidates := candidates + found;
        assert forall key :: key in keys[..k + 1] <==> key in keys[..k] || key == keys[k];
      }
      KeySetGrows(hashes, n, t);
      assert keys[..|keys|] == keys;
    }
    assert hashes[..|hashes|] == hashes;
  }

  lemma KeySetGrows(hashes: seq<nat>, n: nat, t: nat)
    requires n < |hashes|
    ensures forall key :: key in KeySet(hashes[..n + 1], t) <==>
      key in KeySet(hashes[..n], t) || key in Keys(hashes[n], t)
  {
    assert hashes[..n + 1] == hashes[..n] + [hashes[n]];
  }

  method PostKeys(buckets: Buckets, hashes: seq<nat>, t: nat, current: nat) returns (posted: Buckets)
    requires t <= MAX_THRESHOLD
    ensures forall key, j :: Holds(posted, key, j) <==>
      Holds(buckets, key, j) || (j == current && key in KeySet(hashes, t))
  {
    posted := buckets;
    for n := 0 to |hashes|
      invariant forall key, j :: Holds(posted, key, j) <==>
        Holds(buckets, key, j) || (j == current && key in KeySet(hashes[..n], t))
    {
      var keys := BucketKeys(hashes[n], t);
      ghost var seen := KeySet(hashes[..n], t);
      for k := 0 to |keys|
        invariant forall key, j :: Holds(posted, key, j) <==>
          Holds(buckets, key, j) || (j == current && (key in seen || key in keys[..k]))
      {
        var members := (if keys[k] in posted then posted[keys[k]] else {}) + {current};
        ghost var before := posted;
        posted := posted[keys[k] := members];
        assert forall key, j: nat :: Holds(posted, key, j) <==>
          Holds(before, key, j) || (key == keys[k] && j == current);
        assert forall key :: key in keys[..k + 1] <==> key in keys[..k] || key == keys[k];
      }
      KeySetGrows(hashes, n, t);
      assert keys[..|keys|] == keys;
    }
    assert hashes[..|hashes|] == hashes;
  }

  /** A candidate list is complete: anything within the radius of `right` shares a bucket with it. */
  lemma {:induction false} NearSharesKey(left: seq<nat>, right: seq<nat>, t: nat)
    requires |left| > 0 && |right| > 0
    requires SignatureDistance(left, right) <= t
    ensures exists key :: key in KeySet(left, t) && key in KeySet(right, t)
  {
    SignatureDistanceIsLeast(left, right);
    var a, b :| a in left && b in right && BitDistance(a, b) == SignatureDistance(left, right);
    var key := PigeonholeKey(a, b, t);
    assert key in KeySet(left, t) && key in KeySet(right, t);
  }

  /** `tuple(sorted(set(signature)))` */
  function UniqueHashes(s: seq<nat>): (u: seq<nat>)
    ensures forall v :: v in u <==> v in s
    ensures |s| > 0 ==> |u| > 0
  {
    var u := SortedNats(set v | v in s);
    assert |s| > 0 ==> s[0] in u;
    u
  }

  datatype Pair = Pair(left: nat, right: nat, distance: nat)

  ghost predicate ValidUpTo(sigs: seq<seq<int>>, n: nat) {
    n <= |sigs| && forall i :: 0 <= i < n ==> ValidSignature(sigs[i])
  }

  ghost function Gap(sigs: seq<seq<int>>, i: nat, j: nat): nat
    requires i < |sigs| && j < |sigs| && ValidSignature(sigs[i]) && ValidSignature(sigs[j])
  {
    SignatureDistance(sigs[i], sigs[j])
  }

  /** The quadratic scan the buckets replace: one row, then all rows. */
  ghost function BruteRow(sigs: seq<seq<int>>, t: nat, right: nat, upTo: nat): seq<Pair>
    requires upTo <= right && ValidUpTo(sigs, right + 1)
  {
    if upTo == 0 then []
    else
      var d := Gap(sigs, upTo - 1, right);
      BruteRow(sigs, t, right, upTo - 1) + if d <= t then [Pair(upTo - 1, right, d)] else []
  }

  ghost function BrutePairs(sigs: seq<seq<int>>, t: nat, rows: nat): seq<Pair>
    requires ValidUpTo(sigs, rows)
  {
    if rows == 0 then []
    else BrutePairs(sigs, t, rows - 1) + BruteRow(sigs, t, rows - 1, rows - 1)
  }

  lemma {:induction false} BruteRowSkips(sigs: seq<seq<int>>, t: nat, right: nat, from: nat, upTo: nat)
    requires from <= upTo <= right && ValidUpTo(sigs, right + 1)
    requires forall k :: from <= k < upTo ==> Gap(sigs, k, right) > t
    ensures BruteRow(sigs, t, right, upTo) == BruteRow(sigs, t, right, from)
  {
    if from < upTo {
      BruteRowSkips(sigs, t, right, from, upTo - 1);
    }
  }

  lemma BruteRowStep(sigs: seq<seq<int>>, t: nat, right: nat, left: nat, soFar: seq<Pair>)
    requires left < right && ValidUpTo(sigs, right + 1)
    ensures soFar + BruteRow(sigs, t, right, left + 1) ==
            (soFar + BruteRow(sigs, t, right, left)) +
            if Gap(sigs, left, right) <= t then [Pair(left, right, Gap(sigs, left, right))] else []
  {
  }

  lemma {:induction false} BruteRowGrows(sigs: seq<seq<int>>, t: nat, right: nat, from: nat, upTo: nat)
    requires from <= upTo <= right && ValidUpTo(sigs, right + 1)
    ensures |BruteRow(sigs, t, right, from)| <= |BruteRow(sigs, t, right, upTo)|
  {
    if from < upTo {
      BruteRowGrows(sigs, t, right, from, upTo - 1);
    }
  }

  /** The buckets after `n` signatures were posted. */
  ghost predicate BucketsOf(buckets: Buckets, sigs: seq<seq<int>>, t: nat, n: nat)
    requires ValidUpTo(sigs, n)
  {
    forall key, j: nat :: Holds(buckets, key, j) <==> j < n && key in KeySet(sigs[j], t)
  }

  predicate OverCap(count: nat, cap: int) {
    count > 0 && count > cap
  }

  /** Why a search stops: the first row that is malformed or pushes the pair count over the cap. */
  ghost predicate StopsAt(sigs: seq<seq<int>>, t: int, cap: int, row: nat, why: Failure) {
    row < |sigs| && ValidUpTo(sigs, row) &&
    if !(0 <= t <= MAX_THRESHOLD) then
      row == 0 && why == if ValidSignature(sigs[0]) then BadThreshold else BadSignature
    else
      && !OverCap(|BrutePairs(sigs, t, row)|, cap)
      && if !ValidSignature(sigs[row]) then why == BadSignature
         else why == EdgeCap && OverCap(|BrutePairs(sigs, t, row + 1)|, cap)
  }

  ghost predicate Complete(candidates: set<nat>, sigs: seq<seq<int>>, t: nat, current: nat)
    requires ValidUpTo(sigs, current + 1)
  {
    && (forall j :: j in candidates ==> j < current)
    && (forall j :: 0 <= j < current && Gap(sigs, j, current) <= t ==> j in candidates)
  }

  lemma CandidatesAreComplete(candidates: set<nat>, buckets: Buckets, sigs: seq<seq<int>>, t: nat, current: nat,
                              unique: seq<nat>)
    requires ValidUpTo(sigs, current + 1) && BucketsOf(buckets, sigs, t, current)
    requires |unique| > 0 && forall v :: v in unique <==> v in sigs[current]
    requires forall j :: j in candidates <==> exists key :: key in KeySet(unique, t) && Holds(buckets, key, j)
    ensures Complete(candidates, sigs, t, current)
  {
    forall j | 0 <= j < current && Gap(sigs, j, current) <= t
      ensures j in candidates
    {
      DistanceOfSets(sigs[j], sigs[j], sigs[current], unique);
      NearSharesKey(sigs[j], unique, t);
      var key :| key in KeySet(sigs[j], t) && key in KeySet(unique, t);
      assert Holds(buckets, key, j);
    }
  }

  ghost predicate SameHashes(unique: seq<nat>, hashes: seq<nat>) {
    |unique| > 0 && |hashes| > 0 && forall v :: v in unique <==> v in hashes
  }

  /** Measuring against the deduplicated hashes measures against the signature. */
  function Measure(left: seq<nat>, unique: seq<nat>, ghost right: seq<nat>): (d: nat)
    requires |left| > 0 && SameHashes(unique, right)
    ensures d == SignatureDistance(left, right)
  {
    DistanceOfSets(left, left, unique, right);
    SignatureDistance(left, unique)
  }

  /** `ordered` is the candidate set below `right`, ascending. */
  ghost predicate Lists(ordered: seq<nat>, candidates: set<nat>, right: nat) {
    && (forall i, j :: 0 <= i < j < |ordered| ==> ordered[i] < ordered[j])
    && (forall i :: 0 <= i < |ordered| ==> ordered[i] < right)
    && (forall x :: x in candidates ==> x in ordered)
  }

  /** Everything below this has been scanned once `k` candidates have. */
  ghost function Reached(ordered: seq<nat>, k: nat): nat
    requires k <= |ordered|
  {
    if k == 0 then 0 else ordered[k - 1] + 1
  }

  /** The next candidate, or the end of the row. */
  ghost function NextStop(ordered: seq<nat>, k: nat, right: nat): nat
    requires k <= |ordered|
  {
    if k < |ordered| then ordered[k] else right
  }

  lemma ListedBelow(candidates: set<nat>, right: nat, ordered: seq<nat>)
    requires ordered == SortedNats(candidates) && forall x :: x in candidates ==> x < right
    ensures Lists(ordered, candidates, right)
  {
    forall i | 0 <= i < |ordered|
      ensures ordered[i] < right
    {
      assert ordered[i] in ordered;
    }
  }

  /** Nothing strictly between two stops is a candidate. */
  lemma NothingBetween(ordered: seq<nat>, candidates: set<nat>, right: nat, k: nat)
    requires Lists(ordered, candidates, right) && k <= |ordered|
    ensures Reached(ordered, k) <= NextStop(ordered, k, right) <= right
    ensures forall j :: Reached(ordered, k) <= j < NextStop(ordered, k, right) ==> j !in candidates
  {
    forall j | Reached(ordered, k) <= j < NextStop(ordered, k, right)
      ensures j !in ordered
    {
      forall i | 0 <= i < |ordered|
        ensures ordered[i] != j
      {
        assert i < k - 1 ==> ordered[i] < ordered[k - 1];
        assert i > k ==> ordered[i] > ordered[k];
      }
    }
  }

  ghost function RowSoFar(sigs: seq<seq<int>>, t: nat, current: nat, done: nat, soFar: seq<Pair>): seq<Pair>
    requires ValidUpTo(sigs, current + 1) && done <= current
  {
    soFar + BruteRow(sigs, t, current, done)
  }

  lemma ScanTo(candidates: set<nat>, ordered: seq<nat>, sigs: seq<seq<int>>, t: nat, current: nat, k: nat,
               soFar: seq<Pair>)
    requires ValidUpTo(sigs, current + 1) && Complete(candidates, sigs, t, current)
    requires Lists(ordered, candidates, current) && k <= |ordered|
    ensures Reached(ordered, k) <= NextStop(ordered, k, current) <= current
    ensures RowSoFar(sigs, t, current, Reached(ordered, k), soFar) ==
            RowSoFar(sigs, t, current, NextStop(ordered, k, current), soFar)
  {
    NothingBetween(ordered, candidates, current, k);
    BruteRowSkips(sigs, t, current, Reached(ordered, k), NextStop(ordered, k, current));
  }

  /** Measure one candidate and append the pair if it is within the radius. */
  method ScanCandidate(candidates: set<nat>, ordered: seq<nat>, sigs: seq<seq<int>>, t: nat, current: nat, k: nat,
                       unique: seq<nat>, pairs: seq<Pair>, ghost soFar: seq<Pair>)
    returns (next: seq<Pair>)
    requires ValidUpTo(sigs, current + 1) && Complete(candidates, sigs, t, current)
    requires Lists(ordered, candidates, current) && k < |ordered|
    requires SameHashes(unique, sigs[current])
    requires Reached(ordered, k) <= current && pairs == RowSoFar(sigs, t, current, Reached(ordered, k), soFar)
    ensures Reached(ordered, k + 1) <= current
    ensures next == RowSoFar(sigs, t, current, Reached(ordered, k + 1), soFar)
  {
    ScanTo(candidates, ordered, sigs, t, current, k, soFar);
    BruteRowStep(sigs, t, current, ordered[k], soFar);
    var distance := Measure(sigs[ordered[k]], unique, sigs[current]);
    next := if distance <= t then pairs + [Pair(ordered[k], current, distance)] else pairs;
  }

  /** Walk the candidates in ascending order, measure each, and stop over the cap. */
  method ScanRow(candidates: set<nat>, sigs: seq<seq<int>>, t: nat, cap: int, current: nat, unique: seq<nat>,
                 soFar: seq<Pair>)
    returns (pairs: seq<Pair>, over: bool)
    requires ValidUpTo(sigs, current + 1) && Complete(candidates, sigs, t, current)
    requires SameHashes(unique, sigs[current])
    requires !OverCap(|soFar|, cap)
    ensures over <==> OverCap(|RowSoFar(sigs, t, current, current, soFar)|, cap)
    ensures !over ==> pairs == RowSoFar(sigs, t, current, current, soFar)
  {
    pairs, over := soFar, false;
    var ordered := SortedNats(candidates);
    ListedBelow(candidates, current, ordered);
    for k := 0 to |ordered|
      invariant Reached(ordered, k) <= current
      invariant pairs == RowSoFar(sigs, t, current, Reached(ordered, k), soFar)
      invariant !over && !OverCap(|pairs|, cap)
    {
      pairs := ScanCandidate(candidates, ordered, sigs, t, current, k, unique, pairs, soFar);
      over := OverCap(|pairs|, cap);
      if over {
        BruteRowGrows(sigs, t, current, Reached(ordered, k + 1), current);
        return;
      }
    }
    ScanTo(candidates, ordered, sigs, t, current, |ordered|, soFar);
  }

  /** Where the search stands before row `current`. */
  ghost predicate Searched(sigs: seq<seq<int>>, threshold: int, maxPairs: int, current: nat, buckets: Buckets,
                           pairs: seq<Pair>)
  {
    && current <= |sigs| && ValidUpTo(sigs, current) && !OverCap(|pairs|, maxPairs)
    && if current == 0 then buckets == map[] && pairs == []
       else
         && 0 <= threshold <= MAX_THRESHOLD && BucketsOf(buckets, sigs, threshold, current)
         && pairs == BrutePairs(sigs, threshold, current)
  }

  /** The loop body: one row against the rows before it. */
  method SearchRow(sigs: seq<seq<int>>, threshold: int, maxPairs: int, current: nat, buckets: Buckets, pairs: seq<Pair>)
    returns (posted: Buckets, r: Result<seq<Pair>, Failure>)
    requires current < |sigs| && Searched(sigs, threshold, maxPairs, current, buckets, pairs)
    ensures r.Ok? ==> Searched(sigs, threshold, maxPairs, current + 1, posted, r.value)
    ensures r.Err? ==> StopsAt(sigs, threshold, maxPairs, current, r.error)
  {
    posted := buckets;
    if !ValidSignature(sigs[current]) {
      return posted, Err(BadSignature);
    }
    if !(0 <= threshold <= MAX_THRESHOLD) {
      return posted, Err(BadThreshold);
    }
    var unique := UniqueHashes(sigs[current]);
    var candidates := CollectCandidates(buckets, unique, threshold);
    CandidatesAreComplete(candidates, buckets, sigs, threshold, current, unique);
    var more, over := ScanRow(candidates, sigs, threshold, maxPairs, current, unique, pairs);
    assert pairs + BruteRow(sigs, threshold, current, current) == BrutePairs(sigs, threshold, current + 1);
    if over {
      return posted, Err(EdgeCap);
    }
    posted := PostKeys(buckets, unique, threshold, current);
    assert forall key :: key in KeySet(unique, threshold) <==> key in KeySet(sigs[current], threshold);
    r := Ok(more);
  }

  /** `_near_pairs_from_signatures`. */
  method Search(sigs: seq<seq<int>>, threshold: int, maxPairs: int) returns (r: Result<seq<Pair>, Failure>)
    ensures r.Ok? ==> ValidUpTo(sigs, |sigs|) && (sigs == [] || 0 <= threshold <= MAX_THRESHOLD)
    ensures r.Ok? ==> r.value == if sigs == [] then [] else BrutePairs(sigs, threshold, |sigs|)
    ensures r.Ok? ==> !OverCap(|r.value|, maxPairs)
    ensures r.Ok? && sigs != [] ==> forall p :: p in r.value <==> IsPairWithin(sigs, threshold, p)
    ensures r.Err? ==> exists row :: StopsAt(sigs, threshold, maxPairs, row, r.error)
  {
    var buckets: Buckets := map[];
    var pairs: seq<Pair> := [];
    for current := 0 to |sigs|
      invariant Searched(sigs, threshold, maxPairs, current, buckets, pairs)
    {
      var row;
      buckets, row := SearchRow(sigs, threshold, maxPairs, current, buckets, pairs);
      if row.Err? {
        return row;
      }
      pairs := row.value;
    }
    if sigs != [] {
      BrutePairsAreWithin(sigs, threshold, |sigs|);
    }
    r := Ok(pairs);
  }

  /** The brute-force listing holds each close pair once, with its distance, in (right, left) order. */
  lemma {:induction false} BruteRowSpec(sigs: seq<seq<int>>, t: nat, right: nat, upTo: nat)
    requires upTo <= right && ValidUpTo(sigs, right + 1)
    ensures forall p :: p in BruteRow(sigs, t, right, upTo) <==>
      p.right == right && p.left < upTo && p.distance == Gap(sigs, p.left, right) <= t
    ensures forall i, j :: 0 <= i < j < |BruteRow(sigs, t, right, upTo)| ==>
      BruteRow(sigs, t, right, upTo)[i].left < BruteRow(sigs, t, right, upTo)[j].left
  {
    if upTo > 0 {
      BruteRowSpec(sigs, t, right, upTo - 1);
    }
  }

  predicate Before(p: Pair, q: Pair) {
    p.right < q.right || (p.right == q.right && p.left < q.left)
  }

  lemma {:induction false} BrutePairsSpec(sigs: seq<seq<int>>, t: nat, rows: nat)
    requires ValidUpTo(sigs, rows)
    ensures forall p :: p in BrutePairs(sigs, t, rows) <==>
      p.left < p.right < rows && p.distance == Gap(sigs, p.left, p.right) <= t
    ensures forall i, j :: 0 <= i < j < |BrutePairs(sigs, t, rows)| ==>
      Before(BrutePairs(sigs, t, rows)[i], BrutePairs(sigs, t, rows)[j])
  {
    if rows > 0 {
      BrutePairsSpec(sigs, t, rows - 1);
      BruteRowSpec(sigs, t, rows - 1, rows - 1);
      RowFollows(BrutePairs(sigs, t, rows - 1), BruteRow(sigs, t, rows - 1, rows - 1), rows - 1);
    }
  }

  /** A row of ascending left ends comes after all earlier rows. */
  lemma RowFollows(head: seq<Pair>, row: seq<Pair>, right: nat)
    requires forall p :: p in head ==> p.right < right
    requires forall p :: p in row ==> p.right == right
    requires forall i, j :: 0 <= i < j < |head| ==> Before(head[i], head[j])
    requires forall i, j :: 0 <= i < j < |row| ==> row[i].left < row[j].left
    ensures forall i, j :: 0 <= i < j < |head + row| ==> Before((head + row)[i], (head + row)[j])
  {
    var all := head + row;
    forall i, j | 0 <= i < j < |all|
      ensures Before(all[i], all[j])
    {
      assert i < |head| ==> head[i] in head;
      assert j >= |head| ==> row[j - |head|] in row;
      assert i >= |head| ==> row[i - |head|] in row;
    }
  }

  /** A pair within reach, and the fewest binary digits in which a hash of one differs from one of the other. */
  ghost predicate IsPairWithin(sigs: seq<seq<int>>, t: nat, p: Pair) {
    && p.left < p.right < |sigs| && ValidSignature(sigs[p.left]) && ValidSignature(sigs[p.right])
    && p.distance <= t && IsLeastDifference(sigs[p.left], sigs[p.right], p.distance)
  }

  lemma GapCounts(sigs: seq<seq<int>>, i: nat, j: nat, d: nat)
    requires i < |sigs| && j < |sigs| && ValidSignature(sigs[i]) && ValidSignature(sigs[j])
    ensures d == Gap(sigs, i, j) <==> IsLeastDifference(sigs[i], sigs[j], d)
  {
    SignatureDistanceCounts(sigs[i], sigs[j]);
  }

  /** The brute-force listing holds exactly the pairs within the threshold, counted in binary digits. */
  lemma {:induction false} BrutePairsAreWithin(sigs: seq<seq<int>>, t: nat, rows: nat)
    requires ValidUpTo(sigs, rows) && rows == |sigs|
    ensures forall p :: p in BrutePairs(sigs, t, rows) <==> IsPairWithin(sigs, t, p)
  {
    BrutePairsSpec(sigs, t, rows);
    forall p: Pair
      ensures p in BrutePairs(sigs, t, rows) <==> IsPairWithin(sigs, t, p)
    {
      if p.left < p.right < rows {
        GapCounts(sigs, p.left, p.right, p.distance);
      }
    }
  }
}
