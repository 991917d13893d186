/** Stride sampling, its complement, and the streaming form that yields the same pairs and stops early. */
module Strides {
  import opened Order
  import opened Wrappers

  // ---- which indexes a stride picks ----

  /** `int(i * (n / cap))` over exact rationals. */
  function Pick(n: nat, cap: nat, i: nat): nat
    requires cap > 0
  {
    i * n / cap
  }

  /** Consecutive picks are at least one apart when there are more items than picks. */
  lemma PickAdvances(n: nat, cap: nat, i: nat)
    requires 0 < cap < n
    ensures Pick(n, cap, i) < Pick(n, cap, i + 1)
  {
    var q := Pick(n, cap, i);
    assert (i + 1) * n == i * n + n;
    Floor(i * n, cap, q);
    QuotientAtLeast((i + 1) * n, cap, q + 1);
  }

  lemma Floor(a: nat, b: nat, q: nat)
    requires b > 0 && q == a / b
    ensures q * b <= a < q * b + b
  {
  }

  lemma QuotientAtLeast(a: nat, b: nat, q: nat)
    requires b > 0 && q * b <= a
    ensures q <= a / b
  {
    var d := a / b;
    Floor(a, b, d);
    assert (d + 1) * b == d * b + b;
    if d + 1 <= q {
      ProductGrows(d + 1, q, b);
    }
  }

  lemma ProductGrows(x: nat, y: nat, b: nat)
    requires x <= y
    ensures x * b <= y * b
  {
  }

  lemma FullPick(n: nat, cap: nat)
    requires cap > 0
    ensures Pick(n, cap, cap) == n
  {
    assert cap * n == n * cap;
    QuotientAtLeast(cap * n, cap, n);
    Floor(cap * n, cap, Pick(n, cap, cap));
    if n + 1 <= Pick(n, cap, cap) {
      ProductGrows(n + 1, Pick(n, cap, cap), cap);
    }
  }

  lemma {:induction false} PicksIncrease(n: nat, cap: nat, i: nat, j: nat)
    requires 0 < cap < n && i < j
    ensures Pick(n, cap, i) < Pick(n, cap, j)
  {
    PickAdvances(n, cap, j - 1);
    if i < j - 1 {
      PicksIncrease(n, cap, i, j - 1);
    }
  }

  lemma PickInRange(n: nat, cap: nat, i: nat)
    requires 0 < cap < n && i < cap
    ensures Pick(n, cap, i) < n
  {
    PicksIncrease(n, cap, i, cap);
    FullPick(n, cap);
  }

  /** Whether a stride of `cap` picks over `n` items takes position `p`. */
  predicate Picked(n: nat, cap: nat, p: nat) {
    cap > 0 && exists i :: 0 <= i < cap && Pick(n, cap, i) == p
  }

  // ---- the two selections ----

  /** The sampled items; a cap of zero, or one that is not exceeded, takes everything. */
  function Sample<T>(items: seq<T>, cap: int): (r: seq<T>)
  {
    if cap == 0 || |items| <= cap then items
    else if cap < 0 then []
    else
      seq(cap, i requires 0 <= i < cap => (PickInRange(|items|, cap, i); items[Pick(|items|, cap, i)]))
  }

  /** The positions a stride takes; none for a negative cap. */
  function Takes(n: nat, cap: int): nat -> bool {
    (p: nat) => cap > 0 && Picked(n, cap, p)
  }

  function Leaves(n: nat, cap: int): nat -> bool {
    (p: nat) => !(cap > 0 && Picked(n, cap, p))
  }

  /** The items at the positions among the first `n` for which `keep` holds, in order. */
  function Positions<T>(items: seq<T>, keep: nat -> bool, n: nat): seq<T>
    requires n <= |items|
  {
    if n == 0 then [] else Positions(items, keep, n - 1) + if keep(n - 1) then [items[n - 1]] else []
  }

  function Remainder<T>(items: seq<T>, cap: int): seq<T> {
    if cap == 0 || |items| <= cap then []
    else Positions(items, Leaves(|items|, cap), |items|)
  }

  /** If the last of the first `k` picks below `p + 1` can only be `p`, it is, and the earlier ones lie below. */
  lemma LastPick(n: nat, cap: nat, k: nat, p: nat)
    requires 0 < cap < n && k <= cap && Picked(n, cap, p)
    requires forall i :: 0 <= i < k ==> Pick(n, cap, i) < p + 1
    requires forall i :: k <= i < cap ==> Pick(n, cap, i) >= p + 1
    ensures k > 0 && Pick(n, cap, k - 1) == p && forall j :: 0 <= j < k - 1 ==> Pick(n, cap, j) < p
  {
    var i :| 0 <= i < cap && Pick(n, cap, i) == p;
    if i < k - 1 {
      PicksIncrease(n, cap, i, k - 1);
    }
    forall j | 0 <= j < k - 1
      ensures Pick(n, cap, j) < p
    {
      PicksIncrease(n, cap, j, k - 1);
    }
  }

  /** The items at the first `k` picks. */
  function PickList<T>(items: seq<T>, cap: nat, k: nat): (r: seq<T>)
    requires 0 < cap < |items| && k <= cap
    ensures |r| == k
  {
    if k == 0 then []
    else
      PickInRange(|items|, cap, k - 1);
      PickList(items, cap, k - 1) + [items[Pick(|items|, cap, k - 1)]]
  }

  lemma {:induction false} PickListAt<T>(items: seq<T>, cap: nat, k: nat, i: nat)
    requires 0 < cap < |items| && i < k <= cap
    ensures Pick(|items|, cap, i) < |items| && PickList(items, cap, k)[i] == items[Pick(|items|, cap, i)]
  {
    PickInRange(|items|, cap, k - 1);
    if i < k - 1 {
      PickListAt(items, cap, k - 1, i);
    }
  }

  lemma {:induction false} SampleIsPickList<T>(items: seq<T>, cap: nat)
    requires 0 < cap < |items|
    ensures Sample(items, cap) == PickList(items, cap, cap)
  {
    forall i | 0 <= i < cap
      ensures Sample(items, cap)[i] == PickList(items, cap, cap)[i]
    {
      PickListAt(items, cap, cap, i);
    }
  }

  /** Picking by computed index and filtering by membership give the same list. */
  lemma {:induction false} PicksAreFilter<T>(items: seq<T>, cap: nat, k: nat, n: nat)
    requires 0 < cap < |items| && k <= cap && n <= |items| && (k > 0 ==> n > 0)
    requires forall i :: 0 <= i < k ==> Pick(|items|, cap, i) < n
    requires forall i :: k <= i < cap ==> Pick(|items|, cap, i) >= n
    ensures Positions(items, Takes(|items|, cap), n) == PickList(items, cap, k)
  {
    if n > 0 {
      if Picked(|items|, cap, n - 1) {
        LastPick(|items|, cap, k, n - 1);
        PicksAreFilter(items, cap, k - 1, n - 1);
      } else {
        forall i | 0 <= i < k
          ensures Pick(|items|, cap, i) < n - 1
        {
          assert Pick(|items|, cap, i) != n - 1;
        }
        assert k > 0 ==> Pick(|items|, cap, 0) < n - 1;
        PicksAreFilter(items, cap, k, n - 1);
      }
    }
  }

  /** The stride sample in full: exactly `cap` items, at the picked positions, in order. */
  lemma {:induction false} SampleIsPositions<T>(items: seq<T>, cap: nat)
    requires 0 < cap < |items|
    ensures Sample(items, cap) == Positions(items, Takes(|items|, cap), |items|)
    ensures |Sample(items, cap)| == cap
  {
    forall i | 0 <= i < cap
      ensures Pick(|items|, cap, i) < |items|
    {
      PickInRange(|items|, cap, i);
    }
    PicksAreFilter(items, cap, cap, |items|);
    SampleIsPickList(items, cap);
  }

  /** A pick is the last position whose share of the stride does not pass `i`. */
  lemma PickExactly(n: nat, cap: nat, i: nat, p: nat)
    requires cap > 0
    ensures Pick(n, cap, i) == p <==> p * cap <= i * n < p * cap + cap
  {
    Floor(i * n, cap, Pick(n, cap, i));
    if p * cap <= i * n < p * cap + cap {
      QuotientAtLeast(i * n, cap, p);
      assert (p + 1) * cap == p * cap + cap;
      if p + 1 <= Pick(n, cap, i) {
        ProductGrows(p + 1, Pick(n, cap, i), cap);
      }
    }
  }

  /** Item `i` of a sample of `cap` out of `n` is the one at position `i * n / cap`, rounded down. */
  lemma SampleAt<T>(items: seq<T>, cap: nat, i: nat)
    requires 0 < cap < |items| && i < cap
    ensures |Sample(items, cap)| == cap
    ensures exists p: nat :: p < |items| && p * cap <= i * |items| < p * cap + cap && Sample(items, cap)[i] == items[p]
  {
    PickInRange(|items|, cap, i);
    var p := Pick(|items|, cap, i);
    PickExactly(|items|, cap, i, p);
    assert Sample(items, cap)[i] == items[p];
  }

  // ---- sample and remainder ----

  /** `a` and `b` are complementary parts of `s`: interleaving them in order gives `s` back. */
  ghost predicate Interleaves<T>(s: seq<T>, a: seq<T>, b: seq<T>) {
    if s == [] then a == [] && b == []
    else
      (a != [] && a[|a| - 1] == s[|s| - 1] && Interleaves(s[..|s| - 1], a[..|a| - 1], b)) ||
      (b != [] && b[|b| - 1] == s[|s| - 1] && Interleaves(s[..|s| - 1], a, b[..|b| - 1]))
  }

  lemma {:induction false} PositionsInterleave<T>(items: seq<T>, keep: nat -> bool, drop: nat -> bool, n: nat)
    requires n <= |items| && forall p: nat :: p < n ==> keep(p) != drop(p)
    ensures Interleaves(items[..n], Positions(items, keep, n), Positions(items, drop, n))
    ensures |Positions(items, keep, n)| + |Positions(items, drop, n)| == n
  {
    if n > 0 {
      PositionsInterleave(items, keep, drop, n - 1);
      assert items[..n][..n - 1] == items[..n - 1];
      var a, b := Positions(items, keep, n), Positions(items, drop, n);
      assert items[..n][n - 1] == items[n - 1];
      if keep(n - 1) {
        assert a[..|a| - 1] == Positions(items, keep, n - 1) && b == Positions(items, drop, n - 1);
      } else {
        assert b[..|b| - 1] == Positions(items, drop, n - 1) && a == Positions(items, keep, n - 1);
      }
    }
  }

  lemma {:induction false} KeepAll<T>(items: seq<T>, keep: nat -> bool, n: nat)
    requires n <= |items| && forall p: nat :: p < n ==> keep(p)
    ensures Positions(items, keep, n) == items[..n]
  {
    if n > 0 {
      KeepAll(items, keep, n - 1);
    }
  }

  lemma {:induction false} InterleaveWithNothing<T>(s: seq<T>)
    ensures Interleaves(s, s, []) && Interleaves(s, [], s)
  {
    if s != [] {
      InterleaveWithNothing(s[..|s| - 1]);
    }
  }

  /** For every cap, zero and negative ones included, the sample and the remainder split the items in order. */
  lemma {:induction false} SampleAndRemainderPartition<T>(items: seq<T>, cap: int)
    ensures Interleaves(items, Sample(items, cap), Remainder(items, cap))
    ensures |Sample(items, cap)| + |Remainder(items, cap)| == |items|
  {
    if cap == 0 || |items| <= cap {
      InterleaveWithNothing(items);
    } else {
      var drop := Leaves(|items|, cap);
      assert items[..|items|] == items;
      if cap > 0 {
        SampleIsPositions(items, cap);
        PositionsInterleave(items, Takes(|items|, cap), drop, |items|);
      } else {
        KeepAll(items, drop, |items|);
        InterleaveWithNothing(items);
      }
    }
  }

  /** The sample is everything exactly for no items, a zero cap, or a cap that is not exceeded. */
  lemma SampleIsAllExactlyWhen<T>(items: seq<T>, cap: int)
    ensures Sample(items, cap) == items <==> items == [] || cap == 0 || |items| <= cap
    ensures Remainder(items, cap) == [] <==> items == [] || cap == 0 || |items| <= cap
  {
    SampleAndRemainderPartition(items, cap);
    if cap > 0 && |items| > cap {
      SampleIsPositions(items, cap);
    }
  }

  /** A negative cap takes nothing and leaves everything, although it is documented to take everything. */
  lemma NegativeCapTakesNothing()
    ensures Sample([1, 2], -1) == [] && Remainder([1, 2], -1) == [1, 2]
  {
    KeepAll([1, 2], Leaves(2, -1), 2);
  }

  // ---- pairing labels with images ----

  /** An image candidate: a source directory, the label's stem, and one of the extensions tried. */
  datatype Candidate = Candidate(dir: nat, stem: nat, ext: nat)

  /** A label folder: the prefix of its source directories, absent when the name is neither TL_ nor VL_. */
  datatype Folder = Folder(prefix: Option<nat>, labels: seq<nat>)

  datatype Disk = Disk(folders: seq<Folder>, sources: map<nat, seq<nat>>, present: Candidate -> bool)

  type Pair = (Candidate, nat)

  const EXTENSIONS: nat := 6

  function FirstExt(disk: Disk, dir: nat, stem: nat, ext: nat): Option<Candidate>
    decreases EXTENSIONS - ext
  {
    if ext >= EXTENSIONS then None
    else if disk.present(Candidate(dir, stem, ext)) then Some(Candidate(dir, stem, ext))
    else FirstExt(disk, dir, stem, ext + 1)
  }

  /** The first candidate that exists: directories in order, extensions in order within each. */
  function FirstHit(disk: Disk, dirs: seq<nat>, stem: nat): Option<Candidate> {
    if dirs == [] then None
    else
      var hit := FirstExt(disk, dirs[0], stem, 0);
      if hit.Some? then hit else FirstHit(disk, dirs[1..], stem)
  }

  lemma {:induction false} FirstExtIsFirst(disk: Disk, dir: nat, stem: nat, from: nat)
    requires from <= EXTENSIONS
    ensures var hit := FirstExt(disk, dir, stem, from);
      && (hit.None? <==> forall ext :: from <= ext < EXTENSIONS ==> !disk.present(Candidate(dir, stem, ext)))
      && (hit.Some? ==>
            && hit.value.dir == dir && hit.value.stem == stem && from <= hit.value.ext < EXTENSIONS &&
               disk.present(hit.value)
            && forall ext :: from <= ext < hit.value.ext ==> !disk.present(Candidate(dir, stem, ext)))
    decreases EXTENSIONS - from
  {
    if from < EXTENSIONS {
      FirstExtIsFirst(disk, dir, stem, from + 1);
    }
  }

  /**
   * The hit exists and nothing before it does: no extension in an earlier directory, no earlier extension in its own.
   */
  lemma {:induction false} FirstHitIsFirst(disk: Disk, dirs: seq<nat>, stem: nat)
    ensures var hit := FirstHit(disk, dirs, stem);
      && (hit.None? <==>
            forall d, ext :: 0 <= d < |dirs| && 0 <= ext < EXTENSIONS ==> !disk.present(Candidate(dirs[d], stem, ext)))
      && (hit.Some? ==>
            && disk.present(hit.value) && hit.value.stem == stem && hit.value.ext < EXTENSIONS
            && exists d ::
                 0 <= d < |dirs| && dirs[d] == hit.value.dir && NothingEarlier(disk, dirs, stem, d, hit.value.ext))
  {
    if dirs != [] {
      FirstExtIsFirst(disk, dirs[0], stem, 0);
      FirstHitIsFirst(disk, dirs[1..], stem);
      var hit := FirstHit(disk, dirs, stem);
      assert forall d :: 0 < d < |dirs| ==> dirs[d] == dirs[1..][d - 1];
      if FirstExt(disk, dirs[0], stem, 0).Some? {
        assert NothingEarlier(disk, dirs, stem, 0, hit.value.ext);
      } else if hit.Some? {
        var d :| 0 <= d < |dirs[1..]| && dirs[1..][d] == hit.value.dir &&
          NothingEarlier(disk, dirs[1..], stem, d, hit.value.ext);
        assert NothingEarlier(disk, dirs, stem, d + 1, hit.value.ext);
        assert dirs[d + 1] == hit.value.dir;
      }
    }
  }

  ghost predicate NothingEarlier(disk: Disk, dirs: seq<nat>, stem: nat, d: nat, ext: nat)
    requires d < |dirs|
  {
    && (forall e, x :: 0 <= e < d && 0 <= x < EXTENSIONS ==> !disk.present(Candidate(dirs[e], stem, x)))
    && (forall x :: 0 <= x < ext ==> !disk.present(Candidate(dirs[d], stem, x)))
  }

  function Sources(disk: Disk, prefix: nat): seq<nat> {
    if prefix in disk.sources then disk.sources[prefix] else []
  }

  function PairOf(disk: Disk, prefix: nat, stem: nat): seq<Pair> {
    var hit := FirstHit(disk, Sources(disk, prefix), stem);
    if hit.Some? then [(hit.value, stem)] else []
  }

  function LabelPairs(disk: Disk, prefix: nat, labels: seq<nat>, n: nat): seq<Pair>
    requires n <= |labels|
  {
    if n == 0 then [] else LabelPairs(disk, prefix, labels, n - 1) + PairOf(disk, prefix, labels[n - 1])
  }

  function Chosen(labels: seq<nat>, cap: int, remainder: bool): seq<nat> {
    if remainder then Remainder(labels, cap) else Sample(labels, cap)
  }

  /** The pairs of one label folder. */
  function FolderPairs(disk: Disk, cap: int, remainder: bool, folder: Folder): seq<Pair> {
    if folder.prefix.None? then []
    else
      var labels := Chosen(folder.labels, cap, remainder);
      LabelPairs(disk, folder.prefix.value, labels, |labels|)
  }

  ghost function ByFolder(disk: Disk, cap: int, remainder: bool): (r: seq<seq<Pair>>)
    ensures |r| == |disk.folders|
    ensures forall n :: 0 <= n < |r| ==> r[n] == FolderPairs(disk, cap, remainder, disk.folders[n])
  {
    seq(|disk.folders|, n requires 0 <= n < |disk.folders| => FolderPairs(disk, cap, remainder, disk.folders[n]))
  }

  ghost function Concat(lists: seq<seq<Pair>>, n: nat): seq<Pair>
    requires n <= |lists|
  {
    if n == 0 then [] else Concat(lists, n - 1) + lists[n - 1]
  }

  lemma {:induction false} ConcatPrefix(lists: seq<seq<Pair>>, m: nat, n: nat)
    requires m <= n <= |lists|
    ensures Concat(lists, m) <= Concat(lists, n)
  {
    if m < n {
      ConcatPrefix(lists, m, n - 1);
    }
  }

  ghost function AllPairs(disk: Disk, cap: int, remainder: bool): seq<Pair> {
    Concat(ByFolder(disk, cap, remainder), |disk.folders|)
  }

  /** The search loops: every extension of a directory before the next directory, stopping at the first file. */
  method FindHit(disk: Disk, dirs: seq<nat>, stem: nat) returns (hit: Option<Candidate>)
    ensures hit == FirstHit(disk, dirs, stem)
  {
    hit := None;
    for d := 0 to |dirs|
      invariant hit.None?
      invariant FirstHit(disk, dirs, stem) == FirstHit(disk, dirs[d..], stem)
    {
      assert dirs[d..][0] == dirs[d] && dirs[d..][1..] == dirs[d + 1..];
      for ext := 0 to EXTENSIONS
        invariant hit.None?
        invariant FirstExt(disk, dirs[d], stem, 0) == FirstExt(disk, dirs[d], stem, ext)
      {
        if disk.present(Candidate(dirs[d], stem, ext)) {
          hit := Some(Candidate(dirs[d], stem, ext));
          break;
        }
      }
      if hit.Some? {
        return;
      }
    }
  }

  /** One folder of a collector. */
  method CollectFolder(disk: Disk, prefix: nat, labels: seq<nat>) returns (pairs: seq<Pair>)
    ensures pairs == LabelPairs(disk, prefix, labels, |labels|)
  {
    pairs := [];
    for k := 0 to |labels|
      invariant pairs == LabelPairs(disk, prefix, labels, k)
    {
      var hit := FindHit(disk, Sources(disk, prefix), labels[k]);
      if hit.Some? {
        pairs := pairs + [(hit.value, labels[k])];
      }
    }
  }

  ghost predicate AreFolderPairs(disk: Disk, cap: int, remainder: bool, folder: Folder, pairs: seq<Pair>) {
    forall use: nat :: OnDemand(use) ==> pairs == FolderPairs(disk, cap, remainder, folder)
  }

  /** One folder of a collector; folders of other names are passed over. */
  method CollectNext(disk: Disk, cap: int, remainder: bool, folder: Folder, ghost expected: seq<Pair>)
    returns (pairs: seq<Pair>)
    requires AreFolderPairs(disk, cap, remainder, folder, expected)
    ensures pairs == expected
  {
    assert OnDemand(0);
    if folder.prefix.None? {
      return [];
    }
    pairs := CollectFolder(disk, folder.prefix.value, Chosen(folder.labels, cap, remainder));
  }

  /** The collector's loop over folders, against the list of what each contributes. */
  method CollectAll(disk: Disk, cap: int, remainder: bool, ghost lists: seq<seq<Pair>>) returns (pairs: seq<Pair>)
    requires |lists| == |disk.folders|
    requires forall n :: 0 <= n < |lists| ==> AreFolderPairs(disk, cap, remainder, disk.folders[n], lists[n])
    ensures pairs == Concat(lists, |lists|)
  {
    pairs := [];
    for n := 0 to |disk.folders|
      invariant pairs == Concat(lists, n)
    {
      var folderPairs := CollectNext(disk, cap, remainder, disk.folders[n], lists[n]);
      pairs := pairs + folderPairs;
    }
  }

  /** `collect_pairs` (sample) and `collect_remainder_pairs` (remainder) */
  method CollectPairs(disk: Disk, cap: int, remainder: bool) returns (pairs: seq<Pair>)
    ensures pairs == AllPairs(disk, cap, remainder)
  {
    pairs := CollectAll(disk, cap, remainder, ByFolder(disk, cap, remainder));
  }

  // ---- the streaming form ----

  /** The labels a folder contributes when positions are tested against the picked set. */
  function Streamed(labels: seq<nat>, cap: int, remainder: bool): seq<nat> {
    if cap != 0 && |labels| > cap then
      Positions(labels, (p: nat) => (cap > 0 && Picked(|labels|, cap, p)) != remainder, |labels|)
    else if remainder then []
    else labels
  }

  lemma {:induction false} PositionsAgree<T>(items: seq<T>, f: nat -> bool, g: nat -> bool, n: nat)
    requires n <= |items| && forall p: nat :: p < n ==> f(p) == g(p)
    ensures Positions(items, f, n) == Positions(items, g, n)
  {
    if n > 0 {
      PositionsAgree(items, f, g, n - 1);
    }
  }

  lemma {:induction false} KeepNone<T>(items: seq<T>, keep: nat -> bool, n: nat)
    requires n <= |items| && forall p: nat :: p < n ==> !keep(p)
    ensures Positions(items, keep, n) == []
  {
    if n > 0 {
      KeepNone(items, keep, n - 1);
    }
  }

  /** Testing positions against the picked set selects what the samplers select. */
  lemma StreamedIsChosen(labels: seq<nat>, cap: int, remainder: bool)
    ensures Streamed(labels, cap, remainder) == Chosen(labels, cap, remainder)
  {
    if cap != 0 && |labels| > cap {
      var keep := (p: nat) => (cap > 0 && Picked(|labels|, cap, p)) != remainder;
      if remainder {
        PositionsAgree(labels, keep, Leaves(|labels|, cap), |labels|);
      } else if cap > 0 {
        SampleIsPositions(labels, cap);
        PositionsAgree(labels, keep, Takes(|labels|, cap), |labels|);
      } else {
        KeepNone(labels, keep, |labels|);
      }
    }
  }

  /** The stream stops once it has yielded this many. */
  function Bound(maxIndex: int): nat {
    if maxIndex < 0 then 1 else maxIndex + 1
  }

  /** How many pairs are yielded before the index limit stops the stream. */
  function Limit(maxIndex: Option<int>, total: nat): nat {
    if maxIndex.None? then total
    else if Bound(maxIndex.value) < total then Bound(maxIndex.value)
    else total
  }

  /** One folder of the stream: yields its pairs until the limit is hit. */
  method StreamFolder(disk: Disk, prefix: nat, labels: seq<nat>, before: seq<Pair>, maxIndex: Option<int>)
    returns (yielded: seq<Pair>, stopped: bool)
    requires maxIndex.Some? ==> before == [] || |before| <= maxIndex.value
    ensures var all := before + LabelPairs(disk, prefix, labels, |labels|);
      && (stopped ==> maxIndex.Some? && |yielded| == Bound(maxIndex.value) && yielded <= all)
      && (!stopped ==> yielded == all && (maxIndex.Some? ==> all == [] || |all| <= maxIndex.value))
  {
    yielded := before;
    for k := 0 to |labels|
      invariant yielded == before + LabelPairs(disk, prefix, labels, k)
      invariant maxIndex.Some? ==> yielded == [] || |yielded| <= maxIndex.value
    {
      var hit := FindHit(disk, Sources(disk, prefix), labels[k]);
      if hit.Some? {
        var index := |yielded|;
        yielded := yielded + [(hit.value, labels[k])];
        if maxIndex.Some? && index >= maxIndex.value {
          YieldedSoFar(disk, prefix, labels, before, k + 1);
          return yielded, true;
        }
      }
    }
    stopped := false;
  }

  lemma {:induction false} YieldedSoFar(disk: Disk, prefix: nat, labels: seq<nat>, before: seq<Pair>, k: nat)
    requires k <= |labels|
    ensures before + LabelPairs(disk, prefix, labels, k) <= before + LabelPairs(disk, prefix, labels, |labels|)
  {
    LabelPairsPrefix(disk, prefix, labels, k, |labels|);
  }

  lemma {:induction false} LabelPairsPrefix(disk: Disk, prefix: nat, labels: seq<nat>, m: nat, n: nat)
    requires m <= n <= |labels|
    ensures LabelPairs(disk, prefix, labels, m) <= LabelPairs(disk, prefix, labels, n)
  {
    if m < n {
      LabelPairsPrefix(disk, prefix, labels, m, n - 1);
    }
  }

  /** One folder of the stream; folders of other names are passed over. */
  method StreamNext(disk: Disk, cap: int, remainder: bool, folder: Folder, before: seq<Pair>, maxIndex: Option<int>,
                    ghost pairs: seq<Pair>)
    returns (yielded: seq<Pair>, stopped: bool)
    requires maxIndex.Some? ==> before == [] || |before| <= maxIndex.value
    requires AreFolderPairs(disk, cap, remainder, folder, pairs)
    ensures var all := before + pairs;
      && (stopped ==> maxIndex.Some? && |yielded| == Bound(maxIndex.value) && yielded <= all)
      && (!stopped ==> yielded == all && (maxIndex.Some? ==> all == [] || |all| <= maxIndex.value))
  {
    assert OnDemand(0);
    if folder.prefix.None? {
      return before, false;
    }
    StreamedIsChosen(folder.labels, cap, remainder);
    yielded, stopped := StreamFolder(disk, folder.prefix.value, Streamed(folder.labels, cap, remainder), before,
                                     maxIndex);
  }

  lemma StoppedIsCut(yielded: seq<Pair>, part: seq<Pair>, whole: seq<Pair>, maxIndex: Option<int>)
    requires yielded <= part <= whole && maxIndex.Some? && |yielded| == Bound(maxIndex.value)
    ensures yielded == whole[..Limit(maxIndex, |whole|)]
  {
  }

  lemma FinishedIsCut(whole: seq<Pair>, maxIndex: Option<int>)
    requires maxIndex.Some? ==> whole == [] || |whole| <= maxIndex.value
    ensures whole == whole[..Limit(maxIndex, |whole|)]
  {
  }

  /** The loop over folders, against the list of what each contributes. */
  method StreamAll(disk: Disk, cap: int, remainder: bool, maxIndex: Option<int>, ghost lists: seq<seq<Pair>>)
    returns (yielded: seq<Pair>)
    requires |lists| == |disk.folders|
    requires forall n :: 0 <= n < |lists| ==> AreFolderPairs(disk, cap, remainder, disk.folders[n], lists[n])
    ensures yielded == Concat(lists, |lists|)[..Limit(maxIndex, |Concat(lists, |lists|)|)]
  {
    yielded := [];
    var n := 0;
    while n < |disk.folders|
      invariant n <= |disk.folders| && yielded == Concat(lists, n)
      invariant maxIndex.Some? ==> yielded == [] || |yielded| <= maxIndex.value
    {
      var stopped;
      yielded, stopped := StreamNext(disk, cap, remainder, disk.folders[n], yielded, maxIndex, lists[n]);
      if stopped {
        ConcatPrefix(lists, n + 1, |lists|);
        StoppedIsCut(yielded, Concat(lists, n + 1), Concat(lists, |lists|), maxIndex);
        return;
      }
      n := n + 1;
    }
    FinishedIsCut(yielded, maxIndex);
  }

  /** `iter_pairs`: the collector's pairs, in its order, cut after the first `max_index + 1`. */
  method IterPairs(disk: Disk, cap: int, remainder: bool, maxIndex: Option<int>) returns (yielded: seq<Pair>)
    ensures yielded == AllPairs(disk, cap, remainder)[..Limit(maxIndex, |AllPairs(disk, cap, remainder)|)]
  {
    yielded := StreamAll(disk, cap, remainder, maxIndex, ByFolder(disk, cap, remainder));
  }
}
