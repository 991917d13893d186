/** Time-gap burst clustering: the single scan over sorted captures computes single linkage. */
module Bursts {
  import opened Order
  import opened Wrappers

  /** A capture; the time is in ticks, and absent when the row carries no usable timestamp. */
  datatype Member = Member(sha: Digest, time: Option<int>)

  /** Two timed captures at most `gap` apart. */
  predicate Near(x: Member, y: Member, gap: int) {
    x.time.Some? && y.time.Some? && -gap <= x.time.value - y.time.value <= gap
  }

  ghost predicate Chain(members: set<Member>, gap: int, path: seq<Member>) {
    && (forall k :: 0 <= k < |path| ==> path[k] in members)
    && (forall k :: 0 < k < |path| ==> Near(path[k - 1], path[k], gap))
  }

  /** Single linkage: a chain of captures with small gaps leads from one to the other. */
  ghost predicate Linked(members: set<Member>, gap: int, x: Member, y: Member) {
    exists path :: Chain(members, gap, path) && |path| > 0 && path[0] == x && path[|path| - 1] == y
  }

  /** The captures a capture is linked to; its cluster is named by exactly these. */
  ghost function BurstOf(members: set<Member>, gap: int, x: Member): set<Digest> {
    set y | y in members && Linked(members, gap, x, y) :: y.sha
  }

  ghost function Members(s: seq<Member>): set<Member> {
    set x | x in s
  }

  ghost predicate UniqueShas(members: set<Member>) {
    forall x, y :: x in members && y in members && x.sha == y.sha ==> x == y
  }

  // ---- laws of the clustering ----

  /** A capture without a time is alone. */
  lemma UntimedIsAlone(members: set<Member>, gap: int, x: Member)
    requires x in members && x.time.None?
    ensures BurstOf(members, gap, x) == {x.sha}
  {
    assert Chain(members, gap, [x]);
    forall y | y in members && Linked(members, gap, x, y)
      ensures y == x
    {
      var path :| Chain(members, gap, path) && |path| > 0 && path[0] == x && path[|path| - 1] == y;
      assert |path| > 1 ==> Near(path[0], path[1], gap);
    }
  }

  lemma LinkedReverses(members: set<Member>, gap: int, x: Member, y: Member)
    requires Linked(members, gap, x, y)
    ensures Linked(members, gap, y, x)
  {
    var path :| Chain(members, gap, path) && |path| > 0 && path[0] == x && path[|path| - 1] == y;
    var back := seq(|path|, k requires 0 <= k < |path| => path[|path| - 1 - k]);
    forall k | 0 < k < |back|
      ensures Near(back[k - 1], back[k], gap)
    {
      assert Near(path[|path| - 1 - k], path[|path| - k], gap);
    }
    assert Chain(members, gap, back);
  }

  lemma LinkedJoins(members: set<Member>, gap: int, x: Member, y: Member, z: Member)
    requires Linked(members, gap, x, y) && Linked(members, gap, y, z)
    ensures Linked(members, gap, x, z)
  {
    var p :| Chain(members, gap, p) && |p| > 0 && p[0] == x && p[|p| - 1] == y;
    var q :| Chain(members, gap, q) && |q| > 0 && q[0] == y && q[|q| - 1] == z;
    var path := p + q[1..];
    forall k | 0 < k < |path|
      ensures Near(path[k - 1], path[k], gap)
    {
      if k >= |p| {
        assert Near(q[k - |p|], q[k - |p| + 1], gap);
      }
    }
    assert Chain(members, gap, path);
  }

  /** Equal clusters means linked: the clusters are the classes of single linkage. */
  lemma SameClusterIffLinked(members: set<Member>, gap: int, x: Member, y: Member)
    requires UniqueShas(members) && x in members && y in members
    ensures BurstOf(members, gap, x) == BurstOf(members, gap, y) <==> Linked(members, gap, x, y)
  {
    assert Chain(members, gap, [y]);
    if BurstOf(members, gap, x) == BurstOf(members, gap, y) {
      assert y.sha in BurstOf(members, gap, y);
    }
    if Linked(members, gap, x, y) {
      LinkedReverses(members, gap, x, y);
      forall z | z in members
        ensures Linked(members, gap, x, z) <==> Linked(members, gap, y, z)
      {
        if Linked(members, gap, x, z) {
          LinkedJoins(members, gap, y, x, z);
        }
        if Linked(members, gap, y, z) {
          LinkedJoins(members, gap, x, y, z);
        }
      }
    }
  }

  /** A wider gap only merges clusters. */
  lemma WiderGapMerges(members: set<Member>, gap: int, wider: int, x: Member, y: Member)
    requires gap <= wider && Linked(members, gap, x, y)
    ensures Linked(members, wider, x, y)
  {
    var path :| Chain(members, gap, path) && |path| > 0 && path[0] == x && path[|path| - 1] == y;
    forall k | 0 < k < |path|
      ensures Near(path[k - 1], path[k], wider)
    {
      assert Near(path[k - 1], path[k], gap);
    }
    assert Chain(members, wider, path);
  }

  // ---- the scan ----

  /** `(time is None, time or max, sha)` */
  predicate MemberLe(x: Member, y: Member) {
    if x.time.None? then y.time.None? && x.sha <= y.sha
    else y.time.None? || x.time.value < y.time.value || (x.time == y.time && x.sha <= y.sha)
  }

  lemma MemberOrder()
    ensures TotalPreorder(MemberLe)
  {
  }

  predicate Breaks(previous: Member, next: Member, gap: int) {
    next.time.None? || previous.time.None? || next.time.value - previous.time.value > gap
  }

  /** How many clusters were closed before position `i`. */
  ghost function Segment(s: seq<Member>, gap: int, i: nat): nat
    requires i < |s|
  {
    if i == 0 then 0 else Segment(s, gap, i - 1) + if Breaks(s[i - 1], s[i], gap) then 1 else 0
  }

  lemma {:induction false} SegmentGrows(s: seq<Member>, gap: int, i: nat, j: nat)
    requires i <= j < |s|
    ensures Segment(s, gap, i) <= Segment(s, gap, j)
  {
    if i < j {
      SegmentGrows(s, gap, i, j - 1);
    }
  }

  /** Neighbours within a segment are near each other. */
  lemma {:induction false} SegmentIsChain(s: seq<Member>, gap: int, i: nat, j: nat)
    requires Ascending(s, MemberLe) && i <= j < |s| && Segment(s, gap, i) == Segment(s, gap, j)
    ensures forall k :: i < k <= j ==> Near(s[k - 1], s[k], gap)
  {
    if i < j {
      SegmentGrows(s, gap, i, j - 1);
      SegmentIsChain(s, gap, i, j - 1);
      assert MemberLe(s[j - 1], s[j]);
    }
  }

  lemma SliceIsChain(s: seq<Member>, gap: int, members: set<Member>, i: nat, j: nat)
    requires i <= j < |s| && forall x :: x in s ==> x in members
    requires forall k :: i < k <= j ==> Near(s[k - 1], s[k], gap)
    ensures Chain(members, gap, s[i..j + 1])
  {
    var path := s[i..j + 1];
    forall k | 0 <= k < |path|
      ensures path[k] in members
    {
      assert path[k] == s[i + k];
    }
  }

  /** A stretch of the scan whose neighbours are near links its ends. */
  lemma SliceLinks(s: seq<Member>, gap: int, members: set<Member>, i: nat, j: nat)
    requires i <= j < |s| && forall x :: x in s ==> x in members
    requires forall k :: i < k <= j ==> Near(s[k - 1], s[k], gap)
    ensures Linked(members, gap, s[i], s[j])
  {
    SliceIsChain(s, gap, members, i, j);
    var path := s[i..j + 1];
    assert path[0] == s[i] && path[|path| - 1] == s[j];
  }

  lemma {:induction false} SegmentIsLinked(s: seq<Member>, gap: int, members: set<Member>, i: nat, j: nat)
    requires Ascending(s, MemberLe) && i <= j < |s| && Segment(s, gap, i) == Segment(s, gap, j)
    requires forall x :: x in s ==> x in members
    ensures Linked(members, gap, s[i], s[j])
  {
    SegmentIsChain(s, gap, i, j);
    SliceLinks(s, gap, members, i, j);
  }

  /** Near captures are never separated, however many lie between them. */
  lemma {:induction false} NearStaysTogether(s: seq<Member>, gap: int, i: nat, j: nat)
    requires Ascending(s, MemberLe) && i <= j < |s| && Near(s[i], s[j], gap)
    ensures Segment(s, gap, i) == Segment(s, gap, j)
  {
    if i < j {
      assert MemberLe(s[j - 1], s[j]) && MemberLe(s[i], s[j - 1]);
      NearStaysTogether(s, gap, i, j - 1);
    }
  }

  lemma {:induction false} ChainStaysTogether(s: seq<Member>, gap: int, path: seq<Member>, members: set<Member>, i: nat,
                                              j: nat)
    requires Ascending(s, MemberLe) && i < |s| && j < |s| && Distinct(s)
    requires forall x :: x in members ==> x in s
    requires Chain(members, gap, path) && |path| > 0 && path[0] == s[i] && path[|path| - 1] == s[j]
    ensures Segment(s, gap, i) == Segment(s, gap, j)
  {
    if |path| > 1 {
      var n := |path| - 1;
      var k :| 0 <= k < |s| && s[k] == path[n - 1];
      assert Near(path[n - 1], path[n], gap);
      ChainStaysTogether(s, gap, path[..n], members, i, k);
      if k <= j {
        NearStaysTogether(s, gap, k, j);
      } else {
        NearStaysTogether(s, gap, j, k);
      }
    } else {
      assert i == j;
    }
  }

  /** Same segment of the sorted scan exactly when linked. */
  lemma {:induction false} SegmentIffLinked(s: seq<Member>, gap: int, members: set<Member>, i: nat, j: nat)
    requires Ascending(s, MemberLe) && Distinct(s) && i < |s| && j < |s|
    requires forall x :: x in s <==> x in members
    ensures Segment(s, gap, i) == Segment(s, gap, j) <==> Linked(members, gap, s[i], s[j])
  {
    if Segment(s, gap, i) == Segment(s, gap, j) {
      if i <= j {
        SegmentIsLinked(s, gap, members, i, j);
      } else {
        SegmentIsLinked(s, gap, members, j, i);
        LinkedReverses(members, gap, s[j], s[i]);
      }
    }
    if Linked(members, gap, s[i], s[j]) {
      var path :| Chain(members, gap, path) && |path| > 0 && path[0] == s[i] && path[|path| - 1] == s[j];
      ChainStaysTogether(s, gap, path, members, i, j);
    }
  }

  /** The captures among the first `n` that fall in segment `c`. */
  ghost function InSegment(s: seq<Member>, gap: int, c: nat, n: nat): set<Digest>
    requires n <= |s|
  {
    set m | 0 <= m < n && Segment(s, gap, m) == c :: s[m].sha
  }

  function Shas(cluster: seq<Digest>): set<Digest> {
    set sha | sha in cluster
  }

  /** The clusters closed and the one still open after `n` captures. */
  ghost predicate Scanned(s: seq<Member>, gap: int, n: nat, clusters: seq<seq<Digest>>, current: seq<Digest>) {
    && n <= |s| && (n == 0 <==> current == [])
    && (n == 0 ==> clusters == [])
    && (n > 0 ==> |clusters| == Segment(s, gap, n - 1))
    && (forall c :: 0 <= c < |clusters| ==> Shas(clusters[c]) == InSegment(s, gap, c, n))
    && Shas(current) == InSegment(s, gap, |clusters|, n)
  }

  lemma InSegmentGrows(s: seq<Member>, gap: int, c: nat, n: nat)
    requires n < |s|
    ensures InSegment(s, gap, c, n + 1) == InSegment(s, gap, c, n) + if c == Segment(s, gap, n) then {s[n].sha} else {}
  {
  }

  lemma {:induction false} InSegmentEmpty(s: seq<Member>, gap: int, c: nat, n: nat)
    requires n <= |s| && (n > 0 ==> c > Segment(s, gap, n - 1))
    ensures InSegment(s, gap, c, n) == {}
  {
    forall m | 0 <= m < n
      ensures Segment(s, gap, m) < c
    {
      SegmentGrows(s, gap, m, n - 1);
    }
  }

  lemma ScanStep(s: seq<Member>, gap: int, n: nat, clusters: seq<seq<Digest>>, current: seq<Digest>)
    requires n < |s| && Scanned(s, gap, n, clusters, current)
    ensures n > 0 && Breaks(s[n - 1], s[n], gap) ==> Scanned(s, gap, n + 1, clusters + [current], [s[n].sha])
    ensures !(n > 0 && Breaks(s[n - 1], s[n], gap)) ==> Scanned(s, gap, n + 1, clusters, current + [s[n].sha])
  {
    forall c: nat
      ensures InSegment(s, gap, c, n + 1) ==
        InSegment(s, gap, c, n) + if c == Segment(s, gap, n) then {s[n].sha} else {}
    {
      InSegmentGrows(s, gap, c, n);
    }
    if n > 0 && Breaks(s[n - 1], s[n], gap) {
      InSegmentEmpty(s, gap, Segment(s, gap, n), n);
      assert Shas([s[n].sha]) == {s[n].sha};
    } else {
      assert Shas(current + [s[n].sha]) == Shas(current) + {s[n].sha};
    }
  }

  /** The scan of `_cluster_by_gap`. */
  method Scan(s: seq<Member>, gap: int) returns (clusters: seq<seq<Digest>>)
    ensures s == [] ==> clusters == []
    ensures s != [] ==> |clusters| == Segment(s, gap, |s| - 1) + 1
    ensures forall c :: 0 <= c < |clusters| ==> Shas(clusters[c]) == InSegment(s, gap, c, |s|)
  {
    clusters := [];
    var current: seq<Digest> := [];
    var previous: Option<int> := None;
    for n := 0 to |s|
      invariant Scanned(s, gap, n, clusters, current)
      invariant n > 0 ==> previous == s[n - 1].time
    {
      ScanStep(s, gap, n, clusters, current);
      var time := s[n].time;
      if current != [] && (time.None? || previous.None? || time.value - previous.value > gap) {
        clusters, current := clusters + [current], [];
      }
      current, previous := current + [s[n].sha], time;
    }
    if current != [] {
      clusters := clusters + [current];
    }
  }

  /** Every capture of a cluster is filed under the cluster's name. */
  method NameClusters(clusters: seq<seq<Digest>>) returns (result: map<Digest, set<Digest>>)
    requires forall c, d :: 0 <= c < d < |clusters| ==> Shas(clusters[c]) !! Shas(clusters[d])
    ensures forall c, sha :: 0 <= c < |clusters| && sha in Shas(clusters[c]) ==>
      sha in result && result[sha] == Shas(clusters[c])
    ensures forall sha :: sha in result ==> exists c :: 0 <= c < |clusters| && sha in Shas(clusters[c])
  {
    result := map[];
    for c := 0 to |clusters|
      invariant forall b, sha :: 0 <= b < c && sha in Shas(clusters[b]) ==>
        sha in result && result[sha] == Shas(clusters[b])
      invariant forall sha :: sha in result ==> exists b :: 0 <= b < c && sha in Shas(clusters[b])
    {
      var named: map<Digest, set<Digest>> := map[];
      for k := 0 to |clusters[c]|
        invariant forall sha :: sha in named <==> sha in clusters[c][..k]
        invariant forall sha :: sha in named ==> named[sha] == Shas(clusters[c])
      {
        named := named[clusters[c][k] := Shas(clusters[c])];
      }
      assert clusters[c][..|clusters[c]|] == clusters[c];
      result := result + named;
    }
  }

  /** The two loops over captures already in order. */
  method ClusterSorted(s: seq<Member>, gap: int) returns (result: map<Digest, set<Digest>>)
    requires Distinct(s) && UniqueShas(Members(s))
    ensures forall sha :: sha in result <==> exists m :: 0 <= m < |s| && s[m].sha == sha
    ensures forall m :: 0 <= m < |s| ==> result[s[m].sha] == InSegment(s, gap, Segment(s, gap, m), |s|)
  {
    var clusters := Scan(s, gap);
    forall c, d | 0 <= c < d < |clusters|
      ensures Shas(clusters[c]) !! Shas(clusters[d])
    {
      SegmentsAreApart(s, gap, c, d);
    }
    result := NameClusters(clusters);
    forall m | 0 <= m < |s|
      ensures s[m].sha in result && result[s[m].sha] == InSegment(s, gap, Segment(s, gap, m), |s|)
    {
      SegmentGrows(s, gap, m, |s| - 1);
      assert s[m].sha in Shas(clusters[Segment(s, gap, m)]);
    }
  }

  /** `_cluster_by_gap`: the name of each capture's cluster is its single-linkage class, whatever the input order. */
  method ClusterByGap(members: seq<Member>, gap: int) returns (result: map<Digest, set<Digest>>)
    requires Distinct(members) && UniqueShas(Members(members))
    ensures forall sha :: sha in result <==> exists x :: x in members && x.sha == sha
    ensures forall x :: x in members ==> result[x.sha] == BurstOf(Members(members), gap, x)
  {
    var s := Sort(members, MemberLe);
    MemberOrder();
    SortAscends(members, MemberLe);
    SortMembers(members, MemberLe);
    SortDistinct(members, MemberLe);
    assert Members(s) == Members(members);
    result := ClusterSorted(s, gap);
    forall i | 0 <= i < |s|
      ensures s[i].sha in result && result[s[i].sha] == BurstOf(Members(members), gap, s[i])
    {
      SegmentIsCluster(s, gap, Members(members), i);
    }
  }

  lemma SegmentsAreApart(s: seq<Member>, gap: int, c: nat, d: nat)
    requires Distinct(s) && UniqueShas(Members(s)) && c != d
    ensures InSegment(s, gap, c, |s|) !! InSegment(s, gap, d, |s|)
  {
    forall i, j | 0 <= i < |s| && 0 <= j < |s| && s[i].sha == s[j].sha
      ensures i == j
    {
      assert s[i] in s && s[j] in s;
    }
  }

  lemma {:induction false} SegmentIsCluster(s: seq<Member>, gap: int, members: set<Member>, i: nat)
    requires Ascending(s, MemberLe) && Distinct(s) && i < |s|
    requires forall x :: x in s <==> x in members
    ensures InSegment(s, gap, Segment(s, gap, i), |s|) == BurstOf(members, gap, s[i])
  {
    forall j | 0 <= j < |s|
      ensures Segment(s, gap, j) == Segment(s, gap, i) <==> Linked(members, gap, s[i], s[j])
    {
      SegmentIffLinked(s, gap, members, i, j);
    }
    forall sha | sha in BurstOf(members, gap, s[i])
      ensures sha in InSegment(s, gap, Segment(s, gap, i), |s|)
    {
      var y :| y in members && Linked(members, gap, s[i], y) && y.sha == sha;
      var j :| 0 <= j < |s| && s[j] == y;
    }
  }
}
