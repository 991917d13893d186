/** The path-halving union-find both graph builders use, against labels and connectivity. */
module UnionFind {

  /** Parents never point upward, so following them terminates. */
  ghost predicate Descending(p: seq<nat>) {
    forall i :: 0 <= i < |p| ==> p[i] <= i
  }

  ghost function Root(p: seq<nat>, i: nat): (r: nat)
    requires Descending(p) && i < |p|
    ensures r <= i && p[r] == r
  {
    if p[i] == i then i else Root(p, p[i])
  }

  ghost function Roots(p: seq<nat>): (r: seq<nat>)
    requires Descending(p)
    ensures |r| == |p| && forall i :: 0 <= i < |p| ==> r[i] == Root(p, i)
  {
    seq(|p|, i requires 0 <= i < |p| => Root(p, i))
  }

  lemma {:induction false} HalvingKeepsRoot(p: seq<nat>, item: nat, j: nat)
    requires Descending(p) && item < |p| && j < |p|
    ensures Descending(p[item := p[p[item]]])
    ensures Root(p[item := p[p[item]]], j) == Root(p, j)
  {
    var q := p[item := p[p[item]]];
    if j == item {
      if q[j] != j {
        HalvingKeepsRoot(p, item, q[j]);
        assert Root(p, p[p[item]]) == Root(p, p[item]) == Root(p, item);
      } else {
        assert p[item] == item;
      }
    } else if p[j] != j {
      HalvingKeepsRoot(p, item, p[j]);
    }
  }

  lemma {:induction false} LinkMovesOneRoot(p: seq<nat>, low: nat, high: nat, j: nat)
    requires Descending(p) && low < high < |p| && j < |p|
    requires p[low] == low && p[high] == high
    ensures Descending(p[high := low])
    ensures Root(p[high := low], j) == if Root(p, j) == high then low else Root(p, j)
  {
    if j != high && p[j] != j {
      LinkMovesOneRoot(p, low, high, p[j]);
    }
  }

  /** The labelling one union produces: the larger of the two labels becomes the smaller. */
  ghost function Merge(labels: seq<nat>, left: nat, right: nat): (r: seq<nat>)
    requires left < |labels| && right < |labels|
    ensures |r| == |labels|
  {
    var a, b := labels[left], labels[right];
    var low, high := if a <= b then a else b, if a <= b then b else a;
    seq(|labels|, i requires 0 <= i < |labels| => if labels[i] == high then low else labels[i])
  }

  class UnionFind {
    const parent: array<nat>

    ghost predicate Valid()
      reads this, parent
    {
      Descending(parent[..])
    }

    constructor (size: nat)
      ensures Valid() && fresh(parent) && parent.Length == size
      ensures Roots(parent[..]) == Identity(size)
    {
      parent := new nat[size](i => i);
      new;
      assert parent[..] == Identity(size);
    }

    method Find(start: nat) returns (item: nat)
      requires Valid() && start < parent.Length
      modifies parent
      ensures Valid() && Roots(parent[..]) == old(Roots(parent[..]))
      ensures item == old(Roots(parent[..])[start]) && parent[item] == item
    {
      item := start;
      while parent[item] != item
        invariant Valid() && item < parent.Length
        invariant Roots(parent[..]) == old(Roots(parent[..]))
        invariant Root(parent[..], item) == old(Root(parent[..], start))
        decreases item
      {
        ghost var before := parent[..];
        forall j | 0 <= j < |before|
          ensures Root(before[item := before[before[item]]], j) == Root(before, j)
        {
          HalvingKeepsRoot(before, item, j);
        }
        HalvingKeepsRoot(before, item, item);
        assert Root(before, before[before[item]]) == Root(before, before[item]) == Root(before, item);
        parent[item] := parent[parent[item]];
        assert parent[..] == before[item := before[before[item]]];
        assert Roots(parent[..]) == Roots(before);
        item := parent[item];
      }
    }

    method Union(left: nat, right: nat)
      requires Valid() && left < parent.Length && right < parent.Length
      modifies parent
      ensures Valid()
      ensures Roots(parent[..]) == Merge(old(Roots(parent[..])), left, right)
    {
      ghost var labels := Roots(parent[..]);
      var leftRoot := Find(left);
      var rightRoot := Find(right);
      if leftRoot == rightRoot {
        assert Merge(labels, left, right) == labels;
        return;
      }
      var low, high := if leftRoot < rightRoot then leftRoot else rightRoot,
                       if leftRoot < rightRoot then rightRoot else leftRoot;
      ghost var before := parent[..];
      assert before[leftRoot] == leftRoot by {
        assert Roots(before)[left] == leftRoot;
      }
      forall j | 0 <= j < |before|
        ensures Root(before[high := low], j) == if Root(before, j) == high then low else Root(before, j)
      {
        LinkMovesOneRoot(before, low, high, j);
      }
      LinkMovesOneRoot(before, low, high, low);
      parent[high] := low;
      assert parent[..] == before[high := low];
      assert Roots(parent[..]) == Merge(labels, left, right);
    }
  }

  ghost function Identity(n: nat): seq<nat> {
    seq(n, i => i)
  }

  type Link = (nat, nat)

  ghost predicate LinksBelow(links: seq<Link>, n: nat) {
    forall k :: 0 <= k < |links| ==> links[k].0 < n && links[k].1 < n
  }

  /** The labelling after every link was united in order. */
  ghost function Labels(n: nat, links: seq<Link>): (r: seq<nat>)
    requires LinksBelow(links, n)
    ensures |r| == n
  {
    if links == [] then Identity(n)
    else
      var last := links[|links| - 1];
      Merge(Labels(n, links[..|links| - 1]), last.0, last.1)
  }

  /** `for left, right in sorted(edge_values): union_find.union(left, right)` */
  method UniteAll(n: nat, links: seq<Link>) returns (uf: UnionFind)
    requires LinksBelow(links, n)
    ensures fresh(uf) && fresh(uf.parent) && uf.Valid() && uf.parent.Length == n
    ensures Roots(uf.parent[..]) == Labels(n, links)
  {
    uf := new UnionFind(n);
    for k := 0 to |links|
      invariant fresh(uf) && fresh(uf.parent) && uf.Valid() && uf.parent.Length == n
      invariant Roots(uf.parent[..]) == Labels(n, links[..k])
    {
      uf.Union(links[k].0, links[k].1);
      assert links[..k + 1][..k] == links[..k];
    }
    assert links[..|links|] == links;
  }

  // ---- Labels are connected components, named by their least member ----

  ghost predicate Linked(links: seq<Link>, i: nat, j: nat) {
    (i, j) in links || (j, i) in links
  }

  ghost predicate IsPath(links: seq<Link>, n: nat, path: seq<nat>) {
    && |path| > 0
    && (forall k :: 0 <= k < |path| ==> path[k] < n)
    && (forall k :: 0 <= k < |path| - 1 ==> Linked(links, path[k], path[k + 1]))
  }

  ghost predicate Connected(links: seq<Link>, n: nat, i: nat, j: nat) {
    exists path :: IsPath(links, n, path) && path[0] == i && path[|path| - 1] == j
  }

  lemma ConnectedSelf(links: seq<Link>, n: nat, i: nat)
    requires i < n
    ensures Connected(links, n, i, i)
  {
    assert IsPath(links, n, [i]);
  }

  lemma ConnectedLink(links: seq<Link>, n: nat, i: nat, j: nat)
    requires i < n && j < n && Linked(links, i, j)
    ensures Connected(links, n, i, j)
  {
    assert IsPath(links, n, [i, j]);
  }

  lemma ConnectedTransitive(links: seq<Link>, n: nat, i: nat, j: nat, k: nat)
    requires Connected(links, n, i, j) && Connected(links, n, j, k)
    ensures Connected(links, n, i, k)
  {
    var p :| IsPath(links, n, p) && p[0] == i && p[|p| - 1] == j;
    var q :| IsPath(links, n, q) && q[0] == j && q[|q| - 1] == k;
    var r := p + q[1..];
    assert r[|r| - 1] == k;
    forall m | 0 <= m < |r| - 1
      ensures Linked(links, r[m], r[m + 1])
    {
      if m >= |p| - 1 {
        assert r[m] == q[m - |p| + 1] && r[m + 1] == q[m - |p| + 2];
      }
    }
    assert IsPath(links, n, r);
  }

  lemma ConnectedSymmetric(links: seq<Link>, n: nat, i: nat, j: nat)
    requires Connected(links, n, i, j)
    ensures Connected(links, n, j, i)
  {
    var p :| IsPath(links, n, p) && p[0] == i && p[|p| - 1] == j;
    var r := seq(|p|, m requires 0 <= m < |p| => p[|p| - 1 - m]);
    forall m | 0 <= m < |r| - 1
      ensures Linked(links, r[m], r[m + 1])
    {
      assert Linked(links, p[|p| - 2 - m], p[|p| - 1 - m]);
    }
    assert IsPath(links, n, r);
  }

  lemma ConnectedMonotone(fewer: seq<Link>, more: seq<Link>, n: nat, i: nat, j: nat)
    requires forall e :: e in fewer ==> e in more
    requires Connected(fewer, n, i, j)
    ensures Connected(more, n, i, j)
  {
    var p :| IsPath(fewer, n, p) && p[0] == i && p[|p| - 1] == j;
    forall k | 0 <= k < |p| - 1
      ensures Linked(more, p[k], p[k + 1])
    {
      assert Linked(fewer, p[k], p[k + 1]);
    }
    assert IsPath(more, n, p);
  }

  /** Labels stay among the members: each node's label is a node it is connected to, and not above it. */
  lemma {:induction false} LabelIsConnected(n: nat, links: seq<Link>, i: nat)
    requires LinksBelow(links, n) && i < n
    ensures Labels(n, links)[i] <= i && Labels(n, links)[Labels(n, links)[i]] == Labels(n, links)[i]
    ensures Connected(links, n, i, Labels(n, links)[i])
    decreases |links|
  {
    if links == [] {
      ConnectedSelf(links, n, i);
    } else {
      var init, last := links[..|links| - 1], links[|links| - 1];
      var labels := Labels(n, init);
      var a, b := labels[last.0], labels[last.1];
      LabelIsConnected(n, init, i);
      LabelIsConnected(n, init, last.0);
      LabelIsConnected(n, init, last.1);
      ConnectedMonotone(init, links, n, i, labels[i]);
      ConnectedMonotone(init, links, n, last.0, a);
      ConnectedMonotone(init, links, n, last.1, b);
      assert last in links;
      ConnectedLink(links, n, last.0, last.1);
      ConnectedSymmetric(links, n, last.0, a);
      ConnectedTransitive(links, n, a, last.0, last.1);
      ConnectedTransitive(links, n, a, last.1, b);
      ConnectedSymmetric(links, n, a, b);
      if labels[i] == a {
        ConnectedTransitive(links, n, i, a, b);
      }
      if labels[i] == b {
        ConnectedTransitive(links, n, i, b, a);
      }
    }
  }

  lemma {:induction false} LinkedSameLabel(n: nat, links: seq<Link>, i: nat, j: nat)
    requires LinksBelow(links, n) && i < n && j < n && Linked(links, i, j)
    ensures Labels(n, links)[i] == Labels(n, links)[j]
    decreases |links|
  {
    var init, last := links[..|links| - 1], links[|links| - 1];
    assert links == init + [last];
    if Linked(init, i, j) {
      LinkedSameLabel(n, init, i, j);
    }
  }

  lemma {:induction false} PathSameLabel(n: nat, links: seq<Link>, path: seq<nat>)
    requires LinksBelow(links, n) && IsPath(links, n, path)
    ensures Labels(n, links)[path[0]] == Labels(n, links)[path[|path| - 1]]
    decreases |path|
  {
    if |path| > 1 {
      LinkedSameLabel(n, links, path[0], path[1]);
      assert IsPath(links, n, path[1..]) by {
        forall k | 0 <= k < |path| - 2
          ensures Linked(links, path[1..][k], path[1..][k + 1])
        {
          assert Linked(links, path[k + 1], path[k + 2]);
        }
      }
      PathSameLabel(n, links, path[1..]);
    }
  }

  /** Union-find correctness: equal label iff connected, and the label is the component's least member. */
  lemma {:induction false} LabelsAreComponents(n: nat, links: seq<Link>, i: nat, j: nat)
    requires LinksBelow(links, n) && i < n && j < n
    ensures Labels(n, links)[i] == Labels(n, links)[j] <==> Connected(links, n, i, j)
    ensures Connected(links, n, i, j) ==> Labels(n, links)[i] <= j
  {
    LabelIsConnected(n, links, i);
    LabelIsConnected(n, links, j);
    if Labels(n, links)[i] == Labels(n, links)[j] {
      ConnectedSymmetric(links, n, j, Labels(n, links)[j]);
      ConnectedTransitive(links, n, i, Labels(n, links)[i], j);
    }
    if Connected(links, n, i, j) {
      var path :| IsPath(links, n, path) && path[0] == i && path[|path| - 1] == j;
      PathSameLabel(n, links, path);
    }
  }
}
