/** Library inventories: symlink chains within one tree, walked with cycle detection. */
module LibraryLinks {
  import opened Wrappers

  /** A normalised relative path, component by component. */
  type Path = seq<string>

  /** A normalised relative target: some leading parent steps, then plain components. */
  datatype Target = Target(ups: nat, rest: Path)

  datatype Entry = File(size: nat) | Symlink(target: Target)

  datatype Tree = Tree(entries: map<Path, Entry>, resolved: map<Path, Path>)

  datatype Refusal = DuplicatePath | EscapesTree | NotInventoried | LinkCycle | LookupFailed

  /**
   * `_resolve_qnap_inventory_target`: the target seen from the link's directory, or nothing when it leaves the tree.
   */
  function Resolve(link: Path, target: Target): Option<Path>
    requires link != []
  {
    var dir := link[..|link| - 1];
    if target.ups > |dir| then None else Some(dir[..|dir| - target.ups] + target.rest)
  }

  predicate IsLink(tree: Tree, p: Path) {
    p in tree.entries && tree.entries[p].Symlink?
  }

  predicate IsFile(tree: Tree, p: Path) {
    p in tree.entries && tree.entries[p].File?
  }

  /** Every link of the tree has its target resolved, and nothing else does. */
  ghost predicate Consistent(tree: Tree) {
    forall p :: p in tree.resolved <==> IsLink(tree, p)
  }

  function Follow(tree: Tree, p: Path): Path {
    if p in tree.resolved then tree.resolved[p] else p
  }

  /** Where the chain from `start` is after `n` steps; it rests once it leaves the links. */
  function At(tree: Tree, start: Path, n: nat): Path {
    if n == 0 then start else Follow(tree, At(tree, start, n - 1))
  }

  ghost predicate ReachesFile(tree: Tree, start: Path) {
    exists n: nat :: IsFile(tree, At(tree, start, n))
  }

  ghost predicate LeavesInventory(tree: Tree, start: Path) {
    exists n: nat :: At(tree, start, n) !in tree.entries
  }

  ghost predicate Cycles(tree: Tree, start: Path) {
    forall n: nat :: IsLink(tree, At(tree, start, n))
  }

  /** A chain that is off the links stays where it is. */
  lemma {:induction false} RestsAfter(tree: Tree, start: Path, n: nat, m: nat)
    requires Consistent(tree) && n <= m && !IsLink(tree, At(tree, start, n))
    ensures At(tree, start, m) == At(tree, start, n)
  {
    if n < m {
      RestsAfter(tree, start, n, m - 1);
    }
  }

  /** A chain ends in exactly one of three ways. */
  lemma ChainsEndOneWay(tree: Tree, start: Path)
    requires Consistent(tree)
    ensures !(ReachesFile(tree, start) && LeavesInventory(tree, start))
    ensures Cycles(tree, start) <==> !ReachesFile(tree, start) && !LeavesInventory(tree, start)
  {
    if ReachesFile(tree, start) && LeavesInventory(tree, start) {
      var n: nat :| IsFile(tree, At(tree, start, n));
      var m: nat :| At(tree, start, m) !in tree.entries;
      if n <= m {
        RestsAfter(tree, start, n, m);
      } else {
        RestsAfter(tree, start, m, n);
      }
      assert false;
    }
    if !ReachesFile(tree, start) && !LeavesInventory(tree, start) {
      forall n: nat
        ensures IsLink(tree, At(tree, start, n))
      {
        assert !IsFile(tree, At(tree, start, n)) && At(tree, start, n) in tree.entries;
      }
    }
  }

  /** Once a chain repeats, it repeats for ever. */
  lemma {:induction false} Periodic(tree: Tree, start: Path, i: nat, j: nat, n: nat)
    requires i < j && At(tree, start, i) == At(tree, start, j) && n >= j
    ensures At(tree, start, n) == At(tree, start, n - (j - i))
  {
    if n > j {
      Periodic(tree, start, i, j, n - 1);
    }
  }

  lemma {:induction false} RepeatStaysOnLinks(tree: Tree, start: Path, i: nat, j: nat, n: nat)
    requires i < j && At(tree, start, i) == At(tree, start, j)
    requires forall k: nat :: k < j ==> IsLink(tree, At(tree, start, k))
    ensures IsLink(tree, At(tree, start, n))
  {
    if n >= j {
      Periodic(tree, start, i, j, n);
      RepeatStaysOnLinks(tree, start, i, j, n - (j - i));
    }
  }

  /** The links passed so far, each followed to the next, and where the walk stands now. */
  ghost predicate Trail(tree: Tree, start: Path, trail: seq<Path>, cursor: Path) {
    && (forall k :: 0 <= k < |trail| ==> trail[k] in tree.resolved)
    && (forall k :: 0 < k < |trail| ==> trail[k] == tree.resolved[trail[k - 1]])
    && (if trail == [] then cursor == start else trail[0] == start && cursor == tree.resolved[trail[|trail| - 1]])
  }

  lemma {:induction false} TrailIsChain(tree: Tree, start: Path, trail: seq<Path>, cursor: Path, k: nat)
    requires Trail(tree, start, trail, cursor) && k <= |trail|
    ensures At(tree, start, k) == if k < |trail| then trail[k] else cursor
  {
    if k > 0 {
      TrailIsChain(tree, start, trail, cursor, k - 1);
    }
  }

  lemma SeenTwiceCycles(tree: Tree, start: Path, trail: seq<Path>, cursor: Path)
    requires Consistent(tree) && Trail(tree, start, trail, cursor) && cursor in trail
    ensures Cycles(tree, start)
  {
    var i :| 0 <= i < |trail| && trail[i] == cursor;
    forall k: nat | k <= |trail|
      ensures At(tree, start, k) == if k < |trail| then trail[k] else cursor
    {
      TrailIsChain(tree, start, trail, cursor, k);
    }
    forall m: nat
      ensures IsLink(tree, At(tree, start, m))
    {
      RepeatStaysOnLinks(tree, start, i, |trail|, m);
    }
  }

  /** The chain-walking loop; it ends because every pass puts one more link among the seen ones. */
  method WalkChain(tree: Tree, start: Path) returns (r: Result<Path, Refusal>)
    requires Consistent(tree)
    ensures r.Ok? <==> ReachesFile(tree, start)
    ensures r.Ok? ==> IsFile(tree, r.value) && exists n: nat :: At(tree, start, n) == r.value
    ensures r == Err(LinkCycle) <==> Cycles(tree, start)
    ensures r == Err(LookupFailed) <==> LeavesInventory(tree, start)
  {
    var cursor := start;
    var seen: set<Path> := {};
    ghost var trail: seq<Path> := [];
    while cursor in tree.entries && tree.entries[cursor].Symlink?
      invariant Trail(tree, start, trail, cursor)
      invariant forall p :: p in seen <==> p in trail
      decreases tree.resolved.Keys - seen
    {
      if cursor in seen {
        SeenTwiceCycles(tree, start, trail, cursor);
        ChainsEndOneWay(tree, start);
        return Err(LinkCycle);
      }
      seen := seen + {cursor};
      trail := trail + [cursor];
      cursor := tree.resolved[cursor];
    }
    TrailIsChain(tree, start, trail, cursor, |trail|);
    ChainsEndOneWay(tree, start);
    r := if cursor !in tree.entries then Err(LookupFailed) else Ok(cursor);
  }

  // ---- a whole tree ----

  datatype Listed = Listed(path: Path, entry: Entry)

  ghost predicate DistinctPaths(listing: seq<Listed>) {
    forall i, j :: 0 <= i < j < |listing| ==> listing[i].path != listing[j].path
  }

  predicate StaysInside(item: Listed) {
    item.path != [] && (item.entry.Symlink? ==> Resolve(item.path, item.entry.target).Some?)
  }

  /** The tree a listing describes: its entries by path, and each link's resolved target. */
  ghost predicate Describes(tree: Tree, listing: seq<Listed>) {
    && (forall p :: p in tree.entries <==> exists k :: 0 <= k < |listing| && listing[k].path == p)
    && (forall k :: 0 <= k < |listing| ==> tree.entries[listing[k].path] == listing[k].entry && StaysInside(listing[k]))
    && Consistent(tree)
    && (forall k :: 0 <= k < |listing| && listing[k].entry.Symlink? ==>
          Resolve(listing[k].path, listing[k].entry.target) == Some(tree.resolved[listing[k].path]))
  }

  lemma AddedDescribes(tree: Tree, listing: seq<Listed>, item: Listed)
    requires Describes(tree, listing) && StaysInside(item) && item.path !in tree.entries
    ensures item.entry.Symlink? ==>
      Describes(Tree(tree.entries[item.path := item.entry],
                     tree.resolved[item.path := Resolve(item.path, item.entry.target).value]), listing + [item])
    ensures item.entry.File? ==> Describes(Tree(tree.entries[item.path := item.entry], tree.resolved), listing + [item])
  {
    var all := listing + [item];
    forall p | p in tree.entries || p == item.path
      ensures exists k :: 0 <= k < |all| && all[k].path == p
    {
      if p == item.path {
        assert all[|listing|].path == p;
      } else {
        var k :| 0 <= k < |listing| && listing[k].path == p;
        assert all[k].path == p;
      }
    }
  }

  /** One item of the listing: a new path, and a target inside the tree. */
  method AddItem(tree: Tree, ghost listing: seq<Listed>, item: Listed) returns (r: Result<Tree, Refusal>)
    requires Describes(tree, listing) && item.path != []
    ensures r.Ok? <==> item.path !in tree.entries && StaysInside(item)
    ensures r.Ok? ==> Describes(r.value, listing + [item])
    ensures r.Err? ==> r.error == if item.path in tree.entries then DuplicatePath else EscapesTree
  {
    if item.path in tree.entries {
      return Err(DuplicatePath);
    }
    if item.entry.File? {
      AddedDescribes(tree, listing, item);
      return Ok(Tree(tree.entries[item.path := item.entry], tree.resolved));
    }
    var target := Resolve(item.path, item.entry.target);
    if target.None? {
      return Err(EscapesTree);
    }
    AddedDescribes(tree, listing, item);
    r := Ok(Tree(tree.entries[item.path := item.entry], tree.resolved[item.path := target.value]));
  }

  /** The listing loop: every path once, every target inside the tree. */
  method ReadTree(listing: seq<Listed>) returns (r: Result<Tree, Refusal>)
    requires forall k :: 0 <= k < |listing| ==> listing[k].path != []
    ensures r.Ok? <==> DistinctPaths(listing) && forall k :: 0 <= k < |listing| ==> StaysInside(listing[k])
    ensures r.Ok? ==> Describes(r.value, listing)
    ensures r.Err? ==> r.error == DuplicatePath || r.error == EscapesTree
  {
    var tree := Tree(map[], map[]);
    for n := 0 to |listing|
      invariant DistinctPaths(listing[..n]) && Describes(tree, listing[..n])
      invariant forall k :: 0 <= k < n ==> StaysInside(listing[k])
    {
      PathsNext(tree, listing, n);
      var next := AddItem(tree, listing[..n], listing[n]);
      if next.Err? {
        return next;
      }
      tree := next.value;
    }
    assert listing[..|listing|] == listing;
    r := Ok(tree);
  }

  /** The next path is new to the tree exactly when it is new to the listing. */
  lemma PathsNext(tree: Tree, listing: seq<Listed>, n: nat)
    requires n < |listing| && DistinctPaths(listing[..n]) && Describes(tree, listing[..n])
    ensures listing[..n + 1] == listing[..n] + [listing[n]]
    ensures listing[n].path in tree.entries ==> !DistinctPaths(listing)
    ensures listing[n].path !in tree.entries ==> DistinctPaths(listing[..n + 1])
  {
    if listing[n].path in tree.entries {
      var k :| 0 <= k < |listing[..n]| && listing[..n][k].path == listing[n].path;
      assert listing[k].path == listing[n].path;
    } else {
      forall k | 0 <= k < n
        ensures listing[k].path != listing[n].path
      {
        assert listing[..n][k].path in tree.entries;
      }
    }
  }

  /** Every link of the tree leads to a regular file of the tree. */
  ghost predicate LinksReachFiles(tree: Tree) {
    forall p :: IsLink(tree, p) ==> ReachesFile(tree, p)
  }

  /** The check of one link: its own target first, then the whole chain. */
  method CheckLink(tree: Tree, link: Path) returns (r: Option<Refusal>)
    requires Consistent(tree) && IsLink(tree, link)
    ensures r.None? <==> ReachesFile(tree, link)
    ensures r == Some(LinkCycle) <==> Cycles(tree, link)
    ensures r == Some(NotInventoried) <==> tree.resolved[link] !in tree.entries
    ensures r == Some(LookupFailed) <==> tree.resolved[link] in tree.entries && LeavesInventory(tree, link)
    ensures r.Some? ==> r.value != DuplicatePath && r.value != EscapesTree
  {
    ChainsEndOneWay(tree, link);
    if tree.resolved[link] !in tree.entries {
      assert At(tree, link, 1) == Follow(tree, At(tree, link, 0));
      return Some(NotInventoried);
    }
    var end := WalkChain(tree, link);
    r := if end.Ok? then None else Some(end.error);
  }

  /** Two links, the second leading nowhere: the first is refused by a failed lookup, not as an absent target. */
  method LaterBreakFailsLookup() returns (first: Option<Refusal>, second: Option<Refusal>)
    ensures first == Some(LookupFailed) && second == Some(NotInventoried)
  {
    var tree := Tree(map[["a"] := Symlink(Target(0, ["b"])), ["b"] := Symlink(Target(0, ["c"]))],
                     map[["a"] := ["b"], ["b"] := ["c"]]);
    assert At(tree, ["a"], 1) == Follow(tree, At(tree, ["a"], 0)) &&
      At(tree, ["a"], 2) == Follow(tree, At(tree, ["a"], 1));
    assert At(tree, ["a"], 2) == ["c"];
    first := CheckLink(tree, ["a"]);
    second := CheckLink(tree, ["b"]);
  }

  /** Distinct paths, targets inside the tree, and links that lead to regular files. */
  ghost predicate ListingOk(listing: seq<Listed>) {
    && DistinctPaths(listing) && (forall k :: 0 <= k < |listing| ==> StaysInside(listing[k]))
    && (forall tree :: Describes(tree, listing) ==> LinksReachFiles(tree))
  }

  // ---- the listing's own terms ----

  /** A target names what follows its parent steps, seen from the directory that many levels above the link's own. */
  ghost predicate Points(link: Path, target: Target, p: Path) {
    exists kept: Path, dropped: Path, last ::
      link == kept + dropped + [last] && |dropped| == target.ups && p == kept + target.rest
  }

  lemma ResolvePoints(link: Path, target: Target, p: Path)
    requires link != []
    ensures Resolve(link, target) == Some(p) <==> Points(link, target, p)
  {
    var dir := link[..|link| - 1];
    if target.ups <= |dir| {
      var kept, dropped := dir[..|dir| - target.ups], dir[|dir| - target.ups..];
      assert link == kept + dropped + [link[|link| - 1]];
    }
    forall kept: Path, dropped: Path, last | link == kept + dropped + [last] && |dropped| == target.ups
      ensures target.ups <= |dir| && kept == dir[..|dir| - target.ups]
    {
      assert dir == kept + dropped;
    }
  }

  /** From item to item along links, up to a regular file. */
  ghost predicate Route(listing: seq<Listed>, route: seq<nat>) {
    && route != [] && (forall n :: 0 <= n < |route| ==> route[n] < |listing|)
    && (forall n :: 0 < n < |route| ==> LeadsOn(listing, route[n - 1], route[n]))
    && listing[route[|route| - 1]].entry.File?
  }

  ghost predicate LeadsOn(listing: seq<Listed>, i: nat, j: nat) {
    && i < |listing| && j < |listing| && listing[i].entry.Symlink?
    && Points(listing[i].path, listing[i].entry.target, listing[j].path)
  }

  ghost predicate LeadsToFile(listing: seq<Listed>, i: nat) {
    exists route :: Route(listing, route) && route[0] == i
  }

  lemma {:induction false} ChainShifts(tree: Tree, start: Path, n: nat)
    requires n > 0
    ensures At(tree, start, n) == At(tree, Follow(tree, start), n - 1)
  {
    if n > 1 {
      ChainShifts(tree, start, n - 1);
    }
  }

  lemma StepIsLead(tree: Tree, listing: seq<Listed>, i: nat, j: nat)
    requires Describes(tree, listing) && i < |listing| && j < |listing| && listing[i].entry.Symlink?
    ensures LeadsOn(listing, i, j) <==> Follow(tree, listing[i].path) == listing[j].path
  {
    assert listing[i].path in tree.entries && IsLink(tree, listing[i].path);
    ResolvePoints(listing[i].path, listing[i].entry.target, listing[j].path);
  }

  lemma {:induction false} ChainIsRoute(tree: Tree, listing: seq<Listed>, i: nat, n: nat)
    requires Describes(tree, listing) && i < |listing| && IsFile(tree, At(tree, listing[i].path, n))
    ensures LeadsToFile(listing, i)
    decreases n
  {
    if listing[i].entry.File? {
      assert Route(listing, [i]);
    } else {
      assert IsLink(tree, listing[i].path);
      var next := Follow(tree, listing[i].path);
      assert n > 0;
      ChainShifts(tree, listing[i].path, n);
      RestsAfterStart(tree, next, n - 1);
      var j :| 0 <= j < |listing| && listing[j].path == next;
      ChainIsRoute(tree, listing, j, n - 1);
      StepIsLead(tree, listing, i, j);
      var route :| Route(listing, route) && route[0] == j;
      assert Route(listing, [i] + route);
    }
  }

  lemma {:induction false} RestsAfterStart(tree: Tree, start: Path, n: nat)
    requires Consistent(tree) && IsFile(tree, At(tree, start, n))
    ensures start in tree.entries
  {
    if start !in tree.entries {
      assert At(tree, start, 0) == start;
      RestsAfter(tree, start, 0, n);
    }
  }

  lemma {:induction false} RouteIsChain(tree: Tree, listing: seq<Listed>, route: seq<nat>)
    requires Describes(tree, listing) && Route(listing, route)
    ensures ReachesFile(tree, listing[route[0]].path)
    decreases |route|
  {
    var start := listing[route[0]].path;
    if |route| == 1 {
      assert start in tree.entries && IsFile(tree, At(tree, start, 0));
    } else {
      var rest := route[1..];
      assert LeadsOn(listing, route[0], route[1]);
      assert forall n :: 0 < n < |rest| ==> LeadsOn(listing, route[n], route[n + 1]);
      RouteIsChain(tree, listing, rest);
      StepIsLead(tree, listing, route[0], route[1]);
      var n: nat :| IsFile(tree, At(tree, listing[rest[0]].path, n));
      ChainShifts(tree, start, n + 1);
    }
  }

  /** An item that leads to a regular file stays inside the tree. */
  lemma RoutesStayInside(listing: seq<Listed>)
    requires forall k :: 0 <= k < |listing| ==> listing[k].path != []
    ensures forall k: nat :: k < |listing| && LeadsToFile(listing, k) ==> StaysInside(listing[k])
  {
    forall k: nat | k < |listing| && LeadsToFile(listing, k)
      ensures StaysInside(listing[k])
    {
      var route :| Route(listing, route) && route[0] == k;
      if listing[k].entry.Symlink? {
        assert LeadsOn(listing, route[0], route[1]);
        ResolvePoints(listing[k].path, listing[k].entry.target, listing[route[1]].path);
      }
    }
  }

  lemma LinksReachExactly(tree: Tree, listing: seq<Listed>)
    requires Describes(tree, listing)
    ensures LinksReachFiles(tree) <==> forall k: nat :: k < |listing| ==> LeadsToFile(listing, k)
  {
    forall k: nat | k < |listing|
      ensures LeadsToFile(listing, k) <==> ReachesFile(tree, listing[k].path)
      ensures listing[k].entry.File? ==> ReachesFile(tree, listing[k].path)
    {
      assert listing[k].path in tree.entries;
      if LeadsToFile(listing, k) {
        var route :| Route(listing, route) && route[0] == k;
        RouteIsChain(tree, listing, route);
      }
      if ReachesFile(tree, listing[k].path) {
        var n: nat :| IsFile(tree, At(tree, listing[k].path, n));
        ChainIsRoute(tree, listing, k, n);
      }
      assert At(tree, listing[k].path, 0) == listing[k].path;
    }
    if forall k: nat :: k < |listing| ==> LeadsToFile(listing, k) {
      AllLinksChecked(tree, listing);
    }
  }

  /** A listing is in order exactly when its paths are distinct and every item leads to a regular file. */
  lemma ListingExactly(listing: seq<Listed>)
    requires forall k :: 0 <= k < |listing| ==> listing[k].path != []
    ensures ListingOk(listing) <==>
      DistinctPaths(listing) && forall k: nat :: k < |listing| ==> LeadsToFile(listing, k)
  {
    RoutesStayInside(listing);
    if DistinctPaths(listing) && forall k :: 0 <= k < |listing| ==> StaysInside(listing[k]) {
      var tree := TreeOf(listing);
      DescribesOnly(tree, listing);
      LinksReachExactly(tree, listing);
    }
  }

  /** The tree of a listing. */
  lemma {:induction false} TreeOf(listing: seq<Listed>) returns (tree: Tree)
    requires DistinctPaths(listing) && forall k :: 0 <= k < |listing| ==> StaysInside(listing[k])
    ensures Describes(tree, listing)
  {
    if listing == [] {
      tree := Tree(map[], map[]);
    } else {
      var init, item := listing[..|listing| - 1], listing[|listing| - 1];
      assert listing == init + [item];
      var before := TreeOf(init);
      AddedDescribes(before, init, item);
      tree := Tree(before.entries[item.path := item.entry],
                   if item.entry.Symlink? then before.resolved[item.path := Resolve(item.path, item.entry.target).value]
                   else before.resolved);
    }
  }

  /** Reading and then checking every link in listing order. */
  method ValidateTree(listing: seq<Listed>) returns (r: Result<Tree, Refusal>)
    requires forall k :: 0 <= k < |listing| ==> listing[k].path != []
    ensures r.Ok? <==> ListingOk(listing)
    ensures r.Ok? <==> DistinctPaths(listing) && forall k: nat :: k < |listing| ==> LeadsToFile(listing, k)
    ensures r.Ok? ==> Describes(r.value, listing) && LinksReachFiles(r.value)
    ensures r.Err? && r.error != DuplicatePath && r.error != EscapesTree ==>
      forall tree :: Describes(tree, listing) ==> !LinksReachFiles(tree)
    ensures r == Err(LinkCycle) ==> forall tree :: Describes(tree, listing) ==>
      exists p :: IsLink(tree, p) && Cycles(tree, p)
    ensures r == Err(DuplicatePath) || r == Err(EscapesTree) <==>
      !(DistinctPaths(listing) && forall k :: 0 <= k < |listing| ==> StaysInside(listing[k]))
  {
    var read := ReadTree(listing);
    ListingExactly(listing);
    if read.Err? {
      return read;
    }
    var refusal := CheckLinks(read.value, listing);
    DescribesOnly(read.value, listing);
    r := if refusal.Some? then Err(refusal.value) else read;
  }

  /** The loop over the links of a tree that was read. */
  method CheckLinks(tree: Tree, listing: seq<Listed>) returns (r: Option<Refusal>)
    requires Describes(tree, listing)
    ensures r.None? <==> LinksReachFiles(tree)
    ensures r == Some(LinkCycle) ==> exists p :: IsLink(tree, p) && Cycles(tree, p)
    ensures r.Some? ==> r.value != DuplicatePath && r.value != EscapesTree
  {
    for n := 0 to |listing|
      invariant forall k :: 0 <= k < n && listing[k].entry.Symlink? ==> ReachesFile(tree, listing[k].path)
    {
      if listing[n].entry.Symlink? {
        r := CheckLink(tree, listing[n].path);
        if r.Some? {
          return;
        }
      }
    }
    AllLinksChecked(tree, listing);
    r := None;
  }

  lemma DescribesOnly(tree: Tree, listing: seq<Listed>)
    requires Describes(tree, listing)
    ensures forall other :: Describes(other, listing) ==> other == tree
  {
    forall other | Describes(other, listing)
      ensures other == tree
    {
      DescribesOne(tree, other, listing);
    }
  }

  lemma AllLinksChecked(tree: Tree, listing: seq<Listed>)
    requires Describes(tree, listing)
    requires forall k :: 0 <= k < |listing| && listing[k].entry.Symlink? ==> ReachesFile(tree, listing[k].path)
    ensures LinksReachFiles(tree)
  {
    forall p | IsLink(tree, p)
      ensures ReachesFile(tree, p)
    {
      var k :| 0 <= k < |listing| && listing[k].path == p;
    }
  }

  lemma DescribesOne(tree: Tree, other: Tree, listing: seq<Listed>)
    requires Describes(tree, listing) && Describes(other, listing)
    ensures tree == other
  {
    assert tree.entries == other.entries;
    forall p | p in tree.resolved
      ensures p in other.resolved && tree.resolved[p] == other.resolved[p]
    {
      assert IsLink(other, p);
      var k :| 0 <= k < |listing| && listing[k].path == p;
    }
    assert tree.resolved == other.resolved;
  }

  /**
   * In an accepted tree every inventoried path leads to a regular file, so the second walk can refuse nothing but
   * absence.
   */
  lemma AcceptedPathsResolve(tree: Tree, path: Path)
    requires Consistent(tree) && LinksReachFiles(tree)
    ensures ReachesFile(tree, path) <==> path in tree.entries
  {
    if path in tree.entries && IsFile(tree, path) {
      assert IsFile(tree, At(tree, path, 0));
    }
    if path !in tree.entries {
      assert At(tree, path, 0) !in tree.entries;
      ChainsEndOneWay(tree, path);
    }
  }

  /** The required-library check against an accepted tree. */
  method CheckRequired(tree: Tree, path: Path) returns (r: Option<Refusal>)
    requires Consistent(tree) && LinksReachFiles(tree)
    ensures r == if path in tree.entries then None else Some(NotInventoried)
    ensures r.None? ==> ReachesFile(tree, path)
  {
    AcceptedPathsResolve(tree, path);
    ChainsEndOneWay(tree, path);
    if path !in tree.entries {
      return Some(NotInventoried);
    }
    var end := WalkChain(tree, path);
    match end
    case Ok(_) => r := None;
    case Err(e) => r := Some(e);
  }
}
