/** A whole library inventory: two trees, and the libraries that a container must find in them. */
module LibraryInventory {
  import opened LibraryLinks
  import opened Order
  import opened Wrappers

  /** The two allowed mounts, in the order of their source roots and of their container roots alike. */
  datatype Root = Cuda | Nvidia | Unknown

  datatype Declared = Declared(root: Root, entries: seq<Listed>, total: nat, digest: Digest)

  datatype Required = Required(root: Root, path: Path)

  datatype Inventory = Inventory(trees: seq<Declared>, required: seq<Required>)

  const SNAPSHOT_MAX: nat := 3_221_225_472
  const DRIVER: string := "libcuda.so.1"

  /** The path as it is written, which is how paths are compared. */
  function Posix(path: Path): string {
    if path == [] then "" else if |path| == 1 then path[0] else path[0] + "/" + Posix(path[1..])
  }

  // ---- one declared tree ----

  function RegularBytes(entries: seq<Listed>): nat {
    if entries == [] then 0
    else
      var last := entries[|entries| - 1].entry;
      RegularBytes(entries[..|entries| - 1]) + if last.File? then last.size else 0
  }

  ghost predicate PathsSorted(entries: seq<Listed>) {
    forall i, j :: 0 <= i < j < |entries| ==> StringLe(Posix(entries[i].path), Posix(entries[j].path))
  }

  /** Distinct sorted paths, links that stay inside and lead to regular files, and the declared size and digest. */
  ghost predicate DeclaredOk(digest: seq<Listed> -> Digest, d: Declared) {
    && d.entries != [] && (forall k :: 0 <= k < |d.entries| ==> d.entries[k].path != [])
    && ListingOk(d.entries) && PathsSorted(d.entries)
    && d.total == RegularBytes(d.entries) && d.digest == digest(d.entries)
  }

  method AreSorted(entries: seq<Listed>) returns (ok: bool)
    ensures ok <==> PathsSorted(entries)
  {
    for n := 0 to |entries|
      invariant PathsSorted(entries[..n])
    {
      if n > 0 && !StringLe(Posix(entries[n - 1].path), Posix(entries[n].path)) {
        return false;
      }
      SortedNext(entries, n);
    }
    assert entries[..|entries|] == entries;
    ok := true;
  }

  lemma SortedNext(entries: seq<Listed>, n: nat)
    requires n < |entries| && PathsSorted(entries[..n])
    requires n > 0 ==> StringLe(Posix(entries[n - 1].path), Posix(entries[n].path))
    ensures PathsSorted(entries[..n + 1])
  {
    forall i | 0 <= i < n
      ensures StringLe(Posix(entries[i].path), Posix(entries[n].path))
    {
      assert entries[..n][i] == entries[i] && entries[..n][n - 1] == entries[n - 1];
      if i < n - 1 {
        assert StringLe(Posix(entries[..n][i].path), Posix(entries[..n][n - 1].path));
        StringLeTransitive(Posix(entries[i].path), Posix(entries[n - 1].path), Posix(entries[n].path));
      }
    }
    assert entries[..n + 1] == entries[..n] + [entries[n]];
  }

  method SumBytes(entries: seq<Listed>) returns (bytes: nat)
    ensures bytes == RegularBytes(entries)
  {
    bytes := 0;
    for n := 0 to |entries|
      invariant bytes == RegularBytes(entries[..n])
    {
      assert entries[..n + 1][..n] == entries[..n];
      bytes := bytes + if entries[n].entry.File? then entries[n].entry.size else 0;
    }
    assert entries[..|entries|] == entries;
  }

  /** The body of the loop over the trees. */
  method ReadDeclared(digest: seq<Listed> -> Digest, d: Declared) returns (r: Option<Tree>)
    ensures r.Some? <==> DeclaredOk(digest, d)
    ensures r.Some? ==> Describes(r.value, d.entries) && LinksReachFiles(r.value)
  {
    if d.entries == [] || exists k :: 0 <= k < |d.entries| && d.entries[k].path == [] {
      return None;
    }
    var read := ValidateTree(d.entries);
    if read.Err? {
      return None;
    }
    var sorted := AreSorted(d.entries);
    var bytes := SumBytes(d.entries);
    if !sorted || d.total != bytes || d.digest != digest(d.entries) {
      return None;
    }
    r := Some(read.value);
  }

  // ---- the required libraries ----

  predicate Lists(d: Declared, path: Path) {
    exists k :: 0 <= k < |d.entries| && d.entries[k].path == path
  }

  function RootRank(root: Root): nat {
    match root
    case Cuda => 0
    case Nvidia => 1
    case Unknown => 2
  }

  predicate KeyLe(x: Required, y: Required) {
    RootRank(x.root) < RootRank(y.root) || (x.root == y.root && StringLe(Posix(x.path), Posix(y.path)))
  }

  ghost predicate KeysSorted(required: seq<Required>) {
    forall i, j :: 0 <= i < j < |required| ==> KeyLe(required[i], required[j])
  }

  /** The tree that holds a required library; only the two known roots have one. */
  function TreeFor(trees: seq<Declared>, root: Root): Declared
    requires |trees| == 2
  {
    if root == Cuda then trees[0] else trees[1]
  }

  predicate IsDriver(item: Required) {
    item.root == Nvidia && item.path != [] && item.path[|item.path| - 1] == DRIVER
  }

  /** A proper path, inventoried in the tree of a known root. */
  predicate ItemOk(trees: seq<Declared>, item: Required)
    requires |trees| == 2
  {
    item.path != [] && !item.root.Unknown? && Lists(TreeFor(trees, item.root), item.path)
  }

  /** Inventoried libraries of known roots, sorted and unrepeated, the driver among them and either tree represented. */
  ghost predicate RequiredOk(trees: seq<Declared>, required: seq<Required>)
    requires |trees| == 2
  {
    && (forall k :: 0 <= k < |required| ==> ItemOk(trees, required[k]))
    && Distinct(required) && KeysSorted(required)
    && (exists k :: 0 <= k < |required| && IsDriver(required[k]))
    && (exists k :: 0 <= k < |required| && required[k].root == Cuda)
  }

  ghost predicate TreesOk(digest: seq<Listed> -> Digest, trees: seq<Declared>) {
    && |trees| == 2 && trees[0].root == Cuda && trees[1].root == Nvidia
    && DeclaredOk(digest, trees[0]) && DeclaredOk(digest, trees[1])
    && trees[0].total + trees[1].total <= SNAPSHOT_MAX
  }

  ghost predicate InventoryOk(digest: seq<Listed> -> Digest, inventory: Inventory) {
    TreesOk(digest, inventory.trees) && RequiredOk(inventory.trees, inventory.required)
  }

  ghost predicate Reads(trees: seq<Declared>, read: (Tree, Tree)) {
    && |trees| == 2
    && Describes(read.0, trees[0].entries) && LinksReachFiles(read.0)
    && Describes(read.1, trees[1].entries) && LinksReachFiles(read.1)
  }

  function ReadFor(read: (Tree, Tree), root: Root): Tree {
    if root == Cuda then read.0 else read.1
  }

  /** One required library: known root, proper path, not seen before, and inventoried; its chain then ends at a file. */
  method CheckOne(trees: seq<Declared>, read: (Tree, Tree), item: Required) returns (ok: bool)
    requires Reads(trees, read)
    ensures ok <==> ItemOk(trees, item)
    ensures ok ==> ReachesFile(ReadFor(read, item.root), item.path)
  {
    if item.path == [] || item.root.Unknown? {
      return false;
    }
    var refusal := CheckRequired(ReadFor(read, item.root), item.path);
    ok := refusal.None?;
  }

  /** Whether the keys ascend; the loop has already refused repetition. */
  method KeysAscend(required: seq<Required>) returns (ok: bool)
    ensures ok <==> KeysSorted(required)
  {
    for n := 0 to |required|
      invariant KeysSorted(required[..n])
    {
      if n > 0 && !KeyLe(required[n - 1], required[n]) {
        return false;
      }
      KeysNext(required, n);
    }
    assert required[..|required|] == required;
    ok := true;
  }

  lemma KeyLeTransitive(x: Required, y: Required, z: Required)
    requires KeyLe(x, y) && KeyLe(y, z)
    ensures KeyLe(x, z)
  {
    if x.root == y.root == z.root {
      StringLeTransitive(Posix(x.path), Posix(y.path), Posix(z.path));
    }
  }

  lemma KeysNext(required: seq<Required>, n: nat)
    requires n < |required| && KeysSorted(required[..n])
    requires n > 0 ==> KeyLe(required[n - 1], required[n])
    ensures KeysSorted(required[..n + 1])
  {
    forall i | 0 <= i < n
      ensures KeyLe(required[i], required[n])
    {
      assert required[..n][i] == required[i] && required[..n][n - 1] == required[n - 1];
      if i < n - 1 {
        assert KeyLe(required[..n][i], required[..n][n - 1]);
        KeyLeTransitive(required[i], required[n - 1], required[n]);
      }
    }
    assert required[..n + 1] == required[..n] + [required[n]];
  }

  ghost predicate Leads(read: (Tree, Tree), item: Required) {
    ReachesFile(ReadFor(read, item.root), item.path)
  }

  /** The loop over the required libraries. */
  method CheckEach(trees: seq<Declared>, read: (Tree, Tree), required: seq<Required>) returns (ok: bool)
    requires Reads(trees, read)
    ensures ok <==> (forall k :: 0 <= k < |required| ==> ItemOk(trees, required[k])) && Distinct(required)
    ensures ok ==> forall k :: 0 <= k < |required| ==> Leads(read, required[k])
  {
    for n := 0 to |required|
      invariant Distinct(required[..n])
      invariant forall k :: 0 <= k < n ==> ItemOk(trees, required[k]) && Leads(read, required[k])
    {
      var fine := CheckOne(trees, read, required[n]);
      if !fine {
        return false;
      }
      if required[n] in required[..n] {
        ghost var k :| 0 <= k < n && required[..n][k] == required[n];
        assert required[k] == required[n];
        return false;
      }
      assert required[..n + 1] == required[..n] + [required[n]];
    }
    assert required[..|required|] == required;
    ok := true;
  }

  /** The loop and the checks behind it. */
  method CheckAll(trees: seq<Declared>, read: (Tree, Tree), required: seq<Required>) returns (ok: bool)
    requires Reads(trees, read)
    ensures ok <==> RequiredOk(trees, required)
    ensures ok ==> forall k :: 0 <= k < |required| ==> Leads(read, required[k])
  {
    ok := CheckEach(trees, read, required);
    if !ok {
      return;
    }
    ok := KeysAscend(required);
    ok := && ok && (exists k :: 0 <= k < |required| && IsDriver(required[k]))
          && (exists k :: 0 <= k < |required| && required[k].root == Cuda);
  }

  // ---- an inventory in its own terms ----

  /** A path is its components joined by slashes. */
  lemma {:induction false} PosixJoins(a: Path, b: Path)
    requires a != [] && b != []
    ensures Posix(a + b) == Posix(a) + "/" + Posix(b) && (|a| == 1 ==> Posix(a) == a[0])
  {
    if |a| > 1 {
      PosixJoins(a[1..], b);
      assert (a + b)[1..] == a[1..] + b;
    } else {
      assert (a + b)[1..] == b;
    }
  }

  /** As texts, the first path comes before the second or is it. */
  ghost predicate WrittenBefore(x: Path, y: Path) {
    exists n: nat :: TurnsAt(Posix(x), Posix(y), n)
  }

  ghost predicate DeclaredSays(digest: seq<Listed> -> Digest, d: Declared) {
    && d.entries != [] && (forall k :: 0 <= k < |d.entries| ==> d.entries[k].path != [])
    && (forall i, j :: 0 <= i < j < |d.entries| ==> d.entries[i].path != d.entries[j].path)
    && (forall k: nat :: k < |d.entries| ==> LeadsToFile(d.entries, k))
    && (forall i, j :: 0 <= i < j < |d.entries| ==> WrittenBefore(d.entries[i].path, d.entries[j].path))
    && d.total == RegularBytes(d.entries) && d.digest == digest(d.entries)
  }

  /** A path that the tree of its root lists. */
  ghost predicate IsListed(trees: seq<Declared>, item: Required)
    requires |trees| == 2
  {
    && item.path != []
    && ((item.root == Cuda && Lists(trees[0], item.path)) || (item.root == Nvidia && Lists(trees[1], item.path)))
  }

  ghost predicate RequiredSays(trees: seq<Declared>, required: seq<Required>)
    requires |trees| == 2
  {
    && (forall k :: 0 <= k < |required| ==> IsListed(trees, required[k]))
    && (forall i, j :: 0 <= i < j < |required| ==>
          && required[i] != required[j]
          && (|| (required[i].root == Cuda && required[j].root == Nvidia)
              || (required[i].root == required[j].root && WrittenBefore(required[i].path, required[j].path))))
    && (exists k :: 0 <= k < |required| && required[k].root == Cuda)
    && (exists k :: 0 <= k < |required| && required[k].root == Nvidia && required[k].path != [] &&
          required[k].path[|required[k].path| - 1] == "libcuda.so.1")
  }

  /** Two trees in order, at most three gibibytes together, and the libraries required of them. */
  ghost predicate InventorySays(digest: seq<Listed> -> Digest, inventory: Inventory) {
    && |inventory.trees| == 2 && inventory.trees[0].root == Cuda && inventory.trees[1].root == Nvidia
    && DeclaredSays(digest, inventory.trees[0]) && DeclaredSays(digest, inventory.trees[1])
    && inventory.trees[0].total + inventory.trees[1].total <= 3 * 1024 * 1024 * 1024
    && RequiredSays(inventory.trees, inventory.required)
  }

  lemma SortedSays(entries: seq<Listed>)
    ensures PathsSorted(entries) <==>
      forall i, j :: 0 <= i < j < |entries| ==> WrittenBefore(entries[i].path, entries[j].path)
  {
    forall i, j | 0 <= i < j < |entries|
      ensures StringLe(Posix(entries[i].path), Posix(entries[j].path)) <==>
        WrittenBefore(entries[i].path, entries[j].path)
    {
      StringLeSpelledOut(Posix(entries[i].path), Posix(entries[j].path));
    }
  }

  lemma DeclaredExactly(digest: seq<Listed> -> Digest, d: Declared)
    ensures DeclaredOk(digest, d) <==> DeclaredSays(digest, d)
  {
    SortedSays(d.entries);
    if forall k :: 0 <= k < |d.entries| ==> d.entries[k].path != [] {
      ListingExactly(d.entries);
    }
  }

  lemma RequiredExactly(trees: seq<Declared>, required: seq<Required>)
    requires |trees| == 2
    ensures RequiredOk(trees, required) <==> RequiredSays(trees, required)
  {
    forall k | 0 <= k < |required|
      ensures ItemOk(trees, required[k]) <==> IsListed(trees, required[k])
      ensures IsDriver(required[k]) <==>
        (&& required[k].root == Nvidia && required[k].path != []
         && required[k].path[|required[k].path| - 1] == "libcuda.so.1")
    {
    }
    forall i, j | 0 <= i < j < |required| && ItemOk(trees, required[i]) && ItemOk(trees, required[j])
      ensures KeyLe(required[i], required[j]) <==>
        (|| (required[i].root == Cuda && required[j].root == Nvidia)
         || (required[i].root == required[j].root && WrittenBefore(required[i].path, required[j].path)))
    {
      StringLeSpelledOut(Posix(required[i].path), Posix(required[j].path));
    }
  }

  /**
   * `_validate_qnap_library_inventory`: accepted exactly when both trees and the required list are in order, and then
   * every required library leads to a regular file of its own tree.
   */
  method ValidateInventory(digest: seq<Listed> -> Digest, inventory: Inventory) returns (r: Option<(Tree, Tree)>)
    ensures r.Some? <==> InventoryOk(digest, inventory)
    ensures r.Some? <==> InventorySays(digest, inventory)
    ensures r.Some? ==> Reads(inventory.trees, r.value)
    ensures r.Some? ==> forall k :: 0 <= k < |inventory.required| ==> Leads(r.value, inventory.required[k])
  {
    var trees := inventory.trees;
    if |trees| != 2 || trees[0].root != Cuda || trees[1].root != Nvidia {
      return None;
    }
    DeclaredExactly(digest, trees[0]);
    DeclaredExactly(digest, trees[1]);
    RequiredExactly(trees, inventory.required);
    var first := ReadDeclared(digest, trees[0]);
    var second := ReadDeclared(digest, trees[1]);
    if first.None? || second.None? || trees[0].total + trees[1].total > SNAPSHOT_MAX {
      return None;
    }
    var read := (first.value, second.value);
    var ok := CheckAll(trees, read, inventory.required);
    r := if ok then Some(read) else None;
  }
}
