/** Per-group selection of the best-scored rows in one pass with bounded heaps. */
module TopRows {
  import opened Order
  import opened Wrappers

  /** A manifest row: its split and class as one group index in sorted order, absent when invalid. */
  datatype Row = Row(group: Option<nat>, sid: Option<nat>, payload: nat)

  /** `(-score, source_id, row)`, compared left to right; source ids are unique, so the row itself never decides. */
  datatype Item = Item(score: nat, sid: nat, payload: nat)

  type Score = nat -> nat

  const GROUPS: nat := 18

  datatype Refusal = InvalidIdentity | DuplicateSource | MissingGroup

  datatype Result = Selected(items: seq<Item>, counts: map<nat, nat>) | Refused(reason: Refusal)

  /** `x` comes no later than `y` in the reversed tuple order: lower score first, then higher source id. */
  predicate Before(x: Item, y: Item) {
    x.score < y.score || (x.score == y.score && (x.sid > y.sid || (x.sid == y.sid && x.payload >= y.payload)))
  }

  lemma ItemOrder()
    ensures TotalOrder(Before)
  {
  }

  predicate Valid(row: Row) {
    row.group.Some? && row.group.value < GROUPS && row.sid.Some?
  }

  function ItemOf(row: Row, score: Score): Item {
    if row.sid.Some? then Item(score(row.sid.value), row.sid.value, row.payload) else Item(0, 0, row.payload)
  }

  /** The items of one group among the rows. */
  function ItemsOf(rows: seq<Row>, score: Score, group: nat): set<Item> {
    set row | row in rows && row.group == Some(group) :: ItemOf(row, score)
  }

  /** The reference: sort everything, then take the first `k`. */
  function Best(items: set<Item>, k: nat): seq<Item> {
    ItemOrder();
    Take(SortedSet(items, Before), k)
  }

  function BestOf(rows: seq<Row>, score: Score, group: nat, k: nat): seq<Item> {
    Best(ItemsOf(rows, score, group), k)
  }

  ghost function Concat(lists: seq<seq<Item>>, n: nat): seq<Item>
    requires n <= |lists|
  {
    if n == 0 then [] else Concat(lists, n - 1) + lists[n - 1]
  }

  /** The reference result: the best of every group, group after group. */
  ghost function Ranked(rows: seq<Row>, score: Score, k: nat): seq<Item> {
    Concat(Bests(rows, score, k), GROUPS)
  }

  ghost predicate DistinctSources(rows: seq<Row>) {
    forall i, j :: 0 <= i < j < |rows| ==> rows[i].sid != rows[j].sid
  }

  predicate AllGroups(rows: seq<Row>) {
    forall g :: 0 <= g < GROUPS ==> exists row :: row in rows && row.group == Some(g)
  }

  // ---- one heap ----

  /** A bounded heap, kept in order; its root is the last element. */
  method Offer(heap: seq<Item>, item: Item, k: nat) returns (r: seq<Item>)
    requires k >= 1 && |heap| <= k && Ascending(heap, Before)
    ensures r == Take(Insert(item, heap, Before), k)
  {
    ItemOrder();
    InsertMembers(item, heap, Before);
    assert |Insert(item, heap, Before)| == |heap| + 1 by {
      assert |multiset(Insert(item, heap, Before))| == |multiset(heap) + multiset{item}|;
    }
    if |heap| < k {
      r := Insert(item, heap, Before);
    } else if !Before(heap[|heap| - 1], item) {
      r := Take(Insert(item, heap, Before), k);
    } else {
      InsertLast(item, heap, Before);
      r := heap;
    }
  }

  lemma TakeCons(x: Item, s: seq<Item>, k: nat)
    requires k > 0
    ensures Take([x] + s, k) == [x] + Take(s, k - 1)
  {
  }

  lemma {:induction false} TakeInsert(x: Item, s: seq<Item>, k: nat)
    ensures Take(Insert(x, Take(s, k), Before), k) == Take(Insert(x, s, Before), k)
  {
    if s != [] && k > 0 && Before(s[0], x) {
      TakeInsert(x, s[1..], k - 1);
      assert Take(s, k)[0] == s[0] && Take(s, k)[1..] == Take(s[1..], k - 1);
      assert Insert(x, s, Before) == [s[0]] + Insert(x, s[1..], Before);
      assert Insert(x, Take(s, k), Before) == [s[0]] + Insert(x, Take(s[1..], k - 1), Before);
      TakeCons(s[0], Insert(x, s[1..], Before), k);
      TakeCons(s[0], Insert(x, Take(s[1..], k - 1), Before), k);
    } else if s != [] && k > 0 {
      assert Take(s, k)[0] == s[0];
      assert Insert(x, s, Before) == [x] + s && Insert(x, Take(s, k), Before) == [x] + Take(s, k);
      assert Take([x] + Take(s, k), k) == Take([x] + s, k);
    }
  }

  /** Adding a new item to a set inserts it into the sorted listing. */
  lemma {:induction false} SortedSetInsert(items: set<Item>, x: Item)
    requires x !in items && TotalOrder(Before)
    ensures SortedSet(items + {x}, Before) == Insert(x, SortedSet(items, Before), Before)
  {
    var s := SortedSet(items, Before);
    InsertDistinct(x, s);
    InsertKeepsOrder(x, s, Before);
    AscendingListingIsUnique(SortedSet(items + {x}, Before), Insert(x, s, Before), Before);
  }

  lemma {:induction false} InsertDistinct(x: Item, s: seq<Item>)
    requires Distinct(s) && x !in s
    ensures Distinct(Insert(x, s, Before)) && forall y :: y in Insert(x, s, Before) <==> y == x || y in s
  {
    var r := Insert(x, s, Before);
    InsertMembers(x, s, Before);
    SameMembers(r, s + [x]);
    assert Distinct(s + [x]);
    PermutationDistinct(s + [x], r);
  }

  /** A bounded heap that holds the best of what was seen still does after the next item. */
  lemma {:induction false} HeapKeepsBest(items: set<Item>, x: Item, k: nat)
    requires x !in items
    ensures Take(Insert(x, Best(items, k), Before), k) == Best(items + {x}, k) && Ascending(Best(items, k), Before)
  {
    ItemOrder();
    SortedSetInsert(items, x);
    TakeInsert(x, SortedSet(items, Before), k);
  }

  // ---- the pass over the manifest ----

  ghost predicate AllValid(rows: seq<Row>) {
    forall i :: 0 <= i < |rows| ==> Valid(rows[i])
  }

  /** What each group's heap and counter should hold. */
  ghost function Bests(rows: seq<Row>, score: Score, k: nat): (r: seq<seq<Item>>)
    ensures |r| == GROUPS && forall g :: 0 <= g < GROUPS ==> r[g] == BestOf(rows, score, g, k)
  {
    seq(GROUPS, g requires 0 <= g < GROUPS => BestOf(rows, score, g, k))
  }

  ghost function Sizes(rows: seq<Row>, score: Score): (r: seq<nat>)
    ensures |r| == GROUPS && forall g :: 0 <= g < GROUPS ==> r[g] == |ItemsOf(rows, score, g)|
  {
    seq(GROUPS, g requires 0 <= g < GROUPS => |ItemsOf(rows, score, g)|)
  }

  lemma ItemsNext(rows: seq<Row>, score: Score, row: Row, g: nat)
    requires Valid(row)
    ensures ItemsOf(rows + [row], score, g) ==
            ItemsOf(rows, score, g) + if row.group == Some(g) then {ItemOf(row, score)} else {}
  {
  }

  lemma ItemIsNew(rows: seq<Row>, score: Score, row: Row)
    requires Valid(row) && AllValid(rows + [row]) && DistinctSources(rows + [row])
    ensures ItemOf(row, score) !in ItemsOf(rows, score, row.group.value)
  {
    var all := rows + [row];
    forall i | 0 <= i < |rows|
      ensures ItemOf(rows[i], score) != ItemOf(row, score)
    {
      assert all[i] == rows[i] && all[|rows|] == row && Valid(all[i]);
    }
  }

  /** One more row changes what its own group should hold, and nothing else. */
  lemma BestOfNext(rows: seq<Row>, score: Score, k: nat, row: Row, g: nat)
    requires Valid(row) && AllValid(rows + [row]) && DistinctSources(rows + [row])
    ensures row.group == Some(g) ==>
      && BestOf(rows + [row], score, g, k) == Take(Insert(ItemOf(row, score), BestOf(rows, score, g, k), Before), k)
      && |ItemsOf(rows + [row], score, g)| == |ItemsOf(rows, score, g)| + 1
      && Ascending(BestOf(rows, score, g, k), Before)
    ensures row.group != Some(g) ==> ItemsOf(rows + [row], score, g) == ItemsOf(rows, score, g)
  {
    ItemsNext(rows, score, row, g);
    if row.group == Some(g) {
      ItemIsNew(rows, score, row);
      HeapKeepsBest(ItemsOf(rows, score, g), ItemOf(row, score), k);
    }
  }

  lemma PointwiseUpdate<T>(a: seq<T>, b: seq<T>, g: nat, v: T)
    requires |a| == |b| && g < |a| && b[g] == v && forall h :: 0 <= h < |a| && h != g ==> b[h] == a[h]
    ensures b == a[g := v]
  {
  }

  lemma BestsNext(rows: seq<Row>, score: Score, k: nat, row: Row, bests: seq<seq<Item>>)
    requires Valid(row) && AllValid(rows + [row]) && DistinctSources(rows + [row])
    requires bests == Bests(rows, score, k)
    ensures var g := row.group.value;
      Bests(rows + [row], score, k) == bests[g := Take(Insert(ItemOf(row, score), bests[g], Before), k)] &&
      Ascending(bests[g], Before)
  {
    var g := row.group.value;
    BestOfNext(rows, score, k, row, g);
    forall h | 0 <= h < GROUPS && h != g
      ensures BestOf(rows + [row], score, h, k) == BestOf(rows, score, h, k)
    {
      BestOfNext(rows, score, k, row, h);
    }
    PointwiseUpdate(bests, Bests(rows + [row], score, k), g, Take(Insert(ItemOf(row, score), bests[g], Before), k));
  }

  lemma SizesNext(rows: seq<Row>, score: Score, row: Row, sizes: seq<nat>)
    requires Valid(row) && AllValid(rows + [row]) && DistinctSources(rows + [row])
    requires sizes == Sizes(rows, score)
    ensures var g := row.group.value; Sizes(rows + [row], score) == sizes[g := sizes[g] + 1]
  {
    var g := row.group.value;
    BestOfNext(rows, score, 0, row, g);
    forall h | 0 <= h < GROUPS && h != g
      ensures ItemsOf(rows + [row], score, h) == ItemsOf(rows, score, h)
    {
      BestOfNext(rows, score, 0, row, h);
    }
    PointwiseUpdate(sizes, Sizes(rows + [row], score), g, sizes[g] + 1);
  }

  /** The heaps and counters hold what they should, and exist for the groups that were met. */
  ghost predicate Holds(bests: seq<seq<Item>>, sizes: seq<nat>, heaps: map<nat, seq<Item>>, counts: map<nat, nat>) {
    && |bests| == |sizes| == GROUPS
    && (forall g :: g in heaps <==> g in counts) && (forall g :: g in heaps ==> g < GROUPS)
    && (forall g :: 0 <= g < GROUPS ==>
        if sizes[g] == 0 then g !in heaps else g in heaps && heaps[g] == bests[g] && counts[g] == sizes[g])
  }

  /** One item offered to its group's heap. */
  method OfferItem(g: nat, item: Item, k: nat, heaps: map<nat, seq<Item>>, counts: map<nat, nat>,
                   ghost bests: seq<seq<Item>>, ghost sizes: seq<nat>, ghost bestsNow: seq<seq<Item>>,
                   ghost sizesNow: seq<nat>)
    returns (newHeaps: map<nat, seq<Item>>, newCounts: map<nat, nat>)
    requires k >= 1 && Holds(bests, sizes, heaps, counts) && g < GROUPS
    requires Ascending(bests[g], Before) && |bests[g]| <= k && (sizes[g] == 0 ==> bests[g] == [])
    requires bestsNow == bests[g := Take(Insert(item, bests[g], Before), k)] && sizesNow == sizes[g := sizes[g] + 1]
    ensures Holds(bestsNow, sizesNow, newHeaps, newCounts)
  {
    var heap := if g in heaps then heaps[g] else [];
    var count := if g in counts then counts[g] else 0;
    heap := Offer(heap, item, k);
    newHeaps, newCounts := heaps[g := heap], counts[g := count + 1];
  }

  lemma RowNext(rows: seq<Row>, score: Score, k: nat, row: Row)
    requires Valid(row) && AllValid(rows + [row]) && DistinctSources(rows + [row])
    ensures var g, bests, sizes := row.group.value, Bests(rows, score, k), Sizes(rows, score);
      && Bests(rows + [row], score, k) == bests[g := Take(Insert(ItemOf(row, score), bests[g], Before), k)]
      && Sizes(rows + [row], score) == sizes[g := sizes[g] + 1]
      && Ascending(bests[g], Before) && |bests[g]| <= k && (sizes[g] == 0 ==> bests[g] == [])
  {
    BestsNext(rows, score, k, row, Bests(rows, score, k));
    SizesNext(rows, score, row, Sizes(rows, score));
  }

  /** One manifest row: its identity, then its group's heap. */
  method TakeRow(row: Row, score: Score, k: nat, heaps: map<nat, seq<Item>>, counts: map<nat, nat>,
                 ghost rows: seq<Row>)
    returns (newHeaps: map<nat, seq<Item>>, newCounts: map<nat, nat>)
    requires k >= 1 && Holds(Bests(rows, score, k), Sizes(rows, score), heaps, counts)
    requires Valid(row) && AllValid(rows + [row]) && DistinctSources(rows + [row])
    ensures Holds(Bests(rows + [row], score, k), Sizes(rows + [row], score), newHeaps, newCounts)
  {
    RowNext(rows, score, k, row);
    newHeaps, newCounts := OfferItem(row.group.value, ItemOf(row, score), k, heaps, counts, Bests(rows, score, k),
                                     Sizes(rows, score), Bests(rows + [row], score, k), Sizes(rows + [row], score));
  }

  ghost predicate SourcesSeen(rows: seq<Row>, seen: set<nat>) {
    && (forall i :: 0 <= i < |rows| ==> rows[i].sid.Some? && rows[i].sid.value in seen)
    && (forall sid :: sid in seen ==> exists i :: 0 <= i < |rows| && rows[i].sid == Some(sid))
  }

  lemma SourceRepeats(rows: seq<Row>, seen: set<nat>, row: Row)
    requires SourcesSeen(rows, seen) && row.sid.Some? && DistinctSources(rows)
    ensures row.sid.value in seen <==> !DistinctSources(rows + [row])
    ensures SourcesSeen(rows + [row], seen + {row.sid.value})
  {
    var all := rows + [row];
    assert all[|rows|] == row && forall i :: 0 <= i < |rows| ==> all[i] == rows[i];
    if row.sid.value in seen {
      var i :| 0 <= i < |rows| && rows[i].sid == row.sid;
      assert all[i].sid == all[|rows|].sid;
    }
    forall sid | sid in seen + {row.sid.value}
      ensures exists i :: 0 <= i < |all| && all[i].sid == Some(sid)
    {
      if sid == row.sid.value {
        assert all[|rows|].sid == Some(sid);
      } else {
        var i :| 0 <= i < |rows| && rows[i].sid == Some(sid);
        assert all[i].sid == Some(sid);
      }
    }
  }

  lemma RepeatsPersist(rows: seq<Row>, n: nat)
    requires n <= |rows|
    ensures AllValid(rows) ==> AllValid(rows[..n])
    ensures DistinctSources(rows) ==> DistinctSources(rows[..n])
  {
  }

  /** `select_rows` */
  method SelectRows(rows: seq<Row>, score: Score, k: nat) returns (r: Result)
    requires k >= 1
    ensures r.Selected? <==> AllValid(rows) && DistinctSources(rows) && AllGroups(rows)
    ensures r.Selected? ==> r.items == Ranked(rows, score, k) && Shares(rows, score, k, r.items)
    ensures r.Selected? ==> forall g :: 0 <= g < 18 ==> g in r.counts && r.counts[g] == |PositionsOf(rows, g)|
    ensures r == Refused(DuplicateSource) ==> !DistinctSources(rows)
    ensures r == Refused(InvalidIdentity) ==> !AllValid(rows)
    ensures r == Refused(MissingGroup) ==> !AllGroups(rows)
  {
    var heaps: map<nat, seq<Item>>, counts: map<nat, nat>, seen: set<nat> := map[], map[], {};
    for n := 0 to |rows|
      invariant AllValid(rows[..n]) && DistinctSources(rows[..n]) && SourcesSeen(rows[..n], seen)
      invariant Holds(Bests(rows[..n], score, k), Sizes(rows[..n], score), heaps, counts)
    {
      var row := rows[n];
      assert rows[..n + 1] == rows[..n] + [row];
      RepeatsPersist(rows, n + 1);
      if !Valid(row) {
        return Refused(InvalidIdentity);
      }
      SourceRepeats(rows[..n], seen, row);
      if row.sid.value in seen {
        return Refused(DuplicateSource);
      }
      seen := seen + {row.sid.value};
      heaps, counts := TakeRow(row, score, k, heaps, counts, rows[..n]);
    }
    assert rows[..|rows|] == rows;
    r := Collect(rows, score, k, heaps, counts);
    RankedShares(rows, score, k);
    forall g | 0 <= g < GROUPS
      ensures |ItemsOf(rows, score, g)| == |PositionsOf(rows, g)|
    {
      CountIsRows(rows, score, g);
    }
  }

  /** `[item[2] for key in sorted(groups) for item in sorted(groups[key], reverse=True)]`, unless a group is missing. */
  method Collect(rows: seq<Row>, score: Score, k: nat, heaps: map<nat, seq<Item>>, counts: map<nat, nat>)
    returns (r: Result)
    requires Holds(Bests(rows, score, k), Sizes(rows, score), heaps, counts)
    ensures r == if AllGroups(rows) then Selected(Ranked(rows, score, k), counts) else Refused(MissingGroup)
    ensures AllGroups(rows) ==> forall g :: 0 <= g < GROUPS ==> g in counts && counts[g] == |ItemsOf(rows, score, g)|
  {
    GroupsPresent(rows, score, heaps.Keys);
    if |heaps| != GROUPS {
      return Refused(MissingGroup);
    }
    var items: seq<Item> := [];
    for g := 0 to GROUPS
      invariant items == Concat(Bests(rows, score, k), g)
    {
      items := items + heaps[g];
    }
    r := Selected(items, counts);
  }

  /** `set(range(n))` */
  function Range(n: nat): (r: set<nat>)
    ensures |r| == n && forall g: nat :: g in r <==> g < n
  {
    if n == 0 then {} else
      assert n - 1 !in Range(n - 1);
      Range(n - 1) + {n - 1}
  }

  lemma MetIffRow(rows: seq<Row>, score: Score, g: nat)
    ensures ItemsOf(rows, score, g) != {} <==> exists row :: row in rows && row.group == Some(g)
  {
    if row :| row in rows && row.group == Some(g) {
      assert ItemOf(row, score) in ItemsOf(rows, score, g);
    }
  }

  lemma FullRange(met: set<nat>, n: nat)
    requires forall g :: g in met ==> g < n
    ensures |met| == n <==> forall g :: 0 <= g < n ==> g in met
  {
    var all := Range(n);
    assert met <= all;
    assert |all - met| == |all| - |all * met| && all * met == met;
    if forall g :: 0 <= g < n ==> g in met {
      assert met == all;
    }
    if |met| == n {
      assert |all - met| == 0;
      forall g: nat | g < n
        ensures g in met
      {
        assert g in all && g !in all - met;
      }
    }
  }

  /** The number of groups met is eighteen exactly when every group was met. */
  lemma GroupsPresent(rows: seq<Row>, score: Score, met: set<nat>)
    requires forall g :: 0 <= g < GROUPS ==> (g in met <==> ItemsOf(rows, score, g) != {})
    requires forall g :: g in met ==> g < GROUPS
    ensures |met| == GROUPS <==> AllGroups(rows)
    ensures AllGroups(rows) <==> forall g :: 0 <= g < GROUPS ==> g in met
  {
    forall g | 0 <= g < GROUPS
      ensures g in met <==> exists row :: row in rows && row.group == Some(g)
    {
      MetIffRow(rows, score, g);
    }
    FullRange(met, GROUPS);
  }

  // ---- laws of the result ----

  /** Each group yields its `k` best, or all it has; nothing chosen comes after anything left out. */
  lemma ChosenAreBest(rows: seq<Row>, score: Score, group: nat, k: nat, x: Item, y: Item)
    requires x in BestOf(rows, score, group, k)
    requires y in ItemsOf(rows, score, group) && y !in BestOf(rows, score, group, k)
    ensures x.score <= y.score && (x.score == y.score ==> x.sid >= y.sid) && x in ItemsOf(rows, score, group)
    ensures |BestOf(rows, score, group, k)| == k
  {
    ItemOrder();
    var all := SortedSet(ItemsOf(rows, score, group), Before);
    var i :| 0 <= i < |BestOf(rows, score, group, k)| && all[i] == x;
    var j :| 0 <= j < |all| && all[j] == y;
    assert forall q :: 0 <= q < |BestOf(rows, score, group, k)| ==> all[q] in BestOf(rows, score, group, k);
  }

  // ---- the result, said of the rows ----

  /** A lower score ranks first, and of equal scores the higher source id. */
  predicate Ranks(score: nat, sid: nat, otherScore: nat, otherSid: nat) {
    score < otherScore || (score == otherScore && sid > otherSid)
  }

  /** An item is that of a row of the group. */
  ghost predicate IsRowItem(rows: seq<Row>, score: Score, g: nat, x: Item) {
    x.score == score(x.sid) && Row(Some(g), Some(x.sid), x.payload) in rows
  }

  ghost predicate Includes(part: seq<Item>, sid: nat) {
    exists x :: x in part && x.sid == sid
  }

  /** A group's share: its own rows in rank order, `k` of them or all, and none ranked behind a row left out. */
  ghost predicate GroupPart(rows: seq<Row>, score: Score, k: nat, g: nat, part: seq<Item>) {
    && |part| <= k && (forall x :: x in part ==> IsRowItem(rows, score, g, x))
    && (forall a, b :: 0 <= a < b < |part| ==> Ranks(part[a].score, part[a].sid, part[b].score, part[b].sid))
    && (forall row :: row in rows && row.group == Some(g) && row.sid.Some? && !Includes(part, row.sid.value) ==>
          |part| == k &&
          forall x :: x in part ==> Ranks(x.score, x.sid, score(row.sid.value), row.sid.value))
  }

  lemma ItemsAreRows(rows: seq<Row>, score: Score, g: nat, x: Item)
    requires AllValid(rows)
    ensures x in ItemsOf(rows, score, g) <==> IsRowItem(rows, score, g, x)
  {
    if x in ItemsOf(rows, score, g) {
      var row :| row in rows && row.group == Some(g) && ItemOf(row, score) == x;
      var n :| 0 <= n < |rows| && rows[n] == row;
      assert Valid(rows[n]) && row == Row(Some(g), Some(x.sid), x.payload);
    }
    if IsRowItem(rows, score, g, x) {
      assert ItemOf(Row(Some(g), Some(x.sid), x.payload), score) == x;
    }
  }

  lemma SidsDiffer(rows: seq<Row>, score: Score, g: nat, x: Item, y: Item)
    requires DistinctSources(rows) && IsRowItem(rows, score, g, x) && IsRowItem(rows, score, g, y) && x != y
    ensures x.sid != y.sid
  {
    var i :| 0 <= i < |rows| && rows[i] == Row(Some(g), Some(x.sid), x.payload);
    var j :| 0 <= j < |rows| && rows[j] == Row(Some(g), Some(y.sid), y.payload);
    assert i != j ==> rows[i].sid != rows[j].sid;
  }

  /** A group's best rows are its share. */
  lemma BestIsPart(rows: seq<Row>, score: Score, g: nat, k: nat)
    requires AllValid(rows) && DistinctSources(rows)
    ensures GroupPart(rows, score, k, g, BestOf(rows, score, g, k))
  {
    ItemOrder();
    var part, items := BestOf(rows, score, g, k), ItemsOf(rows, score, g);
    forall x: Item
      ensures x in items <==> IsRowItem(rows, score, g, x)
    {
      ItemsAreRows(rows, score, g, x);
    }
    var all := SortedSet(items, Before);
    assert part == Take(all, k);
    forall a, b | 0 <= a < b < |part|
      ensures Ranks(part[a].score, part[a].sid, part[b].score, part[b].sid)
    {
      assert part[a] == all[a] && part[b] == all[b] && all[a] in all && all[b] in all;
      SidsDiffer(rows, score, g, part[a], part[b]);
    }
    forall row | row in rows && row.group == Some(g) && row.sid.Some? && !Includes(part, row.sid.value)
      ensures |part| == k && forall x :: x in part ==> Ranks(x.score, x.sid, score(row.sid.value), row.sid.value)
    {
      var y := Item(score(row.sid.value), row.sid.value, row.payload);
      assert row == Row(Some(g), Some(y.sid), y.payload) && IsRowItem(rows, score, g, y);
      assert y !in part;
      assert y in all;
      assert |part| == k;
      forall x | x in part
        ensures Ranks(x.score, x.sid, y.score, y.sid)
      {
        ChosenAreBest(rows, score, g, k, x, y);
        SidsDiffer(rows, score, g, x, y);
      }
    }
  }

  /** The groups' shares, one after the other. */
  ghost predicate Shares(rows: seq<Row>, score: Score, k: nat, items: seq<Item>) {
    exists parts :: |parts| == 18 && items == Concat(parts, 18) &&
      forall g :: 0 <= g < 18 ==> GroupPart(rows, score, k, g, parts[g])
  }

  lemma RankedShares(rows: seq<Row>, score: Score, k: nat)
    requires AllValid(rows) && DistinctSources(rows)
    ensures Shares(rows, score, k, Ranked(rows, score, k))
  {
    var parts := Bests(rows, score, k);
    forall g | 0 <= g < 18
      ensures GroupPart(rows, score, k, g, parts[g])
    {
      BestIsPart(rows, score, g, k);
    }
  }

  ghost function PositionsOf(rows: seq<Row>, g: nat): set<nat> {
    set n | 0 <= n < |rows| && rows[n].group == Some(g)
  }

  lemma PositionsNext(rows: seq<Row>, row: Row, g: nat)
    ensures PositionsOf(rows + [row], g) == PositionsOf(rows, g) + if row.group == Some(g) then {|rows|} else {}
    ensures |PositionsOf(rows + [row], g)| == |PositionsOf(rows, g)| + if row.group == Some(g) then 1 else 0
  {
    var all := rows + [row];
    assert forall n: nat :: n in PositionsOf(all, g) <==> n < |all| && all[n].group == Some(g);
    assert PositionsOf(all, g) == PositionsOf(rows, g) + if row.group == Some(g) then {|rows|} else {};
  }

  /** A group's counter is the number of its rows. */
  lemma {:induction false} CountIsRows(rows: seq<Row>, score: Score, g: nat)
    requires AllValid(rows) && DistinctSources(rows)
    ensures |ItemsOf(rows, score, g)| == |PositionsOf(rows, g)|
  {
    if rows == [] {
      assert ItemsOf(rows, score, g) == {};
      assert PositionsOf(rows, g) == {};
    } else {
      var init, row := rows[..|rows| - 1], rows[|rows| - 1];
      assert rows == init + [row];
      RepeatsPersist(rows, |init|);
      CountIsRows(init, score, g);
      BestOfNext(init, score, 0, row, g);
      PositionsNext(init, row, g);
    }
  }

  lemma SameBest(a: seq<Row>, b: seq<Row>, score: Score, group: nat, k: nat)
    requires multiset(a) == multiset(b)
    ensures BestOf(a, score, group, k) == BestOf(b, score, group, k)
  {
    SameMembers(a, b);
    assert ItemsOf(a, score, group) == ItemsOf(b, score, group);
  }

  /** The result does not depend on the order of the rows. */
  lemma OrderDoesNotMatter(a: seq<Row>, b: seq<Row>, score: Score, k: nat)
    requires multiset(a) == multiset(b)
    ensures Ranked(a, score, k) == Ranked(b, score, k)
  {
    forall g | 0 <= g < GROUPS
      ensures BestOf(a, score, g, k) == BestOf(b, score, g, k)
    {
      SameBest(a, b, score, g, k);
    }
    assert Bests(a, score, k) == Bests(b, score, k);
  }
}
