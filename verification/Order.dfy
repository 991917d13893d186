/** Total orders and what Python's `sorted` returns under them. */
module Order {

  ghost predicate TotalPreorder<T(!new)>(le: (T, T) -> bool) {
    && (forall x, y :: le(x, y) || le(y, x))
    && (forall x, y, z :: le(x, y) && le(y, z) ==> le(x, z))
  }

  ghost predicate TotalOrder<T(!new)>(le: (T, T) -> bool) {
    && TotalPreorder(le)
    && (forall x, y :: le(x, y) && le(y, x) ==> x == y)
  }

  ghost predicate Ascending<T>(s: seq<T>, le: (T, T) -> bool) {
    forall i, j :: 0 <= i < j < |s| ==> le(s[i], s[j])
  }

  ghost predicate Distinct<T>(s: seq<T>) {
    forall i, j :: 0 <= i < j < |s| ==> s[i] != s[j]
  }

  ghost predicate StrictlyAscending<T>(s: seq<T>, le: (T, T) -> bool) {
    Ascending(s, le) && Distinct(s)
  }

  /** Guards a definition whose details only a proof that mentions the guard should see. */
  ghost predicate OnDemand(use: nat) {
    use >= 0
  }

  predicate NatLe(x: nat, y: nat) {
    x <= y
  }

  predicate PairLe(x: (nat, nat), y: (nat, nat)) {
    x.0 < y.0 || (x.0 == y.0 && x.1 <= y.1)
  }

  /** Python's order on strings: first differing character, then length. */
  predicate StringLe(x: string, y: string) {
    x == "" || (y != "" && (x[0] < y[0] || (x[0] == y[0] && StringLe(x[1..], y[1..]))))
  }

  lemma NatOrder()
    ensures TotalOrder(NatLe)
  {
  }

  lemma PairOrder()
    ensures TotalOrder(PairLe)
  {
  }

  lemma {:induction false} StringLeTotal(x: string, y: string)
    ensures StringLe(x, y) || StringLe(y, x)
  {
    if x != "" && y != "" {
      StringLeTotal(x[1..], y[1..]);
    }
  }

  lemma {:induction false} StringLeTransitive(x: string, y: string, z: string)
    requires StringLe(x, y) && StringLe(y, z)
    ensures StringLe(x, z)
  {
    if x != "" && x[0] == y[0] == z[0] {
      StringLeTransitive(x[1..], y[1..], z[1..]);
    }
  }

  lemma {:induction false} StringLeAntisymmetric(x: string, y: string)
    requires StringLe(x, y) && StringLe(y, x)
    ensures x == y
  {
    if x != "" {
      StringLeAntisymmetric(x[1..], y[1..]);
      assert x == [x[0]] + x[1..] && y == [y[0]] + y[1..];
    }
  }

  /** Two strings agree up to position `n`, where the first ends or has the lower character. */
  ghost predicate TurnsAt(x: string, y: string, n: nat) {
    n <= |x| && n <= |y| && x[..n] == y[..n] && (n == |x| || (n < |y| && x[n] < y[n]))
  }

  lemma CommonFirst(x: string, y: string, n: nat)
    requires n <= |x| && n <= |y| && x[..n] == y[..n]
    ensures n > 0 ==> x[0] == y[0]
  {
    if n > 0 {
      assert x[..n][0] == y[..n][0];
    }
  }

  /** The order of strings, spelled out. */
  lemma {:induction false} StringLeSpelledOut(x: string, y: string)
    ensures StringLe(x, y) <==> exists n: nat :: TurnsAt(x, y, n)
  {
    if x == "" {
      assert TurnsAt(x, y, 0);
    } else if y != "" && x[0] == y[0] {
      StringLeSpelledOut(x[1..], y[1..]);
      forall n: nat
        ensures TurnsAt(x[1..], y[1..], n) <==> TurnsAt(x, y, n + 1)
      {
        if n < |x| && n < |y| {
          assert x[..n + 1] == [x[0]] + x[1..][..n] && y[..n + 1] == [y[0]] + y[1..][..n];
        }
      }
      if n: nat :| TurnsAt(x[1..], y[1..], n) {
        assert TurnsAt(x, y, n + 1);
      }
      if n: nat :| TurnsAt(x, y, n) {
        assert TurnsAt(x[1..], y[1..], n - 1);
      }
    } else if y != "" {
      assert x[0] < y[0] ==> TurnsAt(x, y, 0);
      forall n: nat | TurnsAt(x, y, n)
        ensures n == 0
      {
        CommonFirst(x, y, n);
      }
    }
  }

  lemma StringOrder()
    ensures TotalOrder(StringLe)
  {
    forall x, y
      ensures StringLe(x, y) || StringLe(y, x)
    {
      StringLeTotal(x, y);
    }
    forall x, y, z | StringLe(x, y) && StringLe(y, z)
      ensures StringLe(x, z)
    {
      StringLeTransitive(x, y, z);
    }
    forall x, y | StringLe(x, y) && StringLe(y, x)
      ensures x == y
    {
      StringLeAntisymmetric(x, y);
    }
  }

  /** The one listing of a set in ascending order: `sorted(set)`. */
  lemma {:induction false} AscendingListingIsUnique<T(!new)>(a: seq<T>, b: seq<T>, le: (T, T) -> bool)
    requires TotalOrder(le)
    requires StrictlyAscending(a, le) && StrictlyAscending(b, le)
    requires forall x :: x in a <==> x in b
    ensures a == b
    decreases |a|
  {
    assert b != [] ==> b[0] in a;
    if a != [] {
      assert a[0] in b && b[0] in a;
      assert a[0] == b[0];
      forall x
        ensures x in a[1..] <==> x in b[1..]
      {
        if x in a[1..] {
          assert x in a && x != a[0];
          assert b == [b[0]] + b[1..];
        }
        if x in b[1..] {
          assert x in b && x != b[0];
          assert a == [a[0]] + a[1..];
        }
      }
      AscendingListingIsUnique(a[1..], b[1..], le);
      assert a == [a[0]] + a[1..] && b == [b[0]] + b[1..];
    }
  }

  lemma {:induction false} Least<T(!new)>(s: set<T>, le: (T, T) -> bool) returns (least: T)
    requires TotalOrder(le)
    requires s != {}
    ensures least in s && forall x :: x in s ==> le(least, x)
    decreases s
  {
    var e :| e in s;
    var rest := s - {e};
    if rest == {} {
      assert s == {e};
      least := e;
    } else {
      var m := Least(rest, le);
      least := if le(e, m) then e else m;
      forall x | x in s
        ensures le(least, x)
      {
        if x in rest {
          assert le(m, x);
        } else {
          assert x == e;
        }
      }
    }
  }

  lemma LeastExists<T(!new)>(s: set<T>, le: (T, T) -> bool)
    requires TotalOrder(le)
    requires s != {}
    ensures exists m :: m in s && forall x :: x in s ==> le(m, x)
  {
    var m := Least(s, le);
  }

  /** `sorted(s)` for a set. */
  function SortedSet<T(!new, ==)>(s: set<T>, le: (T, T) -> bool): (r: seq<T>)
    requires TotalOrder(le)
    ensures StrictlyAscending(r, le)
    ensures forall x :: x in r <==> x in s
    ensures |r| == |s|
  {
    if s == {} then []
    else
      LeastExists(s, le);
      var m :| m in s && forall x :: x in s ==> le(m, x);
      [m] + SortedSet(s - {m}, le)
  }

  /** `sorted(s)` for a set of numbers. */
  function SortedNats(s: set<nat>): (r: seq<nat>)
    ensures forall i, j :: 0 <= i < j < |r| ==> r[i] < r[j]
    ensures forall x :: x in r <==> x in s
    ensures |r| == |s|
  {
    NatOrder();
    var r := SortedSet(s, NatLe);
    assert forall i, j :: 0 <= i < j < |r| ==> NatLe(r[i], r[j]);
    r
  }

  /** Insert after every element that does not exceed `x`: keeps the sort stable. */
  function Insert<V>(x: V, s: seq<V>, le: (V, V) -> bool): seq<V> {
    if s == [] then [x]
    else if le(s[0], x) then [s[0]] + Insert(x, s[1..], le)
    else [x] + s
  }

  /** Stable sort under a comparison: `sorted(values, key=...)`. */
  function Sort<V>(s: seq<V>, le: (V, V) -> bool): seq<V> {
    if s == [] then [] else Insert(s[|s| - 1], Sort(s[..|s| - 1], le), le)
  }

  lemma {:induction false} InsertMembers<V>(x: V, s: seq<V>, le: (V, V) -> bool)
    ensures multiset(Insert(x, s, le)) == multiset(s) + multiset{x}
  {
    if s != [] {
      assert s == [s[0]] + s[1..];
      if le(s[0], x) {
        InsertMembers(x, s[1..], le);
      }
    }
  }

  lemma {:induction false} InsertKeepsOrder<V(!new)>(x: V, s: seq<V>, le: (V, V) -> bool)
    requires TotalPreorder(le)
    requires Ascending(s, le)
    ensures Ascending(Insert(x, s, le), le)
  {
    if s != [] {
      if le(s[0], x) {
        var rest := Insert(x, s[1..], le);
        InsertKeepsOrder(x, s[1..], le);
        InsertMembers(x, s[1..], le);
        forall j | 0 <= j < |rest|
          ensures le(s[0], rest[j])
        {
          assert rest[j] in multiset(rest);
        }
      } else {
        forall j | 0 <= j < |s|
          ensures le(x, s[j])
        {
          assert j == 0 || le(s[0], s[j]);
        }
      }
    }
  }

  lemma {:induction false} SortMembers<V>(s: seq<V>, le: (V, V) -> bool)
    ensures multiset(Sort(s, le)) == multiset(s)
    ensures |Sort(s, le)| == |s|
    ensures forall x :: x in Sort(s, le) <==> x in s
  {
    if s != [] {
      var n := |s| - 1;
      SortMembers(s[..n], le);
      InsertMembers(s[n], Sort(s[..n], le), le);
      assert s == s[..n] + [s[n]];
    }
    assert |multiset(Sort(s, le))| == |multiset(s)|;
    SameMembers(Sort(s, le), s);
  }

  lemma {:induction false} SortAscends<V(!new)>(s: seq<V>, le: (V, V) -> bool)
    requires TotalPreorder(le)
    ensures Ascending(Sort(s, le), le)
  {
    if s != [] {
      var n := |s| - 1;
      SortAscends(s[..n], le);
      InsertKeepsOrder(s[n], Sort(s[..n], le), le);
    }
  }

  lemma {:induction false} InsertLast<V>(x: V, s: seq<V>, le: (V, V) -> bool)
    requires forall i :: 0 <= i < |s| ==> le(s[i], x)
    ensures Insert(x, s, le) == s + [x]
  {
    if s != [] {
      InsertLast(x, s[1..], le);
      assert [s[0]] + (s[1..] + [x]) == s + [x];
    }
  }

  /** Sorting leaves an ascending list alone. */
  lemma {:induction false} SortFixesAscending<V>(s: seq<V>, le: (V, V) -> bool)
    requires Ascending(s, le)
    ensures Sort(s, le) == s
  {
    if s != [] {
      var n := |s| - 1;
      SortFixesAscending(s[..n], le);
      InsertLast(s[n], s[..n], le);
      assert s == s[..n] + [s[n]];
    }
  }

  lemma SameMembers<T>(a: seq<T>, b: seq<T>)
    requires multiset(a) == multiset(b)
    ensures forall x :: x in a <==> x in b
  {
    forall x
      ensures x in a <==> x in b
    {
      assert x in a <==> x in multiset(a);
      assert x in b <==> x in multiset(b);
    }
  }

  lemma PermutationDistinct<T>(a: seq<T>, b: seq<T>)
    requires Distinct(a) && multiset(a) == multiset(b)
    ensures Distinct(b)
  {
    forall i, j | 0 <= i < j < |b|
      ensures b[i] != b[j]
    {
      OnceInMultiset(a, b[i]);
      if b[i] == b[j] {
        TwiceInMultiset(b, i, j);
      }
    }
  }

  lemma TwiceInMultiset<T>(s: seq<T>, i: nat, j: nat)
    requires i < j < |s| && s[i] == s[j]
    ensures multiset(s)[s[i]] >= 2
  {
    assert s == s[..j] + [s[j]] + s[j + 1..];
    assert s[..j][i] in s[..j];
    assert multiset(s) == multiset(s[..j]) + multiset{s[j]} + multiset(s[j + 1..]);
    assert s[i] in multiset(s[..j]);
  }

  lemma {:induction false} OnceInMultiset<T>(s: seq<T>, x: T)
    requires Distinct(s)
    ensures multiset(s)[x] <= 1
  {
    if s != [] {
      var n := |s| - 1;
      OnceInMultiset(s[..n], x);
      assert s == s[..n] + [s[n]];
      if x == s[n] {
        assert x !in s[..n];
        assert x !in multiset(s[..n]);
      }
    }
  }

  /** Sets in one-to-one correspondence have one size. */
  lemma {:induction false} ImageSize<A(!new), B>(a: set<A>, b: set<B>, f: A -> B)
    requires forall x, y :: x in a && y in a && f(x) == f(y) ==> x == y
    requires forall x :: x in a ==> f(x) in b
    requires forall y :: y in b ==> exists x :: x in a && f(x) == y
    ensures |a| == |b|
    decreases a
  {
    if a == {} {
      assert b == {};
    } else {
      var x :| x in a;
      var a', b' := a - {x}, b - {f(x)};
      forall y | y in b'
        ensures exists z :: z in a' && f(z) == y
      {
        var z :| z in a && f(z) == y;
        assert z in a';
      }
      ImageSize(a', b', f);
    }
  }

  lemma LastOfConcat<T>(a: seq<T>, b: seq<T>)
    requires b != []
    ensures (a + b)[..|a + b| - 1] == a + b[..|b| - 1] && (a + b)[|a + b| - 1] == b[|b| - 1]
  {
  }

  // ---- comprehensions over lists ----

  /** `[x for x in s if p(x)]` */
  function Filter<T>(s: seq<T>, p: T -> bool): seq<T> {
    if s == [] then [] else (if p(s[0]) then [s[0]] else []) + Filter(s[1..], p)
  }

  lemma {:induction false} FilterSpec<T>(s: seq<T>, p: T -> bool)
    ensures forall x :: x in Filter(s, p) <==> x in s && p(x)
    ensures |Filter(s, p)| <= |s|
    ensures Distinct(s) ==> Distinct(Filter(s, p))
  {
    if s != [] {
      FilterSpec(s[1..], p);
      assert s == [s[0]] + s[1..];
      assert Distinct(s) ==> s[0] !in s[1..];
    }
  }

  lemma {:induction false} FilterSame<T>(s: seq<T>, p: T -> bool, q: T -> bool)
    requires forall x :: x in s ==> p(x) == q(x)
    ensures Filter(s, p) == Filter(s, q)
  {
    if s != [] {
      assert s[0] in s;
      FilterSame(s[1..], p, q);
    }
  }

  /** `s[:k]` */
  function Take<T>(s: seq<T>, k: nat): (r: seq<T>)
    ensures |r| == if k < |s| then k else |s|
    ensures forall x :: x in r ==> x in s
  {
    if k < |s| then s[..k] else s
  }

  lemma TakeDistinct<T>(s: seq<T>, k: nat)
    requires Distinct(s)
    ensures Distinct(Take(s, k))
  {
  }

  lemma {:induction false} SortDistinct<T>(s: seq<T>, le: (T, T) -> bool)
    requires Distinct(s)
    ensures Distinct(Sort(s, le))
  {
    SortMembers(s, le);
    PermutationDistinct(s, Sort(s, le));
  }

  lemma {:induction false} SizeOfDistinct<T>(s: seq<T>)
    requires Distinct(s)
    ensures |set x | x in s| == |s|
  {
    if s != [] {
      SizeOfDistinct(s[1..]);
      assert (set x | x in s) == {s[0]} + (set x | x in s[1..]) by {
        assert s == [s[0]] + s[1..];
      }
      assert s[0] !in s[1..];
    }
  }
}
