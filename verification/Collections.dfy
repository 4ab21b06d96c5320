/**
What Go's `range` over a map and `sort.Slice` leave behind: sums that do not depend on the order in which keys are
visited, and the one sorted arrangement of a collection under a total order.
*/
module Collections {

  /** The multiset collected by visiting every key of a set once, in any order. */
  ghost function SumOver<K(!new), E>(keys: set<K>, f: K -> multiset<E>): multiset<E>
    decreases |keys|
  {
    if keys == {} then multiset{}
    else
      var k :| k in keys;
      SumOver(keys - {k}, f) + f(k)
  }

  /** The order of visits does not matter: any key may be taken last. */
  lemma {:induction false} SumOverRemove<K(!new), E>(keys: set<K>, f: K -> multiset<E>, k: K)
    requires k in keys
    ensures SumOver(keys, f) == SumOver(keys - {k}, f) + f(k)
    decreases |keys|
  {
    var c :| c in keys && SumOver(keys, f) == SumOver(keys - {c}, f) + f(c);
    if c != k {
      SumOverRemove(keys - {c}, f, k);
      SumOverRemove(keys - {k}, f, c);
      assert keys - {c} - {k} == keys - {k} - {c};
    }
  }

  lemma SumOverAdd<K(!new), E>(keys: set<K>, f: K -> multiset<E>, k: K)
    requires k !in keys
    ensures SumOver(keys + {k}, f) == SumOver(keys, f) + f(k)
  {
    assert keys + {k} - {k} == keys;
    SumOverRemove(keys + {k}, f, k);
  }

  lemma {:induction false} SumOverEmpty<K(!new), E>(keys: set<K>, f: K -> multiset<E>)
    ensures SumOver(keys, f) == multiset{} <==> forall k :: k in keys ==> f(k) == multiset{}
    decreases |keys|
  {
    if keys == {} {
    } else {
      var k :| k in keys;
      SumOverRemove(keys, f, k);
      SumOverEmpty(keys - {k}, f);
      assert forall j :: j in keys ==> j == k || j in keys - {k};
    }
  }

  /** A sum holds what one of its terms holds. */
  lemma {:induction false} InSum<K(!new), E>(keys: set<K>, f: K -> multiset<E>, e: E)
    ensures e in SumOver(keys, f) <==> exists k :: k in keys && e in f(k)
    decreases |keys|
  {
    if keys == {} {
    } else {
      var k :| k in keys;
      SumOverRemove(keys, f, k);
      InSum(keys - {k}, f, e);
    }
  }

  /** The total collected by visiting every key of a set once, in any order. */
  ghost function TotalOver<K(!new)>(keys: set<K>, f: K -> nat): nat
    decreases |keys|
  {
    if keys == {} then 0
    else
      var k :| k in keys;
      TotalOver(keys - {k}, f) + f(k)
  }

  lemma {:induction false} TotalOverRemove<K(!new)>(keys: set<K>, f: K -> nat, k: K)
    requires k in keys
    ensures TotalOver(keys, f) == TotalOver(keys - {k}, f) + f(k)
    decreases |keys|
  {
    var c :| c in keys && TotalOver(keys, f) == TotalOver(keys - {c}, f) + f(c);
    if c != k {
      TotalOverRemove(keys - {c}, f, k);
      TotalOverRemove(keys - {k}, f, c);
      assert keys - {c} - {k} == keys - {k} - {c};
    }
  }

  lemma TotalOverAdd<K(!new)>(keys: set<K>, f: K -> nat, k: K)
    requires k !in keys
    ensures TotalOver(keys + {k}, f) == TotalOver(keys, f) + f(k)
  {
    assert keys + {k} - {k} == keys;
    TotalOverRemove(keys + {k}, f, k);
  }

  ghost predicate TotalOrder<T(!new)>(le: (T, T) -> bool) {
    && (forall x :: le(x, x))
    && (forall x, y :: le(x, y) || le(y, x))
    && (forall x, y :: le(x, y) && le(y, x) ==> x == y)
    && (forall x, y, z :: le(x, y) && le(y, z) ==> le(x, z))
  }

  ghost predicate Sorted<T>(xs: seq<T>, le: (T, T) -> bool) {
    forall i, j :: 0 <= i <= j < |xs| ==> le(xs[i], xs[j])
  }

  lemma InOrderAt<T>(xs: seq<T>, i: nat, j: nat, le: (T, T) -> bool)
    requires Sorted(xs, le) && i <= j < |xs|
    ensures le(xs[i], xs[j])
  {
  }

  method Insert<T(!new)>(xs: seq<T>, x: T, le: (T, T) -> bool) returns (ys: seq<T>)
    requires forall x, y :: le(x, y) || le(y, x)
    requires forall x, y, z :: le(x, y) && le(y, z) ==> le(x, z)
    requires Sorted(xs, le)
    ensures Sorted(ys, le)
    ensures multiset(ys) == multiset(xs) + multiset{x}
  {
    hide Sorted;
    var i := 0;
    while i < |xs| && le(xs[i], x)
      invariant 0 <= i <= |xs|
      invariant forall j :: 0 <= j < i ==> le(xs[j], x)
    {
      i := i + 1;
    }
    forall j | i <= j < |xs|
      ensures le(x, xs[j])
    {
      InOrderAt(xs, i, j, le);
    }
    assert xs == xs[..i] + xs[i..];
    ys := xs[..i] + [x] + xs[i..];
    InsertedIsSorted(xs, i, x, le);
  }

  lemma InsertedIsSorted<T(!new)>(xs: seq<T>, i: nat, x: T, le: (T, T) -> bool)
    requires Sorted(xs, le) && i <= |xs| && le(x, x)
    requires forall j :: 0 <= j < i ==> le(xs[j], x)
    requires forall j :: i <= j < |xs| ==> le(x, xs[j])
    ensures Sorted(xs[..i] + [x] + xs[i..], le)
  {
    var ys := xs[..i] + [x] + xs[i..];
    forall a, b | 0 <= a <= b < |ys|
      ensures le(ys[a], ys[b])
    {
      assert ys[a] == if a < i then xs[a] else if a == i then x else xs[a - 1];
      assert ys[b] == if b < i then xs[b] else if b == i then x else xs[b - 1];
    }
  }

  /** `sort.Slice`, by insertion: a sorted rearrangement of the input. */
  method Sort<T(!new)>(xs: seq<T>, le: (T, T) -> bool) returns (ys: seq<T>)
    requires forall x, y :: le(x, y) || le(y, x)
    requires forall x, y, z :: le(x, y) && le(y, z) ==> le(x, z)
    ensures Sorted(ys, le)
    ensures multiset(ys) == multiset(xs)
  {
    ys := [];
    var n := 0;
    while n < |xs|
      invariant 0 <= n <= |xs|
      invariant Sorted(ys, le)
      invariant multiset(ys) == multiset(xs[..n])
    {
      assert xs[..n + 1] == xs[..n] + [xs[n]];
      ys := Insert(ys, xs[n], le);
      n := n + 1;
    }
    assert xs[..n] == xs;
  }

  lemma SortedFirst<T>(a: seq<T>, b: seq<T>, le: (T, T) -> bool)
    requires Sorted(a, le) && a != [] && b != [] && multiset(a) == multiset(b)
    ensures le(a[0], b[0])
  {
    assert b[0] in multiset(b);
    assert b[0] in a;
  }

  lemma TailOf<T>(a: seq<T>, le: (T, T) -> bool)
    requires a != [] && Sorted(a, le)
    ensures multiset(a[1..]) == multiset(a) - multiset{a[0]}
    ensures Sorted(a[1..], le)
    ensures forall x :: x in a[1..] ==> x in a
  {
    assert a == [a[0]] + a[1..];
  }

  /** A collection whose members the order tells apart has one sorted arrangement. */
  lemma {:induction false} SortedIsUnique<T(!new)>(a: seq<T>, b: seq<T>, le: (T, T) -> bool)
    requires Sorted(a, le) && Sorted(b, le) && multiset(a) == multiset(b)
    requires forall x, y :: x in a && y in a && le(x, y) && le(y, x) ==> x == y
    ensures a == b
  {
    hide Sorted;
    assert |multiset(a)| == |a| && |multiset(b)| == |b|;
    if a == [] {
    } else {
      SortedFirst(a, b, le);
      SortedFirst(b, a, le);
      assert b[0] in multiset(b);
      assert b[0] in a;
      TailOf(a, le);
      TailOf(b, le);
      SortedIsUnique(a[1..], b[1..], le);
      assert a == [a[0]] + a[1..] && b == [b[0]] + b[1..];
    }
  }

  /** Byte order on strings, as `sort.Strings` and `<` use it. */
  predicate LexLe(a: string, b: string) {
    a == [] || (b != [] && (a[0] < b[0] || (a[0] == b[0] && LexLe(a[1..], b[1..]))))
  }

  lemma {:induction false} LexLeTotal(a: string, b: string)
    ensures LexLe(a, b) || LexLe(b, a)
    ensures LexLe(a, b) && LexLe(b, a) ==> a == b
  {
    if a == [] || b == [] {
    } else {
      LexLeTotal(a[1..], b[1..]);
      assert a == [a[0]] + a[1..] && b == [b[0]] + b[1..];
    }
  }

  lemma {:induction false} LexLeTransitive(a: string, b: string, c: string)
    requires LexLe(a, b) && LexLe(b, c)
    ensures LexLe(a, c)
  {
    if a == [] || a[0] != b[0] || b[0] != c[0] {
    } else {
      LexLeTransitive(a[1..], b[1..], c[1..]);
    }
  }

  /** One is a beginning of the other, or has the smaller character where they first differ. */
  ghost predicate Precedes(a: string, b: string) {
    exists n :: 0 <= n <= |a| && n <= |b| && a[..n] == b[..n] && (n == |a| || (n < |b| && a[n] < b[n]))
  }

  lemma {:induction false} LexLeIff(a: string, b: string)
    ensures LexLe(a, b) <==> Precedes(a, b)
  {
    if a == [] {
      assert a[..0] == b[..0];
    } else if b == [] {
    } else if a[0] != b[0] {
      if a[0] < b[0] {
        assert a[..0] == b[..0];
      }
    } else {
      LexLeIff(a[1..], b[1..]);
      if Precedes(a[1..], b[1..]) {
        var n :| 0 <= n <= |a[1..]| && n <= |b[1..]| && a[1..][..n] == b[1..][..n]
          && (n == |a[1..]| || (n < |b[1..]| && a[1..][n] < b[1..][n]));
        assert a[..n + 1] == [a[0]] + a[1..][..n] && b[..n + 1] == [b[0]] + b[1..][..n];
      }
      if Precedes(a, b) {
        var n :| 0 <= n <= |a| && n <= |b| && a[..n] == b[..n] && (n == |a| || (n < |b| && a[n] < b[n]));
        assert n > 0;
        assert a[1..][..n - 1] == a[..n][1..] && b[1..][..n - 1] == b[..n][1..];
      }
    }
  }

  lemma LexLeIsTotalOrder()
    ensures TotalOrder(LexLe)
  {
    forall a: string, b: string ensures (LexLe(a, b) || LexLe(b, a)) && (LexLe(a, b) && LexLe(b, a) ==> a == b) {
      LexLeTotal(a, b);
    }
    forall a: string, b: string, c: string | LexLe(a, b) && LexLe(b, c) ensures LexLe(a, c) {
      LexLeTransitive(a, b, c);
    }
    forall a: string ensures LexLe(a, a) {
      LexLeTotal(a, a);
    }
  }

  /** The sorted list of the elements of a set, as built by ranging over a Go map and sorting the keys. */
  method SortedKeys(keys: set<string>) returns (ids: seq<string>)
    ensures Sorted(ids, LexLe)
    ensures multiset(ids) == multiset(keys)
  {
    LexLeIsTotalOrder();
    var todo, list := keys, [];
    while todo != {}
      invariant todo <= keys
      invariant multiset(list) == multiset(keys - todo)
      decreases |todo|
    {
      var k :| k in todo;
      assert keys - (todo - {k}) == keys - todo + {k};
      todo, list := todo - {k}, list + [k];
    }
    assert keys - todo == keys;
    ids := Sort(list, LexLe);
  }

  /** A duplicate-free listing names each key once. */
  lemma ListingIsInjective<T>(ids: seq<T>, keys: set<T>)
    requires multiset(ids) == multiset(keys)
    ensures forall k :: k in ids <==> k in keys
    ensures forall i, j :: 0 <= i < j < |ids| ==> ids[i] != ids[j]
  {
    forall k
      ensures k in ids <==> k in keys
    {
      assert k in multiset(ids) <==> k in ids;
      assert k in multiset(keys) <==> k in keys;
    }
    forall i, j | 0 <= i < j < |ids|
      ensures ids[i] != ids[j]
    {
      assert ids == ids[..i] + [ids[i]] + ids[i + 1..j] + [ids[j]] + ids[j + 1..];
      assert ids[i] == ids[j] ==> multiset(ids)[ids[i]] >= 2;
    }
  }

  // ---------------------------------------------------------------------------------------------------------------
  // Searching

  /** The first element that will do, or the length. */
  function First<T>(ts: seq<T>, does: T -> bool): (n: int)
    ensures 0 <= n <= |ts| && (n < |ts| ==> does(ts[n]))
    ensures forall i :: 0 <= i < n ==> !does(ts[i])
  {
    if ts == [] || does(ts[0]) then 0
    else
      var n := First(ts[1..], does);
      assert forall i :: 0 < i < 1 + n ==> ts[i] == ts[1..][i - 1];
      1 + n
  }

  lemma Prefixes<T>(a: seq<T>, b: seq<T>, c: seq<T>)
    requires a <= b <= c
    ensures a <= c
  {
  }

  /** The indices below `n` that are wanted, in order. */
  ghost predicate Selects(at: seq<int>, n: int, wanted: int -> bool) {
    && (forall i, j :: 0 <= i < j < |at| ==> at[i] < at[j])
    && (forall k :: k in at <==> 0 <= k < n && wanted(k))
  }

  lemma NoneSelected(wanted: int -> bool)
    ensures Selects([], 0, wanted)
  {
  }

  lemma SelectsNext(at: seq<int>, n: nat, wanted: int -> bool)
    requires Selects(at, n, wanted)
    ensures Selects(if wanted(n) then at + [n] else at, n + 1, wanted)
  {
    if wanted(n) {
      var more := at + [n];
      forall i, j | 0 <= i < j < |more|
        ensures more[i] < more[j]
      {
        assert more[i] in at;
      }
      assert forall k :: k in more <==> k in at || k == n;
    }
  }
}
