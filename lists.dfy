/** The array operations the pages use on their record lists: `filter`, `find`, `slice`,
    `reduce` to a sum, the id-keyed patches after a save or delete, and `sort` by a key. */
module Lists {
  import opened Wrappers

  /** `xs.filter(p)`: the elements that pass (`FilterCount` says as often as they occur, and
      `FilterCons` and `FilterAppend` that they keep their order). */
  function Filter<T>(xs: seq<T>, p: T -> bool): (r: seq<T>)
    ensures |r| <= |xs|
    ensures forall i :: 0 <= i < |r| ==> r[i] in xs && p(r[i])
    ensures forall i :: 0 <= i < |xs| && p(xs[i]) ==> xs[i] in r
    ensures multiset(r) <= multiset(xs)
  {
    if xs == [] then []
    else
      assert xs == [xs[0]] + xs[1..];
      (if p(xs[0]) then [xs[0]] else []) + Filter(xs[1..], p)
  }

  /** The filter keeps every element that passes as often as it occurs, and drops every other. */
  lemma {:induction false} FilterCount<T>(xs: seq<T>, p: T -> bool)
    ensures forall x :: x in xs ==> multiset(Filter(xs, p))[x] == if p(x) then multiset(xs)[x] else 0
  {
    if xs != [] {
      var t := xs[1..];
      FilterCount(t, p);
      assert xs == [xs[0]] + t;
      assert multiset(xs) == multiset{xs[0]} + multiset(t);
      var head := if p(xs[0]) then [xs[0]] else [];
      assert Filter(xs, p) == head + Filter(t, p);
      assert multiset(Filter(xs, p)) == multiset(head) + multiset(Filter(t, p));
      forall x | x in xs
        ensures multiset(Filter(xs, p))[x] == if p(x) then multiset(xs)[x] else 0
      {
        if x !in t {
          assert multiset(t)[x] == 0;
          assert multiset(Filter(t, p))[x] == 0;
        }
      }
    }
  }

  /** Filtering a list with one more element in front: that element is kept in front exactly
      when it passes. */
  lemma {:induction false} FilterCons<T>(x: T, xs: seq<T>, p: T -> bool)
    ensures Filter([x] + xs, p) == (if p(x) then [x] else []) + Filter(xs, p)
  {
    assert ([x] + xs)[1..] == xs;
  }

  /** Filtering keeps the order: the filter of two lists joined is the two filters joined. */
  lemma {:induction false} FilterAppend<T>(a: seq<T>, b: seq<T>, p: T -> bool)
    ensures Filter(a + b, p) == Filter(a, p) + Filter(b, p)
  {
    if a != [] {
      var t := a[1..];
      var head := if p(a[0]) then [a[0]] else [];
      FilterAppend(t, b, p);
      assert (a + b)[0] == a[0] && (a + b)[1..] == t + b;
      assert Filter(a + b, p) == head + Filter(t + b, p);
      assert Filter(a, p) == head + Filter(t, p);
    } else {
      assert a + b == b;
    }
  }

  /** Two complementary filters share out the elements of a list, each as often as it occurs. */
  lemma {:induction false} FilterPartition<T>(xs: seq<T>, p: T -> bool, q: T -> bool)
    requires forall x :: q(x) == !p(x)
    ensures multiset(Filter(xs, p)) + multiset(Filter(xs, q)) == multiset(xs)
  {
    var a := Filter(xs, p);
    var b := Filter(xs, q);
    FilterCount(xs, p);
    FilterCount(xs, q);
    forall x | x in multiset(a) + multiset(b) || x in multiset(xs)
      ensures (multiset(a) + multiset(b))[x] == multiset(xs)[x]
    {
      assert multiset(a)[x] == if p(x) then multiset(xs)[x] else 0;
      assert multiset(b)[x] == if q(x) then multiset(xs)[x] else 0;
    }
    assert multiset(a) + multiset(b) == multiset(xs);
  }

  /** Filtering with an always-true test keeps the list as it is. */
  lemma {:induction false} FilterAll<T>(xs: seq<T>, p: T -> bool)
    requires forall i :: 0 <= i < |xs| ==> p(xs[i])
    ensures Filter(xs, p) == xs
  {
    if xs != [] {
      FilterAll(xs[1..], p);
      assert [xs[0]] + xs[1..] == xs;
    }
  }

  /** Filters that agree on every element agree on the list. */
  lemma {:induction false} FilterExt<T>(xs: seq<T>, p: T -> bool, q: T -> bool)
    requires forall i :: 0 <= i < |xs| ==> p(xs[i]) == q(xs[i])
    ensures Filter(xs, p) == Filter(xs, q)
  {
    if xs != [] {
      FilterExt(xs[1..], p, q);
    }
  }

  /** Filtering by a conjunction is filtering twice. */
  lemma {:induction false} FilterConj<T>(xs: seq<T>, p: T -> bool, q: T -> bool, pq: T -> bool)
    requires forall i :: 0 <= i < |xs| ==> pq(xs[i]) == (p(xs[i]) && q(xs[i]))
    ensures Filter(xs, pq) == Filter(Filter(xs, p), q)
  {
    if xs != [] {
      FilterConj(xs[1..], p, q, pq);
      var rest := Filter(xs[1..], p);
      if p(xs[0]) {
        assert Filter(xs, p) == [xs[0]] + rest;
        assert ([xs[0]] + rest)[1..] == rest;
      } else {
        assert Filter(xs, p) == rest;
        assert !pq(xs[0]);
      }
    }
  }

  /** Two lists with the same elements, counted, hold the same elements. */
  lemma {:induction false} SameMembers<T>(a: seq<T>, b: seq<T>)
    requires multiset(a) == multiset(b)
    ensures forall i :: 0 <= i < |a| ==> a[i] in b
    ensures forall i :: 0 <= i < |b| ==> b[i] in a
  {
    forall i | 0 <= i < |a|
      ensures a[i] in b
    {
      assert a[i] in multiset(a);
    }
    forall i | 0 <= i < |b|
      ensures b[i] in a
    {
      assert b[i] in multiset(b);
    }
  }

  /** A filter that rejects some element makes the list shorter. */
  lemma {:induction false} FilterDrops<T>(xs: seq<T>, p: T -> bool, k: nat)
    requires k < |xs| && !p(xs[k])
    ensures |Filter(xs, p)| < |xs|
  {
    if k > 0 {
      FilterDrops(xs[1..], p, k - 1);
    }
  }

  /** `xs.find(p)`: the first element that passes the test, if any. */
  function Find<T>(xs: seq<T>, p: T -> bool): (r: Option<T>)
    ensures r.None? <==> forall i :: 0 <= i < |xs| ==> !p(xs[i])
    ensures r.Some? ==> exists k :: 0 <= k < |xs| && xs[k] == r.value && p(xs[k]) && forall j :: 0 <= j < k ==> !p(xs[j])
  {
    if xs == [] then None
    else if p(xs[0]) then Some(xs[0])
    else
      var r := Find(xs[1..], p);
      assert forall i :: 1 <= i < |xs| ==> xs[i] == xs[1..][i - 1];
      r
  }

  /** `xs.findIndex(p)`: the index of the first element that passes the test, or -1. */
  function FindIndex<T>(xs: seq<T>, p: T -> bool): (r: int)
    ensures -1 <= r < |xs|
    ensures r == -1 <==> forall i :: 0 <= i < |xs| ==> !p(xs[i])
    ensures r >= 0 ==> p(xs[r]) && forall j :: 0 <= j < r ==> !p(xs[j])
  {
    if xs == [] then -1
    else if p(xs[0]) then 0
    else
      var r := FindIndex(xs[1..], p);
      assert forall i :: 1 <= i < |xs| ==> xs[i] == xs[1..][i - 1];
      if r == -1 then -1 else r + 1
  }

  /** `find` returns the element at the index `findIndex` returns. */
  lemma {:induction false} FindAt<T>(xs: seq<T>, p: T -> bool)
    ensures Find(xs, p) == if FindIndex(xs, p) == -1 then None else Some(xs[FindIndex(xs, p)])
  {
    if xs != [] && !p(xs[0]) {
      FindAt(xs[1..], p);
    }
  }

  /** `xs.slice(0, n)`. */
  function Take<T>(xs: seq<T>, n: nat): (r: seq<T>)
    ensures |r| <= n && |r| <= |xs|
    ensures r == xs[..|r|]
    ensures |r| < n ==> r == xs
  {
    if |xs| <= n then xs else xs[..n]
  }

  /** The first `n` elements that pass are the ones that pass in some prefix of the list: the
      filter reads the list from the front. */
  /** How far into `xs` the `n`-th element that passes lies. */
  function PassPrefix<T>(xs: seq<T>, p: T -> bool, n: nat): (k: nat)
    requires n <= |Filter(xs, p)|
    ensures k <= |xs|
  {
    if n == 0 then 0
    else
      assert Filter(xs, p) == (if p(xs[0]) then [xs[0]] else []) + Filter(xs[1..], p);
      1 + PassPrefix(xs[1..], p, if p(xs[0]) then n - 1 else n)
  }

  /** The first `n` elements that pass are the ones that pass in a prefix of the list: the
      filter reads the list from the front. */
  lemma {:induction false} FilterTakePrefix<T>(xs: seq<T>, p: T -> bool, n: nat)
    requires n <= |Filter(xs, p)|
    ensures Filter(xs[..PassPrefix(xs, p, n)], p) == Filter(xs, p)[..n]
  {
    if n == 0 {
      assert xs[..0] == [];
    } else {
      var t := xs[1..];
      var head := if p(xs[0]) then [xs[0]] else [];
      var m := if p(xs[0]) then n - 1 else n;
      FilterHead(xs, p);
      FilterTakePrefix(t, p, m);
      var j := PassPrefix(t, p, m);
      assert PassPrefix(xs, p, n) == j + 1;
      FilterPrefixHead(xs, p, j);
      PrefixStep(Filter(xs[..j + 1], p), Filter(t[..j], p), Filter(t, p), Filter(xs, p), head, m, n);
    }
  }

  lemma {:induction false} PrefixStep<T>(a: seq<T>, b: seq<T>, c: seq<T>, d: seq<T>, head: seq<T>, m: nat, n: nat)
    requires m <= |c| && n == |head| + m
    requires a == head + b && b == c[..m] && d == head + c
    ensures a == d[..n]
  {
    assert (head + c)[..n] == head + c[..m];
  }

  lemma {:induction false} FilterHead<T>(xs: seq<T>, p: T -> bool)
    requires xs != []
    ensures Filter(xs, p) == (if p(xs[0]) then [xs[0]] else []) + Filter(xs[1..], p)
  {
  }

  lemma {:induction false} FilterPrefixHead<T>(xs: seq<T>, p: T -> bool, j: nat)
    requires j < |xs|
    ensures Filter(xs[..j + 1], p) == (if p(xs[0]) then [xs[0]] else []) + Filter(xs[1..][..j], p)
  {
    PrefixAfterHead(xs, j);
    FilterCons(xs[0], xs[1..][..j], p);
  }

  lemma {:induction false} PrefixAfterHead<T>(xs: seq<T>, j: nat)
    requires j < |xs|
    ensures xs[..j + 1] == [xs[0]] + xs[1..][..j]
  {
    assert xs[1..][..j] == xs[1..j + 1];
    assert xs[..j + 1] == [xs[0]] + xs[1..j + 1];
  }

  /** `xs.map(x => idOf(x) === idOf(u) ? u : x)`: the patch after a successful update. */
  function ReplaceById<T>(xs: seq<T>, idOf: T -> int, u: T): (r: seq<T>)
    ensures |r| == |xs|
    ensures forall i :: 0 <= i < |xs| ==> r[i] == (if idOf(xs[i]) == idOf(u) then u else xs[i])
  {
    if xs == [] then []
    else
      var rest := ReplaceById(xs[1..], idOf, u);
      assert forall i :: 1 <= i < |xs| ==> xs[i] == xs[1..][i - 1];
      [if idOf(xs[0]) == idOf(u) then u else xs[0]] + rest
  }

  /** `xs.filter(x => idOf(x) !== id)`: the patch after a successful delete. */
  function RemoveById<T>(xs: seq<T>, idOf: T -> int, id: int): (r: seq<T>)
    ensures |r| <= |xs|
    ensures forall i :: 0 <= i < |r| ==> idOf(r[i]) != id
    ensures forall i :: 0 <= i < |xs| && idOf(xs[i]) != id ==> xs[i] in r
    ensures multiset(r) <= multiset(xs)
    ensures forall x :: x in xs ==> multiset(r)[x] == if idOf(x) != id then multiset(xs)[x] else 0
  {
    FilterCount(xs, x => idOf(x) != id);
    Filter(xs, x => idOf(x) != id)
  }

  /** Removing an id nobody has leaves the list as it was. */
  lemma {:induction false} RemoveAbsentId<T>(xs: seq<T>, idOf: T -> int, id: int)
    requires forall i :: 0 <= i < |xs| ==> idOf(xs[i]) != id
    ensures RemoveById(xs, idOf, id) == xs
  {
    FilterAll(xs, x => idOf(x) != id);
  }

  /** Removing an id somebody has makes the list shorter. */
  lemma {:induction false} RemovePresentId<T>(xs: seq<T>, idOf: T -> int, id: int, k: nat)
    requires k < |xs| && idOf(xs[k]) == id
    ensures |RemoveById(xs, idOf, id)| < |xs|
  {
    FilterDrops(xs, x => idOf(x) != id, k);
  }

  /** `xs.reduce((sum, x) => sum + f(x), 0)`. */
  function Sum<T>(xs: seq<T>, f: T -> int): int {
    if xs == [] then 0 else f(xs[0]) + Sum(xs[1..], f)
  }

  /** Filtering a non-empty list: the head counts, and adds to the sum, when it passes. */
  lemma {:induction false} FilterStep<T>(xs: seq<T>, p: T -> bool, f: T -> int)
    requires xs != []
    ensures |Filter(xs, p)| == |Filter(xs[1..], p)| + (if p(xs[0]) then 1 else 0)
    ensures Sum(Filter(xs, p), f) == Sum(Filter(xs[1..], p), f) + (if p(xs[0]) then f(xs[0]) else 0)
  {
    var rest := Filter(xs[1..], p);
    if p(xs[0]) {
      assert Filter(xs, p) == [xs[0]] + rest;
      assert ([xs[0]] + rest)[1..] == rest;
    } else {
      assert Filter(xs, p) == rest;
    }
  }

  /** Two complementary filters split a list: their lengths add up to its length and their
      sums to its sum. */
  lemma {:induction false} FilterSplit<T>(xs: seq<T>, p: T -> bool, q: T -> bool, f: T -> int)
    requires forall x :: q(x) == !p(x)
    ensures |Filter(xs, p)| + |Filter(xs, q)| == |xs|
    ensures Sum(Filter(xs, p), f) + Sum(Filter(xs, q), f) == Sum(xs, f)
  {
    if xs != [] {
      FilterSplit(xs[1..], p, q, f);
      var a := Filter(xs[1..], p);
      var b := Filter(xs[1..], q);
      if p(xs[0]) {
        assert Filter(xs, p) == [xs[0]] + a;
        assert Filter(xs, q) == b;
        assert ([xs[0]] + a)[1..] == a;
      } else {
        assert Filter(xs, p) == a;
        assert Filter(xs, q) == [xs[0]] + b;
        assert ([xs[0]] + b)[1..] == b;
      }
    }
  }

  /** Every element's key is at least every later element's key. */
  predicate SortedDesc<T>(xs: seq<T>, key: T -> int) {
    forall i, j :: 0 <= i < j < |xs| ==> key(xs[i]) >= key(xs[j])
  }

  /** Put `x` in front of the first element whose key is not above its own. */
  function Insert<T>(x: T, ys: seq<T>, key: T -> int): (r: seq<T>)
    requires SortedDesc(ys, key)
    ensures SortedDesc(r, key)
    ensures forall i :: 0 <= i < |r| ==> r[i] == x || r[i] in ys
    ensures multiset(r) == multiset(ys) + multiset{x}
  {
    if ys == [] then [x]
    else if key(x) >= key(ys[0]) then [x] + ys
    else
      var rest := Insert(x, ys[1..], key);
      assert ys == [ys[0]] + ys[1..];
      InsertBelow(x, ys, rest, key);
      [ys[0]] + rest
  }

  /** What is inserted after the head of a sorted list keeps below the head. */
  lemma {:induction false} InsertBelow<T>(x: T, ys: seq<T>, rest: seq<T>, key: T -> int)
    requires SortedDesc(ys, key) && ys != [] && key(x) < key(ys[0])
    requires SortedDesc(rest, key)
    requires forall i :: 0 <= i < |rest| ==> rest[i] == x || rest[i] in ys[1..]
    ensures SortedDesc([ys[0]] + rest, key)
  {
    forall i | 0 <= i < |rest|
      ensures key(rest[i]) <= key(ys[0])
    {
      if rest[i] != x {
        var k :| 0 <= k < |ys[1..]| && ys[1..][k] == rest[i];
        assert ys[k + 1] == rest[i];
      }
    }
    SortedCons(ys[0], rest, key);
  }

  /** A head no lower than anything after it, on a sorted list, gives a sorted list. */
  lemma {:induction false} SortedCons<T>(x: T, rest: seq<T>, key: T -> int)
    requires SortedDesc(rest, key)
    requires forall i :: 0 <= i < |rest| ==> key(rest[i]) <= key(x)
    ensures SortedDesc([x] + rest, key)
  {
    var r := [x] + rest;
    forall i, j | 0 <= i < j < |r|
      ensures key(r[i]) >= key(r[j])
    {
      if i > 0 {
        assert r[i] == rest[i - 1] && r[j] == rest[j - 1];
      } else {
        assert r[j] == rest[j - 1];
      }
    }
  }

  /** `xs.sort((a, b) => key(b) - key(a))`: a permutation of `xs` in descending key order. */
  function SortDesc<T>(xs: seq<T>, key: T -> int): (r: seq<T>)
    ensures SortedDesc(r, key)
    ensures multiset(r) == multiset(xs)
  {
    if xs == [] then []
    else
      assert xs == [xs[0]] + xs[1..];
      Insert(xs[0], SortDesc(xs[1..], key), key)
  }

  /** Filtering a list in descending order keeps it in descending order. */
  lemma {:induction false} FilterSorted<T>(xs: seq<T>, p: T -> bool, key: T -> int)
    requires SortedDesc(xs, key)
    ensures SortedDesc(Filter(xs, p), key)
  {
    if xs != [] {
      FilterSorted(xs[1..], p, key);
      var rest := Filter(xs[1..], p);
      if p(xs[0]) {
        assert Filter(xs, p) == [xs[0]] + rest;
        forall j | 0 <= j < |rest|
          ensures key(rest[j]) <= key(xs[0])
        {
          var k :| 0 <= k < |xs[1..]| && xs[1..][k] == rest[j];
          assert xs[k + 1] == rest[j];
        }
        SortedCons(xs[0], rest, key);
      } else {
        assert Filter(xs, p) == rest;
      }
    }
  }

  /** In a list in descending order, whatever is left out of a prefix has a key no greater than
      any key in the prefix. */
  lemma {:induction false} PrefixIsTop<T>(s: seq<T>, n: nat, key: T -> int)
    requires SortedDesc(s, key) && n <= |s|
    ensures multiset(s[..n]) <= multiset(s)
    ensures forall x :: x in multiset(s) - multiset(s[..n]) ==> forall j :: 0 <= j < n ==> key(x) <= key(s[j])
  {
    assert s == s[..n] + s[n..];
    assert multiset(s) == multiset(s[..n]) + multiset(s[n..]);
    assert multiset(s) - multiset(s[..n]) == multiset(s[n..]);
    forall x | x in multiset(s[n..])
      ensures forall j :: 0 <= j < n ==> key(x) <= key(s[j])
    {
      assert x in s[n..];
      var k :| 0 <= k < |s[n..]| && s[n..][k] == x;
      assert s[n + k] == x;
    }
  }

  /** The first `n` of a list sorted in descending order: in order, drawn from the list, and
      no element left out has a greater key than one kept. */
  lemma {:induction false} TopOf<T>(xs: seq<T>, n: nat, key: T -> int)
    ensures var r := Take(SortDesc(xs, key), n);
      && SortedDesc(r, key)
      && multiset(r) <= multiset(xs)
      && forall x :: x in multiset(xs) - multiset(r) ==> forall j :: 0 <= j < |r| ==> key(x) <= key(r[j])
  {
    var s := SortDesc(xs, key);
    var r := Take(s, n);
    assert r == s[..|r|];
    PrefixIsTop(s, |r|, key);
    assert multiset(s) == multiset(xs);
  }
}
