/** The array operations the schedule and roster pages derive their lists with: a stable sort
    by an integer key (what `Array.prototype.sort` with a numeric comparator does), `filter`
    and `find`. */
module Sorting {
  import opened Wrappers

  /** Keys never decrease along `xs`. */
  predicate SortedBy<T>(xs: seq<T>, key: T -> int) {
    forall i, j :: 0 <= i < j < |xs| ==> key(xs[i]) <= key(xs[j])
  }

  /** `x` placed after every element of `s` whose key is not larger than its own. */
  function Insert<T>(x: T, s: seq<T>, key: T -> int): (r: seq<T>)
    ensures |r| == |s| + 1
    ensures multiset(r) == multiset(s) + multiset{x}
    decreases |s|
  {
    if s == [] then [x]
    else if key(x) < key(s[0]) then [x] + s
    else
      assert [s[0]] + s[1..] == s;
      [s[0]] + Insert(x, s[1..], key)
  }

  /** Inserting into a sorted sequence keeps it sorted. */
  lemma {:induction false} InsertSorted<T>(x: T, s: seq<T>, key: T -> int)
    requires SortedBy(s, key)
    ensures SortedBy(Insert(x, s, key), key)
    decreases |s|
  {
    if s != [] && key(s[0]) <= key(x) {
      var rest := Insert(x, s[1..], key);
      InsertSorted(x, s[1..], key);
      forall j | 0 <= j < |rest| ensures key(s[0]) <= key(rest[j]) {
        var y := rest[j];
        assert y in multiset(rest);
        if y != x {
          assert y in multiset(s[1..]);
          var i :| 0 <= i < |s[1..]| && s[1..][i] == y;
          assert s[i + 1] == y;
        }
      }
      assert Insert(x, s, key) == [s[0]] + rest;
    }
  }

  /** The elements of `xs` ordered by `key`; equal keys keep their order. */
  function SortBy<T>(xs: seq<T>, key: T -> int): (r: seq<T>)
    ensures |r| == |xs|
    ensures multiset(r) == multiset(xs)
    ensures SortedBy(r, key)
    decreases |xs|
  {
    if xs == [] then []
    else
      assert xs[..|xs| - 1] + [xs[|xs| - 1]] == xs;
      var sorted := SortBy(xs[..|xs| - 1], key);
      InsertSorted(xs[|xs| - 1], sorted, key);
      Insert(xs[|xs| - 1], sorted, key)
  }

  /** The elements of `xs` with key `k`, in order. */
  function WithKey<T>(xs: seq<T>, key: T -> int, k: int): seq<T>
    decreases |xs|
  {
    if xs == [] then []
    else WithKey(xs[..|xs| - 1], key, k) + (if key(xs[|xs| - 1]) == k then [xs[|xs| - 1]] else [])
  }

  /** The sort is stable: the elements sharing a key come out in the order they went in. */
  lemma {:induction false} SortByStable<T>(xs: seq<T>, key: T -> int, k: int)
    ensures WithKey(SortBy(xs, key), key, k) == WithKey(xs, key, k)
    decreases |xs|
  {
    if xs != [] {
      var init, last := xs[..|xs| - 1], xs[|xs| - 1];
      SortByStable(init, key, k);
      InsertWithKey(last, SortBy(init, key), key, k);
    }
  }

  lemma {:induction false} InsertWithKey<T>(x: T, s: seq<T>, key: T -> int, k: int)
    requires SortedBy(s, key)
    ensures WithKey(Insert(x, s, key), key, k)
            == WithKey(s, key, k) + (if key(x) == k then [x] else [])
    decreases |s|
  {
    if s == [] {
      WithKeySingle(x, key, k);
    } else if key(x) < key(s[0]) {
      InsertFront(x, s, key, k);
    } else {
      InsertWithKey(x, s[1..], key, k);
      ConsWithKey(s[0], Insert(x, s[1..], key), s[1..], if key(x) == k then [x] else [], key, k);
      assert [s[0]] + s[1..] == s;
    }
  }

  /** The step of `InsertWithKey` where `x` goes first. */
  lemma InsertFront<T>(x: T, s: seq<T>, key: T -> int, k: int)
    requires s != [] && key(x) < key(s[0]) && SortedBy(s, key)
    ensures WithKey([x] + s, key, k) == WithKey(s, key, k) + (if key(x) == k then [x] else [])
  {
    WithKeySingle(x, key, k);
    WithKeyAppend([x], s, key, k);
    if key(x) == k {
      NoneWithKey(s, key, k);
    }
  }

  /** Putting the same element in front of two sequences keeps a relation between their
      key-`k` elements. */
  lemma ConsWithKey<T>(h: T, a: seq<T>, b: seq<T>, extra: seq<T>, key: T -> int, k: int)
    requires WithKey(a, key, k) == WithKey(b, key, k) + extra
    ensures WithKey([h] + a, key, k) == WithKey([h] + b, key, k) + extra
  {
    WithKeyAppend([h], a, key, k);
    WithKeyAppend([h], b, key, k);
  }

  lemma WithKeySingle<T>(x: T, key: T -> int, k: int)
    ensures WithKey([x], key, k) == (if key(x) == k then [x] else [])
  {
    assert [x][..0] == [];
  }

  lemma {:induction false} WithKeyAppend<T>(a: seq<T>, b: seq<T>, key: T -> int, k: int)
    ensures WithKey(a + b, key, k) == WithKey(a, key, k) + WithKey(b, key, k)
    decreases |b|
  {
    if b != [] {
      var init := b[..|b| - 1];
      WithKeyAppend(a, init, key, k);
      assert (a + b)[..|a + b| - 1] == a + init;
    } else {
      assert a + b == a;
    }
  }

  lemma {:induction false} NoneWithKey<T>(s: seq<T>, key: T -> int, k: int)
    requires forall j :: 0 <= j < |s| ==> key(s[j]) > k
    ensures WithKey(s, key, k) == []
    decreases |s|
  {
    if s != [] {
      NoneWithKey(s[..|s| - 1], key, k);
    }
  }

  /** `xs.filter(p)`: the elements satisfying `p`, in order. */
  function Filter<T>(xs: seq<T>, p: T -> bool): (r: seq<T>)
    ensures |r| <= |xs|
    ensures forall j :: 0 <= j < |r| ==> p(r[j])
    ensures multiset(r) <= multiset(xs)
    ensures forall x :: x in xs && p(x) ==> x in r
    decreases |xs|
  {
    if xs == [] then []
    else
      var init := Filter(xs[..|xs| - 1], p);
      var last := xs[|xs| - 1];
      assert xs[..|xs| - 1] + [last] == xs;
      assert forall x :: x in xs ==> x in xs[..|xs| - 1] || x == last;
      init + (if p(last) then [last] else [])
  }

  /** Filtering a sorted sequence leaves it sorted. */
  lemma {:induction false} FilterSorted<T>(xs: seq<T>, p: T -> bool, key: T -> int)
    requires SortedBy(xs, key)
    ensures SortedBy(Filter(xs, p), key)
    decreases |xs|
  {
    if xs != [] {
      var init := xs[..|xs| - 1];
      var last := xs[|xs| - 1];
      FilterSorted(init, p, key);
      var f := Filter(init, p);
      forall y | y in f ensures key(y) <= key(last) {
        assert y in multiset(f);
        assert y in init;
      }
    }
  }

  /** Filtering distributes over concatenation. */
  lemma {:induction false} FilterAppend<T>(a: seq<T>, b: seq<T>, p: T -> bool)
    ensures Filter(a + b, p) == Filter(a, p) + Filter(b, p)
    decreases |b|
  {
    if b == [] {
      assert a + b == a;
    } else {
      var init, last := b[..|b| - 1], b[|b| - 1];
      assert (a + b)[..|a + b| - 1] == a + init;
      assert (a + b)[|a + b| - 1] == last;
      FilterAppend(a, init, p);
    }
  }

  /** `xs` without its element at position `k`. */
  function RemoveAt<T>(xs: seq<T>, k: nat): (r: seq<T>)
    requires k < |xs|
    ensures |r| == |xs| - 1
    ensures multiset(r) + multiset{xs[k]} == multiset(xs)
  {
    assert xs == xs[..k] + [xs[k]] + xs[k + 1..];
    xs[..k] + xs[k + 1..]
  }

  /** Removing one element keeps a sorted sequence sorted. */
  lemma RemoveAtSorted<T>(xs: seq<T>, k: nat, key: T -> int)
    requires k < |xs| && SortedBy(xs, key)
    ensures SortedBy(RemoveAt(xs, k), key)
  {
    var r := RemoveAt(xs, k);
    forall i, j | 0 <= i < j < |r| ensures key(r[i]) <= key(r[j]) {
      var i' := if i < k then i else i + 1;
      var j' := if j < k then j else j + 1;
      assert r[i] == xs[i'] && r[j] == xs[j'];
    }
  }

  /** Filtering after removing an element that passes the filter loses exactly that element. */
  lemma FilterRemoveAt<T>(xs: seq<T>, k: nat, p: T -> bool)
    requires k < |xs| && p(xs[k])
    ensures multiset(Filter(RemoveAt(xs, k), p)) + multiset{xs[k]} == multiset(Filter(xs, p))
  {
    var pre, x, post := xs[..k], xs[k], xs[k + 1..];
    assert xs == pre + [x] + post;
    assert RemoveAt(xs, k) == pre + post;
    FilterAround(pre, x, post, p);
    MultisetAround(Filter(pre, p), x, Filter(post, p));
  }

  lemma MultisetAround<T>(a: seq<T>, x: T, b: seq<T>)
    ensures multiset(a + b) + multiset{x} == multiset(a + [x] + b)
  {
  }

  lemma FilterAround<T>(pre: seq<T>, x: T, post: seq<T>, p: T -> bool)
    requires p(x)
    ensures Filter(pre + [x] + post, p) == Filter(pre, p) + [x] + Filter(post, p)
    ensures Filter(pre + post, p) == Filter(pre, p) + Filter(post, p)
  {
    assert Filter([x], p) == [x] by {
      assert [x][..0] == [];
    }
    FilterAppend(pre + [x], post, p);
    FilterAppend(pre, [x], p);
    FilterAppend(pre, post, p);
  }

  /** `xs.findIndex(p)`, as the position of the first element satisfying `p`. */
  function Find<T>(xs: seq<T>, p: T -> bool): (r: Option<nat>)
    ensures r.Some? ==> r.value < |xs| && p(xs[r.value])
    ensures r.Some? ==> forall j :: 0 <= j < r.value ==> !p(xs[j])
    ensures r.None? <==> forall j :: 0 <= j < |xs| ==> !p(xs[j])
    decreases |xs|
  {
    if xs == [] then None
    else if p(xs[0]) then Some(0)
    else
      var r := Find(xs[1..], p);
      assert forall j :: 1 <= j < |xs| ==> xs[j] == xs[1..][j - 1];
      if r.None? then None else Some(r.value + 1)
  }
}
