/**
 * Sorting by a key, as Python's `list.sort(key=...)` does it (stable), and
 * `numpy.argsort` with the reordering of parallel arrays by the permutation
 * it returns.
 */
module Sorting {

  /** `s` is in non-decreasing order of `key`. */
  predicate SortedBy<T>(s: seq<T>, key: T -> real)
  {
    forall i, j :: 0 <= i < j < |s| ==> key(s[i]) <= key(s[j])
  }

  /** A sorted sequence stays sorted with an element in front whose key is at most all of its keys. */
  lemma ConsSorted<T>(y: T, t: seq<T>, key: T -> real)
    requires SortedBy(t, key)
    requires forall j :: 0 <= j < |t| ==> key(y) <= key(t[j])
    ensures SortedBy([y] + t, key)
  {
    var r := [y] + t;
    forall i, j | 0 <= i < j < |r| ensures key(r[i]) <= key(r[j]) {
      assert r[j] == t[j - 1];
      if i > 0 {
        assert r[i] == t[i - 1];
      }
    }
  }

  /** Inserts `x` in front of the first element whose key is not smaller than its own. */
  function InsertBy<T>(x: T, s: seq<T>, key: T -> real): (r: seq<T>)
    requires SortedBy(s, key)
    ensures SortedBy(r, key)
    ensures multiset(r) == multiset(s) + multiset{x}
  {
    if s == [] || key(x) <= key(s[0]) then
      assert forall j :: 0 <= j < |s| ==> key(x) <= key(s[j]) by {
        forall j | 0 <= j < |s| ensures key(x) <= key(s[j]) {
          if j > 0 {
            assert key(s[0]) <= key(s[j]);
          }
        }
      }
      ConsSorted(x, s, key);
      [x] + s
    else
      assert s == [s[0]] + s[1..];
      var rest := InsertBy(x, s[1..], key);
      assert forall j :: 0 <= j < |rest| ==> key(s[0]) <= key(rest[j]) by {
        forall j | 0 <= j < |rest| ensures key(s[0]) <= key(rest[j]) {
          assert rest[j] in multiset(rest);
          if rest[j] != x {
            assert rest[j] in s[1..];
          }
        }
      }
      ConsSorted(s[0], rest, key);
      [s[0]] + rest
  }

  /** A stable sort of `s` by `key`: Python's `list.sort(key=key)`. */
  function SortBy<T>(s: seq<T>, key: T -> real): (r: seq<T>)
    ensures SortedBy(r, key)
    ensures multiset(r) == multiset(s)
  {
    if s == [] then []
    else
      assert s == [s[0]] + s[1..];
      InsertBy(s[0], SortBy(s[1..], key), key)
  }

  /** The elements of `s` whose key is `v`, in their order in `s`. */
  function WithKey<T>(s: seq<T>, key: T -> real, v: real): seq<T>
  {
    if s == [] then [] else (if key(s[0]) == v then [s[0]] else []) + WithKey(s[1..], key, v)
  }

  lemma {:induction false} InsertByStable<T>(x: T, s: seq<T>, key: T -> real, v: real)
    requires SortedBy(s, key)
    ensures WithKey(InsertBy(x, s, key), key, v)
         == (if key(x) == v then [x] else []) + WithKey(s, key, v)
  {
    var xPart: seq<T> := if key(x) == v then [x] else [];
    if s == [] || key(x) <= key(s[0]) {
      assert InsertBy(x, s, key) == [x] + s;
      assert ([x] + s)[1..] == s;
    } else {
      var head: seq<T> := if key(s[0]) == v then [s[0]] else [];
      var rest := InsertBy(x, s[1..], key);
      assert InsertBy(x, s, key) == [s[0]] + rest;
      assert WithKey([s[0]] + rest, key, v) == head + WithKey(rest, key, v) by {
        assert ([s[0]] + rest)[1..] == rest;
      }
      assert WithKey(s, key, v) == head + WithKey(s[1..], key, v);
      InsertByStable(x, s[1..], key, v);
      // key(s[0]) < key(x), so at most one of them has key v.
      var w := WithKey(s[1..], key, v);
      if key(s[0]) == v {
        assert xPart == [];
        assert xPart + w == w;
        assert xPart + (head + w) == head + w;
      } else {
        assert head == [];
        assert head + (xPart + w) == xPart + w;
        assert head + w == w;
      }
    }
  }

  /** Sorting is stable: spectra with equal keys keep their relative order. */
  lemma {:induction false} SortByStable<T>(s: seq<T>, key: T -> real, v: real)
    ensures WithKey(SortBy(s, key), key, v) == WithKey(s, key, v)
  {
    if s != [] {
      SortByStable(s[1..], key, v);
      InsertByStable(s[0], SortBy(s[1..], key), key, v);
    }
  }

  /** The indices 0 .. n-1 in order. */
  function Range(n: nat): (r: seq<nat>)
    ensures |r| == n
    ensures forall i :: 0 <= i < n ==> r[i] == i
  {
    seq(n, i requires 0 <= i < n => i)
  }

  /** `order` lists every index of a length-`n` array exactly once. */
  predicate IsPermutation(order: seq<nat>, n: nat)
  {
    multiset(order) == multiset(Range(n))
  }

  /** `order` is a permutation that puts `keys` in non-decreasing order: what `numpy.argsort` returns. */
  predicate SortsKeys(order: seq<nat>, keys: seq<real>)
  {
    && IsPermutation(order, |keys|)
    && (forall k :: 0 <= k < |order| ==> order[k] < |keys|)
    && (forall i, j :: 0 <= i < j < |order| ==> keys[order[i]] <= keys[order[j]])
  }

  lemma PermutationInRange(order: seq<nat>, n: nat)
    requires IsPermutation(order, n)
    ensures |order| == n
    ensures forall k :: 0 <= k < |order| ==> order[k] < n
  {
    assert |order| == |multiset(order)| == |multiset(Range(n))| == n;
    forall k | 0 <= k < |order| ensures order[k] < n {
      assert order[k] in multiset(order);
      assert order[k] in Range(n);
    }
  }

  /**
   * An index order that sorts `keys`. `numpy.argsort` leaves the order of
   * equal keys unspecified; this one keeps them in index order.
   */
  function Argsort(keys: seq<real>): (order: seq<nat>)
    ensures SortsKeys(order, keys)
  {
    var key := (i: nat) => if i < |keys| then keys[i] else 0.0;
    var order := SortBy(Range(|keys|), key);
    PermutationInRange(order, |keys|);
    assert forall i, j :: 0 <= i < j < |order| ==> key(order[i]) <= key(order[j]);
    order
  }

  /** `xs` reordered by an index array: `numpy.asarray(xs)[order]`. */
  function Permute<T>(xs: seq<T>, order: seq<nat>): (r: seq<T>)
    requires forall k :: 0 <= k < |order| ==> order[k] < |xs|
  {
    seq(|order|, k requires 0 <= k < |order| => xs[order[k]])
  }

  /** Taking one element out of a sequence takes it out of its multiset. */
  lemma RemoveAt<T>(b: seq<T>, k: nat)
    requires k < |b|
    ensures multiset(b) == multiset(b[..k] + b[k + 1..]) + multiset{b[k]}
  {
    assert b == b[..k] + [b[k]] + b[k + 1..];
  }

  lemma MultisetCancel<T>(m1: multiset<T>, m2: multiset<T>, x: T)
    requires m1 + multiset{x} == m2 + multiset{x}
    ensures m1 == m2
  {
    assert m1 == (m1 + multiset{x}) - multiset{x};
    assert m2 == (m2 + multiset{x}) - multiset{x};
  }

  /** Reordering by a permutation of the indices keeps every element, with its multiplicity. */
  lemma PermuteIsPermutation<T>(xs: seq<T>, order: seq<nat>)
    requires IsPermutation(order, |xs|)
    ensures forall k :: 0 <= k < |order| ==> order[k] < |xs|
    ensures multiset(Permute(xs, order)) == multiset(xs)
  {
    PermutationInRange(order, |xs|);
    if xs != [] {
      var at := (i: nat) => if i < |xs| then xs[i] else xs[0];
      MapKeepsPermutation(at, order, Range(|xs|));
      assert Permute(xs, order) == Map(at, order);
      assert Map(at, Range(|xs|)) == xs;
    }
  }

  /** `f` applied to every element, in order. */
  function Map<T, U>(f: T -> U, s: seq<T>): (r: seq<U>)
  {
    seq(|s|, i requires 0 <= i < |s| => f(s[i]))
  }

  /** Mapping distributes over appending one element. */
  lemma MapSnoc<T, U>(f: T -> U, s: seq<T>, x: T)
    ensures Map(f, s + [x]) == Map(f, s) + [f(x)]
  {
  }

  lemma MapRemoveAt<T, U>(f: T -> U, b: seq<T>, k: nat)
    requires k < |b|
    ensures multiset(Map(f, b)) == multiset(Map(f, b[..k] + b[k + 1..])) + multiset{f(b[k])}
  {
    var m := Map(f, b);
    assert Map(f, b[..k] + b[k + 1..]) == m[..k] + m[k + 1..];
    RemoveAt(m, k);
  }

  /** Two sequences with the same elements still have the same elements after a map. */
  lemma {:induction false} MapKeepsPermutation<T, U>(f: T -> U, a: seq<T>, b: seq<T>)
    requires multiset(a) == multiset(b)
    ensures multiset(Map(f, a)) == multiset(Map(f, b))
    decreases |a|
  {
    if a == [] {
      assert |b| == |multiset(b)| == 0;
    } else {
      var x := a[0];
      assert x in multiset(b);
      var k :| 0 <= k < |b| && b[k] == x;
      var rest := b[..k] + b[k + 1..];
      assert multiset(a[1..]) == multiset(rest) by {
        calc {
          multiset(a[1..]) + multiset{x};
          == { assert a == [x] + a[1..]; }
          multiset(a);
          ==
          multiset(b);
          == { RemoveAt(b, k); }
          multiset(rest) + multiset{x};
        }
        MultisetCancel(multiset(a[1..]), multiset(rest), x);
      }
      MapKeepsPermutation(f, a[1..], rest);
      assert multiset(Map(f, a)) == multiset(Map(f, a[1..])) + multiset{f(x)} by {
        assert Map(f, a) == [f(x)] + Map(f, a[1..]);
      }
      MapRemoveAt(f, b, k);
    }
  }

  /** No element of `s` occurs twice. */
  predicate Distinct<T(==)>(s: seq<T>)
  {
    forall i, j :: 0 <= i < j < |s| ==> s[i] != s[j]
  }

  /** In a sequence without repeats, every element occurs at most once in its multiset. */
  lemma {:induction false} DistinctOnce<T>(s: seq<T>, x: T)
    requires Distinct(s)
    ensures multiset(s)[x] <= 1
  {
    if s != [] {
      var init := s[..|s| - 1];
      assert s == init + [s[|s| - 1]];
      DistinctOnce(init, x);
    }
  }

  /** A permutation of the indices lists no index twice. */
  lemma PermutationDistinct(order: seq<nat>, n: nat)
    requires IsPermutation(order, n)
    ensures Distinct(order)
  {
    forall i, j | 0 <= i < j < |order| ensures order[i] != order[j] {
      if order[i] == order[j] {
        var x := order[j];
        RemoveAt(order, j);
        assert order[..j] + order[j + 1..] == order[..j] + order[j + 1..];
        assert (order[..j] + order[j + 1..])[i] == x;
        assert x in multiset(order[..j] + order[j + 1..]);
        DistinctOnce(Range(n), x);
        assert false;
      }
    }
  }

  /** In a sorted sequence a position's key is at most the key of any later position. */
  lemma SortedLe<T>(a: seq<T>, i: nat, j: nat, key: T -> real)
    requires SortedBy(a, key)
    requires i <= j < |a|
    ensures key(a[i]) <= key(a[j])
  {
  }

  /**
   * Two orderings of the same elements, both sorted by a key under which no
   * two elements tie, start with the same element.
   */
  lemma SortedWithoutTiesHead<T>(a: seq<T>, b: seq<T>, key: T -> real)
    requires a != []
    requires SortedBy(a, key) && SortedBy(b, key)
    requires multiset(a) == multiset(b)
    requires forall i, j :: 0 <= i < j < |a| ==> key(a[i]) != key(a[j])
    ensures b != [] && a[0] == b[0]
  {
    assert a[0] in multiset(b);
    var m :| 0 <= m < |b| && b[m] == a[0];
    assert b[0] in multiset(a);
    var n :| 0 <= n < |a| && a[n] == b[0];
    // key(a[0]) <= key(a[n]) == key(b[0]) <= key(b[m]) == key(a[0]), and no two keys of `a` tie.
    SortedLe(a, 0, n, key);
    SortedLe(b, 0, m, key);
    assert n == 0;
  }

  /** Removing equal heads from two sequences with the same elements leaves tails with the same elements. */
  lemma TailsPermutation<T>(a: seq<T>, b: seq<T>)
    requires a != [] && b != [] && a[0] == b[0]
    requires multiset(a) == multiset(b)
    ensures multiset(a[1..]) == multiset(b[1..])
  {
    assert a == [a[0]] + a[1..];
    assert b == [b[0]] + b[1..];
    assert multiset(a) == multiset(a[1..]) + multiset{a[0]};
    assert multiset(b) == multiset(b[1..]) + multiset{a[0]};
    MultisetCancel(multiset(a[1..]), multiset(b[1..]), a[0]);
  }

  /**
   * Two orderings of the same elements that are both sorted by a key under
   * which no two elements tie are the same sequence: sorting by a key
   * without ties has only one answer.
   */
  lemma {:induction false} SortedWithoutTiesUnique<T>(a: seq<T>, b: seq<T>, key: T -> real)
    requires SortedBy(a, key) && SortedBy(b, key)
    requires multiset(a) == multiset(b)
    requires forall i, j :: 0 <= i < j < |a| ==> key(a[i]) != key(a[j])
    ensures a == b
    decreases |a|
  {
    if a == [] {
      assert |b| == |multiset(b)| == 0;
    } else {
      SortedWithoutTiesHead(a, b, key);
      TailsPermutation(a, b);
      var a', b' := a[1..], b[1..];
      assert SortedBy(a', key) && SortedBy(b', key);
      assert forall i, j :: 0 <= i < j < |a'| ==> key(a'[i]) != key(a'[j]) by {
        forall i, j | 0 <= i < j < |a'| ensures key(a'[i]) != key(a'[j]) {
          assert a'[i] == a[i + 1] && a'[j] == a[j + 1];
        }
      }
      SortedWithoutTiesUnique(a', b', key);
      assert a == [a[0]] + a' && b == [b[0]] + b';
    }
  }
}
