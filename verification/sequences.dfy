/**
 The array operations the tracker relies on, as functions on sequences: `filter` by a key,
 `reduce` to a sum, and the stable `sort` by an integer key (stable since ECMAScript 2019).
 */
module Sequences {

  /** The set of keys of the elements of `s`. */
  function Keys<T, K(==)>(s: seq<T>, key: T -> K): set<K>
  {
    set i | 0 <= i < |s| :: key(s[i])
  }

  /** No two elements of `s` share a key. */
  predicate DistinctKeys<T, K(==)>(s: seq<T>, key: T -> K)
  {
    forall i, j :: 0 <= i < j < |s| ==> key(s[i]) != key(s[j])
  }

  /** `s.filter(x => key(x) !== k)`: the elements whose key differs from `k`, in order. */
  function Without<T, K(==)>(s: seq<T>, key: T -> K, k: K): (r: seq<T>)
    ensures |r| <= |s|
    ensures forall i :: 0 <= i < |r| ==> key(r[i]) != k
  {
    if s == [] then []
    else
      (if key(s[0]) != k then [s[0]] else []) + Without(s[1..], key, k)
  }

  /** `s.filter(x => key(x) === k)`: the elements whose key is `k`, in order. */
  function WithKey<T, K(==)>(s: seq<T>, key: T -> K, k: K): (r: seq<T>)
    ensures |r| <= |s|
    ensures forall i :: 0 <= i < |r| ==> key(r[i]) == k
  {
    if s == [] then []
    else
      (if key(s[0]) == k then [s[0]] else []) + WithKey(s[1..], key, k)
  }

  /** `s.reduce((sum, x) => sum + f(x), 0)` over exact reals. */
  function Total<T>(s: seq<T>, f: T -> real): real
  {
    if s == [] then 0.0 else f(s[0]) + Total(s[1..], f)
  }

  /** The order a sort by `key` produces: keys never decrease. */
  predicate SortedBy<T>(s: seq<T>, key: T -> int)
  {
    forall i, j :: 0 <= i < j < |s| ==> key(s[i]) <= key(s[j])
  }

  /**
   Walks back from the end of `s` past the elements whose key exceeds key(x) and places `x`
   there; on a sorted `s` this puts `x` after every element whose key is at most its own.
   */
  function Insert<T>(s: seq<T>, x: T, key: T -> int): (r: seq<T>)
    ensures |r| == |s| + 1
    ensures multiset(r) == multiset(s) + multiset{x}
    ensures r[|r| - 1] == x || (|s| > 0 && r[|r| - 1] == s[|s| - 1])
    decreases |s|
  {
    if s == [] || key(s[|s| - 1]) <= key(x) then s + [x]
    else
      assert s == s[..|s| - 1] + [s[|s| - 1]];
      Insert(s[..|s| - 1], x, key) + [s[|s| - 1]]
  }

  lemma {:induction false} InsertSorted<T>(s: seq<T>, x: T, key: T -> int)
    requires SortedBy(s, key)
    ensures SortedBy(Insert(s, x, key), key)
    decreases |s|
  {
    if s != [] && key(s[|s| - 1]) > key(x) {
      var init, last := s[..|s| - 1], s[|s| - 1];
      var r' := Insert(init, x, key);
      InsertSorted(init, x, key);
      assert key(r'[|r'| - 1]) <= key(last);
      assert Insert(s, x, key) == r' + [last];
    }
  }

  /** The stable sort of `s` by `key`, as insertion sort. */
  function SortBy<T>(s: seq<T>, key: T -> int): (r: seq<T>)
    ensures |r| == |s|
    ensures SortedBy(r, key)
    ensures multiset(r) == multiset(s)
    decreases |s|
  {
    if s == [] then []
    else
      assert s == s[..|s| - 1] + [s[|s| - 1]];
      InsertSorted(SortBy(s[..|s| - 1], key), s[|s| - 1], key);
      Insert(SortBy(s[..|s| - 1], key), s[|s| - 1], key)
  }

  // ---------------------------------------------------------------------------
  // Filtering

  lemma {:induction false} WithoutAppend<T, K>(a: seq<T>, b: seq<T>, key: T -> K, k: K)
    ensures Without(a + b, key, k) == Without(a, key, k) + Without(b, key, k)
  {
    if a == [] {
      assert a + b == b;
    } else {
      var x, rest := a[0], a[1..];
      var keep := if key(x) != k then [x] else [];
      assert Without(a + b, key, k) == keep + Without(rest + b, key, k) by {
        assert (a + b)[0] == x && (a + b)[1..] == rest + b;
      }
      assert Without(rest + b, key, k) == Without(rest, key, k) + Without(b, key, k) by {
        WithoutAppend(rest, b, key, k);
      }
      assert keep + (Without(rest, key, k) + Without(b, key, k))
          == (keep + Without(rest, key, k)) + Without(b, key, k);
    }
  }

  lemma {:induction false} WithKeyAppend<T, K>(a: seq<T>, b: seq<T>, key: T -> K, k: K)
    ensures WithKey(a + b, key, k) == WithKey(a, key, k) + WithKey(b, key, k)
  {
    if a == [] {
      assert a + b == b;
    } else {
      assert (a + b)[0] == a[0] && (a + b)[1..] == a[1..] + b;
      WithKeyAppend(a[1..], b, key, k);
    }
  }

  /** Filtering keeps exactly the elements whose key differs from `k`. */
  lemma {:induction false} WithoutMember<T, K>(s: seq<T>, key: T -> K, k: K, x: T)
    ensures x in Without(s, key, k) <==> x in s && key(x) != k
  {
    if s != [] {
      assert s == [s[0]] + s[1..];
      WithoutMember(s[1..], key, k, x);
    }
  }

  /** Filtering out a key no element carries gives back the same sequence. */
  lemma {:induction false} WithoutAbsent<T, K>(s: seq<T>, key: T -> K, k: K)
    requires k !in Keys(s, key)
    ensures Without(s, key, k) == s
  {
    if s != [] {
      assert key(s[0]) != k;
      assert Keys(s[1..], key) <= Keys(s, key) by {
        forall j | j in Keys(s[1..], key) ensures j in Keys(s, key) {
          var i :| 0 <= i < |s[1..]| && key(s[1..][i]) == j;
          assert key(s[i + 1]) == j;
        }
      }
      WithoutAbsent(s[1..], key, k);
    }
  }

  /** Filtering keeps the keys distinct. */
  lemma {:induction false} WithoutKeepsDistinct<T, K>(s: seq<T>, key: T -> K, k: K)
    requires DistinctKeys(s, key)
    ensures DistinctKeys(Without(s, key, k), key)
  {
    if s != [] {
      WithoutKeepsDistinct(s[1..], key, k);
      var rest := Without(s[1..], key, k);
      if key(s[0]) != k {
        forall y | y in rest ensures key(y) != key(s[0]) {
          WithoutMember(s[1..], key, k, y);
          var i :| 0 <= i < |s[1..]| && s[1..][i] == y;
          assert s[i + 1] == y;
        }
        assert Without(s, key, k) == [s[0]] + rest;
      }
    }
  }

  /** Appending an element whose key is new keeps the keys distinct. */
  lemma {:induction false} AppendFreshKeepsDistinct<T, K>(s: seq<T>, x: T, key: T -> K)
    requires DistinctKeys(s, key)
    requires key(x) !in Keys(s, key)
    ensures DistinctKeys(s + [x], key)
  {
    forall i, j | 0 <= i < j < |s + [x]| ensures key((s + [x])[i]) != key((s + [x])[j]) {
      if j == |s| {
        assert key(s[i]) in Keys(s, key);
      }
    }
  }

  /** When no other element shares the key of s[i], filtering that key out removes only s[i]. */
  lemma {:induction false} WithoutOnlyAt<T, K>(s: seq<T>, key: T -> K, i: nat)
    requires i < |s|
    requires forall j :: 0 <= j < |s| && j != i ==> key(s[j]) != key(s[i])
    ensures Without(s, key, key(s[i])) == s[..i] + s[i + 1..]
    decreases i
  {
    var k := key(s[i]);
    var rest := s[1..];
    if i == 0 {
      assert k !in Keys(rest, key) by {
        forall j | 0 <= j < |rest| ensures key(rest[j]) != k {
          assert rest[j] == s[j + 1];
        }
      }
      WithoutAbsent(rest, key, k);
      assert s[..0] + s[1..] == rest;
    } else {
      assert rest[i - 1] == s[i];
      forall j | 0 <= j < |rest| && j != i - 1 ensures key(rest[j]) != key(rest[i - 1]) {
        assert rest[j] == s[j + 1];
      }
      WithoutOnlyAt(rest, key, i - 1);
      assert s[..i] + s[i + 1..] == [s[0]] + (rest[..i - 1] + rest[i..]);
    }
  }

  /**
   With distinct keys, removing the key of the element at position i removes exactly that
   element and leaves the others in their order.
   */
  lemma WithoutDistinctAt<T, K>(s: seq<T>, key: T -> K, i: nat)
    requires DistinctKeys(s, key)
    requires i < |s|
    ensures Without(s, key, key(s[i])) == s[..i] + s[i + 1..]
  {
    WithoutOnlyAt(s, key, i);
  }

  // ---------------------------------------------------------------------------
  // Sums

  lemma {:induction false} TotalAppend<T>(a: seq<T>, b: seq<T>, f: T -> real)
    ensures Total(a + b, f) == Total(a, f) + Total(b, f)
  {
    if a == [] {
      assert a + b == b;
    } else {
      assert (a + b)[0] == a[0] && (a + b)[1..] == a[1..] + b;
      TotalAppend(a[1..], b, f);
    }
  }

  /** The sum over one element is its term. */
  lemma TotalSingleton<T>(x: T, f: T -> real)
    ensures Total([x], f) == f(x)
  {
    assert [x][1..] == [];
  }

  /** The sum is the term at position i plus the sum of the others. */
  lemma TotalRemoveAt<T>(b: seq<T>, i: nat, f: T -> real)
    requires i < |b|
    ensures Total(b, f) == f(b[i]) + Total(b[..i] + b[i + 1..], f)
  {
    var head, x, tail := b[..i], b[i], b[i + 1..];
    assert Total(b, f) == Total(head + [x], f) + Total(tail, f) by {
      assert b == (head + [x]) + tail;
      TotalAppend(head + [x], tail, f);
    }
    assert Total(head + [x], f) == Total(head, f) + f(x) by {
      TotalAppend(head, [x], f);
      TotalSingleton(x, f);
    }
    assert Total(head + tail, f) == Total(head, f) + Total(tail, f) by {
      TotalAppend(head, tail, f);
    }
  }

  /** Taking the element at position i out of `b` takes one occurrence out of its multiset. */
  lemma MultisetRemoveAt<T>(b: seq<T>, i: nat)
    requires i < |b|
    ensures multiset(b[..i] + b[i + 1..]) == multiset(b) - multiset{b[i]}
  {
    assert b == b[..i] + [b[i]] + b[i + 1..];
    assert multiset(b) == multiset(b[..i]) + multiset{b[i]} + multiset(b[i + 1..]);
  }

  /** A sum does not depend on the order of its terms. */
  lemma {:induction false} TotalPermutation<T>(a: seq<T>, b: seq<T>, f: T -> real)
    requires multiset(a) == multiset(b)
    ensures Total(a, f) == Total(b, f)
    decreases |a|
  {
    if a == [] {
      assert |b| == |multiset(b)| == 0;
    } else {
      var x := a[0];
      assert a == [x] + a[1..];
      assert multiset(a[1..]) == multiset(a) - multiset{x};
      assert x in multiset(b);
      var i :| 0 <= i < |b| && b[i] == x;
      MultisetRemoveAt(b, i);
      TotalPermutation(a[1..], b[..i] + b[i + 1..], f);
      TotalRemoveAt(b, i, f);
    }
  }

  // ---------------------------------------------------------------------------
  // Sorting

  /** The run of key k in a one-element sequence. */
  lemma WithKeySingleton<T>(x: T, key: T -> int, k: int)
    ensures WithKey([x], key, k) == if key(x) == k then [x] else []
  {
    assert [x][1..] == [];
  }

  /** Inserting after the last element when its key is not greater. */
  lemma InsertAtEnd<T>(s: seq<T>, x: T, key: T -> int)
    requires s == [] || key(s[|s| - 1]) <= key(x)
    ensures Insert(s, x, key) == s + [x]
  {
  }

  /** Inserting before the last element when its key is greater. */
  lemma InsertBeforeLast<T>(s: seq<T>, x: T, key: T -> int)
    requires s != [] && key(s[|s| - 1]) > key(x)
    ensures Insert(s, x, key) == Insert(s[..|s| - 1], x, key) + [s[|s| - 1]]
  {
  }

  /**
   If `r` has the runs of `init` plus `x`, then `r` followed by an element of greater key
   than `x` has the runs of `init` followed by that element, plus `x`.
   */
  lemma RunsWithLargerLast<T>(init: seq<T>, r: seq<T>, x: T, last: T, key: T -> int, k: int)
    requires key(x) < key(last)
    requires WithKey(r, key, k) == WithKey(init, key, k) + (if key(x) == k then [x] else [])
    ensures WithKey(r + [last], key, k)
         == WithKey(init + [last], key, k) + (if key(x) == k then [x] else [])
  {
    WithKeySingleton(last, key, k);
    WithKeyAppend(r, [last], key, k);
    WithKeyAppend(init, [last], key, k);
    var before := WithKey(init, key, k);
    if key(x) == k {
      assert WithKey(init + [last], key, k) == before + [];
      assert WithKey(r + [last], key, k) == (before + [x]) + [];
    } else if key(last) == k {
      assert WithKey(init + [last], key, k) == before + [last];
      assert WithKey(r + [last], key, k) == (before + []) + [last];
    } else {
      assert WithKey(init + [last], key, k) == before + [];
      assert WithKey(r + [last], key, k) == (before + []) + [];
    }
  }

  /** Inserting adds `x` to the run of its own key and to no other run. */
  lemma {:induction false} InsertWithKey<T>(s: seq<T>, x: T, key: T -> int, k: int)
    ensures WithKey(Insert(s, x, key), key, k)
         == WithKey(s, key, k) + (if key(x) == k then [x] else [])
    decreases |s|
  {
    if s == [] || key(s[|s| - 1]) <= key(x) {
      WithKeySingleton(x, key, k);
      InsertAtEnd(s, x, key);
      WithKeyAppend(s, [x], key, k);
    } else {
      var init, last := s[..|s| - 1], s[|s| - 1];
      InsertWithKey(init, x, key, k);
      InsertBeforeLast(s, x, key);
      RunsWithLargerLast(init, Insert(init, x, key), x, last, key, k);
      assert s == init + [last];
    }
  }

  /** The sort is stable: the elements sharing one key keep their relative order. */
  lemma {:induction false} SortByStable<T>(s: seq<T>, key: T -> int, k: int)
    ensures WithKey(SortBy(s, key), key, k) == WithKey(s, key, k)
    decreases |s|
  {
    if s != [] {
      var init, last := s[..|s| - 1], s[|s| - 1];
      assert s == init + [last];
      SortByStable(init, key, k);
      InsertWithKey(SortBy(init, key), last, key, k);
      WithKeyAppend(init, [last], key, k);
    }
  }

  /** The last element of a sorted sequence closes the run of its key. */
  lemma {:induction false} LastOfRun<T>(t: seq<T>, key: T -> int)
    requires t != []
    ensures WithKey(t, key, key(t[|t| - 1]))
         == WithKey(t[..|t| - 1], key, key(t[|t| - 1])) + [t[|t| - 1]]
  {
    assert t == t[..|t| - 1] + [t[|t| - 1]];
    WithKeyAppend(t[..|t| - 1], [t[|t| - 1]], key, key(t[|t| - 1]));
  }

  lemma {:induction false} WithKeyMember<T, K>(s: seq<T>, key: T -> K, k: K, x: T)
    ensures x in WithKey(s, key, k) <==> x in s && key(x) == k
  {
    if s != [] {
      assert s == [s[0]] + s[1..];
      WithKeyMember(s[1..], key, k, x);
    }
  }

  /** Two sorted sequences with the same runs end with the same element. */
  lemma {:induction false} SortedLastsAgree<T>(t: seq<T>, u: seq<T>, key: T -> int)
    requires SortedBy(t, key) && SortedBy(u, key) && t != [] && u != []
    requires forall k :: WithKey(t, key, k) == WithKey(u, key, k)
    ensures t[|t| - 1] == u[|u| - 1]
  {
    var x, y := t[|t| - 1], u[|u| - 1];
    LastOfRun(t, key);
    LastOfRun(u, key);
    assert x in WithKey(t, key, key(x)) && y in WithKey(u, key, key(y));
    WithKeyMember(u, key, key(x), x);
    WithKeyMember(t, key, key(y), y);
    SortedBounds(u, key, x);
    SortedBounds(t, key, y);
    var run := WithKey(t, key, key(x));
    assert run[|run| - 1] == x;
    assert WithKey(u, key, key(y))[|run| - 1] == y;
    assert WithKey(t, key, key(x)) == WithKey(u, key, key(y));
  }

  /**
   A sorted sequence is determined by its runs of equal keys: two sequences that are both
   sorted by `key` and agree on every run are equal. Hence SortBy gives exactly the result
   of any stable sort.
   */
  lemma {:induction false} SortedRunsDetermine<T>(t: seq<T>, u: seq<T>, key: T -> int)
    requires SortedBy(t, key) && SortedBy(u, key)
    requires forall k :: WithKey(t, key, k) == WithKey(u, key, k)
    ensures t == u
    decreases |t|
  {
    if t == [] || u == [] {
      if t != [] {
        LastOfRun(t, key);
        assert false;
      }
      if u != [] {
        LastOfRun(u, key);
        assert false;
      }
    } else {
      SortedLastsAgree(t, u, key);
      var x, t', u' := t[|t| - 1], t[..|t| - 1], u[..|u| - 1];
      assert t == t' + [x] && u == u' + [x];
      forall k ensures WithKey(t', key, k) == WithKey(u', key, k) {
        WithKeyAppend(t', [x], key, k);
        WithKeyAppend(u', [x], key, k);
        var c := WithKey([x], key, k);
        assert WithKey(t', key, k) + c == WithKey(u', key, k) + c;
        assert WithKey(t', key, k) == (WithKey(t', key, k) + c)[..|WithKey(t', key, k)|];
      }
      SortedRunsDetermine(t', u', key);
    }
  }

  /** Any sequence that is sorted by `key` and keeps every run of `s` is SortBy(s, key). */
  lemma {:induction false} StableSortIsSortBy<T>(s: seq<T>, t: seq<T>, key: T -> int)
    requires SortedBy(t, key)
    requires forall k :: WithKey(t, key, k) == WithKey(s, key, k)
    ensures t == SortBy(s, key)
  {
    forall k ensures WithKey(t, key, k) == WithKey(SortBy(s, key), key, k) {
      SortByStable(s, key, k);
    }
    SortedRunsDetermine(t, SortBy(s, key), key);
  }

  /** In a sorted sequence every element lies between the first and the last. */
  lemma {:induction false} SortedBounds<T>(t: seq<T>, key: T -> int, x: T)
    requires SortedBy(t, key)
    requires x in t
    ensures key(t[0]) <= key(x) <= key(t[|t| - 1])
  {
    var i :| 0 <= i < |t| && t[i] == x;
  }

  /** The first and the last element of the sorted sequence come from `s`. */
  lemma {:induction false} SortByEndsIn<T>(s: seq<T>, key: T -> int)
    requires s != []
    ensures |SortBy(s, key)| == |s|
    ensures SortBy(s, key)[0] in s && SortBy(s, key)[|s| - 1] in s
  {
    var r := SortBy(s, key);
    assert r[0] in multiset(r) && r[|r| - 1] in multiset(r);
  }

  /** Every element of `s` lies, by key, between the ends of the sorted sequence. */
  lemma {:induction false} SortByBounds<T>(s: seq<T>, key: T -> int, x: T)
    requires x in s
    ensures |SortBy(s, key)| == |s|
    ensures key(SortBy(s, key)[0]) <= key(x) <= key(SortBy(s, key)[|s| - 1])
  {
    var r := SortBy(s, key);
    assert x in multiset(r);
    SortedBounds(r, key, x);
  }

  /** The first element of a sorted permutation carries the least key, the last the greatest. */
  lemma {:induction false} SortByEnds<T>(s: seq<T>, key: T -> int)
    requires s != []
    ensures |SortBy(s, key)| == |s|
    ensures SortBy(s, key)[0] in s && SortBy(s, key)[|s| - 1] in s
    ensures forall x :: x in s ==> key(SortBy(s, key)[0]) <= key(x) <= key(SortBy(s, key)[|s| - 1])
  {
    SortByEndsIn(s, key);
    forall x | x in s ensures key(SortBy(s, key)[0]) <= key(x) <= key(SortBy(s, key)[|s| - 1]) {
      SortByBounds(s, key, x);
    }
  }

  // ---------------------------------------------------------------------------
  // Sorting and filtering commute

  /** Filtering a sorted sequence leaves it sorted. */
  lemma {:induction false} WithoutSorted<T, K>(t: seq<T>, key: T -> int, id: T -> K, k: K)
    requires SortedBy(t, key)
    ensures SortedBy(Without(t, id, k), key)
  {
    if t != [] {
      var x, rest := t[0], t[1..];
      WithoutSorted(rest, key, id, k);
      var r' := Without(rest, id, k);
      if id(x) != k {
        forall j | 0 <= j < |r'| ensures key(x) <= key(r'[j]) {
          WithoutMember(rest, id, k, r'[j]);
          var m :| 0 <= m < |rest| && rest[m] == r'[j];
          assert t[m + 1] == r'[j];
        }
        var r := Without(t, id, k);
        assert r == [x] + r';
        forall a, b | 0 <= a < b < |r| ensures key(r[a]) <= key(r[b]) {
          assert r[b] == r'[b - 1];
          if a > 0 {
            assert r[a] == r'[a - 1];
          }
        }
      }
    }
  }

  /** Filtering by one key and selecting the run of another can be done in either order. */
  lemma {:induction false} WithKeyWithout<T, K>(s: seq<T>, key: T -> int, run: int, id: T -> K, k: K)
    ensures WithKey(Without(s, id, k), key, run) == Without(WithKey(s, key, run), id, k)
  {
    if s != [] {
      var x, rest := s[0], s[1..];
      WithKeyWithout(rest, key, run, id, k);
      var keep := if id(x) != k then [x] else [];
      var sel := if key(x) == run then [x] else [];
      WithKeyAppend(keep, Without(rest, id, k), key, run);
      WithoutAppend(sel, WithKey(rest, key, run), id, k);
      WithKeySingleton(x, key, run);
      assert Without(sel, id, k) == (if key(x) == run then keep else []) by {
        if key(x) == run {
          assert [x][1..] == [];
        }
      }
    }
  }

  /** Sorting the filtered sequence gives the sorted sequence filtered. */
  lemma SortByWithout<T, K>(s: seq<T>, key: T -> int, id: T -> K, k: K)
    ensures SortBy(Without(s, id, k), key) == Without(SortBy(s, key), id, k)
  {
    var t := Without(SortBy(s, key), id, k);
    WithoutSorted(SortBy(s, key), key, id, k);
    forall run ensures WithKey(t, key, run) == WithKey(Without(s, id, k), key, run) {
      WithKeyWithout(SortBy(s, key), key, run, id, k);
      SortByStable(s, key, run);
      WithKeyWithout(s, key, run, id, k);
    }
    StableSortIsSortBy(Without(s, id, k), t, key);
  }
}
