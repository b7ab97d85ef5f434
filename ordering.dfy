/**
 * Orders and sorts shared by the pipeline: the distinct, ascending keys that
 * a pandas `groupby` iterates over, Python's lexicographic string order, the
 * ascending sort of a date column, and `min`/`max` of a list of dates.
 */
module Ordering {

  /** `lt` is a strict total order: irreflexive, transitive and connected. */
  ghost predicate StrictTotalOrder<K(!new)>(lt: (K, K) -> bool) {
    && (forall a :: !lt(a, a))
    && (forall a, b, c :: lt(a, b) && lt(b, c) ==> lt(a, c))
    && (forall a, b :: a != b ==> lt(a, b) || lt(b, a))
  }

  /** Every earlier element is strictly below every later one (so no duplicates). */
  ghost predicate StrictlySorted<K>(s: seq<K>, lt: (K, K) -> bool) {
    forall i, j :: 0 <= i < j < |s| ==> lt(s[i], s[j])
  }

  /** Adds `x` to a strictly sorted sequence unless it is already there. */
  function Insert<K(==)>(s: seq<K>, x: K, lt: (K, K) -> bool): seq<K>
  {
    if s == [] then [x]
    else if x == s[0] then s
    else if lt(x, s[0]) then [x] + s
    else [s[0]] + Insert(s[1..], x, lt)
  }

  /** The distinct values of `keys`, ascending under `lt`: the group keys of a `groupby`. */
  function DistinctSorted<K(==)>(keys: seq<K>, lt: (K, K) -> bool): seq<K>
  {
    if keys == [] then [] else Insert(DistinctSorted(keys[..|keys| - 1], lt), keys[|keys| - 1], lt)
  }

  lemma {:induction false} InsertSorted<K(!new)>(s: seq<K>, x: K, lt: (K, K) -> bool)
    requires StrictTotalOrder(lt) && StrictlySorted(s, lt)
    ensures StrictlySorted(Insert(s, x, lt), lt)
    ensures forall y :: y in Insert(s, x, lt) <==> y in s || y == x
  {
    InsertMembers(s, x, lt);
    if s == [] || x == s[0] {
    } else if lt(x, s[0]) {
      forall y | y in s ensures lt(x, y) {
        var k :| 0 <= k < |s| && s[k] == y;
        if k > 0 {
          assert lt(s[0], s[k]);
        }
      }
      SortedCons(x, s, lt);
    } else {
      var tail := s[1..];
      var rest := Insert(tail, x, lt);
      assert StrictlySorted(tail, lt);
      InsertSorted(tail, x, lt);
      assert lt(s[0], x);
      forall y | y in rest ensures lt(s[0], y) {
        if y != x {
          var k :| 0 <= k < |tail| && tail[k] == y;
          assert s[k + 1] == y;
        }
      }
      SortedCons(s[0], rest, lt);
    }
  }

  /** Inserting adds `x` and keeps everything else. */
  lemma {:induction false} InsertMembers<K>(s: seq<K>, x: K, lt: (K, K) -> bool)
    ensures forall y :: y in Insert(s, x, lt) <==> y in s || y == x
  {
    if s != [] && x != s[0] && !lt(x, s[0]) {
      InsertMembers(s[1..], x, lt);
      assert s == [s[0]] + s[1..];
    }
  }

  lemma SortedCons<K>(h: K, rest: seq<K>, lt: (K, K) -> bool)
    requires StrictlySorted(rest, lt)
    requires forall y :: y in rest ==> lt(h, y)
    ensures StrictlySorted([h] + rest, lt)
  {
    var r := [h] + rest;
    forall i, j | 0 <= i < j < |r| ensures lt(r[i], r[j]) {
      if i == 0 {
        assert r[j] in rest;
      } else {
        assert r[i] == rest[i - 1] && r[j] == rest[j - 1];
      }
    }
  }

  /** Group keys are strictly ascending and are exactly the values that occur. */
  lemma {:induction false} DistinctSortedSpec<K(!new)>(keys: seq<K>, lt: (K, K) -> bool)
    requires StrictTotalOrder(lt)
    ensures StrictlySorted(DistinctSorted(keys, lt), lt)
    ensures forall k :: k in DistinctSorted(keys, lt) <==> k in keys
  {
    if keys != [] {
      var init := keys[..|keys| - 1];
      DistinctSortedSpec(init, lt);
      InsertSorted(DistinctSorted(init, lt), keys[|keys| - 1], lt);
      assert keys == init + [keys[|keys| - 1]];
      forall k ensures k in keys <==> k in init || k == keys[|keys| - 1] {
      }
    }
  }

  /** Two strictly sorted sequences with the same elements are equal. */
  lemma {:induction false} SortedUnique<K(!new)>(a: seq<K>, b: seq<K>, lt: (K, K) -> bool)
    requires StrictTotalOrder(lt) && StrictlySorted(a, lt) && StrictlySorted(b, lt)
    requires forall k :: k in a <==> k in b
    ensures a == b
  {
    assert a == [] ==> b == [] by {
      if b != [] {
        assert b[0] in b;
      }
    }
    assert b == [] ==> a == [] by {
      if a != [] {
        assert a[0] in a;
      }
    }
    if a != [] && b != [] {
      assert a[0] == b[0] by {
        assert b[0] in a && a[0] in b;
      }
      forall k ensures k in a[1..] <==> k in b[1..] {
        if k in a[1..] {
          var i :| 1 <= i < |a| && a[i] == k;
          assert k in b && k != b[0];
          assert k in b[1..] by { var j :| 0 <= j < |b| && b[j] == k; assert j != 0; }
        }
        if k in b[1..] {
          var j :| 1 <= j < |b| && b[j] == k;
          assert k in a && k != a[0];
          assert k in a[1..] by { var i :| 0 <= i < |a| && a[i] == k; assert i != 0; }
        }
      }
      SortedUnique(a[1..], b[1..], lt);
      assert a == [a[0]] + a[1..] && b == [b[0]] + b[1..];
    }
  }

  /** The usual order on day numbers. */
  predicate IntLess(a: int, b: int) {
    a < b
  }

  lemma IntLessIsStrictTotal()
    ensures StrictTotalOrder(IntLess)
  {
  }

  /** Python's `<` on strings: code point by code point, a proper prefix first. */
  predicate StrLess(a: string, b: string) {
    if |a| == 0 then |b| > 0
    else if |b| == 0 then false
    else if a[0] != b[0] then a[0] < b[0]
    else StrLess(a[1..], b[1..])
  }

  lemma {:induction false} StrLessIrreflexive(a: string)
    ensures !StrLess(a, a)
  {
    if |a| > 0 {
      StrLessIrreflexive(a[1..]);
    }
  }

  lemma {:induction false} StrLessTransitive(a: string, b: string, c: string)
    requires StrLess(a, b) && StrLess(b, c)
    ensures StrLess(a, c)
  {
    if |a| > 0 && |b| > 0 && |c| > 0 && a[0] == b[0] && b[0] == c[0] {
      StrLessTransitive(a[1..], b[1..], c[1..]);
    }
  }

  lemma {:induction false} StrLessConnected(a: string, b: string)
    requires a != b
    ensures StrLess(a, b) || StrLess(b, a)
  {
    if |a| > 0 && |b| > 0 && a[0] == b[0] {
      assert a == [a[0]] + a[1..] && b == [b[0]] + b[1..];
      StrLessConnected(a[1..], b[1..]);
    }
  }

  lemma StrLessIsStrictTotal()
    ensures StrictTotalOrder(StrLess)
  {
    forall a ensures !StrLess(a, a) {
      StrLessIrreflexive(a);
    }
    forall a, b, c | StrLess(a, b) && StrLess(b, c) ensures StrLess(a, c) {
      StrLessTransitive(a, b, c);
    }
    forall a, b | a != b ensures StrLess(a, b) || StrLess(b, a) {
      StrLessConnected(a, b);
    }
  }

  /** The distinct strings of `keys` in Python's order: strictly ascending, and exactly the strings of `keys`. */
  lemma DistinctStrings(keys: seq<string>)
    ensures StrictlySorted(DistinctSorted(keys, StrLess), StrLess)
    ensures forall k :: k in DistinctSorted(keys, StrLess) <==> k in keys
  {
    StrLessIsStrictTotal();
    DistinctSortedSpec(keys, StrLess);
  }

  /** Non-decreasing in `key`, duplicates allowed. */
  ghost predicate AscendingBy<T>(s: seq<T>, key: T -> int) {
    forall i, j :: 0 <= i < j < |s| ==> key(s[i]) <= key(s[j])
  }

  /** Inserts `x` after every element whose key is not above its own. */
  function InsertBy<T>(s: seq<T>, x: T, key: T -> int): seq<T>
  {
    if s == [] then [x]
    else if key(x) < key(s[0]) then [x] + s
    else [s[0]] + InsertBy(s[1..], x, key)
  }

  lemma InsertBySpec<T>(s: seq<T>, x: T, key: T -> int)
    ensures multiset(InsertBy(s, x, key)) == multiset(s) + multiset{x}
    ensures AscendingBy(s, key) ==> AscendingBy(InsertBy(s, x, key), key)
  {
    InsertByMultiset(s, x, key);
    if AscendingBy(s, key) {
      InsertByAscending(s, x, key);
    }
  }

  /** Inserting adds exactly the one element. */
  lemma {:induction false} InsertByMultiset<T>(s: seq<T>, x: T, key: T -> int)
    ensures multiset(InsertBy(s, x, key)) == multiset(s) + multiset{x}
  {
    if s != [] && key(x) >= key(s[0]) {
      InsertByMultiset(s[1..], x, key);
      assert s == [s[0]] + s[1..];
    }
  }

  /** Inserting into an ascending sequence keeps it ascending. */
  lemma {:induction false} InsertByAscending<T>(s: seq<T>, x: T, key: T -> int)
    requires AscendingBy(s, key)
    ensures AscendingBy(InsertBy(s, x, key), key)
  {
    if s == [] {
    } else if key(x) < key(s[0]) {
      forall y | y in s ensures key(x) <= key(y) {
        var k :| 0 <= k < |s| && s[k] == y;
      }
      AscendingCons(x, s, key);
    } else {
      var tail := s[1..];
      var rest := InsertBy(tail, x, key);
      assert AscendingBy(tail, key);
      InsertByAscending(tail, x, key);
      InsertByMultiset(tail, x, key);
      forall y | y in rest ensures key(s[0]) <= key(y) {
        assert y in multiset(rest);
        if y != x {
          assert y in multiset(tail);
          var k :| 0 <= k < |tail| && tail[k] == y;
          assert s[k + 1] == y;
        }
      }
      AscendingCons(s[0], rest, key);
    }
  }

  lemma AscendingCons<T>(h: T, rest: seq<T>, key: T -> int)
    requires AscendingBy(rest, key)
    requires forall y :: y in rest ==> key(h) <= key(y)
    ensures AscendingBy([h] + rest, key)
  {
    var r := [h] + rest;
    forall i, j | 0 <= i < j < |r| ensures key(r[i]) <= key(r[j]) {
      if i == 0 {
        assert r[j] in rest;
      } else {
        assert r[i] == rest[i - 1] && r[j] == rest[j - 1];
      }
    }
  }

  /** `sort_values(...)` by a key column: an ascending permutation of its input. */
  function SortBy<T>(s: seq<T>, key: T -> int): (r: seq<T>)
    ensures multiset(r) == multiset(s)
    ensures AscendingBy(r, key)
  {
    if s == [] then []
    else
      assert s == s[..|s| - 1] + [s[|s| - 1]];
      InsertBySpec(SortBy(s[..|s| - 1], key), s[|s| - 1], key);
      InsertBy(SortBy(s[..|s| - 1], key), s[|s| - 1], key)
  }

  /** Keys strictly ascend: no two elements share a key. */
  ghost predicate StrictlyAscendingBy<T>(s: seq<T>, key: T -> int) {
    forall i, j :: 0 <= i < j < |s| ==> key(s[i]) < key(s[j])
  }

  lemma {:induction false} InsertByStrict<T>(s: seq<T>, x: T, key: T -> int)
    requires StrictlyAscendingBy(s, key)
    requires forall y :: y in s ==> key(y) != key(x)
    ensures StrictlyAscendingBy(InsertBy(s, x, key), key)
  {
    if s == [] {
    } else if key(x) < key(s[0]) {
      forall y | y in s ensures key(x) < key(y) {
        var k :| 0 <= k < |s| && s[k] == y;
      }
      StrictCons(x, s, key);
    } else {
      var tail := s[1..];
      var rest := InsertBy(tail, x, key);
      assert StrictlyAscendingBy(tail, key);
      assert forall y :: y in tail ==> y in s;
      InsertByStrict(tail, x, key);
      InsertByMultiset(tail, x, key);
      assert key(s[0]) < key(x) by {
        assert s[0] in s;
      }
      forall y | y in rest ensures key(s[0]) < key(y) {
        assert y in multiset(rest);
        if y != x {
          assert y in multiset(tail);
          var k :| 0 <= k < |tail| && tail[k] == y;
          assert s[k + 1] == y;
        }
      }
      StrictCons(s[0], rest, key);
    }
  }

  lemma StrictCons<T>(h: T, rest: seq<T>, key: T -> int)
    requires StrictlyAscendingBy(rest, key)
    requires forall y :: y in rest ==> key(h) < key(y)
    ensures StrictlyAscendingBy([h] + rest, key)
  {
    var r := [h] + rest;
    forall i, j | 0 <= i < j < |r| ensures key(r[i]) < key(r[j]) {
      if i == 0 {
        assert r[j] in rest;
      } else {
        assert r[i] == rest[i - 1] && r[j] == rest[j - 1];
      }
    }
  }

  /** Sorting elements whose keys are pairwise different gives strictly ascending keys. */
  lemma {:induction false} SortByDistinct<T>(s: seq<T>, key: T -> int)
    requires forall i, j :: 0 <= i < j < |s| ==> key(s[i]) != key(s[j])
    ensures StrictlyAscendingBy(SortBy(s, key), key)
  {
    if s != [] {
      var init, last := s[..|s| - 1], s[|s| - 1];
      assert s == init + [last];
      SortByDistinct(init, key);
      var sorted := SortBy(init, key);
      forall y | y in sorted ensures key(y) != key(last) {
        assert y in multiset(init);
      }
      InsertByStrict(sorted, last, key);
    }
  }

  /** Sorting a sequence whose keys already strictly ascend changes nothing. */
  lemma {:induction false} SortByOfSorted<T>(s: seq<T>, key: T -> int)
    requires forall i, j :: 0 <= i < j < |s| ==> key(s[i]) < key(s[j])
    ensures SortBy(s, key) == s
  {
    if s != [] {
      var init, last := s[..|s| - 1], s[|s| - 1];
      assert s == init + [last];
      SortedSplit(s, init, last, key);
      SortByOfSorted(init, key);
      InsertAtEnd(init, last, key);
      assert s == init + [last];
      calc {
        SortBy(s, key);
        InsertBy(SortBy(init, key), last, key);
        InsertBy(init, last, key);
        init + [last];
      }
    }
  }

  lemma SortedSplit<T>(s: seq<T>, init: seq<T>, last: T, key: T -> int)
    requires s == init + [last] && forall i, j :: 0 <= i < j < |s| ==> key(s[i]) < key(s[j])
    ensures forall i, j :: 0 <= i < j < |init| ==> key(init[i]) < key(init[j])
    ensures forall y :: y in init ==> key(y) < key(last)
  {
    forall i, j | 0 <= i < j < |init| ensures key(init[i]) < key(init[j]) {
      assert init[i] == s[i] && init[j] == s[j];
    }
    forall y | y in init ensures key(y) < key(last) {
      var i :| 0 <= i < |init| && init[i] == y;
      assert s[i] == y && s[|s| - 1] == last;
    }
  }

  lemma {:induction false} InsertAtEnd<T>(s: seq<T>, x: T, key: T -> int)
    requires forall y :: y in s ==> key(y) < key(x)
    ensures InsertBy(s, x, key) == s + [x]
  {
    if s != [] {
      assert s[0] in s && forall y :: y in s[1..] ==> y in s;
      InsertAtEnd(s[1..], x, key);
      assert s == [s[0]] + s[1..];
    }
  }

  /** Python's `min` of a non-empty list. */
  function MinOf(s: seq<int>): (m: int)
    requires |s| > 0
    ensures m in s && forall x :: x in s ==> m <= x
  {
    if |s| == 1 then s[0]
    else
      var rest := MinOf(s[1..]);
      assert s == [s[0]] + s[1..];
      if s[0] <= rest then s[0] else rest
  }

  /** Python's `max` of a non-empty list. */
  function MaxOf(s: seq<int>): (m: int)
    requires |s| > 0
    ensures m in s && forall x :: x in s ==> x <= m
  {
    if |s| == 1 then s[0]
    else
      var rest := MaxOf(s[1..]);
      assert s == [s[0]] + s[1..];
      if s[0] >= rest then s[0] else rest
  }
}
