/**
 * The validated cashflow table the calculations read (one `Row` per
 * DataFrame row) and the two DataFrame operations they are built from:
 * boolean-mask selection and column sums.
 */
module Tables {

  const Investment: string := "Investment"
  const Interest: string := "Interest"
  const PrincipalRepayment: string := "Principal Repayment"

  /**
   * One row of the validated table. Dates are day numbers; amounts are the
   * local and base currency amounts.
   */
  datatype Row = Row(
    id: int,
    fundName: string,
    date: int,
    cashflowType: string,
    localCurrency: string,
    amountLocal: real,
    amountBase: real,
    baseCurrency: string)

  function LocalAmount(r: Row): real { r.amountLocal }

  function BaseAmount(r: Row): real { r.amountBase }

  function RowDate(r: Row): int { r.date }

  /** Boolean-mask selection `df[mask]`: the rows satisfying `p`, in their original order. */
  function Filter<T(!new)>(s: seq<T>, p: T -> bool): (r: seq<T>)
    ensures |r| <= |s|
    ensures forall x :: x in r <==> x in s && p(x)
  {
    if s == [] then []
    else
      var init, last := s[..|s| - 1], s[|s| - 1];
      assert s == init + [last];
      Filter(init, p) + (if p(last) then [last] else [])
  }

  /** Selection keeps each selected element as often as it occurs, and drops the others. */
  lemma {:induction false} FilterMultiset<T(!new)>(s: seq<T>, p: T -> bool)
    ensures forall x :: multiset(Filter(s, p))[x] == if p(x) then multiset(s)[x] else 0
  {
    if s != [] {
      var init, last := s[..|s| - 1], s[|s| - 1];
      assert s == init + [last];
      FilterMultiset(init, p);
    }
  }

  /** Sum of `f` over the rows of `s` (pandas `Series.sum()`; 0 when empty). */
  function SumOf<T(!new)>(s: seq<T>, f: T -> real): real
  {
    if s == [] then 0.0 else SumOf(s[..|s| - 1], f) + f(s[|s| - 1])
  }

  /** The rows dated `d` (one group of `groupby("Date")`). */
  function OnDate(rows: seq<Row>, d: int): seq<Row>
  {
    Group(rows, RowDate, d)
  }

  /** The rows in local currency `c` (one group of `groupby("Local_Currency")`). */
  function InCurrency(rows: seq<Row>, c: string): seq<Row>
  {
    Filter(rows, (r: Row) => r.localCurrency == c)
  }

  /** The rows of cashflow type `t`. */
  function OfType(rows: seq<Row>, t: string): seq<Row>
  {
    Filter(rows, (r: Row) => r.cashflowType == t)
  }

  /** `df.loc[df["Cashflow_Type"] == t, "Cashflow_Amount_Local"].sum()`. */
  function TypeSum(rows: seq<Row>, t: string): real
  {
    SumOf(OfType(rows, t), LocalAmount)
  }

  /** A column: `f` applied to every row, in order. */
  function MapSeq<A, B>(s: seq<A>, f: A -> B): (r: seq<B>)
    ensures |r| == |s| && forall i :: 0 <= i < |s| ==> r[i] == f(s[i])
  {
    seq(|s|, i requires 0 <= i < |s| => f(s[i]))
  }

  function Dates(rows: seq<Row>): seq<int>
  {
    MapSeq(rows, RowDate)
  }

  function Currencies(rows: seq<Row>): seq<string>
  {
    MapSeq(rows, (r: Row) => r.localCurrency)
  }

  function FundNames(rows: seq<Row>): seq<string>
  {
    MapSeq(rows, (r: Row) => r.fundName)
  }

  /** A value occurs in a column exactly when some row carries it. */
  lemma MapSeqMember<A, B>(s: seq<A>, f: A -> B, y: B)
    ensures y in MapSeq(s, f) <==> exists x :: x in s && f(x) == y
  {
    if exists x :: x in s && f(x) == y {
      var x :| x in s && f(x) == y;
      var i :| 0 <= i < |s| && s[i] == x;
      assert MapSeq(s, f)[i] == y;
    }
  }

  /** Reordering the rows reorders the column the same way. */
  lemma {:induction false} MapSeqPermutation<A, B>(s: seq<A>, t: seq<A>, f: A -> B)
    requires multiset(s) == multiset(t)
    ensures multiset(MapSeq(s, f)) == multiset(MapSeq(t, f))
  {
    if s == [] {
      assert |t| == |multiset(t)| == 0;
    } else {
      var init, last := s[..|s| - 1], s[|s| - 1];
      assert s == init + [last];
      assert multiset(init) == multiset(s) - multiset{last};
      assert last in multiset(t);
      var k :| 0 <= k < |t| && t[k] == last;
      MultisetRemove(t, k);
      MapSeqPermutation(init, t[..k] + t[k + 1..], f);
      MapSeqPutBack(init, t, k, f);
    }
  }

  /** Putting the removed row back at both ends restores equal columns. */
  lemma MapSeqPutBack<A, B>(init: seq<A>, t: seq<A>, k: int, f: A -> B)
    requires 0 <= k < |t|
    requires multiset(MapSeq(init, f)) == multiset(MapSeq(t[..k] + t[k + 1..], f))
    ensures multiset(MapSeq(init + [t[k]], f)) == multiset(MapSeq(t, f))
  {
    var m := MapSeq(t, f);
    MapSeqRemove(t, k, f);
    MultisetRemove(m, k);
    MultisetPutBack(multiset(m), m[k]);
    MapSeqConcat(init, [t[k]], f);
  }

  /** Taking one row out of a column takes its entry out. */
  lemma MapSeqRemove<A, B>(t: seq<A>, k: int, f: A -> B)
    requires 0 <= k < |t|
    ensures MapSeq(t[..k] + t[k + 1..], f) == MapSeq(t, f)[..k] + MapSeq(t, f)[k + 1..]
  {
  }

  lemma MultisetPutBack<T>(m: multiset<T>, x: T)
    requires x in m
    ensures m - multiset{x} + multiset{x} == m
  {
  }

  lemma MapSeqConcat<A, B>(a: seq<A>, b: seq<A>, f: A -> B)
    ensures MapSeq(a + b, f) == MapSeq(a, f) + MapSeq(b, f)
  {
  }

  /** Selection distributes over concatenation: it keeps the original order. */
  lemma {:induction false} FilterConcat<T(!new)>(a: seq<T>, b: seq<T>, p: T -> bool)
    ensures Filter(a + b, p) == Filter(a, p) + Filter(b, p)
  {
    if b != [] {
      var b', x := b[..|b| - 1], b[|b| - 1];
      assert a + b == (a + b') + [x] && b == b' + [x];
      assert (a + b)[..|a + b| - 1] == a + b';
      FilterConcat(a, b', p);
    } else {
      assert a + b == a;
    }
  }

  /** Selecting again with the same mask returns the selection unchanged. */
  lemma {:induction false} FilterIdempotent<T(!new)>(s: seq<T>, p: T -> bool)
    ensures Filter(Filter(s, p), p) == Filter(s, p)
  {
    FilterAll(Filter(s, p), p);
  }

  /** A mask every row satisfies selects the whole table. */
  lemma {:induction false} FilterAll<T(!new)>(s: seq<T>, p: T -> bool)
    requires forall x :: x in s ==> p(x)
    ensures Filter(s, p) == s
  {
    if s != [] {
      var init, last := s[..|s| - 1], s[|s| - 1];
      assert s == init + [last];
      assert p(last);
      FilterAll(init, p);
    }
  }

  /** Selecting with a weaker mask first and then with a stronger one is selecting with the stronger one. */
  lemma {:induction false} FilterNarrow<T(!new)>(s: seq<T>, q: T -> bool, p: T -> bool)
    requires forall x :: p(x) ==> q(x)
    ensures Filter(Filter(s, q), p) == Filter(s, p)
  {
    if s != [] {
      var init, last := s[..|s| - 1], s[|s| - 1];
      var tail := if q(last) then [last] else [];
      FilterNarrow(init, q, p);
      FilterConcat(Filter(init, q), tail, p);
      assert [last][..0] == [];
    }
  }

  /** `.iloc[0]` of a selection: the earliest element satisfying the mask. */
  lemma {:induction false} FilterFirst<T(!new)>(s: seq<T>, p: T -> bool)
    ensures Filter(s, p) != [] ==>
      exists i :: 0 <= i < |s| && s[i] == Filter(s, p)[0] && forall j :: 0 <= j < i ==> !p(s[j])
  {
    if s != [] {
      var init, last := s[..|s| - 1], s[|s| - 1];
      assert s == init + [last];
      FilterFirst(init, p);
      assert Filter(s, p) == Filter(init, p) + (if p(last) then [last] else []);
      if Filter(init, p) != [] {
        assert Filter(s, p)[0] == Filter(init, p)[0];
        var i :| 0 <= i < |init| && init[i] == Filter(init, p)[0] && forall j :: 0 <= j < i ==> !p(init[j]);
        assert s[i] == init[i] && forall j :: 0 <= j < i ==> s[j] == init[j];
      } else if p(last) {
        forall j | 0 <= j < |init| ensures !p(s[j]) {
          assert s[j] == init[j] && init[j] in init;
        }
        assert s[|init|] == Filter(s, p)[0];
      }
    }
  }

  /** A mask no row satisfies selects nothing. */
  lemma FilterNone<T(!new)>(s: seq<T>, p: T -> bool)
    requires forall x :: x in s ==> !p(x)
    ensures Filter(s, p) == []
  {
    if Filter(s, p) != [] {
      assert Filter(s, p)[0] in Filter(s, p);
    }
  }

  lemma {:induction false} SumOfConcat<T(!new)>(a: seq<T>, b: seq<T>, f: T -> real)
    ensures SumOf(a + b, f) == SumOf(a, f) + SumOf(b, f)
  {
    if b != [] {
      var b' := b[..|b| - 1];
      assert (a + b)[..|a + b| - 1] == a + b';
      assert b[..|b| - 1] == b';
      SumOfConcat(a, b', f);
    } else {
      assert a + b == a;
    }
  }

  /** Summing a selection is summing the rows with the others counted as 0. */
  lemma {:induction false} SumOfFilter<T(!new)>(s: seq<T>, p: T -> bool, f: T -> real, g: T -> real)
    requires forall x :: x in s ==> g(x) == if p(x) then f(x) else 0.0
    ensures SumOf(Filter(s, p), f) == SumOf(s, g)
  {
    if s != [] {
      var init, last := s[..|s| - 1], s[|s| - 1];
      assert forall x :: x in init ==> x in s;
      assert last in s;
      SumOfFilter(init, p, f, g);
      SumOfConcat(Filter(init, p), if p(last) then [last] else [], f);
      assert SumOf([last], f) == f(last) by {
        assert [last][..0] == [];
      }
    }
  }

  /** Sums add up row by row. */
  lemma {:induction false} SumOfAdd<T(!new)>(s: seq<T>, f: T -> real, g: T -> real, h: T -> real)
    requires forall x :: x in s ==> f(x) == g(x) + h(x)
    ensures SumOf(s, f) == SumOf(s, g) + SumOf(s, h)
  {
    if s != [] {
      assert forall x :: x in s[..|s| - 1] ==> x in s;
      assert s[|s| - 1] in s;
      SumOfAdd(s[..|s| - 1], f, g, h);
    }
  }

  /** Two functions that agree on the rows give the same sum. */
  lemma {:induction false} SumOfCongruent<T(!new)>(s: seq<T>, f: T -> real, g: T -> real)
    requires forall x :: x in s ==> f(x) == g(x)
    ensures SumOf(s, f) == SumOf(s, g)
  {
    if s != [] {
      assert forall x :: x in s[..|s| - 1] ==> x in s;
      assert s[|s| - 1] in s;
      SumOfCongruent(s[..|s| - 1], f, g);
    }
  }

  lemma {:induction false} SumOfNonNegative<T(!new)>(s: seq<T>, f: T -> real)
    requires forall x :: x in s ==> f(x) >= 0.0
    ensures SumOf(s, f) >= 0.0
  {
    if s != [] {
      assert forall x :: x in s[..|s| - 1] ==> x in s;
      assert s[|s| - 1] in s;
      SumOfNonNegative(s[..|s| - 1], f);
    }
  }

  lemma {:induction false} SumOfPositive<T(!new)>(s: seq<T>, f: T -> real)
    requires forall x :: x in s ==> f(x) > 0.0
    ensures s != [] <==> SumOf(s, f) > 0.0
  {
    if s != [] {
      assert forall x :: x in s[..|s| - 1] ==> x in s;
      assert s[|s| - 1] in s;
      SumOfPositive(s[..|s| - 1], f);
    }
  }

  /** A sum does not depend on the order of the rows. */
  lemma {:induction false} SumOfPermutation<T(!new)>(s: seq<T>, t: seq<T>, f: T -> real)
    requires multiset(s) == multiset(t)
    ensures SumOf(s, f) == SumOf(t, f)
  {
    if s == [] {
      assert |t| == |multiset(t)| == 0;
    } else {
      var init, last := s[..|s| - 1], s[|s| - 1];
      assert s == init + [last];
      assert multiset(init) == multiset(s) - multiset{last};
      assert last in multiset(t);
      var k :| 0 <= k < |t| && t[k] == last;
      SumOfRemove(t, k, f);
      MultisetRemove(t, k);
      SumOfPermutation(init, t[..k] + t[k + 1..], f);
    }
  }

  /** Taking one row out of a sequence takes it out of its multiset. */
  lemma MultisetRemove<T>(t: seq<T>, k: int)
    requires 0 <= k < |t|
    ensures multiset(t[..k] + t[k + 1..]) == multiset(t) - multiset{t[k]}
  {
    var a, b := t[..k], t[k + 1..];
    assert t == a + [t[k]] + b;
    assert multiset(t) == multiset(a) + multiset{t[k]} + multiset(b);
  }

  /** Taking one row out of a sum subtracts its value. */
  lemma SumOfRemove<T(!new)>(t: seq<T>, k: int, f: T -> real)
    requires 0 <= k < |t|
    ensures SumOf(t, f) == SumOf(t[..k] + t[k + 1..], f) + f(t[k])
  {
    var a, b := t[..k], t[k + 1..];
    assert t == t[..k + 1] + b;
    SumOfConcat(t[..k + 1], b, f);
    assert t[..k + 1][..k] == a;
    SumOfConcat(a, b, f);
  }

  lemma {:induction false} SumOfZero<T(!new)>(s: seq<T>, f: T -> real)
    requires forall x :: x in s ==> f(x) == 0.0
    ensures SumOf(s, f) == 0.0
  {
    if s != [] {
      assert forall x :: x in s[..|s| - 1] ==> x in s;
      assert s[|s| - 1] in s;
      SumOfZero(s[..|s| - 1], f);
    }
  }

  /** Sums over two sequences agree when they agree position by position. */
  lemma {:induction false} SumOfPositional<A(!new), B(!new)>(s: seq<A>, t: seq<B>, f: A -> real, g: B -> real)
    requires |s| == |t|
    requires forall i :: 0 <= i < |s| ==> f(s[i]) == g(t[i])
    ensures SumOf(s, f) == SumOf(t, g)
  {
    if s != [] {
      SumOfPositional(s[..|s| - 1], t[..|t| - 1], f, g);
    }
  }

  /** The elements whose integer key is `k`, in their original order: one group of a `groupby`. */
  function Group<T(!new)>(s: seq<T>, key: T -> int, k: int): seq<T>
  {
    Filter(s, (x: T) => key(x) == k)
  }

  /** The total of `f` over each group, read at any key (0 for a key no element has). */
  function GroupTotal<T(!new)>(s: seq<T>, key: T -> int, f: T -> real): int -> real
  {
    (k: int) => SumOf(Group(s, key, k), f)
  }

  ghost predicate Distinct<K>(ks: seq<K>) {
    forall i, j :: 0 <= i < j < |ks| ==> ks[i] != ks[j]
  }

  /** Appending one element adds its value to its own group's total only. */
  lemma GroupStep<T(!new)>(init: seq<T>, x: T, key: T -> int, f: T -> real, k: int)
    ensures GroupTotal(init + [x], key, f)(k)
      == GroupTotal(init, key, f)(k) + (if key(x) == k then f(x) else 0.0)
  {
    var s := init + [x];
    assert s[..|s| - 1] == init;
    SumOfConcat(Group(init, key, k), if key(x) == k then [x] else [], f);
    assert SumOf([x], f) == f(x) by {
      assert [x][..0] == [];
    }
  }

  lemma GroupAbsent<T(!new)>(s: seq<T>, key: T -> int, f: T -> real, k: int)
    requires forall x :: x in s ==> key(x) != k
    ensures Group(s, key, k) == []
    ensures GroupTotal(s, key, f)(k) == 0.0
  {
    FilterNone(s, (x: T) => key(x) == k);
  }

  /** Groups of permuted sequences are permutations of each other. */
  lemma GroupPermutation<T(!new)>(s: seq<T>, t: seq<T>, key: T -> int, k: int)
    requires multiset(s) == multiset(t)
    ensures multiset(Group(s, key, k)) == multiset(Group(t, key, k))
  {
    var a, b := Group(s, key, k), Group(t, key, k);
    FilterMultiset(s, (x: T) => key(x) == k);
    FilterMultiset(t, (x: T) => key(x) == k);
    assert forall x :: multiset(a)[x] == multiset(b)[x];
  }

  /** A group lies inside any selection that keeps all of its elements. */
  lemma GroupOfFilter<T(!new)>(s: seq<T>, q: T -> bool, key: T -> int, k: int)
    requires forall x :: key(x) == k ==> q(x)
    ensures Group(Filter(s, q), key, k) == Group(s, key, k)
  {
    FilterNarrow(s, q, (x: T) => key(x) == k);
  }

  /** The value `v` at key `k0` and 0 at every other key. */
  function Indicator(k0: int, v: real): int -> real
  {
    (k: int) => if k == k0 then v else 0.0
  }

  /** Distinct keys meet `k0` at most once. */
  lemma {:induction false} IndicatorSum(ks: seq<int>, k0: int, v: real)
    requires Distinct(ks)
    ensures SumOf(ks, Indicator(k0, v)) == if k0 in ks then v else 0.0
  {
    if ks != [] {
      var init, last := ks[..|ks| - 1], ks[|ks| - 1];
      assert ks == init + [last];
      IndicatorSum(init, k0, v);
      if last == k0 {
        forall i | 0 <= i < |init| ensures init[i] != k0 {
          assert ks[i] == init[i];
        }
      }
    }
  }

  /**
   * Adding up the group totals over keys that list every key present exactly
   * once gives the total over all elements: grouping preserves the sum.
   */
  lemma {:induction false} GroupSumsCover<T(!new)>(ks: seq<int>, s: seq<T>, key: T -> int, f: T -> real)
    requires Distinct(ks)
    requires forall x :: x in s ==> key(x) in ks
    ensures SumOf(ks, GroupTotal(s, key, f)) == SumOf(s, f)
  {
    if s == [] {
      forall k | k in ks ensures GroupTotal(s, key, f)(k) == 0.0 {
        GroupAbsent(s, key, f, k);
      }
      SumOfZero(ks, GroupTotal(s, key, f));
    } else {
      var init, last := s[..|s| - 1], s[|s| - 1];
      assert s == init + [last];
      assert forall x :: x in init ==> x in s;
      GroupSumsCover(ks, init, key, f);
      GroupTotalsStep(ks, init, last, key, f);
      assert last in s;
      IndicatorSum(ks, key(last), f(last));
    }
  }

  lemma GroupTotalsStep<T(!new)>(ks: seq<int>, init: seq<T>, x: T, key: T -> int, f: T -> real)
    ensures SumOf(ks, GroupTotal(init + [x], key, f))
      == SumOf(ks, GroupTotal(init, key, f)) + SumOf(ks, Indicator(key(x), f(x)))
  {
    forall k | k in ks
      ensures GroupTotal(init + [x], key, f)(k) == GroupTotal(init, key, f)(k) + Indicator(key(x), f(x))(k)
    {
      GroupStep(init, x, key, f, k);
    }
    SumOfAdd(ks, GroupTotal(init + [x], key, f), GroupTotal(init, key, f), Indicator(key(x), f(x)));
  }

  /** Extending a prefix by one element adds that element's value. */
  lemma SumOfPrefixStep<T(!new)>(s: seq<T>, i: int, f: T -> real)
    requires 0 <= i < |s|
    ensures SumOf(s[..i + 1], f) == SumOf(s[..i], f) + f(s[i])
  {
    assert s[..i + 1][..i] == s[..i];
  }
}
