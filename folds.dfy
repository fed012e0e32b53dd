/**
 * The folds every view repeats: `filter`, the sum of amounts, per-key
 * totals built by a `reduce` into a dictionary, the keys of that dictionary
 * in insertion order, and rounding a share to a whole percentage.
 *
 * The folds are defined from the end of the sequence, as a left-to-right
 * `reduce` computes them.
 */
module Folds {
  import opened Types
  import opened Sorting

  // ----- filter -----

  function Filter<T(!new)>(s: seq<T>, p: T -> bool): (r: seq<T>)
    ensures |r| <= |s|
  {
    if s == [] then []
    else Filter(s[..|s| - 1], p) + if p(s[|s| - 1]) then [s[|s| - 1]] else []
  }

  /** A filter keeps exactly the elements that satisfy the predicate. */
  lemma {:induction false} FilterSpec<T(!new)>(s: seq<T>, p: T -> bool)
    ensures forall i :: 0 <= i < |Filter(s, p)| ==> p(Filter(s, p)[i])
    ensures forall x :: x in Filter(s, p) <==> x in s && p(x)
  {
    if s != [] {
      var init, x := s[..|s| - 1], s[|s| - 1];
      FilterSpec(init, p);
      assert s == init + [x];
    }
  }

  lemma {:induction false} FilterAppend<T(!new)>(a: seq<T>, b: seq<T>, p: T -> bool)
    ensures Filter(a + b, p) == Filter(a, p) + Filter(b, p)
  {
    if b != [] {
      var b' := b[..|b| - 1];
      assert (a + b)[..|a + b| - 1] == a + b';
      FilterAppend(a, b', p);
    } else {
      assert a + b == a;
    }
  }

  /** A filter whose predicate holds everywhere keeps the sequence as it is. */
  lemma {:induction false} FilterAll<T(!new)>(s: seq<T>, p: T -> bool)
    requires forall i :: 0 <= i < |s| ==> p(s[i])
    ensures Filter(s, p) == s
  {
    if s != [] {
      FilterAll(s[..|s| - 1], p);
    }
  }

  /** Filters by predicates that agree everywhere agree. */
  lemma {:induction false} FilterExt<T(!new)>(s: seq<T>, p: T -> bool, q: T -> bool)
    requires forall x :: p(x) == q(x)
    ensures Filter(s, p) == Filter(s, q)
  {
    if s != [] {
      FilterExt(s[..|s| - 1], p, q);
    }
  }

  /** Filtering twice is filtering once by the conjunction. */
  lemma {:induction false} FilterTwice<T(!new)>(s: seq<T>, p: T -> bool, q: T -> bool, pq: T -> bool)
    requires forall x :: pq(x) == (p(x) && q(x))
    ensures Filter(Filter(s, p), q) == Filter(s, pq)
  {
    if s != [] {
      var init, x := s[..|s| - 1], s[|s| - 1];
      FilterTwice(init, p, q, pq);
      FilterAppend(Filter(init, p), if p(x) then [x] else [], q);
      assert Filter([x], q) == Filter([], q) + (if q(x) then [x] else []);
    }
  }

  /** The filtered elements keep their relative order: the filter is a subsequence. */
  lemma {:induction false} FilterMultiset<T(!new)>(s: seq<T>, p: T -> bool)
    ensures multiset(Filter(s, p)) <= multiset(s)
  {
    if s != [] {
      FilterMultiset(s[..|s| - 1], p);
      assert s == s[..|s| - 1] + [s[|s| - 1]];
    }
  }

  // ----- sums of amounts -----

  /** `es.reduce((sum, e) => sum + e.amount, 0)`. */
  function SumAmounts(es: seq<Expense>): nat
  {
    if es == [] then 0 else SumAmounts(es[..|es| - 1]) + es[|es| - 1].amount
  }

  lemma {:induction false} SumAppend(a: seq<Expense>, b: seq<Expense>)
    ensures SumAmounts(a + b) == SumAmounts(a) + SumAmounts(b)
  {
    if b != [] {
      assert (a + b)[..|a + b| - 1] == a + b[..|b| - 1];
      SumAppend(a, b[..|b| - 1]);
    } else {
      assert a + b == a;
    }
  }

  /** Appending one expense adds its amount. */
  lemma SumSnoc(a: seq<Expense>, x: Expense)
    ensures SumAmounts(a + [x]) == SumAmounts(a) + x.amount
  {
    assert (a + [x])[..|a|] == a;
  }

  /** Taking out one element takes its amount out of the sum. */
  lemma {:induction false} RemoveSum(b: seq<Expense>, k: nat)
    requires k < |b|
    ensures SumAmounts(b) == SumAmounts(b[..k] + b[k + 1..]) + b[k].amount
  {
    var rest := b[..k] + b[k + 1..];
    if k == |b| - 1 {
      assert rest == b[..|b| - 1];
    } else {
      var init := b[..|b| - 1];
      RemoveSum(init, k);
      assert rest[..|rest| - 1] == init[..k] + init[k + 1..];
      assert rest[|rest| - 1] == b[|b| - 1];
    }
  }

  lemma MultisetRemove<T>(b: seq<T>, k: nat)
    requires k < |b|
    ensures multiset(b) == multiset(b[..k] + b[k + 1..]) + multiset{b[k]}
  {
    assert b == b[..k] + [b[k]] + b[k + 1..];
  }


  /** Reordering does not change the sum. */
  lemma {:induction false} SumPermutation(a: seq<Expense>, b: seq<Expense>)
    requires multiset(a) == multiset(b)
    ensures SumAmounts(a) == SumAmounts(b)
    decreases |a|
  {
    if a != [] {
      var init, x := a[..|a| - 1], a[|a| - 1];
      assert a == init + [x];
      var k := RemoveLast(a, b);
      RemoveSum(b, k);
      SumPermutation(init, b[..k] + b[k + 1..]);
      SumSnoc(init, x);
    }
  }

  /** The last element of `a` sits somewhere in a permutation `b`; without it the two are still permutations. */
  lemma RemoveLast<T>(a: seq<T>, b: seq<T>) returns (k: nat)
    requires a != [] && multiset(a) == multiset(b)
    ensures k < |b| && b[k] == a[|a| - 1]
    ensures multiset(a[..|a| - 1]) == multiset(b[..k] + b[k + 1..])
  {
    var init, x := a[..|a| - 1], a[|a| - 1];
    assert a == init + [x];
    assert x in multiset(b);
    k :| 0 <= k < |b| && b[k] == x;
    MultisetRemove(b, k);
    assert multiset(a) == multiset(init) + multiset{x};
    assert multiset(init) == multiset(a) - multiset{x} == multiset(b[..k] + b[k + 1..]);
  }

  /** Every amount is at most the sum. */
  lemma {:induction false} AmountBelowSum(es: seq<Expense>, i: nat)
    requires i < |es|
    ensures es[i].amount <= SumAmounts(es)
  {
    if i < |es| - 1 {
      AmountBelowSum(es[..|es| - 1], i);
    }
  }

  /** Filtering can only lower a sum of amounts. */
  lemma {:induction false} FilterSumBelow(es: seq<Expense>, p: Expense -> bool)
    ensures SumAmounts(Filter(es, p)) <= SumAmounts(es)
  {
    if es != [] {
      var init, x := es[..|es| - 1], es[|es| - 1];
      FilterSumBelow(init, p);
      if p(x) {
        SumSnoc(Filter(init, p), x);
      } else {
        assert Filter(es, p) == Filter(init, p);
      }
    }
  }

  /** Splitting a sequence by a predicate splits its sum. */
  lemma {:induction false} FilterSplitSum(es: seq<Expense>, p: Expense -> bool, q: Expense -> bool)
    requires forall e :: q(e) == !p(e)
    ensures SumAmounts(Filter(es, p)) + SumAmounts(Filter(es, q)) == SumAmounts(es)
    ensures |Filter(es, p)| + |Filter(es, q)| == |es|
  {
    if es != [] {
      var init, x := es[..|es| - 1], es[|es| - 1];
      FilterSplitSum(init, p, q);
      var fp, fq := Filter(init, p), Filter(init, q);
      if p(x) {
        assert Filter(es, p) == fp + [x] && Filter(es, q) == fq;
        SumSnoc(fp, x);
      } else {
        assert Filter(es, p) == fp && Filter(es, q) == fq + [x];
        SumSnoc(fq, x);
      }
    }
  }

  // ----- per-key totals -----

  /** The summed amount of the expenses whose key is `k` (0 when there are none). */
  function KeyTotal<K(==,!new)>(es: seq<Expense>, key: Expense -> K, k: K): nat
  {
    if es == [] then 0
    else KeyTotal(es[..|es| - 1], key, k) + if key(es[|es| - 1]) == k then es[|es| - 1].amount else 0
  }

  /** The number of expenses whose key is `k`. */
  function KeyCount<K(==,!new)>(es: seq<Expense>, key: Expense -> K, k: K): nat
  {
    if es == [] then 0
    else KeyCount(es[..|es| - 1], key, k) + if key(es[|es| - 1]) == k then 1 else 0
  }

  /** The per-key total is the sum over exactly the expenses with that key. */
  lemma {:induction false} KeyTotalIsFilteredSum<K(!new)>(es: seq<Expense>, key: Expense -> K, k: K, p: Expense -> bool)
    requires forall e :: p(e) == (key(e) == k)
    ensures KeyTotal(es, key, k) == SumAmounts(Filter(es, p))
    ensures KeyCount(es, key, k) == |Filter(es, p)|
  {
    if es != [] {
      var init, x := es[..|es| - 1], es[|es| - 1];
      KeyTotalIsFilteredSum(init, key, k, p);
      if p(x) {
        SumSnoc(Filter(init, p), x);
      } else {
        assert Filter(es, p) == Filter(init, p);
      }
    }
  }

  /** A key that no expense has totals 0. */
  lemma {:induction false} KeyTotalAbsent<K(!new)>(es: seq<Expense>, key: Expense -> K, k: K)
    requires forall i :: 0 <= i < |es| ==> key(es[i]) != k
    ensures KeyTotal(es, key, k) == 0 && KeyCount(es, key, k) == 0
  {
    if es != [] {
      KeyTotalAbsent(es[..|es| - 1], key, k);
    }
  }

  /** A key's total is at most the total of all amounts. */
  lemma KeyTotalBelowSum<K(!new)>(es: seq<Expense>, key: Expense -> K, k: K)
    ensures KeyTotal(es, key, k) <= SumAmounts(es)
  {
    var p := (e: Expense) => key(e) == k;
    KeyTotalIsFilteredSum(es, key, k, p);
    FilterSumBelow(es, p);
  }

  /** A key is counted exactly when some expense has it. */
  lemma {:induction false} KeyCountPositive<K(!new)>(es: seq<Expense>, key: Expense -> K, k: K)
    ensures KeyCount(es, key, k) > 0 <==> exists i :: 0 <= i < |es| && key(es[i]) == k
  {
    if es != [] {
      var init := es[..|es| - 1];
      KeyCountPositive(init, key, k);
      if exists i :: 0 <= i < |init| && key(init[i]) == k {
        var i :| 0 <= i < |init| && key(init[i]) == k;
        assert es[i] == init[i];
      }
      if exists i :: 0 <= i < |es| && key(es[i]) == k {
        var i :| 0 <= i < |es| && key(es[i]) == k;
        if i < |init| {
          assert init[i] == es[i];
        }
      }
    }
  }

  /** A filter that keeps every expense with key `k` keeps its total and count. */
  lemma {:induction false} KeyTotalFilterKeeps<K(!new)>(es: seq<Expense>, p: Expense -> bool, key: Expense -> K, k: K)
    requires forall e :: key(e) == k ==> p(e)
    ensures KeyTotal(Filter(es, p), key, k) == KeyTotal(es, key, k)
    ensures KeyCount(Filter(es, p), key, k) == KeyCount(es, key, k)
  {
    if es != [] {
      var init, x := es[..|es| - 1], es[|es| - 1];
      KeyTotalFilterKeeps(init, p, key, k);
      var kept := Filter(init, p);
      if p(x) {
        var f := Filter(es, p);
        assert f == kept + [x];
        assert f[..|f| - 1] == kept && f[|f| - 1] == x;
      } else {
        assert Filter(es, p) == kept;
      }
    }
  }

  /** A key's total is positive exactly when some expense with that key has a positive amount. */
  lemma {:induction false} KeyTotalPositive<K(!new)>(es: seq<Expense>, key: Expense -> K, k: K)
    ensures KeyTotal(es, key, k) > 0 <==> exists i :: 0 <= i < |es| && key(es[i]) == k && es[i].amount > 0
  {
    if es != [] {
      var init := es[..|es| - 1];
      KeyTotalPositive(init, key, k);
      if exists i :: 0 <= i < |init| && key(init[i]) == k && init[i].amount > 0 {
        var i :| 0 <= i < |init| && key(init[i]) == k && init[i].amount > 0;
        assert es[i] == init[i];
      }
      if exists i :: 0 <= i < |es| && key(es[i]) == k && es[i].amount > 0 {
        var i :| 0 <= i < |es| && key(es[i]) == k && es[i].amount > 0;
        if i < |init| {
          assert init[i] == es[i];
        }
      }
    }
  }

  /** The keys of the expenses, in order. */
  function KeysOf<K(==,!new)>(es: seq<Expense>, key: Expense -> K): (ks: seq<K>)
    ensures |ks| == |es| && forall i :: 0 <= i < |es| ==> ks[i] == key(es[i])
  {
    if es == [] then [] else KeysOf(es[..|es| - 1], key) + [key(es[|es| - 1])]
  }

  ghost predicate Distinct<K(!new)>(ks: seq<K>)
  {
    forall i, j :: 0 <= i < j < |ks| ==> ks[i] != ks[j]
  }

  /**
   * The distinct keys in order of first occurrence: the order in which a
   * JavaScript object built by assignment lists its (non-numeric) keys.
   */
  function FirstAppearance<K(==,!new)>(ks: seq<K>): (r: seq<K>)
    ensures Distinct(r)
    ensures forall k :: k in r <==> k in ks
    ensures |r| <= |ks|
  {
    if ks == [] then []
    else
      var prev := FirstAppearance(ks[..|ks| - 1]);
      var k := ks[|ks| - 1];
      assert forall x :: x in ks <==> x in ks[..|ks| - 1] || x == k by {
        assert ks == ks[..|ks| - 1] + [k];
      }
      if k in prev then prev else prev + [k]
  }

  lemma {:induction false} InsertDistinct<T(!new)>(x: T, r: seq<T>, cmp: (T, T) -> int)
    requires Distinct(r) && x !in r
    ensures Distinct(Insert(x, r, cmp))
  {
    if r != [] && cmp(r[0], x) <= 0 {
      InsertDistinct(x, r[1..], cmp);
      InsertPermutes(x, r[1..], cmp);
      var q := Insert(x, r[1..], cmp);
      assert r[0] !in multiset(q) by {
        assert r == [r[0]] + r[1..];
        assert r[0] !in r[1..];
      }
      assert Insert(x, r, cmp) == [r[0]] + q;
    }
  }

  /** Sorting a duplicate-free sequence leaves it duplicate-free. */
  lemma {:induction false} SortDistinct<T(!new)>(s: seq<T>, cmp: (T, T) -> int)
    requires Distinct(s)
    ensures Distinct(SortBy(s, cmp))
  {
    if s != [] {
      var init, x := s[..|s| - 1], s[|s| - 1];
      SortDistinct(init, cmp);
      assert x !in multiset(SortBy(init, cmp)) by {
        assert x !in init;
      }
      InsertDistinct(x, SortBy(init, cmp), cmp);
    }
  }

  /** `new Set(ks).size`: the number of distinct values. */
  function CountDistinct<K(==,!new)>(ks: seq<K>): (n: nat)
    ensures n <= |ks|
    ensures n == 0 <==> ks == []
  {
    var r := FirstAppearance(ks);
    assert ks != [] ==> ks[0] in r;
    |r|
  }

  lemma {:induction false} DistinctSetSize<K(!new)>(r: seq<K>)
    requires Distinct(r)
    ensures |set x | x in r| == |r|
  {
    if r != [] {
      var init, x := r[..|r| - 1], r[|r| - 1];
      DistinctSetSize(init);
      assert (set y | y in r) == (set y | y in init) + {x} by {
        assert r == init + [x];
      }
      assert x !in init;
    }
  }

  /** The distinct count is the size of the set of values. */
  lemma CountDistinctIsSetSize<K(!new)>(ks: seq<K>)
    ensures CountDistinct(ks) == |set k | k in ks|
  {
    DistinctSetSize(FirstAppearance(ks));
    assert (set k | k in ks) == (set k | k in FirstAppearance(ks));
  }

  /** Where the first occurrence of a key lies. */
  ghost function FirstIndex<K(!new)>(ks: seq<K>, k: K): (i: nat)
    requires k in ks
    ensures i < |ks| && ks[i] == k && forall j :: 0 <= j < i ==> ks[j] != k
  {
    if ks[0] == k then 0 else 1 + FirstIndex(ks[1..], k)
  }

  /**
   * The first-appearance order lists `a` before `b` exactly when `a` first
   * occurs in `ks` before `b` does.
   */
  lemma {:induction false} FirstAppearanceOrder<K(!new)>(ks: seq<K>, i: nat, j: nat)
    requires i < j < |FirstAppearance(ks)|
    ensures FirstIndex(ks, FirstAppearance(ks)[i]) < FirstIndex(ks, FirstAppearance(ks)[j])
  {
    var init, k := ks[..|ks| - 1], ks[|ks| - 1];
    var prev := FirstAppearance(init);
    var r := FirstAppearance(ks);
    assert ks == init + [k];
    FirstIndexPrefix(init, k, r[i]);
    if j < |prev| {
      FirstAppearanceOrder(init, i, j);
      FirstIndexPrefix(init, k, r[j]);
    } else {
      assert r[j] == k && k !in init;
      assert forall m :: 0 <= m < |init| ==> ks[m] == init[m];
    }
  }

  lemma {:induction false} FirstIndexPrefix<K(!new)>(init: seq<K>, k: K, x: K)
    requires x in init
    ensures FirstIndex(init + [k], x) == FirstIndex(init, x)
  {
    if init[0] != x {
      assert (init + [k])[1..] == init[1..] + [k];
      FirstIndexPrefix(init[1..], k, x);
    }
  }

  /** One more expense adds its amount to the total of its own key only. */
  lemma SnocTotals<K(!new)>(s: seq<Expense>, e: Expense, key: Expense -> K)
    ensures KeysOf(s + [e], key) == KeysOf(s, key) + [key(e)]
    ensures forall k :: KeyTotal(s + [e], key, k) == KeyTotal(s, key, k) + if key(e) == k then e.amount else 0
  {
    assert (s + [e])[..|s|] == s;
  }

  /** `order` and `totals` are the dictionary of per-key totals of `s`. */
  ghost predicate GroupedAs<K(!new)>(s: seq<Expense>, key: Expense -> K, order: seq<K>, totals: map<K, nat>)
  {
    && order == FirstAppearance(KeysOf(s, key))
    && (forall k :: k in totals <==> k in order)
    && (forall k :: k in totals ==> totals[k] == KeyTotal(s, key, k))
  }

  /** One step of the `reduce`: add the amount under its key, creating the key when it is new. */
  lemma GroupStep<K(!new)>(s: seq<Expense>, e: Expense, key: Expense -> K, order: seq<K>, totals: map<K, nat>)
    requires GroupedAs(s, key, order, totals)
    ensures GroupedAs(s + [e], key,
                      if key(e) in totals then order else order + [key(e)],
                      totals[key(e) := (if key(e) in totals then totals[key(e)] else 0) + e.amount])
  {
    SnocTotals(s, e, key);
    GroupOrderStep(s, e, key, order, key(e) in totals);
    if key(e) !in totals {
      assert key(e) !in KeysOf(s, key);
      KeyTotalAbsent(s, key, key(e));
    }
    GroupTotalsStep(s, e, key, totals);
  }

  /** A key is appended to the insertion order exactly when it is new. */
  lemma GroupOrderStep<K(!new)>(s: seq<Expense>, e: Expense, key: Expense -> K, order: seq<K>, known: bool)
    requires order == FirstAppearance(KeysOf(s, key))
    requires known <==> key(e) in order
    ensures (if known then order else order + [key(e)]) == FirstAppearance(KeysOf(s + [e], key))
  {
    SnocTotals(s, e, key);
    var ks := KeysOf(s, key);
    assert (ks + [key(e)])[..|ks|] == ks;
  }

  /** The dictionary after the step holds the new totals. */
  lemma GroupTotalsStep<K(!new)>(s: seq<Expense>, e: Expense, key: Expense -> K, totals: map<K, nat>)
    requires forall k :: k in totals ==> totals[k] == KeyTotal(s, key, k)
    requires key(e) !in totals ==> KeyTotal(s, key, key(e)) == 0
    ensures var k := key(e);
            var totals' := totals[k := (if k in totals then totals[k] else 0) + e.amount];
            forall k' :: k' in totals' ==> totals'[k'] == KeyTotal(s + [e], key, k')
  {
    SnocTotals(s, e, key);
  }

  /**
   * The accumulating `reduce` that builds a dictionary of per-key totals:
   * `acc[k] = (acc[k] || 0) + e.amount`. The dictionary is returned as its
   * keys in insertion order together with the map of values.
   */
  method GroupTotals<K(==,!new)>(es: seq<Expense>, key: Expense -> K) returns (order: seq<K>, totals: map<K, nat>)
    ensures order == FirstAppearance(KeysOf(es, key))
    ensures forall k :: k in totals <==> k in order
    ensures forall k :: k in totals ==> totals[k] == KeyTotal(es, key, k)
  {
    order, totals := [], map[];
    for i := 0 to |es|
      invariant GroupedAs(es[..i], key, order, totals)
    {
      var e := es[i];
      var k := key(e);
      assert es[..i + 1] == es[..i] + [e];
      GroupStep(es[..i], e, key, order, totals);
      if k in totals {
        totals := totals[k := totals[k] + e.amount];
      } else {
        order := order + [k];
        totals := totals[k := e.amount];
      }
    }
    assert es[..|es|] == es;
  }

  /** Looking a key up in the dictionary, with 0 for a missing key, gives its total. */
  lemma LookupTotal<K(!new)>(es: seq<Expense>, key: Expense -> K, order: seq<K>, totals: map<K, nat>, k: K)
    requires order == FirstAppearance(KeysOf(es, key))
    requires forall k :: k in totals <==> k in order
    requires forall k :: k in totals ==> totals[k] == KeyTotal(es, key, k)
    ensures (if k in totals then totals[k] else 0) == KeyTotal(es, key, k)
  {
    if k !in totals {
      assert k !in KeysOf(es, key);
      KeyTotalAbsent(es, key, k);
    }
  }

  // ----- sums over a list of keys -----

  /** The totals of the keys in `ks`, added up. */
  function SumKeyTotals<K(==,!new)>(ks: seq<K>, es: seq<Expense>, key: Expense -> K): nat
  {
    if ks == [] then 0 else KeyTotal(es, key, ks[0]) + SumKeyTotals(ks[1..], es, key)
  }

  /** The counts of the keys in `ks`, added up. */
  function SumKeyCounts<K(==,!new)>(ks: seq<K>, es: seq<Expense>, key: Expense -> K): nat
  {
    if ks == [] then 0 else KeyCount(es, key, ks[0]) + SumKeyCounts(ks[1..], es, key)
  }

  lemma {:induction false} SumKeysSnoc<K(!new)>(ks: seq<K>, es: seq<Expense>, e: Expense, key: Expense -> K)
    requires Distinct(ks)
    ensures SumKeyTotals(ks, es + [e], key) == SumKeyTotals(ks, es, key) + if key(e) in ks then e.amount else 0
    ensures SumKeyCounts(ks, es + [e], key) == SumKeyCounts(ks, es, key) + if key(e) in ks then 1 else 0
  {
    if ks != [] {
      assert (es + [e])[..|es + [e]| - 1] == es;
      SumKeysSnoc(ks[1..], es, e, key);
      assert key(e) in ks <==> key(e) == ks[0] || key(e) in ks[1..] by {
        assert ks == [ks[0]] + ks[1..];
      }
    }
  }

  /**
   * Adding up the per-key totals over a duplicate-free list of keys that
   * covers every expense's key gives the sum of all amounts and the count of
   * all expenses: every expense is counted under exactly one key.
   */
  lemma {:induction false} SumKeysCover<K(!new)>(ks: seq<K>, es: seq<Expense>, key: Expense -> K)
    requires Distinct(ks)
    requires forall i :: 0 <= i < |es| ==> key(es[i]) in ks
    ensures SumKeyTotals(ks, es, key) == SumAmounts(es)
    ensures SumKeyCounts(ks, es, key) == |es|
  {
    if es == [] {
      SumKeysEmpty(ks, key);
    } else {
      var init := es[..|es| - 1];
      SumKeysCover(ks, init, key);
      assert es == init + [es[|es| - 1]];
      SumKeysSnoc(ks, init, es[|es| - 1], key);
    }
  }

  /**
   * Adding up the per-key totals over a duplicate-free list of keys gives
   * the sum over exactly the expenses whose key is listed.
   */
  lemma {:induction false} SumKeysFiltered<K(!new)>(ks: seq<K>, es: seq<Expense>, key: Expense -> K, p: Expense -> bool)
    requires Distinct(ks)
    requires forall e :: p(e) == (key(e) in ks)
    ensures SumKeyTotals(ks, es, key) == SumAmounts(Filter(es, p))
  {
    if es == [] {
      SumKeysEmpty(ks, key);
    } else {
      var init, x := es[..|es| - 1], es[|es| - 1];
      SumKeysFiltered(ks, init, key, p);
      assert es == init + [x];
      SumKeysSnoc(ks, init, x, key);
      if p(x) {
        SumSnoc(Filter(init, p), x);
      } else {
        assert Filter(es, p) == Filter(init, p);
      }
    }
  }

  lemma {:induction false} SumKeysEmpty<K(!new)>(ks: seq<K>, key: Expense -> K)
    ensures SumKeyTotals(ks, [], key) == 0 && SumKeyCounts(ks, [], key) == 0
  {
    if ks != [] {
      SumKeysEmpty(ks[1..], key);
    }
  }

  // ----- percentages -----

  /**
   * `Math.round(v / t * 100)` on non-negative integers, as (200v + t) / (2t):
   * the whole number nearest to 100v/t, halves rounded up.
   */
  function RoundPercent(v: nat, t: nat): (r: nat)
    requires t > 0
    ensures r * (2 * t) <= 200 * v + t < (r + 1) * (2 * t)
    ensures v <= t ==> r <= 100
    ensures v == t ==> r == 100
    ensures v == 0 ==> r == 0
  {
    var r := (200 * v + t) / (2 * t);
    RoundPercentBounds(v, t, r);
    r
  }

  lemma MulMono(a: nat, b: nat, c: nat)
    requires a <= b
    ensures a * c <= b * c
  {
  }

  lemma RoundPercentBounds(v: nat, t: nat, r: nat)
    requires t > 0 && r == (200 * v + t) / (2 * t)
    ensures r * (2 * t) <= 200 * v + t < (r + 1) * (2 * t)
    ensures v <= t ==> r <= 100
    ensures v == t ==> r == 100
    ensures v == 0 ==> r == 0
  {
    var n, d := 200 * v + t, 2 * t;
    assert n == d * r + n % d && 0 <= n % d < d;
    assert (r + 1) * d == r * d + d;
    if v <= t {
      MulMono(v, t, 200);
      var m := if r <= 100 then r else 101;
      MulMono(m, r, d);
      assert 101 * d > n;
    }
    if v == t {
      var m := if r >= 100 then 99 else r;
      MulMono(m + 1, 100, d);
    }
    if v == 0 {
      var m := if r >= 1 then 1 else r;
      MulMono(m, r, d);
    }
  }
}
