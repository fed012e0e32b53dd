/**
 * The "By Category" chart: the total of each category that occurs, its
 * share of the overall total as a whole percentage, largest first.
 *
 * Amounts are whole cents, so rounding a value to cents leaves it as it is.
 */
module CategoryChart {
  import opened Types
  import opened Folds
  import opened Sorting
  import opened ExpenseContext

  /** One slice of the chart. */
  datatype Slice = Slice(name: Category, value: nat, pct: nat)

  /** `Object.values(categoryTotals).reduce((s, v) => s + v, 0)`. */
  function EntriesTotal(entries: seq<(Category, nat)>): nat
  {
    if entries == [] then 0 else entries[0].1 + EntriesTotal(entries[1..])
  }

  lemma {:induction false} EntriesTotalIsKeySum(ks: seq<Category>, es: seq<Expense>)
    ensures EntriesTotal(EntriesOf(ks, es)) == SumKeyTotals(ks, es, CategoryOf)
  {
    if ks != [] {
      EntriesTotalIsKeySum(ks[1..], es);
      assert EntriesOf(ks, es)[1..] == EntriesOf(ks[1..], es);
    }
  }

  /** `totalAll` is the sum of all amounts: every expense is in exactly one category total. */
  lemma TotalAllIsSum(es: seq<Expense>)
    ensures EntriesTotal(CategoryEntries(es)) == SumAmounts(es)
  {
    var ks := FirstAppearance(KeysOf(es, CategoryOf));
    EntriesTotalIsKeySum(ks, es);
    forall i | 0 <= i < |es|
      ensures CategoryOf(es[i]) in ks
    {
      assert KeysOf(es, CategoryOf)[i] == CategoryOf(es[i]);
    }
    SumKeysCover(ks, es, CategoryOf);
  }

  /** `totalAll > 0 ? Math.round((value / totalAll) * 100) : 0`. */
  function Pct(value: nat, total: nat): (r: nat)
    ensures total == 0 ==> r == 0
    ensures value <= total ==> r <= 100
  {
    if total > 0 then RoundPercent(value, total) else 0
  }

  function ToSlices(entries: seq<(Category, nat)>, total: nat): (r: seq<Slice>)
    ensures |r| == |entries|
    ensures forall i :: 0 <= i < |entries| ==> r[i] == Slice(entries[i].0, entries[i].1, Pct(entries[i].1, total))
  {
    seq(|entries|, i requires 0 <= i < |entries| => Slice(entries[i].0, entries[i].1, Pct(entries[i].1, total)))
  }

  /** The comparator `(a, b) => b.value - a.value`. */
  function ByValueDesc(a: Slice, b: Slice): int
  {
    b.value - a.value
  }

  /** The chart's `data`. */
  function ChartData(es: seq<Expense>): seq<Slice>
  {
    SortBy(Slices(es), ByValueDesc)
  }

  function Slices(es: seq<Expense>): seq<Slice>
  {
    var entries := CategoryEntries(es);
    ToSlices(entries, EntriesTotal(entries))
  }

  /** The chart holds the slices, each as often, in sorted order. */
  lemma ChartHoldsSlices(es: seq<Expense>)
    ensures multiset(ChartData(es)) == multiset(Slices(es))
    ensures forall s :: s in ChartData(es) <==> s in Slices(es)
  {
    forall s ensures s in ChartData(es) <==> s in Slices(es) {
      assert s in ChartData(es) <==> s in multiset(ChartData(es));
    }
  }

  /** There are no slices exactly when there are no expenses. */
  lemma ChartEmptyIffNoExpenses(es: seq<Expense>)
    ensures ChartData(es) == [] <==> es == []
  {
    assert es != [] ==> KeysOf(es, CategoryOf)[0] in FirstAppearance(KeysOf(es, CategoryOf));
  }

  /** Each slice holds its category's total and its rounded share of all spending, at most 100. */
  lemma ChartValues(es: seq<Expense>)
    ensures forall s :: s in ChartData(es) ==>
              s.value == KeyTotal(es, CategoryOf, s.name) && s.pct == Pct(s.value, SumAmounts(es)) && s.pct <= 100
  {
    ChartHoldsSlices(es);
    TotalAllIsSum(es);
    forall s | s in Slices(es)
      ensures s.value == KeyTotal(es, CategoryOf, s.name) && s.pct <= 100
    {
      KeyTotalBelowSum(es, CategoryOf, s.name);
    }
  }

  /** A category has a slice exactly when some expense has that category. */
  lemma ChartCovers(es: seq<Expense>)
    ensures forall c :: c in KeysOf(es, CategoryOf) <==> c in Names(ChartData(es))
  {
    ChartHoldsSlices(es);
    SlicesCover(es);
    SameNames(Slices(es), ChartData(es));
  }

  /** Before sorting, there is one slice per category that occurs. */
  lemma SlicesCover(es: seq<Expense>)
    ensures forall c :: c in KeysOf(es, CategoryOf) <==> c in Names(Slices(es))
  {
    var ks := FirstAppearance(KeysOf(es, CategoryOf));
    var slices := Slices(es);
    assert forall i :: 0 <= i < |slices| ==> slices[i].name == ks[i];
    forall c | c in KeysOf(es, CategoryOf)
      ensures c in Names(slices)
    {
      var i :| 0 <= i < |ks| && ks[i] == c;
      assert slices[i] in slices;
    }
  }

  /** The categories that have a slice. */
  function Names(xs: seq<Slice>): set<Category>
  {
    set s | s in xs :: s.name
  }

  /** Sequences with the same elements name the same categories. */
  lemma SameNames(xs: seq<Slice>, ys: seq<Slice>)
    requires forall s :: s in ys <==> s in xs
    ensures Names(xs) == Names(ys)
  {
  }

  /** The slices run from the largest value down, and no category has two slices. */
  lemma ChartOrdered(es: seq<Expense>)
    ensures var d := ChartData(es); forall i, j :: 0 <= i < j < |d| ==> d[i].value >= d[j].value
    ensures DistinctNames(ChartData(es))
  {
    var slices := Slices(es);
    assert TotalPreorder(ByValueDesc);
    SortSorted(slices, ByValueDesc);
    SlicesDistinctNames(es);
    SortDistinct(slices, ByValueDesc);
    ChartHoldsSlices(es);
    DistinctNamesKept(slices, ChartData(es));
  }

  /** No two slices share a category. */
  ghost predicate DistinctNames(s: seq<Slice>)
  {
    forall i, j :: 0 <= i < j < |s| ==> s[i].name != s[j].name
  }

  /** Before sorting, the slices follow the distinct categories one to one. */
  lemma SlicesDistinctNames(es: seq<Expense>)
    ensures DistinctNames(Slices(es)) && Distinct(Slices(es))
  {
    var ks := FirstAppearance(KeysOf(es, CategoryOf));
    var slices := Slices(es);
    assert forall i :: 0 <= i < |slices| ==> slices[i].name == ks[i];
  }

  /** Distinct slices drawn from slices with distinct categories have distinct categories. */
  lemma DistinctNamesKept(xs: seq<Slice>, ys: seq<Slice>)
    requires DistinctNames(xs) && Distinct(ys)
    requires forall s :: s in ys ==> s in xs
    ensures DistinctNames(ys)
  {
    forall i, j | 0 <= i < j < |ys|
      ensures ys[i].name != ys[j].name
    {
      assert ys[i] in xs && ys[j] in xs;
      var a :| 0 <= a < |xs| && xs[a] == ys[i];
      var b :| 0 <= b < |xs| && xs[b] == ys[j];
      assert a != b;
    }
  }

  /** The source's computation: the per-category totals, their sum, the slices and the sort. */
  method ComputeChartData(es: seq<Expense>) returns (data: seq<Slice>)
    ensures data == ChartData(es)
  {
    var entries := CategoryTotalsEntries(es);
    var totalAll := EntriesTotal(entries);
    data := SortBy(ToSlices(entries, totalAll), ByValueDesc);
  }
}
