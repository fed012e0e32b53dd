/**
 * The expense store: the one collection of expenses the whole app shares,
 * the four operations that replace it (add prepends, update maps, delete
 * filters) and the dashboard aggregates derived from it.
 *
 * Fresh ids and creation times, and the current year and month, are
 * parameters; loading from and saving to browser storage are not modelled.
 */
module ExpenseContext {
  import opened Types
  import opened Text
  import opened Folds
  import opened Sorting
  import opened Formatters

  // ----- the collection operations, as functions of the old list -----

  /** `prev.map(e => e.id === id ? { ...e, ...data } : e)`. */
  function UpdateById(es: seq<Expense>, id: string, data: ExpenseData): (r: seq<Expense>)
    ensures |r| == |es|
    ensures forall i :: 0 <= i < |es| && es[i].id == id ==>
              DataOf(r[i]) == data && r[i].id == id && r[i].createdAt == es[i].createdAt
    ensures forall i :: 0 <= i < |es| && es[i].id != id ==> r[i] == es[i]
    ensures (forall i :: 0 <= i < |es| ==> es[i].id != id) ==> r == es
  {
    if es == [] then []
    else
      var e := es[|es| - 1];
      UpdateById(es[..|es| - 1], id, data) + [if e.id == id then WithIdentity(data, e.id, e.createdAt) else e]
  }

  function IdOf(e: Expense): string
  {
    e.id
  }

  /** An update never changes which ids the list holds, nor where they are. */
  lemma UpdateKeepsIds(es: seq<Expense>, id: string, data: ExpenseData)
    ensures KeysOf(UpdateById(es, id, data), IdOf) == KeysOf(es, IdOf)
  {
  }

  predicate HasOtherId(id: string, e: Expense)
  {
    e.id != id
  }

  /** `prev.filter(e => e.id !== id)`. */
  function RemoveById(es: seq<Expense>, id: string): (r: seq<Expense>)
    ensures forall e :: e in r <==> e in es && e.id != id
    ensures (forall i :: 0 <= i < |es| ==> es[i].id != id) ==> r == es
  {
    var keep := e => HasOtherId(id, e);
    FilterSpec(es, keep);
    if forall i :: 0 <= i < |es| ==> es[i].id != id then
      FilterAll(es, keep);
      Filter(es, keep)
    else Filter(es, keep)
  }

  /** Deleting keeps the survivors in their order: deleting from a concatenation deletes from each part. */
  lemma RemoveKeepsOrder(a: seq<Expense>, b: seq<Expense>, id: string)
    ensures RemoveById(a + b, id) == RemoveById(a, id) + RemoveById(b, id)
  {
    FilterAppend(a, b, e => HasOtherId(id, e));
  }

  /** Deleting removes exactly the amounts and the records with that id. */
  lemma RemoveAccounts(es: seq<Expense>, id: string)
    ensures SumAmounts(RemoveById(es, id)) + KeyTotal(es, IdOf, id) == SumAmounts(es)
    ensures |RemoveById(es, id)| + KeyCount(es, IdOf, id) == |es|
  {
    var keep := e => HasOtherId(id, e);
    var drop := e => !HasOtherId(id, e);
    FilterSplitSum(es, keep, drop);
    KeyTotalIsFilteredSum(es, IdOf, id, drop);
  }

  /** `expenses.find(e => e.id === id)`: the first record with that id, if any. */
  function FindById(es: seq<Expense>, id: string): (r: Option<Expense>)
    ensures r.None? <==> forall i :: 0 <= i < |es| ==> es[i].id != id
    ensures r.Some? ==> exists i :: 0 <= i < |es| && es[i] == r.value && r.value.id == id
                                    && forall j :: 0 <= j < i ==> es[j].id != id
  {
    if es == [] then None
    else if es[0].id == id then Some(es[0])
    else
      var r := FindById(es[1..], id);
      assert forall j :: 1 <= j < |es| ==> es[j] == es[1..][j - 1];
      r
  }

  /** The shared expense collection, held in one state cell. */
  class ExpenseStore {
    var expenses: seq<Expense>

    /** The store starts from the list loaded from storage (empty when nothing was saved). */
    constructor (saved: seq<Expense>)
      ensures expenses == saved
    {
      expenses := saved;
    }

    /** `addExpense`: prepends the new record; the old records follow, unchanged and in order. */
    method AddExpense(data: ExpenseData, id: string, createdAt: string)
      modifies this
      ensures expenses == [WithIdentity(data, id, createdAt)] + old(expenses)
      ensures |expenses| == |old(expenses)| + 1 && expenses[1..] == old(expenses)
      ensures DataOf(expenses[0]) == data && expenses[0].id == id && expenses[0].createdAt == createdAt
      ensures SumAmounts(expenses) == SumAmounts(old(expenses)) + data.amount
    {
      var e := WithIdentity(data, id, createdAt);
      SumAppend([e], expenses);
      assert SumAmounts([e]) == e.amount by { assert [e][..0] == []; }
      expenses := [e] + expenses;
    }

    /** `updateExpense`: overwrites the editable fields of every record with that id. */
    method UpdateExpense(id: string, data: ExpenseData)
      modifies this
      ensures expenses == UpdateById(old(expenses), id, data)
    {
      expenses := UpdateById(expenses, id, data);
    }

    /** `deleteExpense`: drops every record with that id. */
    method DeleteExpense(id: string)
      modifies this
      ensures expenses == RemoveById(old(expenses), id)
    {
      expenses := RemoveById(expenses, id);
    }

    /** `getExpenseById`. */
    function GetExpenseById(id: string): Option<Expense>
      reads this
    {
      FindById(expenses, id)
    }
  }

  // ----- dashboard aggregates -----

  predicate InMonth(key: string, e: Expense)
  {
    StartsWith(e.date, key)
  }

  function DateMonthKey(e: Expense): string
  {
    GetMonthKey(e.date)
  }

  /** `monthlySpent`: the amounts of the expenses whose date starts with the current month's key. */
  function MonthlySpent(es: seq<Expense>, year: nat, month: nat): nat
    requires 1 <= month <= 12
  {
    var key := MonthKey(year, month);
    SumAmounts(Filter(es, e => InMonth(key, e)))
  }

  /**
   * The month's spending is the per-month-key total of the current key, the
   * figure the spending chart shows for its last bar; it never exceeds the
   * total.
   */
  lemma MonthlySpentIsMonthTotal(es: seq<Expense>, year: nat, month: nat)
    requires 1000 <= year <= 9999 && 1 <= month <= 12
    ensures MonthlySpent(es, year, month) == KeyTotal(es, DateMonthKey, MonthKey(year, month))
    ensures MonthlySpent(es, year, month) <= SumAmounts(es)
  {
    var key := MonthKey(year, month);
    MonthKeyWellFormed(year, month);
    forall e: Expense ensures InMonth(key, e) == (DateMonthKey(e) == key) {
      StartsWithIffMonthKey(e.date, key);
    }
    KeyTotalIsFilteredSum(es, DateMonthKey, key, e => InMonth(key, e));
    FilterSumBelow(es, e => InMonth(key, e));
  }

  function CategoryOf(e: Expense): Category
  {
    e.category
  }

  /** `Object.entries(categoryTotals)`: each category that occurs with its total, in first-appearance order. */
  function EntriesOf(ks: seq<Category>, es: seq<Expense>): (r: seq<(Category, nat)>)
    ensures |r| == |ks|
    ensures forall i :: 0 <= i < |ks| ==> r[i] == (ks[i], KeyTotal(es, CategoryOf, ks[i]))
  {
    if ks == [] then [] else [(ks[0], KeyTotal(es, CategoryOf, ks[0]))] + EntriesOf(ks[1..], es)
  }

  function CategoryEntries(es: seq<Expense>): seq<(Category, nat)>
  {
    EntriesOf(FirstAppearance(KeysOf(es, CategoryOf)), es)
  }

  /** The comparator `([, a], [, b]) => b - a`: larger totals first. */
  function ByTotalDesc(a: (Category, nat), b: (Category, nat)): int
  {
    b.1 - a.1
  }

  lemma ByTotalDescPreorder()
    ensures TotalPreorder(ByTotalDesc)
  {
  }

  /** `topCategory`: the first entry after a stable descending sort, or null. */
  function TopCategory(es: seq<Expense>): Option<Category>
  {
    var entries := CategoryEntries(es);
    if entries == [] then None else Some(SortBy(entries, ByTotalDesc)[0].0)
  }

  /**
   * Where the top category sits in first-appearance order, as the stable
   * sort chooses it: its total is the largest, and every category before it
   * has a strictly smaller total.
   */
  lemma {:induction false} TopEntry(es: seq<Expense>) returns (i: nat)
    requires es != []
    ensures i < |FirstAppearance(KeysOf(es, CategoryOf))|
    ensures TopCategory(es) == Some(FirstAppearance(KeysOf(es, CategoryOf))[i])
    ensures forall j :: 0 <= j < |FirstAppearance(KeysOf(es, CategoryOf))| ==>
              KeyTotal(es, CategoryOf, FirstAppearance(KeysOf(es, CategoryOf))[j])
              <= KeyTotal(es, CategoryOf, FirstAppearance(KeysOf(es, CategoryOf))[i])
    ensures forall j :: 0 <= j < i ==>
              KeyTotal(es, CategoryOf, FirstAppearance(KeysOf(es, CategoryOf))[j])
              < KeyTotal(es, CategoryOf, FirstAppearance(KeysOf(es, CategoryOf))[i])
  {
    var order := FirstAppearance(KeysOf(es, CategoryOf));
    var entries := CategoryEntries(es);
    assert KeysOf(es, CategoryOf)[0] in order;
    i := TopOfEntries(entries);
    assert forall j :: 0 <= j < |order| ==> entries[j] == (order[j], KeyTotal(es, CategoryOf, order[j]));
  }

  /** The stable descending sort puts first the earliest entry with the largest total. */
  lemma TopOfEntries(entries: seq<(Category, nat)>) returns (i: nat)
    requires entries != []
    ensures i < |entries| && SortBy(entries, ByTotalDesc)[0] == entries[i]
    ensures forall j :: 0 <= j < |entries| ==> entries[j].1 <= entries[i].1
    ensures forall j :: 0 <= j < i ==> entries[j].1 < entries[i].1
  {
    ByTotalDescPreorder();
    SortHead(entries, ByTotalDesc);
    i :| 0 <= i < |entries| && SortBy(entries, ByTotalDesc)[0] == entries[i]
         && Minimal(entries, ByTotalDesc, entries[i])
         && forall j :: 0 <= j < i ==> !Minimal(entries, ByTotalDesc, entries[j]);
    forall j | 0 <= j < |entries|
      ensures entries[j].1 <= entries[i].1
    {
      assert ByTotalDesc(entries[i], entries[j]) <= 0;
    }
    forall j | 0 <= j < i
      ensures entries[j].1 < entries[i].1
    {
      assert !Minimal(entries, ByTotalDesc, entries[j]);
      var m :| 0 <= m < |entries| && ByTotalDesc(entries[j], entries[m]) > 0;
      assert ByTotalDesc(entries[i], entries[m]) <= 0;
    }
  }

  /** There is a top category exactly when there are expenses, and it is the category of one of them. */
  lemma TopCategoryExists(es: seq<Expense>)
    ensures TopCategory(es).None? <==> es == []
    ensures TopCategory(es).Some? ==> exists i :: 0 <= i < |es| && es[i].category == TopCategory(es).value
  {
    if es != [] {
      var i := TopEntry(es);
      var c := FirstAppearance(KeysOf(es, CategoryOf))[i];
      assert c in KeysOf(es, CategoryOf);
    }
  }

  /** The top category's total is at least every category's total. */
  lemma TopCategoryIsMax(es: seq<Expense>, d: Category)
    requires TopCategory(es).Some?
    ensures KeyTotal(es, CategoryOf, d) <= KeyTotal(es, CategoryOf, TopCategory(es).value)
  {
    var order := FirstAppearance(KeysOf(es, CategoryOf));
    var i := TopEntry(es);
    var top := TopCategory(es).value;
    assert top == order[i];
    if d in order {
      var j :| 0 <= j < |order| && order[j] == d;
      assert KeyTotal(es, CategoryOf, order[j]) <= KeyTotal(es, CategoryOf, order[i]);
    } else {
      KeyTotalAbsent(es, CategoryOf, d);
    }
  }

  /**
   * Ties go to insertion order: another category with the same total has
   * its first expense later in the list than the top category's first one.
   */
  lemma TopCategoryTieBreak(es: seq<Expense>, d: Category)
    requires TopCategory(es).Some?
    requires d in KeysOf(es, CategoryOf) && d != TopCategory(es).value
    requires KeyTotal(es, CategoryOf, d) == KeyTotal(es, CategoryOf, TopCategory(es).value)
    ensures TopCategory(es).value in KeysOf(es, CategoryOf)
    ensures FirstIndex(KeysOf(es, CategoryOf), TopCategory(es).value) < FirstIndex(KeysOf(es, CategoryOf), d)
  {
    var ks := KeysOf(es, CategoryOf);
    var order := FirstAppearance(ks);
    var i := TopEntry(es);
    var j :| 0 <= j < |order| && order[j] == d;
    assert i < j;
    FirstAppearanceOrder(ks, i, j);
  }

  /**
   * The accumulating `reduce` of amounts into a dictionary keyed by
   * category, read back with `Object.entries`.
   */
  method CategoryTotalsEntries(es: seq<Expense>) returns (entries: seq<(Category, nat)>)
    ensures entries == CategoryEntries(es)
  {
    var order, totals := GroupTotals(es, CategoryOf);
    entries := [];
    for i := 0 to |order|
      invariant |entries| == i
      invariant forall j :: 0 <= j < i ==> entries[j] == (order[j], KeyTotal(es, CategoryOf, order[j]))
    {
      entries := entries + [(order[i], totals[order[i]])];
    }
  }

  /** The source's computation: the category entries, a stable descending sort, and the first entry's key. */
  method ComputeTopCategory(es: seq<Expense>) returns (top: Option<Category>)
    ensures top == TopCategory(es)
  {
    var entries := CategoryTotalsEntries(es);
    if entries == [] {
      top := None;
    } else {
      top := Some(SortBy(entries, ByTotalDesc)[0].0);
    }
  }

  function DateOf(e: Expense): string
  {
    e.date
  }

  /** `avg` is the mean of `count` values adding up to `total`. */
  predicate IsMean(avg: real, total: nat, count: nat)
  {
    avg * count as real == total as real
  }

  /** `count > 0 ? total / count : 0`, exactly. */
  function Average(total: nat, count: nat): (r: real)
    ensures count == 0 ==> r == 0.0
    ensures count > 0 ==> IsMean(r, total, count) && 0.0 <= r <= total as real
  {
    if count > 0 then
      DivBounds(total as real, count as real, total as real / count as real);
      total as real / count as real
    else 0.0
  }

  /** Dividing by more gives less. */
  lemma AverageAntitone(total: nat, c1: nat, c2: nat)
    requires 0 < c1 <= c2
    ensures Average(total, c2) <= Average(total, c1)
  {
    DivAntitone(total as real, c1 as real, c2 as real);
  }

  lemma DivBounds(t: real, d: real, avg: real)
    requires 0.0 <= t && 1.0 <= d && avg == t / d
    ensures 0.0 <= avg <= t
    ensures avg * d == t
  {
  }

  lemma DivAntitone(t: real, d1: real, d2: real)
    requires 0.0 <= t && 0.0 < d1 <= d2
    ensures t / d2 <= t / d1
  {
  }

  /** `dailyAverage`: the total over the number of distinct dates, or 0 without expenses. */
  function DailyAverage(es: seq<Expense>): real
  {
    Average(SumAmounts(es), CountDistinct(KeysOf(es, DateOf)))
  }

  /**
   * Without expenses the average is 0; otherwise it is the mean over the
   * distinct dates (the size of the set of dates), and it lies between the
   * mean amount per expense and the total.
   */
  lemma DailyAverageSpec(es: seq<Expense>)
    ensures CountDistinct(KeysOf(es, DateOf)) == |set d | d in KeysOf(es, DateOf)|
    ensures es == [] ==> DailyAverage(es) == 0.0
    ensures es != [] ==>
              && IsMean(DailyAverage(es), SumAmounts(es), CountDistinct(KeysOf(es, DateOf)))
              && Average(SumAmounts(es), |es|) <= DailyAverage(es) <= SumAmounts(es) as real
  {
    var ks := KeysOf(es, DateOf);
    CountDistinctIsSetSize(ks);
    if es != [] {
      assert ks != [];
      AverageAntitone(SumAmounts(es), CountDistinct(ks), |es|);
    }
  }
}
