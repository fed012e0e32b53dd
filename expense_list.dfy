/**
 * The expense list view: the filters (search, category, sentiment, date
 * range), the sort by date, amount or category in either direction, the
 * rule for clicking a column header, the "active filters" flag, the
 * clear-all reset, and the total of the shown rows.
 */
module ExpenseList {
  import opened Types
  import opened Text
  import opened Folds
  import opened Sorting

  datatype SortField = ByDate | ByAmount | ByCategory
  datatype SortDir = Asc | Desc

  // ----- the filters -----

  /** The lower-cased query occurs in the lower-cased description or category name. */
  predicate MatchesSearch(query: string, e: Expense)
  {
    Includes(ToLower(e.description), ToLower(query)) || Includes(ToLower(CategoryName(e.category)), ToLower(query))
  }

  /** Each filter passes everything when it is at its default, and otherwise tests one field. */
  predicate SearchOk(f: Filters, e: Expense)
  {
    f.search == "" || MatchesSearch(f.search, e)
  }

  predicate CategoryOk(f: Filters, e: Expense)
  {
    f.category.AllCategories? || e.category == f.category.category
  }

  predicate SentimentOk(f: Filters, e: Expense)
  {
    f.sentiment.AllSentiments? || e.sentiment == Some(f.sentiment.sentiment)
  }

  predicate FromOk(f: Filters, e: Expense)
  {
    f.startDate == "" || LexLe(f.startDate, e.date)
  }

  predicate UntilOk(f: Filters, e: Expense)
  {
    f.endDate == "" || LexLe(e.date, f.endDate)
  }

  predicate MatchesFilters(f: Filters, e: Expense)
  {
    SearchOk(f, e) && CategoryOk(f, e) && SentimentOk(f, e) && FromOk(f, e) && UntilOk(f, e)
  }

  /** The expenses that pass every filter, in list order. */
  function Passing(es: seq<Expense>, f: Filters): (r: seq<Expense>)
    ensures |r| <= |es|
    ensures forall e :: e in r <==> e in es && MatchesFilters(f, e)
  {
    if es == [] then []
    else Passing(es[..|es| - 1], f) + if MatchesFilters(f, es[|es| - 1]) then [es[|es| - 1]] else []
  }

  /** `Passing` is the one filter by all the conditions together. */
  lemma {:induction false} PassingIsFilter(es: seq<Expense>, f: Filters, p: Expense -> bool)
    requires forall e :: p(e) == MatchesFilters(f, e)
    ensures Passing(es, f) == Filter(es, p)
  {
    if es != [] {
      PassingIsFilter(es[..|es| - 1], f, p);
    }
  }

  /** Every query matches when empty, so the skipped search step loses nothing. */
  lemma EmptySearchMatches(e: Expense)
    ensures MatchesSearch("", e)
  {
    assert OccursAt(ToLower(e.description), ToLower(""), 0);
  }

  /** A sentiment filter drops every unlabeled expense. */
  lemma SentimentFilterDropsUnlabeled(f: Filters, e: Expense)
    requires f.sentiment.OnlySentiment? && e.sentiment.None?
    ensures !MatchesFilters(f, e)
  {
  }

  /** The date bounds are inclusive: an expense dated on a bound passes it. */
  lemma DateBoundsInclusive(f: Filters, e: Expense)
    requires e.date == f.startDate || e.date == f.endDate
    ensures e.date == f.startDate ==> FromOk(f, e)
    ensures e.date == f.endDate ==> UntilOk(f, e)
  {
    LexCmpAntisymmetric(e.date, e.date);
  }

  // ----- the sort -----

  /** The comparison of the chosen column, ascending. */
  function Compare(field: SortField, a: Expense, b: Expense): int
  {
    match field
    case ByDate => LexCmp(a.date, b.date)
    case ByAmount => a.amount - b.amount
    case ByCategory => LexCmp(CategoryName(a.category), CategoryName(b.category))
  }

  /** The comparator handed to `sort`: the column's comparison, negated for "desc". */
  function Comparator(field: SortField, dir: SortDir): (Expense, Expense) -> int
  {
    (a, b) => if dir == Asc then Compare(field, a, b) else -Compare(field, a, b)
  }

  lemma CompareAntisymmetric(field: SortField, a: Expense, b: Expense)
    ensures Compare(field, a, b) == -Compare(field, b, a)
  {
    LexCmpAntisymmetric(a.date, b.date);
    LexCmpAntisymmetric(CategoryName(a.category), CategoryName(b.category));
  }

  lemma CompareTransitive(field: SortField, a: Expense, b: Expense, c: Expense)
    requires Compare(field, a, b) <= 0 && Compare(field, b, c) <= 0
    ensures Compare(field, a, c) <= 0
  {
    match field
    case ByDate => LexCmpTransitive(a.date, b.date, c.date);
    case ByAmount =>
    case ByCategory => LexCmpTransitive(CategoryName(a.category), CategoryName(b.category), CategoryName(c.category));
  }

  /** Every column comparator, in either direction, is a total preorder, as `sort` requires. */
  lemma ComparatorPreorder(field: SortField, dir: SortDir)
    ensures TotalPreorder(Comparator(field, dir))
  {
    var cmp := Comparator(field, dir);
    forall a, b ensures cmp(a, b) <= 0 || cmp(b, a) <= 0 {
      CompareAntisymmetric(field, a, b);
    }
    forall a, b, c | cmp(a, b) <= 0 && cmp(b, c) <= 0 ensures cmp(a, c) <= 0 {
      if dir == Asc {
        CompareTransitive(field, a, b, c);
      } else {
        CompareAntisymmetric(field, a, b);
        CompareAntisymmetric(field, b, c);
        CompareAntisymmetric(field, a, c);
        CompareTransitive(field, c, b, a);
      }
    }
  }

  /** The list as shown: the passing expenses, stably sorted by the chosen column and direction. */
  function Shown(es: seq<Expense>, f: Filters, field: SortField, dir: SortDir): seq<Expense>
  {
    SortBy(Passing(es, f), Comparator(field, dir))
  }

  /**
   * The shown list is exactly the expenses that pass every filter, each as
   * often as in the source list, ordered by the column: ascending for "asc",
   * descending for "desc".
   */
  lemma ShownSpec(es: seq<Expense>, f: Filters, field: SortField, dir: SortDir)
    ensures multiset(Shown(es, f, field, dir)) == multiset(Passing(es, f))
    ensures forall e :: e in Shown(es, f, field, dir) <==> e in es && MatchesFilters(f, e)
    ensures var r := Shown(es, f, field, dir);
            forall i, j :: 0 <= i < j < |r| ==>
              if dir == Asc then Compare(field, r[i], r[j]) <= 0 else Compare(field, r[i], r[j]) >= 0
  {
    var r := Shown(es, f, field, dir);
    ComparatorPreorder(field, dir);
    SortSorted(Passing(es, f), Comparator(field, dir));
    forall e ensures e in r <==> e in Passing(es, f) {
      assert e in r <==> e in multiset(r);
    }
  }

  /** `filteredTotal` is the total of the passing expenses, whatever the order, and at most the overall total. */
  lemma ShownTotal(es: seq<Expense>, f: Filters, field: SortField, dir: SortDir)
    ensures SumAmounts(Shown(es, f, field, dir)) == SumAmounts(Passing(es, f)) <= SumAmounts(es)
  {
    SumPermutation(Shown(es, f, field, dir), Passing(es, f));
    var p := e => MatchesFilters(f, e);
    PassingIsFilter(es, f, p);
    FilterSumBelow(es, p);
  }

  // ----- the sort-toggle rule and the active-filter flag -----

  /** Clicking a column header: the same column flips direction, another column starts at "desc". */
  function Toggle(field: SortField, dir: SortDir, clicked: SortField): (r: (SortField, SortDir))
    ensures r.0 == clicked
  {
    if field == clicked then (field, if dir == Asc then Desc else Asc) else (clicked, Desc)
  }

  /** Clicking the current column twice restores the direction; a new column shows "desc" first. */
  lemma ToggleSpec(field: SortField, dir: SortDir, clicked: SortField)
    ensures field == clicked ==> Toggle(field, dir, clicked).1 != dir
    ensures field == clicked ==> Toggle(clicked, Toggle(field, dir, clicked).1, clicked) == (field, dir)
    ensures field != clicked ==> Toggle(field, dir, clicked).1 == Desc
  {
  }

  const DefaultFilters: Filters := Filters("", AllCategories, AllSentiments, "", "")

  predicate HasActiveFilters(f: Filters)
  {
    f.search != "" || f.category != AllCategories || f.sentiment != AllSentiments || f.startDate != "" || f.endDate != ""
  }

  /** Filters are active exactly when they differ from the defaults, and the defaults pass every expense. */
  lemma ActiveIffNotDefault(f: Filters, e: Expense)
    ensures !HasActiveFilters(f) <==> f == DefaultFilters
    ensures MatchesFilters(DefaultFilters, e)
  {
  }

  /** The state of the list view. */
  class ListView {
    var filters: Filters
    var sortField: SortField
    var sortDir: SortDir

    /** A fresh view: no filters, newest date first. */
    constructor()
      ensures filters == DefaultFilters && sortField == ByDate && sortDir == Desc
    {
      filters := DefaultFilters;
      sortField := ByDate;
      sortDir := Desc;
    }

    /** `toggleSort`. */
    method ToggleSort(clicked: SortField)
      modifies this
      ensures (sortField, sortDir) == Toggle(old(sortField), old(sortDir), clicked)
      ensures filters == old(filters)
    {
      if sortField == clicked {
        sortDir := if sortDir == Asc then Desc else Asc;
      } else {
        sortField := clicked;
        sortDir := Desc;
      }
    }

    /** "Clear all": every filter back to its default; the sort is kept. */
    method ClearAll()
      modifies this
      ensures filters == DefaultFilters && !HasActiveFilters(filters)
      ensures sortField == old(sortField) && sortDir == old(sortDir)
    {
      filters := DefaultFilters;
    }

    /** One field of the filters, changed by its input; the others are kept. */
    method SetFilters(f: Filters)
      modifies this
      ensures filters == f && sortField == old(sortField) && sortDir == old(sortDir)
    {
      filters := f;
    }

    /**
     * The `filtered` computation: a copy of the list narrowed by each active
     * filter in turn, then sorted.
     */
    method Filtered(expenses: seq<Expense>) returns (result: seq<Expense>)
      ensures result == Shown(expenses, filters, sortField, sortDir)
    {
      var f := filters;
      result := expenses;
      ghost var passed: Expense -> bool := (e: Expense) => true;
      FilterAll(expenses, passed);
      if f.search != "" {
        var q := ToLower(f.search);
        var keep: Expense -> bool := (e: Expense) => Includes(ToLower(e.description), q) || Includes(ToLower(CategoryName(e.category)), q);
        ghost var next: Expense -> bool := (e: Expense) => passed(e) && keep(e);
        FilterTwice(expenses, passed, keep, next);
        result := Filter(result, keep);
        passed := next;
      }
      assert forall e :: passed(e) == SearchOk(f, e);
      if f.category != AllCategories {
        var c := f.category.category;
        var keep: Expense -> bool := (e: Expense) => e.category == c;
        ghost var next: Expense -> bool := (e: Expense) => passed(e) && keep(e);
        FilterTwice(expenses, passed, keep, next);
        result := Filter(result, keep);
        passed := next;
      }
      assert forall e :: passed(e) == (SearchOk(f, e) && CategoryOk(f, e));
      if f.sentiment != AllSentiments {
        var s := f.sentiment.sentiment;
        var keep: Expense -> bool := (e: Expense) => e.sentiment == Some(s);
        ghost var next: Expense -> bool := (e: Expense) => passed(e) && keep(e);
        FilterTwice(expenses, passed, keep, next);
        result := Filter(result, keep);
        passed := next;
      }
      assert forall e :: passed(e) == (SearchOk(f, e) && CategoryOk(f, e) && SentimentOk(f, e));
      if f.startDate != "" {
        var start := f.startDate;
        var keep: Expense -> bool := (e: Expense) => LexLe(start, e.date);
        ghost var next: Expense -> bool := (e: Expense) => passed(e) && keep(e);
        FilterTwice(expenses, passed, keep, next);
        result := Filter(result, keep);
        passed := next;
      }
      assert forall e :: passed(e) == (SearchOk(f, e) && CategoryOk(f, e) && SentimentOk(f, e) && FromOk(f, e));
      if f.endDate != "" {
        var end := f.endDate;
        var keep: Expense -> bool := (e: Expense) => LexLe(e.date, end);
        ghost var next: Expense -> bool := (e: Expense) => passed(e) && keep(e);
        FilterTwice(expenses, passed, keep, next);
        result := Filter(result, keep);
        passed := next;
      }
      assert forall e :: passed(e) == MatchesFilters(f, e);
      PassingIsFilter(expenses, f, passed);
      result := SortBy(result, Comparator(sortField, sortDir));
    }

    /** `filteredTotal`: the sum over the shown rows. */
    method FilteredTotal(expenses: seq<Expense>) returns (total: nat)
      ensures total == SumAmounts(Passing(expenses, filters))
    {
      var shown := Filtered(expenses);
      ShownTotal(expenses, filters, sortField, sortDir);
      total := SumAmounts(shown);
    }
  }
}
