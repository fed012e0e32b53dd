/**
 * The export dialog: which fields to export (toggled one at a time, or all
 * or none at once), an optional inclusive date range, the count of expenses
 * the range admits, and the guard in front of the export itself.
 *
 * The export fields and the exporter belong to an export-options module
 * that is not part of this model, so the field type is a type parameter,
 * the full field list is given to the constructor, and an export is
 * returned as the request the exporter would receive.
 */
module ExportModal {
  import opened Types
  import opened Text
  import opened Folds
  import ExpenseList

  // ----- the selected fields -----

  /** `toggleField`: a selected field is removed, keeping the others in order; an unselected one is appended. */
  function Toggled<F(==,!new)>(fields: seq<F>, f: F): seq<F>
  {
    if f in fields then Filter(fields, g => g != f) else fields + [f]
  }

  /** Toggling flips the clicked field's membership and leaves every other field's as it was. */
  lemma ToggledSpec<F(!new)>(fields: seq<F>, f: F)
    ensures f in Toggled(fields, f) <==> f !in fields
    ensures forall g :: g != f ==> (g in Toggled(fields, f) <==> g in fields)
    ensures f !in fields ==> Toggled(fields, f) == fields + [f]
  {
    if f in fields {
      FilterSpec(fields, g => g != f);
    }
  }

  /** Toggling the same field twice restores the selection as a set. */
  lemma ToggleTwice<F(!new)>(fields: seq<F>, f: F)
    ensures forall g :: g in Toggled(Toggled(fields, f), f) <==> g in fields
  {
    ToggledSpec(fields, f);
    ToggledSpec(Toggled(fields, f), f);
  }

  /** Filtering a list without repeats leaves a list without repeats. */
  lemma {:induction false} FilterKeepsDistinct<F(!new)>(s: seq<F>, p: F -> bool)
    requires Distinct(s)
    ensures Distinct(Filter(s, p))
  {
    if s != [] {
      var init, x := s[..|s| - 1], s[|s| - 1];
      assert Distinct(init);
      FilterKeepsDistinct(init, p);
      FilterSpec(init, p);
      assert x !in init;
    }
  }

  /** A selection without repeats has none after a toggle either. */
  lemma ToggledDistinct<F(!new)>(fields: seq<F>, f: F)
    requires Distinct(fields)
    ensures Distinct(Toggled(fields, f))
  {
    if f in fields {
      FilterKeepsDistinct(fields, g => g != f);
    }
  }

  // ----- the date range -----

  /** `e.date >= startDate` and `e.date <= endDate`, each skipped when its bound is empty. */
  predicate InRange(start: string, end: string, e: Expense)
  {
    (start == "" || LexLe(start, e.date)) && (end == "" || LexLe(e.date, end))
  }

  /** The number of expenses the range admits. */
  function CountInRange(es: seq<Expense>, start: string, end: string): (n: nat)
    ensures n <= |es|
  {
    if es == [] then 0
    else CountInRange(es[..|es| - 1], start, end) + if InRange(start, end, es[|es| - 1]) then 1 else 0
  }

  /** The count is the length of the filtered list. */
  lemma {:induction false} CountIsFilterLength(es: seq<Expense>, start: string, end: string, p: Expense -> bool)
    requires forall e :: p(e) == InRange(start, end, e)
    ensures CountInRange(es, start, end) == |Filter(es, p)|
  {
    if es != [] {
      CountIsFilterLength(es[..|es| - 1], start, end, p);
    }
  }

  /** With no bounds every expense counts; a bound is inclusive. */
  lemma {:induction false} CountInRangeSpec(es: seq<Expense>, start: string, end: string)
    ensures start == "" && end == "" ==> CountInRange(es, start, end) == |es|
    ensures CountInRange(es, start, end) == 0 <==> forall i :: 0 <= i < |es| ==> !InRange(start, end, es[i])
  {
    if es != [] {
      var init := es[..|es| - 1];
      CountInRangeSpec(init, start, end);
      assert forall i :: 0 <= i < |init| ==> init[i] == es[i];
    }
  }

  /** The dialog's range test is the expense list's date-range filter. */
  lemma SameRangeAsList(f: Filters, e: Expense)
    ensures InRange(f.startDate, f.endDate, e) == (ExpenseList.FromOk(f, e) && ExpenseList.UntilOk(f, e))
  {
  }

  // ----- the dialog -----

  datatype Format = Csv | Json

  /** What `exportExpenses` receives: an empty date becomes an absent option. */
  datatype ExportRequest<F> = ExportRequest(format: Format, fields: seq<F>, startDate: Option<string>, endDate: Option<string>, includeSummary: bool)

  function OrAbsent(s: string): (r: Option<string>)
    ensures r == None <==> s == ""
    ensures r.Some? ==> r.value == s
  {
    if s == "" then None else Some(s)
  }

  class ExportDialog<F(==,!new)> {
    const allFields: seq<F>
    var format: Format
    var fields: seq<F>
    var startDate: string
    var endDate: string
    var includeSummary: bool

    /** CSV, every field in canonical order, no range, no summary. */
    constructor(allFields: seq<F>)
      ensures this.allFields == allFields
      ensures format == Csv && fields == allFields && startDate == "" && endDate == "" && !includeSummary
    {
      this.allFields := allFields;
      format, fields, startDate, endDate, includeSummary := Csv, allFields, "", "", false;
    }

    method ToggleField(f: F)
      modifies this
      ensures fields == Toggled(old(fields), f)
      ensures format == old(format) && startDate == old(startDate) && endDate == old(endDate) && includeSummary == old(includeSummary)
    {
      if f in fields {
        fields := Filter(fields, g => g != f);
      } else {
        fields := fields + [f];
      }
    }

    method SelectAllFields()
      modifies this
      ensures fields == allFields
      ensures format == old(format) && startDate == old(startDate) && endDate == old(endDate) && includeSummary == old(includeSummary)
    {
      fields := allFields;
    }

    method DeselectAllFields()
      modifies this
      ensures fields == []
      ensures format == old(format) && startDate == old(startDate) && endDate == old(endDate) && includeSummary == old(includeSummary)
    {
      fields := [];
    }

    method SetRange(start: string, end: string)
      modifies this
      ensures startDate == start && endDate == end
      ensures format == old(format) && fields == old(fields) && includeSummary == old(includeSummary)
    {
      startDate, endDate := start, end;
    }

    /** `filteredCount`: the list narrowed by each non-empty bound in turn, then its length. */
    method FilteredCount(expenses: seq<Expense>) returns (n: nat)
      ensures n == CountInRange(expenses, startDate, endDate)
    {
      var start, end := startDate, endDate;
      var result := expenses;
      ghost var kept: Expense -> bool := (e: Expense) => InRange("", "", e);
      FilterAll(expenses, kept);
      if start != "" {
        var keep: Expense -> bool := (e: Expense) => LexLe(start, e.date);
        ghost var next: Expense -> bool := (e: Expense) => InRange(start, "", e);
        FilterTwice(expenses, kept, keep, next);
        result, kept := Filter(result, keep), next;
      } else {
        ghost var next: Expense -> bool := (e: Expense) => InRange(start, "", e);
        FilterExt(expenses, kept, next);
        kept := next;
      }
      if end != "" {
        var keep: Expense -> bool := (e: Expense) => LexLe(e.date, end);
        ghost var next: Expense -> bool := (e: Expense) => InRange(start, end, e);
        FilterTwice(expenses, kept, keep, next);
        result, kept := Filter(result, keep), next;
      } else {
        ghost var next: Expense -> bool := (e: Expense) => InRange(start, end, e);
        FilterExt(expenses, kept, next);
        kept := next;
      }
      CountIsFilterLength(expenses, start, end, kept);
      n := |result|;
    }

    /**
     * Whether the export button is enabled: some field is selected and some
     * expense is in range, so an enabled button always leads to an export.
     */
    method ButtonEnabled(expenses: seq<Expense>) returns (enabled: bool)
      ensures enabled <==> fields != [] && CountInRange(expenses, startDate, endDate) > 0
    {
      var count := FilteredCount(expenses);
      enabled := !(|fields| == 0 || count == 0);
    }

    /**
     * `handleExport`: nothing happens without a selected field; otherwise
     * the exporter is called with the dialog's choices.
     */
    method Export() returns (request: Option<ExportRequest<F>>)
      ensures fields == [] ==> request == None
      ensures fields != [] ==> request == Some(ExportRequest(format, fields, OrAbsent(startDate), OrAbsent(endDate), includeSummary))
    {
      if |fields| == 0 {
        return None;
      }
      request := Some(ExportRequest(format, fields, if startDate == "" then None else Some(startDate),
                                    if endDate == "" then None else Some(endDate), includeSummary));
    }
  }
}
