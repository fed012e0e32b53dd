/**
 * The "Monthly Spending" chart: the six months ending with the current one,
 * oldest first, each with the total of the expenses dated in it; the last
 * bar is marked as the current month.
 *
 * The current year and month are parameters. The Date constructor's mapping
 * of years 0 to 99 onto 1900 to 1999 is outside the model: the year is at
 * least 100.
 */
module SpendingChart {
  import opened Types
  import opened Folds
  import opened Formatters
  import opened ExpenseContext

  /** Months counted from January of year 0. */
  function MonthIndex(year: nat, month: nat): nat
    requires 1 <= month <= 12
  {
    year * 12 + month - 1
  }

  /**
   * `new Date(year, month - 1 - back, 1)`: the year and 1-based month
   * `back` months earlier, stepping into earlier years as needed.
   */
  function MonthsBack(year: nat, month: nat, back: nat): (r: (nat, nat))
    requires 1 <= month <= 12 && back <= MonthIndex(year, month)
    ensures 1 <= r.1 <= 12 && MonthIndex(r.0, r.1) + back == MonthIndex(year, month)
  {
    var t := MonthIndex(year, month) - back;
    (t / 12, t % 12 + 1)
  }

  /** Within a year's reach, going back crosses into the previous year exactly when `back` reaches the month. */
  lemma MonthsBackRollover(year: nat, month: nat, back: nat)
    requires 1 <= year && 1 <= month <= 12 && back < 12
    ensures MonthsBack(year, month, back) == if back < month then (year, month - back) else (year - 1, month + 12 - back)
  {
    var r := MonthsBack(year, month, back);
    if back < month {
      assert MonthIndex(year, month - back) + back == MonthIndex(year, month);
    } else {
      assert MonthIndex(year - 1, month + 12 - back) + back == MonthIndex(year, month);
    }
    MonthIndexInjective(r.0, r.1, if back < month then year else year - 1, if back < month then month - back else month + 12 - back);
  }

  lemma MonthIndexInjective(y1: nat, m1: nat, y2: nat, m2: nat)
    requires 1 <= m1 <= 12 && 1 <= m2 <= 12 && MonthIndex(y1, m1) == MonthIndex(y2, m2)
    ensures y1 == y2 && m1 == m2
  {
    assert y1 * 12 <= MonthIndex(y1, m1) < y1 * 12 + 12;
    assert y2 * 12 <= MonthIndex(y2, m2) < y2 * 12 + 12;
  }

  /** The year and month of the `j`-th bar, counting from the oldest. */
  function WindowMonth(year: nat, month: nat, j: nat): (r: (nat, nat))
    requires 100 <= year && 1 <= month <= 12 && j < 6
    ensures 1 <= r.1 <= 12
  {
    MonthsBack(year, month, 5 - j)
  }

  /** The key of the `j`-th bar. */
  function WindowKey(year: nat, month: nat, j: nat): string
    requires 100 <= year && 1 <= month <= 12 && j < 6
  {
    var d := WindowMonth(year, month, j);
    MonthKey(d.0, d.1)
  }

  /** The six month keys, oldest first. */
  function Window(year: nat, month: nat): (w: seq<string>)
    requires 100 <= year && 1 <= month <= 12
    ensures |w| == 6 && forall j :: 0 <= j < 6 ==> w[j] == WindowKey(year, month, j)
  {
    seq(6, j requires 0 <= j < 6 => WindowKey(year, month, j))
  }

  /**
   * The window is six consecutive months in order, ending with the current
   * month, with six different keys.
   */
  lemma WindowSpec(year: nat, month: nat)
    requires 100 <= year && 1 <= month <= 12
    ensures Window(year, month)[5] == MonthKey(year, month)
    ensures forall j :: 0 <= j < 5 ==>
              MonthIndex(WindowMonth(year, month, j).0, WindowMonth(year, month, j).1) + 1
              == MonthIndex(WindowMonth(year, month, j + 1).0, WindowMonth(year, month, j + 1).1)
    ensures Distinct(Window(year, month))
  {
    var w := Window(year, month);
    MonthIndexInjective(MonthsBack(year, month, 0).0, MonthsBack(year, month, 0).1, year, month);
    forall i, j | 0 <= i < j < 6
      ensures w[i] != w[j]
    {
      var a, b := WindowMonth(year, month, i), WindowMonth(year, month, j);
      if w[i] == w[j] {
        MonthKeyInjective(a.0, a.1, b.0, b.1);
        assert false;
      }
    }
  }

  /** With a four-digit year on both sides of the window, every key is a zero-padded "YYYY-MM". */
  lemma WindowWellFormed(year: nat, month: nat, j: nat)
    requires 1001 <= year <= 9999 && 1 <= month <= 12 && j < 6
    ensures IsMonthKey(Window(year, month)[j])
  {
    var d := WindowMonth(year, month, j);
    MonthsBackRollover(year, month, 5 - j);
    MonthKeyWellFormed(d.0, d.1);
  }

  /** The `for (let i = 5; i >= 0; i--)` loop pushing each month's key. */
  method SixMonths(year: nat, month: nat) returns (months: seq<string>)
    requires 100 <= year && 1 <= month <= 12
    ensures months == Window(year, month)
  {
    months := [];
    var i := 5;
    while i >= 0
      invariant -1 <= i <= 5 && |months| == 5 - i
      invariant forall j :: 0 <= j < |months| ==> months[j] == WindowKey(year, month, j)
    {
      var d := MonthsBack(year, month, i);
      months := months + [MonthKey(d.0, d.1)];
      i := i - 1;
    }
  }

  // ----- the bars -----

  /** One bar: the month's key, its total and whether it is the current month. */
  datatype Bar = Bar(key: string, amount: nat, isCurrent: bool)

  /** `months.map(...)` with `monthTotals[m.key] || 0`. */
  function BarsOf(ks: seq<string>, es: seq<Expense>, current: string): (bars: seq<Bar>)
    ensures |bars| == |ks|
    ensures forall j :: 0 <= j < |ks| ==> bars[j] == Bar(ks[j], KeyTotal(es, DateMonthKey, ks[j]), ks[j] == current)
  {
    if ks == [] then [] else [Bar(ks[0], KeyTotal(es, DateMonthKey, ks[0]), ks[0] == current)] + BarsOf(ks[1..], es, current)
  }

  function ChartBars(es: seq<Expense>, year: nat, month: nat): seq<Bar>
    requires 100 <= year && 1 <= month <= 12
  {
    var w := Window(year, month);
    BarsOf(w, es, w[5])
  }

  function BarsTotal(bars: seq<Bar>): nat
  {
    if bars == [] then 0 else bars[0].amount + BarsTotal(bars[1..])
  }

  /** `data.some((d) => d.amount > 0)`. */
  predicate HasData(bars: seq<Bar>)
  {
    exists j :: 0 <= j < |bars| && bars[j].amount > 0
  }

  /**
   * Six bars, oldest first, the last for the current month; each holds the
   * total of the expenses whose month key is its key.
   */
  lemma ChartBarsSpec(es: seq<Expense>, year: nat, month: nat)
    requires 100 <= year && 1 <= month <= 12
    ensures var bars := ChartBars(es, year, month);
            && |bars| == 6
            && bars[5].key == MonthKey(year, month)
            && (forall j :: 0 <= j < 6 ==> bars[j].key == Window(year, month)[j])
            && (forall j :: 0 <= j < 6 ==> bars[j].amount == KeyTotal(es, DateMonthKey, bars[j].key))
  {
    WindowSpec(year, month);
  }

  /** Only the last bar is marked current. */
  lemma OnlyLastIsCurrent(es: seq<Expense>, year: nat, month: nat, j: nat)
    requires 100 <= year && 1 <= month <= 12 && j < 6
    ensures ChartBars(es, year, month)[j].isCurrent <==> j == 5
  {
    var w := Window(year, month);
    WindowSpec(year, month);
    assert ChartBars(es, year, month)[j].isCurrent == (w[j] == w[5]);
  }

  /** A month in which no expense is dated shows 0. */
  lemma EmptyMonthIsZero(es: seq<Expense>, year: nat, month: nat, j: nat)
    requires 100 <= year && 1 <= month <= 12 && j < 6
    requires forall i :: 0 <= i < |es| ==> DateMonthKey(es[i]) != Window(year, month)[j]
    ensures ChartBars(es, year, month)[j].amount == 0
  {
    KeyTotalAbsent(es, DateMonthKey, Window(year, month)[j]);
  }

  lemma {:induction false} BarsTotalIsKeySum(ks: seq<string>, es: seq<Expense>, current: string)
    ensures BarsTotal(BarsOf(ks, es, current)) == SumKeyTotals(ks, es, DateMonthKey)
  {
    if ks != [] {
      BarsTotalIsKeySum(ks[1..], es, current);
      assert BarsOf(ks, es, current)[1..] == BarsOf(ks[1..], es, current);
    }
  }

  /** The bars add up to the spending dated inside the window: expenses outside it contribute nothing. */
  lemma ChartBarsTotal(es: seq<Expense>, year: nat, month: nat)
    requires 100 <= year && 1 <= month <= 12
    ensures BarsTotal(ChartBars(es, year, month)) == SumAmounts(Filter(es, e => DateMonthKey(e) in Window(year, month)))
  {
    var w := Window(year, month);
    WindowSpec(year, month);
    BarsTotalIsKeySum(w, es, w[5]);
    SumKeysFiltered(w, es, DateMonthKey, e => DateMonthKey(e) in w);
  }

  /** The chart has data exactly when some expense dated inside the window has a positive amount. */
  lemma HasDataIff(es: seq<Expense>, year: nat, month: nat)
    requires 100 <= year && 1 <= month <= 12
    ensures HasData(ChartBars(es, year, month)) <==>
            exists i :: 0 <= i < |es| && DateMonthKey(es[i]) in Window(year, month) && es[i].amount > 0
  {
    var w := Window(year, month);
    var bars := ChartBars(es, year, month);
    if HasData(bars) {
      var j :| 0 <= j < 6 && bars[j].amount > 0;
      KeyTotalPositive(es, DateMonthKey, w[j]);
    }
    if exists i :: 0 <= i < |es| && DateMonthKey(es[i]) in w && es[i].amount > 0 {
      var i :| 0 <= i < |es| && DateMonthKey(es[i]) in w && es[i].amount > 0;
      var j :| 0 <= j < 6 && w[j] == DateMonthKey(es[i]);
      KeyTotalPositive(es, DateMonthKey, w[j]);
      assert bars[j].amount > 0;
    }
  }

  /** The source's computation: the window loop, the per-month `reduce`, and the bars. */
  method ComputeBars(es: seq<Expense>, year: nat, month: nat) returns (bars: seq<Bar>)
    requires 100 <= year && 1 <= month <= 12
    ensures bars == ChartBars(es, year, month)
  {
    var months := SixMonths(year, month);
    var order, monthTotals := GroupTotals(es, DateMonthKey);
    forall k | k !in monthTotals ensures KeyTotal(es, DateMonthKey, k) == 0 {
      LookupTotal(es, DateMonthKey, order, monthTotals, k);
    }
    bars := BarsFrom(months, monthTotals, es, months[|months| - 1]);
  }

  /** The bars for the given keys, each amount looked up in the per-month dictionary (0 when absent). */
  method BarsFrom(months: seq<string>, monthTotals: map<string, nat>, es: seq<Expense>, current: string) returns (bars: seq<Bar>)
    requires forall k :: k in monthTotals ==> monthTotals[k] == KeyTotal(es, DateMonthKey, k)
    requires forall k :: k !in monthTotals ==> KeyTotal(es, DateMonthKey, k) == 0
    ensures bars == BarsOf(months, es, current)
  {
    bars := [];
    for j := 0 to |months|
      invariant |bars| == j
      invariant forall i :: 0 <= i < j ==> bars[i] == Bar(months[i], KeyTotal(es, DateMonthKey, months[i]), months[i] == current)
    {
      var key := months[j];
      var amount := if key in monthTotals then monthTotals[key] else 0;
      bars := bars + [Bar(key, amount, key == current)];
    }
  }
}
