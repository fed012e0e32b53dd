/**
 * The dashboard page: the greeting, the hero line with the month's spending
 * and number of transactions, the five most recent expenses, and the
 * "Add Expense" handler that also rewards the pet with a treat.
 *
 * The current hour, year and month are parameters. `localeCompare` on the
 * stored dates and ISO timestamps is modelled as code-unit order, which is
 * the order of such digit strings.
 */
module Dashboard {
  import opened Types
  import opened Text
  import opened Folds
  import opened Sorting
  import opened Formatters
  import opened ExpenseContext
  import PetContext

  // ----- the greeting -----

  datatype Greeting = Morning | Afternoon | Evening

  function GreetingText(g: Greeting): string
  {
    match g
    case Morning => "Good morning"
    case Afternoon => "Good afternoon"
    case Evening => "Good evening"
  }

  /** `getGreeting` for the hour of the local time. */
  function GreetingAt(hour: nat): Greeting
  {
    if hour < 12 then Morning else if hour < 17 then Afternoon else Evening
  }

  /** Morning before noon, afternoon from noon to five, evening from five; a later hour never gives an earlier greeting. */
  lemma GreetingSpec(hour: nat, later: nat)
    ensures GreetingAt(hour) == Morning <==> hour < 12
    ensures GreetingAt(hour) == Afternoon <==> 12 <= hour < 17
    ensures GreetingAt(hour) == Evening <==> 17 <= hour
    ensures hour <= later && GreetingAt(hour) != Morning ==> GreetingAt(later) != Morning
    ensures hour <= later && GreetingAt(hour) == Evening ==> GreetingAt(later) == Evening
  {
  }

  // ----- the hero line -----

  /** The number of expenses whose date starts with the current month's key. */
  function HeroCount(es: seq<Expense>, year: nat, month: nat): nat
    requires 1 <= month <= 12
  {
    var key := MonthKey(year, month);
    |Filter(es, e => InMonth(key, e))|
  }

  /**
   * The hero count is the number of expenses the month's spending adds up,
   * the per-month-key count the charts use; with no such expense the month's
   * spending is 0.
   */
  lemma HeroCountSpec(es: seq<Expense>, year: nat, month: nat)
    requires 1000 <= year <= 9999 && 1 <= month <= 12
    ensures HeroCount(es, year, month) == KeyCount(es, DateMonthKey, MonthKey(year, month))
    ensures HeroCount(es, year, month) <= |es|
    ensures HeroCount(es, year, month) == 0 ==> MonthlySpent(es, year, month) == 0
  {
    var key := MonthKey(year, month);
    MonthKeyWellFormed(year, month);
    forall e: Expense ensures InMonth(key, e) == (DateMonthKey(e) == key) {
      StartsWithIffMonthKey(e.date, key);
    }
    KeyTotalIsFilteredSum(es, DateMonthKey, key, e => InMonth(key, e));
    MonthlySpentIsMonthTotal(es, year, month);
  }

  /** The hero line: the month's spending and count once loaded and non-empty, otherwise the prompt to start tracking. */
  function HeroLine(isLoaded: bool, es: seq<Expense>, year: nat, month: nat): (r: Option<(nat, nat)>)
    requires 1 <= month <= 12
    ensures r.Some? <==> isLoaded && es != []
    ensures r.Some? ==> r.value.0 == MonthlySpent(es, year, month) && r.value.1 == HeroCount(es, year, month)
  {
    if isLoaded && |es| > 0 then Some((MonthlySpent(es, year, month), HeroCount(es, year, month))) else None
  }

  // ----- recent expenses -----

  /** The sort comparator: later date first, then later creation time first. */
  function NewerFirst(a: Expense, b: Expense): int
  {
    var byDate := LexCmp(b.date, a.date);
    if byDate != 0 then byDate else LexCmp(b.createdAt, a.createdAt)
  }

  /** `x` is at least as recent as `y`: a later date, or the same date and a creation time not earlier. */
  predicate AtLeastAsRecent(x: Expense, y: Expense)
  {
    LexLe(y.date, x.date) && (x.date == y.date ==> LexLe(y.createdAt, x.createdAt))
  }

  lemma NewerFirstMeaning(a: Expense, b: Expense)
    ensures NewerFirst(a, b) <= 0 <==> AtLeastAsRecent(a, b)
  {
    LexCmpAntisymmetric(b.date, a.date);
  }

  /** The comparator is a total preorder, as `sort` requires. */
  lemma NewerFirstPreorder()
    ensures TotalPreorder(NewerFirst)
  {
    forall a, b ensures NewerFirst(a, b) <= 0 || NewerFirst(b, a) <= 0 {
      LexCmpAntisymmetric(a.date, b.date);
      LexCmpAntisymmetric(a.createdAt, b.createdAt);
    }
    forall a, b, c | NewerFirst(a, b) <= 0 && NewerFirst(b, c) <= 0 ensures NewerFirst(a, c) <= 0 {
      NewerFirstMeaning(a, b);
      NewerFirstMeaning(b, c);
      NewerFirstMeaning(a, c);
      LexCmpTransitive(c.date, b.date, a.date);
      if a.date == c.date {
        LexCmpAntisymmetric(a.date, b.date);
        LexCmpAntisymmetric(b.date, c.date);
        LexCmpAntisymmetric(a.date, c.date);
        if b.date != a.date {
          LexCmpStrictTransitive(c.date, a.date, b.date);
          assert false;
        }
        LexCmpTransitive(c.createdAt, b.createdAt, a.createdAt);
      }
    }
  }

  const RecentCount := 5

  /** `[...expenses].sort(...).slice(0, 5)`. */
  function Recent(es: seq<Expense>): seq<Expense>
  {
    Take(SortBy(es, NewerFirst), RecentCount)
  }

  /** The sorted copy runs from the most recent expense to the least recent. */
  lemma SortedNewestFirst(es: seq<Expense>)
    ensures forall i, j :: 0 <= i < j < |SortBy(es, NewerFirst)| ==>
              AtLeastAsRecent(SortBy(es, NewerFirst)[i], SortBy(es, NewerFirst)[j])
  {
    var sorted := SortBy(es, NewerFirst);
    NewerFirstPreorder();
    SortSorted(es, NewerFirst);
    forall i, j | 0 <= i < j < |sorted| ensures AtLeastAsRecent(sorted[i], sorted[j]) {
      NewerFirstMeaning(sorted[i], sorted[j]);
    }
  }

  /**
   * The recent list holds the five most recent expenses (all of them when
   * there are fewer), most recent first: every expense left out is no more
   * recent than any shown one.
   */
  lemma RecentSpec(es: seq<Expense>)
    ensures |Recent(es)| == if |es| < RecentCount then |es| else RecentCount
    ensures multiset(Recent(es)) <= multiset(es)
    ensures forall i, j :: 0 <= i < j < |Recent(es)| ==> AtLeastAsRecent(Recent(es)[i], Recent(es)[j])
    ensures forall e, i :: e in multiset(es) - multiset(Recent(es)) && 0 <= i < |Recent(es)| ==>
              AtLeastAsRecent(Recent(es)[i], e)
  {
    var sorted := SortBy(es, NewerFirst);
    SortedNewestFirst(es);
    TakeSorted(sorted, RecentCount);
  }

  /** A prefix of a list sorted newest first is itself sorted, and nothing after it is more recent than anything in it. */
  lemma TakeSorted(sorted: seq<Expense>, n: nat)
    requires forall i, j :: 0 <= i < j < |sorted| ==> AtLeastAsRecent(sorted[i], sorted[j])
    ensures var r := Take(sorted, n);
            && |r| == (if |sorted| < n then |sorted| else n)
            && multiset(r) <= multiset(sorted)
            && (forall i, j :: 0 <= i < j < |r| ==> AtLeastAsRecent(r[i], r[j]))
            && (forall e, i :: e in multiset(sorted) - multiset(r) && 0 <= i < |r| ==> AtLeastAsRecent(r[i], e))
  {
    var r := Take(sorted, n);
    var rest := sorted[|r|..];
    assert sorted == r + rest;
    assert multiset(sorted) == multiset(r) + multiset(rest);
    forall e, i | e in multiset(sorted) - multiset(r) && 0 <= i < |r| ensures AtLeastAsRecent(r[i], e) {
      assert e in multiset(rest);
      var k :| 0 <= k < |rest| && rest[k] == e;
      assert sorted[i] == r[i] && sorted[|r| + k] == e;
    }
  }

  /** Computing the recent list from the store sorts a copy: the stored list keeps its order. */
  method RecentExpenses(store: ExpenseStore) returns (recent: seq<Expense>)
    ensures recent == Recent(store.expenses)
  {
    var copy := store.expenses;
    var sorted := SortBy(copy, NewerFirst);
    recent := Take(sorted, RecentCount);
  }

  // ----- the page -----

  const AddedMessage := "Expense added successfully"

  class DashboardPage {
    const store: ExpenseStore
    const pets: PetContext.PetStore
    var modalOpen: bool
    var toasts: seq<string>

    constructor(store: ExpenseStore, pets: PetContext.PetStore)
      ensures this.store == store && this.pets == pets && !modalOpen && toasts == []
    {
      this.store, this.pets := store, pets;
      modalOpen, toasts := false, [];
    }

    method OpenModal()
      modifies this
      ensures modalOpen && toasts == old(toasts)
    {
      modalOpen := true;
    }

    /**
     * `handleAdd`: the expense is added at the front, the pet gets exactly
     * one treat and nothing else, the modal closes and a toast confirms.
     */
    method HandleAdd(data: ExpenseData, id: string, createdAt: string)
      modifies this, store, pets
      ensures store.expenses == [WithIdentity(data, id, createdAt)] + old(store.expenses)
      ensures pets.pet == old(pets.pet).(treats := old(pets.pet).treats + 1)
      ensures pets.isExcited && pets.isLoaded == old(pets.isLoaded)
      ensures !modalOpen && toasts == old(toasts) + [AddedMessage]
    {
      store.AddExpense(data, id, createdAt);
      pets.AddTreat();
      modalOpen := false;
      toasts := toasts + [AddedMessage];
    }
  }
}
