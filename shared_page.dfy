/**
 * The page a share link opens: it decodes the list carried in the URL
 * fragment, shows it with its total, and can import every shared expense
 * into the local store as a new record.
 *
 * The identifier and creation time the store assigns to the k-th imported
 * expense are given by the parameter `identity`.
 */
module SharedPage {
  import opened Types
  import opened Text
  import opened Folds
  import opened ExpenseContext
  import Share

  /** What the page shows. */
  datatype View = Loading | Failed | Listing(expenses: seq<Expense>, total: nat)

  /** The view the page settles on for a fragment: the decoded list, or the error when there is nothing to show. */
  function SettledView(rt: Share.Runtime, fragment: string): (v: View)
    ensures v != Loading
    ensures v.Listing? <==> fragment != "" && Share.Decoded(rt, fragment) != []
    ensures v.Listing? ==> v.expenses == Share.Decoded(rt, fragment) && v.total == SumAmounts(v.expenses)
  {
    if fragment == "" then Failed
    else
      var decoded := Share.Decoded(rt, fragment);
      if decoded == [] then Failed else Listing(decoded, SumAmounts(decoded))
  }

  /** `Imported ${n} expense${n !== 1 ? "s" : ""}`. */
  function ImportMessage(n: nat): (m: string)
    ensures m == "Imported " + NatToString(n) + (if n == 1 then " expense" else " expenses")
  {
    "Imported " + NatToString(n) + " expense" + if n != 1 then "s" else ""
  }

  /**
   * The store's list after importing `items` one after another onto `base`:
   * each is prepended as a new record, with its id and creation time
   * replaced by the `k`-th identity.
   */
  function Imported(items: seq<Expense>, identity: nat -> (string, string), base: seq<Expense>): seq<Expense>
  {
    if items == [] then base
    else
      var k := |items| - 1;
      [WithIdentity(DataOf(items[k]), identity(k).0, identity(k).1)] + Imported(items[..k], identity, base)
  }

  /**
   * Importing adds one record per shared expense, newest import first, each
   * with the shared expense's fields except its id and creation time; the
   * previous records follow unchanged, and the total grows by the shared
   * total.
   */
  lemma {:induction false} ImportedSpec(items: seq<Expense>, identity: nat -> (string, string), base: seq<Expense>)
    ensures |Imported(items, identity, base)| == |items| + |base|
    ensures Imported(items, identity, base)[|items|..] == base
    ensures forall k :: 0 <= k < |items| ==>
              var e := Imported(items, identity, base)[|items| - 1 - k];
              DataOf(e) == DataOf(items[k]) && e.id == identity(k).0 && e.createdAt == identity(k).1
    ensures SumAmounts(Imported(items, identity, base)) == SumAmounts(items) + SumAmounts(base)
  {
    if items != [] {
      var k := |items| - 1;
      var init := items[..k];
      var e := WithIdentity(DataOf(items[k]), identity(k).0, identity(k).1);
      var rest := Imported(init, identity, base);
      ImportedSpec(init, identity, base);
      assert Imported(items, identity, base) == [e] + rest;
      assert ([e] + rest)[|items|..] == rest[|init|..];
      forall j | 0 <= j < |items|
        ensures var x := Imported(items, identity, base)[|items| - 1 - j];
                DataOf(x) == DataOf(items[j]) && x.id == identity(j).0 && x.createdAt == identity(j).1
      {
        if j < k {
          assert Imported(items, identity, base)[|items| - 1 - j] == rest[|init| - 1 - j];
          assert items[j] == init[j];
        }
      }
      SumAppend([e], rest);
      assert SumAmounts([e]) == e.amount by { assert [e][..0] == []; }
      assert SumAmounts(items) == SumAmounts(init) + items[k].amount;
    }
  }

  /** Importing one more shared expense prepends its new record. */
  lemma ImportedStep(items: seq<Expense>, i: nat, identity: nat -> (string, string), base: seq<Expense>)
    requires i < |items|
    ensures Imported(items[..i + 1], identity, base)
            == [WithIdentity(DataOf(items[i]), identity(i).0, identity(i).1)] + Imported(items[..i], identity, base)
  {
    assert items[..i + 1][..i] == items[..i];
  }

  class SharedView {
    const store: ExpenseStore
    var sharedExpenses: seq<Expense>
    var loading: bool
    var error: bool
    var toasts: seq<string>
    var route: Option<string>

    /** Loading, no error, nothing shared yet. */
    constructor(store: ExpenseStore)
      ensures this.store == store
      ensures sharedExpenses == [] && loading && !error && toasts == [] && route == None
    {
      this.store := store;
      sharedExpenses, loading, error := [], true, false;
      toasts, route := [], None;
    }

    /** What the page shows in its current state: loading first, then the error. */
    function ViewNow(): View
      reads this
    {
      if loading then Loading
      else if error then Failed
      else Listing(sharedExpenses, SumAmounts(sharedExpenses))
    }

    /**
     * `loadSharedExpenses`: an empty fragment is an error without any decode;
     * otherwise an empty decoded list is an error and a non-empty one is
     * kept. Loading ends on every path. The decoder catches every failure
     * itself and answers with the empty list, so the page's own `catch` is
     * never reached.
     */
    method LoadSharedExpenses(rt: Share.Runtime, fragment: string)
      modifies this
      ensures !loading
      ensures fragment == "" ==> error && sharedExpenses == old(sharedExpenses)
      ensures fragment != "" ==>
                var decoded := Share.Decoded(rt, fragment);
                && error == (old(error) || decoded == [])
                && sharedExpenses == if decoded == [] then old(sharedExpenses) else decoded
      ensures toasts == old(toasts) && route == old(route)
      ensures !old(error) ==> ViewNow() == SettledView(rt, fragment)
    {
      if fragment == "" {
        error := true;
        loading := false;
        return;
      }
      var expenses := Share.DecodeExpenses(rt, fragment);
      if |expenses| == 0 {
        error := true;
      } else {
        sharedExpenses := expenses;
      }
      loading := false;
    }

    /**
     * `handleImportAll`: one `addExpense` per shared expense, in order, with
     * its id and creation time dropped; then the count is reported and the
     * expenses page is opened.
     */
    method HandleImportAll(identity: nat -> (string, string)) returns (imported: nat)
      modifies this, store
      ensures imported == |sharedExpenses|
      ensures store.expenses == Imported(sharedExpenses, identity, old(store.expenses))
      ensures toasts == old(toasts) + [ImportMessage(|sharedExpenses|)] && route == Some("/expenses")
      ensures sharedExpenses == old(sharedExpenses) && loading == old(loading) && error == old(error)
    {
      var items := sharedExpenses;
      ghost var base := store.expenses;
      imported := 0;
      var i := 0;
      while i < |items|
        invariant 0 <= i <= |items| && imported == i
        invariant store.expenses == Imported(items[..i], identity, base)
        invariant sharedExpenses == items && toasts == old(toasts) && route == old(route)
        invariant loading == old(loading) && error == old(error)
      {
        var data := DataOf(items[i]);
        ImportedStep(items, i, identity, base);
        store.AddExpense(data, identity(i).0, identity(i).1);
        imported := imported + 1;
        i := i + 1;
      }
      assert items[..i] == items;
      toasts := toasts + [ImportMessage(imported)];
      route := Some("/expenses");
    }
  }
}
