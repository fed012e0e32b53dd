/**
 * The "Spending Insights" card: the expenses tagged with a sentiment, a
 * count and an amount per sentiment, the savings opportunity (what was
 * regretted or would be skipped next time), its monthly average, one row per
 * sentiment that occurs, and the share of expenses that are tagged.
 */
module SentimentInsights {
  import opened Types
  import opened Folds
  import opened ExpenseContext
  import CategoryChart

  /** `e.sentiment` is truthy: the expense is tagged. */
  predicate HasSentiment(e: Expense)
  {
    e.sentiment.Some?
  }

  /** `labeled`. */
  function Labeled(es: seq<Expense>): seq<Expense>
  {
    Filter(es, HasSentiment)
  }

  function SentimentOf(e: Expense): Option<Sentiment>
  {
    e.sentiment
  }

  /** One entry of the `totals` table. */
  datatype Tally = Tally(count: nat, amount: nat)

  /** The entry a sentiment should have after the loops: how many expenses carry it and what they add up to. */
  function TallyOf(l: seq<Expense>, s: Sentiment): Tally
  {
    Tally(KeyCount(l, SentimentOf, Some(s)), KeyTotal(l, SentimentOf, Some(s)))
  }

  /**
   * The two loops: every sentiment starts at zero, then each tagged expense
   * adds 1 to its sentiment's count and its amount to the sentiment's amount.
   */
  method BuildTotals(labeled: seq<Expense>) returns (totals: map<Sentiment, Tally>)
    ensures forall s :: s in totals && totals[s] == TallyOf(labeled, s)
  {
    totals := map[];
    for i := 0 to |Sentiments|
      invariant forall j :: 0 <= j < i ==> Sentiments[j] in totals && totals[Sentiments[j]] == Tally(0, 0)
    {
      totals := totals[Sentiments[i] := Tally(0, 0)];
    }
    SentimentsEnumerated();
    forall s ensures s in totals && totals[s] == Tally(0, 0) {
      var j :| 0 <= j < |Sentiments| && Sentiments[j] == s;
    }
    assert labeled[..0] == [];
    for i := 0 to |labeled|
      invariant forall s :: s in totals && totals[s] == TallyOf(labeled[..i], s)
    {
      var e := labeled[i];
      assert labeled[..i + 1][..i] == labeled[..i];
      if e.sentiment.Some? {
        var t := totals[e.sentiment.value];
        totals := totals[e.sentiment.value := Tally(t.count + 1, t.amount + e.amount)];
      }
    }
    assert labeled[..|labeled|] == labeled;
  }

  /** Untagged expenses are never counted: tallying all expenses or only the tagged ones is the same. */
  lemma OnlyLabeledCount(es: seq<Expense>, s: Sentiment)
    ensures TallyOf(Labeled(es), s) == TallyOf(es, s)
  {
    KeyTotalFilterKeeps(es, HasSentiment, SentimentOf, Some(s));
  }

  /** A sentiment's count is the number of expenses tagged with it, and its amount their sum. */
  lemma TallyIsFiltered(l: seq<Expense>, s: Sentiment, taggedWith: Expense -> bool)
    requires forall e :: taggedWith(e) == (e.sentiment == Some(s))
    ensures TallyOf(l, s).count == |Filter(l, taggedWith)|
    ensures TallyOf(l, s).amount == SumAmounts(Filter(l, taggedWith))
  {
    KeyTotalIsFilteredSum(l, SentimentOf, Some(s), taggedWith);
  }

  /** The four sentiments as keys of `SentimentOf`, in display order. */
  function SentimentKeys(): seq<Option<Sentiment>>
  {
    [Some(Essential), Some(WorthIt), Some(Regret), Some(SkipNextTime)]
  }

  /**
   * Every tagged expense is counted under exactly one sentiment: the counts
   * add up to the number of tagged expenses and the amounts to `totalLabeled`.
   */
  lemma TalliesCover(es: seq<Expense>)
    ensures var l := Labeled(es);
            TallyOf(l, Essential).count + TallyOf(l, WorthIt).count + TallyOf(l, Regret).count + TallyOf(l, SkipNextTime).count == |l|
    ensures var l := Labeled(es);
            TallyOf(l, Essential).amount + TallyOf(l, WorthIt).amount + TallyOf(l, Regret).amount + TallyOf(l, SkipNextTime).amount
            == SumAmounts(l)
  {
    var l := Labeled(es);
    var ks := SentimentKeys();
    FilterSpec(es, HasSentiment);
    forall i | 0 <= i < |l|
      ensures SentimentOf(l[i]) in ks
    {
      assert HasSentiment(l[i]);
      match l[i].sentiment.value
      case Essential =>
      case WorthIt =>
      case Regret =>
      case SkipNextTime =>
    }
    SumKeysCover(ks, l, SentimentOf);
    var k1 := ks[1..];
    var k2 := k1[1..];
    var k3 := k2[1..];
    assert k1[0] == Some(WorthIt) && k2[0] == Some(Regret) && k3[0] == Some(SkipNextTime) && k3[1..] == [];
    assert SumKeyTotals(k3, l, SentimentOf) == TallyOf(l, SkipNextTime).amount;
    assert SumKeyCounts(k3, l, SentimentOf) == TallyOf(l, SkipNextTime).count;
    assert SumKeyTotals(k2, l, SentimentOf) == TallyOf(l, Regret).amount + SumKeyTotals(k3, l, SentimentOf);
    assert SumKeyCounts(k2, l, SentimentOf) == TallyOf(l, Regret).count + SumKeyCounts(k3, l, SentimentOf);
    assert SumKeyTotals(k1, l, SentimentOf) == TallyOf(l, WorthIt).amount + SumKeyTotals(k2, l, SentimentOf);
    assert SumKeyCounts(k1, l, SentimentOf) == TallyOf(l, WorthIt).count + SumKeyCounts(k2, l, SentimentOf);
    assert SumKeyTotals(ks, l, SentimentOf) == TallyOf(l, Essential).amount + SumKeyTotals(k1, l, SentimentOf);
    assert SumKeyCounts(ks, l, SentimentOf) == TallyOf(l, Essential).count + SumKeyCounts(k1, l, SentimentOf);
  }

  // ----- the savings opportunity -----

  /** `savingsOpportunity`: the Regret amount plus the "Skip next time" amount. */
  function Savings(l: seq<Expense>): nat
  {
    TallyOf(l, Regret).amount + TallyOf(l, SkipNextTime).amount
  }

  predicate Avoidable(e: Expense)
  {
    e.sentiment == Some(Regret) || e.sentiment == Some(SkipNextTime)
  }

  /** The savings are exactly what the expenses tagged Regret or "Skip next time" add up to, at most the tagged total. */
  lemma SavingsAreAvoidable(l: seq<Expense>)
    ensures Savings(l) == SumAmounts(Filter(l, Avoidable))
    ensures Savings(l) <= SumAmounts(l)
  {
    var ks := [Some(Regret), Some(SkipNextTime)];
    SumKeysFiltered(ks, l, SentimentOf, Avoidable);
    var k1 := ks[1..];
    assert k1[0] == Some(SkipNextTime) && k1[1..] == [];
    assert SumKeyTotals(k1, l, SentimentOf) == TallyOf(l, SkipNextTime).amount;
    FilterSumBelow(l, Avoidable);
  }

  /** `uniqueMonths`: the number of different "YYYY-MM" prefixes among the tagged expenses. */
  function UniqueMonths(l: seq<Expense>): nat
  {
    CountDistinct(KeysOf(l, DateMonthKey))
  }

  /** `monthlySavings`. */
  function MonthlySavings(l: seq<Expense>): real
  {
    Average(Savings(l), UniqueMonths(l))
  }

  /**
   * With no tagged expense the monthly figure is 0; otherwise it is the mean
   * of the savings over the number of distinct months, and never more than
   * the savings.
   */
  lemma MonthlySavingsSpec(l: seq<Expense>)
    ensures l == [] ==> MonthlySavings(l) == 0.0
    ensures l != [] ==>
              && UniqueMonths(l) == |set k | k in KeysOf(l, DateMonthKey)| > 0
              && IsMean(MonthlySavings(l), Savings(l), UniqueMonths(l))
              && 0.0 <= MonthlySavings(l) <= Savings(l) as real
  {
    CountDistinctIsSetSize(KeysOf(l, DateMonthKey));
  }

  // ----- the breakdown rows -----

  /** One row of the breakdown. */
  datatype Row = Row(sentiment: Sentiment, count: nat, amount: nat, pct: nat)

  function RowOf(l: seq<Expense>, s: Sentiment): Row
  {
    var t := TallyOf(l, s);
    Row(s, t.count, t.amount, CategoryChart.Pct(t.amount, SumAmounts(l)))
  }

  /** The position of a sentiment in the display order. */
  function SentimentRank(s: Sentiment): nat
  {
    match s
    case Essential => 0
    case WorthIt => 1
    case Regret => 2
    case SkipNextTime => 3
  }

  /** The sentiments appear in display order. */
  predicate Ranked(ss: seq<Sentiment>)
  {
    forall i, j :: 0 <= i < j < |ss| ==> SentimentRank(ss[i]) < SentimentRank(ss[j])
  }

  /** `SENTIMENTS.map(...)`, returning no row for a sentiment whose count is 0. */
  function RowsOf(ss: seq<Sentiment>, l: seq<Expense>): seq<Row>
  {
    if ss == [] then []
    else (if TallyOf(l, ss[0]).count > 0 then [RowOf(l, ss[0])] else []) + RowsOf(ss[1..], l)
  }

  function Rows(l: seq<Expense>): seq<Row>
  {
    RowsOf(Sentiments, l)
  }

  /** A row for one of `ss` with a positive count, holding that sentiment's figures. */
  predicate RowShows(r: Row, ss: seq<Sentiment>, l: seq<Expense>)
  {
    r.sentiment in ss && r.count > 0 && r == RowOf(l, r.sentiment)
  }

  predicate InDisplayOrder(rows: seq<Row>)
  {
    forall i, j :: 0 <= i < j < |rows| ==> SentimentRank(rows[i].sentiment) < SentimentRank(rows[j].sentiment)
  }

  /**
   * The rows are exactly the rows of the listed sentiments whose count is
   * positive, in the order of the list.
   */
  lemma {:induction false} RowsOfSpec(ss: seq<Sentiment>, l: seq<Expense>)
    requires Ranked(ss)
    ensures forall i :: 0 <= i < |RowsOf(ss, l)| ==> RowShows(RowsOf(ss, l)[i], ss, l)
    ensures forall s :: s in ss && TallyOf(l, s).count > 0 ==> RowOf(l, s) in RowsOf(ss, l)
    ensures InDisplayOrder(RowsOf(ss, l))
  {
    RowsOfShow(ss, l);
    RowsOfComplete(ss, l);
    RowsOfOrdered(ss, l);
  }

  lemma {:induction false} RowsOfShow(ss: seq<Sentiment>, l: seq<Expense>)
    ensures forall i :: 0 <= i < |RowsOf(ss, l)| ==> RowShows(RowsOf(ss, l)[i], ss, l)
  {
    if ss != [] {
      var rest := RowsOf(ss[1..], l);
      RowsOfShow(ss[1..], l);
      var rows := RowsOf(ss, l);
      if TallyOf(l, ss[0]).count > 0 {
        assert rows == [RowOf(l, ss[0])] + rest;
        forall i | 0 < i < |rows| ensures RowShows(rows[i], ss, l) {
          assert rows[i] == rest[i - 1];
          assert RowShows(rest[i - 1], ss[1..], l);
        }
      } else {
        assert rows == rest;
        forall i | 0 <= i < |rows| ensures RowShows(rows[i], ss, l) {
          assert RowShows(rest[i], ss[1..], l);
        }
      }
    }
  }

  lemma {:induction false} RowsOfComplete(ss: seq<Sentiment>, l: seq<Expense>)
    ensures forall s :: s in ss && TallyOf(l, s).count > 0 ==> RowOf(l, s) in RowsOf(ss, l)
  {
    if ss != [] {
      RowsOfComplete(ss[1..], l);
      forall s | s in ss && TallyOf(l, s).count > 0 ensures RowOf(l, s) in RowsOf(ss, l) {
        if s != ss[0] {
          assert s in ss[1..];
        }
      }
    }
  }

  lemma {:induction false} RowsOfOrdered(ss: seq<Sentiment>, l: seq<Expense>)
    requires Ranked(ss)
    ensures InDisplayOrder(RowsOf(ss, l))
  {
    if ss != [] {
      var rest := RowsOf(ss[1..], l);
      assert Ranked(ss[1..]);
      RowsOfOrdered(ss[1..], l);
      RowsOfShow(ss[1..], l);
      forall k | 0 <= k < |rest| ensures SentimentRank(ss[0]) < SentimentRank(rest[k].sentiment) {
        assert RowShows(rest[k], ss[1..], l);
        var m :| 0 <= m < |ss[1..]| && ss[1..][m] == rest[k].sentiment;
        assert ss[m + 1] == rest[k].sentiment;
      }
      var rows := RowsOf(ss, l);
      if TallyOf(l, ss[0]).count > 0 {
        assert rows == [RowOf(l, ss[0])] + rest;
        forall i, j | 0 <= i < j < |rows| ensures SentimentRank(rows[i].sentiment) < SentimentRank(rows[j].sentiment) {
          assert rows[j] == rest[j - 1];
          if i > 0 {
            assert rows[i] == rest[i - 1];
          }
        }
      } else {
        assert rows == rest;
      }
    }
  }

  lemma SentimentsRanked()
    ensures Ranked(Sentiments)
  {
  }

  /** A sentiment has a row exactly when its count is positive; the rows follow the display order. */
  lemma RowShownIff(l: seq<Expense>, s: Sentiment)
    ensures RowOf(l, s) in Rows(l) <==> TallyOf(l, s).count > 0
    ensures InDisplayOrder(Rows(l))
  {
    SentimentsEnumerated();
    SentimentsRanked();
    RowsOfSpec(Sentiments, l);
    var rows := Rows(l);
    if RowOf(l, s) in rows {
      var k :| 0 <= k < |rows| && rows[k] == RowOf(l, s);
      assert RowShows(rows[k], Sentiments, l);
    }
  }

  /**
   * Over the tagged expenses, a sentiment has a row exactly when some
   * expense carries it, and its share of the tagged total is at most 100
   * (0 when the tagged total is 0).
   */
  lemma RowsSpec(es: seq<Expense>, s: Sentiment)
    ensures var l := Labeled(es);
            RowOf(l, s) in Rows(l) <==> exists i :: 0 <= i < |es| && es[i].sentiment == Some(s)
    ensures var l := Labeled(es);
            RowOf(l, s).pct <= 100 && (SumAmounts(l) == 0 ==> RowOf(l, s).pct == 0)
  {
    var l := Labeled(es);
    RowShownIff(l, s);
    OnlyLabeledCount(es, s);
    KeyCountPositive(es, SentimentOf, Some(s));
    KeyTotalBelowSum(l, SentimentOf, Some(s));
  }

  // ----- the tagged share and the whole card -----

  /** `Math.round((labeled.length / expenses.length) * 100)`. */
  function TaggedPercent(labeled: nat, all: nat): (r: nat)
    requires 0 < labeled <= all
    ensures 0 < r <= 100 || (r == 0 && 200 * labeled < all)
    ensures labeled == all ==> r == 100
  {
    RoundPercent(labeled, all)
  }

  /** What the card shows: the empty state, or the breakdown. */
  datatype Card =
    | NoLabels
    | Breakdown(totalLabeled: nat, savings: nat, monthlySavings: real, rows: seq<Row>, labeledCount: nat, tagged: nat)

  function CardOf(es: seq<Expense>): Card
  {
    var l := Labeled(es);
    if l == [] then NoLabels
    else Breakdown(SumAmounts(l), Savings(l), MonthlySavings(l), Rows(l), |l|, TaggedPercent(|l|, |es|))
  }

  /**
   * The breakdown appears exactly when some expense is tagged, and then the
   * tagged share is reached with a non-empty list: it is at most 100, and 100
   * when every expense is tagged.
   */
  lemma CardSpec(es: seq<Expense>)
    ensures CardOf(es).Breakdown? <==> exists i :: 0 <= i < |es| && HasSentiment(es[i])
    ensures CardOf(es).Breakdown? ==> CardOf(es).tagged <= 100 && CardOf(es).savings <= CardOf(es).totalLabeled
    ensures CardOf(es).Breakdown? && (forall i :: 0 <= i < |es| ==> HasSentiment(es[i])) ==> CardOf(es).tagged == 100
  {
    var l := Labeled(es);
    FilterSpec(es, HasSentiment);
    if exists i :: 0 <= i < |es| && HasSentiment(es[i]) {
      var i :| 0 <= i < |es| && HasSentiment(es[i]);
      assert es[i] in l;
    }
    if l != [] {
      assert l[0] in es;
      SavingsAreAvoidable(l);
    }
    if forall i :: 0 <= i < |es| ==> HasSentiment(es[i]) {
      FilterAll(es, HasSentiment);
    }
  }

  /** One step of the rows loop: the row of the `i`-th sentiment, if any, moves from the pending suffix to the output. */
  lemma RowsStep(i: nat, l: seq<Expense>, rows: seq<Row>)
    requires i < |Sentiments|
    requires rows + RowsOf(Sentiments[i..], l) == Rows(l)
    ensures (rows + if TallyOf(l, Sentiments[i]).count > 0 then [RowOf(l, Sentiments[i])] else [])
            + RowsOf(Sentiments[i + 1..], l) == Rows(l)
  {
    assert Sentiments[i..][1..] == Sentiments[i + 1..];
  }

  /** The rows loop over `SENTIMENTS`, reading the `totals` table. */
  method BuildRows(labeled: seq<Expense>, totals: map<Sentiment, Tally>, totalLabeled: nat) returns (rows: seq<Row>)
    requires forall s :: s in totals && totals[s] == TallyOf(labeled, s)
    requires totalLabeled == SumAmounts(labeled)
    ensures rows == Rows(labeled)
  {
    rows := [];
    assert Sentiments[0..] == Sentiments;
    for i := 0 to |Sentiments|
      invariant rows + RowsOf(Sentiments[i..], labeled) == Rows(labeled)
    {
      var s := Sentiments[i];
      var data := totals[s];
      var pct := CategoryChart.Pct(data.amount, totalLabeled);
      RowsStep(i, labeled, rows);
      if data.count != 0 {
        rows := rows + [Row(s, data.count, data.amount, pct)];
      }
    }
    assert Sentiments[|Sentiments|..] == [];
  }

  /** The source's computation, step by step. */
  method ComputeCard(es: seq<Expense>) returns (card: Card)
    ensures card == CardOf(es)
  {
    var labeled := Filter(es, HasSentiment);
    if |labeled| == 0 {
      return NoLabels;
    }
    var totals := BuildTotals(labeled);
    var totalLabeled := SumAmounts(labeled);
    var savings := totals[Regret].amount + totals[SkipNextTime].amount;
    var uniqueMonths := CountDistinct(KeysOf(labeled, DateMonthKey));
    var monthlySavings := if uniqueMonths > 0 then savings as real / uniqueMonths as real else 0.0;
    assert monthlySavings == MonthlySavings(labeled);
    var rows := BuildRows(labeled, totals, totalLabeled);
    card := Breakdown(totalLabeled, savings, monthlySavings, rows, |labeled|, RoundPercent(|labeled|, |es|));
  }
}
