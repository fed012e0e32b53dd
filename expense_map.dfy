/**
 * The map page: the expenses that carry a location, drawn as circles whose
 * radius grows with the amount, the map's centre, the located total and the
 * legend of categories with their counts.
 *
 * Amounts are in cents, so the one-dollar floor of the largest amount is
 * 100; the radius, a ratio of amounts, is the same in either unit.
 */
module ExpenseMap {
  import opened Types
  import opened Folds
  import opened ExpenseContext

  predicate HasLocation(e: Expense)
  {
    e.location.Some?
  }

  predicate NoLocation(e: Expense)
  {
    e.location.None?
  }

  /** `expenses.filter((e) => e.location)`. */
  function Located(es: seq<Expense>): seq<Expense>
  {
    Filter(es, HasLocation)
  }

  /** The located expenses are exactly those with a location; with the others they make up the whole list. */
  lemma LocatedSpec(es: seq<Expense>)
    ensures forall e :: e in Located(es) <==> e in es && e.location.Some?
    ensures |Located(es)| + |Filter(es, NoLocation)| == |es|
    ensures SumAmounts(Located(es)) + SumAmounts(Filter(es, NoLocation)) == SumAmounts(es)
  {
    FilterSpec(es, HasLocation);
    FilterSplitSum(es, HasLocation, NoLocation);
  }

  // ----- totals -----

  /** `totalLocated`: never more than the overall total. */
  function TotalLocated(es: seq<Expense>): (t: nat)
    ensures t == SumAmounts(Located(es)) && t <= SumAmounts(es)
  {
    FilterSumBelow(es, HasLocation);
    SumAmounts(Located(es))
  }

  /** The `Math.max(..., 1)` floor, in cents. */
  const MinMaxAmount := 100

  /** `Math.max(...amounts, 1)`: the largest amount, but at least one dollar. */
  function MaxAmount(es: seq<Expense>): (m: nat)
    ensures m >= MinMaxAmount
    ensures forall i :: 0 <= i < |es| ==> es[i].amount <= m
    ensures m == MinMaxAmount || exists i :: 0 <= i < |es| && es[i].amount == m
  {
    if es == [] then MinMaxAmount
    else
      var rest := MaxAmount(es[..|es| - 1]);
      var last := es[|es| - 1].amount;
      assert forall i :: 0 <= i < |es| - 1 ==> es[..|es| - 1][i] == es[i];
      if last > rest then last else rest
  }

  // ----- markers -----

  const MinRadius: real := 8.0
  const MaxRadius: real := 30.0

  /** `Math.max(8, Math.min(30, (amount / maxAmount) * 30))`. */
  function Radius(amount: nat, maxAmount: nat): real
    requires maxAmount >= 1
  {
    var scaled := (amount as real / maxAmount as real) * MaxRadius;
    var capped := if scaled < MaxRadius then scaled else MaxRadius;
    if capped > MinRadius then capped else MinRadius
  }

  /**
   * Every radius is between 8 and 30; the largest amount gets 30; a larger
   * amount never gets a smaller circle; and between the two bounds the
   * radius is proportional to the amount.
   */
  lemma RadiusSpec(a: nat, b: nat, m: nat)
    requires m >= 1
    ensures MinRadius <= Radius(a, m) <= MaxRadius
    ensures Radius(m, m) == MaxRadius
    ensures a <= b ==> Radius(a, m) <= Radius(b, m)
    ensures MinRadius < (a as real / m as real) * MaxRadius <= MaxRadius ==> Radius(a, m) == (a as real / m as real) * MaxRadius
  {
    if a <= b {
      assert b as real / m as real - a as real / m as real == (b - a) as real / m as real;
    }
  }

  /** A marker: the expense it stands for and its radius. */
  datatype Marker = Marker(expense: Expense, radius: real)

  function MarkersOf(located: seq<Expense>, maxAmount: nat): (ms: seq<Marker>)
    requires maxAmount >= 1
    ensures |ms| == |located|
    ensures forall i :: 0 <= i < |located| ==> ms[i] == Marker(located[i], Radius(located[i].amount, maxAmount))
  {
    if located == [] then [] else [Marker(located[0], Radius(located[0].amount, maxAmount))] + MarkersOf(located[1..], maxAmount)
  }

  // ----- the centre -----

  const DefaultCenter: (real, real) := (39.8283, -98.5795)

  function SumLat(es: seq<Expense>): real
    requires forall i :: 0 <= i < |es| ==> es[i].location.Some?
  {
    if es == [] then 0.0 else SumLat(es[..|es| - 1]) + es[|es| - 1].location.value.lat
  }

  function SumLng(es: seq<Expense>): real
    requires forall i :: 0 <= i < |es| ==> es[i].location.Some?
  {
    if es == [] then 0.0 else SumLng(es[..|es| - 1]) + es[|es| - 1].location.value.lng
  }

  /** The mean of the located coordinates, or the default centre when nothing is located. */
  function Center(es: seq<Expense>): (real, real)
  {
    var located := Located(es);
    FilterSpec(es, HasLocation);
    if |located| > 0 then (SumLat(located) / |located| as real, SumLng(located) / |located| as real)
    else DefaultCenter
  }

  /** Latitudes between two bounds add up to between `n` times each bound. */
  lemma {:induction false} SumLatBetween(es: seq<Expense>, lo: real, hi: real)
    requires forall i :: 0 <= i < |es| ==> es[i].location.Some? && lo <= es[i].location.value.lat <= hi
    ensures lo * |es| as real <= SumLat(es) <= hi * |es| as real
  {
    if es != [] {
      SumLatBetween(es[..|es| - 1], lo, hi);
    }
  }

  lemma {:induction false} SumLngBetween(es: seq<Expense>, lo: real, hi: real)
    requires forall i :: 0 <= i < |es| ==> es[i].location.Some? && lo <= es[i].location.value.lng <= hi
    ensures lo * |es| as real <= SumLng(es) <= hi * |es| as real
  {
    if es != [] {
      SumLngBetween(es[..|es| - 1], lo, hi);
    }
  }

  /** A mean of `n` values between two bounds lies between them. */
  lemma MeanBetween(sum: real, n: nat, lo: real, hi: real)
    requires n > 0 && lo * n as real <= sum <= hi * n as real
    ensures lo <= sum / n as real <= hi
  {
    var d := n as real;
    assert sum / d - lo == (sum - lo * d) / d;
    assert hi - sum / d == (hi * d - sum) / d;
  }

  /** Located points lie in a box when each of their coordinates does. */
  predicate InBox(located: seq<Expense>, latLo: real, latHi: real, lngLo: real, lngHi: real)
  {
    forall i :: 0 <= i < |located| ==>
      (located[i].location.Some?
       && latLo <= located[i].location.value.lat <= latHi && lngLo <= located[i].location.value.lng <= lngHi)
  }

  /** The mean of the located latitudes lies between any bounds of them, and so does that of the longitudes. */
  lemma {:induction false} MeansBetween(located: seq<Expense>, latLo: real, latHi: real, lngLo: real, lngHi: real)
    requires located != []
    requires InBox(located, latLo, latHi, lngLo, lngHi)
    ensures latLo <= SumLat(located) / |located| as real <= latHi
    ensures lngLo <= SumLng(located) / |located| as real <= lngHi
  {
    LatMeanBetween(located, latLo, latHi);
    LngMeanBetween(located, lngLo, lngHi);
  }

  lemma LatMeanBetween(located: seq<Expense>, lo: real, hi: real)
    requires located != []
    requires forall i :: 0 <= i < |located| ==> located[i].location.Some? && lo <= located[i].location.value.lat <= hi
    ensures lo <= SumLat(located) / |located| as real <= hi
  {
    SumLatBetween(located, lo, hi);
    MeanBetween(SumLat(located), |located|, lo, hi);
  }

  lemma LngMeanBetween(located: seq<Expense>, lo: real, hi: real)
    requires located != []
    requires forall i :: 0 <= i < |located| ==> located[i].location.Some? && lo <= located[i].location.value.lng <= hi
    ensures lo <= SumLng(located) / |located| as real <= hi
  {
    SumLngBetween(located, lo, hi);
    MeanBetween(SumLng(located), |located|, lo, hi);
  }

  /**
   * With nothing located the centre is the default; otherwise it lies in
   * every box that holds all the located points.
   */
  lemma CenterSpec(es: seq<Expense>, latLo: real, latHi: real, lngLo: real, lngHi: real)
    ensures Located(es) == [] ==> Center(es) == DefaultCenter
    ensures Located(es) != [] && InBox(Located(es), latLo, latHi, lngLo, lngHi)
            ==> latLo <= Center(es).0 <= latHi && lngLo <= Center(es).1 <= lngHi
  {
    var located := Located(es);
    if located != [] && InBox(located, latLo, latHi, lngLo, lngHi) {
      MeansBetween(located, latLo, latHi, lngLo, lngHi);
    }
  }

  // ----- the legend -----

  /** The legend's rows: each listed category that has a located expense, with its count, in the listed order. */
  function LegendOf(ks: seq<Category>, located: seq<Expense>): seq<(Category, nat)>
  {
    if ks == [] then []
    else
      var n := KeyCount(located, CategoryOf, ks[0]);
      (if n == 0 then [] else [(ks[0], n)]) + LegendOf(ks[1..], located)
  }

  function LegendTotal(rows: seq<(Category, nat)>): nat
  {
    if rows == [] then 0 else rows[0].1 + LegendTotal(rows[1..])
  }

  lemma {:induction false} LegendOfSpec(ks: seq<Category>, located: seq<Expense>)
    ensures forall r :: r in LegendOf(ks, located) ==> r.0 in ks && r.1 > 0 && r.1 == KeyCount(located, CategoryOf, r.0)
    ensures forall c :: c in ks && KeyCount(located, CategoryOf, c) > 0 ==> (c, KeyCount(located, CategoryOf, c)) in LegendOf(ks, located)
    ensures LegendTotal(LegendOf(ks, located)) == SumKeyCounts(ks, located, CategoryOf)
  {
    if ks != [] {
      LegendOfSpec(ks[1..], located);
      var n := KeyCount(located, CategoryOf, ks[0]);
      var head := if n == 0 then [] else [(ks[0], n)];
      LegendTotalAppend(head, LegendOf(ks[1..], located));
      assert forall c :: c in ks ==> c == ks[0] || c in ks[1..];
    }
  }

  lemma {:induction false} LegendTotalAppend(a: seq<(Category, nat)>, b: seq<(Category, nat)>)
    ensures LegendTotal(a + b) == LegendTotal(a) + LegendTotal(b)
  {
    if a != [] {
      assert (a + b)[0] == a[0] && (a + b)[1..] == a[1..] + b;
      LegendTotalAppend(a[1..], b);
      assert LegendTotal(a + b) == (a + b)[0].1 + LegendTotal((a + b)[1..]);
    } else {
      assert a + b == b;
    }
  }

  /** The legend over the six categories. */
  function Legend(es: seq<Expense>): seq<(Category, nat)>
  {
    LegendOf(Categories, Located(es))
  }

  /**
   * The legend lists a category exactly when some located expense has it,
   * with the number of such expenses, and its counts add up to the number
   * of located expenses.
   */
  lemma LegendSpec(es: seq<Expense>, c: Category)
    ensures (exists n :: (c, n) in Legend(es)) <==> exists i :: 0 <= i < |Located(es)| && Located(es)[i].category == c
    ensures forall n :: (c, n) in Legend(es) ==> n == KeyCount(Located(es), CategoryOf, c)
    ensures LegendTotal(Legend(es)) == |Located(es)|
  {
    var located := Located(es);
    CategoriesEnumerated();
    LegendOfSpec(Categories, located);
    KeyCountPositive(located, CategoryOf, c);
    assert Distinct(Categories);
    SumKeysCover(Categories, located, CategoryOf);
  }

  // ----- the page -----

  /** What the page draws. */
  datatype View = LoadingMap | MapView(center: (real, real), fitBounds: bool, markers: seq<Marker>,
                                       totalLocated: nat, locatedCount: nat, legend: seq<(Category, nat)>)

  function ViewOf(es: seq<Expense>, isLoaded: bool): (v: View)
    ensures v.LoadingMap? <==> !isLoaded
    ensures v.MapView? ==> (v.fitBounds <==> Located(es) != []) && |v.markers| == v.locatedCount == |Located(es)|
    ensures v.MapView? ==> forall i :: 0 <= i < |v.markers| ==> MinRadius <= v.markers[i].radius <= MaxRadius
  {
    if !isLoaded then LoadingMap
    else
      var located := Located(es);
      var m := MaxAmount(located);
      var markers := MarkersOf(located, m);
      assert forall i :: 0 <= i < |markers| ==> MinRadius <= markers[i].radius <= MaxRadius by {
        forall i | 0 <= i < |markers| ensures MinRadius <= markers[i].radius <= MaxRadius {
          RadiusSpec(located[i].amount, located[i].amount, m);
        }
      }
      MapView(Center(es), |located| > 0, markers, TotalLocated(es), |located|, Legend(es))
  }
}
