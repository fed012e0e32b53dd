/**
 * The data model of the expense tracker: the two closed label sets, the
 * expense record with its optional sentiment and location, and the list
 * filters with their "All" sentinel.
 *
 * Amounts are whole cents (the entry form rounds to cents), dates are the
 * "YYYY-MM-DD" strings the app stores, and timestamps are the ISO strings
 * produced at creation time.
 */
module Types {

  datatype Option<+T> = None | Some(value: T)

  /** The six spending categories, in the order the app lists them. */
  datatype Category = Food | Transportation | Entertainment | Shopping | Bills | Other

  const Categories: seq<Category> := [Food, Transportation, Entertainment, Shopping, Bills, Other]

  function CategoryName(c: Category): string
  {
    match c
    case Food => "Food"
    case Transportation => "Transportation"
    case Entertainment => "Entertainment"
    case Shopping => "Shopping"
    case Bills => "Bills"
    case Other => "Other"
  }

  /** The four sentiment labels, in the order the app lists them. */
  datatype Sentiment = Essential | WorthIt | Regret | SkipNextTime

  const Sentiments: seq<Sentiment> := [Essential, WorthIt, Regret, SkipNextTime]

  function SentimentName(s: Sentiment): string
  {
    match s
    case Essential => "Essential"
    case WorthIt => "Worth it"
    case Regret => "Regret"
    case SkipNextTime => "Skip next time"
  }

  /** Coordinates are kept abstract: they are only stored, compared and averaged. */
  type Coord = real

  datatype Location = Location(name: string, lat: Coord, lng: Coord)

  /** A stored expense. `sentiment` and `location` are the two optional fields. */
  datatype Expense = Expense(
    id: string,
    date: string,
    amount: nat,
    category: Category,
    description: string,
    sentiment: Option<Sentiment>,
    location: Option<Location>,
    createdAt: string)

  /** The caller-supplied part of an expense: everything but `id` and `createdAt`. */
  datatype ExpenseData = ExpenseData(
    date: string,
    amount: nat,
    category: Category,
    description: string,
    sentiment: Option<Sentiment>,
    location: Option<Location>)

  function DataOf(e: Expense): ExpenseData
  {
    ExpenseData(e.date, e.amount, e.category, e.description, e.sentiment, e.location)
  }

  /** The record that `data` becomes once the store assigns an id and a creation time. */
  function WithIdentity(data: ExpenseData, id: string, createdAt: string): (e: Expense)
    ensures DataOf(e) == data && e.id == id && e.createdAt == createdAt
  {
    Expense(id, data.date, data.amount, data.category, data.description, data.sentiment, data.location, createdAt)
  }

  /** A category filter is either the sentinel "All" or one category. */
  datatype CategoryFilter = AllCategories | OnlyCategory(category: Category)

  /** A sentiment filter is either the sentinel "All" or one sentiment. */
  datatype SentimentFilter = AllSentiments | OnlySentiment(sentiment: Sentiment)

  function CategoryFilterName(f: CategoryFilter): string
  {
    match f
    case AllCategories => "All"
    case OnlyCategory(c) => CategoryName(c)
  }

  function SentimentFilterName(f: SentimentFilter): string
  {
    match f
    case AllSentiments => "All"
    case OnlySentiment(s) => SentimentName(s)
  }

  datatype Filters = Filters(
    search: string,
    category: CategoryFilter,
    sentiment: SentimentFilter,
    startDate: string,
    endDate: string)

  // ----- Properties of the closed sets -----

  /** The category list has no duplicates and holds every category. */
  lemma CategoriesEnumerated()
    ensures |Categories| == 6
    ensures forall i, j :: 0 <= i < j < |Categories| ==> Categories[i] != Categories[j]
    ensures forall c: Category :: c in Categories
    ensures Categories[0] == Food && Categories[5] == Other
  {
    forall c: Category ensures c in Categories {
      match c
      case Food => assert Categories[0] == c;
      case Transportation => assert Categories[1] == c;
      case Entertainment => assert Categories[2] == c;
      case Shopping => assert Categories[3] == c;
      case Bills => assert Categories[4] == c;
      case Other => assert Categories[5] == c;
    }
  }

  /** The category names are exactly the six strings, in order, and distinct. */
  lemma CategoryNamesExact()
    ensures [CategoryName(Categories[0]), CategoryName(Categories[1]), CategoryName(Categories[2]),
             CategoryName(Categories[3]), CategoryName(Categories[4]), CategoryName(Categories[5])]
         == ["Food", "Transportation", "Entertainment", "Shopping", "Bills", "Other"]
    ensures forall c1: Category, c2: Category :: CategoryName(c1) == CategoryName(c2) ==> c1 == c2
  {
  }

  /** A string names a category exactly when it is one of the six names. */
  lemma CategoryAdmitsExactlyTheNames(name: string)
    ensures (exists c: Category :: CategoryName(c) == name)
        <==> name in ["Food", "Transportation", "Entertainment", "Shopping", "Bills", "Other"]
  {
    if name in ["Food", "Transportation", "Entertainment", "Shopping", "Bills", "Other"] {
      if name == "Food" { assert CategoryName(Food) == name; }
      else if name == "Transportation" { assert CategoryName(Transportation) == name; }
      else if name == "Entertainment" { assert CategoryName(Entertainment) == name; }
      else if name == "Shopping" { assert CategoryName(Shopping) == name; }
      else if name == "Bills" { assert CategoryName(Bills) == name; }
      else { assert CategoryName(Other) == name; }
    }
  }

  /** The sentiment list has no duplicates, holds every sentiment, and names them as the app does. */
  lemma SentimentsEnumerated()
    ensures |Sentiments| == 4
    ensures forall i, j :: 0 <= i < j < |Sentiments| ==> Sentiments[i] != Sentiments[j]
    ensures forall s: Sentiment :: s in Sentiments
    ensures [SentimentName(Sentiments[0]), SentimentName(Sentiments[1]),
             SentimentName(Sentiments[2]), SentimentName(Sentiments[3])]
         == ["Essential", "Worth it", "Regret", "Skip next time"]
    ensures forall s1: Sentiment, s2: Sentiment :: SentimentName(s1) == SentimentName(s2) ==> s1 == s2
  {
    forall s: Sentiment ensures s in Sentiments {
      match s
      case Essential => assert Sentiments[0] == s;
      case WorthIt => assert Sentiments[1] == s;
      case Regret => assert Sentiments[2] == s;
      case SkipNextTime => assert Sentiments[3] == s;
    }
  }

  /** The sentinel "All" names neither a category nor a sentiment. */
  lemma AllIsNoLabel(c: Category, s: Sentiment)
    ensures CategoryName(c) != "All" && SentimentName(s) != "All"
    ensures CategoryFilterName(AllCategories) == "All" && SentimentFilterName(AllSentiments) == "All"
  {
  }
}
