/**
 * The add/edit expense form: its fields and their initial values, the
 * validation that decides which error each field shows, the submit step
 * that hands a normalised expense to the caller, and the sentiment buttons.
 *
 * The amount field holds text; `parseFloat` is a parameter that gives the
 * number it denotes, or None for NaN. Numbers are exact reals here.
 */
module ExpenseForm {
  import opened Types
  import opened Text
  import Formatters

  // ----- the amount text of an expense being edited -----

  /** The digits after the point of `Number.prototype.toString` for a whole number of cents: trailing zero dropped. */
  function FractionText(f: nat): (r: string)
    requires 0 < f < 100
    ensures 1 <= |r| <= 2 && forall i :: 0 <= i < |r| ==> IsDigit(r[i])
  {
    if f % 10 == 0 then [DigitChar(f / 10)] else Pad2(f)
  }

  /**
   * `initialData.amount.toString()`: whole dollars, then a point and the
   * cents only when there are some, without a trailing zero.
   */
  function DollarsText(cents: nat): (r: string)
    ensures r != [] && IsDigit(r[0])
    ensures cents % 100 == 0 ==> forall i :: 0 <= i < |r| ==> IsDigit(r[i])
    ensures cents % 100 != 0 ==> r[|r| - 1] != '0'
  {
    NatToString(cents / 100) + if cents % 100 == 0 then "" else "." + FractionText(cents % 100)
  }

  lemma FractionTextInjective(f: nat, g: nat)
    requires 0 < f < 100 && 0 < g < 100 && FractionText(f) == FractionText(g)
    ensures f == g
  {
    if f % 10 == 0 {
      assert |FractionText(g)| == 1;
    } else {
      Pad2Injective(f, g);
    }
  }

  /** Different amounts are shown as different texts. */
  lemma DollarsTextInjective(a: nat, b: nat)
    requires DollarsText(a) == DollarsText(b)
    ensures a == b
  {
    var ta, tb := DollarsText(a), DollarsText(b);
    var na, nb := NatToString(a / 100), NatToString(b / 100);
    assert ta[..|na|] == na && tb[..|nb|] == nb;
    assert |na| == |nb| by {
      assert |na| < |ta| ==> ta[|na|] == '.';
      assert |nb| < |tb| ==> tb[|nb|] == '.';
      assert forall k :: 0 <= k < |na| ==> IsDigit(ta[k]);
      assert forall k :: 0 <= k < |nb| ==> IsDigit(tb[k]);
    }
    Formatters.NatToStringInjective(a / 100, b / 100);
    if a % 100 != 0 {
      assert |ta| > |na| && |tb| > |nb|;
      assert ta[|na| + 1..] == FractionText(a % 100) && tb[|nb| + 1..] == FractionText(b % 100);
      FractionTextInjective(a % 100, b % 100);
    }
  }

  // ----- validation -----

  datatype AmountError = InvalidAmount | AmountTooLarge
  datatype DescriptionError = DescriptionRequired | DescriptionTooLong

  /** `FormErrors`: at most one message per field. */
  datatype FormErrors = FormErrors(amount: Option<AmountError>, description: Option<DescriptionError>, dateRequired: bool)

  const NoErrors := FormErrors(None, None, false)

  /** The largest amount the form accepts, in dollars. */
  const MaxAmount: real := 999999.99
  const MaxDescriptionLength := 200

  function AmountMessage(e: AmountError): string
  {
    match e
    case InvalidAmount => "Enter a valid amount greater than 0"
    case AmountTooLarge => "Amount cannot exceed $999,999.99"
  }

  function DescriptionMessage(e: DescriptionError): string
  {
    match e
    case DescriptionRequired => "Description is required"
    case DescriptionTooLong => "Description must be 200 characters or less"
  }

  /**
   * The error each field ends with, stated field by field: an amount above
   * the maximum reports that, whatever else is wrong; a blank description
   * cannot also be too long.
   */
  function ErrorsOf(date: string, amountText: string, parsed: Option<real>, description: string): FormErrors
  {
    FormErrors(
      if parsed.Some? && parsed.value > MaxAmount then Some(AmountTooLarge)
      else if amountText == [] || parsed.None? || parsed.value <= 0.0 then Some(InvalidAmount)
      else None,
      if |Trim(description)| > MaxDescriptionLength then Some(DescriptionTooLong)
      else if Trim(description) == [] then Some(DescriptionRequired)
      else None,
      date == [])
  }

  /** The form is accepted exactly when the amount text denotes a number in (0, 999999.99], the trimmed description has 1 to 200 characters and a date is set. */
  lemma NoErrorsIff(date: string, amountText: string, parsed: Option<real>, description: string)
    ensures ErrorsOf(date, amountText, parsed, description) == NoErrors <==>
              && amountText != [] && parsed.Some? && 0.0 < parsed.value <= MaxAmount
              && 1 <= |Trim(description)| <= MaxDescriptionLength
              && date != []
  {
  }

  /** `Math.round(x * 100)`: the nearest whole number of cents, halves rounded up. */
  function RoundCents(x: real): (c: int)
    ensures c as real - 0.5 <= x * 100.0 < c as real + 0.5
  {
    (x * 100.0 + 0.5).Floor
  }

  /**
   * An accepted amount is stored as 0 to 99999999 cents; an amount below
   * half a cent passes the "greater than 0" check yet is stored as 0.
   */
  lemma AcceptedCents(x: real)
    requires 0.0 < x <= MaxAmount
    ensures 0 <= RoundCents(x) <= 99999999
    ensures RoundCents(x) == 0 <==> x < 0.005
  {
  }

  /** The fields the form marks as touched. */
  datatype Field = DateField | AmountField | DescriptionField

  /** What a successful submit hands over, given that validation passed. */
  function SubmittedData(date: string, x: real, category: Category, description: string,
                         sentiment: Option<Sentiment>, location: Option<Location>): ExpenseData
    requires 0.0 < x <= MaxAmount
  {
    AcceptedCents(x);
    ExpenseData(date, RoundCents(x) as nat, category, Trim(description), sentiment, location)
  }

  /**
   * An accepted submission has a date, an amount within range, and a
   * description of 1 to 200 characters with no surrounding whitespace.
   */
  lemma SubmittedDataSpec(date: string, amountText: string, parsed: Option<real>, category: Category, description: string,
                          sentiment: Option<Sentiment>, location: Option<Location>)
    requires ErrorsOf(date, amountText, parsed, description) == NoErrors
    ensures parsed.Some? && 0.0 < parsed.value <= MaxAmount
    ensures SubmittedData(date, parsed.value, category, description, sentiment, location)
            == ExpenseData(date, SubmittedData(date, parsed.value, category, description, sentiment, location).amount,
                           category, Trim(description), sentiment, location)
    ensures date != [] && SubmittedData(date, parsed.value, category, description, sentiment, location).amount <= 99999999
    ensures 1 <= |Trim(description)| <= MaxDescriptionLength && Trim(Trim(description)) == Trim(description)
  {
    NoErrorsIff(date, amountText, parsed, description);
    TrimIdempotent(description);
  }

  /** The sentiment after clicking `s`: the selected one is cleared, any other is selected. */
  function ToggledSentiment(current: Option<Sentiment>, s: Sentiment): (r: Option<Sentiment>)
    ensures r == None <==> current == Some(s)
    ensures r != None ==> r == Some(s)
  {
    if current == Some(s) then None else Some(s)
  }

  /** The form's state. */
  class Form {
    var date: string
    var amountText: string
    var category: Category
    var description: string
    var sentiment: Option<Sentiment>
    var location: Option<Location>
    var errors: FormErrors
    var touched: set<Field>

    /** A blank form (today, no amount, Food, no description), or one filled from the expense being edited. */
    constructor(initial: Option<Expense>, today: string)
      ensures initial.None? ==>
                && date == today && amountText == [] && category == Food && description == []
                && sentiment == None && location == None
      ensures initial.Some? ==>
                && date == initial.value.date && amountText == DollarsText(initial.value.amount)
                && category == initial.value.category && description == initial.value.description
                && sentiment == initial.value.sentiment && location == initial.value.location
      ensures errors == NoErrors && touched == {}
    {
      if initial.Some? {
        var e := initial.value;
        date, amountText, category, description := e.date, DollarsText(e.amount), e.category, e.description;
        sentiment, location := e.sentiment, e.location;
      } else {
        date, amountText, category, description := today, "", Food, "";
        sentiment, location := None, None;
      }
      errors, touched := NoErrors, {};
    }

    /** The effect that refills the fields when a different expense is passed in for editing. */
    method Refill(e: Expense)
      modifies this
      ensures date == e.date && amountText == DollarsText(e.amount) && category == e.category
      ensures description == e.description && sentiment == e.sentiment && location == e.location
      ensures errors == old(errors) && touched == old(touched)
    {
      date, amountText, category, description := e.date, DollarsText(e.amount), e.category, e.description;
      sentiment, location := e.sentiment, e.location;
    }

    /** Clicking a sentiment button. */
    method ClickSentiment(s: Sentiment)
      modifies this
      ensures sentiment == ToggledSentiment(old(sentiment), s)
      ensures date == old(date) && amountText == old(amountText) && category == old(category)
      ensures description == old(description) && location == old(location)
      ensures errors == old(errors) && touched == old(touched)
    {
      sentiment := if sentiment == Some(s) then None else Some(s);
    }

    /** `validate`: the checks run in order, a later message for a field replacing an earlier one. */
    method Validate(parseFloat: string -> Option<real>) returns (errs: FormErrors)
      ensures errs == ErrorsOf(date, amountText, parseFloat(amountText), description)
    {
      errs := NoErrors;
      var numAmount := parseFloat(amountText);
      if amountText == [] || numAmount.None? || numAmount.value <= 0.0 {
        errs := errs.(amount := Some(InvalidAmount));
      }
      if numAmount.Some? && numAmount.value > MaxAmount {
        errs := errs.(amount := Some(AmountTooLarge));
      }
      var trimmed := Trim(description);
      if trimmed == [] {
        errs := errs.(description := Some(DescriptionRequired));
      }
      if |trimmed| > MaxDescriptionLength {
        errs := errs.(description := Some(DescriptionTooLong));
      }
      if date == [] {
        errs := errs.(dateRequired := true);
      }
    }

    /** Leaving a field marks it touched and re-validates. */
    method Blur(field: Field, parseFloat: string -> Option<real>)
      modifies this
      ensures touched == old(touched) + {field}
      ensures errors == ErrorsOf(date, amountText, parseFloat(amountText), description)
      ensures date == old(date) && amountText == old(amountText) && category == old(category)
      ensures description == old(description) && sentiment == old(sentiment) && location == old(location)
    {
      touched := touched + {field};
      errors := Validate(parseFloat);
    }

    /**
     * Submitting: with any error nothing is handed over, the errors are shown
     * and all three validated fields are marked touched; otherwise the
     * expense is handed over with the amount rounded to cents and the
     * description trimmed.
     */
    method Submit(parseFloat: string -> Option<real>) returns (submitted: Option<ExpenseData>)
      modifies this
      ensures date == old(date) && amountText == old(amountText) && category == old(category)
      ensures description == old(description) && sentiment == old(sentiment) && location == old(location)
      ensures var errs := ErrorsOf(date, amountText, parseFloat(amountText), description);
              errs != NoErrors ==> submitted == None && errors == errs && touched == {AmountField, DescriptionField, DateField}
      ensures var errs := ErrorsOf(date, amountText, parseFloat(amountText), description);
              errs == NoErrors ==>
                && parseFloat(amountText).Some? && 0.0 < parseFloat(amountText).value <= MaxAmount
                && submitted == Some(SubmittedData(date, parseFloat(amountText).value, category, description, sentiment, location))
                && errors == old(errors) && touched == old(touched)
    {
      var errs := Validate(parseFloat);
      if errs != NoErrors {
        errors := errs;
        touched := {AmountField, DescriptionField, DateField};
        return None;
      }
      var x := parseFloat(amountText).value;
      AcceptedCents(x);
      submitted := Some(ExpenseData(date, RoundCents(x) as nat, category, Trim(description), sentiment, location));
    }
  }
}
