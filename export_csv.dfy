/**
 * The CSV text of an export: a header line, then one line per expense in
 * list order, joined by "\n" with no trailing newline. Each line is the six
 * fields in header order joined by ","; the amount has two decimals, an
 * absent sentiment or location is an empty field, and only the description
 * is quoted, with inner double quotes doubled (section 2 of RFC 4180).
 */
module ExportCsv {
  import opened Types
  import opened Text
  import Formatters

  const HeaderFields: seq<string> := ["Date", "Amount", "Category", "Sentiment", "Location", "Description"]

  function Header(): string
  {
    Join(HeaderFields, ',')
  }

  /** The column names hold no comma and no newline. */
  lemma HeaderFieldsPlain(c: char)
    requires c == ',' || c == '\n'
    ensures AbsentFromAll(HeaderFields, c)
  {
  }

  /** The header line splits back into exactly the column names, in order, and is a single line. */
  lemma HeaderColumns()
    ensures Split(Header(), ',') == HeaderFields
    ensures '\n' !in Header()
  {
    HeaderFieldsPlain(',');
    SplitJoin(HeaderFields, ',');
    HeaderFieldsPlain('\n');
    JoinAvoids(HeaderFields, ',', '\n');
  }

  // ----- the amount -----

  /** `amount.toFixed(2)` for a whole number of cents. */
  function AmountText(cents: nat): (r: string)
    ensures |r| >= 4 && r[|r| - 3] == '.' && IsDigit(r[|r| - 2]) && IsDigit(r[|r| - 1])
    ensures forall i :: 0 <= i < |r| - 3 ==> IsDigit(r[i])
  {
    NatToString(cents / 100) + "." + Pad2(cents % 100)
  }

  /** Two decimals lose nothing: different amounts print differently. */
  lemma AmountTextInjective(a: nat, b: nat)
    requires AmountText(a) == AmountText(b)
    ensures a == b
  {
    var ta, tb := AmountText(a), AmountText(b);
    assert ta[..|ta| - 3] == NatToString(a / 100) && tb[..|tb| - 3] == NatToString(b / 100);
    Formatters.NatToStringInjective(a / 100, b / 100);
    assert ta[|ta| - 2..] == Pad2(a % 100) && tb[|tb| - 2..] == Pad2(b % 100);
    Pad2Injective(a % 100, b % 100);
  }

  // ----- the quoted description -----

  /** `s.replace(/"/g, '""')`. */
  function Escape(s: string): (r: string)
    ensures |r| == |s| + CountChar(s, '"')
  {
    if s == [] then [] else (if s[0] == '"' then "\"\"" else [s[0]]) + Escape(s[1..])
  }

  /** Reading an escaped field: `""` is one quote, and a lone quote is malformed. */
  function Unescape(s: string): Option<string>
  {
    if s == [] then Some([])
    else if s[0] != '"' then
      match Unescape(s[1..])
      case None => None
      case Some(rest) => Some([s[0]] + rest)
    else if |s| >= 2 && s[1] == '"' then
      match Unescape(s[2..])
      case None => None
      case Some(rest) => Some("\"" + rest)
    else None
  }

  /** The description field: wrapped in double quotes with inner quotes doubled. */
  function Quote(s: string): (q: string)
    ensures |q| == |s| + CountChar(s, '"') + 2 && q[0] == '"' && q[|q| - 1] == '"'
  {
    "\"" + Escape(s) + "\""
  }

  /** Reading a quoted field back. */
  function Unquote(q: string): Option<string>
  {
    if |q| >= 2 && q[0] == '"' && q[|q| - 1] == '"' then Unescape(q[1..|q| - 1]) else None
  }

  lemma {:induction false} UnescapeEscape(s: string)
    ensures Unescape(Escape(s)) == Some(s)
  {
    if s != [] {
      UnescapeEscape(s[1..]);
      var head := if s[0] == '"' then "\"\"" else [s[0]];
      assert Escape(s) == head + Escape(s[1..]);
      if s[0] == '"' {
        assert Escape(s)[2..] == Escape(s[1..]);
      } else {
        assert Escape(s)[1..] == Escape(s[1..]);
      }
      assert [s[0]] + s[1..] == s;
    }
  }

  lemma {:induction false} EscapeUnescape(s: string, d: string)
    requires Unescape(s) == Some(d)
    ensures Escape(d) == s
    decreases |s|
  {
    if s != [] {
      if s[0] != '"' {
        var rest := Unescape(s[1..]).value;
        EscapeUnescape(s[1..], rest);
        assert d[1..] == rest;
        assert s == [s[0]] + s[1..];
      } else {
        var rest := Unescape(s[2..]).value;
        EscapeUnescape(s[2..], rest);
        assert d[1..] == rest;
        assert s == "\"\"" + s[2..];
      }
    }
  }

  /** Unquoting returns the original description. */
  lemma UnquoteQuote(s: string)
    ensures Unquote(Quote(s)) == Some(s)
  {
    var q := Quote(s);
    assert q[1..|q| - 1] == Escape(s);
    UnescapeEscape(s);
  }

  /** A field that unquotes to `s` is exactly the quoted `s`: the encoding is one to one. */
  lemma QuoteUnquote(q: string, s: string)
    requires Unquote(q) == Some(s)
    ensures Quote(s) == q
  {
    EscapeUnescape(q[1..|q| - 1], s);
    Rewrap(q);
  }

  lemma Rewrap(q: string)
    requires |q| >= 2 && q[0] == '"' && q[|q| - 1] == '"'
    ensures q == "\"" + q[1..|q| - 1] + "\""
  {
    assert q == [q[0]] + q[1..|q| - 1] + [q[|q| - 1]];
  }

  lemma {:induction false} EscapeAvoids(s: string, c: char)
    requires c != '"' && c !in s
    ensures c !in Escape(s)
  {
    if s != [] {
      EscapeAvoids(s[1..], c);
    }
  }

  // ----- rows and the whole text -----

  function SentimentField(e: Expense): string
  {
    if e.sentiment.Some? then SentimentName(e.sentiment.value) else ""
  }

  function LocationField(e: Expense): string
  {
    if e.location.Some? then e.location.value.name else ""
  }

  /** The six fields of a row, in header order. */
  function Fields(e: Expense): (f: seq<string>)
    ensures |f| == |HeaderFields|
  {
    [e.date, AmountText(e.amount), CategoryName(e.category), SentimentField(e), LocationField(e), Quote(e.description)]
  }

  function Row(e: Expense): string
  {
    Join(Fields(e), ',')
  }

  function Rows(es: seq<Expense>): (rows: seq<string>)
    ensures |rows| == |es| && forall i :: 0 <= i < |es| ==> rows[i] == Row(es[i])
  {
    seq(|es|, i requires 0 <= i < |es| => Row(es[i]))
  }

  /** The exported text. */
  function Csv(es: seq<Expense>): string
  {
    Join([Header()] + Rows(es), '\n')
  }

  /** The generated fields never hold a comma, a newline or a quote outside the description. */
  lemma GeneratedFieldsPlain(e: Expense, c: char)
    requires c == ',' || c == '\n'
    ensures c !in AmountText(e.amount) && c !in CategoryName(e.category) && c !in SentimentField(e)
  {
    AmountTextPlain(e.amount, c);
    NamesPlain(e, c);
  }

  lemma AmountTextPlain(cents: nat, c: char)
    requires c == ',' || c == '\n'
    ensures c !in AmountText(cents)
  {
    var t := AmountText(cents);
    assert forall i :: 0 <= i < |t| ==> IsDigit(t[i]) || t[i] == '.';
  }

  lemma NamesPlain(e: Expense, c: char)
    requires c == ',' || c == '\n'
    ensures c !in CategoryName(e.category) && c !in SentimentField(e)
  {
  }

  /** When no field holds a comma, a row splits into its six fields in header order. */
  lemma RowColumns(e: Expense)
    requires ',' !in e.date && ',' !in LocationField(e) && ',' !in e.description
    ensures Split(Row(e), ',') == Fields(e)
  {
    GeneratedFieldsPlain(e, ',');
    EscapeAvoids(e.description, ',');
    SplitJoin(Fields(e), ',');
  }

  /**
   * Only the description is quoted: each comma in a location name adds a
   * column for a reader that splits on commas.
   */
  lemma LocationCommaAddsColumns(e: Expense)
    requires ',' !in e.date && ',' !in e.description
    ensures |Split(Row(e), ',')| == |HeaderFields| + CountChar(LocationField(e), ',')
  {
    var f := Fields(e);
    GeneratedFieldsPlain(e, ',');
    EscapeAvoids(e.description, ',');
    SplitCount(Row(e), ',');
    JoinCountAll(f, ',');
    assert CountIn(f, ',') == CountChar(LocationField(e), ',') by {
      assert f[5..][1..] == [] && CountIn(f[5..], ',') == CountChar(f[5], ',') == 0;
      assert f[4..][1..] == f[5..] && CountIn(f[4..], ',') == CountChar(f[4], ',');
      assert f[3..][1..] == f[4..] && CountIn(f[3..], ',') == CountChar(f[4], ',');
      assert f[2..][1..] == f[3..] && CountIn(f[2..], ',') == CountChar(f[4], ',');
      assert f[1..][1..] == f[2..] && CountIn(f[1..], ',') == CountChar(f[4], ',');
      assert f[0] == e.date && CountChar(f[0], ',') == 0;
    }
  }

  lemma RowHasNoNewline(e: Expense)
    requires '\n' !in e.date && '\n' !in LocationField(e) && '\n' !in e.description
    ensures '\n' !in Row(e)
  {
    GeneratedFieldsPlain(e, '\n');
    EscapeAvoids(e.description, '\n');
    JoinAvoids(Fields(e), ',', '\n');
  }

  /**
   * With no newline inside a field, the text has one line per expense after
   * the header, in list order.
   */
  lemma CsvLines(es: seq<Expense>)
    requires forall e :: e in es ==> '\n' !in e.date && '\n' !in LocationField(e) && '\n' !in e.description
    ensures Split(Csv(es), '\n') == [Header()] + Rows(es)
    ensures |Split(Csv(es), '\n')| == |es| + 1
  {
    HeaderColumns();
    RowsPlain(es);
    AbsentCons(Header(), Rows(es), '\n');
    SplitJoin([Header()] + Rows(es), '\n');
  }

  /** No row holds a newline when no field does. */
  lemma RowsPlain(es: seq<Expense>)
    requires forall e :: e in es ==> '\n' !in e.date && '\n' !in LocationField(e) && '\n' !in e.description
    ensures AbsentFromAll(Rows(es), '\n')
  {
    forall i | 0 <= i < |es|
      ensures '\n' !in Rows(es)[i]
    {
      assert es[i] in es;
      RowHasNoNewline(es[i]);
    }
  }

  /** The text never ends with a newline: it ends with the header or the last closing quote. */
  lemma CsvNoTrailingNewline(es: seq<Expense>)
    ensures Csv(es) != [] && Csv(es)[|Csv(es)| - 1] != '\n'
    ensures es != [] ==> Csv(es)[|Csv(es)| - 1] == '"'
  {
    HeaderEnds();
    if es != [] {
      RowEnds(es[|es| - 1]);
    }
    LinesEnd(Header(), Rows(es));
  }

  /** The lines joined end with the last character of the last line. */
  lemma LinesEnd(head: string, rows: seq<string>)
    requires head != [] && (rows != [] ==> rows[|rows| - 1] != [])
    ensures var j := Join([head] + rows, '\n');
            && j != []
            && (rows == [] ==> j[|j| - 1] == head[|head| - 1])
            && (rows != [] ==> j[|j| - 1] == rows[|rows| - 1][|rows[|rows| - 1]| - 1])
  {
    var lines := [head] + rows;
    assert lines[|lines| - 1] == if rows == [] then head else rows[|rows| - 1];
    JoinEndsWith(lines, '\n');
  }

  /** The header ends with the last letter of "Description". */
  lemma HeaderEnds()
    ensures Header() != [] && Header()[|Header()| - 1] == 'n'
  {
    JoinEndsWith(HeaderFields, ',');
  }

  /** A row ends with the closing quote of its description. */
  lemma RowEnds(e: Expense)
    ensures Row(e) != [] && Row(e)[|Row(e)| - 1] == '"'
  {
    JoinEndsWith(Fields(e), ',');
  }
}
