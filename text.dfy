/**
 * The string operations the app relies on, as JavaScript defines them:
 * `trim`, ASCII `toLowerCase`, `includes`, `startsWith`, relational
 * comparison of strings (code-unit order), decimal rendering of numbers,
 * `padStart(2, "0")`, and `split`/`join` on a one-character separator.
 */
module Text {

  // ----- trim -----

  /** The characters `String.prototype.trim` removes: WhiteSpace and LineTerminator. */
  predicate IsWhitespace(c: char)
  {
    c == ' ' || c == '\t' || c == '\n' || c == '\r' || c == '\U{000B}' || c == '\U{000C}'
    || c == '\U{00A0}' || c == '\U{1680}' || ('\U{2000}' <= c <= '\U{200A}')
    || c == '\U{2028}' || c == '\U{2029}' || c == '\U{202F}' || c == '\U{205F}'
    || c == '\U{3000}' || c == '\U{FEFF}'
  }

  function TrimStart(s: string): (r: string)
    ensures |r| <= |s|
    ensures r == [] || !IsWhitespace(r[0])
  {
    if s != [] && IsWhitespace(s[0]) then TrimStart(s[1..]) else s
  }

  function TrimEnd(s: string): (r: string)
    ensures |r| <= |s|
    ensures r == [] || !IsWhitespace(r[|r| - 1])
  {
    if s != [] && IsWhitespace(s[|s| - 1]) then TrimEnd(s[..|s| - 1]) else s
  }

  /** `trimStart` keeps a suffix. */
  lemma {:induction false} TrimStartSuffix(s: string)
    ensures TrimStart(s) == s[|s| - |TrimStart(s)|..]
  {
    if s != [] && IsWhitespace(s[0]) {
      TrimStartSuffix(s[1..]);
    }
  }

  /** `trimEnd` keeps a prefix. */
  lemma {:induction false} TrimEndPrefix(s: string)
    ensures TrimEnd(s) == s[..|TrimEnd(s)|]
  {
    if s != [] && IsWhitespace(s[|s| - 1]) {
      TrimEndPrefix(s[..|s| - 1]);
    }
  }

  /** `q` occurs in `s` starting at position `k`. */
  predicate OccursAt(s: string, q: string, k: int)
  {
    0 <= k <= |s| - |q| && s[k..k + |q|] == q
  }

  /** `s.trim()`: the longest infix of `s` that neither starts nor ends with whitespace. */
  function Trim(s: string): (r: string)
    ensures |r| <= |s|
    ensures r == [] || (!IsWhitespace(r[0]) && !IsWhitespace(r[|r| - 1]))
  {
    TrimEndPrefix(TrimStart(s));
    TrimEnd(TrimStart(s))
  }

  /** What `trimStart` removes is whitespace. */
  lemma {:induction false} TrimStartBlank(s: string)
    ensures forall i :: 0 <= i < |s| - |TrimStart(s)| ==> IsWhitespace(s[i])
  {
    if s != [] && IsWhitespace(s[0]) {
      TrimStartBlank(s[1..]);
      assert forall i :: 1 <= i < |s| ==> s[i] == s[1..][i - 1];
    }
  }

  /** What `trimEnd` removes is whitespace. */
  lemma {:induction false} TrimEndBlank(s: string)
    ensures forall i :: |TrimEnd(s)| <= i < |s| ==> IsWhitespace(s[i])
  {
    if s != [] && IsWhitespace(s[|s| - 1]) {
      TrimEndBlank(s[..|s| - 1]);
      assert forall i :: 0 <= i < |s| - 1 ==> s[i] == s[..|s| - 1][i];
    }
  }

  /** What `trim` keeps is a contiguous piece of its input. */
  lemma TrimInfix(s: string)
    ensures exists k :: OccursAt(s, Trim(s), k)
  {
    var t := TrimStart(s);
    TrimStartSuffix(s);
    TrimEndPrefix(t);
    PrefixOfSuffix(s, t, Trim(s));
  }

  /** A prefix of a suffix of `s` occurs in `s` where the suffix starts. */
  lemma PrefixOfSuffix(s: string, t: string, r: string)
    requires |t| <= |s| && t == s[|s| - |t|..]
    requires |r| <= |t| && r == t[..|r|]
    ensures OccursAt(s, r, |s| - |t|)
  {
    assert s[|s| - |t|..][..|r|] == s[|s| - |t|..|s| - |t| + |r|];
  }

  /** A trimmed string is empty exactly when the input was all whitespace. */
  lemma {:induction false} TrimEmptyIffBlank(s: string)
    ensures Trim(s) == [] <==> forall i :: 0 <= i < |s| ==> IsWhitespace(s[i])
  {
    var t := TrimStart(s);
    TrimStartSuffix(s);
    TrimEndPrefix(t);
    TrimStartBlank(s);
    TrimEndBlank(t);
    if t != [] {
      assert !IsWhitespace(t[0]);
      assert s[|s| - |t|] == t[0];
    }
  }

  lemma {:induction false} TrimOfTrimmed(s: string)
    requires s == [] || (!IsWhitespace(s[0]) && !IsWhitespace(s[|s| - 1]))
    ensures Trim(s) == s
  {
  }

  /** Trimming is idempotent. */
  lemma TrimIdempotent(s: string)
    ensures Trim(Trim(s)) == Trim(s)
  {
    TrimOfTrimmed(Trim(s));
  }

  // ----- toLowerCase, includes, startsWith -----

  /** Lower-case mapping; only the ASCII letters are folded. */
  function LowerChar(c: char): char
  {
    if 'A' <= c <= 'Z' then (c as int + 32) as char else c
  }

  function ToLower(s: string): (r: string)
    ensures |r| == |s| && forall i :: 0 <= i < |s| ==> r[i] == LowerChar(s[i])
  {
    if s == [] then [] else [LowerChar(s[0])] + ToLower(s[1..])
  }

  /** `s.startsWith(p)`. */
  predicate StartsWith(s: string, p: string)
  {
    |p| <= |s| && s[..|p|] == p
  }

  /** `s.includes(q)`: `q` occurs in `s` at some position. */
  predicate Includes(s: string, q: string)
  {
    IncludesAt(s, q, 0)
  }

  /** Whether `q` occurs in `s` at or after position `from`, scanning each start position. */
  function IncludesAt(s: string, q: string, from: nat): (b: bool)
    requires from <= |s| + 1
    ensures b <==> exists k :: from <= k && OccursAt(s, q, k)
    decreases |s| + 1 - from
  {
    if from + |q| > |s| then false
    else if s[from..from + |q|] == q then assert OccursAt(s, q, from); true
    else
      var b := IncludesAt(s, q, from + 1);
      assert !OccursAt(s, q, from);
      assert (exists k :: from <= k && OccursAt(s, q, k)) ==> exists k :: from + 1 <= k && OccursAt(s, q, k);
      b
  }

  // ----- relational comparison -----

  /**
   * Three-way comparison in code-unit order, the order of JavaScript's
   * `<`, `<=`, `>=` on strings: -1, 0 or 1.
   */
  function LexCmp(a: string, b: string): (r: int)
    ensures -1 <= r <= 1
  {
    if a == [] && b == [] then 0
    else if a == [] then -1
    else if b == [] then 1
    else if a[0] < b[0] then -1
    else if a[0] > b[0] then 1
    else LexCmp(a[1..], b[1..])
  }

  lemma {:induction false} LexCmpAntisymmetric(a: string, b: string)
    ensures LexCmp(a, b) == -LexCmp(b, a)
    ensures LexCmp(a, b) == 0 <==> a == b
  {
    if a != [] && b != [] && a[0] == b[0] {
      LexCmpAntisymmetric(a[1..], b[1..]);
      assert a == [a[0]] + a[1..] && b == [b[0]] + b[1..];
    }
  }

  lemma {:induction false} LexCmpTransitive(a: string, b: string, c: string)
    requires LexCmp(a, b) <= 0 && LexCmp(b, c) <= 0
    ensures LexCmp(a, c) <= 0
  {
    if a != [] && b != [] && c != [] && a[0] == b[0] == c[0] {
      LexCmpTransitive(a[1..], b[1..], c[1..]);
    } else if a != [] && b != [] && a[0] == b[0] && b == [] {
    } else if a != [] && b == [] {
      LexCmpAntisymmetric(a, b);
    }
  }

  lemma {:induction false} LexCmpStrictTransitive(a: string, b: string, c: string)
    requires LexCmp(a, b) <= 0 && LexCmp(b, c) < 0
    ensures LexCmp(a, c) < 0
  {
    LexCmpTransitive(a, b, c);
    LexCmpAntisymmetric(a, c);
    if a == c {
      LexCmpAntisymmetric(b, c);
      LexCmpAntisymmetric(a, b);
      LexCmpTransitive(c, a, b);
    }
  }

  /** JavaScript's `a <= b` on strings. */
  predicate LexLe(a: string, b: string)
  {
    LexCmp(a, b) <= 0
  }

  /** A string that starts with `p` sorts at or after `p`. */
  lemma {:induction false} PrefixLe(p: string, s: string)
    requires StartsWith(s, p)
    ensures LexLe(p, s)
  {
    if p != [] {
      assert s[0] == p[0];
      assert StartsWith(s[1..], p[1..]) by {
        assert s[1..][..|p| - 1] == s[..|p|][1..];
      }
      PrefixLe(p[1..], s[1..]);
    }
  }

  // ----- numbers as text -----

  function DigitChar(d: nat): char
    requires d < 10
  {
    ('0' as int + d) as char
  }

  predicate IsDigit(c: char)
  {
    '0' <= c <= '9'
  }

  /** `String(n)` for a natural number: its decimal digits, without leading zeros. */
  function NatToString(n: nat): (r: string)
    ensures |r| >= 1 && forall i :: 0 <= i < |r| ==> IsDigit(r[i])
    ensures n < 10 <==> |r| == 1
    decreases n
  {
    if n < 10 then [DigitChar(n)] else NatToString(n / 10) + [DigitChar(n % 10)]
  }

  /** Four-digit numbers print as exactly four digits. */
  lemma NatToStringLength4(n: nat)
    requires 1000 <= n <= 9999
    ensures |NatToString(n)| == 4
  {
    assert NatToString(n) == NatToString(n / 10) + [DigitChar(n % 10)];
    assert NatToString(n / 10) == NatToString(n / 100) + [DigitChar((n / 10) % 10)];
    assert NatToString(n / 100) == NatToString(n / 1000) + [DigitChar((n / 100) % 10)];
  }

  /** `String(n).padStart(2, "0")` for 0 <= n < 100. */
  function Pad2(n: nat): (r: string)
    requires n < 100
    ensures |r| == 2 && IsDigit(r[0]) && IsDigit(r[1])
  {
    [DigitChar(n / 10), DigitChar(n % 10)]
  }

  lemma {:induction false} Pad2Injective(m: nat, n: nat)
    requires m < 100 && n < 100 && Pad2(m) == Pad2(n)
    ensures m == n
  {
    assert Pad2(m)[0] == Pad2(n)[0] && Pad2(m)[1] == Pad2(n)[1];
    assert m / 10 == n / 10 && m % 10 == n % 10;
  }

  lemma Pad2Agrees(n: nat)
    requires 10 <= n < 100
    ensures Pad2(n) == NatToString(n)
  {
  }

  /** `slice(0, n)`: the first `n` elements, or all of them when there are fewer. */
  function Take<T>(s: seq<T>, n: nat): seq<T>
  {
    if |s| < n then s else s[..n]
  }

  // ----- split and join on one separator character -----

  /** `s.split(sep)` for a one-character separator: never empty; "" splits to [""]. */
  function Split(s: string, sep: char): (parts: seq<string>)
    ensures |parts| >= 1
  {
    if s == [] then [""]
    else if s[0] == sep then [""] + Split(s[1..], sep)
    else
      var rest := Split(s[1..], sep);
      [[s[0]] + rest[0]] + rest[1..]
  }

  /** `parts.join(sep)`. */
  function Join(parts: seq<string>, sep: char): string
  {
    if parts == [] then ""
    else if |parts| == 1 then parts[0]
    else parts[0] + [sep] + Join(parts[1..], sep)
  }

  /** Number of occurrences of `c` in `s`. */
  function CountChar(s: string, c: char): (n: nat)
    ensures n <= |s|
    ensures n == 0 <==> c !in s
  {
    if s == [] then 0 else (if s[0] == c then 1 else 0) + CountChar(s[1..], c)
  }

  lemma {:induction false} CountCharAppend(a: string, b: string, c: char)
    ensures CountChar(a + b, c) == CountChar(a, c) + CountChar(b, c)
  {
    if a == [] {
      assert a + b == b;
    } else {
      assert (a + b)[0] == a[0] && (a + b)[1..] == a[1..] + b;
      CountCharAppend(a[1..], b, c);
    }
  }

  /** Joining the pieces of a split gives back the string. */
  lemma {:induction false} JoinSplit(s: string, sep: char)
    ensures Join(Split(s, sep), sep) == s
  {
    if s == [] {
    } else if s[0] == sep {
      JoinSplit(s[1..], sep);
      assert s == [sep] + s[1..];
    } else {
      var rest := Split(s[1..], sep);
      JoinSplit(s[1..], sep);
      if |rest| == 1 {
        assert s == [s[0]] + rest[0];
      } else {
        assert Join(rest, sep) == rest[0] + [sep] + Join(rest[1..], sep);
        assert s == [s[0]] + s[1..];
      }
    }
  }

  /** Joining `n` separator-free pieces puts exactly `n - 1` separators in the result. */
  lemma {:induction false} JoinCount(parts: seq<string>, sep: char)
    requires forall i :: 0 <= i < |parts| ==> sep !in parts[i]
    ensures parts != [] ==> CountChar(Join(parts, sep), sep) == |parts| - 1
  {
    if |parts| == 1 {
      assert CountChar(parts[0], sep) == 0;
    } else if |parts| > 1 {
      JoinCount(parts[1..], sep);
      CountCharAppend(parts[0] + [sep], Join(parts[1..], sep), sep);
      CountCharAppend(parts[0], [sep], sep);
    }
  }

  /** `c` occurs in none of `parts`. */
  predicate AbsentFromAll(parts: seq<string>, c: char)
  {
    forall i :: 0 <= i < |parts| ==> c !in parts[i]
  }

  lemma AbsentCons(head: string, rest: seq<string>, c: char)
    requires c !in head && AbsentFromAll(rest, c)
    ensures AbsentFromAll([head] + rest, c)
  {
    assert forall i :: 0 < i <= |rest| ==> ([head] + rest)[i] == rest[i - 1];
  }

  /** Occurrences of `c` over all of `parts`. */
  function CountIn(parts: seq<string>, c: char): nat
  {
    if parts == [] then 0 else CountChar(parts[0], c) + CountIn(parts[1..], c)
  }

  /** The separators of a join are the `n - 1` it inserts plus those already in the pieces. */
  lemma {:induction false} JoinCountAll(parts: seq<string>, sep: char)
    requires parts != []
    ensures CountChar(Join(parts, sep), sep) == |parts| - 1 + CountIn(parts, sep)
  {
    if |parts| > 1 {
      JoinCountAll(parts[1..], sep);
      CountCharAppend(parts[0] + [sep], Join(parts[1..], sep), sep);
      CountCharAppend(parts[0], [sep], sep);
    }
  }

  /** A character other than the separator is in a join only if it is in a piece. */
  lemma {:induction false} JoinAvoids(parts: seq<string>, sep: char, c: char)
    requires c != sep && AbsentFromAll(parts, c)
    ensures c !in Join(parts, sep)
  {
    if |parts| > 1 {
      JoinAvoids(parts[1..], sep, c);
    }
  }

  /** A non-empty join ends with the last character of its last piece. */
  lemma {:induction false} JoinEndsWith(parts: seq<string>, sep: char)
    requires parts != [] && parts[|parts| - 1] != []
    ensures var j := Join(parts, sep); j != [] && j[|j| - 1] == parts[|parts| - 1][|parts[|parts| - 1]| - 1]
  {
    if |parts| > 1 {
      JoinEndsWith(parts[1..], sep);
    }
  }

  lemma {:induction false} SplitFree(a: string, sep: char)
    requires sep !in a
    ensures Split(a, sep) == [a]
  {
    if a != [] {
      SplitFree(a[1..], sep);
      assert [a[0]] + a[1..] == a;
    }
  }

  lemma {:induction false} SplitAfterPiece(a: string, t: string, sep: char)
    requires sep !in a
    ensures Split(a + [sep] + t, sep) == [a] + Split(t, sep)
  {
    if a == [] {
      assert a + [sep] + t == [sep] + t;
      assert ([sep] + t)[1..] == t;
    } else {
      assert (a + [sep] + t)[0] == a[0];
      assert (a + [sep] + t)[1..] == a[1..] + [sep] + t;
      SplitAfterPiece(a[1..], t, sep);
      assert [a[0]] + a[1..] == a;
    }
  }

  /** Splitting a join of separator-free pieces gives the pieces back. */
  lemma {:induction false} SplitJoin(parts: seq<string>, sep: char)
    requires parts != [] && AbsentFromAll(parts, sep)
    ensures Split(Join(parts, sep), sep) == parts
  {
    if |parts| == 1 {
      SplitFree(parts[0], sep);
    } else {
      SplitJoin(parts[1..], sep);
      SplitAfterPiece(parts[0], Join(parts[1..], sep), sep);
    }
  }

  /** No piece of a split holds the separator. */
  lemma {:induction false} SplitPieces(s: string, sep: char)
    ensures AbsentFromAll(Split(s, sep), sep)
  {
    if s != [] {
      SplitPieces(s[1..], sep);
      var rest := Split(s[1..], sep);
      if s[0] != sep {
        assert sep !in [s[0]] + rest[0];
        assert forall i :: 1 <= i < |rest| ==> (rest[1..])[i - 1] == rest[i];
      }
    }
  }

  /** A string splits into exactly one more piece than it has separators. */
  lemma SplitCount(s: string, sep: char)
    ensures |Split(s, sep)| == CountChar(s, sep) + 1
  {
    SplitPieces(s, sep);
    JoinSplit(s, sep);
    JoinCount(Split(s, sep), sep);
  }

  /** Trimming never adds a character. */
  lemma TrimCount(s: string, c: char)
    ensures CountChar(Trim(s), c) <= CountChar(s, c)
  {
    TrimInfix(s);
    var k :| OccursAt(s, Trim(s), k);
    CountInfix(s, Trim(s), k, c);
  }

  /** A piece of a string holds no more of a character than the string. */
  lemma CountInfix(s: string, r: string, k: int, c: char)
    requires OccursAt(s, r, k)
    ensures CountChar(r, c) <= CountChar(s, c)
  {
    assert s == s[..k] + r + s[k + |r|..];
    CountCharAppend(s[..k] + r, s[k + |r|..], c);
    CountCharAppend(s[..k], r, c);
  }
}
