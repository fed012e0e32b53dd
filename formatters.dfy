/**
 * Month keys: `getMonthKey` cuts a "YYYY-MM-DD" date down to "YYYY-MM",
 * and the views build the current month's key from a year and a month
 * number as `${year}-${String(month).padStart(2, "0")}`.
 */
module Formatters {
  import opened Text

  /** `dateString.slice(0, 7)`: at most the first seven characters. */
  function GetMonthKey(s: string): (k: string)
    ensures |k| == if |s| < 7 then |s| else 7
    ensures StartsWith(s, k)
  {
    s[..if |s| < 7 then |s| else 7]
  }

  /** A stored date: four digits, '-', two digits, '-', two digits. */
  predicate IsIsoDate(s: string)
  {
    && |s| == 10
    && (forall i :: 0 <= i < 10 && i != 4 && i != 7 ==> IsDigit(s[i]))
    && s[4] == '-' && s[7] == '-'
  }

  /** A month key: four digits, '-', two digits. */
  predicate IsMonthKey(k: string)
  {
    && |k| == 7
    && (forall i :: 0 <= i < 7 && i != 4 ==> IsDigit(k[i]))
    && k[4] == '-'
  }

  /** On a stored date the key is its "YYYY-MM" part. */
  lemma MonthKeyOfDate(y: string, m: string, d: string)
    requires IsIsoDate(y + "-" + m + "-" + d) && |y| == 4 && |m| == 2 && |d| == 2
    ensures GetMonthKey(y + "-" + m + "-" + d) == y + "-" + m
    ensures IsMonthKey(y + "-" + m)
  {
    var s := y + "-" + m + "-" + d;
    assert s[..7] == y + "-" + m;
  }

  /** Cutting twice cuts once. */
  lemma GetMonthKeyIdempotent(s: string)
    ensures GetMonthKey(GetMonthKey(s)) == GetMonthKey(s)
  {
  }

  /**
   * For a seven-character key, `date.startsWith(key)` and
   * `getMonthKey(date) === key` agree, so the dashboard's prefix test and
   * the chart's key comparison select the same expenses.
   */
  lemma StartsWithIffMonthKey(date: string, key: string)
    requires |key| == 7
    ensures StartsWith(date, key) <==> GetMonthKey(date) == key
  {
  }

  /** The key of the given year and 1-based month. */
  function MonthKey(year: nat, month: nat): (k: string)
    requires 1 <= month <= 12
  {
    NatToString(year) + "-" + Pad2(month)
  }

  /** A four-digit year gives a well-formed seven-character key. */
  lemma MonthKeyWellFormed(year: nat, month: nat)
    requires 1000 <= year <= 9999 && 1 <= month <= 12
    ensures IsMonthKey(MonthKey(year, month))
  {
    NatToStringLength4(year);
  }

  lemma {:induction false} NatToStringInjective(a: nat, b: nat)
    requires NatToString(a) == NatToString(b)
    ensures a == b
    decreases a
  {
    var sa, sb := NatToString(a), NatToString(b);
    if a >= 10 && b >= 10 {
      assert sa[..|sa| - 1] == NatToString(a / 10) && sb[..|sb| - 1] == NatToString(b / 10);
      NatToStringInjective(a / 10, b / 10);
      assert sa[|sa| - 1] == DigitChar(a % 10) && sb[|sb| - 1] == DigitChar(b % 10);
    } else {
      assert sa[0] == DigitChar(a % 10) && sb[0] == DigitChar(b % 10);
    }
  }

  /** Different months have different keys. */
  lemma {:induction false} MonthKeyInjective(y1: nat, m1: nat, y2: nat, m2: nat)
    requires 1 <= m1 <= 12 && 1 <= m2 <= 12
    requires MonthKey(y1, m1) == MonthKey(y2, m2)
    ensures y1 == y2 && m1 == m2
  {
    var k1, k2 := MonthKey(y1, m1), MonthKey(y2, m2);
    var n1, n2 := |NatToString(y1)|, |NatToString(y2)|;
    assert k1[n1] == '-' && k2[n2] == '-';
    assert n1 == n2 by {
      assert |k1| == n1 + 3 && |k2| == n2 + 3;
    }
    assert k1[..n1] == NatToString(y1) && k2[..n2] == NatToString(y2);
    NatToStringInjective(y1, y2);
    assert k1[n1 + 1..] == Pad2(m1) && k2[n2 + 1..] == Pad2(m2);
    Pad2Injective(m1, m2);
  }
}
