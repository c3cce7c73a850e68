/**
 * What the parser does with a valid JavaScript Date: `toISOString()` and
 * taking the text before the first 'T'. Parsing a string into a Date is the
 * host's business and is not modelled here; a parsed date is given as its
 * UTC calendar fields.
 */
module JsDate {
  import opened JsText

  /** The calendar years a Date can hold (its time value spans 8.64e15 ms either side of 1970). */
  type Year = y: int | -271821 <= y <= 275760
  type Month = m: int | 1 <= m <= 12 witness 1
  type Day = d: int | 1 <= d <= 31 witness 1
  type Hour = h: int | 0 <= h < 24
  type Minute = m: int | 0 <= m < 60
  type Second = s: int | 0 <= s < 60
  type Millisecond = m: int | 0 <= m < 1000

  /** A valid Date, broken down into its UTC fields. */
  datatype Instant = Instant(
    year: Year, month: Month, day: Day,
    hour: Hour, minute: Minute, second: Second, millisecond: Millisecond)

  /** Four digits for years 0 to 9999; otherwise a sign and six digits. */
  function YearText(y: Year): (r: string)
    ensures r != []
    ensures 'T' !in r
  {
    if 0 <= y <= 9999 then ZeroPad(y, 4)
    else if y < 0 then "-" + ZeroPad(-y, 6)
    else "+" + ZeroPad(y, 6)
  }

  /** The date part of the ISO string: YYYY-MM-DD (or the expanded year form). */
  function DateText(t: Instant): (r: string)
    ensures 'T' !in r
  {
    YearText(t.year) + "-" + ZeroPad(t.month, 2) + "-" + ZeroPad(t.day, 2)
  }

  function TimeText(t: Instant): string {
    ZeroPad(t.hour, 2) + ":" + ZeroPad(t.minute, 2) + ":" + ZeroPad(t.second, 2)
    + "." + ZeroPad(t.millisecond, 3) + "Z"
  }

  /** Date.prototype.toISOString on a valid date. */
  function ToIsoString(t: Instant): string {
    DateText(t) + "T" + TimeText(t)
  }

  /**
   * `s.split(sep)[0]`: the longest prefix of `s` without `sep`; when it is
   * shorter than `s`, `sep` comes right after it.
   */
  function SplitFirst(s: string, sep: char): (r: string)
    ensures |r| <= |s| && r == s[..|r|]
    ensures sep !in r
    ensures |r| < |s| ==> s[|r|] == sep
  {
    if s == [] || s[0] == sep then [] else [s[0]] + SplitFirst(s[1..], sep)
  }

  /** Splitting `a + [sep] + b` at its first `sep` gives back `a` when `a` has none. */
  lemma {:induction false} SplitFirstJoin(a: string, sep: char, b: string)
    requires sep !in a
    ensures SplitFirst(a + [sep] + b, sep) == a
  {
    if a != [] {
      SplitFirstJoin(a[1..], sep, b);
      assert (a + [sep] + b)[1..] == a[1..] + [sep] + b;
    }
  }

  /**
   * `date.toISOString().split('T')[0]`: exactly the date part of the ISO
   * string, and so never empty.
   */
  function IsoDatePart(t: Instant): (r: string)
    ensures r == DateText(t)
    ensures r != []
  {
    SplitFirstJoin(DateText(t), 'T', TimeText(t));
    assert ToIsoString(t) == DateText(t) + ['T'] + TimeText(t);
    SplitFirst(ToIsoString(t), 'T')
  }

  /**
   * For years 0 to 9999 the date part is YYYY-MM-DD: ten characters whose
   * digit groups denote the year, the month and the day of `t`.
   */
  lemma DateTextFields(t: Instant)
    requires 0 <= t.year <= 9999
    ensures var r := DateText(t);
      && |r| == 10 && r[4] == '-' && r[7] == '-'
      && (forall i :: 0 <= i < 10 && i != 4 && i != 7 ==> IsDigit(r[i]))
      && DecimalValue(r[..4]) == t.year
      && DecimalValue(r[5..7]) == t.month
      && DecimalValue(r[8..]) == t.day
  {
    NatToStringLength(t.year, 4);
    NatToStringLength(t.month, 2);
    NatToStringLength(t.day, 2);
    var y, m, d := ZeroPad(t.year, 4), ZeroPad(t.month, 2), ZeroPad(t.day, 2);
    var r := DateText(t);
    assert r == y + "-" + m + "-" + d;
    assert r[..4] == y;
    assert r[5..7] == m;
    assert r[8..] == d;
  }
}
