/**
 * Calendar dates as the API and the report serialiser render them: a
 * proleptic Gregorian date, the day after it, and its `YYYY-MM-DD` text (what
 * `str(timestamp.date())` and `timestamp.strftime("%Y-%m-%d")` produce).
 */
module Dates {

  import opened Wrappers

  datatype Date = Date(year: int, month: int, day: int)

  predicate IsLeap(y: int)
  {
    y % 4 == 0 && (y % 100 != 0 || y % 400 == 0)
  }

  function DaysInMonth(y: int, m: int): (n: int)
    requires 1 <= m <= 12
    ensures 28 <= n <= 31
  {
    if m == 2 then (if IsLeap(y) then 29 else 28)
    else if m == 4 || m == 6 || m == 9 || m == 11 then 30
    else 31
  }

  /** A real calendar day. */
  predicate Valid(d: Date)
  {
    1 <= d.month <= 12 && 1 <= d.day <= DaysInMonth(d.year, d.month)
  }

  /** A day a pandas `Timestamp` can hold (its years run from 1677 to 2262). */
  predicate Stamp(d: Date)
  {
    Valid(d) && 1677 <= d.year <= 2262
  }

  /** Chronological order. */
  predicate Before(a: Date, b: Date)
  {
    a.year < b.year
    || (a.year == b.year && a.month < b.month)
    || (a.year == b.year && a.month == b.month && a.day < b.day)
  }

  /** `timestamp + pd.Timedelta(days=1)`, as a calendar day. */
  function NextDay(d: Date): (r: Date)
    requires Valid(d)
    ensures Valid(r) && Before(d, r)
    ensures d.year <= r.year <= d.year + 1
  {
    if d.day < DaysInMonth(d.year, d.month) then Date(d.year, d.month, d.day + 1)
    else if d.month < 12 then Date(d.year, d.month + 1, 1)
    else Date(d.year + 1, 1, 1)
  }

  /** No valid day lies strictly between a day and the next, so `NextDay`
      is the immediate successor; it follows from the definitions alone. */
  lemma NextDayIsNext(d: Date, x: Date)
    requires Valid(d) && Valid(x) && Before(d, x)
    ensures !Before(x, NextDay(d))
  {
  }

  // ---------------------------------------------------------------------
  // Text

  function DigitChar(n: int): char
    requires 0 <= n < 10
  {
    ('0' as int + n) as char
  }

  predicate IsDigit(c: char)
  {
    '0' <= c <= '9'
  }

  function DigitValue(c: char): int
  {
    c as int - '0' as int
  }

  /** `n` written with exactly `width` decimal digits, zero-padded. */
  function Padded(n: nat, width: nat): (s: string)
    requires n < Pow10(width)
    ensures |s| == width && forall i :: 0 <= i < |s| ==> IsDigit(s[i])
  {
    if width == 0 then []
    else Padded(n / 10, width - 1) + [DigitChar(n % 10)]
  }

  function Pow10(k: nat): (p: nat)
    ensures p >= 1
  {
    if k == 0 then 1 else 10 * Pow10(k - 1)
  }

  /** The number a string of decimal digits denotes. */
  function NumberOf(s: string): int
  {
    if s == [] then 0 else 10 * NumberOf(s[..|s| - 1]) + DigitValue(s[|s| - 1])
  }

  lemma {:induction false} NumberOfPadded(n: nat, width: nat)
    requires n < Pow10(width)
    ensures NumberOf(Padded(n, width)) == n
  {
    if width > 0 {
      var s := Padded(n, width);
      assert s[..|s| - 1] == Padded(n / 10, width - 1);
      NumberOfPadded(n / 10, width - 1);
    }
  }

  /** A date the four-digit year format can show. */
  predicate Printable(d: Date)
  {
    Valid(d) && 0 <= d.year < 10000
  }

  /** `YYYY-MM-DD`. */
  function Format(d: Date): (s: string)
    requires Printable(d)
    ensures |s| == 10 && s[4] == '-' && s[7] == '-'
  {
    Padded(d.year, 4) + "-" + Padded(d.month, 2) + "-" + Padded(d.day, 2)
  }

  /** Reads `YYYY-MM-DD` back; anything else is `None`. */
  function Parse(s: string): (r: Option<Date>)
    ensures r.Some? ==> |s| == 10
  {
    if |s| == 10 && s[4] == '-' && s[7] == '-'
       && (forall i :: 0 <= i < 4 ==> IsDigit(s[i]))
       && IsDigit(s[5]) && IsDigit(s[6]) && IsDigit(s[8]) && IsDigit(s[9])
    then
      var d := Date(NumberOf(s[..4]), NumberOf(s[5..7]), NumberOf(s[8..]));
      if Valid(d) then Some(d) else None
    else None
  }

  /** The text of a date reads back as that date. */
  lemma ParseFormat(d: Date)
    requires Printable(d)
    ensures Parse(Format(d)) == Some(d)
  {
    var s := Format(d);
    assert s[..4] == Padded(d.year, 4);
    assert s[5..7] == Padded(d.month, 2);
    assert s[8..] == Padded(d.day, 2);
    NumberOfPadded(d.year, 4);
    NumberOfPadded(d.month, 2);
    NumberOfPadded(d.day, 2);
  }

  /** Distinct dates have distinct texts. */
  lemma FormatInjective(a: Date, b: Date)
    requires Printable(a) && Printable(b) && Format(a) == Format(b)
    ensures a == b
  {
    ParseFormat(a);
    ParseFormat(b);
  }
}
