/**
 * The calendar dates the app compares and formats: a `datetime.date` value,
 * its chronological order, and its `strftime("%Y-%m-%d")` rendering, with a
 * reader for that rendering as its inverse.
 */
module Dates {

  import opened Wrappers

  datatype Date = Date(year: int, month: int, day: int)

  predicate IsLeapYear(y: int) {
    y % 4 == 0 && (y % 100 != 0 || y % 400 == 0)
  }

  function DaysInMonth(y: int, m: int): int
    requires 1 <= m <= 12
  {
    if m == 2 then (if IsLeapYear(y) then 29 else 28)
    else if m == 4 || m == 6 || m == 9 || m == 11 then 30
    else 31
  }

  /** The dates a `datetime.date` can hold: years 1 to 9999, real months and days. */
  predicate Valid(d: Date) {
    && 1 <= d.year <= 9999
    && 1 <= d.month <= 12
    && 1 <= d.day <= DaysInMonth(d.year, d.month)
  }

  /** `datetime.date` comparison: the (year, month, day) triples compared lexicographically. */
  function Compare(a: Date, b: Date): int {
    if a.year != b.year then (if a.year < b.year then -1 else 1)
    else if a.month != b.month then (if a.month < b.month then -1 else 1)
    else if a.day != b.day then (if a.day < b.day then -1 else 1)
    else 0
  }

  /** `a < b` on dates. */
  predicate Before(a: Date, b: Date) {
    Compare(a, b) < 0
  }

  /** `a >= b` on dates. */
  predicate AtOrAfter(a: Date, b: Date) {
    Compare(a, b) >= 0
  }

  /**
   * The comparison is a strict total order on dates, and `a >= b` holds
   * exactly when `a` is the same day as `b` or later.
   */
  lemma CompareIsChronological(a: Date, b: Date, c: Date)
    ensures !Before(a, a)
    ensures Before(a, b) && Before(b, c) ==> Before(a, c)
    ensures a != b ==> Before(a, b) || Before(b, a)
    ensures AtOrAfter(a, b) <==> a == b || Before(b, a)
    ensures AtOrAfter(a, b) <==> !Before(a, b)
  {
  }

  // ---------------------------------------------------------------------
  // strftime("%Y-%m-%d")

  function Pow10(n: nat): nat {
    if n == 0 then 1 else 10 * Pow10(n - 1)
  }

  predicate IsDigit(c: char) {
    '0' <= c <= '9'
  }

  function DigitChar(n: int): char
    requires 0 <= n <= 9
  {
    ('0' as int + n) as char
  }

  function DigitValue(c: char): int {
    c as int - '0' as int
  }

  /** The decimal digits of `n`, zero-padded on the left to `width` characters. */
  function Pad(n: nat, width: nat): string
    requires n < Pow10(width)
  {
    if width == 0 then [] else Pad(n / 10, width - 1) + [DigitChar(n % 10)]
  }

  /** The number a string of decimal digits denotes. */
  function DecimalValue(s: string): int {
    if s == [] then 0 else 10 * DecimalValue(s[..|s| - 1]) + DigitValue(s[|s| - 1])
  }

  predicate AllDigits(s: string) {
    forall i :: 0 <= i < |s| ==> IsDigit(s[i])
  }

  /** Padding gives exactly `width` decimal digits. */
  lemma {:induction false} PadShape(n: nat, width: nat)
    requires n < Pow10(width)
    ensures |Pad(n, width)| == width
    ensures AllDigits(Pad(n, width))
  {
    if width > 0 {
      PadShape(n / 10, width - 1);
    }
  }

  /** Reading the padded digits back gives the number. */
  lemma {:induction false} DecimalValuePad(n: nat, width: nat)
    requires n < Pow10(width)
    ensures DecimalValue(Pad(n, width)) == n
  {
    if width > 0 {
      DecimalValuePad(n / 10, width - 1);
      var s := Pad(n, width);
      PadShape(n / 10, width - 1);
      assert s[..|s| - 1] == Pad(n / 10, width - 1);
    }
  }

  /** `date.strftime("%Y-%m-%d")`: four-digit year, two-digit month and day, joined by `-`. */
  function FormatDate(d: Date): string
    requires Valid(d)
  {
    assert Pow10(4) == 10000 && Pow10(2) == 100;
    Pad(d.year, 4) + "-" + Pad(d.month, 2) + "-" + Pad(d.day, 2)
  }

  /**
   * A formatted date has ten characters: digits everywhere except the two
   * `-` at positions 4 and 7. So it holds neither `/` nor `?`.
   */
  lemma FormatDateShape(d: Date)
    requires Valid(d)
    ensures |FormatDate(d)| == 10
    ensures FormatDate(d)[4] == '-' && FormatDate(d)[7] == '-'
    ensures forall i :: 0 <= i < 10 && i != 4 && i != 7 ==> IsDigit(FormatDate(d)[i])
    ensures '/' !in FormatDate(d) && '?' !in FormatDate(d)
  {
    assert Pow10(4) == 10000 && Pow10(2) == 100;
    PadShape(d.year, 4);
    PadShape(d.month, 2);
    PadShape(d.day, 2);
  }

  /**
   * Reads a `YYYY-MM-DD` string: ten characters, `-` at positions 4 and 7,
   * digits elsewhere, and a valid date.
   */
  function ParseDate(s: string): Option<Date> {
    if |s| != 10 || s[4] != '-' || s[7] != '-' then None
    else if !AllDigits(s[..4]) || !AllDigits(s[5..7]) || !AllDigits(s[8..]) then None
    else
      var d := Date(DecimalValue(s[..4]), DecimalValue(s[5..7]), DecimalValue(s[8..]));
      if Valid(d) then Some(d) else None
  }

  /** Round trip: a formatted date reads back as the same date. */
  lemma ParseFormatDate(d: Date)
    requires Valid(d)
    ensures ParseDate(FormatDate(d)) == Some(d)
  {
    assert Pow10(4) == 10000 && Pow10(2) == 100;
    var y, m, dd := Pad(d.year, 4), Pad(d.month, 2), Pad(d.day, 2);
    PadShape(d.year, 4);
    PadShape(d.month, 2);
    PadShape(d.day, 2);
    DecimalValuePad(d.year, 4);
    DecimalValuePad(d.month, 2);
    DecimalValuePad(d.day, 2);
    var s := FormatDate(d);
    assert s == y + "-" + m + "-" + dd;
    assert s[..4] == y;
    assert s[5..7] == m;
    assert s[8..] == dd;
  }

  /** Two different dates never render the same. */
  lemma FormatDateInjective(a: Date, b: Date)
    requires Valid(a) && Valid(b)
    ensures FormatDate(a) == FormatDate(b) ==> a == b
  {
    ParseFormatDate(a);
    ParseFormatDate(b);
  }
}
