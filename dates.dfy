/**
 * Calendar dates and their `yyyy-MM-dd` text form (the `full-date` form of
 * section 5.6 of RFC 3339), as produced by date-fns `format(d, "yyyy-MM-dd")`.
 * `ParseIso` reads that form back; the two are proved mutually inverse.
 */
module Dates {
  import opened Wrappers

  datatype CalendarDate = CalendarDate(year: int, month: int, day: int)

  predicate IsLeapYear(y: int)
  {
    y % 4 == 0 && (y % 100 != 0 || y % 400 == 0)
  }

  function DaysInMonth(y: int, m: int): (n: int)
    requires 1 <= m <= 12
    ensures 28 <= n <= 31
    ensures n == 29 <==> m == 2 && IsLeapYear(y)
  {
    if m == 2 then (if IsLeapYear(y) then 29 else 28)
    else if m == 4 || m == 6 || m == 9 || m == 11 then 30
    else 31
  }

  /** A date a calendar picker can produce, with a four-digit year. */
  predicate ValidDate(d: CalendarDate)
  {
    1 <= d.year <= 9999 && 1 <= d.month <= 12 && 1 <= d.day <= DaysInMonth(d.year, d.month)
  }

  type Date = d: CalendarDate | ValidDate(d) witness CalendarDate(1970, 1, 1)

  predicate IsDigit(c: char) { '0' <= c <= '9' }

  predicate AllDigits(s: string)
  {
    forall i :: 0 <= i < |s| ==> IsDigit(s[i])
  }

  function DigitValue(c: char): int
    requires IsDigit(c)
  {
    c as int - '0' as int
  }

  function DigitChar(n: int): (c: char)
    requires 0 <= n <= 9
    ensures IsDigit(c) && DigitValue(c) == n
  {
    (n + '0' as int) as char
  }

  /** 10 to the power `k`. */
  function Pow10(k: nat): nat
  {
    if k == 0 then 1 else 10 * Pow10(k - 1)
  }

  /** The decimal value of a string of digits. */
  function NumberOf(s: string): (n: nat)
    requires AllDigits(s)
    ensures n < Pow10(|s|)
  {
    if s == [] then 0
    else NumberOf(s[..|s| - 1]) * 10 + DigitValue(s[|s| - 1])
  }

  /** Splitting off the last decimal digit. */
  lemma DivModTen(q: nat, r: nat)
    requires r < 10
    ensures (q * 10 + r) / 10 == q && (q * 10 + r) % 10 == r
  {
  }

  /** `n` written with exactly `width` digits, zero-padded on the left. */
  function Padded(n: nat, width: nat): (s: string)
    requires n < Pow10(width)
    ensures |s| == width && AllDigits(s) && NumberOf(s) == n
  {
    if width == 0 then []
    else
      DivModTen(n / 10, n % 10);
      var s := Padded(n / 10, width - 1) + [DigitChar(n % 10)];
      assert s[..|s| - 1] == Padded(n / 10, width - 1);
      s
  }

  lemma DigitRoundTrip(c: char)
    requires IsDigit(c)
    ensures DigitChar(DigitValue(c)) == c
  {
  }

  /** The value of a non-empty digit string, split at its last digit. */
  lemma NumberOfLast(s: string)
    requires AllDigits(s) && s != []
    ensures AllDigits(s[..|s| - 1]) && IsDigit(s[|s| - 1])
    ensures NumberOf(s) / 10 == NumberOf(s[..|s| - 1]) && NumberOf(s) % 10 == DigitValue(s[|s| - 1])
  {
    DivModTen(NumberOf(s[..|s| - 1]), DigitValue(s[|s| - 1]));
  }

  /** Padding the value of a digit string back to its own width gives the string. */
  lemma {:induction false} PaddedNumberOf(s: string)
    requires AllDigits(s)
    ensures Padded(NumberOf(s), |s|) == s
  {
    if s != [] {
      var init, last := s[..|s| - 1], s[|s| - 1];
      var n := NumberOf(s);
      NumberOfLast(s);
      PaddedNumberOf(init);
      DigitRoundTrip(last);
      calc {
        Padded(n, |s|);
        Padded(n / 10, |s| - 1) + [DigitChar(n % 10)];
        init + [last];
        s;
      }
    }
  }

  /** `format(d, "yyyy-MM-dd")`. */
  function FormatIso(d: Date): (s: string)
    ensures |s| == 10 && s[4] == '-' && s[7] == '-'
  {
    Padded(d.year, 4) + "-" + Padded(d.month, 2) + "-" + Padded(d.day, 2)
  }

  /** Reads a `yyyy-MM-dd` string; anything else, or a day the calendar lacks, gives None. */
  function ParseIso(s: string): (r: Option<Date>)
    ensures r.Some? ==> |s| == 10 && s[4] == '-' && s[7] == '-'
  {
    if |s| == 10 && s[4] == '-' && s[7] == '-'
       && AllDigits(s[..4]) && AllDigits(s[5..7]) && AllDigits(s[8..])
    then
      var d := CalendarDate(NumberOf(s[..4]), NumberOf(s[5..7]), NumberOf(s[8..]));
      if ValidDate(d) then Some(d) else None
    else None
  }

  /** Parsing a formatted date gives the date back. */
  lemma ParseFormat(d: Date)
    ensures ParseIso(FormatIso(d)) == Some(d)
  {
    var s := FormatIso(d);
    assert s[..4] == Padded(d.year, 4);
    assert s[5..7] == Padded(d.month, 2);
    assert s[8..] == Padded(d.day, 2);
  }

  /** Formatting a parsed date gives the string back: the accepted strings are exactly the formatted ones. */
  lemma FormatParse(s: string)
    requires ParseIso(s).Some?
    ensures FormatIso(ParseIso(s).value) == s
  {
    var d := ParseIso(s).value;
    PaddedNumberOf(s[..4]);
    PaddedNumberOf(s[5..7]);
    PaddedNumberOf(s[8..]);
    assert s == s[..4] + "-" + s[5..7] + "-" + s[8..];
  }

  /** Two dates with the same text are the same date. */
  lemma FormatInjective(d1: Date, d2: Date)
    requires FormatIso(d1) == FormatIso(d2)
    ensures d1 == d2
  {
    ParseFormat(d1);
    ParseFormat(d2);
  }

  /** The text after `yyyy-` is the zero-padded month and day, `MM-dd`. */
  lemma MonthDaySuffix(d: Date)
    ensures FormatIso(d)[5..] == Padded(d.month, 2) + "-" + Padded(d.day, 2)
  {
  }

  /** A number below 10 written in two digits gets one leading zero. */
  lemma PaddedSmall(n: nat)
    requires n < 10
    ensures Padded(n, 2) == ['0', DigitChar(n)]
  {
    assert Pow10(1) == 10 && Pow10(2) == 100;
    DivModTen(0, n);
    assert Padded(0, 1) == Padded(0, 0) + [DigitChar(0)];
    assert Padded(n, 2) == Padded(0, 1) + [DigitChar(n)];
  }

  lemma PaddedYear2024()
    ensures Padded(2024, 4) == "2024"
  {
    assert Padded(2, 1) == "2";
    assert Padded(20, 2) == Padded(2, 1) + "0";
    assert Padded(202, 3) == Padded(20, 2) + "2";
    assert Padded(2024, 4) == Padded(202, 3) + "4";
  }

  /** One-digit months and days of 2024 get a leading zero: 1 February 2024 is written `2024-02-01`. */
  lemma FormatExample(d: Date)
    requires d.year == 2024 && d.month <= 9 && d.day <= 9
    ensures FormatIso(d) == "2024-0" + [DigitChar(d.month)] + "-0" + [DigitChar(d.day)]
  {
    PaddedYear2024();
    PaddedSmall(d.month);
    PaddedSmall(d.day);
  }

  /** The intake form's joining date in the registration example. */
  lemma FormatFebruaryFirst(d: Date)
    requires d.year == 2024 && d.month == 2 && d.day == 1
    ensures FormatIso(d) == "2024-02-01"
  {
    FormatExample(d);
    assert DigitChar(2) == '2' && DigitChar(1) == '1';
  }

  /** The intake form's end date in the registration example. */
  lemma FormatAugustFirst(d: Date)
    requires d.year == 2024 && d.month == 8 && d.day == 1
    ensures FormatIso(d) == "2024-08-01"
  {
    FormatExample(d);
    assert DigitChar(8) == '8' && DigitChar(1) == '1';
  }
}
