/**
 * The calendar side of src/get_treasury_data.rs: the `%Y%m` month string the
 * feed URL carries, a decoder for it, and the one-month step back that
 * chrono's `checked_sub_months` performs.
 *
 * Only what these operations look at is kept of a `DateTime<Utc>`: year,
 * month, day and the second of the day, always a date the calendar has.
 */
module DateFormat {
  import opened Outcomes

  type Month = m: int | 1 <= m <= 12 witness 1
  type Day = d: int | 1 <= d <= 31 witness 1

  datatype UtcDateTime = UtcDateTime(year: int, month: Month, day: Day, secondOfDay: nat)

  /** A date and time that exists on the proleptic Gregorian calendar (leap seconds aside). */
  type Timestamp = t: UtcDateTime | t.day <= DaysInMonth(t.year, t.month) && t.secondOfDay < 86400
    witness UtcDateTime(1970, 1, 1, 0)

  // ---------------------------------------------------------------------
  // Decimal numerals
  // ---------------------------------------------------------------------

  predicate IsDigit(c: char) { '0' <= c <= '9' }

  predicate AllDigits(s: string) { forall i :: 0 <= i < |s| ==> IsDigit(s[i]) }

  function DigitChar(d: int): (c: char)
    requires 0 <= d < 10
    ensures IsDigit(c)
  {
    ('0' as int + d) as char
  }

  function DigitValue(c: char): int
    requires IsDigit(c)
  {
    c as int - '0' as int
  }

  function Pow10(k: nat): nat
  {
    if k == 0 then 1 else 10 * Pow10(k - 1)
  }

  /** The decimal numeral of `n`, zero-padded on the left to at least `width` digits. */
  function Numeral(n: nat, width: nat): (s: string)
    ensures AllDigits(s)
    decreases n + width
  {
    if n == 0 && width == 0 then ""
    else Numeral(n / 10, if width == 0 then 0 else width - 1) + [DigitChar(n % 10)]
  }

  /** The value of a string of decimal digits. */
  function Decimal(s: string): nat
    requires AllDigits(s)
  {
    if s == [] then 0 else 10 * Decimal(s[..|s| - 1]) + DigitValue(s[|s| - 1])
  }

  lemma {:induction false} DecimalOfNumeral(n: nat, width: nat)
    ensures Decimal(Numeral(n, width)) == n
    decreases n + width
  {
    if !(n == 0 && width == 0) {
      var s := Numeral(n, width);
      var w' := if width == 0 then 0 else width - 1;
      assert s[..|s| - 1] == Numeral(n / 10, w');
      DecimalOfNumeral(n / 10, w');
    }
  }

  lemma {:induction false} NumeralLength(n: nat, width: nat)
    requires n < Pow10(width)
    ensures |Numeral(n, width)| == width
    decreases width
  {
    if width > 0 {
      NumeralLength(n / 10, width - 1);
    }
  }

  /** A digit string of length w is the w-wide numeral of its own value. */
  lemma {:induction false} NumeralOfDecimal(s: string)
    requires AllDigits(s)
    ensures Numeral(Decimal(s), |s|) == s
    decreases |s|
  {
    if s != [] {
      var init := s[..|s| - 1];
      NumeralOfDecimal(init);
      assert s == init + [s[|s| - 1]];
    }
  }

  lemma {:induction false} DecimalBound(s: string)
    requires AllDigits(s)
    ensures Decimal(s) < Pow10(|s|)
    decreases |s|
  {
    if s != [] {
      DecimalBound(s[..|s| - 1]);
    }
  }

  // ---------------------------------------------------------------------
  // The %Y%m month string
  // ---------------------------------------------------------------------

  /**
   * chrono's `%Y`: years 0 to 9999 as four zero-padded digits; any other year
   * with an explicit sign before at least four digits.
   */
  function YearString(year: int): string
  {
    if 0 <= year <= 9999 then Numeral(year, 4)
    else if year < 0 then "-" + Numeral(-year, 4)
    else "+" + Numeral(year, 4)
  }

  /** `date.format("%Y%m")`: the year followed by the month as two zero-padded digits. */
  function MonthString(t: Timestamp): (s: string)
    ensures 0 <= t.year <= 9999 ==> |s| == 6 && AllDigits(s)
    ensures !(0 <= t.year <= 9999) ==> |s| >= 7 && s[0] == (if t.year < 0 then '-' else '+')
    ensures AllDigits(s[|s| - 2..]) && Decimal(s[|s| - 2..]) == t.month
  {
    var y := YearString(t.year);
    var m := Numeral(t.month, 2);
    NumeralLength(t.month, 2);
    DecimalOfNumeral(t.month, 2);
    YearStringShape(t.year);
    assert (y + m)[|y + m| - 2..] == m;
    y + m
  }

  lemma YearStringShape(year: int)
    ensures 0 <= year <= 9999 ==> |YearString(year)| == 4 && AllDigits(YearString(year))
    ensures !(0 <= year <= 9999) ==>
      |YearString(year)| >= 5 && YearString(year)[0] == (if year < 0 then '-' else '+')
    ensures !(0 <= year <= 9999) ==>
      AllDigits(YearString(year)[1..]) &&
      Decimal(YearString(year)[1..]) == (if year < 0 then -year else year)
  {
    if 0 <= year <= 9999 {
      NumeralLength(year, 4);
    } else {
      var n: nat := if year < 0 then -year else year;
      NumeralAtLeast(n, 4);
      assert YearString(year)[1..] == Numeral(n, 4);
      DecimalOfNumeral(n, 4);
    }
  }

  lemma {:induction false} NumeralAtLeast(n: nat, width: nat)
    ensures |Numeral(n, width)| >= width
    decreases n + width
  {
    if !(n == 0 && width == 0) {
      NumeralAtLeast(n / 10, if width == 0 then 0 else width - 1);
    }
  }

  /** Reads a six-digit `YYYYMM` string back into a year and a month number. */
  function ParseMonthString(s: string): Option<(int, int)>
  {
    if |s| == 6 && AllDigits(s) then Some((Decimal(s[..4]), Decimal(s[4..]))) else None
  }

  /** For four-digit years the month string decodes to the date's own year and month. */
  lemma MonthStringRoundTrip(t: Timestamp)
    requires 0 <= t.year <= 9999
    ensures ParseMonthString(MonthString(t)) == Some((t.year, t.month))
  {
    var y, m := Numeral(t.year, 4), Numeral(t.month, 2);
    NumeralLength(t.year, 4);
    NumeralLength(t.month, 2);
    DecimalOfNumeral(t.year, 4);
    DecimalOfNumeral(t.month, 2);
    assert MonthString(t) == y + m;
    assert (y + m)[..4] == y && (y + m)[4..] == m;
  }

  /** Conversely, every six-digit string that decodes to a valid month is that month's string. */
  lemma MonthStringCanonical(s: string, t: Timestamp)
    requires ParseMonthString(s) == Some((t.year, t.month))
    ensures MonthString(t) == s
  {
    assert AllDigits(s[..4]) && AllDigits(s[4..]);
    DecimalBound(s[..4]);
    NumeralOfDecimal(s[..4]);
    NumeralOfDecimal(s[4..]);
    assert s == s[..4] + s[4..];
  }

  /** Between years 0 and 9999 two dates share a month string exactly when they share year and month. */
  lemma MonthStringInjective(t1: Timestamp, t2: Timestamp)
    requires 0 <= t1.year <= 9999 && 0 <= t2.year <= 9999
    ensures MonthString(t1) == MonthString(t2) <==> t1.year == t2.year && t1.month == t2.month
  {
    MonthStringRoundTrip(t1);
    MonthStringRoundTrip(t2);
  }

  // ---------------------------------------------------------------------
  // One month back
  // ---------------------------------------------------------------------

  predicate IsLeapYear(year: int)
  {
    year % 4 == 0 && (year % 100 != 0 || year % 400 == 0)
  }

  function DaysInMonth(year: int, month: Month): Day
  {
    if month == 2 then (if IsLeapYear(year) then 29 else 28)
    else if month == 4 || month == 6 || month == 9 || month == 11 then 30
    else 31
  }

  /** `checked_sub_months(Months::new(1))`: the calendar month before, the day clamped to its length. */
  function PreviousMonth(t: Timestamp): (r: Timestamp)
    ensures 12 * r.year + r.month == 12 * t.year + t.month - 1
    ensures r.day == if t.day <= DaysInMonth(r.year, r.month) then t.day else DaysInMonth(r.year, r.month)
    ensures r.secondOfDay == t.secondOfDay
  {
    var year := if t.month == 1 then t.year - 1 else t.year;
    var month: Month := if t.month == 1 then 12 else t.month - 1;
    var last := DaysInMonth(year, month);
    UtcDateTime(year, month, if t.day <= last then t.day else last, t.secondOfDay)
  }
}
