/**
 * Calendar days as the booking store and the month view use them.
 *
 * The program keeps dates as "YYYY-MM-DD" strings and turns them into
 * JavaScript `Date` objects to compare and step them.  Here a date is a
 * time-zone-free (year, month, day) triple; its position on the time line
 * is the day number of ECMA-262 (MakeDay / DayFromYear, counted from
 * 1970-01-01), which is what `setDate`, `setMonth`, `setFullYear` and,
 * for years 100 and later, `new Date(y, m, d)` compute before reading the
 * fields back (the constructor reads a year 0..99 as 1900 + y).
 */
module Dates {
  import opened Wrappers

  // ---------------------------------------------------------------------------
  // Gregorian calendar
  // ---------------------------------------------------------------------------

  predicate IsLeapYear(y: int)
  {
    y % 4 == 0 && (y % 100 != 0 || y % 400 == 0)
  }

  /** Length of the 1-based month `m` of year `y`. */
  function DaysInMonth(y: int, m: nat): (n: nat)
    requires 1 <= m <= 12
    ensures 28 <= n <= 31
    ensures n == 29 <==> m == 2 && IsLeapYear(y)
  {
    if m == 2 then (if IsLeapYear(y) then 29 else 28)
    else if m == 4 || m == 6 || m == 9 || m == 11 then 30
    else 31
  }

  function YearLength(y: int): nat
  {
    if IsLeapYear(y) then 366 else 365
  }

  /** A year, a 1-based month and a day of the month. */
  datatype Ymd = Ymd(year: int, month: nat, day: nat)
  {
    predicate Valid()
    {
      1 <= month <= 12 && 1 <= day <= DaysInMonth(year, month)
    }
  }

  /** A day that exists in the Gregorian calendar. */
  type Date = d: Ymd | d.Valid() witness Ymd(1970, 1, 1)

  /** `a` is strictly earlier than `b`. */
  predicate Before(a: Date, b: Date)
  {
    a.year < b.year
    || (a.year == b.year && (a.month < b.month || (a.month == b.month && a.day < b.day)))
  }

  /** `a` is earlier than or the same day as `b` (JavaScript's `<=` on two dates). */
  predicate OnOrBefore(a: Date, b: Date)
  {
    !Before(b, a)
  }

  lemma OnOrBeforeTransitive(a: Date, b: Date, c: Date)
    requires OnOrBefore(a, b) && OnOrBefore(b, c)
    ensures OnOrBefore(a, c)
  {
  }

  // ---------------------------------------------------------------------------
  // ECMA-262 day numbers
  // ---------------------------------------------------------------------------

  /** ECMA-262 DayFromYear: the day number of January 1 of year `y`. */
  function DayFromYear(y: int): int
  {
    365 * (y - 1970) + (y - 1969) / 4 - (y - 1901) / 100 + (y - 1601) / 400
  }

  /** Days from January 1 to the first of the 0-based month `mn`. */
  function DaysBeforeMonth(y: int, mn: nat): nat
    requires mn < 12
  {
    var common :=
      if mn == 0 then 0 else if mn == 1 then 31 else if mn == 2 then 59
      else if mn == 3 then 90 else if mn == 4 then 120 else if mn == 5 then 151
      else if mn == 6 then 181 else if mn == 7 then 212 else if mn == 8 then 243
      else if mn == 9 then 273 else if mn == 10 then 304 else 334;
    if mn >= 2 && IsLeapYear(y) then common + 1 else common
  }

  /**
   * ECMA-262 MakeDay: the day number of day `dt` of the 0-based month `m` of
   * year `y`, where `m` and `dt` may fall outside their usual ranges and
   * overflow into neighbouring months and years (as in `setMonth(m, dt)`).
   */
  function MakeDay(y: int, m: int, dt: int): int
  {
    var ym := y + m / 12;
    var mn := m % 12;
    DayFromYear(ym) + DaysBeforeMonth(ym, mn) + dt - 1
  }

  /** The day number of a calendar day: the days before its year, before its month, and before it. */
  function DayNumber(d: Date): int
  {
    DayFromYear(d.year) + DaysBeforeMonth(d.year, d.month - 1) + d.day - 1
  }

  /** Within a year, MakeDay needs no normalisation. */
  lemma MakeDayInYear(y: int, mn: int, dt: int)
    requires 0 <= mn < 12
    ensures MakeDay(y, mn, dt) == DayFromYear(y) + DaysBeforeMonth(y, mn) + dt - 1
  {
  }

  /** Month 12 of year `y` is January of the next year. */
  lemma MakeDayInNextYear(y: int, dt: int)
    ensures MakeDay(y, 12, dt) == DayFromYear(y + 1) + dt - 1
  {
  }

  /** A calendar day's number is the one ECMA-262 MakeDay gives for its year, 0-based month and day. */
  lemma DayNumberIsMakeDay(d: Date)
    ensures DayNumber(d) == MakeDay(d.year, d.month - 1, d.day)
  {
    MakeDayInYear(d.year, d.month - 1, d.day);
  }

  /** ECMA-262 WeekDay: 0 is Sunday; 1970-01-01 was a Thursday. */
  function WeekDay(d: Date): (w: nat)
    ensures w < 7
  {
    (DayNumber(d) + 4) % 7
  }

  /** One more makes the quotient by 4 grow exactly at multiples of 4; likewise for 100 and 400. */
  lemma NextQuotient4(a: int)
    ensures (a + 1) / 4 == a / 4 + (if (a + 1) % 4 == 0 then 1 else 0)
  {
  }

  lemma NextQuotient100(a: int)
    ensures (a + 1) / 100 == a / 100 + (if (a + 1) % 100 == 0 then 1 else 0)
  {
  }

  lemma NextQuotient400(a: int)
    ensures (a + 1) / 400 == a / 400 + (if (a + 1) % 400 == 0 then 1 else 0)
  {
  }

  /** The epoch offsets of DayFromYear are multiples of the leap-year periods. */
  lemma EpochOffset4(y: int)
    ensures (y - 1968) % 4 == y % 4
  {
  }

  lemma EpochOffset100(y: int)
    ensures (y - 1900) % 100 == y % 100
  {
  }

  lemma EpochOffset400(y: int)
    ensures (y - 1600) % 400 == y % 400
  {
  }

  /** A multiple of 400 is a multiple of 100, and a multiple of 100 is a multiple of 4. */
  lemma MultipleOf400(y: int)
    requires y % 400 == 0
    ensures y % 100 == 0
  {
    var q := y / 400;
    assert y == 100 * (4 * q);
  }

  lemma MultipleOf100(y: int)
    requires y % 100 == 0
    ensures y % 4 == 0
  {
    var q := y / 100;
    assert y == 4 * (25 * q);
  }

  /** Each year adds its own length to the day number of January 1. */
  lemma DayFromYearNext(y: int)
    ensures DayFromYear(y + 1) == DayFromYear(y) + YearLength(y)
  {
    NextQuotient4(y - 1969);
    NextQuotient100(y - 1901);
    NextQuotient400(y - 1601);
    EpochOffset4(y);
    EpochOffset100(y);
    EpochOffset400(y);
    if y % 400 == 0 {
      MultipleOf400(y);
      MultipleOf100(y);
    } else if y % 100 == 0 {
      MultipleOf100(y);
    }
  }

  lemma {:induction false} DayFromYearMonotone(y1: int, y2: int)
    requires y1 <= y2
    ensures DayFromYear(y1) + 365 * (y2 - y1) <= DayFromYear(y2)
    decreases y2 - y1
  {
    if y1 < y2 {
      DayFromYearMonotone(y1, y2 - 1);
      DayFromYearNext(y2 - 1);
    }
  }

  /** The first of the following month lies `DaysInMonth` days after the first of this one. */
  lemma DaysBeforeNextMonth(y: int, mn: nat)
    requires mn < 11
    ensures DaysBeforeMonth(y, mn + 1) == DaysBeforeMonth(y, mn) + DaysInMonth(y, mn + 1)
  {
  }

  lemma {:induction false} DaysBeforeMonthGrows(y: int, i: nat, j: nat)
    requires i < j < 12
    ensures DaysBeforeMonth(y, i) + DaysInMonth(y, i + 1) <= DaysBeforeMonth(y, j)
    decreases j - i
  {
    DaysBeforeNextMonth(y, i);
    if i + 1 < j {
      DaysBeforeMonthGrows(y, i + 1, j);
    }
  }

  /** Day numbers of one year lie between its January 1 and the next one's. */
  lemma DayNumberWithinYear(d: Date)
    ensures DayFromYear(d.year) <= DayNumber(d) < DayFromYear(d.year + 1)
  {
    DayFromYearNext(d.year);
    if d.month < 12 {
      DaysBeforeMonthGrows(d.year, d.month - 1, 11);
    }
  }

  /**
   * The order on (year, month, day) triples is the order of the days on the
   * time line, so comparing two dates is comparing their day numbers, as
   * JavaScript does when it compares two `Date` objects.
   */
  lemma {:induction false} BeforeIffEarlierDayNumber(a: Date, b: Date)
    ensures Before(a, b) <==> DayNumber(a) < DayNumber(b)
  {
    if Before(a, b) {
      BeforeHasEarlierDayNumber(a, b);
    } else if a != b {
      BeforeHasEarlierDayNumber(b, a);
    }
  }

  lemma BeforeHasEarlierDayNumber(a: Date, b: Date)
    requires Before(a, b)
    ensures DayNumber(a) < DayNumber(b)
  {
    if a.year < b.year {
      EarlierYearHasEarlierDayNumber(a, b);
    } else if a.month < b.month {
      EarlierMonthHasEarlierDayNumber(a, b);
    } else {
    }
  }

  lemma EarlierMonthHasEarlierDayNumber(a: Date, b: Date)
    requires a.year == b.year && a.month < b.month
    ensures DayNumber(a) < DayNumber(b)
  {
    DaysBeforeMonthGrows(a.year, a.month - 1, b.month - 1);
  }

  lemma EarlierYearHasEarlierDayNumber(a: Date, b: Date)
    requires a.year < b.year
    ensures DayNumber(a) < DayNumber(b)
  {
    DayNumberWithinYear(a);
    DayNumberWithinYear(b);
    DayFromYearMonotone(a.year + 1, b.year);
  }

  // ---------------------------------------------------------------------------
  // Stepping, as the setters of a JavaScript `Date` do it
  // ---------------------------------------------------------------------------

  /** The day after `d`. */
  function NextDay(d: Date): (r: Date)
    ensures Before(d, r)
  {
    if d.day < DaysInMonth(d.year, d.month) then Ymd(d.year, d.month, d.day + 1)
    else if d.month < 12 then Ymd(d.year, d.month + 1, 1)
    else Ymd(d.year + 1, 1, 1)
  }

  /** NextDay is one day on: the day number grows by one. */
  lemma NextDayNumber(d: Date)
    ensures DayNumber(NextDay(d)) == DayNumber(d) + 1
  {
    if d.day == DaysInMonth(d.year, d.month) {
      if d.month < 12 {
        DaysBeforeNextMonth(d.year, d.month - 1);
      } else {
        DayFromYearNext(d.year);
      }
    }
  }

  /** `setDate(getDate() + n)`: the day `n` days after `d`. */
  function AddDays(d: Date, n: nat): (r: Date)
    ensures DayNumber(r) == DayNumber(d) + n
  {
    if n == 0 then d
    else
      NextDayNumber(AddDays(d, n - 1));
      NextDay(AddDays(d, n - 1))
  }

  /**
   * `setMonth(getMonth() + 1)`: the same day of the following month; a day
   * that month lacks (January 31 in February) overflows into the month
   * after.
   */
  function AddMonth(d: Date): (r: Date)
    ensures Before(d, r)
  {
    if d.month == 12 then Ymd(d.year + 1, 1, d.day)
    else if d.day <= DaysInMonth(d.year, d.month + 1) then Ymd(d.year, d.month + 1, d.day)
    else
      // a 31st before a 30-day month, or the 29th to 31st before February;
      // December has 31 days, so the month after is in the same year
      Ymd(d.year, d.month + 2, d.day - DaysInMonth(d.year, d.month + 1))
  }

  /** AddMonth lands on the day ECMA-262 MakeDay gives for the same day of the next month. */
  lemma AddMonthNumber(d: Date)
    ensures DayNumber(AddMonth(d)) == MakeDay(d.year, d.month, d.day)
  {
    var r := AddMonth(d);
    if d.month == 12 {
      MakeDayInNextYear(d.year, d.day);
    } else {
      MakeDayInYear(d.year, d.month, d.day);
      if d.day > DaysInMonth(d.year, d.month + 1) {
        DaysBeforeNextMonth(d.year, d.month);
      }
    }
  }

  /**
   * `setFullYear(getFullYear() + 1)`: the same month and day a year later;
   * February 29 becomes March 1 when the next year is not a leap year.
   */
  function AddYear(d: Date): (r: Date)
    ensures Before(d, r)
  {
    if d.month == 2 && d.day == 29 && !IsLeapYear(d.year + 1) then Ymd(d.year + 1, 3, 1)
    else Ymd(d.year + 1, d.month, d.day)
  }

  /** AddYear lands on the day ECMA-262 MakeDay gives for the same month and day a year later. */
  lemma AddYearNumber(d: Date)
    ensures DayNumber(AddYear(d)) == MakeDay(d.year + 1, d.month - 1, d.day)
  {
    MakeDayInYear(d.year + 1, d.month - 1, d.day);
  }

  // ---------------------------------------------------------------------------
  // Text: ISO 8601 "YYYY-MM-DD"
  // ---------------------------------------------------------------------------

  function DigitChar(n: nat): char
    requires n < 10
  {
    (('0' as int) + n) as char
  }

  predicate IsDigit(c: char)
  {
    '0' <= c <= '9'
  }

  predicate AllDigits(s: string)
  {
    forall i :: 0 <= i < |s| ==> IsDigit(s[i])
  }

  /** `String(n)` for a non-negative integer: its decimal digits without leading zeros. */
  function NatToString(n: nat): (s: string)
    ensures |s| >= 1 && AllDigits(s)
  {
    if n < 10 then [DigitChar(n)] else NatToString(n / 10) + [DigitChar(n % 10)]
  }

  /** `String(n)` for any integer. */
  function IntToString(n: int): string
  {
    if n < 0 then "-" + NatToString(-n) else NatToString(n)
  }

  function Zeros(k: nat): (s: string)
    ensures |s| == k
  {
    seq(k, _ => '0')
  }

  /** `s.padStart(width, "0")`. */
  function PadStart(s: string, width: nat): (r: string)
  {
    if |s| >= width then s else Zeros(width - |s|) + s
  }

  /**
   * The year as `toISOString` writes it: four digits for 0..9999, otherwise
   * the expanded form with a sign and six digits.
   */
  function IsoYear(y: int): string
  {
    if 0 <= y <= 9999 then PadStart(NatToString(y), 4)
    else (if y < 0 then "-" else "+") + PadStart(NatToString(if y < 0 then -y else y), 6)
  }

  /** The date part of `toISOString()`: "YYYY-MM-DD", month and day zero-padded. */
  function FormatDate(d: Date): string
  {
    IsoYear(d.year) + "-" + PadStart(NatToString(d.month), 2) + "-" + PadStart(NatToString(d.day), 2)
  }

  /** The value of a string of decimal digits. */
  function DigitsValue(s: string): nat
    requires AllDigits(s)
  {
    if s == [] then 0 else DigitsValue(s[..|s| - 1]) * 10 + (s[|s| - 1] as int - '0' as int)
  }

  /** The date a strict "YYYY-MM-DD" string names, or None when it names no day. */
  function ParseDate(s: string): Option<Date>
  {
    if |s| == 10 && s[4] == '-' && s[7] == '-' && AllDigits(s[..4]) && AllDigits(s[5..7]) && AllDigits(s[8..]) then
      var y, m, d := DigitsValue(s[..4]), DigitsValue(s[5..7]), DigitsValue(s[8..]);
      if 1 <= m <= 12 && 1 <= d <= DaysInMonth(y, m) then Some(Ymd(y, m, d)) else None
    else
      None
  }

  /** Exactly `k` digits of `n` (the last `k` when `n` has more). */
  function FixedDigits(n: nat, k: nat): (s: string)
    ensures |s| == k && AllDigits(s)
  {
    if k == 0 then [] else FixedDigits(n / 10, k - 1) + [DigitChar(n % 10)]
  }

  function Pow10(k: nat): (p: nat)
    ensures p >= 1
  {
    if k == 0 then 1 else 10 * Pow10(k - 1)
  }

  lemma {:induction false} FixedDigitsOfZero(k: nat)
    ensures FixedDigits(0, k) == Zeros(k)
  {
    if k > 0 {
      FixedDigitsOfZero(k - 1);
      assert Zeros(k) == Zeros(k - 1) + ['0'];
    }
  }

  lemma {:induction false} NatToStringShort(n: nat, k: nat)
    requires k >= 1 && n < Pow10(k)
    ensures |NatToString(n)| <= k
  {
    if n >= 10 {
      NatToStringShort(n / 10, k - 1);
    }
  }

  lemma {:induction false} NatToStringLong(n: nat, k: nat)
    requires n >= Pow10(k)
    ensures |NatToString(n)| > k
  {
    if k > 0 {
      NatToStringLong(n / 10, k - 1);
    }
  }

  /** Padding `String(n)` to `k` places gives exactly `k` digits of `n`. */
  lemma {:induction false} PaddedIsFixed(n: nat, k: nat)
    requires k >= 1 && n < Pow10(k)
    ensures PadStart(NatToString(n), k) == FixedDigits(n, k)
  {
    if n < 10 {
      FixedDigitsOfZero(k - 1);
      assert Zeros(k - 1) + [DigitChar(n)] == FixedDigits(0, k - 1) + [DigitChar(n % 10)];
    } else {
      var a := NatToString(n / 10);
      NatToStringShort(n / 10, k - 1);
      PaddedIsFixed(n / 10, k - 1);
      assert PadStart(a + [DigitChar(n % 10)], k) == PadStart(a, k - 1) + [DigitChar(n % 10)];
    }
  }

  lemma {:induction false} FixedDigitsValue(n: nat, k: nat)
    requires n < Pow10(k)
    ensures DigitsValue(FixedDigits(n, k)) == n
  {
    if k > 0 {
      var s := FixedDigits(n, k);
      assert s[..|s| - 1] == FixedDigits(n / 10, k - 1);
      FixedDigitsValue(n / 10, k - 1);
    }
  }

  lemma {:induction false} DigitsValueBound(s: string)
    requires AllDigits(s)
    ensures DigitsValue(s) < Pow10(|s|)
  {
    if s != [] {
      DigitsValueBound(s[..|s| - 1]);
    }
  }

  /** Reading a digit string and writing its value back with as many places gives it back. */
  lemma {:induction false} FixedDigitsOfValue(s: string)
    requires AllDigits(s)
    ensures FixedDigits(DigitsValue(s), |s|) == s
  {
    if s != [] {
      var init, v := s[..|s| - 1], s[|s| - 1] as int - '0' as int;
      FixedDigitsOfValue(init);
      assert (DigitsValue(init) * 10 + v) / 10 == DigitsValue(init);
      assert (DigitsValue(init) * 10 + v) % 10 == v;
      assert s == init + [s[|s| - 1]];
    }
  }

  /** The three fields of a "YYYY-MM-DD" text sit at fixed positions. */
  lemma DateTextFields(y: string, m: string, dd: string)
    requires |y| == 4 && |m| == 2 && |dd| == 2
    ensures var s := y + "-" + m + "-" + dd;
      |s| == 10 && s[4] == '-' && s[7] == '-' && s[..4] == y && s[5..7] == m && s[8..] == dd
  {
  }

  /** A ten-character text with dashes at positions 4 and 7 is its three fields joined by dashes. */
  lemma DateTextJoin(s: string)
    requires |s| == 10 && s[4] == '-' && s[7] == '-'
    ensures s == s[..4] + "-" + s[5..7] + "-" + s[8..]
  {
  }

  /** A four-digit year, month and day written by FormatDate are read back by ParseDate. */
  lemma ParseFormattedDate(d: Date)
    requires 0 <= d.year <= 9999
    ensures ParseDate(FormatDate(d)) == Some(d)
  {
    assert Pow10(2) == 100 && Pow10(4) == 10000;
    PaddedIsFixed(d.year, 4);
    PaddedIsFixed(d.month, 2);
    PaddedIsFixed(d.day, 2);
    var y, m, dd := FixedDigits(d.year, 4), FixedDigits(d.month, 2), FixedDigits(d.day, 2);
    assert FormatDate(d) == y + "-" + m + "-" + dd;
    DateTextFields(y, m, dd);
    FixedDigitsValue(d.year, 4);
    FixedDigitsValue(d.month, 2);
    FixedDigitsValue(d.day, 2);
  }

  /** Every string ParseDate accepts is the canonical form FormatDate writes for its date. */
  lemma FormatParsedDate(s: string)
    requires ParseDate(s).Some?
    ensures FormatDate(ParseDate(s).value) == s
  {
    var d := ParseDate(s).value;
    var y, m, dd := s[..4], s[5..7], s[8..];
    DigitsValueBound(y);
    DigitsValueBound(m);
    DigitsValueBound(dd);
    FixedDigitsOfValue(y);
    FixedDigitsOfValue(m);
    FixedDigitsOfValue(dd);
    PaddedIsFixed(d.year, 4);
    PaddedIsFixed(d.month, 2);
    PaddedIsFixed(d.day, 2);
    DateTextJoin(s);
  }

  /** Distinct four-digit-year dates have distinct "YYYY-MM-DD" forms. */
  lemma FormatDateInjective(a: Date, b: Date)
    requires 0 <= a.year <= 9999 && 0 <= b.year <= 9999
    requires FormatDate(a) == FormatDate(b)
    ensures a == b
  {
    ParseFormattedDate(a);
    ParseFormattedDate(b);
  }

  /** From year 1000 on, `String(year)` already has four digits, so no padding is added. */
  lemma PadFourDigitYear(y: nat)
    requires 1000 <= y
    ensures PadStart(NatToString(y), 4) == NatToString(y)
  {
    NatToStringLong(y, 3);
  }
}
