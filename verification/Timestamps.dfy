/**
 The text of UTC time stamps as `isoformat` writes it, with the six-digit fraction or, when it is zero, without. SQL
 compares these texts; the results here justify that the other modules compare numbers.
 */
module Timestamps {
  import opened Prelude
  import opened TextOrder

  /** A UTC datetime, in the ranges that Python's datetime accepts. */
  datatype Moment = Moment(year: nat, month: nat, day: nat, hour: nat, minute: nat, second: nat, micro: nat)

  predicate LeapYear(year: nat) {
    year % 4 == 0 && (year % 100 != 0 || year % 400 == 0)
  }

  function DaysInMonth(year: nat, month: nat): nat {
    if month == 2 then (if LeapYear(year) then 29 else 28)
    else if month == 4 || month == 6 || month == 9 || month == 11 then 30
    else 31
  }

  predicate Valid(m: Moment) {
    && 1 <= m.year <= 9999 && 1 <= m.month <= 12 && 1 <= m.day <= DaysInMonth(m.year, m.month)
    && m.hour < 24 && m.minute < 60 && m.second < 60 && m.micro < 1_000_000
  }

  // ---------------------------------------------------------------- chronological order

  function DaysBeforeYear(year: nat): nat {
    if year <= 1 then 0 else DaysBeforeYear(year - 1) + (if LeapYear(year - 1) then 366 else 365)
  }

  function DaysBeforeMonth(year: nat, month: nat): nat {
    if month <= 1 then 0 else DaysBeforeMonth(year, month - 1) + DaysInMonth(year, month - 1)
  }

  function Day(m: Moment): nat {
    DaysBeforeYear(m.year) + DaysBeforeMonth(m.year, m.month) + m.day
  }

  /** Microseconds since the first day of the calendar. */
  function Instant(m: Moment): Stamp {
    (((Day(m) * 24 + m.hour) * 60 + m.minute) * 60 + m.second) * 1_000_000 + m.micro
  }

  /** The fields compared from the year down. */
  predicate Earlier(a: Moment, b: Moment) {
    if a.year != b.year then a.year < b.year
    else if a.month != b.month then a.month < b.month
    else if a.day != b.day then a.day < b.day
    else if a.hour != b.hour then a.hour < b.hour
    else if a.minute != b.minute then a.minute < b.minute
    else if a.second != b.second then a.second < b.second
    else a.micro < b.micro
  }

  lemma {:induction false} YearsAdvance(a: nat, b: nat)
    requires 1 <= a < b
    ensures DaysBeforeYear(a) + (if LeapYear(a) then 366 else 365) <= DaysBeforeYear(b)
  {
    if a + 1 < b {
      YearsAdvance(a, b - 1);
    }
  }

  lemma {:induction false} MonthsAdvance(year: nat, a: nat, b: nat)
    requires 1 <= a < b
    ensures DaysBeforeMonth(year, a) + DaysInMonth(year, a) <= DaysBeforeMonth(year, b)
  {
    if a + 1 < b {
      MonthsAdvance(year, a, b - 1);
    }
  }

  lemma MonthsOfYear(year: nat)
    ensures DaysBeforeMonth(year, 2) == 31
    ensures DaysBeforeMonth(year, 3) == 31 + DaysInMonth(year, 2)
    ensures DaysBeforeMonth(year, 6) == DaysBeforeMonth(year, 3) + 92
    ensures DaysBeforeMonth(year, 9) == DaysBeforeMonth(year, 6) + 92
    ensures DaysBeforeMonth(year, 12) == DaysBeforeMonth(year, 9) + 91
  {
    assert DaysBeforeMonth(year, 4) == DaysBeforeMonth(year, 3) + 31;
    assert DaysBeforeMonth(year, 5) == DaysBeforeMonth(year, 4) + 30;
    assert DaysBeforeMonth(year, 7) == DaysBeforeMonth(year, 6) + 30;
    assert DaysBeforeMonth(year, 8) == DaysBeforeMonth(year, 7) + 31;
    assert DaysBeforeMonth(year, 10) == DaysBeforeMonth(year, 9) + 30;
    assert DaysBeforeMonth(year, 11) == DaysBeforeMonth(year, 10) + 31;
  }

  /** A day lies within its year. */
  lemma DayInYear(m: Moment)
    requires Valid(m)
    ensures DaysBeforeMonth(m.year, m.month) + m.day <= if LeapYear(m.year) then 366 else 365
  {
    MonthsOfYear(m.year);
    if m.month < 12 {
      MonthsAdvance(m.year, m.month, 12);
    }
  }

  lemma DaysOrdered(a: Moment, b: Moment)
    requires Valid(a) && Valid(b)
    requires a.year < b.year || (a.year == b.year && (a.month < b.month || (a.month == b.month && a.day < b.day)))
    ensures Day(a) < Day(b)
  {
    if a.year < b.year {
      DayInYear(a);
      YearsAdvance(a.year, b.year);
    } else if a.month < b.month {
      MonthsAdvance(a.year, a.month, b.month);
    }
  }

  lemma EarlierMeansBefore(a: Moment, b: Moment)
    requires Valid(a) && Valid(b) && Earlier(a, b)
    ensures Instant(a) < Instant(b)
  {
    if a.year != b.year || a.month != b.month || a.day != b.day {
      DaysOrdered(a, b);
    }
    hide Day;
  }

  /** The fields order moments as their instants do, and name each instant once. */
  lemma FieldsAreChronological(a: Moment, b: Moment)
    requires Valid(a) && Valid(b)
    ensures Earlier(a, b) <==> Instant(a) < Instant(b)
    ensures a == b <==> Instant(a) == Instant(b)
  {
    hide Instant;
    if Earlier(a, b) {
      EarlierMeansBefore(a, b);
    } else if a != b {
      EarlierMeansBefore(b, a);
    }
  }

  // ---------------------------------------------------------------- the text

  /** The decimal digits of n, zero-padded to a width. */
  function Digits(n: nat, width: nat): (text: string)
    ensures |text| == width
  {
    if width == 0 then [] else Digits(n / 10, width - 1) + ['0' + (n % 10) as char]
  }

  function Power(width: nat): nat {
    if width == 0 then 1 else 10 * Power(width - 1)
  }

  /** The fraction is left out when it is zero. */
  function Fraction(m: Moment): string {
    if m.micro == 0 then "+00:00" else "." + (Digits(m.micro, 6) + "+00:00")
  }

  function FromSecond(m: Moment): string { Digits(m.second, 2) + ("" + Fraction(m)) }

  function FromMinute(m: Moment): string { Digits(m.minute, 2) + (":" + FromSecond(m)) }

  function FromHour(m: Moment): string { Digits(m.hour, 2) + (":" + FromMinute(m)) }

  function FromDay(m: Moment): string { Digits(m.day, 2) + ("T" + FromHour(m)) }

  function FromMonth(m: Moment): string { Digits(m.month, 2) + ("-" + FromDay(m)) }

  /** `isoformat` of a UTC datetime: YYYY-MM-DDTHH:MM:SS[.ffffff]+00:00. */
  function IsoFormat(m: Moment): string { Digits(m.year, 4) + ("-" + FromMonth(m)) }

  /** Numbers of one width are ordered as their digits are. */
  lemma {:induction false} DigitsOrdered(a: nat, b: nat, width: nat)
    requires a < Power(width) && b < Power(width)
    ensures Less(Digits(a, width), Digits(b, width)) <==> a < b
    ensures Digits(a, width) == Digits(b, width) <==> a == b
  {
    if width > 0 {
      DigitsOrdered(a / 10, b / 10, width - 1);
      var high, other := Digits(a / 10, width - 1), Digits(b / 10, width - 1);
      var low, last := ['0' + (a % 10) as char], ['0' + (b % 10) as char];
      assert a == a / 10 * 10 + a % 10 && b == b / 10 * 10 + b % 10;
      if a / 10 == b / 10 {
        LessPrefix(high, low, last);
        if a != b { assert Digits(a, width)[width - 1] != Digits(b, width)[width - 1]; }
      } else {
        LessByHead(high, other, low, last);
        assert Digits(a, width)[..width - 1] == high && Digits(b, width)[..width - 1] == other;
      }
    }
  }

  /** Two texts that begin with a number of one width, a separator, and a rest. */
  lemma FieldOrder(a: nat, b: nat, width: nat, separator: string, c: string, d: string)
    requires a < Power(width) && b < Power(width)
    ensures var one, other := Digits(a, width) + (separator + c), Digits(b, width) + (separator + d);
            && (Less(one, other) <==> a < b || (a == b && Less(c, d)))
            && (one == other <==> a == b && c == d)
  {
    hide Digits, Power;
    var one, other := Digits(a, width) + (separator + c), Digits(b, width) + (separator + d);
    DigitsOrdered(a, b, width);
    assert one[..width] == Digits(a, width) && other[..width] == Digits(b, width);
    if a == b {
      LessPrefix(Digits(a, width), separator + c, separator + d);
      LessPrefix(separator, c, d);
      assert one[width..][|separator|..] == c && other[width..][|separator|..] == d;
    } else {
      LessByHead(Digits(a, width), Digits(b, width), separator + c, separator + d);
    }
  }

  lemma Powers()
    ensures Power(2) == 100 && Power(4) == 10_000 && Power(6) == 1_000_000
  {}

  /** A missing fraction sorts before every written one, because '+' comes before '.'. */
  lemma FractionOrder(a: Moment, b: Moment)
    requires Valid(a) && Valid(b)
    ensures Less(Fraction(a), Fraction(b)) <==> a.micro < b.micro
    ensures Fraction(a) == Fraction(b) <==> a.micro == b.micro
  {
    hide Digits, Power;
    Powers();
    LessIrreflexive("+00:00");
    if a.micro != 0 && b.micro != 0 {
      FieldOrder(a.micro, b.micro, 6, "", "+00:00", "+00:00");
      assert "" + "+00:00" == "+00:00";
      LessPrefix(".", Digits(a.micro, 6) + "+00:00", Digits(b.micro, 6) + "+00:00");
      assert Fraction(a)[1..] == Digits(a.micro, 6) + "+00:00" && Fraction(b)[1..] == Digits(b.micro, 6) + "+00:00";
    } else {
      assert "+00:00"[0] == '+' && '+' < '.';
      assert a.micro != 0 ==> Fraction(a)[0] == '.';
      assert b.micro != 0 ==> Fraction(b)[0] == '.';
    }
  }

  /** Time stamp order: the text comparison of SQL is the chronological one, also between a stamp with a fraction and
      one without, and equal texts are equal instants. */
  lemma TextIsChronological(a: Moment, b: Moment)
    requires Valid(a) && Valid(b)
    ensures Less(IsoFormat(a), IsoFormat(b)) <==> Instant(a) < Instant(b)
    ensures IsoFormat(a) == IsoFormat(b) <==> Instant(a) == Instant(b)
  {
    hide Digits, Power, Less, Instant;
    Powers();
    FieldsAreChronological(a, b);
    FractionOrder(a, b);
    hide Fraction;
    FieldOrder(a.second, b.second, 2, "", Fraction(a), Fraction(b));
    FieldOrder(a.minute, b.minute, 2, ":", FromSecond(a), FromSecond(b));
    FieldOrder(a.hour, b.hour, 2, ":", FromMinute(a), FromMinute(b));
    FieldOrder(a.day, b.day, 2, "T", FromHour(a), FromHour(b));
    FieldOrder(a.month, b.month, 2, "-", FromDay(a), FromDay(b));
    FieldOrder(a.year, b.year, 4, "-", FromMonth(a), FromMonth(b));
  }
}
