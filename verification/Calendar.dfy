/**
 The proleptic Gregorian calendar, as days counted from Monday, 1 January of year 1.
 */
module Calendar {

  predicate Leap(y: int) {
    y % 4 == 0 && (y % 100 != 0 || y % 400 == 0)
  }

  function YearLength(y: int): int {
    if Leap(y) then 366 else 365
  }

  /** The day number of 1 January. */
  function YearStart(y: int): int {
    365 * (y - 1) + (y - 1) / 4 - (y - 1) / 100 + (y - 1) / 400
  }

  lemma YearStep(y: int)
    ensures YearStart(y + 1) == YearStart(y) + YearLength(y)
  {
    LeapDays(y - 1);
  }

  /** One more multiple of d has been passed exactly if d divides the next number. */
  lemma LeapDays(n: int)
    ensures (n + 1) / 4 == n / 4 + (if (n + 1) % 4 == 0 then 1 else 0)
    ensures (n + 1) / 100 == n / 100 + (if (n + 1) % 100 == 0 then 1 else 0)
    ensures (n + 1) / 400 == n / 400 + (if (n + 1) % 400 == 0 then 1 else 0)
    ensures (n + 1) % 400 == 0 ==> (n + 1) % 100 == 0
    ensures (n + 1) % 100 == 0 ==> (n + 1) % 4 == 0
  {
  }

  function YearOf(day: nat): (y: int)
    ensures y >= 1 && YearStart(y) <= day < YearStart(y) + YearLength(y)
  {
    if day == 0 then 1
    else
      var y := YearOf(day - 1);
      if day < YearStart(y) + YearLength(y) then y
      else
        YearStep(y);
        y + 1
  }

  lemma {:induction false} YearsOrdered(a: int, b: int)
    requires a < b
    ensures YearStart(a) + YearLength(a) <= YearStart(b)
    decreases b - a
  {
    YearStep(b - 1);
    if a < b - 1 {
      YearsOrdered(a, b - 1);
    }
  }

  /** A day has one year. */
  lemma YearUnique(day: nat, y: int)
    requires YearStart(y) <= day < YearStart(y) + YearLength(y)
    ensures YearOf(day) == y
  {
    var z := YearOf(day);
    if z < y {
      YearsOrdered(z, y);
    } else if y < z {
      YearsOrdered(y, z);
    }
  }

  // ---- Months ----

  function MonthLength(leap: bool, month: int): int {
    if month == 2 then (if leap then 29 else 28)
    else if month == 4 || month == 6 || month == 9 || month == 11 then 30
    else 31
  }

  /** The days of the year before the first of the month; month 13 is the end of the year. */
  function DaysBefore(leap: bool, month: int): int
    requires 1 <= month <= 13
  {
    if month == 1 then 0 else DaysBefore(leap, month - 1) + MonthLength(leap, month - 1)
  }

  function MonthIn(leap: bool, dayOfYear: int, month: int): (m: int)
    requires 1 <= month <= 12
    requires DaysBefore(leap, month) <= dayOfYear < DaysBefore(leap, 13)
    ensures month <= m <= 12 && DaysBefore(leap, m) <= dayOfYear < DaysBefore(leap, m) + MonthLength(leap, m)
    decreases 12 - month
  {
    if dayOfYear < DaysBefore(leap, month) + MonthLength(leap, month) || month == 12 then month
    else MonthIn(leap, dayOfYear, month + 1)
  }

  lemma {:induction false} MonthsOrdered(leap: bool, a: int, b: int)
    requires 1 <= a < b <= 13
    ensures DaysBefore(leap, a) + MonthLength(leap, a) <= DaysBefore(leap, b)
    decreases b - a
  {
    if a < b - 1 {
      MonthsOrdered(leap, a, b - 1);
    }
  }

  lemma MonthTable(leap: bool)
    ensures DaysBefore(leap, 1) == 0 && DaysBefore(leap, 2) == 31
    ensures var k := if leap then 1 else 0;
      && DaysBefore(leap, 3) == 59 + k && DaysBefore(leap, 4) == 90 + k && DaysBefore(leap, 5) == 120 + k
      && DaysBefore(leap, 6) == 151 + k && DaysBefore(leap, 7) == 181 + k && DaysBefore(leap, 8) == 212 + k
      && DaysBefore(leap, 9) == 243 + k && DaysBefore(leap, 10) == 273 + k && DaysBefore(leap, 11) == 304 + k
      && DaysBefore(leap, 12) == 334 + k && DaysBefore(leap, 13) == 365 + k
  {
    assert DaysBefore(leap, 3) == DaysBefore(leap, 2) + MonthLength(leap, 2);
    assert DaysBefore(leap, 4) == DaysBefore(leap, 3) + 31;
    assert DaysBefore(leap, 5) == DaysBefore(leap, 4) + 30;
    assert DaysBefore(leap, 6) == DaysBefore(leap, 5) + 31;
    assert DaysBefore(leap, 7) == DaysBefore(leap, 6) + 30;
    assert DaysBefore(leap, 8) == DaysBefore(leap, 7) + 31;
    assert DaysBefore(leap, 9) == DaysBefore(leap, 8) + 31;
    assert DaysBefore(leap, 10) == DaysBefore(leap, 9) + 30;
    assert DaysBefore(leap, 11) == DaysBefore(leap, 10) + 31;
    assert DaysBefore(leap, 12) == DaysBefore(leap, 11) + 30;
  }

  // ---- Dates ----

  datatype Date = Date(year: int, month: int, day: int)

  predicate IsDate(d: Date) {
    1 <= d.month <= 12 && 1 <= d.day <= MonthLength(Leap(d.year), d.month)
  }

  function DayNumber(d: Date): int
    requires 1 <= d.month <= 12
  {
    YearStart(d.year) + DaysBefore(Leap(d.year), d.month) + d.day - 1
  }

  function DateOf(day: nat): (d: Date)
    ensures IsDate(d) && d.year >= 1 && DayNumber(d) == day
  {
    var year := YearOf(day);
    var leap, dayOfYear := Leap(year), day - YearStart(year);
    MonthTable(leap);
    var month := MonthIn(leap, dayOfYear, 1);
    Date(year, month, dayOfYear - DaysBefore(leap, month) + 1)
  }

  lemma DateInYear(d: Date)
    requires IsDate(d)
    ensures YearStart(d.year) <= DayNumber(d) < YearStart(d.year) + YearLength(d.year)
  {
    var leap := Leap(d.year);
    MonthTable(leap);
    if d.month > 1 {
      MonthsOrdered(leap, 1, d.month);
    }
    MonthsOrdered(leap, d.month, 13);
  }

  /** Day numbers and dates name each other. */
  lemma DateOfDayNumber(d: Date)
    requires IsDate(d) && DayNumber(d) >= 0
    ensures DateOf(DayNumber(d)) == d
  {
    var day := DayNumber(d);
    DateInYear(d);
    YearUnique(day, d.year);
    var leap := Leap(d.year);
    var month := DateOf(day).month;
    if month < d.month {
      MonthsOrdered(leap, month, d.month);
    } else if d.month < month {
      MonthsOrdered(leap, d.month, month);
    }
  }

  /** 0 is Sunday. */
  function Weekday(day: int): (w: int)
    ensures 0 <= w <= 6
  {
    (day + 1) % 7
  }

  // ---- The calendar by its own rules ----

  /** Leap years are those that 4 divides, without the centuries that 400 does not divide. */
  lemma LastOfFebruary(y: int)
    ensures MonthLength(Leap(y), 2) == if y % 4 == 0 && (y % 100 != 0 || y % 400 == 0) then 29 else 28
  {
  }

  /** The day after a date, with the lengths of the months written out. */
  function Next(d: Date): Date {
    var last := if d.month == 2 then (if d.year % 4 == 0 && (d.year % 100 != 0 || d.year % 400 == 0) then 29 else 28)
                else if d.month in {4, 6, 9, 11} then 30
                else 31;
    if d.day < last then Date(d.year, d.month, d.day + 1)
    else if d.month < 12 then Date(d.year, d.month + 1, 1)
    else Date(d.year + 1, 1, 1)
  }

  lemma NextNumber(d: Date)
    requires IsDate(d)
    ensures IsDate(Next(d)) && DayNumber(Next(d)) == DayNumber(d) + 1
  {
    LastOfFebruary(d.year);
    if d.day == MonthLength(Leap(d.year), d.month) && d.month == 12 {
      MonthTable(Leap(d.year));
      YearStep(d.year);
    }
  }

  lemma DateAt(day: nat, d: Date)
    requires IsDate(d) && DayNumber(d) == day
    ensures DateOf(day) == d
  {
    DateOfDayNumber(d);
  }

  lemma DateAfter(day: nat, d: Date)
    requires IsDate(d) && DayNumber(d) == day
    ensures DateOf(day + 1) == Next(d)
  {
    NextNumber(d);
    DateAt(day + 1, Next(d));
  }

  lemma NumberOf(day: nat) returns (d: Date)
    ensures d == DateOf(day) && IsDate(d) && DayNumber(d) == day
  {
    d := DateOf(day);
  }

  /** The calendar starts on 1 January of year 1, and each day has the date after that of the day before. */
  lemma DaysInOrder(day: nat)
    ensures day == 0 ==> DateOf(day) == Date(1, 1, 1)
    ensures DateOf(day + 1) == Next(DateOf(day))
  {
    if day == 0 {
      DateAt(day, Date(1, 1, 1));
    }
    var d := NumberOf(day);
    DateAfter(day, d);
  }

  /** The first day is a Monday, and the weekdays follow each other. */
  lemma WeekdaysInOrder(day: nat)
    ensures day == 0 ==> Weekday(day) == 1
    ensures Weekday(day + 1) == if Weekday(day) == 6 then 0 else Weekday(day) + 1
    ensures Weekday(day + 146097) == Weekday(day)
  {
  }

  /** The day after the 28th of February is the 29th exactly in a leap year of the Gregorian calendar. */
  lemma AfterFebruary28(day: nat)
    requires DateOf(day).month == 2 && DateOf(day).day == 28
    ensures var y := DateOf(day).year;
      DateOf(day + 1) == if y % 4 == 0 && (y % 100 != 0 || y % 400 == 0) then Date(y, 2, 29) else Date(y, 3, 1)
  {
    var d := NumberOf(day);
    DateAfter(day, d);
  }

  lemma FourHundredYears(y: int)
    ensures YearStart(y + 400) == YearStart(y) + 146097
    ensures Leap(y + 400) == Leap(y)
  {
    assert (y + 399) / 4 == (y - 1) / 4 + 100;
    assert (y + 399) / 100 == (y - 1) / 100 + 4;
    assert (y + 399) / 400 == (y - 1) / 400 + 1;
    assert (y + 400) % 4 == y % 4 && (y + 400) % 100 == y % 100 && (y + 400) % 400 == y % 400;
  }

  lemma DateRepeats(day: nat, d: Date)
    requires IsDate(d) && DayNumber(d) == day
    ensures DateOf(day + 146097) == Date(d.year + 400, d.month, d.day)
  {
    FourHundredYears(d.year);
    DateAt(day + 146097, Date(d.year + 400, d.month, d.day));
  }

  /** Any 400 years have 146097 days. */
  lemma CalendarRepeats(day: nat)
    ensures DateOf(day + 146097) == DateOf(day).(year := DateOf(day).year + 400)
  {
    var d := NumberOf(day);
    DateRepeats(day, d);
  }

  /** Known days, on both sides of two centuries. */
  lemma KnownDays(day: nat)
    ensures day == 719162 ==> DateOf(day) == Date(1970, 1, 1)
    ensures day == 730178 ==> DateOf(day) == Date(2000, 2, 29)
    ensures day == 737790 ==> DateOf(day) == Date(2021, 1, 1)
    ensures day == 740405 ==> DateOf(day) == Date(2028, 2, 29)
    ensures day == 766703 ==> DateOf(day) == Date(2100, 3, 1)
  {
    if day == 719162 {
      KnownDay(day, Date(1970, 1, 1));
    } else if day == 730178 {
      KnownDay(day, Date(2000, 2, 29));
    } else if day == 737790 {
      KnownDay(day, Date(2021, 1, 1));
    } else if day == 740405 {
      KnownDay(day, Date(2028, 2, 29));
    } else if day == 766703 {
      KnownDay(day, Date(2100, 3, 1));
    }
  }

  /** No day is 29 February 2100. */
  lemma NoSuchDate(day: nat)
    ensures DateOf(day) != Date(2100, 2, 29)
  {
    var d := NumberOf(day);
    LastOfFebruary(d.year);
  }

  lemma KnownDay(day: nat, d: Date)
    requires IsDate(d) && d.month <= 3
    requires day == YearStart(d.year) + (if d.month == 1 then 0 else if d.month == 2 then 31 else if Leap(d.year) then 60 else 59) + d.day - 1
    ensures DateOf(day) == d
  {
    MonthTable(Leap(d.year));
    DateAt(day, d);
  }

  // ---- What a window of 366 days contains ----

  /** A leap year has one day more from March on. */
  lemma LeapShift(month: int)
    requires 1 <= month <= 12
    ensures DaysBefore(true, month) == DaysBefore(false, month) + (if month > 2 then 1 else 0)
  {
    MonthTable(true);
    MonthTable(false);
  }

  lemma NoTwoLeapYears(y: int)
    ensures !(Leap(y) && Leap(y + 1))
  {
  }

  /** The same date of a common year is 365 or 366 days later. */
  lemma NextYear(y: int, month: int, day: int)
    requires 1 <= month <= 12
    ensures DayNumber(Date(y, month, day)) + 365 <= DayNumber(Date(y + 1, month, day)) <= DayNumber(Date(y, month, day)) + 366
  {
    YearStep(y);
    LeapShift(month);
    NoTwoLeapYears(y);
  }

  /** A date of a common year, as year 1 is, is one of every year. */
  lemma CommonDateIsDate(y: int, month: int, day: int)
    requires IsDate(Date(1, month, day))
    ensures IsDate(Date(y, month, day))
  {
    assert !Leap(1);
  }

  lemma WithinTheYear(y: int, month: int, day: int, from: nat)
    requires IsDate(Date(y, month, day)) && YearOf(from) == y
    ensures from - 366 < DayNumber(Date(y, month, day)) < from + 366
  {
    DateInYear(Date(y, month, day));
  }

  /** The first time the date comes at or after a day is within 366 days; the year before it came less than 366 days earlier. */
  lemma DateComes(from: nat, month: int, day: int) returns (y: int)
    requires IsDate(Date(1, month, day))
    ensures y >= 1 && IsDate(Date(y, month, day)) && from <= DayNumber(Date(y, month, day)) < from + 366
    ensures y == YearOf(from) || DayNumber(Date(y - 1, month, day)) < from
  {
    y := YearOf(from);
    CommonDateIsDate(y, month, day);
    CommonDateIsDate(y + 1, month, day);
    WithinTheYear(y, month, day, from);
    if DayNumber(Date(y, month, day)) < from {
      NextYear(y, month, day);
      y := y + 1;
    }
  }
}
