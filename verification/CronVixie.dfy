/**
 The day rule of the schedules (internal/cicd/cron.go, CronSpec.Match) against the one its opening comment names,
 Vixie cron's. There a day field counts as starred if it begins with a star, here only if it is a lone one.
 */
module CronVixie {
  import opened Calendar
  import opened Cron
  import opened CronRules
  import opened NextFire
  import opened Text

  /** The days by Vixie cron, where `starred` says that a day field begins with a star: then both must hold. */
  predicate VixieDay(c: CronSpec, starred: bool, day: nat) {
    && DateOf(day).month in c.month
    && if starred then DateOf(day).day in c.dom && OnWeekday(c, day) else DateOf(day).day in c.dom || OnWeekday(c, day)
  }

  /** Every day of every listed month, the 29th of February with them. */
  ghost predicate AllDates(c: CronSpec) {
    forall month, d :: month in c.month && 1 <= d <= MonthLength(true, month) ==> d in c.dom
  }

  ghost predicate SameAsVixie(c: CronSpec, starred: bool) {
    forall day: nat :: DayMatches(c, day) == VixieDay(c, starred, day)
  }

  /** In the schedule's months, its days of the month are its weekdays. */
  ghost predicate DaysCoincide(c: CronSpec) {
    forall day: nat :: DateOf(day).month in c.month ==> (DateOf(day).day in c.dom <==> OnWeekday(c, day))
  }

  /** The first of the month, in a common year that a common year follows. */
  lemma TwoFirsts(month: int)
    requires 1 <= month <= 12
    ensures First(2021, month) >= 0 && First(2022, month) == First(2021, month) + 365
  {
    LeapShift(month);
    assert !Leap(2021) && !Leap(2022);
    assert YearStart(2021) == 737790 && YearStart(2022) == 738155;
    MonthTable(false);
  }

  lemma OffsetDate(y: int, month: int, offset: nat)
    requires 1 <= month <= 12 && offset < 28 && First(y, month) + offset >= 0
    ensures DateOf(First(y, month) + offset) == Date(y, month, 1 + offset)
  {
    DayShift(y, month, offset);
    DateOfDayNumber(Date(y, month, 1 + offset));
  }

  lemma YearLater(day: int)
    ensures Weekday(day + 365) == if Weekday(day) == 6 then 0 else Weekday(day) + 1
  {
  }

  /** A date of the months listed is one of the days of the month exactly if its weekday counts. */
  lemma CoincidesOn(c: CronSpec, y: int, month: int, offset: nat, w: int)
    requires DaysCoincide(c) && month in c.month && 1 <= month <= 12 && offset < 28 && First(y, month) >= 0
    requires Weekday(First(y, month) + offset) == w
    ensures 1 + offset in c.dom <==> HasWeekday(c, w)
  {
    OffsetDate(y, month, offset);
    assert DateOf(First(y, month) + offset).month in c.month;
  }

  /** The same date a year later is one weekday later. */
  lemma NextWeekday(c: CronSpec, month: int, w: int)
    requires DaysCoincide(c) && month in c.month && 1 <= month <= 12 && 0 <= w <= 5
    ensures HasWeekday(c, w) <==> HasWeekday(c, w + 1)
  {
    TwoFirsts(month);
    var first := First(2021, month);
    var offset := Until(first, w);
    YearLater(first + offset);
    CoincidesOn(c, 2021, month, offset, w);
    CoincidesOn(c, 2022, month, offset, w + 1);
  }

  lemma OneWeekdayMeansAll(c: CronSpec, month: int)
    requires DaysCoincide(c) && month in c.month && 1 <= month <= 12
    requires exists w :: 0 <= w <= 6 && HasWeekday(c, w)
    ensures forall w :: 0 <= w <= 6 ==> HasWeekday(c, w)
  {
    NextWeekday(c, month, 0);
    NextWeekday(c, month, 1);
    NextWeekday(c, month, 2);
    NextWeekday(c, month, 3);
    NextWeekday(c, month, 4);
    NextWeekday(c, month, 5);
  }

  lemma SomeWeekday(c: CronSpec)
    requires Parsed(c)
    ensures exists w :: 0 <= w <= 6 && HasWeekday(c, w)
  {
    var w := Pick(c.dow);
    assert HasWeekday(c, if w == 7 then 0 else w);
  }

  lemma AllDatesFrom(c: CronSpec)
    requires DaysCoincide(c) && AllWeekdays(c) && forall month :: month in c.month ==> 1 <= month <= 12
    ensures AllDates(c)
  {
    forall month, d | month in c.month && 1 <= d <= MonthLength(true, month) ensures d in c.dom {
      LeapDate(month, d);
      assert DateOf(DayNumber(Date(2024, month, d))).month in c.month;
    }
  }

  lemma CoincideMeansAll(c: CronSpec)
    requires Parsed(c) && DaysCoincide(c)
    ensures AllWeekdays(c) && AllDates(c)
  {
    var month := Pick(c.month);
    SomeWeekday(c);
    OneWeekdayMeansAll(c, month);
    AllDatesFrom(c);
  }

  lemma LeapDate(month: int, d: int)
    requires 1 <= month <= 12 && 1 <= d <= MonthLength(true, month)
    ensures DayNumber(Date(2024, month, d)) >= 0
    ensures DateOf(DayNumber(Date(2024, month, d))) == Date(2024, month, d)
  {
    assert Leap(2024) && YearStart(2024) > 0;
    DateInYear(Date(2024, month, d));
    DateOfDayNumber(Date(2024, month, d));
  }

  lemma AllCoincide(c: CronSpec)
    requires AllWeekdays(c) && AllDates(c)
    ensures DaysCoincide(c)
  {
    forall day: nat | DateOf(day).month in c.month ensures DateOf(day).day in c.dom && OnWeekday(c, day) {
      assert DateOf(day).day <= MonthLength(true, DateOf(day).month);
    }
  }

  /** The rules differ on a day exactly if only theirs sees a star there and just one of the two kinds of day counts. */
  lemma VixieOnDay(c: CronSpec, starred: bool, day: nat)
    requires Parsed(c) && (c.domStar || c.dowStar ==> starred)
    ensures DayMatches(c, day) != VixieDay(c, starred, day)
       <==> starred && !c.domStar && !c.dowStar && DateOf(day).month in c.month
            && ((DateOf(day).day in c.dom) != OnWeekday(c, day))
  {
    CodeDay(c, day);
  }

  /**
   Both select the same days exactly if each star that begins a day field is a lone one in one of them, or every day
   of the listed months and every weekday counts anyway.
   */
  lemma VixieIff(c: CronSpec, starred: bool)
    requires Parsed(c) && (c.domStar || c.dowStar ==> starred)
    ensures SameAsVixie(c, starred) <==> (starred ==> c.domStar || c.dowStar || (AllWeekdays(c) && AllDates(c)))
  {
    forall day: nat ensures DayMatches(c, day) != VixieDay(c, starred, day)
        <==> starred && !c.domStar && !c.dowStar && DateOf(day).month in c.month
             && ((DateOf(day).day in c.dom) != OnWeekday(c, day)) {
      VixieOnDay(c, starred, day);
    }
    if DaysCoincide(c) {
      CoincideMeansAll(c);
    }
    if AllWeekdays(c) && AllDates(c) {
      AllCoincide(c);
    }
  }

  // ---- On expressions ----

  /** A day field begins with a star. */
  predicate DayStarred(expr: string) {
    var fields := Fields(Trim(expr));
    |fields| == 5 && ((fields[2] != "" && fields[2][0] == '*') || (fields[4] != "" && fields[4][0] == '*'))
  }

  /** For every expression the parser accepts, exactly on that condition. */
  lemma ExpressionAsVixie(expr: string)
    ensures CronOf(expr).Some? ==>
              var c, starred := CronOf(expr).value, DayStarred(expr);
              SameAsVixie(c, starred) == (starred ==> c.domStar || c.dowStar || (AllWeekdays(c) && AllDates(c)))
  {
    if CronOf(expr).Some? {
      ParsedSpec(expr);
      VixieIff(CronOf(expr).value, DayStarred(expr));
    }
  }
}
