/**
 The next time a cron expression fires (internal/cicd/engine.go, NextCronFire): a search minute by minute
 over 366 days. Time is a minute counter in a zone with a fixed offset, from the start of year 1.
 */
module NextFire {
  import opened Calendar
  import opened Cron
  import opened Options

  const MINUTES_PER_DAY := 1440
  const PROBES := 366 * 24 * 60

  predicate MatchAt(c: CronSpec, t: nat) {
    var date := DateOf(t / MINUTES_PER_DAY);
    Match(c, t % 60, t / 60 % 24, date.day, date.month, Weekday(t / MINUTES_PER_DAY))
  }

  /** The search: the next full minute, and then minute by minute until one matches or the probes run out. */
  method NextCronFire(spec: Option<CronSpec>, nowSeconds: nat) returns (r: Option<nat>)
    ensures spec.None? ==> r.None?
    ensures r.Some? ==> nowSeconds / 60 < r.value <= nowSeconds / 60 + 366 * 1440 && MatchAt(spec.value, r.value)
    ensures r.Some? ==> forall u: nat :: nowSeconds / 60 < u < r.value ==> !MatchAt(spec.value, u)
    ensures spec.Some? && r.None? ==>
              forall u: nat :: nowSeconds / 60 < u <= nowSeconds / 60 + 366 * 1440 ==> !MatchAt(spec.value, u)
  {
    if spec.None? {
      return None;
    }
    var t := (nowSeconds + 60) / 60;
    var limit := 0;
    while limit < PROBES
      invariant 0 <= limit <= PROBES && t == nowSeconds / 60 + 1 + limit
      invariant forall u: nat :: nowSeconds / 60 < u < t ==> !MatchAt(spec.value, u)
    {
      if MatchAt(spec.value, t) {
        return Some(t);
      }
      t, limit := t + 1, limit + 1;
    }
    return None;
  }

  ghost predicate Fires(c: CronSpec, now: nat) {
    exists u: nat :: now < u <= now + PROBES && MatchAt(c, u)
  }

  // ---- Days ----

  predicate DayMatches(c: CronSpec, day: nat) {
    var date := DateOf(day);
    var domHit := c.domStar || date.day in c.dom;
    var dowHit := c.dowStar || Weekday(day) in c.dow || (Weekday(day) == 0 && 7 in c.dow);
    date.month in c.month && if !c.domStar && !c.dowStar then domHit || dowHit else domHit && dowHit
  }

  lemma MinuteOfDay(day: nat, r: nat)
    requires r < MINUTES_PER_DAY
    ensures (day * MINUTES_PER_DAY + r) / MINUTES_PER_DAY == day
  {
  }

  lemma MinuteOfHour(hours: nat, minute: nat)
    requires minute < 60
    ensures (hours * 60 + minute) / 60 == hours && (hours * 60 + minute) % 60 == minute
  {
  }

  lemma HourOfDay(day: nat, hour: nat)
    requires hour < 24
    ensures (day * 24 + hour) % 24 == hour
  {
  }

  lemma MatchOnDay(c: CronSpec, day: nat, hour: nat, minute: nat)
    requires hour < 24 && minute < 60
    ensures MatchAt(c, day * MINUTES_PER_DAY + hour * 60 + minute)
       <==> minute in c.minute && hour in c.hour && DayMatches(c, day)
  {
    var t := day * MINUTES_PER_DAY + hour * 60 + minute;
    MinuteOfDay(day, hour * 60 + minute);
    assert t == (day * 24 + hour) * 60 + minute;
    MinuteOfHour(day * 24 + hour, minute);
    HourOfDay(day, hour);
  }

  /** A time of day comes once on each of 366 consecutive days among the probes. */
  lemma ProbedDays(now: nat, timeOfDay: nat) returns (from: nat)
    requires timeOfDay < MINUTES_PER_DAY
    ensures forall day: nat :: from <= day < from + 366 ==> now < day * MINUTES_PER_DAY + timeOfDay <= now + PROBES
  {
    from := (now + 1) / MINUTES_PER_DAY;
    if (now + 1) % MINUTES_PER_DAY > timeOfDay {
      from := from + 1;
    }
  }

  lemma Pick<T>(s: set<T>) returns (x: T)
    requires s != {}
    ensures x in s
  {
    x :| x in s;
  }

  /** If some day of any 366 in a row matches, the search always finds a minute. */
  lemma FoundOnDays(c: CronSpec, now: nat)
    requires Parsed(c)
    requires forall from: nat :: SomeDayMatches(c, from)
    ensures Fires(c, now)
  {
    var hour := Pick(c.hour);
    var minute := Pick(c.minute);
    var from := ProbedDays(now, hour * 60 + minute);
    assert SomeDayMatches(c, from);
    var day: nat :| from <= day < from + 366 && DayMatches(c, day);
    MatchOnDay(c, day, hour, minute);
    assert MatchAt(c, day * MINUTES_PER_DAY + hour * 60 + minute);
  }

  ghost predicate SomeDayMatches(c: CronSpec, from: nat) {
    exists day: nat :: from <= day < from + 366 && DayMatches(c, day)
  }

  /** Some allowed month and day of month exist in a common year. */
  ghost predicate CommonDate(c: CronSpec) {
    exists month, day :: month in c.month && day in c.dom && day <= MonthLength(false, month)
  }

  lemma DateFound(c: CronSpec, from: nat)
    requires Parsed(c) && c.dowStar && CommonDate(c)
    ensures SomeDayMatches(c, from)
  {
    var month, day :| month in c.month && day in c.dom && day <= MonthLength(false, month);
    var y := DateComes(from, month, day);
    var date := Date(y, month, day);
    DateOfDayNumber(date);
    assert DayMatches(c, DayNumber(date));
  }

  function First(y: int, month: int): int
    requires 1 <= month <= 12
  {
    DayNumber(Date(y, month, 1))
  }

  lemma DayShift(y: int, month: int, offset: nat)
    requires 1 <= month <= 12
    ensures DayNumber(Date(y, month, 1 + offset)) == First(y, month) + offset
  {
  }

  /** A day of the month counted from its first. */
  lemma DayInMonth(y: int, month: int, offset: nat)
    requires 1 <= month <= 12 && offset < 28 && First(y, month) + offset >= 0
    ensures DateOf(First(y, month) + offset).month == month
  {
    DayShift(y, month, offset);
    DateOfDayNumber(Date(y, month, 1 + offset));
  }

  function Until(first: int, w: int): (offset: nat)
    requires 0 <= w <= 6
    ensures offset <= 6 && Weekday(first + offset) == w && Weekday(first + 7 + offset) == w
  {
    (w - Weekday(first)) % 7
  }

  lemma WeekAfter(first: int, w: int, after: nat) returns (k: nat)
    requires 0 <= w <= 6 && (after == 0 || after == 7) && first + after >= 0
    ensures first + after <= k <= first + after + 6 && Weekday(k) == w
  {
    k := first + after + Until(first, w);
  }

  /** The first and second week of a month have every weekday. */
  lemma WeekOf(y: int, month: int, w: int, after: nat) returns (k: nat)
    requires 1 <= month <= 12 && 0 <= w <= 6 && (after == 0 || after == 7) && First(y, month) + after >= 0
    ensures First(y, month) + after <= k <= First(y, month) + after + 6
    ensures DateOf(k).month == month && Weekday(k) == w
  {
    var first := First(y, month);
    k := WeekAfter(first, w, after);
    DayInMonth(y, month, k - first);
  }

  /** Any 366 days in a row have every weekday in every month, although one week of it may fall across their end. */
  lemma WeekdayComes(from: nat, month: int, w: int) returns (k: nat)
    requires 1 <= month <= 12 && 0 <= w <= 6
    ensures from <= k < from + 366 && DateOf(k).month == month && Weekday(k) == w
  {
    var y := DateComes(from, month, 1);
    if First(y, month) + 6 < from + 366 {
      k := WeekOf(y, month, w, 0);
    } else {
      NextYear(y - 1, month, 1);
      EarlierIsBefore(from, y, month);
      k := WeekOf(y - 1, month, w, 7);
    }
  }

  lemma EarlierIsBefore(from: nat, y: int, month: int)
    requires 1 <= month <= 12
    requires y == YearOf(from) || First(y - 1, month) < from
    ensures First(y - 1, month) < from
  {
    FirstInYear(y - 1, month);
  }

  lemma FirstInYear(y: int, month: int)
    requires 1 <= month <= 12
    ensures First(y, month) < YearStart(y + 1)
  {
    DateInYear(Date(y, month, 1));
    YearStep(y);
  }

  lemma WeekdayFound(c: CronSpec, from: nat)
    requires Parsed(c) && !c.dowStar
    ensures SomeDayMatches(c, from)
  {
    var month := Pick(c.month);
    var w := Pick(c.dow);
    var k := WeekdayComes(from, month, if w == 7 then 0 else w);
    WeekdayEnough(c, k, w);
  }

  lemma WeekdayEnough(c: CronSpec, day: nat, w: int)
    requires !c.dowStar && w in c.dow && Weekday(day) == (if w == 7 then 0 else w) && DateOf(day).month in c.month
    ensures DayMatches(c, day)
  {
  }

  /** The start of 2021, which is followed by 366 days of common years. */
  const DRY_START: nat := YearStart(2021) * MINUTES_PER_DAY - 1

  lemma CommonYears(day: nat)
    requires YearStart(2021) <= day < YearStart(2021) + 366
    ensures !Leap(YearOf(day))
  {
    YearStep(2021);
    if day < YearStart(2021) + 365 {
      YearUnique(day, 2021);
    } else {
      YearUnique(day, 2022);
    }
  }

  /** A date of a common year that the schedule does not allow. */
  lemma DateLeftOut(c: CronSpec, date: Date)
    requires !c.domStar && c.dowStar && !CommonDate(c) && IsDate(date) && !Leap(date.year)
    ensures !(date.month in c.month && date.day in c.dom)
  {
  }

  lemma DryDay(c: CronSpec, day: nat)
    requires Parsed(c) && !c.domStar && c.dowStar && !CommonDate(c)
    requires YearStart(2021) <= day < YearStart(2021) + 366
    ensures !DayMatches(c, day)
  {
    CommonYears(day);
    DateLeftOut(c, DateOf(day));
  }

  lemma LongestMonth(date: Date)
    requires IsDate(date)
    ensures 1 <= date.day <= 31
  {
  }

  lemma MatchNeedsDay(c: CronSpec, t: nat)
    requires MatchAt(c, t)
    ensures DayMatches(c, t / MINUTES_PER_DAY)
  {
  }

  lemma NeverFound(c: CronSpec)
    requires Parsed(c) && !c.domStar && c.dowStar && !CommonDate(c)
    ensures !Fires(c, DRY_START)
  {
    forall u: nat | DRY_START < u <= DRY_START + PROBES ensures !MatchAt(c, u) {
      DryDay(c, u / MINUTES_PER_DAY);
      if MatchAt(c, u) {
        MatchNeedsDay(c, u);
      }
    }
  }

  lemma StarHasCommonDate(c: CronSpec)
    requires Parsed(c) && c.domStar
    ensures CommonDate(c)
  {
    var month := Pick(c.month);
    assert 1 in c.dom && 1 <= MonthLength(false, month);
  }

  lemma AlwaysFires(c: CronSpec)
    requires Parsed(c) && !(c.dowStar && !CommonDate(c))
    ensures forall now: nat :: Fires(c, now)
  {
    forall from: nat ensures SomeDayMatches(c, from) {
      if c.dowStar {
        DateFound(c, from);
      } else {
        WeekdayFound(c, from);
      }
    }
    forall now: nat ensures Fires(c, now) {
      FoundOnDays(c, now);
    }
  }

  /**
   The bound of 366 days is enough from every start, except for an expression that restricts only the day of
   the month and allows no date of a common year; and for each of those it is too short from some start.
   */
  lemma AlwaysFound(c: CronSpec)
    requires Parsed(c)
    ensures (forall now: nat :: Fires(c, now)) <==> !(c.dowStar && !CommonDate(c))
    ensures c.domStar ==> CommonDate(c)
  {
    if c.domStar {
      StarHasCommonDate(c);
    }
    if c.dowStar && !CommonDate(c) {
      NeverFound(c);
    } else {
      AlwaysFires(c);
    }
  }
}
