/**
 The day rule of the schedules (internal/cicd/cron.go, CronSpec.Match) against the one of the crontab utility in
 POSIX.1-2017 XCU, section INPUT FILES: they differ in whether a restricted month also limits restricted
 days of the week.
 */
module CronRules {
  import opened Calendar
  import opened Cron
  import opened NextFire
  import opened Text

  /** Sunday is 0 or 7. */
  predicate HasWeekday(c: CronSpec, w: int) {
    w in c.dow || (w == 0 && 7 in c.dow)
  }

  predicate OnWeekday(c: CronSpec, day: nat) {
    HasWeekday(c, Weekday(day))
  }

  predicate OnDate(c: CronSpec, day: nat) {
    DateOf(day).month in c.month && DateOf(day).day in c.dom
  }

  /**
   The days by the standard: with a starred day of the week those of the month and day of month; with both of
   these starred those of the week; and otherwise any day of either.
   */
  predicate PosixDay(c: CronSpec, monthStar: bool, day: nat) {
    if c.dowStar then OnDate(c, day)
    else if monthStar && c.domStar then OnWeekday(c, day)
    else OnDate(c, day) || OnWeekday(c, day)
  }

  ghost predicate AllWeekdays(c: CronSpec) {
    forall w :: 0 <= w <= 6 ==> HasWeekday(c, w)
  }

  /**
   When both rules select the same days: the days of the week are starred, or the month is, or it lists every
   month and a starred day of month does not stand beside a true restriction of the week.
   */
  ghost predicate RulesAgree(c: CronSpec, monthStar: bool) {
    c.dowStar || monthStar || (Everything(c.month, 1, 12) && (c.domStar ==> AllWeekdays(c)))
  }

  /** A parsed schedule together with whether its month was starred. */
  ghost predicate ParsedWithMonth(c: CronSpec, monthStar: bool) {
    Parsed(c) && (monthStar ==> Everything(c.month, 1, 12))
  }

  /** The code's rule for a day, with starred fields as the full sets they are. */
  lemma CodeDay(c: CronSpec, day: nat)
    requires Parsed(c)
    ensures DayMatches(c, day) <==>
            DateOf(day).month in c.month &&
            (if c.domStar || c.dowStar then DateOf(day).day in c.dom && OnWeekday(c, day)
             else DateOf(day).day in c.dom || OnWeekday(c, day))
  {
    LongestMonth(DateOf(day));
  }

  lemma AgreeingRules(c: CronSpec, monthStar: bool, day: nat)
    requires ParsedWithMonth(c, monthStar) && RulesAgree(c, monthStar)
    ensures DayMatches(c, day) == PosixDay(c, monthStar, day)
  {
    CodeDay(c, day);
    LongestMonth(DateOf(day));
  }

  /** A day where they differ: a listed weekday in a month left out, or another weekday in a listed month. */
  lemma DifferingDay(c: CronSpec, monthStar: bool) returns (day: nat)
    requires ParsedWithMonth(c, monthStar) && !RulesAgree(c, monthStar)
    ensures PosixDay(c, monthStar, day) && !DayMatches(c, day)
  {
    if !Everything(c.month, 1, 12) {
      var month :| 1 <= month <= 12 && month !in c.month;
      var w := Pick(c.dow);
      day := WeekdayComes(0, month, if w == 7 then 0 else w);
    } else {
      var w :| 0 <= w <= 6 && !HasWeekday(c, w);
      var month := Pick(c.month);
      day := WeekdayComes(0, month, w);
      LongestMonth(DateOf(day));
    }
    CodeDay(c, day);
  }

  ghost predicate SameDays(c: CronSpec, monthStar: bool) {
    forall day: nat :: DayMatches(c, day) == PosixDay(c, monthStar, day)
  }

  /** Whatever day the code selects, the standard selects too; and both select the same days exactly on that condition. */
  lemma SameDaysIff(c: CronSpec, monthStar: bool)
    requires ParsedWithMonth(c, monthStar)
    ensures forall day: nat :: DayMatches(c, day) ==> PosixDay(c, monthStar, day)
    ensures SameDays(c, monthStar) <==> RulesAgree(c, monthStar)
  {
    forall day: nat | DayMatches(c, day) ensures PosixDay(c, monthStar, day) {
      CodeDay(c, day);
      LongestMonth(DateOf(day));
    }
    if RulesAgree(c, monthStar) {
      forall day: nat ensures DayMatches(c, day) == PosixDay(c, monthStar, day) {
        AgreeingRules(c, monthStar, day);
      }
    } else {
      var day := DifferingDay(c, monthStar);
    }
  }

  // ---- On expressions ----

  /** The field the parser does not keep. */
  predicate MonthStarred(expr: string) {
    var fields := Fields(Trim(expr));
    |fields| == 5 && fields[3] == "*"
  }

  lemma ParsedExpression(expr: string)
    ensures CronOf(expr).Some? ==> ParsedWithMonth(CronOf(expr).value, MonthStarred(expr))
  {
    ParsedSpec(expr);
    var fields := Fields(Trim(expr));
    if |fields| == 5 && FieldsParse(fields) {
      FieldAtWithin(fields, 3);
    }
  }

  /** Every expression the parser accepts fires on the days of the standard exactly on that condition. */
  lemma ExpressionSameDays(expr: string)
    ensures CronOf(expr).Some? ==> SameDays(CronOf(expr).value, MonthStarred(expr)) ==
                                   RulesAgree(CronOf(expr).value, MonthStarred(expr))
  {
    ParsedExpression(expr);
    if CronOf(expr).Some? {
      SameDaysIff(CronOf(expr).value, MonthStarred(expr));
    }
  }
}
