/**
 Expressions the parser accepts (internal/cicd/cron.go) on which the schedules fall short: Mondays in January by the
 standard's day rule, every other day together with Mondays by Vixie cron's, and 29 February by the bound on the search.
 */
module CronExamples {
  import opened Calendar
  import opened Cron
  import opened CronRules
  import opened CronVixie
  import opened NextFire
  import opened Options
  import opened Text

  // ---- Expressions of plain numbers and stars ----

  lemma SingleValue(text: string, v: int, min: int, max: int)
    requires OneNumber(text, v) && min <= v <= max
    ensures FieldOf(text, min, max) == Some({v})
  {
    OnePiece(text);
    OnePart(text, v, min, max);
    OneHit(v, min, max);
    assert Ranges([text], min, max) == [Some(Stepped(v, v, 1))];
  }

  lemma OnePiece(text: string)
    requires ',' !in text
    ensures Split(text, ',') == [text]
  {
    SplitAppend("", text, ',');
    assert "" + text == text;
  }

  lemma OnePart(text: string, v: int, min: int, max: int)
    requires OneNumber(text, v) && min <= v <= max
    ensures PartOf(text, min, max) == Some(Stepped(v, v, 1))
  {
    TrimOfTrimmed(text);
  }

  /** A text that is nothing but one numeral. */
  ghost predicate OneNumber(text: string, v: int) {
    Trimmed(text) && text != "" && text != "*" && ',' !in text && '/' !in text && '-' !in text && Numeral(text, v)
  }

  lemma OneHit(v: int, min: int, max: int)
    requires min <= v <= max
    ensures Hits([Some(Stepped(v, v, 1))], min, max) == {v}
  {
    var ranges := [Some(Stepped(v, v, 1))];
    assert ranges[0].Some? && InStepped(v, ranges[0].value);
    assert Hit(ranges, v);
  }

  lemma NumericWord(s: string)
    requires s != "" && Numeric(s)
    ensures Word(s) && Trimmed(s) && s[0] != '*' && ',' !in s && '/' !in s && '-' !in s
  {
  }

  /** A text of digits alone that reads as this number. */
  ghost predicate IsNumber(text: string, v: int) {
    text != "" && Numeric(text) && OneNumber(text, v)
  }

  lemma Number(n: nat)
    requires n <= MAX_INT64
    ensures IsNumber(Itoa(n), n)
  {
    AtoiItoa(n);
    NumericWord(Itoa(n));
  }

  /** A numeral as a field is just its number. */
  lemma NumberAt(fields: seq<string>, k: nat, n: nat)
    requires |fields| == 5 && k < 5 && n <= MAX_INT64 && fields[k] == Itoa(n) && Bounds(k).0 <= n <= Bounds(k).1
    ensures FieldAt(fields, k) == Some({n as int}) && fields[k] != "*"
  {
    Number(n);
    SingleValue(fields[k], n, Bounds(k).0, Bounds(k).1);
  }

  lemma StarAt(fields: seq<string>, k: nat) returns (all: set<int>)
    requires |fields| == 5 && k < 5 && fields[k] == "*"
    ensures FieldAt(fields, k) == Some(all)
  {
    StarRanges(Bounds(k).0, Bounds(k).1);
    NeverEmpty("*", Bounds(k).0, Bounds(k).1);
    all := FieldAt(fields, k).value;
  }

  function Expression(a: string, b: string, c: string, d: string, e: string): string {
    (((a + " " + b) + " " + c) + " " + d) + " " + e
  }

  lemma NextWord(s: string, words: seq<string>, w: string)
    requires s != "" && Fields(s) == words && Word(w)
    ensures Fields(s + " " + w) == words + [w]
  {
    FieldsNext(s, " ", w);
  }

  lemma FirstWord(w: string)
    requires Word(w)
    ensures Fields(w) == [w]
  {
    FieldsNext("", "", w);
    assert "" + "" + w == w;
  }

  lemma WordsOf(a: string, b: string, c: string, d: string, e: string)
    requires Word(a) && Word(b) && Word(c) && Word(d) && Word(e)
    ensures Fields(Expression(a, b, c, d, e)) == [a, b, c, d, e]
  {
    FirstWord(a);
    NextWord(a, [a], b);
    NextWord(a + " " + b, [a] + [b], c);
    NextWord((a + " " + b) + " " + c, [a] + [b] + [c], d);
    NextWord(((a + " " + b) + " " + c) + " " + d, [a] + [b] + [c] + [d], e);
    Snoc5(a, b, c, d, e);
  }

  lemma Snoc5(a: string, b: string, c: string, d: string, e: string)
    ensures [a] + [b] + [c] + [d] + [e] == [a, b, c, d, e]
  {
  }

  lemma OuterWords(a: string, middle: string, e: string)
    requires Word(a) && Word(e)
    ensures Trimmed(a + middle + e)
  {
  }

  lemma FieldsOfExpression(a: string, b: string, c: string, d: string, e: string)
    requires Word(a) && Word(b) && Word(c) && Word(d) && Word(e)
    ensures Fields(Trim(Expression(a, b, c, d, e))) == [a, b, c, d, e]
  {
    var middle := " " + b + " " + c + " " + d + " ";
    OuterWords(a, middle, e);
    assert Expression(a, b, c, d, e) == a + middle + e;
    TrimOfTrimmed(Expression(a, b, c, d, e));
    WordsOf(a, b, c, d, e);
  }

  predicate StarOrDigits(text: string) {
    text == "*" || (text != "" && Numeric(text))
  }

  lemma IsWord(text: string)
    requires StarOrDigits(text)
    ensures Word(text)
  {
    if text != "*" {
      NumericWord(text);
    }
  }

  lemma ExpressionFields(a: string, b: string, c: string, d: string, e: string)
    requires StarOrDigits(a) && StarOrDigits(b) && StarOrDigits(c) && StarOrDigits(d) && StarOrDigits(e)
    ensures Fields(Trim(Expression(a, b, c, d, e))) == [a, b, c, d, e]
  {
    IsWord(a);
    IsWord(b);
    IsWord(c);
    IsWord(d);
    IsWord(e);
    FieldsOfExpression(a, b, c, d, e);
  }

  lemma CronOfFields(expr: string, fields: seq<string>)
    requires Fields(Trim(expr)) == fields && |fields| == 5 && FieldsParse(fields)
    ensures CronOf(expr) == Some(SpecOf(fields)) && (MonthStarred(expr) <==> fields[3] == "*")
  {
  }

  lemma SpecIs(fields: seq<string>, c: CronSpec)
    requires |fields| == 5 && FieldAt(fields, 0) == Some(c.minute) && FieldAt(fields, 1) == Some(c.hour)
    requires FieldAt(fields, 2) == Some(c.dom) && FieldAt(fields, 3) == Some(c.month) && FieldAt(fields, 4) == Some(c.dow)
    requires c.domStar == (fields[2] == "*") && c.dowStar == (fields[4] == "*")
    ensures FieldsParse(fields) && SpecOf(fields) == c
  {
  }

  /** What the five fields of an expression mean is what the expression means. */
  lemma ExpressionIs(fields: seq<string>, expr: string, c: CronSpec)
    requires |fields| == 5 && Fields(Trim(expr)) == fields
    requires FieldAt(fields, 0) == Some(c.minute) && FieldAt(fields, 1) == Some(c.hour)
    requires FieldAt(fields, 2) == Some(c.dom) && FieldAt(fields, 3) == Some(c.month) && FieldAt(fields, 4) == Some(c.dow)
    requires c.domStar == (fields[2] == "*") && c.dowStar == (fields[4] == "*")
    ensures CronOf(expr) == Some(c) && (MonthStarred(expr) <==> fields[3] == "*")
  {
    SpecIs(fields, c);
    CronOfFields(expr, fields);
  }

  // ---- Mondays in January ----

  const MONDAYS_IN_JANUARY := "0 0 * 1 1"

  lemma MondaysText(zero: string, one: string, star: string)
    requires zero == Itoa(0) && one == Itoa(1) && star == "*"
    ensures Expression(zero, zero, star, one, one) == MONDAYS_IN_JANUARY
  {
    assert zero == "0" && one == "1";
  }

  lemma MondayNumbers(fields: seq<string>, zero: nat, one: nat)
    requires |fields| == 5 && fields[0] == fields[1] == Itoa(zero) && fields[3] == fields[4] == Itoa(one)
    requires zero < 24 && 1 <= one <= 7
    ensures FieldAt(fields, 0) == Some({zero as int}) && FieldAt(fields, 1) == Some({zero as int})
    ensures FieldAt(fields, 3) == Some({one as int}) && FieldAt(fields, 4) == Some({one as int})
    ensures fields[3] != "*" && fields[4] != "*"
  {
    NumberAt(fields, 0, zero);
    NumberAt(fields, 1, zero);
    NumberAt(fields, 3, one);
    NumberAt(fields, 4, one);
  }

  lemma MondaysAre(fields: seq<string>, expr: string, all: set<int>)
    requires |fields| == 5 && Fields(Trim(expr)) == fields && fields[2] == "*" && fields[3] != "*" && fields[4] != "*"
    requires FieldAt(fields, 0) == Some({0}) && FieldAt(fields, 1) == Some({0}) && FieldAt(fields, 2) == Some(all)
    requires FieldAt(fields, 3) == Some({1}) && FieldAt(fields, 4) == Some({1})
    ensures CronOf(expr) == Some(CronSpec({0}, {0}, all, {1}, {1}, true, false)) && !MonthStarred(expr)
  {
    ExpressionIs(fields, expr, CronSpec({0}, {0}, all, {1}, {1}, true, false));
  }

  lemma MondaysFrom(fields: seq<string>, expr: string, zero: nat, one: nat) returns (c: CronSpec)
    requires |fields| == 5 && fields[0] == fields[1] == Itoa(zero) && fields[2] == "*" && fields[3] == fields[4] == Itoa(one)
    requires zero == 0 && one == 1 && Fields(Trim(expr)) == fields
    ensures CronOf(expr) == Some(c) && !MonthStarred(expr)
    ensures c.month == {1} && c.dow == {1} && c.domStar && !c.dowStar
  {
    MondayNumbers(fields, zero, one);
    var all := StarAt(fields, 2);
    MondaysAre(fields, expr, all);
    c := CronSpec({0}, {0}, all, {1}, {1}, true, false);
  }

  lemma MondaysOf(expr: string, zero: nat, one: nat, star: string) returns (c: CronSpec)
    requires zero == 0 && one == 1 && star == "*" && expr == Expression(Itoa(zero), Itoa(zero), star, Itoa(one), Itoa(one))
    ensures CronOf(expr) == Some(c) && !MonthStarred(expr)
    ensures c.month == {1} && c.dow == {1} && c.domStar && !c.dowStar
  {
    ExpressionFields(Itoa(zero), Itoa(zero), star, Itoa(one), Itoa(one));
    c := MondaysFrom([Itoa(zero), Itoa(zero), star, Itoa(one), Itoa(one)], expr, zero, one);
  }

  lemma FirstOfFebruary(date: Date)
    requires date == Date(2021, 2, 1)
    ensures DayNumber(date) >= 0 && DateOf(DayNumber(date)) == date && Weekday(DayNumber(date)) == 1
  {
    MonthTable(Leap(date.year));
    assert DayNumber(date) == 737821;
    DateOfDayNumber(date);
  }

  /** The first of February 2021 was a Monday: the standard selects it, and the code does not. */
  lemma MondayInFebruary(date: Date)
    requires date == Date(2021, 2, 1)
    ensures CronOf(MONDAYS_IN_JANUARY).Some? && DayNumber(date) >= 0
    ensures var c, day := CronOf(MONDAYS_IN_JANUARY).value, DayNumber(date);
      DateOf(day) == date && PosixDay(c, MonthStarred(MONDAYS_IN_JANUARY), day) && !DayMatches(c, day)
  {
    MondaysText(Itoa(0), Itoa(1), "*");
    var c := MondaysOf(MONDAYS_IN_JANUARY, 0, 1, "*");
    FirstOfFebruary(date);
    MondayLeftOut(c, DayNumber(date));
  }

  lemma MondayLeftOut(c: CronSpec, day: nat)
    requires c.month == {1} && c.dow == {1} && c.domStar && !c.dowStar
    ensures DateOf(day).month == 2 && Weekday(day) == 1 ==> PosixDay(c, false, day) && !DayMatches(c, day)
  {
  }

  // ---- Every other day, and Mondays ----

  const ODD_DAYS_AND_MONDAYS := "0 0 */2 * 1"

  lemma HalfCut(text: string, star: string, two: string)
    requires star == "*" && two == Itoa(2) && text == star + ['/'] + two
    ensures '/' in text && Before(text, '/') == star && After(text, '/') == two
  {
    CutIff(text, '/', star, two);
  }

  lemma HalfPart(text: string, star: string, two: string, min: int, max: int)
    requires star == "*" && two == Itoa(2) && text == star + ['/'] + two
    ensures PartOf(text, min, max) == Some(Stepped(min, max, 2)) && ',' !in text && text[0] == '*' && text != "*"
  {
    HalfCut(text, star, two);
    AtoiItoa(2);
    NumericWord(two);
    TrimOfTrimmed(text);
  }

  lemma HalfRanges(text: string, star: string, two: string, min: int, max: int)
    requires star == "*" && two == Itoa(2) && text == star + ['/'] + two
    ensures Ranges(Split(text, ','), min, max) == [Some(Stepped(min, max, 2))]
  {
    HalfPart(text, star, two, min, max);
    OnePiece(text);
  }

  lemma FirstHit(r: Stepped, min: int, max: int)
    requires min <= r.lo <= r.hi && r.lo <= max && r.step > 0
    ensures r.lo in Hits([Some(r)], min, max) && AllParse([Some(r)])
  {
    LowIsHit([Some(r)]);
  }

  lemma FieldFrom(text: string, ranges: seq<Option<Stepped>>, min: int, max: int)
    requires Ranges(Split(text, ','), min, max) == ranges && AllParse(ranges) && Hits(ranges, min, max) != {}
    ensures FieldOf(text, min, max) == Some(Hits(ranges, min, max))
  {
  }

  lemma HalfOf(text: string, star: string, two: string, min: int, max: int) returns (half: set<int>)
    requires star == "*" && two == Itoa(2) && text == star + ['/'] + two && min <= max
    ensures FieldOf(text, min, max) == Some(half) && min in half
  {
    var r := Stepped(min, max, 2);
    HalfRanges(text, star, two, min, max);
    FirstHit(r, min, max);
    FieldFrom(text, [Some(r)], min, max);
    half := Hits([Some(r)], min, max);
  }

  lemma HalfShape(text: string, star: string, two: string)
    requires star == "*" && two != "" && text == star + ['/'] + two
    ensures text != "" && text[0] == '*' && text != "*"
  {
  }

  /** A star over two is accepted, and has the first value of the field. */
  lemma HalfAt(fields: seq<string>, k: nat, star: string, two: string) returns (half: set<int>)
    requires |fields| == 5 && k < 5 && star == "*" && two == Itoa(2) && fields[k] == star + ['/'] + two
    ensures FieldAt(fields, k) == Some(half) && Bounds(k).0 in half
  {
    half := HalfOf(fields[k], star, two, Bounds(k).0, Bounds(k).1);
  }

  lemma OddDaysAre(fields: seq<string>, expr: string, half: set<int>, all: set<int>)
    requires |fields| == 5 && Fields(Trim(expr)) == fields && fields[2] != "*" && fields[4] != "*"
    requires FieldAt(fields, 0) == Some({0}) && FieldAt(fields, 1) == Some({0}) && FieldAt(fields, 2) == Some(half)
    requires FieldAt(fields, 3) == Some(all) && FieldAt(fields, 4) == Some({1})
    ensures CronOf(expr) == Some(CronSpec({0}, {0}, half, all, {1}, false, false))
  {
    ExpressionIs(fields, expr, CronSpec({0}, {0}, half, all, {1}, false, false));
  }

  lemma OddNumbers(fields: seq<string>, zero: nat, one: nat)
    requires |fields| == 5 && fields[0] == fields[1] == Itoa(zero) && fields[4] == Itoa(one) && zero < 24 && one <= 7
    ensures FieldAt(fields, 0) == Some({zero as int}) && FieldAt(fields, 1) == Some({zero as int})
    ensures FieldAt(fields, 4) == Some({one as int}) && fields[4] != "*"
  {
    NumberAt(fields, 0, zero);
    NumberAt(fields, 1, zero);
    NumberAt(fields, 4, one);
  }

  lemma OddDaysFrom(fields: seq<string>, expr: string, zero: nat, one: nat, star: string, two: string)
      returns (c: CronSpec)
    requires |fields| == 5 && fields[0] == fields[1] == Itoa(zero) && fields[2] == star + ['/'] + two && fields[3] == star
    requires fields[4] == Itoa(one) && zero == 0 && one == 1 && star == "*" && two == Itoa(2) && Fields(Trim(expr)) == fields
    ensures CronOf(expr) == Some(c) && DayStarred(expr)
    ensures 1 in c.dom && 6 in c.month && c.dow == {1} && !c.domStar && !c.dowStar
  {
    OddNumbers(fields, zero, one);
    HalfShape(fields[2], star, two);
    var half := HalfAt(fields, 2, star, two);
    var all := StarAt(fields, 3);
    FieldAtWithin(fields, 3);
    OddDaysAre(fields, expr, half, all);
    c := CronSpec({0}, {0}, half, all, {1}, false, false);
  }

  lemma OddDaysOf(expr: string, zero: nat, one: nat, star: string, two: string) returns (c: CronSpec)
    requires zero == 0 && one == 1 && star == "*" && two == Itoa(2)
    requires expr == Expression(Itoa(zero), Itoa(zero), star + ['/'] + two, star, Itoa(one))
    ensures CronOf(expr) == Some(c) && DayStarred(expr)
    ensures 1 in c.dom && 6 in c.month && c.dow == {1} && !c.domStar && !c.dowStar
  {
    NumericWord(two);
    FieldsOfExpression(Itoa(zero), Itoa(zero), star + ['/'] + two, star, Itoa(one));
    c := OddDaysFrom([Itoa(zero), Itoa(zero), star + ['/'] + two, star, Itoa(one)], expr, zero, one, star, two);
  }

  lemma OddDaysText(zero: string, one: string, star: string, two: string)
    requires zero == Itoa(0) && one == Itoa(1) && two == Itoa(2) && star == "*"
    ensures Expression(zero, zero, star + ['/'] + two, star, one) == ODD_DAYS_AND_MONDAYS
  {
    assert zero == "0" && one == "1" && two == "2";
  }

  lemma FirstOfJune(date: Date)
    requires date == Date(2021, 6, 1)
    ensures DayNumber(date) >= 0 && DateOf(DayNumber(date)) == date && Weekday(DayNumber(date)) == 2
  {
    MonthTable(Leap(date.year));
    assert DayNumber(date) == 737941;
    DateOfDayNumber(date);
  }

  /** The first of June 2021 was a Tuesday: the code selects it for its date, and Vixie cron would not. */
  lemma TuesdayInJune(date: Date)
    requires date == Date(2021, 6, 1)
    ensures CronOf(ODD_DAYS_AND_MONDAYS).Some? && DayNumber(date) >= 0
    ensures var c, day := CronOf(ODD_DAYS_AND_MONDAYS).value, DayNumber(date);
      DateOf(day) == date && DayMatches(c, day) && !VixieDay(c, DayStarred(ODD_DAYS_AND_MONDAYS), day)
  {
    OddDaysText(Itoa(0), Itoa(1), "*", Itoa(2));
    var c := OddDaysOf(ODD_DAYS_AND_MONDAYS, 0, 1, "*", Itoa(2));
    FirstOfJune(date);
    TuesdayByCode(c, DayNumber(date));
  }

  lemma TuesdayByCode(c: CronSpec, day: nat)
    requires 1 in c.dom && 6 in c.month && c.dow == {1} && !c.domStar && !c.dowStar
    requires DateOf(day) == Date(2021, 6, 1) && Weekday(day) == 2
    ensures DayMatches(c, day) && !VixieDay(c, true, day)
  {
  }

  // ---- The 29th of February ----

  const LEAP_DAYS := "0 0 29 2 *"

  lemma LeapText(zero: string, day: string, two: string, star: string)
    requires zero == Itoa(0) && day == Itoa(29) && two == Itoa(2) && star == "*"
    ensures Expression(zero, zero, day, two, star) == LEAP_DAYS
  {
    assert zero == "0" && two == "2";
    assert Itoa(29 / 10) == "2" && day == Itoa(29 / 10) + "9";
  }

  lemma LeapNumbers(fields: seq<string>, zero: nat, day: nat, two: nat)
    requires |fields| == 5 && fields[0] == fields[1] == Itoa(zero) && fields[2] == Itoa(day) && fields[3] == Itoa(two)
    requires zero < 24 && 1 <= day <= 31 && 1 <= two <= 12
    ensures FieldAt(fields, 0) == Some({zero as int}) && FieldAt(fields, 1) == Some({zero as int})
    ensures FieldAt(fields, 2) == Some({day as int}) && fields[2] != "*" && FieldAt(fields, 3) == Some({two as int})
  {
    NumberAt(fields, 0, zero);
    NumberAt(fields, 1, zero);
    NumberAt(fields, 2, day);
    NumberAt(fields, 3, two);
  }

  lemma LeapDaysAre(fields: seq<string>, expr: string, all: set<int>)
    requires |fields| == 5 && Fields(Trim(expr)) == fields && fields[2] != "*" && fields[4] == "*"
    requires FieldAt(fields, 0) == Some({0}) && FieldAt(fields, 1) == Some({0}) && FieldAt(fields, 2) == Some({29})
    requires FieldAt(fields, 3) == Some({2}) && FieldAt(fields, 4) == Some(all)
    ensures CronOf(expr) == Some(CronSpec({0}, {0}, {29}, {2}, all, false, true))
  {
    ExpressionIs(fields, expr, CronSpec({0}, {0}, {29}, {2}, all, false, true));
  }

  lemma LeapDaysFrom(fields: seq<string>, expr: string, zero: nat, day: nat, two: nat) returns (c: CronSpec)
    requires |fields| == 5 && fields[0] == fields[1] == Itoa(zero) && fields[2] == Itoa(day) && fields[3] == Itoa(two)
    requires fields[4] == "*" && zero == 0 && day == 29 && two == 2 && Fields(Trim(expr)) == fields
    ensures CronOf(expr) == Some(c) && c.minute == c.hour == {0} && c.month == {2} && c.dom == {29} && !c.domStar && c.dowStar
  {
    LeapNumbers(fields, zero, day, two);
    var all := StarAt(fields, 4);
    LeapDaysAre(fields, expr, all);
    c := CronSpec({0}, {0}, {29}, {2}, all, false, true);
  }

  lemma LeapDaysOf(expr: string, zero: nat, day: nat, two: nat, star: string) returns (c: CronSpec)
    requires zero == 0 && day == 29 && two == 2 && star == "*"
    requires expr == Expression(Itoa(zero), Itoa(zero), Itoa(day), Itoa(two), star)
    ensures CronOf(expr) == Some(c) && c.minute == c.hour == {0} && c.month == {2} && c.dom == {29} && !c.domStar && c.dowStar
  {
    ExpressionFields(Itoa(zero), Itoa(zero), Itoa(day), Itoa(two), star);
    c := LeapDaysFrom([Itoa(zero), Itoa(zero), Itoa(day), Itoa(two), star], expr, zero, day, two);
  }

  /** The parser accepts the 29th of February, and from the end of 2020 on the search gives up on it. */
  lemma LeapDaysMissed()
    ensures CronOf(LEAP_DAYS).Some? && !Fires(CronOf(LEAP_DAYS).value, DRY_START)
  {
    LeapText(Itoa(0), Itoa(29), Itoa(2), "*");
    var c := LeapDaysOf(LEAP_DAYS, 0, 29, 2, "*");
    ParsedSpec(LEAP_DAYS);
    NeverFound(c);
  }

  /** From the 28th of February 2028 the same schedule is found: it fires at midnight of the next day, and not before. */
  lemma LeapDayFound(day: nat, t: nat)
    requires day == 740404 && day * 1440 < t <= day * 1440 + 1440
    ensures DateOf(day) == Date(2028, 2, 28) && DateOf(day + 1) == Date(2028, 2, 29)
    ensures CronOf(LEAP_DAYS).Some? && (MatchAt(CronOf(LEAP_DAYS).value, t) <==> t == day * 1440 + 1440)
  {
    LeapText(Itoa(0), Itoa(29), Itoa(2), "*");
    var c := LeapDaysOf(LEAP_DAYS, 0, 29, 2, "*");
    LeapDayOf2028(day);
    LeapDayMatch(c, day, t);
  }

  lemma LeapDayOf2028(day: nat)
    requires day == 740404
    ensures DateOf(day) == Date(2028, 2, 28) && DateOf(day + 1) == Date(2028, 2, 29)
  {
    MonthTable(true);
    DateAt(day, Date(2028, 2, 28));
    AfterFebruary28(day);
  }

  lemma AtMidnight(c: CronSpec, day: nat, t: nat)
    requires t == day * 1440
    ensures MatchAt(c, t) <==> 0 in c.minute && 0 in c.hour && DayMatches(c, day)
  {
    MatchOnDay(c, day, 0, 0);
  }

  lemma NotOnDay(c: CronSpec, day: nat, t: nat)
    requires !DayMatches(c, day) && day * 1440 <= t < day * 1440 + 1440
    ensures !MatchAt(c, t)
  {
    MinuteOfDay(day, t - day * 1440);
    if MatchAt(c, t) {
      MatchNeedsDay(c, t);
    }
  }

  lemma LeapDayMatch(c: CronSpec, day: nat, t: nat)
    requires c.month == {2} && c.dom == {29} && c.minute == c.hour == {0} && !c.domStar && c.dowStar
    requires DateOf(day) == Date(2028, 2, 28) && DateOf(day + 1) == Date(2028, 2, 29)
    requires day * 1440 < t <= day * 1440 + 1440
    ensures MatchAt(c, t) <==> t == day * 1440 + 1440
  {
    if t == day * 1440 + 1440 {
      OnLeapDay(c, day + 1);
      AtMidnight(c, day + 1, t);
    } else {
      BeforeLeapDay(c, day);
      NotOnDay(c, day, t);
    }
  }

  lemma OnLeapDay(c: CronSpec, day: nat)
    requires c.month == {2} && c.dom == {29} && !c.domStar && c.dowStar && DateOf(day) == Date(2028, 2, 29)
    ensures DayMatches(c, day)
  {
  }

  lemma BeforeLeapDay(c: CronSpec, day: nat)
    requires c.month == {2} && c.dom == {29} && !c.domStar && c.dowStar && DateOf(day) == Date(2028, 2, 28)
    ensures !DayMatches(c, day)
  {
  }
}
