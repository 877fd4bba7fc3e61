/**
 Five-field cron expressions (internal/cicd/cron.go): what a field means, the parser that fills its set
 in loops, and matching with the day-of-month or day-of-week rule. Steps are mathematical integers.
 */
module Cron {
  import opened Arithmetic
  import opened Options
  import opened Text

  /** The values lo, lo + step, lo + 2 * step, ... up to hi. */
  datatype Stepped = Stepped(lo: int, hi: int, step: nat)

  predicate InStepped(v: int, r: Stepped) {
    r.lo <= v <= r.hi && r.step > 0 && (v - r.lo) % r.step == 0
  }

  // ---- What a field means ----

  predicate Numeral(s: string, v: int) {
    Atoi(s) == Some(v)
  }

  ghost predicate RangeMeans(base: string, lo: int, hi: int) {
    exists l: string, h: string :: Cut(base, '-', l, h) && Numeral(l, lo) && Numeral(h, hi) && lo <= hi
  }

  /** A range without its step: `*`, a single value, or two values around the first dash. */
  ghost predicate BaseMeans(base: string, min: int, max: int, lo: int, hi: int) {
    || (base == "*" && lo == min && hi == max)
    || ('-' !in base && Numeral(base, lo) && lo == hi)
    || RangeMeans(base, lo, hi)
  }

  ghost predicate SteppedMeans(text: string, min: int, max: int, r: Stepped) {
    exists base: string, step: string ::
      Cut(text, '/', base, step) && Numeral(step, r.step) && r.step > 0 && BaseMeans(base, min, max, r.lo, r.hi)
  }

  /** A comma part, trimmed: a base, alone or before the first slash and a positive step; all in range. */
  ghost predicate PartMeans(part: string, min: int, max: int, r: Stepped) {
    && min <= r.lo && r.hi <= max
    && ( || ('/' !in Trim(part) && r.step == 1 && BaseMeans(Trim(part), min, max, r.lo, r.hi))
         || SteppedMeans(Trim(part), min, max, r))
  }

  // ---- What the parser does with a part ----

  function BaseOf(base: string, min: int, max: int): Option<(int, int)> {
    if base == "*" then Some((min, max))
    else if '-' in base then
      var l, h := Atoi(Before(base, '-')), Atoi(After(base, '-'));
      if l.None? || h.None? || l.value > h.value then None else Some((l.value, h.value))
    else
      var v := Atoi(base);
      if v.None? then None else Some((v.value, v.value))
  }

  function PartOf(part: string, min: int, max: int): Option<Stepped> {
    var text := Trim(part);
    if text == "" then None
    else
      var step := if '/' in text then Atoi(After(text, '/')) else Some(1);
      if step.None? || step.value <= 0 then None
      else
        var base := BaseOf(if '/' in text then Before(text, '/') else text, min, max);
        if base.None? || base.value.0 < min || base.value.1 > max then None
        else Some(Stepped(base.value.0, base.value.1, step.value))
  }

  lemma RangeIff(base: string, lo: int, hi: int)
    ensures RangeMeans(base, lo, hi)
       <==> '-' in base && Numeral(Before(base, '-'), lo) && Numeral(After(base, '-'), hi) && lo <= hi
  {
    if RangeMeans(base, lo, hi) {
      var l: string, h: string :| Cut(base, '-', l, h) && Numeral(l, lo) && Numeral(h, hi) && lo <= hi;
      CutIff(base, '-', l, h);
    }
    if '-' in base {
      CutIff(base, '-', Before(base, '-'), After(base, '-'));
    }
  }

  lemma BaseIff(base: string, min: int, max: int, lo: int, hi: int)
    ensures BaseMeans(base, min, max, lo, hi) <==> BaseOf(base, min, max) == Some((lo, hi))
  {
    RangeIff(base, lo, hi);
    assert Atoi("*").None? by {
      assert "*"[0] == '*';
    }
  }

  lemma SteppedIff(text: string, min: int, max: int, r: Stepped)
    ensures SteppedMeans(text, min, max, r)
       <==> '/' in text && Numeral(After(text, '/'), r.step) && r.step > 0
            && BaseMeans(Before(text, '/'), min, max, r.lo, r.hi)
  {
    if SteppedMeans(text, min, max, r) {
      var base: string, step: string :|
        Cut(text, '/', base, step) && Numeral(step, r.step) && r.step > 0 && BaseMeans(base, min, max, r.lo, r.hi);
      CutIff(text, '/', base, step);
    }
    if '/' in text {
      CutIff(text, '/', Before(text, '/'), After(text, '/'));
    }
  }

  lemma NothingMeansNothing(min: int, max: int, lo: int, hi: int)
    ensures !BaseMeans("", min, max, lo, hi)
  {
    RangeIff("", lo, hi);
  }

  /** The parser's reading of a part is the meaning of the part, accepted and rejected alike. */
  lemma PartIff(part: string, min: int, max: int, r: Stepped)
    ensures PartMeans(part, min, max, r) <==> PartOf(part, min, max) == Some(r)
  {
    var text := Trim(part);
    NothingMeansNothing(min, max, r.lo, r.hi);
    SteppedIff(text, min, max, r);
    if '/' in text {
      BaseIff(Before(text, '/'), min, max, r.lo, r.hi);
    } else {
      BaseIff(text, min, max, r.lo, r.hi);
    }
  }

  // ---- Fields ----

  function Ranges(parts: seq<string>, min: int, max: int): (r: seq<Option<Stepped>>)
    ensures |r| == |parts|
  {
    seq(|parts|, (i: int) requires 0 <= i < |parts| => PartOf(parts[i], min, max))
  }

  predicate AllParse(ranges: seq<Option<Stepped>>) {
    forall i :: 0 <= i < |ranges| ==> ranges[i].Some?
  }

  predicate Hit(ranges: seq<Option<Stepped>>, v: int) {
    exists i :: 0 <= i < |ranges| && ranges[i].Some? && InStepped(v, ranges[i].value)
  }

  function Hits(ranges: seq<Option<Stepped>>, min: int, max: int): set<int> {
    set v | min <= v <= max && Hit(ranges, v)
  }

  function FieldOf(field: string, min: int, max: int): Option<set<int>> {
    var ranges := Ranges(Split(field, ','), min, max);
    if AllParse(ranges) && Hits(ranges, min, max) != {} then Some(Hits(ranges, min, max)) else None
  }

  ghost predicate WellFormedPart(part: string, min: int, max: int) {
    exists r :: PartMeans(part, min, max, r)
  }

  ghost predicate PartHas(part: string, min: int, max: int, v: int) {
    exists r :: PartMeans(part, min, max, r) && InStepped(v, r)
  }

  lemma PartMeaning(part: string, min: int, max: int)
    ensures WellFormedPart(part, min, max) <==> PartOf(part, min, max).Some?
    ensures forall v :: PartHas(part, min, max, v) <==>
              PartOf(part, min, max).Some? && InStepped(v, PartOf(part, min, max).value)
  {
    forall r ensures PartMeans(part, min, max, r) <==> PartOf(part, min, max) == Some(r) {
      PartIff(part, min, max, r);
    }
    var p := PartOf(part, min, max);
    if p.Some? {
      assert PartMeans(part, min, max, p.value);
    }
  }

  lemma PartBounds(part: string, min: int, max: int)
    requires min <= max && PartOf(part, min, max).Some?
    ensures var r := PartOf(part, min, max).value; min <= r.lo <= r.hi <= max && r.step > 0
  {
  }

  lemma LowIsHit(ranges: seq<Option<Stepped>>)
    requires ranges != [] && ranges[0].Some? && ranges[0].value.lo <= ranges[0].value.hi && ranges[0].value.step > 0
    ensures Hit(ranges, ranges[0].value.lo)
  {
    assert InStepped(ranges[0].value.lo, ranges[0].value);
  }

  /** With bounds in order, a field is accepted exactly if each part parses. */
  lemma NeverEmpty(field: string, min: int, max: int)
    requires min <= max
    ensures FieldOf(field, min, max).Some? <==> AllParse(Ranges(Split(field, ','), min, max))
  {
    var parts := Split(field, ',');
    var ranges := Ranges(parts, min, max);
    if AllParse(ranges) {
      assert ranges[0] == PartOf(parts[0], min, max);
      PartBounds(parts[0], min, max);
      LowIsHit(ranges);
      assert ranges[0].value.lo in Hits(ranges, min, max);
    }
  }

  /**
   A field is accepted exactly if each of its comma parts is well formed and in range, and its set is then
   exactly the union of what the parts mean, inside the bounds.
   */
  lemma FieldMeaning(field: string, min: int, max: int)
    requires min <= max
    ensures var parts, r := Split(field, ','), FieldOf(field, min, max);
      && (r.Some? <==> forall i :: 0 <= i < |parts| ==> WellFormedPart(parts[i], min, max))
      && (r.Some? ==> r.value != {} && forall v :: v in r.value <==>
                      exists i :: 0 <= i < |parts| && PartHas(parts[i], min, max, v))
  {
    NeverEmpty(field, min, max);
    var parts := Split(field, ',');
    var ranges := Ranges(parts, min, max);
    assert |ranges| == |parts|;
    forall i | 0 <= i < |parts|
      ensures WellFormedPart(parts[i], min, max) <==> ranges[i].Some?
      ensures forall v :: PartHas(parts[i], min, max, v) <==> ranges[i].Some? && InStepped(v, ranges[i].value)
      ensures ranges[i].Some? ==> min <= ranges[i].value.lo && ranges[i].value.hi <= max
    {
      PartMeaning(parts[i], min, max);
    }
  }

  // ---- The loops ----

  method AddRange(hits: set<int>, r: Stepped) returns (more: set<int>)
    requires r.step > 0
    ensures forall v :: v in more <==> v in hits || InStepped(v, r)
  {
    more := hits;
    var v := r.lo;
    assert 0 % r.step == 0 by {
      ZeroRemainder(r.step);
    }
    while v <= r.hi
      invariant v >= r.lo && (v - r.lo) % r.step == 0
      invariant forall w :: w in more <==> w in hits || (InStepped(w, r) && w < v)
      decreases r.hi - v
    {
      forall w | v < w < v + r.step ensures !InStepped(w, r) {
        NothingBetween(v - r.lo, w - v, r.step);
      }
      StepRemainder(v - r.lo, r.step);
      more := more + {v};
      v := v + r.step;
    }
  }

  lemma ZeroRemainder(step: int)
    requires step > 0
    ensures 0 % step == 0
  {
  }

  lemma HitSnoc(ranges: seq<Option<Stepped>>, r: Stepped, v: int)
    ensures Hit(ranges + [Some(r)], v) <==> Hit(ranges, v) || InStepped(v, r)
  {
    var longer := ranges + [Some(r)];
    if i :| 0 <= i < |ranges| && ranges[i].Some? && InStepped(v, ranges[i].value) {
      assert longer[i] == ranges[i];
    }
    if InStepped(v, r) {
      assert longer[|ranges|] == Some(r);
    }
  }

  lemma RangesSnoc(parts: seq<string>, min: int, max: int, n: nat)
    requires n < |parts|
    ensures Ranges(parts[..n + 1], min, max) == Ranges(parts[..n], min, max) + [PartOf(parts[n], min, max)]
  {
  }

  lemma RangesBad(parts: seq<string>, min: int, max: int, n: nat)
    requires n < |parts| && PartOf(parts[n], min, max).None?
    ensures !AllParse(Ranges(parts, min, max))
  {
    assert Ranges(parts, min, max)[n].None?;
  }

  /** The field parser: a loop over the comma parts, and for each one a loop that steps through its range. */
  method ParseCronField(field: string, min: int, max: int) returns (r: Option<set<int>>, star: bool)
    ensures r == FieldOf(field, min, max)
    ensures r.Some? ==> star == (field == "*")
  {
    var hits: set<int> := {};
    star := field == "*";
    var parts := Split(field, ',');
    var i := 0;
    ghost var ranges := [];
    while i < |parts|
      invariant 0 <= i <= |parts|
      invariant ranges == Ranges(parts[..i], min, max) && AllParse(ranges)
      invariant forall v :: v in hits <==> Hit(ranges, v)
      invariant forall v :: v in hits ==> min <= v <= max
    {
      var parsed := PartOf(parts[i], min, max);
      if parsed.None? {
        RangesBad(parts, min, max, i);
        return None, false;
      }
      RangesSnoc(parts, min, max, i);
      hits := AddRange(hits, parsed.value);
      forall v ensures Hit(ranges + [parsed], v) <==> Hit(ranges, v) || InStepped(v, parsed.value) {
        HitSnoc(ranges, parsed.value, v);
      }
      PartInside(parts[i], min, max);
      ranges := ranges + [parsed];
      i := i + 1;
    }
    assert parts[..i] == parts;
    assert hits == Hits(ranges, min, max);
    r := if hits == {} then None else Some(hits);
  }

  lemma PartInside(part: string, min: int, max: int)
    requires PartOf(part, min, max).Some?
    ensures var r := PartOf(part, min, max).value; min <= r.lo && r.hi <= max && r.step > 0
  {
  }

  // ---- Expressions ----

  datatype CronSpec = CronSpec(minute: set<int>, hour: set<int>, dom: set<int>, month: set<int>, dow: set<int>,
                               domStar: bool, dowStar: bool)

  /** Minute, hour, day of month, month and day of week. */
  function Bounds(k: nat): (int, int)
    requires k < 5
  {
    if k == 0 then (0, 59) else if k == 1 then (0, 23) else if k == 2 then (1, 31) else if k == 3 then (1, 12) else (0, 7)
  }

  function FieldAt(fields: seq<string>, k: nat): Option<set<int>>
    requires |fields| == 5 && k < 5
  {
    FieldOf(fields[k], Bounds(k).0, Bounds(k).1)
  }

  predicate FieldsParse(fields: seq<string>)
    requires |fields| == 5
  {
    && FieldAt(fields, 0).Some? && FieldAt(fields, 1).Some? && FieldAt(fields, 2).Some? && FieldAt(fields, 3).Some?
    && FieldAt(fields, 4).Some?
  }

  function SpecOf(fields: seq<string>): CronSpec
    requires |fields| == 5 && FieldsParse(fields)
  {
    CronSpec(FieldAt(fields, 0).value, FieldAt(fields, 1).value, FieldAt(fields, 2).value, FieldAt(fields, 3).value,
             FieldAt(fields, 4).value, fields[2] == "*", fields[4] == "*")
  }

  /** Five fields, each within its bounds. */
  function CronOf(expr: string): Option<CronSpec> {
    var fields := Fields(Trim(expr));
    if |fields| == 5 && FieldsParse(fields) then Some(SpecOf(fields)) else None
  }

  method ParseCron(expr: string) returns (r: Option<CronSpec>)
    ensures r == CronOf(expr)
  {
    var fields := Fields(Trim(expr));
    if |fields| != 5 {
      return None;
    }
    r := ParseFields(fields);
  }

  const BOUNDS: seq<(int, int)> := [(0, 59), (0, 23), (1, 31), (1, 12), (0, 7)]

  method ParseFields(fields: seq<string>) returns (r: Option<CronSpec>)
    requires |fields| == 5
    ensures r == if FieldsParse(fields) then Some(SpecOf(fields)) else None
  {
    var rows := ParseTable(fields, BOUNDS);
    RowsAt(fields, rows);
    if |rows| < 5 {
      return None;
    }
    return Some(CronSpec(rows[0].0, rows[1].0, rows[2].0, rows[3].0, rows[4].0, rows[2].1, rows[4].1));
  }

  /** Field by field until one fails. */
  ghost predicate RowsOf(fields: seq<string>, bounds: seq<(int, int)>, rows: seq<(set<int>, bool)>)
    requires |rows| <= |fields| == |bounds|
  {
    forall k :: 0 <= k < |rows| ==>
      FieldOf(fields[k], bounds[k].0, bounds[k].1) == Some(rows[k].0) && rows[k].1 == (fields[k] == "*")
  }

  method ParseTable(fields: seq<string>, bounds: seq<(int, int)>) returns (rows: seq<(set<int>, bool)>)
    requires |fields| == |bounds|
    ensures |rows| <= |fields| && RowsOf(fields, bounds, rows)
    ensures |rows| < |fields| ==> FieldOf(fields[|rows|], bounds[|rows|].0, bounds[|rows|].1).None?
  {
    rows := [];
    while |rows| < |fields|
      invariant |rows| <= |fields| && RowsOf(fields, bounds, rows)
    {
      var hits, star := ParseCronField(fields[|rows|], bounds[|rows|].0, bounds[|rows|].1);
      if hits.None? {
        return;
      }
      rows := rows + [(hits.value, star)];
    }
  }

  lemma RowsAt(fields: seq<string>, rows: seq<(set<int>, bool)>)
    requires |fields| == 5 && |rows| <= 5 && RowsOf(fields, BOUNDS, rows)
    requires |rows| < 5 ==> FieldOf(fields[|rows|], BOUNDS[|rows|].0, BOUNDS[|rows|].1).None?
    ensures forall k :: 0 <= k < |rows| ==> FieldAt(fields, k) == Some(rows[k].0) && rows[k].1 == (fields[k] == "*")
    ensures |rows| < 5 ==> FieldAt(fields, |rows|).None?
  {
  }

  predicate Match(c: CronSpec, minute: int, hour: int, dom: int, month: int, dow: int) {
    if minute !in c.minute || hour !in c.hour || month !in c.month then false
    else
      var domHit := c.domStar || dom in c.dom;
      var dowHit := c.dowStar || dow in c.dow || (dow == 0 && 7 in c.dow);
      if !c.domStar && !c.dowStar then domHit || dowHit else domHit && dowHit
  }

  // ---- What parsed expressions are like ----

  ghost predicate Within(s: set<int>, min: int, max: int) {
    s != {} && forall v :: v in s ==> min <= v <= max
  }

  ghost predicate Everything(s: set<int>, min: int, max: int) {
    forall v :: min <= v <= max ==> v in s
  }

  /** No field is empty or out of bounds, and a starred field has everything. */
  ghost predicate Parsed(c: CronSpec) {
    && Within(c.minute, 0, 59) && Within(c.hour, 0, 23) && Within(c.dom, 1, 31) && Within(c.month, 1, 12)
    && Within(c.dow, 0, 7)
    && (c.domStar ==> Everything(c.dom, 1, 31)) && (c.dowStar ==> Everything(c.dow, 0, 7))
  }

  lemma FieldWithin(field: string, min: int, max: int)
    requires min <= max && FieldOf(field, min, max).Some?
    ensures Within(FieldOf(field, min, max).value, min, max)
    ensures field == "*" ==> Everything(FieldOf(field, min, max).value, min, max)
  {
    if field == "*" {
      StarRanges(min, max);
      forall v | min <= v <= max ensures v in FieldOf(field, min, max).value {
        assert InStepped(v, Stepped(min, max, 1));
        assert Hit([Some(Stepped(min, max, 1))], v);
      }
    }
  }

  lemma StarRanges(min: int, max: int)
    requires min <= max
    ensures Ranges(Split("*", ','), min, max) == [Some(Stepped(min, max, 1))]
  {
    SplitAppend("", "*", ',');
    assert "" + "*" == "*";
    assert Split("*", ',') == ["*"];
    TrimOfTrimmed("*");
    assert '/' !in "*";
    assert PartOf("*", min, max) == Some(Stepped(min, max, 1));
  }

  lemma FieldAtWithin(fields: seq<string>, k: nat)
    requires |fields| == 5 && k < 5 && FieldAt(fields, k).Some?
    ensures Within(FieldAt(fields, k).value, Bounds(k).0, Bounds(k).1)
    ensures fields[k] == "*" ==> Everything(FieldAt(fields, k).value, Bounds(k).0, Bounds(k).1)
  {
    FieldWithin(fields[k], Bounds(k).0, Bounds(k).1);
  }

  lemma SpecParsed(fields: seq<string>)
    requires |fields| == 5 && FieldsParse(fields)
    ensures Parsed(SpecOf(fields))
  {
    FieldAtWithin(fields, 0);
    FieldAtWithin(fields, 1);
    FieldAtWithin(fields, 2);
    FieldAtWithin(fields, 3);
    FieldAtWithin(fields, 4);
  }

  lemma ParsedSpec(expr: string)
    ensures CronOf(expr).Some? ==> Parsed(CronOf(expr).value)
  {
    var fields := Fields(Trim(expr));
    if |fields| == 5 && FieldsParse(fields) {
      SpecParsed(fields);
    }
  }

  /** The first n words, each after its gap. */
  function Spaced(words: seq<string>, gaps: seq<string>, n: nat): string
    requires n <= |words| == |gaps|
  {
    if n == 0 then "" else Spaced(words, gaps, n - 1) + gaps[n - 1] + words[n - 1]
  }

  /** White space around and between the fields does not matter. */
  lemma {:induction false} SpacingIgnored(words: seq<string>, gaps: seq<string>, n: nat)
    requires n <= |words| == |gaps|
    requires forall i :: 0 <= i < |words| ==> Word(words[i]) && Blank(gaps[i]) && (i > 0 ==> gaps[i] != "")
    ensures Fields(Spaced(words, gaps, n)) == words[..n]
  {
    if n > 0 {
      SpacingIgnored(words, gaps, n - 1);
      FieldsNext(Spaced(words, gaps, n - 1), gaps[n - 1], words[n - 1]);
      TakeSnoc(words, n - 1);
    }
  }

  lemma FieldsNext(s: string, gap: string, w: string)
    requires Blank(gap) && Word(w) && (s == "" || gap != "")
    ensures Fields(s + gap + w) == Fields(s) + [w]
  {
    FieldsGap(s, gap);
    assert gap != "" ==> (s + gap)[|s + gap| - 1] == gap[|gap| - 1];
    assert gap == "" ==> s + gap == "";
    FieldsWord(s + gap, w);
  }

  /** The day rule of a parsed expression: either restricted day counts when both are, and both count otherwise. */
  lemma DayRule(c: CronSpec, minute: int, hour: int, dom: int, month: int, dow: int)
    requires Parsed(c) && 1 <= dom <= 31 && 0 <= dow <= 6
    ensures var day, weekday := dom in c.dom, dow in c.dow || (dow == 0 && 7 in c.dow);
      Match(c, minute, hour, dom, month, dow) == (
        && minute in c.minute && hour in c.hour && month in c.month
        && (if c.domStar || c.dowStar then day && weekday else day || weekday))
  {
  }
}
