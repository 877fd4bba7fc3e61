/**
 What the written forms of a cron field select, in numbers: each form a part can take with digits, the values
 of a range with a step, and the five fields with their bounds.
 */
module CronForms {
  import Arithmetic
  import opened Cron
  import opened Options
  import opened Text

  /** The text of a number that fits. */
  ghost predicate Digits(text: string, n: nat) {
    text != "" && Numeric(text) && Decimal(text) == n <= MAX_INT64
  }

  lemma DigitsRead(text: string, n: nat)
    requires Digits(text, n)
    ensures Atoi(text) == Some(n) && '-' !in text && '/' !in text && Trimmed(text) && text != "*"
  {
    assert '0' <= text[0] <= '9';
  }

  lemma PlainPart(text: string, min: int, max: int)
    requires text != "" && Trimmed(text) && '/' !in text
    ensures var base := BaseOf(text, min, max);
      PartOf(text, min, max) == if base.None? || base.value.0 < min || base.value.1 > max then None
                                else Some(Stepped(base.value.0, base.value.1, 1))
  {
    TrimOfTrimmed(text);
  }

  lemma SteppedPart(base: string, step: string, c: nat, min: int, max: int)
    requires base != "" && Trimmed(base) && '/' !in base && Digits(step, c)
    ensures var b := BaseOf(base, min, max);
      PartOf(base + ['/'] + step, min, max) == if c == 0 || b.None? || b.value.0 < min || b.value.1 > max then None
                                               else Some(Stepped(b.value.0, b.value.1, c))
  {
    var text := base + ['/'] + step;
    DigitsRead(step, c);
    assert text[0] == base[0] && text[|text| - 1] == step[|step| - 1];
    TrimOfTrimmed(text);
    CutIff(text, '/', base, step);
  }

  lemma RangeBase(from: string, to: string, a: nat, b: nat, min: int, max: int)
    requires Digits(from, a) && Digits(to, b)
    ensures var text := from + ['-'] + to;
      text != "" && Trimmed(text) && '/' !in text && BaseOf(text, min, max) == if a <= b then Some((a, b)) else None
  {
    var text := from + ['-'] + to;
    DigitsRead(from, a);
    DigitsRead(to, b);
    CutIff(text, '-', from, to);
    assert text[0] == from[0] && text[|text| - 1] == to[|to| - 1];
    assert text != "*";
  }

  lemma NumberBase(text: string, a: nat, min: int, max: int)
    requires Digits(text, a)
    ensures BaseOf(text, min, max) == Some((a as int, a as int))
  {
    DigitsRead(text, a);
  }

  /** A number, two numbers with a dash, and either with a slash and a step; a step alone does not widen a number. */
  lemma NumberForms(from: string, to: string, step: string, a: nat, b: nat, c: nat, min: int, max: int)
    requires Digits(from, a) && Digits(to, b) && Digits(step, c)
    ensures PartOf(from, min, max) == if min <= a <= max then Some(Stepped(a, a, 1)) else None
    ensures PartOf(from + ['-'] + to, min, max) == if min <= a <= b <= max then Some(Stepped(a, b, 1)) else None
    ensures PartOf(from + ['/'] + step, min, max) == if min <= a <= max && c > 0 then Some(Stepped(a, a, c)) else None
    ensures PartOf(from + ['-'] + to + ['/'] + step, min, max)
         == if min <= a <= b <= max && c > 0 then Some(Stepped(a, b, c)) else None
  {
    DigitsRead(from, a);
    NumberBase(from, a, min, max);
    PlainPart(from, min, max);
    SteppedPart(from, step, c, min, max);
    RangeBase(from, to, a, b, min, max);
    PlainPart(from + ['-'] + to, min, max);
    SteppedPart(from + ['-'] + to, step, c, min, max);
  }

  /** A star has every value of the field, or every so many of them from the least on. */
  lemma StarForms(step: string, c: nat, min: int, max: int)
    requires Digits(step, c)
    ensures PartOf(['*'], min, max) == Some(Stepped(min, max, 1))
    ensures PartOf(['*', '/'] + step, min, max) == if c > 0 then Some(Stepped(min, max, c)) else None
  {
    var star := "*";
    assert star == ['*'] && '/' !in star && !IsSpace('*');
    PlainPart(star, min, max);
    SteppedPart(star, step, c, min, max);
    assert star + ['/'] == ['*', '/'];
  }

  lemma StepsReach(lo: int, v: int, step: nat)
    requires step > 0 && lo <= v && (v - lo) % step == 0
    ensures v == lo + (v - lo) / step * step && (v - lo) / step >= 0
  {
  }

  /** The values of a range with a step are its low end and every so many behind it, up to the high end. */
  lemma SteppedValues(v: int, lo: int, hi: int, step: nat)
    requires step > 0
    ensures InStepped(v, Stepped(lo, hi, step)) <==> v <= hi && exists n: nat :: v == lo + n * step
  {
    if InStepped(v, Stepped(lo, hi, step)) {
      StepsReach(lo, v, step);
    }
    if n: nat :| v == lo + n * step {
      Arithmetic.MultipleRemainder(n, step);
    }
  }

  lemma FieldsIff(f: seq<string>)
    requires |f| == 5
    ensures FieldsParse(f) <==>
      && FieldOf(f[0], 0, 59).Some? && FieldOf(f[1], 0, 23).Some? && FieldOf(f[2], 1, 31).Some?
      && FieldOf(f[3], 1, 12).Some? && FieldOf(f[4], 0, 7).Some?
  {
  }

  lemma SpecIs(f: seq<string>)
    requires |f| == 5 && FieldsParse(f)
    ensures var c := SpecOf(f);
      && Some(c.minute) == FieldOf(f[0], 0, 59) && Some(c.hour) == FieldOf(f[1], 0, 23) && Some(c.dom) == FieldOf(f[2], 1, 31)
      && Some(c.month) == FieldOf(f[3], 1, 12) && Some(c.dow) == FieldOf(f[4], 0, 7)
      && (c.domStar <==> f[2] == ['*']) && (c.dowStar <==> f[4] == ['*'])
  {
  }

  /**
   An expression is five words: minutes 0 to 59, hours 0 to 23, days 1 to 31, months 1 to 12 and weekdays 0 to 7.
   The day fields count as unrestricted only if they are a lone star.
   */
  lemma FiveFields(expr: string, f: seq<string>)
    requires f == Fields(Trim(expr))
    ensures CronOf(expr).Some? <==>
        && |f| == 5 && FieldOf(f[0], 0, 59).Some? && FieldOf(f[1], 0, 23).Some? && FieldOf(f[2], 1, 31).Some?
        && FieldOf(f[3], 1, 12).Some? && FieldOf(f[4], 0, 7).Some?
    ensures CronOf(expr).Some? ==>
      var c := CronOf(expr).value;
      && Some(c.minute) == FieldOf(f[0], 0, 59) && Some(c.hour) == FieldOf(f[1], 0, 23) && Some(c.dom) == FieldOf(f[2], 1, 31)
      && Some(c.month) == FieldOf(f[3], 1, 12) && Some(c.dow) == FieldOf(f[4], 0, 7)
      && (c.domStar <==> f[2] == ['*']) && (c.dowStar <==> f[4] == ['*'])
  {
    if |f| == 5 {
      FieldsIff(f);
      if FieldsParse(f) {
        SpecIs(f);
      }
    }
  }
}
