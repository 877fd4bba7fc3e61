/**
 The string helpers of the program's standard library that its parsers are written with:
 trimming, splitting, searching and decimal numerals, over sequences of code points.
 */
module Text {
  import Lists
  import opened Options

  /** White space as the Unicode White_Space property has it. */
  predicate IsSpace(c: char) {
    || c in {'\t', '\n', '\r', ' ', '\U{000B}', '\U{000C}', '\U{0085}', '\U{00A0}', '\U{1680}'}
    || c in {'\U{2028}', '\U{2029}', '\U{202F}', '\U{205F}', '\U{3000}'}
    || '\U{2000}' <= c <= '\U{200A}'
  }

  /** By number: the controls from tabulation to carriage return, and the spaces and separators. */
  lemma SpaceNumbers(c: char)
    ensures var n := c as int;
      IsSpace(c) <==> 9 <= n <= 13 || n in {32, 133, 160, 5760, 8232, 8233, 8239, 8287, 12288} || 8192 <= n <= 8202
  {
  }

  predicate Blank(s: string) {
    forall i :: 0 <= i < |s| ==> IsSpace(s[i])
  }

  predicate Trimmed(s: string) {
    s == "" || (!IsSpace(s[0]) && !IsSpace(s[|s| - 1]))
  }

  function TrimLeft(s: string): string {
    if s != "" && IsSpace(s[0]) then TrimLeft(s[1..]) else s
  }

  function TrimRight(s: string): string {
    if s != "" && IsSpace(s[|s| - 1]) then TrimRight(s[..|s| - 1]) else s
  }

  function Trim(s: string): string {
    TrimRight(TrimLeft(s))
  }

  lemma {:induction false} TrimLeftCuts(s: string) returns (lo: nat)
    ensures lo <= |s| && TrimLeft(s) == s[lo..] && Blank(s[..lo])
    ensures lo < |s| ==> !IsSpace(s[lo])
  {
    if s != "" && IsSpace(s[0]) {
      var k := TrimLeftCuts(s[1..]);
      lo := k + 1;
      assert s[..lo] == [s[0]] + s[1..][..k] && s[lo..] == s[1..][k..];
    } else {
      lo := 0;
    }
  }

  lemma CutFront(s: string, hi: nat)
    requires hi < |s|
    ensures var front := s[..|s| - 1]; s[hi..] == front[hi..] + [s[|s| - 1]] && s[..hi] == front[..hi]
  {
  }

  lemma {:induction false} TrimRightCuts(s: string) returns (hi: nat)
    ensures hi <= |s| && TrimRight(s) == s[..hi] && Blank(s[hi..])
    ensures hi > 0 ==> !IsSpace(s[hi - 1])
  {
    if s != "" && IsSpace(s[|s| - 1]) {
      hi := TrimRightCuts(s[..|s| - 1]);
      CutFront(s, hi);
    } else {
      hi := |s|;
    }
  }

  /** Trimming cuts out the stretch between the outermost characters that are not white space. */
  lemma TrimCuts(s: string) returns (lo: nat, hi: nat)
    ensures lo <= hi <= |s| && Trim(s) == s[lo..hi]
    ensures Blank(s[..lo]) && Blank(s[hi..]) && Trimmed(Trim(s))
  {
    lo := TrimLeftCuts(s);
    var h := TrimRightCuts(s[lo..]);
    hi := lo + h;
    assert s[lo..][..h] == s[lo..hi] && s[lo..][h..] == s[hi..];
  }

  /** White space outside and something else at both ends, if anything is left. */
  lemma TrimIs(s: string) returns (lo: nat, hi: nat)
    ensures lo <= hi <= |s| && Trim(s) == s[lo..hi]
    ensures forall i :: 0 <= i < lo || hi <= i < |s| ==> IsSpace(s[i])
    ensures lo < hi ==> !IsSpace(s[lo]) && !IsSpace(s[hi - 1])
  {
    lo, hi := TrimCuts(s);
    assert lo < hi ==> s[lo..hi][0] == s[lo] && s[lo..hi][hi - lo - 1] == s[hi - 1];
    assert forall i :: hi <= i < |s| ==> s[i] == s[hi..][i - hi];
    assert forall i :: 0 <= i < lo ==> s[i] == s[..lo][i];
  }

  lemma {:induction false} TrimLeftPadded(a: string, s: string)
    requires Blank(a)
    ensures TrimLeft(a + s) == TrimLeft(s)
  {
    if a == "" {
      assert a + s == s;
    } else {
      assert (a + s)[1..] == a[1..] + s;
      TrimLeftPadded(a[1..], s);
    }
  }

  lemma {:induction false} TrimRightPadded(s: string, b: string)
    requires Blank(b)
    ensures TrimRight(s + b) == TrimRight(s)
  {
    if b == "" {
      assert s + b == s;
    } else {
      assert (s + b)[..|s + b| - 1] == s + b[..|b| - 1];
      TrimRightPadded(s, b[..|b| - 1]);
    }
  }

  /** Whatever blank text surrounds a trimmed core, trimming returns the core. */
  lemma TrimCore(a: string, core: string, b: string)
    requires Blank(a) && Blank(b) && Trimmed(core)
    ensures Trim(a + core + b) == core
  {
    assert a + core + b == a + (core + b);
    TrimLeftPadded(a, core + b);
    if core == "" {
      assert core + b == b + "";
      TrimLeftPadded(b, "");
    } else {
      assert TrimLeft(core + b) == core + b;
      TrimRightPadded(core, b);
    }
  }

  lemma TrimOfTrimmed(s: string)
    requires Trimmed(s)
    ensures Trim(s) == s
  {
    TrimCore("", s, "");
    assert "" + s + "" == s;
  }

  lemma Regroup(a: string, x: string, core: string, y: string, b: string)
    ensures a + ((x + core) + y) + b == (a + x) + core + (y + b)
  {
  }

  lemma ThreeParts(s: string, lo: nat, hi: nat)
    requires lo <= hi <= |s|
    ensures s == (s[..lo] + s[lo..hi]) + s[hi..]
  {
  }

  lemma BlankAppend(a: string, b: string)
    requires Blank(a) && Blank(b)
    ensures Blank(a + b)
  {
  }

  /** Blank text added outside changes nothing. */
  lemma TrimPadded(a: string, s: string, b: string)
    requires Blank(a) && Blank(b)
    ensures Trim(a + s + b) == Trim(s)
  {
    var lo, hi := TrimCuts(s);
    ThreeParts(s, lo, hi);
    Regroup(a, s[..lo], s[lo..hi], s[hi..], b);
    BlankAppend(a, s[..lo]);
    BlankAppend(s[hi..], b);
    TrimCore(a + s[..lo], s[lo..hi], s[hi..] + b);
  }

  lemma TakeSnoc<T>(s: seq<T>, n: nat)
    requires n < |s|
    ensures s[..n + 1] == s[..n] + [s[n]]
  {
  }

  lemma SliceOfSlice<T>(s: seq<T>, a: nat, b: nat, l: nat, h: nat)
    requires a <= b <= |s| && l <= h <= b - a
    ensures s[a..b][l..h] == s[a + l..a + h]
  {
    var x, y := s[a..b][l..h], s[a + l..a + h];
    forall i | 0 <= i < |x| ensures x[i] == y[i] {
    }
  }

  // ---- Searching and splitting ----

  /** The first position of c, or -1. */
  function IndexOf(s: string, c: char): (r: int)
    ensures -1 <= r < |s|
    ensures r < 0 ==> c !in s
    ensures r >= 0 ==> s[r] == c && c !in s[..r]
  {
    if s == "" then -1
    else
      assert s == [s[0]] + s[1..];
      if s[0] == c then 0
      else
        var r := IndexOf(s[1..], c);
        assert r >= 0 ==> s[..r + 1] == [s[0]] + s[1..][..r];
        if r < 0 then -1 else r + 1
  }

  /** s is before, c, after, with no c in before. */
  predicate Cut(s: string, c: char, before: string, after: string) {
    s == before + [c] + after && c !in before
  }

  function Before(s: string, c: char): string
    requires c in s
  {
    s[..IndexOf(s, c)]
  }

  function After(s: string, c: char): string
    requires c in s
  {
    s[IndexOf(s, c) + 1..]
  }

  /** There is one cut at the first c, and none without a c. */
  lemma CutIff(s: string, c: char, before: string, after: string)
    ensures Cut(s, c, before, after) <==> c in s && before == Before(s, c) && after == After(s, c)
  {
    if Cut(s, c, before, after) {
      var n := |before|;
      assert s[n] == c;
      assert s[..n] == before && s[n + 1..] == after;
      FirstIs(s, c, n);
    } else if c in s {
      var i := IndexOf(s, c);
      assert s == s[..i] + [c] + s[i + 1..];
    }
  }

  lemma FirstIs(s: string, c: char, n: nat)
    requires n < |s| && s[n] == c && c !in s[..n]
    ensures IndexOf(s, c) == n
  {
    var i := IndexOf(s, c);
    assert forall j :: 0 <= j < n ==> s[j] == s[..n][j];
    assert forall j :: 0 <= j < i ==> s[j] == s[..i][j];
  }

  /** The pieces between the separators, never none. */
  function Split(s: string, c: char): (pieces: seq<string>)
    ensures |pieces| >= 1
  {
    if s == "" then [""]
    else
      var before, last := Split(s[..|s| - 1], c), s[|s| - 1];
      if last == c then before + [""]
      else before[..|before| - 1] + [before[|before| - 1] + [last]]
  }

  function Join(pieces: seq<string>, c: char): string {
    if pieces == [] then ""
    else if |pieces| == 1 then pieces[0]
    else Join(pieces[..|pieces| - 1], c) + [c] + pieces[|pieces| - 1]
  }

  lemma JoinSnoc(front: seq<string>, last: string, c: char)
    requires front != []
    ensures Join(front + [last], c) == Join(front, c) + [c] + last
  {
    assert (front + [last])[..|front|] == front;
  }

  lemma JoinExtend(pieces: seq<string>, c: char, x: char)
    requires pieces != []
    ensures Join(pieces[..|pieces| - 1] + [pieces[|pieces| - 1] + [x]], c) == Join(pieces, c) + [x]
  {
    var front, last := pieces[..|pieces| - 1], pieces[|pieces| - 1];
    assert pieces == front + [last];
    if front != [] {
      JoinSnoc(front, last, c);
      JoinSnoc(front, last + [x], c);
      assert Join(front, c) + [c] + (last + [x]) == (Join(front, c) + [c] + last) + [x];
    } else {
      assert pieces == [last];
    }
  }

  /** Splitting loses nothing and leaves no separator inside a piece. */
  lemma {:induction false} SplitJoin(s: string, c: char)
    ensures Join(Split(s, c), c) == s
    ensures forall i :: 0 <= i < |Split(s, c)| ==> c !in Split(s, c)[i]
  {
    if s != "" {
      var before, last := Split(s[..|s| - 1], c), s[|s| - 1];
      SplitJoin(s[..|s| - 1], c);
      assert s == s[..|s| - 1] + [last];
      if last == c {
        JoinSnoc(before, "", c);
      } else {
        JoinExtend(before, c, last);
      }
    }
  }

  lemma SplitChar(s: string, x: char, c: char)
    requires c != x
    ensures Split(s + [x], c) == Split(s, c)[..|Split(s, c)| - 1] + [Split(s, c)[|Split(s, c)| - 1] + [x]]
  {
    assert (s + [x])[..|s|] == s;
  }

  lemma SplitAppendStep(s: string, x: char, c: char, rest: seq<string>, last: string)
    requires x != c && Split(s, c) == rest + [last]
    ensures Split(s + [x], c) == rest + [last + [x]]
  {
    SplitChar(s, x, c);
    LongerLast(rest, last, x);
  }

  lemma {:induction false} SplitAppend(s: string, t: string, c: char)
    requires c !in t
    ensures Split(s + t, c) == Split(s, c)[..|Split(s, c)| - 1] + [Split(s, c)[|Split(s, c)| - 1] + t]
  {
    var rest, last := Split(s, c)[..|Split(s, c)| - 1], Split(s, c)[|Split(s, c)| - 1];
    if t == "" {
      assert s + t == s && last + t == last;
    } else {
      var front, x := t[..|t| - 1], t[|t| - 1];
      assert t == front + [x];
      SplitAppend(s, front, c);
      SplitAppendStep(s + front, x, c, rest, last + front);
      Lists.Assoc(s, front, [x]);
      Lists.Assoc(last, front, [x]);
    }
  }

  lemma SplitSnoc(s: string, t: string, c: char)
    requires c !in t
    ensures Split(s + [c] + t, c) == Split(s, c) + [t]
  {
    assert (s + [c])[..|s|] == s;
    SplitAppend(s + [c], t, c);
    assert "" + t == t;
  }

  /** Pieces without separators come back from their joined text. */
  lemma {:induction false} JoinSplit(pieces: seq<string>, c: char)
    requires pieces != []
    requires forall i :: 0 <= i < |pieces| ==> c !in pieces[i]
    ensures Split(Join(pieces, c), c) == pieces
  {
    var front, last := pieces[..|pieces| - 1], pieces[|pieces| - 1];
    assert pieces == front + [last];
    if front == [] {
      SplitAppend("", last, c);
      assert "" + last == last;
    } else {
      JoinSplit(front, c);
      SplitSnoc(Join(front, c), last, c);
    }
  }

  // ---- Searching for a text ----

  predicate Occurs(s: string, p: string, i: int) {
    0 <= i && i + |p| <= |s| && s[i..i + |p|] == p
  }

  /** The first position at or after `from` where p occurs, or -1. */
  function FindFrom(s: string, p: string, from: nat): (r: int)
    requires from <= |s|
    ensures r >= 0 ==> from <= r && Occurs(s, p, r) && forall i :: from <= i < r ==> !Occurs(s, p, i)
    ensures r < 0 ==> forall i :: from <= i ==> !Occurs(s, p, i)
    decreases |s| - from
  {
    if Occurs(s, p, from) then from
    else if from == |s| then -1
    else FindFrom(s, p, from + 1)
  }

  function Find(s: string, p: string): (r: int)
    ensures r >= 0 ==> Occurs(s, p, r) && forall i :: 0 <= i < r ==> !Occurs(s, p, i)
    ensures r < 0 ==> forall i :: 0 <= i ==> !Occurs(s, p, i)
  {
    FindFrom(s, p, 0)
  }

  /** The last position up to n where p occurs, or -1. */
  function FindLastTo(s: string, p: string, n: int): (r: int)
    requires n <= |s|
    ensures r >= 0 ==> r <= n && Occurs(s, p, r) && forall i :: r < i <= n ==> !Occurs(s, p, i)
    ensures r < 0 ==> forall i :: 0 <= i <= n ==> !Occurs(s, p, i)
    decreases n + 1
  {
    if n < 0 then -1
    else if Occurs(s, p, n) then n
    else FindLastTo(s, p, n - 1)
  }

  function FindLast(s: string, p: string): (r: int)
    ensures r >= 0 ==> Occurs(s, p, r) && forall i :: r < i <= |s| ==> !Occurs(s, p, i)
    ensures r < 0 ==> forall i :: 0 <= i <= |s| ==> !Occurs(s, p, i)
  {
    FindLastTo(s, p, |s|)
  }

  predicate Contains(s: string, p: string) {
    Find(s, p) >= 0
  }

  predicate EndsWith(s: string, p: string) {
    Occurs(s, p, |s| - |p|)
  }

  // ---- Words between white space ----

  function Fields(s: string): (words: seq<string>)
    ensures s != "" && !IsSpace(s[|s| - 1]) ==> words != []
  {
    if s == "" then []
    else
      var front, last := s[..|s| - 1], s[|s| - 1];
      var before := Fields(front);
      if IsSpace(last) then before
      else if front == "" || IsSpace(front[|front| - 1]) then before + [[last]]
      else before[..|before| - 1] + [before[|before| - 1] + [last]]
  }

  predicate Word(w: string) {
    w != "" && forall i :: 0 <= i < |w| ==> !IsSpace(w[i])
  }

  lemma {:induction false} FieldsAreWords(s: string)
    ensures forall i :: 0 <= i < |Fields(s)| ==> Word(Fields(s)[i])
  {
    if s != "" {
      FieldsAreWords(s[..|s| - 1]);
    }
  }

  lemma {:induction false} FieldsGap(s: string, gap: string)
    requires Blank(gap)
    ensures Fields(s + gap) == Fields(s)
  {
    if gap == "" {
      assert s + gap == s;
    } else {
      assert (s + gap)[..|s + gap| - 1] == s + gap[..|gap| - 1];
      FieldsGap(s, gap[..|gap| - 1]);
    }
  }

  /** One more character of a word: the last word grows, or after white space a new one begins. */
  lemma FieldsChar(s: string, c: char)
    requires !IsSpace(c)
    ensures var before := Fields(s);
      if s == "" || IsSpace(s[|s| - 1]) then Fields(s + [c]) == before + [[c]]
      else before != [] && Fields(s + [c]) == before[..|before| - 1] + [before[|before| - 1] + [c]]
  {
    assert (s + [c])[..|s|] == s;
  }

  lemma LongerLast(words: seq<string>, w: string, c: char)
    ensures var more := words + [w];
      |more| == |words| + 1 && more[|words|] == w && more[..|words|] + [w + [c]] == words + [w + [c]]
  {
  }

  lemma {:induction false} FieldsWord(s: string, w: string)
    requires Word(w) && (s == "" || IsSpace(s[|s| - 1]))
    ensures Fields(s + w) == Fields(s) + [w]
  {
    var front, last := w[..|w| - 1], w[|w| - 1];
    assert w == front + [last];
    if front == "" {
      assert w == [last];
      FieldsChar(s, last);
    } else {
      FieldsWord(s, front);
      assert s + w == (s + front) + [last];
      FieldsChar(s + front, last);
      LongerLast(Fields(s), front, last);
    }
  }

  // ---- Decimal numerals ----

  const MAX_INT64 := 0x7FFF_FFFF_FFFF_FFFF
  const MIN_INT64 := -0x8000_0000_0000_0000

  predicate Numeric(s: string) {
    forall i :: 0 <= i < |s| ==> '0' <= s[i] <= '9'
  }

  function Decimal(s: string): nat
    requires Numeric(s)
  {
    if s == "" then 0 else 10 * Decimal(s[..|s| - 1]) + (s[|s| - 1] as int - '0' as int)
  }

  /** strconv.Atoi: an optional sign, at least one digit, and a value of 64 bits. */
  function Atoi(s: string): Option<int> {
    var signed := s != "" && s[0] in "+-";
    var digits := if signed then s[1..] else s;
    if digits == "" || !Numeric(digits) then None
    else
      var v := if signed && s[0] == '-' then 0 - Decimal(digits) else Decimal(digits) as int;
      if MIN_INT64 <= v <= MAX_INT64 then Some(v) else None
  }

  lemma SignedRead(s: string, sign: char, digits: string)
    requires s == [sign] + digits && digits != "" && Numeric(digits) && sign in {'+', '-'}
    ensures var v := if sign == '-' then 0 - Decimal(digits) else Decimal(digits) as int;
      Atoi(s) == if MIN_INT64 <= v <= MAX_INT64 then Some(v) else None
  {
    assert s[1..] == digits;
  }

  lemma DigitsOnly(digits: string)
    requires digits != "" && Numeric(digits)
    ensures Atoi(digits) == if Decimal(digits) <= MAX_INT64 then Some(Decimal(digits)) else None
  {
    assert '0' <= digits[0] <= '9';
  }

  /** Digits read alike with a plus sign and negated with a minus sign, up to the ends of 64 bits. */
  lemma AtoiSigns(digits: string, n: nat)
    requires digits != "" && Numeric(digits) && n == Decimal(digits)
    ensures Atoi(digits) == Atoi(['+'] + digits) == (if n <= 9223372036854775807 then Some(n) else None)
    ensures Atoi(['-'] + digits) == (if n <= 9223372036854775808 then Some(0 - n) else None)
  {
    DigitsOnly(digits);
    SignedRead(['+'] + digits, '+', digits);
    SignedRead(['-'] + digits, '-', digits);
  }

  /** Everything else is refused: no digits, and any other character behind the sign. */
  lemma AtoiRefuses(s: string)
    requires Atoi(s).Some?
    ensures exists digits ::
      digits != "" && (forall i :: 0 <= i < |digits| ==> '0' <= digits[i] <= '9')
      && (s == digits || s == ['+'] + digits || s == ['-'] + digits)
  {
    var digits := if s[0] in "+-" then s[1..] else s;
    assert s[0] in "+-" ==> s == [s[0]] + digits;
  }

  /** Each digit further on adds itself to ten times what is before it. */
  lemma DecimalNext(digits: string, d: char)
    requires Numeric(digits) && '0' <= d <= '9'
    ensures Decimal(digits + [d]) == 10 * Decimal(digits) + (d as int - 48) && Decimal("") == 0
  {
    assert (digits + [d])[..|digits|] == digits;
  }

  function Itoa(n: nat): (s: string)
    ensures s != "" && Numeric(s)
  {
    var digit := ['0' + (n % 10) as char];
    if n < 10 then digit else Itoa(n / 10) + digit
  }

  lemma {:induction false} ItoaValue(n: nat)
    ensures Decimal(Itoa(n)) == n
  {
    if n >= 10 {
      ItoaValue(n / 10);
      assert Itoa(n)[..|Itoa(n)| - 1] == Itoa(n / 10);
    }
  }

  /** Numerals read back as the numbers they were written for, so different numbers have different numerals. */
  lemma AtoiItoa(n: nat)
    requires n <= MAX_INT64
    ensures Atoi(Itoa(n)) == Some(n)
  {
    ItoaValue(n);
  }

  lemma ItoaInjective(m: nat, n: nat)
    requires Itoa(m) == Itoa(n)
    ensures m == n
  {
    ItoaValue(m);
    ItoaValue(n);
  }
}
