/**
 The statement splitter of the database console (internal/dbmanager/query_multi.go): one pass over
 the text with four mode flags and a growing buffer, cutting at semicolons outside literals and
 comments.
 */
module SqlSplit {
  import opened Lists
  import opened Text

  /** What the four flags say; Escape is the character after a backslash inside a string literal. */
  datatype Mode = Top | LineComment | BlockComment | Quoted | Escape | Backquoted

  predicate Follows(text: string, i: nat, c: char) {
    i + 1 < |text| && text[i + 1] == c
  }

  /** The mode after reading text[i] in mode m. */
  function NextMode(m: Mode, text: string, i: nat): Mode
    requires i < |text|
  {
    var ch := text[i];
    match m
    case LineComment => if ch == '\n' then Top else LineComment
    case BlockComment => if ch == '*' && Follows(text, i, '/') then Top else BlockComment
    case Quoted => if ch == '\\' && i + 1 < |text| then Escape else if ch == '\'' then Top else Quoted
    case Escape => Quoted
    case Backquoted => if ch == '`' then Top else Backquoted
    case Top =>
      if ch == '\'' then Quoted
      else if ch == '`' then Backquoted
      else if ch == '-' && Follows(text, i, '-') then LineComment
      else if ch == '/' && Follows(text, i, '*') then BlockComment
      else Top
  }

  function ModeAt(text: string, i: nat): Mode
    requires i <= |text|
  {
    if i == 0 then Top else NextMode(ModeAt(text, i - 1), text, i - 1)
  }

  /** A semicolon that ends a statement. */
  predicate IsCut(text: string, i: nat) {
    i < |text| && text[i] == ';' && ModeAt(text, i) == Top
  }

  /** Where the statement that is open after n characters began. */
  function OpenStart(text: string, n: nat): (start: nat)
    requires n <= |text|
    ensures start <= n
  {
    if n == 0 then 0 else if IsCut(text, n - 1) then n else OpenStart(text, n - 1)
  }

  /** The segments closed by a cut within the first n characters. */
  function Closed(text: string, n: nat): seq<string>
    requires n <= |text|
  {
    if n == 0 then []
    else if IsCut(text, n - 1) then Closed(text, n - 1) + [Open(text, n - 1)]
    else Closed(text, n - 1)
  }

  /** The part of the open statement within the first n characters. */
  function Open(text: string, n: nat): string
    requires n <= |text|
  {
    text[OpenStart(text, n)..n]
  }

  function Segments(text: string): seq<string> {
    Closed(text, |text|) + [Open(text, |text|)]
  }

  function Piece(segment: string): seq<string> {
    if Trim(segment) == "" then [] else [Trim(segment)]
  }

  /** The trimmed segments, blank ones dropped. */
  function Pieces(segments: seq<string>): seq<string> {
    if segments == [] then [] else Pieces(segments[..|segments| - 1]) + Piece(segments[|segments| - 1])
  }

  lemma PiecesSnoc(segments: seq<string>, last: string)
    ensures Pieces(segments + [last]) == Pieces(segments) + Piece(last)
  {
    assert (segments + [last])[..|segments|] == segments;
  }

  /** Position by position, the result is the segments that have more than white space, without what surrounds it. */
  ghost predicate LeadsToStatements(at: seq<nat>, segments: seq<string>, out: seq<string>) {
    && |at| == |out| && (forall i, j :: 0 <= i < j < |at| ==> at[i] < at[j])
    && (forall i :: 0 <= i < |at| ==> at[i] < |segments| && out[i] == Trim(segments[at[i]]))
    && (forall k :: 0 <= k < |segments| ==> (k in at <==> Trim(segments[k]) != ""))
  }

  ghost predicate AllStatements(segments: seq<string>, out: seq<string>) {
    exists at :: LeadsToStatements(at, segments, out)
  }

  function Done(text: string, n: nat): seq<string>
    requires n <= |text|
  {
    Pieces(Closed(text, n))
  }

  /** One character further: a cut closes the open segment, anything else extends it. */
  lemma Advance(text: string, i: nat)
    requires i < |text|
    ensures ModeAt(text, i + 1) == NextMode(ModeAt(text, i), text, i)
    ensures Open(text, i + 1) == if IsCut(text, i) then "" else Open(text, i) + [text[i]]
    ensures Done(text, i + 1) == if IsCut(text, i) then Done(text, i) + Piece(Open(text, i)) else Done(text, i)
  {
    if IsCut(text, i) {
      PiecesSnoc(Closed(text, i), Open(text, i));
    }
  }

  method SplitSQLStatements(sqlText: string) returns (out: seq<string>)
    ensures out == Pieces(Segments(sqlText))
    ensures AllStatements(Segments(sqlText), out)
  {
    out := [];
    var cur := "";
    var inS, inB, inLineC, inBlockC := false, false, false, false;
    var i := 0;
    ghost var mode := Top;
    while i < |sqlText|
      invariant i <= |sqlText|
      invariant mode == ModeAt(sqlText, i) && mode != Escape
      invariant inLineC == (mode == LineComment) && inBlockC == (mode == BlockComment)
      invariant inS == (mode == Quoted) && inB == (mode == Backquoted)
      invariant cur == Open(sqlText, i) && out == Done(sqlText, i)
    {
      var ch := sqlText[i];
      Advance(sqlText, i);
      mode := NextMode(mode, sqlText, i);
      if inLineC {
        if ch == '\n' { inLineC := false; }
        cur := cur + [ch];
      } else if inBlockC {
        if ch == '*' && i + 1 < |sqlText| && sqlText[i + 1] == '/' { inBlockC := false; }
        cur := cur + [ch];
      } else if inS {
        if ch == '\\' && i + 1 < |sqlText| {
          cur := cur + [ch];
          i := i + 1;
          Advance(sqlText, i);
          mode := NextMode(mode, sqlText, i);
          cur := cur + [sqlText[i]];
          i := i + 1;
          continue;
        }
        cur := cur + [ch];
        if ch == '\'' { inS := false; }
      } else if inB {
        cur := cur + [ch];
        if ch == '`' { inB := false; }
      } else if ch == '\'' {
        inS := true;
        cur := cur + [ch];
      } else if ch == '`' {
        inB := true;
        cur := cur + [ch];
      } else if ch == '-' && i + 1 < |sqlText| && sqlText[i + 1] == '-' {
        inLineC := true;
        cur := cur + [ch];
      } else if ch == '/' && i + 1 < |sqlText| && sqlText[i + 1] == '*' {
        inBlockC := true;
        cur := cur + [ch];
      } else if ch == ';' {
        if Trim(cur) != "" { out := out + [Trim(cur)]; }
        cur := "";
      } else {
        cur := cur + [ch];
      }
      i := i + 1;
    }
    PiecesSnoc(Closed(sqlText, |sqlText|), cur);
    if Trim(cur) != "" { out := out + [Trim(cur)]; }
    ghost var at := NothingLost(sqlText);
  }

  // ---- Nothing is lost, and the cuts are exactly the top-level semicolons ----

  lemma OneLonger(segments: seq<string>, last: string, c: char)
    ensures Join(segments + [last + [c]], ';') == Join(segments + [last], ';') + [c]
  {
    var pieces := segments + [last];
    JoinExtend(pieces, ';', c);
    assert pieces[..|pieces| - 1] == segments;
  }

  lemma OneMore(segments: seq<string>)
    requires segments != []
    ensures Join(segments + [""], ';') == Join(segments, ';') + ";"
  {
    JoinSnoc(segments, "", ';');
  }

  /** The segments read so far, written back. */
  function Written(text: string, n: nat): string
    requires n <= |text|
  {
    Join(Closed(text, n) + [Open(text, n)], ';')
  }

  lemma WrittenStep(text: string, i: nat)
    requires i < |text|
    ensures Written(text, i + 1) == Written(text, i) + [text[i]]
  {
    Advance(text, i);
    if IsCut(text, i) {
      OneMore(Closed(text, i + 1));
    } else {
      OneLonger(Closed(text, i), Open(text, i), text[i]);
    }
  }

  lemma {:induction false} WrittenIsPrefix(text: string, n: nat)
    requires n <= |text|
    ensures Written(text, n) == text[..n]
  {
    if n > 0 {
      WrittenIsPrefix(text, n - 1);
      WrittenStep(text, n - 1);
      TakeSnoc(text, n - 1);
    }
  }

  /** Where segment k begins when the segments are joined. */
  function Offset(segments: seq<string>, k: nat): nat
    requires k <= |segments|
  {
    if k == 0 then 0 else Offset(segments, k - 1) + |segments[k - 1]| + 1
  }

  lemma {:induction false} OffsetOfPrefix(segments: seq<string>, more: seq<string>, k: nat)
    requires k <= |segments|
    ensures Offset(segments + more, k) == Offset(segments, k)
  {
    if k > 0 {
      OffsetOfPrefix(segments, more, k - 1);
    }
  }

  lemma {:induction false} ClosedEnds(text: string, n: nat)
    requires n <= |text|
    ensures Offset(Closed(text, n), |Closed(text, n)|) == OpenStart(text, n)
  {
    if n > 0 {
      ClosedEnds(text, n - 1);
      if IsCut(text, n - 1) {
        OffsetOfPrefix(Closed(text, n - 1), [Open(text, n - 1)], |Closed(text, n - 1)|);
      }
    }
  }

  lemma {:induction false} JointIsCut(text: string, n: nat, k: nat)
    requires n <= |text| && 0 < k <= |Closed(text, n)|
    ensures 0 < Offset(Closed(text, n), k) && IsCut(text, Offset(Closed(text, n), k) - 1)
  {
    var before := Closed(text, n - 1);
    if k <= |before| {
      JointIsCut(text, n - 1, k);
      OffsetOfPrefix(before, Closed(text, n)[|before|..], k);
      assert Closed(text, n) == before + Closed(text, n)[|before|..];
    } else {
      ClosedEnds(text, n);
    }
  }

  lemma {:induction false} CutIsJoint(text: string, n: nat, i: nat) returns (k: nat)
    requires i < n <= |text| && IsCut(text, i)
    ensures 0 < k <= |Closed(text, n)| && Offset(Closed(text, n), k) == i + 1
  {
    var before := Closed(text, n - 1);
    if i == n - 1 {
      k := |Closed(text, n)|;
      ClosedEnds(text, n);
    } else {
      k := CutIsJoint(text, n - 1, i);
      OffsetOfPrefix(before, Closed(text, n)[|before|..], k);
      assert Closed(text, n) == before + Closed(text, n)[|before|..];
    }
  }

  /** The joint between segments k - 1 and k is the semicolon before the place where k begins. */
  ghost predicate Joint(segments: seq<string>, i: nat) {
    exists k :: 0 < k < |segments| && Offset(segments, k) == i + 1
  }

  /**
   The segments, joined by semicolons, are the text, and the joining semicolons are the top-level
   ones and no others.
   */
  lemma SegmentsPartition(text: string)
    ensures Join(Segments(text), ';') == text
    ensures forall i: nat :: IsCut(text, i) <==> Joint(Segments(text), i)
  {
    var n := |text|;
    WrittenIsPrefix(text, n);
    var closed, last := Closed(text, n), Open(text, n);
    assert text[..n] == text;
    forall i: nat ensures IsCut(text, i) <==> Joint(Segments(text), i) {
      if IsCut(text, i) {
        var k := CutIsJoint(text, n, i);
        OffsetOfPrefix(closed, [last], k);
      }
      if Joint(Segments(text), i) {
        var k :| 0 < k < |Segments(text)| && Offset(Segments(text), k) == i + 1;
        OffsetOfPrefix(closed, [last], k);
        JointIsCut(text, n, k);
      }
    }
  }

  // ---- Every piece is one statement on its own ----

  /** A stretch of text that starts outside every literal and comment and holds no cut. */
  ghost predicate Uncut(text: string, a: nat, b: nat) {
    && a <= b <= |text|
    && ModeAt(text, a) == Top
    && forall i :: a <= i < b ==> !IsCut(text, i)
  }

  lemma {:induction false} OpenIsUncut(text: string, n: nat)
    requires n <= |text|
    ensures Uncut(text, OpenStart(text, n), n)
  {
    if n > 0 {
      OpenIsUncut(text, n - 1);
    }
  }

  lemma {:induction false} SegmentIsUncut(text: string, n: nat, k: nat) returns (a: nat, b: nat)
    requires n <= |text| && k < |Closed(text, n)|
    ensures Uncut(text, a, b) && Closed(text, n)[k] == text[a..b]
  {
    if IsCut(text, n - 1) && k == |Closed(text, n - 1)| {
      OpenIsUncut(text, n - 1);
      a, b := OpenStart(text, n - 1), n - 1;
    } else {
      a, b := SegmentIsUncut(text, n - 1, k);
    }
  }

  lemma {:induction false} BlankKeepsTop(text: string, a: nat, lo: nat)
    requires a <= lo <= |text| && ModeAt(text, a) == Top && Blank(text[a..lo])
    ensures ModeAt(text, lo) == Top
  {
    if a < lo {
      assert text[a..lo][..lo - 1 - a] == text[a..lo - 1];
      BlankKeepsTop(text, a, lo - 1);
      assert IsSpace(text[a..lo][lo - 1 - a]);
    }
  }

  /** Read alone, a stretch that begins at top level passes through the same modes. */
  lemma {:induction false} ModeOfStretch(text: string, lo: nat, hi: nat, i: nat)
    requires lo <= hi <= |text| && ModeAt(text, lo) == Top
    requires i < hi - lo
    ensures ModeAt(text[lo..hi], i) == ModeAt(text, lo + i)
  {
    if i > 0 {
      ModeOfStretch(text, lo, hi, i - 1);
    }
  }

  lemma {:induction false} UncutIsOneSegment(text: string, n: nat)
    requires n <= |text| && Uncut(text, 0, n)
    ensures Closed(text, n) == [] && OpenStart(text, n) == 0
  {
    if n > 0 {
      assert !IsCut(text, n - 1);
      UncutIsOneSegment(text, n - 1);
    }
  }

  lemma StretchAlone(text: string, lo: nat, hi: nat)
    requires Uncut(text, lo, hi)
    ensures Uncut(text[lo..hi], 0, hi - lo)
  {
    var piece := text[lo..hi];
    forall i | 0 <= i < hi - lo ensures !IsCut(piece, i) {
      ModeOfStretch(text, lo, hi, i);
      assert !IsCut(text, lo + i);
    }
  }

  lemma PastBlankIsUncut(text: string, a: nat, b: nat, lo: nat, hi: nat)
    requires Uncut(text, a, b) && a <= lo <= hi <= b && Blank(text[a..lo])
    ensures Uncut(text, lo, hi)
  {
    BlankKeepsTop(text, a, lo);
  }

  lemma TrimSlice(text: string, a: nat, b: nat) returns (lo: nat, hi: nat)
    requires a <= b <= |text|
    ensures a <= lo <= hi <= b && Trim(text[a..b]) == text[lo..hi] && Blank(text[a..lo])
  {
    var l, h := TrimCuts(text[a..b]);
    SliceOfSlice(text, a, b, l, h);
    BlankStart(text, a, b, l);
    lo, hi := a + l, a + h;
  }

  lemma BlankStart(text: string, a: nat, b: nat, l: nat)
    requires a <= b <= |text| && l <= b - a && Blank(text[a..b][..l])
    ensures Blank(text[a..a + l])
  {
    SliceOfSlice(text, a, b, 0, l);
  }

  lemma TrimIsTrimmed(s: string)
    ensures Trimmed(Trim(s))
  {
    var lo, hi := TrimCuts(s);
  }

  lemma UncutAlone(piece: string)
    requires Uncut(piece, 0, |piece|) && Trimmed(piece) && piece != ""
    ensures Pieces(Segments(piece)) == [piece]
  {
    UncutIsOneSegment(piece, |piece|);
    TrimOfTrimmed(piece);
    assert Open(piece, |piece|) == piece;
    assert Segments(piece) == [piece];
    PiecesSnoc([], piece);
    assert [] + [piece] == [piece];
  }

  lemma {:induction false} PieceOrigin(segments: seq<string>, k: nat) returns (j: nat)
    requires k < |Pieces(segments)|
    ensures j < |segments| && Trim(segments[j]) != "" && Pieces(segments)[k] == Trim(segments[j])
  {
    var n := |segments| - 1;
    if k < |Pieces(segments[..n])| {
      j := PieceOrigin(segments[..n], k);
    } else {
      j := n;
    }
  }

  // ---- No statement is lost ----

  predicate NotBlank(segment: string) {
    Trim(segment) != ""
  }

  lemma {:induction false} PiecesSelect(segments: seq<string>)
    ensures Selects(segments, NotBlank, Trim, Pieces(segments))
  {
    if segments == [] {
      SelectsNothing(NotBlank, Trim);
    } else {
      var front, last := segments[..|segments| - 1], segments[|segments| - 1];
      assert segments == front + [last];
      PiecesSelect(front);
      PiecesSnoc(front, last);
      SelectsSnoc(front, last, NotBlank, Trim, Pieces(front));
      assert Pieces(front) + [] == Pieces(front);
    }
  }

  /**
   The statements returned are, in order, the segments that are not blank, each trimmed: the positions of the
   result lead one after the other to exactly those segments.
   */
  lemma NothingLost(text: string) returns (at: seq<nat>)
    ensures AllStatements(Segments(text), Pieces(Segments(text)))
    ensures |at| == |Pieces(Segments(text))| && forall i, j :: 0 <= i < j < |at| ==> at[i] < at[j]
    ensures forall i :: 0 <= i < |at| ==> at[i] < |Segments(text)| && Pieces(Segments(text))[i] == Trim(Segments(text)[at[i]])
    ensures forall k :: 0 <= k < |Segments(text)| ==> (k in at <==> Trim(Segments(text)[k]) != "")
  {
    var segments, out := Segments(text), Pieces(Segments(text));
    PiecesSelect(segments);
    at :| Leads(at, segments, NotBlank, Trim, out);
    forall k | 0 <= k < |segments| ensures k in at <==> Trim(segments[k]) != "" {
      if k in at {
        LeadsMembers(at, segments, NotBlank, Trim, out, k);
      }
      assert NotBlank(segments[k]) ==> k in at;
    }
    assert LeadsToStatements(at, segments, out);
  }

  /**
   Each statement the splitter returns is non-empty, has no white space at either end, holds no
   top-level semicolon when read alone, and splitting it again returns just itself.
   */
  lemma PiecesAreStatements(text: string, k: nat)
    requires k < |Pieces(Segments(text))|
    ensures var piece := Pieces(Segments(text))[k];
            && piece != "" && Trimmed(piece)
            && (forall i :: !IsCut(piece, i))
            && Pieces(Segments(piece)) == [piece]
  {
    var n := |text|;
    var j := PieceOrigin(Segments(text), k);
    var a, b := OpenStart(text, n), n;
    assert Open(text, n) == text[a..b];
    if j < |Closed(text, n)| {
      a, b := SegmentIsUncut(text, n, j);
    } else {
      OpenIsUncut(text, n);
    }
    assert Segments(text)[j] == text[a..b];
    var lo, hi := TrimSlice(text, a, b);
    PastBlankIsUncut(text, a, b, lo, hi);
    TrimIsTrimmed(text[a..b]);
    StretchAlone(text, lo, hi);
    UncutAlone(text[lo..hi]);
  }
}
