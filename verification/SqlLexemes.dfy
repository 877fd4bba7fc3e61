/**
 What "top level" means to the statement splitter (internal/dbmanager/query_multi.go), said by whole literals and
 comments instead of flags per character; and how its comments differ from the usual ones.
 */
module SqlLexemes {
  import opened SqlSplit

  /** Behind the first unescaped quote at or after i; an escape takes the next character with it. */
  function StringEnd(text: string, i: nat): (e: nat)
    requires i <= |text|
    ensures i < e <= |text| + 1
    decreases |text| - i
  {
    if i == |text| then |text| + 1
    else if text[i] == '\\' && i + 1 < |text| then StringEnd(text, i + 2)
    else if text[i] == '\'' then i + 1
    else StringEnd(text, i + 1)
  }

  /** Behind the first of the characters at or after i. */
  function CharEnd(text: string, c: char, i: nat): (e: nat)
    requires i <= |text|
    ensures i < e <= |text| + 1
    decreases |text| - i
  {
    if i == |text| then |text| + 1 else if text[i] == c then i + 1 else CharEnd(text, c, i + 1)
  }

  /** Where the first star and slash at or after i are, or the end of the text. */
  function CloseAt(text: string, i: nat): (e: nat)
    requires i <= |text|
    ensures i <= e <= |text| && (e < |text| ==> text[e] == '*' && Follows(text, e, '/'))
    decreases |text| - i
  {
    if i == |text| then i
    else if text[i] == '*' && Follows(text, i, '/') then i
    else CloseAt(text, i + 1)
  }

  predicate OpensComment(text: string, i: nat) {
    i < |text| && text[i] == '/' && Follows(text, i, '*')
  }

  /**
   Where the literal, comment or other character that starts at i ends; one past the text if it never does. The
   usual block comment looks for its end behind its opening and takes in the closing slash. The code's looks
   from its own star on and leaves the slash outside.
   */
  function LexemeEnd(text: string, usual: bool, i: nat): (e: nat)
    requires i < |text|
    ensures i < e <= |text| + 1
  {
    if text[i] == '\'' then StringEnd(text, i + 1)
    else if text[i] == '`' then CharEnd(text, '`', i + 1)
    else if text[i] == '-' && Follows(text, i, '-') then CharEnd(text, '\n', i + 1)
    else if OpensComment(text, i) then
      var close := CloseAt(text, if usual then i + 2 else i + 1);
      if close == |text| then |text| + 1 else if usual then close + 2 else close + 1
    else i + 1
  }

  /** Position i is where a lexeme starts, going from lexeme to lexeme from `from` on. */
  predicate Starts(text: string, usual: bool, from: nat, i: nat)
    requires i <= |text|
    decreases |text| + 1 - from
  {
    from == i || (from < i && Starts(text, usual, LexemeEnd(text, usual, from), i))
  }

  // ---- The flags follow the code's lexemes ----

  lemma {:induction false} InString(text: string, i: nat, k: nat)
    requires i <= |text| && k <= |text| && ModeAt(text, i) == Quoted
    ensures i <= k < StringEnd(text, i) ==> ModeAt(text, k) != Top
    ensures k == StringEnd(text, i) ==> ModeAt(text, k) == Top
    decreases |text| - i
  {
    if i < |text| {
      assert ModeAt(text, i + 1) == NextMode(Quoted, text, i);
      if text[i] == '\\' && i + 1 < |text| {
        assert ModeAt(text, i + 2) == NextMode(Escape, text, i + 1);
        InString(text, i + 2, k);
      } else if text[i] != '\'' {
        InString(text, i + 1, k);
      }
    }
  }

  lemma {:induction false} InBackquotes(text: string, i: nat, k: nat)
    requires i <= |text| && k <= |text| && ModeAt(text, i) == Backquoted
    ensures i <= k < CharEnd(text, '`', i) ==> ModeAt(text, k) != Top
    ensures k == CharEnd(text, '`', i) ==> ModeAt(text, k) == Top
    decreases |text| - i
  {
    if i < |text| {
      assert ModeAt(text, i + 1) == NextMode(Backquoted, text, i);
      if text[i] != '`' {
        InBackquotes(text, i + 1, k);
      }
    }
  }

  lemma {:induction false} InLine(text: string, i: nat, k: nat)
    requires i <= |text| && k <= |text| && ModeAt(text, i) == LineComment
    ensures i <= k < CharEnd(text, '\n', i) ==> ModeAt(text, k) != Top
    ensures k == CharEnd(text, '\n', i) ==> ModeAt(text, k) == Top
    decreases |text| - i
  {
    if i < |text| {
      assert ModeAt(text, i + 1) == NextMode(LineComment, text, i);
      if text[i] != '\n' {
        InLine(text, i + 1, k);
      }
    }
  }

  lemma {:induction false} InBlock(text: string, i: nat, k: nat)
    requires i <= |text| && k <= |text| && ModeAt(text, i) == BlockComment
    ensures i <= k <= CloseAt(text, i) ==> ModeAt(text, k) != Top
    ensures CloseAt(text, i) < |text| && k == CloseAt(text, i) + 1 ==> ModeAt(text, k) == Top
    decreases |text| - i
  {
    if i < |text| {
      assert ModeAt(text, i + 1) == NextMode(BlockComment, text, i);
      if !(text[i] == '*' && Follows(text, i, '/')) {
        InBlock(text, i + 1, k);
      }
    }
  }

  /** From one start to the next the flags are never all down. */
  lemma InLexeme(text: string, i: nat, k: nat)
    requires i < |text| && k <= |text| && ModeAt(text, i) == Top
    ensures i < k < LexemeEnd(text, false, i) ==> ModeAt(text, k) != Top
    ensures k == LexemeEnd(text, false, i) ==> ModeAt(text, k) == Top
  {
    assert ModeAt(text, i + 1) == NextMode(Top, text, i);
    if text[i] == '\'' {
      InString(text, i + 1, k);
    } else if text[i] == '`' {
      InBackquotes(text, i + 1, k);
    } else if text[i] == '-' && Follows(text, i, '-') {
      InLine(text, i + 1, k);
    } else if OpensComment(text, i) {
      InBlock(text, i + 1, k);
    }
  }

  lemma {:induction false} TopFrom(text: string, from: nat, i: nat)
    requires from <= i <= |text| && ModeAt(text, from) == Top
    ensures ModeAt(text, i) == Top <==> Starts(text, false, from, i)
    decreases |text| - from
  {
    if from < i {
      InLexeme(text, from, i);
      var next := LexemeEnd(text, false, from);
      if next <= i {
        InLexeme(text, from, next);
        TopFrom(text, next, i);
      }
    }
  }

  /** All flags are down exactly where one of the code's lexemes starts. */
  lemma TopIsStart(text: string, i: nat)
    requires i <= |text|
    ensures ModeAt(text, i) == Top <==> Starts(text, false, 0, i)
  {
    TopFrom(text, 0, i);
  }

  /** So a statement ends exactly at the semicolons that are lexemes of their own. */
  lemma CutIsLexeme(text: string, i: nat)
    requires i < |text|
    ensures IsCut(text, i) <==> text[i] == ';' && Starts(text, false, 0, i)
  {
    TopIsStart(text, i);
  }

  // ---- How the code's comments differ from the usual ones ----

  /** A comment the code reads differently: its opening star also closes it, or its closing slash also opens one. */
  predicate Odd(text: string, i: nat)
    requires i < |text|
  {
    OpensComment(text, i)
    && ((i + 2 < |text| && text[i + 2] == '/')
        || (LexemeEnd(text, true, i) < |text| && text[LexemeEnd(text, true, i)] == '*'))
  }

  /** None of the usual lexemes from here on is such a comment. */
  predicate Regular(text: string, from: nat)
    decreases |text| + 1 - from
  {
    from < |text| ==> !Odd(text, from) && Regular(text, LexemeEnd(text, true, from))
  }

  /** Position i is the closing slash of a usual comment from here on. */
  predicate Closing(text: string, from: nat, i: nat)
    decreases |text| + 1 - from
  {
    from < |text| && from <= i < |text|
    && var e := LexemeEnd(text, true, from);
       (OpensComment(text, from) && e == i + 1) || Closing(text, e, i)
  }

  /** The code's starts are the usual ones, and besides them only the closing slashes of comments. */
  predicate SameAt(text: string, from: nat, i: nat)
    requires i <= |text|
  {
    Starts(text, false, from, i) <==> Starts(text, true, from, i) || Closing(text, from, i)
  }

  lemma StartsBetween(text: string, usual: bool, from: nat, i: nat)
    requires from < |text| && from < i <= |text| && i < LexemeEnd(text, usual, from)
    ensures !Starts(text, usual, from, i)
  {
  }

  lemma ClosingBetween(text: string, from: nat, i: nat)
    requires from < |text| && i < LexemeEnd(text, true, from)
    ensures Closing(text, from, i) <==> OpensComment(text, from) && LexemeEnd(text, true, from) == i + 1 <= |text|
  {
  }

  /** A comment that is not odd ends where the code's does, one slash later. */
  lemma CommentEnds(text: string, i: nat)
    requires i < |text| && OpensComment(text, i) && !Odd(text, i)
    ensures var e, c := LexemeEnd(text, true, i), LexemeEnd(text, false, i);
      if e > |text| then c > |text| else i < c == e - 1 < |text| && LexemeEnd(text, false, c) == e && !OpensComment(text, c)
  {
    assert CloseAt(text, i + 1) == CloseAt(text, i + 2);
  }

  lemma {:induction false} RegularAgrees(text: string, from: nat, i: nat)
    requires from <= i <= |text| && Regular(text, from)
    ensures SameAt(text, from, i)
    decreases |text| + 1 - from
  {
    if from < i {
      var e := LexemeEnd(text, true, from);
      if e <= i {
        RegularAgrees(text, e, i);
      } else {
        StartsBetween(text, true, from, i);
        ClosingBetween(text, from, i);
      }
      if OpensComment(text, from) {
        CommentEnds(text, from);
      }
    }
  }

  /** Where an odd comment is the first difference. */
  lemma OddDiffers(text: string, from: nat) returns (i: nat)
    requires from < |text| && Odd(text, from)
    ensures from <= i <= |text| && !SameAt(text, from, i)
  {
    var e := LexemeEnd(text, true, from);
    if from + 2 < |text| && text[from + 2] == '/' {
      i := from + 2;
      assert CloseAt(text, from + 1) == from + 1 && LexemeEnd(text, false, from) == i;
      assert Starts(text, false, i, i);
      StartsBetween(text, true, from, i);
      ClosingBetween(text, from, i);
    } else {
      i := e;
      assert CloseAt(text, from + 1) == CloseAt(text, from + 2);
      assert LexemeEnd(text, false, from) == e - 1 && OpensComment(text, e - 1);
      assert !Starts(text, false, e - 1, e);
      assert Starts(text, true, e, e);
    }
  }

  /** Past a lexeme that is not odd, both readings go on from its end. */
  lemma GoesOn(text: string, from: nat, i: nat)
    requires from < |text| && !Odd(text, from) && LexemeEnd(text, true, from) <= i <= |text|
    ensures SameAt(text, from, i) <==> SameAt(text, LexemeEnd(text, true, from), i)
  {
    var e := LexemeEnd(text, true, from);
    if OpensComment(text, from) {
      CommentEnds(text, from);
      assert Starts(text, false, e - 1, i) == Starts(text, false, e, i);
    }
  }

  lemma {:induction false} IrregularDiffers(text: string, from: nat) returns (i: nat)
    requires from <= |text| && !Regular(text, from)
    ensures from <= i <= |text| && !SameAt(text, from, i)
    decreases |text| + 1 - from
  {
    if Odd(text, from) {
      i := OddDiffers(text, from);
    } else {
      i := IrregularDiffers(text, LexemeEnd(text, true, from));
      GoesOn(text, from, i);
    }
  }

  /**
   The splitter reads a text by the usual lexemes exactly if no comment has a slash right behind its opening star,
   and none is followed at once by a star.
   */
  lemma UsualIff(text: string)
    ensures (forall i: nat :: i <= |text| ==> SameAt(text, 0, i)) <==> Regular(text, 0)
  {
    if Regular(text, 0) {
      forall i: nat | i <= |text| ensures SameAt(text, 0, i) {
        RegularAgrees(text, 0, i);
      }
    } else {
      var i := IrregularDiffers(text, 0);
    }
  }

  /** And then it cuts at the semicolons that are usual lexemes of their own. */
  lemma UsualCuts(text: string, i: nat)
    requires i < |text| && Regular(text, 0)
    ensures IsCut(text, i) <==> text[i] == ';' && Starts(text, true, 0, i)
  {
    CutIsLexeme(text, i);
    RegularAgrees(text, 0, i);
    if Closing(text, 0, i) {
      ClosingIsSlash(text, 0, i);
    }
  }

  lemma {:induction false} ClosingIsSlash(text: string, from: nat, i: nat)
    requires Closing(text, from, i)
    ensures i < |text| && text[i] == '/'
    decreases |text| + 1 - from
  {
    var e := LexemeEnd(text, true, from);
    if !(OpensComment(text, from) && e == i + 1) {
      ClosingIsSlash(text, e, i);
    }
  }

  /** A slash behind the opening star: the usual comment goes on to the end, the code's has ended before it. */
  const ODD_COMMENT := "/*/;*/"

  lemma OddLexemes(text: string)
    requires text == ODD_COMMENT
    ensures Odd(text, 0) && LexemeEnd(text, true, 0) == 6
    ensures LexemeEnd(text, false, 0) == 2 && LexemeEnd(text, false, 2) == 3
  {
    assert CloseAt(text, 3) == 4 by {
      assert CloseAt(text, 4) == 4;
    }
    assert CloseAt(text, 2) == 4;
    assert !OpensComment(text, 2);
  }

  /** It is cut within what is one comment by the usual reading. */
  lemma CutInComment(text: string)
    requires text == ODD_COMMENT
    ensures IsCut(text, 3) && !Starts(text, true, 0, 3) && !Regular(text, 0)
  {
    OddLexemes(text);
    assert Starts(text, false, 2, 3);
    assert Starts(text, false, 0, 3);
    CutIsLexeme(text, 3);
  }
}
