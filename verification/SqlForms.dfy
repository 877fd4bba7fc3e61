/**
 What hides a semicolon from the statement splitter (internal/dbmanager/query_multi.go), form by form, on the
 characters of the text: string literals with their escapes, names in back quotes, and the two kinds of comments.
 */
module SqlForms {
  import opened SqlSplit

  /** No statement ends from i to e. */
  ghost predicate Hidden(text: string, i: nat, e: nat) {
    forall k :: i <= k <= e && k < |text| ==> !IsCut(text, k)
  }

  lemma Next(text: string, i: nat)
    requires i < |text|
    ensures ModeAt(text, i + 1) == NextMode(ModeAt(text, i), text, i)
  {
  }

  /** Inside, nothing but the end changes the mode. */
  lemma {:induction false} StaysIn(text: string, m: Mode, i: nat, e: nat)
    requires i <= e <= |text| && ModeAt(text, i) == m && m in {Quoted, Backquoted, LineComment, BlockComment}
    requires forall k :: i <= k < e ==> NextMode(m, text, k) == m
    ensures ModeAt(text, e) == m && (e > i ==> Hidden(text, i, e - 1))
    decreases e - i
  {
    if i < e {
      Next(text, i);
      StaysIn(text, m, i + 1, e);
    }
  }

  /** A statement ends exactly at the semicolons outside; the text begins outside, and most characters stay there. */
  lemma Outside(text: string, i: nat)
    requires i < |text| && ModeAt(text, i) == Top
    ensures ModeAt(text, 0) == Top && (IsCut(text, i) <==> text[i] == ';')
    ensures (&& text[i] != '\'' && text[i] != '`'
             && !(text[i] == '-' && i + 1 < |text| && text[i + 1] == '-')
             && !(text[i] == '/' && i + 1 < |text| && text[i + 1] == '*')) ==> ModeAt(text, i + 1) == Top
  {
    Next(text, i);
  }

  /** A string literal without escapes ends at its next quote. */
  lemma StringLiteral(text: string, i: nat, e: nat)
    requires i < e < |text| && ModeAt(text, i) == Top && text[i] == '\'' && text[e] == '\''
    requires forall k :: i < k < e ==> text[k] != '\'' && text[k] != '\\'
    ensures Hidden(text, i, e) && ModeAt(text, e + 1) == Top
  {
    Next(text, i);
    StaysIn(text, Quoted, i + 1, e);
    Next(text, e);
  }

  /** Behind a backslash any character, a quote or a backslash as well, leaves the literal open. */
  lemma EscapedCharacter(text: string, i: nat)
    requires i + 1 < |text| && ModeAt(text, i) == Quoted && text[i] == '\\'
    ensures Hidden(text, i, i + 1) && ModeAt(text, i + 2) == Quoted
  {
    Next(text, i);
    Next(text, i + 1);
  }

  /** And so does a character that is neither, while a quote ends it. */
  lemma LiteralCharacter(text: string, i: nat)
    requires i < |text| && ModeAt(text, i) == Quoted && text[i] != '\\'
    ensures !IsCut(text, i) && ModeAt(text, i + 1) == if text[i] == '\'' then Top else Quoted
  {
    Next(text, i);
  }

  /** A name in back quotes ends at the next one, and a backslash means nothing in it. */
  lemma QuotedName(text: string, i: nat, e: nat)
    requires i < e < |text| && ModeAt(text, i) == Top && text[i] == '`' && text[e] == '`'
    requires forall k :: i < k < e ==> text[k] != '`'
    ensures Hidden(text, i, e) && ModeAt(text, e + 1) == Top
  {
    Next(text, i);
    StaysIn(text, Backquoted, i + 1, e);
    Next(text, e);
  }

  /** Two dashes hide the rest of the line. */
  lemma DashComment(text: string, i: nat, e: nat)
    requires i + 1 < e < |text| && ModeAt(text, i) == Top && text[i] == '-' && text[i + 1] == '-' && text[e] == '\n'
    requires forall k :: i < k < e ==> text[k] != '\n'
    ensures Hidden(text, i, e) && ModeAt(text, e + 1) == Top
  {
    Next(text, i);
    StaysIn(text, LineComment, i + 1, e);
    Next(text, e);
  }

  /** Slash and star hide everything up to the next star before a slash, which may be the opening star itself. */
  lemma BlockComments(text: string, i: nat, e: nat)
    requires i < e && e + 1 < |text| && ModeAt(text, i) == Top && text[i] == '/' && text[i + 1] == '*'
    requires text[e] == '*' && text[e + 1] == '/'
    requires forall k :: i < k < e ==> !(text[k] == '*' && text[k + 1] == '/')
    ensures Hidden(text, i, e) && ModeAt(text, e + 1) == Top
  {
    Next(text, i);
    StaysIn(text, BlockComment, i + 1, e);
    Next(text, e);
  }

  /** What is never closed hides the rest of the text. */
  lemma NeverClosed(text: string, i: nat)
    requires i + 1 < |text| && ModeAt(text, i) == Top
    requires || (text[i] == '\'' && forall k :: i < k < |text| ==> text[k] != '\'' && text[k] != '\\')
             || (text[i] == '`' && forall k :: i < k < |text| ==> text[k] != '`')
             || (text[i] == '-' && text[i + 1] == '-' && forall k :: i < k < |text| ==> text[k] != '\n')
             || (text[i] == '/' && text[i + 1] == '*' && forall k :: i < k < |text| - 1 ==> !(text[k] == '*' && text[k + 1] == '/'))
    ensures Hidden(text, i, |text|)
  {
    Next(text, i);
    StaysIn(text, ModeAt(text, i + 1), i + 1, |text|);
  }
}
