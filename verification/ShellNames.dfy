/**
 Which variable names survive the remote script (internal/handlers/cicd.go, cicdRemoteScript), where they stand
 unquoted: exactly those without an equals sign or a character the shell treats specially there. The proof counts what the lexer hands
 on: a special character either is dropped, which nothing later makes up for, or separates commands.
 */
module ShellNames {
  import opened Options
  import opened ShellQuote
  import opened Text

  /** The characters in a list of tokens. */
  function Sizes(tokens: seq<Token>): nat {
    if tokens == [] then 0 else Sizes(tokens[..|tokens| - 1]) + |tokens[|tokens| - 1].text|
  }

  function OpCount(tokens: seq<Token>): nat {
    if tokens == [] then 0 else OpCount(tokens[..|tokens| - 1]) + (if tokens[|tokens| - 1].Op? then 1 else 0)
  }

  /** The characters read so far that made it into a token, finished or begun. */
  function Emitted(l: Lexer): nat
    requires l.Lexer?
  {
    Sizes(l.tokens) + |Begun(l)| + (if l.mode.Operator? then |l.mode.op| else 0)
  }

  function Ops(l: Lexer): nat
    requires l.Lexer?
  {
    OpCount(l.tokens) + (if l.mode.Operator? then 1 else 0)
  }

  predicate Unquoted(l: Lexer) {
    l.Lexer? && (l.mode.Plain? || l.mode.Tilde? || l.mode.Operator?)
  }

  /** Characters that are handed on where they stand unquoted: literal ones and the separators. */
  predicate Loud(c: char) {
    Literal(c) || c == ';' || c == '|'
  }

  lemma TokensSnoc(tokens: seq<Token>, t: Token)
    ensures Sizes(tokens + [t]) == Sizes(tokens) + |t.text|
    ensures OpCount(tokens + [t]) == OpCount(tokens) + (if t.Op? then 1 else 0)
  {
    assert (tokens + [t])[..|tokens|] == tokens;
  }

  lemma EndedCounts(l: Lexer)
    requires l.Lexer?
    ensures Sizes(EndedTokens(l)) == Sizes(l.tokens) + |Begun(l)| && OpCount(EndedTokens(l)) == OpCount(l.tokens)
  {
    if l.word.Some? {
      TokensSnoc(l.tokens, Word(l.word.value));
    }
  }

  /** Only separators are ever waiting to be completed. */
  predicate Proper(l: Lexer) {
    l.Lexer? && (l.mode.Operator? ==> l.mode.op in [";", "|", ";;", "||"])
  }

  lemma PlainEmits(l: Lexer, c: char)
    requires l.Lexer? && l.mode.Plain? && LexPlain(l, c).Lexer?
    ensures Emitted(LexPlain(l, c)) <= Emitted(l) + 1
    ensures Emitted(LexPlain(l, c)) == Emitted(l) + 1 ==> Loud(c) && Unquoted(LexPlain(l, c))
  {
    EndedCounts(l);
    if c == '\'' || c == '\\' || c == ' ' || c == '\t' {
      assert Emitted(LexPlain(l, c)) == Emitted(l);
    } else if c == ';' || c == '|' {
      assert Emitted(LexPlain(l, c)) == Emitted(l) + 1;
    } else {
      assert Literal(c) && |Begun(LexPlain(l, c))| == |Begun(l)| + 1;
    }
  }

  lemma PlainOps(l: Lexer, c: char)
    requires l.Lexer? && l.mode.Plain? && LexPlain(l, c).Lexer?
    ensures Proper(LexPlain(l, c)) && Ops(LexPlain(l, c)) == Ops(l) + (if c == ';' || c == '|' then 1 else 0)
  {
    EndedCounts(l);
    if c == ';' || c == '|' {
      assert [c] == (if c == ';' then ";" else "|");
    } else {
      assert !LexPlain(l, c).mode.Operator?;
    }
  }

  lemma PushOperator(l: Lexer)
    requires l.Lexer? && l.mode.Operator?
    ensures var l' := Lexer(l.tokens + [Op(l.mode.op)], l.word, Plain); Emitted(l') == Emitted(l) && Ops(l') == Ops(l)
  {
    TokensSnoc(l.tokens, Op(l.mode.op));
  }

  /** One character emits one character at most, and where unquoted just the loud ones. */
  lemma CharCounts(l: Lexer, c: char)
    requires Proper(l) && LexChar(l, c).Lexer?
    ensures var l' := LexChar(l, c);
      && Proper(l') && Emitted(l') <= Emitted(l) + 1 && Ops(l') >= Ops(l)
      && (Unquoted(l) && Emitted(l') == Emitted(l) + 1 ==> Loud(c) && Unquoted(l'))
      && (Unquoted(l) && (c == ';' || c == '|') ==> Ops(l') >= 1)
  {
    match l.mode
    case Plain =>
      PlainEmits(l, c);
      PlainOps(l, c);
    case Tilde =>
    case Escaped =>
    case Quoted =>
    case Operator(op) =>
      if op != [c] {
        var l1 := Lexer(l.tokens + [Op(op)], l.word, Plain);
        PushOperator(l);
        PlainEmits(l1, c);
        PlainOps(l1, c);
      } else {
        assert op + [c] == (if c == ';' then ";;" else "||");
      }
  }

  lemma {:induction false} LostStays(s: string)
    ensures Lex(Lost, s) == Lost
  {
    if s != "" {
      LostStays(s[..|s| - 1]);
    }
  }

  /** Over a stretch of text nothing is made up for: if all of it was emitted, all of it is loud. */
  lemma {:induction false} TextCounts(l: Lexer, s: string)
    requires Proper(l) && Lex(l, s).Lexer?
    ensures var l' := Lex(l, s);
      && Proper(l')
      && Emitted(l') <= Emitted(l) + |s| && Ops(l') >= Ops(l)
      && (Unquoted(l) && Emitted(l') == Emitted(l) + |s| ==>
            Unquoted(l') && (forall i :: 0 <= i < |s| ==> Loud(s[i])) && (';' in s || '|' in s ==> Ops(l') >= 1))
  {
    if s != "" {
      var front, c := s[..|s| - 1], s[|s| - 1];
      assert s == front + [c];
      TextCounts(l, front);
      CharCounts(Lex(l, front), c);
    }
  }

  /** The rest of an export of nothing: five characters, of which two are emitted, if the name left the lexer where it can end. */
  lemma TailCounts(l: Lexer, tail: string)
    requires Proper(l) && tail == "=''; "
    ensures var l' := Lex(l, tail);
      l'.Lexer? && l'.mode.Plain? ==> Emitted(l') == Emitted(l) + 2 && Ops(l') == Ops(l) + 1
  {
    Chars5(l, '=', '\'', '\'', ';', ' ');
    assert tail == ['=', '\'', '\'', ';', ' '];
    if !l.mode.Quoted? {
      EqualsCounts(l);
      QuotesCount(LexChar(l, '='));
    }
  }

  lemma QuotesCount(l: Lexer)
    requires l.Lexer? && (l.mode.Plain? || l.mode.Tilde?)
    ensures var l' := LexChar(LexChar(LexChar(LexChar(l, '\''), '\''), ';'), ' ');
      l'.Lexer? && l'.mode.Plain? && Emitted(l') == Emitted(l) + 1 && Ops(l') == Ops(l) + 1
  {
    var l2 := l.(word := Some(Begun(l)), mode := Plain);
    assert LexChar(LexChar(l, '\''), '\'') == l2;
    EndedCounts(l2);
    TokensSnoc(EndedTokens(l2), Op(";"));
  }

  lemma EqualsCounts(l: Lexer)
    requires Proper(l) && !l.mode.Quoted?
    ensures var l' := LexChar(l, '=');
      l'.Lexer? && (l'.mode.Plain? || l'.mode.Tilde?) && Emitted(l') == Emitted(l) + 1 && Ops(l') == Ops(l)
  {
    if l.mode.Operator? {
      PushOperator(l);
    }
  }

  lemma Chars5(l: Lexer, a: char, b: char, c: char, d: char, e: char)
    ensures Lex(l, [a, b, c, d, e]) == LexChar(LexChar(LexChar(LexChar(LexChar(l, a), b), c), d), e)
  {
    Lex1(l, a);
    LexSnoc(l, [a], b);
    LexSnoc(l, [a, b], c);
    LexSnoc(l, [a, b, c], d);
    LexSnoc(l, [a, b, c, d], e);
    assert [a] + [b] == [a, b] && [a, b] + [c] == [a, b, c] && [a, b, c] + [d] == [a, b, c, d];
    assert [a, b, c, d] + [e] == [a, b, c, d, e];
  }

  // ---- The names that come through ----

  /** The shell should see one command: an export of the name with the value. */
  function Exported(v: Var): Lexer {
    Lexer([Word("export"), Word(v.name + "=" + v.value), Op(";")], None, Plain)
  }

  lemma OneToken(a: Token)
    ensures Sizes([a]) == |a.text| && OpCount([a]) == (if a.Op? then 1 else 0)
  {
    TokensSnoc([], a);
    assert [] + [a] == [a];
  }

  lemma ThreeTokens(a: Token, b: Token, c: Token)
    ensures Sizes([a, b, c]) == |a.text| + |b.text| + |c.text|
    ensures a.Word? && b.Word? && c.Op? ==> OpCount([a, b, c]) == 1
  {
    OneToken(a);
    TokensSnoc([a], b);
    assert [a] + [b] == [a, b];
    TokensSnoc([a, b], c);
    assert [a, b] + [c] == [a, b, c];
  }

  lemma ExportedCounts(v: Var)
    ensures Emitted(Exported(v)) == 6 + |v.name| + 1 + |v.value| + 1 && Ops(Exported(v)) == 1
  {
    ThreeTokens(Word("export"), Word(v.name + "=" + v.value), Op(";"));
  }

  /** The lexer after the first word of an export. */
  function Opened(): Lexer {
    Lexer([Word("export")], None, Plain)
  }

  lemma ExportIsOrdinary(word: string)
    requires word == "export"
    ensures OrdinaryWord(word) && word + " " == "export "
  {
  }

  lemma Opening(word: string)
    requires word == "export" && OrdinaryWord(word)
    ensures Lex(START, word + " ") == Opened()
  {
    LexWordSpace([], word);
    assert [] + [Word(word)] == [Word(word)];
  }

  lemma OpenedCounts()
    ensures Proper(Opened()) && Unquoted(Opened()) && Emitted(Opened()) == 6 && Ops(Opened()) == 0
  {
    OneToken(Word("export"));
  }

  lemma ExportOfNothing(name: string, word: string, tail: string)
    requires name != "" && word == "export" && tail == "=''; "
    ensures Export(Var(name, "")) == ((word + " ") + name) + tail
  {
    assert Shq("") == "''" && word + " " == "export ";
  }

  lemma LexInThree(l: Lexer, pre: string, name: string, tail: string)
    ensures Lex(l, (pre + name) + tail) == Lex(Lex(Lex(l, pre), name), tail)
  {
    LexAppend(l, pre + name, tail);
    LexAppend(l, pre, name);
  }

  /** What comes through whole has all been counted. */
  lemma AllCount(l0: Lexer, name: string, tail: string, end: Lexer)
    requires Proper(l0) && Unquoted(l0) && Ops(l0) == 0 && tail == "=''; "
    requires end == Lex(Lex(l0, name), tail)
    requires end.Lexer? && end.mode.Plain? && Emitted(end) == Emitted(l0) + |name| + 2 && Ops(end) == 1
    ensures Lex(l0, name).Lexer? && forall i :: 0 <= i < |name| ==> Literal(name[i])
  {
    if Lex(l0, name).Lost? {
      LostStays(tail);
    } else {
      TextCounts(l0, name);
      TailCounts(Lex(l0, name), tail);
      assert ';' !in name && '|' !in name;
    }
  }

  lemma LexOfNothing(name: string, word: string, tail: string)
    requires name != "" && word == "export" && tail == "=''; "
    ensures Lex(START, Export(Var(name, ""))) == Lex(Lex(Opened(), name), tail)
  {
    ExportIsOrdinary(word);
    Opening(word);
    ExportOfNothing(name, word, tail);
    LexInThree(START, word + " ", name, tail);
  }

  /** If even an export of nothing comes through, every character of the name is literal. */
  lemma ComingThrough(name: string, word: string, tail: string, end: Lexer)
    requires name != "" && word == "export" && tail == "=''; " && Lex(START, Export(Var(name, ""))) == end
    requires end.Lexer? && end.mode.Plain? && Emitted(end) == 6 + |name| + 2 && Ops(end) == 1
    ensures Lex(Opened(), name).Lexer? && forall i :: 0 <= i < |name| ==> Literal(name[i])
  {
    LexOfNothing(name, word, tail);
    OpenedCounts();
    AllCount(Opened(), name, tail, end);
  }

  lemma LostAtOnce(l: Lexer, s: string)
    requires s != "" && LexChar(l, s[0]) == Lost
    ensures Lex(l, s) == Lost
  {
    assert s == [s[0]] + s[1..];
    LexAppend(l, [s[0]], s[1..]);
    Lex1(l, s[0]);
    LostStays(s[1..]);
  }

  /** After a tilde, literal characters keep the lexer there until a slash ends it. */
  lemma {:induction false} SlashAfterTilde(l: Lexer, s: string)
    requires l.Lexer? && l.mode.Tilde? && forall i :: 0 <= i < |s| ==> Literal(s[i])
    ensures if '/' in s then Lex(l, s) == Lost else Lex(l, s).Lexer? && Lex(l, s).mode.Tilde?
  {
    if s != "" {
      var front, c := s[..|s| - 1], s[|s| - 1];
      assert s == front + [c];
      SlashAfterTilde(l, front);
    }
  }

  lemma SlashAfterTildeAt(l: Lexer, name: string)
    requires name != "" && name[0] == '~' && (forall i :: 0 <= i < |name| ==> Literal(name[i]))
    requires LexChar(l, '~').Lexer? && LexChar(l, '~').mode.Tilde? && Lex(l, name).Lexer?
    ensures '/' !in name
  {
    var rest := name[1..];
    assert name == [name[0]] + rest;
    LexAppend(l, [name[0]], rest);
    Lex1(l, name[0]);
    SlashAfterTilde(LexChar(l, name[0]), rest);
  }

  /** A name of literal characters that the lexer gets through begins with no hash, and has no slash after a tilde. */
  lemma GoodStart(l: Lexer, name: string)
    requires l.Lexer? && l.word.None? && l.mode.Plain?
    requires name != "" && (forall i :: 0 <= i < |name| ==> Literal(name[i])) && Lex(l, name).Lexer?
    ensures name[0] != '#' && (name[0] == '~' ==> '/' !in name)
  {
    if name[0] == '#' {
      LostAtOnce(l, name);
    } else if name[0] == '~' {
      SlashAfterTildeAt(l, name);
    }
  }

  /** The export of this name and value is seen as such, and the name ends where the assignment's first equals sign is. */
  ghost predicate ReadBack(name: string, value: string) {
    && Lex(START, Export(Var(name, value))) == Exported(Var(name, value))
    && Cut(name + "=" + value, '=', name, value)
  }

  /**
   Name and every value are recovered exactly if the name is plain: it has no equals sign and only literal
   characters, begins with no hash, and has no slash if it begins with a tilde.
   */
  lemma NameComesThrough(name: string)
    requires name != ""
    ensures (forall value | NulFree(value) :: ReadBack(name, value)) <==> PlainName(name)
  {
    if forall value | NulFree(value) :: ReadBack(name, value) {
      assert NulFree("") && ReadBack(name, "");
      ExportedCounts(Var(name, ""));
      ComingThrough(name, "export", "=''; ", Exported(Var(name, "")));
      GoodStart(Opened(), name);
    }
    if PlainName(name) {
      forall value | NulFree(value) ensures ReadBack(name, value) {
        PlainReadBack(name, value);
      }
    }
  }

  lemma PlainReadBack(name: string, value: string)
    requires name != "" && PlainName(name) && NulFree(value)
    ensures ReadBack(name, value)
  {
    LexExport([], Var(name, value));
    assert [] + Exported(Var(name, value)).tokens == Exported(Var(name, value)).tokens;
  }
}
