/**
 Quoting for a remote shell (internal/handlers/target.go and cicd.go), read back by a reference lexer after
 the Shell Command Language of POSIX.1-2017 XCU: sections 2.2.1 (backslash), 2.2.2 (single quotes), 2.3
 (token recognition) and 2.6.1 (tilde). Whatever the lexer does not cover, such as expansions, makes it give up.
 */
module ShellQuote {
  import opened Options
  import opened Text

  // ---- The reference lexer ----

  datatype Token = Word(text: string) | Op(text: string)

  /** `Tilde` is within a word that began with an unquoted tilde and has had neither quote nor slash yet. */
  datatype Mode = Plain | Tilde | Escaped | Quoted | Operator(op: string)

  /** Tokens recognised, the word begun if any, and how the next character is to be read. */
  datatype Lexer = Lost | Lexer(tokens: seq<Token>, word: Option<string>, mode: Mode)

  const START := Lexer([], None, Plain)

  /** Characters that are literal wherever they stand, even unquoted. */
  predicate Ordinary(c: char) {
    c !in {'|', '&', ';', '<', '>', '(', ')', '$', '`', '\\', '"', '\'', ' ', '\t', '\n', '*', '?', '[', '#', '~', '\0'}
  }

  /** A hash does not begin a comment within a word, nor a tilde a home directory, unless a value has begun. */
  predicate LiteralWithin(word: string, c: char) {
    Ordinary(c) || c == '#' || (c == '~' && '=' !in word)
  }

  function Begun(l: Lexer): string
    requires l.Lexer?
  {
    if l.word.Some? then l.word.value else ""
  }

  function EndedTokens(l: Lexer): seq<Token>
    requires l.Lexer?
  {
    if l.word.Some? then l.tokens + [Word(l.word.value)] else l.tokens
  }

  function LexPlain(l: Lexer, c: char): Lexer
    requires l.Lexer?
  {
    if c == '\'' then l.(word := Some(Begun(l)), mode := Quoted)
    else if c == '\\' then l.(mode := Escaped)
    else if c == ' ' || c == '\t' then Lexer(EndedTokens(l), None, l.mode)
    else if c == ';' || c == '|' then Lexer(EndedTokens(l), None, Operator([c]))
    else if Ordinary(c) || (l.word.Some? && LiteralWithin(l.word.value, c)) then l.(word := Some(Begun(l) + [c]))
    else if c == '~' && l.word.None? then l.(word := Some("~"), mode := Tilde)
    else Lost
  }

  /** A tilde at the start of a word is literal if a quote comes before the first slash and the end of the word. */
  function LexTilde(l: Lexer, c: char): Lexer
    requires l.Lexer?
  {
    if c == '\'' then l.(word := Some(Begun(l)), mode := Quoted)
    else if c != '/' && Literal(c) then l.(word := Some(Begun(l) + [c]))
    else Lost
  }

  /** Characters that are literal within a word that has no equals sign. */
  predicate Literal(c: char) {
    LiteralWithin("", c)
  }

  function LexChar(l: Lexer, c: char): Lexer {
    if l.Lost? || c == '\0' then Lost
    else
      match l.mode
      case Plain => LexPlain(l, c)
      case Tilde => LexTilde(l, c)
      case Escaped => if c == '\n' then l.(mode := Plain) else l.(word := Some(Begun(l) + [c]), mode := Plain)
      case Quoted => if c == '\'' then l.(mode := Plain) else l.(word := Some(Begun(l) + [c]))
      case Operator(op) =>
        if op == [c] then l.(mode := Operator(op + [c]))
        else LexPlain(Lexer(l.tokens + [Op(op)], l.word, Plain), c)
  }

  function Lex(l: Lexer, s: string): Lexer {
    if s == "" then l else LexChar(Lex(l, s[..|s| - 1]), s[|s| - 1])
  }

  /** The tokens of a finished text, unless a quote or an escape is left open or a tilde is to be expanded. */
  function Finish(l: Lexer): Option<seq<Token>> {
    if l.Lost? || l.mode.Quoted? || l.mode.Escaped? || l.mode.Tilde? then None
    else if l.mode.Operator? then Some(l.tokens + [Op(l.mode.op)])
    else Some(EndedTokens(l))
  }

  function Tokens(s: string): Option<seq<Token>> {
    Finish(Lex(START, s))
  }

  lemma LexSnoc(l: Lexer, s: string, c: char)
    ensures Lex(l, s + [c]) == LexChar(Lex(l, s), c)
  {
    assert (s + [c])[..|s|] == s;
  }

  lemma {:induction false} LexAppend(l: Lexer, s: string, t: string)
    ensures Lex(l, s + t) == Lex(Lex(l, s), t)
  {
    if t == "" {
      assert s + t == s;
    } else {
      var front, c := t[..|t| - 1], t[|t| - 1];
      LexAppend(l, s, front);
      assert s + t == (s + front) + [c];
      LexSnoc(l, s + front, c);
    }
  }

  /** A lost lexer stays lost, and a NUL loses it. */
  lemma {:induction false} NulIsLost(l: Lexer, s: string)
    requires '\0' in s
    ensures Lex(l, s) == Lost
  {
    var front, c := s[..|s| - 1], s[|s| - 1];
    assert s == front + [c];
    if c != '\0' {
      NulIsLost(l, front);
    }
  }

  // ---- Quoting ----

  predicate NulFree(s: string) {
    '\0' !in s
  }

  /** Every single quote replaced by: close, escaped quote, open. */
  function Escape(s: string): string {
    if s == "" then ""
    else Escape(s[..|s| - 1]) + (if s[|s| - 1] == '\'' then "'\\''" else [s[|s| - 1]])
  }

  function Shq(s: string): string {
    "'" + Escape(s) + "'"
  }

  function QuotedArgs(argv: seq<string>): seq<string> {
    seq(|argv|, (i: int) requires 0 <= i < |argv| => Shq(argv[i]))
  }

  function Line(argv: seq<string>): string {
    Join(QuotedArgs(argv), ' ')
  }

  method ArgsToLine(argv: seq<string>) returns (line: string)
    ensures line == Line(argv)
  {
    var parts := new string[|argv|];
    var i := 0;
    while i < |argv|
      invariant 0 <= i <= |argv| && forall k :: 0 <= k < i ==> parts[k] == Shq(argv[k])
    {
      parts[i] := Shq(argv[i]);
      i := i + 1;
    }
    assert parts[..] == QuotedArgs(argv);
    line := Join(parts[..], ' ');
  }

  lemma LexQuoteStep(tokens: seq<Token>, w: string, c: char)
    requires c != '\0'
    ensures Lex(Lexer(tokens, Some(w), Quoted), if c == '\'' then "'\\''" else [c]) == Lexer(tokens, Some(w + [c]), Quoted)
  {
    var l := Lexer(tokens, Some(w), Quoted);
    if c == '\'' {
      assert "'\\''" == (("" + ['\''] + ['\\']) + ['\'']) + ['\''];
      LexSnoc(l, "", '\'');
      LexSnoc(l, "" + ['\''], '\\');
      LexSnoc(l, "" + ['\''] + ['\\'], '\'');
      LexSnoc(l, "" + ['\''] + ['\\'] + ['\''], '\'');
    } else {
      LexSnoc(l, "", c);
      assert "" + [c] == [c];
    }
  }

  lemma {:induction false} LexEscape(tokens: seq<Token>, w: string, s: string)
    requires NulFree(s)
    ensures Lex(Lexer(tokens, Some(w), Quoted), Escape(s)) == Lexer(tokens, Some(w + s), Quoted)
  {
    var l := Lexer(tokens, Some(w), Quoted);
    if s == "" {
      assert w + s == w;
    } else {
      var front, c := s[..|s| - 1], s[|s| - 1];
      assert s == front + [c];
      LexEscape(tokens, w, front);
      LexAppend(l, Escape(front), if c == '\'' then "'\\''" else [c]);
      LexQuoteStep(tokens, w + front, c);
      assert (w + front) + [c] == w + s;
    }
  }

  /** A quoted text adds exactly itself to the word begun. */
  lemma LexShq(tokens: seq<Token>, word: Option<string>, s: string)
    requires NulFree(s)
    ensures Lex(Lexer(tokens, word, Plain), Shq(s)) == Lexer(tokens, Some((if word.Some? then word.value else "") + s), Plain)
  {
    var l, begun := Lexer(tokens, word, Plain), if word.Some? then word.value else "";
    LexSnoc(l, "", '\'');
    assert "" + ['\''] == "'";
    LexAppend(l, "'", Escape(s));
    LexEscape(tokens, begun, s);
    LexSnoc(l, "'" + Escape(s), '\'');
  }

  function Words(argv: seq<string>): seq<Token> {
    seq(|argv|, (i: int) requires 0 <= i < |argv| => Word(argv[i]))
  }

  lemma LineSnoc(front: seq<string>, a: string)
    ensures Line(front + [a]) == if front == [] then Shq(a) else Line(front) + " " + Shq(a)
  {
    assert QuotedArgs(front + [a]) == QuotedArgs(front) + [Shq(a)];
    if front != [] {
      JoinSnoc(QuotedArgs(front), Shq(a), ' ');
    }
  }

  lemma LexNext(tokens: seq<Token>, w: string, a: string)
    requires NulFree(a)
    ensures Lex(Lexer(tokens, Some(w), Plain), " " + Shq(a)) == Lexer(tokens + [Word(w)], Some(a), Plain)
  {
    var l := Lexer(tokens, Some(w), Plain);
    LexAppend(l, " ", Shq(a));
    LexSnoc(l, "", ' ');
    assert "" + [' '] == " ";
    LexShq(tokens + [Word(w)], None, a);
    assert "" + a == a;
  }

  lemma LexLineNext(line: string, tokens: seq<Token>, w: string, a: string)
    requires NulFree(a) && Lex(START, line) == Lexer(tokens, Some(w), Plain)
    ensures Lex(START, line + " " + Shq(a)) == Lexer(tokens + [Word(w)], Some(a), Plain)
  {
    LexAppend(START, line, " " + Shq(a));
    assert line + " " + Shq(a) == line + (" " + Shq(a));
    LexNext(tokens, w, a);
  }

  lemma WordsSnoc(argv: seq<string>)
    requires argv != []
    ensures Words(argv) == Words(argv[..|argv| - 1]) + [Word(argv[|argv| - 1])]
  {
  }

  lemma {:induction false} LexLine(argv: seq<string>)
    requires argv != [] && forall i :: 0 <= i < |argv| ==> NulFree(argv[i])
    ensures Lex(START, Line(argv)) == Lexer(Words(argv[..|argv| - 1]), Some(argv[|argv| - 1]), Plain)
  {
    var front, a := argv[..|argv| - 1], argv[|argv| - 1];
    assert argv == front + [a];
    LineSnoc(front, a);
    if front == [] {
      LexShq([], None, a);
      assert "" + a == a;
    } else {
      LexLine(front);
      LexLineNext(Line(front), Words(front[..|front| - 1]), front[|front| - 1], a);
      WordsSnoc(front);
    }
  }

  lemma {:induction false} EscapeKeepsNul(s: string)
    requires !NulFree(s)
    ensures '\0' in Escape(s)
  {
    var front, c := s[..|s| - 1], s[|s| - 1];
    assert s == front + [c];
    if c != '\0' {
      EscapeKeepsNul(front);
    } else {
      assert Escape(s)[|Escape(front)|] == '\0';
    }
  }

  lemma {:induction false} LineKeepsNul(argv: seq<string>, i: nat)
    requires i < |argv| && !NulFree(argv[i])
    ensures '\0' in Line(argv)
  {
    var front, a := argv[..|argv| - 1], argv[|argv| - 1];
    assert argv == front + [a];
    LineSnoc(front, a);
    if i < |front| {
      LineKeepsNul(front, i);
    } else {
      EscapeKeepsNul(a);
    }
  }

  /** Splitting the line into words gives the argument list back, for every list whose texts have no NUL and for no other. */
  lemma LineRoundTrip(argv: seq<string>)
    ensures Tokens(Line(argv)) == Some(Words(argv)) <==> forall i :: 0 <= i < |argv| ==> '\0' !in argv[i]
    ensures |Words(argv)| == |argv| && forall i :: 0 <= i < |argv| ==> Words(argv)[i] == Word(argv[i])
  {
    if i :| 0 <= i < |argv| && !NulFree(argv[i]) {
      LineKeepsNul(argv, i);
      NulIsLost(START, Line(argv));
    } else if argv == [] {
      assert QuotedArgs([]) == [] && Words([]) == [];
    } else {
      LexLine(argv);
      WordsSnoc(argv);
    }
  }

  // ---- The script inside the line ----

  datatype Var = Var(name: string, value: string)

  function Export(v: Var): string {
    if v.name == "" then "" else "export " + v.name + "=" + Shq(v.value) + "; "
  }

  function Exports(env: seq<Var>): string {
    if env == [] then "" else Exports(env[..|env| - 1]) + Export(env[|env| - 1])
  }

  function Cd(workspace: string): string {
    if workspace == "" then "" else "cd " + Shq(workspace) + " || exit 64; "
  }

  function Script(workspace: string, command: string, env: seq<Var>): string {
    Exports(env) + Cd(workspace) + command
  }

  method RemoteScript(workspace: string, command: string, env: seq<Var>) returns (b: string)
    ensures b == Script(workspace, command, env)
  {
    b := "";
    var i := 0;
    while i < |env|
      invariant 0 <= i <= |env| && b == Exports(env[..i])
    {
      TakeSnoc(env, i);
      assert env[..i + 1][..i] == env[..i];
      if env[i].name != "" {
        b := b + ("export " + env[i].name + "=" + Shq(env[i].value) + "; ");
      } else {
        assert b + "" == b;
      }
      i := i + 1;
    }
    assert env[..i] == env;
    if workspace != "" {
      b := b + ("cd " + Shq(workspace) + " || exit 64; ");
    } else {
      assert b + "" == b;
    }
    b := b + command;
  }

  /** A text that, unquoted at the start of a word that goes on with a quoted part, is read as it is. */
  predicate StandsForItself(w: string) {
    && w != "" && w[0] != '#' && (w[0] == '~' ==> '/' !in w)
    && forall i :: 0 <= i < |w| ==> Literal(w[i]) && (w[i] == '~' ==> '=' !in w[..i])
  }

  /** Names go into the script unquoted; these stand for themselves. */
  predicate PlainName(name: string) {
    '=' !in name && (name != "" ==> StandsForItself(name))
  }

  /** What the remote shell should see of the environment. */
  function ExportTokens(env: seq<Var>): seq<Token> {
    if env == [] then []
    else
      var v := env[|env| - 1];
      ExportTokens(env[..|env| - 1])
      + (if v.name == "" then [] else [Word("export"), Word(v.name + "=" + v.value), Op(";")])
  }

  function CdTokens(workspace: string): seq<Token> {
    if workspace == "" then []
    else [Word("cd"), Word(workspace), Op("||"), Word("exit"), Word("64"), Op(";")]
  }

  /** A plain name and any value are recovered from the assignment word. */
  lemma AssignmentSplits(v: Var)
    requires PlainName(v.name)
    ensures '=' in v.name + "=" + v.value
    ensures Before(v.name + "=" + v.value, '=') == v.name && After(v.name + "=" + v.value, '=') == v.value
  {
    CutIff(v.name + "=" + v.value, '=', v.name, v.value);
  }

  lemma Lex1(l: Lexer, c: char)
    ensures Lex(l, [c]) == LexChar(l, c)
  {
    LexSnoc(l, "", c);
    assert "" + [c] == [c];
  }

  predicate OrdinaryWord(w: string) {
    w != "" && forall i :: 0 <= i < |w| ==> Ordinary(w[i])
  }

  function ModeWithin(w: string): Mode
    requires w != ""
  {
    if w[0] == '~' then Tilde else Plain
  }

  lemma {:induction false} LexPrefix(tokens: seq<Token>, w: string)
    requires StandsForItself(w)
    ensures Lex(Lexer(tokens, None, Plain), w) == Lexer(tokens, Some(w), ModeWithin(w))
  {
    var front, c := w[..|w| - 1], w[|w| - 1];
    assert w == front + [c];
    if front == "" {
      Lex1(Lexer(tokens, None, Plain), c);
      assert "" + [c] == [c] == w;
    } else {
      PrefixStands(front, c);
      LexPrefix(tokens, front);
    }
  }

  lemma PrefixStands(front: string, c: char)
    requires front != "" && StandsForItself(front + [c])
    ensures StandsForItself(front) && LiteralWithin(front, c) && (front[0] == '~' ==> c != '/' && Literal(c))
  {
    var w := front + [c];
    assert w[..|front|] == front && w[|front|] == c;
    forall i | 0 <= i < |front| ensures Literal(front[i]) && (front[i] == '~' ==> '=' !in front[..i]) {
      assert w[i] == front[i] && w[..i] == front[..i];
    }
  }

  lemma OrdinaryStands(w: string)
    requires OrdinaryWord(w)
    ensures StandsForItself(w) && ModeWithin(w) == Plain
  {
  }

  lemma LexWord(tokens: seq<Token>, w: string)
    requires OrdinaryWord(w)
    ensures Lex(Lexer(tokens, None, Plain), w) == Lexer(tokens, Some(w), Plain)
  {
    OrdinaryStands(w);
    LexPrefix(tokens, w);
  }

  lemma LexWordSpace(tokens: seq<Token>, w: string)
    requires OrdinaryWord(w)
    ensures Lex(Lexer(tokens, None, Plain), w + " ") == Lexer(tokens + [Word(w)], None, Plain)
  {
    LexWord(tokens, w);
    LexSnoc(Lexer(tokens, None, Plain), w, ' ');
    assert w + [' '] == w + " ";
  }

  lemma LexSemicolon(tokens: seq<Token>, w: string)
    ensures Lex(Lexer(tokens, Some(w), Plain), "; ") == Lexer(tokens + [Word(w)] + [Op(";")], None, Plain)
  {
    var l := Lexer(tokens, Some(w), Plain);
    Lex1(l, ';');
    LexSnoc(l, ";", ' ');
    assert ";" + [' '] == "; ";
  }

  lemma LexOr(tokens: seq<Token>, w: string)
    ensures Lex(Lexer(tokens, Some(w), Plain), " || ") == Lexer(tokens + [Word(w)] + [Op("||")], None, Plain)
  {
    var l := Lexer(tokens, Some(w), Plain);
    Lex1(l, ' ');
    LexSnoc(l, " ", '|');
    LexSnoc(l, " |", '|');
    LexSnoc(l, " ||", ' ');
    assert " " + ['|'] == " |" && " |" + ['|'] == " ||" && " ||" + [' '] == " || ";
    assert ['|'] + ['|'] == "||";
  }

  /** A quoted text after a prefix adds itself to it. */
  lemma LexShqAfter(tokens: seq<Token>, w: string, s: string)
    requires w != "" && NulFree(s)
    ensures Lex(Lexer(tokens, Some(w), ModeWithin(w)), Shq(s)) == Lexer(tokens, Some(w + s), Plain)
  {
    var rest := Escape(s) + "'";
    assert Shq(s) == "'" + rest;
    LexAppend(Lexer(tokens, Some(w), ModeWithin(w)), "'", rest);
    LexAppend(Lexer(tokens, Some(w), Plain), "'", rest);
    Lex1(Lexer(tokens, Some(w), ModeWithin(w)), '\'');
    Lex1(Lexer(tokens, Some(w), Plain), '\'');
    LexShq(tokens, Some(w), s);
  }

  lemma PlainPrefix(name: string)
    requires name != "" && PlainName(name)
    ensures StandsForItself(name + "=")
  {
    var w := name + "=";
    forall i | 0 <= i < |w| ensures Literal(w[i]) && (w[i] == '~' ==> '=' !in w[..i]) {
      if i < |name| {
        assert w[i] == name[i] && w[..i] == name[..i];
      }
    }
  }

  /** A word, and an argument that is a literal prefix and a quoted text. */
  lemma LexAssign(tokens: seq<Token>, word: string, prefix: string, value: string)
    requires OrdinaryWord(word) && StandsForItself(prefix) && NulFree(value)
    ensures Lex(Lexer(tokens, None, Plain), ((word + " ") + prefix + Shq(value)) + "; ")
         == Lexer(tokens + [Word(word)] + [Word(prefix + value)] + [Op(";")], None, Plain)
  {
    var l := Lexer(tokens, None, Plain);
    LexAppend(l, (word + " ") + prefix + Shq(value), "; ");
    LexAppend(l, (word + " ") + prefix, Shq(value));
    LexAppend(l, word + " ", prefix);
    LexWordSpace(tokens, word);
    LexPrefix(tokens + [Word(word)], prefix);
    LexShqAfter(tokens + [Word(word)], prefix, value);
    LexSemicolon(tokens + [Word(word)], prefix + value);
  }

  lemma LexExport(tokens: seq<Token>, v: Var)
    requires v.name != "" && PlainName(v.name) && NulFree(v.value)
    ensures Lex(Lexer(tokens, None, Plain), Export(v))
         == Lexer(tokens + [Word("export"), Word(v.name + "=" + v.value), Op(";")], None, Plain)
  {
    var word, prefix := "export", v.name + "=";
    assert OrdinaryWord(word);
    PlainPrefix(v.name);
    LexAssign(tokens, word, prefix, v.value);
    ExportText(v, word, prefix);
    Snoc3(tokens, Word(word), Word(prefix + v.value), Op(";"));
  }

  lemma ExportText(v: Var, word: string, prefix: string)
    requires v.name != "" && word == "export" && prefix == v.name + "="
    ensures Export(v) == ((word + " ") + prefix + Shq(v.value)) + "; "
  {
    assert "export " == word + " ";
  }

  lemma Snoc3<T>(s: seq<T>, a: T, b: T, c: T)
    ensures s + [a] + [b] + [c] == s + [a, b, c]
  {
  }

  /** A word and a quoted text, or else a second command of two words. */
  lemma LexOrElse(tokens: seq<Token>, word: string, value: string, other: string, code: string, text: string)
    requires OrdinaryWord(word) && NulFree(value) && OrdinaryWord(other) && OrdinaryWord(code)
    requires text == (((word + " ") + Shq(value)) + " || ") + (other + " ") + code + "; "
    ensures Lex(Lexer(tokens, None, Plain), text)
         == Lexer(tokens + [Word(word), Word(value), Op("||"), Word(other), Word(code), Op(";")], None, Plain)
  {
    Snoc6(tokens, Word(word), Word(value), Op("||"), Word(other), Word(code), Op(";"));
    var l := Lexer(tokens, None, Plain);
    var first := ((word + " ") + Shq(value)) + " || ";
    var t1 := tokens + [Word(word)];
    var t2 := t1 + [Word(value)] + [Op("||")];
    LexAppend(l, first + (other + " ") + code, "; ");
    LexAppend(l, first + (other + " "), code);
    LexAppend(l, first, other + " ");
    LexAppend(l, (word + " ") + Shq(value), " || ");
    LexAppend(l, word + " ", Shq(value));
    LexWordSpace(tokens, word);
    LexShq(t1, None, value);
    assert "" + value == value;
    LexOr(t1, value);
    LexWordSpace(t2, other);
    LexWord(t2 + [Word(other)], code);
    LexSemicolon(t2 + [Word(other)], code);
  }

  lemma LexCd(tokens: seq<Token>, workspace: string)
    requires workspace != "" && NulFree(workspace)
    ensures Lex(Lexer(tokens, None, Plain), Cd(workspace)) == Lexer(tokens + CdTokens(workspace), None, Plain)
  {
    var word, other, code := "cd", "exit", "64";
    assert OrdinaryWord(word) && OrdinaryWord(other) && OrdinaryWord(code);
    CdText(workspace, word, other, code);
    LexOrElse(tokens, word, workspace, other, code, Cd(workspace));
  }

  lemma CdText(workspace: string, word: string, other: string, code: string)
    requires workspace != "" && word == "cd" && other == "exit" && code == "64"
    ensures Cd(workspace) == (((word + " ") + Shq(workspace)) + " || ") + (other + " ") + code + "; "
  {
    assert "cd " == word + " ";
    assert " || exit 64; " == " || " + (other + " ") + code + "; ";
  }

  lemma Snoc6<T>(s: seq<T>, a: T, b: T, c: T, d: T, e: T, f: T)
    ensures s + [a] + [b] + [c] + [d] + [e] + [f] == s + [a, b, c, d, e, f]
  {
  }

  lemma {:induction false} LexExports(env: seq<Var>)
    requires forall i :: 0 <= i < |env| ==> PlainName(env[i].name) && NulFree(env[i].value)
    ensures Lex(START, Exports(env)) == Lexer(ExportTokens(env), None, Plain)
  {
    if env != [] {
      var front, v := env[..|env| - 1], env[|env| - 1];
      LexExports(front);
      LexAppend(START, Exports(front), Export(v));
      if v.name != "" {
        LexExport(ExportTokens(front), v);
      } else {
        assert ExportTokens(front) + [] == ExportTokens(front);
      }
    }
  }

  /** The same lexer with tokens before its own. */
  function Behind(pre: seq<Token>, l: Lexer): Lexer {
    if l.Lost? then Lost else l.(tokens := pre + l.tokens)
  }

  lemma LexCharBehind(pre: seq<Token>, l: Lexer, c: char)
    ensures LexChar(Behind(pre, l), c) == Behind(pre, LexChar(l, c))
  {
    if l.Lexer? {
      EndedBehind(pre, l);
      if l.mode.Operator? {
        BehindSnoc(pre, l.tokens, Op(l.mode.op));
        EndedBehind(pre, Lexer(l.tokens + [Op(l.mode.op)], l.word, Plain));
      }
    }
  }

  lemma BehindSnoc(pre: seq<Token>, tokens: seq<Token>, t: Token)
    ensures (pre + tokens) + [t] == pre + (tokens + [t])
  {
  }

  lemma EndedBehind(pre: seq<Token>, l: Lexer)
    requires l.Lexer?
    ensures EndedTokens(Behind(pre, l)) == pre + EndedTokens(l)
  {
    if l.word.Some? {
      BehindSnoc(pre, l.tokens, Word(l.word.value));
    }
  }

  lemma {:induction false} LexBehind(pre: seq<Token>, l: Lexer, s: string)
    ensures Lex(Behind(pre, l), s) == Behind(pre, Lex(l, s))
  {
    if s != "" {
      LexBehind(pre, l, s[..|s| - 1]);
      LexCharBehind(pre, Lex(l, s[..|s| - 1]), s[|s| - 1]);
    }
  }

  /** What comes before the command is read whole: every variable and the workspace as they were given. */
  lemma PreludeReadsBack(workspace: string, env: seq<Var>)
    requires forall i :: 0 <= i < |env| ==> PlainName(env[i].name) && NulFree(env[i].value)
    requires NulFree(workspace)
    ensures Lex(START, Exports(env) + Cd(workspace)) == Lexer(ExportTokens(env) + CdTokens(workspace), None, Plain)
  {
    LexExports(env);
    LexAppend(START, Exports(env), Cd(workspace));
    if workspace != "" {
      LexCd(ExportTokens(env), workspace);
    } else {
      assert ExportTokens(env) + CdTokens(workspace) == ExportTokens(env);
    }
  }

  /**
   Parsing the script shows the remote shell every variable and the workspace as they were given, whatever the
   command is; the command's own text begins at a fresh token and is read as if it stood alone.
   */
  lemma ScriptReadsBack(workspace: string, command: string, env: seq<Var>)
    requires forall i :: 0 <= i < |env| ==> PlainName(env[i].name) && NulFree(env[i].value)
    requires NulFree(workspace)
    ensures Script(workspace, command, env) == Exports(env) + Cd(workspace) + command
    ensures Lex(START, Exports(env) + Cd(workspace)) == Lexer(ExportTokens(env) + CdTokens(workspace), None, Plain)
    ensures Lex(START, Script(workspace, command, env)) ==
            Behind(ExportTokens(env) + CdTokens(workspace), Lex(START, command))
    ensures Tokens(Script(workspace, command, env)) ==
            if Tokens(command).None? then None
            else Some(ExportTokens(env) + CdTokens(workspace) + Tokens(command).value)
  {
    var pre := ExportTokens(env) + CdTokens(workspace);
    PreludeReadsBack(workspace, env);
    LexAppend(START, Exports(env) + Cd(workspace), command);
    LexBehind(pre, START, command);
    assert Behind(pre, START) == Lexer(pre, None, Plain) by {
      assert pre + [] == pre;
    }
    FinishBehind(pre, Lex(START, command));
  }

  lemma FinishBehind(pre: seq<Token>, l: Lexer)
    ensures Finish(Behind(pre, l)) == if Finish(l).None? then None else Some(pre + Finish(l).value)
  {
    if l.Lexer? {
      EndedBehind(pre, l);
      if l.mode.Operator? {
        BehindSnoc(pre, l.tokens, Op(l.mode.op));
      }
    }
  }

  /** Both levels: the login shell hands the script on as one word, and parsing that word recovers what was put in. */
  lemma TwoLevels(workspace: string, command: string, env: seq<Var>)
    requires forall i :: 0 <= i < |env| ==> PlainName(env[i].name) && NulFree(env[i].value)
    requires NulFree(workspace) && NulFree(command)
    ensures var script := Script(workspace, command, env);
      && Tokens(Line(["sh", "-c", script])) == Some([Word("sh"), Word("-c"), Word(script)])
      && script == Exports(env) + Cd(workspace) + command
      && Lex(START, Exports(env) + Cd(workspace)) == Lexer(ExportTokens(env) + CdTokens(workspace), None, Plain)
      && Lex(START, script) == Behind(ExportTokens(env) + CdTokens(workspace), Lex(START, command))
  {
    ScriptReadsBack(workspace, command, env);
    ScriptNulFree(workspace, command, env);
    var sh, dashC := "sh", "-c";
    ThreeWords(sh, dashC, Script(workspace, command, env));
  }

  lemma ThreeWords(a: string, b: string, c: string)
    requires NulFree(a) && NulFree(b) && NulFree(c)
    ensures Tokens(Line([a, b, c])) == Some([Word(a), Word(b), Word(c)])
  {
    LineRoundTrip([a, b, c]);
    assert Words([a, b, c]) == [Word(a), Word(b), Word(c)];
  }

  lemma {:induction false} EscapeNulFree(s: string)
    requires NulFree(s)
    ensures NulFree(Escape(s))
  {
    if s != "" {
      EscapeNulFree(s[..|s| - 1]);
    }
  }

  lemma ScriptNulFree(workspace: string, command: string, env: seq<Var>)
    requires forall i :: 0 <= i < |env| ==> PlainName(env[i].name) && NulFree(env[i].value)
    requires NulFree(workspace) && NulFree(command)
    ensures NulFree(Script(workspace, command, env))
  {
    CdNulFree(workspace);
    ExportsNulFree(env);
  }

  lemma CdNulFree(workspace: string)
    requires NulFree(workspace)
    ensures NulFree(Cd(workspace))
  {
    EscapeNulFree(workspace);
  }

  lemma {:induction false} ExportsNulFree(env: seq<Var>)
    requires forall i :: 0 <= i < |env| ==> PlainName(env[i].name) && NulFree(env[i].value)
    ensures NulFree(Exports(env))
  {
    if env != [] {
      ExportsNulFree(env[..|env| - 1]);
      ExportNulFree(env[|env| - 1]);
    }
  }

  lemma ExportNulFree(v: Var)
    requires PlainName(v.name) && NulFree(v.value)
    ensures NulFree(Export(v))
  {
    EscapeNulFree(v.value);
    assert forall i :: 0 <= i < |v.name| ==> v.name[i] != '\0';
  }

  lemma LexTwoWords(word: string, a: string)
    requires OrdinaryWord(word) && OrdinaryWord(a)
    ensures Lex(START, (word + " ") + a + ";") == Lexer([Word(word), Word(a)], None, Operator(";"))
  {
    LexAppend(START, word + " ", a);
    LexWordSpace([], word);
    LexWord([] + [Word(word)], a);
    LexSnoc(START, (word + " ") + a, ';');
    assert (word + " ") + a + [';'] == (word + " ") + a + ";";
    assert [] + [Word(word)] + [Word(a)] == [Word(word), Word(a)];
  }

  lemma LexAssignNext(tokens: seq<Token>, prefix: string, value: string)
    requires OrdinaryWord(prefix) && NulFree(value)
    ensures Lex(Lexer(tokens, None, Operator(";")), (prefix + Shq(value)) + "; ")
         == Lexer(tokens + [Op(";"), Word(prefix + value), Op(";")], None, Plain)
  {
    var l := Lexer(tokens, None, Operator(";"));
    LexAppend(l, prefix + Shq(value), "; ");
    LexAppend(l, prefix, Shq(value));
    LexAfterSemicolon(tokens, prefix);
    LexShq(tokens + [Op(";")], Some(prefix), value);
    LexSemicolon(tokens + [Op(";")], prefix + value);
    Snoc3(tokens, Op(";"), Word(prefix + value), Op(";"));
  }

  /** Names are not quoted: with a semicolon in one, the shell sees two commands and another name. */
  lemma NameWithSemicolon(a: string, b: string, value: string)
    requires OrdinaryWord(a) && OrdinaryWord(b) && NulFree(value)
    ensures Lex(START, Export(Var(a + ";" + b, value)))
         == Lexer([Word("export"), Word(a)] + [Op(";"), Word(b + "=" + value), Op(";")], None, Plain)
  {
    var word := "export";
    assert OrdinaryWord(word);
    LexTwoWords(word, a);
    LexAssignNext([Word(word), Word(a)], b + "=", value);
    var first, second := (word + " ") + a + ";", ((b + "=") + Shq(value)) + "; ";
    LexAppend(START, first, second);
    SemicolonText(a, b, value, word);
  }

  lemma SemicolonText(a: string, b: string, value: string, word: string)
    requires word == "export"
    ensures Export(Var(a + ";" + b, value)) == ((word + " ") + a + ";") + (((b + "=") + Shq(value)) + "; ")
  {
    ExportText(Var(a + ";" + b, value), word, (a + ";" + b) + "=");
  }

  lemma {:induction false} LexAfterSemicolon(tokens: seq<Token>, w: string)
    requires OrdinaryWord(w)
    ensures Lex(Lexer(tokens, None, Operator(";")), w) == Lexer(tokens + [Op(";")], Some(w), Plain)
  {
    var l, front, c := Lexer(tokens, None, Operator(";")), w[..|w| - 1], w[|w| - 1];
    assert w == front + [c];
    if front == "" {
      Lex1(l, c);
      assert "" + [c] == [c] == w;
    } else {
      LexAfterSemicolon(tokens, front);
      LexSnoc(l, front, c);
    }
  }
}
