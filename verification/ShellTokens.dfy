/**
 What the quoting of a remote shell is, character by character, and what the script shows the shell, variable by
 variable.
 */
module ShellTokens {
  import opened Lists
  import opened ShellQuote
  import opened Text

  /** Quoting changes nothing but the single quotes, each of which becomes: close, escaped quote, open. */
  lemma {:induction false} EscapeAppend(a: string, b: string)
    ensures Escape(a + b) == Escape(a) + Escape(b)
  {
    if b == "" {
      assert a + b == a;
    } else {
      var front, c := b[..|b| - 1], b[|b| - 1];
      assert b == front + [c] && (a + b)[..|a + b| - 1] == a + front;
      EscapeAppend(a, front);
      Assoc(Escape(a), Escape(front), if c == '\'' then "'\\''" else [c]);
    }
  }

  lemma {:induction false} EscapePlain(s: string)
    requires '\'' !in s
    ensures Escape(s) == s
  {
    if s != "" {
      assert s == s[..|s| - 1] + [s[|s| - 1]];
      EscapePlain(s[..|s| - 1]);
    }
  }

  /** The text before the first single quote stays, four characters stand for the quote, and the rest goes on alike. */
  lemma EscapeParts(before: string, after: string)
    requires '\'' !in before
    ensures Escape(before) == before
    ensures Escape(before + ['\''] + after) == before + ['\'', '\\', '\'', '\''] + Escape(after)
  {
    EscapePlain(before);
    EscapeAppend(before + ['\''], after);
    EscapeAppend(before, ['\'']);
    EscapeQuote();
  }

  /** A text is quoted by putting it between single quotes. */
  lemma QuotedText(s: string)
    ensures Shq(s) == ['\''] + Escape(s) + ['\'']
  {
    var quote := "'";
    assert quote == ['\''];
  }

  lemma EscapeQuote()
    ensures Escape(['\'']) == ['\'', '\\', '\'', '\'']
  {
    assert Escape([]) == [];
  }

  // ---- Every variable ----

  /** Three tokens from here: the word export, the assignment, and a semicolon. */
  predicate ExportAt(tokens: seq<Token>, i: nat, v: Var) {
    i + 3 <= |tokens| && tokens[i] == Word("export") && tokens[i + 1] == Word(v.name + "=" + v.value) && tokens[i + 2] == Op(";")
  }

  /** The positions `at` lead, in order, through exactly the variables that have a name, each exported in three tokens. */
  ghost predicate Exported(at: seq<nat>, env: seq<Var>, tokens: seq<Token>) {
    && |tokens| == 3 * |at| && Increasing(at)
    && (forall k: nat :: k < |at| ==> at[k] < |env| && env[at[k]].name != "" && ExportAt(tokens, 3 * k, env[at[k]]))
    && (forall j :: 0 <= j < |env| && env[j].name != "" ==> j in at)
  }

  lemma ExportedSkip(at: seq<nat>, env: seq<Var>, v: Var, tokens: seq<Token>)
    requires Exported(at, env, tokens) && v.name == ""
    ensures Exported(at, env + [v], tokens)
  {
  }

  lemma ExportAtPrefix(tokens: seq<Token>, more: seq<Token>, i: nat, v: Var)
    requires ExportAt(tokens, i, v)
    ensures ExportAt(tokens + more, i, v)
  {
  }

  lemma ExportAtEnd(tokens: seq<Token>, v: Var)
    ensures ExportAt(tokens + [Word("export"), Word(v.name + "=" + v.value), Op(";")], |tokens|, v)
  {
  }

  lemma ExportedTake(at: seq<nat>, env: seq<Var>, v: Var, tokens: seq<Token>, more: seq<Token>)
    requires Exported(at, env, tokens) && v.name != "" && |more| == 3 && ExportAt(tokens + more, |tokens|, v)
    ensures Exported(at + [|env|], env + [v], tokens + more)
  {
    var all, longer := at + [|env|], env + [v];
    forall k: nat | k < |all| ensures all[k] < |longer| && longer[all[k]].name != "" && ExportAt(tokens + more, 3 * k, longer[all[k]]) {
      if k < |at| {
        ExportAtPrefix(tokens, more, 3 * k, env[at[k]]);
      }
    }
    forall j | 0 <= j < |longer| && longer[j].name != "" ensures j in all {
      if j == |env| {
        assert all[|at|] == j;
      }
    }
  }

  /** The shell is shown each variable that has a name, in order, and nothing of those without one. */
  lemma {:induction false} EveryVariable(env: seq<Var>) returns (at: seq<nat>)
    ensures Exported(at, env, ExportTokens(env))
  {
    at := [];
    if env != [] {
      var front, v := env[..|env| - 1], env[|env| - 1];
      assert env == front + [v];
      at := EveryVariable(front);
      if v.name == "" {
        ExportedSkip(at, front, v, ExportTokens(front));
        assert ExportTokens(front) + [] == ExportTokens(front);
      } else {
        ExportAtEnd(ExportTokens(front), v);
        ExportedTake(at, front, v, ExportTokens(front), [Word("export"), Word(v.name + "=" + v.value), Op(";")]);
        at := at + [|front|];
      }
    }
  }

  /** Without variables and workspace nothing comes before the command; with a workspace, a change into it or an end with 64. */
  lemma BeforeTheCommand(workspace: string, command: string, env: seq<Var>)
    requires forall i :: 0 <= i < |env| ==> PlainName(env[i].name) && '\0' !in env[i].value
    requires '\0' !in workspace && Tokens(command).Some?
    ensures Tokens(Script(workspace, command, env)).Some?
    ensures exists at, tokens ::
              && Exported(at, env, tokens)
              && Tokens(Script(workspace, command, env)).value
              == tokens
                 + (if workspace == "" then [] else [Word("cd"), Word(workspace), Op("||"), Word("exit"), Word("64"), Op(";")])
                 + Tokens(command).value
  {
    ScriptReadsBack(workspace, command, env);
    var at := EveryVariable(env);
    assert Exported(at, env, ExportTokens(env));
  }

  /** The names that come through, by their characters. */
  lemma PlainNameIs(name: string)
    requires name != ""
    ensures PlainName(name) <==>
      && name[0] != '#' && (name[0] == '~' ==> '/' !in name)
      && forall i :: 0 <= i < |name| ==>
           name[i] !in {'=', '|', '&', ';', '<', '>', '(', ')', '$', '`', '\\', '"', '\'', ' ', '\t', '\n', '*', '?', '[', '\0'}
  {
    forall i | 0 <= i < |name|
      ensures Literal(name[i]) <==>
        name[i] !in {'|', '&', ';', '<', '>', '(', ')', '$', '`', '\\', '"', '\'', ' ', '\t', '\n', '*', '?', '[', '\0'}
    {
      LiteralIs(name[i]);
    }
    if '=' !in name {
      assert forall i :: 0 <= i < |name| ==> '=' !in name[..i];
    }
  }

  lemma LiteralIs(c: char)
    ensures Literal(c) <==>
      c !in {'|', '&', ';', '<', '>', '(', ')', '$', '`', '\\', '"', '\'', ' ', '\t', '\n', '*', '?', '[', '\0'}
  {
  }
}
