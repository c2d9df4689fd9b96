/** Quote and Build, and the proof that a shell reads back the argv they were given. */
module ShellCmd {
  import opened Core
  import opened Shell

  /** strings.ReplaceAll for a one-character pattern. */
  function ReplaceAll(s: string, pattern: char, text: string): string {
    if s == [] then [] else (if s[0] == pattern then text else [s[0]]) + ReplaceAll(s[1..], pattern, text)
  }

  function Quote(s: string): string {
    "'" + ReplaceAll(s, '\'', "'\\''") + "'"
  }

  function Build(args: seq<string>): string {
    if args == [] then ""
    else if |args| == 1 then Quote(args[0])
    else Quote(args[0]) + " " + Build(args[1..])
  }

  /** strings.Join with one blank. */
  function Join(parts: seq<string>): string {
    if parts == [] then "" else if |parts| == 1 then parts[0] else parts[0] + " " + Join(parts[1..])
  }

  lemma {:induction false} BuildIsJoin(args: seq<string>, quoted: seq<string>)
    requires |quoted| == |args| && forall i :: 0 <= i < |args| ==> quoted[i] == Quote(args[i])
    ensures Join(quoted) == Build(args)
    decreases |args|
  {
    if |args| <= 1 {
    } else {
      BuildIsJoin(args[1..], quoted[1..]);
    }
  }

  /** The loop of Build: a slice of quoted tokens, joined. */
  method BuildLine(args: seq<string>) returns (line: string)
    ensures line == Build(args)
  {
    var quoted := new string[|args|];
    var i := 0;
    while i < |args|
      invariant i <= |args|
      invariant forall k :: 0 <= k < i ==> quoted[k] == Quote(args[k])
    {
      quoted[i] := Quote(args[i]);
      i := i + 1;
    }
    BuildIsJoin(args, quoted[..]);
    line := Join(quoted[..]);
  }

  // ---- Reading a quoted token ----

  predicate NulFree(s: string) {
    forall i :: 0 <= i < |s| ==> s[i] != '\0'
  }

  predicate AllNulFree(args: seq<string>) {
    forall i :: 0 <= i < |args| ==> NulFree(args[i])
  }

  function Literal(s: string): (pieces: seq<Piece>)
    ensures |pieces| == |s|
    ensures forall i :: 0 <= i < |s| ==> pieces[i] == Quoted(s[i])
  {
    if s == [] then [] else [Quoted(s[0])] + Literal(s[1..])
  }

  function Words(args: seq<string>): (words: seq<Token>)
    ensures |words| == |args|
  {
    if args == [] then [] else [Word(Literal(args[0]))] + Words(args[1..])
  }

  lemma ReadEscapedQuote(tail: string)
    ensures ReadWord(Single, "'\\''" + tail) == Prepend(Quoted('\''), ReadWord(Single, tail))
  {
    var text := "'\\''" + tail;
    var bare := text[1..];
    var again := bare[2..];
    assert again == "'" + tail && again[1..] == tail;
    assert ReadWord(Bare, again) == ReadWord(Single, tail);
    assert bare[0] == '\\' && bare[1] == '\'';
    assert ReadWord(Bare, bare) == Prepend(Quoted('\''), ReadWord(Bare, again));
  }

  lemma ReadLiteralChar(c: char, tail: string)
    requires c != '\''
    ensures ReadWord(Single, [c] + tail) == if c == '\0' then None else Prepend(Quoted(c), ReadWord(Single, tail))
  {
    assert ([c] + tail)[1..] == tail;
  }

  lemma NulFreeHead(s: string)
    requires s != []
    ensures NulFree(s) <==> s[0] != '\0' && NulFree(s[1..])
  {
    assert forall i :: 0 < i < |s| ==> s[i] == s[1..][i - 1];
  }

  lemma {:induction false} ReadInsideQuotes(s: string, rest: string)
    requires EndsWord(rest)
    ensures ReadWord(Single, ReplaceAll(s, '\'', "'\\''") + "'" + rest)
         == if NulFree(s) then Some((Literal(s), rest)) else None
    decreases |s|
  {
    var text := ReplaceAll(s, '\'', "'\\''") + "'" + rest;
    if s == [] {
      assert text == "'" + rest;
      assert text[1..] == rest;
    } else {
      var tail := ReplaceAll(s[1..], '\'', "'\\''") + "'" + rest;
      ReadInsideQuotes(s[1..], rest);
      NulFreeHead(s);
      if s[0] == '\'' {
        assert text == "'\\''" + tail;
        ReadEscapedQuote(tail);
      } else {
        assert text == [s[0]] + tail;
        ReadLiteralChar(s[0], tail);
      }
    }
  }

  lemma ReadQuoted(s: string, rest: string)
    requires EndsWord(rest)
    ensures ReadWord(Bare, Quote(s) + rest) == if NulFree(s) then Some((Literal(s), rest)) else None
  {
    var text := Quote(s) + rest;
    assert text[1..] == ReplaceAll(s, '\'', "'\\''") + "'" + rest;
    ReadInsideQuotes(s, rest);
  }

  lemma TokensOfQuoted(s: string, after: string)
    requires EndsWord(after)
    ensures Tokens(Quote(s) + after) == if NulFree(s) then PrependToken(Word(Literal(s)), Tokens(after)) else None
  {
    ReadQuoted(s, after);
    assert (Quote(s) + after)[0] == '\'';
  }

  lemma NulFreeSplit(args: seq<string>)
    requires args != []
    ensures AllNulFree(args) <==> NulFree(args[0]) && AllNulFree(args[1..])
  {
    assert forall i :: 0 < i < |args| ==> args[i] == args[1..][i - 1];
  }

  lemma TokensAfterBlank(later: string)
    ensures Tokens(" " + later) == Tokens(later)
  {
    assert (" " + later)[1..] == later;
  }

  lemma TokensOfNext(s: string, later: string)
    ensures Tokens(Quote(s) + (" " + later))
        == if NulFree(s) then PrependToken(Word(Literal(s)), Tokens(later)) else None
  {
    TokensAfterBlank(later);
    TokensOfQuoted(s, " " + later);
  }

  /** The tokens of `more` in front of those of the rest of the line. */
  function WithRest(more: seq<Token>, rest: Option<seq<Token>>): Option<seq<Token>> {
    if rest.Some? then Some(more + rest.value) else None
  }

  lemma JoinTokens(first: Token, more: seq<Token>, rest: Option<seq<Token>>)
    ensures PrependToken(first, WithRest(more, rest)) == WithRest([first] + more, rest)
  {
    if rest.Some? {
      Append3([first], more, rest.value);
    }
  }

  lemma BuildSplit(args: seq<string>, rest: string)
    requires |args| > 1
    ensures Build(args) + rest == Quote(args[0]) + (" " + (Build(args[1..]) + rest))
  {
  }

  /** A built line in front of the end or of a blank reads as its words. */
  lemma {:induction false} TokensOfBuild(args: seq<string>, rest: string)
    requires args != [] && (rest == [] || IsBlank(rest[0]))
    ensures Tokens(Build(args) + rest) == if AllNulFree(args) then WithRest(Words(args), Tokens(rest)) else None
    decreases |args|
  {
    NulFreeSplit(args);
    if |args| == 1 {
      TokensOfQuoted(args[0], rest);
      assert args[1..] == [] && Words(args) == [Word(Literal(args[0]))];
    } else {
      TokensOfBuild(args[1..], rest);
      BuildSplit(args, rest);
      TokensOfNext(args[0], Build(args[1..]) + rest);
      JoinTokens(Word(Literal(args[0])), Words(args[1..]), Tokens(rest));
    }
  }

  // ---- From words back to strings ----

  lemma {:induction false} FieldsOfLiteral(s: string, field: string, env: Env, params: seq<string>)
    ensures Fields(Literal(s), field, true, env, params) == [field + s]
    decreases |s|
  {
    if s == [] {
      assert field + s == field;
    } else {
      assert Literal(s)[1..] == Literal(s[1..]);
      FieldsOfLiteral(s[1..], field + [s[0]], env, params);
      assert field + [s[0]] + s[1..] == field + s;
    }
  }

  lemma WordOfLiteral(s: string, env: Env, params: seq<string>)
    ensures WordFields(Literal(s), env, params) == [s]
    ensures AssignmentAt(Literal(s), "") == None
  {
    if s == [] {
      assert WordFields(Literal(s), env, params) == [""];
    } else {
      assert Literal(s)[1..] == Literal(s[1..]);
      FieldsOfLiteral(s[1..], [s[0]], env, params);
      assert "" + [s[0]] == [s[0]];
      assert [s[0]] + s[1..] == s;
    }
  }

  lemma {:induction false} ArgumentsOfWords(args: seq<string>, env: Env, params: seq<string>)
    ensures Arguments(Words(args), env, params) == Some(args)
    decreases |args|
  {
    if args == [] {
    } else {
      assert Words(args)[1..] == Words(args[1..]);
      ArgumentsOfWords(args[1..], env, params);
      WordOfLiteral(args[0], env, params);
      assert [args[0]] + args[1..] == args;
    }
  }

  lemma SimpleOfWords(args: seq<string>, env: Env, params: seq<string>)
    ensures Simple(Words(args), map[], env, params) == Some(Command(map[], args))
  {
    if args != [] {
      WordOfLiteral(args[0], env, params);
    }
    ArgumentsOfWords(args, env, params);
  }

  lemma {:induction false} AndListCollects(words: seq<Token>, more: seq<Token>, current: seq<Token>, env: Env,
                                           params: seq<string>)
    requires forall i :: 0 <= i < |words| ==> words[i].Word?
    ensures AndList(words + more, current, env, params) == AndList(more, current + words, env, params)
    decreases |words|
  {
    if words == [] {
      assert words + more == more && current + words == current;
    } else {
      assert (words + more)[1..] == words[1..] + more;
      AndListCollects(words[1..], more, current + [words[0]], env, params);
      assert current + [words[0]] + words[1..] == current + words;
    }
  }

  lemma {:induction false} WordsAreWords(args: seq<string>)
    ensures forall i :: 0 <= i < |Words(args)| ==> Words(args)[i].Word?
    decreases |args|
  {
    if args == [] {
    } else {
      WordsAreWords(args[1..]);
    }
  }

  /** Whatever the environment: the shell reads the built line as the one command with exactly
      these arguments, and rejects it exactly when an argument holds a NUL. */
  lemma BuildReadsBack(args: seq<string>, env: Env, params: seq<string>)
    ensures Commands(Build(args), env, params) == if AllNulFree(args) then Some([Command(map[], args)]) else None
  {
    if args == [] {
      assert Words(args) == [];
      SimpleOfWords(args, env, params);
    } else {
      TokensOfBuild(args, "");
      assert Build(args) + "" == Build(args);
      assert Words(args) + [] == Words(args);
      WordsAreWords(args);
      AndListCollects(Words(args), [], [], env, params);
      assert [] + Words(args) == Words(args);
      SimpleOfWords(args, env, params);
    }
  }

  lemma TokensAndIf(line: string)
    ensures Tokens(" && " + line) == PrependToken(AndIf, Tokens(line))
  {
    var and := "&& " + line;
    assert (" && " + line)[1..] == and;
    assert and[2..] == " " + line;
    TokensAfterBlank(line);
    assert Tokens(and) == PrependToken(AndIf, Tokens(" " + line));
  }

  lemma TokensOfAnd(first: seq<string>, second: seq<string>)
    requires first != [] && second != []
    ensures Tokens(Build(first) + " && " + Build(second))
         == if AllNulFree(first) && AllNulFree(second) then Some(Words(first) + ([AndIf] + Words(second))) else None
  {
    var line := Build(second);
    TokensOfBuild(second, "");
    assert line + "" == line && Words(second) + [] == Words(second);
    TokensAndIf(line);
    TokensOfBuild(first, " && " + line);
    assert Build(first) + (" && " + line) == Build(first) + " && " + line;
  }

  /** Two built lines joined by an unquoted && read as exactly two AND-listed commands. */
  lemma AndReadsBack(first: seq<string>, second: seq<string>, env: Env, params: seq<string>)
    requires first != [] && second != []
    ensures Commands(Build(first) + " && " + Build(second), env, params)
         == if AllNulFree(first) && AllNulFree(second)
            then Some([Command(map[], first), Command(map[], second)]) else None
  {
    TokensOfAnd(first, second);
    WordsAreWords(first);
    WordsAreWords(second);
    var later := [AndIf] + Words(second);
    AndListCollects(Words(first), later, [], env, params);
    AndListCollects(Words(second), [], [], env, params);
    assert [] + Words(first) == Words(first) && [] + Words(second) == Words(second);
    assert Words(second) + [] == Words(second) && later[1..] == Words(second);
    SimpleOfWords(first, env, params);
    SimpleOfWords(second, env, params);
    assert AndList(Words(second), [], env, params) == Some([Command(map[], second)]);
    assert [Command(map[], first)] + [Command(map[], second)] == [Command(map[], first), Command(map[], second)];
    assert AndList(later, Words(first), env, params) == Some([Command(map[], first), Command(map[], second)]);
  }
}
