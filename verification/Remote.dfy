/** Where a command line ends up: the host's shell, `env` or `docker exec`, and inside the
    container possibly a second shell that runs `exec "$@"`. */
module Remote {
  import opened Core
  import opened Shell
  import opened ShellCmd

  /** The client process: the container it runs in, whether stdin is attached, its environment and argv. */
  datatype Delivery = Delivery(container: Option<string>, stdin: bool, env: Env, argv: seq<string>)

  predicate HasEq(s: string) {
    '=' in s
  }

  /** NAME=VALUE at its first '='. */
  function SplitEq(s: string): (string, string)
    requires HasEq(s)
  {
    if s[0] == '=' then ("", s[1..])
    else
      var (name, value) := SplitEq(s[1..]);
      ([s[0]] + name, value)
  }

  /** The env utility: leading operands with '=' are assignments. */
  function RunEnv(argv: seq<string>, env: Env): Delivery {
    if argv != [] && HasEq(argv[0]) then
      var (name, value) := SplitEq(argv[0]);
      RunEnv(argv[1..], env[name := value])
    else Delivery(None, true, env, argv)
  }

  /** docker exec: the options used here, then the container, then the command. */
  function RunDocker(argv: seq<string>, stdin: bool, env: Env): Option<Delivery> {
    if argv == [] then None
    else if argv[0] == "-i" then RunDocker(argv[1..], true, env)
    else if argv[0] == "-e" then
      if |argv| >= 2 && HasEq(argv[1]) then
        var (name, value) := SplitEq(argv[1]);
        RunDocker(argv[2..], stdin, env[name := value])
      else None
    else if "-" <= argv[0] then None
    else Some(Delivery(Some(argv[0]), stdin, env, argv[1..]))
  }

  /** A `sh -c script name args...` that ends in exec hands over to the exec'd program, with the
      assignments in front of exec in its environment. */
  function Inside(d: Delivery): Option<Delivery> {
    if |d.argv| >= 4 && d.argv[0] == "sh" && d.argv[1] == "-c" then
      match Commands(d.argv[2], d.env, d.argv[4..])
      case Some(cs) =>
        if |cs| == 1 && cs[0].argv != [] && cs[0].argv[0] == "exec"
        then Some(d.(env := d.env + cs[0].bindings, argv := cs[0].argv[1..])) else None
      case None => None
    else Some(d)
  }

  /** What the host makes of one argv. */
  function RunArgv(argv: seq<string>, hostEnv: Env, containerEnv: Env): Option<Delivery> {
    if argv == [] then None
    else if argv[0] == "env" then Some(RunEnv(argv[1..], hostEnv))
    else if ["docker", "exec"] <= argv then
      match RunDocker(argv[2..], false, containerEnv)
      case Some(d) => Inside(d)
      case None => None
    else Some(Delivery(None, true, hostEnv, argv))
  }

  /** What the SSH server's shell makes of the line. */
  function RemoteRun(line: string, hostEnv: Env, containerEnv: Env): Option<Delivery> {
    match Commands(line, hostEnv, [])
    case Some(cs) => if |cs| == 1 then RunArgv(cs[0].argv, hostEnv, containerEnv) else None
    case None => None
  }

  /** A built line runs its argv, unless a NUL makes it unreadable. */
  lemma BuiltLineRuns(argv: seq<string>, hostEnv: Env, containerEnv: Env)
    ensures RemoteRun(Build(argv), hostEnv, containerEnv)
         == if AllNulFree(argv) then RunArgv(argv, hostEnv, containerEnv) else None
  {
    BuildReadsBack(argv, hostEnv, []);
  }

  lemma {:induction false} SplitAssignment(name: string, value: string)
    requires !HasEq(name)
    ensures HasEq(name + "=" + value) && SplitEq(name + "=" + value) == (name, value)
    decreases |name|
  {
    var s := name + "=" + value;
    assert s[|name|] == '=';
    if name == [] {
      assert s[1..] == value;
    } else {
      assert s[1..] == name[1..] + "=" + value;
      SplitAssignment(name[1..], value);
      assert [name[0]] + name[1..] == name && s[0] == name[0];
    }
  }

  /** `env NAME=VALUE client...` gives the client exactly its argv and the variable. */
  lemma EnvDelivers(name: string, value: string, client: seq<string>, hostEnv: Env)
    requires !HasEq(name) && client != [] && !HasEq(client[0])
    ensures RunEnv([name + "=" + value] + client, hostEnv) == Delivery(None, true, hostEnv[name := value], client)
  {
    SplitAssignment(name, value);
    assert ([name + "=" + value] + client)[1..] == client;
  }

  lemma {:induction false} NoContainerWithDash(argv: seq<string>, stdin: bool, env: Env)
    ensures RunDocker(argv, stdin, env).Some? ==>
      RunDocker(argv, stdin, env).value.container.Some? && !("-" <= RunDocker(argv, stdin, env).value.container.value)
    decreases |argv|
  {
    if argv == [] {
    } else {
      if argv[0] == "-i" {
        NoContainerWithDash(argv[1..], true, env);
      } else if argv[0] == "-e" && |argv| >= 2 && HasEq(argv[1]) {
        var (name, value) := SplitEq(argv[1]);
        NoContainerWithDash(argv[2..], stdin, env[name := value]);
      }
    }
  }

  /** The container operand is taken as such exactly when it does not look like an option. */
  lemma DockerTakesContainer(container: string, client: seq<string>, stdin: bool, env: Env)
    ensures
      var r := RunDocker([container] + client, stdin, env);
      if "-" <= container then r.None? || r.value.container != Some(container)
      else r == Some(Delivery(Some(container), stdin, env, client))
  {
    NoContainerWithDash([container] + client, stdin, env);
    assert ([container] + client)[1..] == client;
  }

  lemma DockerInteractive(rest: seq<string>, interactive: bool, env: Env)
    ensures RunDocker((if interactive then ["-i"] else []) + rest, false, env) == RunDocker(rest, interactive, env)
  {
    assert (["-i"] + rest)[1..] == rest && [] + rest == rest;
  }

  lemma DockerAssigns(name: string, value: string, rest: seq<string>, stdin: bool, env: Env)
    requires !HasEq(name)
    ensures RunDocker(["-e", name + "=" + value] + rest, stdin, env) == RunDocker(rest, stdin, env[name := value])
  {
    SplitAssignment(name, value);
    assert (["-e", name + "=" + value] + rest)[2..] == rest;
  }

  // ---- The script NAME="$VAR" exec "$@" ----

  predicate IsPlain(c: char) {
    !IsBlank(c) && c != '&' && c != '\'' && c != '"' && c != '\\' && !IsSpecial(c)
  }

  function Plains(s: string): (pieces: seq<Piece>)
    ensures |pieces| == |s|
    ensures forall i :: 0 <= i < |s| ==> pieces[i] == Plain(s[i])
  {
    if s == [] then [] else [Plain(s[0])] + Plains(s[1..])
  }

  /** The pieces of plain text in front of a word's. */
  function WithPlains(s: string, word: Option<(seq<Piece>, string)>): Option<(seq<Piece>, string)> {
    if word.None? then None else Some((Plains(s) + word.value.0, word.value.1))
  }

  lemma WithPlainsHead(s: string, word: Option<(seq<Piece>, string)>)
    requires s != []
    ensures Prepend(Plain(s[0]), WithPlains(s[1..], word)) == WithPlains(s, word)
  {
    if word.Some? {
      Append3([Plain(s[0])], Plains(s[1..]), word.value.0);
    }
  }

  lemma {:induction false} ReadPlains(s: string, rest: string)
    requires forall i :: 0 <= i < |s| ==> IsPlain(s[i])
    ensures ReadWord(Bare, s + rest) == WithPlains(s, ReadWord(Bare, rest))
    decreases |s|
  {
    if s == [] {
      assert s + rest == rest;
      assert forall word: seq<Piece> :: Plains(s) + word == word;
    } else {
      assert (s + rest)[1..] == s[1..] + rest;
      ReadPlains(s[1..], rest);
      WithPlainsHead(s, ReadWord(Bare, rest));
    }
  }

  lemma {:induction false} NameRunOf(name: string, rest: string)
    requires forall i :: 0 <= i < |name| ==> IsNameChar(name[i])
    requires rest == [] || !IsNameChar(rest[0])
    ensures NameRun(name + rest) == |name|
    decreases |name|
  {
    if name == [] {
      assert name + rest == rest;
    } else {
      assert (name + rest)[1..] == name[1..] + rest;
      NameRunOf(name[1..], rest);
    }
  }

  /** "$VAR" at the end of a word. */
  lemma ReadParam(variable: string, rest: string)
    requires IsName(variable) && EndsWord(rest)
    ensures ReadWord(Bare, "\"$" + variable + "\"" + rest) == Some(([Param(variable)], rest))
  {
    var s := "\"$" + variable + "\"" + rest;
    var closing := "\"" + rest;
    assert s[1..] == "$" + variable + closing;
    assert s[1..][1..] == variable + closing;
    NameRunOf(variable, closing);
    assert s[1..][1 + |variable|..] == closing && s[1..][1..1 + |variable|] == variable;
    assert closing[1..] == rest;
    assert ReadWord(Double, closing) == Some(([], rest));
    assert ReadWord(Double, s[1..]) == Prepend(Param(variable), Some(([], rest)));
    assert [Param(variable)] + [] == [Param(variable)];
  }

  lemma {:induction false} AssignmentOfPlains(name: string, before: string, value: seq<Piece>)
    requires !HasEq(name) && IsName(before + name)
    ensures AssignmentAt(Plains(name) + ([Plain('=')] + value), before) == Some((before + name, value))
    decreases |name|
  {
    var pieces := Plains(name) + ([Plain('=')] + value);
    if name == [] {
      assert pieces == [Plain('=')] + value && pieces[1..] == value && before + name == before;
    } else {
      assert pieces[1..] == Plains(name[1..]) + ([Plain('=')] + value);
      assert before + [name[0]] + name[1..] == before + name;
      AssignmentOfPlains(name[1..], before + [name[0]], value);
    }
  }

  lemma FieldsOfAllParams(env: Env, params: seq<string>)
    ensures WordFields([AllParams], env, params) == params
  {
    assert [AllParams][1..] == [];
    assert Fields([AllParams], "", false, env, params) == WordFields([AllParams], env, params);
    if |params| >= 2 {
      assert "" + params[0] == params[0];
      assert [params[0]] + params[1..|params| - 1] + [params[|params| - 1]] == params;
    } else if |params| == 1 {
      assert "" + params[0] == params[0];
    }
  }

  lemma {:induction false} NoAssignment(text: string, before: string)
    requires !HasEq(text)
    ensures AssignmentAt(Plains(text), before) == None
    decreases |text|
  {
    if text == [] {
    } else {
      assert Plains(text)[1..] == Plains(text[1..]);
      NoAssignment(text[1..], before + [text[0]]);
    }
  }

  lemma {:induction false} FieldsOfPlains(s: string, field: string, env: Env, params: seq<string>)
    ensures Fields(Plains(s), field, true, env, params) == [field + s]
    decreases |s|
  {
    if s == [] {
      assert field + s == field;
    } else {
      assert Plains(s)[1..] == Plains(s[1..]);
      FieldsOfPlains(s[1..], field + [s[0]], env, params);
      assert field + [s[0]] + s[1..] == field + s;
    }
  }

  lemma WordOfPlains(s: string, env: Env, params: seq<string>)
    requires s != []
    ensures WordFields(Plains(s), env, params) == [s]
  {
    assert Plains(s)[1..] == Plains(s[1..]);
    FieldsOfPlains(s[1..], [s[0]], env, params);
    assert "" + [s[0]] == [s[0]] && [s[0]] + s[1..] == s;
  }

  function Script(name: string, variable: string): string {
    name + "=\"$" + variable + "\" exec \"$@\""
  }

  lemma TokensOfAllParams()
    ensures Tokens("\"$@\"") == Some([Word([AllParams])])
  {
    var word := "\"$@\"";
    assert word[1..] == "$@\"" && "$@\""[2..] == "\"" && "\""[1..] == "";
    assert ReadWord(Double, "\"") == Some(([], ""));
    assert [AllParams] + [] == [AllParams];
    assert ReadWord(Double, "$@\"") == Some(([AllParams], ""));
    assert ReadWord(Bare, word) == Some(([AllParams], ""));
    assert [Word([AllParams])] + [] == [Word([AllParams])];
  }

  lemma TokensOfExec()
    ensures Tokens("exec \"$@\"") == Some([Word(Plains("exec")), Word([AllParams])])
  {
    var after := " \"$@\"";
    TokensOfAllParams();
    ReadPlains("exec", after);
    assert "exec \"$@\"" == "exec" + after && after[1..] == "\"$@\"";
    assert Tokens(after) == Tokens("\"$@\"");
    assert Plains("exec") + [] == Plains("exec");
    assert [Word(Plains("exec"))] + [Word([AllParams])] == [Word(Plains("exec")), Word([AllParams])];
  }

  lemma PlainsAppend(a: string, b: string)
    ensures Plains(a + b) == Plains(a) + Plains(b)
  {
  }

  lemma ReadAssignment(name: string, variable: string, after: string)
    requires IsName(name) && IsName(variable) && EndsWord(after)
    ensures ReadWord(Bare, (name + "=") + ("\"$" + variable + "\"" + after))
         == Some((Plains(name) + ([Plain('=')] + [Param(variable)]), after))
  {
    ReadParam(variable, after);
    NameIsPlain(name);
    ReadPlains(name + "=", "\"$" + variable + "\"" + after);
    PlainsAppend(name, "=");
    assert Plains("=") == [Plain('=')];
    Append3(Plains(name), [Plain('=')], [Param(variable)]);
  }

  lemma NameIsPlain(name: string)
    requires IsName(name)
    ensures forall i :: 0 <= i < |name + "="| ==> IsPlain((name + "=")[i])
  {
  }

  lemma TokensOfScript(name: string, variable: string)
    requires IsName(name) && IsName(variable)
    ensures Tokens(Script(name, variable))
         == Some([Word(Plains(name) + ([Plain('=')] + [Param(variable)])), Word(Plains("exec")), Word([AllParams])])
  {
    var after := " exec \"$@\"";
    var script := (name + "=") + ("\"$" + variable + "\"" + after);
    var first := Plains(name) + ([Plain('=')] + [Param(variable)]);
    assert Script(name, variable) == script;
    ReadAssignment(name, variable, after);
    TokensOfExec();
    assert Tokens(after) == Some([Word(Plains("exec")), Word([AllParams])]) by {
      assert after[1..] == "exec \"$@\"";
    }
    assert script[0] == name[0] && !IsBlank(script[0]) && script[0] != '&';
    assert Tokens(script) == PrependToken(Word(first), Tokens(after));
    assert [Word(first)] + [Word(Plains("exec")), Word([AllParams])]
        == [Word(first), Word(Plains("exec")), Word([AllParams])];
  }

  lemma ScriptArguments(bindings: Env, env: Env, params: seq<string>)
    ensures Simple([Word(Plains("exec")), Word([AllParams])], bindings, env, params)
         == Some(Command(bindings, ["exec"] + params))
  {
    var w2, w3 := Word(Plains("exec")), Word([AllParams]);
    assert [w2, w3][1..] == [w3] && [w3][1..] == [];
    NoAssignment("exec", "");
    WordOfPlains("exec", env, params);
    FieldsOfAllParams(env, params);
    assert params + [] == params;
    assert Arguments([w3], env, params) == Some(params);
    assert Arguments([w2, w3], env, params) == Some(["exec"] + params);
  }

  /** The script sets NAME from the container's own variable and hands "$@" over untouched,
      empty strings included. */
  lemma ScriptHandsOver(name: string, variable: string, env: Env, params: seq<string>)
    requires IsName(name) && IsName(variable) && !HasEq(name)
    ensures Commands(Script(name, variable), env, params)
         == Some([Command(map[name := Lookup(env, variable)], ["exec"] + params)])
  {
    TokensOfScript(name, variable);
    var w1 := Word(Plains(name) + ([Plain('=')] + [Param(variable)]));
    var w2, w3 := Word(Plains("exec")), Word([AllParams]);
    AndListCollects([w1, w2, w3], [], [], env, params);
    assert [w1, w2, w3] + [] == [w1, w2, w3] && [] + [w1, w2, w3] == [w1, w2, w3];
    assert [w1, w2, w3][1..] == [w2, w3];
    assert "" + name == name;
    AssignmentOfPlains(name, "", [Param(variable)]);
    assert [Param(variable)][1..] == [];
    assert "" + Lookup(env, variable) == Lookup(env, variable);
    assert Fields([Param(variable)], "", true, env, params) == [Lookup(env, variable)];
    ScriptArguments(map[name := Lookup(env, variable)], env, params);
  }
}
