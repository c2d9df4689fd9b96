/** The part of a POSIX shell (IEEE Std 1003.1-2017, Shell Command Language) that command lines
    of this program meet: quoting, words, AND lists, parameters in double quotes. Anything
    outside this part makes the reader give up. */
module Shell {
  import opened Core

  /** A character of a word, or an expansion in double quotes. */
  datatype Piece = Plain(c: char) | Quoted(c: char) | Param(name: string) | AllParams

  datatype Token = Word(pieces: seq<Piece>) | AndIf

  datatype Mode = Bare | Single | Double

  predicate IsBlank(c: char) {
    c == ' ' || c == '\t'
  }

  /** Unquoted characters with a meaning this reader does not model, and NUL. */
  predicate IsSpecial(c: char) {
    c in {'\0', '\n', '|', ';', '<', '>', '(', ')', '$', '`', '*', '?', '[', '~', '#', '!', '{', '}'}
  }

  predicate IsNameStart(c: char) {
    'a' <= c <= 'z' || 'A' <= c <= 'Z' || c == '_'
  }

  predicate IsNameChar(c: char) {
    IsNameStart(c) || '0' <= c <= '9'
  }

  predicate IsName(s: string) {
    s != [] && IsNameStart(s[0]) && forall i :: 0 <= i < |s| ==> IsNameChar(s[i])
  }

  /** How many characters of `s` continue a name. */
  function NameRun(s: string): (n: nat)
    ensures n <= |s|
  {
    if s == [] || !IsNameChar(s[0]) then 0 else 1 + NameRun(s[1..])
  }

  predicate EndsWord(s: string) {
    s == [] || IsBlank(s[0]) || s[0] == '&'
  }

  /** The rest of the current word (sections 2.2.1 to 2.2.3) and what follows it. */
  function ReadWord(mode: Mode, s: string): (r: Option<(seq<Piece>, string)>)
    ensures r.Some? ==> |r.value.1| <= |s|
    decreases |s|
  {
    match mode
    case Bare =>
      if EndsWord(s) then Some(([], s))
      else if s[0] == '\'' then ReadWord(Single, s[1..])
      else if s[0] == '"' then ReadWord(Double, s[1..])
      else if s[0] == '\\' then
        if |s| < 2 || s[1] == '\0' then None
        else if s[1] == '\n' then ReadWord(Bare, s[2..])
        else Prepend(Quoted(s[1]), ReadWord(Bare, s[2..]))
      else if IsSpecial(s[0]) then None
      else Prepend(Plain(s[0]), ReadWord(Bare, s[1..]))
    case Single =>
      if s == [] || s[0] == '\0' then None
      else if s[0] == '\'' then ReadWord(Bare, s[1..])
      else Prepend(Quoted(s[0]), ReadWord(Single, s[1..]))
    case Double =>
      if s == [] || s[0] == '\0' || s[0] == '`' then None
      else if s[0] == '"' then ReadWord(Bare, s[1..])
      else if s[0] == '\\' then
        if |s| < 2 || s[1] == '\0' then None
        else if s[1] == '\n' then ReadWord(Double, s[2..])
        else if s[1] in {'$', '`', '"', '\\'} then Prepend(Quoted(s[1]), ReadWord(Double, s[2..]))
        else Prepend(Quoted('\\'), ReadWord(Double, s[1..]))
      else if s[0] == '$' then
        if |s| >= 2 && s[1] == '@' then Prepend(AllParams, ReadWord(Double, s[2..]))
        else if |s| >= 2 && IsNameStart(s[1]) then
          var n := NameRun(s[1..]);
          Prepend(Param(s[1..1 + n]), ReadWord(Double, s[1 + n..]))
        else None
      else Prepend(Quoted(s[0]), ReadWord(Double, s[1..]))
  }

  function Prepend(p: Piece, r: Option<(seq<Piece>, string)>): Option<(seq<Piece>, string)> {
    match r
    case None => None
    case Some((pieces, rest)) => Some(([p] + pieces, rest))
  }

  /** Splits a line into tokens (section 2.3); `&&` is the only operator known. */
  function Tokens(s: string): Option<seq<Token>>
    decreases |s|
  {
    if s == [] then Some([])
    else if IsBlank(s[0]) then Tokens(s[1..])
    else if s[0] == '&' then
      if |s| >= 2 && s[1] == '&' then PrependToken(AndIf, Tokens(s[2..])) else None
    else
      match ReadWord(Bare, s)
      case None => None
      case Some((pieces, rest)) =>
        if |rest| < |s| then PrependToken(Word(pieces), Tokens(rest)) else None
  }

  function PrependToken(t: Token, r: Option<seq<Token>>): Option<seq<Token>> {
    match r
    case None => None
    case Some(tokens) => Some([t] + tokens)
  }

  // ---- Expansion ----

  type Env = map<string, string>

  function Lookup(env: Env, name: string): string {
    if name in env then env[name] else ""
  }

  /** The fields a word expands to (section 2.6). `field` is the text so far, `open` whether
      the word has produced a field at all. "$@" makes one field per positional parameter
      (section 2.5.2). */
  function Fields(pieces: seq<Piece>, field: string, open: bool, env: Env, params: seq<string>): seq<string> {
    if pieces == [] then if open then [field] else []
    else
      match pieces[0]
      case Plain(c) => Fields(pieces[1..], field + [c], true, env, params)
      case Quoted(c) => Fields(pieces[1..], field + [c], true, env, params)
      case Param(name) => Fields(pieces[1..], field + Lookup(env, name), true, env, params)
      case AllParams =>
        if params == [] then Fields(pieces[1..], field, open, env, params)
        else if |params| == 1 then Fields(pieces[1..], field + params[0], true, env, params)
        else [field + params[0]] + params[1..|params| - 1]
             + Fields(pieces[1..], params[|params| - 1], true, env, params)
  }

  /** A word in front of the command that has the form name=value, with name and = unquoted. */
  function AssignmentAt(pieces: seq<Piece>, name: string): Option<(string, seq<Piece>)> {
    if pieces == [] || !pieces[0].Plain? then None
    else if pieces[0].c == '=' then if IsName(name) then Some((name, pieces[1..])) else None
    else AssignmentAt(pieces[1..], name + [pieces[0].c])
  }

  /** A quoted part makes an otherwise empty word a field. */
  function WordFields(pieces: seq<Piece>, env: Env, params: seq<string>): seq<string> {
    Fields(pieces, "", pieces == [], env, params)
  }

  /** One simple command (section 2.9.1): assignments, then the argv. */
  datatype Command = Command(bindings: Env, argv: seq<string>)

  function Arguments(tokens: seq<Token>, env: Env, params: seq<string>): Option<seq<string>> {
    if tokens == [] then Some([])
    else if tokens[0].AndIf? then None
    else
      match Arguments(tokens[1..], env, params)
      case None => None
      case Some(rest) => Some(WordFields(tokens[0].pieces, env, params) + rest)
  }

  function Joined(fields: seq<string>): string {
    if |fields| == 1 then fields[0] else ""
  }

  function Simple(tokens: seq<Token>, bindings: Env, env: Env, params: seq<string>): Option<Command> {
    if tokens != [] && tokens[0].Word? && AssignmentAt(tokens[0].pieces, "").Some? then
      var (name, value) := AssignmentAt(tokens[0].pieces, "").value;
      Simple(tokens[1..], bindings[name := Joined(Fields(value, "", true, env, params))], env, params)
    else
      match Arguments(tokens, env, params)
      case None => None
      case Some(argv) => Some(Command(bindings, argv))
  }

  /** An AND list (section 2.9.3) as its simple commands. */
  function AndList(tokens: seq<Token>, current: seq<Token>, env: Env, params: seq<string>): Option<seq<Command>> {
    if tokens == [] then
      match Simple(current, map[], env, params)
      case None => None
      case Some(c) => Some([c])
    else if tokens[0].AndIf? then
      match (Simple(current, map[], env, params), AndList(tokens[1..], [], env, params))
      case (Some(c), Some(rest)) => if c.argv != [] then Some([c] + rest) else None
      case _ => None
    else AndList(tokens[1..], current + [tokens[0]], env, params)
  }

  /** What the shell runs when it is given this line. */
  function Commands(line: string, env: Env, params: seq<string>): Option<seq<Command>> {
    match Tokens(line)
    case None => None
    case Some(tokens) => AndList(tokens, [], env, params)
  }
}
