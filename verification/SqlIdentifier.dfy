/** Quoted SQL identifiers: a name between quote characters, embedded ones doubled. */
module SqlIdentifier {
  import opened Core
  import opened ShellCmd

  /** What the database's lexer reads after the opening quote: the name and the rest. */
  function LexInside(q: char, s: string): Option<(string, string)> {
    if s == [] then None
    else if s[0] != q then LexPrepend(s[0], LexInside(q, s[1..]))
    else if |s| >= 2 && s[1] == q then LexPrepend(q, LexInside(q, s[2..]))
    else Some(("", s[1..]))
  }

  function LexPrepend(c: char, r: Option<(string, string)>): Option<(string, string)> {
    match r
    case None => None
    case Some((name, rest)) => Some(([c] + name, rest))
  }

  datatype Statement = CreateDatabase(name: string) | DropDatabase(name: string)

  /** The database's reading of a whole statement: the two words, a blank, and a quoted name to the end. */
  function ParseStatement(q: char, sql: string): Option<Statement> {
    var create, drop := "CREATE DATABASE ", "DROP DATABASE ";
    if create + [q] <= sql then
      match LexInside(q, sql[|create| + 1..])
      case Some((name, rest)) => if rest == "" then Some(CreateDatabase(name)) else None
      case None => None
    else if drop + [q] <= sql then
      match LexInside(q, sql[|drop| + 1..])
      case Some((name, rest)) => if rest == "" then Some(DropDatabase(name)) else None
      case None => None
    else None
  }

  // ---- What the plugins write ----

  const CREATE_PREFIX := "CREATE DATABASE "
  const DROP_PREFIX := "DROP DATABASE "

  /** escapeIdentifier and quoteIdentifier double every quote character. */
  function QuotedIdentifier(q: char, name: string): string {
    [q] + ReplaceAll(name, q, [q, q]) + [q]
  }

  lemma {:induction false} LexReadsBack(q: char, name: string, rest: string)
    requires rest == [] || rest[0] != q
    ensures LexInside(q, ReplaceAll(name, q, [q, q]) + [q] + rest) == Some((name, rest))
    decreases |name|
  {
    var s := ReplaceAll(name, q, [q, q]) + [q] + rest;
    if name == [] {
      assert s == [q] + rest && s[1..] == rest;
    } else {
      var tail := ReplaceAll(name[1..], q, [q, q]) + [q] + rest;
      LexReadsBack(q, name[1..], rest);
      assert [name[0]] + name[1..] == name;
      if name[0] == q {
        assert s == [q, q] + tail && s[2..] == tail;
      } else {
        assert s == [name[0]] + tail && s[1..] == tail;
      }
    }
  }

  /** Both statements name exactly the database they were built for. */
  lemma StatementsReadBack(q: char, name: string)
    ensures ParseStatement(q, CREATE_PREFIX + QuotedIdentifier(q, name)) == Some(CreateDatabase(name))
    ensures ParseStatement(q, DROP_PREFIX + QuotedIdentifier(q, name)) == Some(DropDatabase(name))
  {
    var body := ReplaceAll(name, q, [q, q]) + [q] + [];
    LexReadsBack(q, name, []);
    var create, drop := CREATE_PREFIX + QuotedIdentifier(q, name), DROP_PREFIX + QuotedIdentifier(q, name);
    assert create == (CREATE_PREFIX + [q]) + body && create[|CREATE_PREFIX| + 1..] == body;
    assert drop == (DROP_PREFIX + [q]) + body && drop[|DROP_PREFIX| + 1..] == body;
    assert drop[0] == 'D' && (CREATE_PREFIX + [q])[0] == 'C';
  }
}
