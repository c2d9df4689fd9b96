/** The insert statement of an Informix restore and how the server reads it. */
module Insert {
  import opened Core
  import opened Decimal

  predicate IsLetter(c: char) {
    'A' <= c <= 'Z' || 'a' <= c <= 'z' || c == '_'
  }

  predicate IsWord(s: string) {
    s != "" && IsLetter(s[0]) && forall i :: 0 <= i < |s| ==> IsLetter(s[i]) || IsDigit(s[i])
  }

  /** How far the first `c` is, or the length. */
  function Find(s: string, c: char): (n: nat)
    ensures n <= |s| && c !in s[..n] && (n < |s| ==> s[n] == c)
  {
    if s == "" || s[0] == c then 0
    else
      var n := 1 + Find(s[1..], c);
      assert s[..n] == [s[0]] + s[1..][..n - 1];
      n
  }

  /** A word, or an owner's word and a word with a dot between them. */
  predicate ValidTableName(s: string) {
    var dot := Find(s, '.');
    IsWord(s[..dot]) && (dot < |s| ==> IsWord(s[dot + 1..]))
  }

  lemma {:induction false} FindFirst(a: string, c: char, b: string)
    requires c !in a
    ensures Find(a + [c] + b, c) == |a|
  {
    var s := a + [c] + b;
    if a == "" {
      assert s[0] == c;
    } else {
      assert s[1..] == a[1..] + [c] + b && s[0] == a[0];
      FindFirst(a[1..], c, b);
    }
  }

  /** Exactly the words and the pairs of words with a dot between them are accepted as table names. */
  lemma ValidTableNameIff(s: string)
    ensures ValidTableName(s)
       <==> IsWord(s) || exists owner: string, name: string :: s == owner + "." + name && IsWord(owner) && IsWord(name)
  {
    var dot := Find(s, '.');
    if dot == |s| {
      assert s[..dot] == s;
    } else {
      assert s == s[..dot] + "." + s[dot + 1..];
    }
    if IsWord(s) {
      assert dot < |s| ==> s[dot] == '.' && !IsLetter('.') && !IsDigit('.');
    }
    forall owner: string, name: string | s == owner + "." + name && IsWord(owner) && IsWord(name)
      ensures ValidTableName(s)
    {
      assert '.' !in owner;
      FindFirst(owner, '.', name);
      assert s[..|owner|] == owner && s[|owner| + 1..] == name;
    }
  }

  function Repeat(s: string, n: nat): string {
    if n == 0 then "" else s + Repeat(s, n - 1)
  }

  function TrimSuffix(s: string, suffix: string): string {
    if |suffix| <= |s| && s[|s| - |suffix|..] == suffix then s[..|s| - |suffix|] else s
  }

  const INSERT_INTO := "insert into "
  const VALUES := " values ("

  function InsertSql(table: string, columns: nat): string {
    INSERT_INTO + table + VALUES + TrimSuffix(Repeat("?,", columns), ",") + ")"
  }

  // ---- The server's reading ----

  /** Placeholders with commas between them up to a closing parenthesis at the very end. */
  function ReadMarks(s: string): Option<nat> {
    if |s| < 2 || s[0] != '?' then None
    else if s[1..] == ")" then Some(1)
    else if s[1] != ',' || ReadMarks(s[2..]).None? then None
    else Some(1 + ReadMarks(s[2..]).value)
  }

  /** The table and the number of values of an insert statement. */
  function ReadInsert(sql: string): Option<(string, nat)> {
    var insert, values := "insert into ", " values (";
    if !(insert <= sql) then None
    else
      var rest := sql[|insert|..];
      var n := Find(rest, ' ');
      if !(values <= rest[n..]) || ReadMarks(rest[n + |values|..]).None? then None
      else Some((rest[..n], ReadMarks(rest[n + |values|..]).value))
  }

  lemma ValidNameHasNo(s: string, c: char)
    requires ValidTableName(s) && !IsLetter(c) && !IsDigit(c) && c != '.'
    ensures c !in s
  {
    var dot := Find(s, '.');
    forall i | 0 <= i < |s|
      ensures s[i] != c
    {
      if i < dot {
        assert s[i] == s[..dot][i];
      } else if i > dot {
        assert s[i] == s[dot + 1..][i - dot - 1];
      }
    }
  }

  lemma {:induction false} FindAfter(s: string, c: char, rest: string)
    requires c !in s && rest != "" && rest[0] == c
    ensures Find(s + rest, c) == |s|
  {
    if s == "" {
      assert s + rest == rest;
    } else {
      assert (s + rest)[1..] == s[1..] + rest;
      FindAfter(s[1..], c, rest);
    }
  }

  /** n placeholders with n - 1 commas between them. */
  function Marks(n: nat): string
    requires n > 0
  {
    if n == 1 then "?" else "?," + Marks(n - 1)
  }

  lemma {:induction false} RepeatTrimmed(n: nat)
    requires n > 0
    ensures Repeat("?,", n) == Marks(n) + ","
  {
    if n == 1 {
      assert Repeat("?,", 1) == "?," + Repeat("?,", 0);
    } else {
      RepeatTrimmed(n - 1);
    }
  }

  lemma {:induction false} ReadBackMarks(n: nat)
    requires n > 0
    ensures ReadMarks(Marks(n) + ")") == Some(n)
  {
    var s := Marks(n) + ")";
    if n == 1 {
      assert s[1..] == ")";
    } else {
      assert s[2..] == Marks(n - 1) + ")";
      ReadBackMarks(n - 1);
    }
  }

  lemma ReadParts(table: string, marks: string)
    requires ' ' !in table
    ensures
      ReadInsert(INSERT_INTO + (table + (VALUES + marks)))
      == if ReadMarks(marks).Some? then Some((table, ReadMarks(marks).value)) else None
  {
    var rest := table + (VALUES + marks);
    var sql := INSERT_INTO + rest;
    assert INSERT_INTO <= sql && sql[|INSERT_INTO|..] == rest;
    FindAfter(table, ' ', VALUES + marks);
    assert rest[..|table|] == table && rest[|table|..] == VALUES + marks;
    assert rest[|table| + |VALUES|..] == marks;
  }

  /** For every valid table name the statement inserts into that table, one value a column. */
  lemma ReadBackInsert(table: string, columns: nat)
    requires ValidTableName(table) && columns > 0
    ensures ReadInsert(InsertSql(table, columns)) == Some((table, columns))
  {
    RepeatTrimmed(columns);
    var repeated := Repeat("?,", columns);
    assert repeated[|repeated| - 1..] == ",";
    assert TrimSuffix(repeated, ",") == Marks(columns);
    Regroup(INSERT_INTO, table, VALUES, Marks(columns), ")");
    ValidNameHasNo(table, ' ');
    ReadBackMarks(columns);
    ReadParts(table, Marks(columns) + ")");
  }
}
