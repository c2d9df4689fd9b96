/** How the database clients read their arguments: options, the operand that names the database, and
    whether a failing statement stops them. */
module Clients {
  import opened Core

  datatype Product = Postgres | MariaDb

  /** What a client is asked to do: the program, its user, database and statement, the dump flags it was
      given, and whether a failing statement stops it. */
  datatype Call = Call(
    program: string, user: Option<string>, database: Option<string>, sql: Option<string>, flags: set<string>,
    stops: bool)

  /** An argument that getopt takes for an option; a dash alone is an operand. */
  predicate IsOption(arg: string) {
    |arg| >= 2 && arg[0] == '-'
  }

  /** psql and pg_dump. Without ON_ERROR_STOP psql goes on after a failing statement and exits with 0. */
  function ReadPg(args: seq<string>, call: Call): Option<Call>
    decreases |args|
  {
    if args == [] then Some(call)
    else if args[0] in {"-U", "-d", "-v", "-c"} then
      if |args| < 2 then None
      else ReadPg(args[2..], SetPg(call, args[0], args[1]))
    else if IsOption(args[0]) || call.database.Some? then None
    else ReadPg(args[1..], call.(database := Some(args[0])))
  }

  function SetPg(call: Call, option: string, value: string): Call {
    if option == "-U" then call.(user := Some(value))
    else if option == "-d" then call.(database := Some(value))
    else if option == "-c" then call.(sql := Some(value))
    else call.(stops := call.stops || value == "ON_ERROR_STOP=1")
  }

  const DUMP_FLAGS := {"--single-transaction", "--routines", "--triggers", "--events", "--hex-blob"}

  /** mariadb and mariadb-dump. Both stop at the first error. */
  function ReadMaria(args: seq<string>, call: Call): Option<Call>
    decreases |args|
  {
    if args == [] then Some(call)
    else if args[0] in {"-u", "-e"} then
      if |args| < 2 then None
      else ReadMaria(args[2..], if args[0] == "-u" then call.(user := Some(args[1])) else call.(sql := Some(args[1])))
    else if args[0] in DUMP_FLAGS then ReadMaria(args[1..], call.(flags := call.flags + {args[0]}))
    else if IsOption(args[0]) || call.database.Some? then None
    else ReadMaria(args[1..], call.(database := Some(args[0])))
  }

  function ReadClient(product: Product, argv: seq<string>): Option<Call> {
    if argv == [] then None
    else if product.Postgres? then ReadPg(argv[1..], Call(argv[0], None, None, None, {}, false))
    else ReadMaria(argv[1..], Call(argv[0], None, None, None, {}, true))
  }

  // ---- The database operand ----

  /** libpq takes such an operand for a connection string. */
  predicate IsConnectionString(s: string) {
    '=' in s || "postgresql://" <= s || "postgres://" <= s
  }

  const DBNAME := "dbname="

  /** The database a connection string of this one setting names; of others nothing is known here. */
  function ConnectionDatabase(s: string): Option<string> {
    if DBNAME < s && (forall i :: |DBNAME| <= i < |s| ==> s[i] !in {' ', '\t', '\n', '\r', '\'', '\\'})
    then Some(s[|DBNAME|..]) else None
  }

  /** The database an operand names; None when that is decided elsewhere. */
  function NamedBy(product: Product, operand: string): Option<string> {
    if operand == "" then None
    else if product.Postgres? && IsConnectionString(operand) then ConnectionDatabase(operand)
    else Some(operand)
  }

  /** The database a client command connects to, as far as its arguments tell. */
  function Connects(product: Product, argv: seq<string>): Option<string> {
    match ReadClient(product, argv)
    case Some(call) => if call.database.Some? then NamedBy(product, call.database.value) else None
    case None => None
  }

  function StopsAtErrors(product: Product, argv: seq<string>): bool {
    match ReadClient(product, argv)
    case Some(call) => call.stops
    case None => false
  }

  /** A name that the client takes as the name it is. */
  predicate IsDatabaseName(product: Product, name: string) {
    name != "" && !IsOption(name) && (product.Postgres? ==> !IsConnectionString(name))
  }

  // ---- The commands of the plugins ----

  /** What the plugin quotes identifiers with. */
  function QuoteOf(product: Product): char {
    if product.Postgres? then '"' else '`'
  }

  function RestoreClient(product: Product, user: string, database: string): seq<string> {
    if product.Postgres? then ["psql", "-U", user, database] else ["mariadb", "-u", user, database]
  }

  function DumpClient(product: Product, user: string, database: string): seq<string> {
    if product.Postgres? then ["pg_dump", "-U", user, database]
    else
      ["mariadb-dump", "-u", user, "--single-transaction", "--routines", "--triggers", "--events", "--hex-blob",
       database]
  }

  function SqlClient(product: Product, user: string, sql: string): seq<string> {
    if product.Postgres? then ["psql", "-U", user, "-d", "postgres", "-v", "ON_ERROR_STOP=1", "-c", sql]
    else ["mariadb", "-u", user, "-e", sql]
  }

  /** The SQL is read as such whatever it and the user's name are, and an error is noticed. */
  lemma SqlIsRead(product: Product, user: string, sql: string)
    ensures
      ReadClient(product, SqlClient(product, user, sql))
      == Some(if product.Postgres? then Call("psql", Some(user), Some("postgres"), Some(sql), {}, true)
              else Call("mariadb", Some(user), None, Some(sql), {}, true))
  {
    var argv := SqlClient(product, user, sql);
    if product.Postgres? {
      var a := ["-d", "postgres", "-v", "ON_ERROR_STOP=1", "-c", sql];
      var b := ["-v", "ON_ERROR_STOP=1", "-c", sql];
      var known := Call("psql", Some(user), None, None, {}, false);
      var connected := known.(database := Some("postgres"));
      assert "-U"[1] == 'U' && "-d"[1] == 'd' && "-v"[1] == 'v' && "-c"[1] == 'c';
      assert argv[1..][2..] == a && a[2..] == b && b[2..] == ["-c", sql] && ["-c", sql][2..] == [];
      assert ReadPg(argv[1..], known.(user := None)) == ReadPg(a, known);
      assert ReadPg(a, known) == ReadPg(b, connected);
      assert ReadPg(b, connected) == ReadPg(["-c", sql], connected.(stops := true));
      assert ReadPg(["-c", sql], connected.(stops := true)) == ReadPg([], connected.(stops := true, sql := Some(sql)));
    } else {
      var known := Call("mariadb", Some(user), None, None, {}, true);
      assert argv[1..][0] == "-u" && argv[1..][2..] == ["-e", sql];
      assert ReadMaria(argv[1..], known.(user := None)) == ReadMaria(["-e", sql], known);
      assert ["-e", sql][2..] == [] && "-e"[1] != "-u"[1];
      assert ReadMaria(["-e", sql], known) == ReadMaria([], known.(sql := Some(sql)));
    }
  }

  lemma ReadOperand(product: Product, call: Call, database: string)
    requires call.database == None
    ensures
      var read := if product.Postgres? then ReadPg([database], call) else ReadMaria([database], call);
      IsOption(database) ==> read.None? || read.value.database.None?
    ensures
      var read := if product.Postgres? then ReadPg([database], call) else ReadMaria([database], call);
      !IsOption(database) ==> read == Some(call.(database := Some(database)))
  {
    assert [database][1..] == [];
  }

  lemma ReadAfterUser(product: Product, user: string, database: string)
    ensures
      ReadClient(product, RestoreClient(product, user, database))
      == if product.Postgres? then ReadPg([database], Call("psql", Some(user), None, None, {}, false))
         else ReadMaria([database], Call("mariadb", Some(user), None, None, {}, true))
  {
    var argv := RestoreClient(product, user, database);
    assert argv[1..][2..] == [database];
  }

  /** The restore's client is psql or mariadb and connects to the named database, exactly when the name is
      neither empty nor an option nor, for Postgres, a connection string; mariadb stops at errors, psql as
      called does not. */
  lemma RestoreConnectsIff(product: Product, user: string, database: string)
    ensures
      var argv := RestoreClient(product, user, database);
      && (Connects(product, argv) == Some(database) <==> IsDatabaseName(product, database))
      && (IsDatabaseName(product, database) ==>
          ReadClient(product, argv)
          == Some(if product.Postgres? then Call("psql", Some(user), Some(database), None, {}, false)
                  else Call("mariadb", Some(user), Some(database), None, {}, true)))
      && (product.Postgres? ==> !StopsAtErrors(product, argv))
  {
    ReadAfterUser(product, user, database);
    ReadOperand(product, Call(if product.Postgres? then "psql" else "mariadb", Some(user), None, None, {},
                              product.MariaDb?), database);
    ShorterDatabase(database);
  }

  lemma ShorterDatabase(s: string)
    ensures ConnectionDatabase(s) != Some(s)
  {
    if ConnectionDatabase(s).Some? {
      assert |s[|DBNAME|..]| == |s| - |DBNAME|;
    }
  }

  lemma ReadFlag(flag: string, rest: seq<string>, call: Call)
    requires flag in DUMP_FLAGS
    ensures ReadMaria([flag] + rest, call) == ReadMaria(rest, call.(flags := call.flags + {flag}))
  {
    assert |flag| > 2;
    assert ([flag] + rest)[1..] == rest;
  }

  lemma ReadFlags(call: Call, database: string)
    requires call.flags == {}
    ensures
      ReadMaria(["--single-transaction", "--routines", "--triggers", "--events", "--hex-blob", database], call)
      == ReadMaria([database],
                   call.(flags := {"--single-transaction", "--routines", "--triggers", "--events", "--hex-blob"}))
  {
    var d := ["--hex-blob"] + [database];
    var c := ["--events"] + d;
    var b := ["--triggers"] + c;
    var a := ["--routines"] + b;
    assert ["--single-transaction", "--routines", "--triggers", "--events", "--hex-blob", database]
        == ["--single-transaction"] + a;
    var f1 := {"--single-transaction"};
    var f2 := f1 + {"--routines"};
    var f3 := f2 + {"--triggers"};
    var f4 := f3 + {"--events"};
    ReadFlag("--single-transaction", a, call);
    ReadFlag("--routines", b, call.(flags := f1));
    ReadFlag("--triggers", c, call.(flags := f2));
    ReadFlag("--events", d, call.(flags := f3));
    ReadFlag("--hex-blob", [database], call.(flags := f4));
    assert {} + f1 == f1;
    assert f4 + {"--hex-blob"} == {"--single-transaction", "--routines", "--triggers", "--events", "--hex-blob"};
  }

  /** The dump's client is pg_dump, or mariadb-dump with all five flags, and reads the named database under
      the same condition. */
  lemma DumpConnectsIff(product: Product, user: string, database: string)
    ensures
      var argv := DumpClient(product, user, database);
      var flags := {"--single-transaction", "--routines", "--triggers", "--events", "--hex-blob"};
      && (Connects(product, argv) == Some(database) <==> IsDatabaseName(product, database))
      && (IsDatabaseName(product, database) ==>
          ReadClient(product, argv)
          == Some(if product.Postgres? then Call("pg_dump", Some(user), Some(database), None, {}, false)
                  else Call("mariadb-dump", Some(user), Some(database), None, flags, true)))
  {
    var argv := DumpClient(product, user, database);
    var flags := {"--single-transaction", "--routines", "--triggers", "--events", "--hex-blob"};
    if product.Postgres? {
      assert argv[1..][2..] == [database];
      ReadOperand(product, Call("pg_dump", Some(user), None, None, {}, false), database);
    } else {
      var call := Call("mariadb-dump", Some(user), None, None, {}, true);
      assert argv[1..][2..]
          == ["--single-transaction", "--routines", "--triggers", "--events", "--hex-blob", database];
      ReadFlags(call, database);
      ReadOperand(product, call.(flags := flags), database);
    }
    ShorterDatabase(database);
  }
}
