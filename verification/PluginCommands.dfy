/** The remote command lines of the postgres, mariadb and filesystem plugins. */
module PluginCommands {
  import opened Core
  import opened Shell
  import opened ShellCmd
  import opened Remote
  import opened SqlIdentifier
  import opened Clients

  datatype PgConfig = PgConfig(username: string, password: string, container: string)

  /** Exactly one of password and passwordContainerEnv is set; the latter needs a container. */
  datatype MariaConfig = MariaConfig(
    username: string, container: string, password: string, passwordContainerEnv: string)

  // ---- postgres ----

  function PgPrefix(cfg: PgConfig, interactive: bool): seq<string> {
    if cfg.container == "" then ["env", "PGPASSWORD=" + cfg.password]
    else ["docker", "exec"] + (if interactive then ["-i"] else []) + ["-e", "PGPASSWORD=" + cfg.password, cfg.container]
  }

  function PgDump(cfg: PgConfig, database: string): string {
    Build(PgPrefix(cfg, false) + DumpClient(Postgres, cfg.username, database))
  }

  function PgRestore(cfg: PgConfig, database: string): string {
    Build(PgPrefix(cfg, true) + RestoreClient(Postgres, cfg.username, database))
  }

  function PgSql(cfg: PgConfig, sql: string): string {
    Build(PgPrefix(cfg, false) + SqlClient(Postgres, cfg.username, sql))
  }

  function PgCreate(cfg: PgConfig, database: string): string {
    PgSql(cfg, CREATE_PREFIX + QuotedIdentifier(QuoteOf(Postgres), database))
  }

  function PgDrop(cfg: PgConfig, database: string): string {
    PgSql(cfg, DROP_PREFIX + QuotedIdentifier(QuoteOf(Postgres), database))
  }

  // ---- mariadb ----

  function MariaPrefix(cfg: MariaConfig, interactive: bool): seq<string> {
    if cfg.container == "" then ["env", "MYSQL_PWD=" + cfg.password]
    else
      ["docker", "exec"] + (if interactive then ["-i"] else [])
      + (if cfg.passwordContainerEnv != ""
         then [cfg.container, "sh", "-c", "MYSQL_PWD=\"$" + cfg.passwordContainerEnv + "\" exec \"$@\"", "sh"]
         else ["-e", "MYSQL_PWD=" + cfg.password, cfg.container])
  }

  function MariaDump(cfg: MariaConfig, database: string): string {
    Build(MariaPrefix(cfg, false) + DumpClient(MariaDb, cfg.username, database))
  }

  function MariaRestore(cfg: MariaConfig, database: string): string {
    Build(MariaPrefix(cfg, true) + RestoreClient(MariaDb, cfg.username, database))
  }

  function MariaSql(cfg: MariaConfig, sql: string): string {
    Build(MariaPrefix(cfg, false) + SqlClient(MariaDb, cfg.username, sql))
  }

  function MariaCreate(cfg: MariaConfig, database: string): string {
    MariaSql(cfg, CREATE_PREFIX + QuotedIdentifier(QuoteOf(MariaDb), database))
  }

  function MariaDrop(cfg: MariaConfig, database: string): string {
    MariaSql(cfg, DROP_PREFIX + QuotedIdentifier(QuoteOf(MariaDb), database))
  }

  // ---- filesystem ----

  function Untar(target: string): string {
    Build(["mkdir", "-p", target]) + " && " + Build(["tar", "xzf", "-", "-C", target, "--strip-components=1"])
  }

  function Remove(target: string): string {
    Build(["rm", "-rf", target])
  }

  function TrimSlash(path: string): string {
    if path != [] && path[|path| - 1] == '/' then path[..|path| - 1] else path
  }

  /** path.Split: the directory with its final slash, and the base name. */
  function SplitPath(path: string): (r: (string, string))
    ensures r.0 + r.1 == path && '/' !in r.1 && (r.0 != "" ==> r.0[|r.0| - 1] == '/')
  {
    if path == [] || path[|path| - 1] == '/' then (path, "")
    else
      var (dir, base) := SplitPath(path[..|path| - 1]);
      assert dir + (base + [path[|path| - 1]]) == path[..|path| - 1] + [path[|path| - 1]];
      (dir, base + [path[|path| - 1]])
  }

  /** The archive of sourcePath, taken from its parent directory. */
  function Tar(sourcePath: string, excludes: seq<string>): string {
    var (dir, base) := SplitPath(TrimSlash(sourcePath));
    Build(TarArgs(dir, excludes) + [base])
  }

  function TarArgs(dir: string, excludes: seq<string>): seq<string> {
    ["tar", "czf", "-", "-C", if dir == "" then "." else dir] + ExcludeArgs(excludes)
  }

  function ExcludeArgs(excludes: seq<string>): (args: seq<string>)
    ensures |args| == |excludes| && forall i :: 0 <= i < |excludes| ==> args[i] == "--exclude=" + excludes[i]
  {
    seq(|excludes|, i requires 0 <= i < |excludes| => "--exclude=" + excludes[i])
  }

  // ---- What arrives ----

  lemma NulFreeAppend(a: string, b: string)
    ensures NulFree(a + b) <==> NulFree(a) && NulFree(b)
  {
    assert forall i :: 0 <= i < |a| ==> (a + b)[i] == a[i];
    assert forall i :: 0 <= i < |b| ==> (a + b)[|a| + i] == b[i];
  }

  lemma AllNulFreeAppend(a: seq<string>, b: seq<string>)
    ensures AllNulFree(a + b) <==> AllNulFree(a) && AllNulFree(b)
  {
    assert forall i :: 0 <= i < |a| ==> (a + b)[i] == a[i];
    assert forall i :: 0 <= i < |b| ==> (a + b)[|a| + i] == b[i];
  }

  lemma PathNulFree(path: string)
    ensures
      var (dir, base) := SplitPath(TrimSlash(path));
      NulFree(path) <==> NulFree(dir) && NulFree(base)
  {
    var (dir, base) := SplitPath(TrimSlash(path));
    NulFreeAppend(dir, base);
    if path != TrimSlash(path) {
      assert path == TrimSlash(path) + "/";
      NulFreeAppend(TrimSlash(path), "/");
    }
  }

  lemma ExcludesNulFree(excludes: seq<string>)
    ensures AllNulFree(ExcludeArgs(excludes)) <==> AllNulFree(excludes)
  {
    assert NulFree("--exclude=");
    forall i | 0 <= i < |excludes|
      ensures NulFree(ExcludeArgs(excludes)[i]) <==> NulFree(excludes[i])
    {
      NulFreeAppend("--exclude=", excludes[i]);
    }
  }

  lemma TarNulFree(dir: string, base: string, excludes: seq<string>)
    ensures AllNulFree(TarArgs(dir, excludes) + [base]) <==> NulFree(dir) && NulFree(base) && AllNulFree(excludes)
  {
    var parent := if dir == "" then "." else dir;
    var head := ["tar", "czf", "-", "-C", parent];
    assert NulFree("tar") && NulFree("czf") && NulFree("-") && NulFree("-C") && NulFree(".");
    assert AllNulFree(head) <==> NulFree(parent) by {
      assert head[4] == parent;
    }
    assert AllNulFree([base]) <==> NulFree(base) by {
      assert [base][0] == base;
    }
    ExcludesNulFree(excludes);
    AllNulFreeAppend(head, ExcludeArgs(excludes));
    AllNulFreeAppend(head + ExcludeArgs(excludes), [base]);
  }

  /** The shell reads one tar command: it changes into the parent directory, leaves out every exclude
      as it is written, and archives the base name alone, which is no path. The line is unreadable
      exactly when the path or an exclude holds a NUL. */
  lemma TarReadsBack(sourcePath: string, excludes: seq<string>, env: Env)
    ensures
      var (dir, base) := SplitPath(TrimSlash(sourcePath));
      && dir + base == TrimSlash(sourcePath) && '/' !in base
      && Commands(Tar(sourcePath, excludes), env, [])
         == if NulFree(sourcePath) && AllNulFree(excludes)
            then Some([Command(map[], TarArgs(dir, excludes) + [base])]) else None
  {
    var (dir, base) := SplitPath(TrimSlash(sourcePath));
    BuildReadsBack(TarArgs(dir, excludes) + [base], env, []);
    TarNulFree(dir, base, excludes);
    PathNulFree(sourcePath);
  }

  /** What tar makes of its arguments: where it changes to, what it leaves out, what it archives. */
  datatype TarCall = TarCall(dir: string, excludes: seq<string>, operands: seq<string>)

  const EXCLUDE := "--exclude="

  function ReadTarArgs(args: seq<string>, call: TarCall): Option<TarCall>
    decreases |args|
  {
    if args == [] then Some(call)
    else if EXCLUDE <= args[0] then
      ReadTarArgs(args[1..], call.(excludes := call.excludes + [args[0][|EXCLUDE|..]]))
    else if IsOption(args[0]) then None
    else ReadTarArgs(args[1..], call.(operands := call.operands + [args[0]]))
  }

  /** The old-style czf takes the dash as the archive's name. */
  function ReadTar(argv: seq<string>): Option<TarCall> {
    if |argv| >= 5 && argv[..4] == ["tar", "czf", "-", "-C"] then ReadTarArgs(argv[5..], TarCall(argv[4], [], []))
    else None
  }

  lemma ReadExclude(exclude: string, args: seq<string>, call: TarCall)
    ensures ReadTarArgs([EXCLUDE + exclude] + args, call)
         == ReadTarArgs(args, call.(excludes := call.excludes + [exclude]))
  {
    assert ([EXCLUDE + exclude] + args)[1..] == args;
    assert (EXCLUDE + exclude)[|EXCLUDE|..] == exclude;
  }

  lemma {:induction false} ReadExcludes(excludes: seq<string>, rest: seq<string>, call: TarCall)
    ensures ReadTarArgs(ExcludeArgs(excludes) + rest, call)
         == ReadTarArgs(rest, call.(excludes := call.excludes + excludes))
    decreases |excludes|
  {
    if excludes == [] {
      assert ExcludeArgs(excludes) + rest == rest && call.excludes + excludes == call.excludes;
    } else {
      ReadExclude(excludes[0], ExcludeArgs(excludes[1..]) + rest, call);
      ConsTail(EXCLUDE + excludes[0], ExcludeArgs(excludes[1..]), rest);
      assert ExcludeArgs(excludes) == [EXCLUDE + excludes[0]] + ExcludeArgs(excludes[1..]);
      Append3([EXCLUDE + excludes[0]], ExcludeArgs(excludes[1..]), rest);
      ReadExcludes(excludes[1..], rest, call.(excludes := call.excludes + [excludes[0]]));
      assert [excludes[0]] + excludes[1..] == excludes;
      Append3(call.excludes, [excludes[0]], excludes[1..]);
    }
  }

  /** tar archives the base name, from the parent directory and without the excludes, exactly when the
      base name does not look like an option. */
  lemma TarArchivesBaseIff(dir: string, base: string, excludes: seq<string>)
    ensures
      ReadTar(TarArgs(dir, excludes) + [base]) == Some(TarCall(if dir == "" then "." else dir, excludes, [base]))
      <==> !IsOption(base)
  {
    var parent := if dir == "" then "." else dir;
    var argv := TarArgs(dir, excludes) + [base];
    var call := TarCall(parent, excludes, []);
    assert argv[..4] == ["tar", "czf", "-", "-C"] && argv[4] == parent;
    assert argv[5..] == ExcludeArgs(excludes) + [base];
    ReadExcludes(excludes, [base], TarCall(parent, [], []));
    assert [] + excludes == excludes && [base][1..] == [] && [] + [base] == [base];
    assert ReadTar(argv) == ReadTarArgs([base], call);
    assert EXCLUDE[0] == '-' && EXCLUDE[1] == '-';
    if EXCLUDE <= base {
      assert base[0] == '-' && base[1] == '-';
      var more := call.(excludes := call.excludes + [base[|EXCLUDE|..]]);
      assert ReadTarArgs([base], call) == ReadTarArgs([], more) == Some(more);
    }
  }

  /** The base is empty, so that there is nothing to archive, exactly for the empty path, the root and a
      path with two slashes at its end; the parent is the login directory exactly when no slash is left
      but the last: for a relative name, and for the root. */
  lemma BaseIsEmptyIff(path: string)
    ensures
      var (dir, base) := SplitPath(TrimSlash(path));
      && (base == "" <==> path == "" || path == "/" || (|path| >= 2 && path[|path| - 2..] == "//"))
      && (dir == "" <==> '/' !in TrimSlash(path))
  {
    var trimmed := TrimSlash(path);
    var (dir, base) := SplitPath(trimmed);
    if base == "" && trimmed != "" {
      assert trimmed == dir;
    }
    if trimmed != "" && trimmed[|trimmed| - 1] == '/' {
      assert base == "";
    }
    assert dir != "" ==> dir[|dir| - 1] == trimmed[|dir| - 1] == '/';
    assert dir == "" ==> trimmed == base;
    if |path| >= 2 && path[|path| - 2..] == "//" {
      assert path[|path| - 1] == path[|path| - 2..][1] && path[|path| - 2] == path[|path| - 2..][0];
    }
    if path != trimmed && trimmed != "" && trimmed[|trimmed| - 1] == '/' {
      assert path[|path| - 2..] == "//";
    }
  }

  /** The loop of tarCommand. */
  method TarLine(sourcePath: string, excludes: seq<string>) returns (line: string)
    ensures line == Tar(sourcePath, excludes)
    ensures
      var (dir, base) := SplitPath(TrimSlash(sourcePath));
      NulFree(sourcePath) && AllNulFree(excludes) ==>
        forall env :: Commands(line, env, []) == Some([Command(map[], TarArgs(dir, excludes) + [base])])
  {
    var (dir, base) := SplitPath(TrimSlash(sourcePath));
    ghost var split := dir;
    if dir == "" {
      dir := ".";
    }
    var args := ["tar", "czf", "-", "-C", dir];
    var i := 0;
    while i < |excludes|
      invariant i <= |excludes|
      invariant args == TarArgs(split, excludes[..i])
    {
      args := args + ["--exclude=" + excludes[i]];
      i := i + 1;
    }
    assert excludes[..|excludes|] == excludes;
    args := args + [base];
    line := BuildLine(args);
    forall env
      ensures NulFree(sourcePath) && AllNulFree(excludes) ==>
        Commands(line, env, []) == Some([Command(map[], TarArgs(split, excludes) + [base])])
    {
      TarReadsBack(sourcePath, excludes, env);
    }
  }

  /** The scratch directory's path is the one operand of rm. */
  lemma RemoveReadsBack(target: string, env: Env)
    ensures Commands(Remove(target), env, [])
         == if NulFree(target) then Some([Command(map[], ["rm", "-rf", target])]) else None
  {
    var args := ["rm", "-rf", target];
    assert NulFree("rm") && NulFree("-rf");
    assert args[2] == target;
    BuildReadsBack(args, env, []);
  }

  lemma UntarArgsNulFree(target: string)
    ensures AllNulFree(["mkdir", "-p", target]) <==> NulFree(target)
    ensures AllNulFree(["tar", "xzf", "-", "-C", target, "--strip-components=1"]) <==> NulFree(target)
  {
    var mkdir := ["mkdir", "-p", target];
    var tar := ["tar", "xzf", "-", "-C", target, "--strip-components=1"];
    assert NulFree("mkdir") && NulFree("-p") && NulFree("tar") && NulFree("xzf") && NulFree("-") && NulFree("-C");
    assert NulFree("--strip-components=1");
    assert mkdir[2] == target && tar[4] == target;
  }

  /** Exactly two AND-listed commands, whatever the path contains; a NUL makes the line unreadable. */
  lemma UntarReadsAsTwoCommands(target: string, env: Env)
    ensures Commands(Untar(target), env, [])
         == if NulFree(target)
            then Some([Command(map[], ["mkdir", "-p", target]),
                       Command(map[], ["tar", "xzf", "-", "-C", target, "--strip-components=1"])])
            else None
  {
    AndReadsBack(["mkdir", "-p", target], ["tar", "xzf", "-", "-C", target, "--strip-components=1"], env, []);
    UntarArgsNulFree(target);
  }

  /** A client command as the plugins build them: its name is neither an assignment nor a shell. */
  predicate IsClient(client: seq<string>) {
    |client| >= 2 && !HasEq(client[0]) && client[0] != "sh"
  }

  /** env NAME=VALUE client. */
  lemma DirectDelivers(name: string, value: string, client: seq<string>, hostEnv: Env, containerEnv: Env)
    requires !HasEq(name) && IsClient(client)
    ensures RunArgv(["env", name + "=" + value] + client, hostEnv, containerEnv)
         == Some(Delivery(None, true, hostEnv[name := value], client))
  {
    var argv := ["env", name + "=" + value] + client;
    assert argv[1..] == [name + "=" + value] + client;
    EnvDelivers(name, value, client, hostEnv);
  }

  /** A container whose name looks like an option is never the one the client runs in. */
  predicate Reaches(d: Option<Delivery>, container: string, stdin: bool, env: Env, client: seq<string>) {
    if "-" <= container then d.None? || d.value.container != Some(container)
    else d == Some(Delivery(Some(container), stdin, env, client))
  }

  function DockerArgv(interactive: bool, rest: seq<string>): seq<string> {
    ["docker", "exec"] + (if interactive then ["-i"] else []) + rest
  }

  lemma DockerRuns(interactive: bool, rest: seq<string>, hostEnv: Env, containerEnv: Env)
    ensures RunArgv(DockerArgv(interactive, rest), hostEnv, containerEnv)
         == match RunDocker(rest, interactive, containerEnv) { case Some(d) => Inside(d) case None => None }
  {
    var argv := DockerArgv(interactive, rest);
    assert argv[2..] == (if interactive then ["-i"] else []) + rest;
    assert argv[0] == "docker" && "docker"[0] != "env"[0];
    DockerInteractive(rest, interactive, containerEnv);
  }

  /** docker exec [-i] -e NAME=VALUE container client. */
  lemma DockerDelivers(interactive: bool, name: string, value: string, container: string, client: seq<string>,
                       hostEnv: Env, containerEnv: Env)
    requires !HasEq(name) && IsClient(client)
    ensures
      var argv := DockerArgv(interactive, ["-e", name + "=" + value, container] + client);
      Reaches(RunArgv(argv, hostEnv, containerEnv), container, interactive, containerEnv[name := value], client)
  {
    var rest := [container] + client;
    assert ["-e", name + "=" + value, container] + client == ["-e", name + "=" + value] + rest;
    DockerRuns(interactive, ["-e", name + "=" + value] + rest, hostEnv, containerEnv);
    DockerAssigns(name, value, rest, interactive, containerEnv);
    DockerTakesContainer(container, client, interactive, containerEnv[name := value]);
  }

  /** docker exec [-i] container sh -c SCRIPT sh client. */
  lemma ScriptDelivers(interactive: bool, name: string, variable: string, container: string, client: seq<string>,
                       hostEnv: Env, containerEnv: Env)
    requires !HasEq(name) && IsName(name) && IsName(variable)
    ensures
      var argv := DockerArgv(interactive, [container, "sh", "-c", Script(name, variable), "sh"] + client);
      Reaches(RunArgv(argv, hostEnv, containerEnv), container, interactive,
              containerEnv[name := Lookup(containerEnv, variable)], client)
  {
    var shell := ["sh", "-c", Script(name, variable), "sh"] + client;
    assert [container, "sh", "-c", Script(name, variable), "sh"] + client == [container] + shell;
    DockerRuns(interactive, [container] + shell, hostEnv, containerEnv);
    DockerTakesContainer(container, shell, interactive, containerEnv);
    ScriptHandsOver(name, variable, containerEnv, client);
    assert shell[4..] == client;
    assert (["exec"] + client)[1..] == client;
    var bound := map[name := Lookup(containerEnv, variable)];
    assert containerEnv + bound == containerEnv[name := Lookup(containerEnv, variable)];
  }

  // ---- postgres ----

  lemma PgArgvShape(cfg: PgConfig, interactive: bool, client: seq<string>)
    ensures PgPrefix(cfg, interactive) + client
         == if cfg.container == "" then ["env", "PGPASSWORD" + "=" + cfg.password] + client
            else DockerArgv(interactive, ["-e", "PGPASSWORD" + "=" + cfg.password, cfg.container] + client)
  {
    assert "PGPASSWORD=" + cfg.password == "PGPASSWORD" + "=" + cfg.password;
  }

  /** The delivery, if it is to the named container (or to the host when none is named). */
  function At(d: Option<Delivery>, container: string): Option<Delivery> {
    if d.Some? && d.value.container == (if container == "" then None else Some(container)) then d else None
  }

  /** Both postgres modes deliver the client's argv and the password, exactly unless a NUL makes the
      line unreadable or the container's name is taken for an option. */
  lemma PgDelivers(cfg: PgConfig, interactive: bool, client: seq<string>, hostEnv: Env, containerEnv: Env)
    requires IsClient(client)
    ensures
      var d := RemoteRun(Build(PgPrefix(cfg, interactive) + client), hostEnv, containerEnv);
      At(d, cfg.container)
      == if PgReadable(cfg) && AllNulFree(client)
         then Some(if cfg.container == "" then Delivery(None, true, hostEnv["PGPASSWORD" := cfg.password], client)
                   else Delivery(Some(cfg.container), interactive, containerEnv["PGPASSWORD" := cfg.password], client))
         else None
  {
    BuiltLineRuns(PgPrefix(cfg, interactive) + client, hostEnv, containerEnv);
    AllNulFreeAppend(PgPrefix(cfg, interactive), client);
    PgPrefixNulFree(cfg, interactive);
    PgArgvRuns(cfg, interactive, client, hostEnv, containerEnv);
  }

  lemma PgArgvRuns(cfg: PgConfig, interactive: bool, client: seq<string>, hostEnv: Env, containerEnv: Env)
    requires IsClient(client)
    ensures
      var d := RunArgv(PgPrefix(cfg, interactive) + client, hostEnv, containerEnv);
      if cfg.container == "" then d == Some(Delivery(None, true, hostEnv["PGPASSWORD" := cfg.password], client))
      else Reaches(d, cfg.container, interactive, containerEnv["PGPASSWORD" := cfg.password], client)
  {
    PgArgvShape(cfg, interactive, client);
    if cfg.container == "" {
      DirectDelivers("PGPASSWORD", cfg.password, client, hostEnv, containerEnv);
    } else {
      DockerDelivers(interactive, "PGPASSWORD", cfg.password, cfg.container, client, hostEnv, containerEnv);
    }
  }

  /** No NUL, and a container name that is no option. */
  predicate PgReadable(cfg: PgConfig) {
    NulFree(cfg.password) && NulFree(cfg.container) && !("-" <= cfg.container)
  }

  lemma PgOperandsNulFree(username: string, database: string)
    ensures AllNulFree(DumpClient(Postgres, username, database)) <==> NulFree(username) && NulFree(database)
    ensures AllNulFree(RestoreClient(Postgres, username, database)) <==> NulFree(username) && NulFree(database)
  {
    var dump, restore := DumpClient(Postgres, username, database), RestoreClient(Postgres, username, database);
    assert NulFree("pg_dump") && NulFree("psql") && NulFree("-U");
    assert dump[2] == restore[2] == username && dump[3] == restore[3] == database;
  }

  /** The dump's client arrives, and reads the named database exactly when the name is taken as one. */
  lemma PgDumpArrives(cfg: PgConfig, database: string, hostEnv: Env, containerEnv: Env)
    ensures
      var argv := ["pg_dump", "-U", cfg.username, database];
      && (At(RemoteRun(PgDump(cfg, database), hostEnv, containerEnv), cfg.container)
          == if PgReadable(cfg) && NulFree(cfg.username) && NulFree(database)
             then Some(if cfg.container == "" then Delivery(None, true, hostEnv["PGPASSWORD" := cfg.password], argv)
                       else Delivery(Some(cfg.container), false, containerEnv["PGPASSWORD" := cfg.password], argv))
             else None)
      && (Connects(Postgres, argv) == Some(database) <==> IsDatabaseName(Postgres, database))
  {
    PgOperandsNulFree(cfg.username, database);
    PgDelivers(cfg, false, DumpClient(Postgres, cfg.username, database), hostEnv, containerEnv);
    DumpConnectsIff(Postgres, cfg.username, database);
  }

  /** The restore feeds its stdin to a client of the named database, exactly when the name is taken as one. */
  lemma PgRestoreArrives(cfg: PgConfig, database: string, hostEnv: Env, containerEnv: Env)
    ensures
      var argv := ["psql", "-U", cfg.username, database];
      && (At(RemoteRun(PgRestore(cfg, database), hostEnv, containerEnv), cfg.container)
          == if PgReadable(cfg) && NulFree(cfg.username) && NulFree(database)
             then Some(if cfg.container == "" then Delivery(None, true, hostEnv["PGPASSWORD" := cfg.password], argv)
                       else Delivery(Some(cfg.container), true, containerEnv["PGPASSWORD" := cfg.password], argv))
             else None)
      && (Connects(Postgres, argv) == Some(database) <==> IsDatabaseName(Postgres, database))
      && !StopsAtErrors(Postgres, argv)
  {
    PgOperandsNulFree(cfg.username, database);
    PgDelivers(cfg, true, RestoreClient(Postgres, cfg.username, database), hostEnv, containerEnv);
    RestoreConnectsIff(Postgres, cfg.username, database);
  }

  /** The statement that the SQL client hands to the server. */
  function StatementOf(product: Product, d: Option<Delivery>): Option<Statement> {
    if d.None? then None
    else
      match ReadClient(product, d.value.argv)
      case Some(call) =>
        if call.sql.Some? && call.program == (if product.Postgres? then "psql" else "mariadb")
        then ParseStatement(if product.Postgres? then '"' else '`', call.sql.value) else None
      case None => None
  }

  /** Shell quoting around SQL quoting: for every database name and configuration the create and the
      drop command reach the named server as statements about exactly that database; nothing else
      reaches it, exactly when there is a NUL or the container's name is taken for an option. */
  lemma PgStatementsArrive(cfg: PgConfig, database: string, hostEnv: Env, containerEnv: Env)
    ensures
      var create := At(RemoteRun(PgCreate(cfg, database), hostEnv, containerEnv), cfg.container);
      var drop := At(RemoteRun(PgDrop(cfg, database), hostEnv, containerEnv), cfg.container);
      if PgReadable(cfg) && NulFree(cfg.username) && NulFree(database)
      then
        && StatementOf(Postgres, create) == Some(CreateDatabase(database))
        && StatementOf(Postgres, drop) == Some(DropDatabase(database))
        && create.value.env == drop.value.env
           == (if cfg.container == "" then hostEnv else containerEnv)["PGPASSWORD" := cfg.password]
      else create == None && drop == None
  {
    QuotedNulFree('"', database);
    StatementsReadBack('"', database);
    PgSqlArrives(cfg, CREATE_PREFIX + QuotedIdentifier(QuoteOf(Postgres), database), hostEnv, containerEnv);
    PgSqlArrives(cfg, DROP_PREFIX + QuotedIdentifier(QuoteOf(Postgres), database), hostEnv, containerEnv);
  }

  lemma PgClientNulFree(username: string, sql: string)
    ensures AllNulFree(SqlClient(Postgres, username, sql)) <==> NulFree(username) && NulFree(sql)
  {
    var client := SqlClient(Postgres, username, sql);
    assert NulFree("psql") && NulFree("-U") && NulFree("-d") && NulFree("postgres") && NulFree("-v");
    assert NulFree("ON_ERROR_STOP=1") && NulFree("-c");
    assert client[2] == username && client[8] == sql;
  }

  lemma PgSqlArrives(cfg: PgConfig, sql: string, hostEnv: Env, containerEnv: Env)
    ensures
      var d := At(RemoteRun(PgSql(cfg, sql), hostEnv, containerEnv), cfg.container);
      if PgReadable(cfg) && NulFree(cfg.username) && NulFree(sql)
      then
        && d.Some? && StatementOf(Postgres, d) == ParseStatement('"', sql)
        && d.value.env == (if cfg.container == "" then hostEnv else containerEnv)["PGPASSWORD" := cfg.password]
      else d == None
  {
    PgClientNulFree(cfg.username, sql);
    SqlIsRead(Postgres, cfg.username, sql);
    PgDelivers(cfg, false, SqlClient(Postgres, cfg.username, sql), hostEnv, containerEnv);
  }

  lemma PgPrefixNulFree(cfg: PgConfig, interactive: bool)
    ensures AllNulFree(PgPrefix(cfg, interactive)) <==> NulFree(cfg.password) && NulFree(cfg.container)
  {
    assert NulFree("PGPASSWORD=");
    NulFreeAppend("PGPASSWORD=", cfg.password);
    assert NulFree("env") && NulFree("docker") && NulFree("exec") && NulFree("-i") && NulFree("-e");
    var argv := PgPrefix(cfg, interactive);
    if cfg.container == "" {
      assert argv[1] == "PGPASSWORD=" + cfg.password;
    } else {
      assert argv[|argv| - 1] == cfg.container && argv[|argv| - 2] == "PGPASSWORD=" + cfg.password;
    }
  }

  lemma {:induction false} ReplaceNulFree(s: string, q: char)
    requires q != '\0'
    ensures NulFree(ReplaceAll(s, q, [q, q])) <==> NulFree(s)
    decreases |s|
  {
    if s == [] {
    } else {
      var head := if s[0] == q then [q, q] else [s[0]];
      ReplaceNulFree(s[1..], q);
      NulFreeHead(s);
      assert ReplaceAll(s, q, [q, q]) == head + ReplaceAll(s[1..], q, [q, q]);
      assert NulFree(head) <==> s[0] != '\0' by {
        assert head[0] == s[0];
      }
      NulFreeAppend(head, ReplaceAll(s[1..], q, [q, q]));
    }
  }

  /** A statement on a database holds a NUL exactly when the database's name does. */
  lemma QuotedNulFree(q: char, name: string)
    requires q != '\0'
    ensures NulFree(CREATE_PREFIX + QuotedIdentifier(q, name)) <==> NulFree(name)
    ensures NulFree(DROP_PREFIX + QuotedIdentifier(q, name)) <==> NulFree(name)
  {
    ReplaceNulFree(name, q);
    var body := ReplaceAll(name, q, [q, q]);
    assert NulFree([q]);
    NulFreeAppend([q], body);
    NulFreeAppend([q] + body, [q]);
    assert NulFree(CREATE_PREFIX) && NulFree(DROP_PREFIX);
    NulFreeAppend(CREATE_PREFIX, QuotedIdentifier(q, name));
    NulFreeAppend(DROP_PREFIX, QuotedIdentifier(q, name));
  }

  // ---- mariadb ----

  /** What ParseConfig guarantees. */
  predicate MariaValid(cfg: MariaConfig) {
    cfg.passwordContainerEnv != "" ==> cfg.container != "" && IsName(cfg.passwordContainerEnv)
  }

  /** The password the client must see. */
  function MariaSecret(cfg: MariaConfig, containerEnv: Env): string {
    if cfg.passwordContainerEnv != "" then Lookup(containerEnv, cfg.passwordContainerEnv) else cfg.password
  }

  lemma MariaArgvShape(cfg: MariaConfig, interactive: bool, client: seq<string>)
    ensures MariaPrefix(cfg, interactive) + client
         == if cfg.container == "" then ["env", "MYSQL_PWD" + "=" + cfg.password] + client
            else if cfg.passwordContainerEnv != "" then
              var script := Script("MYSQL_PWD", cfg.passwordContainerEnv);
              DockerArgv(interactive, [cfg.container, "sh", "-c", script, "sh"] + client)
            else DockerArgv(interactive, ["-e", "MYSQL_PWD" + "=" + cfg.password, cfg.container] + client)
  {
    assert "MYSQL_PWD=" + cfg.password == "MYSQL_PWD" + "=" + cfg.password;
    assert "MYSQL_PWD=\"$" + cfg.passwordContainerEnv + "\" exec \"$@\""
        == Script("MYSQL_PWD", cfg.passwordContainerEnv);
  }

  /** No NUL, and a container name that is no option. */
  predicate MariaReadable(cfg: MariaConfig) {
    && NulFree(cfg.container) && !("-" <= cfg.container)
    && (cfg.passwordContainerEnv == "" ==> NulFree(cfg.password))
  }

  /** Directly, with docker exec -e, or through the script in the container: the client sees the same
      argv and its password in MYSQL_PWD, exactly unless a NUL makes the line unreadable or the
      container's name is taken for an option. */
  lemma MariaDelivers(cfg: MariaConfig, interactive: bool, client: seq<string>, hostEnv: Env, containerEnv: Env)
    requires MariaValid(cfg) && IsClient(client)
    ensures
      var d := RemoteRun(Build(MariaPrefix(cfg, interactive) + client), hostEnv, containerEnv);
      var secret := MariaSecret(cfg, containerEnv);
      At(d, cfg.container)
      == if MariaReadable(cfg) && AllNulFree(client)
         then Some(if cfg.container == "" then Delivery(None, true, hostEnv["MYSQL_PWD" := secret], client)
                   else Delivery(Some(cfg.container), interactive, containerEnv["MYSQL_PWD" := secret], client))
         else None
  {
    BuiltLineRuns(MariaPrefix(cfg, interactive) + client, hostEnv, containerEnv);
    AllNulFreeAppend(MariaPrefix(cfg, interactive), client);
    MariaPrefixNulFree(cfg, interactive);
    MariaArgvRuns(cfg, interactive, client, hostEnv, containerEnv);
  }

  lemma MariaArgvRuns(cfg: MariaConfig, interactive: bool, client: seq<string>, hostEnv: Env, containerEnv: Env)
    requires MariaValid(cfg) && IsClient(client)
    ensures
      var d := RunArgv(MariaPrefix(cfg, interactive) + client, hostEnv, containerEnv);
      var secret := MariaSecret(cfg, containerEnv);
      if cfg.container == "" then d == Some(Delivery(None, true, hostEnv["MYSQL_PWD" := secret], client))
      else Reaches(d, cfg.container, interactive, containerEnv["MYSQL_PWD" := secret], client)
  {
    MariaArgvShape(cfg, interactive, client);
    if cfg.container == "" {
      DirectDelivers("MYSQL_PWD", cfg.password, client, hostEnv, containerEnv);
    } else if cfg.passwordContainerEnv != "" {
      ScriptDelivers(interactive, "MYSQL_PWD", cfg.passwordContainerEnv, cfg.container, client, hostEnv, containerEnv);
    } else {
      DockerDelivers(interactive, "MYSQL_PWD", cfg.password, cfg.container, client, hostEnv, containerEnv);
    }
  }

  /** A variable's name holds no NUL. */
  lemma NameNulFree(name: string)
    requires IsName(name)
    ensures NulFree(name)
  {
  }

  lemma MariaPrefixNulFree(cfg: MariaConfig, interactive: bool)
    requires MariaValid(cfg)
    ensures AllNulFree(MariaPrefix(cfg, interactive))
       <==> NulFree(cfg.container) && (cfg.passwordContainerEnv == "" ==> NulFree(cfg.password))
  {
    var argv := MariaPrefix(cfg, interactive);
    assert NulFree("env") && NulFree("docker") && NulFree("exec") && NulFree("-i") && NulFree("-e");
    assert NulFree("sh") && NulFree("-c") && NulFree("MYSQL_PWD=");
    NulFreeAppend("MYSQL_PWD=", cfg.password);
    if cfg.container == "" {
      assert argv[1] == "MYSQL_PWD=" + cfg.password;
    } else if cfg.passwordContainerEnv != "" {
      ScriptNulFree(cfg.passwordContainerEnv);
      assert argv[|argv| - 4 - 1] == cfg.container;
    } else {
      assert argv[|argv| - 1] == cfg.container && argv[|argv| - 2] == "MYSQL_PWD=" + cfg.password;
    }
  }

  lemma ScriptNulFree(variable: string)
    requires IsName(variable)
    ensures NulFree("MYSQL_PWD=\"$" + variable + "\" exec \"$@\"")
  {
    NameNulFree(variable);
    assert NulFree("MYSQL_PWD=\"$") && NulFree("\" exec \"$@\"");
    NulFreeAppend("MYSQL_PWD=\"$", variable);
    NulFreeAppend("MYSQL_PWD=\"$" + variable, "\" exec \"$@\"");
  }

  lemma DumpClientNulFree(username: string, database: string)
    ensures AllNulFree(DumpClient(MariaDb, username, database)) <==> NulFree(username) && NulFree(database)
  {
    var client := DumpClient(MariaDb, username, database);
    assert NulFree("mariadb-dump") && NulFree("-u") && NulFree("--single-transaction") && NulFree("--routines");
    assert NulFree("--triggers") && NulFree("--events") && NulFree("--hex-blob");
    assert client[2] == username && client[8] == database;
  }

  /** The dump's client arrives, and reads the named database exactly when the name is taken as one. */
  lemma MariaDumpArrives(cfg: MariaConfig, database: string, hostEnv: Env, containerEnv: Env)
    requires MariaValid(cfg)
    ensures
      var secret := MariaSecret(cfg, containerEnv);
      var argv := ["mariadb-dump", "-u", cfg.username, "--single-transaction", "--routines", "--triggers", "--events",
                   "--hex-blob", database];
      && (At(RemoteRun(MariaDump(cfg, database), hostEnv, containerEnv), cfg.container)
          == if MariaReadable(cfg) && NulFree(cfg.username) && NulFree(database)
             then Some(if cfg.container == "" then Delivery(None, true, hostEnv["MYSQL_PWD" := secret], argv)
                       else Delivery(Some(cfg.container), false, containerEnv["MYSQL_PWD" := secret], argv))
             else None)
      && (Connects(MariaDb, argv) == Some(database) <==> IsDatabaseName(MariaDb, database))
  {
    DumpClientNulFree(cfg.username, database);
    MariaDelivers(cfg, false, DumpClient(MariaDb, cfg.username, database), hostEnv, containerEnv);
    DumpConnectsIff(MariaDb, cfg.username, database);
  }

  lemma RestoreClientNulFree(username: string, database: string)
    ensures AllNulFree(RestoreClient(MariaDb, username, database)) <==> NulFree(username) && NulFree(database)
  {
    var client := RestoreClient(MariaDb, username, database);
    assert NulFree("mariadb") && NulFree("-u");
    assert client[2] == username && client[3] == database;
  }

  /** The restore feeds its stdin to a client of the named database, exactly when the name is taken as one;
      it stops at errors. */
  lemma MariaRestoreArrives(cfg: MariaConfig, database: string, hostEnv: Env, containerEnv: Env)
    requires MariaValid(cfg)
    ensures
      var secret := MariaSecret(cfg, containerEnv);
      var argv := ["mariadb", "-u", cfg.username, database];
      && (At(RemoteRun(MariaRestore(cfg, database), hostEnv, containerEnv), cfg.container)
          == if MariaReadable(cfg) && NulFree(cfg.username) && NulFree(database)
             then Some(if cfg.container == "" then Delivery(None, true, hostEnv["MYSQL_PWD" := secret], argv)
                       else Delivery(Some(cfg.container), true, containerEnv["MYSQL_PWD" := secret], argv))
             else None)
      && (Connects(MariaDb, argv) == Some(database) <==> IsDatabaseName(MariaDb, database))
      && (IsDatabaseName(MariaDb, database) ==> StopsAtErrors(MariaDb, argv))
  {
    RestoreClientNulFree(cfg.username, database);
    MariaDelivers(cfg, true, RestoreClient(MariaDb, cfg.username, database), hostEnv, containerEnv);
    RestoreConnectsIff(MariaDb, cfg.username, database);
  }

  lemma MariaClientNulFree(username: string, sql: string)
    ensures AllNulFree(SqlClient(MariaDb, username, sql)) <==> NulFree(username) && NulFree(sql)
  {
    var client := SqlClient(MariaDb, username, sql);
    assert NulFree("mariadb") && NulFree("-u") && NulFree("-e");
    assert client[2] == username && client[4] == sql;
  }

  lemma MariaSqlArrives(cfg: MariaConfig, sql: string, hostEnv: Env, containerEnv: Env)
    requires MariaValid(cfg)
    ensures
      var d := At(RemoteRun(MariaSql(cfg, sql), hostEnv, containerEnv), cfg.container);
      var secret := MariaSecret(cfg, containerEnv);
      if MariaReadable(cfg) && NulFree(cfg.username) && NulFree(sql)
      then
        && d.Some? && StatementOf(MariaDb, d) == ParseStatement('`', sql)
        && d.value.env == (if cfg.container == "" then hostEnv else containerEnv)["MYSQL_PWD" := secret]
      else d == None
  {
    MariaClientNulFree(cfg.username, sql);
    SqlIsRead(MariaDb, cfg.username, sql);
    MariaDelivers(cfg, false, SqlClient(MariaDb, cfg.username, sql), hostEnv, containerEnv);
  }

  /** In every mode the create and the drop command reach the named server as statements about exactly
      the named database; nothing else reaches it, exactly when there is a NUL or the container's
      name is taken for an option. */
  lemma MariaStatementsArrive(cfg: MariaConfig, database: string, hostEnv: Env, containerEnv: Env)
    requires MariaValid(cfg)
    ensures
      var create := At(RemoteRun(MariaCreate(cfg, database), hostEnv, containerEnv), cfg.container);
      var drop := At(RemoteRun(MariaDrop(cfg, database), hostEnv, containerEnv), cfg.container);
      if MariaReadable(cfg) && NulFree(cfg.username) && NulFree(database)
      then
        && StatementOf(MariaDb, create) == Some(CreateDatabase(database))
        && StatementOf(MariaDb, drop) == Some(DropDatabase(database))
        && create.value.env == drop.value.env
           == (if cfg.container == "" then hostEnv else containerEnv)["MYSQL_PWD" := MariaSecret(cfg, containerEnv)]
      else create == None && drop == None
  {
    QuotedNulFree('`', database);
    StatementsReadBack('`', database);
    MariaSqlArrives(cfg, CREATE_PREFIX + QuotedIdentifier(QuoteOf(MariaDb), database), hostEnv, containerEnv);
    MariaSqlArrives(cfg, DROP_PREFIX + QuotedIdentifier(QuoteOf(MariaDb), database), hostEnv, containerEnv);
  }
}
