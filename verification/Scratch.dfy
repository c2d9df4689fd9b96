/** Restores into Postgres and MariaDB, and the scratch databases of restore tests. */
module Scratch {
  import opened Core
  import opened ShellCmd
  import opened SqlIdentifier
  import opened Clients

  /** What a database holds: the statements that took effect in it, or whatever a load that was cut short left. */
  type Content = seq<string>
  type Databases = map<string, Content>

  datatype Reply = Ok | AlreadyExists | Error

  /** Which client restores, and as whom. */
  datatype Login = Login(product: Product, user: string)

  /** How the commands of one restore will end. `fails` are the statements of the dump that the server
      rejects, by position; `left` is what a load that is cut short leaves behind; `elsewhere` is the
      database the client connects to when its arguments do not tell. */
  datatype Endings = Endings(
    create: Write, load: Write, fails: set<nat>, left: Content, elsewhere: string, drop: Write)

  function Create(dbs: Databases, name: string, w: Write): (Reply, Databases) {
    if name in dbs then (AlreadyExists, dbs)
    else (if w == Applied then Ok else Error, if w == Rejected then dbs else dbs[name := []])
  }

  function Drop(dbs: Databases, name: string, w: Write): (Reply, Databases) {
    if name !in dbs then (Error, dbs)
    else (if w == Applied then Ok else Error, if w == Rejected then dbs else dbs - {name})
  }

  // ---- Loading a dump ----

  /** The client from statement k on: what takes effect, and whether it exits with 0. */
  function Execute(content: Content, dump: seq<string>, fails: set<nat>, k: nat, stops: bool): (Content, bool)
    requires k <= |dump|
    decreases |dump| - k
  {
    if k == |dump| then (content, true)
    else if k !in fails then Execute(content + [dump[k]], dump, fails, k + 1, stops)
    else if stops then (content, false)
    else Execute(content, dump, fails, k + 1, stops)
  }

  /** The database a restore into `name` is loaded into. */
  function Target(login: Login, name: string, e: Endings): string {
    match Connects(login.product, RestoreClient(login.product, login.user, name))
    case Some(target) => target
    case None => e.elsewhere
  }

  function Stops(login: Login, name: string): bool {
    StopsAtErrors(login.product, RestoreClient(login.product, login.user, name))
  }

  function LoadInto(dbs: Databases, target: string, dump: seq<string>, stops: bool, e: Endings): (Reply, Databases) {
    if target !in dbs then (Error, dbs)
    else if e.load == Rejected then (Error, dbs[target := e.left])
    else
      var (content, exited) := Execute(dbs[target], dump, e.fails, 0, stops);
      (if exited && e.load == Applied then Ok else Error, dbs[target := content])
  }

  /** The database server behind the remote client. */
  class Server {
    const product: Product
    var dbs: Databases

    /** Runs one statement as the server reads its text. */
    method Run(sql: string, w: Write) returns (reply: Reply)
      modifies this
      ensures
        match ParseStatement(if product.Postgres? then '"' else '`', sql)
        case Some(CreateDatabase(name)) => (reply, dbs) == Create(old(dbs), name, w)
        case Some(DropDatabase(name)) => (reply, dbs) == Drop(old(dbs), name, w)
        case None => reply == Error && dbs == old(dbs)
    {
      match ParseStatement(if product.Postgres? then '"' else '`', sql)
      case Some(CreateDatabase(name)) =>
        var r := Create(dbs, name, w);
        reply, dbs := r.0, r.1;
      case Some(DropDatabase(name)) =>
        var r := Drop(dbs, name, w);
        reply, dbs := r.0, r.1;
      case None =>
        reply := Error;
    }

    /** A client command with the dump on its stdin, as the client reads its arguments. */
    method Load(argv: seq<string>, dump: seq<string>, e: Endings) returns (reply: Reply)
      modifies this
      ensures
        var target := match Connects(product, argv) { case Some(t) => t case None => e.elsewhere };
        (reply, dbs) == LoadInto(old(dbs), target, dump, StopsAtErrors(product, argv), e)
    {
      var target := match Connects(product, argv) { case Some(t) => t case None => e.elsewhere };
      var r := LoadInto(dbs, target, dump, StopsAtErrors(product, argv), e);
      reply, dbs := r.0, r.1;
    }
  }

  // ---- The plugins' Restore ----

  datatype Failure = NotOpened | ScratchExists | ScratchNotCreated | NotLoaded

  datatype Restored = Restored(failure: Option<Failure>, dbs: Databases)

  /** What a restore into `name` comes to. */
  function Restoring(login: Login, dbs: Databases, file: Option<seq<string>>, name: string, e: Endings): Restored {
    if file.None? then Restored(Some(NotOpened), dbs)
    else
      var test := IsRestoreTest(name);
      var created := if test then Create(dbs, name, e.create) else (Ok, dbs);
      if created.0 == AlreadyExists then Restored(Some(ScratchExists), created.1)
      else if created.0 == Error then Restored(Some(ScratchNotCreated), created.1)
      else
        var loaded := LoadInto(created.1, Target(login, name, e), file.value, Stops(login, name), e);
        Restored(if loaded.0 == Ok then None else Some(NotLoaded),
                 if test then Drop(loaded.1, name, e.drop).1 else loaded.1)
  }

  /** dropScratchDatabase: a failure is only logged. */
  method DropScratch(server: Server, name: string, w: Write)
    modifies server
    ensures server.dbs == Drop(old(server.dbs), name, w).1
  {
    StatementsReadBack(QuoteOf(server.product), name);
    var reply := server.Run(DROP_PREFIX + QuotedIdentifier(QuoteOf(server.product), name), w);
  }

  method Restore(server: Server, login: Login, file: Option<seq<string>>, name: string, e: Endings)
    returns (failure: Option<Failure>)
    requires login.product == server.product
    modifies server
    ensures Restored(failure, server.dbs) == Restoring(login, old(server.dbs), file, name, e)
  {
    if file.None? {
      return Some(NotOpened);
    }
    var test := IsRestoreTest(name);
    if test {
      StatementsReadBack(QuoteOf(server.product), name);
      var reply := server.Run(CREATE_PREFIX + QuotedIdentifier(QuoteOf(server.product), name), e.create);
      if reply != Ok {
        return Some(if reply == AlreadyExists then ScratchExists else ScratchNotCreated);
      }
    }
    var reply := server.Load(RestoreClient(login.product, login.user, name), file.value, e);
    if reply != Ok {
      if test {
        DropScratch(server, name, e.drop);
      }
      return Some(NotLoaded);
    }
    if test {
      DropScratch(server, name, e.drop);
    }
    return None;
  }

  /** Every failure under its own condition; an existing database is never taken for the scratch one. */
  lemma FailuresAre(login: Login, dbs: Databases, file: Option<seq<string>>, name: string, e: Endings)
    ensures
      var failure := Restoring(login, dbs, file, name, e).failure;
      var test := IsRestoreTest(name);
      && (failure == Some(NotOpened) <==> file == None)
      && (failure == Some(ScratchExists) <==> file.Some? && test && name in dbs)
      && (failure == Some(ScratchNotCreated) <==> file.Some? && test && name !in dbs && e.create != Applied)
      && (failure in {None, Some(NotLoaded)} <==> file.Some? && (test ==> name !in dbs && e.create == Applied))
      && (failure == Some(ScratchExists) ==> Restoring(login, dbs, file, name, e).dbs == dbs)
  {
  }

  // ---- What a load does ----

  /** The statements from k on that the server accepts, in order. */
  function Accepted(dump: seq<string>, fails: set<nat>, k: nat): seq<string>
    requires k <= |dump|
    decreases |dump| - k
  {
    if k == |dump| then []
    else if k in fails then Accepted(dump, fails, k + 1)
    else [dump[k]] + Accepted(dump, fails, k + 1)
  }

  predicate NoneFails(dump: seq<string>, fails: set<nat>, k: nat) {
    forall i :: k <= i < |dump| ==> i !in fails
  }

  /** A client that goes on exits with 0 whatever fails; one that stops does so exactly when nothing fails. */
  lemma {:induction false} ExecuteIs(content: Content, dump: seq<string>, fails: set<nat>, k: nat, stops: bool)
    requires k <= |dump|
    ensures
      var (after, exited) := Execute(content, dump, fails, k, stops);
      && (exited <==> !stops || NoneFails(dump, fails, k))
      && (exited ==> after == content + Accepted(dump, fails, k))
    decreases |dump| - k
  {
    if k == |dump| {
      assert content + [] == content;
    } else if k !in fails {
      ExecuteIs(content + [dump[k]], dump, fails, k + 1, stops);
      Append3(content, [dump[k]], Accepted(dump, fails, k + 1));
      assert NoneFails(dump, fails, k) <==> NoneFails(dump, fails, k + 1);
    } else {
      assert !NoneFails(dump, fails, k);
      if !stops {
        ExecuteIs(content, dump, fails, k + 1, stops);
      }
    }
  }

  /** Everything is accepted exactly when nothing fails. */
  lemma {:induction false} AcceptedIsAllIff(dump: seq<string>, fails: set<nat>, k: nat)
    requires k <= |dump|
    ensures |Accepted(dump, fails, k)| <= |dump| - k
    ensures Accepted(dump, fails, k) == dump[k..] <==> NoneFails(dump, fails, k)
    decreases |dump| - k
  {
    if k == |dump| {
    } else {
      AcceptedIsAllIff(dump, fails, k + 1);
      assert dump[k..] == [dump[k]] + dump[k + 1..];
      if k in fails {
        assert !NoneFails(dump, fails, k);
      } else {
        assert NoneFails(dump, fails, k) <==> NoneFails(dump, fails, k + 1);
        assert ([dump[k]] + Accepted(dump, fails, k + 1))[1..] == Accepted(dump, fails, k + 1);
        assert dump[k..][1..] == dump[k + 1..];
      }
    }
  }

  // ---- One restore ----

  /** Whether a restore test leaves its scratch database behind. */
  predicate LeftBehind(dbs: Databases, file: Option<seq<string>>, name: string, e: Endings) {
    file.Some? && name !in dbs && (e.create == Unacknowledged || (e.create == Applied && e.drop == Rejected))
  }

  /** A restore test leaves the set of databases as it was; its own stays behind exactly when its drop
      fails or its create did without saying so. And no content changes but that of the database the
      client connects to. */
  lemma TestKeepsTheRest(login: Login, dbs: Databases, file: Option<seq<string>>, name: string, e: Endings)
    requires IsRestoreTest(name)
    ensures
      var after := Restoring(login, dbs, file, name, e).dbs;
      && after.Keys == dbs.Keys + (if LeftBehind(dbs, file, name, e) then {name} else {})
      && (forall n :: n in dbs && (n != Target(login, name, e) || n == name) ==> after[n] == dbs[n])
  {
  }

  /** Every database that existed is there with its content. */
  ghost predicate OwnsOnlyItsScratch(login: Login, dbs: Databases, file: Option<seq<string>>, name: string,
                                     e: Endings) {
    var after := Restoring(login, dbs, file, name, e).dbs;
    && (forall n :: n in dbs ==> n in after && after[n] == dbs[n])
    && after.Keys == dbs.Keys + (if LeftBehind(dbs, file, name, e) then {name} else {})
  }

  lemma TestOwnsOnlyItsScratch(login: Login, dbs: Databases, file: Option<seq<string>>, name: string, e: Endings)
    requires IsRestoreTest(name) && IsDatabaseName(login.product, name)
    ensures OwnsOnlyItsScratch(login, dbs, file, name, e)
  {
    RestoreConnectsIff(login.product, login.user, name);
    TestKeepsTheRest(login, dbs, file, name, e);
  }

  /** A name that the client takes for something else: the load can go into a database that was there. */
  lemma OtherNameOwnsMore(login: Login, name: string) returns (dbs: Databases, file: Option<seq<string>>, e: Endings)
    requires IsRestoreTest(name) && !IsDatabaseName(login.product, name)
    ensures !OwnsOnlyItsScratch(login, dbs, file, name, e)
  {
    RestoreConnectsIff(login.product, login.user, name);
    e := Endings(Applied, Applied, {}, [], name + "'", Applied);
    file := Some(["statement"]);
    var target := Target(login, name, e);
    assert |e.elsewhere| == |name| + 1;
    assert target != name;
    dbs := map[target := []];
    ExecuteIs([], file.value, {}, 0, Stops(login, name));
    AcceptedIsAllIff(file.value, {}, 0);
    assert file.value[0..] == file.value;
    var after := Restoring(login, dbs, file, name, e).dbs;
    assert after[target] == ["statement"];
  }

  /** Whatever else is there, whatever the dump and however the commands end: a restore test touches
      nothing that existed, exactly when its name is one that the client takes as a database's name. */
  lemma TestOwnsOnlyItsScratchIff(login: Login, name: string)
    requires IsRestoreTest(name)
    ensures (forall dbs, file, e :: OwnsOnlyItsScratch(login, dbs, file, name, e))
        <==> IsDatabaseName(login.product, name)
  {
    if IsDatabaseName(login.product, name) {
      forall dbs, file, e
        ensures OwnsOnlyItsScratch(login, dbs, file, name, e)
      {
        TestOwnsOnlyItsScratch(login, dbs, file, name, e);
      }
    } else {
      var dbs, file, e := OtherNameOwnsMore(login, name);
    }
  }

  /** For example a Postgres resource called "dbname=app": its test is loaded into app-bop-verify. */
  lemma ConnectionStringIsLoadedElsewhere(user: string, e: Endings)
    ensures IsRestoreTest("dbname=app" + RESTORE_TEST_SUFFIX)
    ensures Target(Login(Postgres, user), "dbname=app" + RESTORE_TEST_SUFFIX, e) == "app" + RESTORE_TEST_SUFFIX
  {
    var name := "dbname=app" + RESTORE_TEST_SUFFIX;
    assert name[|name| - |RESTORE_TEST_SUFFIX|..] == RESTORE_TEST_SUFFIX;
    assert name[|DBNAME|..] == "app" + RESTORE_TEST_SUFFIX && name[..|DBNAME|] == DBNAME;
    assert name[6] == '=';
    ReadAfterUser(Postgres, user, name);
    ReadOperand(Postgres, Call("psql", Some(user), None, None, {}, false), name);
  }

  /** A restore test succeeds exactly when it created its scratch database and the client, connected to
      some database, exited with 0: for psql that says nothing about the statements of the dump. */
  lemma TestSucceedsIff(login: Login, dbs: Databases, file: Option<seq<string>>, name: string, e: Endings)
    requires IsRestoreTest(name)
    ensures Restoring(login, dbs, file, name, e).failure == None
       <==> && file.Some? && name !in dbs && e.create == Applied && e.load == Applied
            && Target(login, name, e) in dbs.Keys + {name}
            && (Stops(login, name) ==> NoneFails(file.value, e.fails, 0))
  {
    if file.Some? && name !in dbs && e.create == Applied {
      var target := Target(login, name, e);
      var created := dbs[name := []];
      if target in created {
        ExecuteIs(created[target], file.value, e.fails, 0, Stops(login, name));
      }
    }
  }

  /** A plain restore touches the database it is loaded into alone; success leaves there what was
      accepted of the dump. */
  lemma PlainTouchesItsTarget(login: Login, dbs: Databases, file: Option<seq<string>>, name: string, e: Endings)
    requires !IsRestoreTest(name)
    ensures
      var r := Restoring(login, dbs, file, name, e);
      var target := Target(login, name, e);
      && r.dbs.Keys == dbs.Keys
      && (forall n :: n in dbs && n != target ==> r.dbs[n] == dbs[n])
      && (r.failure == None ==>
          target in dbs && r.dbs == dbs[target := dbs[target] + Accepted(file.value, e.fails, 0)])
  {
    var target := Target(login, name, e);
    if file.Some? && target in dbs {
      ExecuteIs(dbs[target], file.value, e.fails, 0, Stops(login, name));
    }
  }

  /** What `name` held, or the empty database that a restore test creates, and then the whole dump. */
  ghost predicate HoldsWholeDump(dbs: Databases, after: Databases, dump: seq<string>, name: string) {
    name in after && after[name] == (if name in dbs then dbs[name] else []) + dump
  }

  /** Success means that the whole dump is in place exactly when nothing failed that psql passed over,
      the name was taken as the database's name, and it was no restore test (or its drop failed). */
  lemma SuccessLeavesWholeDumpIff(login: Login, dbs: Databases, file: Option<seq<string>>, name: string, e: Endings)
    requires Restoring(login, dbs, file, name, e).failure == None && file.value != []
    ensures
      HoldsWholeDump(dbs, Restoring(login, dbs, file, name, e).dbs, file.value, name)
      <==> && (Stops(login, name) || NoneFails(file.value, e.fails, 0))
           && Target(login, name, e) == name
           && (IsRestoreTest(name) ==> e.drop == Rejected)
  {
    var created := if IsRestoreTest(name) then dbs[name := []] else dbs;
    var target, dump := Target(login, name, e), file.value;
    ExecuteIs(created[target], dump, e.fails, 0, Stops(login, name));
    AcceptedIsAllIff(dump, e.fails, 0);
    assert dump[0..] == dump;
    LongerIff(created[target], Accepted(dump, e.fails, 0), dump);
    if name in created {
      LongerIff(created[name], [], dump);
      assert created[name] + [] == created[name];
    }
  }

  lemma LongerIff(before: Content, a: Content, b: Content)
    ensures before + a == before + b <==> a == b
  {
    assert (before + a)[|before|..] == a && (before + b)[|before|..] == b;
  }

  /** The failing input is any dump of which Postgres rejects a statement, say an OWNER TO an absent
      role: the restore reports success without it. */
  lemma FailedStatementsGoUnnoticed(user: string, dbs: Databases, dump: seq<string>, name: string, e: Endings)
    requires name in dbs && !IsRestoreTest(name) && IsDatabaseName(Postgres, name)
    requires e.load == Applied && !NoneFails(dump, e.fails, 0)
    ensures
      var r := Restoring(Login(Postgres, user), dbs, Some(dump), name, e);
      r.failure == None && !HoldsWholeDump(dbs, r.dbs, dump, name)
  {
    var login := Login(Postgres, user);
    RestoreConnectsIff(Postgres, user, name);
    ExecuteIs(dbs[name], dump, e.fails, 0, false);
    AcceptedIsAllIff(dump, e.fails, 0);
    assert dump[0..] == dump;
    LongerIff(dbs[name], Accepted(dump, e.fails, 0), dump);
  }

  // ---- Any number of restores ----

  datatype Request = Request(file: Option<seq<string>>, name: string, endings: Endings)

  function AfterAll(login: Login, dbs: Databases, requests: seq<Request>): Databases
    decreases |requests|
  {
    if requests == [] then dbs
    else
      var q := requests[0];
      AfterAll(login, Restoring(login, dbs, q.file, q.name, q.endings).dbs, requests[1..])
  }

  function Failures(login: Login, dbs: Databases, requests: seq<Request>): (failures: seq<Option<Failure>>)
    ensures |failures| == |requests|
    decreases |requests|
  {
    if requests == [] then []
    else
      var r := Restoring(login, dbs, requests[0].file, requests[0].name, requests[0].endings);
      [r.failure] + Failures(login, r.dbs, requests[1..])
  }

  /** The restores the controller asks for, one after the other. */
  method RestoreAll(server: Server, login: Login, requests: seq<Request>) returns (failures: seq<Option<Failure>>)
    requires login.product == server.product
    modifies server
    ensures server.dbs == AfterAll(login, old(server.dbs), requests)
    ensures failures == Failures(login, old(server.dbs), requests)
  {
    failures := [];
    var i := 0;
    assert requests[0..] == requests;
    while i < |requests|
      invariant i <= |requests|
      invariant AfterAll(login, old(server.dbs), requests) == AfterAll(login, server.dbs, requests[i..])
      invariant Failures(login, old(server.dbs), requests) == failures + Failures(login, server.dbs, requests[i..])
    {
      var q := requests[i];
      assert requests[i..][0] == q && requests[i..][1..] == requests[i + 1..];
      var failure := Restore(server, login, q.file, q.name, q.endings);
      failures := failures + [failure];
      i := i + 1;
    }
  }

  /** A request that may load something into `n`: a plain restore, or a test whose name is not taken as it is. */
  predicate Loads(login: Login, q: Request, n: string) {
    Target(login, q.name, q.endings) == n && (!IsRestoreTest(q.name) || q.name != n)
  }

  predicate SomeLoads(login: Login, requests: seq<Request>, n: string) {
    exists i :: 0 <= i < |requests| && Loads(login, requests[i], n)
  }

  predicate Tested(requests: seq<Request>, name: string) {
    exists i :: 0 <= i < |requests| && requests[i].name == name && IsRestoreTest(name)
  }

  lemma OneRequest(login: Login, dbs: Databases, q: Request)
    ensures
      var after := Restoring(login, dbs, q.file, q.name, q.endings).dbs;
      && (forall n :: n in dbs ==> n in after)
      && (forall n :: n in dbs && !Loads(login, q, n) ==> after[n] == dbs[n])
      && (forall n :: n in after && n !in dbs ==> n == q.name && IsRestoreTest(n))
  {
    if IsRestoreTest(q.name) {
      TestKeepsTheRest(login, dbs, q.file, q.name, q.endings);
    } else {
      PlainTouchesItsTarget(login, dbs, q.file, q.name, q.endings);
    }
  }

  /** Over any run of restores with any mix of endings, a database that exists stays, with its content,
      until a request loads into it - which no test with a proper database name does - and only scratch
      databases of tests in the run come to be. */
  lemma {:induction false} RunsOwnOnlyScratch(login: Login, dbs: Databases, requests: seq<Request>)
    ensures
      var after := AfterAll(login, dbs, requests);
      && (forall n :: n in dbs && !SomeLoads(login, requests, n) ==> n in after && after[n] == dbs[n])
      && (forall n :: n in dbs ==> n in after)
      && (forall n :: n in after && n !in dbs ==> Tested(requests, n))
    decreases |requests|
  {
    if requests == [] {
    } else {
      var q := requests[0];
      OneRequest(login, dbs, q);
      RunsOwnOnlyScratch(login, Restoring(login, dbs, q.file, q.name, q.endings).dbs, requests[1..]);
      LoadsOrTested(login, requests);
    }
  }

  lemma LoadsOrTested(login: Login, requests: seq<Request>)
    requires requests != []
    ensures forall n :: SomeLoads(login, requests[1..], n) || Loads(login, requests[0], n) ==>
        SomeLoads(login, requests, n)
    ensures forall n :: Tested(requests[1..], n) ==> Tested(requests, n)
    ensures IsRestoreTest(requests[0].name) ==> Tested(requests, requests[0].name)
  {
    forall n | SomeLoads(login, requests[1..], n)
      ensures SomeLoads(login, requests, n)
    {
      var i :| 0 <= i < |requests[1..]| && Loads(login, requests[1..][i], n);
      assert Loads(login, requests[i + 1], n);
    }
    forall n | Tested(requests[1..], n)
      ensures Tested(requests, n)
    {
      var i :| 0 <= i < |requests[1..]| && requests[1..][i].name == n;
      assert requests[i + 1].name == n;
    }
    assert requests[0].name == requests[0].name;
  }

  /** Tests with proper names load into nothing that existed. */
  lemma ProperTestsLoadNothing(login: Login, requests: seq<Request>, n: string)
    requires forall i :: 0 <= i < |requests| ==>
      IsRestoreTest(requests[i].name) && IsDatabaseName(login.product, requests[i].name)
    ensures !SomeLoads(login, requests, n)
  {
    forall i | 0 <= i < |requests|
      ensures !Loads(login, requests[i], n)
    {
      RestoreConnectsIff(login.product, login.user, requests[i].name);
    }
  }

  /** A scratch database that is there, for whatever reason, makes every later test of that name
      fail, and stays; with its content, unless something else is loaded into it. */
  lemma {:induction false} LeftoverBlocksTests(login: Login, dbs: Databases, requests: seq<Request>, name: string)
    requires name in dbs && IsRestoreTest(name)
    ensures name in AfterAll(login, dbs, requests)
    ensures !SomeLoads(login, requests, name) ==> AfterAll(login, dbs, requests)[name] == dbs[name]
    ensures forall i :: 0 <= i < |requests| && requests[i].name == name ==> Failures(login, dbs, requests)[i].Some?
    decreases |requests|
  {
    if requests == [] {
    } else {
      var q := requests[0];
      var r := Restoring(login, dbs, q.file, q.name, q.endings);
      OneRequest(login, dbs, q);
      LoadsOrTested(login, requests);
      LeftoverBlocksTests(login, r.dbs, requests[1..], name);
      assert Failures(login, dbs, requests) == [r.failure] + Failures(login, r.dbs, requests[1..]);
    }
  }
}
