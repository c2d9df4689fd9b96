/** The Informix plugin's Restore: scan, parse and insert inside one transaction. */
module InformixRestore {
  import opened Core
  import opened Utf8
  import opened Dump
  import opened Insert

  type Rows = seq<seq<Param>>
  type Tables = map<string, Rows>

  /** Calls to the agent, in the order they are made. */
  datatype Call = Dial | Connect | Begin | InsertRow | Commit | Rollback | Disconnect | Close

  /** How every call to the agent will end. */
  datatype Calls = Calls(
    dial: bool, connect: Write, begin: Write, insert: nat -> Write, commit: Write, rollback: Write, disconnect: Write)

  datatype Failure =
    | NotOpened | HeaderUnreadable | NoHeader | HeaderMalformed | HeaderIncomplete | BadTableName
    | NotConnected | NotBegun | RowMalformed | WrongWidth | NotInserted | ArtifactUnreadable | NotCommitted

  function At(insert: nat -> Write, k: nat): Write {
    insert(k)
  }

  function Appended(tables: Tables, table: string, rows: Rows): Tables {
    if table in tables then tables[table := tables[table] + rows] else tables
  }

  /** The server behind one agent process and its one session. Closing the session discards an
      open transaction. */
  class Agent {
    var tables: Tables
    var work: Tables
    var inTransaction: bool
    var log: seq<Call>

    method Note(call: Call)
      modifies this`log
      ensures log == old(log) + [call]
    {
      log := log + [call];
    }

    method Connect(w: Write) returns (ok: bool)
      modifies this`log, this`inTransaction
      ensures ok == w.Applied? && log == old(log) + [Call.Connect] && !inTransaction
    {
      Note(Call.Connect);
      inTransaction := false;
      ok := w == Applied;
    }

    method Begin(w: Write) returns (ok: bool)
      modifies this
      ensures ok == w.Applied? && log == old(log) + [Call.Begin] && tables == old(tables)
      ensures ok ==> inTransaction && work == tables
    {
      Note(Call.Begin);
      if w != Rejected {
        work := tables;
        inTransaction := true;
      }
      ok := w == Applied;
    }

    /** Outside a transaction an insert would be committed at once. */
    method Insert(sql: string, params: seq<Param>, w: Write) returns (ok: bool)
      modifies this
      ensures log == old(log) + [InsertRow] && inTransaction == old(inTransaction)
      ensures
        var stmt := ReadInsert(sql);
        var view := if inTransaction then old(work) else old(tables);
        var takes := stmt.Some? && stmt.value.1 == |params| && stmt.value.0 in view;
        var after := if takes && w != Rejected then Appended(view, stmt.value.0, [params]) else view;
        && (ok <==> takes && w == Applied)
        && (if inTransaction then work == after && tables == old(tables) else tables == after && work == old(work))
    {
      Note(InsertRow);
      var stmt := ReadInsert(sql);
      var view := if inTransaction then work else tables;
      ok := false;
      if stmt.Some? && stmt.value.1 == |params| && stmt.value.0 in view {
        if w != Rejected {
          if inTransaction {
            work := Appended(work, stmt.value.0, [params]);
          } else {
            tables := Appended(tables, stmt.value.0, [params]);
          }
        }
        ok := w == Applied;
      }
    }

    method Commit(w: Write) returns (ok: bool)
      requires inTransaction
      modifies this
      ensures ok == w.Applied? && log == old(log) + [Call.Commit]
      ensures tables == if w.Rejected? then old(tables) else old(work)
    {
      Note(Call.Commit);
      if w != Rejected {
        tables := work;
        inTransaction := false;
      }
      ok := w == Applied;
    }

    method Rollback(w: Write) returns (ok: bool)
      modifies this
      ensures ok == w.Applied? && log == old(log) + [Call.Rollback] && tables == old(tables)
    {
      Note(Call.Rollback);
      if w != Rejected {
        inTransaction := false;
      }
      ok := w == Applied;
    }

    method Disconnect(w: Write) returns (ok: bool)
      modifies this
      ensures ok == w.Applied? && log == old(log) + [Call.Disconnect] && tables == old(tables)
    {
      Note(Call.Disconnect);
      if w != Rejected {
        inTransaction := false;
      }
      ok := w == Applied;
    }

    method Close()
      modifies this
      ensures log == old(log) + [Call.Close] && tables == old(tables) && !inTransaction
    {
      Note(Call.Close);
      inTransaction := false;
    }
  }

  // ---- What an artifact holds ----

  /** The header and where the rows start, or why there is none. */
  function HeaderOf(reader: Reader, file: Option<seq<Byte>>, broken: bool): (Option<Failure>, Header, seq<Byte>) {
    var none := Header("", []);
    if file.None? then (Some(NotOpened), none, [])
    else
      match ScanLine(file.value)
      case End => (Some(if broken then HeaderUnreadable else NoHeader), none, [])
      case TooLong => (Some(HeaderUnreadable), none, [])
      case Line(text, rest) =>
        match HeaderBy(reader, text)
        case None => (Some(HeaderMalformed), none, [])
        case Some(h) =>
          if h.table == "" || h.columns == [] then (Some(HeaderIncomplete), none, [])
          else if !ValidTableName(h.table) then (Some(BadTableName), none, [])
          else (None, h, rest)
  }

  /** Each fault of the header under its own condition. */
  lemma HeaderFaultsAre(reader: Reader, file: Option<seq<Byte>>, broken: bool)
    ensures
      var fault := HeaderOf(reader, file, broken).0;
      var scanned := if file.Some? then ScanLine(file.value) else End;
      var header := if scanned.Line? then HeaderBy(reader, scanned.text) else None;
      var named := header.Some? && header.value.table != "" && header.value.columns != [];
      && (fault == Some(NotOpened) <==> file == None)
      && (fault == Some(HeaderUnreadable) <==> scanned == TooLong || (file.Some? && scanned == End && broken))
      && (fault == Some(NoHeader) <==> file.Some? && scanned == End && !broken)
      && (fault == Some(HeaderMalformed) <==> scanned.Line? && header == None)
      && (fault == Some(HeaderIncomplete) <==> header.Some? && !named)
      && (fault == Some(BadTableName) <==> named && !ValidTableName(header.value.table))
      && (fault == None ==> HeaderOf(reader, file, broken).1 == header.value
                            && HeaderOf(reader, file, broken).2 == scanned.rest)
  {
  }

  /** The whole artifact read without a fault: its table and the rows to insert. */
  function Artifact(reader: Reader, file: Option<seq<Byte>>, broken: bool): Option<(Header, Rows)> {
    var (failure, h, rest) := HeaderOf(reader, file, broken);
    if failure.Some? || broken || !Lines(rest).1 then None
    else
      match ParamRows(reader, Lines(rest).0, |h.columns|)
      case None => None
      case Some(rows) => Some((h, rows))
  }

  // ---- insertRows ----

  /** How inserting ended: the fault if any, the inserts attempted, and the tables as the session
      sees them after the inserts that were acknowledged. */
  datatype Inserting = Inserting(failure: Option<Failure>, attempts: nat, work: Tables)

  function RowFailure(row: Option<seq<DumpCell>>, columns: nat, inserts: bool): Option<Failure> {
    if row.None? then Some(RowMalformed)
    else if |row.value| != columns then Some(WrongWidth)
    else if !inserts then Some(NotInserted)
    else None
  }

  /** Inserting the rows of `lines`, with `k` rows inserted before and `work` the tables by then.
      `sound` says whether the scanner ends without an error. */
  function InsertAll(reader: Reader, lines: seq<seq<Byte>>, sound: bool, h: Header, insert: nat -> Write, k: nat,
                     work: Tables): (r: Inserting)
    ensures r.failure != Some(NotCommitted)
    decreases |lines|
  {
    if lines == [] then Inserting(if sound then None else Some(ArtifactUnreadable), k, work)
    else
      var row := RowBy(reader, lines[0]);
      var failure := RowFailure(row, |h.columns|, At(insert, k) == Applied && h.table in work);
      if failure.Some? then Inserting(failure, if failure.value.NotInserted? then k + 1 else k, work)
      else InsertAll(reader, lines[1..], sound, h, insert, k + 1, Appended(work, h.table, [CellsToParams(row.value)]))
  }

  function Inserts(reader: Reader, d: seq<Byte>, broken: bool, h: Header, insert: nat -> Write, k: nat,
                   work: Tables): Inserting {
    InsertAll(reader, Lines(d).0, Lines(d).1 && !broken, h, insert, k, work)
  }

  /** The next `n` inserts are acknowledged. */
  predicate Acknowledged(insert: nat -> Write, k: nat, n: nat)
    decreases n
  {
    n == 0 || (At(insert, k) == Applied && Acknowledged(insert, k + 1, n - 1))
  }

  lemma LinesStep(d: seq<Byte>)
    ensures
      match ScanLine(d)
      case Line(text, rest) =>
        var lines := Lines(d).0;
        lines != [] && lines[0] == text && lines[1..] == Lines(rest).0 && Lines(d).1 == Lines(rest).1
      case End => Lines(d) == ([], true)
      case TooLong => Lines(d) == ([], false)
  {
  }

  /** Inserting fails nowhere exactly when all is read, every row has the right width, every insert
      is acknowledged and the table exists if there is anything to insert. */
  lemma {:induction false} InsertAllSucceedsIff(reader: Reader, lines: seq<seq<Byte>>, sound: bool, h: Header,
                                                insert: nat -> Write, k: nat, work: Tables)
    ensures
      InsertAll(reader, lines, sound, h, insert, k, work).failure == None
      <==> && sound && ParamRows(reader, lines, |h.columns|).Some?
           && Acknowledged(insert, k, |lines|) && (lines != [] ==> h.table in work)
    decreases |lines|
  {
    if lines == [] {
    } else {
      var row := RowBy(reader, lines[0]);
      if row.Some? && |row.value| == |h.columns| && At(insert, k) == Applied && h.table in work {
        var next := Appended(work, h.table, [CellsToParams(row.value)]);
        InsertAllSucceedsIff(reader, lines[1..], sound, h, insert, k + 1, next);
      }
    }
  }

  /** The j-th line is a row of the right width and its insert is acknowledged. */
  predicate IsInserted(reader: Reader, lines: seq<seq<Byte>>, columns: nat, insert: nat -> Write, k: nat, j: nat)
    requires j < |lines|
  {
    var row := RowBy(reader, lines[j]);
    row.Some? && |row.value| == columns && At(insert, k + j) == Applied
  }

  /** The first faulty line decides: it is malformed, has another width, or its insert - the only one of these
      that is attempted - is not acknowledged; without one it is the scanner that may have failed. */
  lemma {:induction false} FirstFaultDecides(reader: Reader, lines: seq<seq<Byte>>, sound: bool, h: Header,
                                             insert: nat -> Write, k: nat, work: Tables, i: nat)
    requires i <= |lines| && h.table in work
    requires forall j :: 0 <= j < i ==> IsInserted(reader, lines, |h.columns|, insert, k, j)
    ensures
      var r := InsertAll(reader, lines, sound, h, insert, k, work);
      if i == |lines| then
        r.failure == (if sound then None else Some(ArtifactUnreadable)) && r.attempts == k + i
      else
        var row := RowBy(reader, lines[i]);
        && (row == None ==> r.failure == Some(RowMalformed) && r.attempts == k + i)
        && (row.Some? && |row.value| != |h.columns| ==> r.failure == Some(WrongWidth) && r.attempts == k + i)
        && (row.Some? && |row.value| == |h.columns| && At(insert, k + i) != Applied ==>
            r.failure == Some(NotInserted) && r.attempts == k + i + 1)
    decreases i
  {
    if i == 0 {
    } else {
      assert IsInserted(reader, lines, |h.columns|, insert, k, 0);
      var next := Appended(work, h.table, [CellsToParams(RowBy(reader, lines[0]).value)]);
      var later, k' := lines[1..], k + 1;
      forall j | 0 <= j < i - 1
        ensures IsInserted(reader, later, |h.columns|, insert, k', j)
      {
        assert IsInserted(reader, lines, |h.columns|, insert, k, j + 1);
      }
      FirstFaultDecides(reader, later, sound, h, insert, k', next, i - 1);
    }
  }

  /** Then all rows are appended to the one table, in order. */
  lemma {:induction false} InsertAllAppends(reader: Reader, lines: seq<seq<Byte>>, sound: bool, h: Header,
                                            insert: nat -> Write, k: nat, work: Tables)
    requires InsertAll(reader, lines, sound, h, insert, k, work).failure == None
    ensures
      var rows := ParamRows(reader, lines, |h.columns|);
      var r := InsertAll(reader, lines, sound, h, insert, k, work);
      rows.Some? && r.work == Appended(work, h.table, rows.value) && r.attempts == k + |lines|
    decreases |lines|
  {
    if lines == [] {
      AppendedNothing(work, h.table);
    } else {
      var params := CellsToParams(RowBy(reader, lines[0]).value);
      InsertAllAppends(reader, lines[1..], sound, h, insert, k + 1, Appended(work, h.table, [params]));
      AppendedTwice(work, h.table, [params], ParamRows(reader, lines[1..], |h.columns|).value);
    }
  }

  lemma AppendedNothing(tables: Tables, table: string)
    ensures Appended(tables, table, []) == tables
  {
    assert table in tables ==> tables[table] + [] == tables[table];
  }

  lemma AppendedTwice(tables: Tables, table: string, a: Rows, b: Rows)
    ensures Appended(Appended(tables, table, a), table, b) == Appended(tables, table, a + b)
  {
    if table in tables {
      assert tables[table] + a + b == tables[table] + (a + b);
    }
  }

  method Params(cells: seq<DumpCell>) returns (params: seq<Param>)
    ensures params == CellsToParams(cells)
  {
    params := [];
    var i := 0;
    assert cells[0..] == cells;
    while i < |cells|
      invariant i <= |cells|
      invariant CellsToParams(cells) == params + CellsToParams(cells[i..])
    {
      assert cells[i..][1..] == cells[i + 1..];
      params := params + [CellToParam(cells[i])];
      i := i + 1;
    }
  }

  /** One row: parse, check the width, insert. */
  method InsertNext(agent: Agent, reader: Reader, text: seq<Byte>, table: string, columns: nat, w: Write)
    returns (failure: Option<Failure>)
    requires agent.inTransaction && ValidTableName(table) && columns > 0
    modifies agent
    ensures agent.tables == old(agent.tables) && agent.inTransaction
    ensures failure == RowFailure(RowBy(reader, text), columns, w == Applied && table in old(agent.work))
    ensures agent.log == old(agent.log) + if failure in {None, Some(NotInserted)} then [InsertRow] else []
    ensures failure.None? ==> agent.work == Appended(old(agent.work), table, [CellsToParams(RowBy(reader, text).value)])
  {
    ReadBackInsert(table, columns);
    var row := RowBy(reader, text);
    if row.None? {
      return Some(RowMalformed);
    }
    if |row.value| != columns {
      return Some(WrongWidth);
    }
    var params := Params(row.value);
    var ok := agent.Insert(InsertSql(table, columns), params, w);
    return if ok then None else Some(NotInserted);
  }

  /** One turn of insertRows' loop, `k` rows after the first: done at the end or at a fault. */
  method InsertTurn(agent: Agent, reader: Reader, scanner: DumpScanner, h: Header, insert: nat -> Write, k: nat)
    returns (done: bool, failure: Option<Failure>)
    requires agent.inTransaction && ValidTableName(h.table) && h.columns != [] && !scanner.tooLong
    modifies agent, scanner
    ensures agent.tables == old(agent.tables) && agent.inTransaction
    ensures
      var r := Inserts(reader, old(scanner.rest), scanner.broken, h, insert, k, old(agent.work));
      if done then
        && failure == r.failure && k <= r.attempts <= k + 1
        && agent.log == old(agent.log) + (if r.attempts == k then [] else [InsertRow])
        && (failure.None? ==> agent.work == r.work)
      else
        && r == Inserts(reader, scanner.rest, scanner.broken, h, insert, k + 1, agent.work)
        && agent.log == old(agent.log) + [InsertRow] && !scanner.tooLong && |scanner.rest| < |old(scanner.rest)|
  {
    LinesStep(scanner.rest);
    var more := scanner.Scan();
    if !more {
      return true, if scanner.Err() then Some(ArtifactUnreadable) else None;
    }
    failure := InsertNext(agent, reader, scanner.text, h.table, |h.columns|, insert(k));
    done := failure.Some?;
  }

  method InsertRows(agent: Agent, reader: Reader, scanner: DumpScanner, h: Header, insert: nat -> Write)
    returns (failure: Option<Failure>)
    requires agent.inTransaction && ValidTableName(h.table) && h.columns != [] && !scanner.tooLong
    modifies agent, scanner
    ensures agent.tables == old(agent.tables) && agent.inTransaction
    ensures
      var r := Inserts(reader, old(scanner.rest), scanner.broken, h, insert, 0, old(agent.work));
      && failure == r.failure && agent.log == old(agent.log) + Times(InsertRow, r.attempts)
      && (failure.None? ==> agent.work == r.work)
  {
    ghost var spec := Inserts(reader, scanner.rest, scanner.broken, h, insert, 0, agent.work);
    var k := 0;
    while true
      invariant agent.tables == old(agent.tables) && agent.inTransaction && !scanner.tooLong
      invariant spec == Inserts(reader, scanner.rest, scanner.broken, h, insert, k, agent.work)
      invariant agent.log == old(agent.log) + Times(InsertRow, k)
      decreases |scanner.rest|
    {
      TimesNext(InsertRow, k);
      var done;
      done, failure := InsertTurn(agent, reader, scanner, h, insert, k);
      if done {
        return;
      }
      k := k + 1;
    }
  }

  lemma {:induction false} TimesNext(call: Call, n: nat)
    ensures Times(call, n) + [call] == Times(call, n + 1)
  {
    if n == 0 {
    } else {
      TimesNext(call, n - 1);
      assert Times(call, n) + [call] == [call] + (Times(call, n - 1) + [call]);
    }
  }

  // ---- Restore ----

  /** connect: a process whose connection fails is closed at once. */
  method ConnectAgent(agent: Agent, calls: Calls) returns (ok: bool)
    modifies agent
    ensures ok <==> calls.dial && calls.connect == Applied
    ensures agent.tables == old(agent.tables) && (calls.dial ==> !agent.inTransaction)
    ensures agent.log == old(agent.log)
                         + if ok then [Dial, Connect] else if calls.dial then [Dial, Connect, Close] else [Dial]
  {
    agent.Note(Dial);
    if !calls.dial {
      return false;
    }
    ok := agent.Connect(calls.connect);
    if !ok {
      agent.Close();
    }
  }

  /** What a restore comes to: its error, the tables it leaves, the calls it makes. */
  datatype Run = Run(failure: Option<Failure>, tables: Tables, made: seq<Call>)

  /** On an open connection: the part the deferred disconnect covers. */
  function RunConnected(reader: Reader, rest: seq<Byte>, broken: bool, h: Header, test: bool, calls: Calls,
                        tables: Tables): Run {
    if calls.begin != Applied then Run(Some(NotBegun), tables, [Begin])
    else Ending(Inserts(reader, rest, broken, h, calls.insert, 0, tables), test, calls.commit, tables)
  }

  /** Rollback after a fault and in a restore test, else commit. */
  function Ending(r: Inserting, test: bool, commit: Write, tables: Tables): Run {
    if r.failure.Some? || test then Run(r.failure, tables, [Begin] + Times(InsertRow, r.attempts) + [Rollback])
    else
      Run(if commit == Applied then None else Some(NotCommitted),
          if commit == Rejected then tables else r.work,
          [Begin] + Times(InsertRow, r.attempts) + [Commit])
  }

  function RunRestore(reader: Reader, file: Option<seq<Byte>>, broken: bool, test: bool, calls: Calls,
                      tables: Tables): Run {
    var (fault, h, rest) := HeaderOf(reader, file, broken);
    if fault.Some? then Run(fault, tables, [])
    else if !calls.dial then Run(Some(NotConnected), tables, [Dial])
    else if calls.connect != Applied then Run(Some(NotConnected), tables, [Dial, Connect, Close])
    else
      var run := RunConnected(reader, rest, broken, h, test, calls, tables);
      run.(made := [Dial, Connect] + run.made + [Disconnect, Close])
  }

  method RestoreConnected(agent: Agent, reader: Reader, scanner: DumpScanner, h: Header, test: bool, calls: Calls)
    returns (failure: Option<Failure>)
    requires !agent.inTransaction && ValidTableName(h.table) && h.columns != [] && !scanner.tooLong
    modifies agent, scanner
    ensures
      var run := RunConnected(reader, old(scanner.rest), scanner.broken, h, test, calls, old(agent.tables));
      failure == run.failure && agent.tables == run.tables && agent.log == old(agent.log) + run.made
  {
    var begun := agent.Begin(calls.begin);
    if !begun {
      return Some(NotBegun);
    }
    failure := InsertRows(agent, reader, scanner, h, calls.insert);
    if failure.Some? || test {
      var rolledBack := agent.Rollback(calls.rollback);
      return;
    }
    var committed := agent.Commit(calls.commit);
    failure := if committed then None else Some(NotCommitted);
  }

  method OpenHeader(reader: Reader, file: Option<seq<Byte>>, broken: bool)
    returns (failure: Option<Failure>, h: Header, scanner: DumpScanner)
    ensures fresh(scanner) && !scanner.tooLong && scanner.broken == broken
    ensures var spec := HeaderOf(reader, file, broken);
      failure == spec.0 && (failure.None? ==> h == spec.1 && scanner.rest == spec.2)
    ensures failure.None? ==> ValidTableName(h.table) && h.columns != []
  {
    h := Header("", []);
    scanner := new DumpScanner([], broken);
    if file.None? {
      return Some(NotOpened), h, scanner;
    }
    var reading := new DumpScanner(file.value, broken);
    var more := reading.Scan();
    if !more {
      return Some(if reading.Err() then HeaderUnreadable else NoHeader), h, scanner;
    }
    var parsed := HeaderBy(reader, reading.text);
    if parsed.None? {
      return Some(HeaderMalformed), h, scanner;
    }
    if parsed.value.table == "" || parsed.value.columns == [] {
      return Some(HeaderIncomplete), h, scanner;
    }
    if !ValidTableName(parsed.value.table) {
      return Some(BadTableName), h, scanner;
    }
    return None, parsed.value, reading;
  }

  lemma InOneLog(before: seq<Call>, a: seq<Call>, b: seq<Call>, c: seq<Call>, d: seq<Call>)
    ensures before + a + b + c + d == before + (a + b + (c + d))
  {
  }

  method Restore(agent: Agent, reader: Reader, file: Option<seq<Byte>>, broken: bool, resourceId: string, calls: Calls)
    returns (failure: Option<Failure>)
    modifies agent
    ensures
      var run := RunRestore(reader, file, broken, IsRestoreTest(resourceId), calls, old(agent.tables));
      failure == run.failure && agent.tables == run.tables && agent.log == old(agent.log) + run.made
    ensures HeaderOf(reader, file, broken).0 == None && calls.dial ==> !agent.inTransaction
  {
    var h, scanner;
    failure, h, scanner := OpenHeader(reader, file, broken);
    if failure.Some? {
      assert agent.log + [] == agent.log;
      return;
    }
    ghost var scannerRest := scanner.rest;
    var test := IsRestoreTest(resourceId);
    var connected := ConnectAgent(agent, calls);
    if !connected {
      return Some(NotConnected);
    }
    failure := RestoreConnected(agent, reader, scanner, h, test, calls);
    var disconnected := agent.Disconnect(calls.disconnect);
    agent.Close();
    ghost var inner := RunConnected(reader, scannerRest, broken, h, test, calls, old(agent.tables)).made;
    InOneLog(old(agent.log), [Dial, Connect], inner, [Call.Disconnect], [Call.Close]);
  }

  // ---- What holds of every restore ----

  lemma ArtifactRows(reader: Reader, file: Option<seq<Byte>>, broken: bool, calls: Calls, tables: Tables)
    requires HeaderOf(reader, file, broken).0 == None
    ensures
      var (_, h, rest) := HeaderOf(reader, file, broken);
      var artifact := Artifact(reader, file, broken);
      var r := Inserts(reader, rest, broken, h, calls.insert, 0, tables);
      && (r.failure == None <==> artifact.Some? && Insertable(artifact.value, calls, tables))
      && (r.failure == None ==> r.work == Appended(tables, h.table, artifact.value.1))
  {
    var (_, h, rest) := HeaderOf(reader, file, broken);
    InsertAllSucceedsIff(reader, Lines(rest).0, Lines(rest).1 && !broken, h, calls.insert, 0, tables);
    ParamRowsLength(reader, Lines(rest).0, |h.columns|);
    if Inserts(reader, rest, broken, h, calls.insert, 0, tables).failure == None {
      InsertAllAppends(reader, Lines(rest).0, Lines(rest).1 && !broken, h, calls.insert, 0, tables);
    }
  }

  lemma {:induction false} ParamRowsLength(reader: Reader, lines: seq<seq<Byte>>, columns: nat)
    ensures ParamRows(reader, lines, columns).Some? ==> |ParamRows(reader, lines, columns).value| == |lines|
  {
    if lines == [] {
    } else {
      ParamRowsLength(reader, lines[1..], columns);
    }
  }

  /** The server takes every row. */
  predicate Insertable(artifact: (Header, Rows), calls: Calls, tables: Tables) {
    Acknowledged(calls.insert, 0, |artifact.1|) && (artifact.1 != [] ==> artifact.0.table in tables)
  }

  /** All or nothing, wherever a restore fails: the committed tables are as before, or the whole
      artifact's rows were appended, in order, to its one table. A restore test changes nothing, and
      a restore that reports success did append the rows. */
  lemma RestoreIsAllOrNothing(reader: Reader, file: Option<seq<Byte>>, broken: bool, test: bool, calls: Calls,
                              tables: Tables)
    ensures
      var run := RunRestore(reader, file, broken, test, calls, tables);
      var artifact := Artifact(reader, file, broken);
      && (run.tables == tables
          || (!test && artifact.Some? && run.tables == Appended(tables, artifact.value.0.table, artifact.value.1)))
      && (test ==> run.tables == tables)
      && (run.failure == None && !test ==>
          artifact.Some? && run.tables == Appended(tables, artifact.value.0.table, artifact.value.1))
  {
    if HeaderOf(reader, file, broken).0 == None {
      ArtifactRows(reader, file, broken, calls, tables);
    }
  }

  /** A restore reports success exactly when the whole artifact is sound, the server takes every row
      and every call it depends on is acknowledged; rollback and disconnect do not matter. */
  lemma RestoreSucceedsIff(reader: Reader, file: Option<seq<Byte>>, broken: bool, test: bool, calls: Calls,
                           tables: Tables)
    ensures
      var artifact := Artifact(reader, file, broken);
      RunRestore(reader, file, broken, test, calls, tables).failure == None
      <==> && artifact.Some? && Insertable(artifact.value, calls, tables)
           && calls.dial && calls.connect == Applied && calls.begin == Applied
           && (test || calls.commit == Applied)
  {
    if HeaderOf(reader, file, broken).0 == None {
      ArtifactRows(reader, file, broken, calls, tables);
    }
  }

  /** A failed restore may still have gone through in one case only: a commit whose acknowledgement
      was lost. */
  lemma FailedRestoreChangesNothingIff(reader: Reader, file: Option<seq<Byte>>, broken: bool, calls: Calls,
                                       tables: Tables)
    requires RunRestore(reader, file, broken, false, calls, tables).failure.Some?
    ensures
      var run := RunRestore(reader, file, broken, false, calls, tables);
      var artifact := Artifact(reader, file, broken);
      run.tables == tables
      <==> || run.failure != Some(NotCommitted) || calls.commit != Unacknowledged
           || (artifact.Some? ==> artifact.value.1 == [])
  {
    if HeaderOf(reader, file, broken).0 == None {
      ArtifactRows(reader, file, broken, calls, tables);
      var artifact := Artifact(reader, file, broken);
      if artifact.Some? && Insertable(artifact.value, calls, tables) {
        AppendedSameIff(tables, artifact.value.0.table, artifact.value.1);
      }
    }
  }

  lemma AppendedSameIff(tables: Tables, table: string, rows: Rows)
    requires rows != [] ==> table in tables
    ensures Appended(tables, table, rows) == tables <==> rows == []
  {
    if table in tables {
      assert |tables[table] + rows| == |tables[table]| + |rows|;
      assert rows == [] ==> tables[table] + rows == tables[table];
    }
  }

  lemma {:induction false} TimesCount(call: Call, n: nat, other: Call)
    ensures multiset(Times(call, n))[other] == if other == call then n else 0
  {
    if n == 0 {
    } else {
      TimesCount(call, n - 1, other);
    }
  }

  lemma AroundInserts(n: nat, end: Call)
    requires end in {Commit, Rollback}
    ensures
      var made := [Begin] + Times(InsertRow, n) + [end];
      && made[0] == Begin && made[|made| - 1] == end
      && multiset(made)[Commit] + multiset(made)[Rollback] == 1
      && multiset(made)[Disconnect] == 0 && multiset(made)[Close] == 0
  {
    var made := [Begin] + Times(InsertRow, n) + [end];
    assert multiset(made) == multiset{Begin} + multiset(Times(InsertRow, n)) + multiset{end};
    TimesCount(InsertRow, n, Commit);
    TimesCount(InsertRow, n, Rollback);
    TimesCount(InsertRow, n, Disconnect);
    TimesCount(InsertRow, n, Close);
  }

  /** The calls of a connected part: begin first, then at most inserts, then one commit or rollback. */
  lemma ConnectedCalls(reader: Reader, rest: seq<Byte>, broken: bool, h: Header, test: bool, calls: Calls,
                       tables: Tables)
    ensures
      var made := RunConnected(reader, rest, broken, h, test, calls, tables).made;
      var ends := multiset(made)[Commit] + multiset(made)[Rollback];
      && made != [] && made[0] == Begin && ends == (if calls.begin == Applied then 1 else 0)
      && (ends == 1 ==> made[|made| - 1] in {Commit, Rollback})
      && (made[|made| - 1] == Commit ==> !test)
      && multiset(made)[Disconnect] == 0 && multiset(made)[Close] == 0
  {
    EndingCalls(Inserts(reader, rest, broken, h, calls.insert, 0, tables), test, calls.commit, tables);
  }

  lemma EndingCalls(r: Inserting, test: bool, commit: Write, tables: Tables)
    ensures
      var made := Ending(r, test, commit, tables).made;
      && made != [] && made[0] == Begin && multiset(made)[Commit] + multiset(made)[Rollback] == 1
      && made[|made| - 1] in {Commit, Rollback} && (made[|made| - 1] == Commit ==> !test)
      && multiset(made)[Disconnect] == 0 && multiset(made)[Close] == 0
  {
    AroundInserts(r.attempts, if r.failure.Some? || test then Rollback else Commit);
  }

  lemma AroundConnected(inner: seq<Call>)
    requires inner != []
    ensures
      var made := [Dial, Connect] + inner + [Disconnect, Close];
      && multiset(made) == multiset{Dial, Connect} + multiset(inner) + multiset{Disconnect, Close}
      && made[..3] == [Dial, Connect, inner[0]] && made[|made| - 2..] == [Disconnect, Close]
  {
  }

  /** Once the transaction has begun there is exactly one commit or rollback; once connected there
      is exactly one disconnect, followed by the close that ends the process, and after a failed
      connect only the close. */
  lemma RestoreCalls(reader: Reader, file: Option<seq<Byte>>, broken: bool, test: bool, calls: Calls, tables: Tables)
    ensures
      var made := RunRestore(reader, file, broken, test, calls, tables).made;
      var dialled := HeaderOf(reader, file, broken).0 == None && calls.dial;
      var connected := dialled && calls.connect == Applied;
      && multiset(made)[Commit] + multiset(made)[Rollback] == (if connected && calls.begin == Applied then 1 else 0)
      && multiset(made)[Disconnect] == (if connected then 1 else 0)
      && multiset(made)[Close] == (if dialled then 1 else 0)
      && (connected ==> made[..3] == [Dial, Connect, Begin] && made[|made| - 2..] == [Disconnect, Close])
      && (dialled && !connected ==> made == [Dial, Connect, Close])
  {
    var (fault, h, rest) := HeaderOf(reader, file, broken);
    if fault == None && calls.dial && calls.connect == Applied {
      ConnectedCalls(reader, rest, broken, h, test, calls, tables);
      AroundConnected(RunConnected(reader, rest, broken, h, test, calls, tables).made);
    }
  }

  // ---- From table to table ----

  /** What writeDump wrote is a sound artifact exactly when every record fits the scanner's buffer,
      every row has one cell a column, and the header names a valid table and some column. */
  lemma DumpIsArtifactIff(h: Header, rows: seq<seq<Cell>>)
    ensures
      Artifact(GO_READER, Some(DumpOf(h, rows)), false)
      == if Fits(h, rows) && Rectangular(rows, |h.columns|) && ValidTableName(h.table) && h.columns != []
         then Some((h, RestoredRows(rows))) else None
  {
    var file := DumpOf(h, rows);
    ScanRecord(HeaderJson(h), RowRecords(rows));
    ReadBackHeader(h);
    DumpReadsBack(h, rows);
    if ScanLine(file).Line? {
      assert Lines(file).0[1..] == Lines(RowRecords(rows)).0;
    }
  }

  /** Backup, then restore into a table of that name: success is reported, and the dump's rows are
      appended in order, exactly when nothing fails on the way. */
  lemma DumpThenRestore(h: Header, rows: seq<seq<Cell>>, calls: Calls, tables: Tables)
    requires Fits(h, rows) && Rectangular(rows, |h.columns|) && ValidTableName(h.table) && h.columns != []
    requires h.table in tables
    ensures
      var run := RunRestore(GO_READER, Some(DumpOf(h, rows)), false, false, calls, tables);
      && (run.failure == None <==>
          && calls.dial && calls.connect == Applied && calls.begin == Applied && calls.commit == Applied
          && Acknowledged(calls.insert, 0, |rows|))
      && (run.failure == None ==> run.tables == tables[h.table := tables[h.table] + RestoredRows(rows)])
  {
    DumpIsArtifactIff(h, rows);
    RestoreSucceedsIff(GO_READER, Some(DumpOf(h, rows)), false, false, calls, tables);
    RestoreIsAllOrNothing(GO_READER, Some(DumpOf(h, rows)), false, false, calls, tables);
  }

  /** No table's own name is taken for a restore test. */
  lemma TablesAreNotTests(table: string)
    requires ValidTableName(table)
    ensures !IsRestoreTest(table)
  {
    ValidNameHasNo(table, '-');
    if IsRestoreTest(table) {
      TestHasDash(table);
    }
  }

  lemma TestHasDash(resourceId: string)
    requires IsRestoreTest(resourceId)
    ensures '-' in resourceId
  {
    assert resourceId[|resourceId| - |RESTORE_TEST_SUFFIX|..][0] == resourceId[|resourceId| - |RESTORE_TEST_SUFFIX|];
  }
}
