/** ListEventsPage: the query and argument list it builds, read by a database that knows SQL, and the rows
    scanned back into events. */
module EventQuery {
  import opened Core
  import opened Decimal
  import opened Events
  import opened Rebind
  import opened Seal

  /** What a column holds; the payload of the fields column is left out. */
  datatype SqlValue = Str(s: string) | Num(n: int) | Type(kind: Kind) | Payload

  // ---- The query that is built ----

  /** The texts that are put together: the select, its conditions, the order and the limit. */
  datatype Wording = Wording(select: string, job: string, host: string, order: string, limit: string)

  const COLUMNS := "SELECT type, job_id, host, plugin, "
  const MORE_COLUMNS := "resource, fields, timestamp"
  const FROM_EVENTS := " FROM events WHERE 1=1"
  const TEXTS :=
    Wording(COLUMNS + MORE_COLUMNS + FROM_EVENTS, " AND job_id = ", " AND host = ", " ORDER BY timestamp DESC",
            " LIMIT ")

  function Optional(present: bool, text: string): string {
    if present then text + "?" else ""
  }

  function QueryOf(w: Wording, f: EventFilter): string {
    w.select + BodyOf(w, f)
  }

  /** The conditions, the order and the limit. */
  function BodyOf(w: Wording, f: EventFilter): string {
    Optional(f.jobId != "", w.job) + HostOf(w, f)
  }

  function HostOf(w: Wording, f: EventFilter): string {
    Optional(f.host != "", w.host) + TailOf(w, f)
  }

  function TailOf(w: Wording, f: EventFilter): string {
    w.order + Optional(f.limit > 0, w.limit)
  }

  function ArgsOf(f: EventFilter): seq<SqlValue> {
    (if f.jobId != "" then [Str(f.jobId)] else [])
    + (if f.host != "" then [Str(f.host)] else [])
    + (if f.limit > 0 then [Num(f.limit)] else [])
  }

  method Add(query: string, args: seq<SqlValue>, text: string, arg: SqlValue)
    returns (query': string, args': seq<SqlValue>)
    ensures query' == query + Optional(true, text) && args' == args + [arg]
  {
    query' := query + (text + "?");
    args' := args + [arg];
  }

  /** The query and its arguments grow side by side. */
  method BuildQuery(w: Wording, f: EventFilter) returns (query: string, args: seq<SqlValue>)
    ensures query == QueryOf(w, f) && args == ArgsOf(f)
  {
    query := w.select;
    args := [];
    NothingAdded(query, w.job);
    if f.jobId != "" {
      query, args := Add(query, args, w.job, Str(f.jobId));
    }
    NothingAdded(query, w.host);
    if f.host != "" {
      query, args := Add(query, args, w.host, Str(f.host));
    }
    query := query + w.order;
    NothingAdded(query, w.limit);
    if f.limit > 0 {
      query, args := Add(query, args, w.limit, Num(f.limit));
    }
    Regroup(w.select, Optional(f.jobId != "", w.job), Optional(f.host != "", w.host), w.order,
            Optional(f.limit > 0, w.limit));
  }

  lemma NothingAdded(query: string, text: string)
    ensures query + Optional(false, text) == query
  {
  }

  // ---- The database's reading: a select with AND-ed conditions, one order and a limit ----

  /** The words of the language, with the blanks around them. */
  datatype Words = Words(
    select: string, comma: string, from: string, where: string, and: string, eq: string, order: string, desc: string,
    asc: string, limit: string)

  const SQL :=
    Words("SELECT ", ", ", " FROM ", " WHERE 1=1", " AND ", " = ", " ORDER BY ", " DESC", " ASC", " LIMIT ")

  datatype Condition = Condition(column: string, value: SqlValue)

  datatype Plan = Plan(
    columns: seq<string>, table: string, conditions: seq<Condition>, order: string, descending: bool,
    limit: Option<SqlValue>)

  function Texts(s: string): (parts: seq<Part>)
    ensures |parts| == |s|
    ensures forall i :: 0 <= i < |s| ==> parts[i] == Text(s[i])
  {
    if s == [] then [] else [Text(s[0])] + Texts(s[1..])
  }

  /** What follows the text, if it comes first. */
  function Past(text: string, parts: seq<Part>): (rest: Option<seq<Part>>)
    ensures rest.Some? ==> |rest.value| == |parts| - |text|
  {
    if Texts(text) <= parts then Some(parts[|text|..]) else None
  }

  predicate StartsName(parts: seq<Part>) {
    parts != [] && parts[0].Text? && IsIdentStart(parts[0].c)
  }

  /** A name and what follows it. */
  function ReadName(parts: seq<Part>): (r: (string, seq<Part>))
    ensures |r.1| <= |parts|
  {
    if !StartsName(parts) then ("", parts)
    else
      var (name, rest) := ReadName(parts[1..]);
      ([parts[0].c] + name, rest)
  }

  function ArgAt(parts: seq<Part>, args: seq<SqlValue>): Option<SqlValue> {
    if parts != [] && parts[0].Arg? && 1 <= parts[0].n <= |args| then Some(args[parts[0].n - 1]) else None
  }

  /** Names with commas between them. */
  function ReadColumns(g: Words, parts: seq<Part>): (seq<string>, seq<Part>)
    requires g.comma != ""
    decreases |parts|
  {
    var (name, rest) := ReadName(parts);
    match Past(g.comma, rest)
    case None => ([name], rest)
    case Some(later) =>
      var (names, end) := ReadColumns(g, later);
      ([name] + names, end)
  }

  /** AND, a column, an equals sign and an argument. */
  function ReadCondition(g: Words, parts: seq<Part>, args: seq<SqlValue>): (r: Option<(Condition, seq<Part>)>)
    ensures r.Some? ==> |r.value.1| < |parts|
  {
    match Past(g.and, parts)
    case None => None
    case Some(named) =>
      var (column, rest) := ReadName(named);
      match Past(g.eq, rest)
      case None => None
      case Some(value) =>
        match ArgAt(value, args)
        case None => None
        case Some(arg) => Some((Condition(column, arg), value[1..]))
  }

  function ReadConditions(g: Words, parts: seq<Part>, args: seq<SqlValue>): (seq<Condition>, seq<Part>)
    decreases |parts|
  {
    match ReadCondition(g, parts, args)
    case None => ([], parts)
    case Some((c, rest)) =>
      var (more, end) := ReadConditions(g, rest, args);
      ([c] + more, end)
  }

  /** ORDER BY and a column; without DESC the order is ascending. */
  function ReadOrder(g: Words, parts: seq<Part>): Option<(string, bool, seq<Part>)> {
    match Past(g.order, parts)
    case None => None
    case Some(named) =>
      var (column, rest) := ReadName(named);
      match Past(g.desc, rest)
      case Some(end) => Some((column, true, end))
      case None =>
        match Past(g.asc, rest)
        case Some(end) => Some((column, false, end))
        case None => Some((column, false, rest))
  }

  /** LIMIT and an argument, or nothing, and the end. */
  function ReadLimit(g: Words, parts: seq<Part>, args: seq<SqlValue>): Option<Option<SqlValue>> {
    if parts == [] then Some(None)
    else
      match Past(g.limit, parts)
      case None => None
      case Some(value) => if |value| == 1 && ArgAt(value, args).Some? then Some(ArgAt(value, args)) else None
  }

  function ReadTail(g: Words, columns: seq<string>, table: string, conditions: seq<Condition>, parts: seq<Part>,
                    args: seq<SqlValue>): Option<Plan> {
    match ReadOrder(g, parts)
    case None => None
    case Some((column, descending, rest)) =>
      match ReadLimit(g, rest, args)
      case None => None
      case Some(limit) => Some(Plan(columns, table, conditions, column, descending, limit))
  }

  function ReadFrom(g: Words, columns: seq<string>, parts: seq<Part>, args: seq<SqlValue>): Option<Plan> {
    match Past(g.from, parts)
    case None => None
    case Some(named) =>
      var (table, rest) := ReadName(named);
      match Past(g.where, rest)
      case None => None
      case Some(later) =>
        var (conditions, tail) := ReadConditions(g, later, args);
        ReadTail(g, columns, table, conditions, tail, args)
  }

  function PlanOf(g: Words, parts: seq<Part>, args: seq<SqlValue>): Option<Plan>
    requires g.comma != ""
  {
    match Past(g.select, parts)
    case None => None
    case Some(named) =>
      var (columns, rest) := ReadColumns(g, named);
      ReadFrom(g, columns, rest, args)
  }

  // ---- What the plan selects ----

  /** A row of the events table, by column. */
  function Cell(row: StoredEvent, column: string): Option<SqlValue> {
    if column == "type" then Some(Type(row.event.kind))
    else if column == "job_id" then Some(Str(row.event.jobId))
    else if column == "host" then Some(Str(row.event.host))
    else if column == "plugin" then Some(Str(row.event.plugin))
    else if column == "resource" then Some(Str(row.event.resource))
    else if column == "fields" then Some(Payload)
    else if column == "timestamp" then Some(Num(row.at))
    else None
  }

  predicate Holds(conditions: seq<Condition>, row: StoredEvent) {
    forall i :: 0 <= i < |conditions| ==> Cell(row, conditions[i].column) == Some(conditions[i].value)
  }

  function Selected(p: Plan, rows: seq<StoredEvent>): seq<StoredEvent> {
    if rows == [] then []
    else (if Holds(p.conditions, rows[0]) then [rows[0]] else []) + Selected(p, rows[1..])
  }

  /** The order read, as far as it is by time; another column leaves the order open. */
  ghost predicate InOrder(p: Plan, rows: seq<StoredEvent>) {
    p.order == "timestamp" ==> forall i, j :: 0 <= i < j < |rows| ==>
      if p.descending then rows[i].at >= rows[j].at else rows[i].at <= rows[j].at
  }

  /** A limit clause on the rows; a negative limit is none. */
  function Cut(limit: Option<SqlValue>, full: seq<StoredEvent>): seq<StoredEvent> {
    if limit.Some? && limit.value.Num? && 0 <= limit.value.n < |full| then full[..limit.value.n] else full
  }

  /** rows.Scan into type, job ID, host, plugin, resource, fields and timestamp, by position. */
  function Scan(columns: seq<string>, row: StoredEvent): Option<StoredEvent> {
    if |columns| != 7 then None
    else
      match (Cell(row, columns[0]), Cell(row, columns[1]), Cell(row, columns[2]), Cell(row, columns[3]),
             Cell(row, columns[4]), Cell(row, columns[5]), Cell(row, columns[6]))
      case (Some(Type(kind)), Some(Str(jobId)), Some(Str(host)), Some(Str(plugin)), Some(Str(resource)), Some(Payload),
            Some(Num(at))) => Some(StoredEvent(Event(kind, jobId, host, plugin, resource), at))
      case _ => None
  }

  /** What the database may return for a plan, scanned. */
  ghost predicate IsAnswer(p: Plan, rows: seq<StoredEvent>, page: seq<StoredEvent>) {
    && p.table == "events"
    && exists full ::
        && multiset(full) == multiset(Selected(p, rows))
        && InOrder(p, full)
        && |page| == |Cut(p.limit, full)|
        && forall i :: 0 <= i < |page| ==> Scan(p.columns, Cut(p.limit, full)[i]) == Some(page[i])
  }

  // ---- The placeholders of the query ----

  /** SQLite's reading from outside of any quotes. */
  function Read(q: string, seen: nat): seq<Part> {
    ReadQuestion(q, Code, seen)
  }

  /** No placeholder, nothing that opens quotes or a comment, and no `$`. */
  predicate Plain(s: string) {
    forall i :: 0 <= i < |s| ==> s[i] !in {'?', '\'', '"', '-', '/', '$'}
  }

  /** A text that nothing before it can run into. */
  predicate Fresh(s: string) {
    s == "" || s[0] == ' '
  }

  predicate EndsInSpace(s: string) {
    s != "" && s[|s| - 1] == ' '
  }

  function EndMode(s: string, mode: Mode): Mode {
    if s == "" then mode
    else if IsIdentStart(s[|s| - 1]) || IsDigit(s[|s| - 1]) then Word else Code
  }

  lemma PlainStep(s: string, rest: string, mode: Mode)
    requires Plain(s) && s != "" && (mode.Code? || mode.Word?)
    ensures (s + rest)[1..] == s[1..] + rest && Plain(s[1..])
    ensures After(mode, s + rest) == EndMode(s[..1], mode) && EndMode(s[1..], EndMode(s[..1], mode)) == EndMode(s, mode)
    ensures !Misread(s + rest, mode)
  {
  }

  lemma {:induction false} ReadPlain(s: string, rest: string, mode: Mode, seen: nat)
    requires Plain(s) && (mode.Code? || mode.Word?)
    ensures ReadQuestion(s + rest, mode, seen) == Texts(s) + ReadQuestion(rest, EndMode(s, mode), seen)
    ensures Ambiguous(s + rest, mode) <==> Ambiguous(rest, EndMode(s, mode))
    decreases |s|
  {
    if s == [] {
      assert s + rest == rest;
    } else {
      PlainStep(s, rest, mode);
      ReadPlain(s[1..], rest, EndMode(s[..1], mode), seen);
      Append3([Text(s[0])], Texts(s[1..]), ReadQuestion(rest, EndMode(s, mode), seen));
    }
  }

  /** A text is read alike after a word and outside of one, if it cannot be run into. */
  lemma FreshAlike(rest: string, seen: nat)
    requires Fresh(rest)
    ensures ReadQuestion(rest, Word, seen) == Read(rest, seen)
    ensures Ambiguous(rest, Word) <==> Ambiguous(rest, Code)
  {
  }

  lemma ReadTexts(s: string, rest: string, seen: nat)
    requires Plain(s) && (Fresh(rest) || EndsInSpace(s))
    ensures Read(s + rest, seen) == Texts(s) + Read(rest, seen)
    ensures Ambiguous(s + rest, Code) <==> Ambiguous(rest, Code)
  {
    ReadPlain(s, rest, Code, seen);
    if Fresh(rest) {
      FreshAlike(rest, seen);
    }
  }

  lemma ReadMark(rest: string, seen: nat)
    ensures Read("?" + rest, seen) == [Arg(seen + 1)] + Read(rest, seen + 1)
    ensures Fresh(rest) ==> (Ambiguous("?" + rest, Code) <==> Ambiguous(rest, Code))
  {
    assert ("?" + rest)[1..] == rest;
  }

  predicate IsClause(text: string) {
    Plain(text) && EndsInSpace(text) && " " <= text
  }

  /** An optional clause as the database's lexer leaves it. */
  function Clause(present: bool, text: string, n: nat): seq<Part> {
    if present then Texts(text) + [Arg(n)] else []
  }

  function Count(b: bool): nat {
    if b then 1 else 0
  }

  lemma ReadOptional(present: bool, text: string, rest: string, seen: nat, parts: seq<Part>)
    requires IsClause(text) && Fresh(rest) && Read(rest, seen + Count(present)) == parts
    ensures Read(Optional(present, text) + rest, seen) == Clause(present, text, seen + 1) + parts
  {
    if present {
      assert Optional(present, text) + rest == text + ("?" + rest);
      ReadMark(rest, seen);
      ReadTexts(text, "?" + rest, seen);
      Append3(Texts(text), [Arg(seen + 1)], parts);
    } else {
      assert Optional(present, text) + rest == rest;
      assert [] + parts == parts;
    }
  }

  lemma OptionalIsFresh(present: bool, text: string, rest: string)
    requires " " <= text && Fresh(rest)
    ensures Fresh(Optional(present, text) + rest)
  {
    assert !present ==> Optional(present, text) + rest == rest;
  }

  lemma OptionalNotAmbiguous(present: bool, text: string, rest: string)
    requires IsClause(text) && Fresh(rest) && !Ambiguous(rest, Code)
    ensures !Ambiguous(Optional(present, text) + rest, Code)
  {
    if present {
      assert Optional(present, text) + rest == text + ("?" + rest);
      ReadMark(rest, 0);
      ReadTexts(text, "?" + rest, 0);
    } else {
      assert Optional(present, text) + rest == rest;
    }
  }

  /** The names in the query. */
  datatype Names = Names(columns: seq<string>, table: string, job: string, host: string, time: string)

  const EVENT_NAMES :=
    Names(["type", "job_id", "host", "plugin", "resource", "fields", "timestamp"], "events", "job_id", "host",
          "timestamp")

  predicate IsColumnName(name: string) {
    forall i :: 0 <= i < |name| ==> IsIdentStart(name[i])
  }

  /** Names as a list. */
  function Listed(comma: string, names: seq<string>): string {
    if names == [] then "" else if |names| == 1 then names[0] else names[0] + (comma + Listed(comma, names[1..]))
  }

  predicate EndsName(text: string) {
    text != "" && !IsIdentStart(text[0])
  }

  ghost predicate Apart(a: string, b: string) {
    exists i :: 0 <= i < |a| && i < |b| && a[i] != b[i]
  }

  /** Words that end names and are told apart. */
  ghost predicate Clear(g: Words) {
    && EndsName(g.comma) && EndsName(g.from) && EndsName(g.where) && EndsName(g.eq) && EndsName(g.desc)
    && EndsName(g.limit) && Apart(g.comma, g.from) && Apart(g.and, g.order)
  }

  /** The texts are sentences of the language about these names. */
  ghost predicate Speaks(w: Wording, g: Words, n: Names) {
    && IsPlainWording(w)
    && n.columns != [] && (forall i :: 0 <= i < |n.columns| ==> IsColumnName(n.columns[i]))
    && IsColumnName(n.table) && IsColumnName(n.job) && IsColumnName(n.host) && IsColumnName(n.time)
    && w.select == g.select + (Listed(g.comma, n.columns) + (g.from + (n.table + g.where)))
    && w.job == g.and + (n.job + g.eq) && w.host == g.and + (n.host + g.eq)
    && w.order == g.order + (n.time + g.desc) && w.limit == g.limit
  }

  /** The same behind the lexer, the k-th placeholder as the k-th argument. */
  function TailParts(w: Wording, f: EventFilter): seq<Part> {
    Texts(w.order) + Clause(f.limit > 0, w.limit, Count(f.jobId != "") + Count(f.host != "") + 1)
  }

  /** Both conditions in front of `tail`. */
  function BodyParts(w: Wording, f: EventFilter, tail: seq<Part>): seq<Part> {
    Clause(f.jobId != "", w.job, 1) + (Clause(f.host != "", w.host, Count(f.jobId != "") + 1) + tail)
  }

  /** All texts are plain, and nothing before them can run into them. */
  predicate IsPlainWording(w: Wording) {
    Plain(w.select) && Plain(w.order) && " " <= w.order && IsClause(w.job) && IsClause(w.host) && IsClause(w.limit)
  }

  lemma TailIsRead(w: Wording, f: EventFilter)
    requires IsPlainWording(w)
    ensures Read(TailOf(w, f), Count(f.jobId != "") + Count(f.host != "")) == TailParts(w, f) && Fresh(TailOf(w, f))
  {
    var seen := Count(f.jobId != "") + Count(f.host != "");
    var last := Optional(f.limit > 0, w.limit);
    ReadOptional(f.limit > 0, w.limit, "", seen, []);
    assert last + "" == last;
    assert Clause(f.limit > 0, w.limit, seen + 1) + [] == Clause(f.limit > 0, w.limit, seen + 1);
    OptionalIsFresh(f.limit > 0, w.limit, "");
    ReadTexts(w.order, last, seen);
  }

  lemma BodyIsRead(w: Wording, f: EventFilter, tail: string, parts: seq<Part>)
    requires IsClause(w.job) && IsClause(w.host)
    requires Fresh(tail) && Read(tail, Count(f.jobId != "") + Count(f.host != "")) == parts
    ensures
      var rest := Optional(f.host != "", w.host) + tail;
      Read(Optional(f.jobId != "", w.job) + rest, 0) == BodyParts(w, f, parts)
  {
    var jobs := Count(f.jobId != "");
    OptionalIsFresh(f.host != "", w.host, tail);
    ReadOptional(f.host != "", w.host, tail, jobs, parts);
    ReadOptional(f.jobId != "", w.job, Optional(f.host != "", w.host) + tail, 0,
                 Clause(f.host != "", w.host, jobs + 1) + parts);
  }

  /** The whole query behind the lexer. */
  lemma QueryIsRead(w: Wording, f: EventFilter)
    requires IsPlainWording(w)
    ensures Read(QueryOf(w, f), 0) == Texts(w.select) + BodyParts(w, f, TailParts(w, f))
  {
    TailIsRead(w, f);
    BodyIsRead(w, f, TailOf(w, f), TailParts(w, f));
    BodyNotAmbiguous(w, f);
    ReadTexts(w.select, BodyOf(w, f), 0);
  }

  lemma TailNotAmbiguous(w: Wording, f: EventFilter)
    requires IsPlainWording(w)
    ensures !Ambiguous(TailOf(w, f), Code) && Fresh(TailOf(w, f))
  {
    var last := Optional(f.limit > 0, w.limit);
    OptionalNotAmbiguous(f.limit > 0, w.limit, "");
    OptionalIsFresh(f.limit > 0, w.limit, "");
    assert last + "" == last;
    ReadTexts(w.order, last, 0);
  }

  lemma BodyNotAmbiguous(w: Wording, f: EventFilter)
    requires IsPlainWording(w)
    ensures !Ambiguous(BodyOf(w, f), Code) && Fresh(BodyOf(w, f))
  {
    TailNotAmbiguous(w, f);
    OptionalIsFresh(f.host != "", w.host, TailOf(w, f));
    OptionalNotAmbiguous(f.host != "", w.host, TailOf(w, f));
    OptionalIsFresh(f.jobId != "", w.job, HostOf(w, f));
    OptionalNotAmbiguous(f.jobId != "", w.job, HostOf(w, f));
  }

  /** Nothing in the query is misread once it is rebound, whichever filters are set. */
  lemma QueryIsNotAmbiguous(w: Wording, f: EventFilter)
    requires IsPlainWording(w)
    ensures !Ambiguous(QueryOf(w, f), Code)
  {
    BodyNotAmbiguous(w, f);
    ReadTexts(w.select, BodyOf(w, f), 0);
  }

  // ---- The plan that is read ----

  lemma {:induction false} NameIsRead(name: string, rest: seq<Part>)
    requires IsColumnName(name) && !StartsName(rest)
    ensures ReadName(Texts(name) + rest) == (name, rest)
    decreases |name|
  {
    if name == [] {
      assert Texts(name) + rest == rest;
    } else {
      var parts := Texts(name) + rest;
      assert parts[1..] == Texts(name[1..]) + rest && parts[0] == Text(name[0]);
      NameIsRead(name[1..], rest);
      assert [name[0]] + name[1..] == name;
    }
  }

  lemma PastIt(text: string, rest: seq<Part>)
    ensures Past(text, Texts(text) + rest) == Some(rest)
  {
  }

  lemma NotPast(text: string, other: string, rest: seq<Part>)
    requires Apart(text, other)
    ensures Past(text, Texts(other) + rest) == None
  {
    var i :| 0 <= i < |text| && i < |other| && text[i] != other[i];
    assert (Texts(other) + rest)[i] == Text(other[i]) && Texts(text)[i] == Text(text[i]);
  }

  lemma NoName(text: string, rest: seq<Part>)
    requires EndsName(text)
    ensures !StartsName(Texts(text) + rest)
  {
    assert (Texts(text) + rest)[0] == Text(text[0]);
  }

  lemma TextsAppend(a: string, b: string, c: string, rest: seq<Part>)
    ensures Texts(a + (b + c)) + rest == Texts(a) + (Texts(b) + (Texts(c) + rest))
  {
    TwoTexts(a, b + c);
    TwoTexts(b, c);
    Append3(Texts(a), Texts(b) + Texts(c), rest);
    Append3(Texts(b), Texts(c), rest);
  }

  lemma TwoTexts(a: string, b: string)
    ensures Texts(a + b) == Texts(a) + Texts(b)
  {
  }

  /** AND column = argument, in front of anything. */
  lemma ConditionIsRead(g: Words, column: string, n: nat, rest: seq<Part>, args: seq<SqlValue>)
    requires EndsName(g.eq) && IsColumnName(column) && 1 <= n <= |args|
    ensures ReadCondition(g, Clause(true, g.and + (column + g.eq), n) + rest, args)
         == Some((Condition(column, args[n - 1]), rest))
  {
    var value := [Arg(n)] + rest;
    Append3(Texts(g.and + (column + g.eq)), [Arg(n)], rest);
    TextsAppend(g.and, column, g.eq, value);
    PastIt(g.and, Texts(column) + (Texts(g.eq) + value));
    NoName(g.eq, value);
    NameIsRead(column, Texts(g.eq) + value);
    PastIt(g.eq, value);
    assert value[1..] == rest;
  }

  lemma OrderIsNoCondition(g: Words, n: Names, w: Wording, f: EventFilter, args: seq<SqlValue>)
    requires Apart(g.and, g.order) && w.order == g.order + (n.time + g.desc)
    ensures ReadConditions(g, TailParts(w, f), args) == ([], TailParts(w, f))
  {
    var rest := Clause(f.limit > 0, w.limit, Count(f.jobId != "") + Count(f.host != "") + 1);
    TextsAppend(g.order, n.time, g.desc, rest);
    NotPast(g.and, g.order, Texts(n.time) + (Texts(g.desc) + rest));
  }

  /** One argument a filter that is set, in this order. */
  predicate Fits(args: seq<SqlValue>, f: EventFilter) {
    var jobs := Count(f.jobId != "");
    var hosts := jobs + Count(f.host != "");
    && |args| == hosts + Count(f.limit > 0)
    && (f.jobId != "" ==> args[0] == Str(f.jobId))
    && (f.host != "" ==> args[jobs] == Str(f.host))
    && (f.limit > 0 ==> args[hosts] == Num(f.limit))
  }

  lemma ArgsFit(f: EventFilter)
    ensures Fits(ArgsOf(f), f)
  {
  }

  function OneCondition(column: string, value: string): seq<Condition> {
    if value != "" then [Condition(column, Str(value))] else []
  }

  /** One optional condition, in front of conditions that are read. */
  lemma OptionalIsRead(g: Words, text: string, column: string, value: string, n: nat, rest: seq<Part>,
                       args: seq<SqlValue>, conditions: seq<Condition>, tail: seq<Part>)
    requires EndsName(g.eq) && IsColumnName(column) && text == g.and + (column + g.eq)
    requires value != "" ==> 1 <= n <= |args| && args[n - 1] == Str(value)
    requires ReadConditions(g, rest, args) == (conditions, tail)
    ensures ReadConditions(g, Clause(value != "", text, n) + rest, args)
         == (OneCondition(column, value) + conditions, tail)
  {
    if value != "" {
      ConditionIsRead(g, column, n, rest, args);
    } else {
      assert [] + rest == rest && [] + conditions == conditions;
    }
  }

  lemma ConditionsAreRead(w: Wording, g: Words, n: Names, f: EventFilter, args: seq<SqlValue>, tail: seq<Part>)
    requires EndsName(g.eq) && IsColumnName(n.job) && IsColumnName(n.host)
    requires w.job == g.and + (n.job + g.eq) && w.host == g.and + (n.host + g.eq) && Fits(args, f)
    requires ReadConditions(g, tail, args) == ([], tail)
    ensures ReadConditions(g, BodyParts(w, f, tail), args)
         == (OneCondition(n.job, f.jobId) + OneCondition(n.host, f.host), tail)
  {
    var later := Clause(f.host != "", w.host, Count(f.jobId != "") + 1) + tail;
    var conditions := OneCondition(n.host, f.host);
    NothingMore(conditions);
    OptionalIsRead(g, w.host, n.host, f.host, Count(f.jobId != "") + 1, tail, args, [], tail);
    OptionalIsRead(g, w.job, n.job, f.jobId, 1, later, args, conditions, tail);
  }

  lemma NothingMore(conditions: seq<Condition>)
    ensures conditions + [] == conditions
  {
  }

  lemma OrderIsRead(w: Wording, g: Words, n: Names, f: EventFilter)
    requires EndsName(g.desc) && IsColumnName(n.time) && w.order == g.order + (n.time + g.desc)
    ensures
      var rest := Clause(f.limit > 0, w.limit, Count(f.jobId != "") + Count(f.host != "") + 1);
      ReadOrder(g, TailParts(w, f)) == Some((n.time, true, rest))
  {
    var rest := Clause(f.limit > 0, w.limit, Count(f.jobId != "") + Count(f.host != "") + 1);
    TextsAppend(g.order, n.time, g.desc, rest);
    PastIt(g.order, Texts(n.time) + (Texts(g.desc) + rest));
    NoName(g.desc, rest);
    NameIsRead(n.time, Texts(g.desc) + rest);
    PastIt(g.desc, rest);
  }

  function LimitOf(f: EventFilter): Option<SqlValue> {
    if f.limit > 0 then Some(Num(f.limit)) else None
  }

  lemma LimitIsRead(g: Words, f: EventFilter, args: seq<SqlValue>)
    requires Fits(args, f)
    ensures
      var parts := Clause(f.limit > 0, g.limit, Count(f.jobId != "") + Count(f.host != "") + 1);
      ReadLimit(g, parts, args) == Some(LimitOf(f))
  {
    if f.limit > 0 {
      PastIt(g.limit, [Arg(Count(f.jobId != "") + Count(f.host != "") + 1)]);
    }
  }

  lemma TailMeans(w: Wording, g: Words, n: Names, f: EventFilter, args: seq<SqlValue>, conditions: seq<Condition>)
    requires EndsName(g.desc) && IsColumnName(n.time) && w.order == g.order + (n.time + g.desc)
    requires w.limit == g.limit && Fits(args, f)
    ensures ReadTail(g, n.columns, n.table, conditions, TailParts(w, f), args)
         == Some(Plan(n.columns, n.table, conditions, n.time, true, LimitOf(f)))
  {
    LimitIsRead(g, f, args);
    OrderIsRead(w, g, n, f);
  }

  lemma {:induction false} ColumnsAreRead(g: Words, names: seq<string>, rest: seq<Part>)
    requires names != [] && forall i :: 0 <= i < |names| ==> IsColumnName(names[i])
    requires EndsName(g.comma) && !StartsName(rest) && Past(g.comma, rest) == None
    ensures ReadColumns(g, Texts(Listed(g.comma, names)) + rest) == (names, rest)
    decreases |names|
  {
    if |names| == 1 {
      NameIsRead(names[0], rest);
      assert names == [names[0]];
    } else {
      var later := Texts(Listed(g.comma, names[1..])) + rest;
      TextsAppend(names[0], g.comma, Listed(g.comma, names[1..]), rest);
      NoName(g.comma, later);
      NameIsRead(names[0], Texts(g.comma) + later);
      PastIt(g.comma, later);
      ColumnsAreRead(g, names[1..], rest);
      assert [names[0]] + names[1..] == names;
    }
  }

  lemma FromIsRead(w: Wording, g: Words, n: Names, f: EventFilter, args: seq<SqlValue>, tail: seq<Part>)
    requires Clear(g) && Speaks(w, g, n) && Fits(args, f)
    requires ReadConditions(g, tail, args) == ([], tail)
    ensures
      var conditions := OneCondition(n.job, f.jobId) + OneCondition(n.host, f.host);
      ReadFrom(g, n.columns, Texts(g.from) + (Texts(n.table) + (Texts(g.where) + BodyParts(w, f, tail))), args)
      == ReadTail(g, n.columns, n.table, conditions, tail, args)
  {
    var rest := BodyParts(w, f, tail);
    PastIt(g.from, Texts(n.table) + (Texts(g.where) + rest));
    NoName(g.where, rest);
    NameIsRead(n.table, Texts(g.where) + rest);
    PastIt(g.where, rest);
    ConditionsAreRead(w, g, n, f, args, tail);
  }

  lemma SelectIsRead(w: Wording, g: Words, n: Names, f: EventFilter, args: seq<SqlValue>, tail: seq<Part>)
    requires Clear(g) && Speaks(w, g, n) && Fits(args, f)
    requires ReadConditions(g, tail, args) == ([], tail)
    ensures
      var conditions := OneCondition(n.job, f.jobId) + OneCondition(n.host, f.host);
      PlanOf(g, Texts(w.select) + BodyParts(w, f, tail), args)
      == ReadTail(g, n.columns, n.table, conditions, tail, args)
  {
    var rest := BodyParts(w, f, tail);
    var from := Texts(g.from) + (Texts(n.table) + (Texts(g.where) + rest));
    TextsAppend(g.select, Listed(g.comma, n.columns), g.from + (n.table + g.where), rest);
    TextsAppend(g.from, n.table, g.where, rest);
    PastIt(g.select, Texts(Listed(g.comma, n.columns)) + from);
    NoName(g.from, Texts(n.table) + (Texts(g.where) + rest));
    NotPast(g.comma, g.from, Texts(n.table) + (Texts(g.where) + rest));
    ColumnsAreRead(g, n.columns, from);
    FromIsRead(w, g, n, f, args, tail);
  }

  /** Whatever the names: the plan has them where the texts have them, and each argument in its own
      column's condition. */
  lemma QueryMeans(w: Wording, g: Words, n: Names, f: EventFilter, args: seq<SqlValue>)
    requires Clear(g) && Speaks(w, g, n) && Fits(args, f)
    ensures
      var conditions := OneCondition(n.job, f.jobId) + OneCondition(n.host, f.host);
      PlanOf(g, Read(QueryOf(w, f), 0), args)
      == Some(Plan(n.columns, n.table, conditions, n.time, true, LimitOf(f)))
  {
    QueryIsRead(w, f);
    OrderIsNoCondition(g, n, w, f, args);
    SelectIsRead(w, g, n, f, args, TailParts(w, f));
    TailMeans(w, g, n, f, args, OneCondition(n.job, f.jobId) + OneCondition(n.host, f.host));
  }

  // ---- These texts, these names, this language ----

  lemma SqlIsClear()
    ensures Clear(SQL)
  {
    assert SQL.comma[0] != SQL.from[0] && SQL.and[1] != SQL.order[1];
  }

  lemma ListedNext(comma: string, name: string, names: seq<string>)
    requires names != []
    ensures Listed(comma, [name] + names) == name + (comma + Listed(comma, names))
  {
    assert ([name] + names)[1..] == names;
  }

  /** One more column in front of those that `text` starts with. */
  lemma OneMore(comma: string, name: string, names: seq<string>, text: string, rest: string, whole: string)
    requires names != [] && Listed(comma, names) == text + rest && whole == name + (comma + text)
    ensures Listed(comma, [name] + names) == whole + rest
  {
    ListedNext(comma, name, names);
    assert name + (comma + (text + rest)) == (name + (comma + text)) + rest;
  }

  lemma HostAndPlugin(names: seq<string>)
    requires names != []
    ensures Listed(", ", ["host"] + (["plugin"] + names)) == "host, plugin, " + Listed(", ", names)
  {
    var rest := Listed(", ", names);
    assert "" + rest == rest;
    OneMore(", ", "plugin", names, "", rest, "plugin, ");
    OneMore(", ", "host", ["plugin"] + names, "plugin, ", rest, "host, plugin, ");
  }

  lemma JobToPlugin(names: seq<string>)
    requires names != []
    ensures Listed(", ", ["job_id"] + (["host"] + (["plugin"] + names)))
         == "job_id, host, plugin, " + Listed(", ", names)
  {
    HostAndPlugin(names);
    assert "job_id" + (", " + "host, plugin, ") == "job_id, host, plugin, ";
    OneMore(", ", "job_id", ["host"] + (["plugin"] + names), "host, plugin, ", Listed(", ", names),
            "job_id, host, plugin, ");
  }

  lemma FirstColumns(names: seq<string>)
    requires names != []
    ensures Listed(", ", ["type"] + (["job_id"] + (["host"] + (["plugin"] + names))))
         == "type, job_id, host, plugin, " + Listed(", ", names)
  {
    JobToPlugin(names);
    assert "type" + (", " + "job_id, host, plugin, ") == "type, job_id, host, plugin, ";
    OneMore(", ", "type", ["job_id"] + (["host"] + (["plugin"] + names)), "job_id, host, plugin, ",
            Listed(", ", names), "type, job_id, host, plugin, ");
  }

  lemma LastColumns()
    ensures Listed(", ", ["resource", "fields", "timestamp"]) == "resource, fields, timestamp"
  {
    ListedNext(", ", "fields", ["timestamp"]);
    ListedNext(", ", "resource", ["fields"] + ["timestamp"]);
    assert ["resource"] + (["fields"] + ["timestamp"]) == ["resource", "fields", "timestamp"];
    assert "fields" + (", " + "timestamp") == "fields, timestamp";
    assert "resource" + (", " + "fields, timestamp") == "resource, fields, timestamp";
  }

  lemma PlainAppend(a: string, b: string)
    requires Plain(a) && Plain(b)
    ensures Plain(a + b)
  {
  }

  lemma SelectIsPlain()
    ensures Plain(COLUMNS) && Plain(MORE_COLUMNS) && Plain(FROM_EVENTS)
  {
    ColumnsArePlain();
    MoreColumnsArePlain();
  }

  lemma ColumnsArePlain()
    ensures Plain(COLUMNS)
  {
  }

  lemma MoreColumnsArePlain()
    ensures Plain(MORE_COLUMNS)
  {
  }

  lemma NamesAreNames()
    ensures IsColumnName("events") && IsColumnName("job_id") && IsColumnName("host") && IsColumnName("timestamp")
    ensures IsColumnName("type") && IsColumnName("plugin") && IsColumnName("resource") && IsColumnName("fields")
  {
  }

  lemma SelectPieces()
    ensures COLUMNS == "SELECT " + "type, job_id, host, plugin, "
    ensures FROM_EVENTS == " FROM " + ("events" + " WHERE 1=1")
  {
    FromPieces();
  }

  lemma FromPieces()
    ensures FROM_EVENTS == " FROM " + ("events" + " WHERE 1=1")
  {
  }

  lemma ColumnsText()
    ensures Listed(", ", EVENT_NAMES.columns) == "type, job_id, host, plugin, " + MORE_COLUMNS
  {
    var last := ["resource", "fields", "timestamp"];
    FirstColumns(last);
    LastColumns();
    assert EVENT_NAMES.columns == ["type"] + (["job_id"] + (["host"] + (["plugin"] + last)));
  }

  lemma SelectText()
    ensures TEXTS.select == SQL.select + (Listed(SQL.comma, EVENT_NAMES.columns) + (SQL.from + ("events" + SQL.where)))
  {
    SelectPieces();
    ColumnsText();
    FourPieces("SELECT ", "type, job_id, host, plugin, ", MORE_COLUMNS, FROM_EVENTS);
  }

  lemma FourPieces(a: string, b: string, c: string, d: string)
    ensures a + b + c + d == a + ((b + c) + d)
  {
  }

  lemma TextsSpeak()
    ensures Speaks(TEXTS, SQL, EVENT_NAMES)
  {
    TextsAreClauses();
    NamesAreNames();
    SelectText();
    SelectIsPlain();
    PlainAppend(COLUMNS, MORE_COLUMNS);
    PlainAppend(COLUMNS + MORE_COLUMNS, FROM_EVENTS);
    ConditionTexts();
  }

  lemma TextsAreClauses()
    ensures IsClause(TEXTS.job) && IsClause(TEXTS.host) && IsClause(TEXTS.limit)
    ensures Plain(TEXTS.order) && " " <= TEXTS.order
  {
    JobIsClause();
    HostIsClause();
    LimitIsClause();
    OrderIsPlain();
  }

  lemma JobIsClause()
    ensures IsClause(TEXTS.job)
  {
  }

  lemma HostIsClause()
    ensures IsClause(TEXTS.host)
  {
  }

  lemma LimitIsClause()
    ensures IsClause(TEXTS.limit)
  {
  }

  lemma OrderIsPlain()
    ensures Plain(TEXTS.order) && " " <= TEXTS.order
  {
  }

  lemma ConditionTexts()
    ensures TEXTS.job == SQL.and + ("job_id" + SQL.eq) && TEXTS.host == SQL.and + ("host" + SQL.eq)
    ensures TEXTS.order == SQL.order + ("timestamp" + SQL.desc)
  {
  }

  // ---- The query that is sent ----

  function PlanFor(f: EventFilter): Plan {
    Plan(["type", "job_id", "host", "plugin", "resource", "fields", "timestamp"], "events",
         (if f.jobId != "" then [Condition("job_id", Str(f.jobId))] else [])
         + (if f.host != "" then [Condition("host", Str(f.host))] else []),
         "timestamp", true, if f.limit > 0 then Some(Num(f.limit)) else None)
  }

  /** What the database's lexer makes of the query that is sent. */
  function Sent(f: EventFilter, postgres: bool): seq<Part> {
    if postgres then ReadDollar(Rebound(QueryOf(TEXTS, f), 0), Code) else ReadQuestion(QueryOf(TEXTS, f), Code, 0)
  }

  lemma SentMeansPlan(f: EventFilter, postgres: bool)
    ensures PlanOf(SQL, Sent(f, postgres), ArgsOf(f)) == Some(PlanFor(f))
  {
    TextsSpeak();
    SqlIsClear();
    ArgsFit(f);
    QueryMeans(TEXTS, SQL, EVENT_NAMES, f, ArgsOf(f));
    QueryIsNotAmbiguous(TEXTS, f);
    RebindPreservesMeaningIff(QueryOf(TEXTS, f), Code, 0);
  }

  /** On either database the query selects these columns of the events table, with the job's ID and the host
      in the conditions of their own columns, newest first, up to the limit, whichever filters are set. */
  lemma QueryBindsItsArguments(f: EventFilter, postgres: bool)
    ensures
      var columns := ["type", "job_id", "host", "plugin", "resource", "fields", "timestamp"];
      var ofJob := if f.jobId != "" then [Condition("job_id", Str(f.jobId))] else [];
      var ofHost := if f.host != "" then [Condition("host", Str(f.host))] else [];
      var limit := if f.limit > 0 then Some(Num(f.limit)) else None;
      PlanOf(SQL, Sent(f, postgres), ArgsOf(f))
      == Some(Plan(columns, "events", ofJob + ofHost, "timestamp", true, limit))
  {
    SentMeansPlan(f, postgres);
  }

  lemma HoldsIff(f: EventFilter, row: StoredEvent)
    ensures Holds(PlanFor(f).conditions, row) <==> Matches(f, row.event)
  {
    var conditions := PlanFor(f).conditions;
    assert f.jobId != "" ==> conditions[0] == Condition("job_id", Str(f.jobId));
    assert f.host != "" ==> conditions[Count(f.jobId != "")] == Condition("host", Str(f.host));
  }

  lemma {:induction false} SelectedIsFiltered(f: EventFilter, rows: seq<StoredEvent>)
    ensures Selected(PlanFor(f), rows) == Filtered(f, rows)
  {
    if rows == [] {
    } else {
      HoldsIff(f, rows[0]);
      SelectedIsFiltered(f, rows[1..]);
    }
  }

  /** Every field is scanned from its own column. */
  lemma RowIsScanned(f: EventFilter, row: StoredEvent)
    ensures Scan(PlanFor(f).columns, row) == Some(row)
  {
  }

  /** What the database may answer to the query, on either store, is exactly a page of the filter:
      the newest of the matching events up to the limit. */
  lemma AnswersArePages(f: EventFilter, postgres: bool, rows: seq<StoredEvent>, page: seq<StoredEvent>)
    ensures
      var plan := PlanOf(SQL, Sent(f, postgres), ArgsOf(f));
      && plan.Some?
      && (IsAnswer(plan.value, rows, page)
          <==> exists full: seq<StoredEvent> ::
              && multiset(full) == multiset(Filtered(f, rows))
              && (forall i, j :: 0 <= i < j < |full| ==> full[i].at >= full[j].at)
              && page == if 0 < f.limit < |full| then full[..f.limit] else full)
  {
    SentMeansPlan(f, postgres);
    AnswerOfPlan(f, PlanOf(SQL, Sent(f, postgres), ArgsOf(f)).value, rows, page);
  }

  lemma AnswerOfPlan(f: EventFilter, p: Plan, rows: seq<StoredEvent>, page: seq<StoredEvent>)
    requires p == PlanFor(f)
    ensures IsAnswer(p, rows, page)
       <==> exists full: seq<StoredEvent> ::
           && multiset(full) == multiset(Filtered(f, rows))
           && (forall i, j :: 0 <= i < j < |full| ==> full[i].at >= full[j].at)
           && page == if 0 < f.limit < |full| then full[..f.limit] else full
  {
    AnswerIffPage(f, rows, page);
  }

  /** A positive limit cuts, no limit does not. */
  lemma CutAtLimit(f: EventFilter, full: seq<StoredEvent>)
    ensures Cut(PlanFor(f).limit, full) == if 0 < f.limit < |full| then full[..f.limit] else full
  {
  }

  /** The rows of an answer are its events. */
  lemma ScannedAll(f: EventFilter, cut: seq<StoredEvent>, page: seq<StoredEvent>)
    ensures page == cut
       <==> |page| == |cut| && forall i :: 0 <= i < |page| ==> Scan(PlanFor(f).columns, cut[i]) == Some(page[i])
  {
    forall i | 0 <= i < |cut|
      ensures Scan(PlanFor(f).columns, cut[i]) == Some(cut[i])
    {
      RowIsScanned(f, cut[i]);
    }
  }

  lemma PageIsAnswer(f: EventFilter, rows: seq<StoredEvent>, page: seq<StoredEvent>)
    requires Selected(PlanFor(f), rows) == Filtered(f, rows) && IsPage(f, rows, page)
    ensures IsAnswer(PlanFor(f), rows, page)
  {
    var full :| multiset(full) == multiset(Filtered(f, rows)) && NewestFirst(full)
      && page == if 0 < f.limit < |full| then full[..f.limit] else full;
    CutAtLimit(f, full);
    ScannedAll(f, Cut(PlanFor(f).limit, full), page);
    assert InOrder(PlanFor(f), full);
  }

  lemma AnswerIsPage(f: EventFilter, rows: seq<StoredEvent>, page: seq<StoredEvent>)
    requires Selected(PlanFor(f), rows) == Filtered(f, rows) && IsAnswer(PlanFor(f), rows, page)
    ensures IsPage(f, rows, page)
  {
    var p := PlanFor(f);
    var full :| multiset(full) == multiset(Selected(p, rows)) && InOrder(p, full) && |page| == |Cut(p.limit, full)|
      && forall i :: 0 <= i < |page| ==> Scan(p.columns, Cut(p.limit, full)[i]) == Some(page[i]);
    CutAtLimit(f, full);
    ScannedAll(f, Cut(p.limit, full), page);
    assert NewestFirst(full);
  }

  lemma AnswerIffPage(f: EventFilter, rows: seq<StoredEvent>, page: seq<StoredEvent>)
    ensures IsAnswer(PlanFor(f), rows, page) <==> IsPage(f, rows, page)
  {
    SelectedIsFiltered(f, rows);
    if IsPage(f, rows, page) {
      PageIsAnswer(f, rows, page);
    }
    if IsAnswer(PlanFor(f), rows, page) {
      AnswerIsPage(f, rows, page);
    }
  }
}
