/** The Informix dump: one JSON record a line, the header first, and the scanner that reads it. */
module Dump {
  import opened Core
  import opened Utf8
  import opened Base64
  import opened Json

  type Int32 = n: int | -0x8000_0000 <= n < 0x8000_0000

  datatype Value = Absent | Text(s: string) | Bytes(b: seq<Byte>)

  /** A cell as the agent delivers it. */
  datatype Cell = Cell(isNull: bool, sqlType: Int32, value: Value)

  /** A cell as the dump's record holds it. */
  datatype DumpCell = DumpCell(isNull: bool, sqlType: Int32, text: Option<string>, bytes: Option<seq<Byte>>)

  /** An insert's parameter. */
  datatype Param = Param(isNull: bool, sqlType: Int32, value: Value)

  datatype Header = Header(table: string, columns: seq<string>)

  function CellToDump(c: Cell): DumpCell {
    if c.isNull then DumpCell(true, c.sqlType, None, None)
    else
      match c.value
      case Text(s) => DumpCell(false, c.sqlType, Some(s), None)
      case Bytes(b) => DumpCell(false, c.sqlType, None, Some(b))
      case Absent => DumpCell(true, c.sqlType, None, None)
  }

  function CellToParam(d: DumpCell): Param {
    if d.isNull then Param(true, d.sqlType, Absent)
    else if d.bytes.Some? then Param(false, d.sqlType, Bytes(d.bytes.value))
    else Param(false, d.sqlType, Text(if d.text.Some? then d.text.value else ""))
  }

  function CellsToDump(row: seq<Cell>): (cells: seq<DumpCell>)
    ensures |cells| == |row|
  {
    if row == [] then [] else [CellToDump(row[0])] + CellsToDump(row[1..])
  }

  function CellsToParams(cells: seq<DumpCell>): (params: seq<Param>)
    ensures |params| == |cells|
  {
    if cells == [] then [] else [CellToParam(cells[0])] + CellsToParams(cells[1..])
  }

  // ---- Records as JSON ----

  const IS_NULL_KEY := "is_null"
  const SQL_TYPE_KEY := "sql_type"
  const TEXT_KEY := "text_value"
  const BYTES_KEY := "bytes_value"

  /** Fields with a zero value are left out, and so is an empty byte string. */
  function CellFields(d: DumpCell): seq<Field> {
    (if d.isNull then [Field("is_null", Bool(true))] else [])
    + (if d.sqlType != 0 then [Field("sql_type", Num(d.sqlType))] else [])
    + (if d.text.Some? then [Field("text_value", Str(d.text.value))] else [])
    + (if d.bytes.Some? && d.bytes.value != [] then [Field("bytes_value", Str(Encode64(d.bytes.value)))] else [])
  }

  function CellsJson(cells: seq<DumpCell>): seq<Json> {
    if cells == [] then [] else [Obj(CellFields(cells[0]))] + CellsJson(cells[1..])
  }

  function DumpRowJson(cells: seq<DumpCell>): Json {
    Obj([Field("cells", Arr(CellsJson(cells)))])
  }

  function RowJson(row: seq<Cell>): Json {
    DumpRowJson(CellsToDump(row))
  }

  function ColumnsJson(columns: seq<string>): seq<Json> {
    if columns == [] then [] else [Obj([Field("name", Str(columns[0]))])] + ColumnsJson(columns[1..])
  }

  function HeaderJson(h: Header): Json {
    Obj([Field("table", Str(h.table)), Field("columns", Arr(ColumnsJson(h.columns)))])
  }

  // ---- JSON as records ----

  function SetCell(d: DumpCell, f: Field): Option<DumpCell> {
    if f.name == IS_NULL_KEY then
      match f.value
      case Bool(b) => Some(d.(isNull := b))
      case Null => Some(d)
      case _ => None
    else if f.name == SQL_TYPE_KEY then
      match f.value
      case Num(n) => if -0x8000_0000 <= n < 0x8000_0000 then Some(d.(sqlType := n)) else None
      case Null => Some(d)
      case _ => None
    else if f.name == TEXT_KEY then
      match f.value
      case Str(s) => Some(d.(text := Some(s)))
      case Null => Some(d.(text := None))
      case _ => None
    else if f.name == BYTES_KEY then
      match f.value
      case Str(s) => if Decode64(s).Some? then Some(d.(bytes := Decode64(s))) else None
      case Null => Some(d.(bytes := None))
      case _ => None
    else Some(d)
  }

  /** Fields in order, later ones overwriting; unknown ones are ignored. */
  function SetCellFields(d: DumpCell, fields: seq<Field>): Option<DumpCell>
    decreases |fields|
  {
    if fields == [] then Some(d)
    else if SetCell(d, fields[0]).None? then None
    else SetCellFields(SetCell(d, fields[0]).value, fields[1..])
  }

  const NO_CELL := DumpCell(false, 0, None, None)

  function ReadCell(v: Json): Option<DumpCell> {
    match v
    case Obj(fields) => SetCellFields(NO_CELL, fields)
    case Null => Some(NO_CELL)
    case _ => None
  }

  function ReadCells(vs: seq<Json>): Option<seq<DumpCell>> {
    if vs == [] then Some([])
    else if ReadCell(vs[0]).None? || ReadCells(vs[1..]).None? then None
    else Some([ReadCell(vs[0]).value] + ReadCells(vs[1..]).value)
  }

  function SetRowFields(cells: seq<DumpCell>, fields: seq<Field>): Option<seq<DumpCell>>
    decreases |fields|
  {
    if fields == [] then Some(cells)
    else if fields[0].name != "cells" then SetRowFields(cells, fields[1..])
    else
      match fields[0].value
      case Arr(vs) => if ReadCells(vs).Some? then SetRowFields(ReadCells(vs).value, fields[1..]) else None
      case Null => SetRowFields([], fields[1..])
      case _ => None
  }

  function ReadRow(line: seq<Byte>): Option<seq<DumpCell>> {
    match Unmarshal(line)
    case Some(Obj(fields)) => SetRowFields([], fields)
    case Some(Null) => Some([])
    case _ => None
  }

  function SetName(name: string, fields: seq<Field>): Option<string>
    decreases |fields|
  {
    if fields == [] then Some(name)
    else if fields[0].name != "name" then SetName(name, fields[1..])
    else
      match fields[0].value
      case Str(s) => SetName(s, fields[1..])
      case Null => SetName(name, fields[1..])
      case _ => None
  }

  function ReadColumn(v: Json): Option<string> {
    match v
    case Obj(fields) => SetName("", fields)
    case Null => Some("")
    case _ => None
  }

  function ReadColumns(vs: seq<Json>): Option<seq<string>> {
    if vs == [] then Some([])
    else if ReadColumn(vs[0]).None? || ReadColumns(vs[1..]).None? then None
    else Some([ReadColumn(vs[0]).value] + ReadColumns(vs[1..]).value)
  }

  function SetHeader(h: Header, f: Field): Option<Header> {
    if f.name == "table" then
      match f.value
      case Str(s) => Some(h.(table := s))
      case Null => Some(h)
      case _ => None
    else if f.name == "columns" then
      match f.value
      case Arr(vs) => if ReadColumns(vs).Some? then Some(h.(columns := ReadColumns(vs).value)) else None
      case Null => Some(h.(columns := []))
      case _ => None
    else Some(h)
  }

  function SetHeaderFields(h: Header, fields: seq<Field>): Option<Header>
    decreases |fields|
  {
    if fields == [] then Some(h)
    else if SetHeader(h, fields[0]).None? then None
    else SetHeaderFields(SetHeader(h, fields[0]).value, fields[1..])
  }

  function ReadHeader(line: seq<Byte>): Option<Header> {
    match Unmarshal(line)
    case Some(Obj(fields)) => SetHeaderFields(Header("", []), fields)
    case Some(Null) => Some(Header("", []))
    case _ => None
  }

  // ---- What comes back ----

  /** The parameter a cell is restored with. */
  function Restored(c: Cell): Param {
    if c.isNull || c.value == Absent then Param(true, c.sqlType, Absent)
    else if c.value == Bytes([]) then Param(false, c.sqlType, Text(""))
    else Param(false, c.sqlType, c.value)
  }

  function RestoredRow(row: seq<Cell>): (params: seq<Param>)
    ensures |params| == |row| && forall i :: 0 <= i < |row| ==> params[i] == Restored(row[i])
  {
    if row == [] then [] else [Restored(row[0])] + RestoredRow(row[1..])
  }

  /** A cell is restored as it was, exactly unless it is an empty byte string, which comes back as an empty
      text, or has no value without being NULL, which comes back as NULL. */
  lemma RestoredAsItWasIff(c: Cell)
    ensures
      Restored(c) == Param(c.isNull, c.sqlType, if c.isNull then Absent else c.value)
      <==> c.isNull || (c.value != Absent && c.value != Bytes([]))
    ensures !c.isNull && c.value == Bytes([]) ==> Restored(c) == Param(false, c.sqlType, Text(""))
    ensures c.isNull || c.value == Absent ==> Restored(c) == Param(true, c.sqlType, Absent)
  {
  }

  function ThenSet(d: Option<DumpCell>, fields: seq<Field>): Option<DumpCell> {
    if d.None? then None else SetCellFields(d.value, fields)
  }

  lemma SetCellFieldsAppend(d: DumpCell, a: seq<Field>, b: seq<Field>)
    ensures SetCellFields(d, a + b) == ThenSet(SetCellFields(d, a), b)
    decreases |a|
  {
    if a == [] {
      assert a + b == b;
    } else {
      assert (a + b)[1..] == a[1..] + b;
      if SetCell(d, a[0]).Some? {
        SetCellFieldsAppend(SetCell(d, a[0]).value, a[1..], b);
      }
    }
  }

  lemma SetOne(d: DumpCell, f: Field)
    ensures SetCellFields(d, [f]) == SetCell(d, f)
  {
    if SetCell(d, f).Some? {
      assert SetCellFields(SetCell(d, f).value, [f][1..]) == SetCell(d, f);
    }
  }

  /** Only an empty byte string is lost in the record. */
  lemma ReadBackCell(d: DumpCell)
    ensures ReadCell(Obj(CellFields(d))) == Some(if d.bytes == Some([]) then d.(bytes := None) else d)
  {
    var isNull := if d.isNull then [Field(IS_NULL_KEY, Bool(true))] else [];
    var typ := if d.sqlType != 0 then [Field(SQL_TYPE_KEY, Num(d.sqlType))] else [];
    var text := if d.text.Some? then [Field(TEXT_KEY, Str(d.text.value))] else [];
    var bytes := if d.bytes.Some? && d.bytes.value != [] then [Field(BYTES_KEY, Str(Encode64(d.bytes.value)))] else [];
    SetCellFieldsAppend(NO_CELL, isNull + typ + text, bytes);
    SetCellFieldsAppend(NO_CELL, isNull + typ, text);
    SetCellFieldsAppend(NO_CELL, isNull, typ);
    var d1 := NO_CELL.(isNull := d.isNull);
    SetOne(NO_CELL, Field(IS_NULL_KEY, Bool(true)));
    assert SetCellFields(NO_CELL, isNull) == Some(d1);
    var d2 := d1.(sqlType := d.sqlType);
    SetOne(d1, Field(SQL_TYPE_KEY, Num(d.sqlType)));
    assert SetCellFields(d1, typ) == Some(d2);
    var d3 := d2.(text := d.text);
    if d.text.Some? {
      SetOne(d2, Field(TEXT_KEY, Str(d.text.value)));
    }
    assert SetCellFields(d2, text) == Some(d3);
    if d.bytes.Some? {
      DecodeEncode64(d.bytes.value);
      SetOne(d3, Field(BYTES_KEY, Str(Encode64(d.bytes.value))));
    }
  }

  lemma {:induction false} ReadBackCells(row: seq<Cell>)
    ensures
      var read := ReadCells(CellsJson(CellsToDump(row)));
      read.Some? && CellsToParams(read.value) == RestoredRow(row)
  {
    if row == [] {
    } else {
      var cells := CellsToDump(row);
      assert CellsJson(cells)[0] == Obj(CellFields(cells[0])) && CellsJson(cells)[1..] == CellsJson(cells[1..]);
      assert cells[1..] == CellsToDump(row[1..]);
      ReadBackCell(CellToDump(row[0]));
      ReadBackCells(row[1..]);
      var read := ReadCells(CellsJson(cells)).value;
      assert read[1..] == ReadCells(CellsJson(cells[1..])).value;
    }
  }

  lemma ReadBackRow(row: seq<Cell>)
    ensures
      var read := ReadRow(Marshal(RowJson(row)));
      read.Some? && CellsToParams(read.value) == RestoredRow(row)
  {
    var vs := CellsJson(CellsToDump(row));
    UnmarshalMarshal(RowJson(row));
    ReadBackCells(row);
    var f := Field("cells", Arr(vs));
    assert [f][1..] == [];
    assert SetRowFields([], [f]) == SetRowFields(ReadCells(vs).value, [f][1..]);
  }

  lemma {:induction false} ReadBackColumns(columns: seq<string>)
    ensures ReadColumns(ColumnsJson(columns)) == Some(columns)
  {
    if columns == [] {
    } else {
      var vs := ColumnsJson(columns);
      var f := Field("name", Str(columns[0]));
      assert vs[0] == Obj([f]) && vs[1..] == ColumnsJson(columns[1..]);
      assert SetName("", [f]) == SetName(columns[0], [f][1..]) == Some(columns[0]);
      ReadBackColumns(columns[1..]);
      assert [columns[0]] + columns[1..] == columns;
    }
  }

  lemma ReadBackHeader(h: Header)
    ensures ReadHeader(Marshal(HeaderJson(h))) == Some(h)
  {
    UnmarshalMarshal(HeaderJson(h));
    ReadBackColumns(h.columns);
    var fields := [Field("table", Str(h.table)), Field("columns", Arr(ColumnsJson(h.columns)))];
    var h1 := Header(h.table, []);
    assert SetHeaderFields(Header("", []), fields) == SetHeaderFields(h1, fields[1..]);
    assert SetHeaderFields(h1, fields[1..]) == SetHeaderFields(h, fields[1..][1..]);
  }

  // ---- The file ----

  const NEW_LINE: Byte := 0x0A
  const CARRIAGE_RETURN: Byte := 0x0D
  const MAX_LINE := 64 * 1024 * 1024

  function Record(v: Json): seq<Byte> {
    Marshal(v) + [NEW_LINE]
  }

  function RowRecords(rows: seq<seq<Cell>>): seq<Byte> {
    if rows == [] then [] else Record(RowJson(rows[0])) + RowRecords(rows[1..])
  }

  function DumpOf(h: Header, rows: seq<seq<Cell>>): seq<Byte> {
    Record(HeaderJson(h)) + RowRecords(rows)
  }

  method DumpRow(row: seq<Cell>) returns (cells: seq<DumpCell>)
    ensures cells == CellsToDump(row)
  {
    cells := [];
    var i := 0;
    assert row[0..] == row;
    while i < |row|
      invariant i <= |row|
      invariant CellsToDump(row) == cells + CellsToDump(row[i..])
    {
      assert row[i..][1..] == row[i + 1..];
      cells := cells + [CellToDump(row[i])];
      i := i + 1;
    }
  }

  /** writeDump. The disk takes the first `room` records; with fewer than there are, writing fails. */
  method WriteDump(h: Header, rows: seq<seq<Cell>>, room: nat) returns (file: seq<Byte>, ok: bool)
    ensures ok <==> |rows| < room
    ensures ok ==> file == DumpOf(h, rows)
  {
    file := [];
    if room == 0 {
      return file, false;
    }
    file := file + Record(HeaderJson(h));
    var i := 0;
    assert rows[0..] == rows;
    while i < |rows|
      invariant i <= |rows| && i < room
      invariant DumpOf(h, rows) == file + RowRecords(rows[i..])
    {
      if i + 1 == room {
        return file, false;
      }
      assert rows[i..][1..] == rows[i + 1..];
      var cells := DumpRow(rows[i]);
      file := file + Record(DumpRowJson(cells));
      i := i + 1;
    }
    ok := true;
  }

  /** The length of the first line. */
  function LineLength(d: seq<Byte>): (n: nat)
    ensures n <= |d| && NEW_LINE !in d[..n] && (n < |d| ==> d[n] == NEW_LINE)
  {
    if d == [] || d[0] == NEW_LINE then 0
    else
      var n := 1 + LineLength(d[1..]);
      assert d[..n] == [d[0]] + d[1..][..n - 1];
      n
  }

  function DropCr(line: seq<Byte>): seq<Byte> {
    if line != [] && line[|line| - 1] == CARRIAGE_RETURN then line[..|line| - 1] else line
  }

  datatype Scanned = Line(text: seq<Byte>, rest: seq<Byte>) | End | TooLong

  /** One step of a line scanner whose buffer holds MAX_LINE bytes, the line's end included. */
  function ScanLine(d: seq<Byte>): (r: Scanned)
    ensures r.Line? ==> |r.rest| < |d|
  {
    var n := LineLength(d);
    if d == [] then End
    else if n >= MAX_LINE then TooLong
    else Line(DropCr(d[..n]), d[if n < |d| then n + 1 else n..])
  }

  /** All lines up to the end or the first line that is too long. */
  function Lines(d: seq<Byte>): (r: (seq<seq<Byte>>, bool))
    decreases |d|
  {
    match ScanLine(d)
    case End => ([], true)
    case TooLong => ([], false)
    case Line(text, rest) => ([text] + Lines(rest).0, Lines(rest).1)
  }

  /** The scanner. A file that cannot be read to its end is broken: its readable part comes first. */
  class DumpScanner {
    var rest: seq<Byte>
    const broken: bool
    var tooLong: bool
    var text: seq<Byte>

    constructor (data: seq<Byte>, broken: bool)
      ensures rest == data && this.broken == broken && !tooLong
    {
      this.rest, this.broken, this.tooLong, this.text := data, broken, false, [];
    }

    method Scan() returns (ok: bool)
      modifies this
      ensures ok <==> ScanLine(old(rest)).Line?
      ensures if ok then ScanLine(old(rest)) == Line(text, rest) else rest == old(rest)
      ensures tooLong == (old(tooLong) || ScanLine(old(rest)).TooLong?)
    {
      match ScanLine(rest)
      case Line(line, more) =>
        text, rest := line, more;
        ok := true;
      case End =>
        ok := false;
      case TooLong =>
        tooLong := true;
        ok := false;
    }

    function Err(): bool
      reads this
    {
      tooLong || broken
    }
  }

  // ---- The file is scanned back into its records ----

  lemma {:induction false} LineLengthOf(line: seq<Byte>, rest: seq<Byte>)
    requires NEW_LINE !in line
    ensures LineLength(line + [NEW_LINE] + rest) == |line|
    decreases |line|
  {
    var d := line + [NEW_LINE] + rest;
    if line == [] {
    } else {
      assert d[1..] == line[1..] + [NEW_LINE] + rest;
      LineLengthOf(line[1..], rest);
    }
  }

  /** No record holds a line end, so the scanner stops at the record's own. */
  lemma ScanRecord(v: Json, rest: seq<Byte>)
    ensures ScanLine(Marshal(v) + [0x0A] + rest)
         == if |Marshal(v)| < 64 * 1024 * 1024 then Line(Marshal(v), rest) else TooLong
  {
    var line := Marshal(v);
    var d := Record(v) + rest;
    LineLengthOf(line, rest);
    assert d == line + [NEW_LINE] + rest;
    assert d[..|line|] == line && d[|line| + 1..] == rest;
  }

  lemma LinesOfRecord(v: Json, rest: seq<Byte>)
    ensures
      Lines(Record(v) + rest)
      == if |Marshal(v)| < MAX_LINE then ([Marshal(v)] + Lines(rest).0, Lines(rest).1) else ([], false)
  {
    ScanRecord(v, rest);
  }

  predicate RowFits(row: seq<Cell>) {
    |Marshal(RowJson(row))| < MAX_LINE
  }

  predicate Fits(h: Header, rows: seq<seq<Cell>>) {
    |Marshal(HeaderJson(h))| < MAX_LINE && forall i :: 0 <= i < |rows| ==> RowFits(rows[i])
  }

  /** How many rows come before the first that does not fit. */
  function Fitting(rows: seq<seq<Cell>>): (n: nat)
    ensures n <= |rows|
    ensures n == |rows| <==> forall i :: 0 <= i < |rows| ==> RowFits(rows[i])
  {
    if rows == [] || !RowFits(rows[0]) then 0 else 1 + Fitting(rows[1..])
  }

  function RowLines(rows: seq<seq<Cell>>): (lines: seq<seq<Byte>>)
    ensures |lines| == |rows|
  {
    if rows == [] then [] else [Marshal(RowJson(rows[0]))] + RowLines(rows[1..])
  }

  lemma RowLinesHead(rows: seq<seq<Cell>>, n: nat)
    requires 0 < n <= |rows|
    ensures RowLines(rows[..n]) == [Marshal(RowJson(rows[0]))] + RowLines(rows[1..][..n - 1])
  {
    assert rows[..n][0] == rows[0] && rows[..n][1..] == rows[1..][..n - 1];
  }

  lemma {:induction false} ScanRows(rows: seq<seq<Cell>>)
    ensures Lines(RowRecords(rows)) == (RowLines(rows[..Fitting(rows)]), Fitting(rows) == |rows|)
  {
    if rows == [] {
    } else {
      LinesOfRecord(RowJson(rows[0]), RowRecords(rows[1..]));
      if RowFits(rows[0]) {
        ScanRows(rows[1..]);
        var n := Fitting(rows);
        RowLinesHead(rows, n);
      }
    }
  }

  /** A reader of records: what the JSON decoder makes of a line. */
  datatype Reader = Reader(header: seq<Byte> -> Option<Header>, row: seq<Byte> -> Option<seq<DumpCell>>)

  const GO_READER := Reader(ReadHeader, ReadRow)

  function HeaderBy(reader: Reader, line: seq<Byte>): Option<Header> {
    reader.header(line)
  }

  function RowBy(reader: Reader, line: seq<Byte>): Option<seq<DumpCell>> {
    reader.row(line)
  }

  /** The parameters of every line, if every line is a row of so many cells. */
  function ParamRows(reader: Reader, lines: seq<seq<Byte>>, columns: nat): Option<seq<seq<Param>>> {
    if lines == [] then Some([])
    else
      var row := RowBy(reader, lines[0]);
      var more := ParamRows(reader, lines[1..], columns);
      if row.None? || |row.value| != columns || more.None? then None
      else Some([CellsToParams(row.value)] + more.value)
  }

  function RestoredRows(rows: seq<seq<Cell>>): (params: seq<seq<Param>>)
    ensures |params| == |rows| && forall i :: 0 <= i < |rows| ==> params[i] == RestoredRow(rows[i])
  {
    if rows == [] then [] else [RestoredRow(rows[0])] + RestoredRows(rows[1..])
  }

  /** Every row has one cell a column. */
  predicate Rectangular(rows: seq<seq<Cell>>, columns: nat) {
    rows == [] || (|rows[0]| == columns && Rectangular(rows[1..], columns))
  }

  /** Reading back what writeDump wrote: header and rows in order, each cell as Restored has it,
      exactly when every record fits the scanner's buffer. */
  lemma DumpReadsBack(h: Header, rows: seq<seq<Cell>>)
    ensures
      var (lines, complete) := Lines(DumpOf(h, rows));
      && (complete <==> Fits(h, rows))
      && (complete ==> lines != [] && ReadHeader(lines[0]) == Some(h)
                       && ParamRows(GO_READER, lines[1..], |h.columns|)
                          == if Rectangular(rows, |h.columns|) then Some(RestoredRows(rows)) else None)
  {
    ScanRecord(HeaderJson(h), RowRecords(rows));
    ScanRows(rows);
    ReadBackHeader(h);
    if Fits(h, rows) {
      var lines := Lines(DumpOf(h, rows)).0;
      assert lines[1..] == Lines(RowRecords(rows)).0;
      assert rows[..Fitting(rows)] == rows;
      RowsReadBack(rows, |h.columns|);
    }
  }

  lemma {:induction false} RowsReadBack(rows: seq<seq<Cell>>, columns: nat)
    ensures
      ParamRows(GO_READER, RowLines(rows), columns)
      == if Rectangular(rows, columns) then Some(RestoredRows(rows)) else None
  {
    if rows == [] {
    } else {
      ReadBackRow(rows[0]);
      RowsReadBack(rows[1..], columns);
      assert RowLines(rows)[1..] == RowLines(rows[1..]);
    }
  }
}
