/**
 The developer log export: every cell quoted, quotes doubled, cells joined by commas and lines by
 line feeds; and a reader for the quoted fields of section 2 of RFC 4180, with the line feed alone
 as the record break.
 */
module Csv {
  import opened Options
  import opened Sequences

  /** A log row; `show` writes a number the way `String` does. */
  datatype LogRow = LogRow(
    id: int, createdAt: string, httpMethod: string, path: string, status: int, durationMs: int,
    apiKeyPrefix: Option<string>, actorName: string, permission: Option<string>,
    clientFingerprint: Option<string>)

  const HEADER: seq<string> := [
    "id", "time", "method", "path", "status", "duration_ms", "key", "actor", "permission",
    "client_fingerprint"]

  function Cells(row: LogRow, show: int -> string): (cells: seq<string>)
    ensures |cells| == |HEADER|
  {
    [show(row.id), row.createdAt, row.httpMethod, row.path, show(row.status), show(row.durationMs),
     OrEmpty(row.apiKeyPrefix), row.actorName, OrEmpty(row.permission), OrEmpty(row.clientFingerprint)]
  }

  // ---- the printer

  function Doubled(cell: string): string {
    if cell == "" then ""
    else (if cell[0] == '"' then ['"', '"'] else [cell[0]]) + Doubled(cell[1..])
  }

  function Quote(cell: string): string {
    ['"'] + Doubled(cell) + ['"']
  }

  function PrintCells(cells: seq<string>): string {
    if cells == [] then ""
    else if |cells| == 1 then Quote(cells[0])
    else Quote(cells[0]) + [','] + PrintCells(cells[1..])
  }

  function PrintTable(table: seq<seq<string>>): string {
    if table == [] then ""
    else if |table| == 1 then PrintCells(table[0])
    else PrintCells(table[0]) + ['\n'] + PrintTable(table[1..])
  }

  function Table(rows: seq<LogRow>, show: int -> string): (table: seq<seq<string>>)
    ensures |table| == |rows| + 1
  {
    [HEADER] + seq(|rows|, k requires 0 <= k < |rows| => Cells(rows[k], show))
  }

  function DeveloperLogsCsv(rows: seq<LogRow>, show: int -> string): string {
    PrintTable(Table(rows, show))
  }

  // ---- the reader

  /** A piece that was read, and what is left of the text. */
  datatype Read<T> = Read(value: T, rest: string)

  /** The inside of a quoted field, up to the quote that closes it. */
  function ReadQuoted(s: string): (r: Option<Read<string>>)
    ensures r.Some? ==> |r.value.rest| < |s|
  {
    if s == "" then None
    else if s[0] != '"' then
      var more := ReadQuoted(s[1..]);
      if more.None? then None else Some(Read([s[0]] + more.value.value, more.value.rest))
    else if |s| > 1 && s[1] == '"' then
      var more := ReadQuoted(s[2..]);
      if more.None? then None else Some(Read(['"'] + more.value.value, more.value.rest))
    else Some(Read("", s[1..]))
  }

  /** A field without quotes: everything up to a comma, a quote or a line feed. */
  function ReadPlain(s: string): (r: Read<string>)
    ensures |r.rest| <= |s|
  {
    if s == "" || s[0] == ',' || s[0] == '"' || s[0] == '\n' then Read("", s)
    else
      var more := ReadPlain(s[1..]);
      Read([s[0]] + more.value, more.rest)
  }

  function ReadField(s: string): (r: Option<Read<string>>)
    ensures r.Some? ==> |r.value.rest| <= |s|
  {
    if s != "" && s[0] == '"' then ReadQuoted(s[1..]) else Some(ReadPlain(s))
  }

  /** Fields up to the first thing that is not a comma. */
  function ReadRecord(s: string): (r: Option<Read<seq<string>>>)
    ensures r.Some? ==> |r.value.rest| <= |s|
    decreases |s|
  {
    var field := ReadField(s);
    if field.None? then None
    else
      var rest := field.value.rest;
      if rest == "" || rest[0] != ',' then Some(Read([field.value.value], rest))
      else
        var more := ReadRecord(rest[1..]);
        if more.None? then None
        else Some(Read([field.value.value] + more.value.value, more.value.rest))
  }

  /** Records separated by line feeds; the last one may or may not have a line feed behind it. */
  function ReadTable(s: string): Option<seq<seq<string>>>
    decreases |s|
  {
    var record := ReadRecord(s);
    if record.None? then None
    else
      var rest := record.value.rest;
      if rest == "" || rest == ['\n'] then Some([record.value.value])
      else if rest[0] != '\n' then None
      else
        var more := ReadTable(rest[1..]);
        if more.None? then None else Some([record.value.value] + more.value)
  }

  // ---- the round trip

  /** What may stand behind a closing quote. */
  predicate Closes(rest: string) {
    rest == "" || rest[0] != '"'
  }

  lemma {:induction false} QuotedReadsBack(cell: string, rest: string)
    requires Closes(rest)
    ensures ReadQuoted(Doubled(cell) + ['"'] + rest) == Some(Read(cell, rest))
  {
    var text := Doubled(cell) + ['"'] + rest;
    if cell == "" {
      assert text == ['"'] + rest && text[1..] == rest;
    } else {
      var after := Doubled(cell[1..]) + ['"'] + rest;
      QuotedReadsBack(cell[1..], rest);
      assert [cell[0]] + cell[1..] == cell;
      if cell[0] == '"' {
        assert text == ['"', '"'] + after && text[2..] == after;
      } else {
        assert text == [cell[0]] + after && text[1..] == after;
      }
    }
  }

  lemma FieldReadsBack(cell: string, rest: string)
    requires Closes(rest)
    ensures ReadField(Quote(cell) + rest) == Some(Read(cell, rest))
  {
    QuotedReadsBack(cell, rest);
    assert (Quote(cell) + rest)[1..] == Doubled(cell) + ['"'] + rest;
  }

  lemma OneFieldMore(s: string, cell: string, rest: string, after: string, cells: seq<string>, end: string)
    requires ReadField(s) == Some(Read(cell, rest)) && rest == [','] + after
    requires ReadRecord(after) == Some(Read(cells, end))
    ensures ReadRecord(s) == Some(Read([cell] + cells, end))
  {
    assert rest[1..] == after;
  }

  lemma FirstThenRest(cells: seq<string>, rest: string)
    requires |cells| > 1
    ensures PrintCells(cells) + rest == Quote(cells[0]) + ([','] + (PrintCells(cells[1..]) + rest))
    ensures [cells[0]] + cells[1..] == cells
  {
    Regroup(Quote(cells[0]) + [','], PrintCells(cells[1..]), rest);
    Regroup(Quote(cells[0]), [','], PrintCells(cells[1..]) + rest);
  }

  lemma {:induction false} RecordReadsBack(cells: seq<string>, rest: string)
    requires cells != [] && (rest == "" || rest[0] == '\n')
    ensures ReadRecord(PrintCells(cells) + rest) == Some(Read(cells, rest))
  {
    if |cells| == 1 {
      FieldReadsBack(cells[0], rest);
      assert [cells[0]] == cells;
    } else {
      var after := PrintCells(cells[1..]) + rest;
      FirstThenRest(cells, rest);
      FieldReadsBack(cells[0], [','] + after);
      RecordReadsBack(cells[1..], rest);
      OneFieldMore(PrintCells(cells) + rest, cells[0], [','] + after, after, cells[1..], rest);
    }
  }

  lemma OneRecordMore(s: string, cells: seq<string>, after: string, table: seq<seq<string>>)
    requires ReadRecord(s) == Some(Read(cells, ['\n'] + after)) && after != ""
    requires ReadTable(after) == Some(table)
    ensures ReadTable(s) == Some([cells] + table)
  {
    assert (['\n'] + after)[1..] == after;
  }

  lemma OneRecordReadsBack(cells: seq<string>)
    requires cells != []
    ensures PrintCells(cells) != "" && ReadTable(PrintCells(cells)) == Some([cells])
  {
    assert PrintCells(cells) + "" == PrintCells(cells);
    RecordReadsBack(cells, "");
  }

  /** Reading what was printed gives back every cell of every record, whatever the cells contain. */
  lemma {:induction false} TableReadsBack(table: seq<seq<string>>)
    requires table != [] && forall k :: 0 <= k < |table| ==> table[k] != []
    ensures PrintTable(table) != "" && ReadTable(PrintTable(table)) == Some(table)
  {
    var first := table[0];
    if |table| == 1 {
      OneRecordReadsBack(first);
      assert [first] == table;
    } else {
      var after := PrintTable(table[1..]);
      TableReadsBack(table[1..]);
      assert PrintTable(table) == PrintCells(first) + (['\n'] + after) by {
        Regroup(PrintCells(first), ['\n'], after);
      }
      RecordReadsBack(first, ['\n'] + after);
      OneRecordMore(PrintTable(table), first, after, table[1..]);
      assert [first] + table[1..] == table;
    }
  }

  /** The export reads back as the header and the cells of every row. */
  lemma ExportReadsBack(rows: seq<LogRow>, show: int -> string)
    ensures ReadTable(DeveloperLogsCsv(rows, show)) == Some(Table(rows, show))
    ensures Table(rows, show)[0] == HEADER
    ensures forall k :: 0 <= k < |rows| ==> Table(rows, show)[k + 1] == Cells(rows[k], show)
  {
    TableReadsBack(Table(rows, show));
  }

  /** What the export cannot tell apart: a field that is null and one that is empty. */
  predicate SameRow(a: LogRow, b: LogRow) {
    && a.id == b.id && a.createdAt == b.createdAt && a.httpMethod == b.httpMethod && a.path == b.path
    && a.status == b.status && a.durationMs == b.durationMs && a.actorName == b.actorName
    && OrEmpty(a.apiKeyPrefix) == OrEmpty(b.apiKeyPrefix)
    && OrEmpty(a.permission) == OrEmpty(b.permission)
    && OrEmpty(a.clientFingerprint) == OrEmpty(b.clientFingerprint)
  }

  /**
   Two exports are the same file exactly when they list the same rows, up to null and empty, as
   long as different numbers are written differently.
   */
  lemma SameFileMeansSameRows(a: seq<LogRow>, b: seq<LogRow>, show: int -> string)
    requires forall m, n :: show(m) == show(n) ==> m == n
    ensures DeveloperLogsCsv(a, show) == DeveloperLogsCsv(b, show)
      <==> |a| == |b| && forall k :: 0 <= k < |a| ==> SameRow(a[k], b[k])
  {
    ExportReadsBack(a, show);
    ExportReadsBack(b, show);
    if DeveloperLogsCsv(a, show) == DeveloperLogsCsv(b, show) {
      assert Table(a, show) == Table(b, show);
      forall k | 0 <= k < |a|
        ensures SameRow(a[k], b[k])
      {
        SameCellsMeanSameRow(a[k], b[k], show);
        assert Cells(a[k], show) == Table(a, show)[k + 1] == Table(b, show)[k + 1] == Cells(b[k], show);
      }
    }
    if |a| == |b| && forall k :: 0 <= k < |a| ==> SameRow(a[k], b[k]) {
      forall k | 0 <= k < |a|
        ensures Cells(a[k], show) == Cells(b[k], show)
      {
        SameCellsMeanSameRow(a[k], b[k], show);
      }
      assert Table(a, show) == Table(b, show);
    }
  }

  lemma SameCellsMeanSameRow(a: LogRow, b: LogRow, show: int -> string)
    requires forall m, n :: show(m) == show(n) ==> m == n
    ensures Cells(a, show) == Cells(b, show) <==> SameRow(a, b)
  {
    var p, q := Cells(a, show), Cells(b, show);
    if p == q {
      assert forall k :: 0 <= k < 10 ==> p[k] == q[k];
      assert p[0] == show(a.id) && q[0] == show(b.id);
      assert p[4] == show(a.status) && q[4] == show(b.status);
      assert p[5] == show(a.durationMs) && q[5] == show(b.durationMs);
      assert p[1] == a.createdAt && p[2] == a.httpMethod && p[3] == a.path;
      assert p[6] == OrEmpty(a.apiKeyPrefix) && p[7] == a.actorName;
      assert p[8] == OrEmpty(a.permission) && p[9] == OrEmpty(a.clientFingerprint);
    }
  }
}
