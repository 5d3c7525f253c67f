/** The export job (crates/logscope-app/src/export.rs): one bounded stream, whole records or
    none, an honest `truncated`, and a file that appears only when complete. */
module Export {
  import opened CsvExport
  import opened Rows
  import opened Sequences
  import opened Texts

  datatype Format = Jsonl | Csv

  datatype Spec = Spec(format: Format, csvColumns: seq<string>, formulaGuard: bool, rowLimit: nat, byteLimit: nat, destination: string)

  /** `cell` reads one column of a row; `json` serialises a row or fails. */
  datatype Source = Source(rows: seq<LogRow>, cell: (LogRow, string) -> string, json: LogRow -> Option<string>)

  datatype Outcome = Written(text: string, rows: nat, bytes: nat, truncated: bool) | Failed

  const MAX_EXPORT_ROWS: nat := 10_000_000
  const MAX_EXPORT_BYTES: nat := 10 * 1024 * 1024 * 1024

  const DEFAULT_COLUMNS: seq<string> := ["timestamp", "severity", "severity.number", "message",
    "trace_id", "span_id", "dataset", "record_id", "attributes"]

  function Columns(spec: Spec): (r: seq<string>)
    ensures r != []
  {
    if spec.csvColumns == [] then DEFAULT_COLUMNS else spec.csvColumns
  }

  function Utf8Width(c: char): nat {
    if c as int < 0x80 then 1 else if c as int < 0x800 then 2 else if c as int < 0x10000 then 3 else 4
  }

  function Bytes(s: string): nat { if s == [] then 0 else Bytes(s[..|s|-1]) + Utf8Width(s[|s|-1]) }

  lemma {:induction false} BytesConcat(s: string, t: string)
    ensures Bytes(s + t) == Bytes(s) + Bytes(t)
  {
    if t == [] {
      assert s + t == s;
    } else {
      BytesConcat(s, t[..|t|-1]);
      assert (s + t)[..|s + t|-1] == s + t[..|t|-1];
    }
  }

  function CellOf(spec: Spec, src: Source, row: LogRow): string -> string {
    (column: string) => Guard(src.cell(row, column), spec.formulaGuard)
  }

  function Cells(spec: Spec, src: Source): LogRow -> seq<string> {
    (row: LogRow) => Apply(CellOf(spec, src, row), Columns(spec))
  }

  function Header(spec: Spec): string { if spec.format.Csv? then Line(Columns(spec)) else [] }

  function LineOf(spec: Spec, src: Source, row: LogRow): Option<string> {
    if spec.format.Csv? then Some(Line(Cells(spec, src)(row)))
    else match src.json(row) case None => None case Some(l) => Some(l + ['\n'])
  }

  /** The lines of the given rows, when all of them serialise. */
  function Lines(spec: Spec, src: Source, rows: seq<LogRow>): string {
    if rows == [] then [] else Lines(spec, src, rows[..|rows|-1]) + LineOf(spec, src, rows[|rows|-1]).GetOr([])
  }

  /** What an outcome promises: a failure names a row that does not serialise; otherwise the
      file is the header and a prefix of the rows, both limits hold, `truncated` tells exactly
      whether rows are missing, and rows are missing only because a limit was reached. */
  ghost predicate Honest(spec: Spec, src: Source, rowLimit: nat, byteLimit: nat, r: Outcome) {
    match r
    case Failed => exists i :: 0 <= i < |src.rows| && LineOf(spec, src, src.rows[i]).None?
    case Written(text, n, bytes, truncated) =>
      && n <= |src.rows| && n <= rowLimit
      && text == Header(spec) + Lines(spec, src, src.rows[..n])
      && (forall i :: 0 <= i < n ==> LineOf(spec, src, src.rows[i]).Some?)
      && bytes == Bytes(text) && (bytes <= byteLimit || text == Header(spec))
      && (truncated <==> n < |src.rows|)
      && (truncated ==> n == rowLimit || bytes + Bytes(LineOf(spec, src, src.rows[n]).GetOr([])) > byteLimit)
  }

  /** `write_export`. */
  method WriteExport(spec: Spec, src: Source, rowLimit: nat, byteLimit: nat) returns (r: Outcome)
    requires rowLimit >= 1
    ensures Honest(spec, src, rowLimit, byteLimit, r)
  {
    hide *;
    var text := Header(spec);
    var bytes: nat, truncated, written: nat := Bytes(text), false, 0;
    var fetched := if |src.rows| <= rowLimit + 1 then |src.rows| else rowLimit + 1;
    NothingYet(spec, src);
    while written < fetched && !truncated
      invariant written <= fetched && written <= rowLimit
      invariant Holds(spec, src, written, text, bytes)
      invariant bytes <= byteLimit || text == Header(spec)
      invariant truncated ==> Stopped(spec, src, rowLimit, byteLimit, written, bytes)
      decreases fetched - written, !truncated
    {
      if written >= rowLimit {
        truncated := true;
        StopsHere(spec, src, rowLimit, byteLimit, written, bytes);
      } else {
        var line := LineOf(spec, src, src.rows[written]);
        if line.None? {
          FailsHere(spec, src, rowLimit, byteLimit, written);
          return Failed;
        }
        var width: nat := Bytes(line.value);
        if bytes + width > byteLimit {
          truncated := true;
          StopsHere(spec, src, rowLimit, byteLimit, written, bytes);
        } else {
          OneMore(spec, src, written, text, bytes, line.value);
          text, bytes, written := text + line.value, bytes + width, written + 1;
        }
      }
    }
    r := Written(text, written, bytes, truncated);
    EndsHere(spec, src, rowLimit, byteLimit, written, text, bytes, truncated);
  }

  lemma EndsHere(spec: Spec, src: Source, rowLimit: nat, byteLimit: nat, n: nat, text: string, bytes: nat, truncated: bool)
    requires Holds(spec, src, n, text, bytes) && n <= rowLimit && (bytes <= byteLimit || text == Header(spec))
    requires if truncated then Stopped(spec, src, rowLimit, byteLimit, n, bytes) else n == |src.rows|
    ensures Honest(spec, src, rowLimit, byteLimit, Written(text, n, bytes, truncated))
  {
    hide Header, Lines, LineOf, Bytes;
  }

  ghost predicate Stopped(spec: Spec, src: Source, rowLimit: nat, byteLimit: nat, n: nat, bytes: nat) {
    n < |src.rows| && (n == rowLimit || bytes + Bytes(LineOf(spec, src, src.rows[n]).GetOr([])) > byteLimit)
  }

  lemma StopsHere(spec: Spec, src: Source, rowLimit: nat, byteLimit: nat, n: nat, bytes: nat)
    requires n < |src.rows| && n <= rowLimit
    requires n >= rowLimit || (LineOf(spec, src, src.rows[n]).Some? && bytes + Bytes(LineOf(spec, src, src.rows[n]).value) > byteLimit)
    ensures Stopped(spec, src, rowLimit, byteLimit, n, bytes)
  {
  }

  lemma FailsHere(spec: Spec, src: Source, rowLimit: nat, byteLimit: nat, n: nat)
    requires n < |src.rows| && LineOf(spec, src, src.rows[n]).None?
    ensures Honest(spec, src, rowLimit, byteLimit, Failed)
  {
  }

  /** The file holds the first `n` rows, and the byte counter agrees with it. */
  ghost predicate Holds(spec: Spec, src: Source, n: nat, text: string, bytes: nat) {
    && n <= |src.rows| && text == Header(spec) + Lines(spec, src, src.rows[..n])
    && bytes == Bytes(text)
    && forall i :: 0 <= i < n ==> LineOf(spec, src, src.rows[i]).Some?
  }

  lemma NothingYet(spec: Spec, src: Source)
    ensures Holds(spec, src, 0, Header(spec), Bytes(Header(spec)))
  {
    hide Header;
    assert Lines(spec, src, src.rows[..0]) == [];
  }

  lemma OneMore(spec: Spec, src: Source, n: nat, text: string, bytes: nat, line: string)
    requires Holds(spec, src, n, text, bytes) && n < |src.rows| && LineOf(spec, src, src.rows[n]) == Some(line)
    ensures Holds(spec, src, n + 1, text + line, bytes + Bytes(line))
  {
    hide LineOf, Header, Lines, Bytes;
    LinesSnoc(spec, src, src.rows[..n], src.rows[n]);
    assert src.rows[..n + 1] == src.rows[..n] + [src.rows[n]];
    BytesConcat(text, line);
  }

  lemma LinesSnoc(spec: Spec, src: Source, rows: seq<LogRow>, row: LogRow)
    ensures Lines(spec, src, rows + [row]) == Lines(spec, src, rows) + LineOf(spec, src, row).GetOr([])
  {
    assert (rows + [row])[..|rows|] == rows;
  }

  lemma {:induction false} DocumentConcat(a: seq<seq<string>>, b: seq<seq<string>>)
    ensures Document(a + b) == Document(a) + Document(b)
  {
    if a == [] {
      assert a + b == b;
    } else {
      assert (a + b)[0] == a[0] && (a + b)[1..] == a[1..] + b;
      DocumentConcat(a[1..], b);
      hide Line;
    }
  }

  lemma {:induction false} LinesAreDocument(spec: Spec, src: Source, rows: seq<LogRow>)
    requires spec.format.Csv?
    ensures Lines(spec, src, rows) == Document(Apply(Cells(spec, src), rows))
  {
    if rows != [] {
      var front, row := rows[..|rows|-1], rows[|rows|-1];
      assert rows == front + [row];
      LinesAreDocument(spec, src, front);
      hide Line;
      ApplySnoc(Cells(spec, src), front, row);
      var cells := Cells(spec, src)(row);
      DocumentConcat(Apply(Cells(spec, src), front), [cells]);
      assert Document([cells]) == Line(cells) + Document([]) by { assert [cells][1..] == []; }
    }
  }

  /** Parsing a CSV export gives back exactly the header and the (guarded) cells of the rows
      written, whatever commas, quotes and line breaks they hold. */
  lemma CsvReadsBack(spec: Spec, src: Source, rows: seq<LogRow>)
    requires spec.format.Csv?
    ensures Parse(Header(spec) + Lines(spec, src, rows)) == Some([Columns(spec)] + Apply(Cells(spec, src), rows))
  {
    var records := [Columns(spec)] + Apply(Cells(spec, src), rows);
    LinesAreDocument(spec, src, rows);
    forall i | 0 <= i < |records| ensures records[i] != [] {}
    assert Document(records) == Header(spec) + Lines(spec, src, rows) by {
      assert records[1..] == Apply(Cells(spec, src), rows);
    }
    RoundTrip(records);
  }

  // ---- publication ---------------------------------------------------------------------

  datatype ExportResult = Exported(rows: nat, truncated: bool) | DestinationExists | Cancelled | Error

  function Within(n: nat, low: nat, high: nat): (r: nat)
    requires low <= high
    ensures (low <= n <= high ==> r == n) && (n < low ==> r == low) && (n > high ==> r == high)
  {
    if n < low then low else if n > high then high else n
  }

  /** Rows are missing only because the row limit, or the byte limit, was reached; each limit is
      the one asked for, brought into its range. */
  ghost predicate InLimits(spec: Spec, src: Source, text: string, n: nat, truncated: bool) {
    var rowLimit, byteLimit := Within(spec.rowLimit, 1, 10_000_000), Within(spec.byteLimit, 1024, 10_737_418_240);
    && n <= |src.rows| && n <= rowLimit && (Bytes(text) <= byteLimit || text == Header(spec))
    && (truncated <==> n < |src.rows|)
    && (truncated ==> n == rowLimit || Bytes(text) + Bytes(LineOf(spec, src, src.rows[n]).GetOr([])) > byteLimit)
  }

  lemma LimitsKept(spec: Spec, src: Source, r: Outcome)
    requires r.Written? && Honest(spec, src, Within(spec.rowLimit, 1, 10_000_000), Within(spec.byteLimit, 1024, 10_737_418_240), r)
    ensures r.rows <= |src.rows| && src.rows[..r.rows] == Upto(r.rows, src.rows) && InLimits(spec, src, r.text, r.rows, r.truncated)
    ensures r.text == Header(spec) + Lines(spec, src, Upto(r.rows, src.rows))
  {
    hide Bytes, Lines, Header, LineOf;
  }

  lemma OnlyJsonFails(spec: Spec, src: Source, rowLimit: nat, byteLimit: nat)
    requires Honest(spec, src, rowLimit, byteLimit, Failed)
    ensures spec.format.Jsonl? && exists i :: 0 <= i < |src.rows| && src.json(src.rows[i]).None?
  {
  }

  class Disk {
    var files: map<string, string>

    /** The job body: no existing file is touched, and a new one appears only when complete. It
        appears unless the job was cancelled or a row could not be serialised, and rows are
        missing only because one of the two limits, clamped, was reached. */
    method RunExport(spec: Spec, src: Source, cancelled: bool) returns (r: ExportResult)
      modifies this
      ensures r.DestinationExists? <==> spec.destination in old(files)
      ensures r.Cancelled? <==> spec.destination !in old(files) && cancelled
      ensures r.Error? ==> spec.format.Jsonl? && exists i :: 0 <= i < |src.rows| && src.json(src.rows[i]).None?
      ensures !r.Exported? ==> files == old(files)
      ensures r.Exported? ==> InLimits(spec, src, Header(spec) + Lines(spec, src, Upto(r.rows, src.rows)), r.rows, r.truncated)
      ensures r.Exported? ==> files == old(files)[spec.destination := Header(spec) + Lines(spec, src, Upto(r.rows, src.rows))]
    {
      if spec.destination in files { return DestinationExists; }
      if cancelled { return Cancelled; }
      var rowLimit, byteLimit := Within(spec.rowLimit, 1, MAX_EXPORT_ROWS), Within(spec.byteLimit, 1024, MAX_EXPORT_BYTES);
      var written := WriteExport(spec, src, rowLimit, byteLimit);
      hide Header, Lines, Bytes, LineOf, Honest, InLimits;
      match written {
        case Failed =>
          OnlyJsonFails(spec, src, rowLimit, byteLimit);
          return Error;
        case Written(text, rows, _, truncated) =>
          LimitsKept(spec, src, written);
          files := files[spec.destination := text];
          r := Exported(rows, truncated);
      }
    }
  }

  // ---- what a reader of the file finds -------------------------------------------------------

  /** A cell as shown: with the guard on, a value that starts like a formula stands behind an
      apostrophe. */
  predicate ShownAs(on: bool, value: string, shown: string) {
    if on && value != [] && value[0] in {'=', '+', '-', '@'} then shown == ['\''] + value else shown == value
  }

  predicate NamesColumns(spec: Spec, names: seq<string>) {
    if spec.csvColumns != [] then names == spec.csvColumns
    else names == ["timestamp", "severity", "severity.number", "message", "trace_id", "span_id", "dataset", "record_id", "attributes"]
  }

  /** One record of a parsed export: each column's cell of the row, as shown. */
  predicate RecordOf(spec: Spec, src: Source, row: LogRow, names: seq<string>, record: seq<string>) {
    |record| == |names| && forall j :: 0 <= j < |names| ==> ShownAs(spec.formulaGuard, src.cell(row, names[j]), record[j])
  }

  /** What a CSV reader gets from the file: the columns that were asked for, or the nine defaults,
      and each row's own cells. */
  lemma CsvMeans(spec: Spec, src: Source, rows: seq<LogRow>)
    requires spec.format.Csv?
    ensures var table := Parse(Header(spec) + Lines(spec, src, rows));
      && table.Some? && |table.value| == |rows| + 1 && NamesColumns(spec, table.value[0])
      && forall i :: 0 <= i < |rows| ==> RecordOf(spec, src, rows[i], table.value[0], table.value[i + 1])
  {
    hide *;
    CsvReadsBack(spec, src, rows);
    ColumnsNamed(spec);
    forall i | 0 <= i < |rows| ensures RecordOf(spec, src, rows[i], Columns(spec), Cells(spec, src)(rows[i])) {
      CellsShown(spec, src, rows[i]);
    }
  }

  lemma ColumnsNamed(spec: Spec)
    ensures NamesColumns(spec, Columns(spec))
  {
  }

  lemma CellsShown(spec: Spec, src: Source, row: LogRow)
    ensures RecordOf(spec, src, row, Columns(spec), Cells(spec, src)(row))
  {
    hide Columns;
  }

  /** A JSON lines export holds one line per row, each the row's own serialisation. */
  lemma {:induction false} JsonlMeans(spec: Spec, src: Source, rows: seq<LogRow>)
    requires spec.format.Jsonl?
    requires forall row :: row in rows ==> src.json(row).Some? && '\n' !in src.json(row).value
    ensures var lines := Split('\n', Header(spec) + Lines(spec, src, rows));
      && |lines| == |rows| + 1 && lines[|rows|] == []
      && forall i :: 0 <= i < |rows| ==> src.json(rows[i]) == Some(lines[i])
  {
    assert Header(spec) + Lines(spec, src, rows) == Lines(spec, src, rows);
    if rows != [] {
      var front, row := rows[..|rows|-1], rows[|rows|-1];
      assert rows == front + [row] && row in rows;
      JsonlMeans(spec, src, front);
      var before, line := Lines(spec, src, front), src.json(row).value;
      assert Header(spec) + before == before;
      LinesSnoc(spec, src, front, row);
      hide Lines, Split;
      LastLine(before, line);
    }
  }

  /** Text that ends its last line, and one line more. */
  lemma LastLine(before: string, line: string)
    requires '\n' !in line && Split('\n', before)[|Split('\n', before)| - 1] == []
    ensures Split('\n', before + (line + ['\n'])) == Split('\n', before)[..|Split('\n', before)| - 1] + [line, []]
  {
    SplitTail('\n', before, line + ['\n']);
    LineAlone(line);
    hide *;
    LinesOn(Split('\n', before), line);
  }

  lemma LineAlone(line: string)
    requires '\n' !in line
    ensures Split('\n', line + ['\n']) == [line, []]
  {
    SplitJoined('\n', line, []);
    SplitOnePiece('\n', line);
    SplitOnePiece('\n', []);
    hide Split;
    assert line + ['\n'] + [] == line + ['\n'];
  }

  lemma LinesOn(x: seq<string>, line: string)
    requires x != [] && x[|x| - 1] == []
    ensures Continued(x, [line, []]) == x[..|x| - 1] + [line, []]
  {
    assert [] + line == line;
  }
}
