/** Bounded export (crates/logscope-app/src/export.rs): the CSV printer against a parser for
    section 2 of RFC 4180 (with LF line ends), and the row and byte limits. */
module CsvExport {
  import opened Rows
  import opened Sequences

  // ---- the printer -------------------------------------------------------------------

  predicate Special(c: char) { c == '"' || c == ',' || c == '\n' || c == '\r' }

  function Doubled(s: string): string {
    if s == [] then [] else (if s[0] == '"' then ['"', '"'] else [s[0]]) + Doubled(s[1..])
  }

  function Escape(cell: string): string {
    if exists i :: 0 <= i < |cell| && Special(cell[i]) then ['"'] + Doubled(cell) + ['"'] else cell
  }

  /** Escaped cells joined by commas, and a line feed. */
  function Line(cells: seq<string>): string {
    if cells == [] then ['\n']
    else if |cells| == 1 then Escape(cells[0]) + ['\n']
    else Escape(cells[0]) + [','] + Line(cells[1..])
  }

  function Document(records: seq<seq<string>>): string {
    if records == [] then [] else Line(records[0]) + Document(records[1..])
  }

  // ---- RFC 4180, section 2 -----------------------------------------------------------

  datatype Mode = FieldStart | Plain | Quoted | QuoteSeen

  /** What has been read: the records, the fields of the current one, the current field. */
  datatype Parser = Parser(mode: Mode, records: seq<seq<string>>, fields: seq<string>, field: string) {
    function Push(c: char, m: Mode): Parser { Parser(m, records, fields, field + [c]) }
    function EndField(): Parser { Parser(FieldStart, records, fields + [field], []) }
    function EndRecord(): Parser { Parser(FieldStart, records + [fields + [field]], [], []) }
  }

  /** One character, or None where the grammar has no such character. */
  function Step(p: Parser, c: char): Option<Parser> {
    match p.mode
    case Quoted => Some(if c == '"' then p.(mode := QuoteSeen) else p.Push(c, Quoted))
    case QuoteSeen =>
      if c == '"' then Some(p.Push(c, Quoted))
      else if c == ',' then Some(p.EndField())
      else if c == '\n' then Some(p.EndRecord())
      else None
    case _ =>
      if c == ',' then Some(p.EndField())
      else if c == '\n' then Some(p.EndRecord())
      else if c == '"' then (if p.mode.FieldStart? then Some(p.(mode := Quoted)) else None)
      else if c == '\r' then None
      else Some(p.Push(c, Plain))
  }

  function Consume(p: Parser, text: string): Option<Parser>
    decreases |text|
  {
    if text == [] then Some(p)
    else match Step(p, text[0]) case None => None case Some(next) => Consume(next, text[1..])
  }

  const START := Parser(FieldStart, [], [], [])

  /** The records of a document; the line end of the last record is optional. */
  function Parse(text: string): Option<seq<seq<string>>> {
    match Consume(START, text)
    case None => None
    case Some(p) =>
      if p.mode.Quoted? then None
      else if p.mode.FieldStart? && p.fields == [] then Some(p.records)
      else Some(p.EndRecord().records)
  }

  lemma {:induction false} ConsumeConcat(p: Parser, s: string, t: string)
    ensures Consume(p, s + t) == match Consume(p, s) case None => None case Some(next) => Consume(next, t)
    decreases |s|
  {
    if s == [] {
      assert s + t == t;
    } else {
      assert (s + t)[0] == s[0] && (s + t)[1..] == s[1..] + t;
      match Step(p, s[0]) {
        case None =>
        case Some(next) => ConsumeConcat(next, s[1..], t);
      }
    }
  }

  lemma {:induction false} ReadPlain(p: Parser, cell: string)
    requires forall i :: 0 <= i < |cell| ==> !Special(cell[i])
    requires p.mode.FieldStart? || p.mode.Plain?
    ensures Consume(p, cell) == Some(Parser(if cell == [] then p.mode else Plain, p.records, p.fields, p.field + cell))
    decreases |cell|
  {
    if cell == [] {
      assert p.field + cell == p.field;
    } else {
      assert !Special(cell[0]);
      var next := p.Push(cell[0], Plain);
      assert Step(p, cell[0]) == Some(next);
      ReadPlain(next, cell[1..]);
      assert p.field + cell == p.field + [cell[0]] + cell[1..];
    }
  }

  lemma {:induction false} ReadDoubled(p: Parser, cell: string)
    requires p.mode.Quoted?
    ensures Consume(p, Doubled(cell)) == Some(Parser(Quoted, p.records, p.fields, p.field + cell))
    decreases |cell|
  {
    if cell == [] {
      assert p.field + cell == p.field;
    } else {
      var head := if cell[0] == '"' then ['"', '"'] else [cell[0]];
      var next := p.Push(cell[0], Quoted);
      ReadOne(p, cell[0]);
      if cell[0] == '"' {
        ReadOne(p.(mode := QuoteSeen), '"');
        ConsumeConcat(p, ['"'], ['"']);
        assert ['"'] + ['"'] == head;
      }
      ConsumeConcat(p, head, Doubled(cell[1..]));
      ReadDoubled(next, cell[1..]);
      assert p.field + cell == p.field + [cell[0]] + cell[1..];
    }
  }

  predicate Ready(p: Parser) { p.mode.FieldStart? && p.field == [] }

  /** Whatever a cell holds, its printed form reads back as that cell, up to its separator. */
  lemma ReadCell(p: Parser, cell: string, end: char)
    requires Ready(p) && (end == ',' || end == '\n')
    ensures Consume(p, Escape(cell) + [end]) ==
      Some(if end == ',' then p.(field := cell).EndField() else p.(field := cell).EndRecord())
  {
    if exists i :: 0 <= i < |cell| && Special(cell[i]) {
      var open := p.(mode := Quoted);
      ConsumeConcat(p, ['"'] + Doubled(cell) + ['"'], [end]);
      ConsumeConcat(p, ['"'] + Doubled(cell), ['"']);
      ConsumeConcat(p, ['"'], Doubled(cell));
      ReadDoubled(open, cell);
      ReadOne(p, '"');
      ReadOne(Parser(Quoted, p.records, p.fields, cell), '"');
      ReadOne(Parser(QuoteSeen, p.records, p.fields, cell), end);
      hide Consume, Doubled;
      assert [] + cell == cell;
    } else {
      ConsumeConcat(p, cell, [end]);
      ReadPlain(p, cell);
      ReadOne(Parser(if cell == [] then p.mode else Plain, p.records, p.fields, cell), end);
      assert [] + cell == cell;
    }
  }

  lemma ReadOne(p: Parser, c: char)
    ensures Consume(p, [c]) == Step(p, c)
  {
    assert [c][1..] == [];
  }

  lemma {:induction false} ReadLine(p: Parser, cells: seq<string>)
    requires Ready(p) && cells != []
    ensures Consume(p, Line(cells)) == Some(Parser(FieldStart, p.records + [p.fields + cells], [], []))
    decreases |cells|
  {
    if |cells| == 1 {
      ReadCell(p, cells[0], '\n');
      assert p.fields + cells == p.fields + [cells[0]];
    } else {
      ReadCell(p, cells[0], ',');
      hide Consume, Escape;
      ConsumeConcat(p, Escape(cells[0]) + [','], Line(cells[1..]));
      ReadLine(p.(field := cells[0]).EndField(), cells[1..]);
      assert p.fields + cells == p.fields + [cells[0]] + cells[1..];
    }
  }

  lemma {:induction false} ReadDocument(p: Parser, records: seq<seq<string>>)
    requires Ready(p) && p.fields == []
    requires forall i :: 0 <= i < |records| ==> records[i] != []
    ensures Consume(p, Document(records)) == Some(Parser(FieldStart, p.records + records, [], []))
    decreases |records|
  {
    if records == [] {
      assert p.records + records == p.records;
    } else {
      ReadLine(p, records[0]);
      hide Consume, Line;
      ConsumeConcat(p, Line(records[0]), Document(records[1..]));
      assert [] + records[0] == records[0];
      ReadDocument(Parser(FieldStart, p.records + [records[0]], [], []), records[1..]);
      assert p.records + records == p.records + [records[0]] + records[1..];
    }
  }

  /** Round trip: any table of non-empty records parses back to itself, whatever its cells hold. */
  lemma RoundTrip(records: seq<seq<string>>)
    requires forall i :: 0 <= i < |records| ==> records[i] != []
    ensures Parse(Document(records)) == Some(records)
  {
    ReadDocument(START, records);
    assert [] + records == records;
  }

  // ---- the formula guard ---------------------------------------------------------------

  predicate Formula(s: string) { s != [] && (s[0] == '=' || s[0] == '+' || s[0] == '-' || s[0] == '@') }

  function Guard(s: string, on: bool): (r: string)
    ensures on ==> !Formula(r)
  {
    if on && Formula(s) then ['\''] + s else s
  }

  /** The guard is not invertible, and loses exactly this: a formula and the same text already
      written with a leading apostrophe export alike. */
  lemma GuardCollides(a: string, b: string)
    ensures Guard(a, true) == Guard(b, true) <==>
      a == b || (Formula(a) && b == ['\''] + a) || (Formula(b) && a == ['\''] + b)
  {
    if Formula(a) && Formula(b) && Guard(a, true) == Guard(b, true) {
      assert (['\''] + a)[1..] == a && (['\''] + b)[1..] == b;
    }
  }
}
