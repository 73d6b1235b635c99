/**
 * The CSV export of the data table: a header line and one line per table
 * row, fields separated by commas and lines by newlines, a field quoted
 * when it holds a quote, a comma or a newline, with its quotes doubled.
 *
 * A reader for that format is defined beside the writer, and reading the
 * export back yields exactly the header and the rows' cells.
 */
module Csv {
  import opened Wrappers
  import opened Seqs
  import opened Strings
  import opened Table

  /** The column names, which are also the row keys read into each line. */
  const Headers: seq<string> :=
    ["year", "scope", "entity", "metric", "value", "members_or_lives", "contracts", "codes"]

  /** A field must be quoted when it holds a quote, a comma or a newline. */
  predicate NeedsQuotes(s: string) {
    '"' in s || ',' in s || '\n' in s
  }

  /** Each quote written twice. */
  function DoubleQuotes(s: string): (r: string)
    ensures '"' !in s ==> r == s
  {
    if s == [] then []
    else (if s[0] == '"' then "\"\"" else [s[0]]) + DoubleQuotes(s[1..])
  }

  /** `esc`: a field that needs it is quoted, its quotes doubled; any other is kept as it is. */
  function Esc(s: string): (r: string)
    ensures !NeedsQuotes(s) ==> r == s
    ensures NeedsQuotes(s) ==> |r| >= 2 && r[0] == '"' && r[|r| - 1] == '"'
  {
    if NeedsQuotes(s) then "\"" + DoubleQuotes(s) + "\"" else s
  }

  /** `String(v)` of a cell: a number through `numText`, the empty string as it is. */
  function CellText(c: Cell, numText: real -> string): string {
    match c
    case NumberCell(n) => numText(n)
    case EmptyCell => ""
  }

  /**
   * The fields of a row, in header order. `numText` stands for JavaScript's
   * `String(number)`, applied to the value, `members_or_lives` and
   * `contracts`; years are integers and are written in decimal.
   */
  function RowCells(r: TableRow, numText: real -> string): (cells: seq<string>)
    ensures |cells| == |Headers|
    ensures cells[1] == r.scope && cells[2] == r.entity && cells[3] == r.metric && cells[7] == r.codes
  {
    [IntText(r.year), r.scope, r.entity, r.metric, numText(r.value),
     CellText(r.membersOrLives, numText), CellText(r.contracts, numText), r.codes]
  }

  /** One line: the escaped fields joined by commas. */
  function Line(cells: seq<string>): string {
    Join(MapSeq(cells, Esc), ",")
  }

  /** `toCsv`: the header line, then one line per row, joined by newlines. */
  function ToCsv(rows: seq<TableRow>, numText: real -> string): string {
    Join([Line(Headers)] + MapSeq(rows, (r: TableRow) => Line(RowCells(r, numText))), "\n")
  }

  /**
   * Reads the body of a quoted field up to its closing quote, a doubled
   * quote standing for one; gives the body and what follows the quote.
   */
  function QuotedBody(t: string): (r: Option<(string, string)>)
    ensures r.Some? ==> |r.value.1| < |t|
  {
    if t == [] then None
    else if t[0] == '"' then
      if |t| >= 2 && t[1] == '"' then
        match QuotedBody(t[2..])
        case None => None
        case Some(p) => Some(("\"" + p.0, p.1))
      else Some(("", t[1..]))
    else
      match QuotedBody(t[1..])
      case None => None
      case Some(p) => Some(([t[0]] + p.0, p.1))
  }

  /** Reads an unquoted field up to the next comma, newline or the end. */
  function PlainField(t: string): (r: (string, string))
    ensures |r.1| <= |t|
  {
    if t == [] || t[0] == ',' || t[0] == '\n' then ("", t)
    else
      var p := PlainField(t[1..]);
      ([t[0]] + p.0, p.1)
  }

  /** Reads one field, quoted or not; gives the field and the rest of the text. */
  function ParseField(t: string): (r: Option<(string, string)>)
    ensures r.Some? ==> |r.value.1| <= |t|
  {
    if t != [] && t[0] == '"' then QuotedBody(t[1..]) else Some(PlainField(t))
  }

  /** Reads comma-separated fields up to a newline or the end. */
  function ParseRecord(t: string): (r: Option<(seq<string>, string)>)
    ensures r.Some? ==> |r.value.1| <= |t|
    decreases |t|
  {
    match ParseField(t)
    case None => None
    case Some(p) =>
      var rest := p.1;
      if rest != [] && rest[0] == ',' then
        match ParseRecord(rest[1..])
        case None => None
        case Some(q) => Some(([p.0] + q.0, q.1))
      else Some(([p.0], rest))
  }

  /** Reads newline-separated records to the end of the text. */
  function ParseCsv(t: string): Option<seq<seq<string>>>
    decreases |t|
  {
    match ParseRecord(t)
    case None => None
    case Some(p) =>
      var rest := p.1;
      if rest == [] then Some([p.0])
      else if rest[0] == '\n' then
        match ParseCsv(rest[1..])
        case None => None
        case Some(rs) => Some([p.0] + rs)
      else None
  }

  lemma {:induction false} QuotedBodyRoundTrip(s: string, rest: string)
    requires rest == [] || rest[0] != '"'
    ensures QuotedBody(DoubleQuotes(s) + "\"" + rest) == Some((s, rest))
  {
    var t := DoubleQuotes(s) + "\"" + rest;
    if s == [] {
      assert t == "\"" + rest;
      assert t[1..] == rest;
    } else {
      var u := DoubleQuotes(s[1..]) + "\"" + rest;
      QuotedBodyRoundTrip(s[1..], rest);
      if s[0] == '"' {
        assert t == "\"\"" + u;
        assert t[2..] == u;
        assert "\"" + s[1..] == s;
      } else {
        assert t == [s[0]] + u;
        assert t[1..] == u;
        assert [s[0]] + s[1..] == s;
      }
    }
  }

  lemma {:induction false} PlainFieldRoundTrip(s: string, rest: string)
    requires ',' !in s && '\n' !in s
    requires rest == [] || rest[0] == ',' || rest[0] == '\n'
    ensures PlainField(s + rest) == (s, rest)
  {
    if s != [] {
      assert (s + rest)[1..] == s[1..] + rest;
      PlainFieldRoundTrip(s[1..], rest);
      assert s == [s[0]] + s[1..];
    } else {
      assert s + rest == rest;
    }
  }

  /** An escaped field followed by a separator or the end reads back as the field. */
  lemma FieldRoundTrip(s: string, rest: string)
    requires rest == [] || rest[0] == ',' || rest[0] == '\n'
    ensures ParseField(Esc(s) + rest) == Some((s, rest))
  {
    var t := Esc(s) + rest;
    if NeedsQuotes(s) {
      var body := DoubleQuotes(s) + "\"" + rest;
      assert t == "\"" + body;
      assert t[0] == '"' && t[1..] == body;
      QuotedBodyRoundTrip(s, rest);
    } else {
      assert t == s + rest;
      PlainFieldRoundTrip(s, rest);
      assert t == [] || t[0] != '"' by {
        if s != [] {
          assert t[0] == s[0];
        }
      }
    }
  }

  lemma MapEscTail(cells: seq<string>)
    requires cells != []
    ensures MapSeq(cells, Esc)[1..] == MapSeq(cells[1..], Esc)
  {
  }

  /** A line followed by a newline or the end reads back as its cells. */
  lemma {:induction false} RecordRoundTrip(cells: seq<string>, rest: string)
    requires cells != []
    requires rest == [] || rest[0] == '\n'
    ensures ParseRecord(Line(cells) + rest) == Some((cells, rest))
  {
    if |cells| == 1 {
      assert Line(cells) == Esc(cells[0]);
      FieldRoundTrip(cells[0], rest);
      assert cells == [cells[0]];
    } else {
      MapEscTail(cells);
      var tail := "," + Line(cells[1..]) + rest;
      assert Line(cells) + rest == Esc(cells[0]) + tail;
      FieldRoundTrip(cells[0], tail);
      assert tail[1..] == Line(cells[1..]) + rest;
      RecordRoundTrip(cells[1..], rest);
      assert cells == [cells[0]] + cells[1..];
    }
  }

  lemma MapLineTail(lines: seq<seq<string>>)
    requires lines != []
    ensures MapSeq(lines, Line)[1..] == MapSeq(lines[1..], Line)
  {
  }

  /** Lines of at least one field each, joined by newlines, read back as those lines. */
  lemma {:induction false} CsvRoundTrip(lines: seq<seq<string>>)
    requires lines != []
    requires forall i :: 0 <= i < |lines| ==> lines[i] != []
    ensures ParseCsv(Join(MapSeq(lines, Line), "\n")) == Some(lines)
  {
    if |lines| == 1 {
      assert Join(MapSeq(lines, Line), "\n") == Line(lines[0]) + "";
      RecordRoundTrip(lines[0], "");
      assert lines == [lines[0]];
    } else {
      MapLineTail(lines);
      var rest := Join(MapSeq(lines[1..], Line), "\n");
      assert Join(MapSeq(lines, Line), "\n") == Line(lines[0]) + ("\n" + rest);
      RecordRoundTrip(lines[0], "\n" + rest);
      assert ("\n" + rest)[1..] == rest;
      CsvRoundTrip(lines[1..]);
      assert lines == [lines[0]] + lines[1..];
    }
  }

  /**
   * Reading the export back gives the header followed by each row's cells,
   * in table order, whatever the cells hold.
   */
  lemma ToCsvRoundTrip(rows: seq<TableRow>, numText: real -> string)
    ensures ParseCsv(ToCsv(rows, numText))
         == Some([Headers] + MapSeq(rows, (r: TableRow) => RowCells(r, numText)))
  {
    var lines := [Headers] + MapSeq(rows, (r: TableRow) => RowCells(r, numText));
    assert [Line(Headers)] + MapSeq(rows, (r: TableRow) => Line(RowCells(r, numText))) == MapSeq(lines, Line);
    CsvRoundTrip(lines);
  }
}
