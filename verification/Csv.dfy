/** The CSV printer of the final report (control-plane/reporting/final-report.mjs) and a reader for its output. */
module Csv {
  import opened Common

  // ---- printer ----

  predicate NeedsQuotes(s: string) {
    '"' in s || ',' in s || '\n' in s
  }

  /** s.replace(/"/g, '""') */
  function DoubleQuotes(s: string): string {
    if s == "" then ""
    else (if s[0] == '"' then ['"', '"'] else [s[0]]) + DoubleQuotes(s[1..])
  }

  function CsvCell(s: string): string {
    if NeedsQuotes(s) then ['"'] + DoubleQuotes(s) + ['"'] else s
  }

  function Join(parts: seq<string>, sep: char): string {
    if parts == [] then ""
    else if |parts| == 1 then parts[0]
    else parts[0] + [sep] + Join(parts[1..], sep)
  }

  function Cells(row: seq<string>): seq<string> {
    seq(|row|, i requires 0 <= i < |row| => CsvCell(row[i]))
  }

  function Line(row: seq<string>): string {
    Join(Cells(row), ',')
  }

  function Lines(rows: seq<seq<string>>): seq<string> {
    seq(|rows|, i requires 0 <= i < |rows| => Line(rows[i]))
  }

  function RenderRows(rows: seq<seq<string>>): string {
    Join(Lines(rows), '\n')
  }

  // ---- reader: the quoting rules of section 2 of RFC 4180, with LF as the record break ----

  datatype Read<+T> = Read(value: T, rest: string) | Malformed

  predicate EndsField(s: string) {
    s == "" || s[0] == ',' || s[0] == '\n'
  }

  /** The inside of a quoted field: two quotes stand for one, a single quote closes the field. */
  function ReadQuoted(s: string): (r: Read<string>)
    ensures r.Read? ==> |r.rest| < |s|
    decreases |s|
  {
    if s == "" then Malformed
    else if s[0] != '"' then
      match ReadQuoted(s[1..])
      case Read(v, rest) => Read([s[0]] + v, rest)
      case Malformed => Malformed
    else if |s| > 1 && s[1] == '"' then
      match ReadQuoted(s[2..])
      case Read(v, rest) => Read(['"'] + v, rest)
      case Malformed => Malformed
    else if EndsField(s[1..]) then Read("", s[1..])
    else Malformed
  }

  /** An unquoted field runs to the next comma or line break and holds no quote. */
  function ReadPlain(s: string): (r: Read<string>)
    ensures r.Read? ==> |r.rest| <= |s|
    decreases |s|
  {
    if EndsField(s) then Read("", s)
    else if s[0] == '"' then Malformed
    else
      match ReadPlain(s[1..])
      case Read(v, rest) => Read([s[0]] + v, rest)
      case Malformed => Malformed
  }

  function ReadField(s: string): (r: Read<string>)
    ensures r.Read? ==> |r.rest| <= |s|
  {
    if s != "" && s[0] == '"' then ReadQuoted(s[1..]) else ReadPlain(s)
  }

  function ReadRecord(s: string): (r: Read<seq<string>>)
    ensures r.Read? ==> |r.rest| <= |s|
    decreases |s|
  {
    match ReadField(s)
    case Malformed => Malformed
    case Read(field, rest) =>
      if rest != "" && rest[0] == ',' then
        match ReadRecord(rest[1..])
        case Read(fields, rest') => Read([field] + fields, rest')
        case Malformed => Malformed
      else Read([field], rest)
  }

  function ReadRecords(s: string): Option<seq<seq<string>>>
    decreases |s|
  {
    match ReadRecord(s)
    case Malformed => None
    case Read(record, rest) =>
      if rest != "" && rest[0] == '\n' then
        match ReadRecords(rest[1..])
        case Some(records) => Some([record] + records)
        case None => None
      else if rest == "" then Some([record])
      else None
  }

  // ---- round trip ----

  lemma {:induction false} QuotedReadsBack(f: string, rest: string)
    requires EndsField(rest)
    ensures ReadQuoted(DoubleQuotes(f) + ['"'] + rest) == Read(f, rest)
  {
    var s := DoubleQuotes(f) + ['"'] + rest;
    if f == "" {
      assert s[1..] == rest;
    } else {
      QuotedReadsBack(f[1..], rest);
      assert f == [f[0]] + f[1..];
      var tail := DoubleQuotes(f[1..]) + ['"'] + rest;
      if f[0] == '"' {
        assert s == ['"', '"'] + tail;
        assert s[2..] == tail;
      } else {
        assert s == [f[0]] + tail;
        assert s[1..] == tail;
      }
    }
  }

  lemma {:induction false} PlainReadsBack(f: string, rest: string)
    requires !NeedsQuotes(f) && EndsField(rest)
    ensures ReadPlain(f + rest) == Read(f, rest)
  {
    if f == "" {
      assert f + rest == rest;
    } else {
      assert (f + rest)[1..] == f[1..] + rest;
      assert f == [f[0]] + f[1..];
      PlainReadsBack(f[1..], rest);
    }
  }

  lemma QuotedCellReadsBack(f: string, rest: string)
    requires EndsField(rest)
    ensures ReadField(['"'] + DoubleQuotes(f) + ['"'] + rest) == Read(f, rest)
  {
    var inside := DoubleQuotes(f) + ['"'] + rest;
    assert ['"'] + DoubleQuotes(f) + ['"'] + rest == ['"'] + inside;
    assert (['"'] + inside)[1..] == inside;
    QuotedReadsBack(f, rest);
  }

  lemma PlainCellReadsBack(f: string, rest: string)
    requires !NeedsQuotes(f) && EndsField(rest)
    ensures ReadField(f + rest) == Read(f, rest)
  {
    if f != "" {
      assert (f + rest)[0] == f[0] && f[0] in f;
    } else {
      assert f + rest == rest;
    }
    PlainReadsBack(f, rest);
  }

  lemma CellReadsBack(f: string, rest: string)
    requires EndsField(rest)
    ensures ReadField(CsvCell(f) + rest) == Read(f, rest)
  {
    if NeedsQuotes(f) {
      QuotedCellReadsBack(f, rest);
    } else {
      PlainCellReadsBack(f, rest);
    }
  }

  lemma {:induction false} LineReadsBack(row: seq<string>, rest: string)
    requires row != [] && (rest == "" || rest[0] == '\n')
    ensures ReadRecord(Line(row) + rest) == Read(row, rest)
  {
    if |row| == 1 {
      CellReadsBack(row[0], rest);
      assert row == [row[0]];
    } else {
      var more := Line(row[1..]) + rest;
      assert Cells(row)[1..] == Cells(row[1..]);
      assert Line(row) + rest == CsvCell(row[0]) + ([','] + more);
      CellReadsBack(row[0], [','] + more);
      assert ([','] + more)[1..] == more;
      LineReadsBack(row[1..], rest);
      assert row == [row[0]] + row[1..];
    }
  }

  /** Every table of non-empty rows reads back exactly, whatever quotes, commas and line breaks its cells hold. */
  lemma {:induction false} CsvRoundTrip(rows: seq<seq<string>>)
    requires rows != [] && forall r :: r in rows ==> r != []
    ensures ReadRecords(RenderRows(rows)) == Some(rows)
  {
    assert rows[0] in rows;
    if |rows| == 1 {
      assert RenderRows(rows) == Line(rows[0]) + "";
      LineReadsBack(rows[0], "");
      assert rows == [rows[0]];
    } else {
      var more := RenderRows(rows[1..]);
      assert Lines(rows)[1..] == Lines(rows[1..]);
      assert RenderRows(rows) == Line(rows[0]) + (['\n'] + more);
      LineReadsBack(rows[0], ['\n'] + more);
      assert (['\n'] + more)[1..] == more;
      assert rows == [rows[0]] + rows[1..];
      forall r | r in rows[1..] ensures r != [] {
        assert r in rows;
      }
      CsvRoundTrip(rows[1..]);
    }
  }
}
