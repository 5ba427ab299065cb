/** CSV rendering of lib/cli/_format.js, read back by a reader for RFC 4180 section 2 with LF-separated records. */
module Csv {
  import opened Options

  /** A cell's value with the text `String` or `JSON.stringify` gives for it. */
  datatype Val = Absent | Scalar(text: string) | Structured(json: string)

  type Row = map<string, Val>

  function CellStr(v: Val): string {
    match v
    case Absent => ""
    case Scalar(text) => text
    case Structured(json) => json
  }

  function Cell(row: Row, column: string): string {
    if column in row then CellStr(row[column]) else ""
  }

  // ---------------------------------------------------------------- rendering

  predicate NeedsQuotes(s: string) {
    ',' in s || '"' in s || '\n' in s || '\r' in s
  }

  /** `s.replace(/"/g, '""')` */
  function DoubleQuotes(s: string): string {
    if s == "" then "" else (if s[0] == '"' then "\"\"" else [s[0]]) + DoubleQuotes(s[1..])
  }

  function EscapeCell(s: string): string {
    if NeedsQuotes(s) then "\"" + DoubleQuotes(s) + "\"" else s
  }

  function Join(parts: seq<string>, sep: char): string {
    if parts == [] then ""
    else if |parts| == 1 then parts[0]
    else parts[0] + [sep] + Join(parts[1..], sep)
  }

  function EscapeAll(cells: seq<string>): (r: seq<string>)
    ensures |r| == |cells|
  {
    seq(|cells|, i requires 0 <= i < |cells| => EscapeCell(cells[i]))
  }

  function RenderRecord(cells: seq<string>): string {
    Join(EscapeAll(cells), ',')
  }

  function RenderRecords(records: seq<seq<string>>): (r: seq<string>)
    ensures |r| == |records|
  {
    seq(|records|, i requires 0 <= i < |records| => RenderRecord(records[i]))
  }

  function Cells(row: Row, columns: seq<string>): seq<string> {
    seq(|columns|, i requires 0 <= i < |columns| => Cell(row, columns[i]))
  }

  /** The header and then the rows, as texts. */
  function Table(rows: seq<Row>, columns: seq<string>): seq<seq<string>> {
    [columns] + seq(|rows|, i requires 0 <= i < |rows| => Cells(rows[i], columns))
  }

  function RenderCsv(rows: seq<Row>, columns: seq<string>): string {
    Join(RenderRecords(Table(rows, columns)), '\n')
  }

  // ---------------------------------------------------------------- reading

  /** Text after an opening quote, up to the closing one: the content and what follows. */
  function ReadQuoted(s: string): (r: Option<(string, string)>)
    ensures r.Some? ==> |r.value.1| < |s|
  {
    if s == "" then None
    else if s[0] != '"' then
      var r := ReadQuoted(s[1..]);
      if r.None? then None else Some(([s[0]] + r.value.0, r.value.1))
    else if |s| >= 2 && s[1] == '"' then
      var r := ReadQuoted(s[2..]);
      if r.None? then None else Some((['"'] + r.value.0, r.value.1))
    else Some(("", s[1..]))
  }

  /** A field without quotes: text other than comma, quote, CR and LF. */
  function ReadBare(s: string): (r: (string, string))
    ensures |r.1| <= |s|
  {
    if s == "" || NeedsQuotes([s[0]]) then ("", s)
    else var (t, rest) := ReadBare(s[1..]); ([s[0]] + t, rest)
  }

  function ReadField(s: string): (r: Option<(string, string)>)
    ensures r.Some? ==> |r.value.1| <= |s|
  {
    if s != "" && s[0] == '"' then ReadQuoted(s[1..]) else Some(ReadBare(s))
  }

  /** Fields separated by single commas up to the end of the record. */
  function ReadRecord(s: string): (r: Option<(seq<string>, string)>)
    ensures r.Some? ==> |r.value.1| <= |s|
    decreases |s|
  {
    var f := ReadField(s);
    if f.None? then None
    else
      var (cell, rest) := f.value;
      if rest != "" && rest[0] == ',' then
        var r := ReadRecord(rest[1..]);
        if r.None? then None else Some(([cell] + r.value.0, r.value.1))
      else Some(([cell], rest))
  }

  /** Records separated by single LFs; anything else between records is an error. */
  function ReadCsv(s: string): Option<seq<seq<string>>>
    decreases |s|
  {
    var r := ReadRecord(s);
    if r.None? then None
    else
      var (record, rest) := r.value;
      if rest == "" then Some([record])
      else if rest[0] != '\n' then None
      else
        var more := ReadCsv(rest[1..]);
        if more.None? then None else Some([record] + more.value)
  }

  // ---------------------------------------------------------------- the round trip

  /** A separator or the end of the text. */
  predicate Stops(s: string) {
    s == "" || s[0] == ',' || s[0] == '\n'
  }

  /** One character inside quotes, doubled if it is a quote itself. */
  lemma ReadQuotedFirst(ch: char, tail: string, s: string, rest: string)
    requires ReadQuoted(tail) == Some((s, rest))
    ensures ReadQuoted((if ch == '"' then "\"\"" else [ch]) + tail) == Some(([ch] + s, rest))
  {
    if ch == '"' {
      assert ("\"\"" + tail)[2..] == tail;
    } else {
      assert ([ch] + tail)[1..] == tail;
    }
  }

  lemma ReadQuotedEnd(rest: string)
    requires rest == "" || rest[0] != '"'
    ensures ReadQuoted("\"" + rest) == Some(("", rest))
  {
    assert ("\"" + rest)[1..] == rest;
  }

  lemma {:induction false} QuotedRoundTrip(s: string, rest: string)
    requires rest == "" || rest[0] != '"'
    ensures ReadQuoted(DoubleQuotes(s) + "\"" + rest) == Some((s, rest))
  {
    hide ReadQuoted;
    if s == "" {
      ReadQuotedEnd(rest);
      assert DoubleQuotes(s) + "\"" + rest == "\"" + rest;
    } else {
      var tail := DoubleQuotes(s[1..]) + "\"" + rest;
      QuotedRoundTrip(s[1..], rest);
      ReadQuotedFirst(s[0], tail, s[1..], rest);
      assert [s[0]] + s[1..] == s;
      assert DoubleQuotes(s) + "\"" + rest == (if s[0] == '"' then "\"\"" else [s[0]]) + tail;
    }
  }

  lemma {:induction false} BareRoundTrip(s: string, rest: string)
    requires !NeedsQuotes(s) && Stops(rest)
    ensures ReadBare(s + rest) == (s, rest)
  {
    if s == "" {
      assert s + rest == rest;
    } else {
      assert s == [s[0]] + s[1..];
      assert (s + rest)[1..] == s[1..] + rest;
      assert s[0] in s;
      BareRoundTrip(s[1..], rest);
    }
  }

  lemma QuotedFieldRoundTrip(s: string, rest: string)
    requires rest == "" || rest[0] != '"'
    ensures ReadField("\"" + DoubleQuotes(s) + "\"" + rest) == Some((s, rest))
  {
    var inner := DoubleQuotes(s) + "\"" + rest;
    var text := "\"" + DoubleQuotes(s) + "\"" + rest;
    QuotedRoundTrip(s, rest);
    assert text == "\"" + inner;
    assert text[0] == '"' && text[1..] == inner;
  }

  lemma FieldRoundTrip(s: string, rest: string)
    requires Stops(rest)
    ensures ReadField(EscapeCell(s) + rest) == Some((s, rest))
  {
    if NeedsQuotes(s) {
      QuotedFieldRoundTrip(s, rest);
    } else {
      BareRoundTrip(s, rest);
      if s != "" {
        assert (s + rest)[0] == s[0] && s[0] in s;
      } else {
        assert s + rest == rest;
      }
    }
  }

  lemma {:induction false} RecordRoundTrip(cells: seq<string>, rest: string)
    requires cells != [] && (rest == "" || rest[0] == '\n')
    ensures ReadRecord(RenderRecord(cells) + rest) == Some((cells, rest))
    decreases |cells|
  {
    if |cells| == 1 {
      FieldRoundTrip(cells[0], rest);
      assert RenderRecord(cells) == EscapeCell(cells[0]) && [cells[0]] == cells;
    } else {
      var tail := RenderRecord(cells[1..]) + rest;
      assert EscapeAll(cells)[1..] == EscapeAll(cells[1..]);
      assert RenderRecord(cells) + rest == EscapeCell(cells[0]) + ("," + tail);
      FieldRoundTrip(cells[0], "," + tail);
      assert ("," + tail)[1..] == tail;
      RecordRoundTrip(cells[1..], rest);
      assert [cells[0]] + cells[1..] == cells;
    }
  }

  lemma {:induction false} RecordsRoundTrip(records: seq<seq<string>>)
    requires records != [] && forall i :: 0 <= i < |records| ==> records[i] != []
    ensures ReadCsv(Join(RenderRecords(records), '\n')) == Some(records)
    decreases |records|
  {
    if |records| == 1 {
      RecordRoundTrip(records[0], "");
      assert RenderRecord(records[0]) + "" == RenderRecord(records[0]);
      assert [records[0]] == records;
    } else {
      var tail := Join(RenderRecords(records[1..]), '\n');
      assert RenderRecords(records)[1..] == RenderRecords(records[1..]);
      assert Join(RenderRecords(records), '\n') == RenderRecord(records[0]) + ("\n" + tail);
      RecordRoundTrip(records[0], "\n" + tail);
      assert ("\n" + tail)[1..] == tail;
      RecordsRoundTrip(records[1..]);
      assert [records[0]] + records[1..] == records;
    }
  }

  /** Whatever the cells contain, the rendered table reads back as exactly its header and cell texts. */
  lemma CsvRoundTrip(rows: seq<Row>, columns: seq<string>)
    requires columns != []
    ensures ReadCsv(RenderCsv(rows, columns)) == Some(Table(rows, columns))
  {
    RecordsRoundTrip(Table(rows, columns));
  }

  /** With no columns at all the reader sees one empty cell per line instead: the round trip needs a column. */
  lemma RoundTripIffColumns(rows: seq<Row>, columns: seq<string>)
    ensures columns != [] <==> ReadCsv(RenderCsv(rows, columns)) == Some(Table(rows, columns))
  {
    if columns != [] {
      CsvRoundTrip(rows, columns);
    } else {
      assert Table(rows, columns)[0] == [];
    }
  }

  /** Distinct tables over the same columns render differently. */
  lemma RenderingInjective(rows: seq<Row>, rows': seq<Row>, columns: seq<string>)
    requires columns != [] && RenderCsv(rows, columns) == RenderCsv(rows', columns)
    ensures Table(rows, columns) == Table(rows', columns)
  {
    CsvRoundTrip(rows, columns);
    CsvRoundTrip(rows', columns);
  }

  /** Cell by cell: the reader gets the header, and for each row each column's text, empty where there is no value. */
  lemma CsvReadsCells(rows: seq<Row>, columns: seq<string>, i: nat, j: nat)
    requires i < |rows| && j < |columns|
    ensures var r := ReadCsv(RenderCsv(rows, columns));
            && r.Some? && |r.value| == |rows| + 1 && r.value[0] == columns && |r.value[i + 1]| == |columns|
            && (columns[j] !in rows[i] || rows[i][columns[j]].Absent? ==> r.value[i + 1][j] == "")
            && (columns[j] in rows[i] ==>
                  && (rows[i][columns[j]].Scalar? ==> r.value[i + 1][j] == rows[i][columns[j]].text)
                  && (rows[i][columns[j]].Structured? ==> r.value[i + 1][j] == rows[i][columns[j]].json))
  {
    CsvRoundTrip(rows, columns);
  }

  /** Quotes are used only where they are needed: other text stands in the output as it is. */
  lemma QuotedOnlyIfNeeded(s: string)
    ensures var special := exists i :: 0 <= i < |s| && s[i] in {',', '"', '\n', '\r'};
            && (!special ==> RenderCsv([], [s]) == s)
            && (special ==> RenderCsv([], [s]) != s && RenderCsv([], [s])[0] == '"')
  {
    assert RenderCsv([], [s]) == EscapeCell(s);
    if NeedsQuotes(s) && s != "" {
      assert |DoubleQuotes(s)| >= 0;
      assert EscapeCell(s)[0] == '"';
      Longer(s);
    }
  }

  lemma {:induction false} Longer(s: string)
    ensures |DoubleQuotes(s)| >= |s|
  {
    if s != "" {
      Longer(s[1..]);
    }
  }
}
