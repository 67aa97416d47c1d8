/** The CSV export and a reader that follows section 2 of RFC 4180 with LF line
    ends: fields are plain or quoted, a quote inside a quoted field is doubled, and
    the last record may or may not be followed by a line break. */
module Csv {
  import opened Text

  // ------------------------------------------------------------------ printer

  function DoubleQuotes(s: string): string {
    if s == "" then ""
    else (if s[0] == '"' then "\"\"" else [s[0]]) + DoubleQuotes(s[1..])
  }

  function Escape(value: string): string {
    "\"" + DoubleQuotes(value) + "\""
  }

  function EscapeAll(row: seq<string>): (cells: seq<string>)
    ensures |cells| == |row|
  {
    seq(|row|, i requires 0 <= i < |row| => Escape(row[i]))
  }

  function Line(row: seq<string>): string {
    Join(EscapeAll(row), ",")
  }

  function Lines(records: seq<seq<string>>): seq<string> {
    seq(|records|, i requires 0 <= i < |records| => Line(records[i]))
  }

  function Print(headers: seq<string>, rows: seq<seq<string>>): string {
    Join(Lines([headers] + rows), "\n")
  }

  // ------------------------------------------------------------------- reader

  datatype Parsed<+T> = Parsed(value: T, rest: string) | Malformed

  /** The inside of a quoted field, up to and including its closing quote. */
  function ReadQuoted(s: string): (p: Parsed<string>)
    ensures p.Parsed? ==> |p.rest| < |s|
  {
    if s == "" then Malformed
    else if s[0] != '"' then
      var p := ReadQuoted(s[1..]);
      if p.Parsed? then Parsed([s[0]] + p.value, p.rest) else Malformed
    else if |s| > 1 && s[1] == '"' then
      var p := ReadQuoted(s[2..]);
      if p.Parsed? then Parsed("\"" + p.value, p.rest) else Malformed
    else Parsed("", s[1..])
  }

  function ReadPlain(s: string): (p: Parsed<string>)
    ensures p.Parsed? ==> |p.rest| <= |s|
  {
    if s == "" || s[0] == ',' || s[0] == '\n' then Parsed("", s)
    else if s[0] == '"' then Malformed
    else
      var p := ReadPlain(s[1..]);
      if p.Parsed? then Parsed([s[0]] + p.value, p.rest) else Malformed
  }

  function ReadField(s: string): (p: Parsed<string>)
    ensures p.Parsed? ==> |p.rest| <= |s|
  {
    if s != "" && s[0] == '"' then ReadQuoted(s[1..]) else ReadPlain(s)
  }

  function ReadRecord(s: string): (p: Parsed<seq<string>>)
    ensures p.Parsed? ==> |p.rest| <= |s|
    decreases |s|
  {
    var f := ReadField(s);
    if f.Malformed? then Malformed
    else if f.rest == "" || f.rest[0] != ',' then Parsed([f.value], f.rest)
    else
      var p := ReadRecord(f.rest[1..]);
      if p.Parsed? then Parsed([f.value] + p.value, p.rest) else Malformed
  }

  /** All records of the text. */
  function Read(s: string): Parsed<seq<seq<string>>>
    decreases |s|
  {
    var r := ReadRecord(s);
    if r.Malformed? then Malformed
    else if r.rest == "" || r.rest == "\n" then Parsed([r.value], "")
    else if r.rest[0] != '\n' then Malformed
    else
      var p := Read(r.rest[1..]);
      if p.Parsed? then Parsed([r.value] + p.value, p.rest) else Malformed
  }

  // --------------------------------------------------------------- round trip

  lemma {:induction false} QuotedRoundTrip(s: string, rest: string)
    requires rest == "" || rest[0] != '"'
    ensures ReadQuoted(DoubleQuotes(s) + "\"" + rest) == Parsed(s, rest)
  {
    var text := DoubleQuotes(s) + "\"" + rest;
    if s == "" {
      assert text == "\"" + rest;
    } else {
      QuotedRoundTrip(s[1..], rest);
      var tail := DoubleQuotes(s[1..]) + "\"" + rest;
      if s[0] == '"' {
        assert text == "\"\"" + tail;
        assert text[2..] == tail;
      } else {
        assert text == [s[0]] + tail;
        assert text[1..] == tail;
      }
      assert [s[0]] + s[1..] == s;
    }
  }

  lemma {:induction false} FieldRoundTrip(s: string, rest: string)
    requires rest == "" || rest[0] != '"'
    ensures ReadField(Escape(s) + rest) == Parsed(s, rest)
  {
    QuotedRoundTrip(s, rest);
    assert (Escape(s) + rest)[1..] == DoubleQuotes(s) + "\"" + rest;
  }

  lemma {:induction false} RecordRoundTrip(row: seq<string>, rest: string)
    requires row != [] && (rest == "" || rest[0] == '\n')
    ensures ReadRecord(Line(row) + rest) == Parsed(row, rest)
  {
    if |row| == 1 {
      FieldRoundTrip(row[0], rest);
      assert Line(row) == Escape(row[0]) && row == [row[0]];
    } else {
      var tail := "," + (Line(row[1..]) + rest);
      assert EscapeAll(row)[1..] == EscapeAll(row[1..]);
      assert Line(row) + rest == Escape(row[0]) + tail;
      FieldRoundTrip(row[0], tail);
      RecordRoundTrip(row[1..], rest);
      assert tail[1..] == Line(row[1..]) + rest;
      assert [row[0]] + row[1..] == row;
    }
  }

  /** An empty row prints an empty line, which reads back as one empty cell. */
  lemma {:induction false} EmptyRecordReads(rest: string)
    requires rest == "" || rest[0] == '\n'
    ensures ReadRecord(Line([]) + rest) == Parsed([""], rest)
  {
    assert Line([]) + rest == rest;
  }

  /** Every row with at least one cell prints a non-empty line. */
  lemma {:induction false} LineIsEmptyIff(row: seq<string>)
    ensures Line(row) == "" <==> row == []
  {
    if row != [] {
      assert EscapeAll(row)[0] == Escape(row[0]);
    }
  }

  lemma {:induction false} LinesTail(records: seq<seq<string>>)
    requires |records| >= 2
    ensures Join(Lines(records), "\n") == Line(records[0]) + "\n" + Join(Lines(records[1..]), "\n")
  {
    assert Lines(records)[1..] == Lines(records[1..]);
  }

  lemma {:induction false} TextIsNotEmpty(records: seq<seq<string>>)
    requires records != [] && records != [[]]
    ensures Join(Lines(records), "\n") != ""
  {
    if |records| == 1 {
      LineIsEmptyIff(records[0]);
    } else {
      LinesTail(records);
    }
  }

  /** Reading a text whose first record is `row`. */
  lemma {:induction false} ReadFirst(row: seq<string>, records: seq<seq<string>>)
    requires records != []
    ensures var text := Join(Lines([row] + records), "\n");
            var tail := Read(Join(Lines(records), "\n"));
            var first := if row == [] then [""] else row;
            Read(text) == if records == [[]] then Parsed([first], "")
                          else if tail.Parsed? then Parsed([first] + tail.value, tail.rest)
                          else Malformed
  {
    var tail := Join(Lines(records), "\n");
    LinesTail([row] + records);
    assert ([row] + records)[1..] == records;
    var rest := "\n" + tail;
    var text := Join(Lines([row] + records), "\n");
    assert text == Line(row) + rest;
    if row == [] { EmptyRecordReads(rest); } else { RecordRoundTrip(row, rest); }
    assert rest[1..] == tail;
    if records == [[]] {
      assert tail == "";
    } else {
      TextIsNotEmpty(records);
      assert rest != "\n";
    }
  }

  /** The reader recovers every non-empty list of non-empty records. */
  lemma {:induction false} RecordsRoundTrip(records: seq<seq<string>>)
    requires records != [] && forall i :: 0 <= i < |records| ==> records[i] != []
    ensures Read(Join(Lines(records), "\n")) == Parsed(records, "")
  {
    if |records| == 1 {
      RecordRoundTrip(records[0], "");
      assert Line(records[0]) + "" == Line(records[0]) == Lines(records)[0];
      assert records == [records[0]];
    } else {
      RecordsRoundTrip(records[1..]);
      ReadFirst(records[0], records[1..]);
      assert [records[0]] + records[1..] == records;
    }
  }

  /** A record without cells is never read back. */
  lemma {:induction false} EmptyRecordIsLost(records: seq<seq<string>>, i: nat)
    requires i < |records| && records[i] == []
    ensures Read(Join(Lines(records), "\n")) != Parsed(records, "")
  {
    if |records| == 1 {
      EmptyRecordReads("");
    } else {
      var tail := records[1..];
      ReadFirst(records[0], tail);
      assert [records[0]] + tail == records;
      if i > 0 {
        EmptyRecordIsLost(tail, i - 1);
        assert records[1..] == tail;
      }
    }
  }

  /** The exported text reads back as the header and rows exactly when none of them
      is without cells, whatever characters the cells hold. */
  lemma {:induction false} ExportRoundTrip(headers: seq<string>, rows: seq<seq<string>>)
    ensures Read(Print(headers, rows)) == Parsed([headers] + rows, "") <==>
            headers != [] && forall i :: 0 <= i < |rows| ==> rows[i] != []
  {
    var records := [headers] + rows;
    if headers == [] {
      EmptyRecordIsLost(records, 0);
    } else if i :| 0 <= i < |rows| && rows[i] == [] {
      assert records[i + 1] == [];
      EmptyRecordIsLost(records, i + 1);
    } else {
      RecordsRoundTrip(records);
    }
  }

  /** What follows the first line of a text of several. */
  lemma {:induction false} FirstLineSplits(records: seq<seq<string>>) returns (rest: string)
    requires records != []
    ensures Join(Lines(records), "\n") == Line(records[0]) + rest
    ensures rest == if |records| == 1 then "" else "\n" + Join(Lines(records[1..]), "\n")
    ensures records[0] != [] ==> ReadRecord(Join(Lines(records), "\n")) == Parsed(records[0], rest)
  {
    if |records| == 1 {
      rest := "";
      assert Lines(records) == [Line(records[0])];
    } else {
      rest := "\n" + Join(Lines(records[1..]), "\n");
      LinesTail(records);
    }
    if records[0] != [] {
      RecordRoundTrip(records[0], rest);
    }
  }

  /** The text of a first line with cells starts with a quote; that of one without
      starts with the line break or is empty. */
  lemma {:induction false} QuoteIffCells(row: seq<string>, rest: string, text: string)
    requires text == Line(row) + rest && (rest == "" || rest[0] == '\n')
    ensures row != [] <==> text != "" && text[0] == '"'
    ensures row == [] ==> text == rest
  {
    if row == [] {
      assert Line(row) == "";
    } else {
      assert EscapeAll(row)[0] == Escape(row[0]);
    }
  }

  lemma {:induction false} FirstRecordIsShared(a: seq<seq<string>>, b: seq<seq<string>>)
    requires a != [] && b != [] && Join(Lines(a), "\n") == Join(Lines(b), "\n")
    ensures a[0] == b[0]
    ensures |a| == 1 <==> |b| == 1
    ensures |a| > 1 ==> Join(Lines(a[1..]), "\n") == Join(Lines(b[1..]), "\n")
  {
    var restA := FirstLineSplits(a);
    var restB := FirstLineSplits(b);
    var text := Join(Lines(a), "\n");
    QuoteIffCells(a[0], restA, text);
    QuoteIffCells(b[0], restB, text);
    assert restA == restB;
    if |a| > 1 {
      assert restA[1..] == Join(Lines(a[1..]), "\n") && restB[1..] == Join(Lines(b[1..]), "\n");
    }
  }

  lemma {:induction false} LinesAreInjective(a: seq<seq<string>>, b: seq<seq<string>>)
    requires a != [] && b != [] && Join(Lines(a), "\n") == Join(Lines(b), "\n")
    ensures a == b
  {
    FirstRecordIsShared(a, b);
    if |a| > 1 {
      LinesAreInjective(a[1..], b[1..]);
    }
    assert a == [a[0]] + a[1..] && b == [b[0]] + b[1..];
  }

  /** No two tables print the same text, rows without cells included: they are lost on
      the reader, but not in the text. */
  lemma {:induction false} PrinterIsInjective(h1: seq<string>, r1: seq<seq<string>>, h2: seq<string>, r2: seq<seq<string>>)
    requires Print(h1, r1) == Print(h2, r2)
    ensures h1 == h2 && r1 == r2
  {
    LinesAreInjective([h1] + r1, [h2] + r2);
    assert ([h1] + r1)[0] == ([h2] + r2)[0];
    assert ([h1] + r1)[1..] == r1 && ([h2] + r2)[1..] == r2;
  }
}
