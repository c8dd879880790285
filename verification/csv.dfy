/**
 * The CSV writers: field quoting, the file layout (a header line, then one
 * line per row, each ending in a line feed) and the deterministic row order
 * of each output file. A reader for the same format is defined alongside, so
 * that what the writers produce can be shown to read back as written.
 */
module Csv {
  import opened Text
  import opened Types
  import opened Schema

  // ---------------------------------------------------------------------------
  // Fields

  /** `replaceAll('"', '""')` */
  function DoubleQuotes(s: string): (r: string)
    ensures |r| >= |s|
    decreases |s|
  {
    if s == [] then []
    else (if s[0] == '"' then "\"\"" else [s[0]]) + DoubleQuotes(s[1..])
  }

  /** `csvField`: quoted (with inner quotes doubled) when the value holds a comma, quote or line break. */
  function CsvField(value: string): string {
    if PlainText(value) then value else "\"" + DoubleQuotes(value) + "\""
  }

  /** What may follow a field: the end of the text, the next field, or the next line. */
  predicate FieldEnd(rest: string) {
    rest == [] || rest[0] == ',' || rest[0] == '\n'
  }

  /** Reads an unquoted field: everything up to the next comma or line feed. */
  function ReadPlain(s: string): (r: (string, string))
    ensures |r.1| <= |s|
    ensures r.0 + r.1 == s
    decreases |s|
  {
    if s == [] || s[0] == ',' || s[0] == '\n' then ("", s)
    else
      var r := ReadPlain(s[1..]);
      assert [s[0]] + r.0 + r.1 == [s[0]] + (r.0 + r.1) == s;
      ([s[0]] + r.0, r.1)
  }

  /** Reads the inside of a quoted field, after its opening quote, through its closing quote. */
  function ReadQuoted(s: string): (r: (string, string))
    ensures |r.1| < |s| || (s == [] && r.1 == [])
    decreases |s|
  {
    if s == [] then ("", "")
    else if s[0] == '"' then
      if |s| >= 2 && s[1] == '"' then
        var r := ReadQuoted(s[2..]);
        ("\"" + r.0, r.1)
      else ("", s[1..])
    else
      var r := ReadQuoted(s[1..]);
      ([s[0]] + r.0, r.1)
  }

  /** Reads one field: its value and the text after it. */
  function ReadField(s: string): (r: (string, string))
    ensures |r.1| <= |s|
    ensures s != [] && s[0] != ',' && s[0] != '\n' ==> |r.1| < |s|
  {
    if s != [] && s[0] == '"' then ReadQuoted(s[1..]) else ReadPlain(s)
  }

  /** Text an unquoted field may hold: the reader stops only at a comma or a line feed. */
  predicate NoBreak(s: string) {
    forall i :: 0 <= i < |s| ==> s[i] != ',' && s[i] != '\n'
  }

  lemma {:induction false} ReadPlainStops(v: string, rest: string)
    requires NoBreak(v) && FieldEnd(rest)
    ensures ReadPlain(v + rest) == (v, rest)
    decreases |v|
  {
    if v == [] {
      assert v + rest == rest;
    } else {
      assert (v + rest)[0] == v[0] && (v + rest)[1..] == v[1..] + rest;
      assert NoBreak(v[1..]);
      ReadPlainStops(v[1..], rest);
      assert [v[0]] + v[1..] == v;
    }
  }

  lemma {:induction false} ReadQuotedStops(v: string, rest: string)
    requires FieldEnd(rest)
    ensures ReadQuoted(DoubleQuotes(v) + "\"" + rest) == (v, rest)
    decreases |v|
  {
    var s := DoubleQuotes(v) + "\"" + rest;
    if v == [] {
      assert s == "\"" + rest;
      assert s[1..] == rest;
    } else {
      var t := DoubleQuotes(v[1..]) + "\"" + rest;
      assert s == (if v[0] == '"' then "\"\"" else [v[0]]) + t;
      ReadQuotedStops(v[1..], rest);
      ReadQuotedCons(v[0], t);
      assert [v[0]] + v[1..] == v;
    }
  }

  /** One character of the value, doubled when it is a quote, and what follows. */
  lemma ReadQuotedCons(c: char, t: string)
    ensures var r := ReadQuoted((if c == '"' then "\"\"" else [c]) + t);
      r == ([c] + ReadQuoted(t).0, ReadQuoted(t).1)
  {
    var s := (if c == '"' then "\"\"" else [c]) + t;
    if c == '"' {
      assert s[2..] == t;
    } else {
      assert s[1..] == t;
    }
  }

  /** Every value reads back from its CSV field, whatever field or line follows. */
  lemma ReadFieldRoundTrip(v: string, rest: string)
    requires FieldEnd(rest)
    ensures ReadField(CsvField(v) + rest) == (v, rest)
  {
    if PlainText(v) {
      ReadPlainField(v, rest);
    } else {
      ReadQuotedField(v, rest);
    }
  }

  lemma ReadPlainField(v: string, rest: string)
    requires PlainText(v) && FieldEnd(rest)
    ensures ReadField(v + rest) == (v, rest)
  {
    ReadPlainStops(v, rest);
    if v != [] {
      assert (v + rest)[0] == v[0];
    }
  }

  lemma ReadQuotedField(v: string, rest: string)
    requires FieldEnd(rest)
    ensures ReadField("\"" + DoubleQuotes(v) + "\"" + rest) == (v, rest)
  {
    var s := "\"" + DoubleQuotes(v) + "\"" + rest;
    assert s == "\"" + (DoubleQuotes(v) + "\"" + rest);
    assert s[1..] == DoubleQuotes(v) + "\"" + rest;
    ReadQuotedStops(v, rest);
  }

  /** A value that needs no quoting is written as it is. */
  lemma CsvFieldPlain(v: string)
    requires PlainText(v)
    ensures CsvField(v) == v
  {
  }

  // ---------------------------------------------------------------------------
  // Lines and files

  /** `row[column] ?? ""` for each column, in order. */
  function Cells(columns: seq<Column>, row: Row): (r: seq<string>)
    ensures |r| == |columns| && forall i :: 0 <= i < |columns| ==> r[i] == Cell(row, columns[i])
  {
    seq(|columns|, i requires 0 <= i < |columns| => Cell(row, columns[i]))
  }

  function Names(columns: seq<Column>): (r: seq<string>)
    ensures |r| == |columns| && forall i :: 0 <= i < |columns| ==> r[i] == ColumnName(columns[i])
  {
    seq(|columns|, i requires 0 <= i < |columns| => ColumnName(columns[i]))
  }

  function Fields(values: seq<string>): (r: seq<string>)
    ensures |r| == |values| && forall i :: 0 <= i < |values| ==> r[i] == CsvField(values[i])
  {
    seq(|values|, i requires 0 <= i < |values| => CsvField(values[i]))
  }

  /** One line of the file: the fields, comma-separated. */
  function Line(values: seq<string>): string {
    Join(Fields(values), ",")
  }

  /** The cells of each row, in order. */
  function Records(columns: seq<Column>, rows: seq<Row>): (r: seq<seq<string>>)
    ensures |r| == |rows| && forall i :: 0 <= i < |rows| ==> r[i] == Cells(columns, rows[i])
  {
    seq(|rows|, i requires 0 <= i < |rows| => Cells(columns, rows[i]))
  }

  /** `toCsv`: the header, then the body when there is one, each followed by a line feed. */
  function ToCsv(columns: seq<Column>, rows: seq<Row>): string {
    var header := Join(Names(columns), ",");
    var body := Join(Lines(Records(columns, rows)), "\n");
    if body != "" then header + "\n" + body + "\n" else header + "\n"
  }

  /** Reads the fields of one record, through the line feed that ends it. */
  function ReadRecord(s: string): (r: (seq<string>, string))
    ensures |r.1| <= |s|
    ensures s != [] ==> |r.1| < |s|
    decreases |s|
  {
    var field := ReadField(s);
    var rest := field.1;
    if rest != [] && rest[0] == ',' then
      var more := ReadRecord(rest[1..]);
      ([field.0] + more.0, more.1)
    else if rest != [] && rest[0] == '\n' then ([field.0], rest[1..])
    else ([field.0], rest)
  }

  /** Reads every record of a file. */
  function ReadCsv(s: string): seq<seq<string>>
    decreases |s|
  {
    if s == [] then [] else
      var record := ReadRecord(s);
      [record.0] + ReadCsv(record.1)
  }

  /** A field followed by a line feed ends its record. */
  lemma ReadRecordLast(v: string, rest: string)
    ensures ReadRecord(CsvField(v) + "\n" + rest) == ([v], rest)
  {
    var s := CsvField(v) + "\n" + rest;
    assert s == CsvField(v) + ("\n" + rest);
    ReadFieldRoundTrip(v, "\n" + rest);
    assert ("\n" + rest)[0] == '\n' && ("\n" + rest)[1..] == rest;
  }

  /** A field followed by a comma is the first of its record's fields. */
  lemma ReadRecordNext(v: string, tail: string)
    ensures ReadRecord(CsvField(v) + "," + tail) == ([v] + ReadRecord(tail).0, ReadRecord(tail).1)
  {
    var s := CsvField(v) + "," + tail;
    assert s == CsvField(v) + ("," + tail);
    ReadFieldRoundTrip(v, "," + tail);
    assert ("," + tail)[0] == ',' && ("," + tail)[1..] == tail;
  }

  /** A written line, with its line feed, reads back as the values it was written from. */
  lemma {:induction false} ReadRecordRoundTrip(values: seq<string>, rest: string)
    requires |values| >= 1
    ensures ReadRecord(Line(values) + "\n" + rest) == (values, rest)
    decreases |values|
  {
    if |values| == 1 {
      assert Fields(values) == [CsvField(values[0])];
      assert Line(values) == CsvField(values[0]);
      ReadRecordLast(values[0], rest);
      assert [values[0]] == values;
    } else {
      var tail := Line(values[1..]) + "\n" + rest;
      assert Fields(values) == [CsvField(values[0])] + Fields(values[1..]);
      JoinCons(CsvField(values[0]), Fields(values[1..]), ",");
      assert Line(values) + "\n" + rest == CsvField(values[0]) + "," + tail;
      ReadRecordNext(values[0], tail);
      ReadRecordRoundTrip(values[1..], rest);
      assert [values[0]] + values[1..] == values;
    }
  }

  /** The line of each record, in order. */
  function Lines(records: seq<seq<string>>): (r: seq<string>)
    ensures |r| == |records| && forall i :: 0 <= i < |records| ==> r[i] == Line(records[i])
  {
    seq(|records|, i requires 0 <= i < |records| => Line(records[i]))
  }

  /** Terminated lines read back as the records they were written from. */
  lemma {:induction false} ReadLinesRoundTrip(records: seq<seq<string>>)
    requires forall i :: 0 <= i < |records| ==> |records[i]| >= 1
    ensures ReadCsv(Concat(Suffixed(Lines(records), "\n"))) == records
    decreases |records|
  {
    if records == [] {
      assert Suffixed(Lines(records), "\n") == [];
    } else {
      var more := Suffixed(Lines(records[1..]), "\n");
      TerminatedLinesCons(records);
      ConcatAppend([Line(records[0]) + "\n"], more);
      assert Concat([Line(records[0]) + "\n"]) == Line(records[0]) + "\n";
      ReadCsvCons(records[0], Concat(more));
      ReadLinesRoundTrip(records[1..]);
      assert [records[0]] + records[1..] == records;
    }
  }

  lemma TerminatedLinesCons(records: seq<seq<string>>)
    requires records != []
    ensures Suffixed(Lines(records), "\n") == [Line(records[0]) + "\n"] + Suffixed(Lines(records[1..]), "\n")
  {
    var lines, more := Suffixed(Lines(records), "\n"), Suffixed(Lines(records[1..]), "\n");
    forall i | 0 <= i < |more| ensures more[i] == lines[i + 1] {
      assert records[1..][i] == records[i + 1];
    }
  }

  /** A written line, with its line feed, is read as one record before what follows. */
  lemma ReadCsvCons(values: seq<string>, rest: string)
    requires |values| >= 1
    ensures ReadCsv(Line(values) + "\n" + rest) == [values] + ReadCsv(rest)
  {
    ReadRecordRoundTrip(values, rest);
  }

  /** With two columns or more, every line holds a comma, so no line is empty. */
  lemma LineNonEmpty(values: seq<string>)
    requires |values| >= 2
    ensures Line(values) != ""
  {
    JoinCons(CsvField(values[0]), Fields(values)[1..], ",");
    assert Fields(values) == [CsvField(values[0])] + Fields(values)[1..];
  }

  /** The header and body layout of `toCsv` is every line followed by a line feed. */
  lemma {:induction false} TerminatedLayout(header: string, lines: seq<string>)
    requires lines != [] ==> lines[0] != ""
    ensures (var body := Join(lines, "\n");
             if body != "" then header + "\n" + body + "\n" else header + "\n")
            == Concat(Suffixed([header] + lines, "\n"))
  {
    assert Suffixed([header] + lines, "\n") == [header + "\n"] + Suffixed(lines, "\n");
    ConcatAppend([header + "\n"], Suffixed(lines, "\n"));
    assert Concat([header + "\n"]) == header + "\n";
    if lines == [] {
      assert Concat(Suffixed(lines, "\n")) == "";
    } else {
      JoinTerminated(lines, "\n");
      if |lines| > 1 {
        JoinCons(lines[0], lines[1..], "\n");
        assert [lines[0]] + lines[1..] == lines;
      }
    }
  }

  /** The header line is the column names as they are: none needs quoting. */
  lemma HeaderLine(columns: seq<Column>)
    ensures Line(Names(columns)) == Join(Names(columns), ",")
  {
    var names := Names(columns);
    forall i | 0 <= i < |names| ensures CsvField(names[i]) == names[i] {
      ColumnNamePlain(columns[i]);
    }
    assert Fields(names) == names;
  }

  /**
   * Every file the writers produce reads back as its header names followed
   * by the cells of each row, in order (for schemas of two columns or more).
   */
  lemma ToCsvRoundTrip(columns: seq<Column>, rows: seq<Row>)
    requires |columns| >= 2
    ensures ReadCsv(ToCsv(columns, rows)) == [Names(columns)] + Records(columns, rows)
  {
    var records := [Names(columns)] + Records(columns, rows);
    ToCsvLayout(columns, rows);
    assert forall i :: 0 <= i < |records| ==> |records[i]| == |columns|;
    ReadLinesRoundTrip(records);
  }

  /** `toCsv` writes the header line and then the line of each row, each with its line feed. */
  lemma ToCsvLayout(columns: seq<Column>, rows: seq<Row>)
    requires |columns| >= 2
    ensures ToCsv(columns, rows) == Concat(Suffixed(Lines([Names(columns)] + Records(columns, rows)), "\n"))
  {
    var records := Records(columns, rows);
    var bodyLines := Lines(records);
    var header := Join(Names(columns), ",");
    HeaderLine(columns);
    if rows != [] {
      LineNonEmpty(records[0]);
    }
    TerminatedLayout(header, bodyLines);
    LinesCons(Names(columns), records);
  }

  lemma LinesCons(first: seq<string>, records: seq<seq<string>>)
    ensures Lines([first] + records) == [Line(first)] + Lines(records)
  {
    var all := [first] + records;
    assert forall i :: 0 <= i < |records| ==> all[i + 1] == records[i];
  }

  // ---------------------------------------------------------------------------
  // Row order

  /**
   * `a.localeCompare(b)`, taken as the comparison of code points: negative when
   * `a` comes first, zero when the strings are equal, positive otherwise.
   */
  function Compare(a: string, b: string): (r: int)
    ensures -1 <= r <= 1
    decreases |a|
  {
    if a == [] && b == [] then 0
    else if a == [] then -1
    else if b == [] then 1
    else if a[0] < b[0] then -1
    else if b[0] < a[0] then 1
    else Compare(a[1..], b[1..])
  }

  lemma {:induction false} CompareZero(a: string, b: string)
    ensures Compare(a, b) == 0 <==> a == b
    decreases |a|
  {
    if a != [] && b != [] && a[0] == b[0] {
      CompareZero(a[1..], b[1..]);
      assert a == [a[0]] + a[1..] && b == [b[0]] + b[1..];
    }
  }

  lemma {:induction false} CompareAntisymmetric(a: string, b: string)
    ensures Compare(b, a) == -Compare(a, b)
    decreases |a|
  {
    if a != [] && b != [] && a[0] == b[0] {
      CompareAntisymmetric(a[1..], b[1..]);
    }
  }

  lemma {:induction false} CompareTransitive(a: string, b: string, c: string)
    requires Compare(a, b) < 0 && Compare(b, c) < 0
    ensures Compare(a, c) < 0
    decreases |a|
  {
    if a != [] && b != [] && c != [] && a[0] == b[0] && b[0] == c[0] {
      CompareTransitive(a[1..], b[1..], c[1..]);
    }
  }

  /**
   * The comparator of a writer: the key columns compared in turn, the first
   * that differs deciding.
   */
  function RowCompare(keys: seq<Column>, a: Row, b: Row): (r: int)
    ensures -1 <= r <= 1
  {
    if keys == [] then 0
    else
      var c := Compare(Cell(a, keys[0]), Cell(b, keys[0]));
      if c != 0 then c else RowCompare(keys[1..], a, b)
  }

  lemma {:induction false} RowCompareZero(keys: seq<Column>, a: Row, b: Row)
    ensures RowCompare(keys, a, b) == 0 <==> Cells(keys, a) == Cells(keys, b)
    decreases |keys|
  {
    if keys != [] {
      CompareZero(Cell(a, keys[0]), Cell(b, keys[0]));
      RowCompareZero(keys[1..], a, b);
      assert Cells(keys, a) == [Cell(a, keys[0])] + Cells(keys[1..], a);
      assert Cells(keys, b) == [Cell(b, keys[0])] + Cells(keys[1..], b);
    }
  }

  lemma {:induction false} RowCompareAntisymmetric(keys: seq<Column>, a: Row, b: Row)
    ensures RowCompare(keys, b, a) == -RowCompare(keys, a, b)
    decreases |keys|
  {
    if keys != [] {
      CompareAntisymmetric(Cell(a, keys[0]), Cell(b, keys[0]));
      RowCompareAntisymmetric(keys[1..], a, b);
    }
  }

  lemma {:induction false} RowCompareTransitive(keys: seq<Column>, a: Row, b: Row, c: Row)
    requires RowCompare(keys, a, b) < 0 && RowCompare(keys, b, c) < 0
    ensures RowCompare(keys, a, c) < 0
    decreases |keys|
  {
    var x, y, z := Cell(a, keys[0]), Cell(b, keys[0]), Cell(c, keys[0]);
    CompareZero(x, y);
    CompareZero(y, z);
    if Compare(x, y) < 0 && Compare(y, z) < 0 {
      CompareTransitive(x, y, z);
    } else if Compare(x, y) < 0 || Compare(y, z) < 0 {
    } else {
      RowCompareTransitive(keys[1..], a, b, c);
    }
  }

  /** No two rows out of order: each is at most every row after it. */
  predicate Sorted(keys: seq<Column>, rows: seq<Row>) {
    forall i, j :: 0 <= i < j < |rows| ==> RowCompare(keys, rows[i], rows[j]) <= 0
  }

  /** The rows whose key equals `probe`'s, in order. */
  function SameKey(keys: seq<Column>, rows: seq<Row>, probe: Row): (r: seq<Row>)
    ensures |r| <= |rows|
    ensures forall i :: 0 <= i < |r| ==> Cells(keys, r[i]) == Cells(keys, probe)
  {
    if rows == [] then []
    else (if Cells(keys, rows[0]) == Cells(keys, probe) then [rows[0]] else []) + SameKey(keys, rows[1..], probe)
  }

  /** Places `x` before the first row that sorts strictly after it. */
  function Insert(keys: seq<Column>, x: Row, rows: seq<Row>): (r: seq<Row>)
    ensures |r| == |rows| + 1
  {
    if rows == [] then [x]
    else if RowCompare(keys, x, rows[0]) < 0 then [x] + rows
    else [rows[0]] + Insert(keys, x, rows[1..])
  }

  lemma {:induction false} InsertPermutes(keys: seq<Column>, x: Row, rows: seq<Row>)
    ensures multiset(Insert(keys, x, rows)) == multiset(rows) + multiset{x}
    decreases |rows|
  {
    if rows != [] {
      assert rows == [rows[0]] + rows[1..];
      InsertPermutes(keys, x, rows[1..]);
    }
  }

  /** `[...rows].sort(compare)`: a stable sort, as JavaScript's is. */
  function SortRows(keys: seq<Column>, rows: seq<Row>): (r: seq<Row>)
    ensures |r| == |rows|
  {
    if rows == [] then []
    else Insert(keys, rows[|rows| - 1], SortRows(keys, rows[..|rows| - 1]))
  }

  lemma {:induction false} SortRowsPermutes(keys: seq<Column>, rows: seq<Row>)
    ensures multiset(SortRows(keys, rows)) == multiset(rows)
    decreases |rows|
  {
    if rows != [] {
      assert rows == rows[..|rows| - 1] + [rows[|rows| - 1]];
      SortRowsPermutes(keys, rows[..|rows| - 1]);
      InsertPermutes(keys, rows[|rows| - 1], SortRows(keys, rows[..|rows| - 1]));
    }
  }

  lemma {:induction false} InsertSorted(keys: seq<Column>, x: Row, rows: seq<Row>)
    requires Sorted(keys, rows)
    ensures Sorted(keys, Insert(keys, x, rows))
    decreases |rows|
  {
    var r := Insert(keys, x, rows);
    if rows == [] {
    } else if RowCompare(keys, x, rows[0]) < 0 {
      forall j | 0 < j < |r| ensures RowCompare(keys, x, r[j]) <= 0 {
        if j > 1 && RowCompare(keys, rows[0], rows[j - 1]) < 0 {
          RowCompareTransitive(keys, x, rows[0], rows[j - 1]);
        } else if j > 1 {
          RowCompareZero(keys, rows[0], rows[j - 1]);
          RowCompareCells(keys, x, rows[0], rows[j - 1]);
        }
      }
    } else {
      InsertSorted(keys, x, rows[1..]);
      InsertPermutes(keys, x, rows[1..]);
      var tail := Insert(keys, x, rows[1..]);
      RowCompareAntisymmetric(keys, x, rows[0]);
      assert multiset(tail) == multiset(rows[1..]) + multiset{x};
      forall j | 0 <= j < |tail| ensures RowCompare(keys, rows[0], tail[j]) <= 0 {
        assert tail[j] in multiset(tail);
        if tail[j] != x {
          assert tail[j] in rows[1..];
        }
      }
    }
  }

  /** Rows with equal keys compare the same way with every other row. */
  lemma {:induction false} RowCompareCells(keys: seq<Column>, a: Row, b: Row, c: Row)
    requires Cells(keys, b) == Cells(keys, c)
    ensures RowCompare(keys, a, b) == RowCompare(keys, a, c)
    decreases |keys|
  {
    if keys != [] {
      assert Cell(b, keys[0]) == Cells(keys, b)[0];
      assert Cell(c, keys[0]) == Cells(keys, c)[0];
      assert Cells(keys[1..], b) == Cells(keys, b)[1..];
      assert Cells(keys[1..], c) == Cells(keys, c)[1..];
      RowCompareCells(keys[1..], a, b, c);
    }
  }

  /** A row inserted before a greater one sorts strictly before every row of a sorted sequence. */
  lemma {:induction false} BelowAll(keys: seq<Column>, x: Row, rows: seq<Row>)
    requires Sorted(keys, rows) && rows != [] && RowCompare(keys, x, rows[0]) < 0
    ensures forall j :: 0 <= j < |rows| ==> RowCompare(keys, x, rows[j]) < 0
  {
    forall j | 0 < j < |rows| ensures RowCompare(keys, x, rows[j]) < 0 {
      if RowCompare(keys, rows[0], rows[j]) < 0 {
        RowCompareTransitive(keys, x, rows[0], rows[j]);
      } else {
        RowCompareZero(keys, rows[0], rows[j]);
        RowCompareCells(keys, x, rows[0], rows[j]);
      }
    }
  }

  lemma {:induction false} SameKeyAppend(keys: seq<Column>, a: seq<Row>, b: seq<Row>, probe: Row)
    ensures SameKey(keys, a + b, probe) == SameKey(keys, a, probe) + SameKey(keys, b, probe)
    decreases |a|
  {
    if a == [] {
      assert a + b == b;
    } else {
      var x, y := SameKey(keys, a[1..], probe), SameKey(keys, b, probe);
      assert a == [a[0]] + a[1..] && a + b == [a[0]] + (a[1..] + b);
      SameKeyCons(keys, a[0], a[1..] + b, probe);
      SameKeyCons(keys, a[0], a[1..], probe);
      SameKeyAppend(keys, a[1..], b, probe);
      Regroup(SameKey(keys, a + b, probe), SameKey(keys, a, probe), SameKey(keys, [a[0]], probe), x, y);
    }
  }

  lemma SameKeyCons(keys: seq<Column>, row: Row, rows: seq<Row>, probe: Row)
    ensures SameKey(keys, [row] + rows, probe) == SameKey(keys, [row], probe) + SameKey(keys, rows, probe)
  {
    assert ([row] + rows)[1..] == rows && [row][1..] == [];
  }

  lemma {:induction false} SameKeyNone(keys: seq<Column>, rows: seq<Row>, probe: Row)
    requires forall y :: y in rows ==> Cells(keys, y) != Cells(keys, probe)
    ensures SameKey(keys, rows, probe) == []
    decreases |rows|
  {
    if rows != [] {
      assert rows[0] in rows;
      assert forall y :: y in rows[1..] ==> y in rows;
      SameKeyNone(keys, rows[1..], probe);
    }
  }

  /** A row that sorts before the whole sequence shares its key with none of it. */
  lemma {:induction false} InsertFrontSameKey(keys: seq<Column>, x: Row, rows: seq<Row>, probe: Row)
    requires Sorted(keys, rows) && rows != [] && RowCompare(keys, x, rows[0]) < 0
    ensures SameKey(keys, [x] + rows, probe) == SameKey(keys, rows, probe) + SameKey(keys, [x], probe)
  {
    SameKeyAppend(keys, [x], rows, probe);
    if Cells(keys, x) == Cells(keys, probe) {
      BelowAll(keys, x, rows);
      forall y | y in rows ensures Cells(keys, y) != Cells(keys, probe) {
        RowCompareZero(keys, x, y);
      }
      SameKeyNone(keys, rows, probe);
    } else {
      assert SameKey(keys, [x], probe) == [];
    }
  }

  /** Inserting a row adds it after the rows of its key that were already there. */
  lemma {:induction false} InsertSameKey(keys: seq<Column>, x: Row, rows: seq<Row>, probe: Row)
    requires Sorted(keys, rows)
    ensures SameKey(keys, Insert(keys, x, rows), probe)
         == SameKey(keys, rows, probe) + SameKey(keys, [x], probe)
    decreases |rows|
  {
    if rows == [] {
      assert SameKey(keys, rows, probe) == [];
    } else if RowCompare(keys, x, rows[0]) < 0 {
      InsertFrontSameKey(keys, x, rows, probe);
    } else {
      assert Sorted(keys, rows[1..]);
      InsertSameKey(keys, x, rows[1..], probe);
      InsertLaterSameKey(keys, x, rows, probe);
    }
  }

  /** The step of `InsertSameKey` where the row goes after the first. */
  lemma {:induction false} InsertLaterSameKey(keys: seq<Column>, x: Row, rows: seq<Row>, probe: Row)
    requires rows != [] && RowCompare(keys, x, rows[0]) >= 0
    requires SameKey(keys, Insert(keys, x, rows[1..]), probe)
          == SameKey(keys, rows[1..], probe) + SameKey(keys, [x], probe)
    ensures SameKey(keys, Insert(keys, x, rows), probe)
         == SameKey(keys, rows, probe) + SameKey(keys, [x], probe)
  {
    var rest := Insert(keys, x, rows[1..]);
    var head, tail, added := SameKey(keys, [rows[0]], probe), SameKey(keys, rows[1..], probe), SameKey(keys, [x], probe);
    assert SameKey(keys, Insert(keys, x, rows), probe) == head + SameKey(keys, rest, probe) by {
      assert Insert(keys, x, rows) == [rows[0]] + rest;
      SameKeyAppend(keys, [rows[0]], rest, probe);
    }
    assert SameKey(keys, rows, probe) == head + tail by {
      assert rows == [rows[0]] + rows[1..];
      SameKeyAppend(keys, [rows[0]], rows[1..], probe);
    }
    Regroup(SameKey(keys, Insert(keys, x, rows), probe), SameKey(keys, rows, probe), head, tail, added);
  }

  lemma Regroup<T>(whole: seq<T>, front: seq<T>, head: seq<T>, tail: seq<T>, added: seq<T>)
    requires whole == head + (tail + added) && front == head + tail
    ensures whole == front + added
  {
  }

  lemma {:induction false} SortRowsSorted(keys: seq<Column>, rows: seq<Row>)
    ensures Sorted(keys, SortRows(keys, rows))
    decreases |rows|
  {
    if rows != [] {
      SortRowsSorted(keys, rows[..|rows| - 1]);
      InsertSorted(keys, rows[|rows| - 1], SortRows(keys, rows[..|rows| - 1]));
    }
  }

  lemma {:induction false} SortRowsStable(keys: seq<Column>, rows: seq<Row>, probe: Row)
    ensures SameKey(keys, SortRows(keys, rows), probe) == SameKey(keys, rows, probe)
    decreases |rows|
  {
    if rows != [] {
      var init, last := rows[..|rows| - 1], rows[|rows| - 1];
      SortRowsStable(keys, init, probe);
      SortRowsSorted(keys, init);
      InsertSameKey(keys, last, SortRows(keys, init), probe);
      SameKeyAppend(keys, init, [last], probe);
      assert init + [last] == rows;
    }
  }

  /**
   * The order every writer produces: sorted by its key columns, a permutation
   * of its input, and stable (rows with equal keys keep their input order).
   */
  lemma SortRowsSpec(keys: seq<Column>, rows: seq<Row>)
    ensures Sorted(keys, SortRows(keys, rows))
    ensures multiset(SortRows(keys, rows)) == multiset(rows)
    ensures forall probe :: SameKey(keys, SortRows(keys, rows), probe) == SameKey(keys, rows, probe)
  {
    SortRowsSorted(keys, rows);
    SortRowsPermutes(keys, rows);
    forall probe ensures SameKey(keys, SortRows(keys, rows), probe) == SameKey(keys, rows, probe) {
      SortRowsStable(keys, rows, probe);
    }
  }

  // ---------------------------------------------------------------------------
  // Writers

  const PARENT_ORDER: seq<Column> := [Sku]
  const CHILD_ORDER: seq<Column> := [ParentSku, Sku]
  const FAILURE_ORDER: seq<Column> := [Url]

  /** `writeParentsCsv`: the parent rows ordered by SKU. */
  function WriteParentsCsv(rows: seq<Row>): (csv: string)
    ensures ReadCsv(csv) == [Names(PARENT_COLUMNS)] + Records(PARENT_COLUMNS, SortRows(PARENT_ORDER, rows))
  {
    SchemaShape();
    ToCsvRoundTrip(PARENT_COLUMNS, SortRows(PARENT_ORDER, rows));
    ToCsv(PARENT_COLUMNS, SortRows(PARENT_ORDER, rows))
  }

  /** `writeChildrenCsv`: the child rows ordered by parent SKU, then by SKU. */
  function WriteChildrenCsv(rows: seq<Row>): (csv: string)
    ensures ReadCsv(csv) == [Names(CHILD_COLUMNS)] + Records(CHILD_COLUMNS, SortRows(CHILD_ORDER, rows))
  {
    SchemaShape();
    ToCsvRoundTrip(CHILD_COLUMNS, SortRows(CHILD_ORDER, rows));
    ToCsv(CHILD_COLUMNS, SortRows(CHILD_ORDER, rows))
  }

  /** `writeFailuresCsv`: the failure rows ordered by URL. */
  function WriteFailuresCsv(rows: seq<Row>): (csv: string)
    ensures ReadCsv(csv) == [Names(FAILURE_COLUMNS)] + Records(FAILURE_COLUMNS, SortRows(FAILURE_ORDER, rows))
  {
    SchemaShape();
    ToCsvRoundTrip(FAILURE_COLUMNS, SortRows(FAILURE_ORDER, rows));
    ToCsv(FAILURE_COLUMNS, SortRows(FAILURE_ORDER, rows))
  }

  /** The child comparator: parent SKUs first, and the SKUs only when those are equal. */
  lemma ChildOrder(a: Row, b: Row)
    ensures RowCompare(CHILD_ORDER, a, b) ==
      (var parent := Compare(Cell(a, ParentSku), Cell(b, ParentSku));
       if parent != 0 then parent else Compare(Cell(a, Sku), Cell(b, Sku)))
  {
    assert CHILD_ORDER[1..] == [Sku] && [Sku][1..] == [];
    assert RowCompare([], a, b) == 0;
    assert RowCompare([Sku], a, b) == Compare(Cell(a, Sku), Cell(b, Sku));
  }
}
