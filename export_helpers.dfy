/**
 * The dashboard's export helpers: the CSV serialiser, the structure of the
 * JSON export, and the download file name.  `JSON.stringify`, the clock and
 * the browser download are outside the model; JavaScript's conversion of a
 * number to text is the parameter `show`.
 */
module ExportHelpers {
  import opened JsValue
  import opened Strings
  import Rfc4180

  // ------------------------------------------------------------------
  // convertToCSV
  // ------------------------------------------------------------------

  const NoDataMessage := "No data available"
  const DefaultFields: seq<string> := ["temp", "status"]

  /** `String(v)` as `Array.prototype.join` applies it (which writes `null` as nothing). */
  function Render(v: JsVal, show: real -> string): (text: string)
    decreases v
  {
    match v
    case Num(n) => show(n)
    case Str(s) => s
    case Bool(b) => if b then "true" else "false"
    case Null => ""
    case Arr(items) => Join(seq(|items|, i requires 0 <= i < |items| => Render(items[i], show)), ",")
    case Obj(_) => "[object Object]"
  }

  /** `s.replace(/"/g, '""')`. */
  function DoubleQuotes(s: string): (d: string) {
    if s == [] then ""
    else (if s[0] == '"' then "\"\"" else [s[0]]) + DoubleQuotes(s[1..])
  }

  /** A string cell is quoted when it holds a comma or a double quote (and only then). */
  predicate NeedsQuotes(s: string) {
    ',' in s || '"' in s
  }

  /** The text of one cell for a value that is `undefined` (`None`) or not. */
  function Cell(v: Option<JsVal>, show: real -> string): (c: string) {
    match v
    case None => ""
    case Some(Null) => ""
    case Some(Str(s)) => if NeedsQuotes(s) then "\"" + DoubleQuotes(s) + "\"" else s
    case Some(other) => Render(other, show)
  }

  function Cells(item: Record, fields: seq<string>, show: real -> string): seq<string> {
    seq(|fields|, i requires 0 <= i < |fields| => Cell(Get(item, fields[i]), show))
  }

  function Row(item: Record, fields: seq<string>, show: real -> string): string {
    Join(Cells(item, fields, show), ",")
  }

  function Rows(data: seq<Record>, fields: seq<string>, show: real -> string): seq<string> {
    seq(|data|, i requires 0 <= i < |data| => Row(data[i], fields, show))
  }

  function Header(fields: seq<string>): string {
    Join(fields, ",")
  }

  /** The field list in use: the one given, or `temp, status` when it is `undefined`. */
  function FieldsOrDefault(fields: Option<seq<string>>): seq<string> {
    if fields.Some? then fields.value else DefaultFields
  }

  /** `convertToCSV(data, fields)`; `data == None` stands for a missing (`null` or `undefined`) array. */
  function ConvertToCSV(data: Option<seq<Record>>, fields: Option<seq<string>>, show: real -> string): (csv: string) {
    if data.None? || |data.value| == 0 then NoDataMessage
    else Join([Header(FieldsOrDefault(fields))] + Rows(data.value, FieldsOrDefault(fields), show), "\n")
  }

  /** The value a reader of the cell should recover: nothing for `undefined` and `null`, the string itself for a string. */
  function Meaning(v: Option<JsVal>, show: real -> string): string {
    match v
    case None => ""
    case Some(Null) => ""
    case Some(Str(s)) => s
    case Some(other) => Render(other, show)
  }

  /** The CSV text is the no-data message exactly when there are no records. */
  lemma NoDataExactly(data: Option<seq<Record>>, fields: Option<seq<string>>, show: real -> string)
    ensures ConvertToCSV(data, fields, show) == "No data available" <==> data.None? || data.value == []
  {
    if data.Some? && data.value != [] {
      var csv := ConvertToCSV(data, fields, show);
      var h := Header(FieldsOrDefault(fields));
      HeaderFirst(data.value, fields, show);
      assert csv[|h|] == '\n';
      assert '\n' !in NoDataMessage;
    }
  }

  /** For some records, the text is the header line, a line break, then the rows separated by line breaks. */
  lemma HeaderFirst(data: seq<Record>, fields: Option<seq<string>>, show: real -> string)
    requires data != []
    ensures var csv := ConvertToCSV(Some(data), fields, show);
      var fs := FieldsOrDefault(fields);
      && csv == Header(fs) + "\n" + Join(Rows(data, fs, show), "\n")
      && csv[..|Header(fs)|] == Header(fs)
      && |csv| > |Header(fs)| && csv[|Header(fs)|] == '\n'
  {
    var fs := FieldsOrDefault(fields);
    JoinCons(Header(fs), Rows(data, fs, show), "\n");
  }

  /**
   * When neither the header nor any row holds a line break, the lines of the
   * text are the header and then one row per record, in input order.
   */
  lemma LinesAreHeaderAndRows(data: seq<Record>, fields: seq<string>, show: real -> string)
    requires data != []
    requires '\n' !in Header(fields)
    requires forall i :: 0 <= i < |data| ==> '\n' !in Row(data[i], fields, show)
    ensures var lines := Split(ConvertToCSV(Some(data), Some(fields), show), '\n');
      && |lines| == |data| + 1
      && lines[0] == Header(fields)
      && forall i :: 0 <= i < |data| ==> lines[i + 1] == Row(data[i], fields, show)
  {
    var all := [Header(fields)] + Rows(data, fields, show);
    forall i | 0 <= i < |all|
      ensures '\n' !in all[i]
    {
      if i > 0 {
        assert all[i] == Row(data[i - 1], fields, show);
      }
    }
    SplitJoin(all, '\n');
  }

  /**
   * A string without comma or quote is written as it is, line breaks included,
   * so a record whose status holds a line break spans two lines of the text
   * (RFC 4180 section 2 rule 6 would quote it).
   */
  lemma LineBreakNotQuoted(show: real -> string)
    ensures Split(ConvertToCSV(Some([map["status" := Str("a\nb")]]), None, show), '\n')
            == ["temp,status", ",a", "b"]
  {
    var item: Record := map["status" := Str("a\nb")];
    assert "temp" !in item;
    assert !NeedsQuotes("a\nb");
    assert Cells(item, DefaultFields, show) == ["", "a\nb"];
    var row := Row(item, DefaultFields, show);
    assert row == Join([""] + ["a\nb"], ",");
    JoinCons("", ["a\nb"], ",");
    assert row == "" + "," + "a\nb";
    assert Header(DefaultFields) == "temp" + "," + "status";
    var csv := ConvertToCSV(Some([item]), None, show);
    assert Rows([item], DefaultFields, show) == [row];
    assert csv == Join(["temp,status", row], "\n");
    var lines := ["temp,status", ",a", "b"];
    assert row == ",a" + "\n" + "b";
    assert Join(lines, "\n") == "temp,status" + "\n" + (",a" + "\n" + "b");
    assert csv == Join(lines, "\n");
    SplitJoin(lines, '\n');
  }

  /** A quoted cell, stripped of its outer quotes and with each doubled quote read as one, gives back the string. */
  lemma QuotedCellRoundTrip(s: string, show: real -> string)
    ensures var c := Cell(Some(Str(s)), show);
      && (!NeedsQuotes(s) ==> c == s)
      && (NeedsQuotes(s) ==>
            |c| >= 2 && c[0] == '"' && c[|c| - 1] == '"' && Rfc4180.Undouble(c[1..|c| - 1]) == s)
  {
    if NeedsQuotes(s) {
      var c := Cell(Some(Str(s)), show);
      assert c[1..|c| - 1] == DoubleQuotes(s);
      UndoubleDoubleQuotes(s);
    }
  }

  lemma {:induction false} UndoubleDoubleQuotes(s: string)
    ensures Rfc4180.Undouble(DoubleQuotes(s)) == s
  {
    if s != [] {
      UndoubleDoubleQuotes(s[1..]);
      var rest := DoubleQuotes(s[1..]);
      var d := DoubleQuotes(s);
      if s[0] == '"' {
        assert d == "\"\"" + rest;
        assert d[0] == '"' && d[1] == '"' && d[2..] == rest;
        assert Rfc4180.Undouble(d) == "\"" + s[1..];
        assert s == [s[0]] + s[1..];
      } else {
        assert d == [s[0]] + rest;
        assert d[0] == s[0] && d[1..] == rest;
        assert Rfc4180.Undouble(d) == [s[0]] + s[1..];
        assert s == [s[0]] + s[1..];
      }
    }
  }

  /** The reader, given a quoted cell followed by a separator or the end, returns the string and stops after the closing quote. */
  lemma {:induction false} ReadQuotedCell(s: string, rest: string)
    requires rest == [] || rest[0] == ','
    ensures Rfc4180.ReadQuoted(DoubleQuotes(s) + "\"" + rest) == (s, rest)
  {
    if s == [] {
      assert DoubleQuotes(s) + "\"" + rest == "\"" + rest;
      assert ("\"" + rest)[1..] == rest;
    } else {
      ReadQuotedCell(s[1..], rest);
      var tail := DoubleQuotes(s[1..]) + "\"" + rest;
      var whole := DoubleQuotes(s) + "\"" + rest;
      if s[0] == '"' {
        assert whole == "\"\"" + tail;
        assert whole[0] == '"' && whole[1] == '"' && whole[2..] == tail;
        assert Rfc4180.ReadQuoted(whole) == ("\"" + s[1..], rest);
        assert s == [s[0]] + s[1..];
      } else {
        assert whole == [s[0]] + tail;
        assert whole[0] == s[0] && whole[1..] == tail;
        assert Rfc4180.ReadQuoted(whole) == ([s[0]] + s[1..], rest);
        assert s == [s[0]] + s[1..];
      }
    }
  }

  /** The reader, given an unquoted cell without a comma followed by a separator or the end, returns the cell. */
  lemma {:induction false} ReadBareCell(s: string, rest: string)
    requires ',' !in s
    requires rest == [] || rest[0] == ','
    ensures Rfc4180.ReadBare(s + rest) == (s, rest)
  {
    if s == [] {
      assert s + rest == rest;
    } else {
      ReadBareCell(s[1..], rest);
      assert s[0] in s;
      assert (s + rest)[0] == s[0] != ',';
      assert (s + rest)[1..] == s[1..] + rest;
      assert s == [s[0]] + s[1..];
    }
  }

  /** A cell a reader can read back: any string, `undefined`, `null`, or a value whose text has no comma or quote. */
  predicate Readable(v: Option<JsVal>, show: real -> string) {
    match v
    case None => true
    case Some(Null) => true
    case Some(Str(_)) => true
    case Some(other) => ',' !in Render(other, show) && '"' !in Render(other, show)
  }

  lemma ReadCell(v: Option<JsVal>, show: real -> string, rest: string)
    requires Readable(v, show)
    requires rest == [] || rest[0] == ','
    ensures Rfc4180.ReadField(Cell(v, show) + rest) == (Meaning(v, show), rest)
  {
    var c := Cell(v, show);
    if v.Some? && v.value.Str? && NeedsQuotes(v.value.s) {
      ReadQuotedCell(v.value.s, rest);
      assert c + rest == "\"" + (DoubleQuotes(v.value.s) + "\"" + rest);
      assert (c + rest)[1..] == DoubleQuotes(v.value.s) + "\"" + rest;
    } else {
      ReadBareCell(c, rest);
      if c != [] {
        assert (c + rest)[0] == c[0];
      }
    }
  }

  /**
   * Each row reads back, under RFC 4180's rules, as one value per field in
   * field order: the string itself for a string cell (quoted or not), nothing
   * for `undefined` and `null`.
   */
  lemma {:induction false} RowReadsBack(item: Record, fields: seq<string>, show: real -> string)
    requires |fields| >= 1
    requires forall i :: 0 <= i < |fields| ==> Readable(Get(item, fields[i]), show)
    ensures var values := Rfc4180.ReadRecord(Row(item, fields, show));
      && |values| == |fields|
      && forall i :: 0 <= i < |fields| ==> values[i] == Meaning(Get(item, fields[i]), show)
  {
    var cells := Cells(item, fields, show);
    var first := Get(item, fields[0]);
    if |fields| == 1 {
      ReadCell(first, show, "");
      assert Row(item, fields, show) == Cell(first, show) + "";
    } else {
      var tail := Row(item, fields[1..], show);
      assert Cells(item, fields[1..], show) == cells[1..];
      assert cells == [Cell(first, show)] + cells[1..];
      JoinCons(Cell(first, show), cells[1..], ",");
      assert Row(item, fields, show) == Cell(first, show) + ("," + tail);
      ReadCell(first, show, "," + tail);
      assert ("," + tail)[1..] == tail;
      RowReadsBack(item, fields[1..], show);
    }
  }

  // ------------------------------------------------------------------
  // convertToJSON
  // ------------------------------------------------------------------

  const DefaultExportMachineId := "machine-01"
  const ExportedBy := "AlzetteLink Dashboard"

  datatype Metadata = Metadata(machineId: string, exportDate: string, recordCount: nat, exportedBy: string)

  /** The object `convertToJSON` passes to `JSON.stringify`. */
  datatype ExportDocument = ExportDocument(metadata: Metadata, data: seq<Record>)

  /** The metadata agrees with the records it describes. */
  predicate Describes(doc: ExportDocument, machineId: string) {
    doc.metadata.recordCount == |doc.data| && doc.metadata.machineId == machineId &&
    doc.metadata.exportedBy == "AlzetteLink Dashboard"
  }

  /** `convertToJSON(data, machineId)` before stringification, with the export time `now` as a parameter. */
  function ConvertToJSON(data: seq<Record>, machineId: Option<string>, now: string): (doc: ExportDocument)
    ensures doc.data == data
    ensures Describes(doc, if machineId.Some? then machineId.value else "machine-01")
    ensures doc.metadata.exportDate == now
  {
    var id := if machineId.Some? then machineId.value else DefaultExportMachineId;
    ExportDocument(Metadata(id, now, |data|, ExportedBy), data)
  }

  // ------------------------------------------------------------------
  // generateFilename
  // ------------------------------------------------------------------

  const FilenamePrefix := "sensor-data-"

  /** The character `replace(/[:.]/g, '-')` puts in place of `c`. */
  function Dash(c: char): char {
    if c == ':' || c == '.' then '-' else c
  }

  /** The timestamp part of the file name: colons and dots replaced by dashes, then `slice(0, -5)`. */
  function FileTimestamp(iso: string): (t: string)
    ensures |t| == if |iso| >= 5 then |iso| - 5 else 0
    ensures forall i :: 0 <= i < |t| ==> t[i] == Dash(iso[i])
    ensures ':' !in t && '.' !in t
  {
    var replaced := seq(|iso|, i requires 0 <= i < |iso| => Dash(iso[i]));
    if |replaced| >= 5 then replaced[..|replaced| - 5] else ""
  }

  /** `generateFilename(format)` at the time whose ISO text is `iso`; `format == None` stands for `undefined`. */
  function GenerateFilename(format: Option<string>, iso: string): (name: string)
    ensures var ext := if format.Some? then format.value else "csv";
      && |name| == |FilenamePrefix| + |FileTimestamp(iso)| + 1 + |ext|
      && name[..|FilenamePrefix|] == FilenamePrefix
      && name[|name| - |ext|..] == ext
      && name[|name| - |ext| - 1] == '.'
  {
    FilenamePrefix + FileTimestamp(iso) + "." + (if format.Some? then format.value else "csv")
  }

  /** A name split at its first occurrence of `c` (the whole name and nothing when there is none). */
  function SplitAtFirst(s: string, c: char): (string, string) {
    if s == [] then ("", "")
    else if s[0] == c then ("", s[1..])
    else var (before, after) := SplitAtFirst(s[1..], c); ([s[0]] + before, after)
  }

  lemma {:induction false} SplitAtFirstOf(before: string, c: char, after: string)
    requires c !in before
    ensures SplitAtFirst(before + [c] + after, c) == (before, after)
  {
    if before != [] {
      SplitAtFirstOf(before[1..], c, after);
      assert (before + [c] + after)[1..] == before[1..] + [c] + after;
      assert before[0] in before;
      assert (before + [c] + after)[0] == before[0] != c;
      assert before == [before[0]] + before[1..];
    } else {
      assert before + [c] + after == [c] + after;
    }
  }

  /**
   * The name is the prefix, then the dash-separated timestamp, then a dot and
   * the format: its first dot stands right before the format, so the format is
   * recovered from the name whatever it is.
   */
  lemma FilenameParts(format: Option<string>, iso: string)
    ensures var name := GenerateFilename(format, iso);
      var ext := if format.Some? then format.value else "csv";
      SplitAtFirst(name, '.') == ("sensor-data-" + FileTimestamp(iso), ext)
  {
    var stem := FilenamePrefix + FileTimestamp(iso);
    assert '.' !in FilenamePrefix;
    assert '.' !in stem;
    var ext := if format.Some? then format.value else "csv";
    assert GenerateFilename(format, iso) == stem + ['.'] + ext;
    SplitAtFirstOf(stem, '.', ext);
  }

  /**
   * For a millisecond-precision UTC timestamp, as `toISOString` writes it, the
   * file timestamp is the date, the hours, minutes and seconds joined by
   * dashes: the milliseconds and the zone letter are cut off.
   */
  lemma IsoTimestamp(iso: string)
    requires |iso| == 24 && iso[13] == ':' && iso[16] == ':' && iso[19] == '.'
    requires forall i :: 0 <= i < 19 && i != 13 && i != 16 ==> iso[i] != ':' && iso[i] != '.'
    ensures FileTimestamp(iso) == iso[..13] + "-" + iso[14..16] + "-" + iso[17..19]
  {
    var t := FileTimestamp(iso);
    var expected := iso[..13] + "-" + iso[14..16] + "-" + iso[17..19];
    assert |expected| == 19;
    forall i | 0 <= i < 19
      ensures t[i] == expected[i]
    {
      if i == 13 || i == 16 {
        assert expected[i] == '-';
      } else {
        assert expected[i] == iso[i];
      }
    }
  }
}
