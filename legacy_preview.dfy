/**
 * The older preview panel (components/preview-panel.tsx): the same buttons,
 * but cells are written with template strings, so a missing field reads
 * `undefined` and quotes inside a value are not escaped. The JSON output is
 * the generated array as it stands.
 */
module LegacyPreview {
  import opened Wrappers
  import opened Text
  import opened Values
  import Preview

  /** `${row[f.name]}`: `undefined` for a missing field, `String(value)` otherwise. */
  function CellText(row: Record, name: string): (s: string)
    ensures !HasKey(row, name) ==> s == "undefined"
    ensures HasKey(row, name) ==> s == Preview.JsString(Get(row, name).value)
  {
    match Get(row, name)
    case None => "undefined"
    case Some(v) => Preview.JsString(v)
  }

  /** A value wrapped in the quote character, with nothing escaped. */
  function Wrapped(s: string, q: char): string {
    [q] + s + [q]
  }

  /** The CSV cell as written: `"${value}"`. */
  function CsvCell(row: Record, name: string): string {
    Wrapped(CellText(row, name), '"')
  }

  /** The SQL value as written: `'${value}'`. */
  function SqlLiteral(row: Record, name: string): string {
    Wrapped(CellText(row, name), '\'')
  }

  function CsvRow(row: Record, names: seq<string>): string {
    Join(seq(|names|, j requires 0 <= j < |names| => CsvCell(row, names[j])), ",")
  }

  /** The header line of field names, then one line per row. */
  function CsvText(data: seq<Record>, names: seq<string>): string {
    Join([Join(names, ",")] + seq(|data|, i requires 0 <= i < |data| => CsvRow(data[i], names)), "\n")
  }

  function SqlTuple(row: Record, names: seq<string>): string {
    "(" + Join(seq(|names|, j requires 0 <= j < |names| => SqlLiteral(row, names[j])), ", ") + ")"
  }

  /** `INSERT INTO test_data (cols) VALUES` and the tuples, as in the newer panel. */
  function SqlText(data: seq<Record>, names: seq<string>): string {
    "INSERT INTO test_data (" + Join(names, ", ") + ") VALUES\n"
    + Join(seq(|data|, i requires 0 <= i < |data| => SqlTuple(data[i], names)), ",\n") + ";"
  }

  /** The JSON output: every row as generated, with all its keys. */
  function JsonRows(data: seq<Record>): seq<Record> {
    data
  }

  /** A key that is not a configured field stays in this panel's JSON, where the newer panel drops it. */
  lemma JsonKeepsOtherKeys(data: seq<Record>, names: seq<string>, i: nat, k: string)
    requires i < |data| && HasKey(data[i], k) && k !in names
    ensures |JsonRows(data)| == |data| && HasKey(JsonRows(data)[i], k)
    ensures !HasKey(Preview.OrderedRows(data, names)[i], k)
  {
    Preview.OrderedRowContents(data[i], names, k);
  }

  /** A value without the quote character is written exactly as the escaping panel writes it. */
  lemma WrappedWithoutQuotes(s: string, q: char)
    requires q !in s
    ensures Wrapped(s, q) == Quote(s, q)
  {
    EscapeNoQuote(s, q);
  }

  /**
   * Where every value is present, non-null and free of `"`, the CSV text is
   * the escaping panel's CSV text.
   */
  lemma CsvAgreesWithoutQuotes(data: seq<Record>, names: seq<string>)
    requires forall i, j :: 0 <= i < |data| && 0 <= j < |names| ==>
               Get(data[i], names[j]).Some? && Get(data[i], names[j]) != Some(Null)
               && '"' !in CellText(data[i], names[j])
    ensures CsvText(data, names) == Preview.CsvText(data, names)
  {
    forall i | 0 <= i < |data|
      ensures CsvRow(data[i], names) == Preview.CsvRow(data[i], names)
    {
      forall j | 0 <= j < |names|
        ensures CsvCell(data[i], names[j]) == Preview.CsvCell(data[i], names[j])
      {
        WrappedWithoutQuotes(CellText(data[i], names[j]), '"');
      }
      assert seq(|names|, j requires 0 <= j < |names| => CsvCell(data[i], names[j]))
          == seq(|names|, j requires 0 <= j < |names| => Preview.CsvCell(data[i], names[j]));
    }
    assert seq(|data|, i requires 0 <= i < |data| => CsvRow(data[i], names))
        == seq(|data|, i requires 0 <= i < |data| => Preview.CsvRow(data[i], names));
  }

  /** A field the row lacks is written as the text `undefined`, where the newer panel writes an empty cell. */
  lemma MissingFieldCell(row: Record, name: string)
    requires !HasKey(row, name)
    ensures CsvCell(row, name) == "\"undefined\""
    ensures SqlLiteral(row, name) == "'undefined'"
    ensures Preview.CsvCell(row, name) == "\"\""
  {
  }

  /** A CSV cell holding a double quote does not read back: `a"b` is written `"a"b"`. */
  lemma CsvCellBreaks()
    ensures var row: Record := [("name", Str("a\"b"))];
            CsvCell(row, "name") == "\"a\"b\""
            && Unquote(CsvCell(row, "name"), '"') != Some("a\"b")
            && Unquote(Preview.CsvCell(row, "name"), '"') == Some("a\"b")
  {
    var row: Record := [("name", Str("a\"b"))];
    assert Get(row, "name") == Some(Str("a\"b"));
    var t := CsvCell(row, "name");
    assert t[1..] == "a\"b\"";
    assert UnescapeBody("\"b\"", '"') == None;
    assert UnescapeBody("a\"b\"", '"') == None;
    Preview.CsvCellRoundTrip(row, "name");
  }

  /** A SQL value holding an apostrophe ends its literal early: `O'Brien` is written `'O'Brien'`. */
  lemma SqlLiteralBreaks()
    ensures var row: Record := [("name", Str("O'Brien"))];
            SqlLiteral(row, "name") == "'O'Brien'"
            && Unquote(SqlLiteral(row, "name"), '\'') != Some("O'Brien")
            && Unquote(Preview.SqlLiteral(row, "name"), '\'') == Some("O'Brien")
  {
    var row: Record := [("name", Str("O'Brien"))];
    assert Get(row, "name") == Some(Str("O'Brien"));
    assert CellText(row, "name") == "O'Brien";
    assert SqlLiteral(row, "name") == "'" + "O'Brien" + "'";
    assert "'" + "O'Brien" + "'" == "'O'Brien'";
    assert UnescapeBody("'Brien'", '\'') == None;
    assert UnescapeBody("O'Brien'", '\'') == None;
    Preview.SqlLiteralRoundTrip(row, "name");
  }

  /** The table: at most 100 rows, each cell `String(row[name])` cut to 30 characters. */
  function TablePreview(data: seq<Record>, names: seq<string>): (cells: seq<seq<string>>)
    ensures |cells| == if |data| < Preview.PreviewRows then |data| else Preview.PreviewRows
    ensures forall i, j :: 0 <= i < |cells| && 0 <= j < |names| ==>
              |cells[i]| == |names| && cells[i][j] == Preview.Truncated(CellText(data[i], names[j]))
  {
    var rows := Preview.Head(data, Preview.PreviewRows);
    seq(|rows|, i requires 0 <= i < |rows| =>
      seq(|names|, j requires 0 <= j < |names| => Preview.Truncated(CellText(rows[i], names[j]))))
  }

  /** The JSON view: the first 20 rows as generated; a note follows when there are more. */
  function JsonPreview(data: seq<Record>): (r: seq<Record>)
    ensures |r| <= Preview.JsonPreviewRows && |r| <= |data| && r == data[..|r|]
    ensures |data| > Preview.JsonPreviewRows <==> |r| < |data|
  {
    Preview.Head(data, Preview.JsonPreviewRows)
  }
}
