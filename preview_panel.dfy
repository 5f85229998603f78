/**
 * The data preview panel of the generator page
 * (frontend/src/components/PreviewPanel.tsx): the text its copy and export
 * buttons produce from the generated rows, in the configured field order, and
 * the truncated table preview. The clipboard, the download and the server-side
 * export are I/O: the server's answer is a parameter.
 */
module Preview {
  import opened Wrappers
  import opened Text
  import opened Values

  // ---------------------------------------------------------------- String(value)

  /** JavaScript's `String(v)` for the values the rows hold. */
  function JsString(v: Value): string
    decreases v, 1
  {
    match v
    case Null => "null"
    case Bool(b) => if b then "true" else "false"
    case Int(i) => IntToDecimal(i)
    case Str(s) => s
    case List(items) => Join(JsElements(items, v), ",")
    case Dict(_) => "[object Object]"
  }

  /** The element texts `Array.prototype.join` uses: null becomes the empty text. */
  function JsElements(items: seq<Value>, parent: Value): (r: seq<string>)
    requires forall i :: 0 <= i < |items| ==> items[i] < parent
    ensures |r| == |items|
    decreases parent, 0, |items|
  {
    if items == [] then []
    else [if items[0].Null? then "" else JsString(items[0])] + JsElements(items[1..], parent)
  }

  /** `getOrderedValue`: a missing or null value shows as the empty text, anything else as `String(value)`. */
  function OrderedValue(row: Record, name: string): (s: string)
    ensures (Get(row, name).None? || Get(row, name) == Some(Null)) ==> s == ""
    ensures Get(row, name).Some? && Get(row, name) != Some(Null) ==> s == JsString(Get(row, name).value)
  {
    match Get(row, name)
    case None => ""
    case Some(Null) => ""
    case Some(v) => JsString(v)
  }

  // ---------------------------------------------------------------- JSON

  /** The entries `ordered[f.name] = row[f.name]` leaves in the output: the names the row has, in field order. */
  function Pairs(row: Record, names: seq<string>): (ps: seq<(string, Value)>)
    ensures |ps| <= |names|
  {
    if names == [] then []
    else
      var last := names[|names| - 1];
      Pairs(row, names[..|names| - 1]) + if HasKey(row, last) then [(last, Get(row, last).value)] else []
  }

  /** The object built for one row; a name the row lacks holds `undefined`, which JSON output drops. */
  function OrderedRow(row: Record, names: seq<string>): Record {
    Assign(Pairs(row, names))
  }

  function OrderedRows(data: seq<Record>, names: seq<string>): (r: seq<Record>)
    ensures |r| == |data| && forall i :: 0 <= i < |data| ==> r[i] == OrderedRow(data[i], names)
  {
    seq(|data|, i requires 0 <= i < |data| => OrderedRow(data[i], names))
  }

  lemma {:induction false} PairsNames(row: Record, names: seq<string>, k: string)
    ensures k in Names(Pairs(row, names)) <==> k in names && HasKey(row, k)
  {
    if names != [] {
      var init := names[..|names| - 1];
      var last := names[|names| - 1];
      PairsNames(row, init, k);
      var ps := Pairs(row, init);
      assert names == init + [last];
      if HasKey(row, last) {
        var x := (last, Get(row, last).value);
        assert (ps + [x])[..|ps|] == ps;
        assert Names(ps + [x]) == Names(ps) + [last];
      }
    }
  }

  lemma {:induction false} PairsLastValue(row: Record, names: seq<string>, k: string)
    ensures LastValue(Pairs(row, names), k) == if k in names then Get(row, k) else None
  {
    if names != [] {
      var init := names[..|names| - 1];
      var last := names[|names| - 1];
      PairsLastValue(row, init, k);
      var ps := Pairs(row, init);
      assert names == init + [last];
      if HasKey(row, last) {
        var x := (last, Get(row, last).value);
        assert (ps + [x])[..|ps|] == ps;
      } else {
        assert Pairs(row, names) == ps + [] == ps;
        assert k in names <==> k in init || k == last;
      }
    }
  }

  /**
   * The ordered object holds exactly the configured names the row has, each
   * with the row's value, and no key twice.
   */
  lemma OrderedRowContents(row: Record, names: seq<string>, k: string)
    ensures HasKey(OrderedRow(row, names), k) <==> k in names && HasKey(row, k)
    ensures k in names ==> Get(OrderedRow(row, names), k) == Get(row, k)
    ensures UniqueKeys(OrderedRow(row, names))
  {
    PairsNames(row, names, k);
    PairsLastValue(row, names, k);
    AssignKeys(Pairs(row, names), k);
    AssignGet(Pairs(row, names), k);
    AssignUnique(Pairs(row, names));
  }

  lemma {:induction false} PairsOrder(row: Record, names: seq<string>)
    requires forall i, j :: 0 <= i < j < |names| ==> names[i] != names[j]
    ensures forall i, j :: 0 <= i < j < |Pairs(row, names)| ==> Pairs(row, names)[i].0 != Pairs(row, names)[j].0
    ensures forall i :: 0 <= i < |Pairs(row, names)| ==> Pairs(row, names)[i].0 in names
  {
    if names != [] {
      var init := names[..|names| - 1];
      PairsOrder(row, init);
      assert forall i :: 0 <= i < |init| ==> init[i] != names[|names| - 1];
    }
  }

  /** With distinct field names the object's keys are created for the present names, in field order. */
  lemma OrderedRowKeys(row: Record, names: seq<string>)
    requires forall i, j :: 0 <= i < j < |names| ==> names[i] != names[j]
    ensures Keys(OrderedRow(row, names)) == Names(Pairs(row, names))
  {
    PairsOrder(row, names);
    AssignDistinct(Pairs(row, names));
  }

  /**
   * `JSON.stringify` lists the ordered object's keys in JavaScript's key
   * order, not in field order: the present names are all listed, once each;
   * those that are array indices come first, ascending by value; the others
   * follow in field order.
   */
  lemma OrderedRowJsonKeys(row: Record, names: seq<string>)
    requires forall i, j :: 0 <= i < j < |names| ==> names[i] != names[j]
    ensures var js := JsKeyOrder(Keys(OrderedRow(row, names)));
            var present := Names(Pairs(row, names));
            multiset(js) == multiset(present) && OtherKeys(js) == OtherKeys(present)
            && forall i, j :: 0 <= i < j < |js| && IsArrayIndex(js[j]) ==>
                 IsArrayIndex(js[i]) && IndexValue(js[i]) <= IndexValue(js[j])
  {
    OrderedRowKeys(row, names);
    var ks := Keys(OrderedRow(row, names));
    JsKeyOrderPermutes(ks);
    JsKeyOrderOthers(ks);
    JsKeyOrderIndicesFirst(ks);
  }

  /** With no field name an array index, the JSON keys are the present names in field order. */
  lemma OrderedRowJsonPlain(row: Record, names: seq<string>)
    requires forall i, j :: 0 <= i < j < |names| ==> names[i] != names[j]
    requires forall i :: 0 <= i < |names| ==> !IsArrayIndex(names[i])
    ensures JsKeyOrder(Keys(OrderedRow(row, names))) == Names(Pairs(row, names))
  {
    OrderedRowKeys(row, names);
    PairsOrder(row, names);
    JsKeyOrderPlain(Names(Pairs(row, names)));
  }

  lemma PairsSnoc(row: Record, names: seq<string>, k: string)
    ensures Pairs(row, names + [k]) == Pairs(row, names) + if HasKey(row, k) then [(k, Get(row, k).value)] else []
  {
    assert (names + [k])[..|names|] == names;
  }

  lemma PairsOfTwo(row: Record, a: string, b: string)
    requires HasKey(row, a) && HasKey(row, b)
    ensures Names(Pairs(row, [a, b])) == [a, b]
  {
    PairsSnoc(row, [], a);
    assert [] + [a] == [a];
    PairsSnoc(row, [a], b);
    assert [a] + [b] == [a, b];
    var ns := Names(Pairs(row, [a, b]));
    assert |ns| == 2 && ns[0] == a && ns[1] == b;
  }

  lemma TwoPresentNames(row: Record, a: string, b: string)
    requires a != b && HasKey(row, a) && HasKey(row, b)
    ensures Keys(OrderedRow(row, [a, b])) == [a, b]
  {
    OrderedRowKeys(row, [a, b]);
    PairsOfTwo(row, a, b);
  }

  /** Fields "b" then "1": the exported object lists "1" first. */
  lemma OrderedRowIndexNameFirst(row: Record)
    requires HasKey(row, "b") && HasKey(row, "1")
    ensures JsKeyOrder(Keys(OrderedRow(row, ["b", "1"]))) == ["1", "b"]
  {
    TwoPresentNames(row, "b", "1");
    JsKeyOrderIndexFirst();
  }

  // ---------------------------------------------------------------- CSV

  /** A CSV cell: the value in double quotes, inner double quotes doubled (section 2 of RFC 4180). */
  function CsvCell(row: Record, name: string): string {
    Quote(OrderedValue(row, name), '"')
  }

  function CsvRow(row: Record, names: seq<string>): string {
    Join(seq(|names|, j requires 0 <= j < |names| => CsvCell(row, names[j])), ",")
  }

  /** The header line, then one line per row, joined by newlines. */
  function CsvText(data: seq<Record>, names: seq<string>): string {
    Join([Join(names, ",")] + seq(|data|, i requires 0 <= i < |data| => CsvRow(data[i], names)), "\n")
  }

  /** Every cell reads back as the displayed value, whatever quotes it holds. */
  lemma CsvCellRoundTrip(row: Record, name: string)
    ensures Unquote(CsvCell(row, name), '"') == Some(OrderedValue(row, name))
  {
    QuoteRoundTrip(OrderedValue(row, name), '"');
  }

  /** Doubling one quote character adds no other character. */
  lemma {:induction false} EscapeAvoids(s: string, q: char, c: char)
    requires c != q && c !in s
    ensures c !in Escape(s, q)
  {
    if s != [] {
      EscapeAvoids(s[1..], q, c);
    }
  }

  /** A join holds a character only if a part or the separator does. */
  lemma {:induction false} JoinAvoids(parts: seq<string>, sep: string, c: char)
    requires c !in sep && forall i :: 0 <= i < |parts| ==> c !in parts[i]
    ensures c !in Join(parts, sep)
  {
    if |parts| > 1 {
      JoinAvoids(parts[1..], sep, c);
    }
  }

  /** A row line holds no line break when no displayed value does. */
  lemma CsvRowOneLine(row: Record, names: seq<string>)
    requires forall j :: 0 <= j < |names| ==> '\n' !in OrderedValue(row, names[j])
    ensures '\n' !in CsvRow(row, names)
  {
    var cells := seq(|names|, j requires 0 <= j < |names| => CsvCell(row, names[j]));
    forall j | 0 <= j < |names| ensures '\n' !in cells[j] {
      EscapeAvoids(OrderedValue(row, names[j]), '"', '\n');
    }
    JoinAvoids(cells, ",", '\n');
  }

  /** The header line, then one line per row. */
  function CsvLineList(data: seq<Record>, names: seq<string>): (lines: seq<string>)
    ensures |lines| == |data| + 1 && lines[0] == Join(names, ",")
    ensures forall i :: 0 <= i < |data| ==> lines[i + 1] == CsvRow(data[i], names)
  {
    [Join(names, ",")] + seq(|data|, i requires 0 <= i < |data| => CsvRow(data[i], names))
  }

  /** A CSV text is its lines joined by newlines. */
  lemma CsvTextLines(data: seq<Record>, names: seq<string>)
    ensures CsvText(data, names) == Join(CsvLineList(data, names), "\n")
  {
  }

  lemma NoLineBreaks(data: seq<Record>, names: seq<string>)
    requires forall j :: 0 <= j < |names| ==> '\n' !in names[j]
    requires forall i, j :: 0 <= i < |data| && 0 <= j < |names| ==> '\n' !in OrderedValue(data[i], names[j])
    ensures forall k :: 0 <= k < |data| + 1 ==> '\n' !in CsvLineList(data, names)[k]
  {
    JoinAvoids(names, ",", '\n');
    forall i | 0 <= i < |data| ensures '\n' !in CsvRow(data[i], names) {
      CsvRowOneLine(data[i], names);
    }
  }

  /**
   * When neither the field names nor the values hold a line break, the text
   * splits back into the header line and one line per row, in order.
   */
  lemma CsvLines(data: seq<Record>, names: seq<string>)
    requires forall j :: 0 <= j < |names| ==> '\n' !in names[j]
    requires forall i, j :: 0 <= i < |data| && 0 <= j < |names| ==> '\n' !in OrderedValue(data[i], names[j])
    ensures Split(CsvText(data, names), '\n') == CsvLineList(data, names)
  {
    NoLineBreaks(data, names);
    CsvTextLines(data, names);
    SplitJoin(CsvLineList(data, names), '\n');
  }

  // ---------------------------------------------------------------- SQL

  /** A SQL string literal: the value in single quotes, inner single quotes doubled. */
  function SqlLiteral(row: Record, name: string): string {
    Quote(OrderedValue(row, name), '\'')
  }

  function SqlTuple(row: Record, names: seq<string>): string {
    "(" + Join(seq(|names|, j requires 0 <= j < |names| => SqlLiteral(row, names[j])), ", ") + ")"
  }

  /** One INSERT into `test_data` with one tuple per row. */
  function SqlText(data: seq<Record>, names: seq<string>): string {
    "INSERT INTO test_data (" + Join(names, ", ") + ") VALUES\n"
    + Join(seq(|data|, i requires 0 <= i < |data| => SqlTuple(data[i], names)), ",\n") + ";"
  }

  /** Every literal reads back as the displayed value, whatever apostrophes it holds. */
  lemma SqlLiteralRoundTrip(row: Record, name: string)
    ensures Unquote(SqlLiteral(row, name), '\'') == Some(OrderedValue(row, name))
  {
    QuoteRoundTrip(OrderedValue(row, name), '\'');
  }

  // ---------------------------------------------------------------- copy and export

  datatype Format = Json | Csv | Sql

  /**
   * What the buttons produce: a text, or the ordered rows that
   * `JSON.stringify` prints, each object's keys in `JsKeyOrder`.
   */
  datatype Content = Text(text: string) | JsonRows(rows: seq<Record>)

  /** The content for a format, built from the rows and the field names. */
  function Render(data: seq<Record>, names: seq<string>, format: Format): Content {
    match format
    case Json => JsonRows(OrderedRows(data, names))
    case Csv => Text(CsvText(data, names))
    case Sql => Text(SqlText(data, names))
  }

  /** `copyToClipboard`: nothing without rows. */
  function Copy(data: seq<Record>, names: seq<string>, format: Format): (r: Option<Content>)
    ensures r.None? <==> data == []
    ensures r.Some? ==> r.value == Render(data, names, format)
  {
    if data == [] then None else Some(Render(data, names, format))
  }

  /** The file a download saves. */
  datatype Download = Download(filename: string, content: Content)

  function Extension(format: Format): string {
    match format
    case Json => "json"
    case Csv => "csv"
    case Sql => "sql"
  }

  /** `fallbackExport`: the same serialisations, built from the ordered rows. */
  function FallbackExport(data: seq<Record>, names: seq<string>, format: Format): Download {
    var ordered := OrderedRows(data, names);
    Download("generated_data." + Extension(format),
             match format
             case Json => JsonRows(ordered)
             case Csv => Text(CsvText(ordered, names))
             case Sql => Text(SqlText(ordered, names)))
  }

  /**
   * `handleExport`: nothing without rows or while an export is in flight;
   * otherwise the server's file, or the local fallback when the server fails.
   */
  function HandleExport(data: seq<Record>, names: seq<string>, format: Format, exporting: bool,
                        served: Option<string>): (r: Option<Download>)
    ensures r.None? <==> data == [] || exporting
    ensures r.Some? ==> r.value.filename == "generated_data." + Extension(format)
    ensures r.Some? && served.Some? ==> r.value.content == Text(served.value)
  {
    if data == [] || exporting then None
    else if served.Some? then Some(Download("generated_data." + Extension(format), Text(served.value)))
    else Some(FallbackExport(data, names, format))
  }

  /** A cell computed from the ordered object shows what the row itself shows. */
  lemma OrderedValueKept(row: Record, names: seq<string>, name: string)
    requires name in names
    ensures OrderedValue(OrderedRow(row, names), name) == OrderedValue(row, name)
  {
    OrderedRowContents(row, names, name);
  }

  /** The fallback export writes the same CSV and SQL text as the copy button. */
  lemma FallbackMatchesCopy(data: seq<Record>, names: seq<string>, format: Format)
    ensures FallbackExport(data, names, format).content == Render(data, names, format)
  {
    var ordered := OrderedRows(data, names);
    forall i, j | 0 <= i < |data| && 0 <= j < |names|
      ensures OrderedValue(ordered[i], names[j]) == OrderedValue(data[i], names[j])
    {
      OrderedValueKept(data[i], names, names[j]);
    }
    forall i | 0 <= i < |data|
      ensures CsvRow(ordered[i], names) == CsvRow(data[i], names)
      ensures SqlTuple(ordered[i], names) == SqlTuple(data[i], names)
    {
      assert seq(|names|, j requires 0 <= j < |names| => CsvCell(ordered[i], names[j]))
          == seq(|names|, j requires 0 <= j < |names| => CsvCell(data[i], names[j]));
      assert seq(|names|, j requires 0 <= j < |names| => SqlLiteral(ordered[i], names[j]))
          == seq(|names|, j requires 0 <= j < |names| => SqlLiteral(data[i], names[j]));
    }
    assert seq(|data|, i requires 0 <= i < |data| => CsvRow(ordered[i], names))
        == seq(|data|, i requires 0 <= i < |data| => CsvRow(data[i], names));
    assert seq(|data|, i requires 0 <= i < |data| => SqlTuple(ordered[i], names))
        == seq(|data|, i requires 0 <= i < |data| => SqlTuple(data[i], names));
  }

  // ---------------------------------------------------------------- table preview

  const PreviewRows := 100
  const CellWidth := 30
  const JsonPreviewRows := 20

  /** `s.slice(0, 30)` followed by `...` when the text is longer. */
  function Truncated(s: string): (r: string)
    ensures |r| <= CellWidth + 3
    ensures |s| <= CellWidth ==> r == s
    ensures |s| > CellWidth ==> |r| == CellWidth + 3 && r[..CellWidth] == s[..CellWidth] && r[CellWidth..] == "..."
  {
    if |s| > CellWidth then s[..CellWidth] + "..." else s
  }

  /** `data.slice(0, n)`. */
  function Head<T>(data: seq<T>, n: nat): (r: seq<T>)
    ensures |r| == if |data| < n then |data| else n
    ensures r == data[..|r|]
  {
    if |data| < n then data else data[..n]
  }

  /** The table: at most 100 rows, each cell the truncated displayed value. */
  function TablePreview(data: seq<Record>, names: seq<string>): (cells: seq<seq<string>>)
    ensures |cells| <= PreviewRows && |cells| == if |data| < PreviewRows then |data| else PreviewRows
    ensures forall i :: 0 <= i < |cells| ==> |cells[i]| == |names|
  {
    var rows := Head(data, PreviewRows);
    seq(|rows|, i requires 0 <= i < |rows| =>
      seq(|names|, j requires 0 <= j < |names| => Truncated(OrderedValue(rows[i], names[j]))))
  }

  /** The JSON view: the first 20 rows, ordered like the export. */
  function JsonPreview(data: seq<Record>, names: seq<string>): (r: seq<Record>)
    ensures |r| <= JsonPreviewRows && |r| == if |data| < JsonPreviewRows then |data| else JsonPreviewRows
    ensures forall i :: 0 <= i < |r| ==> r[i] == OrderedRow(data[i], names)
  {
    OrderedRows(Head(data, JsonPreviewRows), names)
  }

  /** The `// ... 更多数据` note after the JSON view is shown when there are more than 20 rows. */
  predicate JsonMoreNote(data: seq<Record>) {
    |data| > JsonPreviewRows
  }

  /** The JSON view's note appears exactly when the view leaves rows out. */
  lemma JsonPreviewNote(data: seq<Record>, names: seq<string>)
    ensures JsonMoreNote(data) <==> |JsonPreview(data, names)| < |data|
  {
  }

  /** The note under the table appears exactly when rows were left out. */
  predicate MoreRowsNote(data: seq<Record>) {
    |data| > PreviewRows
  }

  /** A cell shows a value up to 30 characters whole and a longer one as its first 30 characters; every row shown is a leading row. */
  lemma TablePreviewCells(data: seq<Record>, names: seq<string>, i: nat, j: nat)
    requires i < |TablePreview(data, names)| && j < |names|
    ensures var s := OrderedValue(data[i], names[j]);
            var c := TablePreview(data, names)[i][j];
            (|s| <= CellWidth ==> c == s) && (|s| > CellWidth ==> c == s[..CellWidth] + "...")
    ensures MoreRowsNote(data) <==> |TablePreview(data, names)| < |data|
  {
  }
}
