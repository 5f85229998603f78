/**
 * The export service (backend/services/export_service.py): SQL INSERT text,
 * the field-ordered rows handed to the JSON encoder, and the empty cases of
 * the CSV export. A field configuration is represented by its list of names
 * (`[f["name"] for f in fields]`); json.dumps and csv.DictWriter are parameters.
 */
module Export {
  import opened Wrappers
  import opened Values
  import opened Text

  /** One SQL literal: text quoted with inner quotes doubled, booleans 1/0, None as NULL, anything else str(). */
  function SqlLiteral(v: Value): (lit: string)
    ensures v.Str? ==> Unquote(lit, '\'') == Some(v.s)
    ensures v.Int? ==> ParseInt(lit) == Some(v.i)
    ensures v.Bool? ==> lit == (if v.b then "1" else "0")
    ensures v.Null? ==> lit == "NULL"
  {
    match v
    case Str(s) => QuoteRoundTrip(s, '\''); Quote(s, '\'')
    case Bool(b) => if b then "1" else "0"
    case Null => "NULL"
    case Int(i) => IntRoundTrip(i); IntToDecimal(i)
    case _ => PyStr(v)
  }

  /** The literals of one row, one per column name; a missing key reads as "". */
  function Cells(row: Record, names: seq<string>): (cs: seq<string>)
    ensures |cs| == |names|
  {
    seq(|names|, j requires 0 <= j < |names| => SqlLiteral(GetOr(row, names[j], Str(""))))
  }

  function Tuple(row: Record, names: seq<string>): string {
    "(" + Join(Cells(row, names), ", ") + ")"
  }

  function Tuples(data: seq<Record>, names: seq<string>): (ts: seq<string>)
    ensures |ts| == |data|
  {
    seq(|data|, i requires 0 <= i < |data| => Tuple(data[i], names))
  }

  /** `INSERT INTO t (c1, c2) VALUES\n(…),\n(…);`, shared by every SQL export of the program. */
  function InsertStatement(table: string, columns: seq<string>, tuples: seq<string>): string {
    InsertHead(table, columns) + Join(tuples, ",\n") + ";"
  }

  function InsertHead(table: string, columns: seq<string>): string {
    "INSERT INTO " + table + " (" + Join(columns, ", ") + ") VALUES\n"
  }

  /** An INSERT statement starts with its head and ends with ';'. */
  lemma InsertStatementShape(table: string, columns: seq<string>, tuples: seq<string>)
    ensures StartsWith(InsertStatement(table, columns, tuples), InsertHead(table, columns))
    ensures var s := InsertStatement(table, columns, tuples); |s| > 0 && s[|s| - 1] == ';'
  {
    var h := InsertHead(table, columns);
    var s := InsertStatement(table, columns, tuples);
    assert s == h + (Join(tuples, ",\n") + ";");
    assert s[..|h|] == h;
  }

  /** What `to_sql` returns. */
  function SqlText(data: seq<Record>, names: seq<string>, table: string): string {
    if data == [] || names == [] then "" else InsertStatement(table, names, Tuples(data, names))
  }

  /** The inner loop of `to_sql`: one SQL literal per field name, in order. */
  method RowValues(row: Record, names: seq<string>) returns (values: seq<string>)
    ensures values == Cells(row, names)
  {
    values := [];
    var j := 0;
    while j < |names|
      invariant 0 <= j <= |names|
      invariant values == Cells(row, names[..j])
    {
      assert names[..j + 1][..j] == names[..j];
      values := values + [SqlLiteral(GetOr(row, names[j], Str("")))];
      j := j + 1;
    }
    assert names[..j] == names;
  }

  /** `to_sql`: the tuples are built row by row, cell by cell. */
  method ToSql(data: seq<Record>, names: seq<string>, table: string) returns (sql: string)
    ensures sql == SqlText(data, names, table)
  {
    if data == [] || names == [] {
      return "";
    }
    var valuesList: seq<string> := [];
    var i := 0;
    while i < |data|
      invariant 0 <= i <= |data|
      invariant |valuesList| == i && forall k :: 0 <= k < i ==> valuesList[k] == Tuple(data[k], names)
    {
      var values := RowValues(data[i], names);
      ghost var tuple := Tuple(data[i], names);
      valuesList := valuesList + ["(" + Join(values, ", ") + ")"];
      assert valuesList[i] == tuple;
      i := i + 1;
    }
    assert valuesList == Tuples(data, names);
    sql := InsertStatement(table, names, valuesList);
  }

  /** The export is empty exactly when there are no rows or no fields; otherwise it is one INSERT statement ending in ';'. */
  lemma SqlEmpty(data: seq<Record>, names: seq<string>, table: string)
    ensures SqlText(data, names, table) == "" <==> data == [] || names == []
    ensures data != [] && names != [] ==>
              StartsWith(SqlText(data, names, table), InsertHead(table, names))
              && SqlText(data, names, table)[|SqlText(data, names, table)| - 1] == ';'
  {
    if data != [] && names != [] {
      InsertStatementShape(table, names, Tuples(data, names));
    }
  }

  /** A column the row lacks is written as the empty string literal ''. */
  lemma SqlMissingColumn(row: Record, names: seq<string>, j: nat)
    requires j < |names| && !HasKey(row, names[j])
    ensures Cells(row, names)[j] == "''"
  {
    assert Escape("", '\'') == "";
  }

  /** A text cell reads back, through SQL's doubled-quote rule, as the row's text. */
  lemma SqlTextCellRoundTrip(row: Record, names: seq<string>, j: nat)
    requires j < |names| && HasKey(row, names[j]) && Get(row, names[j]).value.Str?
    ensures Unquote(Cells(row, names)[j], '\'') == Some(Get(row, names[j]).value.s)
  {
  }

  /** The row `_ensure_field_order` rebuilds: the configured names the row has, in configuration order. */
  function Ordered(row: Record, names: seq<string>): Record {
    if names == [] then []
    else
      var r := Ordered(row, names[..|names| - 1]);
      var n := names[|names| - 1];
      if HasKey(row, n) then Put(r, n, Get(row, n).value) else r
  }

  /** The configured names the row has, in order. */
  function Present(row: Record, names: seq<string>): (ps: seq<string>)
    ensures forall n :: n in ps <==> n in names && HasKey(row, n)
  {
    if names == [] then []
    else
      var ps := Present(row, names[..|names| - 1]);
      var n := names[|names| - 1];
      assert names == names[..|names| - 1] + [n];
      if HasKey(row, n) then ps + [n] else ps
  }

  /** A name keeps its row's value if it is configured; everything else is dropped. */
  lemma {:induction false} OrderedGet(row: Record, names: seq<string>, k: string)
    ensures Get(Ordered(row, names), k) == if k in names then Get(row, k) else None
  {
    if names != [] {
      var init := names[..|names| - 1];
      var n := names[|names| - 1];
      assert names == init + [n];
      OrderedGet(row, init, k);
      if HasKey(row, n) {
        GetPut(Ordered(row, init), n, Get(row, n).value, k);
      }
    }
  }

  /** With distinct configured names, the rebuilt row's keys are the present names in configuration order. */
  lemma {:induction false} OrderedKeys(row: Record, names: seq<string>)
    requires forall i, j :: 0 <= i < j < |names| ==> names[i] != names[j]
    ensures Keys(Ordered(row, names)) == Present(row, names)
  {
    if names != [] {
      var init := names[..|names| - 1];
      var n := names[|names| - 1];
      OrderedKeys(row, init);
      if HasKey(row, n) {
        assert n !in init;
        assert !HasKey(Ordered(row, init), n);
      }
    }
  }

  /** What `_ensure_field_order` returns: the data itself without fields, else every row rebuilt. */
  function FieldOrder(data: seq<Record>, names: seq<string>): seq<Record> {
    if names == [] then data else seq(|data|, i requires 0 <= i < |data| => Ordered(data[i], names))
  }

  /** `_ensure_field_order`. */
  method EnsureFieldOrder(data: seq<Record>, names: seq<string>) returns (out: seq<Record>)
    ensures out == FieldOrder(data, names)
  {
    if names == [] {
      return data;
    }
    out := [];
    var i := 0;
    while i < |data|
      invariant 0 <= i <= |data|
      invariant |out| == i && forall k :: 0 <= k < i ==> out[k] == Ordered(data[k], names)
    {
      var row := data[i];
      var orderedRow: Record := [];
      var j := 0;
      while j < |names|
        invariant 0 <= j <= |names|
        invariant orderedRow == Ordered(row, names[..j])
      {
        assert names[..j + 1][..j] == names[..j];
        if HasKey(row, names[j]) {
          orderedRow := Put(orderedRow, names[j], Get(row, names[j]).value);
        }
        j := j + 1;
      }
      assert names[..|names|] == names;
      out := out + [orderedRow];
      i := i + 1;
    }
  }

  /** The row count is kept, and each row holds exactly its configured keys with their values. */
  lemma FieldOrderShape(data: seq<Record>, names: seq<string>, i: nat, k: string)
    requires names != [] && i < |data|
    ensures |FieldOrder(data, names)| == |data|
    ensures Get(FieldOrder(data, names)[i], k) == if k in names then Get(data[i], k) else None
  {
    OrderedGet(data[i], names, k);
  }

  /** json.dumps. */
  type JsonEncoder = seq<Record> -> string

  /** `to_json`: the field-ordered rows, encoded. */
  function ToJson(data: seq<Record>, names: seq<string>, dumps: JsonEncoder): string {
    dumps(FieldOrder(data, names))
  }

  /** csv.DictWriter: the header and the rows, each a value per field name. */
  type CsvWriter = (seq<string>, seq<seq<Value>>) -> string

  /** `{name: row.get(name, "") for name in field_names}`, written in field-name order. */
  function CsvRows(data: seq<Record>, names: seq<string>): (rows: seq<seq<Value>>)
    ensures |rows| == |data| && forall i :: 0 <= i < |data| ==> |rows[i]| == |names|
  {
    seq(|data|, i requires 0 <= i < |data| =>
      seq(|names|, j requires 0 <= j < |names| => GetOr(data[i], names[j], Str(""))))
  }

  /** `to_csv`. */
  function ToCsv(data: seq<Record>, names: seq<string>, write: CsvWriter): string {
    if data == [] || names == [] then "" else write(names, CsvRows(data, names))
  }

  /**
   * No rows or no fields give the empty text without calling the writer; otherwise the writer decides.
   * The `csv` module is a parameter here, so beyond the empty case the only thing to say is which rows
   * the writer receives; what those rows hold is stated by `CsvRows`.
   */
  lemma CsvEmpty(data: seq<Record>, names: seq<string>, write: CsvWriter)
    ensures data == [] || names == [] ==> ToCsv(data, names, write) == ""
    ensures data != [] && names != [] ==> ToCsv(data, names, write) == write(names, CsvRows(data, names))
  {
  }
}
