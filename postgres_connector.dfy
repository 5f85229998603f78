/**
 * The SQL-building side of the PostgreSQL connector
 * (backend/connectors/postgres_connector.py): the mapping of generator field
 * types to PostgreSQL types, the column type text read back from
 * information_schema, the `CREATE TABLE` statement and the row-by-row
 * insert. The psycopg2 cursor is a parameter: it receives the statement
 * and answers with an error text or nothing.
 */
module PostgresConnector {
  import opened Wrappers
  import opened Text
  import opened Values

  // ---------------------------------------------------------------- the type table

  /** `type_mapping` of `_map_type`: generator type to PostgreSQL type. */
  const TypeMapping: seq<(string, string)> := [
    ("uuid", "UUID"),
    ("string", "VARCHAR(255)"),
    ("text", "TEXT"),
    ("integer", "INTEGER"),
    ("bigint", "BIGINT"),
    ("float", "REAL"),
    ("double", "DOUBLE PRECISION"),
    ("decimal", "NUMERIC(10,2)"),
    ("boolean", "BOOLEAN"),
    ("date", "DATE"),
    ("datetime", "TIMESTAMP"),
    ("timestamp", "TIMESTAMP WITH TIME ZONE"),
    ("json", "JSONB"),
    ("email", "VARCHAR(255)"),
    ("phone", "VARCHAR(20)"),
    ("url", "VARCHAR(500)"),
    ("ip", "INET")
  ]

  const DefaultType := "VARCHAR(255)"

  const NotNullSuffix := " NOT NULL"

  predicate EndsWith(s: string, suffix: string) {
    |suffix| <= |s| && s[|s| - |suffix|..] == suffix
  }

  /** A type that neither ends with ` NOT NULL` nor is a tail of it. */
  predicate Plain(t: string) {
    !EndsWith(t, NotNullSuffix) && !EndsWith(NotNullSuffix, t)
  }

  /** Two endings of one text: the shorter is an ending of the longer. */
  lemma EndingOfEnding(s: string, a: string, b: string)
    ensures EndsWith(s, a) && EndsWith(s, b) && |b| <= |a| ==> EndsWith(a, b)
  {
    if EndsWith(s, a) && EndsWith(s, b) && |b| <= |a| {
      assert a[|a| - |b|..] == s[|s| - |b|..];
    }
  }

  /** Whatever precedes a plain type, the text does not end with ` NOT NULL`. */
  lemma PlainTail(prefix: string, t: string)
    requires Plain(t)
    ensures !EndsWith(prefix + t, NotNullSuffix)
  {
    var s := prefix + t;
    assert s[|s| - |t|..] == t;
    EndingOfEnding(s, t, NotNullSuffix);
    EndingOfEnding(s, NotNullSuffix, t);
  }

  /** No type of the table, nor the default, can be taken for a ` NOT NULL` ending. */
  lemma TypeMappingPlain()
    ensures forall i :: 0 <= i < |TypeMapping| ==> Plain(TypeMapping[i].1)
    ensures Plain(DefaultType)
  {
  }

  /** No type name is listed twice in the table of `_map_type`. */
  lemma StandardKeysDistinct()
    ensures forall j, k :: 0 <= j < k < |TypeMapping| ==> TypeMapping[j].0 != TypeMapping[k].0
  {
  }

  /** `dict.get(k)` on an association list: the value of the first entry with that key. */
  function Lookup(table: seq<(string, string)>, k: string): (r: Option<string>)
    ensures r.None? <==> forall i :: 0 <= i < |table| ==> table[i].0 != k
    ensures forall i :: 0 <= i < |table| && table[i].0 == k && (forall j :: 0 <= j < i ==> table[j].0 != k) ==>
              r == Some(table[i].1)
  {
    if table == [] then None
    else if table[0].0 == k then Some(table[0].1)
    else
      var r := Lookup(table[1..], k);
      assert forall i :: 1 <= i < |table| ==> table[1..][i - 1] == table[i];
      r
  }

  /** A found value is the value of some entry. */
  lemma {:induction false} LookupFound(table: seq<(string, string)>, k: string)
    ensures Lookup(table, k).Some? ==> exists i :: 0 <= i < |table| && table[i] == (k, Lookup(table, k).value)
  {
    if table != [] && table[0].0 != k {
      LookupFound(table[1..], k);
      if Lookup(table, k).Some? {
        var i :| 0 <= i < |table[1..]| && table[1..][i] == (k, Lookup(table, k).value);
        assert table[i + 1] == table[1..][i];
      }
    }
  }

  lemma LowerIdempotent(s: string)
    ensures Lower(Lower(s)) == Lower(s)
  {
    assert forall i :: 0 <= i < |s| ==> LowerChar(LowerChar(s[i])) == LowerChar(s[i]);
  }

  // ---------------------------------------------------------------- get_table_schema

  /** One row of information_schema.columns; a length, precision or scale of 0 or NULL is absent. */
  datatype InfoRow = InfoRow(columnName: string, dataType: string, isNullable: string, columnDefault: Option<string>,
                             charMaxLength: Option<int>, precision: Option<int>, scale: Option<int>)

  /** A column of the schema `get_table_schema` reports. */
  datatype PgColumn = PgColumn(name: string, kind: string, nullable: bool, default: Option<string>, primaryKey: bool)

  /** A truthy optional number: present and not 0. */
  predicate Given(n: Option<int>) {
    n.Some? && n.value != 0
  }

  /** The size arguments the column type carries: the maximum length, else the precision and a non-zero scale. */
  function SizeArgs(row: InfoRow): (args: seq<int>)
    ensures |args| <= 2
    ensures Given(row.charMaxLength) ==> args == [row.charMaxLength.value]
    ensures !Given(row.charMaxLength) && !Given(row.precision) ==> args == []
    ensures !Given(row.charMaxLength) && Given(row.precision) ==>
              |args| >= 1 && args[0] == row.precision.value && (|args| == 2 <==> Given(row.scale))
  {
    if Given(row.charMaxLength) then [row.charMaxLength.value]
    else if Given(row.precision) then
      [row.precision.value] + if Given(row.scale) then [row.scale.value] else []
    else []
  }

  /** `data_type`, followed by `(n)` or `(p,s)` when the row has a size. */
  function ColumnType(dataType: string, args: seq<int>): string {
    if args == [] then dataType else dataType + "(" + Join(Decimals(args), ",") + ")"
  }

  function Decimals(ns: seq<int>): (r: seq<string>)
    ensures |r| == |ns| && forall i :: 0 <= i < |ns| ==> r[i] == IntToDecimal(ns[i])
  {
    if ns == [] then [] else [IntToDecimal(ns[0])] + Decimals(ns[1..])
  }

  /** Reads a column type text back into its data type and size arguments. */
  function ParseColumnType(text: string): Option<(string, seq<int>)> {
    if '(' !in text then Some((text, []))
    else
      var (dataType, rest) := SplitFirst(text, '(');
      if rest == [] || rest[|rest| - 1] != ')' then None
      else
        match ParseInts(Split(rest[..|rest| - 1], ','))
        case None => None
        case Some(ns) => Some((dataType, ns))
  }

  function ParseInts(parts: seq<string>): Option<seq<int>> {
    if parts == [] then Some([])
    else match (ParseInt(parts[0]), ParseInts(parts[1..]))
      case (Some(n), Some(ns)) => Some([n] + ns)
      case _ => None
  }

  lemma NoPunctuationInDecimal(i: int)
    ensures ',' !in IntToDecimal(i) && '(' !in IntToDecimal(i) && ')' !in IntToDecimal(i)
  {
    var n: nat := if i < 0 then -i else i;
    var d := NatToDecimal(n);
    assert forall k :: 0 <= k < |d| ==> IsDigit(d[k]);
  }

  lemma {:induction false} ParseIntsDecimals(ns: seq<int>)
    ensures ParseInts(Decimals(ns)) == Some(ns)
  {
    if ns != [] {
      var ds := Decimals(ns);
      assert ds[1..] == Decimals(ns[1..]);
      assert ParseInt(ds[0]) == Some(ns[0]) by {
        IntRoundTrip(ns[0]);
      }
      ParseIntsDecimals(ns[1..]);
      assert [ns[0]] + ns[1..] == ns;
    }
  }

  /** The comma-joined size arguments split and parse back to the arguments. */
  lemma SizeArgsRoundTrip(args: seq<int>)
    requires args != []
    ensures ParseInts(Split(Join(Decimals(args), ","), ',')) == Some(args)
  {
    var ds := Decimals(args);
    forall k | 0 <= k < |ds| ensures ',' !in ds[k] {
      NoPunctuationInDecimal(args[k]);
    }
    SplitJoin(ds, ',');
    ParseIntsDecimals(args);
  }

  /** The column type text reads back as its data type and size arguments. */
  lemma ColumnTypeRoundTrip(dataType: string, args: seq<int>)
    requires '(' !in dataType
    ensures ParseColumnType(ColumnType(dataType, args)) == Some((dataType, args))
  {
    if args != [] {
      var inner := Join(Decimals(args), ",");
      var rest := inner + ")";
      assert ColumnType(dataType, args) == dataType + ['('] + rest;
      SplitFirstUnique(dataType, '(', rest);
      assert rest[..|rest| - 1] == inner;
      SizeArgsRoundTrip(args);
    }
  }

  /** The column read from one information_schema row, before the primary keys are marked. */
  function RowColumn(row: InfoRow): PgColumn {
    PgColumn(row.columnName, ColumnType(row.dataType, SizeArgs(row)), row.isNullable == "YES", row.columnDefault, false)
  }

  /** `col['primary_key'] = True` for a column among the primary-key columns. */
  function Marked(col: PgColumn, pkColumns: seq<string>): PgColumn {
    if col.name in pkColumns then col.(primaryKey := true) else col
  }

  /**
   * The `columns` list of `get_table_schema`: one column per row in order,
   * then every column whose name is among the primary-key columns marked.
   */
  method SchemaColumns(rows: seq<InfoRow>, pkColumns: seq<string>) returns (columns: seq<PgColumn>)
    ensures |columns| == |rows|
    ensures forall i :: 0 <= i < |rows| ==> columns[i] == Marked(RowColumn(rows[i]), pkColumns)
  {
    columns := [];
    var k := 0;
    while k < |rows|
      invariant 0 <= k <= |rows| && |columns| == k
      invariant forall i :: 0 <= i < k ==> columns[i] == RowColumn(rows[i])
    {
      columns := columns + [RowColumn(rows[k])];
      k := k + 1;
    }
    k := 0;
    while k < |columns|
      invariant 0 <= k <= |columns| && |columns| == |rows|
      invariant forall i :: 0 <= i < k ==> columns[i] == Marked(RowColumn(rows[i]), pkColumns)
      invariant forall i :: k <= i < |columns| ==> columns[i] == RowColumn(rows[i])
    {
      if columns[k].name in pkColumns {
        columns := columns[k := columns[k].(primaryKey := true)];
      }
      k := k + 1;
    }
  }

  /** The marked column of a row carries the row's settings and is a primary key exactly when listed. */
  lemma MarkedRowColumn(row: InfoRow, pkColumns: seq<string>)
    ensures var c := Marked(RowColumn(row), pkColumns);
            c.name == row.columnName
            && c.kind == ColumnType(row.dataType, SizeArgs(row))
            && (c.nullable <==> row.isNullable == "YES")
            && c.default == row.columnDefault
            && (c.primaryKey <==> row.columnName in pkColumns)
  {
  }

  // ---------------------------------------------------------------- create_table pieces

  /** A column of the `columns` argument: `nullable` and `primary_key` may be missing. */
  datatype ColumnSpec = ColumnSpec(name: string, kind: string, nullable: Option<Value>, primaryKey: Option<Value>)

  /** `not col.get('nullable', True)`: only a present, falsy `nullable` makes the column NOT NULL. */
  predicate NotNull(c: ColumnSpec) {
    c.nullable.Some? && !Truthy(c.nullable.value)
  }

  /** `col.get('primary_key')` is truthy. */
  predicate IsPrimary(c: ColumnSpec) {
    c.primaryKey.Some? && Truthy(c.primaryKey.value)
  }

  /** `f'"{name}"'`. */
  function QuoteIdent(name: string): string {
    "\"" + name + "\""
  }

  /** The names of the primary-key columns, in column order. */
  function PrimaryKeys(columns: seq<ColumnSpec>): (pks: seq<string>)
    ensures |pks| <= |columns|
    ensures forall n :: n in pks <==> exists i :: 0 <= i < |columns| && columns[i].name == n && IsPrimary(columns[i])
    ensures pks == [] <==> forall i :: 0 <= i < |columns| ==> !IsPrimary(columns[i])
  {
    if columns == [] then []
    else
      var init := columns[..|columns| - 1];
      var rest := PrimaryKeys(init);
      var c := columns[|columns| - 1];
      assert forall i :: 0 <= i < |init| ==> columns[i] == init[i];
      if IsPrimary(c) then rest + [c.name] else rest
  }

  /** `", ".join(...)` of the quoted primary-key names inside `PRIMARY KEY (...)`, each name closed by its quote. */
  function PrimaryKeyClause(pks: seq<string>): string {
    "PRIMARY KEY (" + Join(QuotedAll(pks), ", ") + ")"
  }

  function QuotedAll(names: seq<string>): (r: seq<string>)
    ensures |r| == |names| && forall i :: 0 <= i < |names| ==> r[i] == QuoteIdent(names[i])
  {
    if names == [] then [] else [QuoteIdent(names[0])] + QuotedAll(names[1..])
  }

  /** The key clause as line 249 builds it: each name gets an opening `"` and no closing one. */
  function PrimaryKeyClauseAsWritten(pks: seq<string>): string {
    "PRIMARY KEY (" + Join(OpenQuotedAll(pks), ", ") + ")"
  }

  function OpenQuotedAll(names: seq<string>): (r: seq<string>)
    ensures |r| == |names| && forall i :: 0 <= i < |names| ==> r[i] == "\"" + names[i]
  {
    if names == [] then [] else ["\"" + names[0]] + OpenQuotedAll(names[1..])
  }

  /** The number of times c occurs in s. */
  function CountChar(s: string, c: char): nat {
    if s == [] then 0 else (if s[0] == c then 1 else 0) + CountChar(s[1..], c)
  }

  lemma {:induction false} CountAppend(a: string, b: string, c: char)
    ensures CountChar(a + b, c) == CountChar(a, c) + CountChar(b, c)
  {
    if a == [] {
      assert a + b == b;
    } else {
      assert (a + b)[0] == a[0] && (a + b)[1..] == a[1..] + b;
      CountAppend(a[1..], b, c);
    }
  }

  lemma {:induction false} CountAbsent(s: string, c: char)
    requires c !in s
    ensures CountChar(s, c) == 0
  {
    if s != [] {
      CountAbsent(s[1..], c);
    }
  }

  /** The number of c over all the parts. */
  function CountAll(parts: seq<string>, c: char): nat {
    if parts == [] then 0 else CountChar(parts[0], c) + CountAll(parts[1..], c)
  }

  /** A join holds the parts' c and none more when the separator has none. */
  lemma {:induction false} CountJoin(parts: seq<string>, sep: string, c: char)
    requires c !in sep
    ensures CountChar(Join(parts, sep), c) == CountAll(parts, c)
  {
    if |parts| == 1 {
      assert CountAll(parts[1..], c) == 0;
    } else if |parts| > 1 {
      CountJoin(parts[1..], sep, c);
      CountAbsent(sep, c);
      CountAppend(parts[0] + sep, Join(parts[1..], sep), c);
      CountAppend(parts[0], sep, c);
    }
  }

  lemma {:induction false} QuotedCount(names: seq<string>)
    requires forall i :: 0 <= i < |names| ==> '"' !in names[i]
    ensures CountAll(QuotedAll(names), '"') == 2 * |names|
    ensures CountAll(OpenQuotedAll(names), '"') == |names|
  {
    if names != [] {
      QuotedCount(names[1..]);
      assert QuotedAll(names)[1..] == QuotedAll(names[1..]);
      assert OpenQuotedAll(names)[1..] == OpenQuotedAll(names[1..]);
      CountAbsent(names[0], '"');
      CountAppend("\"" + names[0], "\"", '"');
      CountAppend("\"", names[0], '"');
    }
  }

  /** The frame of the clause around the joined names holds no `"`. */
  lemma ClauseCount(inner: string)
    ensures CountChar("PRIMARY KEY (" + inner + ")", '"') == CountChar(inner, '"')
  {
    CountAppend("PRIMARY KEY (" + inner, ")", '"');
    CountAppend("PRIMARY KEY (", inner, '"');
  }

  /** Every primary-key name is closed by its quote: the clause holds an even number of `"`, two per name. */
  lemma PrimaryKeyClauseBalanced(pks: seq<string>)
    requires forall i :: 0 <= i < |pks| ==> '"' !in pks[i]
    ensures CountChar(PrimaryKeyClause(pks), '"') == 2 * |pks|
  {
    ClauseCount(Join(QuotedAll(pks), ", "));
    CountJoin(QuotedAll(pks), ", ", '"');
    QuotedCount(pks);
  }

  /** As written, every name lacks its closing quote: the clause holds one `"` per name. */
  lemma PrimaryKeyClauseAsWrittenCount(pks: seq<string>)
    requires forall i :: 0 <= i < |pks| ==> '"' !in pks[i]
    ensures CountChar(PrimaryKeyClauseAsWritten(pks), '"') == |pks|
  {
    ClauseCount(Join(OpenQuotedAll(pks), ", "));
    CountJoin(OpenQuotedAll(pks), ", ", '"');
    QuotedCount(pks);
  }

  /** As written, a table whose only primary key is `id` gets `PRIMARY KEY ("id)`, with an odd number of `"`. */
  lemma PrimaryKeyClauseAsWrittenUnbalanced()
    ensures PrimaryKeyClauseAsWritten(["id"]) == "PRIMARY KEY (\"" + "id)"
    ensures CountChar(PrimaryKeyClauseAsWritten(["id"]), '"') % 2 == 1
    ensures PrimaryKeyClause(["id"]) == "PRIMARY KEY (\"" + "id\")"
  {
    var ids: seq<string> := ["id"];
    assert ids[1..] == [];
    assert OpenQuotedAll(ids) == ["\"" + "id"];
    assert QuotedAll(ids) == [QuoteIdent("id")];
    PrimaryKeyClauseAsWrittenCount(ids);
  }

  // ---------------------------------------------------------------- insert_data pieces

  /** `tuple(row.get(col) for col in columns)`: a missing key inserts None. */
  function RowValues(row: Record, columns: seq<string>): (vs: seq<Value>)
    ensures |vs| == |columns|
    ensures forall j :: 0 <= j < |columns| ==> vs[j] == if HasKey(row, columns[j]) then Get(row, columns[j]).value else Null
  {
    if columns == [] then []
    else RowValues(row, columns[..|columns| - 1]) + [Get(row, columns[|columns| - 1]).GetOr(Null)]
  }

  /** The first row, whose keys name the columns, inserts its own values in order. */
  lemma FirstRowValues(row: Record)
    requires UniqueKeys(row)
    ensures forall j :: 0 <= j < |row| ==> RowValues(row, Keys(row))[j] == row[j].1
  {
    forall j | 0 <= j < |row| ensures RowValues(row, Keys(row))[j] == row[j].1 {
      GetAt(row, j, row[j].0);
    }
  }

  function Placeholders(n: nat): (r: seq<string>)
    ensures |r| == n && forall i :: 0 <= i < n ==> r[i] == "%s"
  {
    if n == 0 then [] else Placeholders(n - 1) + ["%s"]
  }

  lemma {:induction false} CountAllSnoc(parts: seq<string>, last: string, c: char)
    ensures CountAll(parts + [last], c) == CountAll(parts, c) + CountChar(last, c)
  {
    if parts != [] {
      assert (parts + [last])[1..] == parts[1..] + [last];
      CountAllSnoc(parts[1..], last, c);
    }
  }

  lemma {:induction false} PlaceholderCount(n: nat)
    ensures CountAll(Placeholders(n), '%') == n
  {
    if n > 0 {
      PlaceholderCount(n - 1);
      CountAllSnoc(Placeholders(n - 1), "%s", '%');
    }
  }

  /** The placeholder list holds one `%s` per column. */
  lemma PlaceholdersPerColumn(columns: seq<string>)
    ensures CountChar(Join(Placeholders(|columns|), ", "), '%') == |columns|
  {
    CountJoin(Placeholders(|columns|), ", ", '%');
    PlaceholderCount(|columns|);
  }

  /** The first error the cursor reports while executing the rows in order, if any. */
  function FirstError(sql: string, data: seq<Record>, columns: seq<string>,
                      execute: (string, seq<Value>) -> Option<string>): Option<string> {
    if data == [] then None
    else match execute(sql, RowValues(data[0], columns))
      case Some(e) => Some(e)
      case None => FirstError(sql, data[1..], columns, execute)
  }

  // ---------------------------------------------------------------- the connector

  /** `PostgreSQLConnector`: the schema it works in and the type table of `_map_type`. */
  class Connector {
    const schema: string
    const typeMapping: seq<(string, string)>

    constructor(schema: string)
      ensures this.schema == schema && typeMapping == TypeMapping
    {
      this.schema := schema;
      typeMapping := TypeMapping;
    }

    /** The connector holds the table of `_map_type`. */
    predicate Standard() {
      typeMapping == TypeMapping
    }

    /** `_map_type`: the mapped type of the lower-cased field type, `VARCHAR(255)` for anything else. */
    function MapType(fieldType: string): string {
      Lookup(typeMapping, Lower(fieldType)).GetOr(DefaultType)
    }

    /** A type the table lacks, in any letter case, becomes `VARCHAR(255)`; a listed one gets its first entry's type. */
    lemma MapTypeLookup(fieldType: string, i: nat)
      ensures (forall j :: 0 <= j < |typeMapping| ==> typeMapping[j].0 != Lower(fieldType)) ==> MapType(fieldType) == DefaultType
      ensures i < |typeMapping| && typeMapping[i].0 == Lower(fieldType)
              && (forall j :: 0 <= j < i ==> typeMapping[j].0 != Lower(fieldType)) ==>
                MapType(fieldType) == typeMapping[i].1
    {
    }

    /** The mapping does not depend on letter case. */
    lemma MapTypeIgnoresCase(fieldType: string)
      ensures MapType(fieldType) == MapType(Lower(fieldType))
    {
      LowerIdempotent(fieldType);
    }

    /** With the standard table, whose keys are distinct, a listed type in any letter case gets its own entry's type. */
    lemma MapTypeListed(fieldType: string, i: nat)
      requires Standard() && i < |typeMapping| && Lower(fieldType) == typeMapping[i].0
      ensures MapType(fieldType) == typeMapping[i].1
    {
      StandardKeysDistinct();
      MapTypeLookup(fieldType, i);
    }

    /** One column definition: the quoted name, the mapped type, and `NOT NULL` when asked for. */
    function ColumnDef(c: ColumnSpec): string {
      QuoteIdent(c.name) + " " + MapType(c.kind) + if NotNull(c) then NotNullSuffix else ""
    }

    /** No type of the table can be taken for a ` NOT NULL` ending. */
    predicate PlainTypes() {
      forall i :: 0 <= i < |typeMapping| ==> Plain(typeMapping[i].1)
    }

    lemma StandardPlain()
      requires Standard()
      ensures PlainTypes()
    {
      TypeMappingPlain();
    }

    /** A column definition ends with `NOT NULL` exactly when `nullable` is present and falsy. */
    lemma ColumnDefNotNull(c: ColumnSpec)
      requires Standard()
      ensures EndsWith(ColumnDef(c), NotNullSuffix) <==> NotNull(c)
    {
      StandardPlain();
      TypeMappingPlain();
      PlainColumnDef(c);
    }

    lemma PlainColumnDef(c: ColumnSpec)
      requires PlainTypes() && Plain(DefaultType)
      ensures EndsWith(ColumnDef(c), NotNullSuffix) <==> NotNull(c)
    {
      var m := MapType(c.kind);
      var head := QuoteIdent(c.name) + " " + m;
      LookupFound(typeMapping, Lower(c.kind));
      PlainTail(QuoteIdent(c.name) + " ", m);
      if !NotNull(c) {
        assert ColumnDef(c) == head;
      }
    }

    function ColumnDefs(columns: seq<ColumnSpec>): (r: seq<string>)
      ensures |r| == |columns| && forall i :: 0 <= i < |columns| ==> r[i] == ColumnDef(columns[i])
    {
      if columns == [] then [] else ColumnDefs(columns[..|columns| - 1]) + [ColumnDef(columns[|columns| - 1])]
    }

    /** The column definitions, then the primary-key clause when some column is a primary key. */
    function Definitions(columns: seq<ColumnSpec>): seq<string> {
      ColumnDefs(columns) + if PrimaryKeys(columns) != [] then [PrimaryKeyClause(PrimaryKeys(columns))] else []
    }

    /** The definitions are one per column in order, plus the key clause iff some column is a primary key. */
    lemma DefinitionsShape(columns: seq<ColumnSpec>)
      ensures var defs := Definitions(columns);
              |defs| == |columns| + (if exists i :: 0 <= i < |columns| && IsPrimary(columns[i]) then 1 else 0)
              && (forall i :: 0 <= i < |columns| ==> defs[i] == ColumnDef(columns[i]))
    {
      var pks := PrimaryKeys(columns);
      if exists i :: 0 <= i < |columns| && IsPrimary(columns[i]) {
        var i :| 0 <= i < |columns| && IsPrimary(columns[i]);
        assert columns[i].name in pks;
      }
    }

    /** The statement `create_table` executes. */
    function CreateTableDdl(tableName: string, columns: seq<ColumnSpec>): string {
      "CREATE TABLE IF NOT EXISTS " + QuoteIdent(schema) + "." + QuoteIdent(tableName)
      + " (" + Join(Definitions(columns), ", ") + ")"
    }

    /** The statement text `create_table` assembles: a loop over the columns, then the key clause. */
    method CreateTableSql(tableName: string, columns: seq<ColumnSpec>) returns (sql: string)
      ensures sql == CreateTableDdl(tableName, columns)
    {
      var colDefs: seq<string> := [];
      var primaryKeys: seq<string> := [];
      var k := 0;
      while k < |columns|
        invariant 0 <= k <= |columns|
        invariant colDefs == ColumnDefs(columns[..k]) && primaryKeys == PrimaryKeys(columns[..k])
      {
        var col := columns[k];
        var colDef := QuoteIdent(col.name) + " " + MapType(col.kind);
        if NotNull(col) {
          colDef := colDef + NotNullSuffix;
        }
        if IsPrimary(col) {
          primaryKeys := primaryKeys + [col.name];
        }
        assert colDef == ColumnDef(col);
        colDefs := colDefs + [colDef];
        assert columns[..k + 1][..k] == columns[..k] && columns[..k + 1][k] == col;
        k := k + 1;
      }
      assert columns[..k] == columns;
      if primaryKeys != [] {
        colDefs := colDefs + [PrimaryKeyClause(primaryKeys)];
      }
      assert colDefs == Definitions(columns);
      sql := "CREATE TABLE IF NOT EXISTS " + QuoteIdent(schema) + "." + QuoteIdent(tableName) + " (" + Join(colDefs, ", ") + ")";
    }

    /** `create_table`: the statement is executed; an error is reported as `(False, str(e))`. */
    method CreateTable(tableName: string, columns: seq<ColumnSpec>, execute: string -> Option<string>)
      returns (ok: bool, error: Option<string>)
      ensures ok <==> execute(CreateTableDdl(tableName, columns)).None?
      ensures error == execute(CreateTableDdl(tableName, columns))
    {
      var sql := CreateTableSql(tableName, columns);
      error := execute(sql);
      ok := error.None?;
    }

    /** The parameterised INSERT statement for these columns. */
    function InsertSql(tableName: string, columns: seq<string>): string {
      "INSERT INTO " + QuoteIdent(schema) + "." + QuoteIdent(tableName)
      + " (" + Join(QuotedAll(columns), ", ") + ") VALUES (" + Join(Placeholders(|columns|), ", ") + ")"
    }

    /**
     * `insert_data`: no rows succeed with 0 without touching the database;
     * otherwise the columns are the first row's keys and every row is executed
     * in turn; the first error rolls back and reports `(False, 0, str(e))`.
     */
    method InsertData(tableName: string, data: seq<Record>, execute: (string, seq<Value>) -> Option<string>)
      returns (ok: bool, inserted: nat, error: Option<string>)
      ensures data == [] ==> (ok, inserted, error) == (true, 0, None)
      ensures data != [] ==>
                var columns := Keys(data[0]);
                match FirstError(InsertSql(tableName, columns), data, columns, execute)
                case None => (ok, inserted, error) == (true, |data|, None)
                case Some(e) => (ok, inserted, error) == (false, 0, Some(e))
    {
      if data == [] {
        return true, 0, None;
      }
      var columns := Keys(data[0]);
      var sql := InsertSql(tableName, columns);
      inserted := 0;
      while inserted < |data|
        invariant 0 <= inserted <= |data|
        invariant FirstError(sql, data, columns, execute) == FirstError(sql, data[inserted..], columns, execute)
      {
        var values := RowValues(data[inserted], columns);
        var failure := execute(sql, values);
        if failure.Some? {
          return false, 0, failure;
        }
        assert data[inserted..][1..] == data[inserted + 1..];
        inserted := inserted + 1;
      }
      return true, inserted, None;
    }
  }
}
