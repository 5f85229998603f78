/**
 * The bulk import service (backend/services/import_service.py): parsing JSON,
 * JSON Lines and tokenised CSV into items, checking template, field and
 * datasource configurations item by item, and the staged `process_import`.
 * json.loads, csv.reader and `datasource_service.create_datasource` are
 * parameters; an `item.get` on a non-dict item raises, and that AttributeError
 * is an Err that escapes the service.
 */
module Import {
  import opened Wrappers
  import opened Values
  import opened Text

  /** json.loads: the value, or the text of the JSONDecodeError. */
  type JsonParser = string -> Result<Value>

  const NotArrayOrObject := "数据格式错误，需要数组或对象"

  /** `parse_json`: an object becomes a one-item list, a list is kept, anything else is refused. */
  function ParseJson(content: string, loads: JsonParser): (r: Result<seq<Value>>)
    ensures loads(content).Err? ==> r == Err("JSON 解析错误: " + loads(content).error)
    ensures loads(content).Ok? && loads(content).value.Dict? ==> r == Ok([loads(content).value])
    ensures loads(content).Ok? && loads(content).value.List? ==> r == Ok(loads(content).value.items)
    ensures r.Ok? <==> loads(content).Ok? && (loads(content).value.Dict? || loads(content).value.List?)
  {
    match loads(content)
    case Err(e) => Err("JSON 解析错误: " + e)
    case Ok(v) =>
      if v.Dict? then Ok([v])
      else if v.List? then Ok(v.items)
      else Err(NotArrayOrObject)
  }

  function LineError(lineNum: nat, e: string): string {
    "第 " + NatToDecimal(lineNum) + " 行 JSON 解析错误: " + e
  }

  predicate Blank(line: string) {
    Strip(line) == ""
  }

  /** The items of the first `|lines|` lines of a JSON Lines text, or the error of its first bad line. */
  function JsonLines(lines: seq<string>, loads: JsonParser): Result<seq<Value>> {
    if lines == [] then Ok([])
    else
      match JsonLines(lines[..|lines| - 1], loads)
      case Err(e) => Err(e)
      case Ok(items) =>
        var line := Strip(lines[|lines| - 1]);
        if line == "" then Ok(items)
        else match loads(line)
          case Err(e) => Err(LineError(|lines|, e))
          case Ok(v) => Ok(items + [v])
  }

  /** The lines `parse_jsonl` reads. */
  function JsonlLines(content: string): seq<string> {
    Split(Strip(content), '\n')
  }

  /** `parse_jsonl`: the stripped text is split into lines, which are then decoded one by one. */
  method ParseJsonl(content: string, loads: JsonParser) returns (r: Result<seq<Value>>)
    ensures r == JsonLines(JsonlLines(content), loads)
  {
    r := DecodeLines(JsonlLines(content), loads);
  }

  /** The line loop of `parse_jsonl`: blank lines are skipped, the first undecodable line stops the parse. */
  method DecodeLines(lines: seq<string>, loads: JsonParser) returns (r: Result<seq<Value>>)
    ensures r == JsonLines(lines, loads)
  {
    var data: seq<Value> := [];
    var k := 0;
    while k < |lines|
      invariant 0 <= k <= |lines|
      invariant JsonLines(lines[..k], loads) == Ok(data)
    {
      JsonLinesNext(lines, loads, k, data);
      var line := Strip(lines[k]);
      if line != "" {
        match loads(line)
        case Err(e) =>
          JsonLinesErrStays(lines, loads, k + 1);
          return Err(LineError(k + 1, e));
        case Ok(v) =>
          data := data + [v];
      }
      k := k + 1;
    }
    WholeSlice(lines);
    r := Ok(data);
  }

  /** One more line: skipped when blank, otherwise its decoded item is appended or its error reported with its line number. */
  lemma JsonLinesNext(lines: seq<string>, loads: JsonParser, k: nat, items: seq<Value>)
    requires k < |lines| && JsonLines(lines[..k], loads) == Ok(items)
    ensures var line := Strip(lines[k]);
            JsonLines(lines[..k + 1], loads)
            == if line == "" then Ok(items)
               else match loads(line)
                 case Err(e) => Err(LineError(k + 1, e))
                 case Ok(v) => Ok(items + [v])
  {
    assert lines[..k + 1][..k] == lines[..k];
  }

  /** Once a prefix of the lines fails, the whole text fails the same way. */
  lemma {:induction false} JsonLinesErrStays(lines: seq<string>, loads: JsonParser, k: nat)
    requires k <= |lines| && JsonLines(lines[..k], loads).Err?
    ensures JsonLines(lines, loads) == JsonLines(lines[..k], loads)
  {
    if k < |lines| {
      assert lines[..|lines| - 1][..k] == lines[..k];
      JsonLinesErrStays(lines[..|lines| - 1], loads, k);
    } else {
      assert lines[..k] == lines;
    }
  }

  /** The number of lines that are not blank. */
  function NonBlank(lines: seq<string>): nat {
    if lines == [] then 0
    else NonBlank(lines[..|lines| - 1]) + (if Blank(lines[|lines| - 1]) then 0 else 1)
  }

  /** When every line that is not blank decodes, there is one item per such line. */
  lemma {:induction false} JsonLinesAllGood(lines: seq<string>, loads: JsonParser)
    requires forall k :: 0 <= k < |lines| && !Blank(lines[k]) ==> loads(Strip(lines[k])).Ok?
    ensures JsonLines(lines, loads).Ok? && |JsonLines(lines, loads).value| == NonBlank(lines)
  {
    if lines != [] {
      JsonLinesAllGood(lines[..|lines| - 1], loads);
    }
  }

  /** A bad line is reported by its 1-based number when every earlier line is blank or decodes. */
  lemma {:induction false} JsonLinesFirstBad(lines: seq<string>, loads: JsonParser, k: nat)
    requires k < |lines| && !Blank(lines[k]) && loads(Strip(lines[k])).Err?
    requires forall m :: 0 <= m < k && !Blank(lines[m]) ==> loads(Strip(lines[m])).Ok?
    ensures JsonLines(lines, loads) == Err(LineError(k + 1, loads(Strip(lines[k])).error))
  {
    if k == |lines| - 1 {
      JsonLinesAllGood(lines[..k], loads);
    } else {
      JsonLinesFirstBad(lines[..|lines| - 1], loads, k);
    }
  }

  /** The record of one CSV row under the header: header i gets cell i, or '' past the row's end. */
  function HeaderRecord(headers: seq<string>, row: seq<string>): Record {
    Assign(seq(|headers|, i requires 0 <= i < |headers| => (headers[i], Str(if i < |row| then row[i] else ""))))
  }

  function ColumnKey(i: nat): string {
    "col_" + NatToDecimal(i)
  }

  /** The record of one CSV row without a header: `col_i` for cell i. */
  function IndexRecord(row: seq<string>): Record {
    Assign(seq(|row|, i requires 0 <= i < |row| => (ColumnKey(i), Str(row[i]))))
  }

  /** The data rows under a header: a row of the header's length or any other non-empty row gives a record. */
  function HeaderRecords(headers: seq<string>, rows: seq<seq<string>>): seq<Record> {
    if rows == [] then []
    else
      var row := rows[|rows| - 1];
      HeaderRecords(headers, rows[..|rows| - 1])
      + (if |row| == |headers| || |row| > 0 then [HeaderRecord(headers, row)] else [])
  }

  const CsvEmpty := "CSV 文件为空"

  /** What `parse_csv` returns for the rows csv.reader produced. */
  function CsvData(rows: seq<seq<string>>, hasHeader: bool): Result<seq<Record>> {
    if rows == [] then Err(CsvEmpty)
    else if hasHeader then Ok(HeaderRecords(rows[0], rows[1..]))
    else Ok(seq(|rows|, i requires 0 <= i < |rows| => IndexRecord(rows[i])))
  }

  /** `parse_csv` after tokenisation. */
  method ParseCsv(rows: seq<seq<string>>, hasHeader: bool) returns (r: Result<seq<Record>>)
    ensures r == CsvData(rows, hasHeader)
  {
    if rows == [] {
      return Err(CsvEmpty);
    }
    var data: seq<Record>;
    if hasHeader {
      data := HeaderRows(rows[0], rows[1..]);
    } else {
      data := IndexRows(rows);
    }
    r := Ok(data);
  }

  /** The header branch of `parse_csv`: a record for each kept row. */
  method HeaderRows(headers: seq<string>, body: seq<seq<string>>) returns (data: seq<Record>)
    ensures data == HeaderRecords(headers, body)
  {
    data := [];
    var k := 0;
    while k < |body|
      invariant 0 <= k <= |body|
      invariant data == HeaderRecords(headers, body[..k])
    {
      assert body[..k + 1][..k] == body[..k];
      var row := body[k];
      if |row| == |headers| {
        data := data + [HeaderRecord(headers, row)];
      } else if |row| > 0 {
        data := data + [HeaderRecord(headers, row)];
      }
      k := k + 1;
    }
    assert body[..|body|] == body;
  }

  /** The branch without a header: a record for every row. */
  method IndexRows(rows: seq<seq<string>>) returns (data: seq<Record>)
    ensures data == seq(|rows|, i requires 0 <= i < |rows| => IndexRecord(rows[i]))
  {
    data := [];
    var k := 0;
    while k < |rows|
      invariant 0 <= k <= |rows|
      invariant data == seq(k, m requires 0 <= m < k => IndexRecord(rows[m]))
    {
      data := data + [IndexRecord(rows[k])];
      k := k + 1;
    }
  }

  /** The data rows that give a record: those of the header's length and the non-empty ones. */
  function Kept(headers: seq<string>, rows: seq<seq<string>>): nat {
    if rows == [] then 0
    else
      var row := rows[|rows| - 1];
      Kept(headers, rows[..|rows| - 1]) + (if |row| == |headers| || |row| > 0 then 1 else 0)
  }

  /** Under a header, every kept row gives exactly one record, and empty rows give none (unless the header is empty too). */
  lemma {:induction false} HeaderRecordsCount(headers: seq<string>, rows: seq<seq<string>>)
    ensures |HeaderRecords(headers, rows)| == Kept(headers, rows)
    ensures headers != [] && (forall k :: 0 <= k < |rows| ==> rows[k] != []) ==> Kept(headers, rows) == |rows|
  {
    if rows != [] {
      HeaderRecordsCount(headers, rows[..|rows| - 1]);
    }
  }

  /** A padded or truncated row: with distinct headers, its keys are the headers and header i holds cell i or ''. */
  lemma HeaderRecordShape(headers: seq<string>, row: seq<string>, i: nat)
    requires forall a, b :: 0 <= a < b < |headers| ==> headers[a] != headers[b]
    requires i < |headers|
    ensures Keys(HeaderRecord(headers, row)) == headers
    ensures Get(HeaderRecord(headers, row), headers[i]) == Some(Str(if i < |row| then row[i] else ""))
  {
    var ps := seq(|headers|, j requires 0 <= j < |headers| => (headers[j], Str(if j < |row| then row[j] else "")));
    AssignDistinct(ps);
    assert Names(ps) == headers;
    AssignGet(ps, headers[i]);
    LastValueAt(ps, i);
  }

  /** With distinct names, the last pair named after pair i's name is pair i. */
  lemma {:induction false} LastValueAt(ps: seq<(string, Value)>, i: nat)
    requires i < |ps| && forall a, b :: 0 <= a < b < |ps| ==> ps[a].0 != ps[b].0
    ensures LastValue(ps, ps[i].0) == Some(ps[i].1)
  {
    if i < |ps| - 1 {
      LastValueAt(ps[..|ps| - 1], i);
    }
  }

  /** Distinct numbers give distinct column keys. */
  lemma ColumnKeysDistinct(i: nat, j: nat)
    requires i != j
    ensures ColumnKey(i) != ColumnKey(j)
  {
    DecimalRoundTrip(i);
    DecimalRoundTrip(j);
    assert ColumnKey(i)[4..] == NatToDecimal(i);
    assert ColumnKey(j)[4..] == NatToDecimal(j);
  }

  /** Without a header, a row's record has the keys col_0 … col_{n-1} in order, col_i holding cell i. */
  lemma IndexRecordShape(row: seq<string>, i: nat)
    requires i < |row|
    ensures Keys(IndexRecord(row)) == seq(|row|, j requires 0 <= j < |row| => ColumnKey(j))
    ensures Get(IndexRecord(row), ColumnKey(i)) == Some(Str(row[i]))
  {
    var ps := seq(|row|, j requires 0 <= j < |row| => (ColumnKey(j), Str(row[j])));
    forall a, b | 0 <= a < b < |ps| ensures ps[a].0 != ps[b].0 {
      ColumnKeysDistinct(a, b);
    }
    AssignDistinct(ps);
    assert Names(ps) == seq(|row|, j requires 0 <= j < |row| => ColumnKey(j));
    AssignGet(ps, ColumnKey(i));
    LastValueAt(ps, i);
  }

  /** csv.reader with the delimiter option: the rows, or the text of the csv.Error. */
  type CsvReader = (string, Value) -> Result<seq<seq<string>>>

  /** `parse_content`: the parser the format names; `has_header` is read by truthiness. */
  function ParseContent(content: string, format: string, options: Record, loads: JsonParser, read: CsvReader)
    : (r: Result<seq<Value>>)
    ensures format != "json" && format != "jsonl" && format != "csv" ==> r == Err("不支持的格式: " + format)
    ensures format == "json" ==> r == ParseJson(content, loads)
  {
    if format == "json" then ParseJson(content, loads)
    else if format == "jsonl" then JsonLines(JsonlLines(content), loads)
    else if format == "csv" then
      match read(content, GetOr(options, "delimiter", Str(",")))
      case Err(e) => Err("CSV 解析错误: " + e)
      case Ok(rows) =>
        match CsvData(rows, Truthy(GetOr(options, "has_header", Bool(true))))
        case Err(e) => Err(e)
        case Ok(records) => Ok(seq(|records|, i requires 0 <= i < |records| => Dict(records[i])))
    else Err("不支持的格式: " + format)
  }

  /** The configuration kinds with an item check. */
  datatype ConfigKind = TemplateConfig | FieldsConfig | DatasourceConfig

  function Missing(d: Record, key: string): bool {
    !Truthy(GetOr(d, key, Null))
  }

  /** The messages for field number `number` of a template: its name, then its type, when missing. */
  function FieldMessages(f: Record, number: nat): (r: seq<string>)
    ensures r == [] <==> !Missing(f, "name") && !Missing(f, "type")
  {
    (if Missing(f, "name") then ["字段 " + NatToDecimal(number) + " 缺少名称"] else [])
    + (if Missing(f, "type") then ["字段 " + NatToDecimal(number) + " 缺少类型"] else [])
  }

  /** The messages for the fields of a template, numbered from `from + 1`. */
  function FieldEntryErrors(fields: seq<Value>, from: nat): Result<seq<string>>
    decreases |fields|
  {
    if fields == [] then Ok([])
    else if !fields[0].Dict? then Err(NoGet(fields[0]))
    else
      var here := FieldMessages(fields[0].entries, from + 1);
      match FieldEntryErrors(fields[1..], from + 1)
      case Err(e) => Err(e)
      case Ok(rest) => Ok(here + rest)
  }

  const DatasourceRequired: seq<string> := ["name", "type", "host", "port"]

  const DatasourceTypes: seq<string> := ["mysql", "postgresql", "mongodb"]

  predicate KnownDatasourceType(v: Value) {
    v.Str? && v.s in DatasourceTypes
  }

  /** The messages of one item, or the AttributeError of a non-dict item or field. */
  function ItemErrors(kind: ConfigKind, item: Value): Result<seq<string>> {
    if !item.Dict? then Err(NoGet(item))
    else
      var d := item.entries;
      match kind
      case TemplateConfig =>
        var nameErr := if Missing(d, "name") then ["缺少模板名称"] else [];
        var fs := GetOr(d, "fields", Null);
        if !Truthy(fs) || !fs.List? then Ok(nameErr + ["缺少字段配置或格式错误"])
        else
          (match FieldEntryErrors(fs.items, 0)
           case Err(e) => Err(e)
           case Ok(fe) => Ok(nameErr + fe))
      case FieldsConfig =>
        Ok((if Missing(d, "name") then ["缺少字段名称"] else []) + (if Missing(d, "type") then ["缺少字段类型"] else []))
      case DatasourceConfig =>
        var required := RequiredErrors(d, DatasourceRequired);
        var t := GetOr(d, "type", Null);
        Ok(required + (if Truthy(t) && !KnownDatasourceType(t) then ["不支持的数据源类型: " + PyStr(t)] else []))
  }

  /** One message per required key whose value is missing or falsy, in the listed order. */
  function RequiredErrors(d: Record, keys: seq<string>): (msgs: seq<string>)
    ensures msgs == [] <==> forall k :: 0 <= k < |keys| ==> !Missing(d, keys[k])
  {
    if keys == [] then []
    else (if Missing(d, keys[0]) then ["缺少必填字段: " + keys[0]] else []) + RequiredErrors(d, keys[1..])
  }

  /** A template field no check complains about: a dict with a truthy name and type. */
  predicate CleanField(f: Value) {
    f.Dict? && !Missing(f.entries, "name") && !Missing(f.entries, "type")
  }

  /** The fields of a template raise iff one of them is not a dict. */
  lemma {:induction false} FieldEntryErrorsRaise(fields: seq<Value>, from: nat)
    ensures FieldEntryErrors(fields, from).Err? <==> exists i :: 0 <= i < |fields| && !fields[i].Dict?
  {
    if fields != [] && fields[0].Dict? {
      var tail := fields[1..];
      FieldEntryErrorsRaise(tail, from + 1);
      assert FieldEntryErrors(fields, from).Err? <==> FieldEntryErrors(tail, from + 1).Err?;
      if exists i :: 0 <= i < |fields| && !fields[i].Dict? {
        var i :| 0 <= i < |fields| && !fields[i].Dict?;
        assert tail[i - 1] == fields[i];
      }
      if exists i :: 0 <= i < |tail| && !tail[i].Dict? {
        var i :| 0 <= i < |tail| && !tail[i].Dict?;
        assert fields[i + 1] == tail[i];
      }
    }
  }

  /** The fields of a template give no message and no error iff every one of them is clean. */
  lemma {:induction false} FieldEntryErrorsClean(fields: seq<Value>, from: nat)
    ensures FieldEntryErrors(fields, from) == Ok([]) <==> forall i :: 0 <= i < |fields| ==> CleanField(fields[i])
  {
    if fields != [] && fields[0].Dict? {
      var tail := fields[1..];
      FieldEntryErrorsClean(tail, from + 1);
      var here := FieldMessages(fields[0].entries, from + 1);
      assert FieldEntryErrors(fields, from) == Ok([]) <==> here == [] && FieldEntryErrors(tail, from + 1) == Ok([]);
      if forall i :: 0 <= i < |fields| ==> CleanField(fields[i]) {
        forall i | 0 <= i < |tail| ensures CleanField(tail[i]) {
          assert tail[i] == fields[i + 1];
        }
      }
      if here == [] && forall i :: 0 <= i < |tail| ==> CleanField(tail[i]) {
        forall i | 0 <= i < |fields| ensures CleanField(fields[i]) {
          if i > 0 {
            assert fields[i] == tail[i - 1];
          }
        }
      }
    }
  }

  /** A template item is clean iff it is a dict with a truthy name and a non-empty list of clean fields. */
  lemma TemplateItemExactly(item: Value)
    ensures ItemErrors(TemplateConfig, item) == Ok([]) <==>
              item.Dict? && !Missing(item.entries, "name")
              && var fs := GetOr(item.entries, "fields", Null);
                 fs.List? && fs.items != [] && forall i :: 0 <= i < |fs.items| ==> CleanField(fs.items[i])
    ensures ItemErrors(TemplateConfig, item).Err? <==>
              !item.Dict?
              || var fs := GetOr(item.entries, "fields", Null);
                 fs.List? && exists i :: 0 <= i < |fs.items| && !fs.items[i].Dict?
  {
    if item.Dict? {
      var d := item.entries;
      var nameErr := if Missing(d, "name") then ["缺少模板名称"] else [];
      var fs := GetOr(d, "fields", Null);
      if !Truthy(fs) || !fs.List? {
        assert ItemErrors(TemplateConfig, item) == Ok(nameErr + ["缺少字段配置或格式错误"]);
      } else {
        FieldEntryErrorsRaise(fs.items, 0);
        FieldEntryErrorsClean(fs.items, 0);
        match FieldEntryErrors(fs.items, 0)
        case Err(e) =>
          assert ItemErrors(TemplateConfig, item) == Err(e);
        case Ok(fe) =>
          assert ItemErrors(TemplateConfig, item) == Ok(nameErr + fe);
          assert nameErr + fe == [] <==> nameErr == [] && fe == [];
      }
    }
  }

  /** A fields item is clean iff it is a dict with a truthy name and type; only a non-dict item raises. */
  lemma FieldsItemExactly(item: Value)
    ensures ItemErrors(FieldsConfig, item) == Ok([]) <==> CleanField(item)
    ensures ItemErrors(FieldsConfig, item).Err? <==> !item.Dict?
  {
  }

  /** The required-key check of a data source passes iff name, type, host and port are all truthy. */
  lemma DatasourceRequiredErrors(d: Record)
    ensures RequiredErrors(d, DatasourceRequired) == [] <==>
              !Missing(d, "name") && !Missing(d, "type") && !Missing(d, "host") && !Missing(d, "port")
  {
    var r := DatasourceRequired;
    assert r[0] == "name" && r[1] == "type" && r[2] == "host" && r[3] == "port";
    if !Missing(d, "name") && !Missing(d, "type") && !Missing(d, "host") && !Missing(d, "port") {
      forall k | 0 <= k < |r| ensures !Missing(d, r[k]) {
        assert k == 0 || k == 1 || k == 2 || k == 3;
      }
    }
  }

  /** A data-source item is clean iff it is a dict with truthy name, type, host and port and a known type; only a non-dict item raises. */
  lemma DatasourceItemExactly(item: Value)
    ensures ItemErrors(DatasourceConfig, item) == Ok([]) <==>
              item.Dict?
              && !Missing(item.entries, "name") && !Missing(item.entries, "type")
              && !Missing(item.entries, "host") && !Missing(item.entries, "port")
              && GetOr(item.entries, "type", Null).Str?
              && GetOr(item.entries, "type", Null).s in {"mysql", "postgresql", "mongodb"}
    ensures ItemErrors(DatasourceConfig, item).Err? <==> !item.Dict?
  {
    if item.Dict? {
      var d := item.entries;
      var required := RequiredErrors(d, DatasourceRequired);
      var t := GetOr(d, "type", Null);
      var extra := if Truthy(t) && !KnownDatasourceType(t) then ["不支持的数据源类型: " + PyStr(t)] else [];
      assert ItemErrors(DatasourceConfig, item) == Ok(required + extra);
      assert required + extra == [] <==> required == [] && extra == [];
      DatasourceRequiredErrors(d);
      assert KnownDatasourceType(t) <==> t.Str? && t.s in {"mysql", "postgresql", "mongodb"};
    }
  }

  /** An entry of the error list: a rejected item with its index, or an unknown import type. */
  datatype ItemError = Rejected(index: nat, data: Value, errors: seq<string>) | UnknownType(error: string)

  datatype Partition = Partition(valid: seq<Value>, errors: seq<ItemError>)

  /** The check of one item: its messages, or the exception it raises. */
  type ItemCheck = Value -> Result<seq<string>>

  function Check(kind: ConfigKind): ItemCheck {
    item => ItemErrors(kind, item)
  }

  /** What a `validate_*_config` returns for the items: the clean ones and the rejected ones, each in order. */
  function Partitioned(check: ItemCheck, data: seq<Value>): Result<Partition> {
    if data == [] then Ok(Partition([], []))
    else
      var n := |data| - 1;
      match Partitioned(check, data[..n])
      case Err(e) => Err(e)
      case Ok(p) =>
        match check(data[n])
        case Err(e) => Err(e)
        case Ok(errs) =>
          if errs == [] then Ok(Partition(p.valid + [data[n]], p.errors))
          else Ok(Partition(p.valid, p.errors + [Rejected(n, data[n], errs)]))
  }

  /** `validate_template_config`, `validate_fields_config` and `validate_datasource_config`. */
  method ValidateConfig(kind: ConfigKind, data: seq<Value>) returns (r: Result<Partition>)
    ensures r == Partitioned(Check(kind), data)
  {
    var check := Check(kind);
    var valid: seq<Value> := [];
    var errors: seq<ItemError> := [];
    var i := 0;
    while i < |data|
      invariant 0 <= i <= |data|
      invariant Partitioned(check, data[..i]) == Ok(Partition(valid, errors))
    {
      assert data[..i + 1][..i] == data[..i];
      var itemErrors := check(data[i]);
      if itemErrors.Err? {
        PartitionedErrStays(check, data, i + 1);
        return Err(itemErrors.error);
      }
      if itemErrors.value != [] {
        errors := errors + [Rejected(i, data[i], itemErrors.value)];
      } else {
        valid := valid + [data[i]];
      }
      i := i + 1;
    }
    assert data[..|data|] == data;
    r := Ok(Partition(valid, errors));
  }

  /** Once a prefix of the items raises, the whole list raises the same way. */
  lemma {:induction false} PartitionedErrStays(check: ItemCheck, data: seq<Value>, i: nat)
    requires i <= |data| && Partitioned(check, data[..i]).Err?
    ensures Partitioned(check, data) == Partitioned(check, data[..i])
  {
    if i < |data| {
      assert data[..|data| - 1][..i] == data[..i];
      PartitionedErrStays(check, data[..|data| - 1], i);
    } else {
      assert data[..i] == data;
    }
  }

  /** The clean items, in order. */
  function CleanItems(check: ItemCheck, data: seq<Value>): seq<Value> {
    if data == [] then []
    else CleanItems(check, data[..|data| - 1]) + (if check(data[|data| - 1]) == Ok([]) then [data[|data| - 1]] else [])
  }

  predicate RejectedAt(errors: seq<ItemError>, i: nat) {
    exists k :: 0 <= k < |errors| && errors[k].Rejected? && errors[k].index == i
  }

  /**
   * The valid list is the clean items in order, the two lists together are as
   * long as the input, and every error entry carries an item's index, the item
   * and its non-empty messages.
   */
  lemma {:induction false} PartitionEntries(check: ItemCheck, data: seq<Value>)
    requires Partitioned(check, data).Ok?
    ensures var p := Partitioned(check, data).value;
      && p.valid == CleanItems(check, data)
      && |p.valid| + |p.errors| == |data|
      && (forall k :: 0 <= k < |p.errors| ==>
            p.errors[k].Rejected? && p.errors[k].index < |data| && p.errors[k].data == data[p.errors[k].index]
            && check(data[p.errors[k].index]) == Ok(p.errors[k].errors) && p.errors[k].errors != [])
  {
    PartitionValid(check, data);
    PartitionErrorShape(check, data);
  }

  /** The valid list is the clean items, and the two lists together are as long as the input. */
  lemma {:induction false} PartitionValid(check: ItemCheck, data: seq<Value>)
    requires Partitioned(check, data).Ok?
    ensures var p := Partitioned(check, data).value;
            p.valid == CleanItems(check, data) && |p.valid| + |p.errors| == |data|
  {
    if data != [] {
      PartitionValid(check, data[..|data| - 1]);
    }
  }

  /** Every error entry carries an item's index, the item and its non-empty messages. */
  lemma {:induction false} PartitionErrorShape(check: ItemCheck, data: seq<Value>)
    requires Partitioned(check, data).Ok?
    ensures var p := Partitioned(check, data).value;
            forall k :: 0 <= k < |p.errors| ==>
              p.errors[k].Rejected? && p.errors[k].index < |data| && p.errors[k].data == data[p.errors[k].index]
              && check(data[p.errors[k].index]) == Ok(p.errors[k].errors) && p.errors[k].errors != []
  {
    if data != [] {
      var n := |data| - 1;
      PartitionErrorShape(check, data[..n]);
      var p0 := Partitioned(check, data[..n]).value;
      assert forall k :: 0 <= k < |p0.errors| ==> data[..n][p0.errors[k].index] == data[p0.errors[k].index];
    }
  }

  /** Each item lands in exactly one list: an item is rejected exactly when its check gives messages. */
  lemma {:induction false} PartitionRejected(check: ItemCheck, data: seq<Value>)
    requires Partitioned(check, data).Ok?
    ensures var p := Partitioned(check, data).value;
      forall i :: 0 <= i < |data| ==> (RejectedAt(p.errors, i) <==> check(data[i]) != Ok([]))
  {
    if data != [] {
      var n := |data| - 1;
      var init := data[..n];
      PartitionRejected(check, init);
      PartitionErrorShape(check, init);
      var p0 := Partitioned(check, init).value;
      var p := Partitioned(check, data).value;
      assert forall k :: 0 <= k < |p0.errors| ==> p0.errors[k].index < n;
      forall i | 0 <= i < |data| ensures RejectedAt(p.errors, i) <==> check(data[i]) != Ok([]) {
        if i < n {
          assert data[i] == init[i];
          if RejectedAt(p.errors, i) {
            var k :| 0 <= k < |p.errors| && p.errors[k].Rejected? && p.errors[k].index == i;
            if k < |p0.errors| {
              assert p.errors[k] == p0.errors[k];
            }
          }
          if RejectedAt(p0.errors, i) {
            var k :| 0 <= k < |p0.errors| && p0.errors[k].Rejected? && p0.errors[k].index == i;
            assert p.errors[k] == p0.errors[k];
          }
        } else if check(data[n]) != Ok([]) {
          assert p.errors[|p.errors| - 1].index == n;
        } else {
          assert p.errors == p0.errors;
        }
      }
    }
  }

  /** `validate_import_data`: raw data passes unchecked; an unknown type gives no items and one error. */
  function ValidateImportData(data: seq<Value>, importType: string): (r: Result<Partition>)
    ensures importType == "data" ==> r == Ok(Partition(data, []))
    ensures importType !in {"template", "fields", "datasource", "data"} ==>
              r == Ok(Partition([], [UnknownType("不支持的导入类型: " + importType)]))
  {
    if importType == "template" then Partitioned(Check(TemplateConfig), data)
    else if importType == "fields" then Partitioned(Check(FieldsConfig), data)
    else if importType == "datasource" then Partitioned(Check(DatasourceConfig), data)
    else if importType == "data" then Ok(Partition(data, []))
    else Ok(Partition([], [UnknownType("不支持的导入类型: " + importType)]))
  }

  /** One failed import: the item's index, its name and the error text. */
  datatype ImportError = ImportError(index: nat, name: Value, error: string)

  /**
   * The exception `Template(user_id=…)` raises: the template row has an
   * `author_id` column and no `user_id`, so the declarative constructor refuses the keyword.
   */
  const TemplateKeywordError := "'user_id' is an invalid keyword argument for Template"

  /** `import_templates`: every template fails on the constructor and is reported, none is saved. */
  function ImportTemplates(templates: seq<Value>): (r: (nat, seq<ImportError>))
    ensures r.0 == 0 && |r.1| == |templates|
    ensures forall i :: 0 <= i < |templates| ==> r.1[i].index == i && r.1[i].error == TemplateKeywordError
  {
    (0, seq(|templates|, i requires 0 <= i < |templates| =>
          ImportError(i, if templates[i].Dict? then GetOr(templates[i].entries, "name", Null) else Null,
                      TemplateKeywordError)))
  }

  /** `create_datasource` on one validated item: None on success, else the error it returned or raised. */
  type DatasourceCreator = Value -> Option<string>

  /** `import_datasources`: the count of created datasources and the errors of the others. */
  function ImportDatasources(items: seq<Value>, create: DatasourceCreator): (r: (nat, seq<ImportError>))
    ensures r.0 + |r.1| == |items|
  {
    if items == [] then (0, [])
    else
      var n := |items| - 1;
      var (count, errs) := ImportDatasources(items[..n], create);
      match create(items[n])
      case None => (count + 1, errs)
      case Some(e) =>
        (count, errs + [ImportError(n, if items[n].Dict? then GetOr(items[n].entries, "name", Null) else Null, e)])
  }

  /** The dict `process_import` returns; `Raised` is an exception that escapes it. */
  datatype ImportOutcome =
    | ParseFailed(error: string)
    | NothingValid(validationErrors: seq<ItemError>)
    | Parsed(data: seq<Value>, total: nat, validCount: nat, validationErrors: seq<ItemError>)
    | Imported(imported: nat, total: nat, validCount: nat, validationErrors: seq<ItemError>, importErrors: seq<ImportError>)
    | Raised(error: string)

  function Stage(o: ImportOutcome): string {
    match o
    case ParseFailed(_) => "parse"
    case NothingValid(_) => "validate"
    case Raised(_) => "raised"
    case _ => "complete"
  }

  /** `process_import`: parse, validate, then import templates or datasources or hand the data back. */
  function ProcessImport(content: string, format: string, importType: string, options: Record,
                         loads: JsonParser, read: CsvReader, create: DatasourceCreator): ImportOutcome
  {
    match ParseContent(content, format, options, loads, read)
    case Err(e) => ParseFailed(e)
    case Ok(data) =>
      match ValidateImportData(data, importType)
      case Err(e) => Raised(e)
      case Ok(p) =>
        if p.valid == [] then NothingValid(p.errors)
        else if importType == "template" then
          var (n, errs) := ImportTemplates(p.valid);
          Imported(n, |data|, |p.valid|, p.errors, errs)
        else if importType == "datasource" then
          var (n, errs) := ImportDatasources(p.valid, create);
          Imported(n, |data|, |p.valid|, p.errors, errs)
        else Parsed(p.valid, |data|, |p.valid|, p.errors)
  }

  /**
   * The stages: a parse error stops at "parse", no valid item at "validate";
   * a completed import counts every parsed item and every valid one, and
   * imports no more items than were valid.
   */
  lemma ProcessImportStages(content: string, format: string, importType: string, options: Record,
                            loads: JsonParser, read: CsvReader, create: DatasourceCreator)
    ensures var o := ProcessImport(content, format, importType, options, loads, read, create);
      var parsed := ParseContent(content, format, options, loads, read);
      && (parsed.Err? <==> o.ParseFailed?)
      && (parsed.Err? ==> o == ParseFailed(parsed.error))
      && (o.NothingValid? ==> parsed.Ok? && ValidateImportData(parsed.value, importType) == Ok(Partition([], o.validationErrors)))
      && (o.Parsed? ==> o.total == |parsed.value| && o.validCount == |o.data| > 0 && importType !in {"template", "datasource"})
      && (o.Imported? ==> o.total == |parsed.value| && 0 < o.validCount && o.imported <= o.validCount)
      && (o.Imported? && importType == "template" ==> o.imported == 0 && |o.importErrors| == o.validCount)
  {
  }

  /** The three formats parse; any other name is refused at the parse stage. */
  lemma UnsupportedFormat(content: string, format: string, importType: string, options: Record,
                          loads: JsonParser, read: CsvReader, create: DatasourceCreator)
    requires format !in {"json", "jsonl", "csv"}
    ensures ProcessImport(content, format, importType, options, loads, read, create)
            == ParseFailed("不支持的格式: " + format)
  {
  }
}
