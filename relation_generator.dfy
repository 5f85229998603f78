/**
 * The relational generator (backend/services/relation_generator_service.py).
 * `generate_relation_data` first generates every table's rows with the
 * generator service, then walks the relations in order and overwrites the
 * target column of the target table's rows with keys read from the source
 * table's column: shuffled and cycled for one-to-one, drawn at random for
 * one-to-many and many-to-many.
 *
 * A table's result rows are a `seq<Record>` in a map keyed by table name;
 * `random.shuffle` is the Fisher-Yates pass it performs, driven by raw draws.
 */
module RelationGenerator {
  import opened Wrappers
  import opened Values
  import opened MockGenerator
  import opened GeneratorService
  import opened Shuffling

  datatype FieldConfig = FieldConfig(name: string, dataType: Value)

  datatype TableConfig = TableConfig(name: string, count: int, fields: seq<FieldConfig>)

  datatype Relation = Relation(sourceTable: string, sourceColumn: string, targetTable: string,
                               targetColumn: string, relationType: string)

  /** The generated rows of each table, by table name. */
  type TableData = map<string, seq<Record>>

  /** The relation types that rewrite a foreign-key column; any other type leaves the data alone. */
  const RelationTypes: set<string> := {"one-to-one", "one-to-many", "many-to-many"}

  /** `{"name": field['name'], "type": field['type'], "options": {}}`. */
  function GenField(f: FieldConfig): Record {
    [("name", Str(f.name)), ("type", f.dataType), ("options", Dict([]))]
  }

  function GenFields(fs: seq<FieldConfig>): (r: seq<Record>)
    ensures |r| == |fs| && forall j :: 0 <= j < |fs| ==> r[j] == GenField(fs[j])
  {
    if fs == [] then [] else GenFields(fs[..|fs| - 1]) + [GenField(fs[|fs| - 1])]
  }

  lemma GenFieldsNamed(fs: seq<FieldConfig>)
    ensures forall j :: 0 <= j < |fs| ==> NameIsText(Spec(GenFields(fs)[j]))
  {
    forall j | 0 <= j < |fs| ensures NameIsText(Spec(GenFields(fs)[j])) {
      assert Get(GenField(fs[j]), "name") == Some(Str(fs[j].name));
    }
  }

  /** The error generating table `t` raises, if any: only a table with rows evaluates its field types. */
  function TableError(t: TableConfig): Option<string> {
    if t.count > 0 then FirstError(Specs(GenFields(t.fields))) else None
  }

  /** What the generator service returns for table `t`. */
  function TableResult(t: TableConfig, gen: ValueSource): Result<seq<Record>> {
    MockData(Specs(GenFields(t.fields)), t.count, gen)
  }

  /** A table that generates has exactly `count` rows, none for a count of zero or less. */
  lemma TableResultRows(t: TableConfig, gen: ValueSource)
    ensures TableResult(t, gen).Err? <==> TableError(t).Some?
    ensures TableResult(t, gen).Ok? ==> |TableResult(t, gen).value| == if t.count > 0 then t.count else 0
  {
  }

  /** The generator service's result for each table, table k generated with `gens(k)`. */
  function TableResults(tables: seq<TableConfig>, gens: nat -> ValueSource): (rs: seq<Result<seq<Record>>>)
    ensures |rs| == |tables| && forall k :: 0 <= k < |tables| ==> rs[k] == TableResult(tables[k], gens(k))
  {
    seq(|tables|, k requires 0 <= k < |tables| => TableResult(tables[k], gens(k)))
  }

  /**
   * Step 1 over the tables' results: stop at the first error, otherwise store
   * each table's rows under its name, a later table replacing an earlier one of the same name.
   */
  function Collect(tables: seq<TableConfig>, results: seq<Result<seq<Record>>>): Result<TableData>
    requires |results| == |tables|
  {
    if tables == [] then Ok(map[])
    else
      var n := |tables| - 1;
      match Collect(tables[..n], results[..n])
      case Err(e) => Err(e)
      case Ok(m) =>
        match results[n]
        case Err(e) => Err(e)
        case Ok(rows) => Ok(m[tables[n].name := rows])
  }

  function BaseData(tables: seq<TableConfig>, gens: nat -> ValueSource): Result<TableData> {
    Collect(tables, TableResults(tables, gens))
  }

  function TableNames(tables: seq<TableConfig>): (names: set<string>)
    ensures forall k :: 0 <= k < |tables| ==> tables[k].name in names
  {
    if tables == [] then {} else TableNames(tables[..|tables| - 1]) + {tables[|tables| - 1].name}
  }

  /** Step 1 fails iff some table fails; otherwise it holds one entry per table name. */
  lemma {:induction false} CollectOutcome(tables: seq<TableConfig>, results: seq<Result<seq<Record>>>)
    requires |results| == |tables|
    ensures Collect(tables, results).Ok? <==> forall k :: 0 <= k < |results| ==> results[k].Ok?
    ensures Collect(tables, results).Ok? ==> Collect(tables, results).value.Keys == TableNames(tables)
  {
    if tables != [] {
      var n := |tables| - 1;
      CollectOutcome(tables[..n], results[..n]);
      assert forall k :: 0 <= k < n ==> results[..n][k] == results[k];
    }
  }

  /** The last table of each name determines that name's rows. */
  lemma {:induction false} CollectRows(tables: seq<TableConfig>, results: seq<Result<seq<Record>>>, k: nat)
    requires |results| == |tables| && Collect(tables, results).Ok? && k < |tables|
    requires forall l :: k < l < |tables| ==> tables[l].name != tables[k].name
    ensures results[k].Ok?
    ensures tables[k].name in Collect(tables, results).value
    ensures Collect(tables, results).value[tables[k].name] == results[k].value
  {
    var n := |tables| - 1;
    if k < n {
      CollectRows(tables[..n], results[..n], k);
    }
  }

  /** One more table: its error ends step 1 with that error, its rows extend the data. */
  lemma CollectStep(tables: seq<TableConfig>, results: seq<Result<seq<Record>>>, k: nat, data: TableData)
    requires |results| == |tables| && k < |tables| && Collect(tables[..k], results[..k]) == Ok(data)
    ensures results[k].Err? ==> Collect(tables, results) == Err(results[k].error)
    ensures results[k].Ok? ==> Collect(tables[..k + 1], results[..k + 1]) == Ok(data[tables[k].name := results[k].value])
  {
    assert tables[..k + 1][..k] == tables[..k];
    assert results[..k + 1][..k] == results[..k];
    if results[k].Err? {
      CollectErrStays(tables, results, k, |tables|);
      CollectAll(tables, results);
    }
  }

  lemma CollectAll(tables: seq<TableConfig>, results: seq<Result<seq<Record>>>)
    requires |results| == |tables|
    ensures Collect(tables[..|tables|], results[..|tables|]) == Collect(tables, results)
  {
    assert tables[..|tables|] == tables && results[..|tables|] == results;
  }

  /** Once a prefix of the tables fails, every longer prefix fails with the same error. */
  lemma {:induction false} CollectErrStays(tables: seq<TableConfig>, results: seq<Result<seq<Record>>>, k: nat, l: nat)
    requires |results| == |tables| && k < l <= |tables|
    requires Collect(tables[..k + 1], results[..k + 1]).Err?
    ensures Collect(tables[..l], results[..l]) == Collect(tables[..k + 1], results[..k + 1])
  {
    if l > k + 1 {
      CollectErrStays(tables, results, k, l - 1);
      assert tables[..l][..l - 1] == tables[..l - 1];
      assert results[..l][..l - 1] == results[..l - 1];
    }
  }

  /** `[row.get(col) for row in rows]`, a missing key read as None. */
  function KeyColumn(rows: seq<Record>, col: string): (keys: seq<Value>)
    ensures |keys| == |rows| && forall i :: 0 <= i < |rows| ==> keys[i] == GetOr(rows[i], col, Null)
  {
    seq(|rows|, i requires 0 <= i < |rows| => GetOr(rows[i], col, Null))
  }

  /** `seq(n, i => s[i % |s|])`: the keys reused cyclically. */
  function Cycle(s: seq<Value>, n: nat): (r: seq<Value>)
    requires |s| > 0
    ensures |r| == n && forall i :: 0 <= i < n ==> r[i] == s[i % |s|]
  {
    seq(n, i requires 0 <= i < n => s[i % |s|])
  }

  /** One `random.choice(keys)` per row. */
  function Picks(keys: seq<Value>, n: nat, draw: nat -> nat): (r: seq<Value>)
    requires |keys| > 0
    ensures |r| == n && forall i :: 0 <= i < n ==> r[i] == keys[draw(i) % |keys|] && r[i] in keys
  {
    seq(n, i requires 0 <= i < n => keys[draw(i) % |keys|])
  }

  /** The key each of `n` target rows receives from a relation of a rewriting type. */
  function RelationValues(relationType: string, keys: seq<Value>, n: nat, draw: nat -> nat): (vs: seq<Value>)
    requires |keys| > 0
    ensures |vs| == n
  {
    if relationType == "one-to-one" then Cycle(Shuffled(keys, draw), n) else Picks(keys, n, draw)
  }

  /** Every row with `col` set to its value. */
  function FillColumn(rows: seq<Record>, col: string, vs: seq<Value>): (r: seq<Record>)
    requires |vs| == |rows|
  {
    seq(|rows|, i requires 0 <= i < |rows| => Put(rows[i], col, vs[i]))
  }

  /** Whether a relation rewrites anything: both tables generated, source rows present, a rewriting type. */
  predicate Applies(data: TableData, rel: Relation) {
    rel.sourceTable in data && rel.targetTable in data && |data[rel.sourceTable]| > 0
    && rel.relationType in RelationTypes
  }

  /** One iteration of the relation loop. */
  function ApplyRelation(data: TableData, rel: Relation, draw: nat -> nat): (r: TableData)
    ensures r.Keys == data.Keys && forall t :: t in data ==> |r[t]| == |data[t]|
  {
    if !Applies(data, rel) then data
    else
      var keys := KeyColumn(data[rel.sourceTable], rel.sourceColumn);
      var rows := data[rel.targetTable];
      data[rel.targetTable := FillColumn(rows, rel.targetColumn, RelationValues(rel.relationType, keys, |rows|, draw))]
  }

  /** Step 2: the relations applied in list order, relation k with draws `draws(k)`. */
  function Related(data: TableData, rels: seq<Relation>, draws: nat -> nat -> nat): TableData {
    if rels == [] then data
    else ApplyRelation(Related(data, rels[..|rels| - 1], draws), rels[|rels| - 1], draws(|rels| - 1))
  }

  /** `generate_relation_data`, as one function of its inputs and random draws. */
  function RelationData(tables: seq<TableConfig>, rels: seq<Relation>, gens: nat -> ValueSource,
                        draws: nat -> nat -> nat): Result<TableData> {
    match BaseData(tables, gens)
    case Err(e) => Err(e)
    case Ok(m) => Ok(Related(m, rels, draws))
  }

  /** `row[target_col] = key` for each target row in turn. */
  method FillColumnInPlace(targetRows: seq<Record>, col: string, vs: seq<Value>) returns (rows: seq<Record>)
    requires |vs| == |targetRows|
    ensures rows == FillColumn(targetRows, col, vs)
  {
    rows := targetRows;
    var i := 0;
    while i < |rows|
      invariant 0 <= i <= |rows| == |targetRows|
      invariant forall j :: 0 <= j < i ==> rows[j] == Put(targetRows[j], col, vs[j])
      invariant forall j :: i <= j < |rows| ==> rows[j] == targetRows[j]
    {
      rows := rows[i := Put(rows[i], col, vs[i])];
      i := i + 1;
    }
  }

  /** One relation: read the source keys, shuffle or draw, overwrite the target column row by row. */
  method ApplyRelationStep(data: TableData, rel: Relation, draw: nat -> nat) returns (r: TableData)
    ensures r == ApplyRelation(data, rel, draw)
  {
    if rel.sourceTable !in data || rel.targetTable !in data {
      return data;
    }
    var keys := KeyColumn(data[rel.sourceTable], rel.sourceColumn);
    if |keys| == 0 {
      return data;
    }
    var targetRows := data[rel.targetTable];
    var vs: seq<Value>;
    if rel.relationType == "one-to-one" {
      var shuffled := Shuffle(keys, draw);
      vs := Cycle(shuffled, |targetRows|);
    } else if rel.relationType == "one-to-many" || rel.relationType == "many-to-many" {
      vs := Picks(keys, |targetRows|, draw);
    } else {
      return data;
    }
    assert vs == RelationValues(rel.relationType, keys, |targetRows|, draw);
    var rows := FillColumnInPlace(targetRows, rel.targetColumn, vs);
    r := data[rel.targetTable := rows];
  }

  /** Step 1 of `generate_relation_data`: generate each table's rows in list order. */
  method GenerateTables(tables: seq<TableConfig>, gens: nat -> ValueSource) returns (r: Result<TableData>)
    ensures r == BaseData(tables, gens)
  {
    ghost var results := TableResults(tables, gens);
    var data: TableData := map[];
    var k := 0;
    while k < |tables|
      invariant 0 <= k <= |tables|
      invariant Collect(tables[..k], results[..k]) == Ok(data)
    {
      var t := tables[k];
      GenFieldsNamed(t.fields);
      var rows := GenerateData(GenFields(t.fields), t.count, gens(k));
      CollectStep(tables, results, k, data);
      if rows.Err? {
        return Err(rows.error);
      }
      data := data[t.name := rows.value];
      k := k + 1;
    }
    CollectAll(tables, results);
    r := Ok(data);
  }

  /** Step 2 of `generate_relation_data`: apply the relations in list order. */
  method ApplyRelations(base: TableData, rels: seq<Relation>, draws: nat -> nat -> nat) returns (data: TableData)
    ensures data == Related(base, rels, draws)
  {
    data := base;
    var j := 0;
    while j < |rels|
      invariant 0 <= j <= |rels|
      invariant data == Related(base, rels[..j], draws)
    {
      assert rels[..j + 1][..j] == rels[..j];
      data := ApplyRelationStep(data, rels[j], draws(j));
      j := j + 1;
    }
    assert rels[..|rels|] == rels;
  }

  /** `generate_relation_data`: generate every table, then apply the relations in order. */
  method GenerateRelationData(tables: seq<TableConfig>, rels: seq<Relation>, gens: nat -> ValueSource,
                              draws: nat -> nat -> nat) returns (r: Result<TableData>)
    ensures r == RelationData(tables, rels, gens, draws)
  {
    var base := GenerateTables(tables, gens);
    if base.Err? {
      return Err(base.error);
    }
    var data := ApplyRelations(base.value, rels, draws);
    r := Ok(data);
  }

  /** The relation loop keeps every table and every table's row count. */
  lemma {:induction false} RelatedKeepsShape(data: TableData, rels: seq<Relation>, draws: nat -> nat -> nat)
    ensures Related(data, rels, draws).Keys == data.Keys
    ensures forall t :: t in data ==> |Related(data, rels, draws)[t]| == |data[t]|
  {
    if rels != [] {
      RelatedKeepsShape(data, rels[..|rels| - 1], draws);
    }
  }

  /**
   * The result has one entry per table name, and the last table of each name
   * has exactly its `count` rows (none for a count of zero or less).
   */
  lemma ResultShape(tables: seq<TableConfig>, rels: seq<Relation>, gens: nat -> ValueSource,
                    draws: nat -> nat -> nat, k: nat)
    requires RelationData(tables, rels, gens, draws).Ok? && k < |tables|
    requires forall l :: k < l < |tables| ==> tables[l].name != tables[k].name
    ensures RelationData(tables, rels, gens, draws).value.Keys == TableNames(tables)
    ensures |RelationData(tables, rels, gens, draws).value[tables[k].name]|
            == if tables[k].count > 0 then tables[k].count else 0
  {
    var results := TableResults(tables, gens);
    CollectOutcome(tables, results);
    CollectRows(tables, results, k);
    TableResultRows(tables[k], gens(k));
    RelatedKeepsShape(BaseData(tables, gens).value, rels, draws);
  }

  /** Generation fails iff some table with rows has a list or dict field type. */
  lemma ResultFails(tables: seq<TableConfig>, rels: seq<Relation>, gens: nat -> ValueSource, draws: nat -> nat -> nat)
    ensures RelationData(tables, rels, gens, draws).Err? <==> exists k :: 0 <= k < |tables| && TableError(tables[k]).Some?
  {
    var results := TableResults(tables, gens);
    CollectOutcome(tables, results);
    forall k | 0 <= k < |tables| ensures results[k].Ok? <==> TableError(tables[k]).None? {
      TableResultRows(tables[k], gens(k));
    }
  }

  /** An applying relation replaces the target table's rows by the filled ones and keeps every other table. */
  lemma ApplyRelationTarget(data: TableData, rel: Relation, draw: nat -> nat)
    requires Applies(data, rel)
    ensures var keys := KeyColumn(data[rel.sourceTable], rel.sourceColumn);
      var rows := data[rel.targetTable];
      ApplyRelation(data, rel, draw)[rel.targetTable]
        == FillColumn(rows, rel.targetColumn, RelationValues(rel.relationType, keys, |rows|, draw))
    ensures forall t :: t in data && t != rel.targetTable ==> ApplyRelation(data, rel, draw)[t] == data[t]
  {
  }

  /** A relation naming an absent table, with an empty source table, or of another type changes nothing. */
  lemma SkippedRelation(data: TableData, rel: Relation, draw: nat -> nat)
    requires !Applies(data, rel)
    ensures ApplyRelation(data, rel, draw) == data
  {
  }

  /**
   * A relation that applies changes only the target column of the target
   * table's rows; every other table (the source included, unless it is the
   * target) and every other column is unchanged.
   */
  lemma RelationTouchesOnlyTargetColumn(data: TableData, rel: Relation, draw: nat -> nat, i: nat, col: string)
    requires Applies(data, rel) && i < |data[rel.targetTable]| && col != rel.targetColumn
    ensures forall t :: t in data && t != rel.targetTable ==> ApplyRelation(data, rel, draw)[t] == data[t]
    ensures Get(ApplyRelation(data, rel, draw)[rel.targetTable][i], col) == Get(data[rel.targetTable][i], col)
  {
    ApplyRelationTarget(data, rel, draw);
    var keys := KeyColumn(data[rel.sourceTable], rel.sourceColumn);
    var vs := RelationValues(rel.relationType, keys, |data[rel.targetTable]|, draw);
    GetPut(data[rel.targetTable][i], rel.targetColumn, vs[i], col);
  }

  /** One-to-many and many-to-many: every target row's column holds one of the source column's values. */
  lemma DrawnKeysComeFromSource(data: TableData, rel: Relation, draw: nat -> nat, i: nat)
    requires Applies(data, rel) && rel.relationType != "one-to-one" && i < |data[rel.targetTable]|
    ensures var keys := KeyColumn(data[rel.sourceTable], rel.sourceColumn);
      exists k :: 0 <= k < |keys| && Get(ApplyRelation(data, rel, draw)[rel.targetTable][i], rel.targetColumn) == Some(keys[k])
  {
    ApplyRelationTarget(data, rel, draw);
    var keys := KeyColumn(data[rel.sourceTable], rel.sourceColumn);
    var vs := RelationValues(rel.relationType, keys, |data[rel.targetTable]|, draw);
    GetPut(data[rel.targetTable][i], rel.targetColumn, vs[i], rel.targetColumn);
    assert vs[i] == keys[draw(i) % |keys|];
  }

  /**
   * One-to-one: target row i gets entry `i % len(keys)` of a permutation of
   * the source column's values.
   */
  lemma OneToOneUsesPermutation(data: TableData, rel: Relation, draw: nat -> nat, i: nat)
    requires Applies(data, rel) && rel.relationType == "one-to-one" && i < |data[rel.targetTable]|
    ensures var keys := KeyColumn(data[rel.sourceTable], rel.sourceColumn);
      var shuffled := Shuffled(keys, draw);
      multiset(shuffled) == multiset(keys)
      && Get(ApplyRelation(data, rel, draw)[rel.targetTable][i], rel.targetColumn) == Some(shuffled[i % |keys|])
  {
    ApplyRelationTarget(data, rel, draw);
    var keys := KeyColumn(data[rel.sourceTable], rel.sourceColumn);
    ShuffledPermutes(keys, draw);
    var vs := RelationValues(rel.relationType, keys, |data[rel.targetTable]|, draw);
    GetPut(data[rel.targetTable][i], rel.targetColumn, vs[i], rel.targetColumn);
  }

  /** Relations apply in list order: appending a relation applies it to the result of the earlier ones. */
  lemma LaterRelationAppliesLast(data: TableData, rels: seq<Relation>, rel: Relation, draws: nat -> nat -> nat)
    ensures Related(data, rels + [rel], draws) == ApplyRelation(Related(data, rels, draws), rel, draws(|rels|))
  {
    assert (rels + [rel])[..|rels|] == rels;
  }
}
