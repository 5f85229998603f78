/**
 * The state handlers of the relation designer page
 * (frontend/src/pages/RelationPage.tsx). Each handler computes the next
 * `tables` and `relations` arrays from the current ones, as the React setters
 * receive them; `Date.now()`, which the new ids are made from, is a parameter.
 */
module RelationPage {
  import opened Wrappers
  import opened Text
  import opened Values

  /** A field of a table (`DataField`); `options` is absent or a record. */
  datatype Field = Field(id: string, name: string, kind: string, options: Option<Record>)

  /** A table of the designer (`RelationTable`). */
  datatype Table = Table(id: string, name: string, fields: seq<Field>, count: int)

  datatype RelationType = OneToOne | OneToMany | ManyToMany

  /** A foreign-key link between two tables (`TableRelation`). */
  datatype Relation = Relation(id: string, sourceTable: string, sourceColumn: string,
                               targetTable: string, targetColumn: string, relationType: RelationType)

  /** The page state the handlers replace. */
  datatype Page = Page(tables: seq<Table>, relations: seq<Relation>)

  /** A `Partial<DataField>`: the properties present override the field's own. */
  datatype FieldUpdate = FieldUpdate(id: Option<string>, name: Option<string>, kind: Option<string>,
                                     options: Option<Record>)

  /** A `Partial<TableRelation>`. */
  datatype RelationUpdate = RelationUpdate(id: Option<string>, sourceTable: Option<string>, sourceColumn: Option<string>,
                                           targetTable: Option<string>, targetColumn: Option<string>,
                                           relationType: Option<RelationType>)

  // ---------------------------------------------------------------- Array.filter

  /** `xs.filter(keep)`: the elements kept, in their order. */
  function Filter<T(!new)>(xs: seq<T>, keep: T -> bool): (r: seq<T>)
    ensures |r| <= |xs|
    ensures forall x :: x in r <==> x in xs && keep(x)
  {
    if xs == [] then []
    else (if keep(xs[0]) then [xs[0]] else []) + Filter(xs[1..], keep)
  }

  /** A filter that keeps everything returns the array unchanged. */
  lemma {:induction false} FilterKeepsAll<T(!new)>(xs: seq<T>, keep: T -> bool)
    requires forall i :: 0 <= i < |xs| ==> keep(xs[i])
    ensures Filter(xs, keep) == xs
  {
    if xs != [] {
      FilterKeepsAll(xs[1..], keep);
      assert [xs[0]] + xs[1..] == xs;
    }
  }

  /** Filtering distributes over concatenation: the kept elements keep their order. */
  lemma {:induction false} FilterConcat<T(!new)>(a: seq<T>, b: seq<T>, keep: T -> bool)
    ensures Filter(a + b, keep) == Filter(a, keep) + Filter(b, keep)
  {
    if a == [] {
      assert a + b == b;
    } else {
      assert (a + b)[0] == a[0] && (a + b)[1..] == a[1..] + b;
      FilterConcat(a[1..], b, keep);
    }
  }

  /** The array is shorter after filtering exactly when some element is dropped. */
  lemma {:induction false} FilterShrinks<T(!new)>(xs: seq<T>, keep: T -> bool)
    ensures |Filter(xs, keep)| < |xs| <==> exists i :: 0 <= i < |xs| && !keep(xs[i])
  {
    if xs != [] {
      FilterShrinks(xs[1..], keep);
      if exists i :: 0 <= i < |xs[1..]| && !keep(xs[1..][i]) {
        var i :| 0 <= i < |xs[1..]| && !keep(xs[1..][i]);
        assert !keep(xs[i + 1]);
      }
      if exists i :: 0 <= i < |xs| && !keep(xs[i]) {
        var i :| 0 <= i < |xs| && !keep(xs[i]);
        if i > 0 {
          assert !keep(xs[1..][i - 1]);
        }
      }
    }
  }

  // ---------------------------------------------------------------- lookups

  /** `tables.find(t => t.id === tableId)?.name`. */
  function TableName(tables: seq<Table>, tableId: string): (r: Option<string>)
    ensures r.None? <==> forall i :: 0 <= i < |tables| ==> tables[i].id != tableId
    ensures r.Some? ==> exists i :: 0 <= i < |tables| && tables[i].id == tableId && tables[i].name == r.value
                          && forall j :: 0 <= j < i ==> tables[j].id != tableId
  {
    if tables == [] then None
    else if tables[0].id == tableId then Some(tables[0].name)
    else
      var r := TableName(tables[1..], tableId);
      if r.Some? then
        var i :| 0 <= i < |tables[1..]| && tables[1..][i].id == tableId && tables[1..][i].name == r.value
                 && forall j :: 0 <= j < i ==> tables[1..][j].id != tableId;
        assert tables[i + 1] == tables[1..][i];
        assert forall j :: 1 <= j < i + 1 ==> tables[j] == tables[1..][j - 1];
        r
      else r
  }

  /** JavaScript truthiness of the looked-up name: found and not empty. */
  predicate NamedTable(name: Option<string>) {
    name.Some? && name.value != ""
  }

  /** No two tables share an id, as the page creates them. */
  predicate UniqueIds(tables: seq<Table>) {
    forall i, j :: 0 <= i < j < |tables| ==> tables[i].id != tables[j].id
  }

  // ---------------------------------------------------------------- removeTable

  /** Relations that do not touch the named table. */
  predicate Unlinked(name: string, r: Relation) {
    r.sourceTable != name && r.targetTable != name
  }

  /**
   * `removeTable`: the tables with that id go; when the first of them has a
   * non-empty name, so does every relation with that name at either end.
   */
  function RemoveTable(p: Page, tableId: string): Page {
    var name := TableName(p.tables, tableId);
    Page(Filter(p.tables, (t: Table) => t.id != tableId),
         if NamedTable(name) then Filter(p.relations, (r: Relation) => Unlinked(name.value, r)) else p.relations)
  }

  /** The table goes, the others stay; the relations left are exactly those not touching its name. */
  lemma RemoveTableContents(p: Page, tableId: string)
    ensures forall t :: t in RemoveTable(p, tableId).tables <==> t in p.tables && t.id != tableId
    ensures var name := TableName(p.tables, tableId);
            NamedTable(name) ==>
              forall r :: r in RemoveTable(p, tableId).relations <==> r in p.relations && Unlinked(name.value, r)
    ensures !NamedTable(TableName(p.tables, tableId)) ==> RemoveTable(p, tableId).relations == p.relations
  {
  }

  /** With an unknown id nothing changes. */
  lemma RemoveUnknownTable(p: Page, tableId: string)
    requires forall i :: 0 <= i < |p.tables| ==> p.tables[i].id != tableId
    ensures RemoveTable(p, tableId) == p
  {
    FilterKeepsAll(p.tables, (t: Table) => t.id != tableId);
  }

  /** Removing a known table shortens the tables. */
  lemma RemoveKnownTable(p: Page, tableId: string)
    requires exists i :: 0 <= i < |p.tables| && p.tables[i].id == tableId
    ensures |RemoveTable(p, tableId).tables| < |p.tables|
  {
    FilterShrinks(p.tables, (t: Table) => t.id != tableId);
  }

  // ---------------------------------------------------------------- field handlers

  /** The field `addField` appends: id `f<now>`, name `field_<n+1>`, type `string`. */
  function NewField(fieldCount: nat, now: nat): Field {
    Field("f" + NatToDecimal(now), "field_" + NatToDecimal(fieldCount + 1), "string", None)
  }

  /** `addField`: every table with that id gets one more field. */
  function AddField(tables: seq<Table>, tableId: string, now: nat): seq<Table> {
    seq(|tables|, i requires 0 <= i < |tables| =>
      if tables[i].id == tableId then tables[i].(fields := tables[i].fields + [NewField(|tables[i].fields|, now)])
      else tables[i])
  }

  /** `removeField`: the field goes from the tables with that id. */
  function RemoveField(tables: seq<Table>, tableId: string, fieldId: string): seq<Table> {
    seq(|tables|, i requires 0 <= i < |tables| =>
      if tables[i].id == tableId then tables[i].(fields := Filter(tables[i].fields, (f: Field) => f.id != fieldId))
      else tables[i])
  }

  /** `{ ...f, ...updates }`. */
  function ApplyField(f: Field, u: FieldUpdate): Field {
    Field(u.id.GetOr(f.id), u.name.GetOr(f.name), u.kind.GetOr(f.kind), if u.options.Some? then u.options else f.options)
  }

  /** The fields with that id take the update. */
  function UpdatedFields(fs: seq<Field>, fieldId: string, u: FieldUpdate): seq<Field> {
    seq(|fs|, k requires 0 <= k < |fs| => if fs[k].id == fieldId then ApplyField(fs[k], u) else fs[k])
  }

  /** `updateField`: the fields with that id, in the tables with that id, take the update. */
  function UpdateField(tables: seq<Table>, tableId: string, fieldId: string, u: FieldUpdate): seq<Table> {
    seq(|tables|, i requires 0 <= i < |tables| =>
      if tables[i].id == tableId then tables[i].(fields := UpdatedFields(tables[i].fields, fieldId, u))
      else tables[i])
  }

  /** `addField` appends `field_<n+1>` of type `string` to the matching tables and leaves the rest alone. */
  lemma AddFieldShape(tables: seq<Table>, tableId: string, now: nat)
    ensures var r := AddField(tables, tableId, now);
            |r| == |tables|
            && forall i :: 0 <= i < |tables| ==>
                 if tables[i].id == tableId then
                   r[i].id == tables[i].id && r[i].name == tables[i].name && r[i].count == tables[i].count
                   && |r[i].fields| == |tables[i].fields| + 1
                   && r[i].fields[..|tables[i].fields|] == tables[i].fields
                   && r[i].fields[|tables[i].fields|].name == "field_" + NatToDecimal(|tables[i].fields| + 1)
                   && r[i].fields[|tables[i].fields|].kind == "string"
                 else r[i] == tables[i]
  {
    var r := AddField(tables, tableId, now);
    forall i | 0 <= i < |tables| && tables[i].id == tableId
      ensures r[i].fields[..|tables[i].fields|] == tables[i].fields
    {
      assert r[i].fields == tables[i].fields + [NewField(|tables[i].fields|, now)];
    }
  }

  /** Removing the field just added, whose id no field had, gives back the tables. */
  lemma AddFieldThenRemove(tables: seq<Table>, tableId: string, now: nat)
    requires forall i, k :: 0 <= i < |tables| && 0 <= k < |tables[i].fields| ==> tables[i].fields[k].id != "f" + NatToDecimal(now)
    ensures RemoveField(AddField(tables, tableId, now), tableId, "f" + NatToDecimal(now)) == tables
  {
    var id := "f" + NatToDecimal(now);
    var keep := (f: Field) => f.id != id;
    var added := AddField(tables, tableId, now);
    var r := RemoveField(added, tableId, id);
    forall i | 0 <= i < |tables|
      ensures r[i] == tables[i]
    {
      if tables[i].id == tableId {
        var fs := tables[i].fields;
        FilterConcat(fs, [NewField(|fs|, now)], keep);
        FilterKeepsAll(fs, keep);
        assert Filter([NewField(|fs|, now)], keep) == [];
        assert r[i].fields == fs;
      }
    }
  }

  /** Updating a field and then removing it is the same as removing it, when the update keeps the id. */
  lemma UpdateFieldThenRemove(tables: seq<Table>, tableId: string, fieldId: string, u: FieldUpdate)
    requires u.id.None?
    ensures RemoveField(UpdateField(tables, tableId, fieldId, u), tableId, fieldId) == RemoveField(tables, tableId, fieldId)
  {
    var keep := (f: Field) => f.id != fieldId;
    var updated := UpdateField(tables, tableId, fieldId, u);
    forall i | 0 <= i < |tables| && tables[i].id == tableId
      ensures Filter(updated[i].fields, keep) == Filter(tables[i].fields, keep)
    {
      FilterUpdated(tables[i].fields, fieldId, u, keep);
    }
  }

  lemma {:induction false} FilterUpdated(fs: seq<Field>, fieldId: string, u: FieldUpdate, keep: Field -> bool)
    requires u.id.None?
    requires forall f :: keep(f) <==> f.id != fieldId
    ensures Filter(UpdatedFields(fs, fieldId, u), keep) == Filter(fs, keep)
  {
    if fs != [] {
      FilterUpdated(fs[1..], fieldId, u, keep);
      assert UpdatedFields(fs, fieldId, u)[1..] == UpdatedFields(fs[1..], fieldId, u);
    }
  }

  /** Only the matching fields of the matching tables change; ids, names and counts of tables stay. */
  lemma UpdateFieldOnlyMatching(tables: seq<Table>, tableId: string, fieldId: string, u: FieldUpdate)
    ensures var r := UpdateField(tables, tableId, fieldId, u);
            |r| == |tables|
            && forall i :: 0 <= i < |tables| ==>
                 r[i].id == tables[i].id && r[i].name == tables[i].name && r[i].count == tables[i].count
                 && |r[i].fields| == |tables[i].fields|
                 && forall k :: 0 <= k < |tables[i].fields| ==>
                      r[i].fields[k] == if tables[i].id == tableId && tables[i].fields[k].id == fieldId
                                        then ApplyField(tables[i].fields[k], u) else tables[i].fields[k]
  {
  }

  /** Applying the same update twice changes nothing more. */
  lemma ApplyFieldIdempotent(f: Field, u: FieldUpdate)
    ensures ApplyField(ApplyField(f, u), u) == ApplyField(f, u)
  {
  }

  // ---------------------------------------------------------------- table handlers

  /** `updateTableName`: the tables with that id take the name; relation ends with the old name follow. */
  function UpdateTableName(p: Page, tableId: string, name: string): Page {
    var oldName := TableName(p.tables, tableId);
    Page(RenameTables(p.tables, tableId, name),
         if NamedTable(oldName) then RenameEnds(p.relations, oldName.value, name) else p.relations)
  }

  /** The tables with that id take the name. */
  function RenameTables(tables: seq<Table>, tableId: string, name: string): (r: seq<Table>)
    ensures |r| == |tables|
    ensures forall i :: 0 <= i < |tables| ==>
              r[i] == if tables[i].id == tableId then tables[i].(name := name) else tables[i]
  {
    seq(|tables|, i requires 0 <= i < |tables| =>
      if tables[i].id == tableId then tables[i].(name := name) else tables[i])
  }

  /** Every relation end equal to `from` becomes `to`; nothing else changes. */
  function RenameEnds(rs: seq<Relation>, from: string, to: string): (r: seq<Relation>)
    ensures |r| == |rs|
    ensures forall i :: 0 <= i < |rs| ==>
              r[i].id == rs[i].id && r[i].sourceColumn == rs[i].sourceColumn && r[i].targetColumn == rs[i].targetColumn
              && r[i].relationType == rs[i].relationType
              && (rs[i].sourceTable == from ==> r[i].sourceTable == to)
              && (rs[i].sourceTable != from ==> r[i].sourceTable == rs[i].sourceTable)
              && (rs[i].targetTable == from ==> r[i].targetTable == to)
              && (rs[i].targetTable != from ==> r[i].targetTable == rs[i].targetTable)
  {
    seq(|rs|, i requires 0 <= i < |rs| =>
      rs[i].(sourceTable := if rs[i].sourceTable == from then to else rs[i].sourceTable,
             targetTable := if rs[i].targetTable == from then to else rs[i].targetTable))
  }

  /** No relation end uses the name. */
  predicate NameUnused(rs: seq<Relation>, name: string) {
    forall i :: 0 <= i < |rs| ==> rs[i].sourceTable != name && rs[i].targetTable != name
  }

  /**
   * Renaming a table to a fresh name and back restores the page: ids are
   * unique, the table's name is non-empty and no relation used the new name.
   */
  lemma RenameRoundTrip(p: Page, i: nat, name: string)
    requires UniqueIds(p.tables) && i < |p.tables|
    requires p.tables[i].name != "" && name != ""
    requires NameUnused(p.relations, name)
    ensures UpdateTableName(UpdateTableName(p, p.tables[i].id, name), p.tables[i].id, p.tables[i].name) == p
  {
    var id := p.tables[i].id;
    var oldName := p.tables[i].name;
    TableNameUnique(p.tables, i);
    var q := UpdateTableName(p, id, name);
    assert q == Page(RenameTables(p.tables, id, name), RenameEnds(p.relations, oldName, name));
    RenameTablesBack(p.tables, i, name);
    TableNameUnique(q.tables, i);
    RenameEndsBack(p.relations, oldName, name);
  }

  /** With unique ids, renaming table i and renaming it back to its name restores the tables. */
  lemma RenameTablesBack(tables: seq<Table>, i: nat, name: string)
    requires UniqueIds(tables) && i < |tables|
    ensures var q := RenameTables(tables, tables[i].id, name);
            UniqueIds(q) && q[i].name == name && q[i].id == tables[i].id
            && RenameTables(q, tables[i].id, tables[i].name) == tables
  {
    var q := RenameTables(tables, tables[i].id, name);
    var r := RenameTables(q, tables[i].id, tables[i].name);
    assert forall k :: 0 <= k < |tables| ==> r[k] == tables[k];
  }

  /** In a table list with unique ids, the name found for the id at position i is that table's name. */
  lemma TableNameUnique(tables: seq<Table>, i: nat)
    requires UniqueIds(tables) && i < |tables|
    ensures TableName(tables, tables[i].id) == Some(tables[i].name)
  {
  }

  /** Renaming relation ends to an unused name and back restores them. */
  lemma RenameEndsBack(rs: seq<Relation>, from: string, to: string)
    requires NameUnused(rs, to)
    ensures RenameEnds(RenameEnds(rs, from, to), to, from) == rs
  {
    var r := RenameEnds(RenameEnds(rs, from, to), to, from);
    assert forall k :: 0 <= k < |rs| ==> r[k] == rs[k];
  }

  /** After a rename of a named table, no relation end keeps the old name, unless the new name is the same. */
  lemma RenameLeavesNoOldName(p: Page, tableId: string, name: string)
    requires NamedTable(TableName(p.tables, tableId)) && TableName(p.tables, tableId).value != name
    ensures NameUnused(UpdateTableName(p, tableId, name).relations, TableName(p.tables, tableId).value)
  {
  }

  /** `updateTableCount`: the tables with that id take the row count. */
  function UpdateTableCount(tables: seq<Table>, tableId: string, count: int): seq<Table> {
    seq(|tables|, i requires 0 <= i < |tables| =>
      if tables[i].id == tableId then tables[i].(count := count) else tables[i])
  }

  /** Only the count of the matching tables changes, and the last count set wins. */
  lemma UpdateTableCountLastWins(tables: seq<Table>, tableId: string, a: int, b: int)
    ensures UpdateTableCount(UpdateTableCount(tables, tableId, a), tableId, b) == UpdateTableCount(tables, tableId, b)
    ensures forall i :: 0 <= i < |tables| ==>
              UpdateTableCount(tables, tableId, b)[i].count == (if tables[i].id == tableId then b else tables[i].count)
              && UpdateTableCount(tables, tableId, b)[i].(count := tables[i].count) == tables[i]
  {
  }

  // ---------------------------------------------------------------- relation handlers

  /** `t.fields[0]?.name || 'id'`: the first field's name, `id` when there is none or it is empty. */
  function FirstFieldName(t: Table): (name: string)
    ensures name != ""
    ensures t.fields != [] && t.fields[0].name != "" ==> name == t.fields[0].name
  {
    if t.fields != [] && t.fields[0].name != "" then t.fields[0].name else "id"
  }

  /** `addRelation`: with two tables or more, a one-to-many link from the first table to the second is appended. */
  function AddRelation(p: Page, now: nat): (r: seq<Relation>)
    ensures |p.tables| < 2 ==> r == p.relations
    ensures |p.tables| >= 2 ==>
              |r| == |p.relations| + 1 && r[..|p.relations|] == p.relations
              && r[|p.relations|].sourceTable == p.tables[0].name && r[|p.relations|].targetTable == p.tables[1].name
              && r[|p.relations|].relationType == OneToMany
              && r[|p.relations|].sourceColumn != "" && r[|p.relations|].targetColumn != ""
  {
    if |p.tables| < 2 then p.relations
    else p.relations + [Relation("r" + NatToDecimal(now), p.tables[0].name, FirstFieldName(p.tables[0]),
                                 p.tables[1].name, FirstFieldName(p.tables[1]), OneToMany)]
  }

  /** `removeRelation`. */
  function RemoveRelation(rs: seq<Relation>, relationId: string): seq<Relation> {
    Filter(rs, (r: Relation) => r.id != relationId)
  }

  /** `{ ...r, ...updates }`. */
  function ApplyRelation(r: Relation, u: RelationUpdate): Relation {
    Relation(u.id.GetOr(r.id), u.sourceTable.GetOr(r.sourceTable), u.sourceColumn.GetOr(r.sourceColumn),
             u.targetTable.GetOr(r.targetTable), u.targetColumn.GetOr(r.targetColumn),
             u.relationType.GetOr(r.relationType))
  }

  /** `updateRelation`: the relations with that id take the update. */
  function UpdateRelation(rs: seq<Relation>, relationId: string, u: RelationUpdate): seq<Relation> {
    seq(|rs|, i requires 0 <= i < |rs| => if rs[i].id == relationId then ApplyRelation(rs[i], u) else rs[i])
  }

  /** Removing the relation just added, under a fresh id, gives back the relations. */
  lemma AddRelationThenRemove(p: Page, now: nat)
    requires forall i :: 0 <= i < |p.relations| ==> p.relations[i].id != "r" + NatToDecimal(now)
    ensures RemoveRelation(AddRelation(p, now), "r" + NatToDecimal(now)) == p.relations
  {
    var keep := (r: Relation) => r.id != "r" + NatToDecimal(now);
    FilterKeepsAll(p.relations, keep);
    if |p.tables| >= 2 {
      var added := AddRelation(p, now);
      assert added == p.relations + [added[|p.relations|]];
      FilterConcat(p.relations, [added[|p.relations|]], keep);
      assert Filter([added[|p.relations|]], keep) == [];
    }
  }

  /** Removal keeps exactly the relations with another id. */
  lemma RemoveRelationContents(rs: seq<Relation>, relationId: string)
    ensures forall r :: r in RemoveRelation(rs, relationId) <==> r in rs && r.id != relationId
    ensures (forall i :: 0 <= i < |rs| ==> rs[i].id != relationId) ==> RemoveRelation(rs, relationId) == rs
  {
    if forall i :: 0 <= i < |rs| ==> rs[i].id != relationId {
      FilterKeepsAll(rs, (r: Relation) => r.id != relationId);
    }
  }

  /** Only the relations with that id change, each exactly by the update. */
  lemma UpdateRelationOnlyMatching(rs: seq<Relation>, relationId: string, u: RelationUpdate)
    ensures |UpdateRelation(rs, relationId, u)| == |rs|
    ensures forall i :: 0 <= i < |rs| && rs[i].id != relationId ==> UpdateRelation(rs, relationId, u)[i] == rs[i]
    ensures forall i :: 0 <= i < |rs| && rs[i].id == relationId ==>
              UpdateRelation(rs, relationId, u)[i] == ApplyRelation(rs[i], u)
  {
  }

  /** Updating a relation and then removing it is the same as removing it, when the update keeps the id. */
  lemma {:induction false} UpdateRelationThenRemove(rs: seq<Relation>, relationId: string, u: RelationUpdate)
    requires u.id.None?
    ensures RemoveRelation(UpdateRelation(rs, relationId, u), relationId) == RemoveRelation(rs, relationId)
  {
    if rs != [] {
      UpdateRelationThenRemove(rs[1..], relationId, u);
      assert UpdateRelation(rs, relationId, u)[1..] == UpdateRelation(rs[1..], relationId, u);
    }
  }
}
