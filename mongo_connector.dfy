/**
 * The schema inference and query plumbing of the MongoDB connector
 * (backend/connectors/mongo_connector.py): field statistics gathered from
 * sampled documents, the column list derived from them, the parsing of a
 * `collection:filter` query and the cleaning of documents before an insert.
 * The pymongo client is left out: what it returns is a parameter.
 */
module MongoConnector {
  import opened Wrappers
  import opened Text
  import opened Values

  /** The statistics of one field: occurrences, None values, and a tally per type name in first-seen order. */
  datatype FieldStats = FieldStats(count: nat, nullCount: nat, types: seq<(string, nat)>)

  /** `field_stats`: field name to statistics, in first-seen order. */
  type StatsTable = seq<(string, FieldStats)>

  const Fresh := FieldStats(0, 0, [])

  /** The type name tallied for a value: `'null'` for None, otherwise `type(value).__name__`. */
  function TypeLabel(v: Value): (t: string)
    ensures t == "null" <==> v.Null?
  {
    if v.Null? then "null" else TypeName(v)
  }

  /** `f"{prefix}{key}" if prefix else key`. */
  function FieldName(prefix: string, key: string): (name: string)
    ensures name == prefix + key
  {
    if prefix != "" then prefix + key else key
  }

  // ---------------------------------------------------------------- type tallies

  predicate UniqueNames<T>(ps: seq<(string, T)>) {
    forall i, j :: 0 <= i < j < |ps| ==> ps[i].0 != ps[j].0
  }

  /** Some entry has this key. */
  predicate Named<T>(ps: seq<(string, T)>, n: string) {
    ps != [] && (ps[0].0 == n || Named(ps[1..], n))
  }

  lemma {:induction false} NamedIff<T>(ps: seq<(string, T)>, n: string)
    ensures Named(ps, n) <==> exists i :: 0 <= i < |ps| && ps[i].0 == n
  {
    if ps != [] {
      NamedIff(ps[1..], n);
      if exists i :: 0 <= i < |ps| && ps[i].0 == n {
        var i :| 0 <= i < |ps| && ps[i].0 == n;
        if i > 0 {
          assert ps[1..][i - 1].0 == n;
        }
      }
    }
  }

  /** `types.get(t, 0)`. */
  function TypeCount(types: seq<(string, nat)>, t: string): nat {
    if types == [] then 0 else if types[0].0 == t then types[0].1 else TypeCount(types[1..], t)
  }

  /** The sum of all tallies. */
  function Sum(types: seq<(string, nat)>): nat {
    if types == [] then 0 else types[0].1 + Sum(types[1..])
  }

  /** `types[t] = types.get(t, 0) + 1`: one more value of type t, a new type going last. */
  function Bump(types: seq<(string, nat)>, t: string): (r: seq<(string, nat)>)
    ensures if Named(types, t) then |r| == |types| else |r| == |types| + 1 && r[|types|] == (t, 1)
    ensures forall i :: 0 <= i < |types| ==> r[i].0 == types[i].0
  {
    if types == [] then [(t, 1)]
    else if types[0].0 == t then [(t, types[0].1 + 1)] + types[1..]
    else [types[0]] + Bump(types[1..], t)
  }

  /** A bump adds one to the tally of its type only, and one to the sum. */
  lemma {:induction false} BumpCounts(types: seq<(string, nat)>, t: string, u: string)
    ensures TypeCount(Bump(types, t), u) == TypeCount(types, u) + if u == t then 1 else 0
    ensures Sum(Bump(types, t)) == Sum(types) + 1
  {
    if types != [] && types[0].0 != t {
      BumpCounts(types[1..], t, u);
    }
  }

  lemma BumpKeepsUnique(types: seq<(string, nat)>, t: string)
    requires UniqueNames(types)
    ensures UniqueNames(Bump(types, t))
  {
    NamedIff(types, t);
  }

  /** A tally whose entry for name t is at position i reads that entry. */
  lemma {:induction false} TypeCountAt(types: seq<(string, nat)>, i: nat)
    requires UniqueNames(types) && i < |types|
    ensures TypeCount(types, types[i].0) == types[i].1
  {
    if i > 0 {
      TypeCountAt(types[1..], i - 1);
    }
  }

  lemma {:induction false} TypeCountAbsent(types: seq<(string, nat)>, t: string)
    requires !Named(types, t)
    ensures TypeCount(types, t) == 0
  {
    if types != [] {
      TypeCountAbsent(types[1..], t);
    }
  }

  // ---------------------------------------------------------------- one field

  /** The statistics after one more occurrence with value v (lines 172-180). */
  function Counted(s: FieldStats, v: Value): FieldStats {
    FieldStats(s.count + 1, s.nullCount + (if v.Null? then 1 else 0), Bump(s.types, TypeLabel(v)))
  }

  /** The statistics agree with themselves: the tallies sum to the count and the `'null'` tally is the null count. */
  predicate Consistent(s: FieldStats) {
    Sum(s.types) == s.count && TypeCount(s.types, "null") == s.nullCount && UniqueNames(s.types)
  }

  /** One more occurrence keeps the statistics consistent. */
  lemma CountedConsistent(s: FieldStats, v: Value)
    requires Consistent(s)
    ensures Consistent(Counted(s, v)) && Counted(s, v).count >= 1
  {
    BumpKeepsUnique(s.types, TypeLabel(v));
    BumpCounts(s.types, TypeLabel(v), "null");
  }

  // ---------------------------------------------------------------- the table

  /** `field_stats.get(name)`, or empty statistics for a field not seen yet. */
  function StatsOf(table: StatsTable, name: string): FieldStats {
    if table == [] then Fresh else if table[0].0 == name then table[0].1 else StatsOf(table[1..], name)
  }

  /** The table after one occurrence of field `name` with value v: the field is created first if it is new. */
  function Tally(table: StatsTable, name: string, v: Value): (r: StatsTable)
    ensures if Named(table, name) then |r| == |table| else |r| == |table| + 1 && r[|table|] == (name, Counted(Fresh, v))
    ensures forall i :: 0 <= i < |table| ==> r[i].0 == table[i].0
    ensures UniqueNames(table) ==>
              forall i :: 0 <= i < |table| ==> r[i].1 == if table[i].0 == name then Counted(table[i].1, v) else table[i].1
  {
    if table == [] then [(name, Counted(Fresh, v))]
    else if table[0].0 == name then [(name, Counted(table[0].1, v))] + table[1..]
    else [table[0]] + Tally(table[1..], name, v)
  }

  /** Looking a field up after a tally: that field has one more occurrence, every other field is unchanged. */
  lemma {:induction false} TallyStats(table: StatsTable, name: string, v: Value, m: string)
    ensures StatsOf(Tally(table, name, v), m) == if m == name then Counted(StatsOf(table, name), v) else StatsOf(table, m)
  {
    if table != [] && table[0].0 != name {
      TallyStats(table[1..], name, v, m);
    }
  }

  /** A tally adds its field to the table's fields and no other. */
  lemma {:induction false} TallyNamed(table: StatsTable, name: string, v: Value, m: string)
    ensures Named(Tally(table, name, v), m) <==> Named(table, m) || m == name
  {
    if table != [] && table[0].0 != name {
      TallyNamed(table[1..], name, v, m);
    }
  }

  /** Every field has unique name, consistent statistics and at least one occurrence. */
  predicate TableOk(table: StatsTable) {
    UniqueNames(table)
    && forall i :: 0 <= i < |table| ==> Consistent(table[i].1) && table[i].1.count >= 1
  }

  lemma {:induction false} StatsAt(table: StatsTable, i: nat)
    requires UniqueNames(table) && i < |table|
    ensures StatsOf(table, table[i].0) == table[i].1
  {
    if i > 0 {
      StatsAt(table[1..], i - 1);
    }
  }

  /** A tally keeps the table well formed. */
  lemma TallyKeepsOk(table: StatsTable, name: string, v: Value)
    requires TableOk(table)
    ensures TableOk(Tally(table, name, v))
  {
    var r := Tally(table, name, v);
    forall i, j | 0 <= i < j < |r| ensures r[i].0 != r[j].0 {
      if j == |table| {
        NamedIff(table, name);
      }
    }
    forall i | 0 <= i < |r| ensures Consistent(r[i].1) && r[i].1.count >= 1 {
      if i < |table| {
        if table[i].0 == name {
          CountedConsistent(table[i].1, v);
        }
      } else {
        CountedConsistent(Fresh, v);
      }
    }
  }

  // ---------------------------------------------------------------- occurrences

  /**
   * Every (field name, value) pair `_analyze_document` tallies for these
   * entries, in order: each entry, then the fields of a nested dict under the
   * prefix `"<field>."`.
   */
  function Occurrences(doc: Record, prefix: string, parent: Value): seq<(string, Value)>
    requires forall i :: 0 <= i < |doc| ==> doc[i].1 < parent
    decreases parent, |doc|
  {
    if doc == [] then []
    else
      var last := doc[|doc| - 1];
      var name := FieldName(prefix, last.0);
      Occurrences(doc[..|doc| - 1], prefix, parent) + [(name, last.1)]
      + if last.1.Dict? then Occurrences(last.1.entries, name + ".", last.1) else []
  }

  /** Applying the tallies of a list of occurrences in order. */
  function TallyAll(table: StatsTable, occ: seq<(string, Value)>): StatsTable {
    if occ == [] then table
    else Tally(TallyAll(table, occ[..|occ| - 1]), occ[|occ| - 1].0, occ[|occ| - 1].1)
  }

  lemma {:induction false} TallyAllAppend(table: StatsTable, a: seq<(string, Value)>, b: seq<(string, Value)>)
    ensures TallyAll(table, a + b) == TallyAll(TallyAll(table, a), b)
    decreases |b|
  {
    if b == [] {
      assert a + b == a;
    } else {
      assert (a + b)[..|a + b| - 1] == a + b[..|b| - 1];
      TallyAllAppend(table, a, b[..|b| - 1]);
    }
  }

  lemma {:induction false} TallyAllKeepsOk(table: StatsTable, occ: seq<(string, Value)>)
    requires TableOk(table)
    ensures TableOk(TallyAll(table, occ))
    decreases |occ|
  {
    if occ != [] {
      TallyAllKeepsOk(table, occ[..|occ| - 1]);
      TallyKeepsOk(TallyAll(table, occ[..|occ| - 1]), occ[|occ| - 1].0, occ[|occ| - 1].1);
    }
  }

  /** How many occurrences name the field f. */
  function CountOf(occ: seq<(string, Value)>, f: string): nat {
    if occ == [] then 0 else CountOf(occ[..|occ| - 1], f) + if occ[|occ| - 1].0 == f then 1 else 0
  }

  /** How many occurrences of the field f hold None. */
  function NullsOf(occ: seq<(string, Value)>, f: string): nat {
    if occ == [] then 0
    else NullsOf(occ[..|occ| - 1], f) + if occ[|occ| - 1].0 == f && occ[|occ| - 1].1.Null? then 1 else 0
  }

  /** How many occurrences of the field f hold a value of type t. */
  function LabelCount(occ: seq<(string, Value)>, f: string, t: string): nat {
    if occ == [] then 0
    else LabelCount(occ[..|occ| - 1], f, t) + if occ[|occ| - 1].0 == f && TypeLabel(occ[|occ| - 1].1) == t then 1 else 0
  }

  /** A field is counted once per occurrence, as None once per None value, and per type once per value of that type. */
  lemma {:induction false} TallyAllCounts(table: StatsTable, occ: seq<(string, Value)>, f: string)
    ensures StatsOf(TallyAll(table, occ), f).count == StatsOf(table, f).count + CountOf(occ, f)
    ensures StatsOf(TallyAll(table, occ), f).nullCount == StatsOf(table, f).nullCount + NullsOf(occ, f)
    ensures forall t :: TypeCount(StatsOf(TallyAll(table, occ), f).types, t)
                        == TypeCount(StatsOf(table, f).types, t) + LabelCount(occ, f, t)
    decreases |occ|
  {
    if occ != [] {
      var init := occ[..|occ| - 1];
      var (n, v) := occ[|occ| - 1];
      var before := TallyAll(table, init);
      TallyAllCounts(table, init, f);
      TallyStats(before, n, v, f);
      forall t ensures TypeCount(StatsOf(TallyAll(table, occ), f).types, t)
                       == TypeCount(StatsOf(table, f).types, t) + LabelCount(occ, f, t) {
        BumpCounts(StatsOf(before, f).types, TypeLabel(v), t);
      }
    }
  }

  /** The fields of the table are those with at least one occurrence, old or new. */
  lemma {:induction false} TallyAllNames(table: StatsTable, occ: seq<(string, Value)>, f: string)
    ensures Named(TallyAll(table, occ), f) <==> Named(table, f) || CountOf(occ, f) > 0
    decreases |occ|
  {
    if occ != [] {
      TallyAllNames(table, occ[..|occ| - 1], f);
      TallyNamed(TallyAll(table, occ[..|occ| - 1]), occ[|occ| - 1].0, occ[|occ| - 1].1, f);
    }
  }

  /** A nested dict is tallied as `'dict'` under its own name, and each of its fields under `"<name>.<key>"`. */
  lemma NestedFields(doc: Record, prefix: string, i: nat, k: nat)
    requires i < |doc| && doc[i].1.Dict? && k < |doc[i].1.entries|
    requires forall j :: 0 <= j < |doc| ==> doc[j].1 < Dict(doc)
    ensures var name := FieldName(prefix, doc[i].0);
            var child := doc[i].1.entries[k];
            (name, doc[i].1) in Occurrences(doc, prefix, Dict(doc))
            && TypeLabel(doc[i].1) == "dict"
            && (name + "." + child.0, child.1) in Occurrences(doc, prefix, Dict(doc))
  {
    var name := FieldName(prefix, doc[i].0);
    var v := doc[i].1;
    var child := v.entries[k];
    var inner := Occurrences(v.entries, name + ".", v);
    OccurrencesPrefix(doc, prefix, Dict(doc), i + 1);
    var own := Occurrences(doc[..i + 1], prefix, Dict(doc));
    assert doc[..i + 1][..i] == doc[..i];
    assert own == Occurrences(doc[..i], prefix, Dict(doc)) + [(name, v)] + inner;
    OccurrenceOfEntry(v.entries, name + ".", v, k);
    assert (name + "." + child.0, child.1) in inner;
  }

  /** One more entry adds its own occurrence, then those of its nested dict. */
  lemma OccurrencesStep(doc: Record, prefix: string, parent: Value, i: nat)
    requires i < |doc|
    requires forall j :: 0 <= j < |doc| ==> doc[j].1 < parent
    ensures var name := FieldName(prefix, doc[i].0);
            Occurrences(doc[..i + 1], prefix, parent)
            == Occurrences(doc[..i], prefix, parent) + [(name, doc[i].1)]
               + if doc[i].1.Dict? then Occurrences(doc[i].1.entries, name + ".", doc[i].1) else []
  {
    assert doc[..i + 1][..i] == doc[..i];
  }

  /** The occurrences of a prefix of the entries come first. */
  lemma {:induction false} OccurrencesPrefix(doc: Record, prefix: string, parent: Value, n: nat)
    requires n <= |doc|
    requires forall i :: 0 <= i < |doc| ==> doc[i].1 < parent
    ensures forall x :: x in Occurrences(doc[..n], prefix, parent) ==> x in Occurrences(doc, prefix, parent)
    decreases |doc| - n
  {
    if n < |doc| {
      assert doc == doc[..|doc|];
      var init := doc[..|doc| - 1];
      assert init[..n] == doc[..n];
      OccurrencesPrefix(init, prefix, parent, n);
    } else {
      assert doc[..n] == doc;
    }
  }

  /** Each entry is itself an occurrence, under its field name. */
  lemma {:induction false} OccurrenceOfEntry(doc: Record, prefix: string, parent: Value, k: nat)
    requires k < |doc|
    requires forall i :: 0 <= i < |doc| ==> doc[i].1 < parent
    ensures (FieldName(prefix, doc[k].0), doc[k].1) in Occurrences(doc, prefix, parent)
  {
    OccurrencesPrefix(doc, prefix, parent, k + 1);
    assert doc[..k + 1][..k] == doc[..k];
    assert doc[..k + 1][k] == doc[k];
  }

  lemma TallyAllSnoc(table: StatsTable, occ: seq<(string, Value)>, x: (string, Value))
    ensures TallyAll(table, occ + [x]) == Tally(TallyAll(table, occ), x.0, x.1)
  {
    assert (occ + [x])[..|occ|] == occ;
  }

  /** An entry that is not a dict adds its own tally to the tallies of the entries before it. */
  lemma FlatStep(table: StatsTable, doc: Record, prefix: string, parent: Value, i: nat, before: StatsTable)
    requires i < |doc| && !doc[i].1.Dict?
    requires forall j :: 0 <= j < |doc| ==> doc[j].1 < parent
    requires before == TallyAll(table, Occurrences(doc[..i], prefix, parent))
    ensures Tally(before, FieldName(prefix, doc[i].0), doc[i].1) == TallyAll(table, Occurrences(doc[..i + 1], prefix, parent))
  {
    OccurrencesStep(doc, prefix, parent, i);
    var occ := Occurrences(doc[..i], prefix, parent) + [(FieldName(prefix, doc[i].0), doc[i].1)];
    assert occ + [] == occ;
    TallyAllSnoc(table, Occurrences(doc[..i], prefix, parent), (FieldName(prefix, doc[i].0), doc[i].1));
  }

  /** A nested dict adds its own tally, then those of its fields, to the tallies of the entries before it. */
  lemma NestedStep(table: StatsTable, doc: Record, prefix: string, parent: Value, i: nat, before: StatsTable)
    requires i < |doc| && doc[i].1.Dict?
    requires forall j :: 0 <= j < |doc| ==> doc[j].1 < parent
    requires before == TallyAll(table, Occurrences(doc[..i], prefix, parent))
    ensures var name := FieldName(prefix, doc[i].0);
            TallyAll(Tally(before, name, doc[i].1), Occurrences(doc[i].1.entries, name + ".", doc[i].1))
            == TallyAll(table, Occurrences(doc[..i + 1], prefix, parent))
  {
    var name := FieldName(prefix, doc[i].0);
    var occ := Occurrences(doc[..i], prefix, parent) + [(name, doc[i].1)];
    OccurrencesStep(doc, prefix, parent, i);
    TallyAllSnoc(table, Occurrences(doc[..i], prefix, parent), (name, doc[i].1));
    TallyAllAppend(table, occ, Occurrences(doc[i].1.entries, name + ".", doc[i].1));
  }

  // ---------------------------------------------------------------- field_stats as a mutable dict

  /** The `field_stats` dict that `_analyze_document` fills in place. */
  class FieldStatsTable {
    var entries: StatsTable

    constructor()
      ensures entries == []
    {
      entries := [];
    }

    /** `_analyze_document`: tally every entry, and recurse into nested dicts with the prefix `"<field>."`. */
    method AnalyzeDocument(doc: Record, prefix: string, ghost parent: Value)
      requires forall i :: 0 <= i < |doc| ==> doc[i].1 < parent
      modifies this
      ensures entries == TallyAll(old(entries), Occurrences(doc, prefix, parent))
      decreases parent
    {
      ghost var start := entries;
      var i := 0;
      while i < |doc|
        invariant 0 <= i <= |doc|
        invariant entries == TallyAll(start, Occurrences(doc[..i], prefix, parent))
      {
        var (key, value) := doc[i];
        var name := FieldName(prefix, key);
        ghost var before := entries;
        entries := Tally(entries, name, value);
        if value.Dict? {
          AnalyzeDocument(value.entries, name + ".", value);
          NestedStep(start, doc, prefix, parent, i, before);
        } else {
          FlatStep(start, doc, prefix, parent, i, before);
        }
        i := i + 1;
      }
      assert doc[..i] == doc;
    }
  }

  // ---------------------------------------------------------------- columns

  /** A column of the inferred schema. */
  datatype Column = Column(name: string, kind: string, nullable: bool, primaryKey: bool, sampleCount: nat)

  /** The position `max(types, key=types.get)` picks: the first of the largest tallies. */
  function MostCommon(types: seq<(string, nat)>): (i: nat)
    requires types != []
    ensures i < |types|
    ensures forall j :: 0 <= j < |types| ==> types[j].1 <= types[i].1
    ensures forall j :: 0 <= j < i ==> types[j].1 < types[i].1
  {
    if |types| == 1 then 0
    else
      var i := MostCommon(types[..|types| - 1]);
      if types[|types| - 1].1 > types[i].1 then |types| - 1 else i
  }

  /** The column of one field (lines 131-138). */
  function ColumnOf(name: string, s: FieldStats): Column
    requires s.types != []
  {
    Column(name, s.types[MostCommon(s.types)].0, s.nullCount > 0, name == "_id", s.count)
  }

  /** The columns of a well-formed table, in field order. */
  function Columns(table: StatsTable): (cols: seq<Column>)
    requires TableOk(table)
    ensures |cols| == |table|
    ensures forall i :: 0 <= i < |table| ==> cols[i].name == table[i].0
  {
    if table == [] then []
    else
      var last := table[|table| - 1];
      assert Sum(last.1.types) >= 1;
      Columns(table[..|table| - 1]) + [ColumnOf(last.0, last.1)]
  }

  /** The occurrences of every sampled document, in sampling order. */
  function SampleOccurrences(samples: seq<Record>): seq<(string, Value)> {
    if samples == [] then []
    else
      var doc := samples[|samples| - 1];
      SampleOccurrences(samples[..|samples| - 1]) + Occurrences(doc, "", Dict(doc))
  }

  /**
   * The column list of `get_table_schema`: the sampled documents analysed in
   * turn into a fresh `field_stats`, then one column per field.
   */
  method InferColumns(samples: seq<Record>) returns (columns: seq<Column>)
    ensures TableOk(TallyAll([], SampleOccurrences(samples)))
    ensures columns == Columns(TallyAll([], SampleOccurrences(samples)))
  {
    var stats := new FieldStatsTable();
    var k := 0;
    while k < |samples|
      invariant 0 <= k <= |samples|
      invariant stats.entries == TallyAll([], SampleOccurrences(samples[..k]))
    {
      var doc := samples[k];
      assert samples[..k + 1][..k] == samples[..k];
      TallyAllAppend([], SampleOccurrences(samples[..k]), Occurrences(doc, "", Dict(doc)));
      stats.AnalyzeDocument(doc, "", Dict(doc));
      k := k + 1;
    }
    assert samples[..k] == samples;
    TallyAllKeepsOk([], SampleOccurrences(samples));
    columns := Columns(stats.entries);
  }

  /**
   * What a column says about the sampled occurrences of its field: its
   * sample count is the number of occurrences; it is nullable iff some
   * occurrence is None; it is the primary key iff it is `_id`; its type
   * occurs, and no type occurs more often.
   */
  lemma ColumnMeaning(occ: seq<(string, Value)>, i: nat)
    requires TableOk(TallyAll([], occ)) && i < |TallyAll([], occ)|
    ensures var col := Columns(TallyAll([], occ))[i];
            var f := col.name;
            col.sampleCount == CountOf(occ, f)
            && (col.nullable <==> NullsOf(occ, f) > 0)
            && (col.primaryKey <==> f == "_id")
            && LabelCount(occ, f, col.kind) > 0
            && forall t :: LabelCount(occ, f, t) <= LabelCount(occ, f, col.kind)
  {
    var table := TallyAll([], occ);
    var f := table[i].0;
    var s := table[i].1;
    ColumnsAt(table, i);
    StatsAt(table, i);
    TallyAllCounts([], occ, f);
    var m := MostCommon(s.types);
    TypeCountAt(s.types, m);
    SumPositive(s.types);
    forall t ensures LabelCount(occ, f, t) <= LabelCount(occ, f, s.types[m].0) {
      NamedIff(s.types, t);
      if Named(s.types, t) {
        var j :| 0 <= j < |s.types| && s.types[j].0 == t;
        TypeCountAt(s.types, j);
      } else {
        TypeCountAbsent(s.types, t);
      }
    }
  }

  /** There is a column for a field iff the field occurs in the samples. */
  lemma ColumnsCoverFields(occ: seq<(string, Value)>, f: string)
    requires TableOk(TallyAll([], occ))
    ensures CountOf(occ, f) > 0 <==> exists i :: 0 <= i < |Columns(TallyAll([], occ))| && Columns(TallyAll([], occ))[i].name == f
  {
    var table := TallyAll([], occ);
    TallyAllNames([], occ, f);
    NamedIff(table, f);
    if CountOf(occ, f) > 0 {
      var i :| 0 <= i < |table| && table[i].0 == f;
      assert Columns(table)[i].name == f;
    }
  }

  /** Some tally of a non-empty tally list with a positive sum is positive, so the largest one is. */
  lemma {:induction false} SumPositive(types: seq<(string, nat)>)
    requires types != [] && Sum(types) >= 1
    ensures types[MostCommon(types)].1 > 0
  {
    var m := MostCommon(types);
    if types[m].1 == 0 {
      SumZero(types);
    }
  }

  lemma {:induction false} SumZero(types: seq<(string, nat)>)
    requires forall j :: 0 <= j < |types| ==> types[j].1 == 0
    ensures Sum(types) == 0
  {
    if types != [] {
      SumZero(types[1..]);
    }
  }

  lemma {:induction false} ColumnsAt(table: StatsTable, i: nat)
    requires TableOk(table) && i < |table|
    ensures table[i].1.types != [] && Columns(table)[i] == ColumnOf(table[i].0, table[i].1)
    decreases |table|
  {
    assert Sum(table[i].1.types) >= 1;
    if i < |table| - 1 {
      ColumnsAt(table[..|table| - 1], i);
    }
  }

  // ---------------------------------------------------------------- execute_query

  /** The `collection:filter` split: at the first `:`, both halves stripped; no `:` means the whole query and `{}`. */
  function ParseQuery(query: string): (r: (string, string))
    ensures ':' !in r.0
    ensures ':' !in query ==> r == (Strip(query), "{}")
  {
    if ':' in query then
      var parts := SplitFirst(query, ':');
      StripKeepsOut(parts.0, ':');
      (Strip(parts.0), Strip(parts.1))
    else
      StripKeepsOut(query, ':');
      (Strip(query), "{}")
  }

  lemma StripKeepsOut(s: string, c: char)
    requires c !in s
    ensures c !in Strip(s)
  {
    assert forall x :: x in Strip(s) ==> x in s by {
      StripInside(s);
    }
  }

  lemma StripInside(s: string)
    ensures forall x :: x in Strip(s) ==> x in s
  {
    var l := LStrip(s);
    assert forall x :: x in l ==> x in s;
    assert forall x :: x in RStrip(l) ==> x in l;
  }

  /** A query `a:b` with no `:` in a reads collection a and filter b, stripped. */
  lemma QuerySplitsAtFirstColon(a: string, b: string)
    requires ':' !in a
    ensures ParseQuery(a + ":" + b) == (Strip(a), Strip(b))
  {
    SplitFirstUnique(a, ':', b);
    assert ':' in a + ":" + b by { assert (a + ":" + b)[|a|] == ':'; }
  }

  /** `json.loads(filter_str)`, with `{}` when it raises. */
  function Filter(text: string, loads: string -> Option<Value>): (f: Value)
    ensures loads(text).None? ==> f == Dict([])
    ensures loads(text).Some? ==> f == loads(text).value
  {
    loads(text).GetOr(Dict([]))
  }

  /** `doc['_id'] = str(doc['_id'])` for each result document that has an `_id`. */
  function IdAsText(doc: Record): (r: Record)
    ensures Keys(r) == Keys(doc)
    ensures HasKey(doc, "_id") ==> Get(r, "_id") == Some(Str(PyStr(Get(doc, "_id").value)))
    ensures forall k :: k != "_id" ==> Get(r, k) == Get(doc, k)
  {
    if HasKey(doc, "_id") then
      var r := Put(doc, "_id", Str(PyStr(Get(doc, "_id").value)));
      assert forall k :: Get(r, k) == if k == "_id" then Some(Str(PyStr(Get(doc, "_id").value))) else Get(doc, k) by {
        forall k ensures Get(r, k) == if k == "_id" then Some(Str(PyStr(Get(doc, "_id").value))) else Get(doc, k) {
          GetPut(doc, "_id", Str(PyStr(Get(doc, "_id").value)), k);
        }
      }
      r
    else doc
  }

  /** The largest number of documents a query returns. */
  const QueryLimit := 1000

  function Take<T>(xs: seq<T>, n: nat): (r: seq<T>)
    ensures |r| <= n && |r| <= |xs| && r == xs[..|r|]
    ensures |xs| >= n ==> |r| == n
  {
    if |xs| <= n then xs else xs[..n]
  }

  function MapIdAsText(docs: seq<Record>): (r: seq<Record>)
    ensures |r| == |docs| && forall i :: 0 <= i < |docs| ==> r[i] == IdAsText(docs[i])
  {
    if docs == [] then [] else MapIdAsText(docs[..|docs| - 1]) + [IdAsText(docs[|docs| - 1])]
  }

  /**
   * `execute_query` with a database selected or not: the query is parsed, the
   * `find` of the named collection with the filter returns the documents
   * (at most 1000 are kept) and every `_id` is turned into text.
   */
  function ExecuteQuery(hasDb: bool, query: string, loads: string -> Option<Value>,
                        find: (string, Value) -> seq<Record>): (r: seq<Record>)
    ensures !hasDb ==> r == []
    ensures |r| <= QueryLimit
    ensures hasDb ==> var (name, text) := ParseQuery(query);
                      var found := find(name, Filter(text, loads));
                      |r| == |Take(found, QueryLimit)|
                      && forall i :: 0 <= i < |r| ==>
                           Keys(r[i]) == Keys(found[i])
                           && (HasKey(found[i], "_id") ==> Get(r[i], "_id") == Some(Str(PyStr(Get(found[i], "_id").value))))
                           && forall k :: k != "_id" ==> Get(r[i], k) == Get(found[i], k)
  {
    if !hasDb then []
    else
      var (name, text) := ParseQuery(query);
      MapIdAsText(Take(find(name, Filter(text, loads)), QueryLimit))
  }

  // ---------------------------------------------------------------- insert_data

  const NoDatabase := "未指定数据库"

  /** `{k: v for k, v in doc.items() if k != '_id' or v}`. */
  function Cleaned(doc: Record): (r: Record)
    ensures |r| <= |doc|
  {
    if doc == [] then []
    else
      var rest := Cleaned(doc[..|doc| - 1]);
      var (k, v) := doc[|doc| - 1];
      if k != "_id" || Truthy(v) then rest + [(k, v)] else rest
  }

  /** An entry survives the cleaning iff it is not `_id` or its value is truthy. */
  lemma {:induction false} CleanedKeeps(doc: Record, k: string, v: Value)
    ensures (k, v) in Cleaned(doc) <==> (k, v) in doc && (k != "_id" || Truthy(v))
  {
    if doc != [] {
      var init := doc[..|doc| - 1];
      CleanedKeeps(init, k, v);
      assert doc == init + [doc[|doc| - 1]];
      assert (k, v) in doc <==> (k, v) in init || (k, v) == doc[|doc| - 1];
    }
  }

  /** Cleaning leaves what `get` returns for every other key unchanged. */
  lemma {:induction false} CleanedOthers(doc: Record, k: string)
    requires k != "_id"
    ensures Get(Cleaned(doc), k) == Get(doc, k)
  {
    if doc != [] {
      var init := doc[..|doc| - 1];
      var e := doc[|doc| - 1];
      CleanedOthers(init, k);
      GetSnoc(init, e, k);
      assert doc == init + [e];
      if e.0 != "_id" || Truthy(e.1) {
        GetSnoc(Cleaned(init), e, k);
      }
    }
  }

  /** Cleaning a cleaned document changes nothing. */
  lemma {:induction false} CleanedIdempotent(doc: Record)
    ensures Cleaned(Cleaned(doc)) == Cleaned(doc)
  {
    if doc != [] {
      var init := doc[..|doc| - 1];
      var e := doc[|doc| - 1];
      CleanedIdempotent(init);
      if e.0 != "_id" || Truthy(e.1) {
        var c := Cleaned(init) + [e];
        assert c[..|c| - 1] == Cleaned(init);
      }
    }
  }

  /** `get` on a dict with one entry added at the end. */
  lemma {:induction false} GetSnoc(r: Record, e: (string, Value), k: string)
    ensures Get(r + [e], k) == if HasKey(r, k) then Get(r, k) else if e.0 == k then Some(e.1) else None
  {
    if r == [] {
      assert Keys([e]) == [e.0];
    } else {
      assert (r + [e])[1..] == r[1..] + [e];
      assert Keys(r) == [r[0].0] + Keys(r[1..]);
      GetSnoc(r[1..], e, k);
    }
  }

  function CleanAll(data: seq<Record>): (r: seq<Record>)
    ensures |r| == |data| && forall i :: 0 <= i < |data| ==> r[i] == Cleaned(data[i])
  {
    if data == [] then [] else CleanAll(data[..|data| - 1]) + [Cleaned(data[|data| - 1])]
  }

  /**
   * `insert_data`: nothing to insert succeeds with 0 rows; without a
   * database it fails; otherwise the cleaned documents go to `insert_many`,
   * whose count or error is reported.
   */
  function InsertData(data: seq<Record>, hasDb: bool, insertMany: seq<Record> -> Result<nat>): (r: (bool, nat, Option<string>))
    ensures data == [] ==> r == (true, 0, None)
    ensures data != [] && !hasDb ==> r == (false, 0, Some(NoDatabase))
    ensures r.0 <==> data == [] || (hasDb && insertMany(CleanAll(data)).Ok?)
    ensures !r.0 ==> r.1 == 0 && r.2.Some?
  {
    if data == [] then (true, 0, None)
    else if !hasDb then (false, 0, Some(NoDatabase))
    else match insertMany(CleanAll(data))
      case Ok(n) => (true, n, None)
      case Err(e) => (false, 0, Some(e))
  }
}
