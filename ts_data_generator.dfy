/**
 * The browser-side generator (lib/data-generator.ts): the catalogue filter
 * by category, the `generateValue` switch and `generateMockData`. The
 * catalogue lists the same entries, in the same order, as the standalone
 * Python generator, so it is `MockGenerator.DataTypes`.
 *
 * `Math.random()` is a parameter: a `Draws` value gives the raw draws of one
 * `generateValue` call, the hex digits of a UUID, the coin of `boolean` and
 * the text of the generators built from word lists.
 */
module BrowserGenerator {
  import opened Wrappers
  import opened Text
  import opened Values
  import opened Formats
  import MockGenerator

  // ---------------------------------------------------------------- getDataTypesByCategory

  /** `dataTypes.filter(dt => dt.category === category)` over any catalogue. */
  function ByCategory(types: seq<MockGenerator.DataType>, category: string): (r: seq<MockGenerator.DataType>)
    ensures |r| <= |types|
    ensures forall d :: d in r <==> d in types && d.category == category
  {
    if types == [] then []
    else (if types[0].category == category then [types[0]] else []) + ByCategory(types[1..], category)
  }

  /** Filtering distributes over concatenation, so the entries kept stay in catalogue order. */
  lemma {:induction false} ByCategoryConcat(a: seq<MockGenerator.DataType>, b: seq<MockGenerator.DataType>, category: string)
    ensures ByCategory(a + b, category) == ByCategory(a, category) + ByCategory(b, category)
  {
    if a == [] {
      assert a + b == b;
    } else {
      assert (a + b)[0] == a[0] && (a + b)[1..] == a[1..] + b;
      ByCategoryConcat(a[1..], b, category);
    }
  }

  /** The number of entries of that category. */
  function CategoryCount(types: seq<MockGenerator.DataType>, category: string): nat {
    if types == [] then 0 else (if types[0].category == category then 1 else 0) + CategoryCount(types[1..], category)
  }

  /** The filter keeps exactly as many entries as carry the category. */
  lemma {:induction false} ByCategoryCount(types: seq<MockGenerator.DataType>, category: string)
    ensures |ByCategory(types, category)| == CategoryCount(types, category)
  {
    if types != [] {
      ByCategoryCount(types[1..], category);
    }
  }

  /** `getDataTypesByCategory`. */
  function GetDataTypesByCategory(category: string): seq<MockGenerator.DataType> {
    ByCategory(MockGenerator.DataTypes, category)
  }

  /** The result holds exactly the catalogue entries of that category. */
  lemma GetDataTypesByCategoryContents(category: string)
    ensures forall d :: d in GetDataTypesByCategory(category) <==> d in MockGenerator.DataTypes && d.category == category
    ensures |GetDataTypesByCategory(category)| == CategoryCount(MockGenerator.DataTypes, category)
  {
    ByCategoryCount(MockGenerator.DataTypes, category);
  }

  // ---------------------------------------------------------------- generateValue

  /** The randomness of one `generateValue` call. */
  datatype Draws = Draws(raw: nat -> nat, nibble: nat -> Nibble, coin: bool, other: string -> string)

  /** The cases whose result the model builds from the draws. */
  const Built: set<string> := {"uuid", "chinesePhone", "chineseIdCard", "mac", "bankCard", "age", "number", "boolean", "zipcode"}

  function BuiltValue(t: string, d: Draws): Value
    requires t in Built
  {
    var raw := d.raw;
    if t == "uuid" then Str(Uuid(d.nibble))
    else if t == "chinesePhone" then Str(ChinesePhone(Choice(raw(0), PhonePrefixes), RandInt(raw(1), 10000000, 99999999)))
    else if t == "chineseIdCard" then
      Str(IdCard(Choice(raw(0), AreaCodes), RandInt(raw(1), 1970, 2005), RandInt(raw(2), 1, 12),
                 RandInt(raw(3), 1, 28), RandInt(raw(4), 100, 999), RandInt(raw(5), 0, 9)))
    else if t == "mac" then Str(Mac(DrawInts(raw, 0, 6, 0, 255)))
    else if t == "bankCard" then Str(BankCard(Choice(raw(0), BankPrefixes), DrawInts(raw, 1, 12, 0, 9)))
    else if t == "age" then Int(RandInt(raw(0), 18, 65))
    else if t == "number" then Int(RandInt(raw(0), 1, 100000))
    else if t == "boolean" then Bool(d.coin)
    else Str(NatToDecimal(RandInt(raw(0), 100000, 999999)))
  }

  /**
   * `generateValue`: a case of the switch yields its generator's value (a
   * number for `age` and `number`, a boolean for `boolean`, text otherwise);
   * any other type yields "".
   */
  function GenerateValue(t: string, d: Draws): (v: Value)
    ensures t !in MockGenerator.GeneratorIds ==> v == Str("")
    ensures t in MockGenerator.GeneratorIds && t !in Built ==> v == Str(d.other(t))
    ensures v.Int? <==> t == "age" || t == "number"
    ensures v.Bool? <==> t == "boolean"
  {
    if t in Built then BuiltValue(t, d)
    else if t in MockGenerator.GeneratorIds then Str(d.other(t))
    else Str("")
  }

  /** Every catalogue id has a case of its own, so no listed type falls through to "". */
  lemma CatalogueHasCases()
    ensures forall i :: 0 <= i < |MockGenerator.DataTypes| ==> MockGenerator.DataTypes[i].id in MockGenerator.GeneratorIds
    ensures Built <= MockGenerator.GeneratorIds
  {
    MockGenerator.CatalogueCoversGenerators();
  }

  /** `generateUUID` follows the version-4 layout of section 4.4 of RFC 4122. */
  lemma UuidValue(d: Draws)
    ensures var v := GenerateValue("uuid", d);
            v.Str? && |v.s| == 36 && v.s[8] == '-' && v.s[13] == '-' && v.s[18] == '-' && v.s[23] == '-'
            && v.s[14] == '4' && v.s[19] in "89ab"
  {
    UuidShape(d.nibble);
  }

  /** Phone numbers are 11 digits, bank cards 16 and identity cards 18, each behind a listed prefix. */
  lemma DigitValues(d: Draws)
    ensures var v := GenerateValue("chinesePhone", d); v.Str? && |v.s| == 11 && AllDigits(v.s) && v.s[..3] in PhonePrefixes
    ensures var v := GenerateValue("bankCard", d); v.Str? && |v.s| == 16 && AllDigits(v.s) && v.s[..4] in BankPrefixes
    ensures var v := GenerateValue("chineseIdCard", d); v.Str? && |v.s| == 18 && AllDigits(v.s) && v.s[..6] in AreaCodes
  {
  }

  /** A MAC address is 17 characters: six upper-case two-digit hex groups joined by `:`. */
  lemma MacValue(d: Draws)
    ensures var v := GenerateValue("mac", d);
            v.Str? && |v.s| == 17 && |Split(v.s, ':')| == 6
            && forall i :: 0 <= i < 6 ==> IsMacGroup(Split(v.s, ':')[i])
  {
    MacShape(DrawInts(d.raw, 0, 6, 0, 255));
  }

  /** Ages lie in 18..65, numbers in 1..100000, and a zip code is six digits. */
  lemma RangeValues(d: Draws)
    ensures var v := GenerateValue("age", d); 18 <= v.i <= 65
    ensures var v := GenerateValue("number", d); 1 <= v.i <= 100000
    ensures var v := GenerateValue("zipcode", d); v.Str? && |v.s| == 6 && AllDigits(v.s)
  {
    var n := RandInt(d.raw(0), 100000, 999999);
    PowersOfTen();
    assert Pow10(6) == 1000000 && Pow10(5) == 100000;
    DecimalLength(n, 6);
  }

  // ---------------------------------------------------------------- generateMockData

  /** A configured field: its name and its type id. */
  datatype FieldSpec = FieldSpec(name: string, kind: string)

  /** The pairs record `i` assigns, in field order, with fresh draws per value. */
  function RecordPairs(fields: seq<FieldSpec>, i: nat, draws: (nat, nat) -> Draws): (ps: seq<(string, Value)>)
    ensures |ps| == |fields|
    ensures forall j :: 0 <= j < |fields| ==> ps[j] == (fields[j].name, GenerateValue(fields[j].kind, draws(i, j)))
  {
    seq(|fields|, j requires 0 <= j < |fields| => (fields[j].name, GenerateValue(fields[j].kind, draws(i, j))))
  }

  function FieldNames(fields: seq<FieldSpec>): (ns: seq<string>)
    ensures |ns| == |fields| && forall j :: 0 <= j < |fields| ==> ns[j] == fields[j].name
  {
    seq(|fields|, j requires 0 <= j < |fields| => fields[j].name)
  }

  /**
   * `generateMockData`: `Array(count)` throws a RangeError for a negative
   * count; otherwise `count` records, each assigning `record[field.name]` in
   * field order.
   */
  function GenerateMockData(fields: seq<FieldSpec>, count: int, draws: (nat, nat) -> Draws): (r: Result<seq<Record>>)
    ensures count < 0 <==> r.Err?
    ensures r.Ok? ==> |r.value| == count
  {
    if count < 0 then Err("Invalid array length")
    else Ok(seq(count, i requires 0 <= i < count => Assign(RecordPairs(fields, i, draws))))
  }

  /**
   * Each record has a key for exactly the field names, none twice; the value
   * under a key is the one the last field of that name generated; with
   * distinct names the keys are created in field order.
   */
  lemma MockDataRecords(fields: seq<FieldSpec>, count: int, draws: (nat, nat) -> Draws, i: nat, k: string)
    requires 0 <= i < count
    ensures var rec := GenerateMockData(fields, count, draws).value[i];
            (HasKey(rec, k) <==> k in FieldNames(fields)) && UniqueKeys(rec)
            && Get(rec, k) == LastValue(RecordPairs(fields, i, draws), k)
    ensures (forall a, b :: 0 <= a < b < |fields| ==> fields[a].name != fields[b].name) ==>
              Keys(GenerateMockData(fields, count, draws).value[i]) == FieldNames(fields)
  {
    var ps := RecordPairs(fields, i, draws);
    assert GenerateMockData(fields, count, draws).value[i] == Assign(ps);
    assert Names(ps) == FieldNames(fields);
    AssignKeys(ps, k);
    AssignUnique(ps);
    AssignGet(ps, k);
    if forall a, b :: 0 <= a < b < |fields| ==> fields[a].name != fields[b].name {
      AssignDistinct(ps);
    }
  }

  /**
   * Enumerated (by `Object.keys` or `JSON.stringify`), a record with distinct
   * field names lists each name once, the array-index names first in
   * ascending order and the others in field order.
   */
  lemma MockDataJsonKeys(fields: seq<FieldSpec>, count: int, draws: (nat, nat) -> Draws, i: nat)
    requires 0 <= i < count
    requires forall a, b :: 0 <= a < b < |fields| ==> fields[a].name != fields[b].name
    ensures var js := JsKeyOrder(Keys(GenerateMockData(fields, count, draws).value[i]));
            multiset(js) == multiset(FieldNames(fields)) && OtherKeys(js) == OtherKeys(FieldNames(fields))
            && forall a, b :: 0 <= a < b < |js| && IsArrayIndex(js[b]) ==>
                 IsArrayIndex(js[a]) && IndexValue(js[a]) <= IndexValue(js[b])
  {
    var ks := Keys(GenerateMockData(fields, count, draws).value[i]);
    MockDataRecords(fields, count, draws, i, "");
    JsKeyOrderPermutes(ks);
    JsKeyOrderOthers(ks);
    JsKeyOrderIndicesFirst(ks);
  }

  /** An unknown type fills its column with "" in every record. */
  lemma UnknownTypeColumn(fields: seq<FieldSpec>, count: int, draws: (nat, nat) -> Draws, i: nat, j: nat)
    requires 0 <= i < count && j < |fields| && fields[j].kind !in MockGenerator.GeneratorIds
    requires forall b :: j < b < |fields| ==> fields[b].name != fields[j].name
    ensures Get(GenerateMockData(fields, count, draws).value[i], fields[j].name) == Some(Str(""))
  {
    MockDataRecords(fields, count, draws, i, fields[j].name);
    LastValueAt(RecordPairs(fields, i, draws), j);
  }

  /** The last pair of a name gives its value. */
  lemma {:induction false} LastValueAt(ps: seq<(string, Value)>, j: nat)
    requires j < |ps| && forall b :: j < b < |ps| ==> ps[b].0 != ps[j].0
    ensures LastValue(ps, ps[j].0) == Some(ps[j].1)
  {
    if j < |ps| - 1 {
      LastValueAt(ps[..|ps| - 1], j);
    }
  }
}
