/**
 * The standalone generator (backend/data_generator.py): the data-type
 * catalogue, the per-type value dispatch and `generate_mock_data`.
 *
 * Randomness is a parameter: `Rng` gives the raw draws of one call, from which
 * the phone, bank card, identity card and MAC generators build their text,
 * and the value every other generator yields.
 */
module MockGenerator {
  import opened Wrappers
  import opened Values
  import opened Text
  import opened Formats

  datatype DataType = DataType(id: string, name: string, category: string)

  /** `DATA_TYPES`, in order (the icons are display-only and not modelled). */
  const DataTypes: seq<DataType> := [
    DataType("uuid", "UUID", "identifier"),
    DataType("number", "数字", "identifier"),
    DataType("string", "随机字符串", "identifier"),
    DataType("boolean", "布尔值", "identifier"),
    DataType("chineseName", "中文姓名", "personal"),
    DataType("englishName", "英文姓名", "personal"),
    DataType("email", "邮箱", "personal"),
    DataType("chinesePhone", "中国手机号", "personal"),
    DataType("phone", "国际手机号", "personal"),
    DataType("chineseIdCard", "身份证号", "personal"),
    DataType("age", "年龄", "personal"),
    DataType("gender", "性别", "personal"),
    DataType("chineseAddress", "中国地址", "address"),
    DataType("province", "省份", "address"),
    DataType("city", "城市", "address"),
    DataType("zipcode", "邮编", "address"),
    DataType("date", "日期", "datetime"),
    DataType("datetime", "日期时间", "datetime"),
    DataType("timestamp", "时间戳", "datetime"),
    DataType("bankCard", "银行卡号", "finance"),
    DataType("amount", "金额", "finance"),
    DataType("url", "URL", "internet"),
    DataType("ip", "IPv4", "internet"),
    DataType("ipv6", "IPv6", "internet"),
    DataType("mac", "MAC地址", "internet"),
    DataType("domain", "域名", "internet"),
    DataType("company", "公司名称", "company"),
    DataType("jobTitle", "职位", "company"),
    DataType("paragraph", "段落", "text"),
    DataType("sentence", "句子", "text"),
    DataType("word", "词语", "text")]

  /** The keys of the generator table inside `generate_value`. */
  const GeneratorIds: set<string> := {
    "uuid", "chineseName", "englishName", "email", "chinesePhone", "phone", "chineseIdCard", "age",
    "gender", "number", "string", "boolean", "date", "datetime", "timestamp", "chineseAddress",
    "province", "city", "zipcode", "url", "ip", "ipv6", "mac", "domain", "bankCard", "amount",
    "company", "jobTitle", "paragraph", "sentence", "word"}

  /** The randomness of one `generate_value` call. */
  datatype Rng = Rng(raw: nat -> nat, other: string -> Value)

  /** The generators whose text the model builds from raw draws. */
  const Formatted: set<string> := {"chinesePhone", "bankCard", "chineseIdCard", "mac"}

  function FormattedValue(t: string, rng: Rng): Value
    requires t in Formatted
  {
    var raw := rng.raw;
    if t == "chinesePhone" then
      Str(ChinesePhone(Choice(raw(0), PhonePrefixes), RandInt(raw(1), 10000000, 99999999)))
    else if t == "bankCard" then
      Str(BankCard(Choice(raw(0), BankPrefixes), DrawInts(raw, 1, 12, 0, 9)))
    else if t == "chineseIdCard" then
      Str(IdCard(Choice(raw(0), AreaCodes), RandInt(raw(1), 1970, 2005), RandInt(raw(2), 1, 12),
                 RandInt(raw(3), 1, 28), RandInt(raw(4), 100, 999), RandInt(raw(5), 0, 9)))
    else
      Str(Mac(DrawInts(raw, 0, 6, 0, 255)))
  }

  /** `generate_value`: the table's generator for a listed type, "" for any other. */
  function GenerateValue(t: string, rng: Rng): (v: Value)
    ensures t !in GeneratorIds ==> v == Str("")
    ensures t in Formatted ==> v == FormattedValue(t, rng)
    ensures t in GeneratorIds - Formatted ==> v == rng.other(t)
  {
    if t in Formatted then FormattedValue(t, rng)
    else if t in GeneratorIds then rng.other(t)
    else Str("")
  }

  /** Every catalogue entry has a generator, so a listed type never falls through to "". */
  lemma CatalogueCoversGenerators()
    ensures forall i :: 0 <= i < |DataTypes| ==> DataTypes[i].id in GeneratorIds
    ensures Formatted <= GeneratorIds
  {
  }

  /** A generated mobile number is 11 digits behind a listed prefix; a bank card number is 16 digits behind a listed prefix. */
  lemma PhoneAndCardValues(rng: Rng)
    ensures var v := GenerateValue("chinesePhone", rng);
      v.Str? && |v.s| == 11 && AllDigits(v.s) && v.s[..3] in PhonePrefixes
    ensures var v := GenerateValue("bankCard", rng);
      v.Str? && |v.s| == 16 && AllDigits(v.s) && v.s[..4] in BankPrefixes
  {
  }

  /** The field's "name", when present, is text (other key types are not modelled). */
  predicate NameIsText(field: Record) {
    Get(field, "name").Some? ==> Get(field, "name").value.Str?
  }

  /**
   * What `record[field["name"]] = generate_value(field["type"])` raises: the
   * value is computed first, so a missing "type" (or one that cannot be
   * hashed) is reported before a missing "name".
   */
  function FieldError(field: Record): (e: Option<string>)
    ensures e.None? <==> HasKey(field, "type") && HasKey(field, "name")
                         && !Get(field, "type").value.List? && !Get(field, "type").value.Dict?
  {
    match Get(field, "type")
    case None => Some("KeyError: 'type'")
    case Some(t) =>
      if t.List? then Some("TypeError: unhashable type: 'list'")
      else if t.Dict? then Some("TypeError: unhashable type: 'dict'")
      else if !HasKey(field, "name") then Some("KeyError: 'name'")
      else None
  }

  /** The error of the first field that raises, if any. */
  function FirstError(fields: seq<Record>): (e: Option<string>)
    ensures e.None? <==> forall j :: 0 <= j < |fields| ==> FieldError(fields[j]).None?
  {
    if fields == [] then None
    else if FieldError(fields[0]).Some? then FieldError(fields[0])
    else FirstError(fields[1..])
  }

  lemma {:induction false} FirstErrorAt(fields: seq<Record>, j: nat)
    requires j < |fields| && FieldError(fields[j]).Some?
    requires forall k :: 0 <= k < j ==> FieldError(fields[k]).None?
    ensures FirstError(fields) == FieldError(fields[j])
  {
    if j > 0 {
      FirstErrorAt(fields[1..], j - 1);
    }
  }

  /** The value `generate_value(field["type"])` yields for field j of record i. */
  type ValueSource = (Value, nat, nat) -> Value

  /** `generate_value` with fresh randomness `rngs(i, j)` per call; a type that is not text matches no generator. */
  function Generated(rngs: (nat, nat) -> Rng): ValueSource {
    (t: Value, i: nat, j: nat) => if t.Str? then GenerateValue(t.s, rngs(i, j)) else Str("")
  }

  /** The text of the field's "name"; only read once FieldError has ruled out a missing name. */
  function FieldName(field: Record): string {
    match Get(field, "name")
    case Some(Str(s)) => s
    case _ => ""
  }

  /** The key and the value field j of record i contributes. */
  function FieldPair(field: Record, i: nat, j: nat, gen: ValueSource): (string, Value) {
    (FieldName(field), gen(GetOr(field, "type", Null), i, j))
  }

  /** The pairs record `i` assigns, in field order. */
  function Pairs(fields: seq<Record>, i: nat, gen: ValueSource): (ps: seq<(string, Value)>)
    ensures |ps| == |fields| && forall j :: 0 <= j < |fields| ==> ps[j] == FieldPair(fields[j], i, j, gen)
  {
    seq(|fields|, j requires 0 <= j < |fields| => FieldPair(fields[j], i, j, gen))
  }

  /**
   * With the generators as the value source, a well-formed field j of record i
   * contributes its name and its type's generated value, "" for an unlisted type.
   */
  lemma GeneratedPairs(fields: seq<Record>, i: nat, rngs: (nat, nat) -> Rng, j: nat)
    requires j < |fields| && NameIsText(fields[j]) && FieldError(fields[j]).None?
    ensures Pairs(fields, i, Generated(rngs))[j].0 == Get(fields[j], "name").value.s
    ensures var t := Get(fields[j], "type").value;
      Pairs(fields, i, Generated(rngs))[j].1 == (if t.Str? then GenerateValue(t.s, rngs(i, j)) else Str(""))
    ensures var t := Get(fields[j], "type").value;
      t.Str? && t.s !in GeneratorIds ==> Pairs(fields, i, Generated(rngs))[j].1 == Str("")
  {
  }

  lemma PairsExtend(fields: seq<Record>, j: nat, i: nat, gen: ValueSource)
    requires j < |fields|
    ensures Assign(Pairs(fields[..j + 1], i, gen))
            == Put(Assign(Pairs(fields[..j], i, gen)), FieldPair(fields[j], i, j, gen).0, FieldPair(fields[j], i, j, gen).1)
  {
    var ps := Pairs(fields[..j + 1], i, gen);
    assert ps[..j] == Pairs(fields[..j], i, gen);
  }

  /** The first `n` records: record i assigns `Pairs(fields, i, gen)` in order. */
  function Rows(fields: seq<Record>, n: nat, gen: ValueSource): (rs: seq<Record>)
    ensures |rs| == n && forall i :: 0 <= i < n ==> rs[i] == Assign(Pairs(fields, i, gen))
  {
    if n == 0 then [] else Rows(fields, n - 1, gen) + [Assign(Pairs(fields, n - 1, gen))]
  }

  /** One more field of the prefix: it either raises the first error of all fields or extends the error-free prefix. */
  lemma FirstErrorStep(fields: seq<Record>, j: nat)
    requires j < |fields| && FirstError(fields[..j]).None?
    ensures FieldError(fields[j]).Some? ==> FirstError(fields) == FieldError(fields[j])
    ensures FieldError(fields[j]).None? ==> FirstError(fields[..j + 1]).None?
  {
    if FieldError(fields[j]).Some? {
      PrefixFieldsOk(fields, j);
      FirstErrorAt(fields, j);
    } else {
      CleanPrefixExtends(fields, j);
    }
  }

  /** An error-free prefix followed by an error-free field is an error-free prefix. */
  lemma CleanPrefixExtends(fields: seq<Record>, j: nat)
    requires j < |fields| && FirstError(fields[..j]).None? && FieldError(fields[j]).None?
    ensures FirstError(fields[..j + 1]).None?
  {
    PrefixFieldsOk(fields, j);
    var ok := (f: Record) => FieldError(f).None?;
    PrefixExtends(fields, j, ok);
  }

  /** A property of every element up to j holds of every element of the prefix through j. */
  lemma PrefixExtends<T>(s: seq<T>, j: nat, ok: T -> bool)
    requires j < |s| && forall k :: 0 <= k <= j ==> ok(s[k])
    ensures AllOk(s[..j + 1], ok)
  {
  }

  /** Every element satisfies `ok`. */
  predicate AllOk<T>(s: seq<T>, ok: T -> bool) {
    forall k :: 0 <= k < |s| ==> ok(s[k])
  }

  lemma PrefixFieldsOk(fields: seq<Record>, j: nat)
    requires j <= |fields| && FirstError(fields[..j]).None?
    ensures forall k :: 0 <= k < j ==> FieldError(fields[k]).None?
  {
    assert forall k :: 0 <= k < j ==> fields[..j][k] == fields[k];
  }

  /**
   * What `generate_mock_data` returns: no records for a count of zero or less,
   * else the error the first record raises, else `count` records.
   */
  function MockData(fields: seq<Record>, count: int, gen: ValueSource): Result<seq<Record>> {
    if count <= 0 then Ok([])
    else if FirstError(fields).Some? then Err(FirstError(fields).value)
    else Ok(Rows(fields, count, gen))
  }

  /** `generate_mock_data`: `count` records built field by field, or the error the first record raises. */
  method GenerateMockData(fields: seq<Record>, count: int, gen: ValueSource) returns (r: Result<seq<Record>>)
    requires forall j :: 0 <= j < |fields| ==> NameIsText(fields[j])
    ensures r == MockData(fields, count, gen)
  {
    var result: seq<Record> := [];
    var i := 0;
    while i < count
      invariant 0 <= i && (count > 0 ==> i <= count) && (count <= 0 ==> i == 0)
      invariant i > 0 ==> FirstError(fields).None?
      invariant result == Rows(fields, i, gen)
    {
      var record: Record := [];
      var j := 0;
      while j < |fields|
        invariant 0 <= j <= |fields|
        invariant FirstError(fields[..j]).None?
        invariant record == Assign(Pairs(fields[..j], i, gen))
      {
        var err := FieldError(fields[j]);
        FirstErrorStep(fields, j);
        if err.Some? {
          return Err(err.value);
        }
        var pair := FieldPair(fields[j], i, j, gen);
        PairsExtend(fields, j, i, gen);
        record := Put(record, pair.0, pair.1);
        j := j + 1;
      }
      assert fields[..|fields|] == fields;
      result := result + [record];
      i := i + 1;
    }
    r := Ok(result);
  }

  /** The key each field writes to, in field order. */
  function FieldNames(fields: seq<Record>): (ns: seq<string>)
    ensures |ns| == |fields| && forall j :: 0 <= j < |fields| ==> ns[j] == FieldName(fields[j])
  {
    if fields == [] then [] else FieldNames(fields[..|fields| - 1]) + [FieldName(fields[|fields| - 1])]
  }

  /** A well-formed field's key is the text of its "name". */
  lemma FieldNameOfWellFormed(field: Record)
    requires NameIsText(field) && FieldError(field).None?
    ensures FieldName(field) == Get(field, "name").value.s
  {
  }

  /** The keys the pairs write are the fields' names. */
  lemma PairNames(fields: seq<Record>, i: nat, gen: ValueSource)
    ensures Names(Pairs(fields, i, gen)) == FieldNames(fields)
  {
    var ps := Pairs(fields, i, gen);
    assert forall j :: 0 <= j < |ps| ==> Names(ps)[j] == FieldNames(fields)[j];
  }

  /** Each generated record has a key for exactly the fields' names, each once. */
  lemma RecordShape(fields: seq<Record>, i: nat, gen: ValueSource, key: string)
    ensures var rec := Assign(Pairs(fields, i, gen));
      (HasKey(rec, key) <==> key in FieldNames(fields)) && UniqueKeys(rec) && |rec| <= |fields|
  {
    PairNames(fields, i, gen);
    AssignKeys(Pairs(fields, i, gen), key);
    AssignUnique(Pairs(fields, i, gen));
  }

  /** With distinct names the record's keys are the names in field order. */
  lemma RecordKeyOrder(fields: seq<Record>, i: nat, gen: ValueSource)
    requires forall j, k :: 0 <= j < k < |fields| ==> FieldName(fields[j]) != FieldName(fields[k])
    ensures Keys(Assign(Pairs(fields, i, gen))) == FieldNames(fields)
  {
    PairNames(fields, i, gen);
    AssignDistinct(Pairs(fields, i, gen));
  }

  /** The value under each key is the one the last field with that name generated. */
  lemma RecordValues(fields: seq<Record>, i: nat, gen: ValueSource, key: string)
    ensures Get(Assign(Pairs(fields, i, gen)), key) == LastValue(Pairs(fields, i, gen), key)
  {
    AssignGet(Pairs(fields, i, gen), key);
  }
}
