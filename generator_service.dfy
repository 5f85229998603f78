/**
 * The generator service (backend/services/data_generator_service.py).
 * `generate_data` first reads each field's ("name", "type") with the defaults
 * "" and "string", then builds the records exactly as the standalone
 * generator does; the model normalises the fields to that shape and reuses
 * `MockGenerator.GenerateMockData`.
 */
module GeneratorService {
  import opened Wrappers
  import opened Values
  import opened MockGenerator

  /** `(f.get("name", ""), f.get("type", "string"))` as a field with both keys present. */
  function Spec(f: Record): (s: Record)
    ensures Get(s, "name") == Some(GetOr(f, "name", Str("")))
    ensures Get(s, "type") == Some(GetOr(f, "type", Str("string")))
  {
    [("name", GetOr(f, "name", Str(""))), ("type", GetOr(f, "type", Str("string")))]
  }

  /** `field_specs`, in field order. */
  function Specs(fields: seq<Record>): (ss: seq<Record>)
    ensures |ss| == |fields| && forall j :: 0 <= j < |fields| ==> ss[j] == Spec(fields[j])
  {
    if fields == [] then [] else Specs(fields[..|fields| - 1]) + [Spec(fields[|fields| - 1])]
  }

  /**
   * A normalised field never misses a key: the only error left is an
   * unhashable "type" (a list or a dict), which the generator table lookup raises.
   */
  lemma SpecError(f: Record)
    ensures var t := GetOr(f, "type", Str("string"));
      FieldError(Spec(f)) == (if t.List? then Some("TypeError: unhashable type: 'list'")
                              else if t.Dict? then Some("TypeError: unhashable type: 'dict'")
                              else None)
  {
  }

  /** A field without "name" writes under "", one with a text name under that text. */
  lemma SpecName(f: Record)
    requires NameIsText(Spec(f))
    ensures !HasKey(f, "name") ==> FieldName(Spec(f)) == ""
    ensures HasKey(f, "name") ==> FieldName(Spec(f)) == Get(f, "name").value.s
  {
  }

  /** A field without "type" is generated as "string". */
  lemma SpecType(f: Record, i: nat, j: nat, gen: ValueSource)
    requires !HasKey(f, "type")
    ensures FieldPair(Spec(f), i, j, gen).1 == gen(Str("string"), i, j)
  {
  }

  /**
   * `generate_data`: `count` records over the normalised fields, or the
   * TypeError the first unhashable type raises while building the first record.
   */
  method GenerateData(fields: seq<Record>, count: int, gen: ValueSource) returns (r: Result<seq<Record>>)
    requires forall j :: 0 <= j < |fields| ==> NameIsText(Spec(fields[j]))
    ensures r == MockData(Specs(fields), count, gen)
  {
    var specs := Specs(fields);
    r := GenerateMockData(specs, count, gen);
  }

  predicate Hashable(v: Value) {
    !v.List? && !v.Dict?
  }

  /** Without list or dict types nothing raises, and `generate_data` returns exactly `count` records. */
  lemma NoErrorWithHashableTypes(fields: seq<Record>)
    requires forall j :: 0 <= j < |fields| ==> Hashable(GetOr(fields[j], "type", Str("string")))
    ensures FirstError(Specs(fields)).None?
  {
    forall j | 0 <= j < |fields| ensures FieldError(Specs(fields)[j]).None? {
      SpecError(fields[j]);
    }
  }

  // ---------------------------------------------------------------- generate_data on a decoded value

  predicate AllDicts(items: seq<Value>) {
    forall i :: 0 <= i < |items| ==> items[i].Dict?
  }

  /** The first field that is not a dict: `f.get` raises on it while the specs are read. */
  function FirstNonDict(items: seq<Value>): (r: Option<Value>)
    ensures r.None? <==> AllDicts(items)
    ensures r.Some? ==> !r.value.Dict? && r.value in items
  {
    if items == [] then None else if !items[0].Dict? then Some(items[0]) else FirstNonDict(items[1..])
  }

  function Entries(items: seq<Value>): (rs: seq<Record>)
    requires AllDicts(items)
    ensures |rs| == |items| && forall i :: 0 <= i < |items| ==> rs[i] == items[i].entries
  {
    seq(|items|, i requires 0 <= i < |items| => items[i].entries)
  }

  /** Fields the model represents: a list of dicts names every column with text (other key types are not modelled). */
  predicate Representable(fields: Value) {
    fields.List? && AllDicts(fields.items) ==>
      forall i :: 0 <= i < |fields.items| ==> NameIsText(Spec(fields.items[i].entries))
  }

  /** `str(e)` of an exception the generator reports as `<type>: <message>`. */
  function ExceptionMessage(m: string): string {
    if |m| >= 11 && m[..11] == "TypeError: " then m[11..]
    else if |m| >= 10 && m[..10] == "KeyError: " then m[10..]
    else m
  }

  /**
   * `generate_data(fields, count)` on the decoded `fields` value, with `str(e)`
   * of what it raises. The specs are read before any record is built, so a
   * field that is not a dict raises even for a count of zero; iterating a
   * non-empty dict or text yields text, whose `.get` raises; a number, a
   * boolean or null cannot be iterated.
   */
  function GenerateFromValue(fields: Value, count: int, gen: ValueSource): (r: Result<seq<Record>>)
    requires Representable(fields)
    ensures r.Ok? ==> |r.value| == if count > 0 then count else 0
    ensures fields.List? && AllDicts(fields.items) ==>
              r == (match MockData(Specs(Entries(fields.items)), count, gen)
                    case Ok(rows) => Ok(rows)
                    case Err(m) => Err(ExceptionMessage(m)))
    ensures fields.List? && !AllDicts(fields.items) ==> r == Err(NoGet(FirstNonDict(fields.items).value))
  {
    match fields
    case List(items) =>
      (match FirstNonDict(items)
       case Some(v) => Err(NoGet(v))
       case None =>
         match MockData(Specs(Entries(items)), count, gen)
         case Ok(rows) => Ok(rows)
         case Err(m) => Err(ExceptionMessage(m)))
    case Dict(es) => if es == [] then MockData([], count, gen) else Err(NoGet(Str("")))
    case Str(s) => if s == "" then MockData([], count, gen) else Err(NoGet(Str("")))
    case _ => Err("'" + TypeName(fields) + "' object is not iterable")
  }

  /** With list or dict types ruled out, a list of dicts always generates, `count` records or none. */
  lemma GenerateFromValueSucceeds(items: seq<Value>, count: int, gen: ValueSource)
    requires AllDicts(items) && Representable(List(items))
    requires forall j :: 0 <= j < |items| ==> Hashable(GetOr(items[j].entries, "type", Str("string")))
    ensures GenerateFromValue(List(items), count, gen).Ok?
  {
    NoErrorWithHashableTypes(Entries(items));
  }
}
