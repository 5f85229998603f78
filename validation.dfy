/**
 * The rule-based validator (backend/services/validation_service.py): the
 * single-rule validators, validate_field over a rule list, validate_record
 * over a record, validate_records with the cross-record uniqueness check, and
 * the summary counts. Regular-expression matching is a parameter.
 *
 * validate_field hands each rule to its validator both by position and as
 * `**rule`, so a rule that carries the validator's own parameter raises a
 * TypeError. `RuleCheckAsWritten` keeps that behaviour; `RuleCheck` is the
 * evidently intended dispatch, and everything else uses it.
 */
module Validation {
  import opened Wrappers
  import opened Values
  import opened Text

  /** The `(valid, error)` pair a validator returns; `error` is Null when it passes. */
  datatype Outcome = Outcome(valid: bool, error: Value)

  const Pass := Outcome(true, Null)

  /** re.match(pattern, text): whether it matches, or None where the pattern does not compile. */
  type Matcher = (string, string) -> Option<bool>

  /** `kwargs.get('message', default)`. */
  function Message(kwargs: Record, default: string): Value {
    GetOr(kwargs, "message", Str(default))
  }

  function Fail(kwargs: Record, default: string): (o: Outcome)
    ensures !o.valid
  {
    Outcome(false, Message(kwargs, default))
  }

  /** validate_required: only None, '' and the empty list and dict fail. */
  function Required(value: Value, kwargs: Record): (o: Outcome)
    ensures o.valid <==> Truthy(value) || value.Bool? || value.Int?
    ensures !o.valid ==> o.error == Message(kwargs, "此字段为必填项")
  {
    if value.Null? || value == Str("") || value == List([]) || value == Dict([]) then Fail(kwargs, "此字段为必填项")
    else Pass
  }

  const TypeNames: seq<string> := ["string", "integer", "float", "boolean", "list", "dict"]

  /** isinstance against the type the name stands for; bool is a subclass of int. */
  predicate IsInstance(v: Value, t: string) {
    if t == "string" then v.Str?
    else if t == "integer" || t == "float" then v.Int? || v.Bool?
    else if t == "boolean" then v.Bool?
    else if t == "list" then v.List?
    else v.Dict?
  }

  /** validate_type: an expected type outside the table passes; a list or dict as the name raises. */
  function TypeCheck(value: Value, expected: Value, kwargs: Record): (r: Result<Outcome>)
    ensures r.Err? <==> expected.List? || expected.Dict?
    ensures r.Ok? ==> (r.value.valid <==> !expected.Str? || expected.s !in TypeNames || IsInstance(value, expected.s))
    ensures r.Ok? && !r.value.valid ==> r.value.error == Message(kwargs, "类型必须为 " + expected.s)
  {
    if expected.List? || expected.Dict? then Err(Unhashable(expected))
    else if !expected.Str? || expected.s !in TypeNames then Ok(Pass)
    else if IsInstance(value, expected.s) then Ok(Pass)
    else Ok(Fail(kwargs, "类型必须为 " + expected.s))
  }

  /** `len(str(v))`, or the number of items of a list or dict. */
  function Length(v: Value): nat {
    match v
    case List(items) => |items|
    case Dict(entries) => |entries|
    case _ => |PyStr(v)|
  }

  /** Whether a length meets the bounds a rule gives (Null means no bound). */
  predicate WithinLength(n: nat, exact: Value, lo: Value, hi: Value)
    requires lo.Null? || Numeric(lo)
    requires hi.Null? || Numeric(hi)
  {
    (exact.Null? || PyEq(Int(n), exact)) && (lo.Null? || Number(lo) <= n) && (hi.Null? || n <= Number(hi))
  }

  /** validate_length: exact, then minimum, then maximum; the first failure's message is returned. */
  function LengthCheck(value: Value, kwargs: Record): (r: Result<Outcome>)
    ensures value.Null? ==> r == Ok(Pass)
    ensures var exact := GetOr(kwargs, "exact_len", Null);
      r.Ok? && !value.Null? && !exact.Null? && !PyEq(Int(Length(value)), exact) ==>
        r.value == Fail(kwargs, "长度必须为 " + PyStr(exact))
    ensures var lo := GetOr(kwargs, "min_len", Null); var hi := GetOr(kwargs, "max_len", Null);
      r.Err? ==> !(lo.Null? || Numeric(lo)) || !(hi.Null? || Numeric(hi))
    ensures var lo := GetOr(kwargs, "min_len", Null); var hi := GetOr(kwargs, "max_len", Null);
      r.Ok? && !value.Null? && (lo.Null? || Numeric(lo)) && (hi.Null? || Numeric(hi)) ==>
        (r.value.valid <==> WithinLength(Length(value), GetOr(kwargs, "exact_len", Null), lo, hi))
  {
    if value.Null? then Ok(Pass)
    else
      var n := Length(value);
      var exact := GetOr(kwargs, "exact_len", Null);
      var lo := GetOr(kwargs, "min_len", Null);
      var hi := GetOr(kwargs, "max_len", Null);
      if !exact.Null? && !PyEq(Int(n), exact) then Ok(Fail(kwargs, "长度必须为 " + PyStr(exact)))
      else if !lo.Null? && !Numeric(lo) then Err(Unorderable("<", Int(n), lo))
      else if !lo.Null? && n < Number(lo) then Ok(Fail(kwargs, "长度不能小于 " + PyStr(lo)))
      else if !hi.Null? && !Numeric(hi) then Err(Unorderable(">", Int(n), hi))
      else if !hi.Null? && n > Number(hi) then Ok(Fail(kwargs, "长度不能大于 " + PyStr(hi)))
      else Ok(Pass)
  }

  /** float(v) read on integers: bools and ints, and text that int() accepts. */
  function ToNumber(v: Value): Option<int> {
    match v
    case Bool(_) => Some(Number(v))
    case Int(i) => Some(i)
    case Str(s) => ParseInt(s)
    case _ => None
  }

  /** validate_range: a value that is not a number, or a bound that is not one, fails with '值必须为数字'. */
  function RangeCheck(value: Value, kwargs: Record): (o: Outcome)
    ensures value.Null? ==> o == Pass
    ensures !value.Null? && ToNumber(value).None? ==> o == Fail(kwargs, "值必须为数字")
    ensures var lo := GetOr(kwargs, "min_val", Null); var hi := GetOr(kwargs, "max_val", Null);
      !value.Null? && ToNumber(value).Some? && (lo.Null? || Numeric(lo)) && (hi.Null? || Numeric(hi)) ==>
        (o.valid <==> (lo.Null? || Number(lo) <= ToNumber(value).value) && (hi.Null? || ToNumber(value).value <= Number(hi)))
  {
    if value.Null? then Pass
    else
      match ToNumber(value)
      case None => Fail(kwargs, "值必须为数字")
      case Some(x) =>
        var lo := GetOr(kwargs, "min_val", Null);
        var hi := GetOr(kwargs, "max_val", Null);
        if !lo.Null? && !Numeric(lo) then Fail(kwargs, "值必须为数字")
        else if !lo.Null? && x < Number(lo) then Fail(kwargs, "值不能小于 " + PyStr(lo))
        else if !hi.Null? && !Numeric(hi) then Fail(kwargs, "值必须为数字")
        else if !hi.Null? && x > Number(hi) then Fail(kwargs, "值不能大于 " + PyStr(hi))
        else Pass
  }

  /** validate_pattern: None and '' pass; a pattern that does not compile fails with its own message. */
  function PatternCheck(value: Value, pattern: Value, kwargs: Record, m: Matcher): (r: Result<Outcome>)
    ensures value.Null? || value == Str("") ==> r == Ok(Pass)
    ensures r.Ok? && !value.Null? && value != Str("") ==>
      ((pattern.Str? && m(pattern.s, PyStr(value)) != Some(true)) <==> !r.value.valid)
    ensures r.Err? <==> !value.Null? && value != Str("") && !pattern.Str?
  {
    if value.Null? || value == Str("") then Ok(Pass)
    else if !pattern.Str? then Err("first argument must be string or compiled pattern")
    else
      match m(pattern.s, PyStr(value))
      case None => Ok(Outcome(false, Str("正则表达式无效")))
      case Some(matched) => Ok(if matched then Pass else Fail(kwargs, "格式不正确"))
  }

  /** The texts `map(str, container)` yields: list items, dict keys, characters. */
  function Elements(container: Value): seq<string> {
    match container
    case List(items) => seq(|items|, i requires 0 <= i < |items| => PyStr(items[i]))
    case Dict(entries) => Keys(entries)
    case Str(s) => seq(|s|, i requires 0 <= i < |s| => [s[i]])
    case _ => []
  }

  /** validate_enum: a non-None value outside the allowed values fails, listing them. */
  function EnumCheck(value: Value, allowed: Value, kwargs: Record): (r: Result<Outcome>)
    ensures value.Null? ==> r == Ok(Pass)
    ensures !value.Null? ==> (r.Ok? <==> PyIn(value, allowed).Ok?)
    ensures r.Ok? && !value.Null? ==> (r.value.valid <==> PyIn(value, allowed).value)
  {
    if value.Null? then Ok(Pass)
    else
      match PyIn(value, allowed)
      case Err(e) => Err(e)
      case Ok(found) =>
        Ok(if found then Pass else Fail(kwargs, "值必须是以下之一: " + Join(Elements(allowed), ", ")))
  }

  /** validate_unique: a non-None value already among the existing values fails. */
  function UniqueCheck(value: Value, existing: Value, kwargs: Record): (r: Result<Outcome>)
    ensures value.Null? ==> r == Ok(Pass)
    ensures !value.Null? ==> (r.Ok? <==> PyIn(value, existing).Ok?)
    ensures r.Ok? && !value.Null? ==> (r.value.valid <==> !PyIn(value, existing).value)
  {
    if value.Null? then Ok(Pass)
    else
      match PyIn(value, existing)
      case Err(e) => Err(e)
      case Ok(found) => Ok(if found then Fail(kwargs, "值已存在，必须唯一") else Pass)
  }

  /** PRESET_RULES: the pattern and message of each preset name. */
  function Preset(name: string): Option<(string, string)> {
    if name == "email" then Some(("^[\\w\\.-]+@[\\w\\.-]+\\.\\w+$", "邮箱格式不正确"))
    else if name == "phone" then Some(("^1[3-9]\\d{9}$", "手机号格式不正确"))
    else if name == "id_card" then Some(("^\\d{17}[\\dXx]$", "身份证号格式不正确"))
    else if name == "url" then Some(("^https?://[\\w\\.-]+", "URL格式不正确"))
    else if name == "ip" then Some(("^(\\d{1,3}\\.){3}\\d{1,3}$", "IP地址格式不正确"))
    else if name == "date" then Some(("^\\d{4}-\\d{2}-\\d{2}$", "日期格式不正确 (YYYY-MM-DD)"))
    else if name == "datetime" then Some(("^\\d{4}-\\d{2}-\\d{2}[T ]\\d{2}:\\d{2}:\\d{2}", "日期时间格式不正确"))
    else if name == "chinese" then Some(("^[\\u4e00-\\u9fa5]+$", "必须为中文字符"))
    else if name == "alphanumeric" then Some(("^[a-zA-Z0-9]+$", "只能包含字母和数字"))
    else if name == "username" then Some(("^[a-zA-Z][a-zA-Z0-9_]{2,19}$", "用户名必须以字母开头，3-20位字母数字下划线"))
    else if name == "password" then Some(("^(?=.*[a-z])(?=.*[A-Z])(?=.*\\d).{8,}$", "密码至少8位，包含大小写字母和数字"))
    else if name == "positive_integer" then Some(("^[1-9]\\d*$", "必须为正整数"))
    else if name == "decimal" then Some(("^-?\\d+(\\.\\d+)?$", "必须为数字"))
    else None
  }

  /** validate_preset: an unknown name passes; a known one is validate_pattern with only the preset's message as keyword. */
  function PresetCheck(value: Value, name: Value, m: Matcher): (r: Result<Outcome>)
    ensures r.Err? <==> name.List? || name.Dict?
    ensures !name.Str? && !name.List? && !name.Dict? ==> r == Ok(Pass)
    ensures name.Str? && Preset(name.s).None? ==> r == Ok(Pass)
    ensures r.Ok? && name.Str? && Preset(name.s).Some? && !r.value.valid && r.value.error != Str("正则表达式无效") ==>
      r.value.error == Str(Preset(name.s).value.1)
  {
    if name.List? || name.Dict? then Err(Unhashable(name))
    else if !name.Str? then Ok(Pass)
    else
      match Preset(name.s)
      case None => Ok(Pass)
      case Some((pattern, message)) => PatternCheck(value, Str(pattern), [("message", Str(message))], m)
  }

  /** The validator a rule type selects: its name and the arguments validate_field already binds without `**rule`. */
  function Validator(ruleType: Value): Option<(string, seq<string>)> {
    if ruleType == Str("required") then Some(("validate_required", ["self", "value"]))
    else if ruleType == Str("type") then Some(("validate_type", ["self", "value", "expected_type"]))
    else if ruleType == Str("length") then Some(("validate_length", ["self", "value"]))
    else if ruleType == Str("range") then Some(("validate_range", ["self", "value"]))
    else if ruleType == Str("pattern") then Some(("validate_pattern", ["self", "value", "pattern"]))
    else if ruleType == Str("enum") then Some(("validate_enum", ["self", "value", "allowed_values"]))
    else if ruleType == Str("unique") then Some(("validate_unique", ["self", "value", "existing_values"]))
    else if ruleType == Str("preset") then Some(("validate_preset", ["self", "value", "preset_name"]))
    else None
  }

  /** One rule applied to a value, as validate_field evidently intends: each validator reads its parameter from the rule. */
  function RuleCheck(value: Value, rule: Record, m: Matcher): (r: Result<Outcome>)
    ensures Validator(GetOr(rule, "type", Null)).None? ==> r == Ok(Pass)
  {
    var t := GetOr(rule, "type", Null);
    if t == Str("required") then Ok(Required(value, rule))
    else if t == Str("type") then TypeCheck(value, GetOr(rule, "expected_type", Null), rule)
    else if t == Str("length") then LengthCheck(value, rule)
    else if t == Str("range") then Ok(RangeCheck(value, rule))
    else if t == Str("pattern") then PatternCheck(value, GetOr(rule, "pattern", Str("")), rule, m)
    else if t == Str("enum") then EnumCheck(value, GetOr(rule, "allowed_values", List([])), rule)
    else if t == Str("unique") then UniqueCheck(value, GetOr(rule, "existing_values", List([])), rule)
    else if t == Str("preset") then PresetCheck(value, GetOr(rule, "preset_name", Str("")), m)
    else Ok(Pass)
  }

  /** How one rule is applied to a value. */
  type RuleChecker = (Value, Record) -> Result<Outcome>

  /** The intended dispatch as a checker. */
  function Intended(m: Matcher): RuleChecker {
    (v, r) => RuleCheck(v, r, m)
  }

  /**
   * One rule applied as validate_field is written: the validator gets the
   * value (and, for five of them, its parameter) by position and the whole
   * rule as keywords, so a rule key naming an argument already bound raises.
   */
  function RuleCheckAsWritten(value: Value, rule: Record, intended: RuleChecker): (r: Result<Outcome>)
    ensures var v := Validator(GetOr(rule, "type", Null));
      v.Some? && (exists k :: k in Keys(rule) && k in v.value.1) ==> r.Err?
    ensures var v := Validator(GetOr(rule, "type", Null));
      (v.None? || forall k :: k in Keys(rule) ==> k !in v.value.1) ==> r == intended(value, rule)
  {
    match Validator(GetOr(rule, "type", Null))
    case Some((name, bound)) =>
      (match FirstIn(Keys(rule), bound)
       case Some(k) => Err(name + "() got multiple values for argument '" + k + "'")
       case None => intended(value, rule))
    case None => intended(value, rule)
  }

  /** A type rule that names its type: as written it raises, while the intended check reports the mismatch. */
  lemma TypeRuleRaises(m: Matcher)
    ensures var rule := [("type", Str("type")), ("expected_type", Str("string"))];
      RuleCheckAsWritten(Int(3), rule, Intended(m)).Err?
      && RuleCheck(Int(3), rule, m) == Ok(Outcome(false, Str("类型必须为 string")))
  {
    var rule := [("type", Str("type")), ("expected_type", Str("string"))];
    assert Keys(rule) == ["type", "expected_type"];
    assert GetOr(rule, "type", Null) == Str("type");
    assert Validator(Str("type")) == Some(("validate_type", ["self", "value", "expected_type"]));
    assert "expected_type" in Keys(rule) && "expected_type" in ["self", "value", "expected_type"];
    TypeRuleReported(rule, m);
  }

  /** The intended dispatch of that rule reports the type mismatch with the default message. */
  lemma TypeRuleReported(rule: Record, m: Matcher)
    requires rule == [("type", Str("type")), ("expected_type", Str("string"))]
    ensures RuleCheck(Int(3), rule, m) == Ok(Outcome(false, Str("类型必须为 string")))
  {
    assert GetOr(rule, "type", Null) == Str("type");
    assert rule[1..] == [("expected_type", Str("string"))];
    assert Get(rule[1..], "expected_type") == Some(Str("string"));
    assert |"type"| != |"expected_type"|;
    assert GetOr(rule, "expected_type", Null) == Str("string");
    assert !HasKey(rule, "message");
    assert "类型必须为 " + "string" == "类型必须为 string";
    assert "string" in TypeNames && !IsInstance(Int(3), "string");
  }

  /** validate_field: the errors of the rules in order, at most one per rule, only truthy ones. */
  function FieldErrors(value: Value, rules: seq<Record>, check: RuleChecker): Result<seq<Value>> {
    if rules == [] then Ok([])
    else
      var n := |rules| - 1;
      match FieldErrors(value, rules[..n], check)
      case Err(e) => Err(e)
      case Ok(errors) =>
        match check(value, rules[n])
        case Err(e) => Err(e)
        case Ok(o) => Ok(if !o.valid && Truthy(o.error) then errors + [o.error] else errors)
  }

  /** `validate_field`. */
  method ValidateField(value: Value, rules: seq<Record>, check: RuleChecker) returns (r: Result<seq<Value>>)
    ensures r == FieldErrors(value, rules, check)
  {
    var errors: seq<Value> := [];
    var i := 0;
    while i < |rules|
      invariant 0 <= i <= |rules|
      invariant FieldErrors(value, rules[..i], check) == Ok(errors)
    {
      assert rules[..i + 1][..i] == rules[..i];
      var outcome := check(value, rules[i]);
      if outcome.Err? {
        FieldErrorsErrStays(value, rules, check, i + 1);
        return Err(outcome.error);
      }
      if !outcome.value.valid && Truthy(outcome.value.error) {
        errors := errors + [outcome.value.error];
      }
      i := i + 1;
    }
    assert rules[..|rules|] == rules;
    r := Ok(errors);
  }

  /** An exception from one rule ends validate_field with that exception. */
  lemma {:induction false} FieldErrorsErrStays(value: Value, rules: seq<Record>, check: RuleChecker, i: nat)
    requires i <= |rules| && FieldErrors(value, rules[..i], check).Err?
    ensures FieldErrors(value, rules, check) == FieldErrors(value, rules[..i], check)
  {
    if i < |rules| {
      assert rules[..|rules| - 1][..i] == rules[..i];
      FieldErrorsErrStays(value, rules[..|rules| - 1], check, i);
    } else {
      assert rules[..i] == rules;
    }
  }

  /** A rule reports an error when it fails with a truthy message. */
  predicate Reports(o: Outcome) {
    !o.valid && Truthy(o.error)
  }

  /** At most one error per rule, each truthy; no errors exactly when no rule reports one. */
  lemma {:induction false} FieldErrorsShape(value: Value, rules: seq<Record>, check: RuleChecker)
    requires FieldErrors(value, rules, check).Ok?
    ensures var errors := FieldErrors(value, rules, check).value;
      |errors| <= |rules|
      && (forall e :: e in errors ==> Truthy(e))
      && (forall i :: 0 <= i < |rules| ==> check(value, rules[i]).Ok?)
      && (errors == [] <==> forall i :: 0 <= i < |rules| ==> !Reports(check(value, rules[i]).value))
  {
    if rules != [] {
      var n := |rules| - 1;
      FieldErrorsShape(value, rules[..n], check);
      assert forall i :: 0 <= i < n ==> rules[..n][i] == rules[i];
    }
  }

  /** A rule of an unknown type adds nothing, whatever else the rule says. */
  lemma UnknownRuleSkipped(value: Value, rules: seq<Record>, rule: Record, m: Matcher)
    requires Validator(GetOr(rule, "type", Null)).None?
    ensures FieldErrors(value, rules + [rule], Intended(m)) == FieldErrors(value, rules, Intended(m))
  {
    assert (rules + [rule])[..|rules|] == rules;
  }

  /** `{field_name: [rules]}`. */
  type FieldRules = seq<(string, seq<Record>)>

  predicate DistinctFields(fieldRules: FieldRules) {
    forall i, j :: 0 <= i < j < |fieldRules| ==> fieldRules[i].0 != fieldRules[j].0
  }

  function FieldNames(fieldRules: FieldRules): (ns: seq<string>)
    ensures |ns| == |fieldRules| && forall i :: 0 <= i < |fieldRules| ==> ns[i] == fieldRules[i].0
  {
    seq(|fieldRules|, i requires 0 <= i < |fieldRules| => fieldRules[i].0)
  }

  /** The errors of one field: its value, None when the record lacks it, against its rules. */
  function FieldReport(record: Record, fieldRule: (string, seq<Record>), check: RuleChecker): Result<seq<Value>> {
    FieldErrors(GetOr(record, fieldRule.0, Null), fieldRule.1, check)
  }

  /** validate_record: `{field: errors}` for the fields with errors, in field order. */
  function RecordErrors(record: Record, fieldRules: FieldRules, check: RuleChecker): Result<seq<(string, seq<Value>)>> {
    if fieldRules == [] then Ok([])
    else
      var n := |fieldRules| - 1;
      match RecordErrors(record, fieldRules[..n], check)
      case Err(e) => Err(e)
      case Ok(errors) =>
        match FieldReport(record, fieldRules[n], check)
        case Err(e) => Err(e)
        case Ok(fieldErrors) => Ok(if fieldErrors != [] then errors + [(fieldRules[n].0, fieldErrors)] else errors)
  }

  /** `validate_record`. */
  method ValidateRecord(record: Record, fieldRules: FieldRules, check: RuleChecker) returns (r: Result<seq<(string, seq<Value>)>>)
    ensures r == RecordErrors(record, fieldRules, check)
  {
    var errors: seq<(string, seq<Value>)> := [];
    var i := 0;
    while i < |fieldRules|
      invariant 0 <= i <= |fieldRules|
      invariant RecordErrors(record, fieldRules[..i], check) == Ok(errors)
    {
      assert fieldRules[..i + 1][..i] == fieldRules[..i];
      var field := fieldRules[i].0;
      var value := GetOr(record, field, Null);
      var fieldErrors := ValidateField(value, fieldRules[i].1, check);
      if fieldErrors.Err? {
        RecordErrorsErrStays(record, fieldRules, check, i + 1);
        return Err(fieldErrors.error);
      }
      if fieldErrors.value != [] {
        errors := errors + [(field, fieldErrors.value)];
      }
      i := i + 1;
    }
    assert fieldRules[..|fieldRules|] == fieldRules;
    r := Ok(errors);
  }

  lemma {:induction false} RecordErrorsErrStays(record: Record, fieldRules: FieldRules, check: RuleChecker, i: nat)
    requires i <= |fieldRules| && RecordErrors(record, fieldRules[..i], check).Err?
    ensures RecordErrors(record, fieldRules, check) == RecordErrors(record, fieldRules[..i], check)
  {
    if i < |fieldRules| {
      assert fieldRules[..|fieldRules| - 1][..i] == fieldRules[..i];
      RecordErrorsErrStays(record, fieldRules[..|fieldRules| - 1], check, i);
    } else {
      assert fieldRules[..i] == fieldRules;
    }
  }

  /**
   * The report lists exactly the fields whose rules give errors, each with
   * those errors, and no field twice when the rules name each field once.
   */
  lemma {:induction false} RecordErrorsExact(record: Record, fieldRules: FieldRules, check: RuleChecker)
    requires RecordErrors(record, fieldRules, check).Ok?
    ensures var errors := RecordErrors(record, fieldRules, check).value;
      && (forall i :: 0 <= i < |fieldRules| ==> FieldReport(record, fieldRules[i], check).Ok?)
      && (forall k :: 0 <= k < |errors| ==>
            (errors[k].1 != []
             && exists i :: 0 <= i < |fieldRules| && fieldRules[i].0 == errors[k].0 && FieldReport(record, fieldRules[i], check) == Ok(errors[k].1)))
      && (forall i :: 0 <= i < |fieldRules| && FieldReport(record, fieldRules[i], check) != Ok([]) ==>
            (fieldRules[i].0, FieldReport(record, fieldRules[i], check).value) in errors)
  {
    if fieldRules != [] {
      var n := |fieldRules| - 1;
      var init := fieldRules[..n];
      RecordErrorsExact(record, init, check);
      var errors0 := RecordErrors(record, init, check).value;
      var errors := RecordErrors(record, fieldRules, check).value;
      assert forall i :: 0 <= i < n ==> init[i] == fieldRules[i];
      forall k | 0 <= k < |errors|
        ensures exists i :: 0 <= i < |fieldRules| && fieldRules[i].0 == errors[k].0 && FieldReport(record, fieldRules[i], check) == Ok(errors[k].1)
      {
        if k < |errors0| {
          assert errors[k] == errors0[k];
          var i :| 0 <= i < n && init[i].0 == errors0[k].0 && FieldReport(record, init[i], check) == Ok(errors0[k].1);
          assert fieldRules[i] == init[i];
        } else {
          assert errors[k] == (fieldRules[n].0, FieldReport(record, fieldRules[n], check).value);
        }
      }
    }
  }

  /** One result of validate_records. */
  datatype RecordResult = RecordResult(index: nat, valid: bool, errors: seq<(string, seq<Value>)>)

  /** The value a record contributes to seen_values[field]: its value there unless missing or None. */
  function SeenValue(record: Record, field: string): seq<Value> {
    if HasKey(record, field) && Get(record, field).value != Null then [Get(record, field).value] else []
  }

  /** seen_values[field] after the records: their non-None values of the field, in order. */
  function Seen(records: seq<Record>, field: string): seq<Value> {
    if records == [] then [] else Seen(records[..|records| - 1], field) + SeenValue(records[|records| - 1], field)
  }

  /** One rule, with existing_values set to the given list when it is a unique rule. */
  function ArmRule(rule: Record, existing: seq<Value>): Record {
    if GetOr(rule, "type", Null) == Str("unique") then Put(rule, "existing_values", List(existing)) else rule
  }

  /** A field's rules with every unique rule's existing_values set to the given list. */
  function ArmRules(rules: seq<Record>, existing: seq<Value>): (armed: seq<Record>)
    ensures |armed| == |rules|
  {
    seq(|rules|, j requires 0 <= j < |rules| => ArmRule(rules[j], existing))
  }

  /** The rules validate_records hands to validate_record when uniqueness is checked across records. */
  function Armed(fieldRules: FieldRules, before: seq<Record>): (armed: FieldRules)
    ensures |armed| == |fieldRules|
  {
    seq(|fieldRules|, i requires 0 <= i < |fieldRules| => (fieldRules[i].0, ArmRules(fieldRules[i].1, Seen(before, fieldRules[i].0))))
  }

  /** validate_records: one result per record, in order. */
  function RecordsResults(records: seq<Record>, fieldRules: FieldRules, checkUnique: bool, check: RuleChecker): Result<seq<RecordResult>> {
    if records == [] then Ok([])
    else
      var n := |records| - 1;
      match RecordsResults(records[..n], fieldRules, checkUnique, check)
      case Err(e) => Err(e)
      case Ok(results) =>
        var rules := if checkUnique then Armed(fieldRules, records[..n]) else fieldRules;
        match RecordErrors(records[n], rules, check)
        case Err(e) => Err(e)
        case Ok(errors) => Ok(results + [RecordResult(n, errors == [], errors)])
  }

  /** seen_values[field], or [] before the field has an entry. */
  function SeenOr(seen: map<string, seq<Value>>, field: string): seq<Value> {
    if field in seen then seen[field] else []
  }

  /** The inner loop of validate_records over one field's rules: each unique rule is pointed at the field's seen values. */
  method ArmRuleList(rules: seq<Record>, existing: seq<Value>) returns (newRules: seq<Record>)
    ensures newRules == ArmRules(rules, existing)
  {
    newRules := [];
    var j := 0;
    while j < |rules|
      invariant 0 <= j <= |rules|
      invariant |newRules| == j && forall k :: 0 <= k < j ==> newRules[k] == ArmRule(rules[k], existing)
    {
      var rule := rules[j];
      if GetOr(rule, "type", Null) == Str("unique") {
        rule := Put(rule, "existing_values", List(existing));
      }
      newRules := newRules + [rule];
      j := j + 1;
    }
  }

  /** The loop of validate_records that points every unique rule at the values seen so far. */
  method ArmUnique(fieldRules: FieldRules, seen: map<string, seq<Value>>) returns (armed: FieldRules)
    ensures armed == seq(|fieldRules|, i requires 0 <= i < |fieldRules| => (fieldRules[i].0, ArmRules(fieldRules[i].1, SeenOr(seen, fieldRules[i].0))))
  {
    armed := [];
    var i := 0;
    while i < |fieldRules|
      invariant 0 <= i <= |fieldRules|
      invariant |armed| == i && forall k :: 0 <= k < i ==> armed[k] == (fieldRules[k].0, ArmRules(fieldRules[k].1, SeenOr(seen, fieldRules[k].0)))
    {
      var field := fieldRules[i].0;
      var newRules := ArmRuleList(fieldRules[i].1, SeenOr(seen, field));
      armed := armed + [(field, newRules)];
      i := i + 1;
    }
  }

  /** The loop of validate_records that records the record's non-None values of every field. */
  method RecordSeen(seen: map<string, seq<Value>>, record: Record, fieldRules: FieldRules) returns (seen': map<string, seq<Value>>)
    requires DistinctFields(fieldRules)
    ensures forall f :: f in FieldNames(fieldRules) ==> SeenOr(seen', f) == SeenOr(seen, f) + SeenValue(record, f)
  {
    seen' := seen;
    var i := 0;
    while i < |fieldRules|
      invariant 0 <= i <= |fieldRules|
      invariant forall k :: 0 <= k < i ==> SeenOr(seen', fieldRules[k].0) == SeenOr(seen, fieldRules[k].0) + SeenValue(record, fieldRules[k].0)
      invariant forall k :: i <= k < |fieldRules| ==> SeenOr(seen', fieldRules[k].0) == SeenOr(seen, fieldRules[k].0)
    {
      var field := fieldRules[i].0;
      ghost var before := seen';
      if HasKey(record, field) && Get(record, field).value != Null {
        seen' := seen'[field := SeenOr(seen', field) + [Get(record, field).value]];
      }
      assert SeenOr(seen', field) == SeenOr(before, field) + SeenValue(record, field);
      assert forall f :: f != field ==> SeenOr(seen', f) == SeenOr(before, f);
      assert forall k :: 0 <= k < |fieldRules| && k != i ==> fieldRules[k].0 != field;
      i := i + 1;
    }
    assert forall f :: f in FieldNames(fieldRules) ==> exists k :: 0 <= k < |fieldRules| && fieldRules[k].0 == f;
  }

  /** `validate_records`. */
  method ValidateRecords(records: seq<Record>, fieldRules: FieldRules, checkUnique: bool, check: RuleChecker)
    returns (r: Result<seq<RecordResult>>)
    requires DistinctFields(fieldRules)
    ensures r == RecordsResults(records, fieldRules, checkUnique, check)
  {
    var results: seq<RecordResult> := [];
    var seen: map<string, seq<Value>> := map[];
    var i := 0;
    while i < |records|
      invariant 0 <= i <= |records|
      invariant RecordsResults(records[..i], fieldRules, checkUnique, check) == Ok(results)
      invariant forall f :: f in FieldNames(fieldRules) ==> SeenOr(seen, f) == Seen(records[..i], f)
    {
      assert records[..i + 1][..i] == records[..i];
      var rules := fieldRules;
      if checkUnique {
        rules := ArmUnique(fieldRules, seen);
        assert rules == Armed(fieldRules, records[..i]);
      }
      var errors := ValidateRecord(records[i], rules, check);
      if errors.Err? {
        RecordsResultsErrStays(records, fieldRules, checkUnique, check, i + 1);
        return Err(errors.error);
      }
      seen := RecordSeen(seen, records[i], fieldRules);
      results := results + [RecordResult(i, errors.value == [], errors.value)];
      i := i + 1;
    }
    assert records[..|records|] == records;
    r := Ok(results);
  }

  lemma {:induction false} RecordsResultsErrStays(records: seq<Record>, fieldRules: FieldRules, checkUnique: bool, check: RuleChecker, i: nat)
    requires i <= |records| && RecordsResults(records[..i], fieldRules, checkUnique, check).Err?
    ensures RecordsResults(records, fieldRules, checkUnique, check) == RecordsResults(records[..i], fieldRules, checkUnique, check)
  {
    if i < |records| {
      var n := |records| - 1;
      assert records[..n][..i] == records[..i];
      RecordsResultsErrStays(records[..n], fieldRules, checkUnique, check, i);
    } else {
      assert records[..i] == records;
    }
  }

  /** One result per record, carrying its index, valid exactly when it has no errors. */
  lemma {:induction false} RecordsResultsShape(records: seq<Record>, fieldRules: FieldRules, checkUnique: bool, check: RuleChecker)
    requires RecordsResults(records, fieldRules, checkUnique, check).Ok?
    ensures var results := RecordsResults(records, fieldRules, checkUnique, check).value;
      |results| == |records|
      && forall i :: 0 <= i < |results| ==> results[i].index == i && (results[i].valid <==> results[i].errors == [])
  {
    if records != [] {
      RecordsResultsShape(records[..|records| - 1], fieldRules, checkUnique, check);
    }
  }

  /**
   * With the cross-record check, record i's value is tested against exactly
   * the non-None values earlier records hold in that field.
   */
  lemma UniqueAgainstEarlier(records: seq<Record>, fieldRules: FieldRules, i: nat, f: nat, j: nat)
    requires i < |records| && f < |fieldRules| && j < |fieldRules[f].1|
    requires GetOr(fieldRules[f].1[j], "type", Null) == Str("unique")
    ensures var rule := Armed(fieldRules, records[..i])[f].1[j];
      GetOr(rule, "existing_values", Null) == List(Seen(records[..i], fieldRules[f].0))
      && GetOr(rule, "type", Null) == Str("unique")
  {
    var rule := fieldRules[f].1[j];
    var xs := List(Seen(records[..i], fieldRules[f].0));
    GetPut(rule, "existing_values", xs, "existing_values");
    GetPut(rule, "existing_values", xs, "type");
  }

  /** Once uniqueness is checked across records, every unique rule carries existing_values, so as written it raises. */
  lemma ArmedUniqueRaises(records: seq<Record>, fieldRules: FieldRules, i: nat, f: nat, j: nat, value: Value, m: Matcher)
    requires i < |records| && f < |fieldRules| && j < |fieldRules[f].1|
    requires GetOr(fieldRules[f].1[j], "type", Null) == Str("unique")
    ensures RuleCheckAsWritten(value, Armed(fieldRules, records[..i])[f].1[j], Intended(m)).Err?
  {
    var xs := Seen(records[..i], fieldRules[f].0);
    assert Armed(fieldRules, records[..i])[f].1[j] == Put(fieldRules[f].1[j], "existing_values", List(xs));
    ArmedRuleRaises(value, fieldRules[f].1[j], xs, Intended(m));
  }

  lemma ArmedRuleRaises(value: Value, rule: Record, xs: seq<Value>, intended: RuleChecker)
    requires GetOr(rule, "type", Null) == Str("unique")
    ensures RuleCheckAsWritten(value, Put(rule, "existing_values", List(xs)), intended).Err?
  {
    var armed := Put(rule, "existing_values", List(xs));
    assert Get(armed, "type") == Get(rule, "type") by {
      assert "type" != "existing_values" by {
        assert |"type"| == 4;
      }
      GetPut(rule, "existing_values", List(xs), "type");
    }
    assert "existing_values" in Keys(armed) by {
      GetPut(rule, "existing_values", List(xs), "existing_values");
    }
    UniqueValidator();
    assert "existing_values" in ["self", "value", "existing_values"];
  }

  /** The validator of a `unique` rule and the arguments it binds. */
  lemma UniqueValidator()
    ensures Validator(Str("unique")) == Some(("validate_unique", ["self", "value", "existing_values"]))
  {
    assert "unique"[0] == 'u' && "length"[0] == 'l';
  }

  /** The counts of get_validation_summary (valid_rate, a float, is not modelled). */
  datatype Summary = Summary(total: nat, validCount: nat, invalidCount: int, fieldErrorCounts: map<string, nat>)

  function ValidCount(results: seq<RecordResult>): (n: nat)
    ensures n <= |results|
  {
    if results == [] then 0 else ValidCount(results[..|results| - 1]) + (if results[|results| - 1].valid then 1 else 0)
  }

  /** The number of errors a record's report lists under the field. */
  function EntryErrors(errors: seq<(string, seq<Value>)>, field: string): nat {
    if errors == [] then 0
    else EntryErrors(errors[..|errors| - 1], field) + (if errors[|errors| - 1].0 == field then |errors[|errors| - 1].1| else 0)
  }

  function ErrorCount(results: seq<RecordResult>, field: string): nat {
    if results == [] then 0 else ErrorCount(results[..|results| - 1], field) + EntryErrors(results[|results| - 1].errors, field)
  }

  /** Whether any result's report names the field. */
  predicate Reported(results: seq<RecordResult>, field: string) {
    exists i :: 0 <= i < |results| && field in Names(results[i].errors)
  }

  /** The counting loop over one result's errors. */
  method CountEntries(counts: map<string, nat>, errors: seq<(string, seq<Value>)>) returns (counts': map<string, nat>)
    ensures forall f :: f in counts' <==> f in counts || f in Names(errors)
    ensures forall f :: f in counts' ==> counts'[f] == (if f in counts then counts[f] else 0) + EntryErrors(errors, f)
  {
    counts' := counts;
    var k := 0;
    while k < |errors|
      invariant 0 <= k <= |errors|
      invariant forall f :: f in counts' <==> f in counts || f in Names(errors[..k])
      invariant forall f :: f in counts' ==> counts'[f] == (if f in counts then counts[f] else 0) + EntryErrors(errors[..k], f)
    {
      assert errors[..k + 1][..k] == errors[..k];
      assert Names(errors[..k + 1]) == Names(errors[..k]) + [errors[k].0];
      var field := errors[k].0;
      var current := if field in counts' then counts'[field] else 0;
      EntryErrorsStep(errors, k);
      if field !in counts' {
        EntryErrorsAbsent(errors[..k], field);
      }
      counts' := counts'[field := current + |errors[k].1|];
      k := k + 1;
    }
    assert errors[..|errors|] == errors;
  }

  /** `get_validation_summary`. */
  method Summarize(results: seq<RecordResult>) returns (s: Summary)
    ensures s.total == |results| && s.validCount == ValidCount(results) && s.invalidCount == s.total - s.validCount
    ensures forall f :: f in s.fieldErrorCounts <==> Reported(results, f)
    ensures forall f :: f in s.fieldErrorCounts ==> s.fieldErrorCounts[f] == ErrorCount(results, f)
  {
    var validCount := 0;
    var counts: map<string, nat> := map[];
    var i := 0;
    while i < |results|
      invariant 0 <= i <= |results|
      invariant validCount == ValidCount(results[..i])
      invariant forall f :: f in counts <==> Reported(results[..i], f)
      invariant forall f :: f in counts ==> counts[f] == ErrorCount(results[..i], f)
    {
      assert results[..i + 1][..i] == results[..i];
      if results[i].valid {
        validCount := validCount + 1;
      }
      counts := CountEntries(counts, results[i].errors);
      ReportedStep(results, i);
      ErrorCountStep(results, i);
      forall f | !Reported(results[..i], f) ensures ErrorCount(results[..i], f) == 0 {
        ErrorCountUnreported(results[..i], f);
      }
      i := i + 1;
    }
    assert results[..|results|] == results;
    s := Summary(|results|, validCount, |results| - validCount, counts);
  }

  /** One more result names the fields it names besides the earlier ones. */
  lemma ReportedStep(results: seq<RecordResult>, i: nat)
    requires i < |results|
    ensures forall f :: Reported(results[..i + 1], f) <==> Reported(results[..i], f) || f in Names(results[i].errors)
  {
    forall f ensures Reported(results[..i + 1], f) <==> Reported(results[..i], f) || f in Names(results[i].errors) {
      if Reported(results[..i + 1], f) {
        var k :| 0 <= k < i + 1 && f in Names(results[..i + 1][k].errors);
        if k < i {
          assert results[..i + 1][k] == results[..i][k];
        }
      }
      if Reported(results[..i], f) {
        var k :| 0 <= k < i && f in Names(results[..i][k].errors);
        assert results[..i + 1][k] == results[..i][k];
      }
      if f in Names(results[i].errors) {
        assert results[..i + 1][i] == results[i];
      }
    }
  }

  /** One more result adds its own errors to each field's count. */
  lemma ErrorCountStep(results: seq<RecordResult>, i: nat)
    requires i < |results|
    ensures forall f :: ErrorCount(results[..i + 1], f) == ErrorCount(results[..i], f) + EntryErrors(results[i].errors, f)
    ensures forall f :: f !in Names(results[i].errors) ==> EntryErrors(results[i].errors, f) == 0
  {
    assert results[..i + 1][..i] == results[..i];
    forall f | f !in Names(results[i].errors) ensures EntryErrors(results[i].errors, f) == 0 {
      EntryErrorsAbsent(results[i].errors, f);
    }
  }

  lemma EntryErrorsStep(errors: seq<(string, seq<Value>)>, k: nat)
    requires k < |errors|
    ensures forall f :: EntryErrors(errors[..k + 1], f) == EntryErrors(errors[..k], f) + (if errors[k].0 == f then |errors[k].1| else 0)
  {
    assert errors[..k + 1][..k] == errors[..k];
  }

  /** A field no report names has no errors counted. */
  lemma {:induction false} ErrorCountUnreported(results: seq<RecordResult>, field: string)
    requires !Reported(results, field)
    ensures ErrorCount(results, field) == 0
  {
    if results != [] {
      var n := |results| - 1;
      assert forall k :: 0 <= k < n ==> results[..n][k] == results[k];
      ErrorCountUnreported(results[..n], field);
      EntryErrorsAbsent(results[n].errors, field);
    }
  }

  /** A field the report does not name has no errors in it. */
  lemma {:induction false} EntryErrorsAbsent(errors: seq<(string, seq<Value>)>, field: string)
    requires field !in Names(errors)
    ensures EntryErrors(errors, field) == 0
  {
    if errors != [] {
      assert Names(errors) == Names(errors[..|errors| - 1]) + [errors[|errors| - 1].0];
      EntryErrorsAbsent(errors[..|errors| - 1], field);
    }
  }

  /** All results valid exactly when the valid count is the total; a result from validate_records is valid exactly when its report is empty. */
  lemma {:induction false} ValidCountAll(results: seq<RecordResult>)
    ensures ValidCount(results) == |results| <==> forall i :: 0 <= i < |results| ==> results[i].valid
  {
    if results != [] {
      var n := |results| - 1;
      ValidCountAll(results[..n]);
      assert forall i :: 0 <= i < n ==> results[..n][i] == results[i];
    }
  }
}
