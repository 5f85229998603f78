/**
 * The system-settings table (backend/models/system_setting.py): settings are
 * stored as text with a declared type, read back typed, and written by key.
 * The JSON codec is a pair of parameters.
 */
module SystemSettings {
  import opened Wrappers
  import opened Text
  import opened Values

  datatype Setting = Setting(
    key: string,
    value: Option<string>,
    valueType: string,
    category: string,
    description: Option<string>,
    isPublic: bool)

  /** The message `int()` raises for text that is not a decimal integer. */
  function BadInteger(text: string): string {
    "invalid literal for int() with base 10: " + Repr(Str(text))
  }

  /** `get_value`: the stored text read as its declared type. */
  function GetValue(s: Setting, parse: string -> Option<Value>): (r: Result<Value>)
    ensures s.value.None? ==> r == Ok(Null)
    ensures s.value.Some? && s.valueType == "integer" ==>
              r == match ParseInt(s.value.value) case Some(n) => Ok(Int(n)) case None => Err(BadInteger(s.value.value))
    ensures s.value.Some? && s.valueType == "boolean" ==>
              r == Ok(Bool(Lower(s.value.value) in ["true", "1", "yes"]))
    ensures s.value.Some? && s.valueType == "json" ==>
              r == Ok(if parse(s.value.value).Some? then parse(s.value.value).value else Str(s.value.value))
    ensures s.value.Some? && s.valueType !in ["integer", "boolean", "json"] ==> r == Ok(Str(s.value.value))
  {
    match s.value
    case None => Ok(Null)
    case Some(text) =>
      if s.valueType == "integer" then
        match ParseInt(text)
        case Some(n) => Ok(Int(n))
        case None => Err(BadInteger(text))
      else if s.valueType == "boolean" then Ok(Bool(Lower(text) in ["true", "1", "yes"]))
      else if s.valueType == "json" then
        match parse(text)
        case Some(v) => Ok(v)
        case None => Ok(Str(text))
      else Ok(Str(text))
  }

  /** The text `set_value` stores for a value under the setting's declared type. */
  function StoredText(valueType: string, v: Value, dumps: Value -> string): (r: Option<string>)
    ensures valueType == "json" && (v.List? || v.Dict?) ==> r == Some(dumps(v))
    ensures valueType == "boolean" ==> r == Some(if Truthy(v) then "true" else "false")
    ensures !(valueType == "json" && (v.List? || v.Dict?)) && valueType != "boolean" ==>
              r == (if v.Null? then None else Some(PyStr(v)))
  {
    if valueType == "json" && (v.List? || v.Dict?) then Some(dumps(v))
    else if valueType == "boolean" then Some(if Truthy(v) then "true" else "false")
    else if v.Null? then None
    else Some(PyStr(v))
  }

  /** `set_value`. */
  function SetValue(s: Setting, v: Value, dumps: Value -> string): Setting {
    s.(value := StoredText(s.valueType, v, dumps))
  }

  /** A boolean written by `set_value` reads back as the same boolean. */
  lemma BooleanRoundTrip(s: Setting, b: bool, dumps: Value -> string, parse: string -> Option<Value>)
    requires s.valueType == "boolean"
    ensures GetValue(SetValue(s, Bool(b), dumps), parse) == Ok(Bool(b))
  {
    var text := if b then "true" else "false";
    assert Lower(text) == text;
  }

  /** An integer written by `set_value` reads back as the same integer. */
  lemma IntegerRoundTrip(s: Setting, n: int, dumps: Value -> string, parse: string -> Option<Value>)
    requires s.valueType == "integer"
    ensures GetValue(SetValue(s, Int(n), dumps), parse) == Ok(Int(n))
  {
    var stored := SetValue(s, Int(n), dumps);
    assert PyStr(Int(n)) == IntToDecimal(n);
    assert stored.value == Some(IntToDecimal(n)) && stored.valueType == "integer";
    IntRoundTrip(n);
  }

  /** A string written under a plain type reads back unchanged; None reads back as None. */
  lemma StringRoundTrip(s: Setting, v: Value, dumps: Value -> string, parse: string -> Option<Value>)
    requires s.valueType !in ["integer", "boolean", "json"] && (v.Str? || v.Null?)
    ensures GetValue(SetValue(s, v, dumps), parse) == Ok(v)
  {
  }

  /** A list or dict written under `json` reads back as itself when the parser inverts the encoder. */
  lemma JsonRoundTrip(s: Setting, v: Value, dumps: Value -> string, parse: string -> Option<Value>)
    requires s.valueType == "json" && (v.List? || v.Dict?) && parse(dumps(v)) == Some(v)
    ensures GetValue(SetValue(s, v, dumps), parse) == Ok(v)
  {
  }

  /** The position of the setting with this key (`get_by_key`). */
  function FindKey(settings: seq<Setting>, key: string): (r: Option<nat>)
    ensures r.Some? ==> r.value < |settings| && settings[r.value].key == key
                        && forall j :: 0 <= j < r.value ==> settings[j].key != key
    ensures r.None? ==> forall j :: 0 <= j < |settings| ==> settings[j].key != key
  {
    if settings == [] then None
    else if settings[0].key == key then Some(0)
    else match FindKey(settings[1..], key)
      case None => None
      case Some(i) => Some(i + 1)
  }

  /** No two settings share a key (the column is unique). */
  predicate UniqueSettingKeys(settings: seq<Setting>) {
    forall a, b :: 0 <= a < b < |settings| ==> settings[a].key != settings[b].key
  }

  /** The row `set_setting` writes over an existing one: a new description only when it is non-empty. */
  function Rewritten(s: Setting, v: Value, valueType: string, category: string, description: Option<string>,
                     isPublic: bool, dumps: Value -> string): (r: Setting)
    ensures r.key == s.key && r.valueType == valueType && r.category == category && r.isPublic == isPublic
    ensures r.value == StoredText(valueType, v, dumps)
    ensures r.description == if description.Some? && description.value != "" then description else s.description
  {
    var typed := s.(valueType := valueType);
    SetValue(typed, v, dumps).(category := category,
                               description := if description.Some? && description.value != "" then description else s.description,
                               isPublic := isPublic)
  }

  /** The table after `set_setting`: the existing row rewritten in place, or a new row appended. */
  function Written(settings: seq<Setting>, key: string, v: Value, valueType: string, category: string,
                   description: Option<string>, isPublic: bool, dumps: Value -> string): (r: seq<Setting>)
    ensures FindKey(settings, key).Some? ==>
              var i := FindKey(settings, key).value;
              r == settings[i := Rewritten(settings[i], v, valueType, category, description, isPublic, dumps)]
    ensures FindKey(settings, key).None? ==>
              r == settings + [Setting(key, StoredText(valueType, v, dumps), valueType, category, description, isPublic)]
  {
    match FindKey(settings, key)
    case Some(i) => settings[i := Rewritten(settings[i], v, valueType, category, description, isPublic, dumps)]
    case None => settings + [Setting(key, StoredText(valueType, v, dumps), valueType, category, description, isPublic)]
  }

  /** Writing keeps keys unique, puts the key in the table with the new text, and leaves every other key where it was. */
  lemma WrittenKeepsKeys(settings: seq<Setting>, key: string, v: Value, valueType: string, category: string,
                         description: Option<string>, isPublic: bool, dumps: Value -> string)
    requires UniqueSettingKeys(settings)
    ensures var r := Written(settings, key, v, valueType, category, description, isPublic, dumps);
            UniqueSettingKeys(r) && FindKey(r, key).Some?
            && r[FindKey(r, key).value].value == StoredText(valueType, v, dumps)
            && forall k :: k != key ==> FindKey(r, k) == FindKey(settings, k)
  {
    var r := Written(settings, key, v, valueType, category, description, isPublic, dumps);
    match FindKey(settings, key)
    case Some(i) =>
      forall k ensures FindKey(r, k) == FindKey(settings, k) {
        FindKeyAfterUpdate(settings, i, r[i], k);
      }
    case None =>
      forall k ensures FindKey(r, k) == if FindKey(settings, k).Some? then FindKey(settings, k) else if k == key then Some(|settings|) else None {
        FindKeyAfterAppend(settings, r[|settings|], k);
      }
  }

  /** Replacing a row by one with the same key moves no key. */
  lemma {:induction false} FindKeyAfterUpdate(settings: seq<Setting>, i: nat, x: Setting, k: string)
    requires i < |settings| && settings[i].key == x.key
    ensures FindKey(settings[i := x], k) == FindKey(settings, k)
  {
    if i == 0 {
      assert settings[i := x][1..] == settings[1..];
    } else {
      assert settings[i := x][1..] == settings[1..][i - 1 := x];
      FindKeyAfterUpdate(settings[1..], i - 1, x, k);
    }
  }

  /** An appended row is found only for its own key, and only when no earlier row has it. */
  lemma {:induction false} FindKeyAfterAppend(settings: seq<Setting>, x: Setting, k: string)
    ensures FindKey(settings + [x], k)
            == if FindKey(settings, k).Some? then FindKey(settings, k) else if x.key == k then Some(|settings|) else None
  {
    if settings != [] {
      assert (settings + [x])[1..] == settings[1..] + [x];
      FindKeyAfterAppend(settings[1..], x, k);
    }
  }

  /** The settings table. */
  class SettingsTable {
    var settings: seq<Setting>

    constructor()
      ensures settings == []
    {
      settings := [];
    }

    /** `SystemSetting.set_setting`: update the row with that key in place, or create it. */
    method SetSetting(key: string, v: Value, valueType: string, category: string, description: Option<string>,
                      isPublic: bool, dumps: Value -> string) returns (s: Setting)
      modifies this
      ensures settings == Written(old(settings), key, v, valueType, category, description, isPublic, dumps)
      ensures FindKey(settings, key).Some? && s == settings[FindKey(settings, key).value]
    {
      var found := FindKey(settings, key);
      if found.Some? {
        var i := found.value;
        s := Rewritten(settings[i], v, valueType, category, description, isPublic, dumps);
        settings := settings[i := s];
        FindKeyAfterUpdate(old(settings), i, s, key);
      } else {
        s := Setting(key, StoredText(valueType, v, dumps), valueType, category, description, isPublic);
        settings := settings + [s];
        FindKeyAfterAppend(old(settings), s, key);
      }
    }
  }
}
