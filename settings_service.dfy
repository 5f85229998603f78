/**
 * The settings service (backend/services/settings_service.py): typed reads
 * with defaults, writes with metadata taken from the call, then the default
 * table, then fixed fallbacks; listings by category and of public settings;
 * batch updates, deletion and resetting to defaults. The service holds the
 * default table; the settings table is passed to its operations.
 */
module SettingsManagement {
  import opened Wrappers
  import opened Text
  import opened Values
  import opened SystemSettings

  datatype Default = Default(value: Value, valueType: string, category: string, description: string, isPublic: bool)

  type DefaultTable = seq<(string, Default)>

  const Categories: seq<string> := ["general", "security", "notification", "generation", "export", "api"]

  const NoSuchSetting := "设置不存在"
  const SettingDeleted := "设置已删除"
  const NoDefault := "没有默认值"
  const ResetDone := "已重置为默认值"
  /** What Python raises when `value` arrives both positionally and among the keyword arguments. */
  const DuplicateValue := "SettingsService.set_setting() got multiple values for argument 'value'"

  /** `DEFAULT_SETTINGS`, in its dict order. */
  function DefaultSettings(): (ds: DefaultTable)
    ensures |ds| == 15
  {
    [ ("site_name", Default(Str("Bears PanguCreate"), "string", "general", "站点名称", true)),
      ("site_description", Default(Str("企业级测试数据生成平台"), "string", "general", "站点描述", true)),
      ("default_language", Default(Str("zh-CN"), "string", "general", "默认语言", true)),
      ("maintenance_mode", Default(Bool(false), "boolean", "general", "维护模式", true)),
      ("max_login_attempts", Default(Int(5), "integer", "security", "最大登录尝试次数", false)),
      ("session_timeout", Default(Int(3600), "integer", "security", "会话超时时间（秒）", false)),
      ("password_min_length", Default(Int(8), "integer", "security", "密码最小长度", true)),
      ("max_generate_count", Default(Int(10000), "integer", "generation", "单次最大生成数量", true)),
      ("default_generate_count", Default(Int(100), "integer", "generation", "默认生成数量", true)),
      ("max_export_count", Default(Int(50000), "integer", "export", "单次最大导出数量", true)),
      ("export_formats", Default(List([Str("json"), Str("csv"), Str("sql"), Str("xml")]), "json", "export", "支持的导出格式", true)),
      ("api_rate_limit", Default(Int(100), "integer", "api", "API 速率限制（每分钟）", false)),
      ("api_key_max_count", Default(Int(10), "integer", "api", "每用户最大 API 密钥数", true)),
      ("email_notifications", Default(Bool(true), "boolean", "notification", "启用邮件通知", false)),
      ("webhook_timeout", Default(Int(10), "integer", "notification", "Webhook 超时时间（秒）", false)) ]
  }

  /** A default's value has the shape its declared type reads back as. */
  predicate WellTyped(d: Default) {
    (d.valueType == "integer" && d.value.Int?)
    || (d.valueType == "boolean" && d.value.Bool?)
    || (d.valueType == "json" && (d.value.List? || d.value.Dict?))
    || (d.valueType !in ["integer", "boolean", "json"] && d.value.Str?)
  }

  /** Every default is well typed and in a listed category, and every listed category has a default. */
  predicate SoundTable(ds: DefaultTable) {
    (forall j :: 0 <= j < |ds| ==> WellTyped(ds[j].1) && ds[j].1.category in Categories)
    && forall c :: c in Categories ==> exists j :: 0 <= j < |ds| && ds[j].1.category == c
  }

  /** Every default of the source is well typed and in a listed category. */
  lemma DefaultSettingsTyped()
    ensures forall j :: 0 <= j < |DefaultSettings()| ==>
              WellTyped(DefaultSettings()[j].1) && DefaultSettings()[j].1.category in Categories
  {
    var ds := DefaultSettings();
    forall j | 0 <= j < |ds| ensures WellTyped(ds[j].1) && ds[j].1.category in Categories {
      if j < 8 {
        if j < 4 { assert ds[j].1.category == Categories[0]; }
        else if j < 7 { assert ds[j].1.category == Categories[1]; }
        else { assert ds[j].1.category == Categories[3]; }
      } else {
        if j == 8 { assert ds[j].1.category == Categories[3]; }
        else if j < 11 { assert ds[j].1.category == Categories[4]; }
        else if j < 13 { assert ds[j].1.category == Categories[5]; }
        else { assert ds[j].1.category == Categories[2]; }
      }
    }
  }

  /** The default table of the source is sound. */
  lemma DefaultSettingsSound()
    ensures SoundTable(DefaultSettings())
  {
    var ds := DefaultSettings();
    DefaultSettingsTyped();
    forall c | c in Categories ensures exists j :: 0 <= j < |ds| && ds[j].1.category == c {
      if c == "general" { assert ds[0].1.category == c; }
      else if c == "security" { assert ds[4].1.category == c; }
      else if c == "notification" { assert ds[13].1.category == c; }
      else if c == "generation" { assert ds[7].1.category == c; }
      else if c == "export" { assert ds[9].1.category == c; }
      else { assert ds[11].1.category == c; }
    }
  }

  /** `DEFAULT_SETTINGS.get(key)`. */
  function FirstDefault(ds: DefaultTable, key: string): (r: Option<Default>)
    ensures r.Some? <==> exists j :: 0 <= j < |ds| && ds[j].0 == key
    ensures r.Some? ==> (key, r.value) in ds
  {
    if ds == [] then None
    else if ds[0].0 == key then Some(ds[0].1)
    else FirstDefault(ds[1..], key)
  }

  /** The keyword arguments `set_setting` may receive; `None` means the key is absent. */
  datatype SettingOptions = SettingOptions(
    valueType: Option<string>,
    category: Option<string>,
    description: Option<Option<string>>,
    isPublic: Option<bool>)

  const NoOptions := SettingOptions(None, None, None, None)

  /** The metadata `set_setting` writes. */
  datatype Metadata = Metadata(valueType: string, category: string, description: Option<string>, isPublic: bool)

  /** One entry of a category listing: stored settings and defaults; `isDefault` marks the latter. */
  datatype Listing = Listing(key: string, value: Value, valueType: string, category: string,
                             description: Option<string>, isPublic: bool, isDefault: bool)

  function ListingKeys(ls: seq<Listing>): (ks: seq<string>)
    ensures |ks| == |ls| && forall j :: 0 <= j < |ls| ==> ks[j] == ls[j].key
  {
    if ls == [] then [] else [ls[0].key] + ListingKeys(ls[1..])
  }

  lemma {:induction false} ListingKeysConcat(a: seq<Listing>, b: seq<Listing>)
    ensures ListingKeys(a + b) == ListingKeys(a) + ListingKeys(b)
  {
    if a != [] {
      assert (a + b)[1..] == a[1..] + b;
      ListingKeysConcat(a[1..], b);
    } else {
      assert a + b == b;
    }
  }

  /** The stored settings of a category (public ones only when asked), in table order, read typed. */
  function StoredListing(settings: seq<Setting>, category: string, publicOnly: bool, parse: string -> Option<Value>)
    : (r: Result<seq<Listing>>)
    ensures r.Ok? ==> forall j :: 0 <= j < |r.value| ==>
                        r.value[j].category == category && !r.value[j].isDefault && (publicOnly ==> r.value[j].isPublic)
    ensures r.Ok? ==> forall s :: s in settings && s.category == category && (!publicOnly || s.isPublic) ==> s.key in ListingKeys(r.value)
  {
    if settings == [] then Ok([])
    else
      var s := settings[0];
      var rest :- StoredListing(settings[1..], category, publicOnly, parse);
      if s.category == category && (!publicOnly || s.isPublic) then
        var v :- GetValue(s, parse);
        Ok([Listing(s.key, v, s.valueType, s.category, s.description, s.isPublic, false)] + rest)
      else Ok(rest)
  }

  /** The defaults of a category not among `existing` (public ones only when asked), in default-table order. */
  function DefaultListing(ds: DefaultTable, category: string, publicOnly: bool, existing: seq<string>)
    : (r: seq<Listing>)
    ensures forall j :: 0 <= j < |r| ==>
              r[j].category == category && r[j].isDefault && r[j].key !in existing && (publicOnly ==> r[j].isPublic)
    ensures forall j :: (0 <= j < |ds| && ds[j].1.category == category && ds[j].0 !in existing
                         && (!publicOnly || ds[j].1.isPublic)) ==> ds[j].0 in ListingKeys(r)
  {
    if ds == [] then []
    else
      var (k, d) := ds[0];
      var rest := DefaultListing(ds[1..], category, publicOnly, existing);
      if d.category == category && k !in existing && (!publicOnly || d.isPublic) then
        [Listing(k, d.value, d.valueType, d.category, Some(d.description), d.isPublic, true)] + rest
      else rest
  }

  /** The dict of stored public settings, key to typed value, in table order. */
  function PublicStored(settings: seq<Setting>, parse: string -> Option<Value>): (r: Result<Record>)
  {
    if settings == [] then Ok([])
    else
      var init := settings[..|settings| - 1];
      var s := settings[|settings| - 1];
      var acc :- PublicStored(init, parse);
      if s.isPublic then
        var v :- GetValue(s, parse);
        Ok(Put(acc, s.key, v))
      else Ok(acc)
  }

  lemma PutOthers(acc: Record, k: string, v: Value)
    ensures forall k2 :: Get(Put(acc, k, v), k2) == if k2 == k then Some(v) else Get(acc, k2)
  {
    forall k2 ensures Get(Put(acc, k, v), k2) == if k2 == k then Some(v) else Get(acc, k2) {
      GetPut(acc, k, v, k2);
    }
  }

  /** The public defaults whose key is still missing, added in default-table order. */
  function PublicDefaults(acc: Record, ds: DefaultTable): (r: Record)
    ensures forall k :: HasKey(acc, k) ==> Get(r, k) == Get(acc, k)
    ensures forall j :: 0 <= j < |ds| && ds[j].1.isPublic ==> HasKey(r, ds[j].0)
    decreases |ds|
  {
    if ds == [] then acc
    else
      var (k, d) := ds[0];
      var rest := ds[1..];
      var next := if d.isPublic && !HasKey(acc, k) then Put(acc, k, d.value) else acc;
      PutOthers(acc, k, d.value);
      var r := PublicDefaults(next, rest);
      forall k2 | HasKey(acc, k2) ensures Get(r, k2) == Get(acc, k2) {
        assert Get(next, k2) == Get(acc, k2);
      }
      forall j | 0 <= j < |ds| && ds[j].1.isPublic ensures HasKey(r, ds[j].0) {
        if j == 0 {
          assert HasKey(next, k);
        } else {
          assert rest[j - 1] == ds[j];
        }
      }
      r
  }

  lemma {:induction false} PublicStoredHas(settings: seq<Setting>, parse: string -> Option<Value>, i: nat)
    requires PublicStored(settings, parse).Ok? && UniqueSettingKeys(settings) && i < |settings| && settings[i].isPublic
    ensures GetValue(settings[i], parse).Ok?
    ensures Get(PublicStored(settings, parse).value, settings[i].key) == Some(GetValue(settings[i], parse).value)
  {
    var init := settings[..|settings| - 1];
    var s := settings[|settings| - 1];
    var acc := PublicStored(init, parse).value;
    if i < |settings| - 1 {
      PublicStoredHas(init, parse, i);
      if s.isPublic {
        GetPut(acc, s.key, GetValue(s, parse).value, settings[i].key);
      }
    } else {
      GetPut(acc, s.key, GetValue(s, parse).value, s.key);
    }
  }

  /** The keys a category resets, in default-table order. */
  function CategoryKeys(ds: DefaultTable, category: string): (ks: seq<string>)
    ensures |ks| <= |ds|
    ensures forall k :: k in ks ==> exists j :: 0 <= j < |ds| && ds[j].0 == k
    ensures (exists j :: 0 <= j < |ds| && ds[j].1.category == category) ==> ks != []
  {
    if ds == [] then []
    else (if ds[0].1.category == category then [ds[0].0] else []) + CategoryKeys(ds[1..], category)
  }

  /** The options the evidently intended reset passes: the default's own metadata. */
  function DefaultOptions(d: Default): SettingOptions {
    SettingOptions(Some(d.valueType), Some(d.category), Some(Some(d.description)), Some(d.isPublic))
  }

  /** The `SettingsService` singleton: it owns the default table. */
  class SettingsService {
    const defaults: DefaultTable

    constructor()
      ensures defaults == DefaultSettings() && Sound()
    {
      defaults := DefaultSettings();
      DefaultSettingsSound();
    }

    predicate Sound() {
      SoundTable(defaults)
    }

    function DefaultFor(key: string): (r: Option<Default>)
      ensures r.Some? <==> exists j :: 0 <= j < |defaults| && defaults[j].0 == key
      ensures r.Some? ==> (key, r.value) in defaults
    {
      FirstDefault(defaults, key)
    }

    /** `get_setting`: the stored typed value, else the default's value, else the caller's default. */
    function GetSetting(settings: seq<Setting>, key: string, fallback: Value, parse: string -> Option<Value>): (r: Result<Value>)
      ensures FindKey(settings, key).Some? ==> r == GetValue(settings[FindKey(settings, key).value], parse)
      ensures FindKey(settings, key).None? && DefaultFor(key).Some? ==> r == Ok(DefaultFor(key).value.value)
      ensures FindKey(settings, key).None? && DefaultFor(key).None? ==> r == Ok(fallback)
    {
      match FindKey(settings, key)
      case Some(i) => GetValue(settings[i], parse)
      case None =>
        match DefaultFor(key)
        case Some(d) => Ok(d.value)
        case None => Ok(fallback)
    }

    /** The metadata `set_setting` writes: from the call, else from the default table, else the fixed fallbacks. */
    function MetadataFor(key: string, o: SettingOptions): (m: Metadata)
      ensures o.valueType.Some? ==> m.valueType == o.valueType.value
      ensures o.valueType.None? ==> m.valueType == if DefaultFor(key).Some? then DefaultFor(key).value.valueType else "string"
      ensures o.category.Some? ==> m.category == o.category.value
      ensures o.category.None? ==> m.category == if DefaultFor(key).Some? then DefaultFor(key).value.category else "general"
      ensures o.description.Some? ==> m.description == o.description.value
      ensures o.description.None? ==> m.description == if DefaultFor(key).Some? then Some(DefaultFor(key).value.description) else None
      ensures o.isPublic.Some? ==> m.isPublic == o.isPublic.value
      ensures o.isPublic.None? ==> m.isPublic == (DefaultFor(key).Some? && DefaultFor(key).value.isPublic)
    {
      var d := DefaultFor(key);
      Metadata(
        if o.valueType.Some? then o.valueType.value else if d.Some? then d.value.valueType else "string",
        if o.category.Some? then o.category.value else if d.Some? then d.value.category else "general",
        if o.description.Some? then o.description.value else if d.Some? then Some(d.value.description) else None,
        if o.isPublic.Some? then o.isPublic.value else d.Some? && d.value.isPublic)
    }

    /** The table after the service's `set_setting`. */
    function Applied(settings: seq<Setting>, key: string, v: Value, o: SettingOptions, dumps: Value -> string): seq<Setting> {
      var m := MetadataFor(key, o);
      Written(settings, key, v, m.valueType, m.category, m.description, m.isPublic, dumps)
    }

    /** The service's `set_setting`: metadata resolved, then the table's `set_setting`. */
    method SetSetting(table: SettingsTable, key: string, v: Value, o: SettingOptions, dumps: Value -> string) returns (s: Setting)
      modifies table
      ensures table.settings == Applied(old(table.settings), key, v, o, dumps)
      ensures FindKey(table.settings, key).Some? && s == table.settings[FindKey(table.settings, key).value]
    {
      var m := MetadataFor(key, o);
      s := table.SetSetting(key, v, m.valueType, m.category, m.description, m.isPublic, dumps);
    }

    /** Reading a key just written gives the value back, when it has the shape of the type it was written under. */
    lemma SetThenGet(settings: seq<Setting>, key: string, v: Value, o: SettingOptions,
                     dumps: Value -> string, parse: string -> Option<Value>)
      requires UniqueSettingKeys(settings)
      requires WellTyped(Default(v, MetadataFor(key, o).valueType, "", "", false))
      requires v.List? || v.Dict? ==> parse(dumps(v)) == Some(v)
      ensures GetSetting(Applied(settings, key, v, o, dumps), key, Null, parse) == Ok(v)
    {
      var m := MetadataFor(key, o);
      var r := Applied(settings, key, v, o, dumps);
      WrittenKeepsKeys(settings, key, v, m.valueType, m.category, m.description, m.isPublic, dumps);
      var s := r[FindKey(r, key).value];
      assert s.valueType == m.valueType by {
        match FindKey(settings, key)
        case Some(i) =>
        case None =>
      }
      if m.valueType == "integer" {
        IntegerRoundTrip(s.(value := None), v.i, dumps, parse);
      } else if m.valueType == "boolean" {
        BooleanRoundTrip(s.(value := None), v.b, dumps, parse);
      }
    }

    /** `get_settings_by_category`: the stored settings first, then that category's missing defaults. */
    function SettingsByCategory(settings: seq<Setting>, category: string, publicOnly: bool, parse: string -> Option<Value>)
      : (r: Result<seq<Listing>>)
      ensures r.Ok? ==> forall j :: 0 <= j < |r.value| ==> r.value[j].category == category && (publicOnly ==> r.value[j].isPublic)
    {
      var stored :- StoredListing(settings, category, publicOnly, parse);
      Ok(stored + DefaultListing(defaults, category, publicOnly, ListingKeys(stored)))
    }

    /**
     * A category listing names every default of the category (public ones
     * when asked) whether stored or not, and every stored setting of it.
     */
    lemma SettingsByCategoryComplete(settings: seq<Setting>, category: string, publicOnly: bool, parse: string -> Option<Value>)
      requires SettingsByCategory(settings, category, publicOnly, parse).Ok?
      ensures var r := SettingsByCategory(settings, category, publicOnly, parse).value;
              (forall j :: (0 <= j < |defaults| && defaults[j].1.category == category
                            && (!publicOnly || defaults[j].1.isPublic)) ==> defaults[j].0 in ListingKeys(r))
              && (forall s :: s in settings && s.category == category && (!publicOnly || s.isPublic) ==> s.key in ListingKeys(r))
    {
      var stored := StoredListing(settings, category, publicOnly, parse).value;
      var extra := DefaultListing(defaults, category, publicOnly, ListingKeys(stored));
      ListingKeysConcat(stored, extra);
    }

    /** `get_all_settings`: the listing of each category, in category order, leaving out empty ones. */
    function AllSettings(settings: seq<Setting>, cats: seq<string>, publicOnly: bool, parse: string -> Option<Value>)
      : (r: Result<seq<(string, seq<Listing>)>>)
      ensures r.Ok? ==> forall j :: 0 <= j < |r.value| ==>
                          r.value[j].1 != [] && r.value[j].0 in cats
                          && SettingsByCategory(settings, r.value[j].0, publicOnly, parse) == Ok(r.value[j].1)
      ensures r.Ok? ==> forall c :: c in cats ==> SettingsByCategory(settings, c, publicOnly, parse).Ok?
    {
      if cats == [] then Ok([])
      else
        var ls :- SettingsByCategory(settings, cats[0], publicOnly, parse);
        var rest :- AllSettings(settings, cats[1..], publicOnly, parse);
        if ls != [] then Ok([(cats[0], ls)] + rest) else Ok(rest)
    }

    /** Every non-empty category listing is among the groups. */
    lemma {:induction false} AllSettingsListed(settings: seq<Setting>, cats: seq<string>, publicOnly: bool,
                                               parse: string -> Option<Value>, c: string)
      requires AllSettings(settings, cats, publicOnly, parse).Ok? && c in cats
      requires SettingsByCategory(settings, c, publicOnly, parse).value != []
      ensures exists j :: 0 <= j < |AllSettings(settings, cats, publicOnly, parse).value|
                          && AllSettings(settings, cats, publicOnly, parse).value[j].0 == c
    {
      var r := AllSettings(settings, cats, publicOnly, parse).value;
      var ls := SettingsByCategory(settings, cats[0], publicOnly, parse).value;
      var rest := AllSettings(settings, cats[1..], publicOnly, parse).value;
      assert r == if ls != [] then [(cats[0], ls)] + rest else rest;
      if cats[0] == c {
        assert r[0].0 == c;
      } else {
        AllSettingsListed(settings, cats[1..], publicOnly, parse, c);
        var j :| 0 <= j < |rest| && rest[j].0 == c;
        if ls != [] {
          assert r[j + 1].0 == c;
        } else {
          assert r[j].0 == c;
        }
      }
    }

    /** Without `public_only`, every category is listed, since each one has defaults. */
    lemma AllCategoriesListed(settings: seq<Setting>, parse: string -> Option<Value>, c: string)
      requires Sound() && AllSettings(settings, Categories, false, parse).Ok? && c in Categories
      ensures exists j :: 0 <= j < |AllSettings(settings, Categories, false, parse).value|
                          && AllSettings(settings, Categories, false, parse).value[j].0 == c
    {
      SettingsByCategoryComplete(settings, c, false, parse);
      var j :| 0 <= j < |defaults| && defaults[j].1.category == c;
      assert defaults[j].0 in ListingKeys(SettingsByCategory(settings, c, false, parse).value);
      AllSettingsListed(settings, Categories, false, parse, c);
    }

    /** `get_public_settings`: stored public values, then public defaults for the keys still missing. */
    function PublicSettings(settings: seq<Setting>, parse: string -> Option<Value>): (r: Result<Record>)
      ensures r.Ok? ==> forall j :: 0 <= j < |defaults| && defaults[j].1.isPublic ==> HasKey(r.value, defaults[j].0)
    {
      var stored :- PublicStored(settings, parse);
      Ok(PublicDefaults(stored, defaults))
    }

    /** A stored public value wins over its default. */
    lemma PublicSettingsPreferStored(settings: seq<Setting>, parse: string -> Option<Value>, i: nat)
      requires PublicSettings(settings, parse).Ok? && UniqueSettingKeys(settings) && i < |settings| && settings[i].isPublic
      ensures GetValue(settings[i], parse).Ok?
      ensures Get(PublicSettings(settings, parse).value, settings[i].key) == Some(GetValue(settings[i], parse).value)
    {
      PublicStoredHas(settings, parse, i);
    }

    /** The table after `update_settings`: each pair written in dict order, without options. */
    function AppliedAll(settings: seq<Setting>, changes: Record, dumps: Value -> string): seq<Setting> {
      if changes == [] then settings
      else
        var init := changes[..|changes| - 1];
        var (k, v) := changes[|changes| - 1];
        Applied(AppliedAll(settings, init, dumps), k, v, NoOptions, dumps)
    }

    /** `update_settings`: every pair written; each one counts as updated. */
    method UpdateSettings(table: SettingsTable, changes: Record, dumps: Value -> string) returns (updated: nat)
      modifies table
      ensures table.settings == AppliedAll(old(table.settings), changes, dumps)
      ensures updated == |changes|
    {
      updated := 0;
      var k := 0;
      while k < |changes|
        invariant 0 <= k <= |changes| && updated == k
        invariant table.settings == AppliedAll(old(table.settings), changes[..k], dumps)
      {
        assert changes[..k + 1][..k] == changes[..k];
        var _ := SetSetting(table, changes[k].0, changes[k].1, NoOptions, dumps);
        updated := updated + 1;
        k := k + 1;
      }
      assert changes[..k] == changes;
    }

    /** A batch update keeps keys unique and puts every changed key in the table. */
    lemma {:induction false} AppliedAllKeys(settings: seq<Setting>, changes: Record, dumps: Value -> string)
      requires UniqueSettingKeys(settings)
      ensures UniqueSettingKeys(AppliedAll(settings, changes, dumps))
      ensures forall j :: 0 <= j < |changes| ==> FindKey(AppliedAll(settings, changes, dumps), changes[j].0).Some?
    {
      if changes != [] {
        var init := changes[..|changes| - 1];
        AppliedAllKeys(settings, init, dumps);
        var (k, v) := changes[|changes| - 1];
        var m := MetadataFor(k, NoOptions);
        var before := AppliedAll(settings, init, dumps);
        WrittenKeepsKeys(before, k, v, m.valueType, m.category, m.description, m.isPublic, dumps);
        var r := Written(before, k, v, m.valueType, m.category, m.description, m.isPublic, dumps);
        assert AppliedAll(settings, changes, dumps) == r;
        forall j | 0 <= j < |changes| ensures FindKey(r, changes[j].0).Some? {
          var key := changes[j].0;
          if key != k {
            assert j < |init| && init[j] == changes[j];
            assert FindKey(before, key).Some?;
            assert FindKey(r, key) == FindKey(before, key);
          }
        }
      }
    }

    /** `delete_setting`: a missing key is refused; otherwise its row is removed. */
    method DeleteSetting(table: SettingsTable, key: string) returns (ok: bool, message: string)
      modifies table
      ensures ok <==> FindKey(old(table.settings), key).Some?
      ensures !ok ==> message == NoSuchSetting && table.settings == old(table.settings)
      ensures ok ==> message == SettingDeleted &&
                     var i := FindKey(old(table.settings), key).value;
                     table.settings == old(table.settings)[..i] + old(table.settings)[i + 1..]
    {
      var found := FindKey(table.settings, key);
      if found.None? {
        return false, NoSuchSetting;
      }
      var i := found.value;
      table.settings := table.settings[..i] + table.settings[i + 1..];
      return true, SettingDeleted;
    }

    /**
     * `reset_to_default` as written: a key without a default is refused;
     * for every other key the call passes the default's `value` both
     * positionally and among the keyword arguments, which raises before
     * anything is written.
     */
    function ResetToDefaultAsWritten(key: string): (r: Result<(bool, string)>)
      ensures DefaultFor(key).None? ==> r == Ok((false, NoDefault))
      ensures DefaultFor(key).Some? ==> r == Err(DuplicateValue)
    {
      if DefaultFor(key).None? then Ok((false, NoDefault)) else Err(DuplicateValue)
    }

    /** `reset_to_default` as intended: write the default's value with its metadata. */
    method ResetToDefault(table: SettingsTable, key: string, dumps: Value -> string) returns (ok: bool, message: string)
      modifies table
      ensures DefaultFor(key).None? ==> !ok && message == NoDefault && table.settings == old(table.settings)
      ensures DefaultFor(key).Some? ==>
                ok && message == ResetDone &&
                var d := DefaultFor(key).value;
                table.settings == Applied(old(table.settings), key, d.value, DefaultOptions(d), dumps)
    {
      var d := DefaultFor(key);
      if d.None? {
        return false, NoDefault;
      }
      var _ := SetSetting(table, key, d.value.value, DefaultOptions(d.value), dumps);
      return true, ResetDone;
    }

    /** After the intended reset, reading the key gives the default's value back. */
    lemma ResetRestoresDefault(settings: seq<Setting>, key: string, dumps: Value -> string, parse: string -> Option<Value>)
      requires Sound() && UniqueSettingKeys(settings) && DefaultFor(key).Some?
      requires var v := DefaultFor(key).value.value; v.List? || v.Dict? ==> parse(dumps(v)) == Some(v)
      ensures var d := DefaultFor(key).value;
              GetSetting(Applied(settings, key, d.value, DefaultOptions(d), dumps), key, Null, parse) == Ok(d.value)
    {
      var d := DefaultFor(key).value;
      var j :| 0 <= j < |defaults| && defaults[j] == (key, d);
      assert WellTyped(defaults[j].1);
      SetThenGet(settings, key, d.value, DefaultOptions(d), dumps, parse);
    }

    /** `reset_category_to_default` as written: the first default of the category raises, so only a category without defaults returns 0. */
    function ResetCategoryAsWritten(category: string): (r: Result<nat>)
      ensures r.Ok? <==> CategoryKeys(defaults, category) == []
      ensures r.Ok? ==> r.value == 0
    {
      if CategoryKeys(defaults, category) == [] then Ok(0) else Err(DuplicateValue)
    }

    /** Every listed category raises as written. */
    lemma EveryCategoryResetRaises(category: string)
      requires Sound() && category in Categories
      ensures ResetCategoryAsWritten(category).Err?
    {
    }

    /** The table after the intended reset of each key of `keys` in turn; a key without a default is left alone. */
    function ResetAll(settings: seq<Setting>, keys: seq<string>, dumps: Value -> string): seq<Setting> {
      if keys == [] then settings
      else
        var init := keys[..|keys| - 1];
        var key := keys[|keys| - 1];
        var before := ResetAll(settings, init, dumps);
        match DefaultFor(key)
        case None => before
        case Some(d) => Applied(before, key, d.value, DefaultOptions(d), dumps)
    }

    /** `reset_category_to_default` as intended: every default of the category reset; the count is how many. */
    method ResetCategory(table: SettingsTable, category: string, dumps: Value -> string) returns (count: nat)
      modifies table
      ensures table.settings == ResetAll(old(table.settings), CategoryKeys(defaults, category), dumps)
      ensures count == |CategoryKeys(defaults, category)|
    {
      var keys := CategoryKeys(defaults, category);
      count := 0;
      var k := 0;
      while k < |keys|
        invariant 0 <= k <= |keys| && count == k
        invariant table.settings == ResetAll(old(table.settings), keys[..k], dumps)
      {
        assert keys[..k + 1][..k] == keys[..k];
        var ok, _ := ResetToDefault(table, keys[k], dumps);
        assert keys[k] in keys;
        if ok {
          count := count + 1;
        }
        k := k + 1;
      }
      assert keys[..k] == keys;
    }

    /** A reset of several keys keeps keys unique and leaves the row of every other key where and as it was. */
    lemma {:induction false} ResetAllKeepsOthers(settings: seq<Setting>, keys: seq<string>, dumps: Value -> string)
      requires UniqueSettingKeys(settings)
      ensures var r := ResetAll(settings, keys, dumps);
              UniqueSettingKeys(r)
              && (forall k :: k !in keys ==>
                    FindKey(r, k) == FindKey(settings, k)
                    && (FindKey(r, k).Some? ==> r[FindKey(r, k).value] == settings[FindKey(settings, k).value]))
    {
      if keys != [] {
        var init := keys[..|keys| - 1];
        var key := keys[|keys| - 1];
        ResetAllKeepsOthers(settings, init, dumps);
        var before := ResetAll(settings, init, dumps);
        match DefaultFor(key)
        case None =>
        case Some(d) =>
          var m := MetadataFor(key, DefaultOptions(d));
          WrittenKeepsKeys(before, key, d.value, m.valueType, m.category, m.description, m.isPublic, dumps);
          WrittenKeepsRows(before, key, d.value, m.valueType, m.category, m.description, m.isPublic, dumps);
      }
    }

    /** A key's default, when it is a list or a dict, survives the text round trip. */
    predicate DefaultRoundTrips(key: string, dumps: Value -> string, parse: string -> Option<Value>) {
      DefaultFor(key).Some? ==>
        var v := DefaultFor(key).value.value;
        v.List? || v.Dict? ==> parse(dumps(v)) == Some(v)
    }

    /** Writing one key does not change what another key reads. */
    lemma AppliedKeepsGet(settings: seq<Setting>, key: string, v: Value, o: SettingOptions, dumps: Value -> string,
                          parse: string -> Option<Value>, other: string)
      requires UniqueSettingKeys(settings) && other != key
      ensures GetSetting(Applied(settings, key, v, o, dumps), other, Null, parse) == GetSetting(settings, other, Null, parse)
    {
      var m := MetadataFor(key, o);
      WrittenKeepsKeys(settings, key, v, m.valueType, m.category, m.description, m.isPublic, dumps);
      WrittenKeepsRows(settings, key, v, m.valueType, m.category, m.description, m.isPublic, dumps);
    }

    /** After the intended reset of several keys, each of them with a default reads back the default's value. */
    lemma {:induction false} ResetAllRestores(settings: seq<Setting>, keys: seq<string>, dumps: Value -> string,
                                              parse: string -> Option<Value>, key: string)
      requires Sound() && UniqueSettingKeys(settings) && key in keys && DefaultFor(key).Some?
      requires forall k :: k in keys ==> DefaultRoundTrips(k, dumps, parse)
      ensures GetSetting(ResetAll(settings, keys, dumps), key, Null, parse) == Ok(DefaultFor(key).value.value)
    {
      var init := keys[..|keys| - 1];
      var last := keys[|keys| - 1];
      var before := ResetAll(settings, init, dumps);
      ResetAllKeepsOthers(settings, init, dumps);
      if last == key {
        assert DefaultRoundTrips(key, dumps, parse);
        ResetRestoresDefault(before, key, dumps, parse);
      } else {
        InFront(keys, key);
        assert forall k :: k in init ==> k in keys;
        ResetAllRestores(settings, init, dumps, parse, key);
        match DefaultFor(last)
        case None =>
        case Some(d) =>
          AppliedKeepsGet(before, last, d.value, DefaultOptions(d), dumps, parse, key);
      }
    }

    /**
     * After the intended category reset, every default of the category reads
     * back as its value and every setting outside the category's defaults
     * keeps its row.
     */
    lemma ResetCategoryEffect(settings: seq<Setting>, category: string, dumps: Value -> string, parse: string -> Option<Value>)
      requires Sound() && UniqueSettingKeys(settings)
      requires forall j :: 0 <= j < |defaults| ==>
                 (defaults[j].1.value.List? || defaults[j].1.value.Dict? ==> parse(dumps(defaults[j].1.value)) == Some(defaults[j].1.value))
      ensures var r := ResetAll(settings, CategoryKeys(defaults, category), dumps);
              UniqueSettingKeys(r)
              && (forall k :: k in CategoryKeys(defaults, category) ==>
                    DefaultFor(k).Some? && GetSetting(r, k, Null, parse) == Ok(DefaultFor(k).value.value))
              && (forall k :: k !in CategoryKeys(defaults, category) ==>
                    FindKey(r, k) == FindKey(settings, k)
                    && (FindKey(r, k).Some? ==> r[FindKey(r, k).value] == settings[FindKey(settings, k).value]))
    {
      var keys := CategoryKeys(defaults, category);
      ResetAllKeepsOthers(settings, keys, dumps);
      forall k | k in keys ensures DefaultRoundTrips(k, dumps, parse) {
        var j :| 0 <= j < |defaults| && defaults[j] == (k, DefaultFor(k).value);
      }
      forall k | k in keys
        ensures DefaultFor(k).Some? && GetSetting(ResetAll(settings, keys, dumps), k, Null, parse) == Ok(DefaultFor(k).value.value)
      {
        ResetAllRestores(settings, keys, dumps, parse, k);
      }
    }
  }

  /** An element other than the last one is in the front of the sequence. */
  lemma InFront(keys: seq<string>, key: string)
    requires key in keys && keys[|keys| - 1] != key
    ensures key in keys[..|keys| - 1]
  {
    var j :| 0 <= j < |keys| && keys[j] == key;
    assert keys[..|keys| - 1][j] == key;
  }

  /** Writing one key leaves the row of every other key as it was. */
  lemma WrittenKeepsRows(settings: seq<Setting>, key: string, v: Value, valueType: string, category: string,
                         description: Option<string>, isPublic: bool, dumps: Value -> string)
    requires UniqueSettingKeys(settings)
    ensures var r := Written(settings, key, v, valueType, category, description, isPublic, dumps);
            forall k :: k != key && FindKey(settings, k).Some? ==> r[FindKey(settings, k).value] == settings[FindKey(settings, k).value]
  {
  }

  /** The rows after deleting position i are the rows before and after it, shifted down by one past i. */
  lemma DeleteShifts(settings: seq<Setting>, i: nat)
    requires i < |settings|
    ensures var r := settings[..i] + settings[i + 1..];
            |r| == |settings| - 1 && forall j :: 0 <= j < |r| ==> r[j] == settings[if j < i then j else j + 1]
  {
  }

  /** Deleting the row of a key leaves no row with that key, and the keys unique. */
  lemma DeleteLeavesNoKey(settings: seq<Setting>, key: string, i: nat)
    requires UniqueSettingKeys(settings) && FindKey(settings, key) == Some(i)
    ensures var r := settings[..i] + settings[i + 1..];
            FindKey(r, key).None? && UniqueSettingKeys(r)
  {
    var r := settings[..i] + settings[i + 1..];
    DeleteShifts(settings, i);
    forall a, b | 0 <= a < b < |r| ensures r[a].key != r[b].key {
      assert r[a] == settings[if a < i then a else a + 1];
      assert r[b] == settings[if b < i then b else b + 1];
    }
    forall j | 0 <= j < |r| ensures r[j].key != key {
      assert r[j] == settings[if j < i then j else j + 1];
    }
  }

  /** Deleting the row of a key keeps every row with another key. */
  lemma DeleteKeepsOthers(settings: seq<Setting>, key: string, i: nat)
    requires FindKey(settings, key) == Some(i)
    ensures var r := settings[..i] + settings[i + 1..];
            forall s :: s in settings && s.key != key ==> s in r
  {
    var r := settings[..i] + settings[i + 1..];
    DeleteShifts(settings, i);
    forall s | s in settings && s.key != key ensures s in r {
      var j :| 0 <= j < |settings| && settings[j] == s;
      assert r[if j < i then j else j - 1] == s;
    }
  }

  /** Deleting a key from a table with unique keys leaves it absent and every other row present. */
  lemma DeleteRemovesKey(settings: seq<Setting>, key: string, i: nat)
    requires UniqueSettingKeys(settings) && FindKey(settings, key) == Some(i)
    ensures var r := settings[..i] + settings[i + 1..];
            FindKey(r, key).None? && UniqueSettingKeys(r)
            && forall s :: s in settings && s.key != key ==> s in r
  {
    DeleteLeavesNoKey(settings, key, i);
    DeleteKeepsOthers(settings, key, i);
  }

}
