/**
 * The in-memory template store (backend/services/template_service.py): a list
 * of template dicts seeded with four defaults. Uuids and clock readings are
 * parameters.
 */
module InMemoryTemplates {
  import opened Wrappers
  import opened Values

  /** One stored template dict; the values taken from request data keep their JSON type. */
  datatype Entry = Entry(
    id: string,
    name: Value,
    description: Value,
    category: Value,
    fields: Value,
    createdAt: string,
    updatedAt: string)

  const SeedTime := "2024-01-01T00:00:00.000Z"

  function FieldSpec(id: string, name: string, kind: string): Value {
    Dict([("id", Str(id)), ("name", Str(name)), ("type", Str(kind))])
  }

  function Seed(id: string, name: string, description: string, category: string, fields: seq<Value>): Entry {
    Entry(id, Str(name), Str(description), Str(category), List(fields), SeedTime, SeedTime)
  }

  /** The four default templates the store starts with. */
  function Defaults(): (ts: seq<Entry>)
    ensures |ts| == 4
    ensures forall k :: 0 <= k < 4 ==> ts[k].createdAt == SeedTime && ts[k].updatedAt == SeedTime
    ensures ts[0].id == "default-1" && ts[1].id == "default-2" && ts[2].id == "default-3" && ts[3].id == "default-4"
    ensures ts[0].category == Str("user") && ts[1].category == Str("order")
            && ts[2].category == Str("product") && ts[3].category == Str("finance")
  {
    [ Seed("default-1", "用户注册数据", "包含用户注册所需的基本信息字段", "user",
           [FieldSpec("d1-1", "user_id", "uuid"), FieldSpec("d1-2", "username", "chineseName"),
            FieldSpec("d1-3", "email", "email"), FieldSpec("d1-4", "phone", "chinesePhone"),
            FieldSpec("d1-5", "password", "string"), FieldSpec("d1-6", "created_at", "datetime")]),
      Seed("default-2", "电商订单数据", "电商平台订单测试数据模板", "order",
           [FieldSpec("d2-1", "order_id", "uuid"), FieldSpec("d2-2", "customer_name", "chineseName"),
            FieldSpec("d2-3", "total_amount", "amount"), FieldSpec("d2-4", "shipping_address", "chineseAddress"),
            FieldSpec("d2-5", "order_date", "datetime"), FieldSpec("d2-6", "phone", "chinesePhone")]),
      Seed("default-3", "商品信息数据", "商品基础信息测试数据", "product",
           [FieldSpec("d3-1", "product_id", "uuid"), FieldSpec("d3-2", "product_name", "word"),
            FieldSpec("d3-3", "price", "amount"), FieldSpec("d3-4", "description", "sentence"),
            FieldSpec("d3-5", "created_at", "datetime")]),
      Seed("default-4", "财务流水数据", "财务交易流水测试数据", "finance",
           [FieldSpec("d4-1", "transaction_id", "uuid"), FieldSpec("d4-2", "account_name", "chineseName"),
            FieldSpec("d4-3", "bank_card", "bankCard"), FieldSpec("d4-4", "amount", "amount"),
            FieldSpec("d4-5", "transaction_time", "datetime")]) ]
  }

  /** The position of the first template with this id. */
  function FirstWithId(ts: seq<Entry>, id: string): (r: Option<nat>)
    ensures r.Some? ==> r.value < |ts| && ts[r.value].id == id && forall j :: 0 <= j < r.value ==> ts[j].id != id
    ensures r.None? ==> forall j :: 0 <= j < |ts| ==> ts[j].id != id
  {
    if ts == [] then None
    else if ts[0].id == id then Some(0)
    else match FirstWithId(ts[1..], id)
      case None => None
      case Some(i) => Some(i + 1)
  }

  /** The templates of one category, in store order. */
  function InCategory(ts: seq<Entry>, category: string): (r: seq<Entry>)
    ensures forall t :: t in r <==> t in ts && t.category == Str(category)
    ensures |r| <= |ts|
  {
    if ts == [] then []
    else
      var t := ts[0];
      (if t.category == Str(category) then [t] else []) + InCategory(ts[1..], category)
  }

  /** Filtering distributes over concatenation, so the kept templates stay in store order. */
  lemma {:induction false} InCategoryConcat(a: seq<Entry>, b: seq<Entry>, category: string)
    ensures InCategory(a + b, category) == InCategory(a, category) + InCategory(b, category)
  {
    if a != [] {
      assert (a + b)[1..] == a[1..] + b;
      InCategoryConcat(a[1..], b, category);
    } else {
      assert a + b == b;
    }
  }

  /** The templates whose id differs, in store order. */
  function WithoutId(ts: seq<Entry>, id: string): (r: seq<Entry>)
    ensures forall t :: t in r <==> t in ts && t.id != id
    ensures |r| <= |ts|
  {
    if ts == [] then []
    else
      var t := ts[0];
      (if t.id != id then [t] else []) + WithoutId(ts[1..], id)
  }

  /** Removal shortens the list exactly when some template had the id. */
  lemma {:induction false} WithoutIdShrinks(ts: seq<Entry>, id: string)
    ensures |WithoutId(ts, id)| < |ts| <==> FirstWithId(ts, id).Some?
    ensures FirstWithId(ts, id).None? ==> WithoutId(ts, id) == ts
  {
    if ts != [] {
      WithoutIdShrinks(ts[1..], id);
    }
  }

  /** Removal keeps the order of the rest. */
  lemma {:induction false} WithoutIdConcat(a: seq<Entry>, b: seq<Entry>, id: string)
    ensures WithoutId(a + b, id) == WithoutId(a, id) + WithoutId(b, id)
  {
    if a != [] {
      assert (a + b)[1..] == a[1..] + b;
      WithoutIdConcat(a[1..], b, id);
    } else {
      assert a + b == b;
    }
  }

  /** The dict `create` builds: request values with their defaults, both timestamps equal to now. */
  function Created(data: Record, id: string, now: string): (t: Entry)
    ensures t.id == id && t.createdAt == now && t.updatedAt == now
    ensures HasKey(data, "category") ==> t.category == Get(data, "category").value
    ensures !HasKey(data, "category") ==> t.category == Str("other")
    ensures t.name == (if HasKey(data, "name") then Get(data, "name").value else Str(""))
    ensures t.description == (if HasKey(data, "description") then Get(data, "description").value else Str(""))
    ensures t.fields == (if HasKey(data, "fields") then Get(data, "fields").value else List([]))
  {
    Entry(id, GetOr(data, "name", Str("")), GetOr(data, "description", Str("")),
          GetOr(data, "category", Str("other")), GetOr(data, "fields", List([])), now, now)
  }

  /** The dict after `update`: each of the four keys taken from the request when present; `updatedAt` refreshed. */
  function Updated(t: Entry, data: Record, now: string): (r: Entry)
    ensures r.id == t.id && r.createdAt == t.createdAt && r.updatedAt == now
    ensures r.name == (if HasKey(data, "name") then Get(data, "name").value else t.name)
    ensures r.description == (if HasKey(data, "description") then Get(data, "description").value else t.description)
    ensures r.category == (if HasKey(data, "category") then Get(data, "category").value else t.category)
    ensures r.fields == (if HasKey(data, "fields") then Get(data, "fields").value else t.fields)
  {
    t.(name := GetOr(data, "name", t.name), description := GetOr(data, "description", t.description),
       category := GetOr(data, "category", t.category), fields := GetOr(data, "fields", t.fields),
       updatedAt := now)
  }

  /** An update with the same data and time is idempotent; an empty update only refreshes the timestamp. */
  lemma UpdatedIdempotent(t: Entry, data: Record, now: string)
    ensures Updated(Updated(t, data, now), data, now) == Updated(t, data, now)
    ensures Updated(t, [], now) == t.(updatedAt := now)
  {
  }

  class TemplateService {
    var templates: seq<Entry>

    /** The store starts with exactly the four defaults. */
    constructor()
      ensures templates == Defaults()
    {
      templates := Defaults();
    }

    /** `get_by_id`: the first template with that id, or None. */
    function GetById(id: string): (r: Option<Entry>)
      reads this
      ensures r.Some? <==> FirstWithId(templates, id).Some?
      ensures r.Some? ==> r.value == templates[FirstWithId(templates, id).value] && r.value.id == id
    {
      match FirstWithId(templates, id)
      case None => None
      case Some(i) => Some(templates[i])
    }

    /** `get_by_category`: the templates of that category, in order. */
    function GetByCategory(category: string): (r: seq<Entry>)
      reads this
      ensures r == InCategory(templates, category)
    {
      InCategory(templates, category)
    }

    /** `create`: exactly one template appended. */
    method Create(data: Record, id: string, now: string) returns (t: Entry)
      modifies this
      ensures t == Created(data, id, now) && templates == old(templates) + [t]
    {
      t := Created(data, id, now);
      templates := templates + [t];
    }

    /** `update`: None and no change for an unknown id; otherwise the first template with that id is updated in place. */
    method Update(id: string, data: Record, now: string) returns (r: Option<Entry>)
      modifies this
      ensures r.None? <==> FirstWithId(old(templates), id).None?
      ensures r.None? ==> templates == old(templates)
      ensures r.Some? ==>
                var i := FirstWithId(old(templates), id).value;
                r.value == Updated(old(templates)[i], data, now) && templates == old(templates)[i := r.value]
    {
      var found := FirstWithId(templates, id);
      if found.None? {
        return None;
      }
      var i := found.value;
      var t := Updated(templates[i], data, now);
      templates := templates[i := t];
      r := Some(t);
    }

    /** `delete`: every template with that id removed, the rest kept in order; true iff the list got shorter. */
    method Delete(id: string) returns (deleted: bool)
      modifies this
      ensures templates == WithoutId(old(templates), id)
      ensures deleted <==> FirstWithId(old(templates), id).Some?
    {
      var before := |templates|;
      WithoutIdShrinks(templates, id);
      templates := WithoutId(templates, id);
      deleted := |templates| < before;
    }
  }
}
