/**
 * The dynamic values the services pass around: what json.loads yields and
 * what the ORM columns hold (floats are not modelled), and Python's dict as an
 * insertion-ordered association list.
 */
module Values {
  import opened Wrappers
  import opened Text
  import opened Sorting

  datatype Value =
    | Null
    | Bool(b: bool)
    | Int(i: int)
    | Str(s: string)
    | List(items: seq<Value>)
    | Dict(entries: seq<(string, Value)>)

  /** A Python dict with string keys; its entries appear in insertion order. */
  type Record = seq<(string, Value)>

  function Keys(r: Record): (ks: seq<string>)
    ensures |ks| == |r| && forall i :: 0 <= i < |r| ==> ks[i] == r[i].0
  {
    if r == [] then [] else [r[0].0] + Keys(r[1..])
  }

  predicate HasKey(r: Record, k: string) {
    k in Keys(r)
  }

  /** No key occurs twice: every dict the program builds has this shape. */
  predicate UniqueKeys(r: Record) {
    forall i, j :: 0 <= i < j < |r| ==> r[i].0 != r[j].0
  }

  /** d.get(k): the value stored under k, if any. */
  function Get(r: Record, k: string): (v: Option<Value>)
    ensures v.Some? <==> HasKey(r, k)
  {
    if r == [] then None else if r[0].0 == k then Some(r[0].1) else Get(r[1..], k)
  }

  /** The value of the first entry with key k is what d.get(k) returns. */
  lemma {:induction false} GetAt(r: Record, i: nat, k: string)
    requires i < |r| && r[i].0 == k
    requires forall j :: 0 <= j < i ==> r[j].0 != k
    ensures Get(r, k) == Some(r[i].1)
  {
    if i > 0 {
      GetAt(r[1..], i - 1, k);
    }
  }

  /** d.get(k, default). */
  function GetOr(r: Record, k: string, default: Value): Value {
    Get(r, k).GetOr(default)
  }

  /** d[k] = v: an existing key keeps its position, a new key goes last. */
  function Put(r: Record, k: string, v: Value): (r': Record)
    ensures Keys(r') == if HasKey(r, k) then Keys(r) else Keys(r) + [k]
  {
    if r == [] then [(k, v)]
    else if r[0].0 == k then [(k, v)] + r[1..]
    else [r[0]] + Put(r[1..], k, v)
  }

  lemma {:induction false} GetPut(r: Record, k: string, v: Value, k2: string)
    ensures Get(Put(r, k, v), k2) == if k2 == k then Some(v) else Get(r, k2)
  {
    if r != [] && r[0].0 != k {
      GetPut(r[1..], k, v, k2);
    }
  }

  lemma {:induction false} PutKeepsUnique(r: Record, k: string, v: Value)
    requires UniqueKeys(r)
    ensures UniqueKeys(Put(r, k, v))
  {
    if r != [] && r[0].0 != k {
      PutKeepsUnique(r[1..], k, v);
      var t := Put(r[1..], k, v);
      assert Keys(t) == if HasKey(r[1..], k) then Keys(r[1..]) else Keys(r[1..]) + [k];
      forall j | 0 <= j < |t| ensures t[j].0 != r[0].0 {
        assert t[j].0 == Keys(t)[j];
        assert Keys(r[1..])[..] == Keys(r)[1..];
      }
    }
  }

  function Names<T>(ps: seq<(string, T)>): (ns: seq<string>)
    ensures |ns| == |ps| && forall i :: 0 <= i < |ps| ==> ns[i] == ps[i].0
  {
    if ps == [] then [] else Names(ps[..|ps| - 1]) + [ps[|ps| - 1].0]
  }

  /** The dict `record[name] = value` builds, assigning the pairs in order. */
  function Assign(ps: seq<(string, Value)>): Record {
    if ps == [] then [] else Put(Assign(ps[..|ps| - 1]), ps[|ps| - 1].0, ps[|ps| - 1].1)
  }

  /** The value the last pair named `k` assigns. */
  function LastValue(ps: seq<(string, Value)>, k: string): Option<Value> {
    if ps == [] then None
    else if ps[|ps| - 1].0 == k then Some(ps[|ps| - 1].1)
    else LastValue(ps[..|ps| - 1], k)
  }

  /** The assigned dict has a key exactly for each name. */
  lemma {:induction false} AssignKeys(ps: seq<(string, Value)>, k: string)
    ensures HasKey(Assign(ps), k) <==> k in Names(ps)
  {
    if ps != [] {
      var init := ps[..|ps| - 1];
      var last := ps[|ps| - 1];
      AssignKeys(init, k);
      var before := Keys(Assign(init));
      var after := Keys(Assign(ps));
      assert after == if last.0 in before then before else before + [last.0];
      assert k in after <==> k in before || k == last.0;
      assert Names(ps) == Names(init) + [last.0];
      assert k in Names(ps) <==> k in Names(init) || k == last.0;
    }
  }

  /** No key of the assigned dict occurs twice, so it has at most one entry per pair. */
  lemma {:induction false} AssignUnique(ps: seq<(string, Value)>)
    ensures UniqueKeys(Assign(ps)) && |Assign(ps)| <= |ps|
  {
    if ps != [] {
      var init := ps[..|ps| - 1];
      var last := ps[|ps| - 1];
      AssignUnique(init);
      PutKeepsUnique(Assign(init), last.0, last.1);
      assert |Keys(Assign(ps))| == |Assign(ps)| && |Keys(Assign(init))| == |Assign(init)|;
    }
  }

  /** A later pair with the same name overwrites an earlier one. */
  lemma {:induction false} AssignGet(ps: seq<(string, Value)>, k: string)
    ensures Get(Assign(ps), k) == LastValue(ps, k)
  {
    if ps != [] {
      var init := ps[..|ps| - 1];
      var last := ps[|ps| - 1];
      AssignGet(init, k);
      GetPut(Assign(init), last.0, last.1, k);
    }
  }

  /** With distinct names the keys are the names, in order. */
  lemma {:induction false} AssignDistinct(ps: seq<(string, Value)>)
    requires forall i, j :: 0 <= i < j < |ps| ==> ps[i].0 != ps[j].0
    ensures Keys(Assign(ps)) == Names(ps)
  {
    if ps != [] {
      var init := ps[..|ps| - 1];
      var last := ps[|ps| - 1];
      AssignDistinct(init);
      assert Names(init) == Names(ps)[..|ps| - 1];
      assert last.0 !in Names(init);
    }
  }

  /** type(v).__name__. */
  function TypeName(v: Value): string {
    match v
    case Null => "NoneType"
    case Bool(_) => "bool"
    case Int(_) => "int"
    case Str(_) => "str"
    case List(_) => "list"
    case Dict(_) => "dict"
  }

  /** The AttributeError `v.get(...)` raises on a value that is not a dict. */
  function NoGet(v: Value): string {
    "'" + TypeName(v) + "' object has no attribute 'get'"
  }

  /** The number a bool or an int stands for: True is 1 and False is 0. */
  function Number(v: Value): int
    requires v.Bool? || v.Int?
  {
    if v.Bool? then (if v.b then 1 else 0) else v.i
  }

  /** Python's ==: True == 1 and False == 0, lists element by element, dicts key by key. */
  predicate PyEq(a: Value, b: Value)
    decreases a
  {
    match a
    case Null => b.Null?
    case Bool(_) => (b.Bool? || b.Int?) && Number(a) == Number(b)
    case Int(_) => (b.Bool? || b.Int?) && Number(a) == Number(b)
    case Str(s) => b.Str? && b.s == s
    case List(xs) =>
      b.List? && |xs| == |b.items| && forall i :: 0 <= i < |xs| ==> PyEq(xs[i], b.items[i])
    case Dict(es) =>
      b.Dict? && |es| == |b.entries|
      && forall i :: 0 <= i < |es| ==> HasKey(b.entries, es[i].0) && PyEq(es[i].1, Get(b.entries, es[i].0).value)
  }

  /** Python's `x in container`, or the TypeError's text where Python raises. */
  function PyIn(x: Value, container: Value): Result<bool> {
    match container
    case List(items) => Ok(exists i :: 0 <= i < |items| && PyEq(x, items[i]))
    case Dict(entries) =>
      if x.List? || x.Dict? then Err(Unhashable(x))
      else Ok(x.Str? && HasKey(entries, x.s))
    case Str(s) =>
      if x.Str? then Ok(Contains(s, x.s))
      else Err("'in <string>' requires string as left operand, not " + TypeName(x))
    case _ => Err("argument of type '" + TypeName(container) + "' is not iterable")
  }

  /** A bool or an int: the values Python compares and indexes with as integers. */
  predicate Numeric(v: Value) {
    v.Int? || v.Bool?
  }

  /** The TypeError an ordering comparison between these values raises. */
  function Unorderable(op: string, left: Value, right: Value): string {
    "'" + op + "' not supported between instances of '" + TypeName(left) + "' and '" + TypeName(right) + "'"
  }

  /** The TypeError a list or dict raises as a dict key. */
  function Unhashable(v: Value): string {
    "unhashable type: '" + TypeName(v) + "'"
  }

  /** The first of the keys that is also one of the names: the argument a call binds twice. */
  function FirstIn(keys: seq<string>, names: seq<string>): (r: Option<string>)
    ensures r.Some? ==> r.value in keys && r.value in names
    ensures r.None? <==> forall k :: k in keys ==> k !in names
  {
    if keys == [] then None else if keys[0] in names then Some(keys[0]) else FirstIn(keys[1..], names)
  }

  /** Python truthiness: None, False, 0, '' and empty collections are false. */
  predicate Truthy(v: Value) {
    match v
    case Null => false
    case Bool(b) => b
    case Int(i) => i != 0
    case Str(s) => s != ""
    case List(items) => items != []
    case Dict(entries) => entries != []
  }

  /** Each single quote preceded by a backslash. */
  function EscapeSingleQuotes(s: string): (r: string)
    ensures '\'' !in s ==> r == s
    ensures |r| >= |s|
  {
    if s == [] then []
    else (if s[0] == '\'' then ['\\', '\''] else [s[0]]) + EscapeSingleQuotes(s[1..])
  }

  /**
   * repr() of a text: in double quotes when it holds a single quote and no
   * double quote, otherwise in single quotes with any single quote escaped
   * (backslashes and non-printable characters are not escaped here).
   */
  function StrRepr(s: string): (r: string)
    ensures '\'' !in s ==> r == "'" + s + "'"
    ensures '\'' in s && '"' !in s ==> r == "\"" + s + "\""
    ensures |r| >= 2 && r[0] == r[|r| - 1] && (r[0] == '\'' || r[0] == '"')
  {
    if '\'' in s && '"' !in s then "\"" + s + "\"" else "'" + EscapeSingleQuotes(s) + "'"
  }

  /** repr() of a value. */
  function Repr(v: Value): string
    decreases v, 1
  {
    match v
    case Str(s) => StrRepr(s)
    case _ => PyStr(v)
  }

  function ReprItems(items: seq<Value>, parent: Value): string
    requires forall i :: 0 <= i < |items| ==> items[i] < parent
    decreases parent, 0, |items|
  {
    if items == [] then ""
    else if |items| == 1 then Repr(items[0])
    else Repr(items[0]) + ", " + ReprItems(items[1..], parent)
  }

  function ReprEntries(entries: seq<(string, Value)>, parent: Value): string
    requires forall i :: 0 <= i < |entries| ==> entries[i].1 < parent
    decreases parent, 0, |entries|
  {
    if entries == [] then ""
    else
      var head := StrRepr(entries[0].0) + ": " + Repr(entries[0].1);
      if |entries| == 1 then head else head + ", " + ReprEntries(entries[1..], parent)
  }

  /** str(): how Python prints a value. */
  function PyStr(v: Value): string
    decreases v, 0
  {
    match v
    case Null => "None"
    case Bool(b) => if b then "True" else "False"
    case Int(i) => IntToDecimal(i)
    case Str(s) => s
    case List(items) => "[" + ReprItems(items, v) + "]"
    case Dict(entries) => "{" + ReprEntries(entries, v) + "}"
  }

  // ---------------------------------------------------------------- JavaScript key order

  /**
   * An array index in the sense of section 6.1.7 of ECMA-262: the canonical
   * decimal text of an integer below 2^32 - 1 ("0", "7", "2024", but not "07").
   */
  predicate IsArrayIndex(k: string) {
    |k| >= 1 && AllDigits(k) && (k[0] != '0' || |k| == 1) && DecimalValue(k) < 0xFFFF_FFFF
  }

  /** The numeric value of an array index; 0 for any other key. */
  function IndexValue(k: string): int {
    if IsArrayIndex(k) then DecimalValue(k) else 0
  }

  /** The array-index keys, in the order given. */
  function IndexKeys(ks: seq<string>): (r: seq<string>)
    ensures forall k :: k in r <==> k in ks && IsArrayIndex(k)
  {
    if ks == [] then [] else (if IsArrayIndex(ks[0]) then [ks[0]] else []) + IndexKeys(ks[1..])
  }

  /** The other keys, in the order given. */
  function OtherKeys(ks: seq<string>): (r: seq<string>)
    ensures forall k :: k in r <==> k in ks && !IsArrayIndex(k)
  {
    if ks == [] then [] else (if IsArrayIndex(ks[0]) then [] else [ks[0]]) + OtherKeys(ks[1..])
  }

  /** The array indices sorted by value. */
  function SortIndices(ks: seq<string>): (r: seq<string>)
    ensures multiset(r) == multiset(ks)
  {
    SortBy(ks, IndexValue)
  }

  /**
   * The order in which `Object.keys`, `for...in` and `JSON.stringify` list the
   * own keys of an object whose keys were created in the order `ks`
   * (OrdinaryOwnPropertyKeys, section 10.1.11.1 of ECMA-262): the array
   * indices in ascending numeric order, then the other keys in creation order.
   */
  function JsKeyOrder(ks: seq<string>): seq<string> {
    SortIndices(IndexKeys(ks)) + OtherKeys(ks)
  }

  lemma {:induction false} SplitKeysPermutes(ks: seq<string>)
    ensures multiset(IndexKeys(ks)) + multiset(OtherKeys(ks)) == multiset(ks)
  {
    if ks != [] {
      SplitKeysPermutes(ks[1..]);
      assert ks == [ks[0]] + ks[1..];
    }
  }

  lemma {:induction false} OtherKeysConcat(a: seq<string>, b: seq<string>)
    ensures OtherKeys(a + b) == OtherKeys(a) + OtherKeys(b)
  {
    if a == [] {
      assert a + b == b;
    } else {
      assert (a + b)[1..] == a[1..] + b;
      OtherKeysConcat(a[1..], b);
    }
  }

  lemma {:induction false} OtherKeysNone(ks: seq<string>)
    requires forall i :: 0 <= i < |ks| ==> IsArrayIndex(ks[i])
    ensures OtherKeys(ks) == []
  {
    if ks != [] {
      OtherKeysNone(ks[1..]);
    }
  }

  lemma {:induction false} OtherKeysIdempotent(ks: seq<string>)
    ensures OtherKeys(OtherKeys(ks)) == OtherKeys(ks)
  {
    if ks != [] {
      OtherKeysIdempotent(ks[1..]);
      OtherKeysConcat(if IsArrayIndex(ks[0]) then [] else [ks[0]], OtherKeys(ks[1..]));
      assert OtherKeys([ks[0]]) == (if IsArrayIndex(ks[0]) then [] else [ks[0]]) + OtherKeys([]);
    }
  }

  /** JavaScript lists every key exactly as often as it was created. */
  lemma JsKeyOrderPermutes(ks: seq<string>)
    ensures multiset(JsKeyOrder(ks)) == multiset(ks)
  {
    SplitKeysPermutes(ks);
  }

  /** Sorting the array indices keeps only array indices. */
  lemma SortedIndicesAreIndices(ks: seq<string>)
    ensures forall i :: 0 <= i < |SortIndices(IndexKeys(ks))| ==> IsArrayIndex(SortIndices(IndexKeys(ks))[i])
  {
    var a := SortIndices(IndexKeys(ks));
    forall i | 0 <= i < |a| ensures IsArrayIndex(a[i]) {
      assert a[i] in multiset(a);
      assert a[i] in multiset(IndexKeys(ks));
      assert a[i] in IndexKeys(ks);
    }
  }

  /** Array indices come first, in ascending numeric order. */
  lemma JsKeyOrderIndicesFirst(ks: seq<string>)
    ensures var r := JsKeyOrder(ks);
            forall i, j :: 0 <= i < j < |r| && IsArrayIndex(r[j]) ==>
              IsArrayIndex(r[i]) && IndexValue(r[i]) <= IndexValue(r[j])
  {
    var a := SortIndices(IndexKeys(ks));
    var b := OtherKeys(ks);
    var r := a + b;
    assert r == JsKeyOrder(ks);
    SortBySorted(IndexKeys(ks), IndexValue);
    SortedIndicesAreIndices(ks);
    forall i, j | 0 <= i < j < |r| && IsArrayIndex(r[j])
      ensures IsArrayIndex(r[i]) && IndexValue(r[i]) <= IndexValue(r[j])
    {
      OthersAfterIndices(a, b, j);
      assert r[i] == a[i] && r[j] == a[j];
    }
  }

  /** In `a + b` with no array index in `b`, a position holding an array index lies in `a`. */
  lemma OthersAfterIndices(a: seq<string>, b: seq<string>, j: nat)
    requires forall k :: k in b ==> !IsArrayIndex(k)
    requires j < |a + b| && IsArrayIndex((a + b)[j])
    ensures j < |a|
  {
  }

  /** The other keys keep the order in which they were created. */
  lemma JsKeyOrderOthers(ks: seq<string>)
    ensures OtherKeys(JsKeyOrder(ks)) == OtherKeys(ks)
  {
    var a := SortIndices(IndexKeys(ks));
    SortedIndicesAreIndices(ks);
    OtherKeysNone(a);
    OtherKeysConcat(a, OtherKeys(ks));
    OtherKeysIdempotent(ks);
  }

  lemma {:induction false} OtherKeysAll(ks: seq<string>)
    requires forall i :: 0 <= i < |ks| ==> !IsArrayIndex(ks[i])
    ensures OtherKeys(ks) == ks && IndexKeys(ks) == []
  {
    if ks != [] {
      OtherKeysAll(ks[1..]);
    }
  }

  /** Without array-index keys the listing is the creation order. */
  lemma JsKeyOrderPlain(ks: seq<string>)
    requires forall i :: 0 <= i < |ks| ==> !IsArrayIndex(ks[i])
    ensures JsKeyOrder(ks) == ks
  {
    OtherKeysAll(ks);
    var ik := IndexKeys(ks);
    assert SortIndices(ik) == [];
    assert JsKeyOrder(ks) == [] + OtherKeys(ks);
  }

  /** A key created later can be listed first: `{b: .., 1: ..}` lists "1" before "b". */
  lemma JsKeyOrderIndexFirst()
    ensures JsKeyOrder(["b", "1"]) == ["1", "b"]
  {
    assert ["b", "1"][1..] == ["1"];
    assert ["1"][1..] == [];
    assert !IsArrayIndex("b");
    assert DecimalValue("1") == 1;
    assert IsArrayIndex("1");
  }
}
