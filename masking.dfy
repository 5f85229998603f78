/**
 * The masking service (backend/services/masking_service.py): the seven
 * strategies of `mask_value`, the preset rules, and the record-level passes
 * `mask_record` / `mask_records`. Hashing, `re.sub` and the random draws of
 * `random.shuffle` are parameters. Where Python raises, the result is the
 * TypeError's (or IndexError's) text as an `Err`.
 *
 * `apply_preset_rule` and `mask_record` pass the rule's 'strategy' both
 * positionally and inside `**rule`, so every rule that names its strategy
 * raises. `ApplyPreset` and `MaskField` keep that behaviour; `ApplyPresetOnce`
 * and `MaskFieldOnce` give the strategy once, as evidently intended.
 */
module Masking {
  import opened Wrappers
  import opened Values
  import opened Text
  import opened Shuffling

  /** hashlib: (algorithm name, text) to the hex digest. */
  type Digest = (string, string) -> string

  /** re.sub(pattern, replacement, text); None where the regex library raises. */
  type Substituter = (string, string, string) -> Option<string>

  /** What the service takes from its environment. */
  datatype Env = Env(digest: Digest, sub: Substituter, draw: nat -> nat)

  // ---------------------------------------------------------------- mask

  /** Whether `masked[i] = mask_char` for some i in range(start, stop) lands on position k of n (negative i counts from the end). */
  predicate Covered(k: int, n: int, start: int, stop: int) {
    (start <= k < stop) || (start <= k - n < stop)
  }

  /** `list(value)` after the assignments of range(start, stop). */
  function MaskPieces(value: string, c: Value, start: int, stop: int): (ps: seq<Value>)
    ensures |ps| == |value|
  {
    seq(|value|, k requires 0 <= k < |value| => if Covered(k, |value|, start, stop) then c else Str([value[k]]))
  }

  predicate AllText(pieces: seq<Value>) {
    forall k :: 0 <= k < |pieces| ==> pieces[k].Str?
  }

  /** The concatenation of text pieces. */
  function Concat(pieces: seq<Value>): string
    requires AllText(pieces)
  {
    if pieces == [] then "" else pieces[0].s + Concat(pieces[1..])
  }

  /** The index `''.join` reports: the first piece that is not text. */
  function FirstNonText(pieces: seq<Value>): (k: nat)
    requires !AllText(pieces)
    ensures k < |pieces| && !pieces[k].Str? && forall j :: 0 <= j < k ==> pieces[j].Str?
  {
    if !pieces[0].Str? then 0 else 1 + FirstNonText(pieces[1..])
  }

  /** `''.join(pieces)`. */
  function JoinText(pieces: seq<Value>): (r: Result<string>)
    ensures r.Ok? <==> AllText(pieces)
  {
    if AllText(pieces) then Ok(Concat(pieces))
    else
      var k := FirstNonText(pieces);
      Err("sequence item " + NatToDecimal(k) + ": expected str instance, " + TypeName(pieces[k]) + " found")
  }

  /** `min(end, len(value))`, with `end = None` meaning the length. */
  function MaskStop(n: nat, options: Record): Result<int> {
    var e := GetOr(options, "end", Null);
    if e.Null? then Ok(n)
    else if !Numeric(e) then Err(Unorderable("<", Int(n), e))
    else Ok(if Number(e) < n then Number(e) else n)
  }

  /** What `_mask_strategy(value, **options)` returns. */
  function MaskText(value: string, options: Record): Result<string> {
    var n := |value|;
    var stop :- MaskStop(n, options);
    var s := GetOr(options, "start", Int(0));
    if !Numeric(s) then Err("'" + TypeName(s) + "' object cannot be interpreted as an integer")
    else if Number(s) < stop && Number(s) < -n then Err("list assignment index out of range")
    else JoinText(MaskPieces(value, GetOr(options, "mask_char", Str("*")), Number(s), stop))
  }

  /** `_mask_strategy`: the character list is overwritten position by position. */
  method MaskStrategy(value: string, options: Record) returns (r: Result<string>)
    ensures r == MaskText(value, options)
  {
    var n := |value|;
    var bound := MaskStop(n, options);
    if bound.Err? {
      return Err(bound.error);
    }
    var stop := bound.value;
    var s := GetOr(options, "start", Int(0));
    if !Numeric(s) {
      return Err("'" + TypeName(s) + "' object cannot be interpreted as an integer");
    }
    var start := Number(s);
    var c := GetOr(options, "mask_char", Str("*"));
    var masked := seq(n, k requires 0 <= k < n => Str([value[k]]));
    var i := start;
    while i < stop
      invariant start <= i && (i <= stop || i == start)
      invariant i > start ==> -n <= start
      invariant masked == MaskPieces(value, c, start, i)
    {
      var idx := if i < 0 then n + i else i;
      if idx < 0 {
        assert i == start && start < stop && start < -n;
        return Err("list assignment index out of range");
      }
      MaskPiecesStep(value, c, start, i);
      masked := masked[idx := c];
      i := i + 1;
    }
    if start >= stop {
      assert MaskPieces(value, c, start, start) == MaskPieces(value, c, start, stop);
    }
    assert MaskText(value, options) == JoinText(MaskPieces(value, c, start, stop));
    r := JoinText(masked);
  }

  /** Assigning position i (counted from the end when negative) covers one more position. */
  lemma MaskPiecesStep(value: string, c: Value, start: int, i: int)
    requires start <= i && -|value| <= i < |value|
    ensures MaskPieces(value, c, start, i)[(if i < 0 then |value| + i else i) := c] == MaskPieces(value, c, start, i + 1)
  {
  }

  /** Text pieces of one character each concatenate to the string of those characters. */
  lemma {:induction false} ConcatSingles(pieces: seq<Value>)
    requires forall k :: 0 <= k < |pieces| ==> pieces[k].Str? && |pieces[k].s| == 1
    ensures AllText(pieces)
    ensures |Concat(pieces)| == |pieces|
    ensures forall k :: 0 <= k < |pieces| ==> Concat(pieces)[k] == pieces[k].s[0]
  {
    if pieces != [] {
      ConcatSingles(pieces[1..]);
      assert Concat(pieces) == pieces[0].s + Concat(pieces[1..]);
    }
  }

  /**
   * With a one-character mask and numeric bounds, masking keeps the length and
   * replaces exactly the covered positions; for a start of 0 or more those are
   * the positions in [start, min(end, len)).
   */
  lemma MaskPositions(value: string, options: Record, ch: char)
    requires GetOr(options, "mask_char", Str("*")) == Str([ch])
    requires Numeric(GetOr(options, "start", Int(0))) && Number(GetOr(options, "start", Int(0))) >= 0
    requires var e := GetOr(options, "end", Null); e.Null? || Numeric(e)
    ensures MaskText(value, options).Ok?
    ensures var r := MaskText(value, options).value;
            var start := Number(GetOr(options, "start", Int(0)));
            var e := GetOr(options, "end", Null);
            var stop := if e.Null? || Number(e) > |value| then |value| else Number(e);
            |r| == |value|
            && forall k :: 0 <= k < |value| ==> r[k] == if start <= k < stop then ch else value[k]
  {
    var start := Number(GetOr(options, "start", Int(0)));
    var stop := MaskStop(|value|, options).value;
    ConcatSingles(MaskPieces(value, Str([ch]), start, stop));
  }

  /** A mask character that is not text fails the join as soon as one position is covered. */
  lemma MaskCharNotText(value: string, options: Record, k: nat)
    requires !GetOr(options, "mask_char", Str("*")).Str?
    requires Numeric(GetOr(options, "start", Int(0))) && Number(GetOr(options, "start", Int(0))) == 0
    requires GetOr(options, "end", Null).Null? && k < |value|
    ensures MaskText(value, options).Err?
  {
    var c := GetOr(options, "mask_char", Str("*"));
    assert MaskPieces(value, c, 0, |value|)[k] == c;
  }

  // ---------------------------------------------------------------- hash, truncate

  /** Python's `s[:n]`: a negative n drops that many characters from the end. */
  function PyPrefix(s: string, n: int): (r: string)
    ensures StartsWith(s, r)
    ensures n >= 0 ==> |r| == if n < |s| then n else |s|
  {
    if n >= 0 then s[..if n < |s| then n else |s|]
    else s[..if |s| + n > 0 then |s| + n else 0]
  }

  /** What `_hash_strategy(value, **options)` returns. */
  function HashText(text: string, options: Record, digest: Digest): Result<string> {
    var algorithm := if GetOr(options, "algorithm", Str("md5")) == Str("sha256") then "sha256" else "md5";
    var hashed := digest(algorithm, text);
    var length := GetOr(options, "length", Int(8));
    if !Truthy(length) then Ok(hashed)
    else if !Numeric(length) then Err("slice indices must be integers or None or have an __index__ method")
    else Ok(PyPrefix(hashed, Number(length)))
  }

  /** The hash is a prefix of the digest of the chosen algorithm (sha256 when asked for, md5 otherwise), eight characters long by default. */
  lemma HashIsDigestPrefix(text: string, options: Record, digest: Digest)
    requires Numeric(GetOr(options, "length", Int(8))) || !Truthy(GetOr(options, "length", Int(8)))
    ensures HashText(text, options, digest).Ok?
    ensures var alg := if GetOr(options, "algorithm", Str("md5")) == Str("sha256") then "sha256" else "md5";
            StartsWith(digest(alg, text), HashText(text, options, digest).value)
    ensures !HasKey(options, "length") && |digest("md5", text)| >= 8 && !HasKey(options, "algorithm") ==>
              HashText(text, options, digest).value == digest("md5", text)[..8]
  {
    var alg := if GetOr(options, "algorithm", Str("md5")) == Str("sha256") then "sha256" else "md5";
    assert StartsWith(digest(alg, text), digest(alg, text));
  }

  /** What `_truncate_strategy(value, **options)` returns. */
  function TruncateText(value: string, options: Record): Result<string> {
    var length := GetOr(options, "length", Int(5));
    var suffix := GetOr(options, "suffix", Str("..."));
    if !Numeric(length) then Err(Unorderable("<=", Int(|value|), length))
    else if |value| <= Number(length) then Ok(value)
    else if !suffix.Str? then Err("can only concatenate str (not \"" + TypeName(suffix) + "\") to str")
    else Ok(PyPrefix(value, Number(length)) + suffix.s)
  }

  /** A value no longer than the length is kept; a longer one becomes its first `length` characters and the suffix. */
  lemma TruncateShape(value: string, options: Record)
    requires Numeric(GetOr(options, "length", Int(5))) && Number(GetOr(options, "length", Int(5))) >= 0
    requires GetOr(options, "suffix", Str("...")).Str?
    ensures TruncateText(value, options).Ok?
    ensures var n := Number(GetOr(options, "length", Int(5)));
            var suffix := GetOr(options, "suffix", Str("...")).s;
            var r := TruncateText(value, options).value;
            (|value| <= n ==> r == value)
            && (|value| > n ==> r == value[..n] + suffix && |r| == n + |suffix|)
  {
  }

  // ---------------------------------------------------------------- dispatch

  /** What `_partial_strategy(value, **options)` returns: a failing substitution keeps the value. */
  function PartialText(value: string, options: Record, sub: Substituter): string {
    var pattern := GetOr(options, "pattern", Null);
    var replacement := GetOr(options, "replacement", Null);
    if Truthy(pattern) && Truthy(replacement) then
      if pattern.Str? && replacement.Str? then sub(pattern.s, replacement.s, value).GetOr(value) else value
    else value
  }

  /** The seven strategy names differ in their first character, which is how they are told apart cheaply. */
  lemma StrategyNames()
    ensures "mask"[0] == 'm' && "hash"[0] == 'h' && "truncate"[0] == 't' && "replace"[0] == 'r'
    ensures "shuffle"[0] == 's' && "null"[0] == 'n' && "partial"[0] == 'p'
  {
  }

  /** A strategy's text result as the value `mask_value` returns. */
  function AsText(r: Result<string>): Result<Value> {
    match r
    case Ok(s) => Ok(Str(s))
    case Err(e) => Err(e)
  }

  /** What `mask_value(value, strategy, **options)` returns once its arguments are bound. */
  function MaskValue(value: Value, strategy: Value, options: Record, env: Env): Result<Value> {
    if value.Null? then Ok(Null)
    else
      var text := PyStr(value);
      if strategy == Str("mask") then AsText(MaskText(text, options))
      else if strategy == Str("hash") then AsText(HashText(text, options, env.digest))
      else if strategy == Str("truncate") then AsText(TruncateText(text, options))
      else if strategy == Str("replace") then Ok(GetOr(options, "replacement", Str("***")))
      else if strategy == Str("shuffle") then Ok(Str(Shuffled(text, env.draw)))
      else if strategy == Str("null") then Ok(GetOr(options, "null_value", Null))
      else if strategy == Str("partial") then Ok(Str(PartialText(text, options, env.sub)))
      else Ok(value)
  }

  predicate KnownStrategy(strategy: Value) {
    strategy in [Str("mask"), Str("hash"), Str("truncate"), Str("replace"), Str("shuffle"), Str("null"), Str("partial")]
  }

  /** None stays None, and a strategy outside the seven returns the value itself, not its text. */
  lemma MaskValuePassThrough(value: Value, strategy: Value, options: Record, env: Env)
    requires value.Null? || !KnownStrategy(strategy)
    ensures MaskValue(value, strategy, options, env) == Ok(value)
  {
  }

  /** replace and null do not look at the value: any two non-None values give the same result. */
  lemma ReplaceAndNullIgnoreValue(a: Value, b: Value, strategy: Value, options: Record, env: Env)
    requires !a.Null? && !b.Null?
    requires strategy == Str("replace") || strategy == Str("null")
    ensures MaskValue(a, strategy, options, env) == MaskValue(b, strategy, options, env)
    ensures strategy == Str("replace") ==> MaskValue(a, strategy, options, env) == Ok(GetOr(options, "replacement", Str("***")))
    ensures strategy == Str("null") ==> MaskValue(a, strategy, options, env) == Ok(GetOr(options, "null_value", Null))
  {
  }

  /** shuffle returns a permutation of the characters of str(value). */
  lemma ShufflePermutes(value: Value, options: Record, env: Env)
    requires !value.Null?
    ensures var r := MaskValue(value, Str("shuffle"), options, env);
            r.Ok? && r.value.Str? && multiset(r.value.s) == multiset(PyStr(value))
  {
    ShuffleDispatch(value, options, env);
    ShuffledPermutes(PyStr(value), env.draw);
  }

  /** The shuffle strategy of `mask_value` is the shuffle of str(value). */
  lemma ShuffleDispatch(value: Value, options: Record, env: Env)
    requires !value.Null?
    ensures MaskValue(value, Str("shuffle"), options, env) == Ok(Str(Shuffled(PyStr(value), env.draw)))
  {
    StrategyNames();
  }

  /** partial keeps str(value) when the pattern or the replacement is missing or empty. */
  lemma PartialWithoutPattern(value: Value, options: Record, env: Env)
    requires !value.Null?
    requires !Truthy(GetOr(options, "pattern", Null)) || !Truthy(GetOr(options, "replacement", Null))
    ensures MaskValue(value, Str("partial"), options, env) == Ok(Str(PyStr(value)))
  {
  }

  /** Calling `mask_value(value, strategy, **kwargs)`: a key that names a parameter already given positionally is a TypeError. */
  function CallMaskValue(value: Value, strategy: Value, kwargs: Record, env: Env): (r: Result<Value>)
    ensures FirstIn(Keys(kwargs), ["self", "value", "strategy"]).None? ==> r == MaskValue(value, strategy, kwargs, env)
    ensures HasKey(kwargs, "strategy") ==> r.Err?
  {
    match FirstIn(Keys(kwargs), ["self", "value", "strategy"])
    case Some(k) => Err("mask_value() got multiple values for argument '" + k + "'")
    case None => MaskValue(value, strategy, kwargs, env)
  }

  // ---------------------------------------------------------------- presets

  /** A preset rule, keys in the order the table lists them. */
  function PartialPreset(pattern: string, replacement: string, description: string): Record {
    [("strategy", Str("partial")), ("pattern", Str(pattern)), ("replacement", Str(replacement)), ("description", Str(description))]
  }

  /** The preset names differ in their length or their first character. */
  lemma PresetNames()
    ensures |"phone"| == 5 && |"email"| == 5 && |"id_card"| == 7 && |"bank_card"| == 9
    ensures |"name"| == 4 && |"address"| == 7 && |"password"| == 8 && |"ip"| == 2
    ensures "phone"[0] == 'p' && "email"[0] == 'e' && "id_card"[0] == 'i' && "address"[0] == 'a'
  {
  }

  /** `PRESET_RULES[name]`, if there is one. */
  function MaskPreset(name: string): (rule: Option<Record>)
    ensures rule.Some? ==> |rule.value| > 0 && rule.value[0].0 == "strategy"
  {
    if name == "address" then Some(AddressPreset())
    else if name == "password" then Some(PasswordPreset())
    else match PartialPresetArgs(name)
      case Some((pattern, replacement, description)) => Some(PartialPreset(pattern, replacement, description))
      case None => None
  }

  /** The six presets that rewrite by a regular expression: pattern, replacement and description. */
  function PartialPresetArgs(name: string): Option<(string, string, string)> {
    if name == "phone" then Some(("^(\\d{3})\\d{4}(\\d{4})$", "\\1****\\2", "手机号脱敏 (保留前3后4)"))
    else if name == "email" then Some(("^(.{2}).*(@.*)$", "\\1***\\2", "邮箱脱敏 (保留前2位和域名)"))
    else if name == "id_card" then Some(("^(.{6}).*(.{4})$", "\\1********\\2", "身份证脱敏 (保留前6后4)"))
    else if name == "bank_card" then Some(("^(.{4}).*(.{4})$", "\\1********\\2", "银行卡脱敏 (保留前4后4)"))
    else if name == "name" then Some(("^(.).*$", "\\1**", "姓名脱敏 (保留首字)"))
    else if name == "ip" then Some(("^(\\d+\\.\\d+)\\.\\d+\\.\\d+$", "\\1.*.*", "IP地址脱敏 (保留前两段)"))
    else None
  }

  /** The `address` preset: truncate to ten characters and `***`. */
  function AddressPreset(): Record {
    [("strategy", Str("truncate")), ("length", Int(10)), ("suffix", Str("***")), ("description", Str("地址脱敏 (截断)"))]
  }

  /** The `password` preset: a fixed replacement, under the key 'value'. */
  function PasswordPreset(): Record {
    [("strategy", Str("replace")), ("value", Str("******")), ("description", Str("密码脱敏 (固定替换)"))]
  }

  /** What `apply_preset_rule(value, name)` returns. */
  function ApplyPreset(value: Value, name: Value, env: Env): Result<Value> {
    if name.List? || name.Dict? then Err(Unhashable(name))
    else if !name.Str? || MaskPreset(name.s).None? then Ok(value)
    else
      var rule := MaskPreset(name.s).value;
      CallMaskValue(value, GetOr(rule, "strategy", Null), rule, env)
  }

  /** Every preset passes its 'strategy' both positionally and in the rule: applying one is always a TypeError; an unknown name keeps the value. */
  lemma PresetsRaise(value: Value, name: string, env: Env)
    ensures MaskPreset(name).Some? ==>
              ApplyPreset(value, Str(name), env) == Err("mask_value() got multiple values for argument 'strategy'")
    ensures MaskPreset(name).None? ==> ApplyPreset(value, Str(name), env) == Ok(value)
  {
    if MaskPreset(name).Some? {
      var rule := MaskPreset(name).value;
      StrategyFirstRaises(value, GetOr(rule, "strategy", Null), rule, env);
    }
  }

  /** Options whose first key is 'strategy' bind that parameter twice. */
  lemma StrategyFirstRaises(value: Value, strategy: Value, kwargs: Record, env: Env)
    requires |kwargs| > 0 && kwargs[0].0 == "strategy"
    ensures CallMaskValue(value, strategy, kwargs, env) == Err("mask_value() got multiple values for argument 'strategy'")
  {
    var names := ["self", "value", "strategy"];
    assert Keys(kwargs)[0] == "strategy" && "strategy" in names;
    assert FirstIn(Keys(kwargs), names) == Some("strategy");
  }

  // ---------------------------------------------------------------- the strategy given once

  /** `{k: v for k, v in rule.items() if k != 'strategy'}`: the options once the strategy is given positionally. */
  function WithoutStrategy(rule: Record): (o: Record)
    ensures forall k :: k in Keys(o) <==> k in Keys(rule) && k != "strategy"
    ensures forall k :: k != "strategy" ==> Get(o, k) == Get(rule, k)
  {
    if rule == [] then []
    else
      var rest := WithoutStrategy(rule[1..]);
      assert Keys(rule) == [rule[0].0] + Keys(rule[1..]);
      if rule[0].0 == "strategy" then rest
      else
        assert Keys([rule[0]] + rest) == [rule[0].0] + Keys(rest);
        assert ([rule[0]] + rest)[1..] == rest;
        [rule[0]] + rest
  }

  /** The option names of the presets and the parameters of mask_value differ in their length or first character. */
  lemma OptionNames()
    ensures |"self"| == 4 && |"value"| == 5 && |"strategy"| == 8 && |"pattern"| == 7
    ensures |"replacement"| == 11 && |"description"| == 11 && |"length"| == 6 && |"suffix"| == 6
    ensures "replacement"[0] == 'r' && "description"[0] == 'd' && "length"[0] == 'l' && "suffix"[0] == 's'
  {
  }

  lemma PartialPresetKeys(pattern: string, replacement: string, description: string)
    ensures var rule := PartialPreset(pattern, replacement, description);
            Keys(rule) == ["strategy", "pattern", "replacement", "description"]
            && !HasKey(rule, "self") && !HasKey(rule, "value")
  {
    OptionNames();
  }

  lemma AddressPresetKeys()
    ensures Keys(AddressPreset()) == ["strategy", "length", "suffix", "description"]
    ensures !HasKey(AddressPreset(), "self") && !HasKey(AddressPreset(), "value")
  {
    OptionNames();
  }

  /** The keys of the presets: only `password` has one named like a parameter of mask_value. */
  lemma PresetKeys(name: string)
    requires MaskPreset(name).Some?
    ensures name != "password" ==> !HasKey(MaskPreset(name).value, "self") && !HasKey(MaskPreset(name).value, "value")
    ensures name == "password" ==> Keys(MaskPreset(name).value) == ["strategy", "value", "description"]
  {
    if name == "address" {
      AddressPresetKeys();
    } else if name == "password" {
      assert Keys(PasswordPreset()) == ["strategy", "value", "description"];
    } else {
      var (pattern, replacement, description) := PartialPresetArgs(name).value;
      PartialPresetKeys(pattern, replacement, description);
    }
  }

  /** `apply_preset_rule` as evidently intended: the preset's strategy given once, its other keys as options. */
  function ApplyPresetOnce(value: Value, name: Value, env: Env): Result<Value> {
    if name.List? || name.Dict? then Err(Unhashable(name))
    else if !name.Str? || MaskPreset(name.s).None? then Ok(value)
    else
      var rule := MaskPreset(name.s).value;
      CallMaskValue(value, GetOr(rule, "strategy", Null), WithoutStrategy(rule), env)
  }

  /**
   * Given once, every preset but `password` masks with its own strategy and
   * options and never raises; `password` names its replacement 'value', which
   * still binds mask_value's first parameter twice.
   */
  lemma PresetsApplyOnce(value: Value, name: string, env: Env)
    requires MaskPreset(name).Some?
    ensures var rule := MaskPreset(name).value;
            name != "password" ==>
              ApplyPresetOnce(value, Str(name), env) == MaskValue(value, rule[0].1, WithoutStrategy(rule), env)
    ensures name == "password" ==>
              ApplyPresetOnce(value, Str(name), env) == Err("mask_value() got multiple values for argument 'value'")
  {
    var rule := MaskPreset(name).value;
    assert GetOr(rule, "strategy", Null) == rule[0].1;
    assert ApplyPresetOnce(value, Str(name), env) == CallMaskValue(value, rule[0].1, WithoutStrategy(rule), env);
    PresetKeys(name);
    if name == "password" {
      PasswordOnceRaises(value, rule[0].1, env);
    } else {
      OnceNoClash(rule);
    }
  }

  /** Without its strategy, a rule that binds neither `self` nor `value` binds no parameter of mask_value twice. */
  lemma OnceNoClash(rule: Record)
    requires !HasKey(rule, "self") && !HasKey(rule, "value")
    ensures FirstIn(Keys(WithoutStrategy(rule)), ["self", "value", "strategy"]).None?
  {
    var o := WithoutStrategy(rule);
    forall k | k in Keys(o) ensures k !in ["self", "value", "strategy"] {
    }
  }

  /** The password preset, its strategy given once, still passes 'value' twice. */
  lemma PasswordOnceRaises(value: Value, strategy: Value, env: Env)
    ensures CallMaskValue(value, strategy, WithoutStrategy(PasswordPreset()), env)
            == Err("mask_value() got multiple values for argument 'value'")
  {
    PasswordBindsValue();
    var o := WithoutStrategy(PasswordPreset());
    ClashRaises(value, strategy, o, env, "value");
    ValueClashText();
  }

  /** A keyword that binds a parameter already given raises with that parameter's name. */
  lemma ClashRaises(value: Value, strategy: Value, kwargs: Record, env: Env, k: string)
    requires FirstIn(Keys(kwargs), ["self", "value", "strategy"]) == Some(k)
    ensures CallMaskValue(value, strategy, kwargs, env) == Err("mask_value() got multiple values for argument '" + k + "'")
  {
  }

  lemma ValueClashText()
    ensures "mask_value() got multiple values for argument '" + "value" + "'" == "mask_value() got multiple values for argument 'value'"
  {
  }

  lemma PasswordBindsValue()
    ensures FirstIn(Keys(WithoutStrategy(PasswordPreset())), ["self", "value", "strategy"]) == Some("value")
  {
    var o := WithoutStrategy(PasswordPreset());
    OptionNames();
    assert Keys(PasswordPreset()) == ["strategy", "value", "description"];
    assert "value" in Keys(o);
  }


  /** `mask_value` with 'truncate' is `_truncate_strategy` on str(value). */
  lemma TruncateDispatch(value: Value, options: Record, env: Env)
    requires !value.Null? && TruncateText(PyStr(value), options).Ok?
    ensures MaskValue(value, Str("truncate"), options, env) == Ok(Str(TruncateText(PyStr(value), options).value))
  {
  }

  /** The address preset, given once, cuts a long text to its first ten characters and `***`; as written it raises. */
  lemma AddressPresetTruncates(s: string, env: Env)
    requires |s| > 10
    ensures ApplyPresetOnce(Str(s), Str("address"), env) == Ok(Str(s[..10] + "***"))
    ensures ApplyPreset(Str(s), Str("address"), env).Err?
  {
    var o := WithoutStrategy(AddressPreset());
    AddressOptions();
    assert ApplyPresetOnce(Str(s), Str("address"), env) == MaskValue(Str(s), Str("truncate"), o, env) by {
      PresetNames();
      PresetsApplyOnce(Str(s), "address", env);
    }
    assert TruncateText(s, o) == Ok(s[..10] + "***") by {
      TruncateShape(s, o);
    }
    assert PyStr(Str(s)) == s;
    TruncateDispatch(Str(s), o, env);
    PresetsRaise(Str(s), "address", env);
  }

  /** The options of the address preset once its strategy is taken out. */
  lemma AddressOptions()
    ensures AddressPreset()[0].1 == Str("truncate")
    ensures var o := WithoutStrategy(AddressPreset());
            GetOr(o, "length", Int(5)) == Int(10) && GetOr(o, "suffix", Str("...")) == Str("***")
  {
    var rule := AddressPreset();
    OptionNames();
    assert Get(rule, "length") == Some(Int(10)) && Get(rule, "suffix") == Some(Str("***"));
  }

  // ---------------------------------------------------------------- records

  /** The masking of one field's value by its rule. */
  type FieldMasker = (Value, Record) -> Result<Value>

  /** One rule of `mask_record`: a preset, or `mask_value` with the rule as its options. */
  function MaskField(value: Value, rule: Record, env: Env): Result<Value> {
    if HasKey(rule, "preset") then ApplyPreset(value, Get(rule, "preset").value, env)
    else CallMaskValue(value, GetOr(rule, "strategy", Str("mask")), rule, env)
  }

  function Masker(env: Env): FieldMasker {
    (value, rule) => MaskField(value, rule, env)
  }

  /** A rule that names its strategy passes it twice; a rule that binds nothing twice always masks with 'mask'. */
  lemma RuleStrategy(value: Value, rule: Record, env: Env)
    requires !HasKey(rule, "preset")
    ensures HasKey(rule, "strategy") ==> MaskField(value, rule, env).Err?
    ensures FirstIn(Keys(rule), ["self", "value", "strategy"]).None? ==>
              MaskField(value, rule, env) == MaskValue(value, Str("mask"), rule, env)
  {
  }

  /** One rule of `mask_record` as evidently intended: the strategy given once, the rest of the rule as options. */
  function MaskFieldOnce(value: Value, rule: Record, env: Env): Result<Value> {
    if HasKey(rule, "preset") then ApplyPresetOnce(value, Get(rule, "preset").value, env)
    else CallMaskValue(value, GetOr(rule, "strategy", Str("mask")), WithoutStrategy(rule), env)
  }

  function MaskerOnce(env: Env): FieldMasker {
    (value, rule) => MaskFieldOnce(value, rule, env)
  }

  /** Given once, a rule that names its strategy masks with it, unless it also binds `self` or `value`. */
  lemma RuleStrategyOnce(value: Value, rule: Record, env: Env)
    requires !HasKey(rule, "preset") && !HasKey(rule, "self") && !HasKey(rule, "value")
    ensures MaskFieldOnce(value, rule, env) == MaskValue(value, GetOr(rule, "strategy", Str("mask")), WithoutStrategy(rule), env)
    ensures HasKey(rule, "strategy") ==> MaskField(value, rule, env).Err?
  {
    assert forall k :: k in Keys(WithoutStrategy(rule)) ==> k !in ["self", "value", "strategy"];
  }

  /** What `mask_record(record, rules)` returns: the copy with each present field replaced, rule by rule. */
  function MaskedRecord(record: Record, rules: seq<(string, Record)>, mask: FieldMasker): Result<Record> {
    if rules == [] then Ok(record)
    else
      var acc :- MaskedRecord(record, rules[..|rules| - 1], mask);
      var (field, rule) := rules[|rules| - 1];
      if HasKey(acc, field) then
        var v :- mask(Get(acc, field).value, rule);
        Ok(Put(acc, field, v))
      else Ok(acc)
  }

  lemma {:induction false} MaskedRecordErrStays(record: Record, rules: seq<(string, Record)>, mask: FieldMasker, i: nat)
    requires i <= |rules| && MaskedRecord(record, rules[..i], mask).Err?
    ensures MaskedRecord(record, rules, mask) == MaskedRecord(record, rules[..i], mask)
    decreases |rules| - i
  {
    if i < |rules| {
      assert rules[..i + 1][..i] == rules[..i];
      MaskedRecordErrStays(record, rules, mask, i + 1);
    } else {
      assert rules[..i] == rules;
    }
  }

  /** `mask_record`: the copied dict is assigned field by field. */
  method MaskRecord(record: Record, rules: seq<(string, Record)>, env: Env) returns (r: Result<Record>)
    ensures r == MaskedRecord(record, rules, Masker(env))
  {
    var mask := Masker(env);
    var masked := record;
    var i := 0;
    while i < |rules|
      invariant 0 <= i <= |rules|
      invariant MaskedRecord(record, rules[..i], mask) == Ok(masked)
    {
      assert rules[..i + 1][..i] == rules[..i];
      var (field, rule) := rules[i];
      if HasKey(masked, field) {
        var v := mask(Get(masked, field).value, rule);
        if v.Err? {
          MaskedRecordErrStays(record, rules, mask, i + 1);
          return Err(v.error);
        }
        masked := Put(masked, field, v.value);
      }
      i := i + 1;
    }
    assert rules[..i] == rules;
    r := Ok(masked);
  }

  /** The result keeps the record's keys in order, and a field no rule names keeps its value. */
  lemma {:induction false} MaskedRecordKeeps(record: Record, rules: seq<(string, Record)>, mask: FieldMasker, k: string)
    requires MaskedRecord(record, rules, mask).Ok?
    ensures Keys(MaskedRecord(record, rules, mask).value) == Keys(record)
    ensures k !in Names(rules) ==> Get(MaskedRecord(record, rules, mask).value, k) == Get(record, k)
  {
    if rules != [] {
      var init := rules[..|rules| - 1];
      MaskedRecordKeeps(record, init, mask, k);
      var acc := MaskedRecord(record, init, mask).value;
      var field := rules[|rules| - 1].0;
      assert Names(rules) == Names(init) + [field];
      if HasKey(acc, field) {
        GetPut(acc, field, mask(Get(acc, field).value, rules[|rules| - 1].1).value, k);
      }
    }
  }

  predicate DistinctNames(rules: seq<(string, Record)>) {
    forall i, j :: 0 <= i < j < |rules| ==> rules[i].0 != rules[j].0
  }

  /** Whether every rule whose field the record has masks that field's original value without error. */
  predicate AllMaskable(record: Record, rules: seq<(string, Record)>, mask: FieldMasker) {
    forall i :: 0 <= i < |rules| && HasKey(record, rules[i].0) ==> mask(Get(record, rules[i].0).value, rules[i].1).Ok?
  }

  /** With one rule per field (a dict), the record masks without error exactly when every present field does. */
  lemma {:induction false} MaskedRecordOk(record: Record, rules: seq<(string, Record)>, mask: FieldMasker)
    requires DistinctNames(rules)
    ensures MaskedRecord(record, rules, mask).Ok? <==> AllMaskable(record, rules, mask)
  {
    if rules != [] {
      var init := rules[..|rules| - 1];
      var (field, rule) := rules[|rules| - 1];
      MaskedRecordOk(record, init, mask);
      assert AllMaskable(record, rules, mask) <==>
        AllMaskable(record, init, mask) && (HasKey(record, field) ==> mask(Get(record, field).value, rule).Ok?) by {
        assert forall i :: 0 <= i < |init| ==> init[i] == rules[i];
      }
      if MaskedRecord(record, init, mask).Ok? {
        assert field !in Names(init);
        MaskedRecordKeeps(record, init, mask, field);
      }
    }
  }

  /** With one rule per field, each present field of the masked record holds its rule's masking of the original value. */
  lemma {:induction false} MaskedRecordField(record: Record, rules: seq<(string, Record)>, mask: FieldMasker, i: nat)
    requires DistinctNames(rules) && MaskedRecord(record, rules, mask).Ok?
    requires i < |rules| && HasKey(record, rules[i].0)
    ensures mask(Get(record, rules[i].0).value, rules[i].1).Ok?
    ensures Get(MaskedRecord(record, rules, mask).value, rules[i].0) == Some(mask(Get(record, rules[i].0).value, rules[i].1).value)
  {
    var init := rules[..|rules| - 1];
    var (field, rule) := rules[|rules| - 1];
    var acc := MaskedRecord(record, init, mask).value;
    if i == |rules| - 1 {
      assert field !in Names(init);
      MaskedRecordKeeps(record, init, mask, field);
      GetPut(acc, field, mask(Get(acc, field).value, rule).value, field);
    } else {
      assert init[i] == rules[i];
      MaskedRecordField(record, init, mask, i);
      if HasKey(acc, field) {
        GetPut(acc, field, mask(Get(acc, field).value, rule).value, rules[i].0);
      }
    }
  }

  /** `[mask_record(r, rules) for r in records]`: the first failing record's error, else the masked records in order. */
  function MaskedRecords(records: seq<Record>, rules: seq<(string, Record)>, mask: FieldMasker): Result<seq<Record>> {
    if records == [] then Ok([])
    else
      var done :- MaskedRecords(records[..|records| - 1], rules, mask);
      var last :- MaskedRecord(records[|records| - 1], rules, mask);
      Ok(done + [last])
  }

  /** The list is element-wise: same length, record i masked by itself. */
  lemma {:induction false} MaskedRecordsElementwise(records: seq<Record>, rules: seq<(string, Record)>, mask: FieldMasker)
    ensures MaskedRecords(records, rules, mask).Ok? <==> forall i :: 0 <= i < |records| ==> MaskedRecord(records[i], rules, mask).Ok?
    ensures MaskedRecords(records, rules, mask).Ok? ==>
              |MaskedRecords(records, rules, mask).value| == |records|
              && forall i :: 0 <= i < |records| ==> MaskedRecords(records, rules, mask).value[i] == MaskedRecord(records[i], rules, mask).value
  {
    if records != [] {
      var init := records[..|records| - 1];
      MaskedRecordsElementwise(init, rules, mask);
      assert forall i :: 0 <= i < |init| ==> init[i] == records[i];
    }
  }
}
