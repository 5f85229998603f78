/**
 * The API-key row (backend/models/api_key.py): the comma-separated
 * permission column, expiry and validity, usage accounting, the key layout
 * and key verification. Times are integers on one clock; the random hex of
 * `secrets.token_hex` and SHA-256 are parameters.
 */
module ApiKeys {
  import opened Wrappers
  import opened Text

  datatype Key = Key(
    uuid: string,
    name: string,
    keyPrefix: string,
    keyHash: string,
    userId: int,
    projectId: Option<int>,
    permissions: string,
    isActive: bool,
    callCount: int,
    lastUsedAt: Option<int>,
    lastUsedIp: Option<string>,
    expiresAt: Option<int>,
    createdAt: int)

  /** The trimmed, non-empty pieces, in order (`trim` is str.strip, passed as a value). */
  function CleanPieces(ps: seq<string>, trim: string -> string): (r: seq<string>)
    ensures |r| <= |ps|
  {
    if ps == [] then []
    else
      var rest := CleanPieces(ps[1..], trim);
      if trim(ps[0]) != "" then [trim(ps[0])] + rest else rest
  }

  /** The `permission_list` getter: the column split on ',', each piece trimmed, empty pieces dropped. */
  function PermissionList(permissions: string): seq<string> {
    CleanPieces(Split(permissions, ','), Strip)
  }

  /** The `permission_list` setter: the names joined with ','. */
  function PermissionText(names: seq<string>): string {
    Join(names, ",")
  }

  /** A name the column can hold unchanged: non-empty, without a comma, and with no whitespace at either end. */
  predicate StoredName(n: string) {
    n != "" && ',' !in n && Strip(n) == n
  }

  /** Every name read back is the trimmed form of the piece at position `j`, and not empty. */
  lemma {:induction false} CleanPieceSource(ps: seq<string>, trim: string -> string, i: nat) returns (j: nat)
    requires i < |CleanPieces(ps, trim)|
    ensures j < |ps| && CleanPieces(ps, trim)[i] == trim(ps[j]) && CleanPieces(ps, trim)[i] != ""
  {
    var head := trim(ps[0]);
    if head != "" && i == 0 {
      j := 0;
    } else {
      var k := CleanPieceSource(ps[1..], trim, if head != "" then i - 1 else i);
      j := k + 1;
    }
  }

  /** Pieces that are non-empty and already trimmed are all kept, unchanged. */
  lemma {:induction false} CleanPiecesKeeps(ps: seq<string>, trim: string -> string)
    requires forall i :: 0 <= i < |ps| ==> ps[i] != "" && trim(ps[i]) == ps[i]
    ensures CleanPieces(ps, trim) == ps
  {
    if ps != [] {
      CleanPiecesKeeps(ps[1..], trim);
      assert [ps[0]] + ps[1..] == ps;
    }
  }

  /** Writing a list of stored names and reading it back gives the same list. */
  lemma PermissionRoundTrip(names: seq<string>)
    requires forall i :: 0 <= i < |names| ==> StoredName(names[i])
    ensures PermissionList(PermissionText(names)) == names
  {
    if names == [] {
      assert Split("", ',') == [""];
    } else {
      PermissionTextSplits(names);
      CleanPiecesKeeps(names, Strip);
    }
  }

  lemma PermissionTextSplits(names: seq<string>)
    requires |names| >= 1 && forall i :: 0 <= i < |names| ==> ',' !in names[i]
    ensures Split(PermissionText(names), ',') == names
  {
    assert "," == [','];
    SplitJoin(names, ',');
  }

  /** What the getter reads back can always be written and read again unchanged. */
  lemma PermissionListStable(permissions: string)
    ensures PermissionList(PermissionText(PermissionList(permissions))) == PermissionList(permissions)
  {
    var names := PermissionList(permissions);
    forall i | 0 <= i < |names|
      ensures StoredName(names[i])
    {
      var j := CleanPieceSource(Split(permissions, ','), Strip, i);
      SplitPiecesHaveNoSeparator(permissions, ',', j);
      StripIdempotent(Split(permissions, ',')[j]);
      StripWithin(Split(permissions, ',')[j], ',');
    }
    PermissionRoundTrip(names);
  }

  lemma {:induction false} SplitPiecesHaveNoSeparator(s: string, sep: char, j: nat)
    requires j < |Split(s, sep)|
    ensures sep !in Split(s, sep)[j]
    decreases |s|
  {
    if |s| > 0 {
      var rest := Split(s[1..], sep);
      if s[0] == sep {
        if j > 0 {
          SplitPiecesHaveNoSeparator(s[1..], sep, j - 1);
        }
      } else if j == 0 {
        SplitPiecesHaveNoSeparator(s[1..], sep, 0);
      } else {
        SplitPiecesHaveNoSeparator(s[1..], sep, j);
      }
    }
  }

  lemma StripIdempotent(s: string)
    ensures Strip(Strip(s)) == Strip(s)
  {
    var t := Strip(s);
    if t != [] {
      StripUnchanged(t);
    }
  }

  lemma StripWithin(s: string, c: char)
    requires c !in s
    ensures c !in Strip(s)
  {
    var l := LStrip(s);
    assert forall x :: x in l ==> x in s;
    assert forall x :: x in RStrip(l) ==> x in l;
  }

  /** `is_expired`: only a key with an expiry can expire, strictly after it. */
  predicate IsExpired(k: Key, now: int) {
    k.expiresAt.Some? && now > k.expiresAt.value
  }

  /** `is_valid`: active and not expired. */
  predicate IsValid(k: Key, now: int) {
    k.isActive && !IsExpired(k, now)
  }

  /** `has_permission`: 'admin' grants everything; otherwise the name must be listed. */
  predicate HasPermission(k: Key, permission: string) {
    var perms := PermissionList(k.permissions);
    "admin" in perms || permission in perms
  }

  /** Without 'admin', a key has exactly its listed permissions; with it, every permission. */
  lemma HasPermissionExactly(k: Key, permission: string)
    ensures "admin" in PermissionList(k.permissions) ==> HasPermission(k, permission)
    ensures "admin" !in PermissionList(k.permissions) ==>
              (HasPermission(k, permission) <==> permission in PermissionList(k.permissions))
  {
  }

  /** An expired or inactive key is never valid, and a key with no expiry is valid exactly while active. */
  lemma ValidityCases(k: Key, now: int)
    ensures IsValid(k, now) <==> k.isActive && (k.expiresAt.None? || now <= k.expiresAt.value)
    ensures k.expiresAt.Some? && now > k.expiresAt.value ==> !IsValid(k, now)
  {
  }

  /** `record_usage`: one more call at `now`; the IP is remembered only when one is given. */
  function RecordUsage(k: Key, ip: Option<string>, now: int): (r: Key)
    ensures r.callCount == k.callCount + 1 && r.lastUsedAt == Some(now)
    ensures r.lastUsedIp == if ip.Some? && ip.value != "" then ip else k.lastUsedIp
    ensures r == k.(callCount := r.callCount, lastUsedAt := r.lastUsedAt, lastUsedIp := r.lastUsedIp)
  {
    var counted := k.(callCount := k.callCount + 1, lastUsedAt := Some(now));
    if ip.Some? && ip.value != "" then counted.(lastUsedIp := ip) else counted
  }

  /** The text `secrets.token_hex(16)` yields: 32 lower-case hex digits. */
  predicate TokenHex(t: string) {
    |t| == 32 && forall i :: 0 <= i < |t| ==> IsHexLower(t[i])
  }

  /** `generate_key`: the full key, its display prefix and its stored hash. */
  function GenerateKey(randomHex: string, sha256: string -> string): (r: (string, string, string))
    ensures r.0 == "df_" + randomHex && r.2 == sha256(r.0)
    ensures |r.0| >= 12 ==> r.1 == r.0[..12]
  {
    var full := "df_" + randomHex;
    (full, if |full| >= 12 then full[..12] else full, sha256(full))
  }

  /** A generated key is 'df_' and 32 hex digits; its prefix is 'df_' and the first nine of them. */
  lemma GeneratedKeyLayout(randomHex: string, sha256: string -> string)
    requires TokenHex(randomHex)
    ensures var (full, prefix, hash) := GenerateKey(randomHex, sha256);
            |full| == 35 && StartsWith(full, "df_") && |prefix| == 12 && StartsWith(full, prefix)
            && prefix == "df_" + randomHex[..9] && hash == sha256(full)
  {
    var full := "df_" + randomHex;
    assert full[..12] == "df_" + randomHex[..9];
  }

  /** The position of the first row with this hash (`filter_by(key_hash=…).first()`). */
  function FirstWithHash(keys: seq<Key>, hash: string): (r: Option<nat>)
    ensures r.Some? ==> r.value < |keys| && keys[r.value].keyHash == hash
                        && forall j :: 0 <= j < r.value ==> keys[j].keyHash != hash
    ensures r.None? ==> forall j :: 0 <= j < |keys| ==> keys[j].keyHash != hash
  {
    if keys == [] then None
    else if keys[0].keyHash == hash then Some(0)
    else match FirstWithHash(keys[1..], hash)
      case None => None
      case Some(i) => Some(i + 1)
  }

  /** `verify_key`: the key whose stored hash is the hash of the presented key, if it is valid. */
  function VerifyKey(keys: seq<Key>, key: string, sha256: string -> string, now: int): (r: Option<Key>)
    ensures r.Some? ==> r.value in keys && r.value.keyHash == sha256(key) && IsValid(r.value, now)
    ensures r.None? ==> forall j :: 0 <= j < |keys| && keys[j].keyHash == sha256(key) ==>
                          exists i :: 0 <= i <= j && keys[i].keyHash == sha256(key) && !IsValid(keys[i], now)
  {
    match FirstWithHash(keys, sha256(key))
    case None => None
    case Some(i) => if IsValid(keys[i], now) then Some(keys[i]) else None
  }
}
