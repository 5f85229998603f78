/**
 * The API-key service (backend/services/api_key_service.py): creating a key
 * with its filtered permission list, looking a key up for its owner, the
 * owner-guarded update, delete, revoke and regenerate, and usage accounting.
 * The key table is a sequence of rows in insertion order; the random hex
 * and SHA-256 are parameters, times are integers on one clock.
 */
module ApiKeyService {
  import opened Wrappers
  import opened Text
  import opened ApiKeys
  import opened Sorting

  const NotFound := "密钥不存在"

  /** The names `create_key` and `update_key` accept. */
  predicate ValidPermission(p: string) {
    p == "read" || p == "write" || p == "admin"
  }

  /** `[p for p in permissions if p in valid_permissions]`. */
  function FilterPermissions(ps: seq<string>): (r: seq<string>)
    ensures |r| <= |ps|
    ensures forall k :: 0 <= k < |r| ==> ValidPermission(r[k])
  {
    if ps == [] then []
    else
      var earlier := FilterPermissions(ps[..|ps| - 1]);
      if ValidPermission(ps[|ps| - 1]) then earlier + [ps[|ps| - 1]] else earlier
  }

  /** The filter keeps exactly the valid names, each as often as it was given and in the given order. */
  lemma {:induction false} FilterPermissionsExactly(ps: seq<string>)
    ensures forall p :: p in FilterPermissions(ps) <==> p in ps && ValidPermission(p)
    ensures forall p :: multiset(FilterPermissions(ps))[p] == if ValidPermission(p) then multiset(ps)[p] else 0
  {
    if ps != [] {
      var init := ps[..|ps| - 1];
      FilterPermissionsExactly(init);
      assert ps == init + [ps[|ps| - 1]];
    }
  }

  /** Filtering a filtered list changes nothing. */
  lemma {:induction false} FilterPermissionsIdempotent(ps: seq<string>)
    ensures FilterPermissions(FilterPermissions(ps)) == FilterPermissions(ps)
  {
    if ps != [] {
      var init := ps[..|ps| - 1];
      FilterPermissionsIdempotent(init);
      var earlier := FilterPermissions(init);
      if ValidPermission(ps[|ps| - 1]) {
        assert (earlier + [ps[|ps| - 1]])[..|earlier|] == earlier;
      }
    }
  }

  /** The permission list `create_key` stores: ['read'] when none is given or none of them is valid. */
  function CreatePermissions(permissions: Option<seq<string>>): (r: seq<string>)
    ensures r != [] && forall k :: 0 <= k < |r| ==> ValidPermission(r[k])
    ensures permissions.None? ==> r == ["read"]
    ensures permissions.Some? ==>
              r == if FilterPermissions(permissions.value) == [] then ["read"] else FilterPermissions(permissions.value)
  {
    var filtered := FilterPermissions(permissions.GetOr(["read"]));
    if filtered == [] then ["read"] else filtered
  }

  /** A valid permission name survives the permission column unchanged. */
  lemma ValidPermissionStored(p: string)
    requires ValidPermission(p)
    ensures StoredName(p)
  {
    assert !IsSpace(p[0]) && !IsSpace(p[|p| - 1]) && ',' !in p;
    StripUnchanged(p);
  }

  /** The list `create_key` writes is the list the key reads back. */
  lemma CreatePermissionsReadBack(permissions: Option<seq<string>>)
    ensures PermissionList(PermissionText(CreatePermissions(permissions))) == CreatePermissions(permissions)
  {
    var names := CreatePermissions(permissions);
    forall k | 0 <= k < |names|
      ensures StoredName(names[k])
    {
      ValidPermissionStored(names[k]);
    }
    PermissionRoundTrip(names);
  }

  /** The row `create_key` inserts at time `now`: active, never used, with the generated prefix and hash. */
  function NewKey(uuid: string, userId: int, name: string, projectId: Option<int>, expiresAt: Option<int>,
                  permissions: Option<seq<string>>, now: int, generated: (string, string, string)): (k: Key)
    ensures k.uuid == uuid && k.userId == userId && k.name == name && k.projectId == projectId && k.expiresAt == expiresAt
    ensures k.createdAt == now
    ensures k.keyPrefix == generated.1 && k.keyHash == generated.2
    ensures k.isActive && k.callCount == 0 && k.lastUsedAt.None? && k.lastUsedIp.None?
    ensures PermissionList(k.permissions) == CreatePermissions(permissions)
  {
    CreatePermissionsReadBack(permissions);
    Key(uuid, name, generated.1, generated.2, userId, projectId, PermissionText(CreatePermissions(permissions)),
        true, 0, None, None, expiresAt, now)
  }

  /** The optional keyword arguments of `update_key`; None stands for a key that is not passed. */
  datatype KeyChanges = KeyChanges(
    name: Option<string>,
    permissions: Option<seq<string>>,
    isActive: Option<bool>,
    expiresAt: Option<Option<int>>)

  /** The row after `update_key` assigned the passed keys; a permission list with no valid name is ignored. */
  function KeyChanged(k: Key, c: KeyChanges): (r: Key)
    ensures r.name == c.name.GetOr(k.name) && r.isActive == c.isActive.GetOr(k.isActive)
    ensures r.expiresAt == c.expiresAt.GetOr(k.expiresAt)
    ensures c.permissions.None? || FilterPermissions(c.permissions.value) == [] ==> r.permissions == k.permissions
    ensures c.permissions.Some? && FilterPermissions(c.permissions.value) != [] ==>
              PermissionList(r.permissions) == FilterPermissions(c.permissions.value)
    ensures r == k.(name := r.name, permissions := r.permissions, isActive := r.isActive, expiresAt := r.expiresAt)
  {
    var permissions :=
      if c.permissions.Some? && FilterPermissions(c.permissions.value) != []
      then CreatePermissionsReadBack(c.permissions); PermissionText(FilterPermissions(c.permissions.value))
      else k.permissions;
    k.(name := c.name.GetOr(k.name), permissions := permissions,
       isActive := c.isActive.GetOr(k.isActive), expiresAt := c.expiresAt.GetOr(k.expiresAt))
  }

  /** An update never touches the key material, the owner or the usage counters, and applying it twice is applying it once. */
  lemma KeyChangedKeepsIdentity(k: Key, c: KeyChanges)
    ensures var r := KeyChanged(k, c);
            r.uuid == k.uuid && r.keyPrefix == k.keyPrefix && r.keyHash == k.keyHash && r.userId == k.userId
            && r.projectId == k.projectId && r.callCount == k.callCount && r.lastUsedAt == k.lastUsedAt
            && r.lastUsedIp == k.lastUsedIp
    ensures KeyChanged(KeyChanged(k, c), c) == KeyChanged(k, c)
  {
  }

  /** The first row with this uuid (`find_by_uuid`, `.first()`). */
  function FirstWithUuid(keys: seq<Key>, id: string): (r: Option<nat>)
    ensures r.Some? ==> r.value < |keys| && keys[r.value].uuid == id
                        && forall j :: 0 <= j < r.value ==> keys[j].uuid != id
    ensures r.None? ==> forall j :: 0 <= j < |keys| ==> keys[j].uuid != id
  {
    if keys == [] then None
    else if keys[0].uuid == id then Some(0)
    else match FirstWithUuid(keys[1..], id)
      case None => None
      case Some(i) => Some(i + 1)
  }

  /** The row the service acts on for this uuid and user: the first row with the uuid, if it is the user's. */
  function OwnedRow(keys: seq<Key>, id: string, userId: int): (r: Option<nat>)
    ensures r.Some? ==> r.value < |keys| && keys[r.value].uuid == id && keys[r.value].userId == userId
    ensures r.Some? <==> FirstWithUuid(keys, id).Some? && keys[FirstWithUuid(keys, id).value].userId == userId
  {
    match FirstWithUuid(keys, id)
    case None => None
    case Some(i) => if keys[i].userId != userId then None else Some(i)
  }

  /** The error message of a guarded operation: missing row first, then another user's row. */
  function GuardError(keys: seq<Key>, id: string, userId: int, foreign: string): (r: Option<string>)
    ensures r.None? <==> OwnedRow(keys, id, userId).Some?
    ensures foreign != NotFound ==> (r == Some(NotFound) <==> FirstWithUuid(keys, id).None?)
    ensures foreign != NotFound ==>
              (r == Some(foreign) <==> FirstWithUuid(keys, id).Some? && keys[FirstWithUuid(keys, id).value].userId != userId)
  {
    match FirstWithUuid(keys, id)
    case None => Some(NotFound)
    case Some(i) => if keys[i].userId != userId then Some(foreign) else None
  }

  /** The filters of `list_keys`: the user's rows; of the project only when a non-zero id is given; active ones unless asked. */
  predicate Listed(k: Key, userId: int, projectId: Option<int>, includeInactive: bool) {
    k.userId == userId
    && (projectId.None? || projectId.value == 0 || k.projectId == projectId)
    && (includeInactive || k.isActive)
  }

  /** The rows passing the filters of `list_keys`, in table order. */
  function MatchingKeys(keys: seq<Key>, userId: int, projectId: Option<int>, includeInactive: bool): (r: seq<Key>)
    ensures |r| <= |keys|
    ensures forall k :: 0 <= k < |r| ==> Listed(r[k], userId, projectId, includeInactive)
  {
    if keys == [] then []
    else
      var earlier := MatchingKeys(keys[..|keys| - 1], userId, projectId, includeInactive);
      if Listed(keys[|keys| - 1], userId, projectId, includeInactive) then earlier + [keys[|keys| - 1]] else earlier
  }

  /** The rank `ORDER BY created_at DESC` sorts by: later rows first. */
  function NewestFirst(k: Key): int {
    -k.createdAt
  }

  /** `list_keys`: the matching rows, newest first; rows created at the same time keep table order. */
  function ListKeys(keys: seq<Key>, userId: int, projectId: Option<int>, includeInactive: bool): (r: seq<Key>)
    ensures multiset(r) == multiset(MatchingKeys(keys, userId, projectId, includeInactive))
  {
    SortBy(MatchingKeys(keys, userId, projectId, includeInactive), NewestFirst)
  }

  lemma {:induction false} MatchingKeysExactly(keys: seq<Key>, userId: int, projectId: Option<int>, includeInactive: bool)
    ensures forall k :: k in MatchingKeys(keys, userId, projectId, includeInactive) <==>
                          k in keys && Listed(k, userId, projectId, includeInactive)
  {
    if keys != [] {
      var init := keys[..|keys| - 1];
      MatchingKeysExactly(init, userId, projectId, includeInactive);
      assert keys == init + [keys[|keys| - 1]];
    }
  }

  /** A row is listed exactly when it passes the filters; another user's row never is. */
  lemma ListKeysExactly(keys: seq<Key>, userId: int, projectId: Option<int>, includeInactive: bool)
    ensures forall k :: k in ListKeys(keys, userId, projectId, includeInactive) <==>
                          k in keys && Listed(k, userId, projectId, includeInactive)
  {
    MatchingKeysExactly(keys, userId, projectId, includeInactive);
    var r := ListKeys(keys, userId, projectId, includeInactive);
    var m := MatchingKeys(keys, userId, projectId, includeInactive);
    forall k ensures k in r <==> k in m {
      assert k in r <==> k in multiset(r);
      assert k in m <==> k in multiset(m);
    }
  }

  /** The listing is newest first: no row comes before a row created after it. */
  lemma ListKeysNewestFirst(keys: seq<Key>, userId: int, projectId: Option<int>, includeInactive: bool)
    ensures var r := ListKeys(keys, userId, projectId, includeInactive);
            forall i, j :: 0 <= i < j < |r| ==> r[i].createdAt >= r[j].createdAt
  {
    var r := ListKeys(keys, userId, projectId, includeInactive);
    SortBySorted(MatchingKeys(keys, userId, projectId, includeInactive), NewestFirst);
    forall i, j | 0 <= i < j < |r| ensures r[i].createdAt >= r[j].createdAt {
      assert NewestFirst(r[i]) <= NewestFirst(r[j]);
    }
  }

  /** No two rows share a key hash (the column is unique). */
  predicate UniqueHashes(keys: seq<Key>) {
    forall a, b :: 0 <= a < b < |keys| ==> keys[a].keyHash != keys[b].keyHash
  }

  /** A key whose hash is row i's alone verifies to that row exactly when the row is valid. */
  lemma {:induction false} VerifyFindsRow(keys: seq<Key>, i: nat, key: string, sha256: string -> string, now: int)
    requires i < |keys| && keys[i].keyHash == sha256(key)
    requires forall j :: 0 <= j < |keys| && j != i ==> keys[j].keyHash != sha256(key)
    ensures VerifyKey(keys, key, sha256, now) == if IsValid(keys[i], now) then Some(keys[i]) else None
  {
    var found := FirstWithHash(keys, sha256(key));
    assert found == Some(i);
  }

  class KeyStore {
    var keys: seq<Key>

    constructor(keys: seq<Key>)
      ensures this.keys == keys
    {
      this.keys := keys;
    }

    /** `get_key`: the row with this uuid if it is the user's, and nothing for another user's key. */
    function GetKey(id: string, userId: int): (r: Option<Key>)
      reads this
      ensures r.Some? <==> OwnedRow(keys, id, userId).Some?
      ensures r.Some? ==> r.value.uuid == id && r.value.userId == userId && r.value in keys
    {
      match OwnedRow(keys, id, userId)
      case None => None
      case Some(i) => Some(keys[i])
    }

    /** `create_key`: one new row at the end; the full key is returned once and only its hash is stored. */
    method CreateKey(userId: int, name: string, permissions: Option<seq<string>>, projectId: Option<int>,
                     expiresAt: Option<int>, newUuid: string, now: int, randomHex: string, sha256: string -> string)
      returns (k: Key, fullKey: string)
      modifies this
      ensures fullKey == GenerateKey(randomHex, sha256).0 && k.keyHash == sha256(fullKey)
      ensures k == NewKey(newUuid, userId, name, projectId, expiresAt, permissions, now, GenerateKey(randomHex, sha256))
      ensures keys == old(keys) + [k]
    {
      var generated := GenerateKey(randomHex, sha256);
      k := NewKey(newUuid, userId, name, projectId, expiresAt, permissions, now, generated);
      keys := keys + [k];
      fullKey := generated.0;
    }

    /** `update_key`: the guards, then the passed keys assigned to that row alone. */
    method UpdateKey(id: string, userId: int, c: KeyChanges) returns (r: Result<Key>)
      modifies this
      ensures old(GuardError(keys, id, userId, "无权修改此密钥")).Some? ==>
                r == Err(old(GuardError(keys, id, userId, "无权修改此密钥")).value) && keys == old(keys)
      ensures old(OwnedRow(keys, id, userId)).Some? ==>
                var i := old(OwnedRow(keys, id, userId)).value;
                r == Ok(KeyChanged(old(keys[i]), c)) && keys == old(keys)[i := r.value]
    {
      var found := FirstWithUuid(keys, id);
      if found.None? {
        return Err(NotFound);
      }
      var i := found.value;
      if keys[i].userId != userId {
        return Err("无权修改此密钥");
      }
      var k := KeyChanged(keys[i], c);
      keys := keys[i := k];
      r := Ok(k);
    }

    /** `delete_key`: the guards, then the row is removed. */
    method DeleteKey(id: string, userId: int) returns (ok: bool, error: Option<string>)
      modifies this
      ensures old(GuardError(keys, id, userId, "无权删除此密钥")).Some? ==>
                !ok && error == old(GuardError(keys, id, userId, "无权删除此密钥")) && keys == old(keys)
      ensures old(OwnedRow(keys, id, userId)).Some? ==>
                var i := old(OwnedRow(keys, id, userId)).value;
                ok && error.None? && keys == old(keys[..i] + keys[i + 1..])
    {
      var found := FirstWithUuid(keys, id);
      if found.None? {
        return false, Some(NotFound);
      }
      var i := found.value;
      if keys[i].userId != userId {
        return false, Some("无权删除此密钥");
      }
      keys := keys[..i] + keys[i + 1..];
      return true, None;
    }

    /** `revoke_key`: the guards, then the row is kept but deactivated. */
    method RevokeKey(id: string, userId: int) returns (ok: bool, error: Option<string>)
      modifies this
      ensures old(GuardError(keys, id, userId, "无权撤销此密钥")).Some? ==>
                !ok && error == old(GuardError(keys, id, userId, "无权撤销此密钥")) && keys == old(keys)
      ensures old(OwnedRow(keys, id, userId)).Some? ==>
                var i := old(OwnedRow(keys, id, userId)).value;
                ok && error.None? && keys == old(keys)[i := old(keys[i]).(isActive := false)]
    {
      var found := FirstWithUuid(keys, id);
      if found.None? {
        return false, Some(NotFound);
      }
      var i := found.value;
      if keys[i].userId != userId {
        return false, Some("无权撤销此密钥");
      }
      keys := keys[i := keys[i].(isActive := false)];
      return true, None;
    }

    /** `regenerate_key`: the guards, then only the prefix and the hash of the row are replaced. */
    method RegenerateKey(id: string, userId: int, randomHex: string, sha256: string -> string) returns (r: Result<string>)
      modifies this
      ensures old(GuardError(keys, id, userId, "无权操作此密钥")).Some? ==>
                r == Err(old(GuardError(keys, id, userId, "无权操作此密钥")).value) && keys == old(keys)
      ensures old(OwnedRow(keys, id, userId)).Some? ==>
                var i := old(OwnedRow(keys, id, userId)).value;
                var (full, prefix, hash) := GenerateKey(randomHex, sha256);
                r == Ok(full) && keys == old(keys)[i := old(keys[i]).(keyPrefix := prefix, keyHash := hash)]
    {
      var found := FirstWithUuid(keys, id);
      if found.None? {
        return Err(NotFound);
      }
      var i := found.value;
      if keys[i].userId != userId {
        return Err("无权操作此密钥");
      }
      var generated := GenerateKey(randomHex, sha256);
      keys := keys[i := keys[i].(keyPrefix := generated.1, keyHash := generated.2)];
      r := Ok(generated.0);
    }

    /** `record_usage` on row i: the row's counters move as `ApiKey.record_usage` says; the usage log is not kept. */
    method RecordKeyUsage(i: nat, ip: Option<string>, now: int)
      requires i < |keys|
      modifies this
      ensures keys == old(keys)[i := RecordUsage(old(keys[i]), ip, now)]
    {
      keys := keys[i := RecordUsage(keys[i], ip, now)];
    }
  }

  /** A revoked row is never returned by `verify_key`, whatever key is presented. */
  lemma RevokedNeverVerifies(keys: seq<Key>, i: nat, key: string, sha256: string -> string, now: int)
    requires i < |keys| && UniqueHashes(keys) && keys[i].keyHash == sha256(key)
    ensures VerifyKey(keys[i := keys[i].(isActive := false)], key, sha256, now) == None
  {
    var after := keys[i := keys[i].(isActive := false)];
    VerifyFindsRow(after, i, key, sha256, now);
  }

  /** After `regenerate_key` the new key verifies to the row while it is valid, and the old key no longer does. */
  lemma RegeneratedKeyVerifies(keys: seq<Key>, i: nat, oldKey: string, randomHex: string, sha256: string -> string, now: int)
    requires i < |keys| && UniqueHashes(keys) && keys[i].keyHash == sha256(oldKey)
    requires var hash := GenerateKey(randomHex, sha256).2;
             hash != keys[i].keyHash && forall j :: 0 <= j < |keys| ==> keys[j].keyHash != hash
    ensures var (full, prefix, hash) := GenerateKey(randomHex, sha256);
            var after := keys[i := keys[i].(keyPrefix := prefix, keyHash := hash)];
            VerifyKey(after, full, sha256, now) == (if IsValid(keys[i], now) then Some(after[i]) else None)
            && VerifyKey(after, oldKey, sha256, now) == None
  {
    var (full, prefix, hash) := GenerateKey(randomHex, sha256);
    var after := keys[i := keys[i].(keyPrefix := prefix, keyHash := hash)];
    VerifyFindsRow(after, i, full, sha256, now);
    assert forall j :: 0 <= j < |after| ==> after[j].keyHash != sha256(oldKey);
  }

  /** A freshly created key verifies to its row until it expires. */
  lemma CreatedKeyVerifies(keys: seq<Key>, k: Key, fullKey: string, sha256: string -> string, now: int)
    requires k.isActive && k.keyHash == sha256(fullKey)
    requires forall j :: 0 <= j < |keys| ==> keys[j].keyHash != k.keyHash
    ensures VerifyKey(keys + [k], fullKey, sha256, now) == if IsExpired(k, now) then None else Some(k)
  {
    VerifyFindsRow(keys + [k], |keys|, fullKey, sha256, now);
  }
}
