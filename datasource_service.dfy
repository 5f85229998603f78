/**
 * The data-source service (backend/services/datasource_service.py): create
 * with type and port checks, update with owner and port checks, delete and
 * get for the owner only. The table of sources is an in-memory list of
 * `DataSource` objects; uuids and the clock are parameters.
 */
module DataSourceService {
  import opened Wrappers
  import opened Values
  import opened DataSources

  const ValidTypes: seq<string> := ["mysql", "postgresql", "mongodb", "restapi"]

  function UnsupportedType(kind: string): string { "不支持的数据源类型: " + kind }
  const BadPort := "端口号必须在 1-65535 之间"
  const NotFound := "数据源不存在"
  const NoRightToEdit := "无权修改此数据源"
  const NoRightToDelete := "无权删除此数据源"

  predicate PortInRange(port: int) { 1 <= port <= 65535 }

  /** The checks `create_datasource` makes before building anything: the type first, then the port. */
  function CreateError(kind: string, port: int): (r: Option<string>)
    ensures r.None? <==> kind in ValidTypes && PortInRange(port)
    ensures kind !in ValidTypes ==> r == Some(UnsupportedType(kind))
    ensures kind in ValidTypes && !PortInRange(port) ==> r == Some(BadPort)
  {
    if kind !in ValidTypes then Some(UnsupportedType(kind))
    else if !PortInRange(port) then Some(BadPort)
    else None
  }

  /** The columns of a newly created source: the secret and the options are set only when truthy. */
  function CreatedRow(uuid: string, userId: int, projectId: Option<int>, name: string, description: Option<string>,
                      kind: string, host: string, port: int, database: Option<string>, username: Option<string>,
                      password: Option<string>, useSsl: bool, sslConfig: Value, apiConfig: Value,
                      dumps: Value -> string, now: string): Row
  {
    Row(uuid, userId, projectId, name, description, kind, host, port, database, username,
        if password.Some? && password.value != "" then StoredPassword(password) else None,
        if Truthy(apiConfig) then StoredConfig(apiConfig, dumps) else None,
        useSsl,
        if Truthy(sslConfig) then StoredConfig(sslConfig, dumps) else None,
        "disconnected", None, None, 0, 0, Some(now), Some(now))
  }

  /**
   * The truthiness guards of `create_datasource` agree with the setters' own:
   * the new source stores exactly what the setters would store, and reads
   * back the password it was given (None when empty) and its options (`{}` when falsy).
   */
  lemma CreatedRowStores(uuid: string, userId: int, projectId: Option<int>, name: string, description: Option<string>,
                         kind: string, host: string, port: int, database: Option<string>, username: Option<string>,
                         password: Option<string>, useSsl: bool, sslConfig: Value, apiConfig: Value,
                         dumps: Value -> string, loads: string -> Result<Value>, now: string)
    requires Truthy(sslConfig) ==> dumps(sslConfig) != "" && loads(dumps(sslConfig)) == Ok(sslConfig)
    requires Truthy(apiConfig) ==> dumps(apiConfig) != "" && loads(dumps(apiConfig)) == Ok(apiConfig)
    ensures var r := CreatedRow(uuid, userId, projectId, name, description, kind, host, port, database, username,
                                password, useSsl, sslConfig, apiConfig, dumps, now);
            r.storedPassword == StoredPassword(password)
            && r.storedSslConfig == StoredConfig(sslConfig, dumps)
            && r.storedApiConfig == StoredConfig(apiConfig, dumps)
            && ReadPassword(r.storedPassword) == (if password.Some? && password.value != "" then Ok(password) else Ok(None))
            && ReadConfig(r.storedSslConfig, loads) == (if Truthy(sslConfig) then Ok(sslConfig) else Ok(Dict([])))
            && ReadConfig(r.storedApiConfig, loads) == (if Truthy(apiConfig) then Ok(apiConfig) else Ok(Dict([])))
  {
    PasswordRoundTrip(password);
    ConfigRoundTrip(sslConfig, dumps, loads);
    ConfigRoundTrip(apiConfig, dumps, loads);
  }

  /** The keyword arguments of `update_datasource`; `None` means the key is absent. */
  datatype Changes = Changes(
    name: Option<string>,
    description: Option<Option<string>>,
    host: Option<string>,
    port: Option<int>,
    database: Option<Option<string>>,
    username: Option<Option<string>>,
    password: Option<Option<string>>,
    useSsl: Option<bool>,
    sslConfig: Option<Value>,
    apiConfig: Option<Value>)

  /** The keys `update_datasource` handles before the port. */
  function WithLeading(r: Row, ch: Changes): Row {
    r.(name := if ch.name.Some? then ch.name.value else r.name,
       description := if ch.description.Some? then ch.description.value else r.description,
       host := if ch.host.Some? then ch.host.value else r.host)
  }

  /** A password that `update_datasource` writes: present and non-empty. */
  predicate NewPassword(ch: Changes) {
    ch.password.Some? && ch.password.value.Some? && ch.password.value.value != ""
  }

  /** The keys `update_datasource` handles after the port. */
  function WithTrailing(r: Row, ch: Changes, dumps: Value -> string): Row {
    r.(database := if ch.database.Some? then ch.database.value else r.database,
       username := if ch.username.Some? then ch.username.value else r.username,
       storedPassword := if NewPassword(ch) then StoredPassword(ch.password.value) else r.storedPassword,
       useSsl := if ch.useSsl.Some? then ch.useSsl.value else r.useSsl,
       storedSslConfig := if ch.sslConfig.Some? then StoredConfig(ch.sslConfig.value, dumps) else r.storedSslConfig,
       storedApiConfig := if ch.apiConfig.Some? then StoredConfig(ch.apiConfig.value, dumps) else r.storedApiConfig)
  }

  /**
   * The columns after `update_datasource` passed its owner check, and its
   * error: a port out of range stops it after name, description and host
   * were already assigned.
   */
  function Updated(r: Row, ch: Changes, dumps: Value -> string): (Row, Option<string>) {
    var lead := WithLeading(r, ch);
    if ch.port.Some? && !PortInRange(ch.port.value) then (lead, Some(BadPort))
    else (WithTrailing(lead.(port := if ch.port.Some? then ch.port.value else lead.port), ch, dumps), None)
  }

  /**
   * An update changes only the columns whose key is present; the password
   * only for a non-empty one; it fails exactly on a port out of range, and
   * then nothing after the port is touched. Identity, owner, status and
   * counters never change.
   */
  lemma UpdatedChangesOnlyPresent(r: Row, ch: Changes, dumps: Value -> string)
    ensures var (r', err) := Updated(r, ch, dumps);
            (err.Some? <==> ch.port.Some? && !PortInRange(ch.port.value))
            && (err.Some? ==> err == Some(BadPort))
            && (ch.name.None? ==> r'.name == r.name) && (ch.name.Some? ==> r'.name == ch.name.value)
            && (ch.description.None? ==> r'.description == r.description)
            && (ch.description.Some? ==> r'.description == ch.description.value)
            && (ch.host.None? ==> r'.host == r.host) && (ch.host.Some? ==> r'.host == ch.host.value)
            && (err.None? && ch.port.Some? ==> r'.port == ch.port.value)
            && (ch.port.None? || err.Some? ==> r'.port == r.port)
            && (err.Some? || ch.database.None? ==> r'.database == r.database)
            && (err.Some? || ch.username.None? ==> r'.username == r.username)
            && (err.Some? || !NewPassword(ch) ==> r'.storedPassword == r.storedPassword)
            && (err.None? && NewPassword(ch) ==> ReadPassword(r'.storedPassword) == Ok(ch.password.value))
            && (err.Some? || ch.useSsl.None? ==> r'.useSsl == r.useSsl)
            && (err.Some? || ch.sslConfig.None? ==> r'.storedSslConfig == r.storedSslConfig)
            && (err.Some? || ch.apiConfig.None? ==> r'.storedApiConfig == r.storedApiConfig)
            && r'.uuid == r.uuid && r'.userId == r.userId && r'.kind == r.kind && r'.status == r.status
            && r'.connectionCount == r.connectionCount && r'.queryCount == r.queryCount
  {
    if NewPassword(ch) {
      PasswordRoundTrip(ch.password.value);
    }
  }

  /** The objects of a list, as a frame. */
  function Objects(sources: seq<DataSource>): set<DataSource> {
    set d | d in sources
  }

  /** `find_by_uuid`: the first source with that uuid. */
  function FindByUuid(sources: seq<DataSource>, id: string): (r: Option<nat>)
    reads Objects(sources)
    ensures r.Some? ==> r.value < |sources| && sources[r.value].columns.uuid == id
                        && forall j :: 0 <= j < r.value ==> sources[j].columns.uuid != id
    ensures r.None? ==> forall j :: 0 <= j < |sources| ==> sources[j].columns.uuid != id
  {
    if sources == [] then None
    else if sources[0].columns.uuid == id then Some(0)
    else match FindByUuid(sources[1..], id)
      case None => None
      case Some(i) => Some(i + 1)
  }

  /** The assignments of `update_datasource` before the port check. */
  method AssignLeading(d: DataSource, ch: Changes)
    modifies d
    ensures d.columns == WithLeading(old(d.columns), ch)
  {
    if ch.name.Some? {
      d.columns := d.columns.(name := ch.name.value);
    }
    if ch.description.Some? {
      d.columns := d.columns.(description := ch.description.value);
    }
    if ch.host.Some? {
      d.columns := d.columns.(host := ch.host.value);
    }
  }

  /** The assignments of `update_datasource` after the port check. */
  method AssignTrailing(d: DataSource, ch: Changes, dumps: Value -> string)
    modifies d
    ensures d.columns == WithTrailing(old(d.columns), ch, dumps)
  {
    if ch.database.Some? {
      d.columns := d.columns.(database := ch.database.value);
    }
    if ch.username.Some? {
      d.columns := d.columns.(username := ch.username.value);
    }
    if NewPassword(ch) {
      d.SetPassword(ch.password.value);
    }
    if ch.useSsl.Some? {
      d.columns := d.columns.(useSsl := ch.useSsl.value);
    }
    if ch.sslConfig.Some? {
      d.SetSslConfig(ch.sslConfig.value, dumps);
    }
    if ch.apiConfig.Some? {
      d.SetApiConfig(ch.apiConfig.value, dumps);
    }
  }

  /** The new object `create_datasource` builds: the constructor, then the setters for truthy secrets and options. */
  method NewDataSource(userId: int, name: string, kind: string, host: string, port: int,
                       database: Option<string>, username: Option<string>, password: Option<string>,
                       description: Option<string>, projectId: Option<int>, useSsl: bool,
                       sslConfig: Value, apiConfig: Value, uuid: string, now: string, dumps: Value -> string)
    returns (d: DataSource)
    ensures fresh(d)
    ensures d.columns == CreatedRow(uuid, userId, projectId, name, description, kind, host, port, database,
                                    username, password, useSsl, sslConfig, apiConfig, dumps, now)
  {
    d := new DataSource(uuid, userId, projectId, name, description, kind, host, port, database, username, useSsl, now);
    ghost var row := CreatedRow(uuid, userId, projectId, name, description, kind, host, port, database,
                                username, password, useSsl, sslConfig, apiConfig, dumps, now);
    if password.Some? && password.value != "" {
      d.SetPassword(password);
    }
    assert d.columns.storedPassword == row.storedPassword;
    if Truthy(sslConfig) {
      d.SetSslConfig(sslConfig, dumps);
    }
    assert d.columns.storedSslConfig == row.storedSslConfig;
    if Truthy(apiConfig) {
      d.SetApiConfig(apiConfig, dumps);
    }
    assert d.columns.storedApiConfig == row.storedApiConfig;
    assert d.columns == row.(storedPassword := d.columns.storedPassword, storedSslConfig := d.columns.storedSslConfig,
                             storedApiConfig := d.columns.storedApiConfig);
  }

  /** The table of data sources. */
  class DataSourceTable {
    var sources: seq<DataSource>

    constructor()
      ensures sources == []
    {
      sources := [];
    }

    /**
     * `create_datasource`: refused for an unknown type or a port out of
     * range; otherwise one new source is appended, holding the password and
     * the options only when they are truthy.
     */
    method CreateDatasource(userId: int, name: string, kind: string, host: string, port: int,
                            database: Option<string>, username: Option<string>, password: Option<string>,
                            description: Option<string>, projectId: Option<int>, useSsl: bool,
                            sslConfig: Value, apiConfig: Value, uuid: string, now: string, dumps: Value -> string)
      returns (ds: DataSource?, error: Option<string>)
      modifies this
      ensures error == CreateError(kind, port)
      ensures error.Some? ==> ds == null && sources == old(sources)
      ensures error.None? ==>
                ds != null && fresh(ds) && sources == old(sources) + [ds]
                && ds.columns == CreatedRow(uuid, userId, projectId, name, description, kind, host, port, database,
                                              username, password, useSsl, sslConfig, apiConfig, dumps, now)
    {
      error := CreateError(kind, port);
      if error.Some? {
        return null, error;
      }
      var d := NewDataSource(userId, name, kind, host, port, database, username, password, description, projectId,
                             useSsl, sslConfig, apiConfig, uuid, now, dumps);
      sources := sources + [d];
      ds := d;
    }

    /**
     * `update_datasource`: refused for an unknown uuid or another user's
     * source; otherwise the present keys are assigned in order, stopping at
     * a port out of range. The list and every other source stay as they were.
     */
    method UpdateDatasource(id: string, userId: int, ch: Changes, dumps: Value -> string)
      returns (ds: DataSource?, error: Option<string>)
      modifies Objects(sources)
      ensures sources == old(sources)
      ensures var found := old(FindByUuid(sources, id));
              (found.None? ==> ds == null && error == Some(NotFound))
              && (found.Some? && old(sources[found.value].columns.userId) != userId ==> ds == null && error == Some(NoRightToEdit))
              && (found.None? || old(sources[found.value].columns.userId) != userId ==>
                    forall d :: d in sources ==> d.columns == old(d.columns))
      ensures var found := old(FindByUuid(sources, id));
              found.Some? && old(sources[found.value].columns.userId) == userId ==>
                var target := sources[found.value];
                var (row, err) := Updated(old(target.columns), ch, dumps);
                target.columns == row && error == err && (ds == if err.None? then target else null)
                && forall d :: d in sources && d != target ==> d.columns == old(d.columns)
    {
      var found := FindByUuid(sources, id);
      if found.None? {
        return null, Some(NotFound);
      }
      var target := sources[found.value];
      if target.columns.userId != userId {
        return null, Some(NoRightToEdit);
      }
      AssignLeading(target, ch);
      if ch.port.Some? {
        if !PortInRange(ch.port.value) {
          return null, Some(BadPort);
        }
        target.columns := target.columns.(port := ch.port.value);
      }
      AssignTrailing(target, ch, dumps);
      return target, None;
    }

    /** `delete_datasource`: refused for an unknown uuid or another user's source; otherwise that source is removed. */
    method DeleteDatasource(id: string, userId: int) returns (ok: bool, error: Option<string>)
      modifies this
      ensures var found := old(FindByUuid(sources, id));
              (found.None? ==> !ok && error == Some(NotFound) && sources == old(sources))
              && (found.Some? && old(sources[found.value].columns.userId) != userId ==>
                    !ok && error == Some(NoRightToDelete) && sources == old(sources))
              && (found.Some? && old(sources[found.value].columns.userId) == userId ==>
                    ok && error.None? && sources == old(sources[..found.value] + sources[found.value + 1..]))
    {
      var found := FindByUuid(sources, id);
      if found.None? {
        return false, Some(NotFound);
      }
      var i := found.value;
      if sources[i].columns.userId != userId {
        return false, Some(NoRightToDelete);
      }
      sources := sources[..i] + sources[i + 1..];
      return true, None;
    }

    /** `get_datasource`: the source with that uuid when it belongs to the user, else null. */
    function GetDatasource(id: string, userId: int): (r: DataSource?)
      reads this, Objects(sources)
      ensures r != null <==> FindByUuid(sources, id).Some? && sources[FindByUuid(sources, id).value].columns.userId == userId
      ensures r != null ==> r == sources[FindByUuid(sources, id).value] && r.columns.uuid == id && r.columns.userId == userId
    {
      match FindByUuid(sources, id)
      case None => null
      case Some(i) => if sources[i].columns.userId != userId then null else sources[i]
    }
  }
}
