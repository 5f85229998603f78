/**
 * The data-source model (backend/models/datasource.py): connection settings
 * of a user's database or REST API, the password kept as base64 of its UTF-8
 * bytes, the API and SSL options kept as JSON text, the connection status
 * and two counters. json.dumps / json.loads are parameters; the clock is
 * the `now` text `update_status` writes.
 */
module DataSources {
  import opened Wrappers
  import opened Text
  import opened Values
  import opened Codecs

  /** The columns of one data source. Datetimes are kept as their ISO text. */
  datatype Row = Row(
    uuid: string,
    userId: int,
    projectId: Option<int>,
    name: string,
    description: Option<string>,
    kind: string,
    host: string,
    port: int,
    database: Option<string>,
    username: Option<string>,
    storedPassword: Option<string>,
    storedApiConfig: Option<string>,
    useSsl: bool,
    storedSslConfig: Option<string>,
    status: string,
    lastConnectedAt: Option<string>,
    lastError: Option<string>,
    connectionCount: int,
    queryCount: int,
    createdAt: Option<string>,
    updatedAt: Option<string>)

  const BadBase64 := "binascii.Error"
  const BadUtf8 := "UnicodeDecodeError"

  // ------------------------------------------------------------- password

  /** What the `password` setter stores: base64 of the UTF-8 bytes, or None for an empty or missing password. */
  function StoredPassword(value: Option<string>): (r: Option<string>)
    ensures r.None? <==> value.None? || value.value == ""
    ensures r.Some? ==> r.value != "" && |r.value| % 4 == 0
                        && forall i :: 0 <= i < |r.value| ==> InAlphabet(r.value[i]) || r.value[i] == '='
  {
    if value.Some? && value.value != "" then Some(EncodeBase64(EncodeUtf8(value.value))) else None
  }

  /** `get_password`: the decoded text of a non-empty stored value, else None; undecodable text raises. */
  function ReadPassword(stored: Option<string>): (r: Result<Option<string>>)
    ensures stored.None? || stored.value == "" ==> r == Ok(None)
    ensures r.Ok? && r.value.Some? ==> stored.Some? && DecodeBase64(stored.value).Some?
  {
    if stored.Some? && stored.value != "" then
      match DecodeBase64(stored.value)
      case None => Err(BadBase64)
      case Some(bytes) =>
        match DecodeUtf8(bytes)
        case None => Err(BadUtf8)
        case Some(text) => Ok(Some(text))
    else Ok(None)
  }

  /** A non-empty password reads back as itself; an empty or missing one reads back as None. */
  lemma PasswordRoundTrip(value: Option<string>)
    ensures ReadPassword(StoredPassword(value)) == if value.Some? && value.value != "" then Ok(value) else Ok(None)
  {
    if value.Some? && value.value != "" {
      Utf8RoundTrip(value.value);
      Base64RoundTrip(EncodeUtf8(value.value));
    }
  }

  // --------------------------------------------------------- JSON options

  /** What the `api_config` / `ssl_config` setters store: the JSON text of a truthy value, else None. */
  function StoredConfig(v: Value, dumps: Value -> string): (r: Option<string>)
    ensures r.None? <==> !Truthy(v)
    ensures r.Some? ==> r.value == dumps(v)
  {
    if Truthy(v) then Some(dumps(v)) else None
  }

  /** The `api_config` / `ssl_config` getters: the parsed text when non-empty, else `{}`. */
  function ReadConfig(stored: Option<string>, loads: string -> Result<Value>): (r: Result<Value>)
    ensures stored.None? || stored.value == "" ==> r == Ok(Dict([]))
    ensures stored.Some? && stored.value != "" ==> r == loads(stored.value)
  {
    if stored.Some? && stored.value != "" then loads(stored.value) else Ok(Dict([]))
  }

  /**
   * A truthy option reads back as itself when the parser inverts the encoder
   * (whose output is never empty); a falsy one reads back as `{}`.
   */
  lemma ConfigRoundTrip(v: Value, dumps: Value -> string, loads: string -> Result<Value>)
    requires Truthy(v) ==> dumps(v) != "" && loads(dumps(v)) == Ok(v)
    ensures ReadConfig(StoredConfig(v, dumps), loads) == if Truthy(v) then Ok(v) else Ok(Dict([]))
  {
  }

  // ------------------------------------------------------- status counters

  /** The row after `update_status`. */
  function StatusUpdated(r: Row, status: string, error: Option<string>, now: string): Row {
    if status == "connected" then
      r.(status := status, lastConnectedAt := Some(now), lastError := None, connectionCount := r.connectionCount + 1)
    else if status == "error" then r.(status := status, lastError := error)
    else r.(status := status)
  }

  /**
   * `update_status` sets the status; a connection stamps the time, clears
   * the error and counts one more connection; an error records its text;
   * no other column changes.
   */
  lemma StatusUpdatedColumns(r: Row, status: string, error: Option<string>, now: string)
    ensures var r' := StatusUpdated(r, status, error, now);
            r'.status == status
            && r'.connectionCount == r.connectionCount + (if status == "connected" then 1 else 0)
            && r'.lastConnectedAt == (if status == "connected" then Some(now) else r.lastConnectedAt)
            && r'.lastError == (if status == "connected" then None else if status == "error" then error else r.lastError)
            && r'.(status := r.status, lastConnectedAt := r.lastConnectedAt, lastError := r.lastError,
                   connectionCount := r.connectionCount) == r
  {
  }

  // ------------------------------------------------------ connection string

  /** The URL scheme of each database type. */
  function Scheme(kind: string): (r: Option<string>)
    ensures r.Some? <==> kind in ["mysql", "postgresql", "mongodb"]
    ensures r.Some? ==> '@' !in r.value && ':' !in r.value
  {
    if kind == "mysql" then Some("mysql+pymysql")
    else if kind == "postgresql" then Some("postgresql")
    else if kind == "mongodb" then Some("mongodb")
    else None
  }

  /** f"{text}" of an optional string: None prints as `None`. */
  function OptText(s: Option<string>): string {
    if s.Some? then s.value else "None"
  }

  /** `user:password@` when a username is set, else nothing. */
  function Authority(username: Option<string>, password: Option<string>): string {
    if username.Some? && username.value != "" then username.value + ":" + OptText(password) + "@" else ""
  }

  /** `host:port/database` of a database URL. */
  function Location(r: Row): string {
    r.host + ":" + IntToDecimal(r.port) + "/" + (if r.database.Some? then r.database.value else "")
  }

  /** `get_connection_string`, given the decoded password. */
  function ConnectionString(r: Row, password: Option<string>): (s: Option<string>)
    ensures s.Some? <==> r.kind in ["mysql", "postgresql", "mongodb", "restapi"]
  {
    match Scheme(r.kind)
    case Some(scheme) =>
      Some(scheme + "://" + Authority(r.username, password) + Location(r))
    case None =>
      if r.kind == "restapi" then Some((if r.useSsl then "https" else "http") + "://" + r.host + ":" + IntToDecimal(r.port))
      else None
  }

  lemma NoAtInDecimal(i: int)
    ensures '@' !in IntToDecimal(i)
  {
    var n: nat := if i < 0 then -i else i;
    var d := NatToDecimal(n);
    assert forall j :: 0 <= j < |d| ==> d[j] != '@';
  }

  /**
   * A database URL carries credentials exactly when a username is set: it
   * contains `@` iff the username is non-empty, as long as neither the host
   * nor the database name contains one.
   */
  lemma CredentialsOnlyWithUsername(r: Row, password: Option<string>)
    requires Scheme(r.kind).Some? && '@' !in r.host
    requires r.database.Some? ==> '@' !in r.database.value
    ensures '@' in ConnectionString(r, password).value <==> r.username.Some? && r.username.value != ""
  {
    NoAtInDecimal(r.port);
    var a := Authority(r.username, password);
    if r.username.Some? && r.username.value != "" {
      assert a[|a| - 1] == '@';
    }
  }

  /** A database URL starts with its scheme and `://`, then the username when one is set. */
  lemma ConnectionStringPrefix(r: Row, password: Option<string>)
    requires Scheme(r.kind).Some?
    ensures var s := ConnectionString(r, password).value;
            var head := Scheme(r.kind).value + "://";
            s[..|head|] == head
            && (r.username.Some? && r.username.value != "" ==>
                  s[|head|..|head| + |r.username.value| + 1] == r.username.value + ":")
  {
    var head := Scheme(r.kind).value + "://";
    var a := Authority(r.username, password);
    assert ConnectionString(r, password).value == head + a + Location(r);
    if r.username.Some? && r.username.value != "" {
      var u := r.username.value;
      assert a == u + ":" + (OptText(password) + "@");
      HeadThenPrefix(head, u + ":", OptText(password) + "@", Location(r));
    }
  }

  /** In `head + p + q + rest`, the text after head starts with p. */
  lemma HeadThenPrefix(head: string, p: string, q: string, rest: string)
    ensures var s := head + (p + q) + rest;
            s[..|head|] == head && s[|head|..|head| + |p|] == p
  {
    var s := head + (p + q) + rest;
    assert s == head + (p + (q + rest));
  }

  /** A REST API URL uses https exactly when SSL is on. */
  lemma RestApiScheme(r: Row, password: Option<string>)
    requires r.kind == "restapi"
    ensures var s := ConnectionString(r, password).value;
            |s| >= 8 && (s[..8] == "https://" <==> r.useSsl)
  {
    var s := ConnectionString(r, password).value;
    if !r.useSsl {
      assert s[4] == ':';
    }
  }

  // ----------------------------------------------------------------- to_dict

  function OptStr(s: Option<string>): Value {
    if s.Some? then Str(s.value) else Null
  }

  /** The keys `to_dict` always writes, in order. */
  const DictKeys: seq<string> := ["id", "name", "description", "type", "host", "port", "database", "username",
                                  "use_ssl", "status", "last_connected_at", "last_error", "connection_count",
                                  "query_count", "created_at", "updated_at"]

  function BaseDict(r: Row): (d: Record)
    ensures Keys(d) == DictKeys
  {
    [("id", Str(r.uuid)), ("name", Str(r.name)), ("description", OptStr(r.description)), ("type", Str(r.kind)),
     ("host", Str(r.host)), ("port", Int(r.port)), ("database", OptStr(r.database)), ("username", OptStr(r.username)),
     ("use_ssl", Bool(r.useSsl)), ("status", Str(r.status)), ("last_connected_at", OptStr(r.lastConnectedAt)),
     ("last_error", OptStr(r.lastError)), ("connection_count", Int(r.connectionCount)), ("query_count", Int(r.queryCount)),
     ("created_at", OptStr(r.createdAt)), ("updated_at", OptStr(r.updatedAt))]
  }

  /**
   * `to_dict`: the public columns; the password never appears, and the API
   * options (parsed) appear only for a REST API source.
   */
  function ToDict(r: Row, loads: string -> Result<Value>): (d: Result<Record>)
    ensures d.Err? ==> r.kind == "restapi" && ReadConfig(r.storedApiConfig, loads).Err?
    ensures d.Ok? ==> Keys(d.value) == DictKeys + (if r.kind == "restapi" then ["api_config"] else [])
    ensures d.Ok? && r.kind == "restapi" ==> ReadConfig(r.storedApiConfig, loads) == Ok(d.value[|DictKeys|].1)
  {
    if r.kind == "restapi" then
      var api :- ReadConfig(r.storedApiConfig, loads);
      Ok(BaseDict(r) + [("api_config", api)])
    else Ok(BaseDict(r))
  }

  lemma {:induction false} KeysConcat(a: Record, b: Record)
    ensures Keys(a + b) == Keys(a) + Keys(b)
  {
    if a != [] {
      assert (a + b)[1..] == a[1..] + b;
      KeysConcat(a[1..], b);
    } else {
      assert a + b == b;
    }
  }

  /** `to_dict` never exposes the password, and has `api_config` exactly for a REST API source. */
  lemma ToDictHidesPassword(r: Row, loads: string -> Result<Value>)
    requires ToDict(r, loads).Ok?
    ensures !HasKey(ToDict(r, loads).value, "password")
    ensures HasKey(ToDict(r, loads).value, "api_config") <==> r.kind == "restapi"
  {
    var d := ToDict(r, loads).value;
    assert "password" !in DictKeys && "api_config" !in DictKeys;
    if r.kind == "restapi" {
      assert Keys(d)[|DictKeys|] == "api_config";
    }
  }

  // ------------------------------------------------------------ the object

  /**
   * One `DataSource` row object. Its columns are held as one `Row` value that
   * the setters and counters update in place, column by column.
   */
  class DataSource {
    var columns: Row

    /** A saved new source: column defaults applied (`disconnected`, both counters 0), no secrets or options yet. */
    constructor(uuid: string, userId: int, projectId: Option<int>, name: string, description: Option<string>,
                kind: string, host: string, port: int, database: Option<string>, username: Option<string>,
                useSsl: bool, now: string)
      ensures columns == Row(uuid, userId, projectId, name, description, kind, host, port, database, username,
                             None, None, useSsl, None, "disconnected", None, None, 0, 0, Some(now), Some(now))
    {
      columns := Row(uuid, userId, projectId, name, description, kind, host, port, database, username,
                     None, None, useSsl, None, "disconnected", None, None, 0, 0, Some(now), Some(now));
    }

    /** The `password` setter. */
    method SetPassword(value: Option<string>)
      modifies this
      ensures columns == old(columns).(storedPassword := StoredPassword(value))
    {
      columns := columns.(storedPassword := StoredPassword(value));
    }

    /** `get_password`. */
    function GetPassword(): (r: Result<Option<string>>)
      reads this
      ensures r == ReadPassword(columns.storedPassword)
    {
      ReadPassword(columns.storedPassword)
    }

    /** The `api_config` setter. */
    method SetApiConfig(v: Value, dumps: Value -> string)
      modifies this
      ensures columns == old(columns).(storedApiConfig := StoredConfig(v, dumps))
    {
      columns := columns.(storedApiConfig := StoredConfig(v, dumps));
    }

    /** The `ssl_config` setter. */
    method SetSslConfig(v: Value, dumps: Value -> string)
      modifies this
      ensures columns == old(columns).(storedSslConfig := StoredConfig(v, dumps))
    {
      columns := columns.(storedSslConfig := StoredConfig(v, dumps));
    }

    /** `update_status`. */
    method UpdateStatus(newStatus: string, error: Option<string>, now: string)
      modifies this
      ensures columns == StatusUpdated(old(columns), newStatus, error, now)
    {
      columns := columns.(status := newStatus);
      if newStatus == "connected" {
        columns := columns.(lastConnectedAt := Some(now), lastError := None);
        columns := columns.(connectionCount := columns.connectionCount + 1);
      } else if newStatus == "error" {
        columns := columns.(lastError := error);
      }
    }

    /** `record_query`. */
    method RecordQuery()
      modifies this
      ensures columns == old(columns).(queryCount := old(columns).queryCount + 1)
    {
      columns := columns.(queryCount := columns.queryCount + 1);
    }
  }
}
