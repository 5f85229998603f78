/**
 * The JWT authentication service (backend/services/auth_service.py):
 * registration with its guard chain and default project, login with the
 * username-then-email lookup, access and refresh tokens and their type
 * check, token refresh, and the service's own login guard. JWT encoding and
 * decoding, password hashing and the clock are parameters; times are whole
 * seconds.
 */
module AuthService {
  import opened Wrappers
  import opened Text
  import opened Values
  import opened AuthMiddleware

  /** ACCESS_TOKEN_EXPIRES (24 hours) and REFRESH_TOKEN_EXPIRES (7 days), in seconds. */
  const AccessExpires := 86400
  const RefreshExpires := 604800

  /** A project row with its member list of (user id, role). */
  datatype Project = Project(id: int, name: string, description: string, ownerId: int, members: seq<(int, string)>)

  /** `jwt.encode` with the service's secret. */
  type JwtEncoder = Record -> string

  /** `check_password_hash(password_hash, password)`. */
  type PasswordCheck = (string, string) -> bool

  /** The position of the first user the filter keeps (`filter_by(...).first()`). */
  function FirstUser(users: seq<User>, keep: User -> bool): (r: Option<nat>)
    ensures r.Some? ==> r.value < |users| && keep(users[r.value]) && forall j :: 0 <= j < r.value ==> !keep(users[j])
    ensures r.None? ==> forall j :: 0 <= j < |users| ==> !keep(users[j])
  {
    if users == [] then None
    else if keep(users[0]) then Some(0)
    else match FirstUser(users[1..], keep)
      case None => None
      case Some(i) => Some(i + 1)
  }

  function WithUsername(name: string): User -> bool { (u: User) => u.username == name }

  function WithEmail(email: string): User -> bool { (u: User) => u.email == email }

  function WithUuid(id: string): User -> bool { (u: User) => u.uuid == id }

  /** `User.find_by_uuid` over the user table, for the `sub` claim; a claim that is not a string names nobody. */
  function UserByUuid(users: seq<User>): UserLookup {
    (v: Value) => if v.Str? && FirstUser(users, WithUuid(v.s)).Some? then Some(users[FirstUser(users, WithUuid(v.s)).value]) else None
  }

  /** The first failing check of `register`, in the order the service makes them. */
  function RegisterError(users: seq<User>, username: string, email: string, password: string): (r: Option<string>)
    ensures r == Some("用户名至少3个字符") <==> |username| < 3
    ensures r == Some("用户名不能超过50个字符") <==> |username| > 50
    ensures r == Some("邮箱格式不正确") <==> 3 <= |username| <= 50 && '@' !in email
    ensures r == Some("密码至少6个字符") <==> 3 <= |username| <= 50 && '@' in email && |password| < 6
    ensures r == Some("用户名已存在") <==>
              3 <= |username| <= 50 && '@' in email && |password| >= 6
              && exists j :: 0 <= j < |users| && users[j].username == username
  {
    if username == "" || |username| < 3 then Some("用户名至少3个字符")
    else if |username| > 50 then Some("用户名不能超过50个字符")
    else if email == "" || '@' !in email then Some("邮箱格式不正确")
    else if password == "" || |password| < 6 then Some("密码至少6个字符")
    else if FirstUser(users, WithUsername(username)).Some? then Some("用户名已存在")
    else if FirstUser(users, WithEmail(email)).Some? then Some("邮箱已被注册")
    else None
  }

  /** Registration passes exactly when every check holds: lengths, an '@', and a username and an email nobody has. */
  lemma RegisterAcceptsExactly(users: seq<User>, username: string, email: string, password: string)
    ensures RegisterError(users, username, email, password).None? <==>
              3 <= |username| <= 50 && '@' in email && |password| >= 6
              && (forall j :: 0 <= j < |users| ==> users[j].username != username)
              && (forall j :: 0 <= j < |users| ==> users[j].email != email)
  {
    if 3 <= |username| <= 50 && '@' in email && |password| >= 6 && FirstUser(users, WithUsername(username)).None? {
      var found := FirstUser(users, WithEmail(email));
      if found.Some? {
        assert users[found.value].email == email;
      }
    }
  }

  /** The row `register` inserts: active, not an administrator, never logged in. */
  function NewUser(id: int, uuid: string, username: string, email: string, passwordHash: string): (u: User)
    ensures u.id == id && u.uuid == uuid && u.username == username && u.email == email && u.passwordHash == passwordHash
    ensures u.isActive && !u.isAdmin && u.lastLogin.None?
  {
    User(id, uuid, username, email, passwordHash, true, false, None)
  }

  /** The default project `register` creates: '<username>的项目', owned by the user, who is its one 'owner' member. */
  function DefaultProject(id: int, u: User): (p: Project)
    ensures p.name == u.username + "的项目" && p.description == "默认项目"
    ensures p.ownerId == u.id && p.members == [(u.id, "owner")]
  {
    Project(id, u.username + "的项目", "默认项目", u.id, [(u.id, "owner")])
  }

  /** `login`'s lookup: by username first, then by email. */
  function LoginTarget(users: seq<User>, usernameOrEmail: string): (r: Option<nat>)
    ensures r.Some? ==> r.value < |users|
    ensures FirstUser(users, WithUsername(usernameOrEmail)).Some? ==> r == FirstUser(users, WithUsername(usernameOrEmail))
    ensures FirstUser(users, WithUsername(usernameOrEmail)).None? ==> r == FirstUser(users, WithEmail(usernameOrEmail))
  {
    match FirstUser(users, WithUsername(usernameOrEmail))
    case Some(i) => Some(i)
    case None => FirstUser(users, WithEmail(usernameOrEmail))
  }

  /** The first failing check of `login`, in the order the service makes them. */
  function LoginError(users: seq<User>, usernameOrEmail: string, password: string, check: PasswordCheck): (r: Option<string>)
    ensures (usernameOrEmail == "" || password == "") <==> r == Some("用户名和密码不能为空")
    ensures r.None? <==> usernameOrEmail != "" && password != "" && LoginTarget(users, usernameOrEmail).Some?
                         && users[LoginTarget(users, usernameOrEmail).value].isActive
                         && check(users[LoginTarget(users, usernameOrEmail).value].passwordHash, password)
  {
    if usernameOrEmail == "" || password == "" then Some("用户名和密码不能为空")
    else match LoginTarget(users, usernameOrEmail)
      case None => Some("用户不存在")
      case Some(i) =>
        if !users[i].isActive then Some("账户已被禁用")
        else if !check(users[i].passwordHash, password) then Some("密码错误")
        else None
  }

  /** The claims of an access token. */
  function AccessClaims(u: User, now: int): Record {
    [("sub", Str(u.uuid)), ("username", Str(u.username)), ("is_admin", Bool(u.isAdmin)),
     ("type", Str("access")), ("iat", Int(now)), ("exp", Int(now + AccessExpires))]
  }

  /** The claims of a refresh token. */
  function RefreshClaims(u: User, now: int): Record {
    [("sub", Str(u.uuid)), ("type", Str("refresh")), ("iat", Int(now)), ("exp", Int(now + RefreshExpires))]
  }

  /** What a successful `login` returns. */
  datatype LoginData = LoginData(accessToken: string, refreshToken: string, tokenType: string, expiresIn: int, user: User)

  function IssueTokens(u: User, encode: JwtEncoder, now: int): (d: LoginData)
    ensures d.accessToken == encode(AccessClaims(u, now)) && d.refreshToken == encode(RefreshClaims(u, now))
    ensures d.tokenType == "Bearer" && d.expiresIn == AccessExpires && d.user == u
  {
    LoginData(encode(AccessClaims(u, now)), encode(RefreshClaims(u, now)), "Bearer", AccessExpires, u)
  }

  /** An issued access token verifies as an access token for its user, and never as a refresh token. */
  lemma AccessTokenKeepsType(u: User, now: int, decode: JwtDecoder, lookup: UserLookup, access: string)
    requires decode(access) == Claims(AccessClaims(u, now))
    requires u.uuid != "" && lookup(Str(u.uuid)) == Some(u)
    ensures VerifyToken(access, "access", decode, lookup) == (if u.isActive then Ok(u) else Err("账户已被禁用"))
    ensures VerifyToken(access, "refresh", decode, lookup) == Err("无效的 Token 类型")
  {
    GetAt(AccessClaims(u, now), 3, "type");
    GetAt(AccessClaims(u, now), 0, "sub");
    VerifyTokenAccepts(access, "access", decode, lookup, u);
    WrongTypeRefused(access, "access", decode, lookup);
  }

  /** An issued refresh token verifies as a refresh token for its user, and never as an access token. */
  lemma RefreshTokenKeepsType(u: User, now: int, decode: JwtDecoder, lookup: UserLookup, refresh: string)
    requires decode(refresh) == Claims(RefreshClaims(u, now))
    requires u.uuid != "" && lookup(Str(u.uuid)) == Some(u)
    ensures VerifyToken(refresh, "refresh", decode, lookup) == (if u.isActive then Ok(u) else Err("账户已被禁用"))
    ensures VerifyToken(refresh, "access", decode, lookup) == Err("无效的 Token 类型")
  {
    GetAt(RefreshClaims(u, now), 1, "type");
    GetAt(RefreshClaims(u, now), 0, "sub");
    VerifyTokenAccepts(refresh, "refresh", decode, lookup, u);
    WrongTypeRefused(refresh, "refresh", decode, lookup);
  }

  /** What `refresh_access_token` returns. */
  datatype RefreshData = RefreshData(accessToken: string, tokenType: string, expiresIn: int)

  /** `refresh_access_token`: a token that verifies as a refresh token buys a new access token for its user. */
  function RefreshAccessToken(refreshToken: string, decode: JwtDecoder, lookup: UserLookup, encode: JwtEncoder, now: int)
    : (r: Result<RefreshData>)
    ensures VerifyToken(refreshToken, "refresh", decode, lookup).Err? ==>
              r == Err(VerifyToken(refreshToken, "refresh", decode, lookup).error)
    ensures VerifyToken(refreshToken, "refresh", decode, lookup).Ok? ==>
              r == Ok(RefreshData(encode(AccessClaims(VerifyToken(refreshToken, "refresh", decode, lookup).value, now)),
                                  "Bearer", AccessExpires))
  {
    var u :- VerifyToken(refreshToken, "refresh", decode, lookup);
    Ok(RefreshData(encode(AccessClaims(u, now)), "Bearer", AccessExpires))
  }

  /** An access token never buys a new access token. */
  lemma AccessTokenCannotRefresh(u: User, now: int, decode: JwtDecoder, lookup: UserLookup, encode: JwtEncoder, access: string, later: int)
    requires decode(access) == Claims(AccessClaims(u, now))
    ensures RefreshAccessToken(access, decode, lookup, encode, later) == Err("无效的 Token 类型")
  {
    GetAt(AccessClaims(u, now), 3, "type");
    WrongTypeRefused(access, "access", decode, lookup);
  }

  /** The service's `login_required`: like the middleware's, with its own message for a malformed header. */
  function ServiceLoginRequired(header: Option<string>, decode: JwtDecoder, lookup: UserLookup): (g: Gate)
    ensures header.None? || header.value == "" ==> g == Deny(401, "未提供认证信息")
    ensures header.Some? && header.value != "" && TokenFromHeader(header).None? ==> g == Deny(401, "认证格式错误")
  {
    if header.None? || header.value == "" then Deny(401, "未提供认证信息")
    else
      var parts := Words(header.value);
      if |parts| != 2 || Lower(parts[0]) != "bearer" then Deny(401, "认证格式错误")
      else match VerifyToken(parts[1], "access", decode, lookup)
        case Err(e) => Deny(401, e)
        case Ok(u) => Pass(u)
  }

  /** The two login guards let the same requests through with the same user; they differ only in one refusal message. */
  lemma LoginGuardsAgree(header: Option<string>, decode: JwtDecoder, lookup: UserLookup)
    ensures ServiceLoginRequired(header, decode, lookup).Pass? <==> LoginRequired(header, decode, lookup).Pass?
    ensures ServiceLoginRequired(header, decode, lookup).Pass? ==>
              ServiceLoginRequired(header, decode, lookup) == LoginRequired(header, decode, lookup)
    ensures ServiceLoginRequired(header, decode, lookup).Deny? ==> ServiceLoginRequired(header, decode, lookup).status == 401
  {
  }

  /** The service's `admin_required`: its login guard first, then 403 for a user who is not an administrator. */
  function ServiceAdminRequired(header: Option<string>, decode: JwtDecoder, lookup: UserLookup): (g: Gate)
    ensures g.Pass? <==> AdminRequired(header, decode, lookup).Pass?
    ensures g.Pass? ==> g == AdminRequired(header, decode, lookup)
  {
    LoginGuardsAgree(header, decode, lookup);
    var login := ServiceLoginRequired(header, decode, lookup);
    if login.Pass? && !login.user.isAdmin then Deny(403, "需要管理员权限") else login
  }

  class AuthStore {
    var users: seq<User>
    var projects: seq<Project>

    constructor(users: seq<User>, projects: seq<Project>)
      ensures this.users == users && this.projects == projects
    {
      this.users := users;
      this.projects := projects;
    }

    /** `register`: the checks, then the user and its default project are added. */
    method Register(username: string, email: string, password: string,
                    newId: int, newUuid: string, passwordHash: string, newProjectId: int) returns (r: Result<User>)
      modifies this
      ensures RegisterError(old(users), username, email, password).Some? ==>
                r == Err(RegisterError(old(users), username, email, password).value)
                && users == old(users) && projects == old(projects)
      ensures RegisterError(old(users), username, email, password).None? ==>
                r == Ok(NewUser(newId, newUuid, username, email, passwordHash))
                && users == old(users) + [r.value]
                && projects == old(projects) + [DefaultProject(newProjectId, r.value)]
    {
      var err := RegisterError(users, username, email, password);
      if err.Some? {
        return Err(err.value);
      }
      var u := NewUser(newId, newUuid, username, email, passwordHash);
      users := users + [u];
      projects := projects + [DefaultProject(newProjectId, u)];
      r := Ok(u);
    }

    /** `login`: the checks, then the user's last login is set and the tokens are issued for the updated row. */
    method Login(usernameOrEmail: string, password: string, check: PasswordCheck, encode: JwtEncoder, now: int)
      returns (r: Result<LoginData>)
      modifies this
      ensures LoginError(old(users), usernameOrEmail, password, check).Some? ==>
                r == Err(LoginError(old(users), usernameOrEmail, password, check).value) && users == old(users)
      ensures LoginError(old(users), usernameOrEmail, password, check).None? ==>
                var i := LoginTarget(old(users), usernameOrEmail).value;
                var u := old(users[i]).(lastLogin := Some(now));
                users == old(users)[i := u] && r == Ok(IssueTokens(u, encode, now))
      ensures projects == old(projects)
    {
      var err := LoginError(users, usernameOrEmail, password, check);
      if err.Some? {
        return Err(err.value);
      }
      var i := LoginTarget(users, usernameOrEmail).value;
      var u := users[i].(lastLogin := Some(now));
      users := users[i := u];
      r := Ok(IssueTokens(u, encode, now));
    }
  }

  /** A user who just registered can log in with the username and the password whose hash was stored. */
  lemma RegisteredUserLogsIn(users: seq<User>, username: string, email: string, password: string,
                             id: int, uuid: string, passwordHash: string, check: PasswordCheck)
    requires RegisterError(users, username, email, password).None?
    requires check(passwordHash, password)
    ensures var after := users + [NewUser(id, uuid, username, email, passwordHash)];
            LoginTarget(after, username) == Some(|users|) && LoginError(after, username, password, check).None?
  {
    RegisterAcceptsExactly(users, username, email, password);
    var after := users + [NewUser(id, uuid, username, email, passwordHash)];
    var found := FirstUser(after, WithUsername(username));
    assert found == Some(|users|) by {
      assert WithUsername(username)(after[|users|]);
      if found.Some? && found.value < |users| {
        assert after[found.value] == users[found.value];
      }
    }
  }

  /** With uuids unique, the lookup of the `sub` claim finds the row that carries it. */
  lemma UserByUuidFinds(users: seq<User>, i: nat)
    requires i < |users|
    requires forall j :: 0 <= j < |users| && j != i ==> users[j].uuid != users[i].uuid
    ensures UserByUuid(users)(Str(users[i].uuid)) == Some(users[i])
  {
    var found := FirstUser(users, WithUuid(users[i].uuid));
    assert WithUuid(users[i].uuid)(users[i]);
    assert found == Some(i);
  }
}
