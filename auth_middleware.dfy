/**
 * The authentication middleware (backend/middleware/auth.py): reading the
 * bearer token from the Authorization header (the Bearer scheme of section
 * 2.1 of RFC 6750), checking an access token, the login/admin/optional
 * guards, and the in-memory per-key request limiter. JWT decoding, the
 * user table lookup and the clock are parameters.
 */
module AuthMiddleware {
  import opened Wrappers
  import opened Text
  import opened Values

  /** The user row as the guards see it. */
  datatype User = User(
    id: int,
    uuid: string,
    username: string,
    email: string,
    passwordHash: string,
    isActive: bool,
    isAdmin: bool,
    lastLogin: Option<int>)

  /** What `jwt.decode` yields: the claims of a token with a good signature, or the error it raises. */
  datatype Decoded = Claims(claims: Record) | Expired | Invalid

  type JwtDecoder = string -> Decoded

  /** `User.find_by_uuid` applied to the `sub` claim. */
  type UserLookup = Value -> Option<User>

  /** `_get_token_from_header`: the second word of an Authorization header of exactly two words, the first being 'bearer' in any case. */
  function TokenFromHeader(header: Option<string>): (r: Option<string>)
    ensures r.Some? ==> r.value != [] && forall i :: 0 <= i < |r.value| ==> !IsSpace(r.value[i])
  {
    if header.None? || header.value == "" then None
    else
      var parts := Words(header.value);
      if |parts| != 2 || Lower(parts[0]) != "bearer" then None else Some(parts[1])
  }

  /** A token is read exactly from a header that splits into two words, 'bearer' and the token. */
  lemma TokenFromHeaderExactly(header: Option<string>, token: string)
    ensures TokenFromHeader(header) == Some(token) <==>
              header.Some? && |Words(header.value)| == 2
              && Lower(Words(header.value)[0]) == "bearer" && Words(header.value)[1] == token
  {
    if header.Some? && header.value == "" {
      assert Words(header.value) == [];
    }
  }

  /** 'Bearer <token>' (the scheme in any case) yields the token. */
  lemma BearerHeaderYieldsToken(scheme: string, token: string)
    requires Lower(scheme) == "bearer"
    requires token != [] && forall i :: 0 <= i < |token| ==> !IsSpace(token[i])
    ensures TokenFromHeader(Some(scheme + " " + token)) == Some(token)
  {
    assert |scheme| == 6;
    forall i | 0 <= i < |scheme|
      ensures !IsSpace(scheme[i])
    {
      assert LowerChar(scheme[i]) == "bearer"[i];
    }
    WordsOfPair(scheme, token);
  }

  /** `_verify_token` and `AuthService.verify_token`: the checks in order, the first failure wins. */
  function VerifyToken(token: string, tokenType: string, decode: JwtDecoder, lookup: UserLookup): (r: Result<User>)
    ensures decode(token).Expired? ==> r == Err("Token 已过期")
    ensures decode(token).Invalid? ==> r == Err("无效的 Token")
    ensures r.Ok? ==> decode(token).Claims? && r.value.isActive
                      && PyEq(GetOr(decode(token).claims, "type", Null), Str(tokenType))
                      && lookup(GetOr(decode(token).claims, "sub", Null)) == Some(r.value)
  {
    match decode(token)
    case Expired => Err("Token 已过期")
    case Invalid => Err("无效的 Token")
    case Claims(claims) =>
      if !PyEq(GetOr(claims, "type", Null), Str(tokenType)) then Err("无效的 Token 类型")
      else
        var sub := GetOr(claims, "sub", Null);
        if !Truthy(sub) then Err("无效的 Token")
        else match lookup(sub)
          case None => Err("用户不存在")
          case Some(u) => if !u.isActive then Err("账户已被禁用") else Ok(u)
  }

  /** A token whose type claim is another type is refused as such, whoever it names. */
  lemma WrongTypeRefused(token: string, tokenType: string, decode: JwtDecoder, lookup: UserLookup)
    requires decode(token).Claims?
    requires GetOr(decode(token).claims, "type", Null) == Str(tokenType)
    ensures forall other :: other != tokenType ==> VerifyToken(token, other, decode, lookup) == Err("无效的 Token 类型")
  {
  }

  /** A well-typed token naming an active user verifies to that user; a disabled user is refused. */
  lemma VerifyTokenAccepts(token: string, tokenType: string, decode: JwtDecoder, lookup: UserLookup, u: User)
    requires decode(token).Claims?
    requires GetOr(decode(token).claims, "type", Null) == Str(tokenType)
    requires Truthy(GetOr(decode(token).claims, "sub", Null))
    requires lookup(GetOr(decode(token).claims, "sub", Null)) == Some(u)
    ensures VerifyToken(token, tokenType, decode, lookup) == if u.isActive then Ok(u) else Err("账户已被禁用")
  {
  }

  /** What a guard does with the request: call the view with the user, or answer with a status and an error. */
  datatype Gate = Pass(user: User) | Deny(status: int, error: string)

  /** `login_required`: 401 without a token or with a token that does not verify as an access token. */
  function LoginRequired(header: Option<string>, decode: JwtDecoder, lookup: UserLookup): (g: Gate)
    ensures g.Pass? <==> TokenFromHeader(header).Some? && VerifyToken(TokenFromHeader(header).value, "access", decode, lookup).Ok?
    ensures g.Pass? ==> g.user == VerifyToken(TokenFromHeader(header).value, "access", decode, lookup).value
    ensures g.Deny? ==> g.status == 401
    ensures TokenFromHeader(header).None? ==> g == Deny(401, "未提供认证信息")
  {
    match TokenFromHeader(header)
    case None => Deny(401, "未提供认证信息")
    case Some(token) =>
      match VerifyToken(token, "access", decode, lookup)
      case Err(e) => Deny(401, e)
      case Ok(u) => Pass(u)
  }

  /** `admin_required`: the login guard first, then 403 for a user who is not an administrator. */
  function AdminRequired(header: Option<string>, decode: JwtDecoder, lookup: UserLookup): (g: Gate)
    ensures g.Pass? ==> g.user.isAdmin && LoginRequired(header, decode, lookup) == g
    ensures LoginRequired(header, decode, lookup).Deny? ==> g == LoginRequired(header, decode, lookup)
    ensures LoginRequired(header, decode, lookup).Pass? && !LoginRequired(header, decode, lookup).user.isAdmin ==>
              g == Deny(403, "需要管理员权限")
  {
    var login := LoginRequired(header, decode, lookup);
    if login.Pass? && !login.user.isAdmin then Deny(403, "需要管理员权限") else login
  }

  /** `optional_auth` and `get_current_user`: the user of a token that verifies, and no user otherwise. */
  function OptionalUser(header: Option<string>, decode: JwtDecoder, lookup: UserLookup): (u: Option<User>)
    ensures u.Some? <==> LoginRequired(header, decode, lookup).Pass?
    ensures u.Some? ==> u.value == LoginRequired(header, decode, lookup).user
  {
    match TokenFromHeader(header)
    case None => None
    case Some(token) =>
      match VerifyToken(token, "access", decode, lookup)
      case Err(_) => None
      case Ok(u) => Some(u)
  }

  /** One entry of the limiter: the time of a request and its count. */
  type Entry = (int, int)

  /** The entries still inside the window at `now`: `now - ts < window`. */
  function Recent(es: seq<Entry>, now: int, window: int): (r: seq<Entry>)
    ensures |r| <= |es|
    ensures forall k :: 0 <= k < |r| ==> now - r[k].0 < window && r[k] in es
  {
    if es == [] then []
    else
      var earlier := Recent(es[..|es| - 1], now, window);
      if now - es[|es| - 1].0 < window then earlier + [es[|es| - 1]] else earlier
  }

  /** `sum(cnt for _, cnt in entries)`. */
  function Total(es: seq<Entry>): int {
    if es == [] then 0 else Total(es[..|es| - 1]) + es[|es| - 1].1
  }

  /** `is_allowed` on one key's entries: the decision and the entries kept for the key. */
  function Admit(es: seq<Entry>, limit: int, window: int, now: int): (r: (bool, seq<Entry>))
    ensures r.0 <==> Total(Recent(es, now, window)) < limit
    ensures r.1 == if r.0 then Recent(es, now, window) + [(now, 1)] else Recent(es, now, window)
  {
    var kept := Recent(es, now, window);
    if Total(kept) >= limit then (false, kept) else (true, kept + [(now, 1)])
  }

  class RateLimiter {
    var requests: map<string, seq<Entry>>

    constructor()
      ensures requests == map[]
    {
      requests := map[];
    }

    /** `is_allowed`: the key's old entries are dropped, then one entry is recorded if the window has room. */
    method IsAllowed(key: string, limit: int, window: int, now: int) returns (allowed: bool)
      modifies this
      ensures var es := if key in old(requests) then old(requests)[key] else [];
              allowed == Admit(es, limit, window, now).0
              && requests == old(requests)[key := Admit(es, limit, window, now).1]
    {
      if key !in requests {
        requests := requests[key := []];
      }
      var kept := Recent(requests[key], now, window);
      requests := requests[key := kept];
      var total := Total(kept);
      if total >= limit {
        return false;
      }
      requests := requests[key := kept + [(now, 1)]];
      allowed := true;
    }
  }

  /** Call times that never go back. */
  predicate Ascending(times: seq<int>) {
    forall a, b :: 0 <= a < b < |times| ==> times[a] <= times[b]
  }

  /** One key's calls at the given times, replayed through `is_allowed`: the decisions and the entries left. */
  function Replay(times: seq<int>, limit: int, window: int): (r: (seq<bool>, seq<Entry>))
    ensures |r.0| == |times|
  {
    if times == [] then ([], [])
    else
      var (decisions, es) := Replay(times[..|times| - 1], limit, window);
      var (ok, after) := Admit(es, limit, window, times[|times| - 1]);
      (decisions + [ok], after)
  }

  /** The accepted calls, one entry of count 1 each, in call order. */
  function Accepted(times: seq<int>, decisions: seq<bool>): (r: seq<Entry>)
    requires |decisions| == |times|
    ensures forall k :: 0 <= k < |r| ==> r[k].1 == 1
  {
    if times == [] then []
    else
      var earlier := Accepted(times[..|times| - 1], decisions[..|times| - 1]);
      if decisions[|times| - 1] then earlier + [(times[|times| - 1], 1)] else earlier
  }

  /** Filtering at a time and then at a later one is filtering at the later one. */
  lemma {:induction false} RecentLater(es: seq<Entry>, t: int, now: int, window: int)
    requires t <= now
    ensures Recent(Recent(es, t, window), now, window) == Recent(es, now, window)
  {
    if es != [] {
      var init := es[..|es| - 1];
      RecentLater(init, t, now, window);
      var earlier := Recent(init, t, window);
      if t - es[|es| - 1].0 < window {
        assert (earlier + [es[|es| - 1]])[..|earlier|] == earlier;
      }
    }
  }

  /** With every count 1, the total is the number of entries. */
  lemma {:induction false} TotalCountsEntries(es: seq<Entry>)
    requires forall k :: 0 <= k < |es| ==> es[k].1 == 1
    ensures Total(es) == |es|
  {
    if es != [] {
      TotalCountsEntries(es[..|es| - 1]);
    }
  }

  /** With a positive window and ascending times, the limiter holds exactly the accepted calls still inside the window. */
  lemma {:induction false} ReplayKeepsRecentAccepted(times: seq<int>, limit: int, window: int)
    requires window > 0 && |times| >= 1 && Ascending(times)
    ensures var (decisions, es) := Replay(times, limit, window);
            es == Recent(Accepted(times, decisions), times[|times| - 1], window)
  {
    var n := |times|;
    var init := times[..n - 1];
    var (ds, es) := Replay(init, limit, window);
    var now := times[n - 1];
    var (ok, after) := Admit(es, limit, window, now);
    var log := Accepted(init, ds);
    assert (ds + [ok])[..n - 1] == ds;
    if n == 1 {
      assert es == [] && log == [];
    } else {
      ReplayKeepsRecentAccepted(init, limit, window);
      RecentLater(log, times[n - 2], now, window);
    }
    if ok {
      assert (log + [(now, 1)])[..|log|] == log;
    }
  }

  /**
   * The limit holds: with a positive window and ascending times, the calls
   * accepted within the window before the last call, that one included,
   * number at most `limit`.
   */
  lemma {:induction false} AtMostLimitPerWindow(times: seq<int>, limit: int, window: int)
    requires window > 0 && limit >= 0 && Ascending(times)
    ensures var inWindow := if times == [] then [] else Recent(Accepted(times, Replay(times, limit, window).0), times[|times| - 1], window);
            |inWindow| <= limit
  {
    if times != [] {
      ReplayKeepsRecentAccepted(times, limit, window);
      ReplayBound(times, limit, window);
    }
  }

  /** The limiter never holds more than `limit` entries for a key. */
  lemma {:induction false} ReplayBound(times: seq<int>, limit: int, window: int)
    requires limit >= 0
    ensures |Replay(times, limit, window).1| <= limit
  {
    if times != [] {
      var init := times[..|times| - 1];
      ReplayBound(init, limit, window);
      ReplayCountsOne(init, limit, window);
      AdmitBound(Replay(init, limit, window).1, limit, window, times[|times| - 1]);
    }
  }

  /** An accepted call leaves at most `limit` entries; a refused one drops entries and adds none. */
  lemma AdmitBound(es: seq<Entry>, limit: int, window: int, now: int)
    requires CountsOne(es)
    ensures var (ok, after) := Admit(es, limit, window, now);
            if ok then |after| <= limit else |after| <= |es|
  {
    var kept := Recent(es, now, window);
    RecentCountsOne(es, now, window);
    TotalCountsEntries(kept);
  }

  /** Every entry has count 1. */
  predicate CountsOne(es: seq<Entry>) {
    forall k :: 0 <= k < |es| ==> es[k].1 == 1
  }

  /** Every entry the limiter keeps has count 1. */
  lemma {:induction false} ReplayCountsOne(times: seq<int>, limit: int, window: int)
    ensures CountsOne(Replay(times, limit, window).1)
  {
    if times != [] {
      var es := Replay(times[..|times| - 1], limit, window).1;
      ReplayCountsOne(times[..|times| - 1], limit, window);
      RecentCountsOne(es, times[|times| - 1], window);
    }
  }

  /** Filtering entries of count 1 leaves entries of count 1. */
  lemma {:induction false} RecentCountsOne(es: seq<Entry>, now: int, window: int)
    requires CountsOne(es)
    ensures CountsOne(Recent(es, now, window))
  {
    if es != [] {
      RecentCountsOne(es[..|es| - 1], now, window);
    }
  }

}
