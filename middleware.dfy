/** The request pipeline of cmd/api/middleware.go: panic recovery, the
    fixed-window rate limiter, token authentication with a cache in front of the
    database, and the authentication, activation and permission gates.

    Each middleware is a method that either lets the request through to the next
    handler, returning Pass with the identity the next handler sees, or answers
    the request itself with one of the other outcomes. The identity in the
    request context is an explicit Option<Caller>: None is a context in which no
    middleware has stored a user, where getUserContext panics. */
module Middleware {
  import opened Wrappers
  import opened ModelErrors
  import Text
  import V = Validator
  import Tokens
  import Users
  import Permissions

  const NanosPerSecond: int := 1_000_000_000

  /** The TTL of a cached user (24 hours) and of a rate counter (5 seconds). */
  const UserCacheTtl: int := 24 * 3600 * NanosPerSecond
  const CounterTtl: int := 5 * NanosPerSecond

  /** A cached value: a plain string, or the JSON of a user that decodes back
      to it. A Plain value under a user key stands for JSON that does not decode. */
  datatype CacheValue = Plain(text: string) | UserJson(user: Users.User)

  /** A key's value and its deadline in nanoseconds (None: no TTL). */
  datatype CacheEntry = CacheEntry(value: CacheValue, expiresAt: Option<int>)

  type Cache = map<string, CacheEntry>

  /** Redis GET at time now: a key past its deadline is gone. */
  function Get(cache: Cache, key: string, now: int): (r: Option<CacheValue>)
    ensures r.Some? <==> key in cache && (cache[key].expiresAt.None? || now < cache[key].expiresAt.value)
    ensures r.Some? ==> r.value == cache[key].value
  {
    if key in cache && (cache[key].expiresAt.None? || now < cache[key].expiresAt.value) then Some(cache[key].value)
    else None
  }

  /** A string Redis accepts as a 64-bit integer: the canonical decimal form. */
  predicate IsCounterText(s: string) {
    Text.ParseInt(s).err.None? && Text.FormatInt(Text.ParseInt(s).value) == s
  }

  /** Redis INCR: a missing key counts from 0; an integer string is incremented;
      anything else, or an increment past the int64 maximum, is an error (None). */
  function Incr(cache: Cache, key: string, now: int): (r: Option<int>)
    ensures Get(cache, key, now).None? ==> r == Some(1)
    ensures r.Some? ==> Text.IsInt64(r.value)
    ensures (match Get(cache, key, now)
             case Some(Plain(s)) => IsCounterText(s) && Text.ParseInt(s).value < Text.MaxInt64 ==> r == Some(Text.ParseInt(s).value + 1)
             case _ => true)
  {
    match Get(cache, key, now)
    case None => Some(1)
    case Some(Plain(s)) =>
      if IsCounterText(s) && Text.ParseInt(s).value < Text.MaxInt64 then Some(Text.ParseInt(s).value + 1) else None
    case Some(UserJson(_)) => None
  }

  /** A counter that rateLimit stored is read back and incremented by the next
      request of the same window, so the n-th request within a second sees n. */
  lemma CounterCountsRequests(cache: Cache, key: string, n: int, now: int, later: int)
    requires 1 <= n < Text.MaxInt64
    requires now <= later < now + CounterTtl
    ensures Incr(cache[key := CacheEntry(Plain(Text.FormatInt(n)), Some(now + CounterTtl))], key, later) == Some(n + 1)
  {
    Text.ParseFormatInt(n);
  }

  /** time.Now().Unix() of a time in nanoseconds. */
  function UnixSecond(now: int): int {
    now / NanosPerSecond
  }

  /** fmt.Sprintf("rateLimit:%s:%d", ip, second). */
  function RateKey(ip: string, second: int): string {
    "rateLimit:" + ip + ":" + Text.FormatInt(second)
  }

  /** An integer prints without a colon. */
  lemma FormatIntHasNoColon(n: int)
    ensures ':' !in Text.FormatInt(n)
  {
  }

  /** Splitting at the last colon: a + ":" + d determines a and d when d has no colon. */
  lemma LastColonSplit(a: string, d: string, b: string, e: string)
    requires ':' !in d && ':' !in e
    requires a + ":" + d == b + ":" + e
    ensures a == b && d == e
  {
    var s := a + ":" + d;
    assert s == b + ":" + e;
    assert s[|a|] == ':' && s[|b|] == ':';
    assert forall i :: |a| < i < |s| ==> s[i] == d[i - |a| - 1];
    assert forall i :: |b| < i < |s| ==> s[i] == e[i - |b| - 1];
    assert |a| == |b|;
    assert d == s[|a| + 1..];
    assert e == s[|b| + 1..];
    assert a == s[..|a|];
    assert b == s[..|b|];
  }

  /** Each (ip, second) pair has a counter of its own, IPv6 addresses with
      colons included, so a new second always starts a new counter. */
  lemma RateKeyInjective(ip1: string, s1: int, ip2: string, s2: int)
    ensures RateKey(ip1, s1) == RateKey(ip2, s2) ==> ip1 == ip2 && s1 == s2
  {
    if RateKey(ip1, s1) == RateKey(ip2, s2) {
      FormatIntHasNoColon(s1);
      FormatIntHasNoColon(s2);
      assert RateKey(ip1, s1) == ("rateLimit:" + ip1) + ":" + Text.FormatInt(s1);
      assert RateKey(ip2, s2) == ("rateLimit:" + ip2) + ":" + Text.FormatInt(s2);
      LastColonSplit("rateLimit:" + ip1, Text.FormatInt(s1), "rateLimit:" + ip2, Text.FormatInt(s2));
      assert ip1 == ("rateLimit:" + ip1)[10..];
      assert ip2 == ("rateLimit:" + ip2)[10..];
      Text.FormatIntInjective(s1, s2);
    }
  }

  /** The header split of authenticate accepts exactly "Bearer " followed by a
      token without spaces. */
  lemma BearerShape(header: string, token: string)
    ensures Text.Split(header, ' ') == ["Bearer", token] <==> header == "Bearer " + token && ' ' !in token
  {
    if header == "Bearer " + token && ' ' !in token {
      assert header == "Bearer" + [' '] + token;
      Text.SplitAfterHead("Bearer", ' ', token);
      Text.SplitSeparatorFree(token, ' ');
    }
    if Text.Split(header, ' ') == ["Bearer", token] {
      Text.SplitJoin(header, ' ');
      assert Text.Join(["Bearer", token], ' ') == "Bearer" + [' '] + Text.Join([token], ' ');
      assert token == Text.Split(header, ' ')[1];
    }
  }

  /** A header of the one shape authenticate accepts. */
  predicate IsBearer(header: string) {
    |header| >= 7 && header[..7] == "Bearer " && ' ' !in header[7..]
  }

  /** The string a cached value reads back as, for the id under a token key;
      the JSON text of a user is not cached under token keys by anybody and is
      read as the empty string. */
  function IdText(v: CacheValue): string {
    match v
    case Plain(s) => s
    case UserJson(_) => ""
  }

  /** The id a live token:<t> key names, parsed as strconv.ParseInt does. */
  function CachedUserId(c: Cache, token: string, now: int): Option<int> {
    match Get(c, "token:" + token, now)
    case Some(v) => Some(Text.ParseInt(IdText(v)).value)
    case None => None
  }

  /** The user served from the cache alone: a live token:<t> key holding an id
      string, and a live user:<id> key holding a user's JSON. */
  function CachedUser(c: Cache, token: string, now: int): Option<Users.User> {
    match Get(c, "token:" + token, now)
    case Some(Plain(idStr)) =>
      (match Get(c, "user:" + idStr, now)
       case Some(UserJson(u)) => Some(u)
       case _ => None)
    case _ => None
  }

  /** What a middleware does with a request. */
  datatype Outcome =
    | Pass(ctx: Option<Users.Caller>)  // next.ServeHTTP with this identity in the context
    | InvalidToken                     // 401 invalid authentication token
    | Validation422(fieldErrors: V.FieldErrors)
    | RateLimited                      // 429
    | AuthRequired                     // 401 you must be authenticated
    | ActivationRequired               // 403 account must be activated
    | NotPermitted                     // 403
    | ServerError                      // 500
    | Panicked                         // a panic unwinding the handler chain
    | Handled(caller: Users.Caller)    // the protected handler ran for this caller

  type Header = (string, string)

  /** The outcome and the response headers set on the way. */
  datatype Reply = Reply(outcome: Outcome, headers: seq<Header>)

  /** cfg.Limiter: requests per second, burst (unused) and the switch. */
  datatype Limiter = Limiter(rps: int, burst: int, enabled: bool)

  /** Which gate stands in front of a handler. */
  datatype Route = Open | Authenticated | Activated | Permission(code: string)

  /** A request as the middleware sees it: the host part of RemoteAddr (None when
      net.SplitHostPort fails) and the Authorization header. */
  datatype Request = Request(remoteHost: Option<string>, authorization: string)

  /** The outside world during one request: the clock, the failures of the
      stores, and which token lookup runs (the code's own, or the one it
      evidently intends). Fault strings are driver error texts. */
  datatype Env = Env(
    now: int,
    counterFault: Option<string>,
    tokenFault: Option<string>,
    tokenQuery: Tokens.TokenQuery,
    userFault: Option<string>,
    permissionFault: Option<string>,
    permissionBreakOff: Option<nat>,
    cacheWriteFails: bool,
    handlerPanics: bool)

  /** panicRecover: a panic below becomes a 500 with Connection: Close. */
  function Recover(r: Reply): (out: Reply)
    ensures r.outcome == Panicked ==> out.outcome == ServerError && out.headers == r.headers + [("Connection", "Close")]
    ensures r.outcome != Panicked ==> out == r
  {
    if r.outcome == Panicked then Reply(ServerError, r.headers + [("Connection", "Close")]) else r
  }

  class Application {
    var cache: Cache
    const limiter: Limiter
    const users: Users.UserModel
    const tokens: Tokens.TokenModel
    const permissions: Permissions.PermissionModel

    constructor (limiter: Limiter, users: Users.UserModel, tokens: Tokens.TokenModel, permissions: Permissions.PermissionModel)
      ensures this.limiter == limiter && this.users == users && this.tokens == tokens && this.permissions == permissions
      ensures cache == map[]
    {
      this.limiter := limiter;
      this.users := users;
      this.tokens := tokens;
      this.permissions := permissions;
      cache := map[];
    }

    /** rateLimit: INCR and EXPIRE 5s of the key for (ip, current second) in one
        transaction; more than Rps requests in that second are refused. */
    method RateLimit(remoteHost: Option<string>, env: Env, ctx: Option<Users.Caller>) returns (o: Outcome)
      modifies this
      ensures !limiter.enabled ==> o == Pass(ctx) && cache == old(cache)
      ensures limiter.enabled && (remoteHost.None? || env.counterFault.Some?) ==> o == ServerError && cache == old(cache)
      ensures limiter.enabled && remoteHost.Some? && env.counterFault.None? ==>
                var key := RateKey(remoteHost.value, UnixSecond(env.now));
                match Incr(old(cache), key, env.now)
                case Some(n) =>
                  && cache == old(cache)[key := CacheEntry(Plain(Text.FormatInt(n)), Some(env.now + CounterTtl))]
                  && (o == RateLimited <==> n > limiter.rps)
                  && (o != RateLimited ==> o == Pass(ctx))
                case None =>
                  && key in old(cache)
                  && cache == old(cache)[key := old(cache)[key].(expiresAt := Some(env.now + CounterTtl))]
                  && o == ServerError
    {
      if !limiter.enabled {
        return Pass(ctx);
      }
      if remoteHost.None? {
        return ServerError;
      }
      var key := RateKey(remoteHost.value, UnixSecond(env.now));
      if env.counterFault.Some? {
        return ServerError;
      }
      var count := Incr(cache, key, env.now);
      match count {
        case None =>
          cache := cache[key := cache[key].(expiresAt := Some(env.now + CounterTtl))];
          return ServerError;
        case Some(n) =>
          cache := cache[key := CacheEntry(Plain(Text.FormatInt(n)), Some(env.now + CounterTtl))];
          if n > limiter.rps {
            return RateLimited;
          }
          return Pass(ctx);
      }
    }

    /** The user id a token resolves to: from a live token:<t> key when there is
        one, otherwise from the tokens table. A cached id that does not parse
        is 0, as strconv.ParseInt leaves it. */
    function ResolveUserId(c: Cache, token: string, env: Env): (r: Result<int, Error>)
      reads tokens
      ensures Get(c, "token:" + token, env.now).Some? ==>
                r == Ok(Text.ParseInt(IdText(c["token:" + token].value)).value)
      ensures Get(c, "token:" + token, env.now).None? && env.tokenFault.Some? ==> r == Err(DbError(env.tokenFault.value))
      ensures Get(c, "token:" + token, env.now).None? && env.tokenFault.None? ==>
                (r == Err(ErrRecordNotFound) <==> forall i :: 0 <= i < |tokens.rows| ==> tokens.rows[i].hash != Some(Tokens.Sha256(token)))
      ensures Get(c, "token:" + token, env.now).None? && r.Ok? ==>
                exists i :: 0 <= i < |tokens.rows| && tokens.rows[i].hash == Some(Tokens.Sha256(token)) && tokens.rows[i].userID == r.value
      ensures Get(c, "token:" + token, env.now).None? && env.tokenQuery == Tokens.SelectStar ==> r.Err?
    {
      match CachedUserId(c, token, env.now)
      case Some(id) => Ok(id)
      case None => tokens.Lookup(token, env.tokenFault, env.tokenQuery)
    }

    /** A token key holding the decimal text of an id, the form a cache entry
        for a token would take, resolves to that id without a database read. */
    lemma CachedIdResolves(c: Cache, token: string, env: Env, id: int)
      requires Get(c, "token:" + token, env.now) == Some(Plain(Text.FormatInt(id)))
      requires Text.IsInt64(id)
      ensures ResolveUserId(c, token, env) == Ok(id)
    {
      Text.ParseFormatInt(id);
    }

    /** authenticate: an empty header is the anonymous user; otherwise the header
        must be "Bearer <token>", the token must pass ValidateTokenPlaintext, and
        the user is taken from the cache when both token:<t> and user:<id> are
        there, and otherwise from the tables, after which user:<id> is cached. */
    method Authenticate(header: string, env: Env) returns (o: Outcome, headers: seq<Header>)
      modifies this
      ensures headers == [("Vary", "Authorization")]
      ensures header == "" ==> o == Pass(Some(Users.Anonymous)) && cache == old(cache)
      ensures header != "" && !IsBearer(header) ==> o == InvalidToken && cache == old(cache)
      ensures IsBearer(header) && header != "Bearer " ==>
                o == Validation422(map["token" := "must be provided"]) && cache == old(cache)
      ensures o.Pass? ==> o.ctx.Some?
      ensures o.Pass? && o.ctx.value.Known? ==> header == "Bearer "
      ensures o.Pass? && o.ctx.value.Known? && env.tokenQuery == Tokens.SelectStar ==> Get(old(cache), "token:", env.now).Some?
      ensures header == "Bearer " && CachedUser(old(cache), "", env.now).Some? ==>
                o == Pass(Some(Users.Known(CachedUser(old(cache), "", env.now).value))) && cache == old(cache)
      ensures header == "Bearer " && CachedUser(old(cache), "", env.now).None? ==>
                match ResolveUserId(old(cache), "", env)
                case Err(ErrRecordNotFound) => o == InvalidToken && cache == old(cache)
                case Err(_) => o == ServerError && cache == old(cache)
                case Ok(id) =>
                  match users.GetUser(id, env.userFault)
                  case Err(_) => o == ServerError && cache == old(cache)
                  case Ok(u) =>
                    && o == Pass(Some(Users.Known(u)))
                    && cache == if env.cacheWriteFails then old(cache)
                                else old(cache)["user:" + Text.FormatInt(u.id) := CacheEntry(UserJson(u), Some(env.now + UserCacheTtl))]
    {
      headers := [("Vary", "Authorization")];
      if header == "" {
        return Pass(Some(Users.Anonymous)), headers;
      }
      var parts := Text.Split(header, ' ');
      if |parts| != 2 || parts[0] != "Bearer" {
        if IsBearer(header) {
          assert header == "Bearer " + header[7..];
          BearerShape(header, header[7..]);
        }
        return InvalidToken, headers;
      }
      var token := parts[1];
      BearerShape(header, token);
      assert header[7..] == token;
      var v := new V.Validator();
      Tokens.ValidateTokenPlaintext(v, token);
      Tokens.TokenPlaintextAsWritten(token);
      V.ValidIffNoErrors(v);
      if !v.Valid() {
        return Validation422(v.fieldErrors), headers;
      }
      assert token == "" && header == "Bearer ";
      assert "token:" + token == "token:";
      var userID: int;
      var cachedID := Get(cache, "token:" + token, env.now);
      if cachedID.Some? {
        var idStr := IdText(cachedID.value);
        userID := Text.ParseInt(idStr).value;
        var cachedUser := Get(cache, "user:" + idStr, env.now);
        if cachedID.value.Plain? && cachedUser.Some? && cachedUser.value.UserJson? {
          return Pass(Some(Users.Known(cachedUser.value.user))), headers;
        }
      } else {
        var found := tokens.Lookup(token, env.tokenFault, env.tokenQuery);
        if found.Err? {
          if found.error == ErrRecordNotFound {
            return InvalidToken, headers;
          }
          return ServerError, headers;
        }
        userID := found.value;
      }
      var loaded := users.GetUser(userID, env.userFault);
      if loaded.Err? {
        return ServerError, headers;
      }
      var user := loaded.value;
      if !env.cacheWriteFails {
        cache := cache["user:" + Text.FormatInt(user.id) := CacheEntry(UserJson(user), Some(env.now + UserCacheTtl))];
      }
      return Pass(Some(Users.Known(user))), headers;
    }

    /** requiredAutheicatedUser: the anonymous user is refused. */
    method RequireAuthenticatedUser(ctx: Option<Users.Caller>) returns (o: Outcome)
      ensures ctx.None? ==> o == Panicked
      ensures ctx == Some(Users.Anonymous) ==> o == AuthRequired
      ensures ctx.Some? && ctx.value.Known? ==> o == Pass(ctx)
    {
      if ctx.None? {
        return Panicked;
      }
      if Users.IsAnonymous(ctx.value) {
        return AuthRequired;
      }
      return Pass(ctx);
    }

    /** requiredActivatedUser: behind the authentication gate, an inactive user
        is refused. */
    method RequireActivatedUser(ctx: Option<Users.Caller>) returns (o: Outcome)
      ensures ctx.None? ==> o == Panicked
      ensures ctx == Some(Users.Anonymous) ==> o == AuthRequired
      ensures ctx.Some? && ctx.value.Known? && !ctx.value.user.isActive ==> o == ActivationRequired
      ensures ctx.Some? && ctx.value.Known? && ctx.value.user.isActive ==> o == Pass(ctx)
    {
      o := RequireAuthenticatedUser(ctx);
      if !o.Pass? {
        return o;
      }
      if !Users.Profile(ctx.value).isActive {
        return ActivationRequired;
      }
      return Pass(ctx);
    }

    /** The codes GetForAllUser yields for a user id: grants joined with the
        catalogue, and with the users table. */
    function GrantedTo(id: int): Permissions.Permissions
      reads this, users, permissions
    {
      Permissions.GrantedCodes(permissions.catalogue, permissions.grants, id,
                               Users.IndexOfId(users.rows, id).Some?)
    }

    /** The codes a scan that breaks off after breakOff grant rows yields. */
    function ScannedTo(id: int, breakOff: Option<nat>): Permissions.Permissions
      reads this, users, permissions
    {
      Permissions.GrantedCodes(permissions.catalogue, Permissions.Scanned(permissions.grants, breakOff), id,
                               Users.IndexOfId(users.rows, id).Some?)
    }

    /** requirePermissions(code): behind the activation gate, loads the user's
        permissions and refuses a user without the code. Its own anonymity test
        is never reached, because the authentication gate runs first. */
    method RequirePermissions(code: string, ctx: Option<Users.Caller>, env: Env) returns (o: Outcome)
      ensures ctx.None? ==> o == Panicked
      ensures ctx == Some(Users.Anonymous) ==> o == AuthRequired
      ensures ctx.Some? && ctx.value.Known? && !ctx.value.user.isActive ==> o == ActivationRequired
      ensures ctx.Some? && ctx.value.Known? && ctx.value.user.isActive ==>
                if env.permissionFault.Some? then o == ServerError
                else if Permissions.Include(ScannedTo(ctx.value.user.id, env.permissionBreakOff), code) then o == Pass(ctx)
                else o == NotPermitted
      ensures o.Pass? ==> ctx.Some? && ctx.value.Known? && Permissions.Include(GrantedTo(ctx.value.user.id), code)
    {
      o := RequireActivatedUser(ctx);
      if !o.Pass? {
        return o;
      }
      var caller := ctx.value;
      if Users.IsAnonymous(caller) {
        return NotPermitted;
      }
      var user := Users.Profile(caller);
      var known := Users.IndexOfId(users.rows, user.id).Some?;
      var granted, err := permissions.GetForAllUser(user.id, known, env.permissionFault, env.permissionBreakOff);
      if err.Some? {
        return ServerError;
      }
      if !Permissions.Include(granted, code) {
        return NotPermitted;
      }
      Permissions.BrokenScanIsPrefix(permissions.catalogue, permissions.grants, env.permissionBreakOff, user.id, known, code);
      return Pass(ctx);
    }

    /** The gate a route asks for. */
    method Gate(route: Route, ctx: Option<Users.Caller>, env: Env) returns (o: Outcome)
      ensures route == Open ==> o == Pass(ctx)
      ensures !o.Handled? && !o.RateLimited?
      ensures ctx.Some? ==> !o.Panicked?
      ensures o.Pass? ==> o.ctx == ctx
      ensures route != Open && o.Pass? ==> ctx.Some? && ctx.value.Known?
      ensures (route.Activated? || route.Permission?) && o.Pass? ==> ctx.value.user.isActive
      ensures route.Permission? && o.Pass? ==> Permissions.Include(GrantedTo(ctx.value.user.id), route.code)
    {
      match route {
        case Open => o := Pass(ctx);
        case Authenticated => o := RequireAuthenticatedUser(ctx);
        case Activated => o := RequireActivatedUser(ctx);
        case Permission(code) => o := RequirePermissions(code, ctx, env);
      }
    }

    /** The whole chain: panicRecover, rateLimit, authenticate, the route's gate
        and the handler, each stage only running when the one before passed. */
    method Serve(req: Request, route: Route, env: Env) returns (reply: Reply)
      modifies this
      ensures reply.outcome != Panicked
      ensures reply.outcome.Handled? ==> !env.handlerPanics
      ensures reply.outcome.Handled? && route != Open ==> reply.outcome.caller.Known?
      ensures reply.outcome.Handled? && (route.Activated? || route.Permission?) ==> reply.outcome.caller.user.isActive
      ensures reply.outcome.Handled? && route.Permission? ==>
                Permissions.Include(GrantedTo(reply.outcome.caller.user.id), route.code)
      ensures reply.outcome.Handled? && reply.outcome.caller.Known? ==> req.authorization == "Bearer "
      ensures reply.outcome == RateLimited ==> limiter.enabled
      ensures !reply.outcome.RateLimited? && reply.outcome != ServerError ==> ("Vary", "Authorization") in reply.headers
      ensures ("Connection", "Close") in reply.headers ==> env.handlerPanics && reply.outcome == ServerError
    {
      var o := RateLimit(req.remoteHost, env, None);
      if !o.Pass? {
        return Recover(Reply(o, []));
      }
      var headers;
      o, headers := Authenticate(req.authorization, env);
      if !o.Pass? {
        return Recover(Reply(o, headers));
      }
      var caller := o.ctx;
      o := Gate(route, caller, env);
      if !o.Pass? {
        return Recover(Reply(o, headers));
      }
      var final := if env.handlerPanics then Panicked else Handled(caller.value);
      return Recover(Reply(final, headers));
    }
  }
}
