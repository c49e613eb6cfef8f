/**
 * The session use case (backend/internal/core/usecase/auth/authUsecase.go):
 * logging in, refreshing a session, reading the current user and logging out.
 * A session is a pair of signed tokens that carry the user's identifier and
 * the user's persisted session token; RS256 signing is a function parameter,
 * and so are the clock reading and the new session token `uuid.New()` draws.
 */
module AuthUseCase {
  import opened Wrappers
  import opened AppError
  import opened Uuid
  import opened AuthEntity
  import opened UserEntity
  import opened Redis
  import opened UserStore
  import opened UserCache
  import opened TokenRepository

  /** Signing keys are named, not modelled; expirations are in seconds. */
  datatype Config = Config(accessKey: string, accessExpiration: int, refreshKey: string, refreshExpiration: int)

  /** The claims of a signed token. */
  datatype Claims = Claims(id: string, token: Option<string>, iat: int, exp: Option<int>)

  /** The JWT library's `SignedString` with a given key. */
  type Signer = (string, Claims) -> Result<string, GoError>

  /** A session: the user and the two signed tokens (the user output projection is not part of this model). */
  datatype AuthOutput = AuthOutput(user: UserData, accessToken: string, refreshToken: string)

  /** The claims `generateToken` signs: identifier, session token, issue time and, when an expiry is given, the expiry. */
  function ClaimsFor(u: UserData, now: int, expire: Option<int>): (c: Claims)
    requires u.auth.Some?
    ensures c.id == u.id && c.token == u.auth.value.token && c.iat == now
    ensures c.exp.Some? <==> expire.Some?
    ensures expire.Some? ==> c.exp.value == now + expire.value
  {
    Claims(u.id, u.auth.value.token, now, if expire.Some? then Some(now + expire.value) else None)
  }

  function AccessExpire(cfg: Config, expiration: bool): Option<int>
  {
    if expiration then Some(cfg.accessExpiration) else None
  }

  function RefreshExpire(cfg: Config, expiration: bool): Option<int>
  {
    if expiration then Some(cfg.refreshExpiration) else None
  }

  /** The two tokens of a session, access first; the first signing error wins. */
  function Tokens(u: UserData, cfg: Config, expiration: bool, now: int, sign: Signer): (r: Result<AuthOutput, GoError>)
    requires u.auth.Some?
    ensures var a := sign(cfg.accessKey, ClaimsFor(u, now, AccessExpire(cfg, expiration)));
      var f := sign(cfg.refreshKey, ClaimsFor(u, now, RefreshExpire(cfg, expiration)));
      (a.Err? ==> r == Err(a.error))
      && (a.Ok? && f.Err? ==> r == Err(f.error))
      && (a.Ok? && f.Ok? ==> r == Ok(AuthOutput(u, a.value, f.value)))
  {
    var a := sign(cfg.accessKey, ClaimsFor(u, now, AccessExpire(cfg, expiration)));
    if a.Err? then Err(a.error)
    else
      var f := sign(cfg.refreshKey, ClaimsFor(u, now, RefreshExpire(cfg, expiration)));
      if f.Err? then Err(f.error) else Ok(AuthOutput(u, a.value, f.value))
  }

  /** Both tokens carry the same identifier and session token; each has an expiry exactly when one was asked for. */
  lemma SessionClaims(u: UserData, cfg: Config, expiration: bool, now: int)
    requires u.auth.Some?
    ensures var a := ClaimsFor(u, now, AccessExpire(cfg, expiration));
      var f := ClaimsFor(u, now, RefreshExpire(cfg, expiration));
      a.id == f.id == u.id && a.token == f.token == u.auth.value.token
      && (a.exp.Some? <==> expiration) && (f.exp.Some? <==> expiration)
      && (expiration ==> a.exp.value == now + cfg.accessExpiration && f.exp.value == now + cfg.refreshExpiration)
  {
  }

  /** The user with a session token: the one it has, else the new one, stamped now. */
  function WithSession(u: UserData, newToken: string, now: int): (r: UserData)
    requires u.auth.Some?
    ensures r.auth.Some? && r.auth.value.token.Some?
    ensures u.auth.value.token.Some? ==> r == u
    ensures u.auth.value.token.None? ==> r.auth.value.token == Some(newToken)
    ensures r.id == u.id && r.email == u.email && r.username == u.username && r.roles == u.roles
  {
    if u.auth.value.token.Some? then u
    else u.(auth := Some(u.auth.value.(token := Some(newToken), updatedAt := now)))
  }

  /** `ValidatePassword` on a user value: a credential with a password that matches. */
  predicate PasswordMatches(u: UserData, password: string)
  {
    u.auth.Some? && u.auth.value.password.Some? && CompareHashAndPassword(u.auth.value.password.value, password)
  }

  /** `Login`'s checks on the look-up's answer, in order: found, password, enabled. */
  function LoginRejection(found: Result<UserData, GoError>, password: string): (r: Option<Error>)
    ensures found.Err? ==> r == Some(UserNotFound())
    ensures found.Ok? && !PasswordMatches(found.value, password) ==> r == Some(InvalidCredentials())
    ensures r.None? <==> found.Ok? && PasswordMatches(found.value, password) && found.value.auth.value.status
  {
    if found.Err? then Some(UserNotFound())
    else if !PasswordMatches(found.value, password) then Some(InvalidCredentials())
    else if found.value.auth.None? || !found.value.auth.value.status || found.value.auth.value.password.None? then Some(DisabledUser())
    else None
  }

  /**
   * A wrong password is reported as such even for a disabled user, and once the
   * password matches the credential and its password are there, so the only
   * reason left for `DisabledUser` is the status flag.
   */
  lemma DisabledOnlyAfterPassword(found: Result<UserData, GoError>, password: string)
    ensures LoginRejection(found, password) == Some(DisabledUser()) <==>
      found.Ok? && PasswordMatches(found.value, password) && !found.value.auth.value.status
  {
  }

  /**
   * What `generateAuthOutput` does: a user who has a session token keeps it
   * and nothing is stored; otherwise the new token is stored through the
   * repository first, and a failed update is the result.
   */
  ghost predicate SessionOutcome(u: UserData, cfg: Config, expiration: bool, now: int, newToken: string, sign: Signer,
                                 rows: map<Uuid, UserData>, reachable: bool, before: State,
                                 rows': map<Uuid, UserData>, after: State, r: Result<AuthOutput, GoError>)
    requires u.auth.Some?
  {
    var v := WithSession(u, newToken, now);
    if u.auth.value.token.Some? then
      rows' == rows && after == before && r == Tokens(u, cfg, expiration, now, sign)
    else
      UpdateOutcome(rows, reachable, before, v, rows', after, UpdateError(rows, reachable, before, v))
      && r == (if UpdateError(rows, reachable, before, v).Some? then Err(UpdateError(rows, reachable, before, v).value)
               else Tokens(v, cfg, expiration, now, sign))
  }

  /** A session is always issued on the user's persisted session token. */
  lemma SessionCarriesStoredToken(u: UserData, cfg: Config, expiration: bool, now: int, newToken: string, sign: Signer,
                                  rows: map<Uuid, UserData>, reachable: bool, before: State,
                                  rows': map<Uuid, UserData>, after: State, r: Result<AuthOutput, GoError>)
    requires u.auth.Some? && u.id in rows
    requires SessionOutcome(u, cfg, expiration, now, newToken, sign, rows, reachable, before, rows', after, r)
    requires rows[u.id] == u
    ensures r.Ok? ==> r.value.user.auth.Some? && r.value.user.auth.value.token.Some?
    ensures r.Ok? ==> u.id in rows' && rows'[u.id].auth == r.value.user.auth
  {
    if u.auth.value.token.None? && r.Ok? {
      assert UpdateStored(rows, reachable, WithSession(u, newToken, now));
    }
  }

  class AuthUseCase {
    const userRepo: CachedUserRepository
    const tokenRepo: TokenRepository?
    const config: Config

    constructor (userRepo: CachedUserRepository, tokenRepo: TokenRepository?, config: Config)
      ensures this.userRepo == userRepo && this.tokenRepo == tokenRepo && this.config == config
    {
      this.userRepo := userRepo;
      this.tokenRepo := tokenRepo;
      this.config := config;
    }

    /** `generateAuthOutput`, on the user object the use case holds. */
    method GenerateAuthOutput(user: User, expiration: bool, now: int, newToken: Uuid, sign: Signer)
      returns (r: Result<AuthOutput, GoError>)
      requires user.auth != null && userRepo.repo.Valid()
      modifies user.auth, userRepo.repo, userRepo.redis
      ensures userRepo.repo.Valid() && userRepo.repo.reachable == old(userRepo.repo.reachable)
      ensures SessionOutcome(old(user.Data()), config, expiration, now, newToken, sign,
                             old(userRepo.repo.rows), old(userRepo.repo.reachable), old(userRepo.redis.Snapshot()),
                             userRepo.repo.rows, userRepo.redis.Snapshot(), r)
    {
      if user.auth.token.None? {
        user.auth.SetToken(newToken, now);
        var err := userRepo.Update(user.Data());
        if err.Some? {
          return Err(err.value);
        }
      }
      var access := sign(config.accessKey, ClaimsFor(user.Data(), now, AccessExpire(config, expiration)));
      if access.Err? {
        return Err(access.error);
      }
      var refresh := sign(config.refreshKey, ClaimsFor(user.Data(), now, RefreshExpire(config, expiration)));
      if refresh.Err? {
        return Err(refresh.error);
      }
      return Ok(AuthOutput(user.Data(), access.value, refresh.value));
    }

    /** `Login`: look the user up by username, then check password, then status, then issue a session. */
    method Login(login: string, password: string, expiration: bool, now: int, newToken: Uuid, sign: Signer)
      returns (r: Result<AuthOutput, GoError>, ghost found: Result<UserData, GoError>,
               ghost fetched: Result<UserData, GoError>, ghost mid: State)
      requires userRepo.repo.Valid()
      modifies userRepo.repo, userRepo.redis
      ensures userRepo.repo.Valid()
      ensures LookupOutcome(old(userRepo.redis.Snapshot()), mid, old(userRepo.repo.rows), old(userRepo.repo.reachable),
                            ByUsername(login), found, fetched)
      ensures LoginRejection(found, password).Some? ==>
        r == Err(App(LoginRejection(found, password).value))
        && userRepo.repo.rows == old(userRepo.repo.rows) && userRepo.redis.Snapshot() == mid
      ensures LoginRejection(found, password).None? ==>
        SessionOutcome(found.value, config, expiration, now, newToken, sign,
                       old(userRepo.repo.rows), old(userRepo.repo.reachable), mid,
                       userRepo.repo.rows, userRepo.redis.Snapshot(), r)
    {
      var got;
      got, fetched := userRepo.FindByUsername(login);
      found, mid := got, userRepo.redis.Snapshot();
      if got.Err? {
        return Err(App(UserNotFound())), found, fetched, mid;
      }
      var user := User.FromData(got.value);
      if !user.ValidatePassword(password) {
        return Err(App(InvalidCredentials())), found, fetched, mid;
      }
      if user.auth == null || !user.auth.status || user.auth.password.None? {
        return Err(App(DisabledUser())), found, fetched, mid;
      }
      r := GenerateAuthOutput(user, expiration, now, newToken, sign);
    }

    /** `Refresh`: parse the identifier, look the user up by it, and issue a session. */
    method Refresh(userID: string, expiration: bool, now: int, newToken: Uuid, sign: Signer)
      returns (r: Result<AuthOutput, GoError>, ghost found: Result<UserData, GoError>,
               ghost fetched: Result<UserData, GoError>, ghost mid: State)
      requires userRepo.repo.Valid()
      modifies userRepo.repo, userRepo.redis
      ensures userRepo.repo.Valid()
      ensures Parse(userID).None? ==>
        r == Err(App(InvalidInput("user_id", "invalid uuid format")))
        && userRepo.repo.rows == old(userRepo.repo.rows) && userRepo.redis.Snapshot() == old(userRepo.redis.Snapshot())
      ensures Parse(userID).Some? ==>
        LookupOutcome(old(userRepo.redis.Snapshot()), mid, old(userRepo.repo.rows), old(userRepo.repo.reachable),
                      ById(Parse(userID).value), found, fetched)
        && (found.Err? ==> r == Err(App(UserNotFound())) && userRepo.redis.Snapshot() == mid)
        && (found.Ok? && found.value.auth.None? ==> r == Err(ErrNilDereference) && userRepo.redis.Snapshot() == mid)
        && (found.Ok? && found.value.auth.Some? ==>
              SessionOutcome(found.value, config, expiration, now, newToken, sign,
                             old(userRepo.repo.rows), old(userRepo.repo.reachable), mid,
                             userRepo.repo.rows, userRepo.redis.Snapshot(), r))
    {
      found, fetched, mid := Err(ErrRecordNotFound), Err(ErrRecordNotFound), userRepo.redis.Snapshot();
      var uid := Parse(userID);
      if uid.None? {
        return Err(App(InvalidInput("user_id", "invalid uuid format"))), found, fetched, mid;
      }
      var got;
      got, fetched := userRepo.FindByID(uid.value);
      found, mid := got, userRepo.redis.Snapshot();
      if got.Err? {
        return Err(App(UserNotFound())), found, fetched, mid;
      }
      var user := User.FromData(got.value);
      if user.auth == null {
        return Err(ErrNilDereference), found, fetched, mid;
      }
      r := GenerateAuthOutput(user, expiration, now, newToken, sign);
    }

    /** `Me`: parse the identifier and look the user up by it. */
    method Me(userID: string) returns (r: Result<UserData, GoError>, ghost found: Result<UserData, GoError>,
                                       ghost fetched: Result<UserData, GoError>)
      modifies userRepo.redis, userRepo.repo`calls
      ensures Parse(userID).None? ==>
        r == Err(App(InvalidInput("user_id", "invalid uuid format"))) && userRepo.redis.Snapshot() == old(userRepo.redis.Snapshot())
      ensures Parse(userID).Some? ==>
        LookupOutcome(old(userRepo.redis.Snapshot()), userRepo.redis.Snapshot(), userRepo.repo.rows,
                      userRepo.repo.reachable, ById(Parse(userID).value), found, fetched)
        && r == (if found.Err? then Err(App(UserNotFound())) else found)
    {
      found, fetched := Err(ErrRecordNotFound), Err(ErrRecordNotFound);
      var uid := Parse(userID);
      if uid.None? {
        return Err(App(InvalidInput("user_id", "invalid uuid format"))), found, fetched;
      }
      var got;
      got, fetched := userRepo.FindByID(uid.value);
      found := got;
      if got.Err? {
        return Err(App(UserNotFound())), found, fetched;
      }
      return got, found, fetched;
    }

    /** `Logout`: without a token repository nothing happens; otherwise the token is revoked for the refresh lifetime. */
    method Logout(token: string) returns (err: Option<GoError>)
      modifies if tokenRepo != null then {tokenRepo.service} else {}
      ensures tokenRepo == null ==> err.None?
      ensures tokenRepo != null ==>
        (tokenRepo.service.Snapshot(), err)
          == Write(old(tokenRepo.service.Snapshot()), BlacklistKey(token), Text("revoked"), config.refreshExpiration)
    {
      if tokenRepo == null {
        return None;
      }
      err := tokenRepo.BlacklistToken(token, config.refreshExpiration);
    }
  }
}
