/**
 * The bearer-token middleware (backend/internal/adapter/driver/rest/middleware/auth.go).
 * `Next` decides whether the check is skipped; `Validator` checks the raw
 * bearer string against the revocation list, verifies it as a JWT (the JWT
 * library is the parameter `parse`), reads the session token from its claims,
 * looks the user up by that token and admits an enabled user, storing the
 * user in the request's locals.
 */
module AuthMiddleware {
  import opened Wrappers
  import opened AppError
  import opened Uuid
  import opened AuthEntity
  import opened UserEntity
  import opened Redis
  import opened UserStore
  import opened UserCache
  import opened TokenRepository

  const LocalUser := "localUser"
  const LocalUserID := "localUserID"
  const SkipHeader := "X-Skip-Auth"

  /** A value stored in a request's locals. */
  datatype Local = UserIdLocal(id: string) | UserLocal(user: UserData)

  /**
   * A request: its headers and its locals. Fiber matches header names without
   * regard to case; here `headers` is keyed by the canonical names
   * ("Authorization", "X-Skip-Auth"), so the exact-key look-up stands for it.
   */
  class Context {
    const headers: map<string, string>
    var locals: map<string, Local>

    constructor (headers: map<string, string>)
      ensures this.headers == headers && locals == map[]
    {
      this.headers := headers;
      locals := map[];
    }

    /** Fiber's `Get(key, default)`: an absent or empty header gives the default. */
    function Get(key: string, default: string): (r: string)
      ensures key in headers && headers[key] != "" ==> r == headers[key]
      ensures key !in headers || headers[key] == "" ==> r == default
    {
      if key in headers && headers[key] != "" then headers[key] else default
    }
  }

  /** What the JWT library hands back for a token it could parse: the claims, if they are a claim map, and validity. */
  datatype ParsedToken = ParsedToken(claims: Option<map<string, Dynamic>>, valid: bool)

  /** Why a request is refused: a message key for the translator, or a literal message. */
  datatype Rejection = Localized(key: string) | Literal(text: string)

  /** The revocation check's answer, or that no revocation list is configured. */
  datatype BlacklistCheck = NotConfigured | Checked(blacklisted: bool, err: Option<GoError>)

  /** The checks before the user look-up: they yield the session token, or a rejection. */
  function Screen(check: BlacklistCheck, parsed: Result<ParsedToken, GoError>): (r: Result<string, Rejection>)
    ensures check.Checked? && check.err.Some? ==> r == Err(Localized("errGeneric"))
    ensures check.Checked? && check.err.None? && check.blacklisted ==> r == Err(Localized("unauthorized"))
    ensures r.Ok? <==> (check.NotConfigured? || (check.err.None? && !check.blacklisted))
                       && parsed.Ok? && parsed.value.claims.Some? && parsed.value.valid
                       && "token" in parsed.value.claims.value && parsed.value.claims.value["token"].DString?
    ensures r.Ok? ==> r.value == parsed.value.claims.value["token"].s
  {
    if check.Checked? && check.err.Some? then Err(Localized("errGeneric"))
    else if check.Checked? && check.blacklisted then Err(Localized("unauthorized"))
    else if parsed.Err? then Err(Localized("errGeneric"))
    else if parsed.value.claims.None? || !parsed.value.valid then Err(Literal("invalid jwt token"))
    else if "token" !in parsed.value.claims.value || !parsed.value.claims.value["token"].DString? then Err(Literal("invalid token claim"))
    else Ok(parsed.value.claims.value["token"].s)
  }

  /** The whole decision, given the look-up's answer for the session token. */
  function Decide(check: BlacklistCheck, parsed: Result<ParsedToken, GoError>, found: Result<UserData, GoError>): (r: Result<UserData, Rejection>)
    ensures Screen(check, parsed).Err? ==> r == Err(Screen(check, parsed).error)
    ensures Screen(check, parsed).Ok? && found.Err? ==> r == Err(Localized("errGeneric"))
    ensures r.Ok? <==> Screen(check, parsed).Ok? && found.Ok? && found.value.auth.Some? && found.value.auth.value.status
    ensures r.Ok? ==> r.value == found.value
  {
    var s := Screen(check, parsed);
    if s.Err? then Err(s.error)
    else if found.Err? then Err(Localized("errGeneric"))
    else if found.value.auth.None? || !found.value.auth.value.status then Err(Localized("disabledUser"))
    else Ok(found.value)
  }

  /** A revoked bearer string is refused before it is parsed and whatever user it names. */
  lemma RevokedBeforeParsing(parsed: Result<ParsedToken, GoError>, other: Result<ParsedToken, GoError>,
                             found: Result<UserData, GoError>, found': Result<UserData, GoError>)
    ensures Decide(Checked(true, None), parsed, found) == Decide(Checked(true, None), other, found')
    ensures Decide(Checked(true, None), parsed, found) == Err(Localized("unauthorized"))
  {
  }

  /**
   * Revocation is keyed on the raw bearer string: revoking one string leaves
   * every other string, including another token on the same session, as it was.
   */
  lemma RevocationIsPerBearerString(s: State, revoked: string, bearer: string, duration: int)
    requires s.reachable && duration > 0 && bearer != revoked
    ensures Blacklisted(Write(s, BlacklistKey(revoked), Text("revoked"), duration).0, bearer) == Blacklisted(s, bearer)
  {
    RevocationLifetime(s, revoked, bearer, duration, 0);
  }

  /**
   * With Redis unreachable the revocation check reports "not revoked", yet the
   * user look-up through the cache fails, so every request is refused.
   */
  lemma RedisDownRefusesEverything(before: State, after: State, rows: map<Uuid, UserData>, reachable: bool,
                                   key: string, parsed: Result<ParsedToken, GoError>,
                                   found: Result<UserData, GoError>, fetched: Result<UserData, GoError>)
    requires !before.reachable
    requires Screen(Checked(Blacklisted(before, key), None), parsed).Ok?
    requires LookupOutcome(before, after, rows, reachable, ByToken(Screen(Checked(Blacklisted(before, key), None), parsed).value), found, fetched)
    ensures !Blacklisted(before, key)
    ensures Decide(Checked(Blacklisted(before, key), None), parsed, found).Err?
  {
    FailsOpen(before, key);
  }

  class AuthMiddleware {
    const userRepo: CachedUserRepository
    const tokenRepo: TokenRepository?
    const allowSkipAuth: bool
    /** `jwt.Parse` with the RSA public key, signing-method check included. */
    const parse: string -> Result<ParsedToken, GoError>

    constructor (userRepo: CachedUserRepository, tokenRepo: TokenRepository?, allowSkipAuth: bool,
                 parse: string -> Result<ParsedToken, GoError>)
      ensures this.userRepo == userRepo && this.tokenRepo == tokenRepo
      ensures this.allowSkipAuth == allowSkipAuth && this.parse == parse
    {
      this.userRepo := userRepo;
      this.tokenRepo := tokenRepo;
      this.allowSkipAuth := allowSkipAuth;
      this.parse := parse;
    }

    /** `Next`: skip when allowed and the header says "true", recording the nil identifier as the user. */
    method Next(c: Context) returns (skip: bool)
      modifies c
      ensures skip <==> allowSkipAuth && c.Get(SkipHeader, "false") == "true"
      ensures skip ==> c.locals == old(c.locals)[LocalUserID := UserIdLocal(Nil)]
      ensures !skip ==> c.locals == old(c.locals)
    {
      if allowSkipAuth && c.Get(SkipHeader, "false") == "true" {
        c.locals := c.locals[LocalUserID := UserIdLocal(Nil)];
        return true;
      }
      return false;
    }

    /** The revocation check as `Validator` sees it. */
    function Check(key: string): BlacklistCheck
      reads this, if tokenRepo != null then {tokenRepo.service} else {}
    {
      if tokenRepo == null then NotConfigured else Checked(Blacklisted(tokenRepo.service.Snapshot(), key), None)
    }

    /** `Validator`: the decision above; on success both locals are set to the user. */
    method Validator(c: Context, key: string) returns (ok: bool, rejection: Option<Rejection>,
                                                       ghost found: Result<UserData, GoError>,
                                                       ghost fetched: Result<UserData, GoError>)
      modifies c, userRepo.redis, userRepo.repo`calls
      ensures var screen := Screen(old(Check(key)), parse(key));
        (screen.Err? ==> userRepo.redis.Snapshot() == old(userRepo.redis.Snapshot()))
        && (screen.Ok? ==> LookupOutcome(old(userRepo.redis.Snapshot()), userRepo.redis.Snapshot(),
                                         userRepo.repo.rows, userRepo.repo.reachable, ByToken(screen.value), found, fetched))
        && var verdict := Decide(old(Check(key)), parse(key), found);
        (ok <==> verdict.Ok?)
        && (!ok ==> rejection == Some(verdict.error) && c.locals == old(c.locals))
        && (ok ==>
              rejection.None?
              && c.locals == old(c.locals)[LocalUserID := UserIdLocal(verdict.value.id)][LocalUser := UserLocal(verdict.value)])
    {
      found, fetched := Err(ErrRecordNotFound), Err(ErrRecordNotFound);
      if tokenRepo != null {
        var isBlacklisted, err := tokenRepo.IsTokenBlacklisted(key);
        if err.Some? {
          return false, Some(Localized("errGeneric")), found, fetched;
        }
        if isBlacklisted {
          return false, Some(Localized("unauthorized")), found, fetched;
        }
      }
      var parsed := parse(key);
      if parsed.Err? {
        return false, Some(Localized("errGeneric")), found, fetched;
      }
      if parsed.value.claims.None? || !parsed.value.valid {
        return false, Some(Literal("invalid jwt token")), found, fetched;
      }
      var claims := parsed.value.claims.value;
      if "token" !in claims || !claims["token"].DString? {
        return false, Some(Literal("invalid token claim")), found, fetched;
      }
      var got;
      got, fetched := userRepo.FindByToken(claims["token"].s);
      found := got;
      if got.Err? {
        return false, Some(Localized("errGeneric")), found, fetched;
      }
      if got.value.auth.None? || !got.value.auth.value.status {
        return false, Some(Localized("disabledUser")), found, fetched;
      }
      c.locals := c.locals[LocalUserID := UserIdLocal(got.value.id)][LocalUser := UserLocal(got.value)];
      return true, None, found, fetched;
    }
  }
}
