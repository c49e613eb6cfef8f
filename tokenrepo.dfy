/**
 * The revoked-token list (backend/internal/adapter/driven/storage/redis/tokenRepository.go):
 * a revoked token is a Redis key `blacklist:<token>` holding the JSON string
 * "revoked" until its expiry. Any failure to read the key, including an
 * unreachable server, reads as "not revoked".
 */
module TokenRepository {
  import opened Wrappers
  import opened AppError
  import opened Redis

  const BlacklistPrefix := "blacklist:"

  function BlacklistKey(token: string): string
  {
    BlacklistPrefix + token
  }

  /** The key reads back and decodes into a Go string. */
  predicate Blacklisted(s: State, token: string)
  {
    var r := Read(s, BlacklistKey(token));
    r.Ok? && r.value.Text?
  }

  /** A revoked token stays revoked for the whole duration and no longer; other tokens are untouched. */
  lemma RevocationLifetime(s: State, token: string, other: string, duration: int, elapsed: nat)
    requires s.reachable && duration > 0
    ensures var w := Write(s, BlacklistKey(token), Text("revoked"), duration).0;
      Blacklisted(w.(clock := w.clock + elapsed), token) <==> elapsed <= duration
    ensures other != token ==>
      Blacklisted(Write(s, BlacklistKey(token), Text("revoked"), duration).0, other) == Blacklisted(s, other)
  {
    if other != token {
      assert BlacklistKey(token)[|BlacklistPrefix|..] == token;
      assert BlacklistKey(other)[|BlacklistPrefix|..] == other;
      SetOtherKey(s, BlacklistKey(token), BlacklistKey(other), Text("revoked"), duration);
    }
  }

  /** An unreachable server revokes nothing. */
  lemma FailsOpen(s: State, token: string)
    requires !s.reachable
    ensures !Blacklisted(s, token)
  {
  }

  class TokenRepository {
    const service: Service

    constructor (service: Service)
      ensures this.service == service
    {
      this.service := service;
    }

    /** `BlacklistToken`: a write of "revoked" that expires after `duration`. */
    method BlacklistToken(token: string, duration: int) returns (err: Option<GoError>)
      modifies service
      ensures (service.Snapshot(), err) == Write(old(service.Snapshot()), BlacklistKey(token), Text("revoked"), duration)
    {
      err := service.Set(BlacklistKey(token), Text("revoked"), duration);
    }

    /** `IsTokenBlacklisted`: never an error; true exactly when the key is live and decodes. */
    method IsTokenBlacklisted(token: string) returns (blacklisted: bool, err: Option<GoError>)
      ensures err.None?
      ensures blacklisted == Blacklisted(service.Snapshot(), token)
      ensures !service.reachable ==> !blacklisted
    {
      var r := service.Get(BlacklistKey(token));
      if r.Err? || !r.value.Text? {
        return false, None;
      }
      return true, None;
    }
  }
}
