/**
 * The read-through user cache of
 * backend/internal/adapter/driven/persistence/postgres/repository/userRepositoryCached.go:
 * every look-up first tries a Redis key, falls back to the store on a miss and
 * then caches the store's answer for an hour; writes go to the store and then
 * delete the keys of the written user.
 */
module UserCache {
  import opened Wrappers
  import opened Text
  import opened AppError
  import opened Uuid
  import opened AuthEntity
  import opened UserEntity
  import opened Redis
  import opened UserStore

  function KeyByID(id: Uuid): string { "user:id:" + id }
  function KeyByEmail(email: string): string { "user:email:" + email }
  function KeyByToken(token: string): string { "user:token:" + token }
  function KeyByUsername(username: string): string { "user:username:" + username }

  /** The key a look-up is cached under. */
  function Key(l: Lookup): string
  {
    match l
    case ById(id) => KeyByID(id)
    case ByUsername(n) => KeyByUsername(n)
    case ByEmail(e) => KeyByEmail(e)
    case ByToken(t) => KeyByToken(t)
  }

  /** Keys of different kinds never collide, and within one kind the key determines the look-up. */
  lemma KeyInjective(l: Lookup, m: Lookup)
    requires Key(l) == Key(m)
    ensures l == m
  {
    var k := Key(l);
    assert k[..5] == "user:";
    match l
    case ById(id) =>
      assert k[5] == 'i' && k[8..] == id;
    case ByUsername(n) =>
      assert k[5] == 'u' && k[14..] == n;
    case ByEmail(e) =>
      assert k[5] == 'e' && k[11..] == e;
    case ByToken(t) =>
      assert k[5] == 't' && k[11..] == t;
  }

  /** The user a key yields: the key is live and decodes into a user. */
  function Cached(s: State, key: string): (r: Option<UserData>)
    ensures r.Some? <==> s.reachable && Live(s, key) && s.entries[key].value.UserBlob?
    ensures r.Some? ==> r.value == s.entries[key].value.user
  {
    var g := Read(s, key);
    if g.Ok? && g.value.UserBlob? then Some(g.value.user) else None
  }

  /**
   * What a miss does with the store's answer: an error is returned as it is
   * and the cache is untouched; a user is cached for an hour and returned,
   * unless the cache write fails, in which case the read fails with it.
   */
  function AfterFetch(s: State, key: string, fetched: Result<UserData, GoError>): (r: (State, Result<UserData, GoError>))
    ensures fetched.Err? ==> r == (s, fetched)
    ensures fetched.Ok? && !s.reachable ==> r == (s, Err(ErrUnreachable))
    ensures fetched.Ok? && s.reachable ==>
      r.1 == fetched && r.0 == s.(entries := s.entries[key := Entry(UserBlob(fetched.value), Some(s.clock + Hour))])
  {
    if fetched.Err? then (s, fetched)
    else
      var w := Write(s, key, UserBlob(fetched.value), Hour);
      if w.1.Some? then (w.0, Err(w.1.value)) else (w.0, fetched)
  }

  /** A successful miss makes the next hour's look-ups hits that return the same user. */
  lemma MissPopulates(s: State, key: string, u: UserData, elapsed: nat)
    requires s.reachable && elapsed <= Hour
    ensures var w := AfterFetch(s, key, Ok(u)).0;
      Cached(w.(clock := w.clock + elapsed), key) == Some(u)
  {
  }

  /** With Redis down every read fails, whatever the store answers. */
  lemma ReadFailsWhenRedisDown(s: State, key: string, fetched: Result<UserData, GoError>)
    requires !s.reachable
    ensures AfterFetch(s, key, fetched).1.Err?
    ensures AfterFetch(s, key, fetched).0 == s
  {
  }

  /** The keys `Update` deletes: identifier, e-mail, username, and the token when there is one. */
  function UpdateKeys(u: UserData): (r: seq<string>)
    ensures |r| == if u.auth.Some? && u.auth.value.token.Some? then 4 else 3
    ensures KeyByID(u.id) in r && KeyByEmail(u.email) in r && KeyByUsername(u.username) in r
    ensures forall t :: KeyByToken(t) in r <==> u.auth.Some? && u.auth.value.token == Some(t)
  {
    var keys := [KeyByID(u.id), KeyByEmail(u.email), KeyByUsername(u.username)];
    assert forall t :: KeyByToken(t) !in keys by {
      forall t ensures KeyByToken(t) !in keys {
        assert KeyByToken(t)[5] == 't';
        assert keys[0][5] == 'i' && keys[1][5] == 'e' && keys[2][5] == 'u';
      }
    }
    if u.auth.Some? && u.auth.value.token.Some? then
      assert forall t :: KeyByToken(t) == KeyByToken(u.auth.value.token.value) ==> t == u.auth.value.token.value by {
        forall t | KeyByToken(t) == KeyByToken(u.auth.value.token.value) ensures t == u.auth.value.token.value {
          assert KeyByToken(t)[11..] == t;
        }
      }
      keys + [KeyByToken(u.auth.value.token.value)]
    else keys
  }

  /** The keys `Delete` deletes: one identifier key per identifier, in order. */
  function IdKeys(ids: seq<Uuid>): (r: seq<string>)
    ensures |r| == |ids|
    ensures forall i :: 0 <= i < |ids| ==> r[i] == KeyByID(ids[i])
  {
    if |ids| == 0 then [] else [KeyByID(ids[0])] + IdKeys(ids[1..])
  }

  /** Deleting keys empties exactly those keys and leaves every other key's user alone. */
  lemma CachedAfterDelete(s: State, keys: seq<string>, key: string)
    requires s.reachable
    ensures Cached(Redis.Delete(s, keys).0, key) == if key in keys then None else Cached(s, key)
  {
  }

  /** After `Update(u)` the next look-up of u by identifier, e-mail, username or token misses and reaches the store. */
  lemma UpdateInvalidatesNewKeys(s: State, u: UserData)
    requires s.reachable
    ensures var w := Redis.Delete(s, UpdateKeys(u)).0;
      Cached(w, KeyByID(u.id)).None? && Cached(w, KeyByEmail(u.email)).None?
      && Cached(w, KeyByUsername(u.username)).None?
      && (u.auth.Some? && u.auth.value.token.Some? ==> Cached(w, KeyByToken(u.auth.value.token.value)).None?)
  {
  }

  /**
   * `Update` deletes the keys of the user as it is now: a user cached under a
   * previous e-mail address stays cached there, so a look-up by the old address
   * keeps answering with the old record until the hour is up.
   */
  lemma UpdateKeepsOldEmailEntry(s: State, u: UserData, oldEmail: string)
    requires s.reachable && oldEmail != u.email
    ensures Cached(Redis.Delete(s, UpdateKeys(u)).0, KeyByEmail(oldEmail)) == Cached(s, KeyByEmail(oldEmail))
  {
    OnlyOwnKeys(u, ByEmail(oldEmail));
    CachedAfterDelete(s, UpdateKeys(u), KeyByEmail(oldEmail));
  }

  /** Likewise a token the update replaced or cleared (as a password reset does) keeps finding the user. */
  lemma UpdateKeepsOldTokenEntry(s: State, u: UserData, oldToken: string)
    requires s.reachable
    requires u.auth.None? || u.auth.value.token != Some(oldToken)
    ensures Cached(Redis.Delete(s, UpdateKeys(u)).0, KeyByToken(oldToken)) == Cached(s, KeyByToken(oldToken))
  {
    OnlyOwnKeys(u, ByToken(oldToken));
    CachedAfterDelete(s, UpdateKeys(u), KeyByToken(oldToken));
  }

  /**
   * The store compares e-mail addresses without regard to case but the cache
   * keys do not: an entry cached under another spelling of the address survives `Update`.
   */
  lemma UpdateKeepsCaseVariantEntry(s: State, u: UserData, spelling: string)
    requires s.reachable && spelling != u.email
    ensures FoldEq(spelling, u.email) ==> (Matches(ByEmail(spelling), u) <==> Matches(ByEmail(u.email), u))
    ensures Cached(Redis.Delete(s, UpdateKeys(u)).0, KeyByEmail(spelling)) == Cached(s, KeyByEmail(spelling))
  {
    UpdateKeepsOldEmailEntry(s, u, spelling);
  }

  /** `Delete` deletes identifier keys only: e-mail, username and token entries of deleted users stay. */
  lemma DeleteKeepsSecondaryEntries(s: State, ids: seq<Uuid>, l: Lookup)
    requires s.reachable && !l.ById?
    ensures Cached(Redis.Delete(s, IdKeys(ids)).0, Key(l)) == Cached(s, Key(l))
  {
    if Key(l) in IdKeys(ids) {
      var i :| 0 <= i < |ids| && IdKeys(ids)[i] == Key(l);
      KeyInjective(l, ById(ids[i]));
    }
    CachedAfterDelete(s, IdKeys(ids), Key(l));
  }

  /** `UpdateKeys(u)` holds the user's own current keys and nothing else. */
  lemma OnlyOwnKeys(u: UserData, l: Lookup)
    ensures Key(l) in UpdateKeys(u) <==>
      l == ById(u.id) || l == ByEmail(u.email) || l == ByUsername(u.username)
      || (u.auth.Some? && u.auth.value.token.Some? && l == ByToken(u.auth.value.token.value))
  {
    var ks := UpdateKeys(u);
    if Key(l) in ks {
      var i :| 0 <= i < |ks| && ks[i] == Key(l);
      if i == 0 { KeyInjective(l, ById(u.id)); }
      else if i == 1 { KeyInjective(l, ByEmail(u.email)); }
      else if i == 2 { KeyInjective(l, ByUsername(u.username)); }
      else { KeyInjective(l, ByToken(u.auth.value.token.value)); }
    }
  }

  /**
   * What a look-up does: a hit returns the cached user and changes nothing; a
   * miss returns what `AfterFetch` makes of the store's answer `fetched`.
   */
  ghost predicate LookupOutcome(before: State, after: State, rows: map<Uuid, UserData>, reachable: bool,
                                l: Lookup, r: Result<UserData, GoError>, fetched: Result<UserData, GoError>)
  {
    var hit := Cached(before, Key(l));
    if hit.Some? then r == Ok(hit.value) && after == before
    else Answer(rows, reachable, l, fetched) && (after, r) == AfterFetch(before, Key(l), fetched)
  }

  /** Some answer of the store makes the look-up come out as observed. */
  ghost predicate Looked(before: State, after: State, rows: map<Uuid, UserData>, reachable: bool,
                         l: Lookup, r: Result<UserData, GoError>)
  {
    exists fetched :: LookupOutcome(before, after, rows, reachable, l, r, fetched)
  }

  /**
   * A look-up never changes whether Redis is reachable, nor its clock; and with
   * Redis and the store both reachable, a failed look-up means that no row
   * matches, so a caller may read the failure as "absent".
   */
  lemma FailedLookupMeansAbsent(before: State, after: State, rows: map<Uuid, UserData>, reachable: bool,
                                l: Lookup, r: Result<UserData, GoError>)
    requires Looked(before, after, rows, reachable, l, r)
    ensures after.reachable == before.reachable && after.clock == before.clock
    ensures before.reachable && reachable && r.Err? ==> !Found(rows, l)
  {
    var fetched :| LookupOutcome(before, after, rows, reachable, l, r, fetched);
  }

  /** With Redis down every look-up fails, even of a user the store holds. */
  lemma LookupFailsWhenRedisDown(before: State, after: State, rows: map<Uuid, UserData>, reachable: bool,
                                 l: Lookup, r: Result<UserData, GoError>)
    requires Looked(before, after, rows, reachable, l, r) && !before.reachable
    ensures r.Err? && after == before
  {
    var fetched :| LookupOutcome(before, after, rows, reachable, l, r, fetched);
    ReadFailsWhenRedisDown(before, Key(l), fetched);
  }

  /** The store's answer to an insert. */
  function CreateError(rows: map<Uuid, UserData>, reachable: bool, u: UserData): (err: Option<GoError>)
    ensures err.None? <==> reachable && u.id !in rows && !TokenTaken(rows, u)
  {
    if !reachable then Some(ErrDatabase)
    else if u.id in rows || TokenTaken(rows, u) then Some(ErrDuplicateKey) else None
  }

  /** What `Create` does: the store's insert, and nothing to the cache. */
  ghost predicate CreateOutcome(rows: map<Uuid, UserData>, reachable: bool, u: UserData,
                                rows': map<Uuid, UserData>, err: Option<GoError>)
  {
    err == CreateError(rows, reachable, u)
    && rows' == if err.None? then rows[u.id := u] else rows
  }

  /**
   * The store accepts an update when it is reachable and the user's row, if
   * present, does not take another user's token.
   */
  predicate UpdateStored(rows: map<Uuid, UserData>, reachable: bool, u: UserData)
  {
    reachable && !(u.id in rows && TokenTaken(rows, u))
  }

  /** The error `Update` returns: the store's refusal, else the error of deleting the user's keys. */
  function UpdateError(rows: map<Uuid, UserData>, reachable: bool, before: State, u: UserData): (err: Option<GoError>)
    ensures !UpdateStored(rows, reachable, u) ==> err.Some?
    ensures UpdateStored(rows, reachable, u) ==> (err.None? <==> before.reachable)
  {
    if !reachable then Some(ErrDatabase)
    else if u.id in rows && TokenTaken(rows, u) then Some(ErrDuplicateKey)
    else Redis.Delete(before, UpdateKeys(u)).1
  }

  /**
   * What `Update` does: when the store refuses, its error and no cache change;
   * otherwise the row is rewritten and the user's current keys are deleted,
   * whose error (if any) is the result.
   */
  ghost predicate UpdateOutcome(rows: map<Uuid, UserData>, reachable: bool, before: State, u: UserData,
                                rows': map<Uuid, UserData>, after: State, err: Option<GoError>)
  {
    var stored := UpdateStored(rows, reachable, u);
    rows' == (if stored && u.id in rows then rows[u.id := u] else rows)
    && after == (if stored then Redis.Delete(before, UpdateKeys(u)).0 else before)
    && err == UpdateError(rows, reachable, before, u)
  }

  /** The store deletes when given no identifiers, or when it is reachable and one of them exists. */
  predicate DeleteStored(rows: map<Uuid, UserData>, reachable: bool, ids: seq<Uuid>)
  {
    |ids| == 0 || (reachable && exists i :: 0 <= i < |ids| && ids[i] in rows)
  }

  /** The error `Delete` returns. */
  function DeleteError(rows: map<Uuid, UserData>, reachable: bool, before: State, ids: seq<Uuid>): (err: Option<GoError>)
    ensures !DeleteStored(rows, reachable, ids) ==> err.Some?
    ensures |ids| == 0 ==> err.None?
  {
    if |ids| == 0 then None
    else if !reachable then Some(ErrDatabase)
    else if !exists i :: 0 <= i < |ids| && ids[i] in rows then Some(ErrRecordNotFound)
    else Redis.Delete(before, IdKeys(ids)).1
  }

  /** What `Delete` does: when the store deletes, the identifier keys are deleted too. */
  ghost predicate DeleteOutcome(rows: map<Uuid, UserData>, reachable: bool, before: State, ids: seq<Uuid>,
                                rows': map<Uuid, UserData>, after: State, err: Option<GoError>)
  {
    var stored := DeleteStored(rows, reachable, ids);
    rows' == (if stored then rows - (set i | 0 <= i < |ids| :: ids[i]) else rows)
    && after == (if stored then Redis.Delete(before, IdKeys(ids)).0 else before)
    && err == DeleteError(rows, reachable, before, ids)
  }

  class CachedUserRepository {
    const repo: UserTable
    const redis: Service

    constructor (repo: UserTable, redis: Service)
      ensures this.repo == repo && this.redis == redis
    {
      this.repo := repo;
      this.redis := redis;
    }

    /** The look-up shared by the four `Find*` methods; `fetched` is the store's answer on a miss. */
    method Find(l: Lookup) returns (r: Result<UserData, GoError>, ghost fetched: Result<UserData, GoError>)
      modifies redis, repo`calls
      ensures repo.calls == old(repo.calls) + if Cached(old(redis.Snapshot()), Key(l)).Some? then 0 else 1
      ensures LookupOutcome(old(redis.Snapshot()), redis.Snapshot(), repo.rows, repo.reachable, l, r, fetched)
    {
      var key := Key(l);
      var cached := redis.Get(key);
      if cached.Ok? && cached.value.UserBlob? {
        return Ok(cached.value.user), Ok(cached.value.user);
      }
      r := repo.Find(l);
      fetched := r;
      if r.Err? {
        return;
      }
      var err := redis.Set(key, UserBlob(r.value), Hour);
      if err.Some? {
        return Err(err.value), fetched;
      }
    }

    method FindByID(id: Uuid) returns (r: Result<UserData, GoError>, ghost fetched: Result<UserData, GoError>)
      modifies redis, repo`calls
      ensures repo.calls == old(repo.calls) + if Cached(old(redis.Snapshot()), KeyByID(id)).Some? then 0 else 1
      ensures LookupOutcome(old(redis.Snapshot()), redis.Snapshot(), repo.rows, repo.reachable, ById(id), r, fetched)
    {
      r, fetched := Find(ById(id));
    }

    method FindByUsername(username: string) returns (r: Result<UserData, GoError>, ghost fetched: Result<UserData, GoError>)
      modifies redis, repo`calls
      ensures repo.calls == old(repo.calls) + if Cached(old(redis.Snapshot()), KeyByUsername(username)).Some? then 0 else 1
      ensures LookupOutcome(old(redis.Snapshot()), redis.Snapshot(), repo.rows, repo.reachable, ByUsername(username), r, fetched)
    {
      r, fetched := Find(ByUsername(username));
    }

    method FindByEmail(email: string) returns (r: Result<UserData, GoError>, ghost fetched: Result<UserData, GoError>)
      modifies redis, repo`calls
      ensures repo.calls == old(repo.calls) + if Cached(old(redis.Snapshot()), KeyByEmail(email)).Some? then 0 else 1
      ensures LookupOutcome(old(redis.Snapshot()), redis.Snapshot(), repo.rows, repo.reachable, ByEmail(email), r, fetched)
    {
      r, fetched := Find(ByEmail(email));
    }

    method FindByToken(token: string) returns (r: Result<UserData, GoError>, ghost fetched: Result<UserData, GoError>)
      modifies redis, repo`calls
      ensures repo.calls == old(repo.calls) + if Cached(old(redis.Snapshot()), KeyByToken(token)).Some? then 0 else 1
      ensures LookupOutcome(old(redis.Snapshot()), redis.Snapshot(), repo.rows, repo.reachable, ByToken(token), r, fetched)
    {
      r, fetched := Find(ByToken(token));
    }

    /** `Count` passes through. */
    method Count(filter: UserData -> bool) returns (r: Result<nat, GoError>)
      modifies repo`calls
      ensures repo.calls == old(repo.calls) + 1
      ensures r.Ok? <==> repo.reachable
      ensures r.Ok? ==> r.value == |set id | id in repo.rows && filter(repo.rows[id])|
    {
      r := repo.Count(filter);
    }

    /** `FindAll` passes through. */
    method FindAll(filter: UserData -> bool) returns (r: Result<seq<UserData>, GoError>)
      modifies repo`calls
      ensures repo.calls == old(repo.calls) + 1
      ensures r.Ok? <==> repo.reachable
      ensures r.Ok? ==> forall u :: u in r.value <==> u in repo.rows.Values && filter(u)
    {
      r := repo.FindAll(filter);
    }

    /** `Create` passes through and leaves the cache alone. */
    method Create(u: UserData) returns (err: Option<GoError>)
      requires repo.Valid()
      modifies repo
      ensures repo.Valid() && repo.reachable == old(repo.reachable)
      ensures CreateOutcome(old(repo.rows), old(repo.reachable), u, repo.rows, err)
    {
      err := repo.Create(u);
    }

    /** `Update`: the store first; on success the new user's keys are deleted and Redis's answer is returned. */
    method Update(u: UserData) returns (err: Option<GoError>)
      requires repo.Valid()
      modifies repo, redis
      ensures repo.Valid() && repo.reachable == old(repo.reachable)
      ensures UpdateOutcome(old(repo.rows), old(repo.reachable), old(redis.Snapshot()), u, repo.rows, redis.Snapshot(), err)
    {
      err := repo.Update(u);
      if err.Some? {
        return;
      }
      var keys := [KeyByID(u.id), KeyByEmail(u.email), KeyByUsername(u.username)];
      if u.auth.Some? && u.auth.value.token.Some? {
        keys := keys + [KeyByToken(u.auth.value.token.value)];
      }
      err := redis.Del(keys);
    }

    /** `Delete`: identifier keys only, and only once the store has deleted. */
    method Delete(ids: seq<Uuid>) returns (err: Option<GoError>)
      requires repo.Valid()
      modifies repo, redis
      ensures repo.Valid() && repo.reachable == old(repo.reachable)
      ensures DeleteOutcome(old(repo.rows), old(repo.reachable), old(redis.Snapshot()), ids, repo.rows, redis.Snapshot(), err)
    {
      var keys: seq<string> := [];
      var i := 0;
      while i < |ids|
        invariant 0 <= i <= |ids|
        invariant keys == IdKeys(ids[..i])
      {
        assert IdKeys(ids[..i + 1]) == IdKeys(ids[..i]) + [KeyByID(ids[i])] by {
          IdKeysAppend(ids[..i], ids[i]);
          assert ids[..i + 1] == ids[..i] + [ids[i]];
        }
        keys := keys + [KeyByID(ids[i])];
        i := i + 1;
      }
      assert ids[..|ids|] == ids;
      var e := repo.Delete(ids);
      if e.Some? {
        return e;
      }
      err := redis.Del(keys);
    }
  }

  lemma {:induction false} IdKeysAppend(ids: seq<Uuid>, id: Uuid)
    ensures IdKeys(ids + [id]) == IdKeys(ids) + [KeyByID(id)]
  {
    if |ids| > 0 {
      assert (ids + [id])[1..] == ids[1..] + [id];
      IdKeysAppend(ids[1..], id);
    }
  }
}
