/**
 * The earlier read-through user cache
 * (internal/adapter/driven/persistence/postgres/repository/userRepositoryCached.go).
 * Unlike its successor it caches for ten minutes, writes the cache from a
 * background goroutine whose errors are dropped, and never reports a cache
 * failure: invalidation errors are swallowed too. The goroutine's write is
 * modelled as a queue of pending writes that `CompleteWrite` performs later,
 * so that an invalidation can run between a read and its cache write.
 */
module LegacyCache {
  import opened Wrappers
  import opened Text
  import opened AppError
  import opened LegacyUserEntity
  import opened Redis
  import UserStore

  /** `userCacheTTL`: ten minutes, in seconds. */
  const CacheTtl := 600

  datatype LegacyLookup = LById(id: nat) | LByEmail(email: string) | LByUsername(username: string) | LByToken(token: string)

  function KeyByID(id: nat): string { "user:id:" + Decimal(id) }
  function KeyByEmail(email: string): string { "user:email:" + email }
  function KeyByUsername(username: string): string { "user:username:" + username }
  function KeyByToken(token: string): string { "user:token:" + token }

  function Key(l: LegacyLookup): string
  {
    match l
    case LById(id) => KeyByID(id)
    case LByEmail(e) => KeyByEmail(e)
    case LByUsername(n) => KeyByUsername(n)
    case LByToken(t) => KeyByToken(t)
  }

  /** The key determines the look-up; identifier keys are decimal numbers. */
  lemma KeyInjective(l: LegacyLookup, m: LegacyLookup)
    requires Key(l) == Key(m)
    ensures l == m
  {
    var k := Key(l);
    match l
    case LById(id) =>
      assert k[5] == 'i' && k[8..] == Decimal(id);
      if m.LById? {
        assert Key(m)[8..] == Decimal(m.id);
        DecimalInjective(id, m.id);
      }
    case LByEmail(e) =>
      assert k[5] == 'e' && k[11..] == e;
    case LByUsername(n) =>
      assert k[5] == 'u' && k[14..] == n;
    case LByToken(t) =>
      assert k[5] == 't' && k[11..] == t;
  }

  predicate LegacyMatches(l: LegacyLookup, u: LegacyUser)
  {
    match l
    case LById(id) => u.id == id
    case LByEmail(e) => u.email == e
    case LByUsername(n) => u.username == n
    case LByToken(t) => u.token == Some(t)
  }

  predicate LegacyAnswer(rows: map<nat, LegacyUser>, reachable: bool, l: LegacyLookup, r: Result<LegacyUser, GoError>)
  {
    if !reachable then r == Err(UserStore.ErrDatabase)
    else if exists id :: id in rows && LegacyMatches(l, rows[id]) then r.Ok? && r.value in rows.Values && LegacyMatches(l, r.value)
    else r == Err(UserStore.ErrRecordNotFound)
  }

  /** The user a key yields: the key is live and decodes. */
  function Cached(s: State, key: string): (r: Option<LegacyUser>)
    ensures r.Some? <==> s.reachable && Live(s, key) && s.entries[key].value.LegacyBlob?
    ensures r.Some? ==> r.value == s.entries[key].value.legacy
  {
    var g := Read(s, key);
    if g.Ok? && g.value.LegacyBlob? then Some(g.value.legacy) else None
  }

  /** The keys `Update` deletes. */
  function UpdateKeys(u: LegacyUser): (r: seq<string>)
    ensures |r| == if u.token.Some? then 4 else 3
    ensures forall l :: Key(l) in r <==>
      l == LById(u.id) || l == LByEmail(u.email) || l == LByUsername(u.username) || (u.token.Some? && l == LByToken(u.token.value))
  {
    var keys := [KeyByID(u.id), KeyByEmail(u.email), KeyByUsername(u.username)]
      + (if u.token.Some? then [KeyByToken(u.token.value)] else []);
    assert forall l :: Key(l) in keys ==>
      l == LById(u.id) || l == LByEmail(u.email) || l == LByUsername(u.username) || (u.token.Some? && l == LByToken(u.token.value)) by {
      forall l | Key(l) in keys
        ensures l == LById(u.id) || l == LByEmail(u.email) || l == LByUsername(u.username) || (u.token.Some? && l == LByToken(u.token.value))
      {
        if Key(l) == KeyByID(u.id) { KeyInjective(l, LById(u.id)); }
        else if Key(l) == KeyByEmail(u.email) { KeyInjective(l, LByEmail(u.email)); }
        else if Key(l) == KeyByUsername(u.username) { KeyInjective(l, LByUsername(u.username)); }
        else { KeyInjective(l, LByToken(u.token.value)); }
      }
    }
    keys
  }

  function IdKeys(ids: seq<nat>): (r: seq<string>)
    ensures |r| == |ids|
    ensures forall i :: 0 <= i < |ids| ==> r[i] == KeyByID(ids[i])
  {
    if |ids| == 0 then [] else [KeyByID(ids[0])] + IdKeys(ids[1..])
  }

  lemma {:induction false} IdKeysAppend(ids: seq<nat>, id: nat)
    ensures IdKeys(ids + [id]) == IdKeys(ids) + [KeyByID(id)]
  {
    if |ids| > 0 {
      assert (ids + [id])[1..] == ids[1..] + [id];
      IdKeysAppend(ids[1..], id);
    }
  }

  /**
   * The race the background write opens: a read misses and fetches the old
   * record, `Update` then deletes the key, and the read's cache write lands
   * afterwards, so the old record is served for another ten minutes.
   */
  lemma StaleRecacheAfterInvalidation(s: State, before: LegacyUser, after: LegacyUser, elapsed: nat)
    requires s.reachable && before != after && before.id == after.id && elapsed <= CacheTtl
    ensures var invalidated := Redis.Delete(s, UpdateKeys(after)).0;
      Cached(invalidated, KeyByID(after.id)).None?
    ensures var invalidated := Redis.Delete(s, UpdateKeys(after)).0;
      var late := Write(invalidated, KeyByID(before.id), LegacyBlob(before), CacheTtl).0;
      Cached(late.(clock := late.clock + elapsed), KeyByID(after.id)) == Some(before)
  {
    assert Key(LById(after.id)) in UpdateKeys(after);
  }

  /**
   * Why the earlier repository's `Delete` refuses: the database error, or
   * not-found when no identifier has a row. An empty list finds no row, since
   * GORM renders it as `IN (NULL)`.
   */
  function DeleteRefusal(rows: map<nat, LegacyUser>, reachable: bool, ids: seq<nat>): Option<GoError>
  {
    if !reachable then Some(UserStore.ErrDatabase)
    else if !exists i :: 0 <= i < |ids| && ids[i] in rows then Some(UserStore.ErrRecordNotFound)
    else None
  }

  /** Another row already holds this credential token (`usr_auth.token` is unique). */
  predicate LegacyTokenTaken(rows: map<nat, LegacyUser>, u: LegacyUser)
  {
    u.token.Some? && exists id :: id in rows && id != u.id && rows[id].token == u.token
  }

  /** The delegate: the earlier GORM user repository, reduced to its rows. */
  class LegacyUserTable {
    var rows: map<nat, LegacyUser>
    var reachable: bool
    ghost var calls: nat

    constructor ()
      ensures rows == map[] && reachable && calls == 0
    {
      rows := map[];
      reachable := true;
      calls := 0;
    }

    method Find(l: LegacyLookup) returns (r: Result<LegacyUser, GoError>)
      modifies `calls
      ensures calls == old(calls) + 1
      ensures LegacyAnswer(rows, reachable, l, r)
    {
      calls := calls + 1;
      if !reachable {
        return Err(UserStore.ErrDatabase);
      }
      if exists id :: id in rows && LegacyMatches(l, rows[id]) {
        var id :| id in rows && LegacyMatches(l, rows[id]);
        return Ok(rows[id]);
      }
      return Err(UserStore.ErrRecordNotFound);
    }

    /** `Create`: the user and its credential are inserted together, so a taken identifier or token is refused. */
    method Create(u: LegacyUser) returns (err: Option<GoError>)
      modifies this
      ensures reachable == old(reachable) && calls == old(calls) + 1
      ensures err == if !old(reachable) then Some(UserStore.ErrDatabase)
        else if u.id in old(rows) || LegacyTokenTaken(old(rows), u) then Some(UserStore.ErrDuplicateKey) else None
      ensures rows == if err.None? then old(rows)[u.id := u] else old(rows)
    {
      calls := calls + 1;
      if !reachable {
        return Some(UserStore.ErrDatabase);
      }
      if u.id in rows || LegacyTokenTaken(rows, u) {
        return Some(UserStore.ErrDuplicateKey);
      }
      rows := rows[u.id := u];
      return None;
    }

    /**
     * `Update`: the credential and user columns of a present row are
     * rewritten, and writing another row's token is refused; an absent
     * identifier matches no row and changes nothing.
     */
    method Update(u: LegacyUser) returns (err: Option<GoError>)
      modifies this
      ensures reachable == old(reachable) && calls == old(calls) + 1
      ensures err == if !old(reachable) then Some(UserStore.ErrDatabase)
        else if u.id in old(rows) && LegacyTokenTaken(old(rows), u) then Some(UserStore.ErrDuplicateKey) else None
      ensures rows == if err.None? && u.id in old(rows) then old(rows)[u.id := u] else old(rows)
    {
      calls := calls + 1;
      if !reachable {
        return Some(UserStore.ErrDatabase);
      }
      if u.id in rows {
        if LegacyTokenTaken(rows, u) {
          return Some(UserStore.ErrDuplicateKey);
        }
        rows := rows[u.id := u];
      }
      return None;
    }

    /**
     * `Delete`: the identifiers are looked up first; when none of them has a
     * row the answer is not-found and nothing is deleted.
     */
    method Delete(ids: seq<nat>) returns (err: Option<GoError>)
      modifies this
      ensures reachable == old(reachable) && calls == old(calls) + 1
      ensures err == DeleteRefusal(old(rows), old(reachable), ids)
      ensures rows == if err.None? then old(rows) - set i | 0 <= i < |ids| :: ids[i] else old(rows)
    {
      calls := calls + 1;
      if !reachable {
        return Some(UserStore.ErrDatabase);
      }
      if !(exists i :: 0 <= i < |ids| && ids[i] in rows) {
        return Some(UserStore.ErrRecordNotFound);
      }
      rows := rows - set i | 0 <= i < |ids| :: ids[i];
      return None;
    }
  }

  /** A cache write a read has started in the background and that has not run yet. */
  datatype PendingWrite = PendingWrite(key: string, user: LegacyUser)

  class LegacyCachedUserRepository {
    const delegate: LegacyUserTable
    const redis: Service
    /** The background writes not yet performed, oldest first. */
    var pending: seq<PendingWrite>

    constructor (delegate: LegacyUserTable, redis: Service)
      ensures this.delegate == delegate && this.redis == redis && pending == []
    {
      this.delegate := delegate;
      this.redis := redis;
      pending := [];
    }

    /**
     * `getCached`: a hit that decodes is returned without the delegate; on a
     * miss the delegate's answer is returned, and a success queues its cache
     * write. A cache read error is a miss, so reads never fail because of Redis.
     */
    method GetCached(l: LegacyLookup) returns (r: Result<LegacyUser, GoError>)
      modifies this`pending, delegate`calls
      ensures redis.Snapshot() == old(redis.Snapshot())
      ensures var hit := Cached(redis.Snapshot(), Key(l));
        if hit.Some? then
          r == Ok(hit.value) && pending == old(pending) && delegate.calls == old(delegate.calls)
        else
          delegate.calls == old(delegate.calls) + 1 && LegacyAnswer(delegate.rows, delegate.reachable, l, r)
          && pending == old(pending) + (if r.Ok? then [PendingWrite(Key(l), r.value)] else [])
    {
      var key := Key(l);
      var cached := redis.Get(key);
      if cached.Ok? && cached.value.LegacyBlob? {
        return Ok(cached.value.legacy);
      }
      r := delegate.Find(l);
      if r.Err? {
        return;
      }
      pending := pending + [PendingWrite(key, r.value)];
    }

    /** The oldest background write runs; its error is dropped. */
    method CompleteWrite()
      requires |pending| > 0
      modifies this`pending, redis
      ensures pending == old(pending[1..])
      ensures redis.Snapshot() == Write(old(redis.Snapshot()), old(pending[0].key), LegacyBlob(old(pending[0].user)), CacheTtl).0
    {
      var w := pending[0];
      pending := pending[1..];
      var _ := redis.Set(w.key, LegacyBlob(w.user), CacheTtl);
    }

    method FindByID(id: nat) returns (r: Result<LegacyUser, GoError>)
      modifies this`pending, delegate`calls
      ensures redis.Snapshot() == old(redis.Snapshot())
      ensures var hit := Cached(redis.Snapshot(), KeyByID(id));
        if hit.Some? then
          r == Ok(hit.value) && pending == old(pending) && delegate.calls == old(delegate.calls)
        else
          delegate.calls == old(delegate.calls) + 1 && LegacyAnswer(delegate.rows, delegate.reachable, LById(id), r)
          && pending == old(pending) + (if r.Ok? then [PendingWrite(KeyByID(id), r.value)] else [])
    {
      r := GetCached(LById(id));
    }

    method FindByEmail(email: string) returns (r: Result<LegacyUser, GoError>)
      modifies this`pending, delegate`calls
      ensures redis.Snapshot() == old(redis.Snapshot())
      ensures var hit := Cached(redis.Snapshot(), KeyByEmail(email));
        if hit.Some? then
          r == Ok(hit.value) && pending == old(pending) && delegate.calls == old(delegate.calls)
        else
          delegate.calls == old(delegate.calls) + 1 && LegacyAnswer(delegate.rows, delegate.reachable, LByEmail(email), r)
          && pending == old(pending) + (if r.Ok? then [PendingWrite(KeyByEmail(email), r.value)] else [])
    {
      r := GetCached(LByEmail(email));
    }

    method FindByUsername(username: string) returns (r: Result<LegacyUser, GoError>)
      modifies this`pending, delegate`calls
      ensures redis.Snapshot() == old(redis.Snapshot())
      ensures var hit := Cached(redis.Snapshot(), KeyByUsername(username));
        if hit.Some? then
          r == Ok(hit.value) && pending == old(pending) && delegate.calls == old(delegate.calls)
        else
          delegate.calls == old(delegate.calls) + 1 && LegacyAnswer(delegate.rows, delegate.reachable, LByUsername(username), r)
          && pending == old(pending) + (if r.Ok? then [PendingWrite(KeyByUsername(username), r.value)] else [])
    {
      r := GetCached(LByUsername(username));
    }

    method FindByToken(token: string) returns (r: Result<LegacyUser, GoError>)
      modifies this`pending, delegate`calls
      ensures redis.Snapshot() == old(redis.Snapshot())
      ensures var hit := Cached(redis.Snapshot(), KeyByToken(token));
        if hit.Some? then
          r == Ok(hit.value) && pending == old(pending) && delegate.calls == old(delegate.calls)
        else
          delegate.calls == old(delegate.calls) + 1 && LegacyAnswer(delegate.rows, delegate.reachable, LByToken(token), r)
          && pending == old(pending) + (if r.Ok? then [PendingWrite(KeyByToken(token), r.value)] else [])
    {
      r := GetCached(LByToken(token));
    }

    /** `Create` passes through. */
    method Create(u: LegacyUser) returns (err: Option<GoError>)
      modifies delegate
      ensures err.None? <==> old(delegate.reachable) && u.id !in old(delegate.rows) && !LegacyTokenTaken(old(delegate.rows), u)
      ensures delegate.reachable == old(delegate.reachable)
      ensures delegate.rows == if err.None? then old(delegate.rows)[u.id := u] else old(delegate.rows)
    {
      err := delegate.Create(u);
    }

    /** `Update`: the delegate's error is returned unchanged; otherwise the user's keys are deleted, errors dropped, and the result is nil. */
    method Update(u: LegacyUser) returns (err: Option<GoError>)
      modifies delegate, redis
      ensures delegate.reachable == old(delegate.reachable)
      ensures var refused := !old(delegate.reachable) || (u.id in old(delegate.rows) && LegacyTokenTaken(old(delegate.rows), u));
        delegate.rows == (if !refused && u.id in old(delegate.rows) then old(delegate.rows)[u.id := u] else old(delegate.rows))
        && (refused ==> err.Some? && redis.Snapshot() == old(redis.Snapshot()))
        && (!refused ==> err.None? && redis.Snapshot() == Redis.Delete(old(redis.Snapshot()), UpdateKeys(u)).0)
    {
      err := delegate.Update(u);
      if err.Some? {
        return;
      }
      var keys := [KeyByID(u.id), KeyByEmail(u.email), KeyByUsername(u.username)];
      if u.token.Some? {
        keys := keys + [KeyByToken(u.token.value)];
      }
      var _ := redis.Del(keys);
    }

    /**
     * `Delete`: the delegate's refusal is returned with the cache untouched;
     * once it deletes, the identifier keys only are deleted, errors dropped.
     */
    method Delete(ids: seq<nat>) returns (err: Option<GoError>)
      modifies delegate, redis
      ensures delegate.reachable == old(delegate.reachable)
      ensures err == DeleteRefusal(old(delegate.rows), old(delegate.reachable), ids)
      ensures delegate.rows == if err.None? then old(delegate.rows) - (set i | 0 <= i < |ids| :: ids[i]) else old(delegate.rows)
      ensures err.Some? ==> redis.Snapshot() == old(redis.Snapshot())
      ensures err.None? ==> redis.Snapshot() == Redis.Delete(old(redis.Snapshot()), IdKeys(ids)).0
    {
      err := delegate.Delete(ids);
      if err.Some? {
        return;
      }
      var keys: seq<string> := [];
      var i := 0;
      while i < |ids|
        invariant 0 <= i <= |ids|
        invariant keys == IdKeys(ids[..i])
      {
        assert IdKeys(ids[..i + 1]) == IdKeys(ids[..i]) + [KeyByID(ids[i])] by {
          IdKeysAppend(ids[..i], ids[i]);
          assert ids[..i + 1] == ids[..i] + [ids[i]];
        }
        keys := keys + [KeyByID(ids[i])];
        i := i + 1;
      }
      assert ids[..|ids|] == ids;
      if |keys| > 0 {
        var _ := redis.Del(keys);
      }
    }
  }
}
