/**
 * The read-through role cache of
 * backend/internal/adapter/driven/persistence/postgres/repository/roleRepositoryCached.go:
 * the same scheme as the user cache, with keys `role:id:<id>` and `role:name:<name>`.
 */
module RoleCache {
  import opened Wrappers
  import opened AppError
  import opened Uuid
  import opened RoleEntity
  import opened Redis
  import opened RoleStore

  function KeyByID(id: Uuid): string { "role:id:" + id }
  function KeyByName(name: string): string { "role:name:" + name }

  function Key(l: RoleLookup): string
  {
    match l
    case RoleById(id) => KeyByID(id)
    case RoleByName(n) => KeyByName(n)
  }

  /** The key determines the look-up. */
  lemma KeyInjective(l: RoleLookup, m: RoleLookup)
    requires Key(l) == Key(m)
    ensures l == m
  {
    var k := Key(l);
    match l
    case RoleById(id) =>
      assert k[5] == 'i' && k[8..] == id;
    case RoleByName(n) =>
      assert k[5] == 'n' && k[10..] == n;
  }

  /** The role a key yields: the key is live and decodes into a role. */
  function Cached(s: State, key: string): (r: Option<RoleData>)
    ensures r.Some? <==> s.reachable && Live(s, key) && s.entries[key].value.RoleBlob?
    ensures r.Some? ==> r.value == s.entries[key].value.role
  {
    var g := Read(s, key);
    if g.Ok? && g.value.RoleBlob? then Some(g.value.role) else None
  }

  /** What a miss does with the store's answer, as for users. */
  function AfterFetch(s: State, key: string, fetched: Result<RoleData, GoError>): (r: (State, Result<RoleData, GoError>))
    ensures fetched.Err? ==> r == (s, fetched)
    ensures fetched.Ok? && !s.reachable ==> r == (s, Err(ErrUnreachable))
    ensures fetched.Ok? && s.reachable ==>
      r.1 == fetched && r.0 == s.(entries := s.entries[key := Entry(RoleBlob(fetched.value), Some(s.clock + Hour))])
  {
    if fetched.Err? then (s, fetched)
    else
      var w := Write(s, key, RoleBlob(fetched.value), Hour);
      if w.1.Some? then (w.0, Err(w.1.value)) else (w.0, fetched)
  }

  /** A successful miss makes the next hour's look-ups hits that return the same role. */
  lemma MissPopulates(s: State, key: string, r: RoleData, elapsed: nat)
    requires s.reachable && elapsed <= Hour
    ensures var w := AfterFetch(s, key, Ok(r)).0;
      Cached(w.(clock := w.clock + elapsed), key) == Some(r)
  {
  }

  /** With Redis down every read fails, whatever the store answers. */
  lemma ReadFailsWhenRedisDown(s: State, key: string, fetched: Result<RoleData, GoError>)
    requires !s.reachable
    ensures AfterFetch(s, key, fetched).1.Err? && AfterFetch(s, key, fetched).0 == s
  {
  }

  function IdKeys(ids: seq<Uuid>): (r: seq<string>)
    ensures |r| == |ids|
    ensures forall i :: 0 <= i < |ids| ==> r[i] == KeyByID(ids[i])
  {
    if |ids| == 0 then [] else [KeyByID(ids[0])] + IdKeys(ids[1..])
  }

  lemma {:induction false} IdKeysAppend(ids: seq<Uuid>, id: Uuid)
    ensures IdKeys(ids + [id]) == IdKeys(ids) + [KeyByID(id)]
  {
    if |ids| > 0 {
      assert (ids + [id])[1..] == ids[1..] + [id];
      IdKeysAppend(ids[1..], id);
    }
  }

  /** `Update` empties the role's identifier key and its current name key, and no other. */
  lemma UpdateInvalidates(s: State, r: RoleData, l: RoleLookup)
    requires s.reachable
    ensures var w := Redis.Delete(s, [KeyByID(r.id), KeyByName(r.name)]).0;
      Cached(w, Key(l)) == if l == RoleById(r.id) || l == RoleByName(r.name) then None else Cached(s, Key(l))
  {
    if Key(l) == KeyByID(r.id) {
      KeyInjective(l, RoleById(r.id));
    } else if Key(l) == KeyByName(r.name) {
      KeyInjective(l, RoleByName(r.name));
    }
  }

  /** A role renamed by `Update` is still found under its old name until the hour is up. */
  lemma RenameKeepsOldNameEntry(s: State, r: RoleData, oldName: string)
    requires s.reachable && oldName != r.name
    ensures Cached(Redis.Delete(s, [KeyByID(r.id), KeyByName(r.name)]).0, KeyByName(oldName)) == Cached(s, KeyByName(oldName))
  {
    UpdateInvalidates(s, r, RoleByName(oldName));
  }

  /** `Delete` deletes identifier keys only: name entries of deleted roles stay. */
  lemma DeleteKeepsNameEntries(s: State, ids: seq<Uuid>, name: string)
    requires s.reachable
    ensures Cached(Redis.Delete(s, IdKeys(ids)).0, KeyByName(name)) == Cached(s, KeyByName(name))
  {
    if KeyByName(name) in IdKeys(ids) {
      var i :| 0 <= i < |ids| && IdKeys(ids)[i] == KeyByName(name);
      KeyInjective(RoleByName(name), RoleById(ids[i]));
    }
  }

  /**
   * What a look-up does: a hit returns the cached role and changes nothing; a
   * miss returns what `AfterFetch` makes of the store's answer `fetched`.
   */
  ghost predicate LookupOutcome(before: State, after: State, rows: map<Uuid, RoleData>, reachable: bool,
                                l: RoleLookup, r: Result<RoleData, GoError>, fetched: Result<RoleData, GoError>)
  {
    var hit := Cached(before, Key(l));
    if hit.Some? then r == Ok(hit.value) && after == before
    else RoleAnswer(rows, reachable, l, fetched) && (after, r) == AfterFetch(before, Key(l), fetched)
  }

  /** Some answer of the store makes the look-up come out as observed. */
  ghost predicate Looked(before: State, after: State, rows: map<Uuid, RoleData>, reachable: bool,
                         l: RoleLookup, r: Result<RoleData, GoError>)
  {
    exists fetched :: LookupOutcome(before, after, rows, reachable, l, r, fetched)
  }

  /** With Redis down every role look-up fails and changes nothing. */
  lemma LookupFailsWhenRedisDown(before: State, after: State, rows: map<Uuid, RoleData>, reachable: bool,
                                 l: RoleLookup, r: Result<RoleData, GoError>)
    requires Looked(before, after, rows, reachable, l, r) && !before.reachable
    ensures r.Err? && after == before
  {
    var fetched :| LookupOutcome(before, after, rows, reachable, l, r, fetched);
    ReadFailsWhenRedisDown(before, Key(l), fetched);
  }

  class CachedRoleRepository {
    const repo: RoleTable
    const redis: Service

    constructor (repo: RoleTable, redis: Service)
      ensures this.repo == repo && this.redis == redis
    {
      this.repo := repo;
      this.redis := redis;
    }

    /** The look-up shared by `FindByID` and `FindByName`; `fetched` is the store's answer on a miss. */
    method Find(l: RoleLookup) returns (r: Result<RoleData, GoError>, ghost fetched: Result<RoleData, GoError>)
      modifies redis, repo`calls
      ensures repo.calls == old(repo.calls) + if Cached(old(redis.Snapshot()), Key(l)).Some? then 0 else 1
      ensures LookupOutcome(old(redis.Snapshot()), redis.Snapshot(), repo.rows, repo.reachable, l, r, fetched)
    {
      var key := Key(l);
      var cached := redis.Get(key);
      if cached.Ok? && cached.value.RoleBlob? {
        return Ok(cached.value.role), Ok(cached.value.role);
      }
      r := repo.Find(l);
      fetched := r;
      if r.Err? {
        return;
      }
      var err := redis.Set(key, RoleBlob(r.value), Hour);
      if err.Some? {
        return Err(err.value), fetched;
      }
    }

    method FindByID(id: Uuid) returns (r: Result<RoleData, GoError>, ghost fetched: Result<RoleData, GoError>)
      modifies redis, repo`calls
      ensures repo.calls == old(repo.calls) + if Cached(old(redis.Snapshot()), KeyByID(id)).Some? then 0 else 1
      ensures LookupOutcome(old(redis.Snapshot()), redis.Snapshot(), repo.rows, repo.reachable, RoleById(id), r, fetched)
    {
      r, fetched := Find(RoleById(id));
    }

    method FindByName(name: string) returns (r: Result<RoleData, GoError>, ghost fetched: Result<RoleData, GoError>)
      modifies redis, repo`calls
      ensures repo.calls == old(repo.calls) + if Cached(old(redis.Snapshot()), KeyByName(name)).Some? then 0 else 1
      ensures LookupOutcome(old(redis.Snapshot()), redis.Snapshot(), repo.rows, repo.reachable, RoleByName(name), r, fetched)
    {
      r, fetched := Find(RoleByName(name));
    }

    /** `Count` passes through. */
    method Count(filter: RoleData -> bool) returns (r: Result<nat, GoError>)
      modifies repo`calls
      ensures repo.calls == old(repo.calls) + 1
      ensures r.Ok? <==> repo.reachable
      ensures r.Ok? ==> r.value == |set id | id in repo.rows && filter(repo.rows[id])|
    {
      r := repo.Count(filter);
    }

    /** `FindAll` passes through. */
    method FindAll(filter: RoleData -> bool) returns (r: Result<seq<RoleData>, GoError>)
      modifies repo`calls
      ensures repo.calls == old(repo.calls) + 1
      ensures r.Ok? <==> repo.reachable
      ensures r.Ok? ==> forall x :: x in r.value <==> x in repo.rows.Values && filter(x)
    {
      r := repo.FindAll(filter);
    }

    /** `Create` passes through and leaves the cache alone. */
    method Create(r: RoleData) returns (err: Option<GoError>)
      requires repo.Valid()
      modifies repo
      ensures repo.Valid() && repo.reachable == old(repo.reachable)
      ensures err.None? <==> old(repo.reachable) && r.id !in old(repo.rows) && !NameTaken(old(repo.rows), r)
      ensures repo.rows == if err.None? then old(repo.rows)[r.id := r] else old(repo.rows)
    {
      err := repo.Create(r);
    }

    /** `Update`: the store first; on success the identifier and name keys are deleted. */
    method Update(r: RoleData) returns (err: Option<GoError>)
      requires repo.Valid()
      modifies repo, redis
      ensures repo.Valid() && repo.reachable == old(repo.reachable)
      ensures repo.rows == if old(repo.reachable) && r.id in old(repo.rows) && !NameTaken(old(repo.rows), r)
        then old(repo.rows)[r.id := r] else old(repo.rows)
      ensures !old(repo.reachable) || (r.id in old(repo.rows) && NameTaken(old(repo.rows), r)) ==>
        err.Some? && redis.Snapshot() == old(redis.Snapshot())
      ensures old(repo.reachable) && !(r.id in old(repo.rows) && NameTaken(old(repo.rows), r)) ==>
        (redis.Snapshot(), err) == Redis.Delete(old(redis.Snapshot()), [KeyByID(r.id), KeyByName(r.name)])
    {
      err := repo.Update(r);
      if err.Some? {
        return;
      }
      err := redis.Del([KeyByID(r.id), KeyByName(r.name)]);
    }

    /** `Delete`: identifier keys only, and only once the store has deleted. */
    method Delete(ids: seq<Uuid>) returns (err: Option<GoError>)
      requires repo.Valid()
      modifies repo, redis
      ensures repo.Valid() && repo.reachable == old(repo.reachable)
      ensures var stored := |ids| == 0 || (old(repo.reachable) && exists i :: 0 <= i < |ids| && ids[i] in old(repo.rows));
        (stored ==> repo.rows == old(repo.rows) - (set i | 0 <= i < |ids| :: ids[i])
                    && (redis.Snapshot(), err) == Redis.Delete(old(redis.Snapshot()), IdKeys(ids)))
        && (!stored ==> err.Some? && repo.rows == old(repo.rows) && redis.Snapshot() == old(redis.Snapshot()))
    {
      var keys: seq<string> := [];
      var i := 0;
      while i < |ids|
        invariant 0 <= i <= |ids|
        invariant keys == IdKeys(ids[..i])
      {
        assert IdKeys(ids[..i + 1]) == IdKeys(ids[..i]) + [KeyByID(ids[i])] by {
          IdKeysAppend(ids[..i], ids[i]);
          assert ids[..i + 1] == ids[..i] + [ids[i]];
        }
        keys := keys + [KeyByID(ids[i])];
        i := i + 1;
      }
      assert ids[..|ids|] == ids;
      var e := repo.Delete(ids);
      if e.Some? {
        return e;
      }
      err := redis.Del(keys);
    }
  }
}
