/**
 * The Redis wrapper of backend/internal/adapter/driven/storage/redis/service.go:
 * JSON documents under string keys, each with an optional expiry, on a server
 * that may be unreachable. `State` is the server's state as a value and the
 * functions `Read`, `Write` and `Delete` on it specify the `Service` class's `Get`, `Set` and `Del`.
 */
module Redis {
  import opened Wrappers
  import opened AppError
  import opened RoleEntity
  import opened UserEntity
  import opened LegacyUserEntity

  /** A stored JSON document. */
  datatype Value = UserBlob(user: UserData) | RoleBlob(role: RoleData) | LegacyBlob(legacy: LegacyUser) | Text(text: string)

  /** A stored document with its expiry time, if any. */
  datatype Entry = Entry(value: Value, expiresAt: Option<int>)

  /** The server's contents, its clock, and whether the client can reach it. */
  datatype State = State(entries: map<string, Entry>, clock: int, reachable: bool)

  /** go-redis's `redis.Nil`, the answer for a missing key. */
  const ErrNil: GoError := Plain("redis: nil")
  const ErrUnreachable: GoError := Plain("dial tcp: connection refused")

  /** `time.Hour`, in seconds: the lifetime both backend caches give their entries. */
  const Hour := 3600

  /** A key holds a document that has not expired (Redis expires a key once the clock is past its deadline). */
  predicate Live(v: State, key: string)
  {
    key in v.entries && (v.entries[key].expiresAt.None? || v.clock <= v.entries[key].expiresAt.value)
  }

  /** `GET`. */
  function Read(v: State, key: string): (r: Result<Value, GoError>)
    ensures r.Ok? <==> v.reachable && Live(v, key)
    ensures r.Ok? ==> r.value == v.entries[key].value
  {
    if !v.reachable then Err(ErrUnreachable)
    else if Live(v, key) then Ok(v.entries[key].value)
    else Err(ErrNil)
  }

  /** The expiry `SET` gives: a positive duration counts from now, anything else keeps the key forever. */
  function Deadline(v: State, ttl: int): Option<int>
  {
    if ttl > 0 then Some(v.clock + ttl) else None
  }

  /** `SET key value` with an expiration. */
  function Write(v: State, key: string, value: Value, ttl: int): (r: (State, Option<GoError>))
    ensures r.1.None? <==> v.reachable
    ensures r.1.Some? ==> r.0 == v
    ensures r.1.None? ==> r.0 == v.(entries := v.entries[key := Entry(value, Deadline(v, ttl))])
  {
    if !v.reachable then (v, Some(ErrUnreachable))
    else (v.(entries := v.entries[key := Entry(value, Deadline(v, ttl))]), None)
  }

  /** `Service.Del`: no keys is a no-op that never reaches the server. */
  function Delete(v: State, keys: seq<string>): (r: (State, Option<GoError>))
    ensures |keys| == 0 ==> r == (v, None)
    ensures r.1.Some? <==> |keys| > 0 && !v.reachable
    ensures r.1.Some? ==> r.0 == v
    ensures r.1.None? ==> r.0.entries == v.entries - set k | k in keys
  {
    if |keys| == 0 then (v, None)
    else if !v.reachable then (v, Some(ErrUnreachable))
    else (v.(entries := v.entries - set k | k in keys), None)
  }

  /** The value written is read back until its deadline. */
  lemma GetAfterSet(v: State, key: string, value: Value, ttl: int, elapsed: nat)
    requires v.reachable
    requires ttl <= 0 || elapsed <= ttl
    ensures var w := Write(v, key, value, ttl).0;
      Read(w.(clock := w.clock + elapsed), key) == Ok(value)
  {
  }

  /** After its deadline a key reads as missing. */
  lemma GetAfterExpiry(v: State, key: string, value: Value, ttl: int, elapsed: nat)
    requires v.reachable && ttl > 0 && elapsed > ttl
    ensures var w := Write(v, key, value, ttl).0;
      Read(w.(clock := w.clock + elapsed), key) == Err(ErrNil)
  {
  }

  /** Writing one key leaves every other key's answer alone. */
  lemma SetOtherKey(v: State, key: string, other: string, value: Value, ttl: int)
    requires key != other
    ensures Read(Write(v, key, value, ttl).0, other) == Read(v, other)
  {
  }

  /** A deleted key reads as missing; other keys keep their answers. */
  lemma GetAfterDel(v: State, keys: seq<string>, key: string)
    requires v.reachable
    ensures key in keys ==> Read(Delete(v, keys).0, key) == Err(ErrNil)
    ensures key !in keys ==> Read(Delete(v, keys).0, key) == Read(v, key)
  {
  }

  /** The server as the client sees it. */
  class Service {
    var entries: map<string, Entry>
    var clock: int
    var reachable: bool

    function Snapshot(): State
      reads this
    {
      State(entries, clock, reachable)
    }

    constructor (clock: int)
      ensures Snapshot() == State(map[], clock, true)
    {
      entries := map[];
      this.clock := clock;
      reachable := true;
    }

    /** `Service.Get` before decoding. */
    method Get(key: string) returns (r: Result<Value, GoError>)
      ensures r == Read(Snapshot(), key)
    {
      if !reachable {
        return Err(ErrUnreachable);
      }
      if key in entries && (entries[key].expiresAt.None? || clock <= entries[key].expiresAt.value) {
        return Ok(entries[key].value);
      }
      return Err(ErrNil);
    }

    /** `Service.Set`. */
    method Set(key: string, value: Value, ttl: int) returns (err: Option<GoError>)
      modifies this
      ensures (Snapshot(), err) == Write(old(Snapshot()), key, value, ttl)
    {
      if !reachable {
        return Some(ErrUnreachable);
      }
      entries := entries[key := Entry(value, if ttl > 0 then Some(clock + ttl) else None)];
      return None;
    }

    /** `Service.Del`. */
    method Del(keys: seq<string>) returns (err: Option<GoError>)
      modifies this
      ensures (Snapshot(), err) == Delete(old(Snapshot()), keys)
    {
      if |keys| == 0 {
        return None;
      }
      if !reachable {
        return Some(ErrUnreachable);
      }
      entries := entries - set k | k in keys;
      return None;
    }
  }
}
