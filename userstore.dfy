/**
 * The database behind the user cache decorator, reduced to what the decorator
 * relies on (backend/internal/adapter/driven/persistence/postgres/repository/userRepository.go):
 * rows keyed by identifier, look-ups by identifier or by a case-insensitive
 * (`citext`) username, e-mail or credential token, and a database that may be
 * unreachable. A ghost counter records how often the decorator reached it.
 */
module UserStore {
  import opened Wrappers
  import opened Text
  import opened AppError
  import opened Uuid
  import opened AuthEntity
  import opened UserEntity

  /** The four ways the decorator looks a user up. */
  datatype Lookup = ById(id: Uuid) | ByUsername(username: string) | ByEmail(email: string) | ByToken(token: string)

  /** Equality of `citext` columns, on ASCII letters. */
  predicate FoldEq(a: string, b: string)
  {
    ToLower(a) == ToLower(b)
  }

  predicate Matches(l: Lookup, u: UserData)
  {
    match l
    case ById(id) => u.id == id
    case ByUsername(n) => FoldEq(u.username, n)
    case ByEmail(e) => FoldEq(u.email, e)
    case ByToken(t) => u.auth.Some? && u.auth.value.token.Some? && FoldEq(u.auth.value.token.value, t)
  }

  const ErrRecordNotFound: GoError := Plain("record not found")
  const ErrDatabase: GoError := Plain("failed to connect to the database")
  const ErrDuplicateKey: GoError := Plain("duplicate key value violates unique constraint")

  predicate Found(rows: map<Uuid, UserData>, l: Lookup)
  {
    exists id :: id in rows && Matches(l, rows[id])
  }

  /** The answers the database may give to a look-up. */
  predicate Answer(rows: map<Uuid, UserData>, reachable: bool, l: Lookup, r: Result<UserData, GoError>)
  {
    if !reachable then r == Err(ErrDatabase)
    else if Found(rows, l) then r.Ok? && r.value in rows.Values && Matches(l, r.value)
    else r == Err(ErrRecordNotFound)
  }

  /** Another row already holds this credential token (the token column is unique). */
  predicate TokenTaken(rows: map<Uuid, UserData>, u: UserData)
  {
    u.auth.Some? && u.auth.value.token.Some?
    && exists id :: id in rows && id != u.id && Matches(ByToken(u.auth.value.token.value), rows[id])
  }

  /** Every row sits under its own identifier. */
  predicate Keyed(rows: map<Uuid, UserData>)
  {
    forall id :: id in rows ==> rows[id].id == id
  }

  /** By identifier there is only one answer. */
  lemma AnswerById(rows: map<Uuid, UserData>, id: Uuid, r: Result<UserData, GoError>)
    requires Keyed(rows) && id in rows
    requires Answer(rows, true, ById(id), r)
    ensures r == Ok(rows[id])
  {
  }

  class UserTable {
    var rows: map<Uuid, UserData>
    var reachable: bool
    ghost var calls: nat

    predicate Valid()
      reads this
    {
      Keyed(rows)
    }

    constructor ()
      ensures Valid() && rows == map[] && reachable && calls == 0
    {
      rows := map[];
      reachable := true;
      calls := 0;
    }

    /** `FindByID`, `FindByUsername`, `FindByEmail` and `FindByToken`. */
    method Find(l: Lookup) returns (r: Result<UserData, GoError>)
      modifies `calls
      ensures calls == old(calls) + 1
      ensures Answer(rows, reachable, l, r)
    {
      calls := calls + 1;
      if !reachable {
        return Err(ErrDatabase);
      }
      if exists id :: id in rows && Matches(l, rows[id]) {
        var id :| id in rows && Matches(l, rows[id]);
        return Ok(rows[id]);
      }
      return Err(ErrRecordNotFound);
    }

    /** `Create`: refuses a taken identifier or token. */
    method Create(u: UserData) returns (err: Option<GoError>)
      requires Valid()
      modifies this
      ensures Valid() && reachable == old(reachable) && calls == old(calls) + 1
      ensures err == if !old(reachable) then Some(ErrDatabase)
        else if u.id in old(rows) || TokenTaken(old(rows), u) then Some(ErrDuplicateKey) else None
      ensures rows == if err.None? then old(rows)[u.id := u] else old(rows)
    {
      calls := calls + 1;
      if !reachable {
        return Some(ErrDatabase);
      }
      if u.id in rows || TokenTaken(rows, u) {
        return Some(ErrDuplicateKey);
      }
      rows := rows[u.id := u];
      return None;
    }

    /**
     * `Update`: rewrites the row of that identifier, if there is one. The
     * updates match no row for an absent identifier, so only a present row
     * can clash with another row's token.
     */
    method Update(u: UserData) returns (err: Option<GoError>)
      requires Valid()
      modifies this
      ensures Valid() && reachable == old(reachable) && calls == old(calls) + 1
      ensures err == if !old(reachable) then Some(ErrDatabase)
        else if u.id in old(rows) && TokenTaken(old(rows), u) then Some(ErrDuplicateKey) else None
      ensures rows == if err.None? && u.id in old(rows) then old(rows)[u.id := u] else old(rows)
    {
      calls := calls + 1;
      if !reachable {
        return Some(ErrDatabase);
      }
      if u.id in rows {
        if TokenTaken(rows, u) {
          return Some(ErrDuplicateKey);
        }
        rows := rows[u.id := u];
      }
      return None;
    }

    /** `Delete`: nothing to do for no identifiers; an error when none of them exists. */
    method Delete(ids: seq<Uuid>) returns (err: Option<GoError>)
      requires Valid()
      modifies this
      ensures Valid() && reachable == old(reachable) && calls == old(calls) + 1
      ensures err == if |ids| == 0 then None
        else if !old(reachable) then Some(ErrDatabase)
        else if !exists i :: 0 <= i < |ids| && ids[i] in old(rows) then Some(ErrRecordNotFound) else None
      ensures rows == if err.None? then old(rows) - set i | 0 <= i < |ids| :: ids[i] else old(rows)
    {
      calls := calls + 1;
      if |ids| == 0 {
        return None;
      }
      if !reachable {
        return Some(ErrDatabase);
      }
      if !(exists i :: 0 <= i < |ids| && ids[i] in rows) {
        return Some(ErrRecordNotFound);
      }
      rows := rows - set i | 0 <= i < |ids| :: ids[i];
      return None;
    }

    /** `Count` under a filter the model leaves abstract. */
    method Count(filter: UserData -> bool) returns (r: Result<nat, GoError>)
      modifies `calls
      ensures calls == old(calls) + 1
      ensures r.Ok? <==> reachable
      ensures r.Ok? ==> r.value == |set id | id in rows && filter(rows[id])|
    {
      calls := calls + 1;
      if !reachable {
        return Err(ErrDatabase);
      }
      return Ok(|set id | id in rows && filter(rows[id])|);
    }

    /** `FindAll` under a filter the model leaves abstract, in no particular order. */
    method FindAll(filter: UserData -> bool) returns (r: Result<seq<UserData>, GoError>)
      modifies `calls
      ensures calls == old(calls) + 1
      ensures r.Ok? <==> reachable
      ensures r.Ok? ==> forall u :: u in r.value <==> u in rows.Values && filter(u)
    {
      calls := calls + 1;
      if !reachable {
        return Err(ErrDatabase);
      }
      var left := rows.Keys;
      var found: seq<UserData> := [];
      while left != {}
        invariant left <= rows.Keys
        invariant forall u :: u in found <==> exists id :: id in rows.Keys - left && rows[id] == u && filter(u)
        decreases left
      {
        var id :| id in left;
        if filter(rows[id]) {
          found := found + [rows[id]];
        }
        left := left - {id};
      }
      return Ok(found);
    }
  }
}
