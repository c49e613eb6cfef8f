/**
 * The database behind the role cache decorator
 * (backend/internal/adapter/driven/persistence/postgres/repository/roleRepository.go):
 * rows keyed by identifier, look-ups by identifier or by `citext` name (the
 * name column is unique), and a database that may be unreachable.
 */
module RoleStore {
  import opened Wrappers
  import opened Text
  import opened AppError
  import opened Uuid
  import opened RoleEntity
  import UserStore

  datatype RoleLookup = RoleById(id: Uuid) | RoleByName(name: string)

  predicate RoleMatches(l: RoleLookup, r: RoleData)
  {
    match l
    case RoleById(id) => r.id == id
    case RoleByName(n) => UserStore.FoldEq(r.name, n)
  }

  predicate RoleFound(rows: map<Uuid, RoleData>, l: RoleLookup)
  {
    exists id :: id in rows && RoleMatches(l, rows[id])
  }

  /** The answers the database may give to a look-up. */
  predicate RoleAnswer(rows: map<Uuid, RoleData>, reachable: bool, l: RoleLookup, r: Result<RoleData, GoError>)
  {
    if !reachable then r == Err(UserStore.ErrDatabase)
    else if RoleFound(rows, l) then r.Ok? && r.value in rows.Values && RoleMatches(l, r.value)
    else r == Err(UserStore.ErrRecordNotFound)
  }

  /** Another row already holds this name, up to case. */
  predicate NameTaken(rows: map<Uuid, RoleData>, r: RoleData)
  {
    exists id :: id in rows && id != r.id && RoleMatches(RoleByName(r.name), rows[id])
  }

  predicate RolesKeyed(rows: map<Uuid, RoleData>)
  {
    forall id :: id in rows ==> rows[id].id == id
  }

  class RoleTable {
    var rows: map<Uuid, RoleData>
    var reachable: bool
    ghost var calls: nat

    predicate Valid()
      reads this
    {
      RolesKeyed(rows)
    }

    constructor ()
      ensures Valid() && rows == map[] && reachable && calls == 0
    {
      rows := map[];
      reachable := true;
      calls := 0;
    }

    /** `FindByID` and `FindByName`. */
    method Find(l: RoleLookup) returns (r: Result<RoleData, GoError>)
      modifies `calls
      ensures calls == old(calls) + 1
      ensures RoleAnswer(rows, reachable, l, r)
    {
      calls := calls + 1;
      if !reachable {
        return Err(UserStore.ErrDatabase);
      }
      if exists id :: id in rows && RoleMatches(l, rows[id]) {
        var id :| id in rows && RoleMatches(l, rows[id]);
        return Ok(rows[id]);
      }
      return Err(UserStore.ErrRecordNotFound);
    }

    /** `Create`: refuses a taken identifier or name. */
    method Create(r: RoleData) returns (err: Option<GoError>)
      requires Valid()
      modifies this
      ensures Valid() && reachable == old(reachable) && calls == old(calls) + 1
      ensures err.None? <==> old(reachable) && r.id !in old(rows) && !NameTaken(old(rows), r)
      ensures rows == if err.None? then old(rows)[r.id := r] else old(rows)
    {
      calls := calls + 1;
      if !reachable {
        return Some(UserStore.ErrDatabase);
      }
      if r.id in rows || NameTaken(rows, r) {
        return Some(UserStore.ErrDuplicateKey);
      }
      rows := rows[r.id := r];
      return None;
    }

    /**
     * `Update`: rewrites the row of that identifier, if there is one. The
     * `UPDATE … WHERE id` matches no row for an absent identifier, so only a
     * present row can clash with another row's name.
     */
    method Update(r: RoleData) returns (err: Option<GoError>)
      requires Valid()
      modifies this
      ensures Valid() && reachable == old(reachable) && calls == old(calls) + 1
      ensures err == if !old(reachable) then Some(UserStore.ErrDatabase)
        else if r.id in old(rows) && NameTaken(old(rows), r) then Some(UserStore.ErrDuplicateKey) else None
      ensures rows == if err.None? && r.id in old(rows) then old(rows)[r.id := r] else old(rows)
    {
      calls := calls + 1;
      if !reachable {
        return Some(UserStore.ErrDatabase);
      }
      if r.id in rows {
        if NameTaken(rows, r) {
          return Some(UserStore.ErrDuplicateKey);
        }
        rows := rows[r.id := r];
      }
      return None;
    }

    /** `Delete`: nothing to do for no identifiers; an error when no row was affected. */
    method Delete(ids: seq<Uuid>) returns (err: Option<GoError>)
      requires Valid()
      modifies this
      ensures Valid() && reachable == old(reachable) && calls == old(calls) + 1
      ensures |ids| == 0 ==> err.None?
      ensures |ids| > 0 ==>
        (err.None? <==> old(reachable) && exists i :: 0 <= i < |ids| && ids[i] in old(rows))
      ensures rows == if err.None? then old(rows) - set i | 0 <= i < |ids| :: ids[i] else old(rows)
    {
      calls := calls + 1;
      if |ids| == 0 {
        return None;
      }
      if !reachable {
        return Some(UserStore.ErrDatabase);
      }
      if !(exists i :: 0 <= i < |ids| && ids[i] in rows) {
        return Some(UserStore.ErrRecordNotFound);
      }
      rows := rows - set i | 0 <= i < |ids| :: ids[i];
      return None;
    }

    method Count(filter: RoleData -> bool) returns (r: Result<nat, GoError>)
      modifies `calls
      ensures calls == old(calls) + 1
      ensures r.Ok? <==> reachable
      ensures r.Ok? ==> r.value == |set id | id in rows && filter(rows[id])|
    {
      calls := calls + 1;
      if !reachable {
        return Err(UserStore.ErrDatabase);
      }
      return Ok(|set id | id in rows && filter(rows[id])|);
    }

    method FindAll(filter: RoleData -> bool) returns (r: Result<seq<RoleData>, GoError>)
      modifies `calls
      ensures calls == old(calls) + 1
      ensures r.Ok? <==> reachable
      ensures r.Ok? ==> forall x :: x in r.value <==> x in rows.Values && filter(x)
    {
      calls := calls + 1;
      if !reachable {
        return Err(UserStore.ErrDatabase);
      }
      var left := rows.Keys;
      var found: seq<RoleData> := [];
      while left != {}
        invariant left <= rows.Keys
        invariant forall x :: x in found <==> exists id :: id in rows.Keys - left && rows[id] == x && filter(x)
        decreases left
      {
        var id :| id in left;
        if filter(rows[id]) {
          found := found + [rows[id]];
        }
        left := left - {id};
      }
      return Ok(found);
    }
  }
}
