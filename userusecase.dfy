/**
 * The user use case of backend/internal/core/usecase/user/userUsecase.go:
 * creating, updating and deleting users and the two password flows, over the
 * cached user and role repositories. Both repositories are decorated with the
 * same Redis service, as backend/internal/di/container.go wires them.
 */
module UserUseCase {
  import opened Wrappers
  import opened Text
  import opened Validator
  import opened AppError
  import opened Uuid
  import opened RoleEntity
  import opened AuthEntity
  import opened UserEntity
  import opened Redis
  import opened UserStore
  import opened RoleStore
  import UserCache
  import RoleCache
  import DtoInput
  import AuthUseCase

  /** The backend's `dto.UserInput`: every field optional, and the role identifiers as text. */
  datatype UserInput = UserInput(
    name: Option<string>,
    username: Option<string>,
    email: Option<string>,
    status: Option<bool>,
    roleIDs: Option<seq<string>>)

  /** `input.Validate()`: the field checks of a user request. */
  function ValidateInput(input: UserInput): Option<Error>
  {
    DtoInput.CheckUserFields(input.name, input.username, input.email)
  }

  function ErrInvalidId(): Error { InvalidInput("id", "invalid uuid format") }
  function ErrInvalidIds(): Error { InvalidInput("ids", "invalid uuid format") }
  function ErrRoleIdFormat(): Error { InvalidInput("role_ids", "invalid role id format") }
  function ErrRoleMissing(): Error { InvalidInput("role_ids", "role not found") }
  function ErrEmailExists(): Error { Conflict("email", "email already exists") }
  function ErrUsernameExists(): Error { Conflict("username", "username already exists") }

  /** A repository failure as the use case reports it: an internal error carrying the cause. */
  function InternalOf(err: GoError): GoError
  {
    App(Internal(ErrorString(err), Some(err)))
  }

  /** `utils.Deref`: the pointed-to value, or the fallback for nil. */
  function Deref<T>(p: Option<T>, fallback: T): T
  {
    if p.Some? then p.value else fallback
  }

  /** Every identifier parsed, or `None` when one of them is malformed. */
  function ParseAll(ids: seq<string>): (r: Option<seq<Uuid>>)
    ensures r.Some? <==> forall i :: 0 <= i < |ids| ==> Parse(ids[i]).Some?
    ensures r.Some? ==> |r.value| == |ids| && forall i :: 0 <= i < |ids| ==> r.value[i] == Parse(ids[i]).value
  {
    if ids == [] then Some([])
    else
      var head := Parse(ids[0]);
      var tail := ParseAll(ids[1..]);
      if head.None? then None
      else if tail.None? then
        assert exists i :: 1 <= i < |ids| && Parse(ids[i]).None? by {
          var j :| 0 <= j < |ids[1..]| && Parse(ids[1..][j]).None?;
          assert Parse(ids[j + 1]).None?;
        }
        None
      else Some([head.value] + tail.value)
  }

  /** Some role in `held` has this identifier. */
  predicate HoldsId(held: seq<RoleData>, id: Uuid)
  {
    exists j :: 0 <= j < |held| && held[j].id == id
  }

  /** The roles a user holds after `AddRole` of each of `rs` in turn, starting from none. */
  function AddedRoles(rs: seq<RoleData>): (r: seq<RoleData>)
    ensures forall i, j :: 0 <= i < j < |r| ==> r[i].id != r[j].id
    ensures forall x :: x in r ==> x in rs
    ensures forall i :: 0 <= i < |rs| ==> HoldsId(r, rs[i].id)
  {
    if rs == [] then []
    else
      var init := rs[..|rs| - 1];
      var held := AddedRoles(init);
      var x := rs[|rs| - 1];
      assert forall i :: 0 <= i < |init| ==> init[i] == rs[i];
      if HoldsId(held, x.id) then held
      else
        assert forall i :: 0 <= i < |init| ==> HoldsId(held + [x], rs[i].id) by {
          forall i | 0 <= i < |init| ensures HoldsId(held + [x], rs[i].id) {
            var j :| 0 <= j < |held| && held[j].id == rs[i].id;
            assert (held + [x])[j] == held[j];
          }
        }
        assert (held + [x])[|held|] == x;
        held + [x]
  }

  /** One more `AddRole`: the next role is appended unless its identifier is held already. */
  lemma AddedRolesStep(rs: seq<RoleData>, i: nat)
    requires i < |rs|
    ensures var held := AddedRoles(rs[..i]);
      AddedRoles(rs[..i + 1]) == if HoldsId(held, rs[i].id) then held else held + [rs[i]]
  {
    assert rs[..i + 1][..i] == rs[..i];
  }

  /** A role list whose identifiers are all different is kept as it is. */
  lemma {:induction false} AddedRolesOfDistinct(rs: seq<RoleData>)
    requires forall i, j :: 0 <= i < j < |rs| ==> rs[i].id != rs[j].id
    ensures AddedRoles(rs) == rs
  {
    if rs != [] {
      var init := rs[..|rs| - 1];
      AddedRolesOfDistinct(init);
      var x := rs[|rs| - 1];
      assert !HoldsId(init, x.id) by {
        forall j | 0 <= j < |init| ensures init[j].id != x.id {
          assert init[j] == rs[j];
        }
      }
      assert init + [x] == rs;
    }
  }

  /** The user `CreateUser` stores: enabled unless the request says otherwise, with the resolved roles. */
  function Created(id: Uuid, name: string, username: string, email: string, status: Option<bool>,
                    roles: seq<RoleData>, now: int): UserData
  {
    UserData(id, name, username, email, Some(AuthData(Deref(status, true), 0, None, None, now, now)),
             AddedRoles(roles), now, now)
  }

  /** The first steps of `UpdateUser` on the fetched user: e-mail and username when they change, then the name. */
  function Renamed(u: UserData, input: UserInput, now: int): UserData
  {
    var u1 := if input.email.Some? && input.email.value != u.email then u.(email := input.email.value, updatedAt := now) else u;
    var u2 := if input.username.Some? && input.username.value != u1.username then u1.(username := input.username.value, updatedAt := now) else u1;
    if input.name.Some? then u2.(name := input.name.value, updatedAt := now) else u2
  }

  /**
   * The user `UpdateUser` stores, once the conflict checks have passed: each
   * given field replaced, in the source's order; `None` when a status is given
   * for a user without a credential, where the Go code dereferences nil.
   */
  function Patch(u: UserData, input: UserInput, roles: seq<RoleData>, now: int): (r: Option<UserData>)
    ensures r.None? <==> input.status.Some? && u.auth.None?
    ensures r.Some? ==> r.value.id == u.id && r.value.createdAt == u.createdAt
    ensures r.Some? ==>
      r.value.name == Deref(input.name, u.name)
      && r.value.username == Deref(input.username, u.username)
      && r.value.email == Deref(input.email, u.email)
    ensures r.Some? ==> r.value.roles == if input.roleIDs.Some? then roles else u.roles
    ensures r.Some? ==> r.value.auth.Some? == u.auth.Some?
    ensures r.Some? && input.status.Some? ==> r.value.auth.value.status == input.status.value
    ensures r.Some? && input.status.None? ==> r.value.auth == u.auth
    ensures input == UserInput(None, None, None, None, None) ==> r == Some(u)
  {
    var u3 := Renamed(u, input, now);
    if input.status.Some? && u3.auth.None? then None
    else
      var u4 := if input.status.Some? then u3.(auth := Some(u3.auth.value.(status := input.status.value, updatedAt := now))) else u3;
      Some(if input.roleIDs.Some? then u4.(roles := roles, updatedAt := now) else u4)
  }

  /** Applying the same request twice at the same instant stores the same user as applying it once. */
  lemma PatchIdempotent(u: UserData, input: UserInput, roles: seq<RoleData>, now: int)
    requires Patch(u, input, roles, now).Some?
    ensures Patch(Patch(u, input, roles, now).value, input, roles, now) == Patch(u, input, roles, now)
  {
  }

  /** `ResetPassword` on a user value: token and password cleared, the user and the credential stamped. */
  function ResetUser(u: UserData, now: int): (r: UserData)
    ensures r.auth.Some? == u.auth.Some?
    ensures r.auth.Some? ==>
      r.auth.value.token.None? && r.auth.value.password.None? && r.auth.value.status == u.auth.value.status
    ensures r.id == u.id && r.email == u.email && r.username == u.username && r.roles == u.roles
  {
    u.(auth := if u.auth.Some? then Some(u.auth.value.(token := None, password := None, updatedAt := now)) else None,
       updatedAt := now)
  }

  /** Resetting twice at the same instant is resetting once, so the doubled reset is harmless. */
  lemma ResetTwiceIsResetOnce(u: UserData, now: int)
    ensures ResetUser(ResetUser(u, now), now) == ResetUser(u, now)
  {
  }

  /** After a reset no password logs in; and the user may set a password again. */
  lemma ResetBlocksLogin(u: UserData, now: int, password: string)
    ensures AuthUseCase.LoginRejection(Ok(ResetUser(u, now)), password) == Some(InvalidCredentials())
    ensures !HasPassword(ResetUser(u, now))
  {
  }

  /** The user holds a credential with a password, which `SetPassword` refuses to overwrite. */
  predicate HasPassword(u: UserData)
  {
    u.auth.Some? && u.auth.value.password.Some?
  }

  /** The user after `SetPassword` succeeds: a credential (an enabled one if there was none) with the new hash and token. */
  function WithPassword(u: UserData, password: string, salt: nat, token: string, now: int): UserData
  {
    var base := if u.auth.Some? then u.auth.value else AuthData(true, 0, None, None, now, now);
    u.(auth := Some(base.(password := Some(Hash(password, salt)), token := Some(token), updatedAt := now)))
  }

  /**
   * Once a password is set, exactly that password logs in, unless the user's
   * existing credential is disabled; the session token is the fresh one.
   */
  lemma PasswordSetEnablesLogin(u: UserData, password: string, salt: nat, token: string, now: int, attempt: string)
    ensures var w := WithPassword(u, password, salt, token, now);
      (AuthUseCase.LoginRejection(Ok(w), attempt).None? <==> attempt == password && (u.auth.None? || u.auth.value.status))
      && w.auth.value.token == Some(token) && HasPassword(w)
  {
  }

  /**
   * The resolution of role identifiers: `answers[k]` is the look-up of the k-th
   * identifier, which takes the cache from `states[k]` to `states[k + 1]`; it
   * stops at the first identifier that does not parse or whose role is not found.
   */
  ghost predicate Resolution(ids: seq<string>, rows: map<Uuid, RoleData>, reachable: bool, states: seq<State>,
                             answers: seq<Result<RoleData, GoError>>, r: Result<seq<RoleData>, Error>)
  {
    |states| == |answers| + 1 && |answers| <= |ids|
    && (forall k :: 0 <= k < |answers| ==>
          Parse(ids[k]).Some?
          && RoleCache.Looked(states[k], states[k + 1], rows, reachable, RoleById(Parse(ids[k]).value), answers[k]))
    && (forall k :: 0 <= k < |answers| - 1 ==> answers[k].Ok?)
    && (r.Ok? <==> |answers| == |ids| && forall k :: 0 <= k < |answers| ==> answers[k].Ok?)
    && (r.Ok? ==> |r.value| == |ids| && forall k :: 0 <= k < |ids| ==> r.value[k] == answers[k].value)
    && (r.Err? && (|answers| == 0 || answers[|answers| - 1].Ok?) ==>
          |answers| < |ids| && Parse(ids[|answers|]).None? && r.error == ErrRoleIdFormat())
    && (r.Err? && |answers| > 0 && answers[|answers| - 1].Err? ==> r.error == ErrRoleMissing())
  }

  /** A malformed identifier is reported only after every identifier before it resolved. */
  lemma ResolutionReportsFirstFailure(ids: seq<string>, rows: map<Uuid, RoleData>, reachable: bool, states: seq<State>,
                                      answers: seq<Result<RoleData, GoError>>, r: Result<seq<RoleData>, Error>)
    requires Resolution(ids, rows, reachable, states, answers, r)
    ensures r.Ok? ==> forall k :: 0 <= k < |ids| ==> Parse(ids[k]).Some?
    ensures r.Err? && r.error == ErrRoleIdFormat() ==>
      exists k :: 0 <= k < |ids| && Parse(ids[k]).None? && forall i :: 0 <= i < k ==> Parse(ids[i]).Some?
  {
    if r.Err? && r.error == ErrRoleIdFormat() {
      assert ErrRoleIdFormat() != ErrRoleMissing();
      var k := |answers|;
      assert Parse(ids[k]).None?;
    }
  }

  /** With Redis down no role resolves, so any request naming a role is refused. */
  lemma ResolutionFailsWhenRedisDown(ids: seq<string>, rows: map<Uuid, RoleData>, reachable: bool, states: seq<State>,
                                     answers: seq<Result<RoleData, GoError>>, r: Result<seq<RoleData>, Error>)
    requires Resolution(ids, rows, reachable, states, answers, r)
    requires |ids| > 0 && !states[0].reachable
    ensures r.Err?
  {
    if |answers| > 0 {
      RoleCache.LookupFailsWhenRedisDown(states[0], states[1], rows, reachable, RoleById(Parse(ids[0]).value), answers[0]);
    }
  }

  /**
   * The entity part of `SetPassword` on the fetched user: refused when a
   * password is set already; otherwise the password is hashed onto the
   * credential (a new enabled one when there was none) and the fresh session
   * token is set. An entity error is reported with the `ENTITY_ERROR` code.
   */
  method PasswordApplied(u: UserData, password: string, salt: nat, token: string, now: int)
    returns (r: Result<UserData, GoError>)
    requires ByteLen(password) >= MinPasswordLength
    ensures HasPassword(u) ==> r == Err(App(UserHasPassword()))
    ensures !HasPassword(u) && ByteLen(password) > MaxBcryptPasswordBytes ==>
      r == Err(App(New("ENTITY_ERROR", ErrorString(GenerateFromPassword(password, salt).error))))
    ensures !HasPassword(u) && ByteLen(password) <= MaxBcryptPasswordBytes ==>
      r == Ok(WithPassword(u, password, salt, token, now))
  {
    var user := User.FromData(u);
    if user.auth != null && user.auth.password.Some? {
      return Err(App(UserHasPassword()));
    }
    var e := user.SetPassword(password, salt, now);
    if e.Some? {
      return Err(App(New("ENTITY_ERROR", ErrorString(e.value))));
    }
    user.auth.SetToken(token, now);
    return Ok(user.Data());
  }

  /**
   * The entity part of `CreateUser`: `NewAuth` with the requested status
   * (enabled when none is given), `NewUser`, `AddRole` for each resolved role
   * in order, and `Enable` when the request asks for it. `NewUser` repeats the
   * request's checks, which have passed, so it does not fail here.
   */
  method BuildUser(id: Uuid, name: string, username: string, email: string, status: Option<bool>,
                   rs: seq<RoleData>, now: int) returns (d: UserData)
    requires ByteLen(name) >= MinNameLength && ByteLen(username) >= MinUsernameLength && IsValidEmail(email)
    ensures d == Created(id, name, username, email, status, rs, now)
  {
    var user := NewValidUser(id, name, username, email, status, now);
    AddRoles(user, rs);
    if status.Some? && status.value {
      user.auth.Enable(now);
    }
    return user.Data();
  }

  /** `NewAuth` and `NewUser` on fields that pass validation, so `NewUser` does not fail. */
  method NewValidUser(id: Uuid, name: string, username: string, email: string, status: Option<bool>, now: int)
    returns (user: User)
    requires ByteLen(name) >= MinNameLength && ByteLen(username) >= MinUsernameLength && IsValidEmail(email)
    ensures fresh(user) && fresh(user.auth)
    ensures user.Data() == Created(id, name, username, email, status, [], now)
  {
    var auth := new Auth(Deref(status, true), now);
    ghost var credential := AuthData(Deref(status, true), 0, None, None, now, now);
    assert ValidateUser(UserData(id, name, username, email, Some(credential), [], now, now)).None?;
    var made := User.NewUser(id, name, username, email, auth, now);
    if made.Err? {
      assert false;
    }
    user := made.value;
  }

  /** `AddRole` of each of `rs` in turn on a user holding no role yet. */
  method AddRoles(user: User, rs: seq<RoleData>)
    requires user.roles == []
    modifies user`roles
    ensures user.roles == AddedRoles(rs)
  {
    var i := 0;
    while i < |rs|
      invariant 0 <= i <= |rs|
      invariant user.roles == AddedRoles(rs[..i])
    {
      AddedRolesStep(rs, i);
      user.AddRole(Some(rs[i]));
      i := i + 1;
    }
    assert rs[..|rs|] == rs;
  }

  /**
   * The entity part of `UpdateUser` on the fetched user: `UpdateEmail` and
   * `UpdateUsername` when the value changes, `UpdateName` when one is given,
   * `Enable` or `Disable` when a status is given, and the roles replaced
   * (and the user stamped) when role identifiers are given.
   */
  method Patched(u: UserData, input: UserInput, rs: seq<RoleData>, now: int) returns (d: UserData)
    requires input.status.None? || u.auth.Some?
    ensures Patch(u, input, rs, now) == Some(d)
  {
    var user := User.FromData(u);
    Rename(user, input, now);
    if input.status.Some? {
      if input.status.value {
        user.auth.Enable(now);
      } else {
        user.auth.Disable(now);
      }
    }
    if input.roleIDs.Some? {
      user.roles := rs;
      user.updatedAt := now;
    }
    return user.Data();
  }

  /** The renaming steps of `UpdateUser` on a user object. */
  method Rename(user: User, input: UserInput, now: int)
    modifies user`email, user`username, user`name, user`updatedAt
    ensures user.Data() == Renamed(old(user.Data()), input, now)
  {
    if input.email.Some? && input.email.value != user.email {
      user.UpdateEmail(input.email.value, now);
    }
    if input.username.Some? && input.username.value != user.username {
      user.UpdateUsername(input.username.value, now);
    }
    if input.name.Some? {
      user.UpdateName(input.name.value, now);
    }
  }

  /**
   * What `CreateUser` does once the e-mail and the username are known to be
   * free: the named roles are resolved (none is looked up when the list is
   * empty), a nil name is dereferenced, and the built user is inserted.
   */
  ghost predicate CreateTail(input: UserInput, id: Uuid, now: int, email: string, username: string,
                             rows0: map<Uuid, UserData>, reach: bool, roleRows: map<Uuid, RoleData>, roleReach: bool,
                             start: State, roles: Result<seq<RoleData>, Error>, roleStates: seq<State>,
                             roleAnswers: seq<Result<RoleData, GoError>>, s3: State,
                             rows: map<Uuid, UserData>, sn: State, r: Result<UserData, GoError>)
  {
    (if input.roleIDs.Some? && |input.roleIDs.value| > 0 then
       |roleStates| > 0 && roleStates[0] == start && roleStates[|roleStates| - 1] == s3
       && Resolution(input.roleIDs.value, roleRows, roleReach, roleStates, roleAnswers, roles)
     else s3 == start && roles == Ok([]))
    && if roles.Err? then r == Err(App(roles.error)) && rows == rows0 && sn == s3
    else if input.name.None? then r == Err(ErrNilDereference) && rows == rows0 && sn == s3
    else
      var d := Created(id, input.name.value, username, email, input.status, roles.value, now);
      var e := UserCache.CreateError(rows0, reach, d);
      UserCache.CreateOutcome(rows0, reach, d, rows, e) && sn == s3
      && r == if e.Some? then Err(InternalOf(e.value)) else Ok(d)
  }

  /**
   * What `UpdateUser` does once the new e-mail and username are known to be
   * free: a status for a user without credential dereferences nil, the named
   * roles are resolved, and the patched user is written back.
   */
  ghost predicate UpdateTail(u: UserData, input: UserInput, now: int,
                             rows0: map<Uuid, UserData>, reach: bool, roleRows: map<Uuid, RoleData>, roleReach: bool,
                             start: State, roles: Result<seq<RoleData>, Error>, roleStates: seq<State>,
                             roleAnswers: seq<Result<RoleData, GoError>>, s4: State,
                             rows: map<Uuid, UserData>, sn: State, r: Result<UserData, GoError>)
  {
    if input.status.Some? && u.auth.None? then r == Err(ErrNilDereference) && rows == rows0 && sn == start
    else
      (if input.roleIDs.Some? then
         |roleStates| > 0 && roleStates[0] == start && roleStates[|roleStates| - 1] == s4
         && Resolution(input.roleIDs.value, roleRows, roleReach, roleStates, roleAnswers, roles)
       else s4 == start && roles == Ok([]))
      && if roles.Err? then r == Err(App(roles.error)) && rows == rows0 && sn == s4
      else
        var d := Patch(u, input, roles.value, now).value;
        var e := UserCache.UpdateError(rows0, reach, s4, d);
        UserCache.UpdateOutcome(rows0, reach, s4, d, rows, sn, e)
        && r == if e.Some? then Err(InternalOf(e.value)) else Ok(d)
  }

  /** What `CreateUser` does once the e-mail is known to be free: a nil username is dereferenced, a taken one refused, then `CreateTail`. */
  ghost predicate CreateWithEmail(input: UserInput, id: Uuid, now: int, email: string,
                                  rows0: map<Uuid, UserData>, reach: bool, roleRows: map<Uuid, RoleData>, roleReach: bool,
                                  s1: State, usernameFound: Result<UserData, GoError>,
                                  roles: Result<seq<RoleData>, Error>, roleStates: seq<State>,
                                  roleAnswers: seq<Result<RoleData, GoError>>, s2: State, s3: State,
                                  rows: map<Uuid, UserData>, sn: State, r: Result<UserData, GoError>)
  {
    if input.username.None? then r == Err(ErrNilDereference) && rows == rows0 && sn == s1
    else
      UserCache.Looked(s1, s2, rows0, reach, ByUsername(input.username.value), usernameFound)
      && if usernameFound.Ok? then r == Err(App(ErrUsernameExists())) && rows == rows0 && sn == s2
      else CreateTail(input, id, now, email, input.username.value, rows0, reach, roleRows, roleReach, s2,
                      roles, roleStates, roleAnswers, s3, rows, sn, r)
  }

  /**
   * What `UpdateUser` does with the fetched user: a changed e-mail, then a
   * changed username, must not be taken; then `UpdateTail`.
   */
  ghost predicate UpdateOfFetched(u: UserData, input: UserInput, now: int,
                                  rows0: map<Uuid, UserData>, reach: bool, roleRows: map<Uuid, RoleData>, roleReach: bool,
                                  s1: State, emailFound: Result<UserData, GoError>, usernameFound: Result<UserData, GoError>,
                                  roles: Result<seq<RoleData>, Error>, roleStates: seq<State>,
                                  roleAnswers: seq<Result<RoleData, GoError>>, s2: State, s3: State, s4: State,
                                  rows: map<Uuid, UserData>, sn: State, r: Result<UserData, GoError>)
  {
    var checkEmail := input.email.Some? && input.email.value != u.email;
    (if checkEmail then UserCache.Looked(s1, s2, rows0, reach, ByEmail(input.email.value), emailFound) else s2 == s1)
    && if checkEmail && emailFound.Ok? then r == Err(App(ErrEmailExists())) && rows == rows0 && sn == s2
    else
      var checkUsername := input.username.Some? && input.username.value != u.username;
      (if checkUsername then UserCache.Looked(s2, s3, rows0, reach, ByUsername(input.username.value), usernameFound)
       else s3 == s2)
      && if checkUsername && usernameFound.Ok? then r == Err(App(ErrUsernameExists())) && rows == rows0 && sn == s3
      else UpdateTail(u, input, now, rows0, reach, roleRows, roleReach, s3, roles, roleStates, roleAnswers, s4, rows, sn, r)
  }

  class UserUseCase {
    const repo: UserCache.CachedUserRepository
    const roleRepo: RoleCache.CachedRoleRepository

    /** The user store is consistent and both decorators share one Redis service. */
    predicate Valid()
      reads repo.repo
    {
      repo.repo.Valid() && roleRepo.redis == repo.redis
    }

    constructor (repo: UserCache.CachedUserRepository, roleRepo: RoleCache.CachedRoleRepository)
      requires repo.repo.Valid() && roleRepo.redis == repo.redis
      ensures this.repo == repo && this.roleRepo == roleRepo && Valid()
    {
      this.repo := repo;
      this.roleRepo := roleRepo;
    }

    /**
     * The role look-ups of `CreateUser` and `UpdateUser`: every identifier must
     * parse and name a role, else the request is invalid.
     */
    method ResolveRoles(ids: seq<string>)
      returns (r: Result<seq<RoleData>, Error>, ghost states: seq<State>, ghost answers: seq<Result<RoleData, GoError>>)
      requires Valid()
      modifies roleRepo.redis, roleRepo.repo`calls
      ensures Valid()
      ensures |states| > 0 && states[0] == old(roleRepo.redis.Snapshot()) && states[|states| - 1] == roleRepo.redis.Snapshot()
      ensures Resolution(ids, roleRepo.repo.rows, roleRepo.repo.reachable, states, answers, r)
    {
      states := [roleRepo.redis.Snapshot()];
      answers := [];
      var roles: seq<RoleData> := [];
      var i := 0;
      while i < |ids|
        invariant 0 <= i <= |ids|
        invariant |answers| == i && |states| == i + 1 && |roles| == i
        invariant states[0] == old(roleRepo.redis.Snapshot()) && states[i] == roleRepo.redis.Snapshot()
        invariant forall k :: 0 <= k < i ==>
          Parse(ids[k]).Some?
          && RoleCache.Looked(states[k], states[k + 1], roleRepo.repo.rows, roleRepo.repo.reachable,
                              RoleById(Parse(ids[k]).value), answers[k])
        invariant forall k :: 0 <= k < i ==> answers[k].Ok? && roles[k] == answers[k].value
      {
        var rid := Parse(ids[i]);
        if rid.None? {
          return Err(ErrRoleIdFormat()), states, answers;
        }
        ghost var before := roleRepo.redis.Snapshot();
        var got;
        ghost var fetched;
        got, fetched := roleRepo.FindByID(rid.value);
        assert RoleCache.LookupOutcome(before, roleRepo.redis.Snapshot(), roleRepo.repo.rows, roleRepo.repo.reachable,
                                       RoleById(rid.value), got, fetched);
        states := states + [roleRepo.redis.Snapshot()];
        answers := answers + [got];
        if got.Err? {
          return Err(ErrRoleMissing()), states, answers;
        }
        roles := roles + [got.value];
        i := i + 1;
      }
      return Ok(roles), states, answers;
    }

    /**
     * `DeleteUsers`: every identifier is parsed before anything is deleted, so
     * one malformed identifier deletes nothing; a repository failure becomes
     * an internal error.
     */
    method DeleteUsers(ids: seq<string>) returns (err: Option<GoError>)
      requires Valid()
      modifies repo.repo, repo.redis
      ensures Valid()
      ensures ParseAll(ids).None? ==>
        err == Some(App(ErrInvalidIds()))
        && repo.repo.rows == old(repo.repo.rows) && repo.redis.Snapshot() == old(repo.redis.Snapshot())
      ensures ParseAll(ids).Some? ==>
        var e := UserCache.DeleteError(old(repo.repo.rows), old(repo.repo.reachable), old(repo.redis.Snapshot()), ParseAll(ids).value);
        UserCache.DeleteOutcome(old(repo.repo.rows), old(repo.repo.reachable), old(repo.redis.Snapshot()), ParseAll(ids).value,
                                repo.repo.rows, repo.redis.Snapshot(), e)
        && err == if e.Some? then Some(InternalOf(e.value)) else None
    {
      var uids: seq<Uuid> := [];
      var i := 0;
      while i < |ids|
        invariant 0 <= i <= |ids| && |uids| == i
        invariant forall k :: 0 <= k < i ==> Parse(ids[k]).Some? && uids[k] == Parse(ids[k]).value
      {
        var uid := Parse(ids[i]);
        if uid.None? {
          return Some(App(ErrInvalidIds()));
        }
        uids := uids + [uid.value];
        i := i + 1;
      }
      assert uids == ParseAll(ids).value;
      var e := repo.Delete(uids);
      if e.Some? {
        return Some(InternalOf(e.value));
      }
      return None;
    }

    /** `ResetPasswordHelper`. */
    method ResetPasswordHelper(user: User, now: int)
      modifies user, user.auth
      ensures user.auth == old(user.auth) && user.roles == old(user.roles)
      ensures user.Data() == ResetUser(old(user.Data()), now)
    {
      user.ResetPassword(now);
    }

    /**
     * `ResetPassword`: an unknown e-mail is not reported; a known user is reset
     * (twice, through the helper and directly, which is resetting once) and
     * written back, whose error is returned as the repository gives it.
     */
    method ResetPassword(email: string, now: int)
      returns (err: Option<GoError>, ghost found: Result<UserData, GoError>, ghost mid: State)
      requires Valid()
      modifies repo.repo, repo.redis
      ensures Valid()
      ensures UserCache.Looked(old(repo.redis.Snapshot()), mid, old(repo.repo.rows), old(repo.repo.reachable), ByEmail(email), found)
      ensures found.Err? ==> err.None? && repo.repo.rows == old(repo.repo.rows) && repo.redis.Snapshot() == mid
      ensures found.Ok? ==>
        var e := UserCache.UpdateError(old(repo.repo.rows), old(repo.repo.reachable), mid, ResetUser(found.value, now));
        UserCache.UpdateOutcome(old(repo.repo.rows), old(repo.repo.reachable), mid, ResetUser(found.value, now),
                                repo.repo.rows, repo.redis.Snapshot(), e)
        && err == e
    {
      ghost var before := repo.redis.Snapshot();
      var got;
      ghost var fetched;
      got, fetched := repo.FindByEmail(email);
      found := got;
      mid := repo.redis.Snapshot();
      assert UserCache.LookupOutcome(before, mid, repo.repo.rows, repo.repo.reachable, ByEmail(email), got, fetched);
      if got.Err? {
        return None, found, mid;
      }
      var user := User.FromData(got.value);
      ResetPasswordHelper(user, now);
      user.ResetPassword(now);
      ResetTwiceIsResetOnce(got.value, now);
      assert user.Data() == ResetUser(got.value, now);
      err := repo.Update(user.Data());
    }

    /**
     * `SetPassword`: the request is checked, the user must exist and must not
     * have a password yet; then the password and a fresh session token are
     * set and the user is written back, whose error is returned as the
     * repository gives it.
     */
    method SetPassword(email: string, input: DtoInput.PasswordInput, salt: nat, token: Uuid, now: int)
      returns (err: Option<GoError>, ghost found: Result<UserData, GoError>, ghost mid: State)
      requires Valid()
      modifies repo.repo, repo.redis
      ensures Valid()
      ensures var rows0 := old(repo.repo.rows);
        var s0 := old(repo.redis.Snapshot());
        var v := DtoInput.ValidatePasswordInput(input);
        if v.Some? then err == Some(App(v.value)) && repo.repo.rows == rows0 && repo.redis.Snapshot() == s0
        else
          UserCache.Looked(s0, mid, rows0, old(repo.repo.reachable), ByEmail(email), found)
          && if found.Err? then err == Some(App(UserNotFound())) && repo.repo.rows == rows0 && repo.redis.Snapshot() == mid
          else if HasPassword(found.value) then
            err == Some(App(UserHasPassword())) && repo.repo.rows == rows0 && repo.redis.Snapshot() == mid
          else if ByteLen(input.password) > MaxBcryptPasswordBytes then
            err == Some(App(New("ENTITY_ERROR", ErrorString(GenerateFromPassword(input.password, salt).error))))
            && repo.repo.rows == rows0 && repo.redis.Snapshot() == mid
          else
            var u := WithPassword(found.value, input.password, salt, token, now);
            var e := UserCache.UpdateError(rows0, old(repo.repo.reachable), mid, u);
            UserCache.UpdateOutcome(rows0, old(repo.repo.reachable), mid, u, repo.repo.rows, repo.redis.Snapshot(), e)
            && err == e
    {
      found := Err(ErrRecordNotFound);
      mid := repo.redis.Snapshot();
      var v := DtoInput.ValidatePasswordInput(input);
      if v.Some? {
        return Some(App(v.value)), found, mid;
      }
      ghost var before := repo.redis.Snapshot();
      var got;
      ghost var fetched;
      got, fetched := repo.FindByEmail(email);
      found := got;
      mid := repo.redis.Snapshot();
      assert UserCache.LookupOutcome(before, mid, repo.repo.rows, repo.repo.reachable, ByEmail(email), got, fetched);
      if got.Err? {
        return Some(App(UserNotFound())), found, mid;
      }
      var applied := PasswordApplied(got.value, input.password, salt, token, now);
      if applied.Err? {
        return Some(applied.error), found, mid;
      }
      err := repo.Update(applied.value);
    }

    /**
     * `CreateUser`. The checks run in the source's order: the request, a nil
     * e-mail, an existing e-mail, a nil username, an existing username; the
     * rest is `CreateTail`. The ghost results record what each look-up
     * answered and the cache state after it.
     */
    method CreateUser(input: UserInput, id: Uuid, now: int)
      returns (r: Result<UserData, GoError>, ghost emailFound: Result<UserData, GoError>,
               ghost usernameFound: Result<UserData, GoError>, ghost roles: Result<seq<RoleData>, Error>,
               ghost roleStates: seq<State>, ghost roleAnswers: seq<Result<RoleData, GoError>>,
               ghost s1: State, ghost s2: State, ghost s3: State)
      requires Valid()
      modifies repo.repo, repo.redis, roleRepo.repo`calls
      ensures Valid() && repo.repo.reachable == old(repo.repo.reachable)
      ensures var rows0 := old(repo.repo.rows);
        var reach := old(repo.repo.reachable);
        var s0 := old(repo.redis.Snapshot());
        var rows := repo.repo.rows;
        var sn := repo.redis.Snapshot();
        var v := ValidateInput(input);
        if v.Some? then r == Err(App(v.value)) && rows == rows0 && sn == s0
        else if input.email.None? then r == Err(ErrNilDereference) && rows == rows0 && sn == s0
        else
          UserCache.Looked(s0, s1, rows0, reach, ByEmail(input.email.value), emailFound)
          && if emailFound.Ok? then r == Err(App(ErrEmailExists())) && rows == rows0 && sn == s1
          else CreateWithEmail(input, id, now, input.email.value, rows0, reach, roleRepo.repo.rows, roleRepo.repo.reachable,
                               s1, usernameFound, roles, roleStates, roleAnswers, s2, s3, rows, sn, r)
      ensures r.Ok? && old(repo.redis.Snapshot()).reachable ==>
        !Found(old(repo.repo.rows), ByEmail(r.value.email)) && !Found(old(repo.repo.rows), ByUsername(r.value.username))
    {
      ghost var rows0 := repo.repo.rows;
      ghost var s0 := repo.redis.Snapshot();
      s1, s2, s3 := s0, s0, s0;
      emailFound, usernameFound, roles := Err(ErrRecordNotFound), Err(ErrRecordNotFound), Ok([]);
      roleStates, roleAnswers := [s0], [];
      var v := ValidateInput(input);
      if v.Some? {
        r := Err(App(v.value));
        return;
      }
      if input.email.None? {
        r := Err(ErrNilDereference);
        return;
      }
      var email := input.email.value;
      var existing;
      ghost var fetched;
      existing, fetched := repo.FindByEmail(email);
      emailFound := existing;
      s1 := repo.redis.Snapshot();
      s2, s3 := s1, s1;
      assert UserCache.LookupOutcome(s0, s1, rows0, repo.repo.reachable, ByEmail(email), existing, fetched);
      UserCache.FailedLookupMeansAbsent(s0, s1, rows0, repo.repo.reachable, ByEmail(email), existing);
      if existing.Ok? {
        r := Err(App(ErrEmailExists()));
        return;
      }
      r, usernameFound, roles, roleStates, roleAnswers, s2, s3 := CreateEmailFree(input, id, now);
    }

    /** `CreateUser` once the e-mail is known to be free: see `CreateWithEmail`. */
    method CreateEmailFree(input: UserInput, id: Uuid, now: int)
      returns (r: Result<UserData, GoError>, ghost usernameFound: Result<UserData, GoError>,
               ghost roles: Result<seq<RoleData>, Error>, ghost roleStates: seq<State>,
               ghost roleAnswers: seq<Result<RoleData, GoError>>, ghost s2: State, ghost s3: State)
      requires Valid() && ValidateInput(input).None? && input.email.Some?
      modifies repo.repo, repo.redis, roleRepo.repo`calls
      ensures Valid() && repo.repo.reachable == old(repo.repo.reachable)
      ensures CreateWithEmail(input, id, now, input.email.value, old(repo.repo.rows), old(repo.repo.reachable),
                              roleRepo.repo.rows, roleRepo.repo.reachable, old(repo.redis.Snapshot()), usernameFound,
                              roles, roleStates, roleAnswers, s2, s3, repo.repo.rows, repo.redis.Snapshot(), r)
      ensures r.Ok? ==> r.value.email == input.email.value
      ensures r.Ok? && old(repo.redis.Snapshot()).reachable ==> !Found(old(repo.repo.rows), ByUsername(r.value.username))
    {
      ghost var rows0 := repo.repo.rows;
      ghost var s1 := repo.redis.Snapshot();
      s2, s3 := s1, s1;
      usernameFound, roles := Err(ErrRecordNotFound), Ok([]);
      roleStates, roleAnswers := [s1], [];
      if input.username.None? {
        r := Err(ErrNilDereference);
        return;
      }
      var username := input.username.value;
      var existing;
      ghost var fetched;
      existing, fetched := repo.FindByUsername(username);
      usernameFound := existing;
      s2 := repo.redis.Snapshot();
      s3 := s2;
      assert UserCache.LookupOutcome(s1, s2, rows0, repo.repo.reachable, ByUsername(username), existing, fetched);
      UserCache.FailedLookupMeansAbsent(s1, s2, rows0, repo.repo.reachable, ByUsername(username), existing);
      if existing.Ok? {
        r := Err(App(ErrUsernameExists()));
        return;
      }
      r, roles, roleStates, roleAnswers, s3 := CreateWithRoles(input, id, now);
    }

    /** `CreateUser` once the e-mail and the username are known to be free: see `CreateTail`. */
    method CreateWithRoles(input: UserInput, id: Uuid, now: int)
      returns (r: Result<UserData, GoError>, ghost roles: Result<seq<RoleData>, Error>,
               ghost roleStates: seq<State>, ghost roleAnswers: seq<Result<RoleData, GoError>>, ghost s3: State)
      requires Valid() && ValidateInput(input).None? && input.email.Some? && input.username.Some?
      modifies repo.repo, repo.redis, roleRepo.repo`calls
      ensures Valid() && repo.repo.reachable == old(repo.repo.reachable)
      ensures CreateTail(input, id, now, input.email.value, input.username.value, old(repo.repo.rows), old(repo.repo.reachable),
                         roleRepo.repo.rows, roleRepo.repo.reachable, old(repo.redis.Snapshot()),
                         roles, roleStates, roleAnswers, s3, repo.repo.rows, repo.redis.Snapshot(), r)
      ensures r.Ok? ==> r.value.email == input.email.value && r.value.username == input.username.value
    {
      s3 := repo.redis.Snapshot();
      roles, roleStates, roleAnswers := Ok([]), [s3], [];
      var rs: seq<RoleData> := [];
      if input.roleIDs.Some? && |input.roleIDs.value| > 0 {
        var resolved;
        resolved, roleStates, roleAnswers := ResolveRoles(input.roleIDs.value);
        roles := resolved;
        s3 := repo.redis.Snapshot();
        if resolved.Err? {
          r := Err(App(resolved.error));
          return;
        }
        rs := resolved.value;
      }
      if input.name.None? {
        r := Err(ErrNilDereference);
        return;
      }
      var d := BuildUser(id, input.name.value, input.username.value, input.email.value, input.status, rs, now);
      var err := repo.Create(d);
      if err.Some? {
        r := Err(InternalOf(err.value));
        return;
      }
      r := Ok(d);
    }

    /**
     * `UpdateUser`. The identifier is parsed and the request checked before the
     * user is fetched; a changed e-mail or username must not be taken; the rest
     * is `UpdateTail`.
     */
    method UpdateUser(id: string, input: UserInput, now: int)
      returns (r: Result<UserData, GoError>, ghost found: Result<UserData, GoError>,
               ghost emailFound: Result<UserData, GoError>, ghost usernameFound: Result<UserData, GoError>,
               ghost roles: Result<seq<RoleData>, Error>,
               ghost roleStates: seq<State>, ghost roleAnswers: seq<Result<RoleData, GoError>>,
               ghost s1: State, ghost s2: State, ghost s3: State, ghost s4: State)
      requires Valid()
      modifies repo.repo, repo.redis, roleRepo.repo`calls
      ensures Valid() && repo.repo.reachable == old(repo.repo.reachable)
      ensures var rows0 := old(repo.repo.rows);
        var reach := old(repo.repo.reachable);
        var s0 := old(repo.redis.Snapshot());
        var rows := repo.repo.rows;
        var sn := repo.redis.Snapshot();
        if Parse(id).None? then r == Err(App(ErrInvalidId())) && rows == rows0 && sn == s0
        else if ValidateInput(input).Some? then r == Err(App(ValidateInput(input).value)) && rows == rows0 && sn == s0
        else
          UserCache.Looked(s0, s1, rows0, reach, ById(Parse(id).value), found)
          && if found.Err? then r == Err(App(UserNotFound())) && rows == rows0 && sn == s1
          else UpdateOfFetched(found.value, input, now, rows0, reach, roleRepo.repo.rows, roleRepo.repo.reachable, s1,
                               emailFound, usernameFound, roles, roleStates, roleAnswers, s2, s3, s4, rows, sn, r)
    {
      ghost var rows0 := repo.repo.rows;
      ghost var s0 := repo.redis.Snapshot();
      s1, s2, s3, s4 := s0, s0, s0, s0;
      found, emailFound, usernameFound, roles := Err(ErrRecordNotFound), Err(ErrRecordNotFound), Err(ErrRecordNotFound), Ok([]);
      roleStates, roleAnswers := [s0], [];
      var uid := Parse(id);
      if uid.None? {
        r := Err(App(ErrInvalidId()));
        return;
      }
      var v := ValidateInput(input);
      if v.Some? {
        r := Err(App(v.value));
        return;
      }
      var got;
      ghost var fetched;
      got, fetched := repo.FindByID(uid.value);
      found := got;
      s1 := repo.redis.Snapshot();
      assert UserCache.LookupOutcome(s0, s1, rows0, repo.repo.reachable, ById(uid.value), got, fetched);
      if got.Err? {
        r := Err(App(UserNotFound()));
        return;
      }
      r, emailFound, usernameFound, roles, roleStates, roleAnswers, s2, s3, s4 := UpdateFetched(got.value, input, now);
    }

    /** `UpdateUser` once the user is fetched: see `UpdateOfFetched`. */
    method UpdateFetched(u: UserData, input: UserInput, now: int)
      returns (r: Result<UserData, GoError>, ghost emailFound: Result<UserData, GoError>,
               ghost usernameFound: Result<UserData, GoError>, ghost roles: Result<seq<RoleData>, Error>,
               ghost roleStates: seq<State>, ghost roleAnswers: seq<Result<RoleData, GoError>>,
               ghost s2: State, ghost s3: State, ghost s4: State)
      requires Valid()
      modifies repo.repo, repo.redis, roleRepo.repo`calls
      ensures Valid() && repo.repo.reachable == old(repo.repo.reachable)
      ensures UpdateOfFetched(u, input, now, old(repo.repo.rows), old(repo.repo.reachable), roleRepo.repo.rows,
                              roleRepo.repo.reachable, old(repo.redis.Snapshot()), emailFound, usernameFound,
                              roles, roleStates, roleAnswers, s2, s3, s4, repo.repo.rows, repo.redis.Snapshot(), r)
    {
      ghost var rows0 := repo.repo.rows;
      ghost var s1 := repo.redis.Snapshot();
      s2, s3, s4 := s1, s1, s1;
      emailFound, usernameFound, roles := Err(ErrRecordNotFound), Err(ErrRecordNotFound), Ok([]);
      roleStates, roleAnswers := [s1], [];
      ghost var fetched;
      if input.email.Some? && input.email.value != u.email {
        var existing;
        existing, fetched := repo.FindByEmail(input.email.value);
        emailFound := existing;
        s2 := repo.redis.Snapshot();
        s3 := s2;
        assert UserCache.LookupOutcome(s1, s2, rows0, repo.repo.reachable, ByEmail(input.email.value), existing, fetched);
        if existing.Ok? {
          r := Err(App(ErrEmailExists()));
          return;
        }
      }
      if input.username.Some? && input.username.value != u.username {
        var existing;
        existing, fetched := repo.FindByUsername(input.username.value);
        usernameFound := existing;
        s3 := repo.redis.Snapshot();
        assert UserCache.LookupOutcome(s2, s3, rows0, repo.repo.reachable, ByUsername(input.username.value), existing, fetched);
        if existing.Ok? {
          r := Err(App(ErrUsernameExists()));
          return;
        }
      }
      r, roles, roleStates, roleAnswers, s4 := UpdateWithRoles(u, input, now);
    }

    /** `UpdateUser` once the fetched user's new e-mail and username are known to be free: see `UpdateTail`. */
    method UpdateWithRoles(u: UserData, input: UserInput, now: int)
      returns (r: Result<UserData, GoError>, ghost roles: Result<seq<RoleData>, Error>,
               ghost roleStates: seq<State>, ghost roleAnswers: seq<Result<RoleData, GoError>>, ghost s4: State)
      requires Valid()
      modifies repo.repo, repo.redis, roleRepo.repo`calls
      ensures Valid() && repo.repo.reachable == old(repo.repo.reachable)
      ensures UpdateTail(u, input, now, old(repo.repo.rows), old(repo.repo.reachable), roleRepo.repo.rows, roleRepo.repo.reachable,
                         old(repo.redis.Snapshot()), roles, roleStates, roleAnswers, s4, repo.repo.rows, repo.redis.Snapshot(), r)
    {
      s4 := repo.redis.Snapshot();
      roles, roleStates, roleAnswers := Ok([]), [s4], [];
      if input.status.Some? && u.auth.None? {
        r := Err(ErrNilDereference);
        return;
      }
      var rs: seq<RoleData> := [];
      if input.roleIDs.Some? {
        var resolved;
        resolved, roleStates, roleAnswers := ResolveRoles(input.roleIDs.value);
        roles := resolved;
        s4 := repo.redis.Snapshot();
        if resolved.Err? {
          r := Err(App(resolved.error));
          return;
        }
        rs := resolved.value;
      }
      var d := Patched(u, input, rs, now);
      var err := repo.Update(d);
      if err.Some? {
        r := Err(InternalOf(err.value));
        return;
      }
      r := Ok(d);
    }
  }
}
