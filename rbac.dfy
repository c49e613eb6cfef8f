/**
 * The permission guard of the REST layer
 * (backend/internal/adapter/driver/rest/middleware/rbac.go): a request passes when
 * the authenticated user holds a role that is the root role, lists the wildcard
 * `*`, or lists the required permission exactly.
 */
module Rbac {
  import opened Wrappers
  import opened Text
  import opened Uuid
  import opened RoleEntity
  import opened UserEntity

  /** What the guard does with the request: 401, 403, or hand it to the next handler. */
  datatype Outcome = Unauthorized | Forbidden | Next

  const Wildcard := "*"

  /** A role that opens every route: the root role or one listing the wildcard. */
  predicate GrantsAll(r: RoleData)
  {
    r.name == RootRoleName || Wildcard in r.permissions
  }

  predicate Grants(r: RoleData, permission: string)
  {
    GrantsAll(r) || permission in r.permissions
  }

  /** The guard's rule, role by role. */
  function Admits(roles: seq<RoleData>, permission: string): bool
  {
    |roles| > 0 && (Grants(roles[0], permission) || Admits(roles[1..], permission))
  }

  /** The guard admits exactly when some role grants the permission. */
  lemma {:induction false} AdmitsSomeRole(roles: seq<RoleData>, permission: string)
    ensures Admits(roles, permission) <==> exists i :: 0 <= i < |roles| && Grants(roles[i], permission)
  {
    if |roles| > 0 {
      AdmitsSomeRole(roles[1..], permission);
      if Admits(roles[1..], permission) {
        var i :| 0 <= i < |roles[1..]| && Grants(roles[1..][i], permission);
        assert Grants(roles[i + 1], permission);
      }
      if exists i :: 0 <= i < |roles| && Grants(roles[i], permission) {
        var i :| 0 <= i < |roles| && Grants(roles[i], permission);
        if i > 0 {
          assert Grants(roles[1..][i - 1], permission);
        }
      }
    }
  }

  /** The verdict for a request whose context holds the given user's roles, or no user. */
  function Decide(user: Option<seq<RoleData>>, permission: string): Outcome
  {
    match user
    case None => Unauthorized
    case Some(roles) => if Admits(roles, permission) then Next else Forbidden
  }

  /**
   * `RequirePermission(permission)` applied to a request whose context holds
   * `user` (null when absent or of another type).
   */
  method RequirePermission(permission: string, user: User?) returns (o: Outcome)
    ensures o == Decide(if user == null then None else Some(user.roles), permission)
  {
    if user == null {
      return Unauthorized;
    }
    var isRoot := false;
    var hasPerm := false;
    var i := 0;
    while i < |user.roles|
      invariant 0 <= i <= |user.roles|
      invariant forall k :: 0 <= k < i ==> !GrantsAll(user.roles[k])
      invariant !isRoot
      invariant hasPerm <==> exists k :: 0 <= k < i && permission in user.roles[k].permissions
    {
      var role := user.roles[i];
      if role.name == RootRoleName || Contains(role.permissions, Wildcard) {
        isRoot := true;
        assert Grants(user.roles[i], permission);
        break;
      }
      if Contains(role.permissions, permission) {
        hasPerm := true;
      }
      i := i + 1;
    }
    AdmitsSomeRole(user.roles, permission);
    if isRoot || hasPerm {
      return Next;
    }
    return Forbidden;
  }

  /** The order of the roles does not matter, nor does holding a role twice. */
  lemma AdmitsIgnoresOrder(a: seq<RoleData>, b: seq<RoleData>, permission: string)
    requires forall r :: r in a <==> r in b
    ensures Admits(a, permission) == Admits(b, permission)
  {
    AdmitsSomeRole(a, permission);
    AdmitsSomeRole(b, permission);
    if Admits(a, permission) {
      var i :| 0 <= i < |a| && Grants(a[i], permission);
      assert a[i] in b;
    }
    if Admits(b, permission) {
      var i :| 0 <= i < |b| && Grants(b[i], permission);
      assert b[i] in a;
    }
  }

  /** A root or wildcard role opens every route whatever the other roles are. */
  lemma GrantsAllRoleAdmitsEverything(roles: seq<RoleData>, i: nat, permission: string)
    requires i < |roles| && GrantsAll(roles[i])
    ensures Admits(roles, permission)
  {
    AdmitsSomeRole(roles, permission);
  }

  /** Without a root or wildcard role, the guard is exact membership in some role. */
  lemma AdmitsExactWithoutRoot(roles: seq<RoleData>, permission: string)
    requires forall i :: 0 <= i < |roles| ==> !GrantsAll(roles[i])
    ensures Admits(roles, permission) <==> exists i :: 0 <= i < |roles| && permission in roles[i].permissions
  {
    AdmitsSomeRole(roles, permission);
  }

  /** Whatever `User.HasPermission` grants, the guard admits. */
  lemma HasPermissionAdmits(u: User, permission: string)
    requires u.HasPermission(permission)
    ensures Admits(u.roles, permission)
  {
    var i :| 0 <= i < |u.roles| && permission in u.roles[i].permissions;
    AdmitsSomeRole(u.roles, permission);
    assert Grants(u.roles[i], permission);
  }

  /**
   * The guard is wider than `User.HasPermission`: a wildcard role admits a
   * permission that no role lists.
   */
  lemma WildcardWiderThanHasPermission(id: Uuid)
    ensures var roles := [RoleData(id, "ADMIN", [Wildcard], 0, 0)];
      Admits(roles, "users:delete") && "users:delete" !in roles[0].permissions
  {
    var roles := [RoleData(id, "ADMIN", [Wildcard], 0, 0)];
    GrantsAllRoleAdmitsEverything(roles, 0, "users:delete");
  }

  /** The cases of the guard's tests. */
  lemma GuardExamples(id: Uuid)
    ensures Decide(None, "users:view") == Unauthorized
    ensures Decide(Some([RoleData(id, "GUEST", ["other:view"], 0, 0)]), "users:view") == Forbidden
    ensures Decide(Some([RoleData(id, "EDITOR", ["users:view"], 0, 0)]), "users:view") == Next
    ensures Decide(Some([RoleData(id, "ADMIN", ["*"], 0, 0)]), "users:delete") == Next
    ensures Decide(Some([RoleData(id, "ROOT", [], 0, 0)]), "users:delete") == Next
    ensures Decide(Some([]), "users:view") == Forbidden
  {
    var guest := RoleData(id, "GUEST", ["other:view"], 0, 0);
    assert "users:view"[0] != "other:view"[0];
    assert "users:view" !in guest.permissions;
    assert Wildcard !in guest.permissions;
    assert guest.name != RootRoleName;
    assert !Admits([guest][1..], "users:view");
  }
}
