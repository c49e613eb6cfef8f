/**
 * The role entity (backend/internal/core/domain/entity/role.go): a named set of
 * permission strings; the role named `ROOT` is the root role.
 */
module RoleEntity {
  import opened Wrappers
  import opened Text
  import opened Validator
  import opened AppError
  import opened Uuid

  /** A role's fields, as stored and as cached. */
  datatype RoleData = RoleData(
    id: Uuid,
    name: string,
    permissions: seq<string>,
    createdAt: int,
    updatedAt: int)

  const RootRoleName := "ROOT"

  function ErrRoleNameTooShort(): Error
  {
    InvalidInput("name", "role name must be at least 4 characters")
  }

  /** The validation rule of a role name: at least four bytes. */
  function ValidateRoleName(name: string): (r: Option<Error>)
    ensures r.Some? <==> ByteLen(name) < MinProfileNameLength
    ensures r.Some? ==> r.value == ErrRoleNameTooShort()
  {
    if ByteLen(name) < MinProfileNameLength then Some(ErrRoleNameTooShort()) else None
  }

  /** The minimum counts bytes, not characters: two two-byte letters are long enough, three ASCII letters are not. */
  lemma RoleNameLengthCountsBytes()
    ensures ValidateRoleName("éé").None?
    ensures ValidateRoleName("ADM").Some?
    ensures ValidateRoleName("USER").None?
  {
    assert ByteLen("éé") == 4;
  }

  class Role {
    var id: Uuid
    var name: string
    var permissions: seq<string>
    var createdAt: int
    var updatedAt: int

    /** The role's fields as a value. */
    function Data(): RoleData
      reads this
    {
      RoleData(id, name, permissions, createdAt, updatedAt)
    }

    /** `NewRole`; the fresh identifier that `uuid.New()` draws is a parameter. */
    constructor (id: Uuid, name: string, permissions: seq<string>, now: int)
      ensures Data() == RoleData(id, name, permissions, now, now)
    {
      this.id := id;
      this.name := name;
      this.permissions := permissions;
      this.createdAt := now;
      this.updatedAt := now;
    }

    /** A role object holding the given fields, as decoding a stored or cached role gives. */
    constructor FromData(d: RoleData)
      ensures Data() == d
    {
      id := d.id;
      name := d.name;
      permissions := d.permissions;
      createdAt := d.createdAt;
      updatedAt := d.updatedAt;
    }

    /** `Validate`. */
    function Validate(): (r: Option<Error>)
      reads this
      ensures r.Some? <==> ByteLen(name) < MinProfileNameLength
    {
      ValidateRoleName(name)
    }

    /** `UpdateName`. */
    method UpdateName(name: string, now: int)
      modifies this
      ensures Data() == old(Data()).(name := name, updatedAt := now)
    {
      this.name := name;
      this.updatedAt := now;
    }

    /** `UpdatePermissions`. */
    method UpdatePermissions(permissions: seq<string>, now: int)
      modifies this
      ensures Data() == old(Data()).(permissions := permissions, updatedAt := now)
    {
      this.permissions := permissions;
      this.updatedAt := now;
    }

    /** `HasPermission`: exact membership, no wildcard. */
    function HasPermission(permission: string): (r: bool)
      reads this
      ensures r <==> permission in permissions
    {
      Contains(permissions, permission)
    }

    /** `IsRoot`: decided by the name alone. */
    predicate IsRoot()
      reads this
    {
      name == RootRoleName
    }
  }
}
