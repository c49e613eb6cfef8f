/**
 * The user entity (backend/internal/core/domain/entity/user.go): identity fields,
 * an optional credential and the list of roles the user holds.
 */
module UserEntity {
  import opened Wrappers
  import opened Text
  import opened Validator
  import opened AppError
  import opened Uuid
  import opened RoleEntity
  import opened AuthEntity

  /** A user's fields, as stored and as cached. */
  datatype UserData = UserData(
    id: Uuid,
    name: string,
    username: string,
    email: string,
    auth: Option<AuthData>,
    roles: seq<RoleData>,
    createdAt: int,
    updatedAt: int)

  function ErrUserNameTooShort(): Error { InvalidInput("name", "user name must be at least 5 characters") }
  function ErrUsernameTooShort(): Error { InvalidInput("username", "username must be at least 5 characters") }
  function ErrEmailRequired(): Error { InvalidInput("email", "email is required") }
  function ErrInvalidEmailFormat(): Error { InvalidInput("email", "invalid email format") }
  function ErrAuthRequired(): Error { InvalidInput("auth", "auth is required") }

  /**
   * `Validate` on a user value: the checks run in order and the first that fails
   * decides the error.
   */
  function ValidateUser(d: UserData): (r: Option<Error>)
    ensures r.None? <==>
      ByteLen(d.name) >= MinNameLength && ByteLen(d.username) >= MinUsernameLength
      && IsValidEmail(d.email) && d.auth.Some?
    ensures ByteLen(d.name) < MinNameLength ==> r == Some(ErrUserNameTooShort())
    ensures ByteLen(d.name) >= MinNameLength && ByteLen(d.username) < MinUsernameLength ==>
      r == Some(ErrUsernameTooShort())
  {
    if ByteLen(d.name) < MinNameLength then Some(ErrUserNameTooShort())
    else if ByteLen(d.username) < MinUsernameLength then Some(ErrUsernameTooShort())
    else if d.email == "" then Some(ErrEmailRequired())
    else if !IsValidEmail(d.email) then Some(ErrInvalidEmailFormat())
    else if d.auth.None? then Some(ErrAuthRequired())
    else None
  }

  /** The empty e-mail gets its own message, which an invalid non-empty one does not. */
  lemma ValidateUserEmailMessages(d: UserData)
    requires ByteLen(d.name) >= MinNameLength && ByteLen(d.username) >= MinUsernameLength
    ensures d.email == "" ==> ValidateUser(d) == Some(ErrEmailRequired())
    ensures d.email != "" && !IsValidEmail(d.email) ==> ValidateUser(d) == Some(ErrInvalidEmailFormat())
    ensures IsValidEmail(d.email) && d.auth.None? ==> ValidateUser(d) == Some(ErrAuthRequired())
  {
    if d.email == "" {
      EmailRejectedExamples();
    }
  }

  /** No two roles share an identifier. */
  predicate DistinctIds(rs: seq<RoleData>)
  {
    forall i, j :: 0 <= i < j < |rs| ==> rs[i].id != rs[j].id
  }

  class User {
    var id: Uuid
    var name: string
    var username: string
    var email: string
    var auth: Auth?
    /** The held roles, by value: the use cases hand each user freshly decoded roles that nothing else shares. */
    var roles: seq<RoleData>
    var createdAt: int
    var updatedAt: int

    function AuthValue(): Option<AuthData>
      reads this, auth
    {
      if auth == null then None else Some(auth.Data())
    }

    /** The user's fields as a value. */
    function Data(): UserData
      reads this, auth
    {
      UserData(id, name, username, email, AuthValue(), roles, createdAt, updatedAt)
    }

    constructor Init(id: Uuid, name: string, username: string, email: string, auth: Auth?, now: int)
      ensures this.id == id && this.name == name && this.username == username && this.email == email
      ensures this.auth == auth && roles == [] && createdAt == now && updatedAt == now
    {
      this.id := id;
      this.name := name;
      this.username := username;
      this.email := email;
      this.auth := auth;
      this.roles := [];
      this.createdAt := now;
      this.updatedAt := now;
    }

    /**
     * `NewUser`: builds the user with no roles and validates it; the fresh
     * identifier that `uuid.New()` draws is a parameter.
     */
    static method NewUser(id: Uuid, name: string, username: string, email: string, auth: Auth?, now: int)
      returns (r: Result<User, Error>)
      ensures var d := UserData(id, name, username, email,
          if auth == null then None else Some(auth.Data()), [], now, now);
        (r.Err? <==> ValidateUser(d).Some?)
        && (r.Err? ==> r.error == ValidateUser(d).value)
        && (r.Ok? ==> fresh(r.value) && r.value.auth == auth && r.value.Data() == d)
    {
      var u := new User.Init(id, name, username, email, auth, now);
      var err := u.Validate();
      if err.Some? {
        return Err(err.value);
      }
      return Ok(u);
    }

    /** A user object holding the given fields, as decoding a stored or cached user gives. */
    static method FromData(d: UserData) returns (u: User)
      ensures fresh(u) && u.Data() == d
      ensures u.auth != null ==> fresh(u.auth)
    {
      var a: Auth? := null;
      if d.auth.Some? {
        a := new Auth.FromData(d.auth.value);
      }
      u := new User.Init(d.id, d.name, d.username, d.email, a, d.createdAt);
      u.roles := d.roles;
      u.updatedAt := d.updatedAt;
    }

    /** `Validate`. */
    function Validate(): (r: Option<Error>)
      reads this, auth
      ensures r == ValidateUser(Data())
    {
      ValidateUser(Data())
    }

    method UpdateName(name: string, now: int)
      modifies `name, `updatedAt
      ensures Data() == old(Data()).(name := name, updatedAt := now)
    {
      this.name := name;
      updatedAt := now;
    }

    method UpdateUsername(username: string, now: int)
      modifies `username, `updatedAt
      ensures Data() == old(Data()).(username := username, updatedAt := now)
    {
      this.username := username;
      updatedAt := now;
    }

    method UpdateEmail(email: string, now: int)
      modifies `email, `updatedAt
      ensures Data() == old(Data()).(email := email, updatedAt := now)
    {
      this.email := email;
      updatedAt := now;
    }

    /**
     * `SetPassword`: creates an enabled credential when there is none, then sets
     * the password on it. The user's own `UpdatedAt` is not touched.
     */
    method SetPassword(password: string, salt: nat, now: int) returns (err: Option<GoError>)
      modifies this, auth
      ensures old(auth) != null ==> auth == old(auth)
      ensures old(auth) == null ==> auth != null && fresh(auth)
      ensures var before := if old(auth) == null then AuthData(true, 0, None, None, now, now) else old(auth.Data());
        if err.Some? then auth.Data() == before
        else auth.Data() == before.(password := Some(Hash(password, salt)), updatedAt := now)
      ensures ByteLen(password) < MinPasswordLength ==> err == Some(App(ErrPasswordTooShort()))
      ensures ByteLen(password) >= MinPasswordLength && GenerateFromPassword(password, salt).Err? ==>
        err == Some(GenerateFromPassword(password, salt).error)
      ensures err.None? <==> MinPasswordLength <= ByteLen(password) <= MaxBcryptPasswordBytes
      ensures err.None? ==> forall p :: ValidatePassword(p) <==> p == password
      ensures id == old(id) && name == old(name) && username == old(username) && email == old(email)
      ensures roles == old(roles) && createdAt == old(createdAt) && updatedAt == old(updatedAt)
    {
      if auth == null {
        auth := new Auth(true, now);
      }
      err := auth.SetPassword(password, salt, now);
    }

    /** `ValidatePassword`: false without a credential. */
    predicate ValidatePassword(password: string)
      reads this, auth
    {
      auth != null && auth.ValidatePassword(password)
    }

    /** `ResetPassword`: clears token and password when there is a credential, and stamps the user. */
    method ResetPassword(now: int)
      modifies this, auth
      ensures auth == old(auth)
      ensures auth != null ==> auth.Data() == old(auth.Data()).(token := None, password := None, updatedAt := now)
      ensures id == old(id) && name == old(name) && username == old(username) && email == old(email)
      ensures roles == old(roles) && createdAt == old(createdAt) && updatedAt == now
      ensures IsNew() && !IsActive()
    {
      if auth != null {
        auth.ResetPassword(now);
      }
      updatedAt := now;
    }

    /** `IsActive`. */
    predicate IsActive()
      reads this, auth
    {
      auth != null && auth.IsActive()
    }

    /** `IsNew`: no credential, or one without a password. */
    predicate IsNew()
      reads this, auth
    {
      auth == null || !auth.HasPassword()
    }

    /**
     * `AddRole`: ignores a nil role and a role whose identifier the user already
     * holds, and appends any other; so the held roles never share an identifier.
     */
    method AddRole(role: Option<RoleData>)
      modifies `roles
      ensures role.None? || (exists i :: 0 <= i < |old(roles)| && old(roles)[i].id == role.value.id) ==> roles == old(roles)
      ensures role.Some? && (forall i :: 0 <= i < |old(roles)| ==> old(roles)[i].id != role.value.id) ==>
        roles == old(roles) + [role.value]
      ensures DistinctIds(old(roles)) ==> DistinctIds(roles)
      ensures id == old(id) && name == old(name) && username == old(username) && email == old(email)
      ensures auth == old(auth) && createdAt == old(createdAt) && updatedAt == old(updatedAt)
    {
      if role.None? {
        return;
      }
      var i := 0;
      while i < |roles|
        invariant 0 <= i <= |roles|
        invariant forall k :: 0 <= k < i ==> roles[k].id != role.value.id
      {
        if roles[i].id == role.value.id {
          return;
        }
        i := i + 1;
      }
      roles := roles + [role.value];
    }

    /** `HasRole`: some held role has exactly this name. */
    predicate HasRole(roleName: string)
      reads this
    {
      exists i :: 0 <= i < |roles| && roles[i].name == roleName
    }

    /** `HasPermission`: some held role lists exactly this permission; no wildcard and no root bypass. */
    predicate HasPermission(permission: string)
      reads this
    {
      exists i :: 0 <= i < |roles| && permission in roles[i].permissions
    }
  }
}
