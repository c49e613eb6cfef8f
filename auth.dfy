/**
 * The credential entity (internal/core/domain/entity/auth.go): an enabled flag,
 * the session token that access tokens carry, and a bcrypt password hash.
 * bcrypt is idealised: a hash remembers the password it was made from and the
 * salt drawn for it, and comparing succeeds exactly for that password.
 */
module AuthEntity {
  import opened Wrappers
  import opened Text
  import opened Validator
  import opened AppError

  /** A bcrypt hash: the hashed password and the random salt drawn for it. */
  datatype Hash = Hash(secret: string, salt: nat)

  /** bcrypt refuses passwords longer than 72 bytes. */
  const MaxBcryptPasswordBytes := 72

  /** `bcrypt.GenerateFromPassword`; the salt it draws is a parameter. */
  function GenerateFromPassword(password: string, salt: nat): (r: Result<Hash, GoError>)
    ensures r.Ok? <==> ByteLen(password) <= MaxBcryptPasswordBytes
  {
    if ByteLen(password) > MaxBcryptPasswordBytes then Err(Plain("bcrypt: password length exceeds 72 bytes"))
    else Ok(Hash(password, salt))
  }

  /** `bcrypt.CompareHashAndPassword(...) == nil`. */
  predicate CompareHashAndPassword(h: Hash, password: string)
  {
    h.secret == password
  }

  /** A hash made from a password accepts that password and no other, whatever salt was drawn. */
  lemma HashAcceptsOnlyItsPassword(password: string, salt: nat, other: string)
    requires GenerateFromPassword(password, salt).Ok?
    ensures CompareHashAndPassword(GenerateFromPassword(password, salt).value, password)
    ensures CompareHashAndPassword(GenerateFromPassword(password, salt).value, other) <==> other == password
  {
  }

  function ErrProfileRequired(): Error
  {
    InvalidInput("profile_id", "profile is required")
  }

  function ErrPasswordTooShort(): Error
  {
    InvalidInput("password", "password must be at least 6 characters")
  }

  /** A credential's fields, as stored and as cached. */
  datatype AuthData = AuthData(
    status: bool,
    profileID: nat,
    token: Option<string>,
    password: Option<Hash>,
    createdAt: int,
    updatedAt: int)

  /** `IsActive` on a credential value. */
  predicate Active(a: AuthData)
  {
    a.status && a.password.Some?
  }

  class Auth {
    var status: bool
    var profileID: nat
    var token: Option<string>
    var password: Option<Hash>
    var createdAt: int
    var updatedAt: int

    function Data(): AuthData
      reads this
    {
      AuthData(status, profileID, token, password, createdAt, updatedAt)
    }

    /** A credential with no profile, no token and no password, as the backend's `NewAuth(status)` makes. */
    constructor (status: bool, now: int)
      ensures Data() == AuthData(status, 0, None, None, now, now)
    {
      this.status := status;
      this.profileID := 0;
      this.token := None;
      this.password := None;
      this.createdAt := now;
      this.updatedAt := now;
    }

    /** A credential object holding the given fields, as decoding a stored or cached one gives. */
    constructor FromData(d: AuthData)
      ensures Data() == d
    {
      status := d.status;
      profileID := d.profileID;
      token := d.token;
      password := d.password;
      createdAt := d.createdAt;
      updatedAt := d.updatedAt;
    }

    /** `NewAuth(profileID, status)`: a profile is required. */
    static method NewAuth(profileID: nat, status: bool, now: int) returns (r: Result<Auth, Error>)
      ensures profileID == 0 <==> r.Err?
      ensures r.Err? ==> r.error == ErrProfileRequired()
      ensures r.Ok? ==> fresh(r.value) && r.value.Data() == AuthData(status, profileID, None, None, now, now)
    {
      if profileID == 0 {
        return Err(ErrProfileRequired());
      }
      var a := new Auth(status, now);
      a.profileID := profileID;
      return Ok(a);
    }

    /**
     * `SetPassword`: a password shorter than six bytes is refused before hashing,
     * a hashing failure is returned as is, and either way nothing changes; on
     * success the new hash replaces the old one.
     */
    method SetPassword(password: string, salt: nat, now: int) returns (err: Option<GoError>)
      modifies this
      ensures ByteLen(password) < MinPasswordLength ==> err == Some(App(ErrPasswordTooShort()))
      ensures ByteLen(password) >= MinPasswordLength && GenerateFromPassword(password, salt).Err? ==>
        err == Some(GenerateFromPassword(password, salt).error)
      ensures err.Some? ==> Data() == old(Data())
      ensures err.None? <==> MinPasswordLength <= ByteLen(password) <= MaxBcryptPasswordBytes
      ensures err.None? ==> Data() == old(Data()).(password := Some(Hash(password, salt)), updatedAt := now)
      ensures err.None? ==> forall p :: ValidatePassword(p) <==> p == password
    {
      if ByteLen(password) < MinPasswordLength {
        return Some(App(ErrPasswordTooShort()));
      }
      var hash := GenerateFromPassword(password, salt);
      if hash.Err? {
        return Some(hash.error);
      }
      this.password := Some(hash.value);
      this.updatedAt := now;
      return None;
    }

    /** `ValidatePassword`: never true without a password. */
    predicate ValidatePassword(password: string)
      reads this
    {
      this.password.Some? && CompareHashAndPassword(this.password.value, password)
    }

    /** `ResetPassword`: drops the token and the password, so no password validates any more. */
    method ResetPassword(now: int)
      modifies this
      ensures Data() == old(Data()).(token := None, password := None, updatedAt := now)
      ensures forall p :: !ValidatePassword(p)
      ensures !IsActive()
    {
      token := None;
      password := None;
      updatedAt := now;
    }

    /** `SetToken`. */
    method SetToken(token: string, now: int)
      modifies this
      ensures Data() == old(Data()).(token := Some(token), updatedAt := now)
    {
      this.token := Some(token);
      updatedAt := now;
    }

    predicate HasPassword()
      reads this
    {
      password.Some?
    }

    /** `IsActive`: enabled and holding a password. */
    predicate IsActive()
      reads this
    {
      Active(Data())
    }

    /** `Enable`. */
    method Enable(now: int)
      modifies this
      ensures Data() == old(Data()).(status := true, updatedAt := now)
      ensures IsActive() <==> HasPassword()
    {
      status := true;
      updatedAt := now;
    }

    /** `Disable`. */
    method Disable(now: int)
      modifies this
      ensures Data() == old(Data()).(status := false, updatedAt := now)
      ensures !IsActive()
    {
      status := false;
      updatedAt := now;
    }
  }
}
