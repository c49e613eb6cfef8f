/**
 * The request validators of internal/core/dto/input.go. Each runs its checks
 * in a fixed order and reports the first failure as an INVALID_INPUT error
 * naming the field; lengths are Go `len`, that is UTF-8 bytes.
 */
module DtoInput {
  import opened Wrappers
  import opened Text
  import opened Validator
  import opened AppError

  datatype ProfileInput = ProfileInput(name: Option<string>, permissions: Option<seq<string>>)

  datatype UserInput = UserInput(
    name: Option<string>,
    username: Option<string>,
    email: Option<string>,
    status: Option<bool>,
    profileID: Option<nat>)

  datatype PasswordInput = PasswordInput(password: string, passwordConfirm: string)

  datatype LoginInput = LoginInput(login: string, password: string, expiration: bool)

  function ErrNameShort(): Error { InvalidInput("name", "name must be at least 5 characters") }
  function ErrUsernameShort(): Error { InvalidInput("username", "username must be at least 5 characters") }
  function ErrEmailFormat(): Error { InvalidInput("email", "invalid email format") }

  /** `ProfileInput.Validate`: a name, when given, has at least four bytes. */
  function ValidateProfileInput(p: ProfileInput): (r: Option<Error>)
    ensures r.Some? <==> p.name.Some? && ByteLen(p.name.value) < MinProfileNameLength
    ensures r.Some? ==> r.value == InvalidInput("name", "name must be at least 4 characters")
  {
    if p.name.Some? && ByteLen(p.name.value) < MinProfileNameLength then
      Some(InvalidInput("name", "name must be at least 4 characters"))
    else None
  }

  predicate NameBad(name: Option<string>) { name.Some? && ByteLen(name.value) < MinNameLength }
  predicate UsernameBad(username: Option<string>) { username.Some? && ByteLen(username.value) < MinUsernameLength }
  predicate EmailBad(email: Option<string>) { email.Some? && !IsValidEmail(email.value) }

  /** The field checks of `UserInput.Validate`: name, then username, then e-mail; absent fields pass. */
  function CheckUserFields(name: Option<string>, username: Option<string>, email: Option<string>): (r: Option<Error>)
    ensures r == Some(ErrNameShort()) <==> NameBad(name)
    ensures r == Some(ErrUsernameShort()) <==> !NameBad(name) && UsernameBad(username)
    ensures r == Some(ErrEmailFormat()) <==> !NameBad(name) && !UsernameBad(username) && EmailBad(email)
    ensures r.None? <==> !NameBad(name) && !UsernameBad(username) && !EmailBad(email)
  {
    if NameBad(name) then Some(ErrNameShort())
    else if UsernameBad(username) then Some(ErrUsernameShort())
    else if EmailBad(email) then Some(ErrEmailFormat())
    else None
  }

  /** `UserInput.Validate`. */
  function ValidateUserInput(u: UserInput): Option<Error>
  {
    CheckUserFields(u.name, u.username, u.email)
  }

  /** An input that names no field is valid; so is one whose fields all pass, whatever the status and profile. */
  lemma EmptyUserInputValid(status: Option<bool>, profileID: Option<nat>)
    ensures ValidateUserInput(UserInput(None, None, None, status, profileID)).None?
  {
  }

  /** `PasswordInput.Validate`: required, then at least six bytes, then equal to the confirmation. */
  function ValidatePasswordInput(p: PasswordInput): (r: Option<Error>)
    ensures p.password == "" ==> r == Some(InvalidInput("password", "password is required"))
    ensures p.password != "" && ByteLen(p.password) < MinPasswordLength ==>
      r == Some(InvalidInput("password", "password must be at least 6 characters"))
    ensures ByteLen(p.password) >= MinPasswordLength && p.password != p.passwordConfirm ==>
      r == Some(InvalidInput("password_confirm", "passwords do not match"))
    ensures r.None? <==> ByteLen(p.password) >= MinPasswordLength && p.password == p.passwordConfirm
  {
    if p.password == "" then Some(InvalidInput("password", "password is required"))
    else if ByteLen(p.password) < MinPasswordLength then Some(InvalidInput("password", "password must be at least 6 characters"))
    else if p.password != p.passwordConfirm then Some(InvalidInput("password_confirm", "passwords do not match"))
    else None
  }

  /** `LoginInput.Validate`: login required, then password required. */
  function ValidateLoginInput(l: LoginInput): (r: Option<Error>)
    ensures l.login == "" ==> r == Some(InvalidInput("login", "login is required"))
    ensures l.login != "" && l.password == "" ==> r == Some(InvalidInput("password", "password is required"))
    ensures r.None? <==> l.login != "" && l.password != ""
  {
    if l.login == "" then Some(InvalidInput("login", "login is required"))
    else if l.password == "" then Some(InvalidInput("password", "password is required"))
    else None
  }

  /** `IDsInput.Validate`: at least one identifier, and none of them zero. */
  method ValidateIDsInput(ids: seq<nat>) returns (r: Option<Error>)
    ensures |ids| == 0 ==> r == Some(InvalidInput("ids", "at least one id is required"))
    ensures |ids| > 0 && 0 in ids ==> r == Some(InvalidInput("ids", "invalid id value"))
    ensures r.None? <==> |ids| > 0 && 0 !in ids
  {
    if |ids| == 0 {
      return Some(InvalidInput("ids", "at least one id is required"));
    }
    var i := 0;
    while i < |ids|
      invariant 0 <= i <= |ids|
      invariant 0 !in ids[..i]
    {
      if ids[i] == 0 {
        return Some(InvalidInput("ids", "invalid id value"));
      }
      i := i + 1;
    }
    assert ids[..|ids|] == ids;
    return None;
  }
}
