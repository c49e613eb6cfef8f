/**
 * The fields of the earlier user entity (internal/core/domain/entity/user.go and
 * auth.go) that its cache decorator keys on: a numeric identifier, e-mail,
 * username and the credential's token.
 */
module LegacyUserEntity {
  import opened Wrappers

  datatype LegacyUser = LegacyUser(
    id: nat,
    name: string,
    username: string,
    email: string,
    token: Option<string>)
}
