# Access control of the hexagonal Go backend, in Dafny

This project models the access-control core of the `hexagonal` Go backend and proves properties of the model. It also models the small helpers that core relies on.

- **Entities.** Roles, users and their credentials (`Role`, `User`, `Auth`).
- **Route guard.** `RequirePermission` admits or refuses a request by the user's roles.
- **Session use case.** Login, refresh, `Me` and logout, with the session token that access tokens carry.
- **Bearer-token middleware.** The `Validator` decision sequence and its `Next` skip rule.
- **Revocation registry.** The token blacklist kept in Redis.
- **Read-through caches.** The Redis caches in front of the user and role stores, and the earlier, asynchronous user cache.
- **User use case.** Create, update, delete, reset password and set password.
- **Validation and errors.** Entity and request validation, the structured application error, and the mapping of error codes to HTTP statuses.
- **Pagination.** The pagination arithmetic of both backends, and the page-number strip of the web front end.
- **Configuration.** The `.env` loader, the environment-variable reader, and the registry of value parsers.
- **Postgres text arrays.** The serialiser and the parser.
- **Logger.** Level names, level parsing, decimal formatting, `With` and the level filter.

How the outside world is represented:

- **Stores.** The GORM stores and Redis are classes over maps. Redis keeps a server clock and a reachability flag; a key is live while the clock has not passed its deadline.
- **Inputs from the environment.** Clocks, fresh UUIDs, random salts and session tokens are parameters.
- **Cryptography.** bcrypt is idealised: a hash accepts exactly the password it was made from. JWT signing and parsing are opaque steps whose results are parameters.
- **Nil dereferences.** A dereference of nil in Go becomes an explicit `ErrNilDereference` error.
- **Library helpers.** The modules `Text` and `Uuid` model the Go library functions used here: `strings`, `strconv.Itoa` and `uuid.Parse`/`String`.

Where the code departs from the behaviour its security design intends, the model follows the code. Each such divergence is proved as a property of the model and recorded below:

- The guard never skips disabled roles.
- The revocation check fails open when Redis cannot be read.
- The backend caches fail a read whose cache write fails.
- The middleware revokes the raw bearer string rather than the session token.
- A role renamed through the cache is still found under its old name.

## Model

| member | source | states |
|---|---|---|
| Validator.IsValidEmail | backend/pkg/validator/email.go:81-86 | True exactly when the text matches `local@domain.tld` with a TLD of at least two letters (the pattern as a ghost predicate) |
| Validator.MatchEmailSound | backend/pkg/validator/email.go:70 | The executable matcher accepts only strings of the e-mail pattern |
| Validator.MatchEmailComplete | backend/pkg/validator/email.go:70 | The executable matcher accepts every string of the e-mail pattern |
| Validator.PatternWitness | backend/pkg/validator/email.go:66-70 | Any local part, '@', domain, '.' and a TLD of two or more letters is accepted |
| Validator.EmailAcceptedExamples | backend/pkg/validator/email_test.go:18-21 | "a@b.co" is valid |
| Validator.EmailRejectedExamples | backend/pkg/validator/email_test.go:18-21 | "a@b.c", "a@b", "@example.com", "user@" and "" are invalid |
| AppError.TextShape | backend/pkg/apperror/error.go:57-62 | `Error()` is "[code] field: message" when a field is set and "[code] message" otherwise |
| AppError.TextIgnoresDetailsAndCause | backend/pkg/apperror/error.go:57-62 | Details and cause never change the rendering |
| AppError.AsApp | backend/pkg/apperror/error.go:195-201 | `errors.As` finds the application error on the chain, or none for a plain error |
| AppError.AsAppThroughWrappers | backend/pkg/apperror/error.go:195-201 | Any number of `%w` wrappers does not hide the application error |
| AppError.IsComparesCodes | backend/pkg/apperror/error.go:70-76 | `Is` holds exactly when the codes agree, and so is reflexive, symmetric and transitive |
| AppError.GetCode | backend/pkg/apperror/error.go:214-220 | An error without an application error reads as INTERNAL_ERROR |
| AppError.IsCodeGetCode | backend/pkg/apperror/error.go:195-220 | `IsCode` implies `GetCode` gives that code; the converse holds for every code except INTERNAL_ERROR |
| AppError.ValidationErrorByCode | backend/pkg/apperror/error.go:209-211 | A validation error is exactly one whose code is INVALID_INPUT or VALIDATION_FAILED |
| AppError.WithField | backend/pkg/apperror/error.go:79-82 | Only the field changes |
| AppError.WithDetails | backend/pkg/apperror/error.go:85-91 | The details map is created on first use, gains the key with its value and keeps every other key |
| AppError.WithCause | backend/pkg/apperror/error.go:94-97 | Only the cause changes, and `Unwrap` then returns it |
| ErrorStatus.MapAppErrorToStatus | backend/internal/adapter/driver/rest/middleware/errorHandler.go:72-98 | The status is one of 400, 401, 403, 404, 409 or 500 |
| ErrorStatus.StatusClasses | backend/internal/adapter/driver/rest/middleware/errorHandler.go:72-98 | Each status is given exactly for its class of codes: 401 for the auth codes, 403 for forbidden, 404 for the not-found codes, 409 for exists/conflict, 400 for in-use, validation and password codes, and 500 for everything else |
| ErrorStatus.ResponseStatusByCode | backend/internal/adapter/driver/rest/middleware/errorHandler.go:46-68 | The response status is the status of `GetCode`; a non-application error gives 500 |
| RoleEntity.ValidateRoleName | backend/internal/core/domain/entity/role.go:33-38 | A role name fails validation exactly when it has fewer than four bytes, with the role-name error |
| RoleEntity.RoleNameLengthCountsBytes | backend/internal/core/domain/entity/role.go:33-38 | The minimum counts bytes: "éé" passes and "ADM" fails |
| RoleEntity.Role.constructor | backend/internal/core/domain/entity/role.go:21-30 | `NewRole` stores the name and permissions, with creation and update times equal |
| RoleEntity.Role.FromData | backend/internal/adapter/driven/persistence/postgres/mapper/mapper.go:94-106 | A role object holds exactly the decoded fields |
| RoleEntity.Role.Validate | backend/internal/core/domain/entity/role.go:33-38 | Fails exactly when the name has fewer than four bytes |
| RoleEntity.Role.UpdateName | backend/internal/core/domain/entity/role.go:41-45 | Only the name and the update time change |
| RoleEntity.Role.UpdatePermissions | backend/internal/core/domain/entity/role.go:47-51 | Only the permissions and the update time change |
| RoleEntity.Role.HasPermission | backend/internal/core/domain/entity/role.go:53-55 | Holds exactly when the permission is in the list; no wildcard |
| AuthEntity.GenerateFromPassword | internal/core/domain/entity/auth.go:43-46 | Hashing succeeds exactly for passwords of at most 72 bytes |
| AuthEntity.HashAcceptsOnlyItsPassword | internal/core/domain/entity/auth.go:55-60 | A hash accepts its own password and no other |
| AuthEntity.Auth.constructor | internal/core/domain/entity/auth.go:29-34 | A credential with the given status, no token and no password, created and updated now |
| AuthEntity.Auth.FromData | backend/internal/adapter/driven/persistence/postgres/mapper/mapper.go:63-76 | A credential object holds exactly the decoded fields |
| AuthEntity.Auth.NewAuth | internal/core/domain/entity/auth.go:24-35 | Profile 0 gives the profile-required error; otherwise a fresh credential with that profile and status |
| AuthEntity.Auth.SetPassword | internal/core/domain/entity/auth.go:38-52 | Under six bytes gives the too-short error and a hashing failure is returned; both leave the state unchanged; on success exactly the new password validates |
| AuthEntity.Auth.ResetPassword | internal/core/domain/entity/auth.go:63-67 | Token and password are cleared, so no password validates and the credential is inactive |
| AuthEntity.Auth.SetToken | internal/core/domain/entity/auth.go:70-73 | Only the token and the update time change |
| AuthEntity.Auth.Enable | internal/core/domain/entity/auth.go:86-89 | Status becomes true; active exactly when a password is set |
| AuthEntity.Auth.Disable | internal/core/domain/entity/auth.go:92-95 | Status becomes false; the credential is inactive |
| UserEntity.ValidateUser | backend/internal/core/domain/entity/user.go:46-64 | Checks name length, then username length, then empty e-mail, then e-mail format, then a missing credential; the first failure decides the error |
| UserEntity.ValidateUserEmailMessages | backend/internal/core/domain/entity/user.go:53-63 | An empty e-mail gets the required error, an invalid one the format error, and a missing credential comes after both |
| UserEntity.User.Init | backend/internal/core/domain/entity/user.go:25-35 | A user with the given fields, no roles, created and updated now |
| UserEntity.User.NewUser | backend/internal/core/domain/entity/user.go:25-43 | Fails exactly when validation of the new user fails, with that error; otherwise a fresh user with those fields |
| UserEntity.User.FromData | backend/internal/adapter/driven/persistence/postgres/mapper/mapper.go:28-44 | A fresh user object holding exactly the decoded fields |
| UserEntity.User.Validate | backend/internal/core/domain/entity/user.go:46-64 | Equals `ValidateUser` of the current fields, whose contract states the ordered checks and the first-failure errors |
| UserEntity.User.UpdateName | backend/internal/core/domain/entity/user.go:67-71 | Only the name and the update time change |
| UserEntity.User.UpdateUsername | backend/internal/core/domain/entity/user.go:73-77 | Only the username and the update time change |
| UserEntity.User.UpdateEmail | backend/internal/core/domain/entity/user.go:79-83 | Only the e-mail and the update time change |
| UserEntity.User.SetPassword | backend/internal/core/domain/entity/user.go:85-93 | A missing credential is created enabled; then the credential's password rules apply; the user's own fields stay |
| UserEntity.User.ResetPassword | backend/internal/core/domain/entity/user.go:104-110 | Token and password are cleared and the user is stamped; the user is then new and inactive |
| UserEntity.User.AddRole | backend/internal/core/domain/entity/user.go:122-133 | A nil role or a held identifier is ignored; any other role is appended; distinct identifiers stay distinct |
| Rbac.AdmitsSomeRole | backend/internal/adapter/driver/rest/middleware/rbac.go:31-47 | The guard admits exactly when some role is ROOT, holds "*" or lists the permission |
| Rbac.RequirePermission | backend/internal/adapter/driver/rest/middleware/rbac.go:14-49 | The handler's outcome: 401 without a user, next when admitted, 403 otherwise |
| Rbac.AdmitsIgnoresOrder | backend/internal/adapter/driver/rest/middleware/rbac.go:31-43 | Admission depends only on the set of roles, not their order or repetition |
| Rbac.GrantsAllRoleAdmitsEverything | backend/internal/adapter/driver/rest/middleware/rbac.go:31-35 | A ROOT or wildcard role admits every permission |
| Rbac.AdmitsExactWithoutRoot | backend/internal/adapter/driver/rest/middleware/rbac.go:36-38 | Without ROOT or wildcard roles, admission is exact membership in some role |
| Rbac.HasPermissionAdmits | backend/internal/core/domain/entity/user.go:146-153 | Whatever `User.HasPermission` grants, the guard admits |
| Rbac.WildcardWiderThanHasPermission | backend/internal/core/domain/entity/user.go:146-153 | A wildcard role is admitted by the guard but not by `User.HasPermission` |
| Rbac.GuardExamples | backend/internal/adapter/driver/rest/middleware/rbac_test.go:45-126 | No user gives 401; a missing permission 403; an exact permission, "*" and a ROOT role without permissions pass |
| Redis.Read | backend/internal/adapter/driven/storage/redis/service.go:67-73 | A read succeeds exactly when the server is reachable and the key is live, with its stored value |
| Redis.Write | backend/internal/adapter/driven/storage/redis/service.go:76-82 | A reachable server stores the value with its deadline; an unreachable one errors and changes nothing |
| Redis.Delete | backend/internal/adapter/driven/storage/redis/service.go:85-90 | No keys is a no-op; otherwise exactly the keys are removed, or an error when unreachable |
| Redis.GetAfterSet | backend/internal/adapter/driven/storage/redis/service.go:67-82 | A written value reads back until its deadline |
| Redis.GetAfterExpiry | backend/internal/adapter/driven/storage/redis/service.go:67-82 | After its deadline a key reads as missing |
| Redis.SetOtherKey | backend/internal/adapter/driven/storage/redis/service.go:76-82 | A write leaves every other key's answer alone |
| Redis.GetAfterDel | backend/internal/adapter/driven/storage/redis/service.go:85-90 | A deleted key reads as missing; others keep their answers |
| Redis.Service.constructor | backend/internal/adapter/driven/storage/redis/service.go:38-55 | An empty, reachable server |
| Redis.Service.Get | backend/internal/adapter/driven/storage/redis/service.go:67-73 | Answers as `Read` on the current state |
| Redis.Service.Set | backend/internal/adapter/driven/storage/redis/service.go:76-82 | The new state and error are those of `Write` |
| Redis.Service.Del | backend/internal/adapter/driven/storage/redis/service.go:85-90 | The new state and error are those of `Delete` |
| TokenRepository.RevocationLifetime | backend/internal/adapter/driven/storage/redis/tokenRepository.go:22-43 | A revoked token reads as blacklisted for exactly its duration; other tokens are unaffected |
| TokenRepository.FailsOpen | backend/internal/adapter/driven/storage/redis/tokenRepository.go:30-41 | With Redis unreachable no token reads as blacklisted |
| TokenRepository.TokenRepository.constructor | backend/internal/adapter/driven/storage/redis/tokenRepository.go:15-19 | Holds the given service |
| TokenRepository.TokenRepository.BlacklistToken | backend/internal/adapter/driven/storage/redis/tokenRepository.go:22-25 | Writes "revoked" under "blacklist:"+token for the given duration |
| TokenRepository.TokenRepository.IsTokenBlacklisted | backend/internal/adapter/driven/storage/redis/tokenRepository.go:28-43 | Never errors; true exactly when the key is live and decodes; false when Redis is down |
| UserStore.AnswerById | backend/internal/adapter/driven/persistence/postgres/repository/userRepository.go:125-131 | By identifier there is at most one answer |
| UserStore.UserTable.constructor | backend/internal/adapter/driven/persistence/postgres/repository/userRepository.go:33-35 | An empty, reachable table |
| UserStore.UserTable.Find | backend/internal/adapter/driven/persistence/postgres/repository/userRepository.go:125-161 | A look-up answers a row matching the key, and fails exactly when none matches or the database is unreachable |
| UserStore.UserTable.Create | backend/internal/adapter/driven/persistence/postgres/repository/userRepository.go:164-192 | Refuses a taken identifier or token; otherwise inserts the row |
| UserStore.UserTable.Update | backend/internal/adapter/driven/persistence/postgres/repository/userRepository.go:195-224 | A database error when unreachable; for a present identifier, a duplicate-key error when another row holds the token, otherwise the row is rewritten; an absent identifier matches no row, so it changes nothing and raises no error, whatever its token |
| UserStore.UserTable.Delete | backend/internal/adapter/driven/persistence/postgres/repository/userRepository.go:227-249 | No identifiers is a no-op; an error when none exists; otherwise the rows are removed |
| UserStore.UserTable.Count | backend/internal/adapter/driven/persistence/postgres/repository/userRepository.go:98-103 | Counts the rows under the filter, changing nothing |
| UserStore.UserTable.FindAll | backend/internal/adapter/driven/persistence/postgres/repository/userRepository.go:106-122 | Lists rows under the filter, changing nothing |
| UserCache.KeyInjective | backend/internal/adapter/driven/persistence/postgres/repository/userRepositoryCached.go:30-44 | The "user:id:", "user:email:", "user:token:" and "user:username:" keys never collide and each determines its look-up |
| UserCache.Cached | backend/internal/adapter/driven/persistence/postgres/repository/userRepositoryCached.go:61-63 | A key yields a user exactly when it is live and decodes |
| UserCache.AfterFetch | backend/internal/adapter/driven/persistence/postgres/repository/userRepositoryCached.go:65-74 | On a miss a store error returns unchanged with the cache untouched; a user is cached for an hour, and a failed cache write fails the read |
| UserCache.MissPopulates | backend/internal/adapter/driven/persistence/postgres/repository/userRepositoryCached.go:57-75 | After a successful miss, look-ups within the hour are hits returning the same user |
| UserCache.ReadFailsWhenRedisDown | backend/internal/adapter/driven/persistence/postgres/repository/userRepositoryCached.go:65-74 | With Redis down every read fails, whatever the store answers |
| UserCache.UpdateKeys | backend/internal/adapter/driven/persistence/postgres/repository/userRepositoryCached.go:157-164 | The identifier, e-mail and username keys, and the token key exactly when there is a token |
| UserCache.IdKeys | backend/internal/adapter/driven/persistence/postgres/repository/userRepositoryCached.go:171-174 | One identifier key per identifier, in order |
| UserCache.CachedAfterDelete | backend/internal/adapter/driven/persistence/postgres/repository/userRepositoryCached.go:166 | Deleting keys empties exactly those keys |
| UserCache.UpdateInvalidatesNewKeys | backend/internal/adapter/driven/persistence/postgres/repository/userRepositoryCached.go:151-167 | After `Update(u)` every look-up of u's current keys misses |
| UserCache.UpdateKeepsOldEmailEntry | backend/internal/adapter/driven/persistence/postgres/repository/userRepositoryCached.go:157-161 | An entry under a previous e-mail survives `Update` |
| UserCache.UpdateKeepsOldTokenEntry | backend/internal/adapter/driven/persistence/postgres/repository/userRepositoryCached.go:162-164 | An entry under a replaced or cleared token survives `Update` |
| UserCache.UpdateKeepsCaseVariantEntry | backend/internal/adapter/driven/persistence/postgres/repository/userRepositoryCached.go:34-36 | An entry under another letter case of the e-mail survives `Update` |
| UserCache.DeleteKeepsSecondaryEntries | backend/internal/adapter/driven/persistence/postgres/repository/userRepositoryCached.go:170-181 | `Delete` leaves e-mail, username and token entries of deleted users |
| UserCache.OnlyOwnKeys | backend/internal/adapter/driven/persistence/postgres/repository/userRepositoryCached.go:157-164 | `Update` deletes the user's own current keys and no other |
| UserCache.FailedLookupMeansAbsent | backend/internal/adapter/driven/persistence/postgres/repository/userRepositoryCached.go:57-140 | A look-up keeps Redis's reachability and clock; with both services up, a failure means no row matches |
| UserCache.LookupFailsWhenRedisDown | backend/internal/adapter/driven/persistence/postgres/repository/userRepositoryCached.go:57-140 | With Redis down every look-up fails, even of a stored user |
| UserCache.CreateError | backend/internal/adapter/driven/persistence/postgres/repository/userRepositoryCached.go:143-148 | The error of `Create` is the store's |
| UserCache.UpdateError | backend/internal/adapter/driven/persistence/postgres/repository/userRepositoryCached.go:151-167 | The store's refusal, else the error of deleting the keys |
| UserCache.DeleteError | backend/internal/adapter/driven/persistence/postgres/repository/userRepositoryCached.go:170-181 | The store's refusal, else the error of deleting the identifier keys |
| UserCache.CachedUserRepository.constructor | backend/internal/adapter/driven/persistence/postgres/repository/userRepositoryCached.go:23-28 | Holds the given store and Redis |
| UserCache.CachedUserRepository.Find | backend/internal/adapter/driven/persistence/postgres/repository/userRepositoryCached.go:57-75 | A hit returns the cached user without the store; a miss behaves as `AfterFetch` |
| UserCache.CachedUserRepository.FindByID | backend/internal/adapter/driven/persistence/postgres/repository/userRepositoryCached.go:57-75 | The shared look-up under the identifier key |
| UserCache.CachedUserRepository.FindByUsername | backend/internal/adapter/driven/persistence/postgres/repository/userRepositoryCached.go:78-96 | The shared look-up under the username key |
| UserCache.CachedUserRepository.FindByEmail | backend/internal/adapter/driven/persistence/postgres/repository/userRepositoryCached.go:99-117 | The shared look-up under the e-mail key |
| UserCache.CachedUserRepository.FindByToken | backend/internal/adapter/driven/persistence/postgres/repository/userRepositoryCached.go:120-140 | The shared look-up under the token key |
| UserCache.CachedUserRepository.Count | backend/internal/adapter/driven/persistence/postgres/repository/userRepositoryCached.go:47-49 | Passes through without touching the cache |
| UserCache.CachedUserRepository.FindAll | backend/internal/adapter/driven/persistence/postgres/repository/userRepositoryCached.go:52-54 | Passes through without touching the cache |
| UserCache.CachedUserRepository.Create | backend/internal/adapter/driven/persistence/postgres/repository/userRepositoryCached.go:143-148 | Passes through; the cache is unchanged |
| UserCache.CachedUserRepository.Update | backend/internal/adapter/driven/persistence/postgres/repository/userRepositoryCached.go:151-167 | The store first; only on success the user's keys are deleted |
| UserCache.CachedUserRepository.Delete | backend/internal/adapter/driven/persistence/postgres/repository/userRepositoryCached.go:170-181 | Only after the store deletes, the identifier keys alone are deleted |
| RoleStore.RoleTable.constructor | backend/internal/adapter/driven/persistence/postgres/repository/roleRepository.go:25-27 | An empty, reachable table |
| RoleStore.RoleTable.Find | backend/internal/adapter/driven/persistence/postgres/repository/roleRepository.go:98-113 | Answers a row matching the identifier or name; fails exactly when none matches or the database is unreachable |
| RoleStore.RoleTable.Create | backend/internal/adapter/driven/persistence/postgres/repository/roleRepository.go:116-125 | Refuses a taken identifier or name; otherwise inserts |
| RoleStore.RoleTable.Update | backend/internal/adapter/driven/persistence/postgres/repository/roleRepository.go:128-131 | A database error when unreachable; for a present identifier, a duplicate-key error when another row holds the name up to case, otherwise the row takes the given role whole; an absent identifier matches no row, so it changes nothing and raises no error, whatever its name |
| RoleStore.RoleTable.Delete | backend/internal/adapter/driven/persistence/postgres/repository/roleRepository.go:134-146 | No identifiers is a no-op; an error when no row is affected; otherwise the rows are removed |
| RoleStore.RoleTable.Count | backend/internal/adapter/driven/persistence/postgres/repository/roleRepository.go:73-77 | Counts under the filter, changing nothing |
| RoleStore.RoleTable.FindAll | backend/internal/adapter/driven/persistence/postgres/repository/roleRepository.go:80-95 | Lists under the filter, changing nothing |
| RoleCache.KeyInjective | backend/internal/adapter/driven/persistence/postgres/repository/roleRepositoryCached.go:29-35 | "role:id:" and "role:name:" keys never collide and determine the look-up |
| RoleCache.Cached | backend/internal/adapter/driven/persistence/postgres/repository/roleRepositoryCached.go:52-54 | A key yields a role exactly when it is live and decodes |
| RoleCache.AfterFetch | backend/internal/adapter/driven/persistence/postgres/repository/roleRepositoryCached.go:56-65 | On a miss a store error returns unchanged; a role is cached for an hour, and a failed cache write fails the read |
| RoleCache.MissPopulates | backend/internal/adapter/driven/persistence/postgres/repository/roleRepositoryCached.go:48-87 | After a successful miss, look-ups within the hour return the same role |
| RoleCache.ReadFailsWhenRedisDown | backend/internal/adapter/driven/persistence/postgres/repository/roleRepositoryCached.go:56-65 | With Redis down every read fails |
| RoleCache.IdKeys | backend/internal/adapter/driven/persistence/postgres/repository/roleRepositoryCached.go:113-116 | One identifier key per identifier, in order |
| RoleCache.UpdateInvalidates | backend/internal/adapter/driven/persistence/postgres/repository/roleRepositoryCached.go:98-104 | `Update` empties the identifier key and the current name key, and no other |
| RoleCache.RenameKeepsOldNameEntry | backend/internal/adapter/driven/persistence/postgres/repository/roleRepositoryCached.go:103 | A renamed role is still found under its old name until the hour is up |
| RoleCache.DeleteKeepsNameEntries | backend/internal/adapter/driven/persistence/postgres/repository/roleRepositoryCached.go:107-123 | `Delete` leaves the name entries of deleted roles |
| RoleCache.LookupFailsWhenRedisDown | backend/internal/adapter/driven/persistence/postgres/repository/roleRepositoryCached.go:48-87 | With Redis down every role look-up fails and changes nothing |
| RoleCache.CachedRoleRepository.constructor | backend/internal/adapter/driven/persistence/postgres/repository/roleRepositoryCached.go:22-27 | Holds the given store and Redis |
| RoleCache.CachedRoleRepository.Find | backend/internal/adapter/driven/persistence/postgres/repository/roleRepositoryCached.go:48-87 | A hit returns the cached role without the store; a miss behaves as `AfterFetch` |
| RoleCache.CachedRoleRepository.FindByID | backend/internal/adapter/driven/persistence/postgres/repository/roleRepositoryCached.go:48-66 | The shared look-up under the identifier key |
| RoleCache.CachedRoleRepository.FindByName | backend/internal/adapter/driven/persistence/postgres/repository/roleRepositoryCached.go:69-87 | The shared look-up under the name key |
| RoleCache.CachedRoleRepository.Count | backend/internal/adapter/driven/persistence/postgres/repository/roleRepositoryCached.go:38-40 | Passes through |
| RoleCache.CachedRoleRepository.FindAll | backend/internal/adapter/driven/persistence/postgres/repository/roleRepositoryCached.go:43-45 | Passes through |
| RoleCache.CachedRoleRepository.Create | backend/internal/adapter/driven/persistence/postgres/repository/roleRepositoryCached.go:90-95 | Passes through; the cache is unchanged |
| RoleCache.CachedRoleRepository.Update | backend/internal/adapter/driven/persistence/postgres/repository/roleRepositoryCached.go:98-104 | The store first; only on success the identifier and name keys are deleted |
| RoleCache.CachedRoleRepository.Delete | backend/internal/adapter/driven/persistence/postgres/repository/roleRepositoryCached.go:107-123 | Only after the store deletes, the identifier keys alone are deleted |
| LegacyCache.KeyInjective | internal/adapter/driven/persistence/postgres/repository/userRepositoryCached.go:35-49 | The four key kinds never collide; identifier keys are decimal numbers |
| LegacyCache.Cached | internal/adapter/driven/persistence/postgres/repository/userRepositoryCached.go:55-62 | A key yields a user exactly when it is live and decodes |
| LegacyCache.UpdateKeys | internal/adapter/driven/persistence/postgres/repository/userRepositoryCached.go:119-127 | The identifier, e-mail and username keys, and the token key when there is one |
| LegacyCache.IdKeys | internal/adapter/driven/persistence/postgres/repository/userRepositoryCached.go:138-141 | One identifier key per identifier, in order |
| LegacyCache.StaleRecacheAfterInvalidation | internal/adapter/driven/persistence/postgres/repository/userRepositoryCached.go:65-77 | A background write queued before `Update` re-caches the old record after the invalidation |
| LegacyCache.LegacyUserTable.constructor | internal/adapter/driven/persistence/postgres/repository/user_repository.go:31-33 | An empty, reachable table |
| LegacyCache.LegacyUserTable.Find | internal/adapter/driven/persistence/postgres/repository/user_repository.go:122-158 | Answers a matching row, failing exactly when none matches or the database is unreachable |
| LegacyCache.LegacyUserTable.Create | internal/adapter/driven/persistence/postgres/repository/user_repository.go:161-174 | A database error when unreachable, a duplicate-key error when the identifier or the credential token (unique in `usr_auth`) is taken; otherwise inserts |
| LegacyCache.LegacyUserTable.Update | internal/adapter/driven/persistence/postgres/repository/user_repository.go:177-201 | A database error when unreachable; for a present identifier, a duplicate-key error when another row holds the token, otherwise the row is rewritten; an absent identifier changes nothing without an error |
| LegacyCache.LegacyUserTable.Delete | internal/adapter/driven/persistence/postgres/repository/user_repository.go:204-223 | A database error when unreachable; not-found when no identifier has a row, an empty list included, with nothing deleted; otherwise exactly the rows of the identifiers are removed |
| LegacyCache.LegacyCachedUserRepository.constructor | internal/adapter/driven/persistence/postgres/repository/userRepositoryCached.go:27-32 | Holds the given store and Redis, with no queued writes |
| LegacyCache.LegacyCachedUserRepository.GetCached | internal/adapter/driven/persistence/postgres/repository/userRepositoryCached.go:52-78 | A decoding hit skips the store; a miss returns the store's answer and queues its cache write; a cache error is a miss |
| LegacyCache.LegacyCachedUserRepository.CompleteWrite | internal/adapter/driven/persistence/postgres/repository/userRepositoryCached.go:70-74 | The oldest queued write runs and its error is dropped |
| LegacyCache.LegacyCachedUserRepository.FindByID | internal/adapter/driven/persistence/postgres/repository/userRepositoryCached.go:81-85 | `getCached` under the identifier key |
| LegacyCache.LegacyCachedUserRepository.FindByEmail | internal/adapter/driven/persistence/postgres/repository/userRepositoryCached.go:88-92 | `getCached` under the e-mail key |
| LegacyCache.LegacyCachedUserRepository.FindByUsername | internal/adapter/driven/persistence/postgres/repository/userRepositoryCached.go:95-99 | `getCached` under the username key |
| LegacyCache.LegacyCachedUserRepository.FindByToken | internal/adapter/driven/persistence/postgres/repository/userRepositoryCached.go:102-106 | `getCached` under the token key |
| LegacyCache.LegacyCachedUserRepository.Create | internal/adapter/driven/persistence/postgres/repository/userRepositoryCached.go:110-112 | Passes through: succeeds exactly when the store is reachable and neither the identifier nor the token is taken, and inserts the row |
| LegacyCache.LegacyCachedUserRepository.Update | internal/adapter/driven/persistence/postgres/repository/userRepositoryCached.go:114-131 | The store's refusal (unreachable, or a present row taking another's token) returns with the cache untouched; otherwise the keys are deleted, errors dropped, and the result is nil |
| LegacyCache.LegacyCachedUserRepository.Delete | internal/adapter/driven/persistence/postgres/repository/userRepositoryCached.go:133-149 | The store's refusal (unreachable, or no identifier has a row) is returned with rows and cache untouched; only after the store deletes are the identifier keys, and only those, deleted, with cache errors dropped |
| AuthUseCase.ClaimsFor | backend/internal/core/usecase/auth/authUsecase.go:142-155 | The claims carry identifier, session token and issue time, and an expiry exactly when one is given |
| AuthUseCase.Tokens | backend/internal/core/usecase/auth/authUsecase.go:114-131 | Access token first; the first signing error wins |
| AuthUseCase.SessionClaims | backend/internal/core/usecase/auth/authUsecase.go:114-155 | Both tokens carry the same identifier and session token; each has an expiry exactly when asked for |
| AuthUseCase.WithSession | backend/internal/core/usecase/auth/authUsecase.go:104-112 | An existing session token is kept; otherwise the new one is set and the user stamped |
| AuthUseCase.LoginRejection | backend/internal/core/usecase/auth/authUsecase.go:43-58 | In order: not found, then wrong password, then disabled (nil credential, status false or no password) |
| AuthUseCase.DisabledOnlyAfterPassword | backend/internal/core/usecase/auth/authUsecase.go:49-55 | A wrong password is reported even for a disabled user; past the password check only the status can disable |
| AuthUseCase.SessionCarriesStoredToken | backend/internal/core/usecase/auth/authUsecase.go:104-131 | A session is always issued on the persisted session token |
| AuthUseCase.AuthUseCase.constructor | backend/internal/core/usecase/auth/authUsecase.go:34-40 | Holds the given repositories and configuration |
| AuthUseCase.AuthUseCase.GenerateAuthOutput | backend/internal/core/usecase/auth/authUsecase.go:104-139 | A token is minted and persisted only when absent; the output's tokens are signed on the stored token |
| AuthUseCase.AuthUseCase.Login | backend/internal/core/usecase/auth/authUsecase.go:43-58 | The rejection of `LoginRejection`, else a session as `GenerateAuthOutput` |
| AuthUseCase.AuthUseCase.Refresh | backend/internal/core/usecase/auth/authUsecase.go:61-73 | A malformed identifier gives InvalidInput; a failed look-up is returned; otherwise a session |
| AuthUseCase.AuthUseCase.Me | backend/internal/core/usecase/auth/authUsecase.go:76-88 | A malformed identifier gives InvalidInput; otherwise the looked-up user |
| AuthUseCase.AuthUseCase.Logout | backend/internal/core/usecase/auth/authUsecase.go:91-101 | No token repository does nothing; otherwise the token is blacklisted for the refresh lifetime |
| AuthMiddleware.Context.constructor | backend/internal/adapter/driver/rest/middleware/auth.go:42-44 | A request context with the given headers and no locals |
| AuthMiddleware.Context.Get | backend/internal/adapter/driver/rest/middleware/auth.go:44 | An absent or empty header gives the default |
| AuthMiddleware.Screen | backend/internal/adapter/driver/rest/middleware/auth.go:59-97 | A blacklist error or a blacklisted key rejects before parsing; a parse failure or a missing string "token" claim rejects; otherwise the session token |
| AuthMiddleware.Decide | backend/internal/adapter/driver/rest/middleware/auth.go:59-114 | After screening, a failed look-up, a nil credential or status false rejects; otherwise the user is admitted |
| AuthMiddleware.RevokedBeforeParsing | backend/internal/adapter/driver/rest/middleware/auth.go:71-73 | A revoked bearer string is refused whatever it parses to |
| AuthMiddleware.RevocationIsPerBearerString | backend/internal/adapter/driver/rest/middleware/auth.go:62 | Revoking one bearer string leaves every other string, even one on the same session, as it was |
| AuthMiddleware.RedisDownRefusesEverything | backend/internal/adapter/driver/rest/middleware/auth.go:61-106 | With Redis down the revocation check passes but the cached look-up fails, so every request is refused |
| AuthMiddleware.AuthMiddleware.constructor | backend/internal/adapter/driver/rest/middleware/auth.go:37-41 | Holds the given configuration |
| AuthMiddleware.AuthMiddleware.Next | backend/internal/adapter/driver/rest/middleware/auth.go:42-52 | Skips exactly when skipping is allowed and the header is "true", then records the nil UUID as the user |
| AuthMiddleware.AuthMiddleware.Validator | backend/internal/adapter/driver/rest/middleware/auth.go:59-115 | The outcome of `Decide`; on success both locals name the found user, otherwise they are unchanged |
| DtoInput.ValidateProfileInput | internal/core/dto/input.go:15-20 | A given name shorter than four bytes is InvalidInput; an absent name passes |
| DtoInput.CheckUserFields | internal/core/dto/input.go:32-43 | Name, then username, then e-mail; the first given field that fails decides, and absent fields pass |
| DtoInput.EmptyUserInputValid | internal/core/dto/input.go:32-43 | An input with no fields is valid, whatever its status and profile |
| DtoInput.ValidatePasswordInput | internal/core/dto/input.go:52-63 | Empty, then shorter than six bytes, then mismatch, in that order |
| DtoInput.ValidateLoginInput | internal/core/dto/input.go:73-81 | An empty login, then an empty password, is rejected |
| DtoInput.ValidateIDsInput | internal/core/dto/input.go:89-99 | An empty list or any zero identifier is rejected |
| UserUseCase.ParseAll | backend/internal/core/usecase/user/userUsecase.go:196-204 | Every identifier parsed, or none when any is malformed |
| UserUseCase.AddedRoles | backend/internal/core/usecase/user/userUsecase.go:95-100 | The roles after `AddRole` of each in turn: first occurrences of identifiers, in order |
| UserUseCase.AddedRolesStep | backend/internal/core/domain/entity/user.go:122-133 | One more `AddRole` appends the role unless its identifier is held |
| UserUseCase.AddedRolesOfDistinct | backend/internal/core/usecase/user/userUsecase.go:95-100 | Roles with distinct identifiers are kept as they are |
| UserUseCase.Patch | backend/internal/core/usecase/user/userUsecase.go:142-186 | Each given field replaced in the source's order; a non-nil role list replaces the roles wholesale; a status for a user without credential is a nil dereference |
| UserUseCase.PatchIdempotent | backend/internal/core/usecase/user/userUsecase.go:142-186 | Applying the same update twice stores what applying it once stores |
| UserUseCase.ResetUser | backend/internal/core/usecase/user/userUsecase.go:214-228 | Token and password cleared; user and credential stamped |
| UserUseCase.ResetTwiceIsResetOnce | backend/internal/core/usecase/user/userUsecase.go:219-221 | The doubled reset equals one reset |
| UserUseCase.ResetBlocksLogin | backend/internal/core/usecase/user/userUsecase.go:214-224 | After a reset no password logs in and a password may be set again |
| UserUseCase.PasswordSetEnablesLogin | backend/internal/core/usecase/user/userUsecase.go:231-259 | After `SetPassword` exactly that password logs in, unless the credential was disabled |
| UserUseCase.ResolutionReportsFirstFailure | backend/internal/core/usecase/user/userUsecase.go:82-95 | A malformed identifier is reported only after every earlier one resolved |
| UserUseCase.ResolutionFailsWhenRedisDown | backend/internal/core/usecase/user/userUsecase.go:82-95 | With Redis down no role resolves |
| UserUseCase.PasswordApplied | backend/internal/core/usecase/user/userUsecase.go:246-258 | Refused when a password is set; otherwise hashed onto the credential (created enabled if missing) with a fresh token |
| UserUseCase.BuildUser | backend/internal/core/usecase/user/userUsecase.go:97-117 | `NewAuth`, `NewUser`, `AddRole` for each resolved role and `Enable` when asked |
| UserUseCase.NewValidUser | backend/internal/core/usecase/user/userUsecase.go:97-106 | `NewUser` on validated fields does not fail |
| UserUseCase.AddRoles | backend/internal/core/usecase/user/userUsecase.go:107-109 | The user's roles become `AddedRoles` of the resolved roles |
| UserUseCase.Patched | backend/internal/core/usecase/user/userUsecase.go:158-186 | The fetched user becomes `Patch` of the request |
| UserUseCase.Rename | backend/internal/core/usecase/user/userUsecase.go:158-166 | The renaming steps give the patched name fields |
| UserUseCase.UserUseCase.constructor | backend/internal/core/usecase/user/userUsecase.go:22-27 | Holds the given repositories |
| UserUseCase.UserUseCase.ResolveRoles | backend/internal/core/usecase/user/userUsecase.go:82-95 | Every identifier must parse and name a role, else InvalidInput |
| UserUseCase.UserUseCase.DeleteUsers | backend/internal/core/usecase/user/userUsecase.go:196-211 | A malformed identifier gives InvalidInput and deletes nothing; a store failure becomes an internal error |
| UserUseCase.UserUseCase.ResetPasswordHelper | backend/internal/core/usecase/user/userUsecase.go:226-228 | The user is reset |
| UserUseCase.UserUseCase.ResetPassword | backend/internal/core/usecase/user/userUsecase.go:214-224 | An unknown e-mail returns nil; a known user is reset and written back |
| UserUseCase.UserUseCase.SetPassword | backend/internal/core/usecase/user/userUsecase.go:231-259 | The request is checked, the user must exist without a password; then password and fresh token are set and written back |
| UserUseCase.UserUseCase.CreateUser | backend/internal/core/usecase/user/userUsecase.go:65-124 | The request, then a taken e-mail, then a taken username give their errors in that order; the rest as `CreateTail` |
| UserUseCase.UserUseCase.CreateEmailFree | backend/internal/core/usecase/user/userUsecase.go:74-124 | `CreateUser` past the e-mail check |
| UserUseCase.UserUseCase.CreateWithRoles | backend/internal/core/usecase/user/userUsecase.go:82-124 | `CreateUser` past both conflict checks: roles resolved, user built, stored |
| UserUseCase.UserUseCase.UpdateUser | backend/internal/core/usecase/user/userUsecase.go:127-193 | Identifier and request checked before the fetch; a changed e-mail or username must be free; the rest as `UpdateTail` |
| UserUseCase.UserUseCase.UpdateFetched | backend/internal/core/usecase/user/userUsecase.go:142-193 | `UpdateUser` once the user is fetched |
| UserUseCase.UserUseCase.UpdateWithRoles | backend/internal/core/usecase/user/userUsecase.go:158-193 | `UpdateUser` past the conflict checks |
| Pagination.Wrap | backend/internal/core/dto/output.go:59 | The 64-bit two's-complement value of an exact result |
| Pagination.ToUint | backend/internal/core/dto/output.go:64-79 | `uint(x)`: a negative value reads as its bit pattern |
| Pagination.QuotNonNegative | internal/core/dto/filter.go:43 | Go's division agrees with the Euclidean one on non-negative operands |
| Pagination.QuotTruncates | internal/core/dto/filter.go:43 | Go's division truncates toward zero |
| Pagination.CeilingQuotient | backend/internal/core/dto/output.go:58-59 | `(total + limit - 1) / limit` is the least page count covering total |
| Pagination.WrappedCeiling | backend/internal/core/dto/output.go:58-59 | The same through 64-bit wrapping and truncating division when the sum fits |
| Pagination.PageCountUnique | backend/internal/core/dto/output.go:58-59 | Two counts meeting the ceiling bounds are equal |
| Pagination.NewPaginatedOutput | backend/internal/core/dto/output.go:56-83 | Pages are the ceiling when limit and total are positive, 1 with items and no positive limit, 0 without items; page 0 becomes 1, limit 0 the item count; items unchanged |
| Pagination.NegativePageWraps | backend/internal/core/dto/output.go:64-72 | A negative page reaches the response as its `uint` bit pattern |
| Pagination.ApplyPagination | internal/core/dto/filter.go:28-33 | Enabled exactly when page and limit are positive, with offset (page-1)*limit; otherwise (false, 0, 0) |
| Pagination.ConsecutiveWindows | internal/core/dto/filter.go:28-33 | Each page's window starts where the previous page's ends |
| Pagination.CalcPages | internal/core/dto/filter.go:36-44 | A zero count, limit or page gives 1 with items and 0 without; otherwise the truncated quotient |
| Pagination.CalcPagesNegativeLimit | internal/core/dto/filter.go:36-44 | Limit -2, page 1 and five items give -1 pages while pagination is off |
| Pagination.CalcPagesFixedAgrees | internal/core/dto/filter.go:28-44 | The corrected count is never negative, 1 when the query is not paginated with items, and the ceiling when it is |
| Pagination.BackendsAgree | backend/internal/core/dto/output.go:58-59 | Both backends report the same page count for the same positive limit |
| PageWindow.GetPageNumbers | frontend/src/components/common/Pagination.jsx:7-32 | The strip is `PageNumbers` of the current and total pages |
| PageWindow.CollectKept | frontend/src/components/common/Pagination.jsx:13-17 | Exactly the pages 1, total and those within one of the current page, in order |
| PageWindow.FillGaps | frontend/src/components/common/Pagination.jsx:19-29 | A gap of one page is filled with its number, a larger gap with one ellipsis |
| PageWindow.KeptMembers | frontend/src/components/common/Pagination.jsx:14 | A page is collected exactly when it is 1, the last, or within one of the current |
| PageWindow.KeptPositive | frontend/src/components/common/Pagination.jsx:13 | Collected pages are at least 1 |
| PageWindow.KeptIncreasing | frontend/src/components/common/Pagination.jsx:13-17 | Collected pages strictly increase |
| PageWindow.DottedEnds | frontend/src/components/common/Pagination.jsx:19-29 | The strip starts with the first kept page and ends with the last |
| PageWindow.DottedKeepsPages | frontend/src/components/common/Pagination.jsx:19-29 | Every kept page appears in the strip |
| PageWindow.DottedPagesFromRange | frontend/src/components/common/Pagination.jsx:21-25 | A number in the strip is kept or the single page between two kept ones |
| PageWindow.DottedWellFormed | frontend/src/components/common/Pagination.jsx:19-29 | Every ellipsis stands for more than one page; adjacent numbers are consecutive |
| PageWindow.WellFormedIncreasing | frontend/src/components/common/Pagination.jsx:19-29 | Numbers in a well-formed strip strictly increase |
| PageWindow.PageNumbersShape | frontend/src/components/common/Pagination.jsx:7-32 | Empty without pages; otherwise from 1 to total, every kept page shown, all numbers in 1..total, increasing, no single-page ellipsis |
| PageWindow.HandlePageClick | frontend/src/components/common/Pagination.jsx:34-38 | The ellipsis and the current page do nothing; another number selects that page |
| PageWindow.ClickStaysInRange | frontend/src/components/common/Pagination.jsx:34-38 | A click asks only for another existing page |
| PageWindow.Previous | frontend/src/components/common/Pagination.jsx:102 | One page back, never below 1 |
| PageWindow.Next | frontend/src/components/common/Pagination.jsx:123 | One page on, never past the last |
| PageWindow.ArrowsStayInRange | frontend/src/components/common/Pagination.jsx:102-123 | From any existing page both arrows lead to an existing page |
| Envx.FullKey | backend/pkg/envx/envx.go:99-104 | prefix + "_" + key with a prefix, else the key |
| Envx.FullKeyRecovers | backend/pkg/envx/envx.go:99-104 | A '_'-free prefix and the key can be read back from the full key |
| Envx.FullKeyCollides | backend/pkg/envx/envx.go:99-104 | With '_' in a prefix two different variables read the same name |
| Envx.Var.constructor | backend/pkg/envx/envx.go:23-75 | A variable with the registered parser, no default, not required, no prefix |
| Envx.Var.Default | backend/pkg/envx/envx.go:78-81 | Sets only the default and returns the same variable |
| Envx.Var.Required | backend/pkg/envx/envx.go:86-89 | Sets only the required flag and returns the same variable |
| Envx.Var.WithPrefix | backend/pkg/envx/envx.go:93-96 | Sets only the prefix and returns the same variable |
| Envx.Var.GetE | backend/pkg/envx/envx.go:117-138 | An empty value is a RequiredError when required, else the default, else the zero value; a parser failure is a ParseError with key and raw value |
| Envx.Var.Lookup | backend/pkg/envx/envx.go:141-159 | The parsed value, the default, or false on a miss without default or a parse failure |
| Envx.Var.IsSet | backend/pkg/envx/envx.go:168-172 | Whether the name is present, even when empty |
| Envx.LookupAgreesWithGetE | backend/pkg/envx/envx.go:117-159 | `Lookup` and `GetE` agree except for a missing value without default and the required flag |
| Envx.FirstCommentFrom | backend/pkg/envx/envx.go:229-244 | The first '#' at or after a position that starts the value or follows a space or tab, or -1 |
| Envx.UnquotedValue | backend/pkg/envx/envx.go:227-245 | A leading '#' gives empty; a comment after white space truncates and trims; otherwise the value is kept |
| Envx.ParseLine | backend/pkg/envx/envx.go:192-245 | Blank lines, comments and lines without '=' assign nothing; otherwise a trimmed, '='-free key |
| Envx.QuotedValue | backend/pkg/envx/envx.go:211-220 | A quoted value is the text up to its matching quote |
| Envx.UnclosedQuote | backend/pkg/envx/envx.go:221-226 | An unclosed quote keeps the raw text |
| Envx.UnquotedWithoutComment | backend/pkg/envx/envx.go:227-245 | A value without '#' is kept whole |
| Envx.WrittenLineLoads | backend/pkg/envx/envx.go:192-226 | `KEY="value"` loads as that key and value |
| Envx.ParseLineAt | backend/pkg/envx/envx.go:197-208 | A trimmed non-comment line splits at its first '=' |
| Envx.Environment.constructor | backend/pkg/envx/envx.go:186-190 | An environment holding the given variables |
| Envx.Environment.LoadDotEnvWithOverride | backend/pkg/envx/envx.go:186-255 | Each line applied in order; a read error is returned and changes nothing |
| Envx.Environment.LoadDotEnv | backend/pkg/envx/envx.go:176-178 | Loading without override |
| Envx.Environment.LoadDotEnvOverride | backend/pkg/envx/envx.go:182-184 | Loading with override |
| Envx.SetUnlessKept | backend/pkg/envx/envx.go:249-251 | Sets the variable when overriding or when it is empty or missing |
| Envx.ReadLine | backend/pkg/envx/envx.go:192-251 | One line's assignment, as `ParseLine` |
| Envx.ReadValue | backend/pkg/envx/envx.go:210-245 | The value as quoted, unclosed or unquoted |
| Envx.NoOverrideKeeps | backend/pkg/envx/envx.go:249-251 | Without override a non-empty variable keeps its value |
| Envx.LoadOnlyAdds | backend/pkg/envx/envx.go:186-255 | Loading never removes a variable and new names come from the file |
| Envx.OverrideLastWins | backend/pkg/envx/envx.go:249-251 | With override the last acceptable assignment decides |
| Registry.ParseBool | backend/pkg/envx/registry.go:64-73 | Accepts true/1/yes/on/y and false/0/no/off/n in any case; an error for anything else |
| Registry.BoolWordsDisjoint | backend/pkg/envx/registry.go:64-73 | No word is both true and false |
| Registry.ParseBoolIgnoresCase | backend/pkg/envx/registry.go:65 | Spellings that lower-case alike parse alike |
| Registry.ParseBoolFormatted | backend/pkg/envx/registry.go:64-73 | "true" and "false" read back as their booleans |
| Registry.ParseBoolExamples | backend/pkg/envx/registry.go:64-73 | "YES" and "Off" parse; "maybe" errors |
| Registry.KeepTrimmed | backend/pkg/envx/registry.go:86-92 | Trimmed non-empty parts, at most as many as the parts |
| Registry.ParseStringSlice | backend/pkg/envx/registry.go:82-94 | Empty text gives none; otherwise split on ',', trimmed, empties dropped |
| Registry.KeepTrimmedClean | backend/pkg/envx/registry.go:86-92 | Kept parts are non-empty, trimmed and comma-free |
| Registry.StringSliceClean | backend/pkg/envx/registry.go:82-94 | The parser delivers only clean items |
| Registry.KeepTrimmedKeepsClean | backend/pkg/envx/registry.go:86-92 | Clean items are kept as they are |
| Registry.StringSliceRoundTrip | backend/pkg/envx/registry.go:82-94 | Joining clean items with ',' parses back to them |
| Registry.StringSliceNormalises | backend/pkg/envx/registry.go:82-94 | Writing a parsed list and parsing again changes nothing |
| Registry.StringParser | backend/pkg/envx/registry.go:19 | The string parser is the identity |
| Registry.ParserRegistry.constructor | backend/pkg/envx/registry.go:17-95 | The string, bool and []string parsers are registered |
| Registry.ParserRegistry.GetParser | backend/pkg/envx/registry.go:112-118 | The registered parser, if any |
| Registry.ParserRegistry.RegisterParser | backend/pkg/envx/registry.go:99-109 | Registering replaces that type's parser; others keep theirs |
| StringArrays.ReplaceCharConcat | backend/internal/adapter/driven/persistence/postgres/model/types.go:93 | Replacing one character distributes over concatenation |
| StringArrays.EscapeIsOnePass | backend/internal/adapter/driven/persistence/postgres/model/types.go:93 | The two replacements act as one pass doubling '\\' and escaping '"' |
| StringArrays.EscapeKeepsCommaFree | backend/internal/adapter/driven/persistence/postgres/model/types.go:93 | Escaping adds no comma |
| StringArrays.Value | backend/internal/adapter/driven/persistence/postgres/model/types.go:78-98 | None for an empty array; otherwise braces around the quoted, escaped elements joined by ',' |
| StringArrays.StringArray.constructor | backend/internal/adapter/driven/persistence/postgres/model/types.go:12 | The array holds exactly the given items, as converting a slice to `StringArray` does |
| StringArrays.StringArray.Scan | backend/internal/adapter/driven/persistence/postgres/model/types.go:14-26 | Text is parsed, nil clears, any other source is refused and leaves the array |
| StringArrays.StringArray.ScanBytes | backend/internal/adapter/driven/persistence/postgres/model/types.go:28-75 | "{}" and empty give none; otherwise the split elements, each stripped and unescaped |
| StringArrays.StripAll | backend/internal/adapter/driven/persistence/postgres/model/types.go:64-72 | Each array element is rewritten in place to its cleaned form |
| StringArrays.UnescapeQuotesUndoesEscape | backend/internal/adapter/driven/persistence/postgres/model/types.go:70-93 | Without backslashes the unescaping undoes the escaping |
| StringArrays.TrimBraces | backend/internal/adapter/driven/persistence/postgres/model/types.go:29-33 | Braces around quoted text are trimmed exactly |
| StringArrays.StripQuoted | backend/internal/adapter/driven/persistence/postgres/model/types.go:64-72 | A quoted element is cleaned to its escaped text |
| StringArrays.LiteralSplits | backend/internal/adapter/driven/persistence/postgres/model/types.go:63-97 | The literal of comma-free elements splits back into the quoted elements |
| StringArrays.RoundTrip | backend/internal/adapter/driven/persistence/postgres/model/types.go:63-97 | Elements free of ',' and '\\' survive `Value` then `Scan`; the empty array reads back empty |
| StringArrays.BackslashNotRestored | backend/internal/adapter/driven/persistence/postgres/model/types.go:70-93 | A lone backslash is written doubled and read back doubled |
| StringArrays.ScannedSingle | backend/internal/adapter/driven/persistence/postgres/model/types.go:28-75 | A one-element literal reads back as that element, cleaned |
| StringArrays.UnescapeUndoesEscape | backend/internal/adapter/driven/persistence/postgres/model/types.go:70-93 | The corrected unescaping undoes the escaping of every string |
| StringArrays.StripFixedQuoted | backend/internal/adapter/driven/persistence/postgres/model/types.go:64-72 | The corrected cleaning gives back every quoted element |
| StringArrays.RoundTripFixed | backend/internal/adapter/driven/persistence/postgres/model/types.go:63-97 | With the corrected unescaping every comma-free array survives, backslashes included |
| Logger.LevelName | backend/pkg/loggerx/logger.go:28-43 | 0..4 are DEBUG, INFO, WARN, ERROR, FATAL; anything else is UNKNOWN |
| Logger.ParseLevel | backend/pkg/loggerx/logger.go:46-61 | Always a level 0..4; any spelling it does not know is Info |
| Logger.ParseLevelName | backend/pkg/loggerx/logger.go:28-61 | Each level's name parses back to the level |
| Logger.ParseLogLevel | backend/pkg/loggerx/logger.go:312-323 | Never Fatal: one of Debug, Info, Warn or Error |
| Logger.ParseLogLevelIgnoresCase | backend/pkg/loggerx/logger.go:313 | Letter case does not matter |
| Logger.LevelParsersAgree | backend/pkg/loggerx/logger.go:46-61 | Both parsers read "debug", "info", "warn" and "error" alike, and never as Fatal |
| Logger.LevelParsersDiffer | backend/pkg/loggerx/logger.go:312-323 | "fatal" and "warning" are Info here, Fatal and Warn in `ParseLevel` |
| Logger.Itoa | backend/pkg/loggerx/logger.go:247-259 | "0" for 0, the decimal digits for a positive number (which read back as it), and "" for a negative one |
| Logger.WriteDigits | backend/pkg/loggerx/logger.go:251-258 | The loop leaves exactly the decimal digits of a positive number at the end of the 20-byte buffer, and writes nothing for a negative one |
| Logger.ShortenFile | backend/pkg/loggerx/logger.go:236-242 | The text after the last '/' past the first character, else the whole path |
| Logger.ShortFileHasNoSlash | backend/pkg/loggerx/logger.go:236-242 | The short name holds no '/' unless the path's only '/' is its first character |
| Logger.CallerText | backend/pkg/loggerx/logger.go:236-244 | The short file name, ':' and the line's digits |
| Logger.SinksInOrder | backend/pkg/loggerx/logger.go:84-88 | Sinks given to `New` accumulate in order |
| Logger.LastLevelWins | backend/pkg/loggerx/logger.go:77-81 | The last level option decides; without one the default stays |
| Logger.AddPairsKeepsOthers | backend/pkg/loggerx/logger.go:135-145 | A key that no pair names keeps its presence and value |
| Logger.AddPairsLastWins | backend/pkg/loggerx/logger.go:141-145 | A final complete pair sets its key |
| Logger.AddPairsIgnoresTrailingKey | backend/pkg/loggerx/logger.go:141 | A trailing key without value is ignored |
| Logger.MergeAttrsLastWins | backend/pkg/loggerx/logger.go:196-203 | An attribute overrides the logger's field, and a later attribute an earlier one |
| Logger.MergeAttrsKeepsFields | backend/pkg/loggerx/logger.go:196-203 | A key no attribute names keeps the logger's field |
| Logger.LevelFilter | backend/pkg/loggerx/logger.go:185-228 | An entry is written exactly when its level reaches the logger's, with the level's name and the caller only when enabled |
| Logger.Logger.constructor | backend/pkg/loggerx/logger.go:112-124 | Info, no sinks, no fields, caller on, RFC 3339 time, then each option in order |
| Logger.Logger.With | backend/pkg/loggerx/logger.go:134-154 | A fresh logger with the same settings and the fields plus the string-keyed pairs |
| Logger.Logger.SetLevel | backend/pkg/loggerx/logger.go:157-161 | Only the level changes |
| Logger.Logger.AddSink | backend/pkg/loggerx/logger.go:164-168 | The sink is appended |
| Logger.Logger.Log | backend/pkg/loggerx/logger.go:185-228 | The entry of `LogEntry`, or none below the level; the process exits only for a written Fatal entry |
| Logger.CopyWithPairs | backend/pkg/loggerx/logger.go:135-145 | The copied fields plus each complete string-keyed pair |
| Logger.MergeLoop | backend/pkg/loggerx/logger.go:196-203 | The copied fields with each attribute set in order |

## Left out

- Transport and infrastructure are not modelled: HTTP handlers, routing, presenters, GORM query building, Redis, MinIO and OpenTelemetry clients, and entry points. The stores are maps.
- JWT RS256 signing and parsing are opaque steps whose results are parameters. bcrypt is an ideal hash. The 72-byte limit is kept; the cost factor is not.
- Clocks, `uuid.New`, random salts and session tokens are parameters, so "now" is whatever the caller passes.
- Mutexes, goroutines and context cancellation are not modelled. The legacy cache's background write is an explicit queue that the caller drains with `CompleteWrite`.
- User.roles holds role values, not references to role objects, so aliasing between a user's roles and role objects elsewhere is not modelled.
- AppError.WithField, AppError.WithDetails and AppError.WithCause return the updated error instead of updating the receiver in place, so aliasing of a shared `*Error` is not captured.
- The backend `entity/auth.go` is not part of this model. The credential is taken from the earlier `internal/core/domain/entity/auth.go`, and the backend's `NewAuth(status)` is its constructor with no profile.
- The backend user and password input validators are not part of this model. The earlier `internal/core/dto/input.go` rules are used.
- `GetUsers` and `GetUserByID` of the user use case are plain look-ups and are not modelled. `Count` and `FindAll` of the stores take an abstract filter.
- The envx `Get` and `MustGet` panics are not modelled, nor are `MustLoadDotEnv`, `Export`, `ExportWithPrefix`, `Set`, `Unset`, `New`'s reflection and `TextUnmarshaler` fallback, or the int, float, duration and location parsers. `os.ExpandEnv` is a parameter of `GetE`.
- Registry.ParseBool writes its error with plain quotes, whereas Go's `%q` would escape special characters.
- Logger: sinks are names; `Close`, what a sink does with an entry, the entry's context, `runtime.Caller` (its file and line are parameters) and the Debug/Info/Warn/Error/Fatal wrappers are not modelled. `os.Exit` is the `exits` result.
- Logger.Logger.With, Logger.Logger.AddSink and Logger.Logger.constructor treat sinks and fields as values, so Go's slice and map aliasing is not captured. `With` hands the new logger the receiver's `sinks` slice itself (logger.go:149), and `AddSink` appends in place (logger.go:167). When the backing array has spare capacity, appends through the two loggers write the same slot, so one logger's `AddSink` can replace the other's last sink. The model gives each logger its own list, and `AddSink` changes no other logger. `WithFields` stores the caller's map itself (logger.go:93), so the caller's later writes reach the logger's default fields; the model copies the map.
- Logger.Itoa requires its argument to fit Go's 64-bit `int`.
- Text.ToLower folds ASCII letters only. No recognised keyword depends on other letters, but the same folding decides `citext` equality in the stores (UserStore.FoldEq, RoleStore.RoleMatches, RoleStore.NameTaken). Postgres `citext` also folds non-ASCII letters, so "Émile" and "émile" are one name to the database but two in the model.
- UserStore.UserTable.Update: for an absent identifier the model reports success and changes nothing, whatever the token. In the source the two `Updates` calls affect no row without an error, but the `Association("Roles").Replace` that follows inserts join-table rows for a non-empty role list; whether that fails depends on a foreign key on `usr_user_role`, and the schema is not part of this model.
- LegacyCache.LegacyUserTable.Create and LegacyCache.LegacyUserTable.Update take the user's identifier from the caller, whereas the source's `Create` has the database assign it from its serial column and copies it back (user_repository.go:166). The credential's own identifier and the profile are not modelled; the token's unique constraint is.
- RoleStore.RoleTable.Update writes the whole role. The source's `Model(m).Updates(m)` passes a struct, and GORM then skips zero-valued fields: an empty name and a nil permission list keep the stored values. The model cannot tell a nil list from an empty one, so it rewrites the row; the `enabled` column, skipped when false, is not part of the model's role.
- LegacyCache.LegacyUserTable.Delete: the look-up and the delete are one atomic step, so the second not-found case of the source (the delete affects no row after the look-up found some, under a concurrent delete) cannot arise. The associations deleted with the row are not modelled.
- AuthUseCase.Tokens stamps the session token and both tokens' issue and expiry times with one instant `now`, whereas the source reads `time.Now()` once for the session token and once per signed token. The model assumes the three readings agree.
- The Redis down case: with Redis unreachable, the cached `FindByEmail`/`FindByUsername` fail, so `CreateUser`'s conflict look-ups report the address as free. This is recorded as it is written, not corrected.
- Only the frontend's number strip and arrows are modelled from `Pagination.jsx`, not its rendering.

## Findings

| source | as written | input that shows it | evidently intended | confidence | as-written member | corrected member |
|---|---|---|---|---|---|---|
| internal/core/dto/filter.go:36-44 | `CalcPages` tests limit and page for zero, while `ApplyPagination` tests them for being positive | limit -2, page 1, count 5 gives -1 pages (limit -1 gives -3), though the query is not paginated and returns all five items | one page whenever the query is not paginated and there are items | not executed | Pagination.CalcPagesNegativeLimit | Pagination.CalcPagesFixedAgrees |
| backend/internal/adapter/driven/persistence/postgres/model/types.go:70-93 | `Value` doubles every backslash but `scanBytes` only unescapes `\"` | the array `["\\"]` is written as `{"\\\\"}` and read back as `["\\\\"]` | reading back what was written gives the same elements | not executed | StringArrays.BackslashNotRestored | StringArrays.RoundTripFixed |
