# Authentication core of the SincroLab backend, in Dafny

This project models the authentication and revocation path of a NestJS
clinical-record backend. It covers three pieces:

- the account store (`UserService`): a table of accounts with unique
  email and unique id, where `create` always sets the role `therapist`;
- the authentication service (`AuthService`): `register`, `signIn`,
  `logout`, `isAccessTokenRevoked`, `getUserTokenPayload`, and the
  process-local list of revoked access tokens;
- the global guard (`AuthGuard`): it lets public routes through, parses
  the `Authorization: Bearer <token>` header, refuses revoked tokens
  before verifying, verifies the JWT, and attaches `user` and `token` to
  the request.

Files:

- `wrappers.dfy`: `Option` and `Result`.
- `strings.dfy`: JavaScript's `split` with a one-character separator,
  and its round trip with `join`.
- `users.dfy`: module `Users`. It holds the table as a `map` keyed by
  email, the spec functions `Lookup` and `Insert`, and class
  `UserService`.
- `auth_service.dfy`: module `Auth`. It holds the claims, the spec
  functions `Registered` and `SignedIn`, and class `AuthService`. That
  class has a `seq<string>` field of revoked tokens.
- `auth_guard.dfy`: module `Guard`. It holds `ExtractTokenFromHeader`,
  the spec function `Decide`, class `Request` (the fields the guard reads
  and writes), class `AuthGuard`, a client method `Present` that sends
  one bearer request, and a client method that runs register, request,
  sign-in, logout and two more requests.

Foreign code is abstract:

- bcrypt is a pair of uninterpreted functions `hash(password, salt)` and
  `compare(password, hash)`. The random salt `genSalt` draws is a
  parameter of `register`.
- JWT signing is an uninterpreted `(Payload, int) -> string` fixed when
  the service is built. The integer is the issue time, a clock reading
  passed to `register` and `signIn`. Tokens issued at different times
  may differ, so a later sign-in gets a token of its own.
- JWT verification is a per-request oracle `string -> Option<Payload>`.
  `None` stands for a bad signature or an expired token.
- The account id the database generates is a parameter of `create`.
- The composition lemma assumes only `compare(p, hash(p, salt))` for the
  password and salt involved.

Two behaviours of the code worth knowing:

- The guard accepts any header whose first space-separated field is
  `Bearer`. The token is the second field. Anything after a further
  space is ignored (`Guard.BearerHeaderYieldsToken`).
- The revoked tokens are a list that keeps repetitions. Logging out
  twice appends the token twice.

The unit test of `UserService.create` expects `create` to hash the
password with cost 10. The `create` modelled here stores the password it
is given, and the model follows that code. Hashing happens in
`AuthService.register`.

## Model

| member | source | states |
|---|---|---|
| `Strings.Split` | src/auth/guards/auth.guard.ts:57 | `header.split(' ')` yields at least one field, no field holds a space, and joining the fields with spaces gives the header back |
| `Strings.SplitJoin` | src/auth/guards/auth.guard.ts:57 | splitting undoes joining for space-free fields, so the fields are determined by the header |
| `Users.Lookup` | src/user/user.service.ts:19-23 | `findOne({email})` returns a row iff some row has that email; the row returned has that email and is the only such row |
| `Users.Insert` | src/user/user.service.ts:12-17 | `create` fails iff the email or id is already taken, and then changes nothing; otherwise the new row has the given email and password unchanged and role therapist, the result is its id/email/role without the password, other emails are untouched, and uniqueness is kept |
| `Users.UserService.FindOne` | src/user/user.service.ts:19-23 | reads the current table without changing it; returns a row iff some row has the email, and then the only such row |
| `Users.UserService.Create` | src/user/user.service.ts:12-17 | the store's new table and the result are those of `Insert` on the old table; the table stays well formed |
| `Auth.TokenPayload` | src/auth/auth.service.ts:62-68 | the claims are `sub` = id, `email` = email, `role` = role |
| `Auth.Registered` | src/auth/auth.service.ts:23-40 | an existing email gives Conflict "User already exists" with the table unchanged; an email that is free but a taken id gives the store's unique-constraint error; success iff the email and id are free; on success the stored row holds `hash(password, salt)` and role therapist, the result is the new account's claims and `sign` of those claims at the call's time, and other emails are untouched |
| `Auth.SignedIn` | src/auth/auth.service.ts:42-52 | success iff an account has the email and `compare(password, its stored hash)` holds; every failure is the one BadRequest "Invalid credentials"; success returns that account's claims and `sign` of them at the call's time |
| `Auth.RegisterThenSignIn` | src/auth/auth.service.ts:23-52 | if bcrypt accepts a password against its own hash, a fresh registration followed by a later sign-in with the same credentials succeeds with the registration's claims (new id, the email, role therapist) in a token issued at the sign-in's time |
| `Auth.RegisterTwiceConflicts` | src/auth/auth.service.ts:24-27 | registering an email a second time fails with Conflict and creates no second account |
| `Auth.AuthService.constructor` | src/auth/auth.service.ts:21 | the revoked list starts empty, so no token is revoked |
| `Auth.AuthService.Register` | src/auth/auth.service.ts:23-40 | lookup, hash, create, sign in sequence; the result and the store's new table are `Registered` of the old table |
| `Auth.AuthService.SignIn` | src/auth/auth.service.ts:42-52 | returns `SignedIn` of the current table and changes nothing |
| `Auth.AuthService.IsAccessTokenRevoked` | src/auth/auth.service.ts:58-60 | true iff the token occurs somewhere in the revoked list |
| `Auth.AuthService.Logout` | src/auth/auth.service.ts:54-60 | appends the token; afterwards it is revoked, no other token's status changes, and a token revoked before stays revoked |
| `Guard.ExtractTokenFromHeader` | src/auth/guards/auth.guard.ts:56-59 | no header gives no token; a token `t` is extracted only from a bearer header: `Bearer `, then `t` without spaces, then nothing or a space; with `BearerHeaderYieldsToken` this is an if-and-only-if |
| `Guard.BearerHeaderYieldsToken` | src/auth/guards/auth.guard.ts:56-59 | conversely, every bearer header `Bearer ` + t + rest (t space-free, rest empty or starting with a space) yields `t` |
| `Guard.Decide` | src/auth/guards/auth.guard.ts:24-54 | public iff bypass; a grant has a non-empty, unrevoked extracted token that verifies to the granted claims; conversely a non-empty, unrevoked extracted token that verifies to p is granted with p; a revoked token is denied whatever `verify` says; a missing or empty token is denied |
| `Guard.GrantedRequestShape` | src/auth/guards/auth.guard.ts:30-53 | a request granted on a non-public route carries a bearer header with a non-empty, unrevoked token that verifies to the attached claims |
| `Guard.RevocationDecides` | src/auth/guards/auth.guard.ts:38-40 | for any bearer header whose non-empty token verifies to p, the guard denies if the token is revoked and grants with p otherwise |
| `Guard.AuthGuard.CanActivate` | src/auth/guards/auth.guard.ts:24-54 | returns Allow iff the decision is not Deny; never returns false; sets `request.user` to the verified claims and `request.token` to the raw token on a grant; leaves the request as it was otherwise, public routes included |
| `Guard.Present` | src/auth/guards/auth.guard.ts:36-53 | a request with header `Bearer <t>` on a non-public route is let through iff t is non-empty, not revoked and verifies |
| `Guard.RegisterUseLogout` | src/auth/auth.service.ts:54-60 | a freshly registered token is let through by the guard; after a later sign-in and `logout` of the first token, the first is refused although it still verifies and the sign-in's distinct token is let through |

## Left out

- bcrypt internals (`genSalt`, `hash`, `compare`) and JWT internals (`sign`, `verifyAsync`, the configured secret, the two-minute `expiresIn`) are foreign library code and clock reads. They are the abstract functions described above.
- `AuthService.HashPassword` and `AuthService.ComparePassword` are thin calls to the abstract bcrypt functions and carry no contract of their own.
- The token's contents beyond the claims are not modelled: the issue time only enters as the argument of `sign`, and the guard's `request.user` holds only `sub`, `email` and `role`, not the decoded `iat`/`exp`. Two sign-ins for one account at the same clock reading get the same token string, so a logout of one revokes both (as with the second-resolution `iat` of a JWT).
- `UserService.findOne` by id (the unique-input filter also admits `id`) is not modelled, since the authentication core only looks accounts up by email. `Users.UserService.FindOne` is `Lookup` on the current table.
- The `createdAt`/`updatedAt` columns are not modelled (clock).
- DTO validation (email format, password length 8 to 25) happens in the HTTP layer before the service runs. `register` and `signIn` accept any strings here.
- The role guard and the `@Roles` decorator are not part of this model. Their source is not among the files modelled.
- Controllers, the patient and task services, module wiring, configuration and the Prisma adapter are framework plumbing or pass-throughs to the ORM.
- Concurrency of the revocation list is not modelled. Node runs the calls one at a time, and the model runs them sequentially.
- Asynchrony (`async`/`await`) is not modelled. Each call runs to completion.
