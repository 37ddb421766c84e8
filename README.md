# UserController account and credential lifecycle, in Dafny

This project models the account and credential handlers of the FLpay API. The handlers are
`createUser`, `verifyEmail`, `authenticate`, `updateUser`, `forgotPassword`, `resetPassword`
and `getAllUsers` in `api/src/controller/UserController.ts`. Without Express and Prisma, they
form a small state machine over one table of user rows. Each row has a name, an email, a
bcrypt password hash, a `verified` flag, and one token slot (`reset_token` / `reset_expires`).
Email verification and password reset both use that slot.

## Layout

- `tokens.dfy` (module `Tokens`): the token format. A token is 32 random bytes
  (`crypto.randomBytes(32)`) written as 64 lower-case hex digits (`toString('hex')`). It also
  holds the inverse decoder and the proof that the encoding is injective.
- `accounts.dfy` (module `Accounts`): the row (`User`) and the table (`Table`, a map from id to
  row plus the next autoincrement id). It holds the table invariants:
  - the autoincrement counter is ahead of every id;
  - emails are unique;
  - `reset_token` is set exactly when `reset_expires` is set;
  - every stored token is well formed.

  It also holds the two lookups (`findUnique` by email, and `findFirst` by token with
  `reset_expires > now`), the public projections, and the injected crypto collaborators.
- `transitions.dfy` (module `Transitions`): each handler as a pure transition from the table
  before a request to the HTTP reply and the table after it. `Reply` has one variant per
  response shape; `Status()` maps them to 201, 200, 400, 401, 403, 404, 409 and 500 (four shapes
  share 200). The messages are the source's own strings, except that `ForgotPassword` answers
  an unknown email with the corrected message and `ResetPassword` refuses a request without a
  token; both are corrections of defects described under "## Findings", whose as-written
  versions are in `findings.dfy`.
- `controller.dfy` (module `Controller`): class `UserController`. It holds the table as fields
  (`users: map<Id, User>`, `nextId`). Its handler methods read the table, check, and then
  write at most one row, in the order the TypeScript does, apart from the two corrections
  above, which `ForgotPassword` and `ResetPassword` share with the transitions. `updateUser` builds its
  `updateData` patch field by field. Each method's postcondition ties its reply and new state
  to the transition of the same name. Each method keeps the table invariant.
- `properties.dfy` (module `Properties`): the lemmas. They cover:
  - which records each handler changes;
  - the strict expiry boundary;
  - single use of a token;
  - the order of the login checks;
  - that replies and listings never depend on hashes or tokens;
  - the invariants across any sequence of requests.
- `findings.dfy` (module `Findings`): two handlers modelled as written, with lemmas that
  show the defect (see "## Findings").

Collaborators and their assumptions:

- `bcrypt.hash`, `bcrypt.compare` and `jwt.sign` are function values in `Accounts.Crypto`.
  Each controller gets them at construction. The only property assumed of them is
  `HashChecks`: a password matches its own hash. Only the lemmas that need it assume it.
- The clock (`Date.now()`) and the random bytes of a fresh token are method parameters (`now`,
  `random`). Times are milliseconds. Session-token claims are in seconds:
  `iat = floor(now / 1000)` and `exp = iat + 86400`, which is what `expiresIn: '1d'` produces.
- A request-body field is `Option<string>`, where `None` means the field is absent. "Truthy"
  is the JavaScript test `!!x` on a string: present and not empty.
- Assumptions about the database schema, which is not part of this model:
  - ids autoincrement from 1;
  - a new row has `verified = false`;
  - `created_at` is the insertion time;
  - `updated_at` is refreshed by every write;
  - `email` carries a unique constraint.
- Prisma behaviour the model follows:
  - `findUnique` with an undefined email throws, which the handler turns into 500;
  - `update` of a missing id throws, which gives 500;
  - `bcrypt.compare` or `bcrypt.hash` on an undefined password throws, which gives 500;
  - a where-clause field that is undefined is dropped from a `findFirst`.

  `findFirst` has no `orderBy`; the model takes the lowest matching id. Likewise the
  `findMany` of `getAllUsers` has no `orderBy`, so the database promises no order for the
  listing; listing in increasing id order is the model's choice, and the order conjuncts of
  `Transitions.ListUsers` and `Properties.GetAllUsersListsEveryRecord` are about that choice,
  not a promise of the source.

The model follows the code where the intended design reads differently:

- An unverified login is answered 403, a separate code from the 401 of a wrong password.
- `updateUser` forces `verified := false` whenever a truthy email is supplied, even when that
  email is the account's current one.
- Token consumption is a `findFirst` followed by a separate `update`, not one conditional
  write. The model is sequential, so it still shows single use (`VerifyTokenSingleUse`).

## Model

| member | source | states |
|---|---|---|
| Tokens.HexEncode | api/src/controller/UserController.ts:27 | a token is two lower-case hex digits per random byte |
| Tokens.TokenOf | api/src/controller/UserController.ts:27 | every minted token is exactly 64 lower-case hex digits |
| Tokens.DecodeEncode | api/src/controller/UserController.ts:27 | the hex text determines the random bytes: decoding undoes encoding |
| Tokens.EncodeInjective | api/src/controller/UserController.ts:172 | distinct random draws give distinct tokens |
| Accounts.FindFirst | api/src/controller/UserController.ts:58-63 | the result is a matching row with no matching row at a lower id; None only when no row in range matches |
| Accounts.FindComplete | api/src/controller/UserController.ts:20-21 | on a consistent table the lookup fails exactly when no row matches |
| Accounts.FindByEmailUnique | api/src/controller/UserController.ts:91-94 | under the unique constraint, lookup by email returns the one row that has it |
| Transitions.ListUsers | api/src/controller/UserController.ts:228-246 | every row listed is the public projection of a stored record; rows come in strictly increasing id order, an order the model picks where the source leaves it open |
| Properties.FirstLiveHolderIsFound | api/src/controller/UserController.ts:58-63 | the token lookup picks the lowest id whose row holds the token unexpired |
| Properties.CreateUserRejectsMissingField | api/src/controller/UserController.ts:15-18 | a missing or empty name, email or password gives 400 and leaves the table unchanged |
| Properties.CreateUserConflictIff | api/src/controller/UserController.ts:20-24 | with valid fields, 409 comes back exactly when some row has the email, and then nothing changes |
| Properties.CreateUserInsertsOne | api/src/controller/UserController.ts:26-38 | success adds one row under a fresh id and no other row changes; the new row has the name, the email, the hash of the password, verified false, the fresh token, reset_expires = now + 86400000 and created_at = now |
| Properties.CreateReplyHidesSecrets | api/src/controller/UserController.ts:37-46 | the 201 body is the same for any password, hash function and token |
| Properties.CreateUserPreservesValid | api/src/controller/UserController.ts:29-36 | registration keeps emails unique, the token fields paired and ids below the counter |
| Properties.VerifyEmailSucceedsIff | api/src/controller/UserController.ts:58-68 | verification succeeds exactly when some row holds the token with reset_expires > now; otherwise 400 and no change |
| Properties.VerifyEmailExpiryIsStrict | api/src/controller/UserController.ts:61 | for a token held by one row, verification succeeds exactly when now < reset_expires; at now == reset_expires it fails |
| Properties.VerifyEmailEffect | api/src/controller/UserController.ts:70-77 | success sets verified and clears reset_token and reset_expires on the found row only; every other field but updated_at is kept, as are all other rows |
| Properties.VerifyEmailPreservesValid | api/src/controller/UserController.ts:70-77 | verification keeps the table invariant |
| Properties.VerifyTokenSingleUse | api/src/controller/UserController.ts:58-77 | after a token held by one row is consumed, a second verification with it fails at any time and changes nothing |
| Properties.ConsumedRowStaysConsumed | api/src/controller/UserController.ts:58-77 | the row a verification consumed has no token left, and a second verification with the same token leaves that row unchanged |
| Properties.AuthenticateOrder | api/src/controller/UserController.ts:91-116 | 404 when no row has the email, else 401 on a password mismatch, else 403 when unverified, else a session token signed over the id with a one-day expiry |
| Properties.RegisterVerifyLogin | api/src/controller/UserController.ts:10-121 | register then log in gives 403; verify within 24 h, then log in gives a session for the new id; verifying again then gives 400 |
| Properties.UpdateUserConflictIff | api/src/controller/UserController.ts:131-136 | 409 comes back exactly when a truthy email belongs to a row with another id, and then nothing changes |
| Properties.UpdateUserMissingTarget | api/src/controller/UserController.ts:145-149 | updating an id that does not exist fails with 500 and changes nothing |
| Properties.UpdateUserEffect | api/src/controller/UserController.ts:129-149 | only the target row changes: name when supplied; email with verified forced false when a truthy email is supplied; the hash only when a truthy password is supplied |
| Properties.UpdateUserPreservesValid | api/src/controller/UserController.ts:129-149 | updates keep emails unique and the token fields paired |
| Properties.ForgotPasswordUnknownEmail | api/src/controller/UserController.ts:165-170 | an unknown email gives 200 and leaves the table unchanged |
| Properties.ForgotPasswordKnownEmail | api/src/controller/UserController.ts:172-179 | a known email overwrites only that row's reset_token and sets reset_expires = now + 3600000; hash and verified are kept |
| Properties.ForgotPasswordReplyUniform | api/src/controller/UserController.ts:167-184 | the reply is the same for every present email, registered or not (corrected; see Findings) |
| Properties.ForgotPasswordSupersedesPendingToken | api/src/controller/UserController.ts:172-179 | a reset request overwrites a pending verification token, which then no longer verifies |
| Properties.ForgotPasswordPreservesValid | api/src/controller/UserController.ts:172-179 | forgot-password keeps the token fields paired and well formed |
| Properties.ResetPasswordSucceedsIff | api/src/controller/UserController.ts:196-216 | reset succeeds exactly when a token and a new password are given and some row holds the token unexpired; on any failure the table is unchanged, and 400 comes back exactly when the token is absent or matches no such row |
| Properties.ResetPasswordSameLookupAsVerify | api/src/controller/UserController.ts:196-201 | reset and verification accept the same tokens and change the same record |
| Properties.ResetPasswordEffect | api/src/controller/UserController.ts:208-216 | success replaces the hash and clears both token fields on the found row only; verified and the rest are kept |
| Properties.ResetPasswordPreservesValid | api/src/controller/UserController.ts:208-216 | reset keeps the table invariant |
| Properties.ListUsersLength | api/src/controller/UserController.ts:241 | the listing has one row per record id in range |
| Properties.ListUsersComplete | api/src/controller/UserController.ts:228-238 | every record in range appears in the listing |
| Properties.GetAllUsersListsEveryRecord | api/src/controller/UserController.ts:228-247 | count equals the number of records; every record is listed, once, as its public projection (in id order, the model's choice of the order the source leaves open) |
| Properties.ListUsersIgnoresSecrets | api/src/controller/UserController.ts:229-237 | the listing depends only on id, name, email, verified, created_at and updated_at |
| Properties.GetAllUsersIgnoresSecrets | api/src/controller/UserController.ts:229-237 | tables that differ only in hashes and tokens give the same listing |
| Properties.HandlePreservesValid | api/src/controller/UserController.ts:8-253 | every handler keeps the table invariant |
| Properties.RunPreservesValid | api/src/controller/UserController.ts:8-253 | after any sequence of requests, emails are unique and reset_token is set exactly when reset_expires is |
| Properties.HandleKeepsRecord | api/src/controller/UserController.ts:8-253 | no handler removes a row or changes its created_at |
| Properties.RunKeepsRecords | api/src/controller/UserController.ts:8-253 | rows and their creation time survive any sequence of requests |
| Properties.VerificationTransitions | api/src/controller/UserController.ts:73 | verified becomes true only through verifyEmail, and a row whose email changed is unverified |
| Controller.UserController.constructor | api/src/controller/UserController.ts:255 | a new controller starts with an empty table that satisfies the invariant |
| Controller.UserController.CreateUser | api/src/controller/UserController.ts:10-51 | the reply and new table are those of the createUser transition; the invariant is kept |
| Controller.UserController.VerifyEmail | api/src/controller/UserController.ts:54-84 | the reply and new table are those of the verifyEmail transition; the invariant is kept |
| Controller.UserController.Authenticate | api/src/controller/UserController.ts:87-121 | the reply is that of the authenticate transition, and the table is not written |
| Controller.UserController.UpdateUser | api/src/controller/UserController.ts:124-159 | the field-by-field updateData gives the updateUser transition's reply and table; the invariant is kept |
| Controller.UserController.ForgotPassword | api/src/controller/UserController.ts:162-189 | the reply and new table are those of the forgotPassword transition; the invariant is kept |
| Controller.UserController.ResetPassword | api/src/controller/UserController.ts:192-223 | the reply and new table are those of the resetPassword transition; the invariant is kept |
| Findings.MissingTokenResetsPendingAccount | api/src/controller/UserController.ts:194-201 | as written, a request without a token resets the password of the first account whose token has not expired; the corrected handler answers 400 |
| Findings.MissingTokenTakesOverNewAccount | api/src/controller/UserController.ts:194-216 | as written, a new account's password can be replaced without its token for 24 hours after registration |
| Findings.ForgotPasswordAsWrittenRevealsAccounts | api/src/controller/UserController.ts:167-184 | as written, the reply for a registered email differs from the reply for an unregistered one |
| Findings.ForgotPasswordCorrectionKeepsEffect | api/src/controller/UserController.ts:172-179 | the correction changes only the reply; both versions write the same table |
| Findings.ResetPasswordAsWrittenPreservesValid | api/src/controller/UserController.ts:194-216 | the as-written reset, token or no token, keeps the table invariant |
| Findings.ForgotPasswordAsWrittenUnknownEmail | api/src/controller/UserController.ts:165-170 | as written, an unknown email gives 200 with "Email enviado" and leaves the table unchanged |
| Findings.ForgotPasswordAsWrittenPreservesValid | api/src/controller/UserController.ts:162-189 | the as-written forgot-password keeps the table invariant |

## Left out

- HTTP plumbing is out: Express requests and responses, JSON bodies, routes and the parsing of
  `:id` with `Number(id)`. Inputs are typed parameters and outputs are `Reply` values. A
  non-numeric id, a JSON `null` and non-string field values are not modelled.
- bcrypt's salting and cost and JWT signatures are out: they are foreign libraries.
  Hashing is modelled as a fixed function, so two hashes of one password are equal here,
  though not in bcrypt. A missing `JWT_SECRET`, which makes `jwt.sign` throw, is not modelled.
- Where the random bytes come from is out. `random` is a parameter, and so is `now`.
  ISO-string formatting of the timestamps in `getAllUsers` is not modelled.
- Concurrency is out. The handlers interleave at every `await` in the source, and two
  registrations of one email or two consumptions of one token can race. The model runs one
  request at a time.
- The email sending, which is commented out in the source, is out.
- Exceptions from the database itself (connection loss, a unique violation from a concurrent
  write) are out. Only the 500 paths reachable in a sequential run are modelled.
- `getAllUsers`'s own 500 reply is out: reading an in-memory table cannot fail.
- `src/utils/setup-database.ts`, `src/server.ts`, `api/src/server.ts` and
  `api/src/utils/test.connection.ts` are not part of this model. They are database bootstrap
  and server startup.
- Controller.UserController.ResetPassword: models the corrected handler, not the code as
  written. A body without `token`, such as `{ "newPassword": "x" }`, is answered 400 with the
  table unchanged, while lines 194-216 drop the `reset_token` filter and reset the password of
  the first row whose token is still live. The as-written handler is
  `Findings.ResetPasswordAsWritten`; `Findings.MissingTokenResetsPendingAccount` states what it
  does instead and `Findings.ResetPasswordAsWrittenPreservesValid` that it keeps the invariant.
- Controller.UserController.ForgotPassword: models the corrected handler, not the code as
  written. An unknown email is answered `Email de recuperação enviado`, while line 168 answers
  `Email enviado`. The table written is the same in both
  (`Findings.ForgotPasswordCorrectionKeepsEffect`); the as-written reply is stated by
  `Findings.ForgotPasswordAsWrittenUnknownEmail`.
- Properties.ForgotPasswordUnknownEmail: states the corrected reply `Email de recuperação
  enviado` for an unknown email, where line 168 answers `Email enviado`; the as-written reply
  is `Findings.ForgotPasswordAsWrittenUnknownEmail`.
- Properties.Handle, Properties.HandlePreservesValid and Properties.RunPreservesValid run the
  corrected `ForgotPassword` and `ResetPassword`. For the code as written, invariant
  preservation is stated per handler by `Findings.ResetPasswordAsWrittenPreservesValid` and
  `Findings.ForgotPasswordAsWrittenPreservesValid`, not over sequences of requests.
- Properties.VerifyTokenSingleUse: it assumes that only one row holds the token. Two rows can
  hold the same token only if two random draws collide. Without that assumption, a second
  verification may consume another row. Properties.ConsumedRowStaysConsumed shows that it
  never consumes the first row again.

## Findings

| source | as written | input that shows it | evidently intended | confidence | as-written member | corrected member |
|---|---|---|---|---|---|---|
| api/src/controller/UserController.ts:194-201 | `token` from the body goes straight into the `findFirst` where-clause; when it is absent, Prisma drops the `reset_token` filter | POST /reset-password with body `{ "newPassword": "x" }` while some account has an unexpired token, for example any account registered in the last 24 hours | a request without a token is refused with 400 | high for the reasoning, not executed | Findings.MissingTokenResetsPendingAccount | Properties.ResetPasswordSucceedsIff |
| api/src/controller/UserController.ts:167-184 | the reply is `Email enviado` for an unknown email and `Email de recuperação enviado` for a known one | POST /forgot-password with a registered and then an unregistered email returns two different messages | one reply whatever the email, as the security comment on line 168 says | medium, not executed | Findings.ForgotPasswordAsWrittenRevealsAccounts | Properties.ForgotPasswordReplyUniform |

In both rows, the `Transitions` module and the controller class use the corrected handler.
For reset, that is `Transitions.ResetPassword`, which refuses an absent token. For
forgot-password, it is `Transitions.ForgotPassword`, which gives the same message both ways.
The as-written versions are `Findings.ResetPasswordAsWritten` and
`Findings.ForgotPasswordAsWritten`.
