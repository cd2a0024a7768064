# User backend: validation, authorization and sign-up, in Dafny

This project models the request-decision layer of a small Express backend. The backend serves user sign-up and CRUD operations on a `users` table. It covers five parts:

- **The users schemas** (`UsersValidation`, users_validation.dfy).
  - The path-id parser accepts a non-empty string of ASCII digits and converts it to its decimal value.
  - The partial-update schema has optional `name`, `email`, `password` and `role` fields with per-field bounds, and requires at least one field.
- **The users handlers** (`UsersController`, users_controller.dfy). `getAllUsers`, `getUserById`, `updateUser` and `deleteUser` are pure guard chains.
  - Each handler returns one response or forwards the error to `next`.
  - The users service is passed in as a function. So whether the service is consulted at all shows in the result.
- **The authentication and role gates** (`AuthMiddleware`, auth_middleware.dfy).
  - `authenticate` is a method on a `Request` object. It sets `req.user` from the `token` cookie. It is proved against the pure decision `Authentication`.
  - `requireRole` is a pure test of role-list membership.
- **The sign-up and sign-in service** (`AuthService`, auth_service.dfy).
  - The `users` table is a class holding the rows and the serial id counter.
  - `createUser` is a method on that class, proved against the pure `CreateUserSpec`.
  - `authenticateUser` is a read-only lookup followed by a password compare.
  - bcrypt is a pair of functions `hash` and `compare`. The only assumption about them is that a password matches its own hash.
- **The sign-up handler** (`AuthController`, auth_controller.dfy). Its ordered effects are returned as a trace: sign the token, set the cookie, send the response, call `next`.

Collaborators that are not in the model become function parameters:
- the token utility (`verify`, `sign`);
- the email-syntax check (`isEmail`);
- the password hasher;
- the users service.

The model follows the code as written, including where it departs from what the routes evidently intend:

- The role gate, the update rules and the delete rules compare roles as plain strings.
- Read-all and read-by-id check nothing about ownership.
- Deleting an id that does not exist gives 403, not 404, to a caller who is neither its owner nor an admin: the ownership check runs before the service is asked (`DeleteMissingUser`).
- A duplicate sign-up is not answered with 409 (see Findings).
- The name bounds are checked before trimming. So a name of blanks passes validation and is stored empty (`BlankNameBecomesEmpty`).
- `req.user` can be missing when a users handler runs, because no users route is mounted behind `authenticate` in src/app.js. Reading `currentUser.id` then throws a TypeError, and the handler forwards it to `next`.

## Model

| member | source | states |
|---|---|---|
| `UsersValidation.ParseUserId` | src/validations/users.validation.js:3-5 | accepted iff the id is non-empty and all ASCII digits; the value is its decimal reading; any other id fails with the single issue 'ID must be a valid number' on `id` |
| `UsersValidation.ParsePrinted` | src/validations/users.validation.js:4 | every natural number's decimal spelling is an accepted id that converts back to that number |
| `UsersValidation.PrintParsed` | src/validations/users.validation.js:4 | an accepted id converts to the number whose decimal spelling is the id without its leading zeros, so leading zeros are all the conversion discards |
| `UsersValidation.LeadingZeroIgnored` | src/validations/users.validation.js:4 | a leading "0" on a digit string does not change the parsed id ("007" is 7) |
| `UsersValidation.ParseUserIdExamples` | src/validations/users.validation.js:4 | "42" gives 42 and "007" gives 7; "", "12a", "-5" and "4.2" are rejected |
| `UsersValidation.Trim` | src/validations/users.validation.js:9-10 | `trim()` returns a middle slice of its input, with only white space cut from each end and no white space left at either end |
| `UsersValidation.ToLowerCase` | src/validations/users.validation.js:10 | lowering keeps the length and leaves no upper-case ASCII letter: each one becomes the letter 32 code points above it, and every other character is kept |
| `UsersValidation.ToLowerCaseIdempotent` | src/validations/users.validation.js:10 | lowering an already lowered string changes nothing |
| `UsersValidation.ValidateUpdate` | src/validations/users.validation.js:7-21 | accepted iff the body is an object, has at least one key, and each present key passes: name 2–255, email of valid syntax and at most 255, password 6–128, role exactly 'user' or 'admin'. A key is in the result iff it was in the body. Name is trimmed, email lowered then trimmed, and password and role are unchanged. `{}` fails with the single message 'At least one field must be provided for update' |
| `UsersValidation.BlankNameBecomesEmpty` | src/validations/users.validation.js:9 | a name of three blanks passes the length check, which runs before trimming, and is returned as "" |
| `UsersController.GetAllUsers` | src/controllers/users.controller.js:6-21 | a fetched list is answered 200 with `count` equal to the length of `users`; a fetch error always goes to `next` |
| `UsersController.GetUserById` | src/controllers/users.controller.js:23-54 | a bad id gives 400 before any lookup; 200 iff the lookup succeeds; 404 `{error: 'User not found'}` iff the lookup throws 'User not found'; a 200 carries 'Successfully retrieved user' and exactly the user the lookup returned; every other error is forwarded unchanged |
| `UsersController.UpdateUser` | src/controllers/users.controller.js:56-119 | order: a bad id gives 400, then a bad body gives 400, then a missing principal is forwarded as a TypeError. A non-owner non-admin gets 403 'You can only update your own information', whatever the target id. An owner who is not an admin and sends a `role` gets 403 'Only administrators can change user roles'. The service is called exactly when authorised, and 200 and 404 happen only then |
| `UsersController.UpdateRefusalIgnoresService` | src/controllers/users.controller.js:83-104 | an update that is not authorised gets the same reply from any two services, so the service is never consulted, and the reply is 400, 403 or a forwarded error |
| `UsersController.BadBodyBeforeForbidden` | src/controllers/users.controller.js:72-91 | a non-owner non-admin who sends an invalid body gets 400, not 403 |
| `UsersController.DeleteUser` | src/controllers/users.controller.js:121-163 | a bad id gives 400; a missing principal is forwarded; 403 'You can only delete your own account' iff the caller is neither owner nor admin; the service is called exactly when authorised, and 200 and 404 happen only then |
| `UsersController.DeleteMissingUser` | src/controllers/users.controller.js:138-160 | deleting an id the service does not know gives 404 to its owner or an admin and 403 to anyone else |
| `AuthMiddleware.Authentication` | src/middleware/auth.middleware.js:6-27 | 'No token provided' iff the `token` cookie is missing or empty; 'Invalid or expired token' iff it is present but fails verification; otherwise the result is the decoded claims |
| `AuthMiddleware.Authenticate` | src/middleware/auth.middleware.js:4-28 | on verified claims, `req.user` becomes those claims and the gate passes, calling `next` once; otherwise 401 with the decision's message, `next` not called and `req.user` unchanged |
| `AuthMiddleware.RequireRole` | src/middleware/auth.middleware.js:30-57 | no `req.user` gives 401 'Authentication required' whatever the roles; otherwise the gate passes iff the role is in the normalised list, and otherwise answers 403 with 'Access denied. Required roles: ' followed by the roles joined with ', ' |
| `AuthMiddleware.SingleRoleIsOneElementList` | src/middleware/auth.middleware.js:41 | a single role value behaves exactly like the one-element list holding it |
| `AuthMiddleware.EmptyRoleListForbids` | src/middleware/auth.middleware.js:41-50 | an empty role list answers every authenticated request with 403 |
| `AuthMiddleware.JoinListsRoles` | src/middleware/auth.middleware.js:49 | the role list in the 403 message is the first role followed by ", " and each later role, in order |
| `AuthMiddleware.AuthenticatedNeverUnauthorised` | src/middleware/auth.middleware.js:4-57 | on a route behind `authenticate` and then `requireRole`, 401 comes iff the token is missing or fails verification, never from the role gate; the request passes iff the verified role is allowed, and is otherwise refused with 403 and the joined roles |
| `AuthService.FindByEmail` | src/services/auth.service.js:27-31 | the email query finds the first row whose email is exactly equal, and finds none iff no row has that email |
| `AuthService.CreateUserSpec` | src/services/auth.service.js:25-59 | a taken email or a hashing failure fails and leaves the table and counter unchanged. Every failure has the single message 'Error creating user'. Success comes exactly when the email is new, hashing works and no value is longer than its varchar(255) column. Success appends one row with the next serial id, the password hash and the role defaulting to 'user', and returns that row without the password |
| `AuthService.DuplicateCauseDiscarded` | src/services/auth.service.js:27-58 | for a taken email the `try` block throws 'User already exists', and the caller sees only 'Error creating user' |
| `AuthService.CreatePreservesValid` | src/services/auth.service.js:25-54 | `createUser` keeps the table's invariant: ids from 1, increasing and below the counter, and no email twice |
| `AuthService.UserTable.CreateUser` | src/services/auth.service.js:25-59 | the method's result, rows and counter are those of `CreateUserSpec` on the old state, and the table stays valid |
| `AuthService.AuthenticateUser` | src/services/auth.service.js:61-89 | 'User not found' iff no row has exactly that email. Errors are 'User not found', 'Invalid password' or 'Error comparing the password', rethrown unchanged. For a known email, the outcome is decided by comparing the password with the hash of the row the query finds: success iff compare gives true, 'Invalid password' iff it gives false, 'Error comparing the password' iff it throws. A success returns that row without its password |
| `AuthService.SignInChecksTheOnlyRow` | src/services/auth.service.js:63-84 | in a valid table each email names one row, so signing in with any row's email succeeds iff the password matches that row's hash, returns that row, and fails with 'Invalid password' or 'Error comparing the password' exactly as compare answers for that row |
| `AuthService.EmailLookupIsExact` | src/services/auth.service.js:63-69 | the lookup does not lower-case: 'ann@x.com' does not find a row stored as 'Ann@x.com' |
| `AuthService.SignUpThenSignIn` | src/services/auth.service.js:35-84 | after a successful `createUser`, `authenticateUser` with the same email and password returns the same record |
| `AuthController.Signup` | src/controllers/auth.controller.js:8-54 | an invalid body gives exactly one 400 and leaves the table untouched. Otherwise the table is whatever `createUser` leaves. The effects are those of `SignupEffects` on the table as it was: on success, sign, set the cookie, send 201. If `createUser` or token signing throws: a 409 if the message matches, then `next(e)` |
| `AuthController.SignupSuccess` | src/controllers/auth.controller.js:19-44 | on success, and when signing works, the token's claims are exactly the new id, email and role, the cookie is named `token`, and the 201 body's user has only id, name, email and role |
| `AuthController.SignupFailureForwards` | src/controllers/auth.controller.js:45-52 | when `createUser` throws, no token is signed, no cookie is set, nothing is sent, and `next` gets 'Error creating user' |
| `AuthController.DuplicateSignupForwarded` | src/controllers/auth.controller.js:45-52 | a sign-up with a taken email ends in `next('Error creating user')` and nothing else |
| `AuthController.SignFailureKeepsUser` | src/controllers/auth.controller.js:19-52 | when signing the token throws after the insert, the new row stays in the table, no cookie is set, no 201 is sent, and `next` receives the signing error |
| `AuthController.SignupNever409` | src/controllers/auth.controller.js:48 | no sign-up, whatever the body and the table, ever sends 409, as long as the token utility does not throw that exact message |
| `AuthController.FixedDuplicateSignupGets409` | src/controllers/auth.controller.js:45-52 | with the duplicate error kept and the 409 branch returning, a taken email gets exactly one 409 'Email already exists' and nothing else, and every other sign-up behaves as written |

## Left out

- The sign-up schema: src/validations/auth.validation.js is not part of this model. `Signup` receives the outcome of validating the body.
- The users service: src/services/users.service.js is not part of this model. The handlers receive its calls as functions, and its record type is a type parameter.
- The token utility and the cookie utility (`#utils/jwt.js`, `#utils/cookies.js`) are not part of this model.
  - Verification is a partial function from a token to claims, and signing is a function from claims to a token or to the error it throws.
  - The issued-at and expiry fields, the secret and the cookie attributes (HTTP-only, same-site, secure, max-age) are not modelled.
- `formatValidation` (`#utils/format.js`) is not part of this model. A 400 response carries the list of validation issues.
  - Issues have a field and a kind. The library's default message texts are not modelled. The two messages the source fixes are: 'ID must be a valid number' and 'At least one field must be provided for update'.
- The email-syntax check of the schema library is the parameter `isEmail`.
- `Signup`: `cookies.set` is taken never to throw. Only token signing may throw after the insert.
- `SignupNever409` assumes the token utility never throws the message 'User with this email already exists'. The utility's source is not part of this model.
- `CreateUserSpec`: PostgreSQL stores an over-length varchar(255) value truncated when every excess character is a space. The model refuses every value longer than 255 characters, so it does not capture that truncation or its effect on later email lookups.
- bcrypt's salt and cost factor are not modelled. `hash` and `compare` are parameters, and only `Sound` (a password matches its own hash) is assumed.
- `ToLowerCase` lowers ASCII letters only. Full Unicode case mapping is not modelled.
- String lengths are counted in Unicode scalar values, not in UTF-16 code units as JavaScript does.
- Ids are unbounded naturals. The precision `Number` loses on ids above 2^53 is not modelled.
- The `req.params` object is reduced to its `id` string, which the router always supplies. Cookies whose values the cookie parser decodes to objects are not modelled.
- `authenticate` wraps its `next()` call in the same `try`. A synchronous throw from downstream would therefore be answered with 401. The handlers downstream are asynchronous, so this path is not modelled.
- Email-check issues: when the email is both malformed and over 255 characters, the model reports both issues. The library may stop after the first. Only the issue list depends on this, not the outcome.
- Async execution and the race between the duplicate check and the insert in `createUser` are out of scope. Each call runs on its own.
- The database: query mechanics, the serial sequence's consumption by a failed insert, and the order of rows without `ORDER BY` are not modelled.
  - The lookup returns the first matching row. Under the table invariant at most one row matches.
  - Timestamps are an opaque `now` parameter.
- Logging, the Express app wiring, helmet, CORS, body and cookie parsers, morgan, and the rate-limiting and bot-detection configuration are not modelled.
- The stub sign-in and sign-out routes, the health route and the route-not-found response are not modelled. No handler in the source produces the route-not-found response.
- `authenticateUser` is modelled, but no handler calls it: the sign-in route is a stub.

## Findings

| source | as written | input that shows it | evidently intended | confidence | as-written member | corrected member |
|---|---|---|---|---|---|---|
| src/controllers/auth.controller.js:48 | the catch block sends 409 only when the error message is 'User with this email already exists'. But `createUser` (src/services/auth.service.js:33, 57) throws 'User already exists' and then replaces every error with 'Error creating user'. When the branch does fire, it also calls `next(e)` after responding | a sign-up whose email is already in the table | 409 `{error: 'Email already exists'}` and no further call to `next` | high (follows from the two files; not executed) | `AuthController.SignupNever409` | `AuthController.FixedDuplicateSignupGets409` |
