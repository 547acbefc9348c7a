# Users request pipeline of nhatsugarman/twitter, in Dafny

This project models the request-handling core of a TypeScript/Express user-account backend, where every users route is a chain of middlewares. It covers:

- **the field checks and guards** of `src/middlewares/users.middlewares.ts`: access, refresh, email-verify and forgot-password tokens; password and confirm-password rules; login and register; follow and unfollow ids; change password; the verified-user guard;
- **the schema engine** they run in. This is express-validator's `checkSchema`, modelled on the behaviour the schemas rely on:
  - fields run in schema order and every step of a field runs;
  - the first error a field records is the one reported;
  - `trim` and `optional` behave as the library defines them;
  - a thrown `ErrorWithStatus` becomes the field's message object;
- **`validate`** of `src/utils/validation.ts`: proceed, forward one short-circuiting `ErrorWithStatus`, or forward one `EntityError` (422) holding every mapped error;
- **the error records** of `src/models/Errors.ts`;
- **`defaultErrorHandler`** of `src/middlewares/error.middlewares.ts`: a typed error answers with its own status and its fields minus `status`; anything else answers 500 with `{ messsage, errorInfo }`;
- **`filterMiddleware`** of `src/middlewares/common.middlewares.ts`: lodash `pick` over the body;
- **the users router** of `src/routes/users.routes.ts`: the route table in registration order, Express's first-match dispatch, and a chain runner with `next()` / `next(err)` semantics.

The request is a value that every stage returns updated. The following are parameters of the model (`Store.Env` and `Store.Lib`):

- the token verifier, keyed by secret;
- the password hash;
- the document store;
- the validator library's built-in predicates.

Files:

- `errors.dfy`: the error records, status table and messages;
- `text.dfy`: trim, split and ASCII lower-casing;
- `store.dfy`: users, refresh-token records, lookups and the environment;
- `request.dfy`: the request and its context properties;
- `checks.dfy`: the custom checks and the verified-user guard;
- `schema.dfy`: the engine and the schema tables;
- `validation.dfy`: `validate`;
- `error_handler.dfy`: the error handler;
- `filter.dfy`: the body filter;
- `routes.dfy`: routes, dispatch and chains.

The quirks of the code are modelled as written:

- **`FORBIDDEN` is 401.**
- **The access guard writes `req.decode_authorization`,** but the verified-user guard and the change-password check read `req.decoded_authorization`. Nothing writes the latter, so on a request as it arrives the verified-user guard throws a `TypeError`. `PATCH /me`, both follow routes and `PUT /change-password` therefore never reach their controllers (`Routes.GuardedRoutesNeverHandled`).
- **The email-verify token is checked with the access-token secret.**
- **The forgot-password lookup is not awaited,** so its `null` test never fires.
- **`REFRESH_TOKEN_NOT_EXIST` and `EMAIL_VERIFY_TOKEN_IS_REQUIRED` are not in the messages table,** so those errors carry an undefined message.
- **`unfollowValidator` reads `req.params.followed_user_id`,** while its routes bind `user_id` or nothing, so it always answers 404.
- **`PUT /change-password` runs `unfollowValidator` and `unfollowController`,** and `changePasswordValidator` is on no route.
- **`GET /:username` is registered before `GET /follow`** and shadows it.

In the code, a taken email at register and a failed login are plain errors, so `validate` aggregates them into a 422. `FORBIDDEN` is 401, and the follow routes are `GET` routes.

## Model

| member | source | states |
|---|---|---|
| Errors.NewErrorWithStatus | src/models/Errors.ts:12-19 | the constructor stores the message and the status unchanged |
| Errors.NewEntityError | src/models/Errors.ts:21-30 | an `EntityError` keeps the map it was given, has status 422, and its message defaults to 'Validation Error' |
| Errors.EntityIsErrorWithStatus | src/models/Errors.ts:21-26 | every `EntityError` is an `ErrorWithStatus` with status 422 and its own message |
| Text.TrimSpec | src/middlewares/users.middlewares.ts:256 | the trimmed value is a slice of the input, only whitespace is cut from either side, and neither end of the result is whitespace |
| Text.Split | src/middlewares/users.middlewares.ts:259 | `split(' ')` gives at least one part, no part holds a space, and joining the parts back gives the input |
| Text.SplitPair | src/middlewares/users.middlewares.ts:259 | `a + ' ' + b` splits into exactly `[a, b]` when neither part holds a space |
| Text.LowerAscii | src/middlewares/users.middlewares.ts:255 | header names are lower-cased character by character, keeping the length |
| Requests.ApplyWrite | src/middlewares/users.middlewares.ts:272 | no check's write touches `req.decoded_authorization` |
| Requests.SetField | src/middlewares/users.middlewares.ts:256 | writing a field back sets exactly that key of that location, and nothing else changes |
| Requests.AuthorizationKey | src/middlewares/users.middlewares.ts:255 | the `Authorization` field is read from the `authorization` header |
| Store.FindUser | src/middlewares/users.middlewares.ts:148-150 | an awaited `findOne` finds a matching user, is `null` exactly when no user matches, and fails when the store fails |
| Store.FindRefreshToken | src/middlewares/users.middlewares.ts:297-300 | the refresh-token lookup finds a record with that token, or none exactly when no record holds it |
| Checks.DestructureError | src/middlewares/users.middlewares.ts:465 | the `TypeError` of the failed destructuring has own properties `message` and `stack`, neither of them enumerable |
| Checks.BearerToken | src/middlewares/users.middlewares.ts:259 | for `scheme + ' ' + token` without further spaces, the access token is exactly the token |
| Checks.NoSecondSegment | src/middlewares/users.middlewares.ts:259-266 | an `Authorization` value without a space, or with nothing after the space, yields no token |
| Checks.AccessGuardOutcomes | src/middlewares/users.middlewares.ts:258-273 | 401 `ACCESS_TOKEN_IS_REQUIRED` exactly when the second segment is absent or empty. Otherwise the decoded payload goes to `req.decode_authorization`, or the verifier's rejection is recorded |
| Checks.RefreshGuardOutcomes | src/middlewares/users.middlewares.ts:286-318 | empty value: 401 `REFRETCH_TOKEN_IS_REQUIRED`. Bad signature: 401 `REFRETCH_TOKEN_IS_INVALID` whatever the store holds. No record: 401 with the undefined message. Store failure: rethrown. It passes exactly for a valid token with a record, and then writes `req.decode_refresh_token` |
| Checks.EmailVerifyGuardOutcomes | src/middlewares/users.middlewares.ts:336-365 | after the emptiness test every failure is 401 `REFRETCH_TOKEN_IS_INVALID`. The outcome depends only on the access-token verifier. A pass writes `req.decoded_email_verify_token` |
| Checks.ForgotTokenOutcomes | src/middlewares/users.middlewares.ts:19-62 | empty value, bad signature, missing user and a differing stored token each give their 401. The copy at lines 404-444 decides alike, and only the schema copy writes `req.decode_forgot_token` |
| Checks.VerifiedGuardOutcomes | src/middlewares/users.middlewares.ts:464-477 | with a decoded payload it errs exactly when the user is not verified, and then with `ErrorWithStatus` 'User is not verifed' and status `FORBIDDEN` (401). Without a payload it passes the destructuring `TypeError` |
| Checks.UsernameOutcomes | src/middlewares/users.middlewares.ts:517-535 | a failed pattern gives plain 'Invalid', a store failure its message, a taken name plain 'User name is existed'; it passes without a write exactly when the pattern matches and no user has the name; it never throws an `ErrorWithStatus` |
| Checks.OldPasswordOutcomes | src/middlewares/users.middlewares.ts:581-613 | without a decoded payload the destructuring `TypeError` is recorded as a plain error; a bad id records the `BSONError`; a missing user is 404 'User not found', a differing hash 404 'Not match'; it passes without a write exactly when the user exists and the hashes agree |
| Checks.PlainFieldFailures | src/middlewares/users.middlewares.ts:106-233 | confirm mismatch, failed login and a taken email fail with plain messages, each exactly on its condition. A passing login writes the matched user to `req.user` |
| Checks.ForgotEmailNeverFails | src/middlewares/users.middlewares.ts:381-389 | the unawaited lookup always passes and stores a pending promise in `req.user` |
| Checks.NotFoundOutcomes | src/middlewares/users.middlewares.ts:138-158 | an invalid id or a missing user gives 404 'User not found', and the check passes exactly when the user exists. A differing old-password hash (lines 598-606) gives 404 'Not match' |
| Schema.CountPositive | src/middlewares/users.middlewares.ts:75-84 | a string has at least one character of a class exactly when one of its characters is in it |
| Schema.StrongPasswordAtLeastOne | src/middlewares/users.middlewares.ts:75-84 | `isStrongPassword` with all minimums 1 holds exactly when the password has a lowercase letter, an uppercase letter, a digit and a symbol |
| Schema.RulesOnlyRecord | src/middlewares/users.middlewares.ts:66-85 | a built-in rule never changes the request or the value, and records an error exactly when it fails |
| Schema.PasswordRules | src/middlewares/users.middlewares.ts:66-85 | the password field records no error exactly when the value is a non-empty string of length 5 to 50 with one character of each class |
| Schema.NameRules | src/middlewares/users.middlewares.ts:117-127 | the name steps record no error exactly for a string of 1 to 256 characters, checked against an independent predicate; any error is "Invalid value" under the field's path; the value ends trimmed |
| Schema.NameFieldReports | src/middlewares/users.middlewares.ts:117-127 | a required name field reports nothing exactly for an acceptable name, and otherwise "Invalid value" under `name` |
| Schema.RegisterReportsBadName | src/middlewares/users.middlewares.ts:210-213 | a registration with an unacceptable name reports "Invalid value" under `name` first |
| Schema.ConfirmPasswordRules | src/middlewares/users.middlewares.ts:87-115 | confirm-password records no error exactly when the value passes the password rules and is strictly equal to `req.body.password` |
| Schema.StepsAppend | src/utils/validation.ts:11 | running steps `a + b` is running `a`, then `b` |
| Schema.StepsShape | src/utils/validation.ts:11 | a field's steps only append errors under the field's path, and leave `req.decoded_authorization` alone |
| Schema.PlainFields | src/utils/validation.ts:11 | a schema whose custom checks throw only plain errors records only plain messages |
| Schema.FieldShape | src/utils/validation.ts:11 | a field reports at most one error, under its own path, and leaves `req.decoded_authorization` alone |
| Schema.FieldsShape | src/utils/validation.ts:11 | a schema records at most one error per field, each under a field's path, and leaves `req.decoded_authorization` alone |
| Schema.FieldsFrame | src/utils/validation.ts:11 | a request field that no trimming field writes is left as it was |
| Schema.FieldsAppend | src/utils/validation.ts:11 | running schema `a + b` is running `a`, then `b` on the request `a` left |
| Schema.RegisterIsPlain | src/middlewares/users.middlewares.ts:210-251 | every check of the register schema throws a plain error, never an `ErrorWithStatus` |
| Schema.LoginIsPlain | src/middlewares/users.middlewares.ts:160-208 | every check of the login schema throws a plain error, never an `ErrorWithStatus` |
| Schema.MismatchReported | src/middlewares/users.middlewares.ts:106-113 | when `confirm_password` is not strictly equal to `password`, a plain error is recorded under `confirm_password`, provided no earlier field writes those two |
| Schema.RegisterReportsMismatch | src/middlewares/users.middlewares.ts:210-251 | on register, a confirm-password mismatch is always reported as a plain error |
| Schema.AccessFieldMissing | src/middlewares/users.middlewares.ts:255-266 | without the header, the access field trims to "" and records 401 `ACCESS_TOKEN_IS_REQUIRED` on that value, writing nothing |
| Schema.AccessTokenMissing | src/middlewares/users.middlewares.ts:253-278 | without an `Authorization` header the access schema reports exactly one error, that 401, and leaves the request as it was |
| Validation.MappedFromSpec | src/utils/validation.ts:18 | `errors.mapped()` keeps one error per path: distinct paths, exactly the recorded paths, each one of the recorded errors |
| Validation.MappedDistinct | src/utils/validation.ts:18 | errors already under distinct paths are mapped as they are |
| Validation.FirstShortCircuit | src/utils/validation.ts:21-26 | the first position whose message is an `ErrorWithStatus` with status other than 422, or none exactly when there is no such position |
| Validation.Validate | src/utils/validation.ts:9-33 | the loop calls `next` once, with what `Decision` prescribes: nothing, the first short-circuiting error, or one `EntityError` |
| Validation.CollectContents | src/utils/validation.ts:28 | the stored errors have exactly the mapped paths as keys, each bound to its own entry |
| Validation.MappedEmpty | src/utils/validation.ts:14-18 | some error is mapped exactly when some error was recorded |
| Validation.ProceedIffNoErrors | src/utils/validation.ts:14-16 | `next()` is called with no argument exactly when no error was recorded |
| Validation.ShortCircuitForwarded | src/utils/validation.ts:21-26 | the first short-circuiting error is forwarded unchanged, the errors before it are dropped, and the status is not 422 |
| Validation.Aggregated | src/utils/validation.ts:18-31 | otherwise one `EntityError` (422, 'Validation Error') is forwarded, with exactly the mapped keys, 422 messages included, each bound to its entry |
| Validation.PlainNeverShortCircuits | src/utils/validation.ts:24 | plain messages never short-circuit: proceed or one `EntityError` |
| Validation.PlainStage | src/utils/validation.ts:9-33 | a schema with only plain checks never forwards a typed error |
| Filter.Pick | src/middlewares/common.middlewares.ts:8 | the picked body has exactly the listed keys present in the body, with their values |
| Filter.FilterStage | src/middlewares/common.middlewares.ts:6-12 | the new body is `pick(req.body, filterKeys)`; headers, params and context are kept |
| Filter.PickIdempotent | src/middlewares/common.middlewares.ts:8 | filtering twice with the same keys is filtering once |
| Filter.PickWithinKeys | src/middlewares/common.middlewares.ts:8 | a body already within the keys is unchanged |
| Filter.PickMonotone | src/middlewares/common.middlewares.ts:8 | filtering with fewer keys is filtering with more keys, then with the fewer |
| ErrorHandler.ErrorWithStatusJson | src/middlewares/error.middlewares.ts:8 | an `ErrorWithStatus` serialises to `status` and, when defined, `message` |
| ErrorHandler.EntryJson | src/middlewares/error.middlewares.ts:8 | a field error serialises with `type`, `msg`, `path` and `location`, and with `value` exactly when the value is defined |
| ErrorHandler.ErrorsJson | src/middlewares/error.middlewares.ts:8 | the `errors` object has the same keys, each serialised |
| ErrorHandler.DefaultErrorHandler | src/middlewares/error.middlewares.ts:6-16 | the handler, with its loop making every own property enumerable, answers `ErrorResponse` |
| ErrorHandler.TypedResponse | src/middlewares/error.middlewares.ts:7-9 | a typed error answers with its own status. The body has no `status`, a `message` exactly when one is defined, and `errors` exactly for an `EntityError`, with its keys |
| ErrorHandler.EntityResponse | src/middlewares/error.middlewares.ts:7-9 | an `EntityError` from `validate` answers 422 with exactly `message` 'Validation Error' and `errors` |
| ErrorHandler.UntypedResponse | src/middlewares/error.middlewares.ts:11-15 | any other error answers 500 with `messsage` and `errorInfo`. `errorInfo` holds every own property except `stack`, enumerable or not |
| Routes.MatchPathSpec | src/routes/users.routes.ts:36-76 | a path matches exactly when it has the pattern's length, equal literal segments and a non-empty segment per parameter; the match binds exactly the parameter names, each to its segment |
| Routes.AcceptsIffFits | src/routes/users.routes.ts:36-76 | a route accepts a request exactly when the method is the route's and the path fits its pattern |
| Routes.Dispatch | src/routes/users.routes.ts:36-76 | the chosen route is the first in registration order that accepts the method and path, and none exactly when no route accepts them |
| Routes.ChainAppend | src/routes/users.routes.ts:36-76 | a chain that ran through continues into what follows it, and a chain that stopped stops the longer chain |
| Routes.ChainStep | src/routes/users.routes.ts:36-76 | a middleware's `next(err)` stops the chain with that error, and `next()` runs the rest |
| Routes.StageKeepsDecoded | src/routes/users.routes.ts:36-76 | no middleware writes `req.decoded_authorization` |
| Routes.GuardStopsChain | src/routes/users.routes.ts:52-76 | on a fresh request, any chain with `verifiedUserValidator` before its controller stops with an error |
| Routes.AccessThenGuard | src/routes/users.routes.ts:52-76 | access guard then verified guard stops with the access guard's error or the `TypeError` |
| Routes.ProfileShadowsFollow | src/routes/users.routes.ts:70-72 | `GET /follow` goes to the profile route with `username` 'follow' |
| Routes.GuardedRoutes | src/routes/users.routes.ts:52-76 | `PATCH /me`, both follow routes and change-password are the routes with the verified guard. Each begins with the access guard, then the verified guard |
| Routes.GuardedRoutesNeverHandled | src/routes/users.routes.ts:52-76 | on a fresh request those routes end in the access guard's error or the `TypeError`, never at a controller |
| Routes.ChangePasswordWiring | src/routes/users.routes.ts:76 | `PUT /change-password` runs `unfollowValidator` and `unfollowController`, and `changePasswordValidator` is on no route |
| Routes.UnfollowWithoutParam | src/middlewares/users.middlewares.ts:572-579 | without `params.followed_user_id` the unfollow checks forward 404 'User not found' |
| Routes.UnfollowRouteParams | src/routes/users.routes.ts:74 | `GET /follow/:user_id` binds only `user_id` |
| Routes.SingleErrorStops | src/routes/users.routes.ts:36-76 | a chain whose first schema reports one short-circuiting error stops with it |
| Routes.AccessMissingStops | src/middlewares/users.middlewares.ts:253-278 | any chain that begins with the access guard stops there with 401 `ACCESS_TOKEN_IS_REQUIRED` when the `Authorization` header is absent |
| Routes.LogoutWithoutAuthorization | src/routes/users.routes.ts:38 | `POST /logout` without `Authorization` stops at the access guard with 401 `ACCESS_TOKEN_IS_REQUIRED`, before the refresh guard |
| Routes.ValidatedThenHandled | src/routes/users.routes.ts:36-50 | a `validate` then controller chain reaches the controller exactly when the schema reported nothing |
| Routes.PlainValidatedThenHandled | src/routes/users.routes.ts:36-37 | with a plain-only schema such a chain reaches the controller or stops with one 422 `EntityError` |
| Routes.RegisterOutcomes | src/routes/users.routes.ts:37 | `POST /register` (with `validate` applied at the route) reaches its controller or forwards one 422 `EntityError` |
| Routes.LoginOutcomes | src/routes/users.routes.ts:36 | `POST /login` reaches its controller or forwards one 422 `EntityError` |
| Routes.GetMeChain | src/routes/users.routes.ts:50 | `GET /me` needs only the access guard: controller exactly when that schema reports nothing |
| Routes.ResendVerifyEmailChain | src/routes/users.routes.ts:42 | `POST /resend-verify-email` needs only the access guard |
| Routes.ValidateThenFilter | src/routes/users.routes.ts:52-68 | the filter runs only after validation passes, and the controller then sees only listed keys with their values |
| Routes.UpdateMeTail | src/routes/users.routes.ts:52-68 | `PATCH /me` is access, verified, `updateMeValidator`, the filter to the eight keys, then the controller |
| Routes.GuardTypeErrorResponse | src/middlewares/error.middlewares.ts:11-15 | the guard's `TypeError` answers 500 with its message as `messsage` and as the only `errorInfo` property, and no `stack` |

## Left out

- **Controllers** (`src/controllers/user.controller.ts`) are not part of this model; a chain ends when a controller is reached. The controllers file defines only the login and register controllers, although the router imports the others.
- **The error handler is never installed**: `src/index.ts` does not register `defaultErrorHandler`. The router model therefore ends at the outcome of a chain, and `ErrorHandler.ErrorResponse` states what the handler would answer.
- **Services, the store and I/O**: start-up, the database connection, the services, JWT signing and verification, SHA-256 hashing and the `REGEX_USERNAME` pattern are parameters of the model, not modelled. The `REGEX_USERNAME` file is not part of this model.
- **express-validator internals**: the engine is a model of the behaviour the schemas use, not of the library's source:
  - the reported error is a field's first recorded error;
  - the built-in validators (`isEmail`, `isISO8601`, the character classes of `isStrongPassword`) are uninterpreted predicates;
  - `isLength` counts Unicode code points (Dafny `char`s); validator.js's exception that does not count the variation selectors U+FE0E and U+FE0F is not modelled.
- **JSON arrays and non-integer numbers** cannot be represented in the model's JSON values, so request fields holding them are not covered; express-validator would apply the standard validators to each element of an array.
- **Header paths in reported errors**: the access guard's errors are recorded under the schema path "Authorization". express-validator may report header fields under their lower-cased name ("authorization"); the model reads the header by its lower-cased key but keeps the schema's spelling in the error.
- **Location sets**: a schema without an explicit location list searches every location. The model reads the access schema from headers and the change-password schema from the body only.
- **`Promise.all`** in the refresh guard is sequentialised: a signature rejection takes precedence over a store failure.
- **`new Object(user_id)`** in the forgot-token checks is treated as a lookup by id.
- **Key order**: the order of `errors.mapped()` is the order of first appearance, which is schema order here. JavaScript's rule that integer-like keys come first does not arise with these field names and is not modelled.
- **Express routing details**: case-insensitive paths, `HEAD` requests, trailing slashes and URL decoding are not modelled. A parameter matches one non-empty segment.
- **In-place mutation of `req` and of the error object** is modelled on values: each stage returns the updated request, and the handler's loop updates an enumerability set.
- **Trimming before custom checks**: the model has no separate lemma that custom checks see trimmed values. It follows from the order of the steps in each schema table.
