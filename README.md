# GenZ-Album authentication core, in Dafny

This project models the authentication back end of GenZ-Album and proves properties of the model. It covers five parts:

- **Request-body validators.** The password-strength rules, the email expression and the name length. The browser's copy of the password rules is modelled beside them.
- **The user record and collection.** Setters, defaults, schema validation, the unique indexes, `findOne` and `create`.
- **The authentication service.** Registration, login, forgotten password, password reset and Google sign-in, as methods of a class holding the user collection. Each method is specified by a step function on values.
- **Tokens.** Issuing and checking session tokens, and the bearer-token gate in front of protected routes.
- **Errors and routes.** The application error type, the last-resort error handler, and the `/auth` endpoints that map validation results and service outcomes to HTTP statuses and JSON bodies.

The model has these parameters:

- bcrypt, SHA-256 and JWT signing are function-valued parameters. The only property assumed of bcrypt is that a hash is 60 characters long and verifies against the password it was made from (`AuthService.BcryptSound`).
- The random inputs and the clock are parameters of the operations that use them: the bcrypt salt, the reset secret, the new document id and `now`.
- `jwt.verify` is seen through the outcome it reports for a token.
- Emails are sent without waiting for them. Each send is recorded in an `outbox` sequence and never influences a result.

Files:

| file | module | models |
|---|---|---|
| base.dfy | Base | `Option` and `Result` |
| js_string.dfy | JsString | `trim`, ASCII `toLowerCase`, JavaScript truthiness of an optional string, `startsWith` |
| auth_validator.dfy | AuthValidator | backend/src/validators/authValidator.ts |
| password_validation.dfy | PasswordValidation | frontend/lib/password-validation.ts |
| app_error.dfy | AppErrors | backend/src/types/errors.ts |
| user_model.dfy | UserModel | backend/src/models/User.ts and the two collection operations the service uses |
| token_service.dfy | TokenService | backend/src/services/tokenService.ts |
| auth_service.dfy | AuthService | backend/src/services/authService.ts |
| auth_middleware.dfy | AuthMiddleware | backend/src/middleware/auth.ts |
| error_handler.dfy | ErrorHandler | backend/src/middleware/errorHandler.ts |
| auth_routes.dfy | AuthRoutes | backend/src/routes/auth.ts |

## Model

| member | source | states |
|---|---|---|
| JsString.Trim | backend/src/models/User.ts:20 | `trim()` removes exactly a whitespace prefix and a whitespace suffix, and the result neither starts nor ends with whitespace |
| JsString.TrimmedIsFixedPoint | backend/src/models/User.ts:20 | trimming changes a string exactly when it has whitespace at an end |
| JsString.ToLower | backend/src/models/User.ts:26 | lower-casing keeps the length and maps every character through the ASCII lower-case map |
| JsString.NoUpperIsFixedPoint | backend/src/models/User.ts:26 | lower-casing changes a string exactly when it holds a capital letter |
| JsString.TrimLowerCommute | backend/src/models/User.ts:26-27 | the `lowercase` and `trim` setters commute |
| UserModel.IdStringRoundTrip | backend/src/routes/auth.ts:142 | an id printed with `toString()` and cast back by `findById` is the same id |
| UserModel.NormalisedEmailShape | backend/src/models/User.ts:22-28 | a stored email is trimmed and holds no capital letter |
| UserModel.NormaliseEmailIdempotent | backend/src/models/User.ts:26-27 | applying the email setters twice is the same as applying them once |
| UserModel.WellFormedIsSetterFixedPoint | backend/src/models/User.ts:17-33 | a record satisfies the schema exactly when the `trim` and `lowercase` setters would leave its name and email unchanged |
| UserModel.UpdatePreservesInvariant | backend/src/models/User.ts:22-28 | saving a record with its id and email unchanged, still valid, keeps every record valid and ids and emails unique |
| UserModel.FindOne | backend/src/services/authService.ts:23 | `findOne` yields the first record matching the filter, and none exactly when no record matches |
| UserModel.Read | backend/src/models/User.ts:29-33 | a query leaves the password out unless it selects the field, and changes nothing else |
| UserModel.FindByStoredEmail | backend/src/models/User.ts:25 | because emails are unique, a lookup by a stored email finds exactly that record |
| UserModel.FindById | backend/src/routes/auth.ts:142 | because ids are unique, a lookup by a stored id finds exactly that record |
| UserModel.PrepareWellFormed | backend/src/models/User.ts:17-43 | a document whose fields pass the validators after the setters becomes a valid record |
| UserModel.AppendPreservesInvariant | backend/src/models/User.ts:22-28 | inserting a valid record whose id and email are not taken keeps every record valid and ids and emails unique |
| UserModel.Create | backend/src/services/authService.ts:33-38 | `create` stores the trimmed name and normalised email, keeping the given password and Google id, with `isEmailVerified` false unless given true and no reset fields; it fails validation exactly when a required field is empty after the setters or the password is shorter than 6, and fails on a duplicate key exactly when it is otherwise valid and its id or normalised email is taken |
| AppErrors.NewAppError | backend/src/types/errors.ts:38-42 | message and code are kept as given, a missing code stays missing, the status defaults to 500, and the error is always operational |
| TokenService.GenerateToken | backend/src/services/tokenService.ts:12-27 | the token is what signing the payload's user id and email with the configured secret and lifetime yields; any signing failure becomes a 500 `TOKEN_GENERATION_ERROR` |
| TokenService.GenerateTokenIgnoresTimestamps | backend/src/services/tokenService.ts:14-17 | any `iat` or `exp` in the payload has no effect on the token |
| TokenService.VerifyToken | backend/src/services/tokenService.ts:29-47 | every failure is an operational 401. It succeeds exactly on a decoded token with non-empty user id and email, and returns those claims. `TOKEN_EXPIRED` means exactly an expired token and `INVALID_TOKEN` exactly a library token error. `TOKEN_VERIFICATION_ERROR` means exactly any other error or a decoded token missing a claim |
| AuthMiddleware.BearerToken | backend/src/middleware/auth.ts:17-27 | a token is found exactly when the header starts with the case-sensitive `Bearer `, and the header is that prefix followed by the token |
| AuthMiddleware.Decide | backend/src/middleware/auth.ts:15-59 | no bearer header gives 401 `NO_TOKEN` and an empty or blank token gives 401 `INVALID_TOKEN_FORMAT`. The request proceeds exactly when the token is non-blank and verifies, carrying the verified payload. An application error from verification passes through with its own status, message and code. Any other thrown error gives 401 `AUTH_ERROR` |
| AuthMiddleware.GateWithVerifyToken | backend/src/middleware/auth.ts:39-59 | with the real `verifyToken`, every rejection is a 401 with one of five codes and never `AUTH_ERROR`; an identity handed on has a non-empty id and email |
| AuthMiddleware.SchemeIsCaseSensitive | backend/src/middleware/auth.ts:17 | a `bearer ` header in lower case is answered as if no token were given |
| AuthMiddleware.Exchange.Authenticate | backend/src/middleware/auth.ts:9-60 | on success `user` is set to the verified payload and `next` is called exactly once; otherwise the gate's error response is written and neither `user` nor `next` is touched |
| ErrorHandler.StatusOf | backend/src/middleware/errorHandler.ts:17 | the status is the error's own when it is present and non-zero, and 500 when it is absent or zero |
| ErrorHandler.AppErrorNeverMasked | backend/src/middleware/errorHandler.ts:17-20 | an error built by the `AppError` constructor is operational, so its message is never masked; its status is the one given, or 500 when none or 0 is given |
| ErrorHandler.HandleError | backend/src/middleware/errorHandler.ts:11-54 | the message is masked as `Internal server error` exactly for a 500 in production that is not an operational application error, and is otherwise the error's message or `Internal Server Error`. The request id is always present, falling back to `unknown`. The code is included exactly when it is truthy, and the stack exactly outside production when it is truthy |
| AuthValidator.Contains | backend/src/validators/authValidator.ts:11-21 | a regular-expression class test holds exactly when some character of the password is in the class |
| AuthValidator.MissingClassMessagesMembers | backend/src/validators/authValidator.ts:10-22 | the class checks report each class the password lacks, and nothing else |
| AuthValidator.MissingClassMessagesOrdered | backend/src/validators/authValidator.ts:10-22 | the class messages come in the order of the checks |
| AuthValidator.MissingInCheckOrder | backend/src/validators/authValidator.ts:10-22 | on the four classes the filter is the four checks in sequence |
| AuthValidator.StrengthErrorsCharacterised | backend/src/validators/authValidator.ts:5-26 | a password shorter than 8 gets exactly the length message and no class message. A longer one gets exactly the messages of the classes it lacks, in the order lowercase, uppercase, digit, special, so at most 4. The list is empty exactly for a strong password |
| AuthValidator.SpecialIsAnyNonAlphanumeric | backend/src/validators/authValidator.ts:20 | any character outside `[a-zA-Z0-9]`, a space or `é` included, meets the special-character rule |
| AuthValidator.ValidatePasswordStrength | backend/src/validators/authValidator.ts:5-26 | the pushes produce exactly the strength errors characterised above |
| AuthValidator.IsEmailAddress | backend/src/validators/authValidator.ts:39 | the email test holds exactly for strings of the shape L `@` D1 `.` D2, each part non-empty and free of whitespace and `@` |
| AuthValidator.EmailTestExact | backend/src/validators/authValidator.ts:39 | locating the first `@` decides the email expression exactly |
| AuthValidator.EmailShapePassesTest | backend/src/validators/authValidator.ts:39 | every string the expression matches passes the first-`@` test |
| AuthValidator.EmailTestFindsShape | backend/src/validators/authValidator.ts:39 | every string passing the first-`@` test is matched by the expression |
| AuthValidator.EmailShapeFacts | backend/src/validators/authValidator.ts:39 | an accepted email holds exactly one `@` and no whitespace, so trimming leaves it unchanged |
| AuthValidator.NewPasswordErrorsFacts | backend/src/validators/authValidator.ts:43-47 | a missing password gives exactly `Password is required` and no strength message; a present one gives only strength messages, none when it is strong |
| AuthValidator.RegisterErrorsCharacterised | backend/src/validators/authValidator.ts:33-52 | each field's message appears exactly when that field fails; the name fails exactly when absent or shorter than 2 once trimmed; the body is valid exactly when all three fields pass |
| AuthValidator.LoginErrorsCharacterised | backend/src/validators/authValidator.ts:59-72 | login checks only the email and the presence of a password, so any non-empty password passes |
| AuthValidator.ResetPasswordErrorsCharacterised | backend/src/validators/authValidator.ts:79-94 | the token message appears exactly when the token is missing; a missing password adds exactly `Password is required`; valid exactly with a token and a strong password |
| AuthValidator.ValidateRegister | backend/src/validators/authValidator.ts:28-53 | the errors accumulate in field order as characterised; `isValid` holds exactly when they are empty |
| AuthValidator.ValidateLogin | backend/src/validators/authValidator.ts:55-73 | as above for login |
| AuthValidator.ValidateResetPassword | backend/src/validators/authValidator.ts:75-95 | as above for reset |
| AuthValidator.ValidateForgotPassword | backend/src/validators/authValidator.ts:97-110 | valid exactly when the email is present and well formed |
| PasswordValidation.ValidatePassword | frontend/lib/password-validation.ts:11-35 | the client's errors equal the server's strength errors, message for message and in order. Valid exactly when there are none, which is exactly a strong password. A short password gets one error, and there are never more than 4 |
| AuthService.Issue | backend/src/services/authService.ts:46-59 | a success returns the user's public fields and the token signed over the user's id string and stored email; a signing failure becomes the token-generation error |
| AuthService.RegisterRefusesKnownEmail | backend/src/services/authService.ts:23-26 | an email already stored is refused with the generic registration message and nothing changes |
| AuthService.RegisterRefusalKeepsState | backend/src/services/authService.ts:19-38 | every refusal raised before the record is created leaves the collection and the mails unchanged |
| AuthService.RegisterDuplicateMeansTaken | backend/src/services/authService.ts:33-38 | a duplicate-key refusal means the new id or the normalised email is already taken |
| AuthService.RegisterAppends | backend/src/services/authService.ts:29-60 | a success appends exactly one record with the new id, trimmed name, normalised email, the password's hash, `isEmailVerified` false, and no Google id, reset digest or reset expiry. It sends one welcome mail, and the record is then found by its email. The returned user is that record's public view, and the token is signed over the new id's string and the normalised email |
| AuthService.RegisterStoresWhenFree | backend/src/services/authService.ts:23-60 | when no record holds the email and the store accepts the new document, the record the store makes from the given fields is appended and one welcome mail sent; the call then succeeds exactly when a token can be signed for the new id and the normalised email |
| AuthService.RegisterPreservesInvariant | backend/src/services/authService.ts:19-61 | registration keeps every record valid and ids and emails unique |
| AuthService.LoginRefusals | backend/src/services/authService.ts:67-81 | an unknown email and a wrong password both get `Invalid email or password`; a record without a password gets the distinct Google message |
| AuthService.LoginSucceedsOnlyWithPassword | backend/src/services/authService.ts:63-87 | a login succeeds exactly when the first record holding the email has a password that verifies and a token can be signed over that record's id and email; an unknown email gets `Invalid email or password` |
| AuthService.LoginReturnsTokenHolder | backend/src/services/authService.ts:84-97 | a successful login returns the public view of a record holding the email and a token signed over that record's id string and stored email |
| AuthService.RegisteredUserCanLogIn | backend/src/services/authService.ts:30-80 | after a successful registration, logging in with the stored email and the same password issues a token for the new record |
| AuthService.ForgotFacts | backend/src/services/authService.ts:100-126 | the answer is the same whether or not the email is stored, and an unknown email changes nothing. A known email changes only that record's two reset fields, to the digest and `now` plus one hour, and mails the secret. No other record changes |
| AuthService.NewSecretReplacesOld | backend/src/services/authService.ts:107-116 | a new request overwrites the earlier digest, which then no longer matches; the new one matches exactly while its expiry is strictly later than the time |
| AuthService.ResetFacts | backend/src/services/authService.ts:128-149 | a reset fails exactly when no record holds the digest with an expiry strictly after `now`, and then nothing changes. Otherwise exactly that record changes: new password hash, both reset fields cleared. The result is the payload and token for the updated record |
| AuthService.ResetIsSingleUse | backend/src/services/authService.ts:132-149 | when stored digests are unique, a reset secret that has been used is refused at any later time |
| AuthService.GoogleSignInFacts | backend/src/services/authService.ts:168-189 | an account found by Google id or email gets the Google id only when it has none, and an existing Google id is never overwritten. No password is touched, and a record that is appended is verified and has no password |
| AuthService.GoogleSignInResult | backend/src/services/authService.ts:173-204 | unless the store refuses the new record, the result is the payload and token of a record, found, linked or created, that holds the Google id or the email; a store refusal changes nothing |
| AuthService.GoogleSignInPaths | backend/src/services/authService.ts:168-204 | the first record matching the Google id or the email is linked to the Google id exactly when it has none, and nothing else changes; the payload is that record's. When nothing matches and the store accepts, the record the store makes from the name, the email and the Google id, verified and without a password, is appended and the payload is the new record's |
| AuthService.AuthService.RegisterUser | backend/src/services/authService.ts:19-61 | the new collection, the mails and the result are those of the registration step, and the collection stays valid |
| AuthService.AuthService.LoginUser | backend/src/services/authService.ts:63-98 | login reads the collection without changing it and returns the login step's result |
| AuthService.AuthService.ForgotPassword | backend/src/services/authService.ts:100-126 | the new collection and mails are those of the forgot-password step |
| AuthService.AuthService.ResetPassword | backend/src/services/authService.ts:128-166 | the new collection and the result are those of the reset step, with the SHA-256 digest of the presented secret |
| AuthService.AuthService.FindOrCreateGoogleUser | backend/src/services/authService.ts:168-205 | the new collection and the result are those of the Google sign-in step |
| AuthRoutes.ReplyStatuses | backend/src/routes/auth.ts:32-44 | register answers 201 or 400, login 200 or 401, reset 200 or 400, according only to the service's success. A refusal carries the service's message, or the endpoint's fallback when that message is empty |
| AuthRoutes.LoginRefusalsLookAlike | backend/src/routes/auth.ts:60-72 | an unknown email and a wrong password get the identical 401 response |
| AuthRoutes.MeResponse | backend/src/routes/auth.ts:129-168 | 401 exactly without a user id, 500 exactly when the id cannot be cast, and 404 exactly when no record has it. Otherwise 200 with the public view of the record holding it |
| AuthRoutes.MeFindsTokenHolder | backend/src/routes/auth.ts:142-159 | the user id printed into a token leads `/me` back to that record |
| AuthRoutes.MeAfterLogin | backend/src/routes/auth.ts:129-159 | `/me` with the identity of a successful login shows the user the login returned |
| AuthRoutes.PostRegister | backend/src/routes/auth.ts:20-45 | an invalid body gets 400 with the validator's errors and the service is not called; otherwise the state and the reply follow the registration step |
| AuthRoutes.PostLogin | backend/src/routes/auth.ts:48-73 | an invalid body gets 400 with the validator's errors; otherwise the reply follows the login step, and nothing changes either way |
| AuthRoutes.PostForgotPassword | backend/src/routes/auth.ts:76-98 | an invalid body gets 400 and changes nothing; a valid body always gets 200 with the same message, and the state follows the forgot-password step |
| AuthRoutes.PostResetPassword | backend/src/routes/auth.ts:101-126 | an invalid body gets 400 and changes nothing; otherwise the state and the reply follow the reset step |
| AuthRoutes.GetMe | backend/src/routes/auth.ts:129-168 | the response is the `/me` response characterised above |

## Left out

- Email transport (backend/src/services/emailService.ts) is not part of this model. Sends are recorded in `outbox`; their failures are only logged in the source, so they never reach a result.
- Rate limiting, request ids, logging, configuration loading and Passport wiring are library configuration or I/O. The JWT secret, the token lifetime and the production flag are parameters.
- The cryptography is not modelled. bcrypt, SHA-256 and JWT signing and verification are parameters. Only `compare(p, hash(p, salt))` and the 60-character hash length are assumed. Single use of a reset secret is stated under the hypothesis that stored digests are unique.
- Randomness and the clock are parameters: the salt, the reset secret, the new document id and `now`.
- `createdAt` and `updatedAt` are not modelled.
- Database failures other than schema validation and the unique indexes are not modelled: lost connections and failing `save` calls. So the 500 branch of `/forgot-password` and the other `catch` branches arise only from the modelled failures.
- Concurrency is not modelled. Each service operation is atomic, so the read-then-write races in registration and reset do not arise.
- Email lookups compare the given string literally. `create` applies the `lowercase` and `trim` setters, and a duplicate of the normalised email is caught by the unique index. Whether queries normalise the email is not modelled.
- `googleId` is sparse and not unique, so the store invariant says nothing about it.
- Strings are sequences of Unicode scalar values, and `toLowerCase` is modelled on ASCII letters only.
- AuthValidator.NameOk: a character outside the Basic Multilingual Plane counts once in the model but twice in JavaScript's `.length`, so a one-emoji name is rejected here and accepted by the source.
- AuthValidator.StrengthErrors: for the same reason, a password that reaches 8 in `.length` only through such characters gets `PasswordTooShort` here, where the source runs the class checks.
- Request-body fields are optional strings. JSON values of other types are not modelled.
- An object id is a number below 16^24, printed as 24 lower-case hexadecimal digits. Casting accepts exactly 24 hexadecimal digits. Casting a 12-character string as raw bytes is not modelled. The cast failure's message text stands in for the driver's.
- The messages of store errors stand for the start of the driver's texts.
- `AppError` is a value. Its fields are assigned only in its constructor, and the stack trace is an optional string given to the error handler.
- UserModel.FindOne takes the first match in insertion order, which stands in for MongoDB's unspecified natural order. This matters only for the `$or` filter of Google sign-in, where the Google id and the email can match two different records. The model then always picks the earlier one.
- Google sign-in is modelled at the service only. The Passport callback that calls it is library wiring.
- A token-signing failure in registration is raised after the record is stored, as in the source, so the collection is changed even though the call fails. RegisterRefusalKeepsState excludes that case.
