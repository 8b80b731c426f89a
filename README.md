# chai-backend user core in Dafny

This project models the user-account core of the backend:

- user registration (`registerUser`), with avatar and cover-image upload;
- the user schema, with its setters, required paths and unique indexes;
- the pre-save hook that hashes the password;
- the password check and the two token generators (access and refresh);
- the access-token gate (`verifyJWT`);
- the two response envelopes (`ApiError`, `ApiResponse`).

The libraries become values of function type that each operation takes as
a parameter. These are bcrypt (`hash`, `compare`), jsonwebtoken (`sign`,
`verify`) and the Cloudinary upload. What the core relies on is stated as
predicates over those values: a hash verifies against its own plaintext, a
token verifies under its own secret and no other, and signed tokens are
never empty. The model proves properties from those predicates.

Files and modules:

| file | module | models |
|---|---|---|
| wrappers.dfy | `Wrappers` | `Option` (undefined/null) and `Result` (thrown errors) |
| js_string.dfy | `JsString` | JavaScript `trim`, `toLowerCase` (ASCII), `replace` with a string pattern, truthiness |
| api_error.dfy | `ApiErrors` | `src/utils/ApiError.js` |
| api_response.dfy | `ApiResponses` | `src/utils/ApiResponse.js` |
| oracles.dfy | `Oracles` | bcrypt, jsonwebtoken, `uploadOnCloudinary` as parameters |
| user_model.dfy | `UserModel` | `src/models/user.models.js`: record, setters, validation, `UserDocument` with its pre-save hook, `isPasswordCorrect`, token generators |
| user_collection.dfy | `UserCollection` | the `User` collection: `findOne`, `findById`, `create`, the `UserStore` class |
| user_controller.dfy | `UserController` | `src/controllers/user.controller.js`: the registration handler |
| auth_middleware.dfy | `AuthMiddleware` | `src/middlewares/auth.middleware.js`: token extraction, the verdict, the `Request` class and `VerifyJwt` |

Four operations change state. Each is a `method`, and each states its new
state in terms of a pure function or of the old state:

- `UserController.RegisterUser` mutates a `UserStore`. It is proved
  against `RegisterOutcome`.
- `UserCollection.UserStore.Create` mutates the collection. It is proved
  against `CreateOutcome`.
- `UserModel.UserDocument.PreSave` replaces a document's password with
  its hash when the password was modified.
- `AuthMiddleware.VerifyJwt` assigns `req.user`. It is proved against
  `Authenticate`.

The lemmas about the handler, the collection and the gate are stated over
these functions.

Query semantics assumed for the collection:

- A filter value passes through the path's setters before comparison.
  For `username` and `email` these are lowercase and trim.
- A filter condition whose value is undefined is dropped. What is left,
  `{}`, matches every document.
- `findById(undefined)` matches nothing.

These assumptions make registration behave as follows. An absent
`username` or `email` never trips the emptiness check. On a non-empty
collection such a request gets 409. On an empty collection it fails later:
a `TypeError` at `username.toLowerCase()`, or a validation error at
`User.create`.

Three behaviours of the code worth stating:

- The header rule removes the first `"Bearer "` wherever it occurs. It does
  not parse a `Bearer <token>` form.
- The password is hashed only when it was modified. There is no explicit
  always-hash operation.
- Nothing guarantees that the stored hash differs from the plaintext.

## Model

| member | source | states |
|---|---|---|
| `JsString.LeadingWhiteSpaceSpan` | src/controllers/user.controller.js:35 | the leading run that `trim` drops is all white space and stops at the first other character |
| `JsString.TrailingWhiteSpaceSpan` | src/controllers/user.controller.js:35 | the trailing run that `trim` drops is all white space and stops at the last other character |
| `JsString.Trim` | src/controllers/user.controller.js:35 | `trim` never lengthens a string |
| `JsString.TrimEnds` | src/controllers/user.controller.js:35 | what `trim` leaves is empty or starts and ends with a character that is not white space |
| `JsString.TrimEmptyIff` | src/controllers/user.controller.js:35 | `trim` gives "" exactly when every character is white space |
| `JsString.TrimIsSlice` | src/models/user.models.js:12 | `trim` keeps a contiguous slice and drops only white space on either side |
| `JsString.TrimIdempotent` | src/models/user.models.js:12 | trimming twice is trimming once |
| `JsString.ToLower` | src/controllers/user.controller.js:84 | `toLowerCase` keeps the length and lower-cases each character |
| `JsString.ToLowerIdempotent` | src/controllers/user.controller.js:84 | lower-casing twice is lower-casing once |
| `JsString.TrimLowerCommute` | src/models/user.models.js:11-12 | the `lowercase` and `trim` setters commute, so their order does not matter |
| `JsString.IndexOfFrom` | src/middlewares/auth.middleware.js:12 | the first index at or after `from` where the pattern occurs, or none |
| `JsString.IndexOf` | src/middlewares/auth.middleware.js:12 | `indexOf`: the first occurrence of the pattern, or proof that there is none |
| `JsString.RemoveFirst` | src/middlewares/auth.middleware.js:12 | `header.replace("Bearer ", "")`: the result is shorter by the pattern's length exactly when the pattern occurs; `RemoveFirstCutsFirstOccurrence` and `RemoveFirstAbsent` pin down which characters remain |
| `JsString.RemoveFirstOfPrefix` | src/middlewares/auth.middleware.js:12 | `("Bearer " + t).replace("Bearer ", "") == t` |
| `JsString.RemoveFirstAbsent` | src/middlewares/auth.middleware.js:12 | a string without the pattern is unchanged |
| `JsString.RemoveFirstCutsFirstOccurrence` | src/middlewares/auth.middleware.js:12 | `replace` cuts out exactly the first occurrence, wherever it is |
| `ApiErrors.NewApiError` | src/utils/ApiError.js:4-17 | `new ApiError(statusCode, message, errors)`; `ErrorEnvelopeShape` and `ErrorDefaults` pin down every field |
| `ApiErrors.ErrorEnvelopeShape` | src/utils/ApiError.js:13-16 | `statusCode` is the argument, `data` is null, `success` is false for every status code |
| `ApiErrors.ErrorDefaults` | src/utils/ApiError.js:4-17 | `message` is the argument or "Something went wrong"; `errors` is the argument or `[]` |
| `ApiResponses.NewApiResponse` | src/utils/ApiResponse.js:4-9 | `new ApiResponse(statusCode, data, message)`; `ResponseFields` and `SuccessIffBelow400` pin down every field |
| `ApiResponses.ResponseFields` | src/utils/ApiResponse.js:4-8 | `statusCode` and `data` are stored as given; `message` is the argument or "Success" |
| `ApiResponses.SuccessIffBelow400` | src/utils/ApiResponse.js:9 | `success` holds exactly when `statusCode < 400` |
| `ApiResponses.SuccessBoundary` | src/utils/ApiResponse.js:9 | 399 is a success and 400 is not |
| `ApiResponses.SuccessIgnoresPayload` | src/utils/ApiResponse.js:9 | `success` depends on the status code only, not on `data` or `message` |
| `Oracles.UploadOnCloudinary` | src/utils/cloudinary.js:12-33 | `uploadOnCloudinary(localFilePath)`: the URL of the uploaded file, or null; `UploadOfFalsyPathIsNull` and `UploadOfPathDelegates` cover both kinds of path |
| `Oracles.UploadOfFalsyPathIsNull` | src/utils/cloudinary.js:15 | an undefined or empty path uploads nothing and gives null |
| `Oracles.UploadOfPathDelegates` | src/utils/cloudinary.js:17-31 | a real path gives whatever the SDK gives |
| `UserModel.Project` | src/controllers/user.controller.js:88-90 | `.select("-password -refreshToken")`: the public view of a record; `ProjectHidesSecrets` shows it keeps all other fields and no secret |
| `UserModel.ProjectHidesSecrets` | src/controllers/user.controller.js:88-90 | the projected view keeps every field except `password` and `refreshToken`, which it cannot see |
| `UserModel.NormalizeKey` | src/models/user.models.js:11-12 | the `lowercase` and `trim` setters of `username` and `email`; `NormalizeKeyIdempotent`, `NormalizeKeyAbsorbsLower` and `TrimLowerCommute` give its properties |
| `UserModel.CastInput` | src/models/user.models.js:7-27 | `new User(input)`: the input with each defined `username`, `email` and `fullName` run through its setters; `NewRecordFields` states the values that reach the stored record |
| `UserModel.NormalizeKeyIdempotent` | src/models/user.models.js:7-21 | the username and email setters change nothing on an already stored value |
| `UserModel.NormalizeKeyAbsorbsLower` | src/controllers/user.controller.js:84 | the controller's extra `toLowerCase` does not change the stored username |
| `UserModel.MissingPaths` | src/models/user.models.js:7-44 | the required paths that fail validation; `MissingPathsIff` shows which inputs pass and that only required paths are reported |
| `UserModel.MissingPathsIff` | src/models/user.models.js:7-47 | validation passes exactly when `username`, `email`, `fullName`, `avatar` and `password` are present and non-empty; only these paths are reported |
| `UserModel.NewRecordWellFormed` | src/models/user.models.js:7-31 | a validated new document is normalised: lower-cased and trimmed `username` and `email`, trimmed `fullName`, all non-empty |
| `UserModel.NewRecordFields` | src/models/user.models.js:5-62 | a created document keeps the input's values after the setters, stores `bcrypt.hash(password, 10)`, and has no refresh token and an empty watch history |
| `UserModel.UserDocument.constructor` | src/models/user.models.js:7-27 | `new User(input)` runs the setters on each defined value and marks the password modified when it is given |
| `UserModel.UserDocument.Loaded` | src/models/user.models.js:57 | a document read back from the collection has no modified path |
| `UserModel.UserDocument.PreSave` | src/models/user.models.js:55-62 | the hook replaces the password with its bcrypt hash at cost 10 when it was modified, and otherwise leaves it alone |
| `UserModel.ResaveLoaded` | src/models/user.models.js:57 | saving a stored document again, password untouched, stores it exactly as it was |
| `UserModel.IsPasswordCorrect` | src/models/user.models.js:65-68 | `bcrypt.compare(password, this.password)`; `HashedPasswordIsCorrect` and `RegisteredPasswordIsCorrect` show it accepts the registered plaintext |
| `UserModel.HashedPasswordIsCorrect` | src/models/user.models.js:65-68 | `isPasswordCorrect` accepts the plaintext the stored hash was made from |
| `UserModel.GenerateAccessToken` | src/models/user.models.js:71-85 | `jwt.sign` of the claims `{_id, email, username, fullName}` with the access secret and expiry; `TokensCarrySameClaims` shows it decodes to those claims |
| `UserModel.GenerateRefreshToken` | src/models/user.models.js:88-102 | the same claims signed with the refresh secret and expiry; `TokensNotInterchangeable` shows it is not an access token |
| `UserModel.TokensCarrySameClaims` | src/models/user.models.js:71-102 | access and refresh tokens decode, under their own secrets, to the same claims `{_id, email, username, fullName}` of the record |
| `UserModel.GeneratorsDifferOnlyInConfig` | src/models/user.models.js:80-83 | with the same secret and expiry, the two generators mint the same token |
| `UserModel.TokensDependOnClaimFieldsOnly` | src/models/user.models.js:73-79 | tokens depend only on `_id`, `email`, `username` and `fullName` of the current record |
| `UserModel.TokensNotInterchangeable` | src/models/user.models.js:97-100 | with distinct secrets, a refresh token never verifies as an access token and vice versa |
| `UserCollection.FirstMatch` | src/controllers/user.controller.js:41-43 | the query engine returns the first document in natural order that satisfies the filter |
| `UserCollection.FindOne` | src/controllers/user.controller.js:41-43 | `User.findOne({$or: [{username}, {email}]})`: what it returns is a stored document; `FindOneNoneIff` and `FindOneSound` pin down when it finds one and which |
| `UserCollection.FindOneNoneIff` | src/controllers/user.controller.js:41-45 | `findOne({$or: [{username}, {email}]})` finds nothing exactly when both values are given and no document has either normalised value, or the collection is empty |
| `UserCollection.FindOneSound` | src/controllers/user.controller.js:41-45 | what `findOne` returns is a stored document that satisfies the filter |
| `UserCollection.FindById` | src/controllers/user.controller.js:88 | `User.findById(id)`: what it returns is a stored document with exactly that id; `FindByIdExact` shows a valid collection answers with the one document that has it |
| `UserCollection.FindByIdExact` | src/controllers/user.controller.js:88 | in a valid collection `findById` returns the one document with that id, and nothing for an unknown id |
| `UserCollection.FindByIdSeesPublicFieldsOnly` | src/middlewares/auth.middleware.js:23-25 | `findById` gives corresponding results on collections that agree on everything except passwords and refresh tokens |
| `UserCollection.CreateOutcome` | src/controllers/user.controller.js:78-85 | `User.create(input)` as a function of the collection: setters, validation, pre-save hash, unique-index check, append; `CreatePreservesValid` states its effect and the invariant it keeps |
| `UserCollection.CreatePreservesValid` | src/models/user.models.js:7-21 | `create` keeps documents well formed and ids, usernames and emails unique; on failure nothing changes, on success exactly the new document is appended under a fresh id |
| `UserCollection.UserStore.constructor` | src/models/user.models.js:104 | a new collection is empty and valid |
| `UserCollection.UserStore.Create` | src/controllers/user.controller.js:78-85 | `User.create` on the object: construct, validate, hash, insert unless the unique index refuses; the collection stays valid |
| `UserController.RegisterReachesCreate` | src/controllers/user.controller.js:34-85 | a request that passes every guard reaches `User.create` with `avatar.url`, `coverImage?.url \|\| ""` and `username.toLowerCase()` |
| `UserController.BlankCheckIff` | src/controllers/user.controller.js:34-35 | the emptiness check trips exactly for a present field made only of white space; an absent field never trips it |
| `UserController.BlankFieldRejected` | src/controllers/user.controller.js:34-38 | a blank field gives 400 "All fields are required." with the collection unchanged, whatever else the request gets wrong |
| `UserController.DuplicateRejected` | src/controllers/user.controller.js:40-47 | after the emptiness check, a stored user with the same normalised username or email gives 409, with nothing inserted |
| `UserController.AbsentKeyMatchesAnyUser` | src/controllers/user.controller.js:41-47 | an absent username or email matches every user, so a non-empty collection gives 409 |
| `UserController.AvatarRequiredRejected` | src/controllers/user.controller.js:61-75 | after the first two checks, no avatar path or a null avatar upload gives 400 "Avatar file is required.", with nothing inserted |
| `UserController.AbsentUsernameThrowsTypeError` | src/controllers/user.controller.js:78-85 | on an empty collection, a body without `username` passes every guard and throws a `TypeError` at `toLowerCase`, before any write |
| `UserController.NoCollisionAfterDuplicateCheck` | src/controllers/user.controller.js:41-85 | a request that found no existing user cannot collide with one at insert time |
| `UserController.UniqueIndexNeverRefuses` | src/controllers/user.controller.js:40-85 | registration never fails with a duplicate-key error |
| `UserController.CreateAndReply` | src/controllers/user.controller.js:78-100 | `User.create`, the re-read by id and the 201 reply; `CreateAndReplySucceeds` shows its 500 branch is unreachable |
| `UserController.CreateAndReplySucceeds` | src/controllers/user.controller.js:87-100 | after a successful create, the re-read finds the new document, so the 500 branch is unreachable; the reply is HTTP 201 with envelope status 200, success true, and the projected user |
| `UserController.RegisterWritesOnlyOnSuccess` | src/controllers/user.controller.js:34-95 | every failure leaves the collection unchanged, every success adds exactly one document under a fresh id, and the collection stays valid |
| `UserController.RegisterSuccessContents` | src/controllers/user.controller.js:77-100 | a successful registration appends one record with the normalised username, email and full name, the avatar URL, the cover URL or "", the bcrypt hash of the password and no refresh token, and replies 201 with envelope 200 holding its public view |
| `UserController.CompleteRequestSucceeds` | src/controllers/user.controller.js:26-100 | a complete, non-blank request for a new username and email, with an avatar that uploads to a non-empty URL, always succeeds |
| `UserController.CompleteInputValidates` | src/models/user.models.js:7-44 | such a request passes mongoose validation |
| `UserController.RegisteredPasswordIsCorrect` | src/models/user.models.js:55-68 | `isPasswordCorrect` on the new document accepts the password the user registered with |
| `UserController.RegisterOutcome` | src/controllers/user.controller.js:26-100 | the whole handler as a function of the collection: every success is HTTP 201 with envelope status 200 and success true; the lemmas above give each branch |
| `UserController.RegisterUser` | src/controllers/user.controller.js:7-101 | the handler on a mutable collection produces exactly the outcome and collection described by `RegisterOutcome`, and keeps the collection valid |
| `AuthMiddleware.ExtractToken` | src/middlewares/auth.middleware.js:10-12 | a truthy cookie is the token; otherwise there is a token exactly when there is an `Authorization` header |
| `AuthMiddleware.Rewrap` | src/middlewares/auth.middleware.js:34-37 | the catch block's error is always a 401 with a non-empty message, null data, no details and success false, and keeps a non-empty caught message |
| `AuthMiddleware.Authenticate` | src/middlewares/auth.middleware.js:8-37 | the gate's verdict: success only for a truthy token that verifies under the access secret and whose `_id` names a stored user; the lemmas below give each failure and the successful user |
| `AuthMiddleware.CookieTakesPrecedence` | src/middlewares/auth.middleware.js:10-11 | a truthy `accessToken` cookie is the token, whatever the header says |
| `AuthMiddleware.BearerHeaderYieldsToken` | src/middlewares/auth.middleware.js:10-12 | without such a cookie, `Authorization: Bearer <t>` yields `<t>` |
| `AuthMiddleware.HeaderWithoutBearerUnchanged` | src/middlewares/auth.middleware.js:12 | a header that contains no `"Bearer "` is passed through unchanged |
| `AuthMiddleware.HeaderLosesFirstBearerAnywhere` | src/middlewares/auth.middleware.js:12 | the first `"Bearer "` is removed wherever it stands in the header |
| `AuthMiddleware.NoTokenIsUnauthorized` | src/middlewares/auth.middleware.js:15-17 | no cookie and no header gives 401 "Unauthorized request", unchanged by the catch's rethrow |
| `AuthMiddleware.EmptyBearerIsUnauthorized` | src/middlewares/auth.middleware.js:12-17 | a header that is just `"Bearer "` leaves an empty token and also gives 401 "Unauthorized request" |
| `AuthMiddleware.VerifyFailureIsUnauthorized` | src/middlewares/auth.middleware.js:20-36 | any verification failure becomes a 401 with the library's message, or "Invalid access token" when that message is empty |
| `AuthMiddleware.UnknownUserIsUnauthorized` | src/middlewares/auth.middleware.js:23-30 | a verified token whose `_id` names no stored user gives 401 "Invalid Access Token" |
| `AuthMiddleware.EveryFailureIs401` | src/middlewares/auth.middleware.js:34-37 | every failure is a 401 error envelope with a message, null data, no details and success false |
| `AuthMiddleware.SuccessIsStoredUser` | src/middlewares/auth.middleware.js:20-33 | on success the attached user is the projected view of the stored user named by the verified token's `_id` |
| `AuthMiddleware.GateIgnoresSecrets` | src/middlewares/auth.middleware.js:20-30 | the verdict never depends on stored passwords or refresh tokens, so revoking a refresh token does not revoke an access token |
| `AuthMiddleware.IssuedAccessTokenAdmits` | src/middlewares/auth.middleware.js:10-33 | an access token minted for a stored user, sent as the cookie or as a `Bearer` header, admits exactly that user |
| `AuthMiddleware.RefreshTokenRefused` | src/middlewares/auth.middleware.js:10-20 | when the two secrets differ, a refresh token is refused at the gate, whether sent as the `accessToken` cookie or as `Authorization: Bearer <t>` |
| `AuthMiddleware.Request.constructor` | src/middlewares/auth.middleware.js:10-12 | a request before the gate carries its cookie and header and no `user` |
| `AuthMiddleware.VerifyJwt` | src/middlewares/auth.middleware.js:7-40 | on success `req.user` is the verdict's view and `next()` is called; on failure `req.user` is not assigned and the 401 is forwarded to `next(err)` |

## Left out

- Login, logout and token refresh: the route file that would wire them, `src/routes/user.routes.js`, is not part of this model, and no handler for them exists in the modelled files.
- `JsString.ToLower`: lower-cases only the ASCII letters A-Z. JavaScript's full Unicode case mapping, including mappings that change the length, is not modelled.
- `UserModel.UserDocument.PreSave`: stores the bcrypt hash that was evidently intended. The source assigns the promise returned by the unawaited `bcrypt.hash(this.password, 10)`. How mongoose casts a promise is not modelled.
- `Oracles.RoundTrips`: token expiry and the clock are not modelled. "Verifies" means "verifies while unexpired".
- Salts and the cost of bcrypt are inside the `Bcrypt` parameter. The model does not state that a hash differs from its plaintext.
- Body fields that are neither strings nor absent are not modelled. For a number or an object, `field?.trim` would throw. A JSON `null` passes `field?.trim()` like an absent field, but it is not dropped from the `$or` filter: `{username: null}` matches documents without a username. The model treats every field as a string or absent.
- The `TypeError` at `src/controllers/user.controller.js:50`, when `req.files` exists without `avatar`: the avatar path is an `Option`.
- `findById` cast errors for an `_id` that is not an ObjectId are not modelled; the decoded `_id` is an ObjectId or absent.
- Missing environment variables (secrets, expiries) are not modelled. `jwt.sign` and `jwt.verify` with an undefined secret would throw.
- What HTTP response Express makes of an error passed to `next(err)`: `src/app.js` installs no error handler, and the model returns the error value.
- Cloudinary side effects: the deletion of the local file, and the cover upload that also happens when the avatar upload fails. The cover upload is still made before the avatar check, in source order.
- Timestamps (`createdAt`, `updatedAt`), console logging, and the `stack` argument and stack capture of `ApiError`.
- ObjectId generation: ids come from a counter inside the collection.
- Concurrent registrations and requests: every operation runs alone against the collection.
- JavaScript strings are UTF-16 code units, while Dafny's `char` is a Unicode scalar value. This matters for neither `trim` nor the `"Bearer "` pattern.
- Express wiring, CORS, body limits, the MongoDB connection, multer storage and `AsyncHandler`. Thrown errors are the `Err` branch of a `Result`.
