# Session credentials of the user service, in Dafny

This project models the session-credential protocol of a small Express and
Mongoose user service, and proves properties of the model. The protocol has
five handlers and one request gate: token-pair issuance, register, login,
logout, refresh, and the `verifyJWT` gate. They work over a store of user
documents, each with a username, an email, a full name, an avatar, a cover
image, a password and one stored refresh token.

Layout, one module per file:

- `text.dfy` (`Text`): JavaScript's `trim`, `toLowerCase`, `String.replace`
  with a string pattern, and truthiness of a possibly-undefined string.
- `bcrypt.dfy` (`Bcrypt`): a symbolic password hasher. A digest remembers its
  plaintext and its cost.
- `jwt.dfy` (`Jwt`): symbolic JSON Web Tokens. A token string is an injective
  encoding of the claims, the secret, the lifetime and the issue second.
  `Verify` therefore accepts a string under a secret exactly when it was signed
  under that secret.
- `user_model.dfy` (`UserModel`): the user document, the schema's setters and
  validators, the pre-save hook (both as a function and as an in-place method
  on a `UserDocument` class), `isPasswordCorrect`, the two token generators,
  and `findOne` over `$or`.
- `api_error.dfy` (`ApiErrors`): the HTTP error a handler throws.
- `user_controller.dfy` (`UserController`): the four handlers and issuance. Each
  is a function from the store and the request to an outcome, which is either
  a result or one HTTP error, together with the new store. The `UserService`
  class runs the same handlers as methods with the source's early returns. Each
  method is proved equal to its function and to keep the service invariant.
  The invariant has two parts. The store invariant says every record is well
  formed, with the password never the plaintext it was given, and usernames
  and emails are unique. In addition, every stored refresh token is signed
  under the access secret. Separate lemmas (`Run` over request sequences)
  show that, as written, a store built from the empty one never holds a
  settled digest or a refresh token.
- `auth_middleware.dfy` (`AuthMiddleware`): the gate, as a function
  `Authenticate`, and as a method `VerifyJwt` that sets `req.user` on a
  `Request` object.
- `intended.dfy` (`Intended`): the handlers corrected where the code evidently
  does not do what its authors meant (see "## Findings"). Login and refresh
  reuse the guards of the code as written unchanged. Register has its own
  corrected guard (`RegisterCheckIntended`), which also rejects an undefined
  field.

The main model follows the code as written, including its defects. Where the
code's evident intent and the code disagree, the model follows the code:

- Issuance signs both tokens with the access-token generator.
- The refresh handler answers with an undefined refresh token.
- The hook stores an unsettled Promise in place of a hash.

Modelling choices:

- **Errors that are not `ApiError`s become 500.** These are a `TypeError`, a
  Mongo validation or duplicate-key error, and a bcrypt rejection. The
  message kept is the library's message, or for validation and duplicate-key
  errors a prefix of it.
- **Query values go through the schema's setters.** `findOne` compares the
  lower-cased, trimmed query value. An undefined filter value matches no
  record, because every stored record has both fields.
- **Among several matches, `findOne` returns the smallest id.** This stands in
  for Mongo's natural order.
- **Field names are unified.** The schema's `userName`/`fullname` and the
  controller's `username`/`fullName` are taken to be the same fields.
- **Upload results, ids and clocks are parameters.** The Cloudinary upload
  results (`avatarUpload`, `coverUpload`), the new document id (`newId`) and
  the signing seconds (`t1`, `t2`, ...) are inputs.

## Model

| member | source | states |
|---|---|---|
| Text.Trim | src/controllers/user.controller.js:58 | the trimmed string is no longer than the input and has no white space at either end |
| Text.TrimSlice | src/controllers/user.controller.js:58 | the trimmed string is a contiguous slice of the input, and everything cut off on both sides is white space |
| Text.TrimBlankIff | src/controllers/user.controller.js:58 | a string trims to "" exactly when all of its characters are white space |
| Text.TrimIdempotent | src/models/user.models.js:11 | trimming twice is trimming once |
| Text.TrimOfTrimmed | src/models/user.models.js:26 | a string with no white space at either end is its own trim |
| Text.Lower | src/controllers/user.controller.js:104 | lower-casing keeps the length, turns every upper-case ASCII letter into its lower-case letter, and keeps every other character |
| Text.LowerOfNoUpper | src/models/user.models.js:10 | a string without upper-case letters is its own lower case |
| Text.LowerIdempotent | src/controllers/user.controller.js:104 | lower-casing twice is lower-casing once |
| Text.LowerIgnoresCase | src/models/user.models.js:10 | two strings lower-case to the same string exactly when they agree position by position up to ASCII case |
| Text.NormalizeIgnoresCase | src/models/user.models.js:10-11 | the setters store the same value for two inputs that differ only in ASCII case |
| Text.NormalizeNormalizes | src/models/user.models.js:10-11 | the setters `lowercase` and `trim` give a lower-case trimmed string, and leave one unchanged |
| Text.NormalizeIdempotent | src/models/user.models.js:10-11 | applying the setters twice is applying them once |
| Text.LowerThenNormalize | src/controllers/user.controller.js:104 | the controller's extra `toLowerCase` does not change what the setters store |
| Text.NormalizeBlankIff | src/models/user.models.js:10-11 | the setters give "" exactly when the value trims to "" |
| Text.IndexOf | src/middlewares/auth.middleware.js:10 | the index found is an occurrence at or after the start, with none before it; no index means no occurrence |
| Text.ReplaceFirst | src/middlewares/auth.middleware.js:10 | with no occurrence the string is unchanged; otherwise exactly the first occurrence is replaced |
| Bcrypt.Compare | src/models/user.models.js:71 | a comparison succeeds exactly when the digest is the hash of the candidate at the digest's cost |
| Bcrypt.CompareHash | src/models/user.models.js:71 | a password matches its own hash and no other password does |
| Jwt.Sign | src/models/user.models.js:75-85 | the signed string decodes to exactly the claims, secret, lifetime and second it was signed with, and is not empty |
| Jwt.DecodeEncode | src/models/user.models.js:75-85 | decoding an encoded token gives the token back |
| Jwt.EncodeDecode | src/controllers/user.controller.js:212 | a string that decodes is the encoding of what it decodes to |
| Jwt.VerifySigned | src/controllers/user.controller.js:212 | a signed string verifies under its own secret with its claims, and fails with "invalid signature" under any other |
| Jwt.VerifiedWasSigned | src/middlewares/auth.middleware.js:16 | a string that verifies under a secret was signed under that secret with the claims verified |
| Jwt.Verify | src/controllers/user.controller.js:212 | `jwt.verify`, here and at src/middlewares/auth.middleware.js:16; no contract of its own: `Jwt.VerifySigned` and `Jwt.VerifiedWasSigned` state that it accepts exactly the strings signed under the secret given, answers their claims, and otherwise fails with "jwt malformed" or "invalid signature" |
| UserModel.PreSave | src/models/user.models.js:59-68 | an unassigned password is left alone; an assigned one becomes an unsettled Promise of its cost-10 hash |
| UserModel.UserDocument.PreSaveHook | src/models/user.models.js:59-68 | the hook run in place changes the password field as `PreSave` says, and nothing else |
| UserModel.UserDocument.constructor | src/models/user.models.js:5-57 | a document holds the record and whether this write assigned the password |
| UserModel.IsPasswordCorrect | src/models/user.models.js:70-72 | the check settles exactly when a candidate is given and the field is no Promise; it is true exactly for a stored digest of the candidate |
| UserModel.HookedPasswordRejected | src/models/user.models.js:66 | a password the hook as written has just set makes every check reject with bcrypt's error |
| UserModel.GenerateAccessToken | src/models/user.models.js:74-86 | the token carries id, email, username and full name, under the access secret and lifetime, and verifies under the access secret with those claims |
| UserModel.GenerateRefreshToken | src/models/user.models.js:88-96 | the token carries the id only, under the refresh secret and lifetime, and verifies under the refresh secret |
| UserModel.TokenKindsApart | src/models/user.models.js:74-96 | when the access and refresh secrets differ, neither kind of token verifies as the other, and the two are different strings |
| UserModel.FindOne | src/controllers/user.controller.js:63-66 | nothing is found exactly when no record matches the username or the email; otherwise a matching record with the smallest id is found |
| UserModel.FindOneUnique | src/controllers/user.controller.js:138-140 | the only matching record is the one found |
| UserModel.FindOneIgnoresCase | src/controllers/user.controller.js:63-66 | a query finds the same record whatever the ASCII case its username is written in |
| UserModel.FindOneSameSetting | src/controllers/user.controller.js:138-140 | two usernames the setters store alike select the same record |
| UserController.IssueTokens | src/controllers/user.controller.js:9-26 | issuance fails, with 500 and the store unchanged, exactly when the user is missing; otherwise only that user's refresh token changes, to the one returned |
| UserController.IssuedTokensAreAccessTokens | src/controllers/user.controller.js:12-13 | as written, both tokens verify under the access secret with the access claims; the second never verifies under a distinct refresh secret; the two are one string exactly when signed in the same second |
| UserController.Insert | src/controllers/user.controller.js:98-105 | the insert fails with the duplicate-key 500 exactly when the id, the username or the email is taken; otherwise it adds exactly that record and returns its view |
| UserController.Create | src/controllers/user.controller.js:98-110 | every failure of create is a 500 that leaves the store unchanged |
| UserController.RegisterCheck | src/controllers/user.controller.js:57-95 | register's checks pass only with a username and an avatar url, and hand on exactly those |
| UserController.Register | src/controllers/user.controller.js:28-120 | registerUser as written; no contract of its own: `RegisterBlankFieldFirst`, `RegisterConflict`, `RegisterNeedsAvatar`, `RegisterUndefinedField`, `RegisterSuccess`, `RegisterFailureUnchanged`, `RegisterIgnoresCoverImage` and `RegisterPreservesValid` state its outcomes |
| UserController.RegisterBlankFieldFirst | src/controllers/user.controller.js:57-61 | a field that is all white space gives 400 "All Fields Are Required", whatever else the request holds |
| UserController.RegisterConflict | src/controllers/user.controller.js:63-70 | 409 exactly when no field is blank and a record matches the username or the email; the store is then unchanged |
| UserController.RegisterFailureUnchanged | src/controllers/user.controller.js:28-120 | a register that fails leaves the store unchanged |
| UserController.RegisterNeedsAvatar | src/controllers/user.controller.js:76-95 | with no avatar path, or an avatar upload that returned nothing, register fails with 400 "Avatar is required" |
| UserController.RegisterUndefinedField | src/controllers/user.controller.js:58 | as written, an undefined username passes the blank check and fails as a 500 `TypeError`; an undefined password fails as a 500 validation error |
| UserController.RegisterSuccess | src/controllers/user.controller.js:98-110 | a successful register passed the blank and duplicate checks and adds exactly one record under the new id, with the username lower-cased and trimmed, no cover image, the hook's password and no refresh token; it returns that record's view |
| UserController.CreateSuccess | src/controllers/user.controller.js:98-110 | a successful create stores exactly the new record under a fresh id and returns its view |
| UserController.RegisterIgnoresCoverImage | src/controllers/user.controller.js:78-81 | the request's cover image files make no difference to register |
| UserController.NewRecordWellFormed | src/models/user.models.js:5-68 | a record the validators accept has its required fields non-empty, the username and email lower-cased and trimmed, the full name trimmed, and a password that is no longer the plaintext given |
| UserController.InsertPreservesValid | src/models/user.models.js:6-21 | inserting a well-formed record that clashes with no unique index keeps usernames and emails unique |
| UserController.CreatePreservesValid | src/controllers/user.controller.js:98-105 | create keeps the store invariant |
| UserController.RegisterPreservesValid | src/controllers/user.controller.js:28-120 | register keeps the store invariant |
| UserController.RegisterDuplicateKeyOnlyForId | src/controllers/user.controller.js:63-70 | after the 409 check, a duplicate-key error can only come from an id already taken |
| UserController.LoginCheck | src/controllers/user.controller.js:131-150 | loginUser up to the password check; no contract of its own: `LoginFailures` states its rejections in order, and `LoginSuccess` and `Intended.LoginReachesIssuance` what it lets through |
| UserController.Login | src/controllers/user.controller.js:123-176 | loginUser as written; no contract of its own: `LoginFailures`, `LoginSuccess`, `LoginMeetsPromise`, `LoginNeedsDigest` and `LoginKeepsAccessSigned` state its outcomes |
| UserController.LoginFailures | src/controllers/user.controller.js:131-150 | 400 without a username or email, 404 when no record matches, 500 with bcrypt's message when the check rejects, 401 on a wrong password; no failure changes the store |
| UserController.LoginSuccess | src/controllers/user.controller.js:138-155 | a successful login found the record and its password check passed; the only change is that record's refresh token, the one returned; it returns that record's view with two access tokens |
| UserController.Logout | src/controllers/user.controller.js:178-189 | logout clears the refresh token of that user only, and changes nothing for a missing id |
| UserController.LogoutIdempotent | src/controllers/user.controller.js:179-189 | logging out twice is logging out once |
| UserController.LogoutPreservesValid | src/controllers/user.controller.js:179-189 | logout keeps the store invariant |
| UserController.IncomingRefreshToken | src/controllers/user.controller.js:204 | the cookie, when truthy, otherwise the body's token; no contract of its own: `RefreshSuccessIff` states refresh in terms of it |
| UserController.RefreshCheck | src/controllers/user.controller.js:206-223 | refreshAccessToken up to the stored-token comparison; no contract of its own: `RefreshFailuresAre401` and `RefreshSuccessIff` state what it refuses and what it lets through |
| UserController.Refresh | src/controllers/user.controller.js:203-246 | refreshAccessToken as written; no contract of its own: `RefreshFailuresAre401`, `RefreshSuccessIff` (including the access token answered), `RotatedTokenRejected`, `RefreshRejectedAfterLogout` and `RefreshNeverSucceeds` state its outcomes |
| UserController.RefreshFailuresAre401 | src/controllers/user.controller.js:206-245 | every failure of refresh is a 401 and leaves the store unchanged |
| UserController.RefreshSuccessIff | src/controllers/user.controller.js:204-241 | refresh succeeds exactly when a token is supplied, it verifies under the refresh secret, its user exists, and it is that user's stored token; the answer's access token is then that user's access token signed at the first second, its refresh token is undefined, and the store is as issuance leaves it |
| UserController.RefreshRejectedAfterLogout | src/controllers/user.controller.js:221-223 | after logout, refresh refuses every token naming that user |
| UserController.RotatedTokenRejected | src/controllers/user.controller.js:221-231 | as written, once refresh has rotated the stored token to one from another second, the token it accepted is refused with 401 "Refresh Token is Expired Or Used" |
| UserController.IssueTokensPreservesValid | src/controllers/user.controller.js:16-17 | issuance keeps the store invariant |
| UserController.IssueTokensKeepAccessSigned | src/controllers/user.controller.js:13-16 | issuance keeps every stored refresh token verifying under the access secret |
| UserController.RegisterKeepsAccessSigned | src/controllers/user.controller.js:98-105 | register keeps every stored refresh token verifying under the access secret |
| UserController.LoginKeepsAccessSigned | src/controllers/user.controller.js:153 | login keeps every stored refresh token verifying under the access secret |
| UserController.LogoutKeepsAccessSigned | src/controllers/user.controller.js:179-189 | logout keeps every stored refresh token verifying under the access secret |
| UserController.RefreshKeepsAccessSigned | src/controllers/user.controller.js:231 | refresh keeps every stored refresh token verifying under the access secret |
| UserController.RefreshNeverSucceeds | src/controllers/user.controller.js:212 | as written, with distinct access and refresh secrets and every stored token issued by this code, refresh never succeeds |
| UserController.RegisterThenLoginFails | src/models/user.models.js:66 | as written, logging in right after a successful register, with the same username and password, fails with 500 |
| UserController.LoginMeetsPromise | src/controllers/user.controller.js:146 | a login that finds a record holding a Promise for its password fails with bcrypt's rejection as 500 |
| UserController.LoginThenRefreshFails | src/controllers/user.controller.js:212 | as written, with distinct access and refresh secrets, the refresh token a login hands out is refused with 401 "invalid signature" |
| UserController.RefreshAnswersUndefined | src/controllers/user.controller.js:231 | as written, where refresh can succeed, its answer's refresh token is undefined while the store holds a new one |
| UserController.LoginNeedsDigest | src/controllers/user.controller.js:146-150 | as written, login fails, with the store unchanged, on every store where no password is a settled digest |
| UserController.RefreshNeedsSession | src/controllers/user.controller.js:221-223 | refresh fails, with the store unchanged, on every store where no record holds a refresh token |
| UserController.RegisterKeepsNoSessions | src/controllers/user.controller.js:98-105 | as written, register adds no settled digest and no refresh token |
| UserController.StepKeepsNoSessions | src/controllers/user.controller.js:28-246 | as written, every request keeps the store free of settled digests and of refresh tokens |
| UserController.RunKeepsNoSessions | src/controllers/user.controller.js:28-246 | as written, any sequence of requests keeps the store free of settled digests and of refresh tokens |
| UserController.NoLoginOnBuiltStore | src/models/user.models.js:66 | as written, on a store that any sequence of requests built from the empty one, login and refresh never succeed |
| UserController.UserService.constructor | src/models/user.models.js:98 | the service starts over an empty `User` collection, which satisfies the invariant (taking :98 as `mongoose.model`) |
| UserController.UserService.GenerateAccessAndRefreshTokens | src/controllers/user.controller.js:9-26 | the method returns what `IssueTokens` returns, leaves the store as `IssueTokens` does, and keeps the invariant |
| UserController.UserService.RegisterUser | src/controllers/user.controller.js:28-120 | the method returns what `Register` returns, leaves the store as `Register` does, and keeps the invariant |
| UserController.UserService.LoginUser | src/controllers/user.controller.js:123-176 | the method returns what `Login` returns, leaves the store as `Login` does, and keeps the invariant |
| UserController.UserService.LogoutUser | src/controllers/user.controller.js:178-201 | the method leaves the store as `Logout` does and keeps the invariant |
| UserController.UserService.RefreshAccessToken | src/controllers/user.controller.js:203-246 | the method returns what `Refresh` returns, leaves the store as `Refresh` does, and keeps the invariant; with distinct access and refresh secrets it never succeeds |
| AuthMiddleware.CookieFirst | src/middlewares/auth.middleware.js:10 | a truthy cookie is the token, whatever the header says |
| AuthMiddleware.BearerHeaderStripped | src/middlewares/auth.middleware.js:10 | without a usable cookie, a header "Bearer t" yields exactly t |
| AuthMiddleware.RawHeaderKept | src/middlewares/auth.middleware.js:10 | a header without "Bearer " is taken as the token unchanged |
| AuthMiddleware.ExtractToken | src/middlewares/auth.middleware.js:10 | the cookie, when truthy, otherwise the header with its first "Bearer " removed; no contract of its own: `CookieFirst`, `BearerHeaderStripped` and `RawHeaderKept` state its cases |
| AuthMiddleware.NoCredentials | src/middlewares/auth.middleware.js:12-14 | no cookie and no header, or a bare "Bearer " header, gives 401 "Unauthorized Request" |
| AuthMiddleware.FailuresAre401 | src/middlewares/auth.middleware.js:26-28 | every failure of the gate is a 401 with a non-empty message |
| AuthMiddleware.SuccessIff | src/middlewares/auth.middleware.js:10-24 | the gate passes exactly when there is a token, it verifies under the access secret, and its id is in the store; the user attached is then that record's view |
| AuthMiddleware.Authenticate | src/middlewares/auth.middleware.js:8-29 | verifyJWT's verdict; no contract of its own: `NoCredentials`, `FailuresAre401`, `SuccessIff`, `OtherSecretRejected`, `UnknownUserRejected` and `AccessTokenAccepted` state it |
| AuthMiddleware.OtherSecretRejected | src/middlewares/auth.middleware.js:16 | a token signed under any other secret is refused with 401 "invalid signature" |
| AuthMiddleware.UnknownUserRejected | src/middlewares/auth.middleware.js:18-22 | a token that verifies but names an id not in the store is refused with 401 "Invalid Access Token" |
| AuthMiddleware.AccessTokenAccepted | src/middlewares/auth.middleware.js:16-24 | an access token for a stored id opens the gate, in the cookie or as a bearer header; the user attached is the current record's view |
| AuthMiddleware.RefreshTokenRejected | src/middlewares/auth.middleware.js:16 | with distinct access and refresh secrets, a refresh token never opens the gate |
| AuthMiddleware.IgnoresStoredRefreshTokens | src/middlewares/auth.middleware.js:18 | changing only stored refresh tokens changes no verdict of the gate |
| AuthMiddleware.Request.constructor | src/middlewares/auth.middleware.js:8 | a new request carries its cookie and header, no user, and has not been passed on |
| AuthMiddleware.VerifyJwt | src/middlewares/auth.middleware.js:8-29 | on the gate's success the request carries the user and is passed on; on failure the error is returned and the request is left as it was |
| Intended.PreSaveAwaited | src/models/user.models.js:66 | with the hash awaited, an assigned password becomes a settled cost-10 digest of it; an unassigned one is left alone |
| Intended.AwaitedHashChecks | src/models/user.models.js:70-72 | a password the awaited hook has set checks true for itself and false for any other candidate |
| Intended.IssueTokensIntended | src/controllers/user.controller.js:9-26 | corrected issuance fails, with 500 and the store unchanged, exactly when the user is missing; otherwise only that user's refresh token changes, to the one returned |
| Intended.IntendedTokensOfTheirKinds | src/controllers/user.controller.js:12-13 | corrected issuance returns an access token and a refresh token from their own generators, each verifying under its own secret, and neither under the other's |
| Intended.RegisterCheckIntended | src/controllers/user.controller.js:57-95 | corrected checks pass only with no field missing or blank and no matching record, and hand on the username and avatar url |
| Intended.RegisterIntended | src/controllers/user.controller.js:28-120 | registerUser with the :58, :66 and :79 defects corrected; no contract of its own: `RegisterIntendedMissingField`, `RegisterIntendedInternalErrors`, `RegisterIntendedSuccess`, `CoverImageTaken` and `RegisterIntendedPreservesValid` state its outcomes |
| Intended.RegisterIntendedMissingField | src/controllers/user.controller.js:57-61 | corrected register gives 400 "All Fields Are Required" exactly when a field is undefined or blank |
| Intended.FilledFieldsPresent | src/controllers/user.controller.js:58 | fields that pass the corrected test all satisfy the schema's required validators |
| Intended.RegisterIntendedInternalErrors | src/controllers/user.controller.js:58 | a 500 from corrected register is only a multipart request missing the avatar field, a taken id, or an empty avatar url |
| Intended.RegisterIntendedSuccess | src/controllers/user.controller.js:98-105 | a successful corrected register adds exactly one record, with the cover url it was given and a settled digest of the password |
| Intended.CoverImageTaken | src/controllers/user.controller.js:79-81 | a cover image in the request, uploaded to a url, is the cover image stored |
| Intended.RegisterIntendedPreservesValid | src/controllers/user.controller.js:28-120 | corrected register keeps the store invariant |
| Intended.LoginIntended | src/controllers/user.controller.js:123-176 | loginUser over the corrected issuance; no contract of its own: `LoginIntendedSuccess`, `RegisterThenLogin`, `LoginThenRefresh` and `LogoutRevokes` state its outcomes |
| Intended.RefreshIntended | src/controllers/user.controller.js:203-246 | refreshAccessToken answering with the rotated token (:231 corrected); no contract of its own: `RefreshIntendedAnswersStored`, `RenewedAccessTokenOpensGate`, `LoginThenRefresh`, `RotatedTokenRejected` and `LogoutRevokes` state its outcomes |
| Intended.RefreshIntendedAnswersStored | src/controllers/user.controller.js:231-241 | corrected refresh answers with that user's access token signed at the first second, and with the refresh token it stored, which verifies under the refresh secret |
| Intended.RenewedAccessTokenOpensGate | src/controllers/user.controller.js:231-234 | the access token a corrected refresh sends as its cookie opens the request gate for that user |
| Intended.RegisterThenLogin | src/controllers/user.controller.js:123-155 | after a successful corrected register, logging in with the same username and password succeeds and returns the registered user |
| Intended.LoginReachesIssuance | src/controllers/user.controller.js:146-153 | a login that finds a record whose password checks reaches issuance |
| Intended.LoginIntendedSuccess | src/controllers/user.controller.js:146-174 | a successful corrected login passed the guard, returns the record's view, an access token and a refresh token for it, and stores only that refresh token |
| Intended.LoginThenRefresh | src/controllers/user.controller.js:203-241 | the refresh token a corrected login hands out renews the session: the answer carries a new access token for that user and the new refresh token, which is now the stored one |
| Intended.RotatedTokenRejected | src/controllers/user.controller.js:221-223 | once refresh has rotated to a token from another second, the old token is refused with 401 "Refresh Token is Expired Or Used" |
| Intended.LogoutRevokes | src/controllers/user.controller.js:179-189 | after logout, the refresh token a corrected login handed out is refused as used |

## Findings

| source | as written | input that shows it | evidently intended | confidence | as-written member | corrected member |
|---|---|---|---|---|---|---|
| src/controllers/user.controller.js:13 | the refresh token is made by `generateAccessToken`, under the access secret | on a store holding a settled digest, log in, then refresh with the returned refresh token, with distinct secrets: 401 "invalid signature". As written the :66 defect hides this one: no store this code builds holds a digest, so no login succeeds (UserController.NoLoginOnBuiltStore) | `generateRefreshToken` | not executed | UserController.LoginThenRefreshFails | Intended.LoginThenRefresh |
| src/controllers/user.controller.js:231 | destructures `newrefreshToken`, which issuance does not return | on a store holding a settled digest, log in, then refresh with the secrets configured alike: the answer's refresh token is undefined while a new one is stored. As written the :66 defect hides this one too (UserController.NoLoginOnBuiltStore) | destructure `refreshToken` | not executed | UserController.RefreshAnswersUndefined | Intended.RefreshIntendedAnswersStored |
| src/controllers/user.controller.js:58 | `field?.trim() === ""` is false for an undefined field | a body without `username`, the other fields filled, and an avatar: 500 from `toLowerCase` | an undefined field fails with 400 | not executed | UserController.RegisterUndefinedField | Intended.RegisterIntendedMissingField |
| src/controllers/user.controller.js:79 | tests `coverImageLocalPath` before assigning it, so it stays undefined | a request with a cover image file: "" is stored | take the path from `req.files.coverImage` | not executed | UserController.RegisterIgnoresCoverImage | Intended.CoverImageTaken |
| src/models/user.models.js:66 | `bcrypt.hash` is not awaited, so a Promise is stored | register, then log in with the same username and password: 500 | await the hash | not executed | UserController.RegisterThenLoginFails | Intended.RegisterThenLogin |

## Left out

- `src/app.js` (CORS, body limits, static files, cookie parsing, route mounting) is not part of this model.
- src/models/user.models.js:98 calls `mongoose.models("User", userSchema)`. `mongoose.models` is the registry object, not a function, so as written importing the model throws a `TypeError` and no handler runs. The model takes the line as `mongoose.model("User", userSchema)`, which registers the `User` collection the handlers use.
- The Cloudinary upload is remote I/O. Its results are inputs. An upload of an undefined path is taken to return nothing.
- bcrypt and JWT internals are not modelled: salts, ciphers, signatures, and expiry against a clock. Verification therefore never fails for an expired token.
- Mongoose mechanics are reduced to map operations. Validation is taken to run before the pre-save hook. The value the hook assigns is taken to be stored as assigned.
- Express wiring is left out: cookies and their options, response envelopes, `console.log`, `asyncHandler` and `ApiError`. Their sources are not shown. A non-`ApiError` exception is taken to become 500.
- Concurrent requests are left out: the model is sequential. This includes the race between two refreshes of one user.
- `toLowerCase` is modelled on ASCII letters only.
- Request fields are strings or undefined; other JSON values are left out.
- Timestamps and `watchHistory` are left out: no handler reads them.
- The 500 for a created user that cannot be re-read (user.controller.js:112-114) is dead code in a sequential store. The model has no such branch.
- The schema's spelling `userName`/`fullname` against the controller's `username`/`fullName` is unified, not modelled. Under strict schemas it would drop those fields.
- UserModel.UserDocument.PreSaveHook: requires that an assigned password is a plaintext, as every assignment in this code is. A Promise or digest is never assigned, so the hook is never given one.
- UserController.RefreshNeverSucceeds: stated for stores whose refresh tokens were all issued by this code, and for distinct access and refresh secrets; other stores are not covered.
- UserController.LoginThenRefreshFails and UserController.RefreshAnswersUndefined: they start from a store holding a settled digest, which only a hook with the hash awaited writes; on stores this code builds, login already fails (UserController.NoLoginOnBuiltStore).
