/**
 * The session handlers: token-pair issuance, register, login, logout and
 * refresh. Each handler is a function from the store and the request to an
 * outcome (a result or one HTTP error, and the new store); the `UserService`
 * class runs the same handlers as methods over its own store, with the early
 * returns of the source, and is proved to agree with the functions.
 *
 * Errors that are not `ApiError`s (a TypeError, a Mongo duplicate-key or
 * validation error, a bcrypt rejection) reach the outer error handler; they are
 * modelled as status 500.
 */
module UserController {
  import opened Wrappers
  import opened Text
  import opened UserModel
  import opened ApiErrors
  import Jwt

  datatype Outcome<T> = Outcome(result: Result<T, HttpError>, users: Store)

  function Fail<T>(users: Store, status: nat, message: string): Outcome<T> {
    Outcome(Failure(HttpError(status, message)), users)
  }


  const TokenFailure := "Something Went Wrong While Generating Refresh And Access Tokens"
  const AllFieldsRequired := "All Fields Are Required"
  const UserExists := "User with email or username already exists"
  const AvatarRequired := "Avatar is required"
  const NoLowerCase := "Cannot read properties of undefined (reading 'toLowerCase')"
  const NoAvatarField := "Cannot read properties of undefined (reading '0')"
  const ValidationFailed := "User validation failed"
  const DuplicateKey := "E11000 duplicate key error"
  const NameOrEmailRequired := "Username or Email is required"
  const NoSuchUser := "User Does not exists"
  const PasswordMismatch := "User Password Does not match"
  const Unauthorized := "Unauthorized Error"
  const InvalidRefreshToken := "Invalid Refresh Token"
  const RefreshReused := "Refresh Token is Expired Or Used"

  // ---- generateAccessAndRefreshTokens ----

  datatype TokenPair = TokenPair(accessToken: string, refreshToken: string)

  /**
   * Token-pair issuance as written: both tokens come from `generateAccessToken`
   * (at the two seconds `t1` and `t2`), the second is stored as the user's
   * refresh token and saved without touching the password. A missing user
   * makes the generator throw, which becomes the 500 error.
   */
  function IssueTokens(cfg: Config, users: Store, id: Id, t1: nat, t2: nat): (o: Outcome<TokenPair>)
    ensures o.result.Failure? <==> id !in users
    ensures o.result.Failure? ==> o.result.error == HttpError(InternalError, TokenFailure) && o.users == users
    ensures o.result.Success? ==>
              && o.users.Keys == users.Keys
              && o.users[id] == users[id].(refreshToken := Some(o.result.value.refreshToken))
              && (forall j :: j in users && j != id ==> o.users[j] == users[j])
  {
    if id !in users then Fail(users, InternalError, TokenFailure)
    else
      var rec := users[id];
      var accessToken := GenerateAccessToken(cfg, id, rec, t1);
      var refreshToken := GenerateAccessToken(cfg, id, rec, t2);
      var saved := rec.(refreshToken := Some(refreshToken), password := PreSave(rec.password, None));
      Outcome(Success(TokenPair(accessToken, refreshToken)), users[id := saved])
  }

  /**
   * Both issued tokens are access tokens: they verify under the access secret
   * with the access claims, the "refresh" token does not verify under the
   * refresh secret, and two tokens signed in the same second are one string.
   */
  lemma IssuedTokensAreAccessTokens(cfg: Config, users: Store, id: Id, t1: nat, t2: nat)
    requires id in users
    ensures var pair := IssueTokens(cfg, users, id, t1, t2).result.value;
      && Jwt.Verify(pair.accessToken, cfg.accessSecret) == Success(AccessClaimsOf(id, users[id]))
      && Jwt.Verify(pair.refreshToken, cfg.accessSecret) == Success(AccessClaimsOf(id, users[id]))
      && (SeparateKinds(cfg) ==> Jwt.Verify(pair.refreshToken, cfg.refreshSecret).Failure?)
      && (t1 == t2 <==> pair.accessToken == pair.refreshToken)
  {
    var pair := IssueTokens(cfg, users, id, t1, t2).result.value;
    if pair.accessToken == pair.refreshToken {
      assert Jwt.Decode(pair.accessToken).value.issuedAt == t1;
      assert Jwt.Decode(pair.refreshToken).value.issuedAt == t2;
    }
  }

  // ---- registerUser ----

  datatype RegisterBody = RegisterBody(
    fullName: Option<string>,
    email: Option<string>,
    username: Option<string>,
    password: Option<string>)

  /** A file multer stored, with its local path. */
  datatype Part = Part(path: string)

  /** `req.files`: absent, or the upload fields multer filled in. */
  datatype Files = NoFiles | Files(avatar: Option<seq<Part>>, coverImage: Option<seq<Part>>)

  function RequiredFields(body: RegisterBody): seq<Option<string>> {
    [body.fullName, body.email, body.username, body.password]
  }

  /** `fields.some((field) => field?.trim() === "")`: an undefined field is not blank. */
  predicate HasBlankField(fields: seq<Option<string>>) {
    exists i :: 0 <= i < |fields| && fields[i].Some? && Trim(fields[i].value) == ""
  }

  /**
   * `req.files?.avatar[0]?.path`: undefined without files; a TypeError when
   * files came but no avatar field; undefined for an empty avatar list.
   */
  function AvatarLocalPath(files: Files): Result<Option<string>, HttpError> {
    match files
    case NoFiles => Success(None)
    case Files(None, _) => Failure(HttpError(InternalError, NoAvatarField))
    case Files(Some(parts), _) => Success(if parts == [] then None else Some(parts[0].path))
  }

  /** The record `User.create` stores, after the schema setters and the pre-save hook. */
  function NewRecord(fullName: string, email: string, username: string, avatar: string, coverImage: string, password: string): UserRecord {
    UserRecord(Normalize(username), Normalize(email), Trim(fullName), avatar, coverImage,
               PreSave(Plain(password), Some(password)), None)
  }

  /**
   * Whether the schema's required validators accept what `User.create` was
   * given; a required string must be defined and not empty, which for a
   * string is its truthiness.
   */
  predicate RequiredPresent(fullName: Option<string>, email: Option<string>, username: string,
                            avatar: string, password: Option<string>)
  {
    && fullName.Some? && Trim(fullName.value) != ""
    && email.Some? && Normalize(email.value) != ""
    && Normalize(username) != ""
    && avatar != ""
    && Truthy(password)
  }

  /** Whether inserting `rec` under `id` violates the unique indexes. */
  predicate DuplicateKeyFor(users: Store, id: Id, rec: UserRecord) {
    || id in users
    || (exists j :: j in users && users[j].username == rec.username)
    || (exists j :: j in users && users[j].email == rec.email)
  }

  /** The insert under the unique indexes: a clash on the id, the username or the email is Mongo's duplicate-key error. */
  function Insert(users: Store, id: Id, rec: UserRecord): (o: Outcome<PublicUser>)
    ensures o.result.Failure? <==> DuplicateKeyFor(users, id, rec)
    ensures o.result.Failure? ==> o == Fail(users, InternalError, DuplicateKey)
    ensures o.result.Success? ==> o.users == users[id := rec] && id !in users && o.result.value == View(id, rec)
  {
    if DuplicateKeyFor(users, id, rec) then Fail(users, InternalError, DuplicateKey)
    else Outcome(Success(View(id, rec)), users[id := rec])
  }

  /**
   * `User.create({...})` followed by `User.findById(user._id).select(...)`:
   * validation, then the pre-save hook, then the insert under the unique indexes.
   */
  function Create(users: Store, id: Id, fullName: Option<string>, email: Option<string>, username: string,
                  avatar: string, coverImage: string, password: Option<string>): (o: Outcome<PublicUser>)
    ensures o.result.Failure? ==> o.result.error.status == InternalError && o.users == users
  {
    if !RequiredPresent(fullName, email, username, avatar, password) then Fail(users, InternalError, ValidationFailed)
    else Insert(users, id, NewRecord(fullName.value, email.value, username, avatar, coverImage, password.value))
  }

  /**
   * registerUser's checks before the create, in the source's order: the
   * username and the avatar url to store, or the error thrown. `avatarUpload`
   * is what the upload of the avatar returned (its url, or nothing).
   */
  function RegisterCheck(users: Store, body: RegisterBody, files: Files, avatarUpload: Option<string>)
    : (r: Result<(string, string), HttpError>)
    ensures r.Success? ==> body.username.Some? && avatarUpload.Some? && r.value == (body.username.value, avatarUpload.value)
  {
    if HasBlankField(RequiredFields(body)) then Failure(HttpError(400, AllFieldsRequired))
    else if FindOne(users, body.username, body.email).Some? then Failure(HttpError(409, UserExists))
    else
      var avatarPath := AvatarLocalPath(files);
      if avatarPath.Failure? then Failure(avatarPath.error)
      else if !Truthy(avatarPath.value) then Failure(HttpError(400, AvatarRequired))
      else if avatarUpload.None? then Failure(HttpError(400, AvatarRequired))
      else if body.username.None? then Failure(HttpError(InternalError, NoLowerCase))
      else Success((body.username.value, avatarUpload.value))
  }

  /**
   * registerUser as written. The cover image path is never taken from the
   * request, so the cover image stored is always "".
   */
  function Register(users: Store, body: RegisterBody, files: Files, avatarUpload: Option<string>, newId: Id)
    : Outcome<PublicUser>
  {
    match RegisterCheck(users, body, files, avatarUpload)
    case Failure(e) => Outcome(Failure(e), users)
    case Success((username, avatar)) =>
      Create(users, newId, body.fullName, body.email, Lower(username), avatar, "", body.password)
  }

  /** A field that trims to "" fails with 400 before anything else is looked at. */
  lemma RegisterBlankFieldFirst(users: Store, body: RegisterBody, files: Files, avatarUpload: Option<string>, newId: Id)
    requires exists i :: 0 <= i < 4 && RequiredFields(body)[i].Some? && AllSpace(RequiredFields(body)[i].value)
    ensures Register(users, body, files, avatarUpload, newId) == Fail(users, 400, AllFieldsRequired)
  {
    var i :| 0 <= i < 4 && RequiredFields(body)[i].Some? && AllSpace(RequiredFields(body)[i].value);
    TrimBlankIff(RequiredFields(body)[i].value);
  }

  /**
   * 409 exactly when no field is blank and an existing record has the username
   * or the email; then the store is unchanged. It comes before any look at the
   * avatar.
   */
  lemma RegisterConflict(users: Store, body: RegisterBody, files: Files, avatarUpload: Option<string>, newId: Id)
    ensures var o := Register(users, body, files, avatarUpload, newId);
      (o.result.Failure? && o.result.error.status == 409)
        <==> (!HasBlankField(RequiredFields(body))
              && exists id :: id in users && Matches(users[id], body.username, body.email))
    ensures var o := Register(users, body, files, avatarUpload, newId);
      o.result.Failure? && o.result.error.status == 409 ==> o.users == users
  {
  }

  /** Only a success changes the store. */
  lemma RegisterFailureUnchanged(users: Store, body: RegisterBody, files: Files, avatarUpload: Option<string>, newId: Id)
    ensures var o := Register(users, body, files, avatarUpload, newId);
      o.result.Failure? ==> o.users == users
  {
  }

  /** The avatar is required twice over: a local path, and an upload result. */
  lemma RegisterNeedsAvatar(users: Store, body: RegisterBody, files: Files, avatarUpload: Option<string>, newId: Id)
    requires !HasBlankField(RequiredFields(body)) && FindOne(users, body.username, body.email).None?
    requires files == NoFiles || (files.Files? && files.avatar == Some([])) || avatarUpload.None?
    requires files.Files? ==> files.avatar.Some?
    ensures Register(users, body, files, avatarUpload, newId) == Fail(users, 400, AvatarRequired)
  {
  }

  /**
   * An undefined field is not blank to the 400 check, so it gets past it: an
   * undefined username then fails at `username.toLowerCase()` and an
   * undefined password at the schema's required validator, both as 500.
   */
  lemma RegisterUndefinedField(users: Store, body: RegisterBody, files: Files, avatar: Part, avatarUrl: string, newId: Id)
    requires !HasBlankField(RequiredFields(body)) && FindOne(users, body.username, body.email).None?
    requires files.Files? && files.avatar == Some([avatar]) && avatar.path != ""
    ensures body.username.None? ==>
      Register(users, body, files, Some(avatarUrl), newId) == Fail(users, InternalError, NoLowerCase)
    ensures body.username.Some? && body.password.None? ==>
      Register(users, body, files, Some(avatarUrl), newId) == Fail(users, InternalError, ValidationFailed)
  {
  }

  /**
   * A successful register adds exactly one record, under the new id: username
   * lower-cased and trimmed, no cover image, the password replaced by the
   * hook's value for it, no refresh token; the view returned is that record
   * without password and refresh token.
   */
  lemma RegisterSuccess(users: Store, body: RegisterBody, files: Files, avatarUpload: Option<string>, newId: Id)
    requires Register(users, body, files, avatarUpload, newId).result.Success?
    ensures !HasBlankField(RequiredFields(body)) && FindOne(users, body.username, body.email).None?
    ensures var o := Register(users, body, files, avatarUpload, newId);
      && newId !in users
      && o.users == users[newId := o.users[newId]]
      && body.username.Some? && body.email.Some? && body.fullName.Some? && body.password.Some?
      && avatarUpload.Some?
      && o.users[newId] == UserRecord(Normalize(body.username.value), Normalize(body.email.value),
                                      Trim(body.fullName.value), avatarUpload.value, "",
                                      PreSave(Plain(body.password.value), Some(body.password.value)), None)
      && o.result.value == View(newId, o.users[newId])
  {
    var u := body.username.value;
    CreateSuccess(users, newId, body.fullName, body.email, Lower(u), avatarUpload.value, "", body.password);
    LowerThenNormalize(u);
  }

  lemma CreateSuccess(users: Store, id: Id, fullName: Option<string>, email: Option<string>, username: string,
                      avatar: string, coverImage: string, password: Option<string>)
    requires Create(users, id, fullName, email, username, avatar, coverImage, password).result.Success?
    ensures fullName.Some? && email.Some? && password.Some?
    ensures var rec := NewRecord(fullName.value, email.value, username, avatar, coverImage, password.value);
      var o := Create(users, id, fullName, email, username, avatar, coverImage, password);
      id !in users && o.users == users[id := rec] && o.result.value == View(id, rec)
  {
  }

  /** The cover image files of the request play no part in register. */
  lemma RegisterIgnoresCoverImage(users: Store, body: RegisterBody, avatar: Option<seq<Part>>,
                                  cover1: Option<seq<Part>>, cover2: Option<seq<Part>>,
                                  avatarUpload: Option<string>, newId: Id)
    ensures Register(users, body, Files(avatar, cover1), avatarUpload, newId)
         == Register(users, body, Files(avatar, cover2), avatarUpload, newId)
  {
  }

  lemma NewRecordWellFormed(fullName: Option<string>, email: Option<string>, username: string, avatar: string, coverImage: string,
                            password: Option<string>)
    requires RequiredPresent(fullName, email, username, avatar, password)
    ensures WellFormed(NewRecord(fullName.value, email.value, username, avatar, coverImage, password.value))
  {
    NormalizeNormalizes(username);
    NormalizeNormalizes(email.value);
  }

  lemma CreatePreservesValid(users: Store, id: Id, fullName: Option<string>, email: Option<string>, username: string,
                             avatar: string, coverImage: string, password: Option<string>)
    requires ValidStore(users)
    ensures ValidStore(Create(users, id, fullName, email, username, avatar, coverImage, password).users)
  {
    var o := Create(users, id, fullName, email, username, avatar, coverImage, password);
    if o.result.Success? {
      NewRecordWellFormed(fullName, email, username, avatar, coverImage, password);
      var rec := NewRecord(fullName.value, email.value, username, avatar, coverImage, password.value);
      assert o.users == users[id := rec];
      InsertPreservesValid(users, id, rec);
    }
  }

  /** Inserting a well-formed record that violates no unique index keeps the store valid. */
  lemma InsertPreservesValid(users: Store, id: Id, rec: UserRecord)
    requires ValidStore(users) && WellFormed(rec) && !DuplicateKeyFor(users, id, rec)
    ensures ValidStore(users[id := rec])
  {
    var r := users[id := rec];
    forall a, b | a in r && b in r && r[a].username == r[b].username ensures a == b {
      if a != id && b != id {
        assert r[a] == users[a] && r[b] == users[b];
      }
    }
    forall a, b | a in r && b in r && r[a].email == r[b].email ensures a == b {
      if a != id && b != id {
        assert r[a] == users[a] && r[b] == users[b];
      }
    }
  }

  /** Register keeps every record well formed and usernames and emails unique. */
  lemma RegisterPreservesValid(users: Store, body: RegisterBody, files: Files, avatarUpload: Option<string>, newId: Id)
    requires ValidStore(users)
    ensures ValidStore(Register(users, body, files, avatarUpload, newId).users)
  {
    var o := Register(users, body, files, avatarUpload, newId);
    if o.users != users {
      var u := body.username.value;
      assert o == Create(users, newId, body.fullName, body.email, Lower(u), avatarUpload.value, "", body.password);
      CreatePreservesValid(users, newId, body.fullName, body.email, Lower(u), avatarUpload.value, "", body.password);
    }
  }

  /**
   * On a valid store the 409 check already covers both unique indexes: the
   * duplicate-key error can only come from the new id itself.
   */
  lemma RegisterDuplicateKeyOnlyForId(users: Store, body: RegisterBody, files: Files, avatarUpload: Option<string>,
                                      newId: Id)
    requires Register(users, body, files, avatarUpload, newId) == Fail(users, InternalError, DuplicateKey)
    ensures newId in users
  {
    var check := RegisterCheck(users, body, files, avatarUpload);
    if check.Failure? {
      assert false;
    }
    assert FindOne(users, body.username, body.email).None?;
    var u := body.username.value;
    var o := Create(users, newId, body.fullName, body.email, Lower(u), avatarUpload.value, "", body.password);
    assert o.result == Failure(HttpError(InternalError, DuplicateKey));
    assert RequiredPresent(body.fullName, body.email, Lower(u), avatarUpload.value, body.password);
    var rec := NewRecord(body.fullName.value, body.email.value, Lower(u), avatarUpload.value, "", body.password.value);
    assert DuplicateKeyFor(users, newId, rec);
    LowerThenNormalize(u);
    if j :| j in users && users[j].username == rec.username {
      assert Matches(users[j], body.username, body.email);
    } else if j :| j in users && users[j].email == rec.email {
      assert Matches(users[j], body.username, body.email);
    }
  }

  // ---- loginUser ----

  datatype LoginBody = LoginBody(email: Option<string>, username: Option<string>, password: Option<string>)

  datatype Session = Session(user: PublicUser, accessToken: string, refreshToken: string)

  /**
   * loginUser up to the password check: the matched record's id, or the error
   * thrown on the way (a bcrypt rejection reaches the outer handler as 500).
   */
  function LoginCheck(users: Store, body: LoginBody): Result<Id, HttpError> {
    if !Truthy(body.username) && !Truthy(body.email) then Failure(HttpError(400, NameOrEmailRequired))
    else match FindOne(users, body.username, body.email)
      case None => Failure(HttpError(404, NoSuchUser))
      case Some(id) =>
        match IsPasswordCorrect(users[id], body.password)
        case Failure(reason) => Failure(HttpError(InternalError, reason))
        case Success(false) => Failure(HttpError(401, PasswordMismatch))
        case Success(true) => Success(id)
  }

  /** loginUser: issuance at seconds `t1` and `t2`. */
  function Login(cfg: Config, users: Store, body: LoginBody, t1: nat, t2: nat): Outcome<Session> {
    match LoginCheck(users, body)
    case Failure(e) => Outcome(Failure(e), users)
    case Success(id) =>
      var o := IssueTokens(cfg, users, id, t1, t2);
      match o.result
      case Failure(e) => Outcome(Failure(e), o.users)
      case Success(pair) => Outcome(Success(Session(View(id, o.users[id]), pair.accessToken, pair.refreshToken)), o.users)
  }

  /**
   * Login's failures, in order: 400 without username and email, 404 without a
   * matching record, 500 when bcrypt rejects, 401 on a wrong password. No
   * failure changes the store.
   */
  lemma LoginFailures(cfg: Config, users: Store, body: LoginBody, t1: nat, t2: nat)
    ensures var o := Login(cfg, users, body, t1, t2);
      o.result.Failure? ==> o.users == users
    ensures !Truthy(body.username) && !Truthy(body.email) ==>
      Login(cfg, users, body, t1, t2) == Fail(users, 400, NameOrEmailRequired)
    ensures (Truthy(body.username) || Truthy(body.email))
            && (forall id :: id in users ==> !Matches(users[id], body.username, body.email)) ==>
      Login(cfg, users, body, t1, t2) == Fail(users, 404, NoSuchUser)
    ensures (Truthy(body.username) || Truthy(body.email)) && FindOne(users, body.username, body.email).Some?
            && IsPasswordCorrect(users[FindOne(users, body.username, body.email).value], body.password) == Success(false) ==>
      Login(cfg, users, body, t1, t2) == Fail(users, 401, PasswordMismatch)
    ensures (Truthy(body.username) || Truthy(body.email)) && FindOne(users, body.username, body.email).Some?
            && IsPasswordCorrect(users[FindOne(users, body.username, body.email).value], body.password).Failure? ==>
      Login(cfg, users, body, t1, t2)
        == Fail(users, InternalError,
                IsPasswordCorrect(users[FindOne(users, body.username, body.email).value], body.password).error)
  {
  }

  /**
   * A successful login matched a record whose password check passed; the only
   * change is that record's refresh token, which is the one returned; the user
   * returned is that record's view.
   */
  lemma LoginSuccess(cfg: Config, users: Store, body: LoginBody, t1: nat, t2: nat)
    requires Login(cfg, users, body, t1, t2).result.Success?
    ensures var o := Login(cfg, users, body, t1, t2);
      var id := o.result.value.user.id;
      && FindOne(users, body.username, body.email) == Some(id)
      && IsPasswordCorrect(users[id], body.password) == Success(true)
      && o.users == users[id := users[id].(refreshToken := Some(o.result.value.refreshToken))]
      && o.result.value.user == View(id, users[id])
      && o.result.value == Session(View(id, users[id]), GenerateAccessToken(cfg, id, users[id], t1),
                                   GenerateAccessToken(cfg, id, users[id], t2))
  {
  }

  // ---- logoutUser ----

  /** `findByIdAndUpdate(id, {$unset: {refreshToken: 1}})`; a missing id changes nothing. */
  function Logout(users: Store, id: Id): (r: Store)
    ensures r.Keys == users.Keys
    ensures id in users ==> r[id] == users[id].(refreshToken := None)
    ensures forall j :: j in users && j != id ==> r[j] == users[j]
  {
    if id in users then users[id := users[id].(refreshToken := None)] else users
  }

  /** Logging out twice is logging out once. */
  lemma LogoutIdempotent(users: Store, id: Id)
    ensures Logout(Logout(users, id), id) == Logout(users, id)
  {
  }

  lemma LogoutPreservesValid(users: Store, id: Id)
    requires ValidStore(users)
    ensures ValidStore(Logout(users, id))
  {
    if id in users {
      SameIdentity(users, id, users[id].(refreshToken := None));
    }
  }

  // ---- refreshAccessToken ----

  datatype RefreshRequest = RefreshRequest(cookie: Option<string>, body: Option<string>)

  /** What the refresh handler answers: the new access token and, as written, an undefined refresh token. */
  datatype Renewal = Renewal(accessToken: string, refreshToken: Option<string>)

  /** `req.cookies.refreshToken || req.body.refreshToken`. */
  function IncomingRefreshToken(req: RefreshRequest): Option<string> {
    if Truthy(req.cookie) then req.cookie else req.body
  }

  /** The catch block: every error is rethrown as 401 with its own message. */
  function Rewrap(e: HttpError): HttpError {
    HttpError(401, if e.message != "" then e.message else InvalidRefreshToken)
  }

  /**
   * refreshAccessToken up to the stored-token comparison: the id the incoming
   * token names, or the 401 thrown on the way.
   */
  function RefreshCheck(cfg: Config, users: Store, req: RefreshRequest): Result<Id, HttpError> {
    var incoming := IncomingRefreshToken(req);
    if !Truthy(incoming) then Failure(HttpError(401, Unauthorized))
    else match Jwt.Verify(incoming.value, cfg.refreshSecret)
      case Failure(reason) => Failure(Rewrap(HttpError(401, reason)))
      case Success(claims) =>
        if claims.id !in users then Failure(HttpError(401, InvalidRefreshToken))
        else if users[claims.id].refreshToken != Some(incoming.value) then Failure(HttpError(401, RefreshReused))
        else Success(claims.id)
  }

  /** refreshAccessToken as written; issuance at seconds `t1` and `t2`. */
  function Refresh(cfg: Config, users: Store, req: RefreshRequest, t1: nat, t2: nat): Outcome<Renewal> {
    match RefreshCheck(cfg, users, req)
    case Failure(e) => Outcome(Failure(e), users)
    case Success(id) =>
      var o := IssueTokens(cfg, users, id, t1, t2);
      match o.result
      case Failure(e) => Outcome(Failure(Rewrap(e)), o.users)
      case Success(pair) => Outcome(Success(Renewal(pair.accessToken, None)), o.users)
  }

  /** The id a refresh request names, when its token verifies under the refresh secret. */
  function RefreshSubject(cfg: Config, req: RefreshRequest): Option<Id> {
    var incoming := IncomingRefreshToken(req);
    if incoming.Some? && Jwt.Verify(incoming.value, cfg.refreshSecret).Success?
    then Some(Jwt.Verify(incoming.value, cfg.refreshSecret).value.id)
    else None
  }

  /** Every failure of refresh is a 401 and leaves the store as it was. */
  lemma RefreshFailuresAre401(cfg: Config, users: Store, req: RefreshRequest, t1: nat, t2: nat)
    ensures var o := Refresh(cfg, users, req, t1, t2);
      o.result.Failure? ==> o.result.error.status == 401 && o.users == users
  {
  }

  /**
   * Refresh succeeds exactly when a token is supplied, verifies under the
   * refresh secret, names an existing user, and is that user's stored refresh
   * token; it then rotates the stored token and answers with an undefined one.
   */
  lemma RefreshSuccessIff(cfg: Config, users: Store, req: RefreshRequest, t1: nat, t2: nat)
    ensures var o := Refresh(cfg, users, req, t1, t2);
      var incoming := IncomingRefreshToken(req);
      o.result.Success? <==>
        && Truthy(incoming)
        && RefreshSubject(cfg, req).Some?
        && RefreshSubject(cfg, req).value in users
        && users[RefreshSubject(cfg, req).value].refreshToken == incoming
    ensures var o := Refresh(cfg, users, req, t1, t2);
      o.result.Success? ==>
        && o.result.value.refreshToken.None?
        && o.result.value.accessToken
             == GenerateAccessToken(cfg, RefreshSubject(cfg, req).value, users[RefreshSubject(cfg, req).value], t1)
        && o.users == IssueTokens(cfg, users, RefreshSubject(cfg, req).value, t1, t2).users
  {
  }

  /** After logout, no token naming that user is accepted by refresh. */
  lemma RefreshRejectedAfterLogout(cfg: Config, users: Store, id: Id, req: RefreshRequest, t1: nat, t2: nat)
    requires RefreshSubject(cfg, req) == Some(id)
    ensures Refresh(cfg, Logout(users, id), req, t1, t2).result.Failure?
  {
  }

  /**
   * Refresh rotates the stored token: the token it accepted, unless it was
   * signed in the same second as its replacement, is refused afterwards as used.
   */
  lemma RotatedTokenRejected(cfg: Config, users: Store, token: string, t1: nat, t2: nat, t3: nat, t4: nat)
    requires Refresh(cfg, users, RefreshRequest(Some(token), None), t1, t2).result.Success?
    requires Jwt.Decode(token).value.issuedAt != t2
    ensures var o := Refresh(cfg, users, RefreshRequest(Some(token), None), t1, t2);
      Refresh(cfg, o.users, RefreshRequest(Some(token), None), t3, t4) == Fail(o.users, 401, RefreshReused)
  {
    var req := RefreshRequest(Some(token), None);
    var id := RefreshCheck(cfg, users, req).value;
    var o := Refresh(cfg, users, req, t1, t2);
    var stored := GenerateAccessToken(cfg, id, users[id], t2);
    assert o.users[id].refreshToken == Some(stored);
    assert Jwt.Decode(stored).value.issuedAt == t2;
    assert stored != token;
    assert RefreshCheck(cfg, o.users, req) == Failure(HttpError(401, RefreshReused));
  }

  /** Every refresh token this code stores verifies under the access secret. */
  ghost predicate AccessSignedTokens(cfg: Config, users: Store) {
    forall id :: id in users && users[id].refreshToken.Some? ==>
      Jwt.Verify(users[id].refreshToken.value, cfg.accessSecret).Success?
  }

  /** Replacing a record by one with the same identifying fields and password keeps the store valid. */
  lemma SameIdentity(users: Store, id: Id, rec: UserRecord)
    requires ValidStore(users) && id in users
    requires rec.username == users[id].username && rec.email == users[id].email
    requires rec.fullName == users[id].fullName && rec.avatar == users[id].avatar
    requires rec.password == users[id].password
    ensures ValidStore(users[id := rec])
  {
    var r := users[id := rec];
    assert r.Keys == users.Keys;
    forall j | j in r
      ensures WellFormed(r[j]) && r[j].username == users[j].username && r[j].email == users[j].email
    {
      if j != id {
        assert r[j] == users[j];
      } else {
        assert WellFormed(users[id]);
      }
    }
  }

  lemma IssueTokensPreservesValid(cfg: Config, users: Store, id: Id, t1: nat, t2: nat)
    requires ValidStore(users)
    ensures ValidStore(IssueTokens(cfg, users, id, t1, t2).users)
  {
    var r := IssueTokens(cfg, users, id, t1, t2).users;
    if id in users {
      SameIdentity(users, id, r[id]);
    }
  }

  lemma IssueTokensKeepAccessSigned(cfg: Config, users: Store, id: Id, t1: nat, t2: nat)
    requires AccessSignedTokens(cfg, users)
    ensures AccessSignedTokens(cfg, IssueTokens(cfg, users, id, t1, t2).users)
  {
    if id in users {
      IssuedTokensAreAccessTokens(cfg, users, id, t1, t2);
    }
  }

  lemma RegisterKeepsAccessSigned(cfg: Config, users: Store, body: RegisterBody, files: Files,
                                  avatarUpload: Option<string>, newId: Id)
    requires AccessSignedTokens(cfg, users)
    ensures AccessSignedTokens(cfg, Register(users, body, files, avatarUpload, newId).users)
  {
    if Register(users, body, files, avatarUpload, newId).result.Success? {
      RegisterSuccess(users, body, files, avatarUpload, newId);
    }
  }

  lemma LoginKeepsAccessSigned(cfg: Config, users: Store, body: LoginBody, t1: nat, t2: nat)
    requires AccessSignedTokens(cfg, users)
    ensures AccessSignedTokens(cfg, Login(cfg, users, body, t1, t2).users)
  {
    if LoginCheck(users, body).Success? {
      IssueTokensKeepAccessSigned(cfg, users, LoginCheck(users, body).value, t1, t2);
    }
  }

  lemma LogoutKeepsAccessSigned(cfg: Config, users: Store, id: Id)
    requires AccessSignedTokens(cfg, users)
    ensures AccessSignedTokens(cfg, Logout(users, id))
  {
  }

  lemma RefreshKeepsAccessSigned(cfg: Config, users: Store, req: RefreshRequest, t1: nat, t2: nat)
    requires AccessSignedTokens(cfg, users)
    ensures AccessSignedTokens(cfg, Refresh(cfg, users, req, t1, t2).users)
  {
    if RefreshCheck(cfg, users, req).Success? {
      IssueTokensKeepAccessSigned(cfg, users, RefreshCheck(cfg, users, req).value, t1, t2);
    }
  }

  /**
   * As written, on a store whose refresh tokens all came from this code,
   * refresh never succeeds: every stored token is an access token, and none
   * verifies under a distinct refresh secret.
   */
  lemma RefreshNeverSucceeds(cfg: Config, users: Store, req: RefreshRequest, t1: nat, t2: nat)
    requires SeparateKinds(cfg) && AccessSignedTokens(cfg, users)
    ensures Refresh(cfg, users, req, t1, t2).result.Failure?
  {
    var incoming := IncomingRefreshToken(req);
    if Truthy(incoming) && RefreshSubject(cfg, req).Some? {
      var id := RefreshSubject(cfg, req).value;
      if id in users && users[id].refreshToken == incoming {
        var t := Jwt.Decode(incoming.value).value;
        assert t.secret == cfg.refreshSecret;
        assert Jwt.Verify(incoming.value, cfg.accessSecret).Success?;
      }
    }
  }

  // ---- across handlers, as written ----

  /** A field of a successful register's body is defined and not blank. */
  lemma RegisteredFieldsFilled(body: RegisterBody, i: nat)
    requires !HasBlankField(RequiredFields(body)) && i < 4 && RequiredFields(body)[i].Some?
    ensures RequiredFields(body)[i].value != ""
  {
    assert Trim(RequiredFields(body)[i].value) != "";
  }

  /**
   * Right after a successful register, logging in with the same username and
   * password fails with 500: the stored password is the un-awaited Promise,
   * which bcrypt rejects.
   */
  lemma RegisterThenLoginFails(cfg: Config, users: Store, body: RegisterBody, files: Files, avatarUpload: Option<string>,
                               newId: Id, t1: nat, t2: nat)
    requires Register(users, body, files, avatarUpload, newId).result.Success?
    ensures var o := Register(users, body, files, avatarUpload, newId);
      Login(cfg, o.users, LoginBody(None, body.username, body.password), t1, t2)
        == Fail(o.users, InternalError, "data and hash must be strings")
  {
    RegisterSuccess(users, body, files, avatarUpload, newId);
    var o := Register(users, body, files, avatarUpload, newId);
    RegisteredFieldsFilled(body, 2);
    forall j | j in o.users && j != newId ensures !Matches(o.users[j], body.username, None) {
      assert o.users[j] == users[j];
      assert !Matches(users[j], body.username, body.email);
    }
    FindOneUnique(o.users, body.username, None, newId);
    LoginMeetsPromise(cfg, o.users, LoginBody(None, body.username, body.password), newId, t1, t2);
  }

  /** Login that finds a record whose password is still a Promise fails with bcrypt's rejection. */
  lemma LoginMeetsPromise(cfg: Config, users: Store, body: LoginBody, id: Id, t1: nat, t2: nat)
    requires Truthy(body.username) || Truthy(body.email)
    requires FindOne(users, body.username, body.email) == Some(id)
    requires users[id].password.Pending? && body.password.Some?
    ensures Login(cfg, users, body, t1, t2) == Fail(users, InternalError, "data and hash must be strings")
  {
  }

  /**
   * With the kinds configured apart, the refresh token a login hands out is
   * refused by refresh with 401 "invalid signature".
   */
  lemma LoginThenRefreshFails(cfg: Config, users: Store, body: LoginBody, t1: nat, t2: nat, t3: nat, t4: nat)
    requires SeparateKinds(cfg)
    requires Login(cfg, users, body, t1, t2).result.Success?
    ensures var o := Login(cfg, users, body, t1, t2);
      Refresh(cfg, o.users, RefreshRequest(Some(o.result.value.refreshToken), None), t3, t4)
        == Fail(o.users, 401, "invalid signature")
  {
    LoginSuccess(cfg, users, body, t1, t2);
    var o := Login(cfg, users, body, t1, t2);
    var id := o.result.value.user.id;
    Jwt.VerifySigned(AccessClaimsOf(id, users[id]), cfg.accessSecret, cfg.accessExpiry, t2, cfg.refreshSecret);
  }

  /**
   * Where refresh can succeed at all (the two secrets configured alike), it
   * answers with an undefined refresh token while the store holds a new one.
   */
  lemma RefreshAnswersUndefined(cfg: Config, users: Store, body: LoginBody, t1: nat, t2: nat, t3: nat, t4: nat)
    requires cfg.accessSecret == cfg.refreshSecret
    requires Login(cfg, users, body, t1, t2).result.Success?
    ensures var o := Login(cfg, users, body, t1, t2);
      var r := Refresh(cfg, o.users, RefreshRequest(Some(o.result.value.refreshToken), None), t3, t4);
      var id := o.result.value.user.id;
      && r.result.Success? && r.result.value.refreshToken == None
      && r.users[id].refreshToken.Some?
  {
    LoginSuccess(cfg, users, body, t1, t2);
    var o := Login(cfg, users, body, t1, t2);
    var id := o.result.value.user.id;
    var req := RefreshRequest(Some(o.result.value.refreshToken), None);
    assert RefreshCheck(cfg, o.users, req) == Success(id);
  }

  // ---- stores this code builds, as written ----

  /** No stored password is a settled digest. */
  predicate NoDigests(users: Store) {
    forall id :: id in users ==> !users[id].password.Hashed?
  }

  /** No record holds a refresh token. */
  predicate NoSessions(users: Store) {
    forall id :: id in users ==> users[id].refreshToken.None?
  }

  /** As written, login fails on every store without a settled digest: no password check can pass. */
  lemma LoginNeedsDigest(cfg: Config, users: Store, body: LoginBody, t1: nat, t2: nat)
    requires NoDigests(users)
    ensures Login(cfg, users, body, t1, t2).result.Failure?
    ensures Login(cfg, users, body, t1, t2).users == users
  {
    if LoginCheck(users, body).Success? {
      assert false;
    }
  }

  /** Refresh fails on every store where no record holds a refresh token. */
  lemma RefreshNeedsSession(cfg: Config, users: Store, req: RefreshRequest, t1: nat, t2: nat)
    requires NoSessions(users)
    ensures Refresh(cfg, users, req, t1, t2).result.Failure?
    ensures Refresh(cfg, users, req, t1, t2).users == users
  {
  }

  /** One request to the service. */
  datatype Call =
    | RegisterCall(body: RegisterBody, files: Files, avatarUpload: Option<string>, newId: Id)
    | LoginCall(login: LoginBody, t1: nat, t2: nat)
    | LogoutCall(id: Id)
    | RefreshCall(req: RefreshRequest, t1: nat, t2: nat)

  /** The store after one request. */
  function Step(cfg: Config, users: Store, c: Call): Store {
    match c
    case RegisterCall(body, files, avatarUpload, newId) => Register(users, body, files, avatarUpload, newId).users
    case LoginCall(body, t1, t2) => Login(cfg, users, body, t1, t2).users
    case LogoutCall(id) => Logout(users, id)
    case RefreshCall(req, t1, t2) => Refresh(cfg, users, req, t1, t2).users
  }

  /** The store after a sequence of requests, in order. */
  function Run(cfg: Config, users: Store, calls: seq<Call>): Store
    decreases |calls|
  {
    if calls == [] then users else Run(cfg, Step(cfg, users, calls[0]), calls[1..])
  }

  /** Register adds a record with a Promise for its password and no refresh token. */
  lemma RegisterKeepsNoSessions(users: Store, body: RegisterBody, files: Files, avatarUpload: Option<string>, newId: Id)
    requires NoDigests(users) && NoSessions(users)
    ensures var r := Register(users, body, files, avatarUpload, newId).users;
      NoDigests(r) && NoSessions(r)
  {
    var o := Register(users, body, files, avatarUpload, newId);
    if o.result.Success? {
      RegisterSuccess(users, body, files, avatarUpload, newId);
      assert o.users[newId].password.Pending? && o.users[newId].refreshToken.None?;
      forall id | id in o.users ensures !o.users[id].password.Hashed? && o.users[id].refreshToken.None? {
        if id != newId {
          assert o.users[id] == users[id];
        }
      }
    }
  }

  /** Every request keeps the store free of digests and of refresh tokens. */
  lemma StepKeepsNoSessions(cfg: Config, users: Store, c: Call)
    requires NoDigests(users) && NoSessions(users)
    ensures NoDigests(Step(cfg, users, c)) && NoSessions(Step(cfg, users, c))
  {
    match c
    case RegisterCall(body, files, avatarUpload, newId) =>
      RegisterKeepsNoSessions(users, body, files, avatarUpload, newId);
    case LoginCall(body, t1, t2) =>
      LoginNeedsDigest(cfg, users, body, t1, t2);
    case LogoutCall(id) =>
    case RefreshCall(req, t1, t2) =>
      RefreshNeedsSession(cfg, users, req, t1, t2);
  }

  lemma {:induction false} RunKeepsNoSessions(cfg: Config, users: Store, calls: seq<Call>)
    requires NoDigests(users) && NoSessions(users)
    ensures NoDigests(Run(cfg, users, calls)) && NoSessions(Run(cfg, users, calls))
    decreases |calls|
  {
    if calls != [] {
      StepKeepsNoSessions(cfg, users, calls[0]);
      RunKeepsNoSessions(cfg, Step(cfg, users, calls[0]), calls[1..]);
    }
  }

  /**
   * As written, on a store any sequence of requests built from the empty one,
   * login and refresh never succeed: the un-awaited hash leaves no digest to
   * check a password against, so no session is ever opened.
   */
  lemma NoLoginOnBuiltStore(cfg: Config, calls: seq<Call>, body: LoginBody, req: RefreshRequest,
                            t1: nat, t2: nat)
    ensures Login(cfg, Run(cfg, map[], calls), body, t1, t2).result.Failure?
    ensures Refresh(cfg, Run(cfg, map[], calls), req, t1, t2).result.Failure?
  {
    RunKeepsNoSessions(cfg, map[], calls);
    LoginNeedsDigest(cfg, Run(cfg, map[], calls), body, t1, t2);
    RefreshNeedsSession(cfg, Run(cfg, map[], calls), req, t1, t2);
  }

  // ---- the service ----

  /** The user service: the store and the configuration it was started with. */
  class UserService {
    const config: Config
    var users: Store

    /**
     * Every record well formed, usernames and emails unique, and every stored
     * refresh token signed under the access secret.
     */
    ghost predicate Valid()
      reads this
    {
      ValidStore(users) && AccessSignedTokens(config, users)
    }

    constructor (config: Config)
      ensures Valid() && this.config == config && users == map[]
    {
      this.config := config;
      users := map[];
    }

    method GenerateAccessAndRefreshTokens(id: Id, t1: nat, t2: nat) returns (r: Result<TokenPair, HttpError>)
      requires Valid()
      modifies this
      ensures Valid()
      ensures r == IssueTokens(config, old(users), id, t1, t2).result
      ensures users == IssueTokens(config, old(users), id, t1, t2).users
    {
      IssueTokensPreservesValid(config, users, id, t1, t2);
      IssueTokensKeepAccessSigned(config, users, id, t1, t2);
      if id !in users {
        return Failure(HttpError(InternalError, TokenFailure));
      }
      var rec := users[id];
      var accessToken := GenerateAccessToken(config, id, rec, t1);
      var refreshToken := GenerateAccessToken(config, id, rec, t2);
      rec := rec.(refreshToken := Some(refreshToken));
      rec := rec.(password := PreSave(rec.password, None));
      users := users[id := rec];
      return Success(TokenPair(accessToken, refreshToken));
    }

    method RegisterUser(body: RegisterBody, files: Files, avatarUpload: Option<string>, newId: Id)
      returns (r: Result<PublicUser, HttpError>)
      requires Valid()
      modifies this
      ensures Valid()
      ensures r == Register(old(users), body, files, avatarUpload, newId).result
      ensures users == Register(old(users), body, files, avatarUpload, newId).users
    {
      RegisterPreservesValid(users, body, files, avatarUpload, newId);
      RegisterKeepsAccessSigned(config, users, body, files, avatarUpload, newId);
      if HasBlankField(RequiredFields(body)) {
        return Failure(HttpError(400, AllFieldsRequired));
      }
      var existing := FindOne(users, body.username, body.email);
      if existing.Some? {
        return Failure(HttpError(409, UserExists));
      }
      var avatarPath := AvatarLocalPath(files);
      if avatarPath.Failure? {
        return Failure(avatarPath.error);
      }
      if !Truthy(avatarPath.value) {
        return Failure(HttpError(400, AvatarRequired));
      }
      if avatarUpload.None? {
        return Failure(HttpError(400, AvatarRequired));
      }
      if body.username.None? {
        return Failure(HttpError(InternalError, NoLowerCase));
      }
      var username := Lower(body.username.value);
      if !RequiredPresent(body.fullName, body.email, username, avatarUpload.value, body.password) {
        return Failure(HttpError(InternalError, ValidationFailed));
      }
      var rec := NewRecord(body.fullName.value, body.email.value, username, avatarUpload.value, "", body.password.value);
      if DuplicateKeyFor(users, newId, rec) {
        return Failure(HttpError(InternalError, DuplicateKey));
      }
      users := users[newId := rec];
      var createdUser := View(newId, users[newId]);
      return Success(createdUser);
    }

    method LoginUser(body: LoginBody, t1: nat, t2: nat) returns (r: Result<Session, HttpError>)
      requires Valid()
      modifies this
      ensures Valid()
      ensures r == Login(config, old(users), body, t1, t2).result
      ensures users == Login(config, old(users), body, t1, t2).users
    {
      if !Truthy(body.username) && !Truthy(body.email) {
        return Failure(HttpError(400, NameOrEmailRequired));
      }
      var found := FindOne(users, body.username, body.email);
      if found.None? {
        return Failure(HttpError(404, NoSuchUser));
      }
      var id := found.value;
      var passwordValid := IsPasswordCorrect(users[id], body.password);
      if passwordValid.Failure? {
        return Failure(HttpError(InternalError, passwordValid.error));
      }
      if !passwordValid.value {
        return Failure(HttpError(401, PasswordMismatch));
      }
      var pair := GenerateAccessAndRefreshTokens(id, t1, t2);
      if pair.Failure? {
        assert false;
      }
      var loggedInUser := View(id, users[id]);
      return Success(Session(loggedInUser, pair.value.accessToken, pair.value.refreshToken));
    }

    method LogoutUser(id: Id)
      requires Valid()
      modifies this
      ensures Valid()
      ensures users == Logout(old(users), id)
    {
      LogoutPreservesValid(users, id);
      LogoutKeepsAccessSigned(config, users, id);
      if id in users {
        users := users[id := users[id].(refreshToken := None)];
      }
    }

    method RefreshAccessToken(req: RefreshRequest, t1: nat, t2: nat) returns (r: Result<Renewal, HttpError>)
      requires Valid()
      modifies this
      ensures Valid()
      ensures r == Refresh(config, old(users), req, t1, t2).result
      ensures users == Refresh(config, old(users), req, t1, t2).users
      ensures SeparateKinds(config) ==> r.Failure?
    {
      if SeparateKinds(config) {
        RefreshNeverSucceeds(config, users, req, t1, t2);
      }
      var incoming := IncomingRefreshToken(req);
      if !Truthy(incoming) {
        return Failure(HttpError(401, Unauthorized));
      }
      var decoded := Jwt.Verify(incoming.value, config.refreshSecret);
      if decoded.Failure? {
        return Failure(Rewrap(HttpError(401, decoded.error)));
      }
      var id := decoded.value.id;
      if id !in users {
        return Failure(HttpError(401, InvalidRefreshToken));
      }
      if users[id].refreshToken != Some(incoming.value) {
        return Failure(HttpError(401, RefreshReused));
      }
      var pair := GenerateAccessAndRefreshTokens(id, t1, t2);
      if pair.Failure? {
        assert false;
      }
      return Success(Renewal(pair.value.accessToken, None));
    }
  }
}
