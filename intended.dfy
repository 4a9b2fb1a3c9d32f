/**
 * The handlers as their authors evidently meant them, where the code says
 * otherwise: issuance signs a real refresh token, refresh hands the rotated
 * token back, register rejects an undefined field as blank and takes the
 * cover image from the request, and the pre-save hook awaits the hash. The
 * guards the handlers share with the code as written are reused unchanged.
 */
module Intended {
  import opened Wrappers
  import opened Text
  import Bcrypt
  import Jwt
  import opened UserModel
  import opened ApiErrors
  import opened UserController
  import AuthMiddleware

  // ---- the pre-save hook with the hash awaited (user.models.js:66) ----

  /** `this.password = await bcrypt.hash(this.password, 10)` when the password was assigned. */
  function PreSaveAwaited(current: Password, newPlain: Option<string>): (r: Password)
    ensures newPlain.None? ==> r == current
    ensures newPlain.Some? ==> r.Hashed? && r.digest.cost == SaltRounds && Bcrypt.Compare(newPlain.value, r.digest)
  {
    match newPlain
    case None => current
    case Some(p) => Hashed(Bcrypt.Hash(p, SaltRounds))
  }

  /** A password the awaited hook has set checks true for itself and false for any other. */
  lemma AwaitedHashChecks(rec: UserRecord, plain: string, candidate: string)
    ensures IsPasswordCorrect(rec.(password := PreSaveAwaited(rec.password, Some(plain))), Some(candidate))
         == Success(candidate == plain)
  {
    Bcrypt.CompareHash(plain, candidate, SaltRounds);
  }

  // ---- token issuance with a refresh token (user.controller.js:13) ----

  /**
   * Issuance with the second token from `generateRefreshToken`: the stored
   * refresh token is the one returned, and nothing else changes.
   */
  function IssueTokensIntended(cfg: Config, users: Store, id: Id, t1: nat, t2: nat): (o: Outcome<TokenPair>)
    ensures o.result.Failure? <==> id !in users
    ensures o.result.Failure? ==> o.result.error == HttpError(InternalError, TokenFailure) && o.users == users
    ensures o.result.Success? ==>
              && o.users.Keys == users.Keys
              && o.users[id] == users[id].(refreshToken := Some(o.result.value.refreshToken))
              && (forall j :: j in users && j != id ==> o.users[j] == users[j])
  {
    if id !in users then Fail(users, InternalError, TokenFailure)
    else
      var rec := users[id];
      var accessToken := GenerateAccessToken(cfg, id, rec, t1);
      var refreshToken := GenerateRefreshToken(cfg, id, t2);
      var saved := rec.(refreshToken := Some(refreshToken), password := PreSaveAwaited(rec.password, None));
      Outcome(Success(TokenPair(accessToken, refreshToken)), users[id := saved])
  }

  /**
   * The two issued tokens come from their own generators and are of their own
   * kinds: the access token verifies under the access secret with the access
   * claims, the refresh token under the refresh secret with the id alone; with
   * the kinds configured apart, neither verifies as the other.
   */
  lemma IntendedTokensOfTheirKinds(cfg: Config, users: Store, id: Id, t1: nat, t2: nat)
    requires id in users
    ensures var pair := IssueTokensIntended(cfg, users, id, t1, t2).result.value;
      && pair == TokenPair(GenerateAccessToken(cfg, id, users[id], t1), GenerateRefreshToken(cfg, id, t2))
      && Jwt.Verify(pair.accessToken, cfg.accessSecret) == Success(AccessClaimsOf(id, users[id]))
      && Jwt.Verify(pair.refreshToken, cfg.refreshSecret) == Success(Jwt.RefreshClaims(id))
      && (SeparateKinds(cfg) ==> Jwt.Verify(pair.refreshToken, cfg.accessSecret).Failure?
                                 && Jwt.Verify(pair.accessToken, cfg.refreshSecret).Failure?)
  {
    if SeparateKinds(cfg) {
      TokenKindsApart(cfg, id, users[id], t1, t2);
    }
  }

  // ---- register (user.controller.js:58, :79, and the hook) ----

  /** `[...].some((field) => !field || field.trim() === "")`: an undefined field counts as missing. */
  predicate MissingOrBlank(fields: seq<Option<string>>) {
    exists i :: 0 <= i < |fields| && (fields[i].None? || Trim(fields[i].value) == "")
  }

  /** `req.files.coverImage[0].path` when the request has a non-empty cover image list. */
  function CoverImageLocalPathIntended(files: Files): Option<string> {
    match files
    case Files(_, Some(parts)) => if parts != [] then Some(parts[0].path) else None
    case _ => None
  }

  /** `coverImage?.url || ""`, where the cover is uploaded only when the request has one. */
  function CoverUrl(files: Files, coverUpload: Option<string>): string {
    if CoverImageLocalPathIntended(files).Some? && Truthy(coverUpload) then coverUpload.value else ""
  }

  function NewRecordIntended(fullName: string, email: string, username: string, avatar: string, coverImage: string,
                             password: string): UserRecord
  {
    UserRecord(Normalize(username), Normalize(email), Trim(fullName), avatar, coverImage,
               PreSaveAwaited(Plain(password), Some(password)), None)
  }

  function CreateIntended(users: Store, id: Id, fullName: Option<string>, email: Option<string>, username: string,
                          avatar: string, coverImage: string, password: Option<string>): Outcome<PublicUser>
  {
    if !RequiredPresent(fullName, email, username, avatar, password) then Fail(users, InternalError, ValidationFailed)
    else Insert(users, id, NewRecordIntended(fullName.value, email.value, username, avatar, coverImage, password.value))
  }

  /** The checks of register with the missing-field test: the username is then always defined. */
  function RegisterCheckIntended(users: Store, body: RegisterBody, files: Files, avatarUpload: Option<string>)
    : (r: Result<(string, string), HttpError>)
    ensures r.Success? ==> !MissingOrBlank(RequiredFields(body)) && FindOne(users, body.username, body.email).None?
    ensures r.Success? ==> body.username.Some? && avatarUpload.Some? && r.value == (body.username.value, avatarUpload.value)
  {
    if MissingOrBlank(RequiredFields(body)) then Failure(HttpError(400, AllFieldsRequired))
    else if FindOne(users, body.username, body.email).Some? then Failure(HttpError(409, UserExists))
    else
      var avatarPath := AvatarLocalPath(files);
      if avatarPath.Failure? then Failure(avatarPath.error)
      else if !Truthy(avatarPath.value) then Failure(HttpError(400, AvatarRequired))
      else if avatarUpload.None? then Failure(HttpError(400, AvatarRequired))
      else
        assert RequiredFields(body)[2] == body.username;
        Success((body.username.value, avatarUpload.value))
  }

  /**
   * Register as intended. `coverUpload` is what the upload of the cover image
   * returned, when the request had one.
   */
  function RegisterIntended(users: Store, body: RegisterBody, files: Files, avatarUpload: Option<string>,
                            coverUpload: Option<string>, newId: Id): Outcome<PublicUser>
  {
    match RegisterCheckIntended(users, body, files, avatarUpload)
    case Failure(e) => Outcome(Failure(e), users)
    case Success((username, avatar)) =>
      CreateIntended(users, newId, body.fullName, body.email, Lower(username), avatar,
                     CoverUrl(files, coverUpload), body.password)
  }

  /** A missing or blank field, and nothing else, gives 400 "All Fields Are Required". */
  lemma RegisterIntendedMissingField(users: Store, body: RegisterBody, files: Files, avatarUpload: Option<string>,
                                     coverUpload: Option<string>, newId: Id)
    ensures var o := RegisterIntended(users, body, files, avatarUpload, coverUpload, newId);
      o.result == Failure(HttpError(400, AllFieldsRequired)) <==> MissingOrBlank(RequiredFields(body))
  {
  }

  /** Every field that passes the missing-field test satisfies the schema's required validators. */
  lemma FilledFieldsPresent(body: RegisterBody, avatar: string)
    requires !MissingOrBlank(RequiredFields(body)) && avatar != ""
    ensures body.fullName.Some? && body.email.Some? && body.username.Some? && body.password.Some?
    ensures RequiredPresent(body.fullName, body.email, Lower(body.username.value), avatar, body.password)
  {
    var f := RequiredFields(body);
    assert f[0] == body.fullName && f[1] == body.email && f[2] == body.username && f[3] == body.password;
    NormalizeBlankIff(body.email.value);
    LowerThenNormalize(body.username.value);
    NormalizeBlankIff(body.username.value);
    assert Trim(body.password.value) != "";
  }

  /**
   * No field can slip through undefined: a 500 from register as intended is
   * the missing avatar field of a multipart request, an id already taken, or
   * an upload that answered with an empty url.
   */
  lemma RegisterIntendedInternalErrors(users: Store, body: RegisterBody, files: Files, avatarUpload: Option<string>,
                                       coverUpload: Option<string>, newId: Id)
    ensures var o := RegisterIntended(users, body, files, avatarUpload, coverUpload, newId);
      o.result.Failure? && o.result.error.status == InternalError ==>
        || o.result.error.message == NoAvatarField
        || o.result.error.message == DuplicateKey
        || (o.result.error.message == ValidationFailed && avatarUpload == Some(""))
  {
    var check := RegisterCheckIntended(users, body, files, avatarUpload);
    if check.Success? && avatarUpload.value != "" {
      FilledFieldsPresent(body, avatarUpload.value);
    }
  }

  /**
   * A successful register as intended stores the cover image it was given and
   * a settled digest of the password.
   */
  lemma RegisterIntendedSuccess(users: Store, body: RegisterBody, files: Files, avatarUpload: Option<string>,
                                coverUpload: Option<string>, newId: Id)
    requires RegisterIntended(users, body, files, avatarUpload, coverUpload, newId).result.Success?
    ensures !MissingOrBlank(RequiredFields(body)) && FindOne(users, body.username, body.email).None?
    ensures body.username.Some? && body.email.Some? && body.fullName.Some? && body.password.Some?
    ensures avatarUpload.Some?
    ensures var o := RegisterIntended(users, body, files, avatarUpload, coverUpload, newId);
      && newId !in users
      && o.users == users[newId := o.users[newId]]
      && o.users[newId] == UserRecord(Normalize(body.username.value), Normalize(body.email.value),
                                      Trim(body.fullName.value), avatarUpload.value, CoverUrl(files, coverUpload),
                                      Hashed(Bcrypt.Hash(body.password.value, SaltRounds)), None)
      && o.result.value == View(newId, o.users[newId])
  {
    var check := RegisterCheckIntended(users, body, files, avatarUpload);
    if check.Failure? {
      assert false;
    }
    var u := Lower(body.username.value);
    var cover := CoverUrl(files, coverUpload);
    var o := CreateIntended(users, newId, body.fullName, body.email, u, avatarUpload.value, cover, body.password);
    assert RegisterIntended(users, body, files, avatarUpload, coverUpload, newId) == o;
    assert RequiredPresent(body.fullName, body.email, u, avatarUpload.value, body.password);
    var rec := NewRecordIntended(body.fullName.value, body.email.value, u, avatarUpload.value, cover,
                                 body.password.value);
    assert o == Insert(users, newId, rec);
    LowerThenNormalize(body.username.value);
  }

  /** A cover image in the request, uploaded to a url, is the cover image stored. */
  lemma CoverImageTaken(avatar: Option<seq<Part>>, cover: Part, more: seq<Part>, url: string)
    requires url != ""
    ensures CoverUrl(Files(avatar, Some([cover] + more)), Some(url)) == url
    ensures CoverImageLocalPathIntended(Files(avatar, Some([cover] + more))) == Some(cover.path)
  {
  }

  lemma RegisterIntendedPreservesValid(users: Store, body: RegisterBody, files: Files, avatarUpload: Option<string>,
                                       coverUpload: Option<string>, newId: Id)
    requires ValidStore(users)
    ensures ValidStore(RegisterIntended(users, body, files, avatarUpload, coverUpload, newId).users)
  {
    var o := RegisterIntended(users, body, files, avatarUpload, coverUpload, newId);
    if o.result.Success? {
      RegisterIntendedSuccess(users, body, files, avatarUpload, coverUpload, newId);
      var u := Lower(body.username.value);
      var cover := CoverUrl(files, coverUpload);
      var rec := NewRecordIntended(body.fullName.value, body.email.value, u, avatarUpload.value, cover,
                                   body.password.value);
      assert RequiredPresent(body.fullName, body.email, u, avatarUpload.value, body.password);
      NewRecordWellFormed(body.fullName, body.email, u, avatarUpload.value, cover, body.password);
      assert WellFormed(rec);
      InsertPreservesValid(users, newId, rec);
    }
  }

  // ---- login and refresh over the intended issuance ----

  function LoginIntended(cfg: Config, users: Store, body: LoginBody, t1: nat, t2: nat): Outcome<Session> {
    match LoginCheck(users, body)
    case Failure(e) => Outcome(Failure(e), users)
    case Success(id) =>
      var o := IssueTokensIntended(cfg, users, id, t1, t2);
      match o.result
      case Failure(e) => Outcome(Failure(e), o.users)
      case Success(pair) => Outcome(Success(Session(View(id, o.users[id]), pair.accessToken, pair.refreshToken)), o.users)
  }

  /** Refresh with the rotated refresh token in its answer (user.controller.js:231). */
  function RefreshIntended(cfg: Config, users: Store, req: RefreshRequest, t1: nat, t2: nat): Outcome<Renewal> {
    match RefreshCheck(cfg, users, req)
    case Failure(e) => Outcome(Failure(e), users)
    case Success(id) =>
      var o := IssueTokensIntended(cfg, users, id, t1, t2);
      match o.result
      case Failure(e) => Outcome(Failure(Rewrap(e)), o.users)
      case Success(pair) => Outcome(Success(Renewal(pair.accessToken, Some(pair.refreshToken))), o.users)
  }

  /** The refresh token refresh answers with is the one it stored. */
  lemma RefreshIntendedAnswersStored(cfg: Config, users: Store, req: RefreshRequest, t1: nat, t2: nat)
    requires RefreshIntended(cfg, users, req, t1, t2).result.Success?
    ensures var o := RefreshIntended(cfg, users, req, t1, t2);
      var id := RefreshCheck(cfg, users, req).value;
      && o.result.value.accessToken == GenerateAccessToken(cfg, id, users[id], t1)
      && o.result.value.refreshToken.Some?
      && o.users[id].refreshToken == o.result.value.refreshToken
      && Jwt.Verify(o.result.value.refreshToken.value, cfg.refreshSecret) == Success(Jwt.RefreshClaims(id))
  {
  }

  /** The access token a refresh hands out opens the request gate for that user, as a cookie. */
  lemma RenewedAccessTokenOpensGate(cfg: Config, users: Store, req: RefreshRequest, t1: nat, t2: nat,
                                    header: Option<string>)
    requires RefreshIntended(cfg, users, req, t1, t2).result.Success?
    ensures var o := RefreshIntended(cfg, users, req, t1, t2);
      var id := RefreshCheck(cfg, users, req).value;
      AuthMiddleware.Authenticate(cfg, o.users, AuthMiddleware.AuthRequest(Some(o.result.value.accessToken), header))
        == Success(View(id, o.users[id]))
  {
    var o := RefreshIntended(cfg, users, req, t1, t2);
    var id := RefreshCheck(cfg, users, req).value;
    RefreshIntendedAnswersStored(cfg, users, req, t1, t2);
    AuthMiddleware.AccessTokenAccepted(cfg, o.users, id, users[id], t1, header);
  }

  /** A successful register as intended is followed by a successful login with the same credentials. */
  lemma RegisterThenLogin(cfg: Config, users: Store, body: RegisterBody, files: Files, avatarUpload: Option<string>,
                          coverUpload: Option<string>, newId: Id, t1: nat, t2: nat)
    requires RegisterIntended(users, body, files, avatarUpload, coverUpload, newId).result.Success?
    ensures var o := RegisterIntended(users, body, files, avatarUpload, coverUpload, newId);
      var l := LoginIntended(cfg, o.users, LoginBody(None, body.username, body.password), t1, t2);
      l.result.Success? && l.result.value.user == o.result.value
  {
    RegisterIntendedSuccess(users, body, files, avatarUpload, coverUpload, newId);
    var o := RegisterIntended(users, body, files, avatarUpload, coverUpload, newId);
    assert RequiredFields(body)[2] == body.username;
    assert Trim(body.username.value) != "";
    forall j | j in o.users && j != newId ensures !Matches(o.users[j], body.username, None) {
      assert o.users[j] == users[j];
      assert !Matches(users[j], body.username, body.email);
    }
    FindOneUnique(o.users, body.username, None, newId);
    var rec := o.users[newId];
    AwaitedHashChecks(rec, body.password.value, body.password.value);
    assert rec.(password := PreSaveAwaited(rec.password, Some(body.password.value))) == rec;
    LoginReachesIssuance(o.users, LoginBody(None, body.username, body.password), newId);
  }

  /**
   * A successful login as intended returns the found record's view, an access
   * token and a real refresh token for it, and stores only that refresh token.
   */
  lemma LoginIntendedSuccess(cfg: Config, users: Store, body: LoginBody, t1: nat, t2: nat)
    requires LoginIntended(cfg, users, body, t1, t2).result.Success?
    ensures var o := LoginIntended(cfg, users, body, t1, t2);
      var id := o.result.value.user.id;
      && LoginCheck(users, body) == Success(id)
      && o.users == users[id := users[id].(refreshToken := Some(GenerateRefreshToken(cfg, id, t2)))]
      && o.result.value == Session(View(id, users[id]), GenerateAccessToken(cfg, id, users[id], t1),
                                   GenerateRefreshToken(cfg, id, t2))
  {
  }

  /** Login that finds a record whose password checks passes on to issuance. */
  lemma LoginReachesIssuance(users: Store, body: LoginBody, id: Id)
    requires Truthy(body.username) || Truthy(body.email)
    requires FindOne(users, body.username, body.email) == Some(id)
    requires IsPasswordCorrect(users[id], body.password) == Success(true)
    ensures LoginCheck(users, body) == Success(id)
  {
  }

  /**
   * The refresh token a login hands out renews the session; the token it is
   * rotated to is the one now stored, and it renews in turn.
   */
  lemma LoginThenRefresh(cfg: Config, users: Store, body: LoginBody, t1: nat, t2: nat, t3: nat, t4: nat)
    requires LoginIntended(cfg, users, body, t1, t2).result.Success?
    ensures var o := LoginIntended(cfg, users, body, t1, t2);
      var id := o.result.value.user.id;
      var r := RefreshIntended(cfg, o.users, RefreshRequest(Some(o.result.value.refreshToken), None), t3, t4);
      && r.result.Success?
      && r.result.value.accessToken == GenerateAccessToken(cfg, id, o.users[id], t3)
      && r.result.value.refreshToken == Some(GenerateRefreshToken(cfg, id, t4))
      && r.users == o.users[id := o.users[id].(refreshToken := Some(GenerateRefreshToken(cfg, id, t4)))]
  {
    var o := LoginIntended(cfg, users, body, t1, t2);
    var id := LoginCheck(users, body).value;
    var req := RefreshRequest(Some(o.result.value.refreshToken), None);
    assert RefreshCheck(cfg, o.users, req) == Success(id);
  }

  /**
   * Rotation: once a refresh has stored a token from another second, the
   * token it was given is refused as used.
   */
  lemma RotatedTokenRejected(cfg: Config, users: Store, token: string, t1: nat, t2: nat, t3: nat, t4: nat)
    requires RefreshIntended(cfg, users, RefreshRequest(Some(token), None), t1, t2).result.Success?
    requires Jwt.Decode(token).value.issuedAt != t2
    ensures var o := RefreshIntended(cfg, users, RefreshRequest(Some(token), None), t1, t2);
      RefreshIntended(cfg, o.users, RefreshRequest(Some(token), None), t3, t4) == Fail(o.users, 401, RefreshReused)
  {
    var req := RefreshRequest(Some(token), None);
    var id := RefreshCheck(cfg, users, req).value;
    var o := RefreshIntended(cfg, users, req, t1, t2);
    var stored := GenerateRefreshToken(cfg, id, t2);
    assert o.users[id].refreshToken == Some(stored);
    assert Jwt.Decode(stored).value.issuedAt == t2;
    assert stored != token;
    assert RefreshCheck(cfg, o.users, req) == Failure(HttpError(401, RefreshReused));
  }

  /** After logout, the refresh token a login handed out is refused as used. */
  lemma LogoutRevokes(cfg: Config, users: Store, body: LoginBody, t1: nat, t2: nat, t3: nat, t4: nat)
    requires LoginIntended(cfg, users, body, t1, t2).result.Success?
    ensures var o := LoginIntended(cfg, users, body, t1, t2);
      var id := o.result.value.user.id;
      var out := Logout(o.users, id);
      RefreshIntended(cfg, out, RefreshRequest(Some(o.result.value.refreshToken), None), t3, t4)
        == Fail(out, 401, RefreshReused)
  {
    var o := LoginIntended(cfg, users, body, t1, t2);
    var id := LoginCheck(users, body).value;
    var out := Logout(o.users, id);
    var req := RefreshRequest(Some(o.result.value.refreshToken), None);
    assert RefreshCheck(cfg, out, req) == Failure(HttpError(401, RefreshReused));
  }
}
