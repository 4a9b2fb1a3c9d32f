/**
 * The request gate `verifyJWT`: it takes the access token from the
 * `accessToken` cookie or else from the `Authorization` header, verifies it
 * under the access secret, resolves the user it names and attaches that user to
 * the request before passing it on. Every failure is rethrown as a 401.
 */
module AuthMiddleware {
  import opened Wrappers
  import opened Text
  import opened UserModel
  import opened ApiErrors
  import Jwt

  const UnauthorizedRequest := "Unauthorized Request"
  const InvalidAccessToken := "Invalid Access Token"
  const BearerPrefix := "Bearer "

  /** What the gate reads from a request: the cookie and the header, each possibly absent. */
  datatype AuthRequest = AuthRequest(accessCookie: Option<string>, authorization: Option<string>)

  /**
   * `req.cookies?.accessToken || req.header("Authorization")?.replace("Bearer ", "")`:
   * a truthy cookie wins; otherwise the header with its first "Bearer " removed,
   * or nothing when there is no header.
   */
  function ExtractToken(req: AuthRequest): Option<string> {
    if Truthy(req.accessCookie) then req.accessCookie
    else match req.authorization
      case None => None
      case Some(header) => Some(ReplaceFirst(header, BearerPrefix, ""))
  }

  /** The catch block: `new ApiError(401, error?.message || "Invalid Access Token")`. */
  function Rethrow(message: string): HttpError {
    HttpError(401, if message != "" then message else InvalidAccessToken)
  }

  /**
   * The gate's verdict on a request against the current store: the user to
   * attach, or the error it throws.
   */
  function Authenticate(cfg: Config, users: Store, req: AuthRequest): Result<PublicUser, HttpError> {
    var token := ExtractToken(req);
    if !Truthy(token) then Failure(Rethrow(UnauthorizedRequest))
    else match Jwt.Verify(token.value, cfg.accessSecret)
      case Failure(reason) => Failure(Rethrow(reason))
      case Success(claims) =>
        if claims.id !in users then Failure(Rethrow(InvalidAccessToken))
        else Success(View(claims.id, users[claims.id]))
  }

  // ---- token extraction ----

  /** A truthy cookie is the token, whatever the header says. */
  lemma CookieFirst(req: AuthRequest)
    requires Truthy(req.accessCookie)
    ensures ExtractToken(req) == req.accessCookie
  {
  }

  /** Without a usable cookie, "Bearer <t>" in the header yields exactly `t`. */
  lemma BearerHeaderStripped(cookie: Option<string>, t: string)
    requires !Truthy(cookie)
    ensures ExtractToken(AuthRequest(cookie, Some(BearerPrefix + t))) == Some(t)
  {
    var s := BearerPrefix + t;
    assert OccursAt(s, BearerPrefix, 0) by {
      assert s[0..|BearerPrefix|] == BearerPrefix;
    }
    assert s[..0] + "" + s[|BearerPrefix|..] == t;
  }

  /** A header with no "Bearer " anywhere in it is taken as the token unchanged. */
  lemma RawHeaderKept(cookie: Option<string>, header: string)
    requires !Truthy(cookie)
    requires forall j: nat :: !OccursAt(header, BearerPrefix, j)
    ensures ExtractToken(AuthRequest(cookie, Some(header))) == Some(header)
  {
  }

  // ---- the gate ----

  /** With no usable cookie and no header there is nothing to verify: 401. */
  lemma NoCredentials(cfg: Config, users: Store, cookie: Option<string>)
    requires !Truthy(cookie)
    ensures Authenticate(cfg, users, AuthRequest(cookie, None)) == Failure(HttpError(401, UnauthorizedRequest))
    ensures Authenticate(cfg, users, AuthRequest(cookie, Some(BearerPrefix))) == Failure(HttpError(401, UnauthorizedRequest))
  {
    BearerHeaderStripped(cookie, "");
    assert BearerPrefix + "" == BearerPrefix;
  }

  /** Every failure of the gate is a 401 with a message. */
  lemma FailuresAre401(cfg: Config, users: Store, req: AuthRequest)
    ensures Authenticate(cfg, users, req).Failure? ==>
              Authenticate(cfg, users, req).error.status == 401 && Authenticate(cfg, users, req).error.message != ""
  {
  }

  /**
   * The gate passes exactly when there is a token, it verifies under the access
   * secret, and the id it names is in the store; the user attached is then that
   * record's public view.
   */
  lemma SuccessIff(cfg: Config, users: Store, req: AuthRequest)
    ensures var token := ExtractToken(req);
      Authenticate(cfg, users, req).Success? <==>
        (Truthy(token) && Jwt.Verify(token.value, cfg.accessSecret).Success?
         && Jwt.Verify(token.value, cfg.accessSecret).value.id in users)
    ensures var token := ExtractToken(req);
      Authenticate(cfg, users, req).Success? ==>
        var id := Jwt.Verify(token.value, cfg.accessSecret).value.id;
        Authenticate(cfg, users, req).value == View(id, users[id])
  {
  }

  /** A token signed under any other secret is refused with the library's message. */
  lemma OtherSecretRejected(cfg: Config, users: Store, req: AuthRequest,
                            claims: Jwt.Claims, key: string, expiresIn: string, issuedAt: nat)
    requires ExtractToken(req) == Some(Jwt.Sign(claims, key, expiresIn, issuedAt))
    requires key != cfg.accessSecret
    ensures Authenticate(cfg, users, req) == Failure(HttpError(401, "invalid signature"))
  {
    Jwt.VerifySigned(claims, key, expiresIn, issuedAt, cfg.accessSecret);
  }

  /** A token that verifies but names an id the store does not hold is refused. */
  lemma UnknownUserRejected(cfg: Config, users: Store, req: AuthRequest, claims: Jwt.Claims,
                            expiresIn: string, issuedAt: nat)
    requires ExtractToken(req) == Some(Jwt.Sign(claims, cfg.accessSecret, expiresIn, issuedAt))
    requires claims.id !in users
    ensures Authenticate(cfg, users, req) == Failure(HttpError(401, InvalidAccessToken))
  {
    Jwt.VerifySigned(claims, cfg.accessSecret, expiresIn, issuedAt, cfg.accessSecret);
  }

  /**
   * An access token issued for `id` opens the gate, in the cookie or as a bearer
   * header, while `id` is in the store. The user attached is the record as it is
   * now, not as it was when the token was issued.
   */
  lemma AccessTokenAccepted(cfg: Config, users: Store, id: Id, issuedFor: UserRecord, issuedAt: nat,
                            header: Option<string>)
    requires id in users
    ensures var token := GenerateAccessToken(cfg, id, issuedFor, issuedAt);
      && Authenticate(cfg, users, AuthRequest(Some(token), header)) == Success(View(id, users[id]))
      && Authenticate(cfg, users, AuthRequest(None, Some(BearerPrefix + token))) == Success(View(id, users[id]))
  {
    var token := GenerateAccessToken(cfg, id, issuedFor, issuedAt);
    BearerHeaderStripped(None, token);
  }

  /** With the kinds configured apart, a refresh token never opens the gate. */
  lemma RefreshTokenRejected(cfg: Config, users: Store, id: Id, issuedAt: nat, header: Option<string>)
    requires SeparateKinds(cfg)
    ensures Authenticate(cfg, users, AuthRequest(Some(GenerateRefreshToken(cfg, id, issuedAt)), header))
         == Failure(HttpError(401, "invalid signature"))
  {
    CookieFirst(AuthRequest(Some(GenerateRefreshToken(cfg, id, issuedAt)), header));
    OtherSecretRejected(cfg, users, AuthRequest(Some(GenerateRefreshToken(cfg, id, issuedAt)), header),
                        Jwt.RefreshClaims(id), cfg.refreshSecret, cfg.refreshExpiry, issuedAt);
  }

  /** The gate reads no stored refresh token: changing only those leaves every verdict as it was. */
  lemma IgnoresStoredRefreshTokens(cfg: Config, users: Store, users': Store, req: AuthRequest)
    requires users.Keys == users'.Keys
    requires forall id :: id in users ==> users'[id] == users[id].(refreshToken := users'[id].refreshToken)
    ensures Authenticate(cfg, users', req) == Authenticate(cfg, users, req)
  {
  }

  // ---- the request object ----

  /** An incoming request: what the gate reads, and what it sets. */
  class Request {
    const accessCookie: Option<string>
    const authorization: Option<string>
    /** `req.user`, once the gate has attached it. */
    var user: Option<PublicUser>
    /** Whether `next()` has been called. */
    var forwarded: bool

    constructor(accessCookie: Option<string>, authorization: Option<string>)
      ensures this.accessCookie == accessCookie && this.authorization == authorization
      ensures user == None && !forwarded
    {
      this.accessCookie := accessCookie;
      this.authorization := authorization;
      user := None;
      forwarded := false;
    }

    function Credentials(): AuthRequest {
      AuthRequest(accessCookie, authorization)
    }
  }

  /**
   * `verifyJWT` against the current store: on success the request carries the
   * user and is passed on; on failure the error is returned and the request is
   * left as it was.
   */
  method VerifyJwt(cfg: Config, users: Store, req: Request) returns (failure: Option<HttpError>)
    modifies req
    ensures var verdict := Authenticate(cfg, users, req.Credentials());
      match verdict
      case Success(u) => failure == None && req.user == Some(u) && req.forwarded
      case Failure(e) => failure == Some(e) && req.user == old(req.user) && req.forwarded == old(req.forwarded)
  {
    var token := ExtractToken(req.Credentials());
    if !Truthy(token) {
      return Some(Rethrow(UnauthorizedRequest));
    }
    var decoded := Jwt.Verify(token.value, cfg.accessSecret);
    if decoded.Failure? {
      return Some(Rethrow(decoded.error));
    }
    var id := decoded.value.id;
    if id !in users {
      return Some(Rethrow(InvalidAccessToken));
    }
    req.user := Some(View(id, users[id]));
    req.forwarded := true;
    return None;
  }
}
