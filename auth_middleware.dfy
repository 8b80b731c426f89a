/** `verifyJWT`: the gate in front of authenticated routes. It takes the
    access token from the `accessToken` cookie or the `Authorization`
    header, verifies it with the access secret, resolves its `_id` to a
    stored user and attaches that user's public view to the request. */
module AuthMiddleware {
  import opened Wrappers
  import opened JsString
  import opened Oracles
  import opened ApiErrors
  import opened UserModel
  import opened UserCollection

  const BearerPrefix := "Bearer "
  const UnauthorizedRequest := "Unauthorized request"
  const UnknownUser := "Invalid Access Token"
  /** Used by the catch block when the caught error has no message. */
  const FallbackMessage := "Invalid access token"

  /** `req.cookies?.accessToken || req.header("Authorization")?.replace("Bearer ", "")`. */
  function ExtractToken(cookie: Option<string>, authorization: Option<string>): (token: Option<string>)
    ensures Truthy(cookie) ==> token == cookie
    ensures !Truthy(cookie) ==> (token.Some? <==> authorization.Some?)
  {
    if Truthy(cookie) then cookie
    else
      match authorization
      case None => None
      case Some(header) => Some(RemoveFirst(header, BearerPrefix))
  }

  /** The catch block: `new ApiError(401, error?.message || "Invalid access token")`. */
  function Rewrap(message: string): (e: ApiError)
    ensures e.statusCode == 401 && e.message != "" && !e.success && e.data.None? && e.errors == []
    ensures message != "" ==> e.message == message
  {
    NewApiError(401, Some(if message != "" then message else FallbackMessage), None)
  }

  /** What the try block throws or computes, already through the catch:
      the public view of the authenticated user, or the 401 to forward. */
  function Authenticate(token: Option<string>, users: seq<UserRecord>, jwt: JsonWebToken, accessSecret: string)
    : (verdict: Result<UserView, ApiError>)
    ensures verdict.Ok? ==>
      && Truthy(token) && jwt.verify(token.value, accessSecret).Ok?
      && FindById(users, jwt.verify(token.value, accessSecret).value.id).Some?
  {
    if !Truthy(token) then Err(Rewrap(NewApiError(401, Some(UnauthorizedRequest), None).message))
    else
      match jwt.verify(token.value, accessSecret)
      case Err(message) => Err(Rewrap(message))
      case Ok(decoded) =>
        match FindById(users, decoded.id)
        case None => Err(Rewrap(NewApiError(401, Some(UnknownUser), None).message))
        case Some(user) => Ok(Project(user))
  }

  // ---------------------------------------------------------------
  // Token extraction

  /** A truthy cookie wins over any header. */
  lemma CookieTakesPrecedence(cookie: string, authorization: Option<string>)
    requires cookie != ""
    ensures ExtractToken(Some(cookie), authorization) == Some(cookie)
  {
  }

  /** Otherwise a `Bearer <token>` header yields `<token>`. */
  lemma BearerHeaderYieldsToken(cookie: Option<string>, token: string)
    requires !Truthy(cookie)
    ensures ExtractToken(cookie, Some(BearerPrefix + token)) == Some(token)
  {
    RemoveFirstOfPrefix(BearerPrefix, token);
  }

  /** A header without "Bearer " anywhere passes through unchanged. */
  lemma HeaderWithoutBearerUnchanged(cookie: Option<string>, header: string)
    requires !Truthy(cookie)
    requires forall j :: 0 <= j <= |header| ==> !OccursAt(header, BearerPrefix, j)
    ensures ExtractToken(cookie, Some(header)) == Some(header)
  {
    RemoveFirstAbsent(header, BearerPrefix);
  }

  /** `replace` cuts the first "Bearer " wherever it stands, not only as
      a prefix. */
  lemma HeaderLosesFirstBearerAnywhere(cookie: Option<string>, header: string, i: nat)
    requires !Truthy(cookie)
    requires OccursAt(header, BearerPrefix, i)
    requires forall j :: 0 <= j < i ==> !OccursAt(header, BearerPrefix, j)
    ensures ExtractToken(cookie, Some(header)) == Some(header[..i] + header[i + |BearerPrefix|..])
  {
    RemoveFirstCutsFirstOccurrence(header, BearerPrefix, i);
  }

  // ---------------------------------------------------------------
  // The gate's verdicts

  /** No cookie and no header: 401 "Unauthorized request". */
  lemma NoTokenIsUnauthorized(cookie: Option<string>, users: seq<UserRecord>, jwt: JsonWebToken, accessSecret: string)
    requires !Truthy(cookie)
    ensures Authenticate(ExtractToken(cookie, None), users, jwt, accessSecret)
            == Err(NewApiError(401, Some(UnauthorizedRequest), None))
  {
  }

  /** A header that is just "Bearer " leaves an empty token: also 401
      "Unauthorized request". */
  lemma EmptyBearerIsUnauthorized(cookie: Option<string>, users: seq<UserRecord>, jwt: JsonWebToken, accessSecret: string)
    requires !Truthy(cookie)
    ensures Authenticate(ExtractToken(cookie, Some(BearerPrefix)), users, jwt, accessSecret)
            == Err(NewApiError(401, Some(UnauthorizedRequest), None))
  {
    BearerHeaderYieldsToken(cookie, "");
    assert BearerPrefix + "" == BearerPrefix;
  }

  /** Any verification failure (malformed, expired, bad signature) is a
      401 that carries the library's message, or "Invalid access token"
      when that message is empty. */
  lemma VerifyFailureIsUnauthorized(token: string, users: seq<UserRecord>, jwt: JsonWebToken, accessSecret: string)
    requires token != "" && jwt.verify(token, accessSecret).Err?
    ensures var m := jwt.verify(token, accessSecret).error;
      Authenticate(Some(token), users, jwt, accessSecret)
        == Err(NewApiError(401, Some(if m != "" then m else "Invalid access token"), None))
  {
  }

  /** A valid token whose `_id` names no stored user: 401 "Invalid Access Token". */
  lemma UnknownUserIsUnauthorized(token: string, users: seq<UserRecord>, jwt: JsonWebToken, accessSecret: string)
    requires token != "" && jwt.verify(token, accessSecret).Ok?
    requires forall u :: u in users ==> Some(u.id) != jwt.verify(token, accessSecret).value.id
    ensures Authenticate(Some(token), users, jwt, accessSecret)
            == Err(NewApiError(401, Some(UnknownUser), None))
  {
    var p := jwt.verify(token, accessSecret).value.id;
    if p.Some? {
      forall j | 0 <= j < |users| ensures users[j].id != p.value {
        assert users[j] in users;
      }
    }
  }

  /** Every failure is a 401 error envelope without payload or details,
      because the catch block rewraps whatever was thrown. */
  lemma EveryFailureIs401(token: Option<string>, users: seq<UserRecord>, jwt: JsonWebToken, accessSecret: string)
    requires Authenticate(token, users, jwt, accessSecret).Err?
    ensures var e := Authenticate(token, users, jwt, accessSecret).error;
      e.statusCode == 401 && !e.success && e.data == None && e.errors == [] && e.message != ""
  {
  }

  /** On success the attached user is the public view of the stored user
      named by the token's `_id`. */
  lemma SuccessIsStoredUser(token: Option<string>, users: seq<UserRecord>, jwt: JsonWebToken, accessSecret: string)
    requires Authenticate(token, users, jwt, accessSecret).Ok?
    ensures token.Some? && jwt.verify(token.value, accessSecret).Ok?
    ensures exists u :: u in users && Some(u.id) == jwt.verify(token.value, accessSecret).value.id &&
                        Authenticate(token, users, jwt, accessSecret).value == Project(u)
  {
    var decoded := jwt.verify(token.value, accessSecret).value;
    var u := FindById(users, decoded.id).value;
    assert u in users;
  }

  /** The gate never reads the stored password or refresh token: two
      collections that agree on everything else give the same verdict. */
  lemma GateIgnoresSecrets(token: Option<string>, a: seq<UserRecord>, b: seq<UserRecord>, jwt: JsonWebToken, accessSecret: string)
    requires SamePublicFields(a, b)
    ensures Authenticate(token, a, jwt, accessSecret) == Authenticate(token, b, jwt, accessSecret)
  {
    if Truthy(token) && jwt.verify(token.value, accessSecret).Ok? {
      FindByIdSeesPublicFieldsOnly(a, b, jwt.verify(token.value, accessSecret).value.id);
    }
  }

  /** An access token minted for a stored user, sent as the cookie or as a
      `Bearer` header, admits that user. */
  lemma IssuedAccessTokenAdmits(s: StoreState, u: UserRecord, jwt: JsonWebToken, cfg: TokenConfig, authorization: Option<string>)
    requires StoreValid(s) && u in s.users && RoundTrips(jwt)
    ensures var token := GenerateAccessToken(u, jwt, cfg);
      && Authenticate(ExtractToken(Some(token), authorization), s.users, jwt, cfg.accessSecret) == Ok(Project(u))
      && Authenticate(ExtractToken(None, Some(BearerPrefix + token)), s.users, jwt, cfg.accessSecret) == Ok(Project(u))
  {
    var token := GenerateAccessToken(u, jwt, cfg);
    TokensCarrySameClaims(u, jwt, cfg);
    BearerHeaderYieldsToken(None, token);
    FindByIdExact(s, u.id);
  }

  /** With distinct secrets a refresh token is refused at the gate,
      whether it is sent as the cookie or as a `Bearer` header. */
  lemma RefreshTokenRefused(u: UserRecord, users: seq<UserRecord>, jwt: JsonWebToken, cfg: TokenConfig, authorization: Option<string>)
    requires SecretBound(jwt) && RoundTrips(jwt)
    requires cfg.accessSecret != cfg.refreshSecret
    ensures var token := GenerateRefreshToken(u, jwt, cfg);
      && Authenticate(ExtractToken(Some(token), authorization), users, jwt, cfg.accessSecret).Err?
      && Authenticate(ExtractToken(None, Some(BearerPrefix + token)), users, jwt, cfg.accessSecret).Err?
  {
    var token := GenerateRefreshToken(u, jwt, cfg);
    BearerHeaderYieldsToken(None, token);
    TokensNotInterchangeable(u, jwt, cfg);
  }

  // ---------------------------------------------------------------
  // The middleware over a request object

  /** The parts of an Express request the gate reads and writes. */
  class Request {
    /** `req.cookies?.accessToken` */
    var accessTokenCookie: Option<string>
    /** `req.header("Authorization")` */
    var authorization: Option<string>
    /** `req.user` */
    var user: Option<UserView>

    constructor (accessTokenCookie: Option<string>, authorization: Option<string>)
      ensures this.accessTokenCookie == accessTokenCookie && this.authorization == authorization
      ensures user == None
    {
      this.accessTokenCookie := accessTokenCookie;
      this.authorization := authorization;
      user := None;
    }
  }

  /** How the middleware leaves: `next()` or, through `AsyncHandler`,
      `next(err)`. */
  datatype Next = Continue | Forward(error: ApiError)

  /** `verifyJWT(req, _, next)`: on success `req.user` is set and `next()`
      is called; on failure `req.user` is left alone and the 401 is
      forwarded. */
  method VerifyJwt(req: Request, store: UserStore, jwt: JsonWebToken, accessSecret: string) returns (next: Next)
    modifies req`user
    ensures var verdict := Authenticate(ExtractToken(req.accessTokenCookie, req.authorization), store.users, jwt, accessSecret);
      match verdict
      case Ok(view) => next == Continue && req.user == Some(view)
      case Err(e) => next == Forward(e) && req.user == old(req.user)
  {
    // The message of whatever the try block throws.
    var caught: Option<string> := None;
    var token := ExtractToken(req.accessTokenCookie, req.authorization);
    if !Truthy(token) {
      caught := Some(NewApiError(401, Some(UnauthorizedRequest), None).message);
    } else {
      var decodedToken := jwt.verify(token.value, accessSecret);
      if decodedToken.Err? {
        caught := Some(decodedToken.error);
      } else {
        var user := FindById(store.users, decodedToken.value.id);
        if user.None? {
          caught := Some(NewApiError(401, Some(UnknownUser), None).message);
        } else {
          req.user := Some(Project(user.value));
        }
      }
    }
    if caught.Some? {
      return Forward(Rewrap(caught.value));
    }
    next := Continue;
  }
}
