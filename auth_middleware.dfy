/**
 * The bearer-token gate in front of protected routes
 * (backend/src/middleware/auth.ts).
 *
 * `Decide` is the gate's logic as a value: which response it writes, or the
 * identity it attaches before handing on.  `Exchange.Authenticate` performs
 * it on one request: it sets `user`, writes the response, or calls `next`.
 */
module AuthMiddleware {
  import opened Base
  import opened JsString
  import opened AppErrors
  import opened TokenService

  const BearerPrefix := "Bearer "
  const NoTokenMessage := "No token provided. Please authenticate."
  const BadFormatMessage := "Invalid token format. Please authenticate again."
  const AuthErrorMessage := "Invalid or expired token. Please authenticate again."

  /** What the gate's `try` block may throw while verifying. */
  datatype GateThrown = AppThrown(e: AppError) | OtherThrown

  /** The gate's verdict: hand on with an identity, or answer with an error. */
  datatype GateOutcome =
    | Proceed(user: TokenPayload)
    | Reject(status: int, message: string, code: Option<string>)

  /** The token part of a header that carries the exact, case-sensitive
      `Bearer ` scheme: the header minus its first seven characters. */
  function BearerToken(header: Option<string>): (t: Option<string>)
    ensures t.Some? <==> header.Some? && StartsWith(header.value, BearerPrefix)
    ensures t.Some? ==> header.value == BearerPrefix + t.value
  {
    if header.Some? && StartsWith(header.value, BearerPrefix) then
      Some(header.value[|BearerPrefix|..])
    else None
  }

  /** The gate's decision for a header, given how verification treats each
      token. */
  function Decide(header: Option<string>, verify: string -> Result<TokenPayload, GateThrown>): (g: GateOutcome)
    ensures BearerToken(header).None? ==> g == Reject(401, NoTokenMessage, Some("NO_TOKEN"))
    ensures BearerToken(header).Some? && Trim(BearerToken(header).value) == "" ==>
      g == Reject(401, BadFormatMessage, Some("INVALID_TOKEN_FORMAT"))
    ensures g.Proceed? <==>
      BearerToken(header).Some? && Trim(BearerToken(header).value) != "" && verify(BearerToken(header).value).Ok?
    ensures g.Proceed? ==> verify(BearerToken(header).value) == Ok(g.user)
    ensures forall e ::
      (BearerToken(header).Some? && Trim(BearerToken(header).value) != ""
       && verify(BearerToken(header).value) == Err(AppThrown(e)))
      ==> g == Reject(e.statusCode, e.message, e.code)
    ensures BearerToken(header).Some? && Trim(BearerToken(header).value) != ""
            && verify(BearerToken(header).value) == Err(OtherThrown) ==>
      g == Reject(401, AuthErrorMessage, Some("AUTH_ERROR"))
  {
    match BearerToken(header)
    case None => Reject(401, NoTokenMessage, Some("NO_TOKEN"))
    case Some(token) =>
      if token == "" || Trim(token) == "" then Reject(401, BadFormatMessage, Some("INVALID_TOKEN_FORMAT"))
      else
        match verify(token)
        case Ok(decoded) => Proceed(decoded)
        case Err(AppThrown(e)) => Reject(e.statusCode, e.message, e.code)
        case Err(OtherThrown) => Reject(401, AuthErrorMessage, Some("AUTH_ERROR"))
  }

  /** `verifyToken` as the gate calls it, over the library's verdict on each
      token. */
  function VerifyWith(jwt: string -> VerifyOutcome): string -> Result<TokenPayload, GateThrown> {
    t => match VerifyToken(jwt(t))
         case Ok(p) => Ok(p)
         case Err(e) => Err(AppThrown(e))
  }

  /** With the real `verifyToken` every rejection is a 401 with one of the
      five codes below: the `AUTH_ERROR` branch can never be taken, because
      `verifyToken` only ever throws application errors.  An identity handed
      on has a non-empty id and email. */
  lemma GateWithVerifyToken(header: Option<string>, jwt: string -> VerifyOutcome)
    ensures var g := Decide(header, VerifyWith(jwt));
      && (g.Reject? ==>
            (&& g.status == 401 && g.code != Some("AUTH_ERROR")
             && g.code in {Some("NO_TOKEN"), Some("INVALID_TOKEN_FORMAT"), Some("TOKEN_EXPIRED"),
                           Some("INVALID_TOKEN"), Some("TOKEN_VERIFICATION_ERROR")}))
      && (g.Proceed? ==> g.user.userId != "" && g.user.email != "")
  {
    var verify := VerifyWith(jwt);
    match BearerToken(header)
    case None =>
    case Some(token) =>
      if Trim(token) != "" {
        var r := VerifyToken(jwt(token));
        assert verify(token) == (if r.Ok? then Ok(r.value) else Err(AppThrown(r.error)));
        if r.Err? {
          var o := jwt(token);
          assert o.TokenExpiredError? || o.JsonWebTokenError? || o.OtherError? || o.Decoded?;
        }
      }
  }

  /** The scheme name is matched literally: `bearer`, in lower case, is
      treated as no token at all. */
  lemma SchemeIsCaseSensitive(t: string, verify: string -> Result<TokenPayload, GateThrown>)
    ensures Decide(Some("bearer " + t), verify) == Reject(401, NoTokenMessage, Some("NO_TOKEN"))
  {
    var h := "bearer " + t;
    assert h[0] != BearerPrefix[0];
    assert !StartsWith(h, BearerPrefix);
  }

  /** An error response as the gate writes it: `{ error: { message, code } }`. */
  datatype ErrorResponse = ErrorResponse(status: int, message: string, code: Option<string>)

  /** One request passing through the gate. */
  class Exchange {
    const authorization: Option<string>
    var user: Option<TokenPayload>
    var response: Option<ErrorResponse>
    var nextCalls: nat

    constructor (authorization: Option<string>)
      ensures this.authorization == authorization
      ensures user.None? && response.None? && nextCalls == 0
    {
      this.authorization := authorization;
      user := None;
      response := None;
      nextCalls := 0;
    }

    /** `authenticate(req, res, next)`: on success `user` is the verified
        payload and `next` is called exactly once; otherwise the error
        response is written and `next` is not called. */
    method Authenticate(verify: string -> Result<TokenPayload, GateThrown>)
      modifies this
      ensures var g := Decide(authorization, verify);
        && (g.Proceed? ==> user == Some(g.user) && nextCalls == old(nextCalls) + 1 && response == old(response))
        && (g.Reject? ==> user == old(user) && nextCalls == old(nextCalls)
                          && response == Some(ErrorResponse(g.status, g.message, g.code)))
    {
      var authHeader := authorization;
      if authHeader.None? || !StartsWith(authHeader.value, BearerPrefix) {
        response := Some(ErrorResponse(401, NoTokenMessage, Some("NO_TOKEN")));
        return;
      }
      var token := authHeader.value[7..];
      assert BearerToken(authorization) == Some(token);
      if token == "" || Trim(token) == "" {
        response := Some(ErrorResponse(401, BadFormatMessage, Some("INVALID_TOKEN_FORMAT")));
        return;
      }
      match verify(token)
      case Ok(decoded) =>
        user := Some(decoded);
        nextCalls := nextCalls + 1;
      case Err(AppThrown(e)) =>
        response := Some(ErrorResponse(e.statusCode, e.message, e.code));
      case Err(OtherThrown) =>
        response := Some(ErrorResponse(401, AuthErrorMessage, Some("AUTH_ERROR")));
    }
  }
}
