/**
 * Issuing and checking session tokens (backend/src/services/tokenService.ts).
 *
 * The `jsonwebtoken` library is not modelled: signing is a function given by
 * the caller (already bound to the clock) that yields a token or fails, and
 * verification is seen through the outcome the library reports for a token.
 */
module TokenService {
  import opened Base
  import opened AppErrors

  /** What a caller hands to `generateToken` and what `verifyToken` returns. */
  datatype TokenPayload = TokenPayload(userId: string, email: string, iat: Option<int>, exp: Option<int>)

  /** The object actually passed to `jwt.sign`. */
  datatype SignedClaims = SignedClaims(userId: string, email: string)

  /** `config.jwt`: the signing secret and the token lifetime (such as "7d"). */
  datatype JwtConfig = JwtConfig(secret: string, expiresIn: string)

  /** `jwt.sign(claims, secret, { expiresIn })`: a token, or `None` when the
      library throws. */
  type Signer = (SignedClaims, string, string) -> Option<string>

  /** The claims `generateToken` signs: only the user id and the email. */
  function ClaimsOf(p: TokenPayload): SignedClaims {
    SignedClaims(p.userId, p.email)
  }

  /** The one error `generateToken` throws: status 500, code
      `TOKEN_GENERATION_ERROR`, operational. */
  const TokenGenerationFailure := NewAppError("Failed to generate token", Some(500), Some("TOKEN_GENERATION_ERROR"))

  /** `generateToken`: the signed claims are the payload's user id and email,
      with the configured lifetime; any signing failure becomes
      `TokenGenerationFailure`. */
  function GenerateToken(sign: Signer, config: JwtConfig, payload: TokenPayload): (r: Result<string, AppError>)
    ensures r.Ok? <==> sign(ClaimsOf(payload), config.secret, config.expiresIn).Some?
    ensures r.Ok? ==> r.value == sign(SignedClaims(payload.userId, payload.email), config.secret, config.expiresIn).value
    ensures r.Err? ==> r.error == TokenGenerationFailure
  {
    match sign(ClaimsOf(payload), config.secret, config.expiresIn)
    case Some(token) => Ok(token)
    case None => Err(TokenGenerationFailure)
  }

  /** Any `iat` or `exp` the caller passes is dropped before signing. */
  lemma GenerateTokenIgnoresTimestamps(sign: Signer, config: JwtConfig, p: TokenPayload, iat: Option<int>, exp: Option<int>)
    ensures GenerateToken(sign, config, p) == GenerateToken(sign, config, p.(iat := iat, exp := exp))
  {
    assert ClaimsOf(p) == ClaimsOf(p.(iat := iat, exp := exp));
  }

  /** A decoded token body: the claims it holds, each possibly missing. */
  datatype DecodedPayload = DecodedPayload(userId: Option<string>, email: Option<string>, iat: Option<int>, exp: Option<int>)

  /** What `jwt.verify(token, secret)` does with a token: returns its body,
      throws a `TokenExpiredError`, throws another `JsonWebTokenError`
      (malformed token, bad signature, not yet valid), or throws something
      else. */
  datatype VerifyOutcome =
    | Decoded(payload: DecodedPayload)
    | TokenExpiredError
    | JsonWebTokenError
    | OtherError

  /** What the `try` block of `verifyToken` throws. */
  datatype Thrown = ThrownExpired | ThrownJwtError | ThrownApp(e: AppError) | ThrownOther

  predicate HasClaims(d: DecodedPayload) {
    d.userId.Some? && d.userId.value != "" && d.email.Some? && d.email.value != ""
  }

  /** The `try` block: the library call and the claims check. */
  function VerifyAttempt(outcome: VerifyOutcome): Result<TokenPayload, Thrown> {
    match outcome
    case Decoded(d) =>
      if !HasClaims(d) then Err(ThrownApp(NewAppError("Invalid token payload", Some(401), Some("INVALID_TOKEN"))))
      else Ok(TokenPayload(d.userId.value, d.email.value, d.iat, d.exp))
    case TokenExpiredError => Err(ThrownExpired)
    case JsonWebTokenError => Err(ThrownJwtError)
    case OtherError => Err(ThrownOther)
  }

  /** The `catch` block: only the two library error classes are told apart;
      everything else, the claims error thrown inside the `try` included,
      becomes `TOKEN_VERIFICATION_ERROR`. */
  function Classify(t: Thrown): AppError {
    match t
    case ThrownExpired => NewAppError("Token expired", Some(401), Some("TOKEN_EXPIRED"))
    case ThrownJwtError => NewAppError("Invalid token", Some(401), Some("INVALID_TOKEN"))
    case _ => NewAppError("Token verification failed", Some(401), Some("TOKEN_VERIFICATION_ERROR"))
  }

  /** `verifyToken`.  Every failure is a 401 operational error; the code names
      the library's verdict, and a signed token lacking `userId` or `email`
      ends up as `TOKEN_VERIFICATION_ERROR`, not `INVALID_TOKEN`, because the
      error raised for it is caught again.  A success carries the decoded
      claims, both non-empty. */
  function VerifyToken(outcome: VerifyOutcome): (r: Result<TokenPayload, AppError>)
    ensures r.Err? ==> r.error.statusCode == 401 && r.error.isOperational
    ensures r.Ok? <==> outcome.Decoded? && HasClaims(outcome.payload)
    ensures r.Ok? ==> r.value.userId != "" && r.value.email != ""
                      && Some(r.value.userId) == outcome.payload.userId
                      && Some(r.value.email) == outcome.payload.email
                      && r.value.iat == outcome.payload.iat && r.value.exp == outcome.payload.exp
    ensures r.Err? ==> (r.error.code == Some("TOKEN_EXPIRED") <==> outcome.TokenExpiredError?)
    ensures r.Err? ==> (r.error.code == Some("INVALID_TOKEN") <==> outcome.JsonWebTokenError?)
    ensures r.Err? ==> (r.error.code == Some("TOKEN_VERIFICATION_ERROR") <==> outcome.OtherError? || outcome.Decoded?)
  {
    match VerifyAttempt(outcome)
    case Ok(p) => Ok(p)
    case Err(t) => Err(Classify(t))
  }
}
