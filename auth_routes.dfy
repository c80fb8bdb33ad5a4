/**
 * The authentication endpoints (backend/src/routes/auth.ts): each validates
 * the request body, calls the service, and turns its result or its thrown
 * error into a status and a JSON body.  The rate limiters in front of the
 * routes are not part of this model.
 */
module AuthRoutes {
  import opened Base
  import opened JsString
  import opened TokenService
  import opened UserModel
  import opened AuthValidator
  import Svc = AuthService

  const ValidationFailedMessage := "Validation failed"
  const RegisteredMessage := "User registered successfully"
  const LoggedInMessage := "Login successful"
  const PasswordResetMessage := "Password reset successful"
  const NotAuthenticatedMessage := "User not authenticated"
  const UserNotFoundMessage := "User not found"

  /** The JSON bodies the routes send. */
  datatype Body =
    | ValidationFailed(errors: seq<string>)     // { error: { message: "Validation failed", errors } }
    | ErrorMessage(message: string)             // { error: { message } }
    | Authenticated(message: string, user: Svc.PublicUser, token: string)
    | Notice(message: string)                   // { message }
    | CurrentUser(user: Svc.PublicUser)         // { user }

  datatype Response = Response(status: int, body: Body)

  /** `err.message || fallback`. */
  function MessageOr(message: string, fallback: string): string {
    if message != "" then message else fallback
  }

  /** A field of the JSON body as the service receives it once validation has
      passed; validation guarantees it is present. */
  function OrEmpty(field: Option<string>): string {
    if field.Some? then field.value else ""
  }

  function RegisterDataOf(b: RegisterBody): Svc.RegisterData {
    Svc.RegisterData(OrEmpty(b.name), OrEmpty(b.email), OrEmpty(b.password))
  }

  function LoginDataOf(b: LoginBody): Svc.LoginData {
    Svc.LoginData(OrEmpty(b.email), OrEmpty(b.password))
  }

  /** The response to a service call that yields a user and a token. */
  function AuthReply(r: Result<Svc.AuthResult, Svc.Failure>, okStatus: int, okMessage: string,
                     errStatus: int, fallback: string): Response
  {
    match r
    case Ok(a) => Response(okStatus, Authenticated(okMessage, a.user, a.token))
    case Err(f) => Response(errStatus, ErrorMessage(MessageOr(Svc.FailureMessage(f), fallback)))
  }

  function RegisterReply(r: Result<Svc.AuthResult, Svc.Failure>): Response {
    AuthReply(r, 201, RegisteredMessage, 400, "Registration failed")
  }

  function LoginReply(r: Result<Svc.AuthResult, Svc.Failure>): Response {
    AuthReply(r, 200, LoggedInMessage, 401, "Login failed")
  }

  function ResetReply(r: Result<Svc.AuthResult, Svc.Failure>): Response {
    AuthReply(r, 200, PasswordResetMessage, 400, "Password reset failed")
  }

  /** Each endpoint's status depends only on whether the service succeeded,
      and a refusal carries the service's own message, or the endpoint's
      fallback when that message is empty. */
  lemma ReplyStatuses(r: Result<Svc.AuthResult, Svc.Failure>)
    ensures RegisterReply(r).status == (if r.Ok? then 201 else 400)
    ensures LoginReply(r).status == (if r.Ok? then 200 else 401)
    ensures ResetReply(r).status == (if r.Ok? then 200 else 400)
    ensures r.Ok? ==> LoginReply(r).body.Authenticated? && LoginReply(r).body.user == r.value.user
                      && LoginReply(r).body.token == r.value.token
    ensures r.Err? && Svc.FailureMessage(r.error) != "" ==>
      && RegisterReply(r).body == ErrorMessage(Svc.FailureMessage(r.error))
      && LoginReply(r).body == ErrorMessage(Svc.FailureMessage(r.error))
      && ResetReply(r).body == ErrorMessage(Svc.FailureMessage(r.error))
    ensures r.Err? && Svc.FailureMessage(r.error) == "" ==>
      && RegisterReply(r).body == ErrorMessage("Registration failed")
      && LoginReply(r).body == ErrorMessage("Login failed")
      && ResetReply(r).body == ErrorMessage("Password reset failed")
  {
  }

  /** The login endpoint answers an unknown email and a wrong password with
      the very same response, so it does not tell which accounts exist. */
  lemma LoginRefusalsLookAlike(users1: seq<User>, data1: Svc.LoginData, users2: seq<User>, data2: Svc.LoginData,
                               compare: (string, string) -> bool, sign: Signer, config: JwtConfig)
    requires forall i :: 0 <= i < |users1| ==> users1[i].email != data1.email
    requires FindOne(users2, ByEmail(data2.email)).Some?
    requires var u := users2[FindOne(users2, ByEmail(data2.email)).value];
      Truthy(u.password) && !compare(data2.password, u.password.value)
    ensures LoginReply(Svc.Login(users1, data1, compare, sign, config))
         == LoginReply(Svc.Login(users2, data2, compare, sign, config))
    ensures LoginReply(Svc.Login(users1, data1, compare, sign, config)).status == 401
  {
    assert FindOne(users1, ByEmail(data1.email)).None?;
  }

  // ------------------------------------------------------------ GET /me

  /** What the driver throws when a lookup by id gets a string that is not
      an id. */
  function CastErrorMessage(value: string): string {
    "Cast to ObjectId failed for value \"" + value + "\" (type string) at path \"_id\" for model \"User\""
  }

  /** `GET /me` behind the gate: 401 without an identity, 500 when its user
      id is not an id at all, 404 when no record has that id, and otherwise
      the record's public fields. */
  function MeResponse(users: seq<User>, identity: Option<TokenPayload>): (resp: Response)
    ensures resp.status == 401 <==> identity.None? || identity.value.userId == ""
    ensures resp.status == 500 <==>
      identity.Some? && identity.value.userId != "" && CastObjectId(identity.value.userId).None?
    ensures resp.status == 404 <==>
      && identity.Some? && identity.value.userId != "" && CastObjectId(identity.value.userId).Some?
      && forall i :: 0 <= i < |users| ==> users[i].id != CastObjectId(identity.value.userId).value
    ensures resp.status == 200 ==>
      exists i :: 0 <= i < |users| && Some(users[i].id) == CastObjectId(identity.value.userId)
                  && resp.body == CurrentUser(Svc.PublicView(users[i]))
    ensures resp.status in {200, 401, 404, 500}
  {
    if identity.None? || identity.value.userId == "" then
      Response(401, ErrorMessage(NotAuthenticatedMessage))
    else
      match CastObjectId(identity.value.userId)
      case None => Response(500, ErrorMessage(CastErrorMessage(identity.value.userId)))
      case Some(id) =>
        match FindOne(users, ById(id))
        case None => Response(404, ErrorMessage(UserNotFoundMessage))
        case Some(i) => Response(200, CurrentUser(Svc.PublicView(users[i])))
  }

  /** The user id a token was issued with leads `/me` back to the same
      record. */
  lemma {:induction false} MeFindsTokenHolder(users: seq<User>, i: nat, identity: TokenPayload)
    requires StoreInvariant(users) && i < |users|
    requires identity.userId == IdString(users[i].id)
    ensures MeResponse(users, Some(identity)) == Response(200, CurrentUser(Svc.PublicView(users[i])))
  {
    IdStringRoundTrip(users[i].id);
    FindById(users, i);
    assert identity.userId != "" by {
      assert |identity.userId| == ObjectIdHexLength;
    }
  }

  /** After a successful login, `/me` with the identity the token carries
      shows the same user the login returned. */
  lemma MeAfterLogin(users: seq<User>, data: Svc.LoginData, compare: (string, string) -> bool,
                     sign: Signer, config: JwtConfig, identity: TokenPayload)
    requires StoreInvariant(users)
    requires Svc.Login(users, data, compare, sign, config).Ok?
    requires identity.userId == Svc.Login(users, data, compare, sign, config).value.user.id
    ensures MeResponse(users, Some(identity)) == Response(200, CurrentUser(Svc.Login(users, data, compare, sign, config).value.user))
  {
    var i := FindOne(users, ByEmail(data.email)).value;
    assert Svc.Login(users, data, compare, sign, config) == Svc.Issue(sign, config, users[i]);
    MeFindsTokenHolder(users, i, identity);
  }

  // ------------------------------------------------------------ the routes

  /** `POST /register`. */
  method PostRegister(svc: Svc.AuthService, body: RegisterBody, salt: string, newId: ObjectId)
    returns (resp: Response)
    requires svc.Valid()
    modifies svc
    ensures svc.Valid()
    ensures RegisterErrors(body) != [] ==>
      && resp == Response(400, ValidationFailed(Texts(RegisterErrors(body))))
      && svc.users == old(svc.users) && svc.outbox == old(svc.outbox)
    ensures RegisterErrors(body) == [] ==>
      var data := RegisterDataOf(body);
      var s := Svc.Register(old(svc.users), old(svc.outbox), data, svc.crypto.bcryptHash(data.password, salt),
                            newId, svc.sign, svc.jwtConfig);
      svc.users == s.users && svc.outbox == s.outbox && resp == RegisterReply(s.result)
  {
    var validation := ValidateRegister(body);
    if !validation.isValid {
      return Response(400, ValidationFailed(Texts(validation.errors)));
    }
    var result := svc.RegisterUser(RegisterDataOf(body), salt, newId);
    resp := RegisterReply(result);
  }

  /** `POST /login`: reads the collection only. */
  method PostLogin(svc: Svc.AuthService, body: LoginBody) returns (resp: Response)
    ensures LoginErrors(body) != [] ==> resp == Response(400, ValidationFailed(Texts(LoginErrors(body))))
    ensures LoginErrors(body) == [] ==>
      resp == LoginReply(Svc.Login(svc.users, LoginDataOf(body), svc.crypto.bcryptCompare, svc.sign, svc.jwtConfig))
  {
    var validation := ValidateLogin(body);
    if !validation.isValid {
      return Response(400, ValidationFailed(Texts(validation.errors)));
    }
    var result := svc.LoginUser(LoginDataOf(body));
    resp := LoginReply(result);
  }

  /** `POST /forgot-password`: a valid body always gets the same answer,
      whether or not the email belongs to an account. */
  method PostForgotPassword(svc: Svc.AuthService, body: ForgotPasswordBody, secret: string, now: int)
    returns (resp: Response)
    requires svc.Valid()
    modifies svc
    ensures svc.Valid()
    ensures ForgotPasswordErrors(body) != [] ==>
      && resp == Response(400, ValidationFailed(Texts(ForgotPasswordErrors(body))))
      && svc.users == old(svc.users) && svc.outbox == old(svc.outbox)
    ensures ForgotPasswordErrors(body) == [] ==>
      && resp == Response(200, Notice(Svc.ForgotPasswordMessage))
      && var s := Svc.Forgot(old(svc.users), old(svc.outbox), OrEmpty(body.email), secret,
                             svc.crypto.sha256Hex(secret), now);
         svc.users == s.users && svc.outbox == s.outbox
  {
    var validation := ValidateForgotPassword(body);
    if !validation.isValid {
      return Response(400, ValidationFailed(Texts(validation.errors)));
    }
    var message := svc.ForgotPassword(OrEmpty(body.email), secret, now);
    resp := Response(200, Notice(message));
  }

  /** `POST /reset-password`. */
  method PostResetPassword(svc: Svc.AuthService, body: ResetPasswordBody, salt: string, now: int)
    returns (resp: Response)
    requires svc.Valid()
    modifies svc
    ensures svc.Valid()
    ensures ResetPasswordErrors(body) != [] ==>
      && resp == Response(400, ValidationFailed(Texts(ResetPasswordErrors(body))))
      && svc.users == old(svc.users) && svc.outbox == old(svc.outbox)
    ensures ResetPasswordErrors(body) == [] ==>
      var s := Svc.Reset(old(svc.users), old(svc.outbox), svc.crypto.sha256Hex(OrEmpty(body.token)),
                         svc.crypto.bcryptHash(OrEmpty(body.password), salt), now, svc.sign, svc.jwtConfig);
      svc.users == s.users && svc.outbox == s.outbox && resp == ResetReply(s.result)
  {
    var validation := ValidateResetPassword(body);
    if !validation.isValid {
      return Response(400, ValidationFailed(Texts(validation.errors)));
    }
    var result := svc.ResetPassword(OrEmpty(body.token), OrEmpty(body.password), salt, now);
    resp := ResetReply(result);
  }

  /** `GET /me`, given the identity the gate attached. */
  method GetMe(svc: Svc.AuthService, identity: Option<TokenPayload>) returns (resp: Response)
    ensures resp == MeResponse(svc.users, identity)
  {
    if identity.None? || identity.value.userId == "" {
      return Response(401, ErrorMessage(NotAuthenticatedMessage));
    }
    var id := CastObjectId(identity.value.userId);
    if id.None? {
      return Response(500, ErrorMessage(CastErrorMessage(identity.value.userId)));
    }
    var found := FindOne(svc.users, ById(id.value));
    if found.None? {
      return Response(404, ErrorMessage(UserNotFoundMessage));
    }
    var user := svc.users[found.value];
    resp := Response(200, CurrentUser(Svc.PublicView(user)));
  }
}
