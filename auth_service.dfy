/**
 * Registration, login, password reset and Google sign-in
 * (backend/src/services/authService.ts) as state transitions of a user
 * collection.
 *
 * bcrypt, SHA-256 and JWT signing are functions the service is built with;
 * the random inputs (bcrypt salt, reset secret, new document id) and the
 * clock are parameters of the operations.  Emails are sent without waiting
 * and their failures are only logged, so a send is recorded in `outbox` and
 * never affects a result.
 */
module AuthService {
  import opened Base
  import opened JsString
  import opened AppErrors
  import opened TokenService
  import opened UserModel

  /** One hour, in milliseconds. */
  const ResetTokenLifetime := 3600000

  const ForgotPasswordMessage := "If an account exists, a password reset email has been sent"

  /** The hash functions the service calls. */
  datatype Crypto = Crypto(
    bcryptHash: (string, string) -> string,
    bcryptCompare: (string, string) -> bool,
    sha256Hex: string -> string)

  /** The one property of bcrypt the model relies on: a hash is sixty
      characters long and verifies against the password it was made from. */
  ghost predicate BcryptSound(c: Crypto) {
    forall p, salt :: |c.bcryptHash(p, salt)| == 60 && c.bcryptCompare(p, c.bcryptHash(p, salt))
  }

  datatype RegisterData = RegisterData(name: string, email: string, password: string)
  datatype LoginData = LoginData(email: string, password: string)

  /** The user as every success payload shows it. */
  datatype PublicUser = PublicUser(id: string, name: string, email: string, isEmailVerified: bool)

  function PublicView(u: User): PublicUser {
    PublicUser(IdString(u.id), u.name, u.email, u.isEmailVerified)
  }

  datatype AuthResult = AuthResult(user: PublicUser, token: string)

  /** Why an operation throws. */
  datatype Failure =
    | RegistrationFailed
    | InvalidCredentials
    | GoogleOnlyAccount
    | InvalidResetToken
    | StoreRejected(error: StoreError)
    | TokenNotIssued(appError: AppError)

  /** The thrown error's `message`.  A store error's text stands for the
      start of the database driver's message. */
  function FailureMessage(f: Failure): string {
    match f
    case RegistrationFailed => "Registration failed. Please try again."
    case InvalidCredentials => "Invalid email or password"
    case GoogleOnlyAccount => "Please sign in with Google or set a password"
    case InvalidResetToken => "Invalid or expired reset token"
    case StoreRejected(ValidationError) => "User validation failed"
    case StoreRejected(DuplicateKey) => "E11000 duplicate key error"
    case TokenNotIssued(e) => e.message
  }

  /** A send the service starts and does not wait for. */
  datatype Mail = WelcomeMail(to: string, name: string) | ResetMail(to: string, secret: string)

  // ------------------------------------------------------------ record updates

  /** A new reset secret's digest and expiry, replacing any earlier pair. */
  function WithResetToken(u: User, digest: string, expires: int): User {
    u.(resetPasswordToken := Some(digest), resetPasswordExpires := Some(expires))
  }

  /** A consumed reset: the new password hash in place, both reset fields cleared. */
  function Consumed(u: User, passwordHash: string): User {
    u.(password := Some(passwordHash), resetPasswordToken := None, resetPasswordExpires := None)
  }

  /** The payload every operation returns for a user: the public view and a
      token whose signed claims are the user's id string and stored email. */
  function Issue(sign: Signer, config: JwtConfig, u: User): (r: Result<AuthResult, Failure>)
    ensures r.Ok? <==> sign(SignedClaims(IdString(u.id), u.email), config.secret, config.expiresIn).Some?
    ensures r.Ok? ==> (r.value.user == PublicView(u)
      && Some(r.value.token) == sign(SignedClaims(IdString(u.id), u.email), config.secret, config.expiresIn))
    ensures r.Err? ==> r.error == TokenNotIssued(TokenGenerationFailure)
  {
    match GenerateToken(sign, config, TokenPayload(IdString(u.id), u.email, None, None))
    case Ok(token) => Ok(AuthResult(PublicView(u), token))
    case Err(e) => Err(TokenNotIssued(e))
  }

  /** The collection and the mails sent after an operation, with its result. */
  datatype Step<R> = Step(users: seq<User>, outbox: seq<Mail>, result: R)

  // ------------------------------------------------------------ registerUser

  /** `registerUser` on a collection, given the password's bcrypt hash. */
  function Register(users: seq<User>, outbox: seq<Mail>, data: RegisterData, passwordHash: string,
                    newId: ObjectId, sign: Signer, config: JwtConfig): Step<Result<AuthResult, Failure>>
  {
    if FindOne(users, ByEmail(data.email)).Some? then Step(users, outbox, Err(RegistrationFailed))
    else
      match Create(users, NewUser(data.name, data.email, Some(passwordHash), None, Some(false)), newId)
      case Err(e) => Step(users, outbox, Err(StoreRejected(e)))
      case Ok(u) => Step(users + [u], outbox + [WelcomeMail(data.email, data.name)], Issue(sign, config, u))
  }

  /** An email already stored, as given, is refused with the generic
      message, and nothing changes. */
  lemma RegisterRefusesKnownEmail(users: seq<User>, outbox: seq<Mail>, data: RegisterData, passwordHash: string,
                                  newId: ObjectId, sign: Signer, config: JwtConfig)
    requires exists i :: 0 <= i < |users| && users[i].email == data.email
    ensures Register(users, outbox, data, passwordHash, newId, sign, config) == Step(users, outbox, Err(RegistrationFailed))
  {
    var i :| 0 <= i < |users| && users[i].email == data.email;
    assert Matches(users[i], ByEmail(data.email));
  }

  /** Every refusal except a signing failure leaves the collection and the
      mails as they were. */
  lemma RegisterRefusalKeepsState(users: seq<User>, outbox: seq<Mail>, data: RegisterData, passwordHash: string,
                                  newId: ObjectId, sign: Signer, config: JwtConfig)
    ensures var s := Register(users, outbox, data, passwordHash, newId, sign, config);
      s.result.Err? && !s.result.error.TokenNotIssued? ==> s.users == users && s.outbox == outbox
  {
  }

  /** The store refuses a duplicate only when the new id or the normalised
      email is already taken. */
  lemma RegisterDuplicateMeansTaken(users: seq<User>, outbox: seq<Mail>, data: RegisterData, passwordHash: string,
                                    newId: ObjectId, sign: Signer, config: JwtConfig)
    requires Register(users, outbox, data, passwordHash, newId, sign, config).result == Err(StoreRejected(DuplicateKey))
    ensures exists j :: 0 <= j < |users| && (users[j].id == newId || users[j].email == NormaliseEmail(data.email))
  {
    var doc := NewUser(data.name, data.email, Some(passwordHash), None, Some(false));
    assert Create(users, doc, newId) == Err(DuplicateKey);
    var p := Prepare(doc, newId);
    assert Collides(users, p);
    var j :| 0 <= j < |users| && (users[j].id == p.id || users[j].email == p.email);
    assert p.id == newId && p.email == NormaliseEmail(data.email);
  }

  /** A registration that stores a user appends exactly one record: the new
      id, the trimmed name, the normalised email, the password hash,
      `isEmailVerified` false, and no Google id or reset digest and expiry;
      it sends one welcome mail, and the user can
      then be found by the normalised email.  A success always stores. */
  lemma RegisterAppends(users: seq<User>, outbox: seq<Mail>, data: RegisterData, passwordHash: string,
                        newId: ObjectId, sign: Signer, config: JwtConfig)
    requires StoreInvariant(users)
    ensures var s := Register(users, outbox, data, passwordHash, newId, sign, config);
      && StoreInvariant(s.users)
      && (s.result.Ok? ==> s.users != users)
      && (s.users != users ==>
            && |s.users| == |users| + 1 && s.users[..|users|] == users
            && s.users[|users|].id == newId && s.users[|users|].name == Trim(data.name)
            && s.users[|users|].email == NormaliseEmail(data.email)
            && s.users[|users|].password == Some(passwordHash) && !s.users[|users|].isEmailVerified
            && s.users[|users|].googleId.None?
            && s.users[|users|].resetPasswordToken.None? && s.users[|users|].resetPasswordExpires.None?
            && s.outbox == outbox + [WelcomeMail(data.email, data.name)]
            && FindOne(s.users, ByEmail(NormaliseEmail(data.email))) == Some(|users|)
            && (s.result.Ok? ==> s.result.value.user == PublicView(s.users[|users|]))
            && (s.result.Ok? ==>
                  Some(s.result.value.token)
                  == sign(SignedClaims(IdString(newId), NormaliseEmail(data.email)), config.secret, config.expiresIn)))
  {
    var s := Register(users, outbox, data, passwordHash, newId, sign, config);
    var doc := NewUser(data.name, data.email, Some(passwordHash), None, Some(false));
    if FindOne(users, ByEmail(data.email)).None? && Create(users, doc, newId).Ok? {
      var u := Create(users, doc, newId).value;
      AppendPreservesInvariant(users, u);
      assert s.users == users + [u];
      assert s.users[..|users|] == users;
      FindByStoredEmail(s.users, |users|);
    }
  }

  /** A registration whose email is free and whose document the store
      accepts always stores the record and sends the welcome mail; it then
      succeeds exactly when a token can be signed for the new id and the
      normalised email. */
  lemma RegisterStoresWhenFree(users: seq<User>, outbox: seq<Mail>, data: RegisterData, passwordHash: string,
                               newId: ObjectId, sign: Signer, config: JwtConfig)
    requires forall i :: 0 <= i < |users| ==> users[i].email != data.email
    requires Create(users, NewUser(data.name, data.email, Some(passwordHash), None, Some(false)), newId).Ok?
    ensures var s := Register(users, outbox, data, passwordHash, newId, sign, config);
      && s.users == users + [Create(users, NewUser(data.name, data.email, Some(passwordHash), None, Some(false)), newId).value]
      && s.outbox == outbox + [WelcomeMail(data.email, data.name)]
      && (s.result.Ok? <==>
            sign(SignedClaims(IdString(newId), NormaliseEmail(data.email)), config.secret, config.expiresIn).Some?)
  {
    assert FindOne(users, ByEmail(data.email)).None?;
    var u := Create(users, NewUser(data.name, data.email, Some(passwordHash), None, Some(false)), newId).value;
    var s := Register(users, outbox, data, passwordHash, newId, sign, config);
    assert s == Step(users + [u], outbox + [WelcomeMail(data.email, data.name)], Issue(sign, config, u));
    assert u.id == newId && u.email == NormaliseEmail(data.email);
  }

  lemma RegisterPreservesInvariant(users: seq<User>, outbox: seq<Mail>, data: RegisterData, passwordHash: string,
                        newId: ObjectId, sign: Signer, config: JwtConfig)
    requires StoreInvariant(users)
    ensures StoreInvariant(Register(users, outbox, data, passwordHash, newId, sign, config).users)
  {
    var doc := NewUser(data.name, data.email, Some(passwordHash), None, Some(false));
    if FindOne(users, ByEmail(data.email)).None? && Create(users, doc, newId).Ok? {
      AppendPreservesInvariant(users, Create(users, doc, newId).value);
    }
  }

  // ------------------------------------------------------------ loginUser

  /** `loginUser`: the first record with the given email, if it has a
      password the given one verifies against. */
  function Login(users: seq<User>, data: LoginData, compare: (string, string) -> bool,
                 sign: Signer, config: JwtConfig): Result<AuthResult, Failure>
  {
    match FindOne(users, ByEmail(data.email))
    case None => Err(InvalidCredentials)
    case Some(i) =>
      if !Truthy(users[i].password) then Err(GoogleOnlyAccount)
      else if !compare(data.password, users[i].password.value) then Err(InvalidCredentials)
      else Issue(sign, config, users[i])
  }

  /** A login succeeds exactly for the first record holding the email when it
      has a password that verifies and a token can be signed; it then returns
      that record's public view and a token signed over its id string and
      stored email.  An unknown email is refused with the generic message. */
  lemma LoginSucceedsOnlyWithPassword(users: seq<User>, data: LoginData, compare: (string, string) -> bool,
                                      sign: Signer, config: JwtConfig)
    ensures var r := Login(users, data, compare, sign, config);
      && (r.Ok? <==> exists i :: && 0 <= i < |users| && users[i].email == data.email
                                 && (forall j :: 0 <= j < i ==> users[j].email != data.email)
                                 && Truthy(users[i].password) && compare(data.password, users[i].password.value)
                                 && sign(SignedClaims(IdString(users[i].id), users[i].email),
                                         config.secret, config.expiresIn).Some?)
      && ((forall i :: 0 <= i < |users| ==> users[i].email != data.email) ==> r == Err(InvalidCredentials))
  {
    var r := Login(users, data, compare, sign, config);
    var found := FindOne(users, ByEmail(data.email));
    if found.Some? {
      var i := found.value;
      assert forall j :: 0 <= j < i ==> !Matches(users[j], ByEmail(data.email));
      if r.Ok? {
        assert r == Issue(sign, config, users[i]);
      }
    }
  }

  /** What a successful login returns: the public view of a record holding
      the email, and a token whose signed claims are that record's id string
      and stored email. */
  lemma LoginReturnsTokenHolder(users: seq<User>, data: LoginData, compare: (string, string) -> bool,
                                sign: Signer, config: JwtConfig)
    ensures var r := Login(users, data, compare, sign, config);
      r.Ok? ==> exists i :: && 0 <= i < |users| && users[i].email == data.email
                            && r.value.user == PublicView(users[i])
                            && Some(r.value.token) == sign(SignedClaims(IdString(users[i].id), users[i].email),
                                                           config.secret, config.expiresIn)
  {
    var r := Login(users, data, compare, sign, config);
    if r.Ok? {
      var i := FindOne(users, ByEmail(data.email)).value;
      assert r == Issue(sign, config, users[i]);
    }
  }

  /** The three refusals: an unknown email and a wrong password both get
      `Invalid email or password`; a record without a password gets the
      distinct Google message instead. */
  lemma LoginRefusals(users: seq<User>, data: LoginData, compare: (string, string) -> bool,
                      sign: Signer, config: JwtConfig)
    ensures FindOne(users, ByEmail(data.email)).None? ==>
      Login(users, data, compare, sign, config) == Err(InvalidCredentials)
    ensures FindOne(users, ByEmail(data.email)).Some? ==>
      var u := users[FindOne(users, ByEmail(data.email)).value];
      && (!Truthy(u.password) ==> Login(users, data, compare, sign, config) == Err(GoogleOnlyAccount))
      && (Truthy(u.password) && !compare(data.password, u.password.value) ==>
            Login(users, data, compare, sign, config) == Err(InvalidCredentials))
    ensures FailureMessage(GoogleOnlyAccount) != FailureMessage(InvalidCredentials)
  {
    assert |FailureMessage(InvalidCredentials)| == 25;
    assert |FailureMessage(GoogleOnlyAccount)| == 44;
  }

  /** A user who registered with a password can log in with it: the lookup
      by the stored email finds that record and bcrypt verifies the
      password against its hash. */
  lemma RegisteredUserCanLogIn(users: seq<User>, outbox: seq<Mail>, data: RegisterData, salt: string,
                               newId: ObjectId, crypto: Crypto, sign: Signer, config: JwtConfig)
    requires StoreInvariant(users) && BcryptSound(crypto)
    requires Register(users, outbox, data, crypto.bcryptHash(data.password, salt), newId, sign, config).result.Ok?
    ensures var s := Register(users, outbox, data, crypto.bcryptHash(data.password, salt), newId, sign, config);
      && |s.users| == |users| + 1
      && Login(s.users, LoginData(NormaliseEmail(data.email), data.password), crypto.bcryptCompare, sign, config)
         == Issue(sign, config, s.users[|users|])
  {
    var hash := crypto.bcryptHash(data.password, salt);
    var doc := NewUser(data.name, data.email, Some(hash), None, Some(false));
    var s := Register(users, outbox, data, hash, newId, sign, config);
    assert FindOne(users, ByEmail(data.email)).None? && Create(users, doc, newId).Ok?;
    var u := Create(users, doc, newId).value;
    assert s.users == users + [u];
    AppendPreservesInvariant(users, u);
    FindByStoredEmail(s.users, |users|);
    assert s.users[|users|] == u && u.email == NormaliseEmail(data.email);
    assert |hash| == 60 && crypto.bcryptCompare(data.password, hash);
    assert Truthy(u.password) && u.password.value == hash;
  }

  // ------------------------------------------------------------ forgotPassword

  /** `forgotPassword`, given the new secret's digest. */
  function Forgot(users: seq<User>, outbox: seq<Mail>, email: string, secret: string, digest: string,
                  now: int): Step<string>
  {
    match FindOne(users, ByEmail(email))
    case None => Step(users, outbox, ForgotPasswordMessage)
    case Some(i) =>
      Step(users[i := WithResetToken(users[i], digest, now + ResetTokenLifetime)],
           outbox + [ResetMail(email, secret)], ForgotPasswordMessage)
  }

  /** The answer does not reveal whether the email is stored; an unknown
      email changes nothing; a known one changes only that record's two
      reset fields and mails the secret, not the digest. */
  lemma ForgotFacts(users: seq<User>, outbox: seq<Mail>, email: string, secret: string, digest: string, now: int)
    requires StoreInvariant(users)
    ensures var s := Forgot(users, outbox, email, secret, digest, now);
      && s.result == ForgotPasswordMessage
      && StoreInvariant(s.users)
      && |s.users| == |users|
      && ((forall i :: 0 <= i < |users| ==> users[i].email != email) ==> s.users == users && s.outbox == outbox)
      && (forall i :: 0 <= i < |users| && users[i].email == email ==>
            && s.users[i].resetPasswordToken == Some(digest)
            && s.users[i].resetPasswordExpires == Some(now + ResetTokenLifetime)
            && s.users[i].(resetPasswordToken := users[i].resetPasswordToken,
                           resetPasswordExpires := users[i].resetPasswordExpires) == users[i]
            && s.outbox == outbox + [ResetMail(email, secret)])
      && (forall j :: 0 <= j < |users| && users[j].email != email ==> s.users[j] == users[j])
  {
    match FindOne(users, ByEmail(email))
    case None =>
    case Some(i) =>
      UpdatePreservesInvariant(users, i, WithResetToken(users[i], digest, now + ResetTokenLifetime));
      FindByStoredEmail(users, i);
  }

  /** Asking again replaces the secret: the digest held before no longer
      finds the record, and the new one does exactly until its expiry, which
      is strict. */
  lemma NewSecretReplacesOld(users: seq<User>, outbox: seq<Mail>, email: string, secret: string,
                             oldDigest: string, newDigest: string, now: int, later: int)
    requires oldDigest != newDigest
    requires FindOne(users, ByEmail(email)).Some?
    ensures var i := FindOne(users, ByEmail(email)).value;
      var after := Forgot(users, outbox, email, secret, newDigest, now).users;
      && !Matches(after[i], ByLiveResetToken(oldDigest, later))
      && (Matches(after[i], ByLiveResetToken(newDigest, later)) <==> later < now + ResetTokenLifetime)
  {
  }

  // ------------------------------------------------------------ resetPassword

  /** `resetPassword`, given the presented secret's digest and the new
      password's hash. */
  function Reset(users: seq<User>, outbox: seq<Mail>, digest: string, passwordHash: string, now: int,
                 sign: Signer, config: JwtConfig): Step<Result<AuthResult, Failure>>
  {
    match FindOne(users, ByLiveResetToken(digest, now))
    case None => Step(users, outbox, Err(InvalidResetToken))
    case Some(i) =>
      var u := Consumed(users[i], passwordHash);
      Step(users[i := u], outbox, Issue(sign, config, u))
  }

  /** A reset changes something only for a record holding the digest with an
      expiry strictly after `now`; it then changes only that record, whose
      password becomes the new hash and whose reset fields are cleared. */
  lemma ResetFacts(users: seq<User>, outbox: seq<Mail>, digest: string, passwordHash: string, now: int,
                   sign: Signer, config: JwtConfig)
    requires StoreInvariant(users) && |passwordHash| >= MinPasswordLength
    ensures var s := Reset(users, outbox, digest, passwordHash, now, sign, config);
      && StoreInvariant(s.users) && s.outbox == outbox && |s.users| == |users|
      && (s.result == Err(InvalidResetToken) <==> forall i :: 0 <= i < |users| ==> !Matches(users[i], ByLiveResetToken(digest, now)))
      && (s.result == Err(InvalidResetToken) ==> s.users == users)
      && (s.result != Err(InvalidResetToken) ==>
            exists i :: && 0 <= i < |users| && users[i].resetPasswordToken == Some(digest)
                        && users[i].resetPasswordExpires.Some? && users[i].resetPasswordExpires.value > now
                        && s.users == users[i := Consumed(users[i], passwordHash)]
                        && s.result == Issue(sign, config, Consumed(users[i], passwordHash)))
  {
    match FindOne(users, ByLiveResetToken(digest, now))
    case None =>
    case Some(i) =>
      UpdatePreservesInvariant(users, i, Consumed(users[i], passwordHash));
      assert Issue(sign, config, Consumed(users[i], passwordHash)) != Err(InvalidResetToken);
  }

  /** No two records hold the same reset digest. */
  predicate UniqueResetDigests(users: seq<User>) {
    forall i, j :: 0 <= i < j < |users| && users[i].resetPasswordToken.Some? ==>
      users[i].resetPasswordToken != users[j].resetPasswordToken
  }

  /** A reset secret works once: once it has been consumed, presenting it
      again, at any time, is refused, provided no other record holds the same
      digest. */
  lemma ResetIsSingleUse(users: seq<User>, outbox: seq<Mail>, digest: string, hash1: string, hash2: string,
                         now: int, later: int, sign: Signer, config: JwtConfig)
    requires UniqueResetDigests(users)
    requires Reset(users, outbox, digest, hash1, now, sign, config).result != Err(InvalidResetToken)
    ensures var s := Reset(users, outbox, digest, hash1, now, sign, config);
      Reset(s.users, s.outbox, digest, hash2, later, sign, config) == Step(s.users, s.outbox, Err(InvalidResetToken))
  {
    var i := FindOne(users, ByLiveResetToken(digest, now)).value;
    var after := users[i := Consumed(users[i], hash1)];
    forall j | 0 <= j < |after| ensures !Matches(after[j], ByLiveResetToken(digest, later)) {
      if j != i {
        assert users[i].resetPasswordToken == Some(digest);
        if j < i {
          assert users[j].resetPasswordToken.Some? ==> users[j].resetPasswordToken != users[i].resetPasswordToken;
        } else {
          assert users[i].resetPasswordToken != users[j].resetPasswordToken;
        }
      }
    }
  }

  // ------------------------------------------------------------ findOrCreateGoogleUser

  /** `findOrCreateGoogleUser`. */
  function GoogleSignIn(users: seq<User>, outbox: seq<Mail>, googleId: string, email: string, name: string,
                        newId: ObjectId, sign: Signer, config: JwtConfig): Step<Result<AuthResult, Failure>>
  {
    match FindOne(users, ByGoogleIdOrEmail(googleId, email))
    case Some(i) =>
      if Truthy(users[i].googleId) then Step(users, outbox, Issue(sign, config, users[i]))
      else
        var u := users[i].(googleId := Some(googleId));
        Step(users[i := u], outbox, Issue(sign, config, u))
    case None =>
      match Create(users, NewUser(name, email, None, Some(googleId), Some(true)), newId)
      case Err(e) => Step(users, outbox, Err(StoreRejected(e)))
      case Ok(u) => Step(users + [u], outbox, Issue(sign, config, u))
  }

  /** Google sign-in links an account found by email only when it has no
      Google id, never overwrites one, touches no password, and otherwise
      creates a verified user without a password. */
  lemma GoogleSignInFacts(users: seq<User>, outbox: seq<Mail>, googleId: string, email: string, name: string,
                          newId: ObjectId, sign: Signer, config: JwtConfig)
    requires StoreInvariant(users)
    ensures var s := GoogleSignIn(users, outbox, googleId, email, name, newId, sign, config);
      && StoreInvariant(s.users) && s.outbox == outbox
      && (forall i :: 0 <= i < |users| ==> i < |s.users| && s.users[i].password == users[i].password)
      && (forall i :: 0 <= i < |users| && Truthy(users[i].googleId) ==> s.users[i] == users[i])
      && (forall i :: 0 <= i < |users| && !Truthy(users[i].googleId) && s.users[i] != users[i] ==>
            s.users[i] == users[i].(googleId := Some(googleId)))
      && (|s.users| != |users| ==>
            && |s.users| == |users| + 1 && s.users[..|users|] == users
            && FindOne(users, ByGoogleIdOrEmail(googleId, email)).None?
            && s.users[|users|].isEmailVerified && s.users[|users|].password.None?
            && s.users[|users|].googleId == Some(googleId))
  {
    match FindOne(users, ByGoogleIdOrEmail(googleId, email))
    case Some(i) =>
      if !Truthy(users[i].googleId) {
        UpdatePreservesInvariant(users, i, users[i].(googleId := Some(googleId)));
      }
    case None =>
      var doc := NewUser(name, email, None, Some(googleId), Some(true));
      if Create(users, doc, newId).Ok? {
        var u := Create(users, doc, newId).value;
        AppendPreservesInvariant(users, u);
        assert (users + [u])[..|users|] == users;
      }
  }

  /** Google sign-in returns the payload of the record it found, linked or
      created: one holding the Google id or the email.  Only a store refusal
      of the new record leaves the collection unchanged without a payload. */
  lemma GoogleSignInResult(users: seq<User>, outbox: seq<Mail>, googleId: string, email: string, name: string,
                           newId: ObjectId, sign: Signer, config: JwtConfig)
    ensures var s := GoogleSignIn(users, outbox, googleId, email, name, newId, sign, config);
      && (s.result.Err? && s.result.error.StoreRejected? ==> s.users == users)
      && (!(s.result.Err? && s.result.error.StoreRejected?) ==>
            exists i :: && 0 <= i < |s.users| && s.result == Issue(sign, config, s.users[i])
                        && (s.users[i].googleId == Some(googleId) || s.users[i].email == email))
  {
    var s := GoogleSignIn(users, outbox, googleId, email, name, newId, sign, config);
    match FindOne(users, ByGoogleIdOrEmail(googleId, email))
    case Some(i) =>
      assert Matches(users[i], ByGoogleIdOrEmail(googleId, email));
      assert s.result == Issue(sign, config, s.users[i]);
    case None =>
      var doc := NewUser(name, email, None, Some(googleId), Some(true));
      if Create(users, doc, newId).Ok? {
        var u := Create(users, doc, newId).value;
        assert s.users == users + [u] && s.users[|users|] == u;
        assert s.result == Issue(sign, config, s.users[|users|]);
      }
  }

  /** The two paths of Google sign-in.  A found account without a Google id
      is linked to this one, a found account with one is left as it is, and
      either way the payload is that account's.  When nothing matches and the
      store accepts the new document, the record it makes (the new id, the
      trimmed name, the normalised email, the Google id, verified, no
      password) is appended and the payload is the new record's. */
  lemma GoogleSignInPaths(users: seq<User>, outbox: seq<Mail>, googleId: string, email: string, name: string,
                          newId: ObjectId, sign: Signer, config: JwtConfig)
    ensures var s := GoogleSignIn(users, outbox, googleId, email, name, newId, sign, config);
      var found := FindOne(users, ByGoogleIdOrEmail(googleId, email));
      && (found.Some? ==>
            && s.users == (if Truthy(users[found.value].googleId) then users
                           else users[found.value := users[found.value].(googleId := Some(googleId))])
            && s.result == Issue(sign, config, s.users[found.value]))
      && (found.None? && Create(users, NewUser(name, email, None, Some(googleId), Some(true)), newId).Ok? ==>
            && s.users == users + [Create(users, NewUser(name, email, None, Some(googleId), Some(true)), newId).value]
            && s.result == Issue(sign, config, s.users[|users|]))
  {
  }

  // ------------------------------------------------------------ the service

  class AuthService {
    var users: seq<User>
    var outbox: seq<Mail>
    const crypto: Crypto
    const sign: Signer
    const jwtConfig: JwtConfig

    ghost predicate Valid()
      reads this
    {
      StoreInvariant(users) && BcryptSound(crypto)
    }

    constructor (crypto: Crypto, sign: Signer, jwtConfig: JwtConfig)
      requires BcryptSound(crypto)
      ensures Valid() && users == [] && outbox == []
      ensures this.crypto == crypto && this.sign == sign && this.jwtConfig == jwtConfig
    {
      this.crypto := crypto;
      this.sign := sign;
      this.jwtConfig := jwtConfig;
      users := [];
      outbox := [];
    }

    method RegisterUser(data: RegisterData, salt: string, newId: ObjectId) returns (r: Result<AuthResult, Failure>)
      requires Valid()
      modifies this
      ensures Valid()
      ensures Step(users, outbox, r)
        == Register(old(users), old(outbox), data, crypto.bcryptHash(data.password, salt), newId, sign, jwtConfig)
    {
      var existing := FindOne(users, ByEmail(data.email));
      if existing.Some? {
        return Err(RegistrationFailed);
      }
      var hashedPassword := crypto.bcryptHash(data.password, salt);
      var created := Create(users, NewUser(data.name, data.email, Some(hashedPassword), None, Some(false)), newId);
      if created.Err? {
        return Err(StoreRejected(created.error));
      }
      var user := created.value;
      AppendPreservesInvariant(users, user);
      users := users + [user];
      outbox := outbox + [WelcomeMail(data.email, data.name)];
      r := Issue(sign, jwtConfig, user);
    }

    /** Reads the collection and changes nothing. */
    method LoginUser(data: LoginData) returns (r: Result<AuthResult, Failure>)
      ensures r == Login(users, data, crypto.bcryptCompare, sign, jwtConfig)
    {
      var found := FindOne(users, ByEmail(data.email));
      if found.None? {
        return Err(InvalidCredentials);
      }
      var user := Read(users[found.value], true);
      if !Truthy(user.password) {
        return Err(GoogleOnlyAccount);
      }
      var isPasswordValid := crypto.bcryptCompare(data.password, user.password.value);
      if !isPasswordValid {
        return Err(InvalidCredentials);
      }
      r := Issue(sign, jwtConfig, users[found.value]);
    }

    method ForgotPassword(email: string, secret: string, now: int) returns (message: string)
      requires Valid()
      modifies this
      ensures Valid()
      ensures Step(users, outbox, message)
        == Forgot(old(users), old(outbox), email, secret, crypto.sha256Hex(secret), now)
    {
      ForgotFacts(users, outbox, email, secret, crypto.sha256Hex(secret), now);
      var found := FindOne(users, ByEmail(email));
      if found.None? {
        return ForgotPasswordMessage;
      }
      var hashedToken := crypto.sha256Hex(secret);
      users := users[found.value := WithResetToken(users[found.value], hashedToken, now + ResetTokenLifetime)];
      outbox := outbox + [ResetMail(email, secret)];
      message := ForgotPasswordMessage;
    }

    method ResetPassword(secret: string, newPassword: string, salt: string, now: int)
      returns (r: Result<AuthResult, Failure>)
      requires Valid()
      modifies this
      ensures Valid()
      ensures Step(users, outbox, r)
        == Reset(old(users), old(outbox), crypto.sha256Hex(secret), crypto.bcryptHash(newPassword, salt), now,
                 sign, jwtConfig)
    {
      var hashedToken := crypto.sha256Hex(secret);
      var hashedPassword := crypto.bcryptHash(newPassword, salt);
      assert |hashedPassword| == 60;
      ResetFacts(users, outbox, hashedToken, hashedPassword, now, sign, jwtConfig);
      var found := FindOne(users, ByLiveResetToken(hashedToken, now));
      if found.None? {
        return Err(InvalidResetToken);
      }
      var updated := Consumed(users[found.value], hashedPassword);
      users := users[found.value := updated];
      r := Issue(sign, jwtConfig, updated);
    }

    method FindOrCreateGoogleUser(googleId: string, email: string, name: string, newId: ObjectId)
      returns (r: Result<AuthResult, Failure>)
      requires Valid()
      modifies this
      ensures Valid()
      ensures Step(users, outbox, r)
        == GoogleSignIn(old(users), old(outbox), googleId, email, name, newId, sign, jwtConfig)
    {
      GoogleSignInFacts(users, outbox, googleId, email, name, newId, sign, jwtConfig);
      var found := FindOne(users, ByGoogleIdOrEmail(googleId, email));
      if found.Some? {
        var user := users[found.value];
        if !Truthy(user.googleId) {
          user := user.(googleId := Some(googleId));
          users := users[found.value := user];
        }
        r := Issue(sign, jwtConfig, user);
      } else {
        var created := Create(users, NewUser(name, email, None, Some(googleId), Some(true)), newId);
        if created.Err? {
          return Err(StoreRejected(created.error));
        }
        var user := created.value;
        users := users + [user];
        r := Issue(sign, jwtConfig, user);
      }
    }
  }
}
