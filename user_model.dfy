/**
 * The user record and the user collection (backend/src/models/User.ts), with
 * the two collection operations the services use: `findOne` (first record in
 * insertion order that matches a filter) and `create` (setters, defaults,
 * schema validation, then the unique indexes on `_id` and `email`).
 */
module UserModel {
  import opened Base
  import opened JsString

  // ------------------------------------------------------------ object ids

  function Pow16(n: nat): (p: nat)
    ensures p >= 1
  {
    if n == 0 then 1 else 16 * Pow16(n - 1)
  }

  const ObjectIdHexLength := 24

  /** Twelve bytes' worth of values: 16 to the power 24. */
  const IdBound: nat := 0x1_0000_0000_0000_0000_0000_0000

  lemma {:induction false} Pow16Add(a: nat, b: nat)
    ensures Pow16(a + b) == Pow16(a) * Pow16(b)
  {
    if a > 0 {
      Pow16Add(a - 1, b);
      calc {
        Pow16(a + b);
        16 * Pow16(a - 1 + b);
        16 * (Pow16(a - 1) * Pow16(b));
        { assert 16 * (Pow16(a - 1) * Pow16(b)) == (16 * Pow16(a - 1)) * Pow16(b); }
        Pow16(a) * Pow16(b);
      }
    }
  }

  lemma IdBoundIsPow16()
    ensures Pow16(ObjectIdHexLength) == IdBound
  {
    assert Pow16(2) == 0x100;
    Pow16Add(2, 2);
    Pow16Add(2, 4);
    Pow16Add(6, 6);
    Pow16Add(12, 12);
  }

  /** A document id: twelve bytes, written as 24 hexadecimal digits. */
  type ObjectId = n: nat | n < IdBound

  function HexDigit(d: nat): char
    requires d < 16
  {
    if d < 10 then ('0' as int + d) as char else ('a' as int + d - 10) as char
  }

  /** The value of one hexadecimal digit, in either case. */
  function HexValue(c: char): (r: Option<nat>)
    ensures r.Some? ==> r.value < 16
  {
    if '0' <= c <= '9' then Some(c as int - '0' as int)
    else if 'a' <= c <= 'f' then Some(c as int - 'a' as int + 10)
    else if 'A' <= c <= 'F' then Some(c as int - 'A' as int + 10)
    else None
  }

  /** `n` as exactly `width` lower-case hexadecimal digits, most significant first. */
  function ToHex(n: nat, width: nat): (s: string)
    requires n < Pow16(width)
    ensures |s| == width
  {
    if width == 0 then "" else ToHex(n / 16, width - 1) + [HexDigit(n % 16)]
  }

  /** The number a string of hexadecimal digits denotes, if it is one. */
  function FromHex(s: string): (r: Option<nat>)
    ensures r.Some? ==> r.value < Pow16(|s|)
  {
    if s == [] then Some(0)
    else
      match (FromHex(s[..|s| - 1]), HexValue(s[|s| - 1]))
      case (Some(high), Some(low)) => Some(high * 16 + low)
      case _ => None
  }

  lemma {:induction false} FromHexToHex(n: nat, width: nat)
    requires n < Pow16(width)
    ensures FromHex(ToHex(n, width)) == Some(n)
  {
    if width > 0 {
      var s := ToHex(n, width);
      FromHexToHex(n / 16, width - 1);
      assert s[..|s| - 1] == ToHex(n / 16, width - 1);
      assert HexValue(s[|s| - 1]) == Some(n % 16);
    }
  }

  /** `_id.toString()`. */
  function IdString(id: ObjectId): (s: string)
    ensures |s| == ObjectIdHexLength
  {
    IdBoundIsPow16();
    ToHex(id, ObjectIdHexLength)
  }

  /** Casting a string to an id, as a lookup by id does: 24 hexadecimal
      digits are an id; anything else makes the lookup throw. */
  function CastObjectId(s: string): Option<ObjectId> {
    if |s| != ObjectIdHexLength then None
    else
      IdBoundIsPow16();
      match FromHex(s)
      case Some(n) => Some(n)
      case None => None
  }

  /** Printing an id and casting it back gives the same id, so distinct ids
      print differently. */
  lemma IdStringRoundTrip(id: ObjectId)
    ensures CastObjectId(IdString(id)) == Some(id)
  {
    IdBoundIsPow16();
    FromHexToHex(id, ObjectIdHexLength);
  }

  // ------------------------------------------------------------ the record

  /** A stored user.  `password` is a bcrypt hash; `resetPasswordToken` is the
      SHA-256 digest of the last reset secret issued, and
      `resetPasswordExpires` its expiry in milliseconds since the epoch. */
  datatype User = User(
    id: ObjectId,
    name: string,
    email: string,
    password: Option<string>,
    googleId: Option<string>,
    isEmailVerified: bool,
    resetPasswordToken: Option<string>,
    resetPasswordExpires: Option<int>)

  const MinPasswordLength := 6

  /** The `lowercase` and `trim` setters of the email field. */
  function NormaliseEmail(e: string): string {
    Trim(ToLower(e))
  }

  /** A normalised email is trimmed and has no capital letter. */
  lemma NormalisedEmailShape(e: string)
    ensures Trimmed(NormaliseEmail(e)) && NoUpper(NormaliseEmail(e))
  {
    LowerHasNoUpper(e);
    TrimKeepsNoUpper(ToLower(e));
  }

  /** Normalising an already-normalised email changes nothing. */
  lemma NormaliseEmailIdempotent(e: string)
    ensures NormaliseEmail(NormaliseEmail(e)) == NormaliseEmail(e)
  {
    var l := ToLower(e);
    TrimLowerCommute(Trim(l));
    TrimIdempotent(l);
    ToLowerIdempotent(e);
    TrimLowerCommute(l);
  }

  /** What the schema guarantees of every stored record: the name is
      required and trimmed, the email required, lower-case and trimmed, and a
      password, when present, at least six characters long. */
  predicate WellFormed(u: User) {
    && u.name != "" && Trimmed(u.name)
    && u.email != "" && Trimmed(u.email) && NoUpper(u.email)
    && (u.password.Some? ==> |u.password.value| >= MinPasswordLength)
  }

  /** A well-formed record is what the setters leave as it is. */
  lemma WellFormedIsSetterFixedPoint(u: User)
    requires u.name != "" && u.email != ""
    requires u.password.Some? ==> |u.password.value| >= MinPasswordLength
    ensures WellFormed(u) <==> Trim(u.name) == u.name && NormaliseEmail(u.email) == u.email
  {
    TrimmedIsFixedPoint(u.name);
    NoUpperIsFixedPoint(u.email);
    TrimmedIsFixedPoint(u.email);
    if NormaliseEmail(u.email) == u.email {
      NormalisedEmailShape(u.email);
    }
  }

  /** The collection: every record well formed, and the unique indexes on
      `_id` and `email` respected.  `googleId` is sparse but not unique. */
  predicate StoreInvariant(users: seq<User>) {
    && (forall i :: 0 <= i < |users| ==> WellFormed(users[i]))
    && (forall i, j :: 0 <= i < j < |users| ==> users[i].id != users[j].id && users[i].email != users[j].email)
  }

  /** Replacing a record by one with the same id and email that is still well
      formed keeps the collection valid. */
  lemma UpdatePreservesInvariant(users: seq<User>, i: nat, u: User)
    requires StoreInvariant(users) && i < |users|
    requires u.id == users[i].id && u.email == users[i].email && WellFormed(u)
    ensures StoreInvariant(users[i := u])
  {
  }

  // ------------------------------------------------------------ queries

  /** The filters the services pass to `findOne`, compared literally. */
  datatype Filter =
    | ByEmail(email: string)
    | ByGoogleIdOrEmail(googleId: string, email: string)
    | ByLiveResetToken(digest: string, now: int)
    | ById(id: ObjectId)

  predicate Matches(u: User, f: Filter) {
    match f
    case ByEmail(e) => u.email == e
    case ByGoogleIdOrEmail(g, e) => u.googleId == Some(g) || u.email == e
    case ByLiveResetToken(d, now) =>
      u.resetPasswordToken == Some(d) && u.resetPasswordExpires.Some? && u.resetPasswordExpires.value > now
    case ById(id) => u.id == id
  }

  /** `findOne(filter)`: the position of the first matching record. */
  function FindOne(users: seq<User>, f: Filter): (r: Option<nat>)
    ensures r.Some? ==> r.value < |users| && Matches(users[r.value], f)
    ensures r.Some? ==> forall j :: 0 <= j < r.value ==> !Matches(users[j], f)
    ensures r.None? ==> forall j :: 0 <= j < |users| ==> !Matches(users[j], f)
  {
    if users == [] then None
    else if Matches(users[0], f) then Some(0)
    else
      match FindOne(users[1..], f)
      case None => None
      case Some(k) => Some(k + 1)
  }

  /** A record as a query returns it: the password is left out unless the
      query selects it explicitly. */
  function Read(u: User, selectPassword: bool): (d: User)
    ensures d.password == (if selectPassword then u.password else None)
    ensures d.(password := u.password) == u
  {
    if selectPassword then u else u.(password := None)
  }

  /** A stored email is unique, so an email lookup finds the one record
      holding it, wherever it is. */
  lemma FindByStoredEmail(users: seq<User>, i: nat)
    requires StoreInvariant(users) && i < |users|
    ensures FindOne(users, ByEmail(users[i].email)) == Some(i)
  {
  }

  /** Ids are unique, so a lookup by id finds the one record holding it. */
  lemma FindById(users: seq<User>, i: nat)
    requires StoreInvariant(users) && i < |users|
    ensures FindOne(users, ById(users[i].id)) == Some(i)
  {
  }

  // ------------------------------------------------------------ create

  /** The fields handed to `create`; `isEmailVerified` may be left out. */
  datatype NewUser = NewUser(
    name: string, email: string, password: Option<string>, googleId: Option<string>, isEmailVerified: Option<bool>)

  /** Why `create` throws: a schema validator failed, or a unique index was hit. */
  datatype StoreError = ValidationError | DuplicateKey

  /** The record `create` would insert: setters applied, defaults filled in. */
  function Prepare(doc: NewUser, id: ObjectId): User {
    User(id, Trim(doc.name), NormaliseEmail(doc.email), doc.password, doc.googleId,
         if doc.isEmailVerified.Some? then doc.isEmailVerified.value else false, None, None)
  }

  predicate Collides(users: seq<User>, u: User) {
    exists j :: 0 <= j < |users| && (users[j].id == u.id || users[j].email == u.email)
  }

  /** Setters make what they produce pass the schema once more. */
  lemma PrepareWellFormed(doc: NewUser, id: ObjectId)
    requires WellFormedInput(doc)
    ensures WellFormed(Prepare(doc, id))
  {
    TrimmedIsFixedPoint(Trim(doc.name));
    TrimIdempotent(doc.name);
    NormalisedEmailShape(doc.email);
  }

  /** Appending a well-formed record that takes no existing id or email keeps
      the collection valid. */
  lemma AppendPreservesInvariant(users: seq<User>, u: User)
    requires StoreInvariant(users) && WellFormed(u) && !Collides(users, u)
    ensures StoreInvariant(users + [u])
  {
    var s := users + [u];
    forall i | 0 <= i < |s| ensures WellFormed(s[i]) {
      if i < |users| {
        assert s[i] == users[i];
      } else {
        assert s[i] == u;
      }
    }
    forall i, j | 0 <= i < j < |s| ensures s[i].id != s[j].id && s[i].email != s[j].email {
      assert s[i] == users[i];
      if j == |users| {
        assert s[j] == u;
      } else {
        assert s[j] == users[j];
      }
    }
  }

  /** `create(doc)`: the record is stored trimmed and lower-cased, with
      `isEmailVerified` false unless given and no reset token.  It is rejected
      when a required field is empty after its setters or the password is
      shorter than six, and otherwise when its id or email is already
      taken. */
  function Create(users: seq<User>, doc: NewUser, id: ObjectId): (r: Result<User, StoreError>)
    ensures r.Ok? ==> r.value == Prepare(doc, id) && WellFormed(r.value) && !Collides(users, r.value)
    ensures r.Ok? ==> r.value.id == id && r.value.name == Trim(doc.name) && r.value.email == NormaliseEmail(doc.email)
    ensures r.Ok? ==> r.value.isEmailVerified == (doc.isEmailVerified == Some(true))
    ensures r.Ok? ==> r.value.resetPasswordToken.None? && r.value.resetPasswordExpires.None?
    ensures r.Ok? ==> r.value.password == doc.password && r.value.googleId == doc.googleId
    ensures r == Err(ValidationError) <==> !WellFormedInput(doc)
    ensures r == Err(DuplicateKey) <==> WellFormedInput(doc) && Collides(users, Prepare(doc, id))
  {
    if !WellFormedInput(doc) then
      Err(ValidationError)
    else if Collides(users, Prepare(doc, id)) then
      Err(DuplicateKey)
    else
      PrepareWellFormed(doc, id);
      Ok(Prepare(doc, id))
  }

  /** The fields pass the schema validators once their setters have run. */
  predicate WellFormedInput(doc: NewUser) {
    && Trim(doc.name) != "" && NormaliseEmail(doc.email) != ""
    && (doc.password.Some? ==> |doc.password.value| >= MinPasswordLength)
  }
}
