/**
 * Request-body validators of the authentication routes
 * (backend/src/validators/authValidator.ts).
 *
 * Each validator builds a list of error messages field by field; the body is
 * valid exactly when the list stays empty.  A body field is an optional
 * string: `None` is a property that is absent (`undefined`).
 */
module AuthValidator {
  import opened Base
  import opened JsString

  const MinPasswordLength := 8
  const MinNameLength := 2

  /** The error messages the validators push; `Text` gives each one's exact
      wording, which is what a response carries. */
  datatype Message =
    | PasswordTooShort
    | MissingClass(k: CharClass)
    | NameTooShort
    | InvalidEmail
    | PasswordRequired
    | TokenRequired

  function Text(m: Message): string {
    match m
    case PasswordTooShort => "Password must be at least 8 characters long"
    case MissingClass(Lowercase) => "Password must contain at least one lowercase letter"
    case MissingClass(Uppercase) => "Password must contain at least one uppercase letter"
    case MissingClass(Digit) => "Password must contain at least one number"
    case MissingClass(Special) => "Password must contain at least one special character"
    case NameTooShort => "Name must be at least 2 characters long"
    case InvalidEmail => "Please provide a valid email address"
    case PasswordRequired => "Password is required"
    case TokenRequired => "Reset token is required"
  }

  /** The `errors` array of a validation failure, in push order. */
  function Texts(ms: seq<Message>): (r: seq<string>)
    ensures |r| == |ms| && forall i :: 0 <= i < |ms| ==> r[i] == Text(ms[i])
  {
    seq(|ms|, i requires 0 <= i < |ms| => Text(ms[i]))
  }

  /** The character classes a strong password must each hit once:
      `[a-z]`, `[A-Z]`, `\d` and `[^a-zA-Z\d]`. */
  datatype CharClass = Lowercase | Uppercase | Digit | Special

  predicate InClass(c: char, k: CharClass) {
    match k
    case Lowercase => 'a' <= c <= 'z'
    case Uppercase => 'A' <= c <= 'Z'
    case Digit => '0' <= c <= '9'
    case Special => !('a' <= c <= 'z' || 'A' <= c <= 'Z' || '0' <= c <= '9')
  }

  /** The order in which the strength checks run. */
  const ClassOrder: seq<CharClass> := [Lowercase, Uppercase, Digit, Special]

  function Rank(k: CharClass): nat {
    match k
    case Lowercase => 0
    case Uppercase => 1
    case Digit => 2
    case Special => 3
  }

  /** Position of a message in the fixed order of the class checks; 4 for
      any message that is not about a missing class. */
  function MessageRank(m: Message): nat {
    if m.MissingClass? then Rank(m.k) else 4
  }

  /** `/[class]/.test(s)`: some character of `s` is in the class. */
  function Contains(s: string, k: CharClass): (b: bool)
    ensures b <==> exists i :: 0 <= i < |s| && InClass(s[i], k)
  {
    if s == [] then false
    else if InClass(s[0], k) then true
    else
      var rest := Contains(s[1..], k);
      assert forall i :: 1 <= i < |s| ==> s[i] == s[1..][i - 1];
      rest
  }

  /** A password that passes every rule. */
  predicate StrongPassword(p: string) {
    |p| >= MinPasswordLength && forall k :: Contains(p, k)
  }

  /** The message of one class check: none when `p` has the class. */
  function MissingMessage(p: string, k: CharClass): seq<Message> {
    if Contains(p, k) then [] else [MissingClass(k)]
  }

  /** The messages of the classes in `ks` that `p` lacks, in the order of `ks`. */
  function MissingClassMessages(p: string, ks: seq<CharClass>): seq<Message> {
    if ks == [] then []
    else MissingMessage(p, ks[0]) + MissingClassMessages(p, ks[1..])
  }

  /** What `validatePasswordStrength(p)` returns. */
  function StrengthErrors(p: string): seq<Message> {
    if |p| < MinPasswordLength then [PasswordTooShort]
    else MissingClassMessages(p, ClassOrder)
  }

  predicate RankIncreasing(ks: seq<CharClass>) {
    forall i, j :: 0 <= i < j < |ks| ==> Rank(ks[i]) < Rank(ks[j])
  }

  /** Filtering a list of classes reports each missing class of the list and
      nothing else. */
  lemma {:induction false} MissingClassMessagesMembers(p: string, ks: seq<CharClass>)
    ensures |MissingClassMessages(p, ks)| <= |ks|
    ensures forall k :: MissingClass(k) in MissingClassMessages(p, ks) <==> k in ks && !Contains(p, k)
    ensures forall m :: m in MissingClassMessages(p, ks) ==> MessageRank(m) < 4
  {
    if ks != [] {
      MissingClassMessagesMembers(p, ks[1..]);
      forall k ensures MissingClass(k) in MissingClassMessages(p, ks) <==> k in ks && !Contains(p, k) {
        assert k in ks <==> k == ks[0] || k in ks[1..];
      }
    }
  }

  /** Filtering a rank-ordered list of classes keeps that order. */
  lemma {:induction false} MissingClassMessagesOrdered(p: string, ks: seq<CharClass>)
    requires RankIncreasing(ks)
    ensures forall i :: 0 <= i < |MissingClassMessages(p, ks)| ==>
      Rank(ks[0]) <= MessageRank(MissingClassMessages(p, ks)[i])
    ensures forall i, j :: 0 <= i < j < |MissingClassMessages(p, ks)| ==>
      MessageRank(MissingClassMessages(p, ks)[i]) < MessageRank(MissingClassMessages(p, ks)[j])
  {
    if ks != [] {
      var tail := ks[1..];
      var rest := MissingClassMessages(p, tail);
      var head := MissingMessage(p, ks[0]);
      var m := head + rest;
      assert m == MissingClassMessages(p, ks);
      if tail != [] {
        assert RankIncreasing(tail) by {
          forall i, j | 0 <= i < j < |tail| ensures Rank(tail[i]) < Rank(tail[j]) {
            assert tail[i] == ks[i + 1] && tail[j] == ks[j + 1];
          }
        }
        MissingClassMessagesOrdered(p, tail);
        assert Rank(ks[0]) < Rank(ks[1]) && tail[0] == ks[1];
        forall i | 0 <= i < |rest| ensures Rank(ks[0]) < MessageRank(rest[i]) {
          assert Rank(tail[0]) <= MessageRank(rest[i]);
        }
      } else {
        assert rest == [];
      }
      forall i, j | 0 <= i < j < |m| ensures MessageRank(m[i]) < MessageRank(m[j]) {
        if i < |head| {
          assert m[j] == rest[j - |head|];
        } else {
          assert m[i] == rest[i - |head|] && m[j] == rest[j - |head|];
        }
      }
      forall i | 0 <= i < |m| ensures Rank(ks[0]) <= MessageRank(m[i]) {
        if i >= |head| {
          assert m[i] == rest[i - |head|];
        }
      }
    }
  }

  /** On the four classes in check order the filter is the four checks one
      after another. */
  lemma MissingInCheckOrder(p: string)
    ensures MissingClassMessages(p, ClassOrder) ==
      MissingMessage(p, Lowercase) + MissingMessage(p, Uppercase) + MissingMessage(p, Digit) + MissingMessage(p, Special)
  {
    var ks := ClassOrder;
    assert ks[1..] == [Uppercase, Digit, Special];
    assert ks[1..][1..] == [Digit, Special];
    assert ks[1..][1..][1..] == [Special];
    assert ks[1..][1..][1..][1..] == [];
    var l, u, d, x := MissingMessage(p, Lowercase), MissingMessage(p, Uppercase),
                      MissingMessage(p, Digit), MissingMessage(p, Special);
    assert MissingClassMessages(p, [Special]) == x;
    assert MissingClassMessages(p, [Digit, Special]) == d + x;
    assert MissingClassMessages(p, [Uppercase, Digit, Special]) == u + (d + x);
    assert l + (u + (d + x)) == l + u + d + x;
  }

  /** The strength rules, as the source states them: a short password gets the
      one length message and no class checks; a long one gets exactly the
      messages of the classes it lacks, in the fixed order lowercase,
      uppercase, digit, special, so at most four. */
  lemma StrengthErrorsCharacterised(p: string)
    ensures |p| < MinPasswordLength ==> StrengthErrors(p) == [PasswordTooShort]
    ensures |p| >= MinPasswordLength ==> var e := StrengthErrors(p);
      && |e| <= 4
      && PasswordTooShort !in e
      && (forall k :: MissingClass(k) in e <==> !Contains(p, k))
      && (forall i :: 0 <= i < |e| ==> MessageRank(e[i]) < 4)
      && (forall i, j :: 0 <= i < j < |e| ==> MessageRank(e[i]) < MessageRank(e[j]))
    ensures StrengthErrors(p) == [] <==> StrongPassword(p)
  {
    MissingClassMessagesMembers(p, ClassOrder);
    MissingClassMessagesOrdered(p, ClassOrder);
    if |p| >= MinPasswordLength {
      assert ClassOrder[0] == Lowercase && ClassOrder[1] == Uppercase;
      assert ClassOrder[2] == Digit && ClassOrder[3] == Special;
      forall k ensures k in ClassOrder {
        match k
        case Lowercase => assert ClassOrder[0] == k;
        case Uppercase => assert ClassOrder[1] == k;
        case Digit => assert ClassOrder[2] == k;
        case Special => assert ClassOrder[3] == k;
      }
      var e := StrengthErrors(p);
      if e == [] {
        forall k ensures Contains(p, k) {
          assert MissingClass(k) !in e;
        }
      } else {
        assert e[0].MissingClass? && MissingClass(e[0].k) == e[0];
        assert !Contains(p, e[0].k);
      }
    }
  }

  /** "Special" is everything outside `[a-zA-Z0-9]`: any such character,
      a space or a non-ASCII letter such as `é` included, meets the rule. */
  lemma {:induction false} SpecialIsAnyNonAlphanumeric(p: string, i: int)
    requires 0 <= i < |p|
    requires !('a' <= p[i] <= 'z' || 'A' <= p[i] <= 'Z' || '0' <= p[i] <= '9')
    ensures MissingClass(Special) !in StrengthErrors(p)
    ensures InClass(' ', Special) && InClass('\U{E9}', Special)
  {
    assert InClass(p[i], Special);
    MissingClassMessagesMembers(p, ClassOrder);
  }

  /** `validatePasswordStrength`: the errors are pushed one check at a time. */
  method ValidatePasswordStrength(password: string) returns (errors: seq<Message>)
    ensures errors == StrengthErrors(password)
  {
    errors := [];
    if password == "" || |password| < MinPasswordLength {
      errors := errors + [PasswordTooShort];
    } else {
      if !Contains(password, Lowercase) {
        errors := errors + [MissingClass(Lowercase)];
      }
      assert errors == MissingMessage(password, Lowercase);
      if !Contains(password, Uppercase) {
        errors := errors + [MissingClass(Uppercase)];
      }
      assert errors == MissingMessage(password, Lowercase) + MissingMessage(password, Uppercase);
      if !Contains(password, Digit) {
        errors := errors + [MissingClass(Digit)];
      }
      assert errors == MissingMessage(password, Lowercase) + MissingMessage(password, Uppercase)
                       + MissingMessage(password, Digit);
      if !Contains(password, Special) {
        errors := errors + [MissingClass(Special)];
      }
      MissingInCheckOrder(password);
    }
  }

  // ---------------------------------------------------------------- email

  predicate NoSpaceOrAt(s: string) {
    forall i :: 0 <= i < |s| ==> !IsWhitespace(s[i]) && s[i] != '@'
  }

  /** `s` reads L `@` D1 `.` D2 with the `@` at `at` and the `.` at `dot`, each
      of L, D1 and D2 non-empty and free of whitespace and `@`: one way for
      `/^[^\s@]+@[^\s@]+\.[^\s@]+$/` to match. */
  predicate EmailSplit(s: string, at: int, dot: int) {
    && 0 < at && at + 1 < dot && dot + 1 < |s|
    && s[at] == '@' && s[dot] == '.'
    && NoSpaceOrAt(s[..at]) && NoSpaceOrAt(s[at + 1..dot]) && NoSpaceOrAt(s[dot + 1..])
  }

  /** The language of the email regular expression. */
  ghost predicate EmailShape(s: string) {
    exists at, dot :: EmailSplit(s, at, dot)
  }

  /** `s.indexOf(c)`, absent when `c` does not occur. */
  function IndexOf(s: string, c: char): (r: Option<nat>)
    ensures r.Some? ==> r.value < |s| && s[r.value] == c && forall j :: 0 <= j < r.value ==> s[j] != c
    ensures r.None? ==> forall j :: 0 <= j < |s| ==> s[j] != c
  {
    if s == [] then None
    else if s[0] == c then Some(0)
    else
      match IndexOf(s[1..], c)
      case None => None
      case Some(k) => Some(k + 1)
  }

  /** A domain part `D1.D2`: a `.` with at least one character on each side. */
  predicate HasInnerDot(d: string) {
    |d| >= 3 && '.' in d[1..|d| - 1]
  }

  /** The regular-expression test, computed by locating the first `@`. */
  predicate EmailTest(s: string) {
    match IndexOf(s, '@')
    case None => false
    case Some(at) => 0 < at && NoSpaceOrAt(s[..at]) && NoSpaceOrAt(s[at + 1..]) && HasInnerDot(s[at + 1..])
  }

  /** `/^[^\s@]+@[^\s@]+\.[^\s@]+$/.test(s)`. */
  function IsEmailAddress(s: string): (b: bool)
    ensures b <==> EmailShape(s)
  {
    EmailTestExact(s);
    EmailTest(s)
  }

  lemma EmailTestExact(s: string)
    ensures EmailShape(s) <==> EmailTest(s)
  {
    if EmailShape(s) {
      EmailShapePassesTest(s);
    }
    if EmailTest(s) {
      EmailTestFindsShape(s);
    }
  }

  /** Every string the expression matches passes the test. */
  lemma EmailShapePassesTest(s: string)
    requires EmailShape(s)
    ensures EmailTest(s)
  {
    var at, dot :| EmailSplit(s, at, dot);
    assert IndexOf(s, '@') == Some(at) by {
      assert forall j :: 0 <= j < at ==> s[..at][j] == s[j];
    }
    var d := s[at + 1..];
    forall i | 0 <= i < |d| ensures !IsWhitespace(d[i]) && d[i] != '@' {
      if i < dot - at - 1 {
        assert d[i] == s[at + 1..dot][i];
      } else if i > dot - at - 1 {
        assert d[i] == s[dot + 1..][i - (dot - at)];
      }
    }
    assert d[1..|d| - 1][dot - at - 2] == '.';
  }

  /** Every string that passes the test is matched by the expression. */
  lemma EmailTestFindsShape(s: string)
    requires EmailTest(s)
    ensures EmailShape(s)
  {
    var at := IndexOf(s, '@').value;
    var d := s[at + 1..];
    var j :| 0 <= j < |d| - 2 && d[1..|d| - 1][j] == '.';
    var dot := at + 2 + j;
    assert s[at + 1..dot] == d[..j + 1];
    assert s[dot + 1..] == d[j + 2..];
    assert EmailSplit(s, at, dot);
  }

  lemma ExactlyOneAt(s: string, at: nat)
    requires at < |s| && s[at] == '@'
    requires '@' !in s[..at] && '@' !in s[at + 1..]
    ensures multiset(s)['@'] == 1
  {
    var l, r := s[..at], s[at + 1..];
    assert s == l + [s[at]] + r;
    assert multiset(l)['@'] == 0;
    assert multiset(r)['@'] == 0;
    assert multiset(s) == multiset(l) + multiset([s[at]]) + multiset(r);
  }

  /** An accepted email has exactly one `@` and no whitespace, so trimming it
      changes nothing. */
  lemma EmailShapeFacts(s: string)
    requires EmailShape(s)
    ensures multiset(s)['@'] == 1
    ensures forall i :: 0 <= i < |s| ==> !IsWhitespace(s[i])
    ensures Trim(s) == s
  {
    var at, dot :| EmailSplit(s, at, dot);
    var l, r := s[..at], s[at + 1..];
    forall i | 0 <= i < |r| ensures !IsWhitespace(r[i]) && r[i] != '@' {
      if i < dot - at - 1 {
        assert r[i] == s[at + 1..dot][i];
      } else if i > dot - at - 1 {
        assert r[i] == s[dot + 1..][i - (dot - at)];
      }
    }
    assert '@' !in l && '@' !in r;
    ExactlyOneAt(s, at);
    forall i | 0 <= i < |s| ensures !IsWhitespace(s[i]) {
      if i < at { assert s[i] == l[i]; }
      else if i > at { assert s[i] == r[i - at - 1]; }
    }
    TrimNoWhitespace(s);
  }

  // ---------------------------------------------------------------- bodies

  datatype RegisterBody = RegisterBody(name: Option<string>, email: Option<string>, password: Option<string>)
  datatype LoginBody = LoginBody(email: Option<string>, password: Option<string>)
  datatype ResetPasswordBody = ResetPasswordBody(password: Option<string>, token: Option<string>)
  datatype ForgotPasswordBody = ForgotPasswordBody(email: Option<string>)

  /** `{ isValid, errors }` as every validator returns it. */
  datatype Validation = Validation(isValid: bool, errors: seq<Message>)

  /** The name passes: present and at least two characters once trimmed. */
  predicate NameOk(name: Option<string>) {
    Truthy(name) && |Trim(name.value)| >= MinNameLength
  }

  /** The email passes: present and matching the email expression. */
  predicate EmailOk(email: Option<string>) {
    Truthy(email) && IsEmailAddress(email.value)
  }

  function NameErrors(name: Option<string>): seq<Message> {
    if NameOk(name) then [] else [NameTooShort]
  }

  function EmailErrors(email: Option<string>): seq<Message> {
    if EmailOk(email) then [] else [InvalidEmail]
  }

  /** A new password: `Password is required` when missing, the strength
      errors otherwise. */
  function NewPasswordErrors(password: Option<string>): seq<Message> {
    if Truthy(password) then StrengthErrors(password.value) else [PasswordRequired]
  }

  /** An existing password: only presence is checked. */
  function PresentPasswordErrors(password: Option<string>): seq<Message> {
    if Truthy(password) then [] else [PasswordRequired]
  }

  function TokenErrors(token: Option<string>): seq<Message> {
    if Truthy(token) then [] else [TokenRequired]
  }

  /** Errors accumulate field by field, in the order the fields are checked. */
  function RegisterErrors(b: RegisterBody): seq<Message> {
    NameErrors(b.name) + EmailErrors(b.email) + NewPasswordErrors(b.password)
  }

  function LoginErrors(b: LoginBody): seq<Message> {
    EmailErrors(b.email) + PresentPasswordErrors(b.password)
  }

  function ResetPasswordErrors(b: ResetPasswordBody): seq<Message> {
    TokenErrors(b.token) + NewPasswordErrors(b.password)
  }

  function ForgotPasswordErrors(b: ForgotPasswordBody): seq<Message> {
    EmailErrors(b.email)
  }

  /** The messages the strength check can produce. */
  predicate IsStrengthMessage(m: Message) {
    m == PasswordTooShort || m.MissingClass?
  }

  lemma StrengthErrorsAreStrengthMessages(p: string)
    ensures forall m :: m in StrengthErrors(p) ==> IsStrengthMessage(m)
  {
    StrengthErrorsCharacterised(p);
  }

  /** A new-password field: a missing password yields exactly `Password is
      required` and no strength message; a present one yields exactly its
      strength errors. */
  lemma NewPasswordErrorsFacts(password: Option<string>)
    ensures !Truthy(password) ==> NewPasswordErrors(password) == [PasswordRequired]
    ensures forall m :: m in NewPasswordErrors(password) ==> m == PasswordRequired || IsStrengthMessage(m)
    ensures forall m :: m in NewPasswordErrors(password) && IsStrengthMessage(m) ==> Truthy(password)
    ensures PasswordRequired in NewPasswordErrors(password) <==> !Truthy(password)
    ensures NewPasswordErrors(password) == [] <==> Truthy(password) && StrongPassword(password.value)
  {
    if Truthy(password) {
      StrengthErrorsCharacterised(password.value);
      StrengthErrorsAreStrengthMessages(password.value);
    }
  }

  /** Register: each field's message appears exactly when that field fails,
      and the body is valid exactly when every field passes. */
  lemma RegisterErrorsCharacterised(b: RegisterBody)
    ensures NameTooShort in RegisterErrors(b) <==> !NameOk(b.name)
    ensures InvalidEmail in RegisterErrors(b) <==> !EmailOk(b.email)
    ensures PasswordRequired in RegisterErrors(b) <==> !Truthy(b.password)
    ensures !Truthy(b.password) ==> forall m :: m in RegisterErrors(b) ==> !IsStrengthMessage(m)
    ensures RegisterErrors(b) == [] <==>
      NameOk(b.name) && EmailOk(b.email) && Truthy(b.password) && StrongPassword(b.password.value)
  {
    var n, e, p := NameErrors(b.name), EmailErrors(b.email), NewPasswordErrors(b.password);
    assert RegisterErrors(b) == n + e + p;
    NewPasswordErrorsFacts(b.password);
    assert NameTooShort !in p && InvalidEmail !in p;
    assert forall m :: m in n + e + p <==> m in n || m in e || m in p;
  }

  /** Login applies no strength rule: with a well-formed email any non-empty
      password passes, however weak. */
  lemma LoginErrorsCharacterised(b: LoginBody)
    ensures InvalidEmail in LoginErrors(b) <==> !EmailOk(b.email)
    ensures PasswordRequired in LoginErrors(b) <==> !Truthy(b.password)
    ensures LoginErrors(b) == [] <==> EmailOk(b.email) && Truthy(b.password)
  {
  }

  /** Reset: the token must be present, and the new password obeys the same
      rules as at registration. */
  lemma ResetPasswordErrorsCharacterised(b: ResetPasswordBody)
    ensures TokenRequired in ResetPasswordErrors(b) <==> !Truthy(b.token)
    ensures PasswordRequired in ResetPasswordErrors(b) <==> !Truthy(b.password)
    ensures !Truthy(b.password) ==>
      ResetPasswordErrors(b) == TokenErrors(b.token) + [PasswordRequired]
    ensures ResetPasswordErrors(b) == [] <==>
      Truthy(b.token) && Truthy(b.password) && StrongPassword(b.password.value)
  {
    NewPasswordErrorsFacts(b.password);
    if Truthy(b.password) {
      StrengthErrorsAreStrengthMessages(b.password.value);
    }
  }

  method ValidateRegister(b: RegisterBody) returns (v: Validation)
    ensures v.errors == RegisterErrors(b)
    ensures v.isValid <==> v.errors == []
  {
    var errors: seq<Message> := [];
    if !Truthy(b.name) || |Trim(b.name.value)| < MinNameLength {
      errors := errors + [NameTooShort];
    }
    assert errors == NameErrors(b.name);
    if !Truthy(b.email) || !IsEmailAddress(b.email.value) {
      errors := errors + [InvalidEmail];
    }
    assert errors == NameErrors(b.name) + EmailErrors(b.email);
    if Truthy(b.password) {
      var strength := ValidatePasswordStrength(b.password.value);
      errors := errors + strength;
    } else {
      errors := errors + [PasswordRequired];
    }
    assert errors == NameErrors(b.name) + EmailErrors(b.email) + NewPasswordErrors(b.password);
    v := Validation(|errors| == 0, errors);
  }

  method ValidateLogin(b: LoginBody) returns (v: Validation)
    ensures v.errors == LoginErrors(b)
    ensures v.isValid <==> v.errors == []
  {
    var errors: seq<Message> := [];
    if !Truthy(b.email) || !IsEmailAddress(b.email.value) {
      errors := errors + [InvalidEmail];
    }
    if !Truthy(b.password) {
      errors := errors + [PasswordRequired];
    }
    v := Validation(|errors| == 0, errors);
  }

  method ValidateResetPassword(b: ResetPasswordBody) returns (v: Validation)
    ensures v.errors == ResetPasswordErrors(b)
    ensures v.isValid <==> v.errors == []
  {
    var errors: seq<Message> := [];
    if !Truthy(b.token) {
      errors := errors + [TokenRequired];
    }
    assert errors == TokenErrors(b.token);
    if Truthy(b.password) {
      var strength := ValidatePasswordStrength(b.password.value);
      errors := errors + strength;
    } else {
      errors := errors + [PasswordRequired];
    }
    v := Validation(|errors| == 0, errors);
  }

  method ValidateForgotPassword(b: ForgotPasswordBody) returns (v: Validation)
    ensures v.errors == ForgotPasswordErrors(b)
    ensures v.isValid <==> v.errors == []
    ensures v.isValid <==> EmailOk(b.email)
  {
    var errors: seq<Message> := [];
    if !Truthy(b.email) || !IsEmailAddress(b.email.value) {
      errors := errors + [InvalidEmail];
    }
    v := Validation(|errors| == 0, errors);
  }
}
