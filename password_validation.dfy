/**
 * The client-side copy of the password rules
 * (frontend/lib/password-validation.ts).  It pushes the same messages, with
 * the same texts, as the server's strength check.
 */
module PasswordValidation {
  import opened AuthValidator

  datatype PasswordValidationResult = PasswordValidationResult(isValid: bool, errors: seq<Message>)

  /** `validatePassword`: the client reports exactly what the server's
      `validatePasswordStrength` would, in the same order, and is valid
      exactly when the password is strong. */
  method ValidatePassword(password: string) returns (r: PasswordValidationResult)
    ensures r.errors == StrengthErrors(password)
    ensures r.isValid <==> r.errors == []
    ensures r.isValid <==> StrongPassword(password)
    ensures |password| < MinPasswordLength ==> r.errors == [PasswordTooShort]
    ensures |r.errors| <= 4
  {
    var errors: seq<Message> := [];
    if password == "" || |password| < 8 {
      errors := errors + [PasswordTooShort];
    } else {
      if !Contains(password, Lowercase) {
        errors := errors + [MissingClass(Lowercase)];
      }
      assert errors == MissingMessage(password, Lowercase);
      if !Contains(password, Uppercase) {
        errors := errors + [MissingClass(Uppercase)];
      }
      assert errors == MissingMessage(password, Lowercase) + MissingMessage(password, Uppercase);
      if !Contains(password, Digit) {
        errors := errors + [MissingClass(Digit)];
      }
      assert errors == MissingMessage(password, Lowercase) + MissingMessage(password, Uppercase)
                       + MissingMessage(password, Digit);
      if !Contains(password, Special) {
        errors := errors + [MissingClass(Special)];
      }
      MissingInCheckOrder(password);
    }
    assert errors == StrengthErrors(password);
    StrengthErrorsCharacterised(password);
    r := PasswordValidationResult(|errors| == 0, errors);
  }
}
