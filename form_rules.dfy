/** The validation rules the forms and handlers share: the regular
    expressions for national ids, mobile numbers and e-mail addresses, and the
    password rules with the live-validation map of the password forms. */
module FormRules {
  import opened Common

  /** `\w`: ASCII letters, digits and '_'. */
  predicate IsWordChar(c: char) {
    'a' <= c <= 'z' || 'A' <= c <= 'Z' || IsDigit(c) || c == '_'
  }

  predicate IsAsciiLetter(c: char) {
    'a' <= c <= 'z' || 'A' <= c <= 'Z'
  }

  /** `/^\d{10}$/`. */
  predicate IsTenDigits(s: string) {
    |s| == 10 && AllDigits(s)
  }

  /** `/^05\d{8}$/`. */
  predicate IsMobile(s: string) {
    |s| == 10 && s[0] == '0' && s[1] == '5' && AllDigits(s)
  }

  /** `if (!form.x) errors.x = m`: the message exactly for an empty field. */
  function RequiredError<M>(s: string, m: M): (r: Option<M>)
    ensures r.Some? <==> |s| == 0
    ensures r.Some? ==> r.value == m
  {
    if |s| == 0 then Some(m) else None
  }

  /** The national id: `required` when empty, then `notTenDigits` unless it
      is ten digits. */
  function IdError<M>(s: string, required: M, notTenDigits: M): (r: Option<M>)
    ensures r.Some? <==> !IsTenDigits(s)
    ensures |s| == 0 ==> r == Some(required)
    ensures |s| > 0 && !IsTenDigits(s) ==> r == Some(notTenDigits)
  {
    if |s| == 0 then Some(required) else if !IsTenDigits(s) then Some(notTenDigits) else None
  }

  lemma MobileIsTenDigits(s: string)
    requires IsMobile(s)
    ensures IsTenDigits(s)
  {
  }

  /** `[\w-]`, the characters of a domain label. */
  predicate IsLabelChar(c: char) {
    IsWordChar(c) || c == '-'
  }

  predicate AllLabelChars(s: string) {
    forall i :: 0 <= i < |s| ==> IsLabelChar(s[i])
  }

  /** `/^[\w-.]+@([\w-]+\.)+[\w-]{2,}$/`: a local part over `[\w-.]` up to the
      first '@', then at least two dot-separated labels over `[\w-]`, the last
      of length two or more. */
  predicate IsEmail(s: string) {
    match IndexOf(s, '@')
    case None => false
    case Some(at) => LocalPart(s[..at]) && DomainPart(s[at + 1..])
  }

  /** `[\w-.]+`. */
  predicate LocalPart(local: string) {
    |local| >= 1 && forall i :: 0 <= i < |local| ==> IsLabelChar(local[i]) || local[i] == '.'
  }

  /** `([\w-]+\.)+[\w-]{2,}`. */
  predicate DomainPart(domain: string) {
    var labels := Split(domain, '.');
    |labels| >= 2 && |labels[|labels| - 1]| >= 2
    && forall j :: 0 <= j < |labels| ==> |labels[j]| >= 1 && AllLabelChars(labels[j])
  }

  /** An address built the way the pattern reads is accepted. */
  lemma EmailAccepted(user: string, host: string, tld: string)
    requires |user| >= 1 && forall i :: 0 <= i < |user| ==> IsLabelChar(user[i])
    requires |host| >= 1 && AllLabelChars(host) && |tld| >= 2 && AllLabelChars(tld)
    ensures IsEmail(user + "@" + host + "." + tld)
  {
    var domain := host + "." + tld;
    DomainOfLabels(host, tld);
    assert '@' !in user by {
      assert forall i :: 0 <= i < |user| ==> user[i] != '@';
    }
    EmailOfParts(user, domain);
    AddressShape(user, host, tld);
  }

  lemma AddressShape(user: string, host: string, tld: string)
    ensures user + "@" + host + "." + tld == user + ['@'] + (host + "." + tld)
  {
    var at := user + "@";
    assert at + host + "." == at + (host + ".");
  }

  /** Two labels over `[\w-]`, the last of two characters or more, joined by
      a dot make a domain. */
  lemma DomainOfLabels(host: string, tld: string)
    requires |host| >= 1 && AllLabelChars(host) && |tld| >= 2 && AllLabelChars(tld)
    ensures DomainPart(host + "." + tld)
  {
    assert '.' !in host by { assert forall i :: 0 <= i < |host| ==> host[i] != '.'; }
    assert '.' !in tld by { assert forall i :: 0 <= i < |tld| ==> tld[i] != '.'; }
    var parts := [host, tld];
    assert parts[1..] == [tld];
    assert Join(parts, '.') == host + "." + tld;
    SplitJoin(parts, '.');
  }

  /** A local part without '@' and a domain that splits into the labels the
      pattern asks for make an address. */
  lemma EmailOfParts(local: string, domain: string)
    requires '@' !in local && LocalPart(local) && DomainPart(domain)
    ensures IsEmail(local + ['@'] + domain)
  {
    FirstIndexAfter(local, '@', domain);
    var s := local + ['@'] + domain;
    assert s[..|local|] == local;
    assert s[|local| + 1..] == domain;
  }

  /** Neither a missing '@' nor a one-label domain is an address. */
  lemma EmailRejected(s: string)
    requires '@' !in s || (exists at :: 0 <= at < |s| && s[at] == '@' && '@' !in s[..at] && '.' !in s[at + 1..])
    ensures !IsEmail(s)
  {
    if '@' in s {
      var at :| 0 <= at < |s| && s[at] == '@' && '@' !in s[..at] && '.' !in s[at + 1..];
      SplitWithout(s[at + 1..], '.');
    }
  }

  lemma SplitWithout(s: string, c: char)
    requires c !in s
    ensures Split(s, c) == [s]
  {
    SplitJoin([s], c);
  }

  /** `/(?=.*[a-zA-Z])/`. */
  predicate HasLetter(s: string) {
    exists i :: 0 <= i < |s| && IsAsciiLetter(s[i])
  }

  /** `/(?=.*\d)/`. */
  predicate HasDigit(s: string) {
    exists i :: 0 <= i < |s| && IsDigit(s[i])
  }

  /** Six characters or more, a Latin letter and a digit. */
  predicate IsStrongPassword(p: string) {
    |p| >= 6 && HasLetter(p) && HasDigit(p)
  }

  const TooShort: string := "يجب أن تكون كلمة المرور 6 أحرف على الأقل"
  const NeedsLetter: string := "يجب أن تحتوي على حرف واحد على الأقل"
  const NeedsDigit: string := "يجب أن تحتوي على رقم واحد على الأقل"

  /** `validatePassword`: one message per broken rule, in the order checked. */
  function PasswordErrors(p: string): (errors: seq<string>)
    ensures errors == [] <==> IsStrongPassword(p)
    ensures TooShort in errors <==> |p| < 6
    ensures NeedsLetter in errors <==> !HasLetter(p)
    ensures NeedsDigit in errors <==> !HasDigit(p)
    ensures |errors| <= 3
  {
    (if |p| < 6 then [TooShort] else [])
    + (if !HasLetter(p) then [NeedsLetter] else [])
    + (if !HasDigit(p) then [NeedsDigit] else [])
  }

  const Mismatch: string := "كلمات المرور غير متطابقة"

  datatype PasswordField = CurrentPassword | NewPassword | ConfirmPassword

  /** The live validation of `handleInputChange`: the error lists after
      `field` is set to `value`, given the form before the change. */
  function AfterInput(errors: map<PasswordField, seq<string>>, field: PasswordField, value: string,
                      newPassword: string, confirmPassword: string): (r: map<PasswordField, seq<string>>)
    ensures field == NewPassword ==> (NewPassword in r <==> !IsStrongPassword(value))
    ensures NewPassword in r && field == NewPassword ==> r[NewPassword] == PasswordErrors(value)
    ensures field != NewPassword ==>
      (NewPassword in r <==> NewPassword in errors) && (NewPassword in r ==> r[NewPassword] == errors[NewPassword])
    ensures field == ConfirmPassword || (field == NewPassword && confirmPassword != "") ==>
      var confirm := if field == ConfirmPassword then value else confirmPassword;
      var pw := if field == NewPassword then value else newPassword;
      (ConfirmPassword in r <==> confirm != "" && pw != confirm)
    ensures !(field == ConfirmPassword || (field == NewPassword && confirmPassword != "")) ==>
      (ConfirmPassword in r <==> ConfirmPassword in errors)
    ensures CurrentPassword in r <==> CurrentPassword in errors
  {
    var afterNew :=
      if field == NewPassword then
        (if PasswordErrors(value) != [] then errors[NewPassword := PasswordErrors(value)]
         else errors - {NewPassword})
      else errors;
    if field == ConfirmPassword || (field == NewPassword && confirmPassword != "") then
      var confirm := if field == ConfirmPassword then value else confirmPassword;
      var pw := if field == NewPassword then value else newPassword;
      if confirm != "" && pw != confirm then afterNew[ConfirmPassword := [Mismatch]]
      else afterNew - {ConfirmPassword}
    else afterNew
  }

  /** What the live validation keeps true of the password form: the
      mismatch message is shown exactly when a confirmation was typed and
      differs, and a typed new password carries its rule messages exactly when
      it is weak. */
  predicate Consistent(errors: map<PasswordField, seq<string>>, newPassword: string, confirmPassword: string) {
    CurrentPassword !in errors
    && (ConfirmPassword in errors <==> confirmPassword != "" && newPassword != confirmPassword)
    && (NewPassword in errors ==> errors[NewPassword] == PasswordErrors(newPassword) && !IsStrongPassword(newPassword))
    && (newPassword != "" ==> (NewPassword in errors <==> !IsStrongPassword(newPassword)))
  }

  /** Every keystroke keeps the form consistent. */
  lemma AfterInputConsistent(errors: map<PasswordField, seq<string>>, field: PasswordField, value: string,
                             newPassword: string, confirmPassword: string)
    requires Consistent(errors, newPassword, confirmPassword)
    ensures var pw := if field == NewPassword then value else newPassword;
      var confirm := if field == ConfirmPassword then value else confirmPassword;
      Consistent(AfterInput(errors, field, value, newPassword, confirmPassword), pw, confirm)
  {
  }
}
