/** The reset-password page reached from an e-mailed link: the token guard,
    the live validation shared with the change-password modal, and the
    enabling rule of its submit button. */
module ResetPasswordPage {
  import opened Common
  import opened FormRules
  import ForgotPasswordRoute

  const InvalidLink: string := "رابط إعادة تعيين كلمة المرور غير صحيح"
  const ExpiredLink: string := "رابط إعادة تعيين كلمة المرور غير صحيح أو منتهي الصلاحية"

  /** The messages of the verify-token handler's error replies. */
  const TokenRefused: string := "Invalid or expired reset token"
  const VerifyFailed: string := "Failed to verify token"
  const ValidationFailed: string := "Validation failed"

  /** The verify-token reply as the page sees it after axios: a 2xx body
      with `valid` true or false, or a thrown error whose body may carry an
      `error` message. */
  datatype Answer = Accepted | NotValid | Refused(message: Option<string>)

  /** What the page receives from each reply the verify-token handler
      sends: every error reply carries an `error` field, and its only 2xx
      reply has `valid` true. */
  function Seen(r: ForgotPasswordRoute.Reply): (a: Answer)
    requires r.Invalid? || r.BadToken? || r.ServerError? || r.Valid?
    ensures a == Accepted <==> r.Valid?
    ensures a != NotValid
    ensures a.Refused? ==> a.message.Some? && a.message.value != ExpiredLink
    ensures r.BadToken? ==> a == Refused(Some(TokenRefused))
    ensures r.ServerError? ==> a == Refused(Some(VerifyFailed))
  {
    match r
    case Valid(_) => Accepted
    case BadToken => Refused(Some(TokenRefused))
    case ServerError => Refused(Some(VerifyFailed))
    case Invalid => Refused(Some(ValidationFailed))
  }

  class ResetForm {
    var newPassword: string
    var confirmPassword: string
    var verifying: bool
    var tokenValid: bool
    var error: string
    var validationErrors: map<PasswordField, seq<string>>

    ghost predicate Valid()
      reads this
    {
      Consistent(validationErrors, newPassword, confirmPassword)
    }

    constructor ()
      ensures Valid() && verifying && !tokenValid
      ensures newPassword == "" && confirmPassword == "" && error == "" && validationErrors == map[]
    {
      newPassword, confirmPassword := "", "";
      verifying := true;
      tokenValid := false;
      error := "";
      validationErrors := map[];
    }

    /** The mount effect: without a token the page shows the invalid-link
        message and never asks the server. Otherwise `answer` is the
        server's reply as the page sees it: a 2xx with `valid` true keeps the
        error as it was and marks the token valid, a 2xx with `valid` false
        shows the expired-link message, and an error reply shows its `error`
        field, falling back to the expired-link message without one. */
    method CheckToken(token: string, answer: Answer) returns (askedServer: bool)
      modifies this
      ensures askedServer <==> token != ""
      ensures token == "" ==> error == InvalidLink && tokenValid == old(tokenValid)
      ensures token != "" && answer == Accepted ==> error == old(error) && tokenValid
      ensures token != "" && answer == NotValid ==> error == ExpiredLink && tokenValid == old(tokenValid)
      ensures token != "" && answer.Refused? ==> error == answer.message.GetOr(ExpiredLink) && tokenValid == old(tokenValid)
      ensures !verifying
      ensures newPassword == old(newPassword) && confirmPassword == old(confirmPassword)
      ensures validationErrors == old(validationErrors)
    {
      if token == "" {
        error := InvalidLink;
        verifying := false;
        return false;
      }
      match answer {
        case Accepted => tokenValid := true;
        case NotValid => error := ExpiredLink;
        case Refused(message) => error := message.GetOr(ExpiredLink);
      }
      verifying := false;
      return true;
    }

    /** The mount effect against the verify-token handler itself: a token
        the server refuses shows the server's own English message, and a
        handler failure shows its message; neither shows `ExpiredLink`. */
    method CheckTokenWith(service: ForgotPasswordRoute.ResetService, token: string, now: int) returns (askedServer: bool)
      modifies this
      ensures askedServer <==> token != ""
      ensures token == "" ==> error == InvalidLink
      ensures token != "" && ForgotPasswordRoute.FirstUsable(service.tokens, token, now, service.users).None? ==>
        error == TokenRefused && tokenValid == old(tokenValid)
      ensures var first := ForgotPasswordRoute.FirstUsable(service.tokens, token, now, service.users);
        token != "" && first.Some? && service.users[service.tokens[first.value].userId].email.None? ==>
          error == VerifyFailed && tokenValid == old(tokenValid)
      ensures var first := ForgotPasswordRoute.FirstUsable(service.tokens, token, now, service.users);
        token != "" && first.Some? && service.users[service.tokens[first.value].userId].email.Some? ==>
          error == old(error) && tokenValid
      ensures !verifying
      ensures newPassword == old(newPassword) && confirmPassword == old(confirmPassword)
      ensures validationErrors == old(validationErrors)
    {
      if token == "" {
        askedServer := CheckToken(token, Accepted);
        return;
      }
      var reply := service.Verify(token, now);
      askedServer := CheckToken(token, Seen(reply));
    }

    /** `handleInputChange` on the two password fields. */
    method HandleInputChange(field: PasswordField, value: string)
      requires Valid() && field != CurrentPassword
      modifies this
      ensures Valid()
      ensures validationErrors == AfterInput(old(validationErrors), field, value, old(newPassword), old(confirmPassword))
      ensures newPassword == (if field == NewPassword then value else old(newPassword))
      ensures confirmPassword == (if field == ConfirmPassword then value else old(confirmPassword))
      ensures error == "" && verifying == old(verifying) && tokenValid == old(tokenValid)
    {
      AfterInputConsistent(validationErrors, field, value, newPassword, confirmPassword);
      validationErrors := AfterInput(validationErrors, field, value, newPassword, confirmPassword);
      if field == NewPassword {
        newPassword := value;
      } else {
        confirmPassword := value;
      }
      error := "";
    }

    /** `isFormValid`: both fields set and equal with no messages, so a
        consistent form only submits a strong password. */
    function IsFormValid(): (ok: bool)
      reads this
      ensures ok && Consistent(validationErrors, newPassword, confirmPassword) ==> IsStrongPassword(newPassword)
    {
      newPassword != "" && confirmPassword != "" && newPassword == confirmPassword && |validationErrors| == 0
    }
  }
}
