/** The change-password modal: three fields, their visibility toggles, the
    live validation map and the submit button's enabling rule. */
module ChangePasswordModal {
  import opened FormRules

  class PasswordForm {
    var currentPassword: string
    var newPassword: string
    var confirmPassword: string
    var showCurrent: bool
    var showNew: bool
    var showConfirm: bool
    var error: string
    var validationErrors: map<PasswordField, seq<string>>

    ghost predicate Valid()
      reads this
    {
      Consistent(validationErrors, newPassword, confirmPassword)
    }

    constructor ()
      ensures Valid()
      ensures currentPassword == "" && newPassword == "" && confirmPassword == ""
      ensures validationErrors == map[] && error == ""
      ensures !showCurrent && !showNew && !showConfirm
    {
      currentPassword, newPassword, confirmPassword := "", "", "";
      showCurrent, showNew, showConfirm := false, false, false;
      error := "";
      validationErrors := map[];
    }

    /** `handleInputChange`: stores the value, clears the banner and revalidates. */
    method HandleInputChange(field: PasswordField, value: string)
      requires Valid()
      modifies this
      ensures Valid()
      ensures validationErrors == AfterInput(old(validationErrors), field, value, old(newPassword), old(confirmPassword))
      ensures currentPassword == (if field == CurrentPassword then value else old(currentPassword))
      ensures newPassword == (if field == NewPassword then value else old(newPassword))
      ensures confirmPassword == (if field == ConfirmPassword then value else old(confirmPassword))
      ensures error == ""
      ensures showCurrent == old(showCurrent) && showNew == old(showNew) && showConfirm == old(showConfirm)
    {
      AfterInputConsistent(validationErrors, field, value, newPassword, confirmPassword);
      validationErrors := AfterInput(validationErrors, field, value, newPassword, confirmPassword);
      match field {
        case CurrentPassword => currentPassword := value;
        case NewPassword => newPassword := value;
        case ConfirmPassword => confirmPassword := value;
      }
      error := "";
    }

    /** `handleClose`: every field, toggle and message back to its initial value. */
    method HandleClose()
      modifies this
      ensures Valid()
      ensures currentPassword == "" && newPassword == "" && confirmPassword == ""
      ensures !showCurrent && !showNew && !showConfirm
      ensures error == "" && validationErrors == map[]
    {
      currentPassword, newPassword, confirmPassword := "", "", "";
      showCurrent, showNew, showConfirm := false, false, false;
      error := "";
      validationErrors := map[];
    }

    /** `isFormValid`; on a form the live validation has kept consistent, an
        enabled button means the new password is strong and confirmed. */
    function IsFormValid(): (ok: bool)
      reads this
      ensures ok && Consistent(validationErrors, newPassword, confirmPassword) ==> IsStrongPassword(newPassword)
    {
      currentPassword != "" && newPassword != "" && confirmPassword != ""
      && newPassword == confirmPassword && |validationErrors| == 0
    }
  }
}
