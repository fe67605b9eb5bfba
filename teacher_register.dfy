/** The teacher sign-up page: the field rules of `validate` and the submit
    guard. The page always registers the role "Teacher". The error object is
    a record with one optional message per input; messages are kept as codes
    and `Text` gives the Arabic wording the page shows. */
module TeacherRegister {
  import opened Common
  import opened FormRules

  const Role: string := "Teacher"

  datatype TeacherForm = TeacherForm(
    firstName: string, secondName: string, thirdName: string, lastName: string,
    id: string, phone: string, neighborhood: string, email: string, password: string)

  datatype Message = Required | RequiredPhone | IdNotTenDigits | PhoneNotMobile | EmailMalformed | PasswordTooShort

  function Text(m: Message): string {
    match m
    case Required => "يرجى تعبئة هذا الحقل"
    case RequiredPhone => "يرجى تعبئة رقم الجوال"
    case IdNotTenDigits => "رقم الهوية يجب أن يكون 10 أرقام"
    case PhoneNotMobile => "رقم الجوال يجب أن يكون 10 أرقام ويبدأ بـ 05"
    case EmailMalformed => "صيغة البريد الإلكتروني غير صحيحة"
    case PasswordTooShort => "كلمة المرور يجب أن تكون 6 أحرف أو أكثر"
  }

  /** The `errors` object: a key is present when its field is Some. */
  datatype Errors = Errors(
    firstName: Option<Message>, secondName: Option<Message>, thirdName: Option<Message>,
    lastName: Option<Message>, id: Option<Message>, phone: Option<Message>,
    neighborhood: Option<Message>, email: Option<Message>, password: Option<Message>)

  const NoErrors: Errors := Errors(None, None, None, None, None, None, None, None, None)

  /** `Object.keys(errors).length === 0`. */
  predicate IsEmpty(e: Errors) {
    e.firstName.None? && e.secondName.None? && e.thirdName.None? && e.lastName.None?
    && e.id.None? && e.phone.None? && e.neighborhood.None? && e.email.None? && e.password.None?
  }

  /** Every rule of the page holds. */
  predicate Acceptable(f: TeacherForm) {
    |f.firstName| > 0 && |f.secondName| > 0 && |f.thirdName| > 0 && |f.lastName| > 0
    && IsTenDigits(f.id) && IsMobile(f.phone) && |f.neighborhood| > 0
    && IsEmail(f.email) && |f.password| >= 6
  }

  /** The phone: required, then `^05\d{8}$`. */
  function PhoneError(s: string): (m: Option<Message>)
    ensures m.Some? <==> !IsMobile(s)
    ensures m == Some(RequiredPhone) <==> |s| == 0
  {
    if |s| == 0 then Some(RequiredPhone) else if !IsMobile(s) then Some(PhoneNotMobile) else None
  }

  /** The e-mail: required, then the address pattern. */
  function EmailError(s: string): (m: Option<Message>)
    ensures m.Some? <==> !IsEmail(s)
    ensures m == Some(Required) <==> |s| == 0
  {
    if |s| == 0 then Some(Required) else if !IsEmail(s) then Some(EmailMalformed) else None
  }

  /** The password: required, then six characters. */
  function PasswordError(s: string): (m: Option<Message>)
    ensures m.Some? <==> |s| < 6
    ensures m == Some(Required) <==> |s| == 0
  {
    if |s| == 0 then Some(Required) else if |s| < 6 then Some(PasswordTooShort) else None
  }

  /** `validate`: one message per failing input; the object is empty exactly
      when every rule holds. */
  function Validate(f: TeacherForm): (e: Errors)
    ensures IsEmpty(e) <==> Acceptable(f)
    ensures e.id.Some? <==> !IsTenDigits(f.id)
    ensures e.phone.Some? <==> !IsMobile(f.phone)
    ensures e.email.Some? <==> !IsEmail(f.email)
    ensures e.password.Some? <==> |f.password| < 6
  {
    Errors(RequiredError(f.firstName, Required), RequiredError(f.secondName, Required),
      RequiredError(f.thirdName, Required), RequiredError(f.lastName, Required),
      IdError(f.id, Required, IdNotTenDigits), PhoneError(f.phone), RequiredError(f.neighborhood, Required),
      EmailError(f.email), PasswordError(f.password))
  }

  /** `handleSubmit`: the form is sent only when `validate` finds nothing. */
  function HandleSubmit(f: TeacherForm): (sent: bool)
    ensures sent <==> Acceptable(f)
  {
    IsEmpty(Validate(f))
  }
}
