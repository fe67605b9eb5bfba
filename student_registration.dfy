/** The student self-registration page: the rules `handleSubmit` checks before
    sending, and the payload it sends. Messages are codes; `Text` gives the
    wording. */
module StudentRegistration {
  import opened Common
  import opened FormRules

  datatype StudentForm = StudentForm(
    id: string, firstName: string, secondName: string, thirdName: string, lastName: string,
    phone: string, email: string, password: string, schoolLevel: string, dateOfBirth: string,
    parentId: string)

  datatype Message = Required | IdNotTenDigits | LevelRequired | BirthDateRequired
                   | PhoneNotMobile | EmailMalformed | ParentIdNotTenDigits

  function Text(m: Message): string {
    match m
    case Required => "يرجى تعبئة هذا الحقل"
    case IdNotTenDigits => "رقم الهوية يجب أن يكون مكونًا من 10 أرقام"
    case LevelRequired => "يرجى اختيار المرحلة الدراسية"
    case BirthDateRequired => "يرجى إدخال تاريخ الميلاد"
    case PhoneNotMobile => "رقم الجوال يجب أن يكون 10 أرقام ويبدأ بـ 05"
    case EmailMalformed => "صيغة البريد الإلكتروني غير صحيحة"
    case ParentIdNotTenDigits => "رقم هوية ولي الأمر يجب أن يكون 10 أرقام"
  }

  datatype Errors = Errors(
    firstName: Option<Message>, secondName: Option<Message>, thirdName: Option<Message>,
    lastName: Option<Message>, id: Option<Message>, schoolLevel: Option<Message>,
    dateOfBirth: Option<Message>, password: Option<Message>, phone: Option<Message>,
    email: Option<Message>, parentId: Option<Message>)

  predicate IsEmpty(e: Errors) {
    e.firstName.None? && e.secondName.None? && e.thirdName.None? && e.lastName.None?
    && e.id.None? && e.schoolLevel.None? && e.dateOfBirth.None? && e.password.None?
    && e.phone.None? && e.email.None? && e.parentId.None?
  }

  /** The required fields are filled and the optional ones, when given, are well formed. */
  predicate Acceptable(f: StudentForm) {
    |f.firstName| > 0 && |f.secondName| > 0 && |f.thirdName| > 0 && |f.lastName| > 0
    && IsTenDigits(f.id) && |f.schoolLevel| > 0 && |f.dateOfBirth| > 0 && |f.password| > 0
    && (|f.phone| > 0 ==> IsMobile(f.phone))
    && (|f.email| > 0 ==> IsEmail(f.email))
    && (|f.parentId| > 0 ==> IsTenDigits(f.parentId))
  }

  /** An optional field: checked only when it is non-empty. */
  function OptionalError(s: string, valid: bool, m: Message): (r: Option<Message>)
    ensures r.Some? <==> |s| > 0 && !valid
  {
    if |s| > 0 && !valid then Some(m) else None
  }

  /** The errors `handleSubmit` collects. */
  function Validate(f: StudentForm): (e: Errors)
    ensures IsEmpty(e) <==> Acceptable(f)
    ensures e.phone.Some? <==> |f.phone| > 0 && !IsMobile(f.phone)
    ensures e.email.Some? <==> |f.email| > 0 && !IsEmail(f.email)
    ensures e.parentId.Some? <==> |f.parentId| > 0 && !IsTenDigits(f.parentId)
  {
    Errors(RequiredError(f.firstName, Required), RequiredError(f.secondName, Required),
      RequiredError(f.thirdName, Required), RequiredError(f.lastName, Required), IdError(f.id, Required, IdNotTenDigits),
      RequiredError(f.schoolLevel, LevelRequired), RequiredError(f.dateOfBirth, BirthDateRequired),
      RequiredError(f.password, Required),
      OptionalError(f.phone, IsMobile(f.phone), PhoneNotMobile),
      OptionalError(f.email, IsEmail(f.email), EmailMalformed),
      OptionalError(f.parentId, IsTenDigits(f.parentId), ParentIdNotTenDigits))
  }

  /** What is posted: the form with an empty parent id sent as null. */
  datatype Registration = Registration(form: StudentForm, parentId: Option<string>)

  /** `handleSubmit`: nothing is sent while errors exist. */
  function Submit(f: StudentForm): (r: Option<Registration>)
    ensures r.Some? <==> Acceptable(f)
    ensures r.Some? ==> r.value.form == f
    ensures r.Some? ==> (r.value.parentId.None? <==> |f.parentId| == 0)
    ensures r.Some? && r.value.parentId.Some? ==> IsTenDigits(r.value.parentId.value)
  {
    if !IsEmpty(Validate(f)) then None
    else Some(Registration(f, if |f.parentId| == 0 then None else Some(f.parentId)))
  }
}
