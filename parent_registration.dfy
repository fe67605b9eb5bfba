/** The parent registration page: the rules `handleSubmit` checks, the list of
    children's ids the page edits, and the self-registration option. Messages
    are codes; `Text` gives the wording. */
module ParentRegistration {
  import opened Common
  import opened FormRules
  import Lists

  datatype ParentForm = ParentForm(
    id: string, firstName: string, secondName: string, thirdName: string, lastName: string,
    neighborhood: string, phone: string, email: string, password: string)

  datatype Message = Required | RequiredPhone | IdNotTenDigits | PhoneNotMobile | EmailMalformed
                   | ChildIdNotTenDigits | LevelRequired

  function Text(m: Message): string {
    match m
    case Required => "يرجى تعبئة هذا الحقل"
    case RequiredPhone => "يرجى تعبئة رقم الجوال"
    case IdNotTenDigits => "رقم الهوية يجب أن يكون مكونًا من 10 أرقام"
    case PhoneNotMobile => "رقم الجوال يجب أن يكون 10 أرقام ويبدأ بـ 05"
    case EmailMalformed => "صيغة البريد الإلكتروني غير صحيحة"
    case ChildIdNotTenDigits => "رقم الهوية يجب أن يكون 10 أرقام"
    case LevelRequired => "يرجى اختيار المرحلة الدراسية"
  }

  // The children's id inputs.

  /** `addChildId`: one more, empty, input. */
  function AddChildId(ids: seq<string>): (r: seq<string>)
    ensures |r| == |ids| + 1 && r[..|ids|] == ids && r[|ids|] == ""
  {
    ids + [""]
  }

  /** `handleChildIdChange(index, value)`. */
  function ChangeChildId(ids: seq<string>, index: int, value: string): (r: seq<string>)
    requires 0 <= index < |ids|
    ensures |r| == |ids| && r[index] == value
    ensures forall j :: 0 <= j < |ids| && j != index ==> r[j] == ids[j]
  {
    ids[index := value]
  }

  /** Adding an input and removing it again restores the list. */
  lemma AddThenRemove(ids: seq<string>)
    ensures Lists.RemoveAt(AddChildId(ids), |ids|) == ids
  {
  }

  predicate NonBlank(s: string) {
    |Trim(s)| > 0
  }

  /** `childIds.filter(id => id.trim() !== "")`. */
  function ValidChildIds(ids: seq<string>): (r: seq<string>)
    ensures forall i :: 0 <= i < |r| ==> r[i] in ids && NonBlank(r[i])
    ensures forall i :: 0 <= i < |ids| && NonBlank(ids[i]) ==> ids[i] in r
  {
    Lists.Filter(ids, (s: string) => NonBlank(s))
  }

  /** The positions `idx` in the filtered list that get a `child_id_<idx>` error. */
  function ChildIdErrors(valid: seq<string>): (r: set<nat>)
    ensures forall idx: nat :: idx in r <==> idx < |valid| && !IsTenDigits(valid[idx])
  {
    set idx: nat | idx < |valid| && !IsTenDigits(valid[idx])
  }

  datatype Errors = Errors(
    firstName: Option<Message>, secondName: Option<Message>, thirdName: Option<Message>,
    lastName: Option<Message>, id: Option<Message>, phone: Option<Message>,
    neighborhood: Option<Message>, email: Option<Message>, password: Option<Message>,
    childIds: set<nat>, selfSchoolLevel: Option<Message>)

  predicate IsEmpty(e: Errors) {
    e.firstName.None? && e.secondName.None? && e.thirdName.None? && e.lastName.None?
    && e.id.None? && e.phone.None? && e.neighborhood.None? && e.email.None? && e.password.None?
    && e.childIds == {} && e.selfSchoolLevel.None?
  }

  /** Every rule of the page holds. */
  predicate Acceptable(f: ParentForm, childIds: seq<string>, registerSelf: bool, level: string) {
    |f.firstName| > 0 && |f.secondName| > 0 && |f.thirdName| > 0 && |f.lastName| > 0
    && IsTenDigits(f.id) && IsMobile(f.phone) && |f.neighborhood| > 0 && IsEmail(f.email)
    && |f.password| > 0
    && (forall i :: 0 <= i < |childIds| && NonBlank(childIds[i]) ==> IsTenDigits(childIds[i]))
    && (registerSelf ==> |level| > 0)
  }

  function CheckedError(s: string, valid: bool, required: Message, malformed: Message): (r: Option<Message>)
    ensures r.Some? <==> |s| == 0 || !valid
    ensures r == Some(required) ==> |s| == 0 || required == malformed
  {
    if |s| == 0 then Some(required) else if !valid then Some(malformed) else None
  }

  lemma NoChildErrors(ids: seq<string>)
    ensures ChildIdErrors(ValidChildIds(ids)) == {} <==>
      forall i :: 0 <= i < |ids| && NonBlank(ids[i]) ==> IsTenDigits(ids[i])
  {
    var valid := ValidChildIds(ids);
    if ChildIdErrors(valid) == {} {
      forall i | 0 <= i < |ids| && NonBlank(ids[i])
        ensures IsTenDigits(ids[i])
      {
        var idx :| 0 <= idx < |valid| && valid[idx] == ids[i];
        assert idx !in ChildIdErrors(valid);
      }
    } else {
      var idx :| idx in ChildIdErrors(valid);
      var i :| 0 <= i < |ids| && ids[i] == valid[idx];
    }
  }

  /** The errors `handleSubmit` collects; the object is empty exactly when every rule holds. */
  function Validate(f: ParentForm, childIds: seq<string>, registerSelf: bool, level: string): (e: Errors)
    ensures IsEmpty(e) <==> Acceptable(f, childIds, registerSelf, level)
    ensures e.selfSchoolLevel.Some? <==> registerSelf && |level| == 0
  {
    NoChildErrors(childIds);
    Errors(RequiredError(f.firstName, Required), RequiredError(f.secondName, Required),
      RequiredError(f.thirdName, Required), RequiredError(f.lastName, Required),
      CheckedError(f.id, IsTenDigits(f.id), Required, IdNotTenDigits),
      CheckedError(f.phone, IsMobile(f.phone), RequiredPhone, PhoneNotMobile),
      RequiredError(f.neighborhood, Required), CheckedError(f.email, IsEmail(f.email), Required, EmailMalformed),
      RequiredError(f.password, Required), ChildIdErrors(ValidChildIds(childIds)),
      if registerSelf && |level| == 0 then Some(LevelRequired) else None)
  }

  /** What is posted: the form, the non-blank children's ids, and the school
      level only when the parent registers as a student too. */
  datatype Registration = Registration(
    form: ParentForm, childIds: seq<string>, registerSelf: bool, selfSchoolLevel: Option<string>)

  /** `handleSubmit`: nothing is sent while errors exist. */
  function Submit(f: ParentForm, childIds: seq<string>, registerSelf: bool, level: string): (r: Option<Registration>)
    ensures r.Some? <==> Acceptable(f, childIds, registerSelf, level)
    ensures r.Some? ==> r.value.form == f && r.value.registerSelf == registerSelf
    ensures r.Some? ==> forall c :: c in r.value.childIds ==> IsTenDigits(c)
    ensures r.Some? ==> forall i :: 0 <= i < |childIds| && NonBlank(childIds[i]) ==> childIds[i] in r.value.childIds
    ensures r.Some? ==> (r.value.selfSchoolLevel.Some? <==> registerSelf)
    ensures r.Some? && registerSelf ==> r.value.selfSchoolLevel == Some(level) && |level| > 0
  {
    if !IsEmpty(Validate(f, childIds, registerSelf, level)) then None
    else
      var valid := ValidChildIds(childIds);
      assert ChildIdErrors(valid) == {};
      Some(Registration(f, valid, registerSelf, if registerSelf then Some(level) else None))
  }
}
