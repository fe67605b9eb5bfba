/** The signed-in user's own profile: the password change with its rules
    and its two comparisons against the stored password, and the update of
    the four non-sensitive fields through a dynamically built UPDATE. The
    stored password is kept as the secret itself; hashing is not part of
    this model. */
module ProfileRoute {
  import opened Common
  import opened FormRules
  import opened SqlParams

  /** The validation chain of POST /change-password: a current password, a
      new one of six characters or more with a Latin letter and a digit,
      and a confirmation equal to it. */
  predicate ChangeRequestValid(current: string, next: string, confirm: string) {
    |current| > 0 && |next| >= 6 && HasLetter(next) && HasDigit(next) && confirm == next
  }

  /** The chain accepts exactly the strong passwords that are confirmed. */
  lemma ChangeRequestIsStrongAndConfirmed(current: string, next: string, confirm: string)
    ensures ChangeRequestValid(current, next, confirm) <==> |current| > 0 && PasswordErrors(next) == [] && confirm == next
  {
  }

  /** The columns PUT /me may set. */
  datatype ProfileColumn = Phone | Email | Address | DateOfBirth
  {
    function Name(): string {
      match this
      case Phone => "phone"
      case Email => "email"
      case Address => "address"
      case DateOfBirth => "date_of_birth"
    }
  }

  /** The PUT /me body; `None` is a field the request leaves out.
      `emailAccepted` and `isoBirthDate` are the verdicts of validator.js's
      `isEmail` and `isISO8601`, which are not part of this model. */
  datatype ProfileUpdate = ProfileUpdate(
    phone: Option<string>, email: Option<string>, emailAccepted: bool,
    address: Option<string>, birthDate: Option<string>, isoBirthDate: bool)

  /** The validation chain of PUT /me: each rule applies only to a field
      that is present (`optional()`), so an empty phone fails the pattern. */
  predicate UpdateValid(b: ProfileUpdate) {
    (b.phone.Some? ==> IsMobile(b.phone.value))
    && (b.email.Some? ==> b.emailAccepted)
    && (b.address.Some? ==> |b.address.value| <= 255)
    && (b.birthDate.Some? ==> b.isoBirthDate)
  }

  /** The fields in the order the handler adds them. */
  function Fields(b: ProfileUpdate): seq<Field<ProfileColumn, string>> {
    [Field(Phone, b.phone), Field(Email, b.email), Field(Address, b.address), Field(DateOfBirth, b.birthDate)]
  }

  /** No field provided is exactly the empty update. */
  lemma NothingProvided(b: ProfileUpdate)
    ensures Provided(Fields(b)) == [] <==> b.phone.None? && b.email.None? && b.address.None? && b.birthDate.None?
  {
    var fs := Fields(b);
    assert fs[0].value == b.phone && fs[1].value == b.email && fs[2].value == b.address && fs[3].value == b.birthDate;
  }

  type ProfileRow = map<ProfileColumn, string>

  /** Another user already has this address. */
  predicate EmailInUse(rows: map<string, ProfileRow>, id: string, email: string) {
    exists u :: u in rows && u != id && Email in rows[u] && rows[u][Email] == email
  }

  datatype Reply = Invalid | UserNotFound | WrongPassword | SamePassword | PasswordChanged
                 | EmailTaken | NoFields | Saved

  class Profiles {
    var passwords: map<string, string>
    var rows: map<string, ProfileRow>

    constructor (passwords: map<string, string>, rows: map<string, ProfileRow>)
      ensures this.passwords == passwords && this.rows == rows
    {
      this.passwords := passwords;
      this.rows := rows;
    }

    /** POST /change-password: 400 on a broken rule, 404 for an unknown
        user, 400 when the current password is wrong or the new one equals
        it; otherwise the new password is stored. */
    method ChangePassword(id: string, current: string, next: string, confirm: string) returns (reply: Reply)
      modifies this
      ensures !ChangeRequestValid(current, next, confirm) ==> reply == Invalid
      ensures ChangeRequestValid(current, next, confirm) && id !in old(passwords) ==> reply == UserNotFound
      ensures reply == PasswordChanged <==>
        ChangeRequestValid(current, next, confirm) && id in old(passwords)
        && old(passwords)[id] == current && next != current
      ensures reply == PasswordChanged ==> passwords == old(passwords)[id := next]
      ensures reply != PasswordChanged ==> passwords == old(passwords)
      ensures rows == old(rows)
    {
      if !ChangeRequestValid(current, next, confirm) {
        return Invalid;
      }
      if id !in passwords {
        return UserNotFound;
      }
      if passwords[id] != current {
        return WrongPassword;
      }
      if passwords[id] == next {
        return SamePassword;
      }
      passwords := passwords[id := next];
      reply := PasswordChanged;
    }

    /** PUT /me: 400 on a broken rule, 400 for an address another user
        has, 400 with no field; otherwise the UPDATE sets the provided
        fields from `$1` on with the id last. An unknown id updates no row. */
    method Update(id: string, b: ProfileUpdate) returns (reply: Reply, query: Option<SqlParams.Update<ProfileColumn, string>>)
      modifies this
      ensures !UpdateValid(b) ==> reply == Invalid
      ensures UpdateValid(b) && b.email.Some? && EmailInUse(old(rows), id, b.email.value) ==> reply == EmailTaken
      ensures UpdateValid(b) && !(b.email.Some? && EmailInUse(old(rows), id, b.email.value)) ==>
        (reply == NoFields <==> Provided(Fields(b)) == [])
      ensures reply == Saved <==> query.Some?
      ensures query.Some? ==> UpdatesBy(query.value, Provided(Fields(b)), id)
      ensures reply == Saved && id in old(rows) ==> rows == old(rows)[id := Assign(old(rows)[id], Provided(Fields(b)))]
      ensures !(reply == Saved && id in old(rows)) ==> rows == old(rows)
      ensures passwords == old(passwords)
    {
      if !UpdateValid(b) {
        return Invalid, None;
      }
      if b.email.Some? && EmailInUse(rows, id, b.email.value) {
        return EmailTaken, None;
      }
      query := BuildUpdate(Fields(b), id);
      if query.None? {
        return NoFields, None;
      }
      if id in rows {
        rows := rows[id := Assign(rows[id], Provided(Fields(b)))];
      }
      reply := Saved;
    }
  }
}
