/**
 * The patient profile page (src/pages/Profile.tsx): the values the form starts
 * from, the reset from the patient record the server returns, the validation
 * of `formSchema`, the conversions of the birth-date and insurance controls,
 * and the page state (`isEditing`, the form's values and defaults, and the
 * create or update requests a submit sends).
 * The e-mail check of zod and the phone check of libphonenumber are not part
 * of this model: they are the parameters `isEmail` and `nationalPhone`
 * (`None` for an invalid number, otherwise its national format).
 */
module Profile {
  import opened Wrappers
  import opened Text

  // Form values

  datatype Address = Address(street: string, city: string, state: string, postalCode: string, country: string)

  datatype EmergencyContact = EmergencyContact(fullName: string, countryCode: string, phone: string)

  /** The values the form holds; `None` is `undefined`. */
  datatype ProfileForm = ProfileForm(
    fullName: Option<string>, email: Option<string>, userId: Option<string>, image: Option<string>,
    countryCode: string, phone: string, insuranceId: Option<int>, address: Address,
    sex: string, birthDate: string, emergencyContact: EmergencyContact)

  /** `resolveUserInfo(accessToken)`: the claims of the token, each possibly absent. */
  datatype UserInfo = UserInfo(id: Option<string>, fullName: Option<string>, email: Option<string>)

  const Male: string := "MALE"
  const DefaultCountryCode: string := "+1"
  const DefaultCountry: string := "United States of America"

  function UserFullName(user: Option<UserInfo>): Option<string> {
    if user.Some? then user.value.fullName else None
  }

  function UserEmail(user: Option<UserInfo>): Option<string> {
    if user.Some? then user.value.email else None
  }

  function UserId(user: Option<UserInfo>): Option<string> {
    if user.Some? then user.value.id else None
  }

  /** The `defaultValues` the form is created with. */
  function DefaultValues(user: Option<UserInfo>): ProfileForm {
    ProfileForm(
      UserFullName(user), UserEmail(user), UserId(user), None,
      DefaultCountryCode, "", None, Address("", "", "", "", DefaultCountry),
      Male, "", EmergencyContact("", DefaultCountryCode, ""))
  }

  // Reset from the server record

  datatype PatientAddress = PatientAddress(
    street: Option<string>, city: Option<string>, state: Option<string>, postalCode: Option<string>, country: Option<string>)

  datatype PatientContact = PatientContact(fullName: Option<string>, countryCode: Option<string>, phone: Option<string>)

  /**
   * The patient record of `GET /patient/{userId}`; `None` is `null` or a missing
   * key. `insuranceId` is `insurance?.id`.
   */
  datatype PatientData = PatientData(
    id: Option<int>, fullName: Option<string>, email: Option<string>, userId: Option<string>, image: Option<string>,
    countryCode: Option<string>, phone: Option<string>, insuranceId: Option<int>, address: Option<PatientAddress>,
    sex: Option<string>, birthDate: Option<string>, emergencyContact: Option<PatientContact>)

  /** `a ?? b` on strings. */
  function OrElse(a: Option<string>, b: string): string {
    a.GetOr(b)
  }

  /** `a ?? b` where `b` may itself be `undefined`. */
  function OrMaybe(a: Option<string>, b: Option<string>): Option<string> {
    if a.Some? then a else b
  }

  /** The values `form.reset` receives when the patient record arrives. */
  function ResetValues(p: PatientData, user: Option<UserInfo>): ProfileForm {
    var address := p.address.GetOr(PatientAddress(None, None, None, None, None));
    var contact := p.emergencyContact.GetOr(PatientContact(None, None, None));
    ProfileForm(
      OrMaybe(p.fullName, UserFullName(user)), OrMaybe(p.email, UserEmail(user)), OrMaybe(p.userId, UserId(user)), p.image,
      OrElse(p.countryCode, DefaultCountryCode), OrElse(p.phone, ""), p.insuranceId,
      Address(OrElse(address.street, ""), OrElse(address.city, ""), OrElse(address.state, ""),
              OrElse(address.postalCode, ""), OrElse(address.country, "")),
      OrElse(p.sex, Male), OrElse(p.birthDate, ""),
      EmergencyContact(OrElse(contact.fullName, ""), OrElse(contact.countryCode, DefaultCountryCode), OrElse(contact.phone, "")))
  }

  /**
   * A present field always wins over its fallback (even when it is ""), and
   * the token user matters only for a missing name, e-mail or user id.
   */
  lemma ServerValuesWin(p: PatientData, user: Option<UserInfo>, other: Option<UserInfo>)
    ensures p.countryCode.Some? ==> ResetValues(p, user).countryCode == p.countryCode.value
    ensures p.phone.Some? ==> ResetValues(p, user).phone == p.phone.value
    ensures p.birthDate.Some? ==> ResetValues(p, user).birthDate == p.birthDate.value
    ensures p.sex.Some? ==> ResetValues(p, user).sex == p.sex.value
    ensures p.fullName.Some? ==> ResetValues(p, user).fullName == p.fullName
    ensures p.fullName.Some? && p.email.Some? && p.userId.Some? ==> ResetValues(p, user) == ResetValues(p, other)
    ensures ResetValues(p, user).image == p.image && ResetValues(p, user).insuranceId == p.insuranceId
  {
  }

  /**
   * A record with nothing in it resets the form to its initial defaults except
   * for one field: the country, which the defaults fill in and the reset leaves "".
   */
  lemma {:induction false} EmptyRecordResetsToDefaults(id: Option<int>, user: Option<UserInfo>)
    ensures var p := PatientData(id, None, None, None, None, None, None, None, None, None, None, None);
      && ResetValues(p, user) == DefaultValues(user).(address := DefaultValues(user).address.(country := ""))
      && ResetValues(p, user).address.country != DefaultValues(user).address.country
  {
    assert DefaultCountry[0] == 'U';
  }

  // Validation

  /** `^\d{4}-\d{2}-\d{2}$`: exactly ten characters, digits with dashes at 4 and 7. */
  predicate BirthDateShape(s: string) {
    && |s| == 10 && s[4] == '-' && s[7] == '-'
    && forall i :: 0 <= i < 10 && i != 4 && i != 7 ==> IsDigit(s[i])
  }

  /** The fields `z.string().min(1)` or `.nonempty()` demands. */
  predicate RequiredPresent(f: ProfileForm) {
    && f.fullName.Some? && f.fullName.value != ""
    && f.userId.Some? && f.userId.value != ""
    && f.countryCode != "" && f.sex != ""
    && f.address.street != "" && f.address.city != "" && f.address.state != ""
    && f.address.postalCode != "" && f.address.country != ""
    && f.emergencyContact.fullName != "" && f.emergencyContact.countryCode != "" && f.emergencyContact.phone != ""
  }

  /** Every rule of `formSchema`. */
  predicate Accepts(f: ProfileForm, isEmail: string -> bool, nationalPhone: string -> Option<string>) {
    && RequiredPresent(f)
    && f.email.Some? && isEmail(f.email.value)
    && nationalPhone(f.phone).Some?
    && f.insuranceId.Some?
    && BirthDateShape(f.birthDate)
    && nationalPhone(f.emergencyContact.phone).Some?
  }

  /** What the form hands to `onSubmit`, less the image, which no request sends. */
  datatype PatientBody = PatientBody(
    fullName: string, email: string, userId: string, countryCode: string, phone: string, insuranceId: int,
    address: Address, birthDate: string, sex: string, emergencyContact: EmergencyContact)

  datatype Submission = Submission(body: PatientBody, image: Option<string>)

  /**
   * `zodResolver(formSchema)`: the parsed values when every rule holds, with
   * both phone numbers replaced by their national format.
   */
  function Validate(f: ProfileForm, isEmail: string -> bool, nationalPhone: string -> Option<string>): (r: Option<Submission>)
    ensures r.Some? <==> Accepts(f, isEmail, nationalPhone)
    ensures r.Some? ==> && r.value.image == f.image
                        && r.value.body.fullName == f.fullName.value && r.value.body.userId == f.userId.value
                        && r.value.body.email == f.email.value
                        && r.value.body.address == f.address && r.value.body.birthDate == f.birthDate
                        && r.value.body.sex == f.sex && r.value.body.insuranceId == f.insuranceId.value
                        && r.value.body.countryCode == f.countryCode
                        && Some(r.value.body.phone) == nationalPhone(f.phone)
                        && Some(r.value.body.emergencyContact.phone) == nationalPhone(f.emergencyContact.phone)
                        && r.value.body.emergencyContact.fullName == f.emergencyContact.fullName
                        && r.value.body.emergencyContact.countryCode == f.emergencyContact.countryCode
  {
    if !Accepts(f, isEmail, nationalPhone) then None
    else
      var contact := EmergencyContact(f.emergencyContact.fullName, f.emergencyContact.countryCode,
                                      nationalPhone(f.emergencyContact.phone).value);
      Some(Submission(
        PatientBody(f.fullName.value, f.email.value, f.userId.value, f.countryCode, nationalPhone(f.phone).value,
                    f.insuranceId.value, f.address, f.birthDate, f.sex, contact),
        f.image))
  }

  /** The values the form starts with never pass: the street, among others, is empty. */
  lemma DefaultsNeverValidate(user: Option<UserInfo>, isEmail: string -> bool, nationalPhone: string -> Option<string>)
    ensures Validate(DefaultValues(user), isEmail, nationalPhone).None?
  {
  }

  /**
   * A record without an address resets to a form that cannot be submitted: the
   * country stays "", and its input is read-only.
   */
  lemma NoAddressNoSubmit(p: PatientData, user: Option<UserInfo>, isEmail: string -> bool, nationalPhone: string -> Option<string>)
    requires p.address.None?
    ensures Validate(ResetValues(p, user), isEmail, nationalPhone).None?
  {
  }

  /** A cleared birth date is refused: "" does not have the shape of a date. */
  lemma ClearedBirthDateRefused(f: ProfileForm, isEmail: string -> bool, nationalPhone: string -> Option<string>)
    requires f.birthDate == ""
    ensures Validate(f, isEmail, nationalPhone).None?
  {
  }

  // Birth date control

  /** A calendar date as the picker hands it over. */
  datatype CivilDate = CivilDate(year: nat, month: nat, day: nat)

  predicate IsLeapYear(y: nat) {
    y % 4 == 0 && (y % 100 != 0 || y % 400 == 0)
  }

  function DaysInMonth(y: nat, m: nat): nat
    requires 1 <= m <= 12
  {
    if m == 2 then (if IsLeapYear(y) then 29 else 28)
    else if m == 4 || m == 6 || m == 9 || m == 11 then 30
    else 31
  }

  /** A date `yyyy` can write in four digits. */
  predicate ValidDate(d: CivilDate) {
    d.year < 10000 && 1 <= d.month <= 12 && 1 <= d.day <= DaysInMonth(d.year, d.month)
  }

  /** `format(date, 'yyyy-MM-dd')`. */
  function FormatYmd(d: CivilDate): (s: string)
    requires ValidDate(d)
    ensures BirthDateShape(s)
  {
    var s := Pad2(d.year / 100) + Pad2(d.year % 100) + "-" + Pad2(d.month) + "-" + Pad2(d.day);
    assert forall i :: 0 <= i < 2 ==> s[i] == Pad2(d.year / 100)[i];
    assert forall i :: 2 <= i < 4 ==> s[i] == Pad2(d.year % 100)[i - 2];
    assert forall i :: 5 <= i < 7 ==> s[i] == Pad2(d.month)[i - 5];
    assert forall i :: 8 <= i < 10 ==> s[i] == Pad2(d.day)[i - 8];
    s
  }

  lemma {:induction false} DigitsSlice(s: string, i: nat, j: nat)
    requires BirthDateShape(s)
    requires i <= j <= 10 && (j <= 4 || (5 <= i && j <= 7) || 8 <= i)
    ensures AllDigits(s[i..j])
  {
    forall k | 0 <= k < j - i
      ensures IsDigit(s[i..j][k])
    {
      assert s[i..j][k] == s[i + k];
    }
  }

  /** `parse(value, 'yyyy-MM-dd', new Date())` for a value of the schema's shape; "" selects no date. */
  function ParseYmd(s: string): (r: Option<CivilDate>)
    ensures r.Some? ==> BirthDateShape(s) && ValidDate(r.value)
  {
    if !BirthDateShape(s) then None
    else
      DigitsSlice(s, 0, 4);
      DigitsSlice(s, 5, 7);
      DigitsSlice(s, 8, 10);
      var d := CivilDate(DecimalValue(s[..4]), DecimalValue(s[5..7]), DecimalValue(s[8..10]));
      if ValidDate(d) then Some(d) else None
  }

  lemma {:induction false} DecimalAppendTwo(a: string, b: string)
    requires AllDigits(a) && AllDigits(b) && |b| == 2
    ensures AllDigits(a + b)
    ensures DecimalValue(a + b) == DecimalValue(a) * 100 + DecimalValue(b)
  {
    var s := a + b;
    var t := a + b[..1];
    assert s[..|s| - 1] == t && s[|s| - 1] == b[1];
    assert t[..|t| - 1] == a && t[|t| - 1] == b[0];
    assert DecimalValue(t) == DecimalValue(a) * 10 + DigitValue(b[0]);
    assert b[..1][..0] == [];
    assert DecimalValue(b[..1]) == DigitValue(b[0]);
    assert b[..|b| - 1] == b[..1];
    assert DecimalValue(b) == DigitValue(b[0]) * 10 + DigitValue(b[1]);
  }

  /** Picking a date and showing it again in the picker gives the same date. */
  lemma {:induction false} PickedDateReadsBack(d: CivilDate)
    requires ValidDate(d)
    ensures ParseYmd(FormatYmd(d)) == Some(d)
  {
    var s := FormatYmd(d);
    var hi, lo := Pad2(d.year / 100), Pad2(d.year % 100);
    assert s[..4] == hi + lo;
    DecimalAppendTwo(hi, lo);
    assert s[5..7] == Pad2(d.month);
    assert s[8..10] == Pad2(d.day);
  }

  /** `onSelectDate`: the picked date in `yyyy-MM-dd`, or "" when the date is cleared. */
  function BirthDateValue(date: Option<CivilDate>): (s: string)
    requires date.Some? ==> ValidDate(date.value)
    ensures date.Some? ==> ParseYmd(s) == date && BirthDateShape(s)
    ensures date.None? ==> s == "" && !BirthDateShape(s)
  {
    match date
    case Some(d) => PickedDateReadsBack(d); FormatYmd(d)
    case None => ""
  }

  // Insurance control

  /** `String(n)` for an integer. */
  function IntToString(n: int): (s: string)
    ensures |s| >= 1
  {
    if n < 0 then "-" + NatToString(-n) else NatToString(n)
  }

  /** `Number(value)` for an optional minus sign followed by decimal digits ("" is 0); anything else is NaN. */
  function NumberValue(value: string): Option<int> {
    if |value| >= 2 && value[0] == '-' && AllDigits(value[1..]) then Some(0 - DecimalValue(value[1..]) as int)
    else if AllDigits(value) then Some(DecimalValue(value))
    else None
  }

  /** The value the Select shows: `String(id)`, or "" (nothing selected) when the id is falsy. */
  function InsuranceShown(insuranceId: Option<int>): (s: string)
    ensures s == "" <==> insuranceId.None? || insuranceId.value == 0
  {
    if insuranceId.Some? && insuranceId.value != 0 then IntToString(insuranceId.value) else ""
  }

  /** `insurancesData.map(...)`: one item per insurance, valued `String(id)`. */
  function InsuranceItemValues(ids: seq<int>): (r: seq<string>)
    ensures |r| == |ids|
    ensures forall i :: 0 <= i < |ids| ==> NumberValue(r[i]) == Some(ids[i])
  {
    seq(|ids|, i requires 0 <= i < |ids| => IntToStringReadsBack(ids[i]); IntToString(ids[i]))
  }

  /** `Number(String(n)) == n`. */
  lemma {:induction false} IntToStringReadsBack(n: int)
    ensures NumberValue(IntToString(n)) == Some(n)
  {
    var s := IntToString(n);
    if n < 0 {
      assert s[1..] == NatToString(-n);
    } else {
      assert s[0] != '-';
    }
  }

  /**
   * Choosing an item stores its id, and the Select then shows that item again,
   * except for id 0, which is stored but shown as nothing selected.
   */
  lemma {:induction false} ChosenInsuranceShown(ids: seq<int>, i: nat)
    requires i < |ids|
    ensures NumberValue(InsuranceItemValues(ids)[i]) == Some(ids[i])
    ensures ids[i] != 0 ==> InsuranceShown(NumberValue(InsuranceItemValues(ids)[i])) == InsuranceItemValues(ids)[i]
    ensures ids[i] == 0 ==> InsuranceShown(NumberValue(InsuranceItemValues(ids)[i])) == ""
  {
    IntToStringReadsBack(ids[i]);
  }

  // Page state

  datatype PatientRequest = PatientRequest(path: string, httpMethod: string, body: PatientBody)

  /** `patientData?.id` is truthy: present and not 0. */
  predicate HasPatientId(patientId: Option<int>) {
    patientId.Some? && patientId.value != 0
  }

  /** The request `onSubmit` sends: an update of the known patient, or a creation. */
  function SaveRequest(patientId: Option<int>, body: PatientBody): (r: PatientRequest)
    ensures r.body == body
    ensures HasPatientId(patientId) <==> r.httpMethod == "PUT"
    ensures !HasPatientId(patientId) <==> r.httpMethod == "POST" && r.path == "/patient"
  {
    if HasPatientId(patientId) then PatientRequest("/patient/" + IntToString(patientId.value), "PUT", body)
    else PatientRequest("/patient", "POST", body)
  }

  /** An update names the patient it updates. */
  lemma {:induction false} UpdateNamesPatient(id: int, body: PatientBody)
    requires id != 0
    ensures var r := SaveRequest(Some(id), body);
      |r.path| > 9 && r.path[..9] == "/patient/" && NumberValue(r.path[9..]) == Some(id)
  {
    var r := SaveRequest(Some(id), body);
    assert r.path[9..] == IntToString(id);
    IntToStringReadsBack(id);
  }

  /** The fields shown read-only while editing: name, e-mail, user id, both country codes and the country. */
  predicate SameLockedFields(a: ProfileForm, b: ProfileForm) {
    && a.fullName == b.fullName && a.email == b.email && a.userId == b.userId
    && a.countryCode == b.countryCode && a.emergencyContact.countryCode == b.emergencyContact.countryCode
    && a.address.country == b.address.country
  }

  /** Whatever is typed, a form whose locked country is "" is refused. */
  lemma LockedEmptyCountryRefused(typed: ProfileForm, shown: ProfileForm, isEmail: string -> bool, nationalPhone: string -> Option<string>)
    requires SameLockedFields(typed, shown) && shown.address.country == ""
    ensures Validate(typed, isEmail, nationalPhone).None?
  {
  }

  class ProfilePage {
    var isEditing: bool
    /** What the inputs show. */
    var values: ProfileForm
    /** What `form.reset()` goes back to: the last values passed to `form.reset(values)`. */
    var defaultValues: ProfileForm
    /** The update and create requests sent, oldest first. */
    var requests: seq<PatientRequest>

    /** The read-only fields always show what the last reset put there. */
    predicate Valid()
      reads this
    {
      SameLockedFields(values, defaultValues)
    }

    constructor(user: Option<UserInfo>)
      ensures Valid()
      ensures !isEditing && values == DefaultValues(user) && defaultValues == values && requests == []
    {
      isEditing := false;
      values := DefaultValues(user);
      defaultValues := values;
      requests := [];
    }

    /** The effect on `patientData`: nothing until a record arrives, then a reset to it. */
    method PatientDataChanged(patient: Option<PatientData>, user: Option<UserInfo>)
      requires Valid()
      modifies this
      ensures Valid()
      ensures patient.None? ==> values == old(values) && defaultValues == old(defaultValues)
      ensures patient.Some? ==> values == ResetValues(patient.value, user) && defaultValues == values
      ensures isEditing == old(isEditing) && requests == old(requests)
    {
      if patient.Some? {
        values := ResetValues(patient.value, user);
        defaultValues := values;
      }
    }

    /** `handleEdit`: Edit and Cancel both discard what was typed and flip the mode. */
    method HandleEdit()
      requires Valid()
      modifies this
      ensures Valid()
      ensures values == old(defaultValues) && defaultValues == old(defaultValues)
      ensures isEditing == !old(isEditing) && requests == old(requests)
    {
      values := defaultValues;
      isEditing := !isEditing;
    }

    /** Typing into the inputs, which accept input only while editing and never change the read-only fields. */
    method Edit(newValues: ProfileForm)
      requires Valid() && isEditing
      requires SameLockedFields(newValues, values)
      modifies this
      ensures Valid()
      ensures values == newValues
      ensures isEditing && defaultValues == old(defaultValues) && requests == old(requests)
    {
      values := newValues;
    }

    /** The birth-date picker, enabled only while editing. */
    method SelectBirthDate(date: Option<CivilDate>)
      requires Valid() && isEditing
      requires date.Some? ==> ValidDate(date.value)
      modifies this
      ensures Valid()
      ensures values == old(values).(birthDate := BirthDateValue(date))
      ensures ParseYmd(values.birthDate) == date
      ensures isEditing && defaultValues == old(defaultValues) && requests == old(requests)
    {
      values := values.(birthDate := BirthDateValue(date));
    }

    /** The insurance Select, enabled only while editing. */
    method SelectInsurance(value: string)
      requires Valid() && isEditing
      modifies this
      ensures Valid()
      ensures values == old(values).(insuranceId := NumberValue(value))
      ensures isEditing && defaultValues == old(defaultValues) && requests == old(requests)
    {
      values := values.(insuranceId := NumberValue(value));
    }

    /**
     * `form.handleSubmit(onSubmit)`, reachable only while editing (the button is
     * disabled otherwise): invalid values change nothing; valid ones end editing
     * and send one request, which never carries the image.
     */
    method Submit(patientId: Option<int>, isEmail: string -> bool, nationalPhone: string -> Option<string>)
      requires Valid() && isEditing
      modifies this
      ensures Valid()
      ensures values == old(values) && defaultValues == old(defaultValues)
      ensures !Accepts(values, isEmail, nationalPhone) ==> isEditing && requests == old(requests)
      ensures Accepts(values, isEmail, nationalPhone) ==>
        && !isEditing
        && requests == old(requests) + [SaveRequest(patientId, Validate(values, isEmail, nationalPhone).value.body)]
    {
      var parsed := Validate(values, isEmail, nationalPhone);
      if parsed.Some? {
        isEditing := false;
        requests := requests + [SaveRequest(patientId, parsed.value.body)];
      }
    }
  }

  /**
   * Editing a loaded profile and then cancelling restores what the server sent,
   * and sends nothing.
   */
  method CancelRestoresServerValues(p: PatientData, user: Option<UserInfo>, typed: ProfileForm)
    returns (shown: ProfileForm, sent: seq<PatientRequest>)
    requires SameLockedFields(typed, ResetValues(p, user))
    ensures shown == ResetValues(p, user) && sent == []
  {
    var page := new ProfilePage(user);
    page.PatientDataChanged(Some(p), user);
    page.HandleEdit();
    page.Edit(typed);
    page.HandleEdit();
    shown := page.values;
    sent := page.requests;
  }

  /**
   * A record without an address can never be saved from the page: the country
   * it resets to is "" and cannot be typed in, so every submit is refused.
   */
  method NoAddressNeverSaved(p: PatientData, user: Option<UserInfo>, typed: ProfileForm, patientId: Option<int>,
                             isEmail: string -> bool, nationalPhone: string -> Option<string>)
    returns (sent: seq<PatientRequest>)
    requires p.address.None? && SameLockedFields(typed, ResetValues(p, user))
    ensures sent == []
  {
    var page := new ProfilePage(user);
    page.PatientDataChanged(Some(p), user);
    page.HandleEdit();
    page.Edit(typed);
    LockedEmptyCountryRefused(typed, ResetValues(p, user), isEmail, nationalPhone);
    page.Submit(patientId, isEmail, nationalPhone);
    sent := page.requests;
  }
}
