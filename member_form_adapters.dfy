/** The adapters between the member form and the server actions: a view
    becomes form values for editing, and form values become the request of
    the register or the update action. */
module MemberFormAdapters {
  import opened Wrappers
  import opened Text
  import opened Js
  import opened Dates
  import opened MemberEntity
  import opened Mappers
  import opened MemberRecordMapper
  import opened Validators
  import opened MemberForm
  import RegisterMemberAction
  import UpdateMemberAction

  /** `toDateInput`: the `YYYY-MM-DD` value of a date input, from the UTC
      parts of `new Date(value)` (here `parse(value)`); empty for an empty
      value or an invalid date. */
  function ToDateInput(value: string, parse: string -> JsDate): (r: string)
    ensures value == [] || !Renders(parse(value)) ==> r == []
    ensures value != [] && Renders(parse(value)) ==> r == DateInputOfTime(parse(value).at.epochMillis)
  {
    if value == [] then []
    else
      var date := parse(value);
      if !Renders(date) then [] else DateInputOfTime(date.at.epochMillis)
  }

  /** A view's date, rendered by `toISOString` and read back, becomes the
      first ten characters of that ISO string in the four-digit years. */
  lemma ViewDateBecomesDateInput(t: int, parse: string -> JsDate)
    requires InTimeRange(t) && 1000 <= CivilFromDays(t / MS_PER_DAY).year <= 9999
    requires parse(IsoOfTime(t)) == ValidDate(Instant(t))
    ensures ToDateInput(ToIsoString(ValidDate(Instant(t))).value, parse) == IsoOfTime(t)[..10]
  {
    IsoLength(t);
    DateInputIsIsoPrefix(t);
  }

  /** `toNullable`: the trimmed text, or null when it is blank. */
  function ToNullable(value: string): (r: JsValue)
    ensures r == Null <==> IsBlank(value)
    ensures r != Null ==> r == Str(Trim(value))
  {
    var trimmed := Trim(value);
    if trimmed != [] then Str(trimmed) else Null
  }

  /** `toOptional`: the trimmed text, or undefined when it is blank. */
  function ToOptional(value: string): (r: JsValue)
    ensures r == Undef <==> IsBlank(value)
    ensures r != Undef ==> r == Str(Trim(value))
  {
    var trimmed := Trim(value);
    if trimmed != [] then Str(trimmed) else Undef
  }

  /** The server sanitises what the adapters send to what it would make of
      the raw text: trimming on both sides agrees. */
  lemma AdaptersAgreeWithServer(value: string)
    ensures TrimmedText(ToNullable(value)) == TrimmedText(Str(value))
    ensures TrimmedText(ToOptional(value)) == TrimmedText(Str(value))
  {
    TrimIdempotent(value);
  }

  /** `memberViewToFormValues`: the view's own values over the empty form,
      `literacy` always checked, the dates as date-input values and the
      profession set (empty when the view has none). */
  function MemberViewToFormValues(view: MemberView, parse: string -> JsDate): (r: MemberFormValues)
    ensures r.literacy
    ensures r.professionOfFaithDate == EMPTY_FORM_VALUES.professionOfFaithDate
    ensures r.profession == Some(OrEmpty(view.profession))
    ensures r.birthDate == ToDateInput(view.birthDate, parse)
    ensures r.receptionDate == ToDateInput(view.reception.date, parse)
    ensures r.email == OrEmpty(view.email) && r.phone == OrEmpty(view.phone) && r.cpf == OrEmpty(view.cpf)
    ensures r.addressNumber == OrEmpty(view.address.number) && r.addressZip == OrEmpty(view.address.zip)
    ensures r.addressDistrict == OrEmpty(view.address.district) && r.addressState == OrEmpty(view.address.state)
    ensures r.addressComplement == OrEmpty(view.address.complement)
    ensures r.addressStreet == view.address.street && r.addressCity == view.address.city
    ensures r.fullName == view.fullName && r.sex == view.sex && r.maritalStatus == view.maritalStatus
    ensures r.classification == view.classification
    ensures r.placeOfBirth == view.placeOfBirth && r.celebrant == view.celebrant
    ensures r.religiousBackground == view.religiousBackground && r.baptizedInInfancy == view.baptizedInInfancy
    ensures r.receptionMode == view.reception.mode && r.receptionLocation == view.reception.location
  {
    var base := CreateEmptyMemberFormValues();
    base.(
      fullName := view.fullName,
      email := OrEmpty(view.email),
      phone := OrEmpty(view.phone),
      cpf := OrEmpty(view.cpf),
      sex := view.sex,
      maritalStatus := view.maritalStatus,
      classification := view.classification,
      birthDate := ToDateInput(view.birthDate, parse),
      placeOfBirth := view.placeOfBirth,
      literacy := true,
      profession := Some(OrEmpty(view.profession)),
      celebrant := view.celebrant,
      religiousBackground := view.religiousBackground,
      receptionDate := ToDateInput(view.reception.date, parse),
      receptionMode := view.reception.mode,
      receptionLocation := view.reception.location,
      baptizedInInfancy := view.baptizedInInfancy,
      addressStreet := view.address.street,
      addressNumber := OrEmpty(view.address.number),
      addressDistrict := OrEmpty(view.address.district),
      addressCity := view.address.city,
      addressState := OrEmpty(view.address.state),
      addressZip := OrEmpty(view.address.zip),
      addressComplement := OrEmpty(view.address.complement))
  }

  /** The edit form never starts complete: the view carries no profession
      of faith date, so `validate` asks for one before any edit is sent. */
  lemma EditFormNeedsProfessionOfFaithDate(view: MemberView, parse: string -> JsDate)
    ensures PROFESSION_DATE_REQUIRED in ValidationErrors(MemberViewToFormValues(view, parse), Edit)
    ensures !FormIsComplete(MemberViewToFormValues(view, parse), Edit)
  {
    var form := MemberViewToFormValues(view, parse);
    NoErrorsIffComplete(form, Edit);
    assert OtherErrors(form, Edit)[|OtherErrors(form, Edit)| - |MessageIf(form.sex == [], SEX_REQUIRED)
      + MessageIf(form.maritalStatus == [], MARITAL_STATUS_REQUIRED)
      + MessageIf(form.receptionMode == [], RECEPTION_MODE_REQUIRED)
      + MessageIf(false, CLASSIFICATION_REQUIRED)| - 1] == PROFESSION_DATE_REQUIRED;
  }

  /** A profession the form may carry: undefined when it has none. */
  function ProfessionValue(p: Option<string>): JsValue
  {
    if p.Some? then Str(p.value) else Undef
  }

  /** The address object both builders send: street and city as typed, the
      other parts through `toOptional`. */
  function FormAddress(values: MemberFormValues): JsValue
  {
    Obj(map["street" := Str(values.addressStreet), "city" := Str(values.addressCity),
            "number" := ToOptional(values.addressNumber), "district" := ToOptional(values.addressDistrict),
            "state" := ToOptional(values.addressState), "zip" := ToOptional(values.addressZip),
            "complement" := ToOptional(values.addressComplement)])
  }

  /** The reception object both builders send, as typed. */
  function FormReception(values: MemberFormValues): JsValue
  {
    Obj(map["date" := Str(values.receptionDate), "mode" := Str(values.receptionMode),
            "location" := Str(values.receptionLocation)])
  }

  /** The server accepts the address the form sends exactly when the
      form's own street and city checks pass, and trims the street and the
      city the form sends as typed. */
  lemma FormAddressAccepted(values: MemberFormValues)
    ensures BuildMemberAddress(FormAddress(values)).Success? <==>
      !IsBlank(TextOf(values, AddressStreet)) && !IsBlank(TextOf(values, AddressCity))
    ensures BuildMemberAddress(FormAddress(values)).Success? ==>
      && BuildMemberAddress(FormAddress(values)).value.street == Trim(values.addressStreet)
      && BuildMemberAddress(FormAddress(values)).value.city == Trim(values.addressCity)
      && BuildMemberAddress(FormAddress(values)).value.zip == TrimmedText(Str(values.addressZip))
  {
    var v := FormAddress(values);
    assert Get(v, "street") == Str(values.addressStreet) && Get(v, "city") == Str(values.addressCity);
    assert Get(v, "zip") == ToOptional(values.addressZip);
    AdaptersAgreeWithServer(values.addressZip);
  }

  /** `buildRegisterMemberInput`, as the register action reads it: the
      contacts through `toNullable`, every other text as typed, and no
      `professionOfFaithDate` (undefined). */
  function BuildRegisterMemberInput(values: MemberFormValues): (r: RegisterMemberAction.RegisterMemberActionInput)
    ensures r.professionOfFaithDate == Undef
    ensures r.email == ToNullable(values.email) && r.phone == ToNullable(values.phone) && r.cpf == ToNullable(values.cpf)
    ensures r.fullName == Str(values.fullName) && r.classification == Str(values.classification)
    ensures r.sex == Str(values.sex) && r.maritalStatus == Str(values.maritalStatus)
    ensures r.birthDate == Str(values.birthDate) && r.placeOfBirth == Str(values.placeOfBirth)
    ensures r.celebrant == Str(values.celebrant) && r.religiousBackground == Str(values.religiousBackground)
    ensures r.literacy == Bool(values.literacy) && r.baptizedInInfancy == Bool(values.baptizedInInfancy)
    ensures r.address == FormAddress(values) && r.reception == FormReception(values)
  {
    RegisterMemberAction.RegisterMemberActionInput(
      sex := Str(values.sex),
      cpf := ToNullable(values.cpf),
      email := ToNullable(values.email),
      phone := ToNullable(values.phone),
      address := FormAddress(values),
      fullName := Str(values.fullName),
      literacy := Bool(values.literacy),
      birthDate := Str(values.birthDate),
      reception := FormReception(values),
      celebrant := Str(values.celebrant),
      professionOfFaithDate := Undef,
      placeOfBirth := Str(values.placeOfBirth),
      maritalStatus := Str(values.maritalStatus),
      classification := Str(values.classification),
      baptizedInInfancy := Bool(values.baptizedInInfancy),
      religiousBackground := Str(values.religiousBackground))
  }

  /** `buildUpdateMemberInput`, as the update action reads it: the same
      request with the member id and without the classification; every
      property it reads is present. */
  function BuildUpdateMemberInput(memberId: string, values: MemberFormValues)
    : (r: UpdateMemberAction.UpdateMemberActionInput)
    ensures r.memberId == Some(Str(memberId))
    ensures r.email == Some(ToNullable(values.email)) && r.phone == Some(ToNullable(values.phone))
    ensures r.cpf == Some(ToNullable(values.cpf))
    ensures r.profession == Some(ProfessionValue(values.profession))
    ensures r.fullName == Some(Str(values.fullName))
    ensures r.sex == Some(Str(values.sex)) && r.maritalStatus == Some(Str(values.maritalStatus))
    ensures r.birthDate == Some(Str(values.birthDate)) && r.placeOfBirth == Some(Str(values.placeOfBirth))
    ensures r.celebrant == Some(Str(values.celebrant)) && r.religiousBackground == Some(Str(values.religiousBackground))
    ensures r.literacy == Some(Bool(values.literacy)) && r.baptizedInInfancy == Some(Bool(values.baptizedInInfancy))
    ensures r.address == Some(FormAddress(values)) && r.reception == Some(FormReception(values))
  {
    UpdateMemberAction.UpdateMemberActionInput(
      memberId := Some(Str(memberId)),
      cpf := Some(ToNullable(values.cpf)),
      sex := Some(Str(values.sex)),
      email := Some(ToNullable(values.email)),
      phone := Some(ToNullable(values.phone)),
      fullName := Some(Str(values.fullName)),
      address := Some(FormAddress(values)),
      literacy := Some(Bool(values.literacy)),
      birthDate := Some(Str(values.birthDate)),
      reception := Some(FormReception(values)),
      celebrant := Some(Str(values.celebrant)),
      profession := Some(ProfessionValue(values.profession)),
      placeOfBirth := Some(Str(values.placeOfBirth)),
      maritalStatus := Some(Str(values.maritalStatus)),
      baptizedInInfancy := Some(Bool(values.baptizedInInfancy)),
      religiousBackground := Some(Str(values.religiousBackground)))
  }

  /** Whatever the form holds, the register action rejects the request
      built from it: the form asks for a profession of faith date but never
      sends it, and the action requires one. */
  lemma FormRegistrationAlwaysRejected(values: MemberFormValues, parse: string -> JsDate)
    ensures RegisterMemberAction.NormalizeRegisterInput(BuildRegisterMemberInput(values), parse).Failure?
  {
  }

  /** Clearing a contact in the edit form clears it on the member: a blank
      email, phone or cpf is sent as null, which an accepted update assigns
      as null. */
  lemma ClearedContactsClearMember(memberId: string, values: MemberFormValues, parse: string -> JsDate)
    requires UpdateMemberAction.NormalizeUpdateInput(BuildUpdateMemberInput(memberId, values), parse).Success?
    ensures var i := UpdateMemberAction.NormalizeUpdateInput(BuildUpdateMemberInput(memberId, values), parse).value.input;
      && (IsBlank(values.email) ==> i.email == Some(None))
      && (IsBlank(values.phone) ==> i.phone == Some(None))
      && (IsBlank(values.cpf) ==> i.cpf == Some(None))
  {
    UpdateMemberAction.NullishContactsClear(BuildUpdateMemberInput(memberId, values), parse);
  }
}
