/** The `updateMemberAction` server action: it rejects a falsy input,
    requires a member id, validates each property the request carries as
    its own, and hands the result to `UpdateMemberUseCase`. Refreshing the
    members cache afterwards is not part of this model. */
module UpdateMemberAction {
  import opened Wrappers
  import opened Text
  import opened Js
  import opened Errors
  import opened DomainEvents
  import opened MemberEntity
  import opened Storage
  import opened Bus
  import opened UnitOfWork
  import opened Mappers
  import opened Validators
  import opened MemberUseCases

  const INPUT_REQUIRED := "Input is required."
  const SEX_NOT_NULL := "Member sex cannot be null."
  const MARITAL_STATUS_NOT_NULL := "Member marital status cannot be null."
  const LITERACY_REQUIRED := "Member literacy must be true or false."
  const BAPTIZED_REQUIRED := "Member baptizedInInfancy must be true or false."
  const CELEBRANT_REQUIRED := "Member celebrant is required."
  const PROFESSION_REQUIRED := "Member profession is required."
  const PLACE_OF_BIRTH_REQUIRED := "Member place of birth is required."
  const BACKGROUND_REQUIRED := "Member religious background is required."

  /** `UpdateMemberActionInput`: each property is `None` when the request
      does not carry it as its own, and otherwise the `unknown` value it
      carries (which may itself be undefined or null). */
  datatype UpdateMemberActionInput = UpdateMemberActionInput(
    memberId: Option<JsValue>,
    cpf: Option<JsValue>,
    sex: Option<JsValue>,
    email: Option<JsValue>,
    phone: Option<JsValue>,
    fullName: Option<JsValue>,
    address: Option<JsValue>,
    literacy: Option<JsValue>,
    birthDate: Option<JsValue>,
    reception: Option<JsValue>,
    celebrant: Option<JsValue>,
    profession: Option<JsValue>,
    placeOfBirth: Option<JsValue>,
    maritalStatus: Option<JsValue>,
    baptizedInInfancy: Option<JsValue>,
    religiousBackground: Option<JsValue>)

  /** An own property of a request and its value. */
  function OwnProperty(raw: JsValue, key: string): (r: Option<JsValue>)
    ensures r.Some? <==> HasOwn(raw, key)
    ensures r.Some? ==> r.value == Get(raw, key)
  {
    if HasOwn(raw, key) then Some(Get(raw, key)) else None
  }

  /** `hasOwn(input, key)` and, when it holds, the property's value. */
  predicate OwnAs(raw: JsValue, key: string, p: Option<JsValue>)
  {
    (p.Some? <==> HasOwn(raw, key)) && (p.Some? ==> p.value == raw.fields[key])
  }

  /** The sixteen properties the action reads from a request. */
  function ActionInputOf(raw: JsValue): (r: UpdateMemberActionInput)
    ensures r.memberId.Some? <==> HasOwn(raw, "memberId")
    ensures r.fullName.Some? <==> HasOwn(raw, "fullName")
    ensures r.address.Some? <==> HasOwn(raw, "address")
    ensures r.birthDate.Some? <==> HasOwn(raw, "birthDate")
    ensures r.reception.Some? <==> HasOwn(raw, "reception")
    ensures r.profession.Some? <==> HasOwn(raw, "profession")
    ensures r.memberId.Some? ==> r.memberId.value == raw.fields["memberId"]
    ensures r.fullName.Some? ==> r.fullName.value == raw.fields["fullName"]
    ensures OwnAs(raw, "cpf", r.cpf) && OwnAs(raw, "sex", r.sex) && OwnAs(raw, "email", r.email)
    ensures OwnAs(raw, "phone", r.phone) && OwnAs(raw, "address", r.address) && OwnAs(raw, "literacy", r.literacy)
    ensures OwnAs(raw, "birthDate", r.birthDate) && OwnAs(raw, "reception", r.reception)
    ensures OwnAs(raw, "celebrant", r.celebrant) && OwnAs(raw, "profession", r.profession)
    ensures OwnAs(raw, "placeOfBirth", r.placeOfBirth) && OwnAs(raw, "maritalStatus", r.maritalStatus)
    ensures OwnAs(raw, "baptizedInInfancy", r.baptizedInInfancy)
    ensures OwnAs(raw, "religiousBackground", r.religiousBackground)
  {
    UpdateMemberActionInput(
      OwnProperty(raw, "memberId"), OwnProperty(raw, "cpf"), OwnProperty(raw, "sex"), OwnProperty(raw, "email"),
      OwnProperty(raw, "phone"), OwnProperty(raw, "fullName"), OwnProperty(raw, "address"),
      OwnProperty(raw, "literacy"), OwnProperty(raw, "birthDate"), OwnProperty(raw, "reception"),
      OwnProperty(raw, "celebrant"), OwnProperty(raw, "profession"), OwnProperty(raw, "placeOfBirth"),
      OwnProperty(raw, "maritalStatus"), OwnProperty(raw, "baptizedInInfancy"),
      OwnProperty(raw, "religiousBackground"))
  }

  /** Reading a property: undefined when it is absent. */
  function Read(p: Option<JsValue>): JsValue
  {
    if p.Some? then p.value else Undef
  }

  /** What `normalizeUpdateInput` builds: an `UpdateMemberInput` and, beside
      it, the `profession` property it also assigns, which that type does
      not declare. */
  datatype NormalizedUpdate = NormalizedUpdate(input: UpdateMemberInput, profession: Option<string>)

  // Each property on its own: undefined (`None`) when the request does not
  // carry it, otherwise its check's value or exception.

  /** A required text: present means non-blank, and it is kept trimmed. */
  function TextProperty(p: Option<JsValue>, message: string): (r: Result<Option<string>, Exception>)
    ensures p.None? ==> r == Success(None)
    ensures p.Some? ==> (r.Success? <==> p.value.Str? && !IsBlank(p.value.s))
    ensures r.Success? && p.Some? ==> r.value == Some(Trim(p.value.s)) && IsNormalText(r.value.value)
    ensures r.Failure? ==> r.error == PlainErr(message)
  {
    if p.None? then Success(None)
    else
      var t := EnsureNonEmptyString(p.value, message);
      if t.Failure? then Failure(t.error)
      else
        NonEmptyStringIsNormal(p.value, message, "");
        Success(Some(t.value))
  }

  /** An email, phone or cpf: present means `toNullableString` of it, so an
      explicit null, a non-string or a blank string becomes null. */
  function NullableProperty(p: Option<JsValue>): (r: Option<Option<string>>)
    ensures r.Some? <==> p.Some?
    ensures r.Some? ==> r.value == TrimmedText(p.value)
  {
    if p.Some? then Some(TrimmedText(p.value)) else None
  }

  /** The sex: a present null is refused before the value is checked. */
  function SexProperty(p: Option<JsValue>): (r: Result<Option<Sex>, Exception>)
    ensures p.None? ==> r == Success(None)
    ensures p == Some(Null) ==> r == Failure(PlainErr(SEX_NOT_NULL))
    ensures r.Success? && p.Some? ==> r.value.Some? && p.value.Str? && SexName(r.value.value) == Trim(p.value.s)
  {
    if p.None? then Success(None)
    else if p.value.Null? then Failure(PlainErr(SEX_NOT_NULL))
    else
      var sex := EnsureMemberSex(p.value);
      if sex.Failure? then Failure(sex.error) else Success(Some(sex.value))
  }

  /** The marital status, refused when present and null in the same way. */
  function MaritalStatusProperty(p: Option<JsValue>): (r: Result<Option<MaritalStatus>, Exception>)
    ensures p.None? ==> r == Success(None)
    ensures p == Some(Null) ==> r == Failure(PlainErr(MARITAL_STATUS_NOT_NULL))
    ensures r.Success? && p.Some? ==>
      r.value.Some? && p.value.Str? && MaritalStatusName(r.value.value) == Trim(p.value.s)
  {
    if p.None? then Success(None)
    else if p.value.Null? then Failure(PlainErr(MARITAL_STATUS_NOT_NULL))
    else
      var status := EnsureMemberMaritalStatus(p.value);
      if status.Failure? then Failure(status.error) else Success(Some(status.value))
  }

  /** The address, built by `buildMemberAddress`. */
  function AddressProperty(p: Option<JsValue>): (r: Result<Option<MemberAddress>, Exception>)
    ensures p.None? ==> r == Success(None)
    ensures p.Some? ==> (r.Success? <==> BuildMemberAddress(p.value).Success?)
    ensures r.Success? && p.Some? ==>
      r.value == Some(BuildMemberAddress(p.value).value) && NormalAddress(r.value.value)
    ensures r.Failure? ==> r.error == BuildMemberAddress(p.value).error
  {
    if p.None? then Success(None)
    else
      var address := BuildMemberAddress(p.value);
      if address.Failure? then Failure(address.error) else Success(Some(address.value))
  }

  /** A flag: present means `parseOptionalBoolean` must give a boolean, so
      undefined, null and the empty string are refused with `message`. */
  function FlagProperty(p: Option<JsValue>, message: string): (r: Result<Option<bool>, Exception>)
    ensures p.None? ==> r == Success(None)
    ensures p.Some? && (p.value.Undef? || p.value.Null? || p.value == Str("")) ==> r == Failure(PlainErr(message))
    ensures r.Success? && p.Some? ==> r.value.Some? && ParseBoolean(p.value, BOOLEAN_REQUIRED) == Success(r.value.value)
  {
    if p.None? then Success(None)
    else
      var flag := ParseOptionalBoolean(p.value);
      if flag.Failure? then Failure(flag.error)
      else if flag.value.None? then Failure(PlainErr(message))
      else Success(flag.value)
  }

  /** The birth date: undefined, null and the empty string leave it
      undefined without an error. */
  function BirthDateProperty(p: Option<JsValue>, parse: string -> JsDate): (r: Result<Option<JsDate>, Exception>)
    ensures p.None? ==> r == Success(None)
    ensures p.Some? && (p.value.Undef? || p.value.Null? || p.value == Str("")) ==> r == Success(None)
    ensures p.Some? && !(p.value.Undef? || p.value.Null? || p.value == Str("")) && r.Success? ==> r.value.Some?
    ensures r.Success? && r.value.Some? ==> r.value.value.ValidDate?
    ensures p.Some? && r.Success? && r.value.Some? ==> ParseDate(p.value, INVALID_BIRTH_DATE, parse) == Success(r.value.value)
    ensures r.Failure? ==>
      p.Some? && ParseDate(p.value, INVALID_BIRTH_DATE, parse).Failure? && r.error == PlainErr(INVALID_BIRTH_DATE)
  {
    if p.None? then Success(None)
    else ParseOptionalDate(p.value, INVALID_BIRTH_DATE, parse)
  }

  /** The reception, built by `buildMemberReception`. */
  function ReceptionProperty(p: Option<JsValue>, parse: string -> JsDate): (r: Result<Option<MemberReception>, Exception>)
    ensures p.None? ==> r == Success(None)
    ensures p.Some? ==> (r.Success? <==> BuildMemberReception(p.value, INVALID_RECEPTION_DATE, parse).Success?)
    ensures r.Success? && p.Some? ==>
      && r.value == Some(BuildMemberReception(p.value, INVALID_RECEPTION_DATE, parse).value)
      && r.value.value.date.ValidDate? && IsNormalText(r.value.value.location)
    ensures r.Failure? ==> r.error == BuildMemberReception(p.value, INVALID_RECEPTION_DATE, parse).error
  {
    if p.None? then Success(None)
    else
      var reception := BuildMemberReception(p.value, INVALID_RECEPTION_DATE, parse);
      if reception.Failure? then Failure(reception.error) else Success(Some(reception.value))
  }

  function ErrorOf<T>(r: Result<T, Exception>): Option<Exception>
  {
    if r.Failure? then Some(r.error) else None
  }

  function ValueOf<T>(r: Result<Option<T>, Exception>): Option<T>
  {
    if r.Success? then r.value else None
  }

  function OrElse(first: Option<Exception>, second: Option<Exception>): Option<Exception>
  {
    if first.Some? then first else second
  }

  /** The first exception among the member id and the full name (the
      contacts assigned after them never fail). */
  function IdentityError(raw: UpdateMemberActionInput): Option<Exception>
  {
    OrElse(ErrorOf(EnsureMemberId(Read(raw.memberId))), ErrorOf(TextProperty(raw.fullName, INVALID_FULL_NAME)))
  }

  /** The first exception among the sex, the marital status and the address. */
  function ChoicesError(raw: UpdateMemberActionInput): Option<Exception>
  {
    OrElse(ErrorOf(SexProperty(raw.sex)),
           OrElse(ErrorOf(MaritalStatusProperty(raw.maritalStatus)), ErrorOf(AddressProperty(raw.address))))
  }

  /** The first exception among the literacy flag, the birth date and the
      reception. */
  function RecordsError(raw: UpdateMemberActionInput, parse: string -> JsDate): Option<Exception>
  {
    OrElse(ErrorOf(FlagProperty(raw.literacy, LITERACY_REQUIRED)),
           OrElse(ErrorOf(BirthDateProperty(raw.birthDate, parse)), ErrorOf(ReceptionProperty(raw.reception, parse))))
  }

  /** The first exception among the remaining texts and the baptism flag. */
  function TextsError(raw: UpdateMemberActionInput): Option<Exception>
  {
    OrElse(ErrorOf(TextProperty(raw.celebrant, CELEBRANT_REQUIRED)),
    OrElse(ErrorOf(TextProperty(raw.profession, PROFESSION_REQUIRED)),
    OrElse(ErrorOf(TextProperty(raw.placeOfBirth, PLACE_OF_BIRTH_REQUIRED)),
    OrElse(ErrorOf(FlagProperty(raw.baptizedInInfancy, BAPTIZED_REQUIRED)),
           ErrorOf(TextProperty(raw.religiousBackground, BACKGROUND_REQUIRED))))))
  }

  /** The properties `normalizeUpdateInput` checks, in the order it checks
      them (email, phone and cpf, between the full name and the sex, have
      no check that can fail). */
  datatype CheckedField =
    | MemberIdField | FullNameField | SexField | MaritalStatusField | AddressField | LiteracyField
    | BirthDateField | ReceptionField | CelebrantField | ProfessionField | PlaceOfBirthField
    | BaptizedField | BackgroundField

  /** The position of a property in that order. */
  function Rank(f: CheckedField): nat
  {
    match f
    case MemberIdField => 0
    case FullNameField => 1
    case SexField => 2
    case MaritalStatusField => 3
    case AddressField => 4
    case LiteracyField => 5
    case BirthDateField => 6
    case ReceptionField => 7
    case CelebrantField => 8
    case ProfessionField => 9
    case PlaceOfBirthField => 10
    case BaptizedField => 11
    case BackgroundField => 12
  }

  /** The outcome of every check on its own, by property. */
  datatype Checks = Checks(
    memberId: Option<Exception>, fullName: Option<Exception>, sex: Option<Exception>,
    maritalStatus: Option<Exception>, address: Option<Exception>, literacy: Option<Exception>,
    birthDate: Option<Exception>, reception: Option<Exception>, celebrant: Option<Exception>,
    profession: Option<Exception>, placeOfBirth: Option<Exception>, baptizedInInfancy: Option<Exception>,
    religiousBackground: Option<Exception>)

  function ChecksOf(raw: UpdateMemberActionInput, parse: string -> JsDate): Checks
  {
    Checks(ErrorOf(EnsureMemberId(Read(raw.memberId))), ErrorOf(TextProperty(raw.fullName, INVALID_FULL_NAME)),
           ErrorOf(SexProperty(raw.sex)), ErrorOf(MaritalStatusProperty(raw.maritalStatus)),
           ErrorOf(AddressProperty(raw.address)), ErrorOf(FlagProperty(raw.literacy, LITERACY_REQUIRED)),
           ErrorOf(BirthDateProperty(raw.birthDate, parse)), ErrorOf(ReceptionProperty(raw.reception, parse)),
           ErrorOf(TextProperty(raw.celebrant, CELEBRANT_REQUIRED)),
           ErrorOf(TextProperty(raw.profession, PROFESSION_REQUIRED)),
           ErrorOf(TextProperty(raw.placeOfBirth, PLACE_OF_BIRTH_REQUIRED)),
           ErrorOf(FlagProperty(raw.baptizedInInfancy, BAPTIZED_REQUIRED)),
           ErrorOf(TextProperty(raw.religiousBackground, BACKGROUND_REQUIRED)))
  }

  /** The check of one property. */
  function CheckOf(c: Checks, f: CheckedField): Option<Exception>
  {
    match f
    case MemberIdField => c.memberId
    case FullNameField => c.fullName
    case SexField => c.sex
    case MaritalStatusField => c.maritalStatus
    case AddressField => c.address
    case LiteracyField => c.literacy
    case BirthDateField => c.birthDate
    case ReceptionField => c.reception
    case CelebrantField => c.celebrant
    case ProfessionField => c.profession
    case PlaceOfBirthField => c.placeOfBirth
    case BaptizedField => c.baptizedInInfancy
    case BackgroundField => c.religiousBackground
  }

  /** The first exception in source order, as the four groups of
      assignments meet them. */
  function FirstOf(c: Checks): Option<Exception>
  {
    OrElse(OrElse(c.memberId, c.fullName),
    OrElse(OrElse(c.sex, OrElse(c.maritalStatus, c.address)),
    OrElse(OrElse(c.literacy, OrElse(c.birthDate, c.reception)),
           OrElse(c.celebrant, OrElse(c.profession, OrElse(c.placeOfBirth,
                  OrElse(c.baptizedInInfancy, c.religiousBackground)))))))
  }

  /** The exception `normalizeUpdateInput` throws, if any. */
  function FirstError(raw: UpdateMemberActionInput, parse: string -> JsDate): Option<Exception>
  {
    FirstOf(ChecksOf(raw, parse))
  }

  /** The normalised update, described property by property: the first
      failing check in source order decides the exception; otherwise every
      property holds its own check's value, undefined when absent. */
  function NormalizeUpdateInput(raw: UpdateMemberActionInput, parse: string -> JsDate): (r: Result<NormalizedUpdate, Exception>)
    ensures r.Failure? <==> FirstOf(ChecksOf(raw, parse)).Some?
    ensures r.Failure? ==> CheckOf(ChecksOf(raw, parse), FailingField(ChecksOf(raw, parse))) == Some(r.error)
  {
    var c := ChecksOf(raw, parse);
    match FirstOf(c)
    case Some(e) => FirstErrorIsFirst(c); Failure(e)
    case None => Success(NormalizedOf(raw, parse))
  }

  /** The value of every property once all checks pass. There is no
      `professionOfFaithDate` to read. */
  function NormalizedOf(raw: UpdateMemberActionInput, parse: string -> JsDate): (r: NormalizedUpdate)
    ensures r.input.professionOfFaithDate.None?
    ensures raw.fullName.None? ==> r.input.fullName.None?
    ensures raw.sex.None? ==> r.input.sex.None?
    ensures raw.maritalStatus.None? ==> r.input.maritalStatus.None?
    ensures raw.address.None? ==> r.input.address.None?
    ensures raw.literacy.None? ==> r.input.literacy.None?
    ensures raw.birthDate.None? ==> r.input.birthDate.None?
    ensures raw.reception.None? ==> r.input.reception.None?
    ensures raw.celebrant.None? ==> r.input.celebrant.None?
    ensures raw.placeOfBirth.None? ==> r.input.placeOfBirth.None?
    ensures raw.baptizedInInfancy.None? ==> r.input.baptizedInInfancy.None?
    ensures raw.religiousBackground.None? ==> r.input.religiousBackground.None?
    ensures raw.profession.None? ==> r.profession.None?
    ensures r.input.email.Some? <==> raw.email.Some?
    ensures r.input.phone.Some? <==> raw.phone.Some?
    ensures r.input.cpf.Some? <==> raw.cpf.Some?
  {
    var memberId := EnsureMemberId(Read(raw.memberId));
    NormalizedUpdate(
      UpdateMemberInput(
        NullableProperty(raw.cpf), ValueOf(SexProperty(raw.sex)), NullableProperty(raw.email),
        NullableProperty(raw.phone), if memberId.Success? then memberId.value else "",
        ValueOf(TextProperty(raw.fullName, INVALID_FULL_NAME)), ValueOf(AddressProperty(raw.address)),
        ValueOf(FlagProperty(raw.literacy, LITERACY_REQUIRED)), ValueOf(BirthDateProperty(raw.birthDate, parse)),
        ValueOf(ReceptionProperty(raw.reception, parse)), ValueOf(TextProperty(raw.celebrant, CELEBRANT_REQUIRED)),
        None, ValueOf(TextProperty(raw.placeOfBirth, PLACE_OF_BIRTH_REQUIRED)),
        ValueOf(MaritalStatusProperty(raw.maritalStatus)),
        ValueOf(FlagProperty(raw.baptizedInInfancy, BAPTIZED_REQUIRED)),
        ValueOf(TextProperty(raw.religiousBackground, BACKGROUND_REQUIRED))),
      ValueOf(TextProperty(raw.profession, PROFESSION_REQUIRED)))
  }

  /** `normalizeUpdateInput`: it starts from the member id and assigns each
      property the request carries as its own (`hasOwn`), throwing at the
      first one that fails its check. The assignments are made in four
      groups, in source order. */
  method NormalizeUpdate(raw: UpdateMemberActionInput, parse: string -> JsDate)
    returns (r: Result<NormalizedUpdate, Exception>)
    ensures r.Failure? ==> FirstError(raw, parse) == Some(r.error)
    ensures r.Success? ==> FirstError(raw, parse).None? && r.value == NormalizedOf(raw, parse)
  {
    var identity := AssignIdentity(raw);
    if identity.Failure? {
      return Failure(identity.error);
    }
    var choices := AssignChoices(raw, identity.value);
    if choices.Failure? {
      return Failure(choices.error);
    }
    var records := AssignRecords(raw, parse, choices.value);
    if records.Failure? {
      return Failure(records.error);
    }
    var texts := AssignTexts(raw, records.value);
    if texts.Failure? {
      return Failure(texts.error);
    }
    return Success(texts.value);
  }

  /** The member id, the full name and the three nullable contacts. */
  method AssignIdentity(raw: UpdateMemberActionInput) returns (r: Result<UpdateMemberInput, Exception>)
    ensures r.Failure? ==> IdentityError(raw) == Some(r.error)
    ensures r.Success? ==>
      && IdentityError(raw).None?
      && EnsureMemberId(Read(raw.memberId)) == Success(r.value.memberId)
      && r.value == UpdateMemberInput(NullableProperty(raw.cpf), None, NullableProperty(raw.email),
                                      NullableProperty(raw.phone), r.value.memberId,
                                      ValueOf(TextProperty(raw.fullName, INVALID_FULL_NAME)),
                                      None, None, None, None, None, None, None, None, None, None)
  {
    var memberId := EnsureMemberId(Read(raw.memberId));
    if memberId.Failure? {
      return Failure(memberId.error);
    }
    var normalized := UpdateMemberInput(None, None, None, None, memberId.value, None, None, None, None, None,
                                        None, None, None, None, None, None);
    if raw.fullName.Some? {
      var fullName := EnsureNonEmptyString(raw.fullName.value, INVALID_FULL_NAME);
      if fullName.Failure? {
        return Failure(fullName.error);
      }
      normalized := normalized.(fullName := Some(fullName.value));
    }
    if raw.email.Some? {
      normalized := normalized.(email := Some(TrimmedText(raw.email.value)));
    }
    if raw.phone.Some? {
      normalized := normalized.(phone := Some(TrimmedText(raw.phone.value)));
    }
    if raw.cpf.Some? {
      normalized := normalized.(cpf := Some(TrimmedText(raw.cpf.value)));
    }
    return Success(normalized);
  }

  /** The sex, the marital status and the address. */
  method AssignChoices(raw: UpdateMemberActionInput, normalized: UpdateMemberInput)
    returns (r: Result<UpdateMemberInput, Exception>)
    requires normalized.sex.None? && normalized.maritalStatus.None? && normalized.address.None?
    ensures r.Failure? ==> ChoicesError(raw) == Some(r.error)
    ensures r.Success? ==>
      && ChoicesError(raw).None?
      && r.value == normalized.(sex := ValueOf(SexProperty(raw.sex)),
                                maritalStatus := ValueOf(MaritalStatusProperty(raw.maritalStatus)),
                                address := ValueOf(AddressProperty(raw.address)))
  {
    var next := normalized;
    if raw.sex.Some? {
      if raw.sex.value.Null? {
        return Failure(PlainErr(SEX_NOT_NULL));
      }
      var sex := EnsureMemberSex(raw.sex.value);
      if sex.Failure? {
        return Failure(sex.error);
      }
      next := next.(sex := Some(sex.value));
    }
    if raw.maritalStatus.Some? {
      if raw.maritalStatus.value.Null? {
        return Failure(PlainErr(MARITAL_STATUS_NOT_NULL));
      }
      var status := EnsureMemberMaritalStatus(raw.maritalStatus.value);
      if status.Failure? {
        return Failure(status.error);
      }
      next := next.(maritalStatus := Some(status.value));
    }
    if raw.address.Some? {
      var address := BuildMemberAddress(raw.address.value);
      if address.Failure? {
        return Failure(address.error);
      }
      next := next.(address := Some(address.value));
    }
    return Success(next);
  }

  /** The literacy flag, the birth date and the reception. */
  method AssignRecords(raw: UpdateMemberActionInput, parse: string -> JsDate, normalized: UpdateMemberInput)
    returns (r: Result<UpdateMemberInput, Exception>)
    requires normalized.literacy.None? && normalized.birthDate.None? && normalized.reception.None?
    ensures r.Failure? ==> RecordsError(raw, parse) == Some(r.error)
    ensures r.Success? ==>
      && RecordsError(raw, parse).None?
      && r.value == normalized.(literacy := ValueOf(FlagProperty(raw.literacy, LITERACY_REQUIRED)),
                                birthDate := ValueOf(BirthDateProperty(raw.birthDate, parse)),
                                reception := ValueOf(ReceptionProperty(raw.reception, parse)))
  {
    var next := normalized;
    if raw.literacy.Some? {
      var literacy := ParseOptionalBoolean(raw.literacy.value);
      if literacy.Failure? {
        return Failure(literacy.error);
      }
      if literacy.value.None? {
        return Failure(PlainErr(LITERACY_REQUIRED));
      }
      next := next.(literacy := literacy.value);
    }
    if raw.birthDate.Some? {
      var birthDate := ParseOptionalDate(raw.birthDate.value, INVALID_BIRTH_DATE, parse);
      if birthDate.Failure? {
        return Failure(birthDate.error);
      }
      next := next.(birthDate := birthDate.value);
    }
    if raw.reception.Some? {
      var reception := BuildMemberReception(raw.reception.value, INVALID_RECEPTION_DATE, parse);
      if reception.Failure? {
        return Failure(reception.error);
      }
      next := next.(reception := Some(reception.value));
    }
    return Success(next);
  }

  /** The celebrant, the profession, the place of birth, the baptism flag
      and the religious background. */
  method AssignTexts(raw: UpdateMemberActionInput, normalized: UpdateMemberInput)
    returns (r: Result<NormalizedUpdate, Exception>)
    requires normalized.celebrant.None? && normalized.placeOfBirth.None?
    requires normalized.baptizedInInfancy.None? && normalized.religiousBackground.None?
    ensures r.Failure? ==> TextsError(raw) == Some(r.error)
    ensures r.Success? ==>
      && TextsError(raw).None?
      && r.value == NormalizedUpdate(
           normalized.(celebrant := ValueOf(TextProperty(raw.celebrant, CELEBRANT_REQUIRED)),
                       placeOfBirth := ValueOf(TextProperty(raw.placeOfBirth, PLACE_OF_BIRTH_REQUIRED)),
                       baptizedInInfancy := ValueOf(FlagProperty(raw.baptizedInInfancy, BAPTIZED_REQUIRED)),
                       religiousBackground := ValueOf(TextProperty(raw.religiousBackground, BACKGROUND_REQUIRED))),
           ValueOf(TextProperty(raw.profession, PROFESSION_REQUIRED)))
  {
    var next := normalized;
    var profession: Option<string> := None;
    if raw.celebrant.Some? {
      var celebrant := EnsureNonEmptyString(raw.celebrant.value, CELEBRANT_REQUIRED);
      if celebrant.Failure? {
        return Failure(celebrant.error);
      }
      next := next.(celebrant := Some(celebrant.value));
    }
    if raw.profession.Some? {
      var checked := EnsureNonEmptyString(raw.profession.value, PROFESSION_REQUIRED);
      if checked.Failure? {
        return Failure(checked.error);
      }
      profession := Some(checked.value);
    }
    if raw.placeOfBirth.Some? {
      var placeOfBirth := EnsureNonEmptyString(raw.placeOfBirth.value, PLACE_OF_BIRTH_REQUIRED);
      if placeOfBirth.Failure? {
        return Failure(placeOfBirth.error);
      }
      next := next.(placeOfBirth := Some(placeOfBirth.value));
    }
    if raw.baptizedInInfancy.Some? {
      var baptized := ParseOptionalBoolean(raw.baptizedInInfancy.value);
      if baptized.Failure? {
        return Failure(baptized.error);
      }
      if baptized.value.None? {
        return Failure(PlainErr(BAPTIZED_REQUIRED));
      }
      next := next.(baptizedInInfancy := baptized.value);
    }
    if raw.religiousBackground.Some? {
      var background := EnsureNonEmptyString(raw.religiousBackground.value, BACKGROUND_REQUIRED);
      if background.Failure? {
        return Failure(background.error);
      }
      next := next.(religiousBackground := Some(background.value));
    }
    return Success(NormalizedUpdate(next, profession));
  }

  /** The property whose check throws first, when one does. */
  function FailingField(c: Checks): (f: CheckedField)
    requires FirstOf(c).Some?
  {
    if c.memberId.Some? then MemberIdField
    else if c.fullName.Some? then FullNameField
    else if c.sex.Some? then SexField
    else if c.maritalStatus.Some? then MaritalStatusField
    else if c.address.Some? then AddressField
    else if c.literacy.Some? then LiteracyField
    else if c.birthDate.Some? then BirthDateField
    else if c.reception.Some? then ReceptionField
    else if c.celebrant.Some? then CelebrantField
    else if c.profession.Some? then ProfessionField
    else if c.placeOfBirth.Some? then PlaceOfBirthField
    else if c.baptizedInInfancy.Some? then BaptizedField
    else BackgroundField
  }

  /** The normalisation throws exactly when some property fails its check
      (`FirstError(raw, parse)` is `FirstOf(ChecksOf(raw, parse))`). */
  lemma NoErrorIffAllPass(c: Checks)
    ensures FirstOf(c).None? <==> forall f :: CheckOf(c, f).None?
  {
    if FirstOf(c).Some? {
      assert CheckOf(c, FailingField(c)).Some?;
    }
  }

  /** When it throws, it throws the exception of the first failing property
      in source order. */
  lemma FirstErrorIsFirst(c: Checks)
    requires FirstOf(c).Some?
    ensures var f := FailingField(c);
      && CheckOf(c, f) == FirstOf(c)
      && forall g :: Rank(g) < Rank(f) ==> CheckOf(c, g).None?
  {
    var f := FailingField(c);
    forall g | Rank(g) < Rank(f)
      ensures CheckOf(c, g).None?
    {
    }
  }

  /** The input guard followed by the normalisation. */
  function UpdateInputOf(rawInput: JsValue, parse: string -> JsDate): (r: Result<NormalizedUpdate, Exception>)
    ensures !Truthy(rawInput) ==> r == Failure(PlainErr(INPUT_REQUIRED))
    ensures Truthy(rawInput) ==> r == NormalizeUpdateInput(ActionInputOf(rawInput), parse)
  {
    if !Truthy(rawInput) then Failure(PlainErr(INPUT_REQUIRED)) else NormalizeUpdateInput(ActionInputOf(rawInput), parse)
  }

  /** `updateMemberAction` as a whole: a rejected input throws before any
      transaction begins; an accepted one runs the update on its
      `UpdateMemberInput` part. */
  function UpdateMember(committed: Store, rawInput: JsValue, parse: string -> JsDate, stamp: EventStamp,
                        b: BusState, fails: (HandlerId, DomainEvent) -> bool): (r: Settlement<MemberView>)
    requires Valid(b)
    ensures UpdateInputOf(rawInput, parse).Failure? ==>
      r == Settlement(committed, Threw(UpdateInputOf(rawInput, parse).error), [])
  {
    var normalized := UpdateInputOf(rawInput, parse);
    if normalized.Failure? then Settlement(committed, Threw(normalized.error), [])
    else RunInTransaction(committed, UpdateMemberWork(committed, normalized.value.input, stamp), b, fails)
  }

  /** `updateMemberAction` over a unit of work. */
  method UpdateMemberAction(useCase: UpdateMemberUseCase, rawInput: JsValue, parse: string -> JsDate,
                            stamp: EventStamp, fails: (HandlerId, DomainEvent) -> bool)
    returns (outcome: TxOutcome<MemberView>, trace: seq<Delivery>)
    requires useCase.uow.ambient.None? && Valid(useCase.uow.bus.State()) && useCase.repository.uow == useCase.uow
    modifies useCase.uow
    ensures useCase.uow.ambient == None
    ensures Settlement(useCase.uow.committed, outcome, trace)
            == UpdateMember(old(useCase.uow.committed), rawInput, parse, stamp, useCase.uow.bus.State(), fails)
  {
    if !Truthy(rawInput) {
      return Threw(PlainErr(INPUT_REQUIRED)), [];
    }
    var normalized := NormalizeUpdate(ActionInputOf(rawInput), parse);
    assert normalized == UpdateInputOf(rawInput, parse);
    if normalized.Failure? {
      return Threw(normalized.error), [];
    }
    outcome, trace := useCase.Execute(normalized.value.input, stamp, fails);
  }

  /** A contact, select or address property the request does not carry
      stays undefined, and one it carries is assigned. */
  lemma AbsentPropertiesStayUndefined(raw: UpdateMemberActionInput, parse: string -> JsDate)
    requires NormalizeUpdateInput(raw, parse).Success?
    ensures var i := NormalizeUpdateInput(raw, parse).value.input;
      && (i.fullName.Some? <==> raw.fullName.Some?)
      && (i.email.Some? <==> raw.email.Some?)
      && (i.phone.Some? <==> raw.phone.Some?)
      && (i.cpf.Some? <==> raw.cpf.Some?)
      && (i.sex.Some? <==> raw.sex.Some?)
      && (i.maritalStatus.Some? <==> raw.maritalStatus.Some?)
      && (i.address.Some? <==> raw.address.Some?)
      && (i.literacy.Some? <==> raw.literacy.Some?)
  {
  }

  /** The same for the remaining properties; only a blank birth date is left
      undefined, and `professionOfFaithDate` is never assigned. */
  lemma AbsentHistoryStaysUndefined(raw: UpdateMemberActionInput, parse: string -> JsDate)
    requires NormalizeUpdateInput(raw, parse).Success?
    ensures var n := NormalizeUpdateInput(raw, parse).value;
      var i := n.input;
      && (i.birthDate.Some? <==>
            raw.birthDate.Some? && !(raw.birthDate.value.Undef? || raw.birthDate.value.Null?
                                     || raw.birthDate.value == Str("")))
      && (i.reception.Some? <==> raw.reception.Some?)
      && (i.celebrant.Some? <==> raw.celebrant.Some?)
      && (n.profession.Some? <==> raw.profession.Some?)
      && (i.placeOfBirth.Some? <==> raw.placeOfBirth.Some?)
      && (i.baptizedInInfancy.Some? <==> raw.baptizedInInfancy.Some?)
      && (i.religiousBackground.Some? <==> raw.religiousBackground.Some?)
      && i.professionOfFaithDate.None?
  {
  }

  /** Every assigned property holds its checked value of the request's
      property: trimmed non-empty texts, nullable contacts, the address and
      reception the builders make, the parsed birth date, and booleans read
      by `parseBoolean`. */
  lemma PresentPropertiesAreChecked(raw: UpdateMemberActionInput, parse: string -> JsDate)
    requires NormalizeUpdateInput(raw, parse).Success?
    ensures var n := NormalizeUpdateInput(raw, parse).value;
      var i := n.input;
      && Read(raw.memberId).Str? && i.memberId == Trim(Read(raw.memberId).s) && IsNormalText(i.memberId)
      && (i.fullName.Some? ==> i.fullName.value == Trim(raw.fullName.value.s) && IsNormalText(i.fullName.value))
      && (i.email.Some? ==> i.email.value == TrimmedText(raw.email.value))
      && (i.phone.Some? ==> i.phone.value == TrimmedText(raw.phone.value))
      && (i.cpf.Some? ==> i.cpf.value == TrimmedText(raw.cpf.value))
      && (i.sex.Some? ==> SexName(i.sex.value) == Trim(raw.sex.value.s))
      && (i.maritalStatus.Some? ==> MaritalStatusName(i.maritalStatus.value) == Trim(raw.maritalStatus.value.s))
      && (i.address.Some? ==> BuildMemberAddress(raw.address.value) == Success(i.address.value)
                              && NormalAddress(i.address.value))
      && (i.literacy.Some? ==> ParseBoolean(raw.literacy.value, BOOLEAN_REQUIRED) == Success(i.literacy.value))
      && (i.birthDate.Some? ==> ParseDate(raw.birthDate.value, INVALID_BIRTH_DATE, parse) == Success(i.birthDate.value)
                                && i.birthDate.value.ValidDate?)
      && (i.reception.Some? ==>
            && BuildMemberReception(raw.reception.value, INVALID_RECEPTION_DATE, parse) == Success(i.reception.value)
            && i.reception.value.date.ValidDate? && IsNormalText(i.reception.value.location))
      && (i.celebrant.Some? ==> i.celebrant.value == Trim(raw.celebrant.value.s) && IsNormalText(i.celebrant.value))
      && (n.profession.Some? ==> n.profession.value == Trim(raw.profession.value.s))
      && (i.placeOfBirth.Some? ==> i.placeOfBirth.value == Trim(raw.placeOfBirth.value.s)
                                   && IsNormalText(i.placeOfBirth.value))
      && (i.baptizedInInfancy.Some? ==>
            ParseBoolean(raw.baptizedInInfancy.value, BOOLEAN_REQUIRED) == Success(i.baptizedInInfancy.value))
      && (i.religiousBackground.Some? ==> i.religiousBackground.value == Trim(raw.religiousBackground.value.s)
                                          && IsNormalText(i.religiousBackground.value))
  {
    NonEmptyStringIsNormal(Read(raw.memberId), MEMBER_ID_REQUIRED, "");
  }

  /** A present sex or marital status may not be null. */
  lemma RejectedNullSelects(raw: UpdateMemberActionInput, parse: string -> JsDate)
    ensures raw.sex == Some(Null) ==> NormalizeUpdateInput(raw, parse).Failure?
    ensures raw.maritalStatus == Some(Null) ==> NormalizeUpdateInput(raw, parse).Failure?
  {
    var c := ChecksOf(raw, parse);
    NoErrorIffAllPass(c);
    if raw.sex == Some(Null) {
      assert CheckOf(c, SexField).Some?;
    }
    if raw.maritalStatus == Some(Null) {
      assert CheckOf(c, MaritalStatusField).Some?;
    }
  }

  /** A present literacy or baptism flag may not look absent (undefined,
      null or the empty string). */
  lemma RejectedAbsentFlags(raw: UpdateMemberActionInput, parse: string -> JsDate)
    ensures raw.literacy.Some? && (raw.literacy.value.Undef? || raw.literacy.value.Null? || raw.literacy.value == Str(""))
      ==> NormalizeUpdateInput(raw, parse).Failure?
    ensures raw.baptizedInInfancy.Some?
      && (raw.baptizedInInfancy.value.Undef? || raw.baptizedInInfancy.value.Null? || raw.baptizedInInfancy.value == Str(""))
      ==> NormalizeUpdateInput(raw, parse).Failure?
  {
    if raw.literacy.Some? && (raw.literacy.value.Undef? || raw.literacy.value.Null? || raw.literacy.value == Str("")) {
      assert ChecksOf(raw, parse).literacy.Some?;
      FailingCheckFails(raw, parse, LiteracyField);
    }
    if raw.baptizedInInfancy.Some?
       && (raw.baptizedInInfancy.value.Undef? || raw.baptizedInInfancy.value.Null? || raw.baptizedInInfancy.value == Str("")) {
      assert ChecksOf(raw, parse).baptizedInInfancy.Some?;
      FailingCheckFails(raw, parse, BaptizedField);
    }
  }

  /** Any single failing check makes the normalisation fail. */
  lemma FailingCheckFails(raw: UpdateMemberActionInput, parse: string -> JsDate, f: CheckedField)
    requires CheckOf(ChecksOf(raw, parse), f).Some?
    ensures NormalizeUpdateInput(raw, parse).Failure?
  {
    NoErrorIffAllPass(ChecksOf(raw, parse));
  }

  /** A present profession or celebrant must be a non-blank string. */
  lemma RejectedBlankTexts(raw: UpdateMemberActionInput, parse: string -> JsDate)
    ensures raw.profession.Some? && !(raw.profession.value.Str? && !IsBlank(raw.profession.value.s))
      ==> NormalizeUpdateInput(raw, parse).Failure?
    ensures raw.celebrant.Some? && !(raw.celebrant.value.Str? && !IsBlank(raw.celebrant.value.s))
      ==> NormalizeUpdateInput(raw, parse).Failure?
  {
    if raw.profession.Some? && !(raw.profession.value.Str? && !IsBlank(raw.profession.value.s)) {
      assert ChecksOf(raw, parse).profession.Some?;
      FailingCheckFails(raw, parse, ProfessionField);
    }
    if raw.celebrant.Some? && !(raw.celebrant.value.Str? && !IsBlank(raw.celebrant.value.s)) {
      assert ChecksOf(raw, parse).celebrant.Some?;
      FailingCheckFails(raw, parse, CelebrantField);
    }
  }

  /** A blank birth date is not an error: it is left undefined. */
  lemma BlankBirthDateIsNoError(raw: UpdateMemberActionInput, parse: string -> JsDate)
    requires raw.birthDate.Some?
    requires raw.birthDate.value.Undef? || raw.birthDate.value.Null? || raw.birthDate.value == Str("")
    ensures CheckOf(ChecksOf(raw, parse), BirthDateField).None?
    ensures NormalizeUpdateInput(raw, parse).Success? ==> NormalizeUpdateInput(raw, parse).value.input.birthDate.None?
  {
    BlankBirthDateProperty(raw.birthDate.value, parse);
  }

  /** The birth-date check reads an empty value as unset. */
  lemma BlankBirthDateProperty(v: JsValue, parse: string -> JsDate)
    requires v.Undef? || v.Null? || v == Str("")
    ensures BirthDateProperty(Some(v), parse) == Success(None)
  {
  }

  /** Once the action accepts a request, `Member.update` can only reject it
      for a full name shorter than two UTF-16 code units: its dates are valid. */
  lemma AcceptedUpdateFailsOnlyOnShortName(s: MemberSnapshot, raw: UpdateMemberActionInput, parse: string -> JsDate)
    requires NormalizeUpdateInput(raw, parse).Success?
    ensures var i := NormalizeUpdateInput(raw, parse).value.input;
      ApplyUpdate(s, UpdatePropsOf(i)).error.Some? <==> i.fullName.Some? && Utf16Length(i.fullName.value) < 2
  {
    var i := NormalizeUpdateInput(raw, parse).value.input;
    PresentPropertiesAreChecked(raw, parse);
    UpdateErrors(s, UpdatePropsOf(i));
    if i.fullName.Some? {
      TrimOfTrimmed(i.fullName.value);
    }
  }

  /** An email, phone or cpf the request carries as undefined or null
      (or blank) is assigned as null, so the update clears the stored one. */
  lemma NullishContactsClear(raw: UpdateMemberActionInput, parse: string -> JsDate)
    requires NormalizeUpdateInput(raw, parse).Success?
    ensures var i := NormalizeUpdateInput(raw, parse).value.input;
      && (raw.email.Some? && IsNullish(raw.email.value) ==> i.email == Some(None))
      && (raw.phone.Some? && IsNullish(raw.phone.value) ==> i.phone == Some(None))
      && (raw.cpf.Some? && IsNullish(raw.cpf.value) ==> i.cpf == Some(None))
  {
  }

  /** An accepted update of a stored member whose checks in `Member.update`
      pass stores every property the request carries and keeps the stored
      profession even when the request carries one. */
  lemma AcceptedUpdateStoresRequest(store: Store, rawInput: JsValue, parse: string -> JsDate, stamp: EventStamp,
                                    b: BusState, fails: (HandlerId, DomainEvent) -> bool)
    requires Valid(b) && Keyed(store)
    requires UpdateInputOf(rawInput, parse).Success? && UpdateInputOf(rawInput, parse).value.input.memberId in store.members
    ensures var i := UpdateInputOf(rawInput, parse).value.input;
      var s := MemberFromRecord(store.members[i.memberId]);
      var o := ApplyUpdate(s, UpdatePropsOf(i));
      var r := UpdateMember(store, rawInput, parse, stamp, b, fails);
      o.error.None? && MemberDatesRender(o.state) ==>
        && Keyed(r.store) && i.memberId in r.store.members
        && StageValuesHeld(MemberFromRecord(r.store.members[i.memberId]), UpdatePropsOf(i))
        && r.store.members[i.memberId].profession == store.members[i.memberId].profession
  {
    UpdateMemberRuns(store, rawInput, parse, stamp, b, fails);
    UpdateRunStoresValues(store, UpdateInputOf(rawInput, parse).value.input, stamp, b, fails);
  }

  /** A normalized request runs the update in a transaction. */
  lemma UpdateMemberRuns(store: Store, rawInput: JsValue, parse: string -> JsDate, stamp: EventStamp,
                         b: BusState, fails: (HandlerId, DomainEvent) -> bool)
    requires Valid(b) && UpdateInputOf(rawInput, parse).Success?
    ensures UpdateMember(store, rawInput, parse, stamp, b, fails)
            == RunInTransaction(store, UpdateMemberWork(store, UpdateInputOf(rawInput, parse).value.input, stamp), b, fails)
  {
  }

  /** The same, for the transaction run on an already normalized input. */
  lemma UpdateRunStoresValues(store: Store, i: UpdateMemberInput, stamp: EventStamp,
                              b: BusState, fails: (HandlerId, DomainEvent) -> bool)
    requires Valid(b) && Keyed(store) && i.memberId in store.members
    ensures var s := MemberFromRecord(store.members[i.memberId]);
      var o := ApplyUpdate(s, UpdatePropsOf(i));
      var r := RunInTransaction(store, UpdateMemberWork(store, i, stamp), b, fails);
      o.error.None? && MemberDatesRender(o.state) ==>
        && Keyed(r.store) && i.memberId in r.store.members
        && StageValuesHeld(MemberFromRecord(r.store.members[i.memberId]), UpdatePropsOf(i))
        && r.store.members[i.memberId].profession == store.members[i.memberId].profession
  {
    var s := MemberFromRecord(store.members[i.memberId]);
    var o := ApplyUpdate(s, UpdatePropsOf(i));
    if o.error.None? && MemberDatesRender(o.state) {
      UpdateStoresChanges(store, i, stamp, b, fails);
      UpdateKeepsStoredProfession(store, i, stamp, b, fails);
      UpdateEstablishesValues(s, UpdatePropsOf(i));
    }
  }

  /** A request carrying nothing but a member id saves the member as it
      was and publishes nothing; for an unknown id it throws and changes
      nothing. */
  lemma IdOnlyUpdateChangesNothing(store: Store, rawInput: JsValue, id: string, parse: string -> JsDate,
                                   stamp: EventStamp, b: BusState, fails: (HandlerId, DomainEvent) -> bool)
    requires Valid(b) && Keyed(store) && Truthy(rawInput) && !IsBlank(id)
    requires ActionInputOf(rawInput) == UpdateMemberActionInput(Some(Str(id)), None, None, None, None, None, None,
                                                                None, None, None, None, None, None, None, None, None)
    ensures var r := UpdateMember(store, rawInput, parse, stamp, b, fails);
      && (Trim(id) !in store.members ==> r == Settlement(store, Threw(NotFound("Member", Trim(id))), []))
      && (Trim(id) in store.members && MemberDatesRender(MemberFromRecord(store.members[Trim(id)])) ==>
            && r.trace == [] && r.outcome.Returned?
            && MemberFromRecord(r.store.members[Trim(id)]) == MemberFromRecord(store.members[Trim(id)]))
  {
    var i := UpdateMemberInput(None, None, None, None, Trim(id), None, None, None, None, None, None, None, None, None,
                               None, None);
    assert UpdateInputOf(rawInput, parse) == Success(NormalizedUpdate(i, None));
    assert UpdatePropsOf(i) == NoChanges;
    if Trim(id) in store.members {
      UpdateWithNoChanges(MemberFromRecord(store.members[Trim(id)]));
      UpdateStoresChanges(store, i, stamp, b, fails);
      UpdatePublishesChanges(store, i, stamp, b, fails);
    }
  }

  /** A `professionOfFaithDate` property in the request is not read. */
  lemma ProfessionOfFaithDateIgnored(fields: map<string, JsValue>, value: JsValue, parse: string -> JsDate)
    ensures ActionInputOf(Obj(fields["professionOfFaithDate" := value])) == ActionInputOf(Obj(fields))
    ensures UpdateInputOf(Obj(fields["professionOfFaithDate" := value]), parse) == UpdateInputOf(Obj(fields), parse)
  {
    var withDate := Obj(fields["professionOfFaithDate" := value]);
    ProfessionOfFaithDateNotRead(fields, value);
    assert Truthy(withDate) && Truthy(Obj(fields));
    assert UpdateInputOf(withDate, parse) == NormalizeUpdateInput(ActionInputOf(withDate), parse);
  }

  lemma ProfessionOfFaithDateNotRead(fields: map<string, JsValue>, value: JsValue)
    ensures ActionInputOf(Obj(fields["professionOfFaithDate" := value])) == ActionInputOf(Obj(fields))
  {
    var key := "professionOfFaithDate";
    GetOtherKey(fields, key, value, "memberId");
    GetOtherKey(fields, key, value, "fullName");
    GetOtherKey(fields, key, value, "email");
    GetOtherKey(fields, key, value, "phone");
    GetOtherKey(fields, key, value, "cpf");
    GetOtherKey(fields, key, value, "sex");
    GetOtherKey(fields, key, value, "maritalStatus");
    GetOtherKey(fields, key, value, "address");
    GetOtherKey(fields, key, value, "literacy");
    GetOtherKey(fields, key, value, "birthDate");
    GetOtherKey(fields, key, value, "reception");
    GetOtherKey(fields, key, value, "celebrant");
    GetOtherKey(fields, key, value, "profession");
    GetOtherKey(fields, key, value, "placeOfBirth");
    GetOtherKey(fields, key, value, "baptizedInInfancy");
    GetOtherKey(fields, key, value, "religiousBackground");
  }
}
