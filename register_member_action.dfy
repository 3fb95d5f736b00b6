/** The `registerMemberAction` server action: it rejects a falsy input,
    normalises the raw request field by field and hands the result to
    `RegisterMemberUseCase`. Refreshing the members cache afterwards is not
    part of this model. */
module RegisterMemberAction {
  import opened Wrappers
  import opened Text
  import opened Js
  import opened Errors
  import opened DomainEvents
  import opened MemberEntity
  import opened Storage
  import opened Bus
  import opened UnitOfWork
  import opened Mappers
  import opened Validators
  import opened MemberUseCases

  const INPUT_REQUIRED := "Input is required."

  /** `RegisterMemberActionInput`: the sixteen properties the action reads,
      each as the `unknown` value the request carries. */
  datatype RegisterMemberActionInput = RegisterMemberActionInput(
    sex: JsValue,
    cpf: JsValue,
    email: JsValue,
    phone: JsValue,
    address: JsValue,
    fullName: JsValue,
    literacy: JsValue,
    birthDate: JsValue,
    reception: JsValue,
    celebrant: JsValue,
    professionOfFaithDate: JsValue,
    placeOfBirth: JsValue,
    maritalStatus: JsValue,
    classification: JsValue,
    baptizedInInfancy: JsValue,
    religiousBackground: JsValue)

  /** `input.key` of a request: the own property's value, or undefined. */
  predicate ReadAs(raw: JsValue, key: string, value: JsValue)
  {
    if HasOwn(raw, key) then value == raw.fields[key] else value == Undef
  }

  /** The properties of a request, absent ones as undefined. */
  function ActionInputOf(raw: JsValue): (r: RegisterMemberActionInput)
    ensures !raw.Obj? ==> r == RegisterMemberActionInput(Undef, Undef, Undef, Undef, Undef, Undef, Undef, Undef,
                                                          Undef, Undef, Undef, Undef, Undef, Undef, Undef, Undef)
    ensures !HasOwn(raw, "fullName") ==> r.fullName == Undef
    ensures !HasOwn(raw, "classification") ==> r.classification == Undef
    ensures HasOwn(raw, "fullName") ==> r.fullName == raw.fields["fullName"]
    ensures HasOwn(raw, "classification") ==> r.classification == raw.fields["classification"]
    ensures ReadAs(raw, "sex", r.sex) && ReadAs(raw, "cpf", r.cpf) && ReadAs(raw, "email", r.email)
    ensures ReadAs(raw, "phone", r.phone) && ReadAs(raw, "address", r.address) && ReadAs(raw, "literacy", r.literacy)
    ensures ReadAs(raw, "birthDate", r.birthDate) && ReadAs(raw, "reception", r.reception)
    ensures ReadAs(raw, "celebrant", r.celebrant) && ReadAs(raw, "professionOfFaithDate", r.professionOfFaithDate)
    ensures ReadAs(raw, "placeOfBirth", r.placeOfBirth) && ReadAs(raw, "maritalStatus", r.maritalStatus)
    ensures ReadAs(raw, "baptizedInInfancy", r.baptizedInInfancy)
    ensures ReadAs(raw, "religiousBackground", r.religiousBackground)
  {
    RegisterMemberActionInput(
      Get(raw, "sex"),
      Get(raw, "cpf"),
      Get(raw, "email"),
      Get(raw, "phone"),
      Get(raw, "address"),
      Get(raw, "fullName"),
      Get(raw, "literacy"),
      Get(raw, "birthDate"),
      Get(raw, "reception"),
      Get(raw, "celebrant"),
      Get(raw, "professionOfFaithDate"),
      Get(raw, "placeOfBirth"),
      Get(raw, "maritalStatus"),
      Get(raw, "classification"),
      Get(raw, "baptizedInInfancy"),
      Get(raw, "religiousBackground"))
  }

  const LITERACY_INVALID := "Member literacy must be true or false."
  const BAPTIZED_INVALID := "Member baptizedInInfancy must be true or false."
  const BACKGROUND_REQUIRED := "Member religious background is required."
  const PLACE_OF_BIRTH_REQUIRED := "Member place of birth is required."
  const CELEBRANT_REQUIRED := "Member celebrant is required."

  /** The first three checks of `normalizeRegisterInput`: the classification,
      the sex and the marital status. */
  datatype Choices = Choices(classification: Classification, sex: Sex, maritalStatus: MaritalStatus)

  function ChoicesOf(classificationValue: JsValue, sexValue: JsValue, maritalStatusValue: JsValue): (r: Result<Choices, Exception>)
    ensures r.Failure? ==> r.error.kind == PlainError
    ensures EnsureMemberClassification(classificationValue).Failure? ==> r == Failure(PlainErr(INVALID_CLASSIFICATION))
    ensures r.Success? <==>
      && EnsureMemberClassification(classificationValue).Success?
      && EnsureMemberSex(sexValue).Success? && EnsureMemberMaritalStatus(maritalStatusValue).Success?
    ensures r.Success? ==>
      && classificationValue.Str? && ClassificationName(r.value.classification) == Trim(classificationValue.s)
      && sexValue.Str? && SexName(r.value.sex) == Trim(sexValue.s)
      && maritalStatusValue.Str? && MaritalStatusName(r.value.maritalStatus) == Trim(maritalStatusValue.s)
  {
    var classification := EnsureMemberClassification(classificationValue);
    if classification.Failure? then Failure(classification.error) else
    var sex := EnsureMemberSex(sexValue);
    if sex.Failure? then Failure(sex.error) else
    var maritalStatus := EnsureMemberMaritalStatus(maritalStatusValue);
    if maritalStatus.Failure? then Failure(maritalStatus.error) else
    Success(Choices(classification.value, sex.value, maritalStatus.value))
  }

  /** The next three: the birth date and the two flags. */
  datatype Facts = Facts(birthDate: JsDate, literacy: bool, baptizedInInfancy: bool)

  function FactsOf(birthDateValue: JsValue, literacyValue: JsValue, baptizedValue: JsValue,
                   parse: string -> JsDate): (r: Result<Facts, Exception>)
    ensures r.Failure? ==> r.error.kind == PlainError
    ensures r.Success? <==>
      && ParseDate(birthDateValue, INVALID_BIRTH_DATE, parse).Success?
      && ParseBoolean(literacyValue, LITERACY_INVALID).Success?
      && ParseBoolean(baptizedValue, BAPTIZED_INVALID).Success?
    ensures r.Success? ==>
      && ParseDate(birthDateValue, INVALID_BIRTH_DATE, parse) == Success(r.value.birthDate)
      && r.value.birthDate.ValidDate?
      && ParseBoolean(literacyValue, LITERACY_INVALID) == Success(r.value.literacy)
      && ParseBoolean(baptizedValue, BAPTIZED_INVALID) == Success(r.value.baptizedInInfancy)
  {
    var birthDate := ParseDate(birthDateValue, INVALID_BIRTH_DATE, parse);
    if birthDate.Failure? then Failure(birthDate.error) else
    var literacy := ParseBoolean(literacyValue, LITERACY_INVALID);
    if literacy.Failure? then Failure(literacy.error) else
    var baptized := ParseBoolean(baptizedValue, BAPTIZED_INVALID);
    if baptized.Failure? then Failure(baptized.error) else
    Success(Facts(birthDate.value, literacy.value, baptized.value))
  }

  /** The next five: four required texts and the profession-of-faith date. */
  datatype Texts = Texts(religiousBackground: string, placeOfBirth: string, professionOfFaithDate: JsDate,
                         celebrant: string, fullName: string)

  function TextsOf(backgroundValue: JsValue, placeOfBirthValue: JsValue, professionOfFaithDateValue: JsValue,
                   celebrantValue: JsValue, fullNameValue: JsValue, parse: string -> JsDate): (r: Result<Texts, Exception>)
    ensures r.Failure? ==> r.error.kind == PlainError
    ensures r.Success? <==>
      && backgroundValue.Str? && !IsBlank(backgroundValue.s)
      && placeOfBirthValue.Str? && !IsBlank(placeOfBirthValue.s)
      && ParseDate(professionOfFaithDateValue, INVALID_RECEPTION_DATE, parse).Success?
      && celebrantValue.Str? && !IsBlank(celebrantValue.s)
      && fullNameValue.Str? && !IsBlank(fullNameValue.s)
    ensures r.Success? ==>
      && r.value.religiousBackground == Trim(backgroundValue.s) && IsNormalText(r.value.religiousBackground)
      && r.value.placeOfBirth == Trim(placeOfBirthValue.s) && IsNormalText(r.value.placeOfBirth)
      && ParseDate(professionOfFaithDateValue, INVALID_RECEPTION_DATE, parse) == Success(r.value.professionOfFaithDate)
      && r.value.professionOfFaithDate.ValidDate?
      && r.value.celebrant == Trim(celebrantValue.s) && IsNormalText(r.value.celebrant)
      && r.value.fullName == Trim(fullNameValue.s) && IsNormalText(r.value.fullName)
  {
    var background := EnsureNonEmptyString(backgroundValue, BACKGROUND_REQUIRED);
    if background.Failure? then Failure(background.error) else
    var placeOfBirth := EnsureNonEmptyString(placeOfBirthValue, PLACE_OF_BIRTH_REQUIRED);
    if placeOfBirth.Failure? then Failure(placeOfBirth.error) else
    var professionOfFaithDate := ParseDate(professionOfFaithDateValue, INVALID_RECEPTION_DATE, parse);
    if professionOfFaithDate.Failure? then Failure(professionOfFaithDate.error) else
    var celebrant := EnsureNonEmptyString(celebrantValue, CELEBRANT_REQUIRED);
    if celebrant.Failure? then Failure(celebrant.error) else
    var fullName := EnsureNonEmptyString(fullNameValue, INVALID_FULL_NAME);
    if fullName.Failure? then Failure(fullName.error) else
    NonEmptyStringIsNormal(backgroundValue, BACKGROUND_REQUIRED, "");
    NonEmptyStringIsNormal(placeOfBirthValue, PLACE_OF_BIRTH_REQUIRED, "");
    NonEmptyStringIsNormal(celebrantValue, CELEBRANT_REQUIRED, "");
    NonEmptyStringIsNormal(fullNameValue, INVALID_FULL_NAME, "");
    Success(Texts(background.value, placeOfBirth.value, professionOfFaithDate.value, celebrant.value, fullName.value))
  }

  /** The last two: the address and the reception. */
  function PlacesOf(addressValue: JsValue, receptionValue: JsValue, parse: string -> JsDate)
    : (r: Result<(MemberAddress, MemberReception), Exception>)
    ensures r.Failure? ==> r.error.kind == PlainError
    ensures r.Success? <==>
      BuildMemberAddress(addressValue).Success? && BuildMemberReception(receptionValue, INVALID_RECEPTION_DATE, parse).Success?
    ensures r.Success? ==>
      && BuildMemberAddress(addressValue) == Success(r.value.0) && NormalAddress(r.value.0)
      && BuildMemberReception(receptionValue, INVALID_RECEPTION_DATE, parse) == Success(r.value.1)
      && r.value.1.date.ValidDate? && IsNormalText(r.value.1.location)
  {
    var address := BuildMemberAddress(addressValue);
    if address.Failure? then Failure(address.error) else
    var reception := BuildMemberReception(receptionValue, INVALID_RECEPTION_DATE, parse);
    if reception.Failure? then Failure(reception.error) else
    Success((address.value, reception.value))
  }

  /** `normalizeRegisterInput`: each field is validated in the order the
      source lists them, and the first failure is thrown (`FirstErrorIsFirst`).
      An accepted request gives the trimmed texts, the validators' readings of
      the choices, dates and flags, the built address and reception, and
      `toNullableString` of the contacts. There is no `profession` field, and
      `professionOfFaithDate` is required. */
  function NormalizeRegisterInput(raw: RegisterMemberActionInput, parse: string -> JsDate): (r: Result<CreateMemberInput, Exception>)
    ensures r.Failure? ==> r.error.kind == PlainError
    ensures EnsureMemberClassification(raw.classification).Failure? ==> r == Failure(PlainErr(INVALID_CLASSIFICATION))
    ensures ParseDate(raw.professionOfFaithDate, INVALID_RECEPTION_DATE, parse).Failure? ==> r.Failure?
    ensures r.Success? ==> CleanRegisterInput(r.value)
    ensures r.Success? ==>
      && raw.classification.Str? && r.value.classification == Trim(raw.classification.s)
      && raw.sex.Str? && SexName(r.value.sex) == Trim(raw.sex.s)
      && raw.maritalStatus.Str? && MaritalStatusName(r.value.maritalStatus) == Trim(raw.maritalStatus.s)
      && ParseDate(raw.birthDate, INVALID_BIRTH_DATE, parse) == Success(r.value.birthDate)
      && ParseBoolean(raw.literacy, LITERACY_INVALID) == Success(r.value.literacy)
      && ParseBoolean(raw.baptizedInInfancy, BAPTIZED_INVALID) == Success(r.value.baptizedInInfancy)
    ensures r.Success? ==>
      && raw.religiousBackground.Str? && r.value.religiousBackground == Trim(raw.religiousBackground.s)
      && raw.placeOfBirth.Str? && r.value.placeOfBirth == Trim(raw.placeOfBirth.s)
      && ParseDate(raw.professionOfFaithDate, INVALID_RECEPTION_DATE, parse) == Success(r.value.professionOfFaithDate)
      && raw.celebrant.Str? && r.value.celebrant == Trim(raw.celebrant.s)
      && raw.fullName.Str? && r.value.fullName == Trim(raw.fullName.s)
      && BuildMemberAddress(raw.address) == Success(r.value.address)
      && BuildMemberReception(raw.reception, INVALID_RECEPTION_DATE, parse) == Success(r.value.reception)
    ensures r.Success? ==>
      r.value.cpf == TrimmedText(raw.cpf) && r.value.email == TrimmedText(raw.email) && r.value.phone == TrimmedText(raw.phone)
  {
    var choices := ChoicesOf(raw.classification, raw.sex, raw.maritalStatus);
    if choices.Failure? then Failure(choices.error) else
    var facts := FactsOf(raw.birthDate, raw.literacy, raw.baptizedInInfancy, parse);
    if facts.Failure? then Failure(facts.error) else
    var texts := TextsOf(raw.religiousBackground, raw.placeOfBirth, raw.professionOfFaithDate,
                         raw.celebrant, raw.fullName, parse);
    if texts.Failure? then Failure(texts.error) else
    var places := PlacesOf(raw.address, raw.reception, parse);
    if places.Failure? then Failure(places.error) else
    var c := choices.value;
    var f := facts.value;
    var t := texts.value;
    Success(CreateMemberInput(c.sex, TrimmedText(raw.cpf), TrimmedText(raw.email),
                              TrimmedText(raw.phone), places.value.0, t.fullName, f.literacy,
                              f.birthDate, places.value.1, t.celebrant, t.professionOfFaithDate,
                              t.placeOfBirth, c.maritalStatus, ClassificationName(c.classification),
                              f.baptizedInInfancy, t.religiousBackground))
  }

  /** The thirteen checks of `normalizeRegisterInput`, in the order it makes
      them (cpf, email and phone have no check that can fail). */
  datatype RegisterCheck =
    | ClassificationCheck | SexCheck | MaritalStatusCheck | BirthDateCheck | LiteracyCheck | BaptizedCheck
    | BackgroundCheck | PlaceOfBirthCheck | ProfessionOfFaithDateCheck | CelebrantCheck | FullNameCheck
    | AddressCheck | ReceptionCheck

  /** The position of a check in that order. */
  function Rank(c: RegisterCheck): nat
  {
    match c
    case ClassificationCheck => 0
    case SexCheck => 1
    case MaritalStatusCheck => 2
    case BirthDateCheck => 3
    case LiteracyCheck => 4
    case BaptizedCheck => 5
    case BackgroundCheck => 6
    case PlaceOfBirthCheck => 7
    case ProfessionOfFaithDateCheck => 8
    case CelebrantCheck => 9
    case FullNameCheck => 10
    case AddressCheck => 11
    case ReceptionCheck => 12
  }

  function ErrorOf<T>(r: Result<T, Exception>): Option<Exception>
  {
    if r.Failure? then Some(r.error) else None
  }

  /** The exception one check throws on its own, if any. */
  function CheckOf(raw: RegisterMemberActionInput, parse: string -> JsDate, c: RegisterCheck): Option<Exception>
  {
    match c
    case ClassificationCheck => ErrorOf(EnsureMemberClassification(raw.classification))
    case SexCheck => ErrorOf(EnsureMemberSex(raw.sex))
    case MaritalStatusCheck => ErrorOf(EnsureMemberMaritalStatus(raw.maritalStatus))
    case BirthDateCheck => ErrorOf(ParseDate(raw.birthDate, INVALID_BIRTH_DATE, parse))
    case LiteracyCheck => ErrorOf(ParseBoolean(raw.literacy, LITERACY_INVALID))
    case BaptizedCheck => ErrorOf(ParseBoolean(raw.baptizedInInfancy, BAPTIZED_INVALID))
    case BackgroundCheck => ErrorOf(EnsureNonEmptyString(raw.religiousBackground, BACKGROUND_REQUIRED))
    case PlaceOfBirthCheck => ErrorOf(EnsureNonEmptyString(raw.placeOfBirth, PLACE_OF_BIRTH_REQUIRED))
    case ProfessionOfFaithDateCheck => ErrorOf(ParseDate(raw.professionOfFaithDate, INVALID_RECEPTION_DATE, parse))
    case CelebrantCheck => ErrorOf(EnsureNonEmptyString(raw.celebrant, CELEBRANT_REQUIRED))
    case FullNameCheck => ErrorOf(EnsureNonEmptyString(raw.fullName, INVALID_FULL_NAME))
    case AddressCheck => ErrorOf(BuildMemberAddress(raw.address))
    case ReceptionCheck => ErrorOf(BuildMemberReception(raw.reception, INVALID_RECEPTION_DATE, parse))
  }

  function OrElse(first: Option<Exception>, second: Option<Exception>): Option<Exception>
  {
    if first.Some? then first else second
  }

  /** The outcome of every check, by check. */
  function ChecksOf(raw: RegisterMemberActionInput, parse: string -> JsDate): RegisterCheck -> Option<Exception>
  {
    c => CheckOf(raw, parse, c)
  }

  /** The first exception among the outcomes of the thirteen checks, in
      source order. */
  function FirstIn(check: RegisterCheck -> Option<Exception>): Option<Exception>
  {
    OrElse(check(ClassificationCheck),
    OrElse(check(SexCheck),
    OrElse(check(MaritalStatusCheck),
    OrElse(check(BirthDateCheck),
    OrElse(check(LiteracyCheck),
    OrElse(check(BaptizedCheck),
    OrElse(check(BackgroundCheck),
    OrElse(check(PlaceOfBirthCheck),
    OrElse(check(ProfessionOfFaithDateCheck),
    OrElse(check(CelebrantCheck),
    OrElse(check(FullNameCheck),
    OrElse(check(AddressCheck), check(ReceptionCheck)))))))))))))
  }

  /** The first check that throws, when one does. */
  function FailingIn(check: RegisterCheck -> Option<Exception>): RegisterCheck
    requires FirstIn(check).Some?
  {
    if check(ClassificationCheck).Some? then ClassificationCheck
    else if check(SexCheck).Some? then SexCheck
    else if check(MaritalStatusCheck).Some? then MaritalStatusCheck
    else if check(BirthDateCheck).Some? then BirthDateCheck
    else if check(LiteracyCheck).Some? then LiteracyCheck
    else if check(BaptizedCheck).Some? then BaptizedCheck
    else if check(BackgroundCheck).Some? then BackgroundCheck
    else if check(PlaceOfBirthCheck).Some? then PlaceOfBirthCheck
    else if check(ProfessionOfFaithDateCheck).Some? then ProfessionOfFaithDateCheck
    else if check(CelebrantCheck).Some? then CelebrantCheck
    else if check(FullNameCheck).Some? then FullNameCheck
    else if check(AddressCheck).Some? then AddressCheck
    else ReceptionCheck
  }

  /** No exception comes first exactly when every check passes. */
  lemma FirstInNoneIffAllPass(check: RegisterCheck -> Option<Exception>)
    ensures FirstIn(check).None? <==> forall c :: check(c).None?
  {
    if FirstIn(check).Some? {
      assert check(FailingIn(check)).Some?;
    } else {
      forall c ensures check(c).None? {
        match c
        case ClassificationCheck =>
        case SexCheck =>
        case MaritalStatusCheck =>
        case BirthDateCheck =>
        case LiteracyCheck =>
        case BaptizedCheck =>
        case BackgroundCheck =>
        case PlaceOfBirthCheck =>
        case ProfessionOfFaithDateCheck =>
        case CelebrantCheck =>
        case FullNameCheck =>
        case AddressCheck =>
        case ReceptionCheck =>
      }
    }
  }

  /** The failing check throws the first exception, and every check before
      it passes. */
  lemma FailingInIsFirst(check: RegisterCheck -> Option<Exception>)
    requires FirstIn(check).Some?
    ensures check(FailingIn(check)) == FirstIn(check)
    ensures forall d :: Rank(d) < Rank(FailingIn(check)) ==> check(d).None?
  {
    var c := FailingIn(check);
    forall d | Rank(d) < Rank(c)
      ensures check(d).None?
    {
    }
  }

  // Each group of checks throws the first exception among its own checks.

  lemma ChoicesError(raw: RegisterMemberActionInput, parse: string -> JsDate)
    ensures ErrorOf(ChoicesOf(raw.classification, raw.sex, raw.maritalStatus))
         == OrElse(CheckOf(raw, parse, ClassificationCheck),
            OrElse(CheckOf(raw, parse, SexCheck), CheckOf(raw, parse, MaritalStatusCheck)))
  {
  }

  lemma FactsError(raw: RegisterMemberActionInput, parse: string -> JsDate)
    ensures ErrorOf(FactsOf(raw.birthDate, raw.literacy, raw.baptizedInInfancy, parse))
         == OrElse(CheckOf(raw, parse, BirthDateCheck),
            OrElse(CheckOf(raw, parse, LiteracyCheck), CheckOf(raw, parse, BaptizedCheck)))
  {
  }

  lemma TextsError(raw: RegisterMemberActionInput, parse: string -> JsDate)
    ensures ErrorOf(TextsOf(raw.religiousBackground, raw.placeOfBirth, raw.professionOfFaithDate,
                            raw.celebrant, raw.fullName, parse))
         == OrElse(CheckOf(raw, parse, BackgroundCheck),
            OrElse(CheckOf(raw, parse, PlaceOfBirthCheck),
            OrElse(CheckOf(raw, parse, ProfessionOfFaithDateCheck),
            OrElse(CheckOf(raw, parse, CelebrantCheck), CheckOf(raw, parse, FullNameCheck)))))
  {
  }

  lemma PlacesError(raw: RegisterMemberActionInput, parse: string -> JsDate)
    ensures ErrorOf(PlacesOf(raw.address, raw.reception, parse))
         == OrElse(CheckOf(raw, parse, AddressCheck), CheckOf(raw, parse, ReceptionCheck))
  {
  }

  /** The exception `normalizeRegisterInput` throws is the first one in
      source order. */
  lemma NormalizeErrorIsFirst(raw: RegisterMemberActionInput, parse: string -> JsDate)
    ensures ErrorOf(NormalizeRegisterInput(raw, parse)) == FirstIn(ChecksOf(raw, parse))
  {
    ChoicesError(raw, parse);
    FactsError(raw, parse);
    TextsError(raw, parse);
    PlacesError(raw, parse);
  }

  /** The normalisation accepts a request exactly when every check passes. */
  lemma NoErrorIffAllPass(raw: RegisterMemberActionInput, parse: string -> JsDate)
    ensures NormalizeRegisterInput(raw, parse).Success? <==> forall c :: CheckOf(raw, parse, c).None?
  {
    var check := ChecksOf(raw, parse);
    NormalizeErrorIsFirst(raw, parse);
    FirstInNoneIffAllPass(check);
    assert forall c :: check(c) == CheckOf(raw, parse, c);
  }

  /** When it throws, it throws the exception of the first failing check in
      source order, and every earlier check passes. */
  lemma FirstErrorIsFirst(raw: RegisterMemberActionInput, parse: string -> JsDate)
    requires NormalizeRegisterInput(raw, parse).Failure?
    ensures FirstIn(ChecksOf(raw, parse)).Some?
    ensures var c := FailingIn(ChecksOf(raw, parse));
      && CheckOf(raw, parse, c) == Some(NormalizeRegisterInput(raw, parse).error)
      && forall d :: Rank(d) < Rank(c) ==> CheckOf(raw, parse, d).None?
  {
    NormalizeErrorIsFirst(raw, parse);
    FailingInIsFirst(ChecksOf(raw, parse));
  }

  /** The input guard followed by the normalisation. */
  function RegisterInputOf(rawInput: JsValue, parse: string -> JsDate): (r: Result<CreateMemberInput, Exception>)
    ensures !Truthy(rawInput) ==> r == Failure(PlainErr(INPUT_REQUIRED))
    ensures Truthy(rawInput) ==> r == NormalizeRegisterInput(ActionInputOf(rawInput), parse)
  {
    if !Truthy(rawInput) then Failure(PlainErr(INPUT_REQUIRED)) else NormalizeRegisterInput(ActionInputOf(rawInput), parse)
  }

  /** `registerMemberAction` as a whole: a rejected input throws before any
      transaction begins; an accepted one runs the registration. */
  function RegisterMember(committed: Store, rawInput: JsValue, parse: string -> JsDate, memberId: string,
                          now: Instant, stamp: EventStamp, b: BusState,
                          fails: (HandlerId, DomainEvent) -> bool): (r: Settlement<MemberView>)
    requires Valid(b)
    ensures RegisterInputOf(rawInput, parse).Failure? ==>
      r == Settlement(committed, Threw(RegisterInputOf(rawInput, parse).error), [])
  {
    var input := RegisterInputOf(rawInput, parse);
    if input.Failure? then Settlement(committed, Threw(input.error), [])
    else RunInTransaction(committed, RegisterMemberWork(committed, input.value, memberId, now, stamp), b, fails)
  }

  /** What an accepted input carries: a known classification, valid dates,
      trimmed non-empty texts and a normal address. */
  predicate CleanRegisterInput(input: CreateMemberInput)
  {
    && (input.classification == "communicant" || input.classification == "non-communicant")
    && input.birthDate.ValidDate? && input.professionOfFaithDate.ValidDate? && input.reception.date.ValidDate?
    && IsNormalText(input.fullName) && IsNormalText(input.celebrant) && IsNormalText(input.placeOfBirth)
    && IsNormalText(input.religiousBackground) && IsNormalText(input.reception.location)
    && NormalAddress(input.address)
  }

  /** `professionOfFaithDate` is required: an input without it (undefined,
      null or empty) is rejected, whatever else it holds. */
  lemma ProfessionOfFaithDateRequired(raw: JsValue, parse: string -> JsDate)
    requires var d := Get(raw, "professionOfFaithDate"); d.Undef? || d.Null? || (d.Str? && IsBlank(d.s))
    ensures RegisterInputOf(raw, parse).Failure?
  {
  }

  /** A registration through the action never carries a profession, so a
      communicant one always throws and changes nothing: with a full name
      too short for the entity, the name error; otherwise the missing
      admission fields. */
  lemma CommunicantRegistrationFails(committed: Store, raw: JsValue, parse: string -> JsDate, memberId: string,
                                     now: Instant, stamp: EventStamp, b: BusState,
                                     fails: (HandlerId, DomainEvent) -> bool)
    requires Valid(b)
    requires RegisterInputOf(raw, parse).Success? && RegisterInputOf(raw, parse).value.classification == "communicant"
    ensures var r := RegisterMember(committed, raw, parse, memberId, now, stamp, b, fails);
      var input := RegisterInputOf(raw, parse).value;
      r == Settlement(committed,
                      Threw(InvalidOp(if IsValidFullName(input.fullName) then MISSING_COMMUNICANT_REQUIRED_FIELDS
                                      else INVALID_FULL_NAME)), [])
  {
    var input := RegisterInputOf(raw, parse).value;
    CreateRejects(CreatePropsOf(input, memberId));
  }

  /** A non-communicant input the action accepts passes every check of
      `Member.create` exactly when its full name has two UTF-16 code units. */
  lemma NonCommunicantRegistrationAccepted(raw: JsValue, parse: string -> JsDate, memberId: string)
    requires RegisterInputOf(raw, parse).Success?
    requires RegisterInputOf(raw, parse).value.classification == "non-communicant"
    ensures var input := RegisterInputOf(raw, parse).value;
      CreateError(CreatePropsOf(input, memberId)).None? <==> Utf16Length(input.fullName) >= 2
  {
    var input := RegisterInputOf(raw, parse).value;
    CreateAccepts(CreatePropsOf(input, memberId));
    TrimOfTrimmed(input.fullName);
  }

  /** A `profession` property in the request is ignored. */
  lemma ProfessionIgnored(fields: map<string, JsValue>, profession: JsValue, parse: string -> JsDate)
    ensures RegisterInputOf(Obj(fields["profession" := profession]), parse) == RegisterInputOf(Obj(fields), parse)
  {
    GetOtherKey(fields, "profession", profession, "classification");
    GetOtherKey(fields, "profession", profession, "sex");
    GetOtherKey(fields, "profession", profession, "maritalStatus");
    GetOtherKey(fields, "profession", profession, "birthDate");
    GetOtherKey(fields, "profession", profession, "literacy");
    GetOtherKey(fields, "profession", profession, "baptizedInInfancy");
    GetOtherKey(fields, "profession", profession, "religiousBackground");
    GetOtherKey(fields, "profession", profession, "placeOfBirth");
    GetOtherKey(fields, "profession", profession, "professionOfFaithDate");
    GetOtherKey(fields, "profession", profession, "celebrant");
    GetOtherKey(fields, "profession", profession, "fullName");
    GetOtherKey(fields, "profession", profession, "address");
    GetOtherKey(fields, "profession", profession, "reception");
    GetOtherKey(fields, "profession", profession, "cpf");
    GetOtherKey(fields, "profession", profession, "email");
    GetOtherKey(fields, "profession", profession, "phone");
    assert ActionInputOf(Obj(fields["profession" := profession])) == ActionInputOf(Obj(fields));
  }

  /** `registerMemberAction` over a unit of work: a rejected input leaves
      the store untouched and no transaction begins. */
  method RegisterMemberAction(useCase: RegisterMemberUseCase, rawInput: JsValue, parse: string -> JsDate,
                              memberId: string, now: Instant, stamp: EventStamp,
                              fails: (HandlerId, DomainEvent) -> bool)
    returns (outcome: TxOutcome<MemberView>, trace: seq<Delivery>)
    requires useCase.uow.ambient.None? && Valid(useCase.uow.bus.State()) && useCase.repository.uow == useCase.uow
    modifies useCase.uow
    ensures useCase.uow.ambient == None
    ensures Settlement(useCase.uow.committed, outcome, trace)
            == RegisterMember(old(useCase.uow.committed), rawInput, parse, memberId, now, stamp,
                              useCase.uow.bus.State(), fails)
  {
    var input := RegisterInputOf(rawInput, parse);
    if input.Failure? {
      return Threw(input.error), [];
    }
    outcome, trace := useCase.Execute(input.value, memberId, now, stamp, fails);
  }
}
