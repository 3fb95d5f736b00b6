/** The Member aggregate of the church registry: personal data, address,
    reception into the church, a classification (communicant or not), a
    visibility status and a queue of pending domain events. */
module MemberEntity {
  import opened Wrappers
  import opened Js
  import opened Text
  import opened Errors
  import opened DomainEvents

  datatype Sex = Male | Female
  datatype MaritalStatus = Single | Married | Divorced | Widowed
  datatype ReceptionMode = ProfessionOfFaith | Transfer | Restoration
  datatype Classification = Communicant | NonCommunicant
  datatype Status = Active | Archived

  function SexName(x: Sex): string
  {
    match x
    case Male => "male"
    case Female => "female"
  }

  function MaritalStatusName(x: MaritalStatus): string
  {
    match x
    case Single => "single"
    case Married => "married"
    case Divorced => "divorced"
    case Widowed => "widowed"
  }

  function ReceptionModeName(x: ReceptionMode): string
  {
    match x
    case ProfessionOfFaith => "profession_of_faith"
    case Transfer => "transfer"
    case Restoration => "restoration"
  }

  function ClassificationName(x: Classification): string
  {
    match x
    case Communicant => "communicant"
    case NonCommunicant => "non-communicant"
  }

  function StatusName(x: Status): string
  {
    match x
    case Active => "active"
    case Archived => "archived"
  }

  datatype MemberReception = MemberReception(date: JsDate, mode: ReceptionMode, location: string)

  datatype MemberAddress = MemberAddress(
    zip: Option<string>,
    city: string,
    street: string,
    state: Option<string>,
    number: Option<string>,
    district: Option<string>,
    complement: Option<string>)

  /** `cpf`, `email` and `phone` are `None` for null. `profession` is `None`
      when the property is undefined, which the register path produces. */
  datatype MemberSnapshot = MemberSnapshot(
    sex: Sex,
    cpf: Option<string>,
    email: Option<string>,
    phone: Option<string>,
    status: Status,
    address: MemberAddress,
    memberId: string,
    fullName: string,
    literacy: bool,
    createdAt: Instant,
    birthDate: JsDate,
    celebrant: string,
    reception: MemberReception,
    profession: Option<string>,
    placeOfBirth: string,
    maritalStatus: MaritalStatus,
    classification: Classification,
    baptizedInInfancy: bool,
    religiousBackground: string)

  /** `classification` is the raw string `assertValidClassification` checks. */
  datatype MemberCreateProps = MemberCreateProps(
    sex: Sex,
    cpf: Option<string>,
    email: Option<string>,
    phone: Option<string>,
    address: MemberAddress,
    memberId: string,
    fullName: string,
    literacy: bool,
    birthDate: JsDate,
    celebrant: string,
    reception: MemberReception,
    profession: Option<string>,
    placeOfBirth: string,
    maritalStatus: MaritalStatus,
    classification: string,
    baptizedInInfancy: bool,
    religiousBackground: string)

  /** A sparse update: `None` is an undefined property. For email, phone and
      cpf, `Some(None)` is an explicit null. */
  datatype MemberUpdateProps = MemberUpdateProps(
    sex: Option<Sex>,
    cpf: Option<Option<string>>,
    email: Option<Option<string>>,
    phone: Option<Option<string>>,
    address: Option<MemberAddress>,
    literacy: Option<bool>,
    fullName: Option<string>,
    celebrant: Option<string>,
    birthDate: Option<JsDate>,
    reception: Option<MemberReception>,
    profession: Option<string>,
    placeOfBirth: Option<string>,
    maritalStatus: Option<MaritalStatus>,
    baptizedInInfancy: Option<bool>,
    religiousBackground: Option<string>)

  const NoChanges := MemberUpdateProps(None, None, None, None, None, None, None, None,
                                       None, None, None, None, None, None, None)

  function InvalidOp(message: string): Exception
  {
    Exception(InvalidOperation, message)
  }

  /** `Member.sanitizeFullName`. */
  function SanitizeFullName(name: string): string
  {
    Trim(name)
  }

  /** `Member.isValidFullName`: at least two UTF-16 code units once trimmed. */
  predicate IsValidFullName(name: string)
  {
    Utf16Length(SanitizeFullName(name)) >= 2
  }

  /** `Member.assertValidFullName`. */
  function AssertValidFullName(name: string): (r: Result<string, Exception>)
    ensures r.Success? <==> IsValidFullName(name)
    ensures r.Success? ==> r.value == SanitizeFullName(name) && IsValidFullName(r.value)
    ensures r.Failure? ==> r.error == InvalidOp(INVALID_FULL_NAME)
  {
    var sanitized := SanitizeFullName(name);
    TrimIdempotent(name);
    if !IsValidFullName(sanitized) then Failure(InvalidOp(INVALID_FULL_NAME)) else Success(sanitized)
  }

  /** The check counts UTF-16 code units as `.length` does: a one-emoji
      name passes, a one-letter name does not. */
  lemma AstralFullNameValid()
    ensures AssertValidFullName("\U{1F600}") == Success("\U{1F600}")
    ensures AssertValidFullName("a") == Failure(InvalidOp(INVALID_FULL_NAME))
  {
    TrimOfTrimmed("\U{1F600}");
    TrimOfTrimmed("a");
    Utf16AtLeastTwo("\U{1F600}");
    Utf16AtLeastTwo("a");
  }

  /** `Member.assertValidClassification`: exactly the two spellings. */
  function AssertValidClassification(c: string): (r: Result<Classification, Exception>)
    ensures r.Success? <==> c == "communicant" || c == "non-communicant"
    ensures r.Success? ==> ClassificationName(r.value) == c
    ensures r.Failure? ==> r.error == InvalidOp(INVALID_CLASSIFICATION)
  {
    if c == "communicant" then Success(Communicant)
    else if c == "non-communicant" then Success(NonCommunicant)
    else Failure(InvalidOp(INVALID_CLASSIFICATION))
  }

  /** `Member.assertValidDate`: a date whose time is not NaN. */
  function AssertValidDate(d: JsDate, errorCode: string): (r: Result<JsDate, Exception>)
    ensures r.Success? <==> d.ValidDate?
    ensures r.Success? ==> r.value == d
    ensures r.Failure? ==> r.error == InvalidOp(errorCode)
  {
    if d.InvalidDate? then Failure(InvalidOp(errorCode)) else Success(d)
  }

  /** The `required` list of `Member.create`, each value as JavaScript sees
      it; objects (address, reception) are represented by an empty object. */
  function RequiredForCommunicant(p: MemberCreateProps): seq<(string, JsValue)>
  {
    [ ("sex", Str(SexName(p.sex))),
      ("address", Obj(map[])),
      ("literacy", Bool(p.literacy)),
      ("birthDate", DateObj(p.birthDate)),
      ("reception", Obj(map[])),
      ("celebrant", Str(p.celebrant)),
      ("profession", if p.profession.Some? then Str(p.profession.value) else Undef),
      ("placeOfBirth", Str(p.placeOfBirth)),
      ("maritalStatus", Str(MaritalStatusName(p.maritalStatus))),
      ("baptizedInInfancy", Bool(p.baptizedInInfancy)),
      ("religiousBackground", Str(p.religiousBackground)) ]
  }

  /** The filter's test: undefined, null, or a string that trims to empty. */
  predicate IsMissing(v: JsValue)
  {
    v.Undef? || v.Null? || (v.Str? && |Trim(v.s)| == 0)
  }

  predicate AnyMissing(required: seq<(string, JsValue)>)
  {
    exists i :: 0 <= i < |required| && IsMissing(required[i].1)
  }

  /** Exactly the string fields can be missing; a `false` boolean never is. */
  lemma MissingFieldsAre(p: MemberCreateProps)
    ensures AnyMissing(RequiredForCommunicant(p)) <==>
      p.profession.None? || IsBlank(p.profession.value) || IsBlank(p.celebrant)
      || IsBlank(p.placeOfBirth) || IsBlank(p.religiousBackground)
  {
    var req := RequiredForCommunicant(p);
    var sexName := SexName(p.sex);
    var msName := MaritalStatusName(p.maritalStatus);
    assert sexName[0] != ' ' && !IsSpace(sexName[0]) && !IsSpace(sexName[|sexName| - 1]);
    assert !IsSpace(msName[0]) && !IsSpace(msName[|msName| - 1]);
    TrimOfTrimmed(sexName);
    TrimOfTrimmed(msName);
    if p.profession.None? {
      assert IsMissing(req[6].1);
    } else if IsBlank(p.profession.value) {
      assert IsMissing(req[6].1);
    } else if IsBlank(p.celebrant) {
      assert IsMissing(req[5].1);
    } else if IsBlank(p.placeOfBirth) {
      assert IsMissing(req[7].1);
    } else if IsBlank(p.religiousBackground) {
      assert IsMissing(req[10].1);
    } else {
      forall i | 0 <= i < |req| ensures !IsMissing(req[i].1) {
      }
    }
  }

  /** The error `Member.create` throws, in the order its checks run, or `None`. */
  function CreateError(p: MemberCreateProps): (r: Option<Exception>)
    ensures r.Some? ==> r.value.kind == InvalidOperation
    ensures r.Some? ==> r.value.message in {INVALID_FULL_NAME, INVALID_CLASSIFICATION, INVALID_BIRTH_DATE,
                                            MISSING_COMMUNICANT_REQUIRED_FIELDS, INVALID_RECEPTION_DATE}
    ensures r.None? ==> IsValidFullName(p.fullName) && p.birthDate.ValidDate?
  {
    var fullName := AssertValidFullName(p.fullName);
    var classification := AssertValidClassification(p.classification);
    if fullName.Failure? then Some(fullName.error)
    else if classification.Failure? then Some(classification.error)
    else if AssertValidDate(p.birthDate, INVALID_BIRTH_DATE).Failure? then Some(InvalidOp(INVALID_BIRTH_DATE))
    else if classification.value == Communicant then
      if AnyMissing(RequiredForCommunicant(p)) then Some(InvalidOp(MISSING_COMMUNICANT_REQUIRED_FIELDS))
      else if IsBlank(p.address.city) || IsBlank(p.address.street) then Some(InvalidOp(MISSING_COMMUNICANT_REQUIRED_FIELDS))
      else if AssertValidDate(p.reception.date, INVALID_RECEPTION_DATE).Failure? then Some(InvalidOp(INVALID_RECEPTION_DATE))
      else None
    else None
  }

  /** The communicant admission rule as a single condition. */
  predicate CommunicantFieldsComplete(p: MemberCreateProps)
  {
    p.profession.Some? && !IsBlank(p.profession.value) && !IsBlank(p.celebrant)
    && !IsBlank(p.placeOfBirth) && !IsBlank(p.religiousBackground)
    && !IsBlank(p.address.city) && !IsBlank(p.address.street)
    && p.reception.date.ValidDate?
  }

  /** `Member.create` accepts exactly: a valid full name, a known
      classification, a valid birth date and, for a communicant only, the
      complete admission fields. */
  lemma CreateAccepts(p: MemberCreateProps)
    ensures CreateError(p).None? <==>
      IsValidFullName(p.fullName)
      && (p.classification == "communicant" || p.classification == "non-communicant")
      && p.birthDate.ValidDate?
      && (p.classification == "communicant" ==> CommunicantFieldsComplete(p))
  {
    MissingFieldsAre(p);
  }

  /** Which error a rejected registration gets. */
  lemma CreateRejects(p: MemberCreateProps)
    ensures !IsValidFullName(p.fullName) ==> CreateError(p) == Some(InvalidOp(INVALID_FULL_NAME))
    ensures IsValidFullName(p.fullName) && p.classification != "communicant" && p.classification != "non-communicant"
      ==> CreateError(p) == Some(InvalidOp(INVALID_CLASSIFICATION))
    ensures (IsValidFullName(p.fullName) && (p.classification == "communicant" || p.classification == "non-communicant")
             && p.birthDate.InvalidDate?) ==> CreateError(p) == Some(InvalidOp(INVALID_BIRTH_DATE))
    ensures IsValidFullName(p.fullName) && p.classification == "communicant" && p.birthDate.ValidDate?
      && (p.profession.None? || IsBlank(p.profession.value) || IsBlank(p.celebrant) || IsBlank(p.placeOfBirth)
          || IsBlank(p.religiousBackground) || IsBlank(p.address.city) || IsBlank(p.address.street))
      ==> CreateError(p) == Some(InvalidOp(MISSING_COMMUNICANT_REQUIRED_FIELDS))
    ensures IsValidFullName(p.fullName) && p.classification == "communicant" && p.birthDate.ValidDate?
      && p.profession.Some? && !IsBlank(p.profession.value) && !IsBlank(p.celebrant) && !IsBlank(p.placeOfBirth)
      && !IsBlank(p.religiousBackground) && !IsBlank(p.address.city) && !IsBlank(p.address.street)
      && p.reception.date.InvalidDate?
      ==> CreateError(p) == Some(InvalidOp(INVALID_RECEPTION_DATE))
  {
    MissingFieldsAre(p);
  }

  /** The state `Member.create` builds once its checks pass. */
  function CreatedSnapshot(p: MemberCreateProps, classification: Classification, now: Instant): MemberSnapshot
  {
    MemberSnapshot(p.sex, p.cpf, p.email, p.phone, Active, p.address, p.memberId, SanitizeFullName(p.fullName),
                   p.literacy, now, p.birthDate, p.celebrant, p.reception, p.profession, p.placeOfBirth,
                   p.maritalStatus, classification, p.baptizedInInfancy, p.religiousBackground)
  }

  /** Whether two dates have the same `getTime()`; NaN equals nothing. */
  predicate SameTime(a: JsDate, b: JsDate)
  {
    a.ValidDate? && b.ValidDate? && a.at == b.at
  }

  /** What `Member.update` leaves behind: the state after the assignments that
      ran, whether anything changed, and the error it threw, if any. */
  datatype UpdateOutcome = UpdateOutcome(state: MemberSnapshot, changed: bool, error: Option<Exception>)

  /** The progress of `Member.update`: the state after the assignments made
      so far and its `changed` flag. */
  datatype Step = Step(state: MemberSnapshot, changed: bool)

  /** The full name (already validated when present). */
  function UpdateName(st: Step, p: MemberUpdateProps): Step
  {
    var s := st.state;
    var name := if p.fullName.Some? then SanitizeFullName(p.fullName.value) else s.fullName;
    Step(s.(fullName := name), st.changed || name != s.fullName)
  }

  /** Email, phone and cpf; an explicit null is a value like any other. */
  function UpdateContact(st: Step, p: MemberUpdateProps): Step
  {
    var s := st.state;
    Step(s.(email := p.email.GetOr(s.email),
            phone := p.phone.GetOr(s.phone),
            cpf := p.cpf.GetOr(s.cpf)),
         st.changed
         || (p.email.Some? && p.email.value != s.email)
         || (p.phone.Some? && p.phone.value != s.phone)
         || (p.cpf.Some? && p.cpf.value != s.cpf))
  }

  /** The birth date (already validated when present; compared by time),
      place of birth and sex. */
  function UpdateBirth(st: Step, p: MemberUpdateProps): Step
  {
    var s := st.state;
    var bdChanged := p.birthDate.Some? && !SameTime(p.birthDate.value, s.birthDate);
    Step(s.(birthDate := if bdChanged then p.birthDate.value else s.birthDate,
            placeOfBirth := p.placeOfBirth.GetOr(s.placeOfBirth),
            sex := p.sex.GetOr(s.sex)),
         st.changed || bdChanged
         || (p.placeOfBirth.Some? && p.placeOfBirth.value != s.placeOfBirth)
         || (p.sex.Some? && p.sex.value != s.sex))
  }

  /** Religious background, marital status and profession. */
  function UpdateBackground(st: Step, p: MemberUpdateProps): Step
  {
    var s := st.state;
    Step(s.(religiousBackground := p.religiousBackground.GetOr(s.religiousBackground),
            maritalStatus := p.maritalStatus.GetOr(s.maritalStatus),
            profession := if p.profession.Some? then Some(p.profession.value) else s.profession),
         st.changed
         || (p.religiousBackground.Some? && p.religiousBackground.value != s.religiousBackground)
         || (p.maritalStatus.Some? && p.maritalStatus.value != s.maritalStatus)
         || (p.profession.Some? && Some(p.profession.value) != s.profession))
  }

  /** The address (a change whenever present) and the two flags. */
  function UpdateAddress(st: Step, p: MemberUpdateProps): Step
  {
    var s := st.state;
    Step(s.(address := p.address.GetOr(s.address),
            literacy := p.literacy.GetOr(s.literacy),
            baptizedInInfancy := p.baptizedInInfancy.GetOr(s.baptizedInInfancy)),
         st.changed || p.address.Some?
         || (p.literacy.Some? && p.literacy.value != s.literacy)
         || (p.baptizedInInfancy.Some? && p.baptizedInInfancy.value != s.baptizedInInfancy))
  }

  /** The reception (already validated; a change whenever present) and the
      celebrant. */
  function UpdateReception(st: Step, p: MemberUpdateProps): Step
  {
    var s := st.state;
    Step(s.(reception := p.reception.GetOr(s.reception),
            celebrant := p.celebrant.GetOr(s.celebrant)),
         st.changed || p.reception.Some? || (p.celebrant.Some? && p.celebrant.value != s.celebrant))
  }

  /** `Member.update`, stage by stage in source order. A failing check stops
      the update with the earlier assignments already made. */
  function ApplyUpdate(s: MemberSnapshot, p: MemberUpdateProps): (r: UpdateOutcome)
    ensures r.error.Some? ==> r.error.value.kind == InvalidOperation
    ensures r.error.Some? ==> r.error.value.message in {INVALID_FULL_NAME, INVALID_BIRTH_DATE, INVALID_RECEPTION_DATE}
    ensures r.error.None? ==> (p.reception.Some? ==> r.state.reception == p.reception.value)
                              && (p.celebrant.Some? ==> r.state.celebrant == p.celebrant.value)
  {
    if p.fullName.Some? && !IsValidFullName(p.fullName.value) then
      UpdateOutcome(s, false, Some(InvalidOp(INVALID_FULL_NAME)))
    else
      var b := UpdateContact(UpdateName(Step(s, false), p), p);
      if p.birthDate.Some? && p.birthDate.value.InvalidDate? then
        UpdateOutcome(b.state, b.changed, Some(InvalidOp(INVALID_BIRTH_DATE)))
      else
        var e := UpdateAddress(UpdateBackground(UpdateBirth(b, p), p), p);
        if p.reception.Some? && p.reception.value.date.InvalidDate? then
          UpdateOutcome(e.state, e.changed, Some(InvalidOp(INVALID_RECEPTION_DATE)))
        else
          var f := UpdateReception(e, p);
          UpdateOutcome(f.state, f.changed, None)
  }

  /** An update with every property undefined changes nothing. */
  lemma UpdateWithNoChanges(s: MemberSnapshot)
    ensures ApplyUpdate(s, NoChanges) == UpdateOutcome(s, false, None)
  {
  }

  /** The identifier, creation time, status and classification are outside
      the reach of `update`, whatever it is passed. */
  lemma UpdateKeepsIdentity(s: MemberSnapshot, p: MemberUpdateProps)
    ensures var r := ApplyUpdate(s, p).state;
      r.memberId == s.memberId && r.createdAt == s.createdAt
      && r.status == s.status && r.classification == s.classification
  {
    var b := UpdateContact(UpdateName(Step(s, false), p), p);
    assert b.state.memberId == s.memberId && b.state.createdAt == s.createdAt;
    assert b.state.status == s.status && b.state.classification == s.classification;
  }

  /** `update` throws exactly when the new full name is invalid or a date it
      is given is invalid, and the first failing check names the error. */
  lemma UpdateErrors(s: MemberSnapshot, p: MemberUpdateProps)
    ensures var e := ApplyUpdate(s, p).error;
      (e.Some? <==> (p.fullName.Some? && !IsValidFullName(p.fullName.value))
                    || (p.birthDate.Some? && p.birthDate.value.InvalidDate?)
                    || (p.reception.Some? && p.reception.value.date.InvalidDate?))
      && (p.fullName.Some? && !IsValidFullName(p.fullName.value) ==> e == Some(InvalidOp(INVALID_FULL_NAME)))
  {
  }

  /** The update is not atomic: when the birth date is rejected, the name and
      contact assignments before it have already happened, and nothing
      after it has. */
  lemma UpdateRejectedBirthDateKeepsEarlierAssignments(s: MemberSnapshot, p: MemberUpdateProps)
    requires p.fullName.Some? ==> IsValidFullName(p.fullName.value)
    requires p.birthDate.Some? && p.birthDate.value.InvalidDate?
    ensures var o := ApplyUpdate(s, p);
      o.error == Some(InvalidOp(INVALID_BIRTH_DATE))
      && o.state.email == p.email.GetOr(s.email)
      && o.state.phone == p.phone.GetOr(s.phone)
      && o.state.cpf == p.cpf.GetOr(s.cpf)
      && o.state.fullName == (if p.fullName.Some? then SanitizeFullName(p.fullName.value) else s.fullName)
      && o.state.birthDate == s.birthDate && o.state.address == s.address && o.state.reception == s.reception
  {
  }

  /** Every property the update leaves undefined keeps its value from `s`
      in `t`. */
  predicate UndefinedKept(s: MemberSnapshot, t: MemberSnapshot, p: MemberUpdateProps)
  {
    (p.fullName.None? ==> t.fullName == s.fullName)
    && (p.email.None? ==> t.email == s.email)
    && (p.phone.None? ==> t.phone == s.phone)
    && (p.cpf.None? ==> t.cpf == s.cpf)
    && (p.birthDate.None? ==> t.birthDate == s.birthDate)
    && (p.placeOfBirth.None? ==> t.placeOfBirth == s.placeOfBirth)
    && (p.sex.None? ==> t.sex == s.sex)
    && (p.religiousBackground.None? ==> t.religiousBackground == s.religiousBackground)
    && (p.maritalStatus.None? ==> t.maritalStatus == s.maritalStatus)
    && (p.profession.None? ==> t.profession == s.profession)
    && (p.address.None? ==> t.address == s.address)
    && (p.literacy.None? ==> t.literacy == s.literacy)
    && (p.baptizedInInfancy.None? ==> t.baptizedInInfancy == s.baptizedInInfancy)
    && (p.reception.None? ==> t.reception == s.reception)
    && (p.celebrant.None? ==> t.celebrant == s.celebrant)
  }

  /** Some property the update carries differs from the member's current
      value: the name after sanitising, the birth date by its time, the
      profession as a present value, every other property as given. */
  predicate SomeGivenDiffers(s: MemberSnapshot, p: MemberUpdateProps)
  {
    (p.fullName.Some? && SanitizeFullName(p.fullName.value) != s.fullName)
    || (p.email.Some? && p.email.value != s.email)
    || (p.phone.Some? && p.phone.value != s.phone)
    || (p.cpf.Some? && p.cpf.value != s.cpf)
    || (p.birthDate.Some? && !SameTime(p.birthDate.value, s.birthDate))
    || (p.placeOfBirth.Some? && p.placeOfBirth.value != s.placeOfBirth)
    || (p.sex.Some? && p.sex.value != s.sex)
    || (p.religiousBackground.Some? && p.religiousBackground.value != s.religiousBackground)
    || (p.maritalStatus.Some? && p.maritalStatus.value != s.maritalStatus)
    || (p.profession.Some? && Some(p.profession.value) != s.profession)
    || (p.literacy.Some? && p.literacy.value != s.literacy)
    || (p.baptizedInInfancy.Some? && p.baptizedInInfancy.value != s.baptizedInInfancy)
    || (p.celebrant.Some? && p.celebrant.value != s.celebrant)
  }

  /** The name and contacts, when undefined, are kept. */
  lemma UpdateKeepsUndefinedContact(s: MemberSnapshot, p: MemberUpdateProps)
    ensures p.fullName.None? ==> ApplyUpdate(s, p).state.fullName == s.fullName
    ensures p.email.None? ==> ApplyUpdate(s, p).state.email == s.email
    ensures p.phone.None? ==> ApplyUpdate(s, p).state.phone == s.phone
    ensures p.cpf.None? ==> ApplyUpdate(s, p).state.cpf == s.cpf
  {
  }

  /** The birth date, place of birth and sex, when undefined, are kept. */
  lemma UpdateKeepsUndefinedBirth(s: MemberSnapshot, p: MemberUpdateProps)
    ensures p.birthDate.None? ==> ApplyUpdate(s, p).state.birthDate == s.birthDate
    ensures p.placeOfBirth.None? ==> ApplyUpdate(s, p).state.placeOfBirth == s.placeOfBirth
    ensures p.sex.None? ==> ApplyUpdate(s, p).state.sex == s.sex
  {
  }

  /** The background, marital status and profession, when undefined, are kept. */
  lemma UpdateKeepsUndefinedBackground(s: MemberSnapshot, p: MemberUpdateProps)
    ensures p.religiousBackground.None? ==> ApplyUpdate(s, p).state.religiousBackground == s.religiousBackground
    ensures p.maritalStatus.None? ==> ApplyUpdate(s, p).state.maritalStatus == s.maritalStatus
    ensures p.profession.None? ==> ApplyUpdate(s, p).state.profession == s.profession
  {
  }

  /** The address and the two flags, when undefined, are kept. */
  lemma UpdateKeepsUndefinedAddress(s: MemberSnapshot, p: MemberUpdateProps)
    ensures p.address.None? ==> ApplyUpdate(s, p).state.address == s.address
    ensures p.literacy.None? ==> ApplyUpdate(s, p).state.literacy == s.literacy
    ensures p.baptizedInInfancy.None? ==> ApplyUpdate(s, p).state.baptizedInInfancy == s.baptizedInInfancy
  {
  }

  /** The reception and the celebrant, when undefined, are kept. */
  lemma UpdateKeepsUndefinedReception(s: MemberSnapshot, p: MemberUpdateProps)
    ensures p.reception.None? ==> ApplyUpdate(s, p).state.reception == s.reception
    ensures p.celebrant.None? ==> ApplyUpdate(s, p).state.celebrant == s.celebrant
  {
  }

  /** `update` ignores undefined properties: whether it succeeds or throws
      part-way, every property it is not given keeps its value. */
  lemma UpdateFrame(s: MemberSnapshot, p: MemberUpdateProps)
    ensures UndefinedKept(s, ApplyUpdate(s, p).state, p)
  {
    UpdateKeepsUndefinedContact(s, p);
    UpdateKeepsUndefinedBirth(s, p);
    UpdateKeepsUndefinedBackground(s, p);
    UpdateKeepsUndefinedAddress(s, p);
    UpdateKeepsUndefinedReception(s, p);
  }

  /** A successful update reports a change exactly when some given value
      differs from the current one, or an address or a reception is given. */
  lemma UpdateChangedIff(s: MemberSnapshot, p: MemberUpdateProps)
    requires ApplyUpdate(s, p).error.None?
    ensures ApplyUpdate(s, p).changed <==> SomeGivenDiffers(s, p) || p.address.Some? || p.reception.Some?
  {
  }

  /** A successful update that carries an address or a reception always
      reports a change, even when the value is the current one. */
  lemma UpdateAddressAlwaysChanges(s: MemberSnapshot, p: MemberUpdateProps)
    requires ApplyUpdate(s, p).error.None?
    requires p.address.Some? || p.reception.Some?
    ensures ApplyUpdate(s, p).changed
  {
  }

  /** Every property the update carries already holds in `t`. */
  predicate StageValuesHeld(t: MemberSnapshot, p: MemberUpdateProps)
  {
    (p.fullName.Some? ==> t.fullName == SanitizeFullName(p.fullName.value))
    && (p.email.Some? ==> t.email == p.email.value)
    && (p.phone.Some? ==> t.phone == p.phone.value)
    && (p.cpf.Some? ==> t.cpf == p.cpf.value)
    && (p.birthDate.Some? ==> SameTime(p.birthDate.value, t.birthDate))
    && (p.placeOfBirth.Some? ==> t.placeOfBirth == p.placeOfBirth.value)
    && (p.sex.Some? ==> t.sex == p.sex.value)
    && (p.religiousBackground.Some? ==> t.religiousBackground == p.religiousBackground.value)
    && (p.maritalStatus.Some? ==> t.maritalStatus == p.maritalStatus.value)
    && (p.profession.Some? ==> t.profession == Some(p.profession.value))
    && (p.address.Some? ==> t.address == p.address.value)
    && (p.literacy.Some? ==> t.literacy == p.literacy.value)
    && (p.baptizedInInfancy.Some? ==> t.baptizedInInfancy == p.baptizedInInfancy.value)
    && (p.reception.Some? ==> t.reception == p.reception.value)
    && (p.celebrant.Some? ==> t.celebrant == p.celebrant.value)
  }

  /** A successful update leaves every property it carries in place. */
  lemma UpdateEstablishesValues(s: MemberSnapshot, p: MemberUpdateProps)
    requires ApplyUpdate(s, p).error.None?
    ensures StageValuesHeld(ApplyUpdate(s, p).state, p)
  {
  }

  /** An update whose properties all hold already keeps the state, and
      reports a change exactly when an address or a reception is given. */
  lemma UpdateOfHeldValues(t: MemberSnapshot, p: MemberUpdateProps)
    requires StageValuesHeld(t, p)
    requires p.fullName.Some? ==> IsValidFullName(p.fullName.value)
    requires p.birthDate.Some? ==> p.birthDate.value.ValidDate?
    requires p.reception.Some? ==> p.reception.value.date.ValidDate?
    ensures ApplyUpdate(t, p) == UpdateOutcome(t, p.address.Some? || p.reception.Some?, None)
  {
    var b := UpdateContact(UpdateName(Step(t, false), p), p);
    assert b == Step(t, false);
    var d := UpdateBackground(UpdateBirth(b, p), p);
    assert d == Step(t, false);
    var e := UpdateAddress(d, p);
    assert e == Step(t, p.address.Some?);
  }

  /** Replaying a successful update on its own result keeps the state, and
      then reports a change exactly when an address or a reception is given. */
  lemma UpdateReplay(s: MemberSnapshot, p: MemberUpdateProps)
    requires ApplyUpdate(s, p).error.None?
    ensures var once := ApplyUpdate(s, p).state;
      ApplyUpdate(once, p) == UpdateOutcome(once, p.address.Some? || p.reception.Some?, None)
  {
    UpdateEstablishesValues(s, p);
    if p.fullName.Some? {
      TrimIdempotent(p.fullName.value);
    }
    UpdateOfHeldValues(ApplyUpdate(s, p).state, p);
  }

  class Member {
    const memberId: string
    const createdAt: Instant
    var sex: Sex
    var cpf: Option<string>
    var email: Option<string>
    var phone: Option<string>
    var status: Status
    /** The pending events, oldest first. */
    var events: seq<DomainEvent>
    var address: MemberAddress
    var fullName: string
    var literacy: bool
    var reception: MemberReception
    var celebrant: string
    var birthDate: JsDate
    var profession: Option<string>
    var placeOfBirth: string
    var maritalStatus: MaritalStatus
    var classification: Classification
    var baptizedInInfancy: bool
    var religiousBackground: string

    function ToSnapshot(): MemberSnapshot
      reads this
    {
      MemberSnapshot(sex, cpf, email, phone, status, address, memberId, fullName, literacy, createdAt,
                     birthDate, celebrant, reception, profession, placeOfBirth, maritalStatus,
                     classification, baptizedInInfancy, religiousBackground)
    }

    /** The private constructor: the snapshot's state and an empty queue. */
    constructor (s: MemberSnapshot)
      ensures ToSnapshot() == s && events == []
    {
      sex := s.sex;
      cpf := s.cpf;
      email := s.email;
      phone := s.phone;
      status := s.status;
      address := s.address;
      literacy := s.literacy;
      fullName := s.fullName;
      memberId := s.memberId;
      reception := s.reception;
      celebrant := s.celebrant;
      createdAt := s.createdAt;
      birthDate := s.birthDate;
      profession := s.profession;
      placeOfBirth := s.placeOfBirth;
      maritalStatus := s.maritalStatus;
      classification := s.classification;
      baptizedInInfancy := s.baptizedInInfancy;
      religiousBackground := s.religiousBackground;
      events := [];
    }

    static method Rehydrate(s: MemberSnapshot) returns (member: Member)
      ensures fresh(member) && member.ToSnapshot() == s && member.events == []
    {
      member := new Member(s);
    }

    /** `Member.create`; `now` is the clock reading for createdAt. */
    static method Create(p: MemberCreateProps, now: Instant, stamp: EventStamp) returns (r: Result<Member, Exception>)
      ensures r.Failure? <==> CreateError(p).Some?
      ensures r.Failure? ==> r.error == CreateError(p).value
      ensures r.Success? ==>
                fresh(r.value)
                && r.value.ToSnapshot() == CreatedSnapshot(p, AssertValidClassification(p.classification).value, now)
                && r.value.events == [MemberEvent(stamp, MEMBER_REGISTERED, p.memberId)]
    {
      var fullName := AssertValidFullName(p.fullName);
      if fullName.Failure? {
        return Failure(fullName.error);
      }
      var classification := AssertValidClassification(p.classification);
      if classification.Failure? {
        return Failure(classification.error);
      }
      var birthDate := AssertValidDate(p.birthDate, INVALID_BIRTH_DATE);
      if birthDate.Failure? {
        return Failure(birthDate.error);
      }
      if classification.value == Communicant {
        if AnyMissing(RequiredForCommunicant(p)) {
          return Failure(InvalidOp(MISSING_COMMUNICANT_REQUIRED_FIELDS));
        }
        if IsBlank(p.address.city) || IsBlank(p.address.street) {
          return Failure(InvalidOp(MISSING_COMMUNICANT_REQUIRED_FIELDS));
        }
        var receptionDate := AssertValidDate(p.reception.date, INVALID_RECEPTION_DATE);
        if receptionDate.Failure? {
          return Failure(receptionDate.error);
        }
      }
      var member := new Member(MemberSnapshot(
        p.sex, p.cpf, p.email, p.phone, Active, p.address, p.memberId, fullName.value, p.literacy, now,
        birthDate.value, p.celebrant, p.reception, p.profession, p.placeOfBirth, p.maritalStatus,
        classification.value, p.baptizedInInfancy, p.religiousBackground));
      member.Emit(MemberEvent(stamp, MEMBER_REGISTERED, member.memberId));
      return Success(member);
    }

    /** `Member.update`: assigns field by field, so a failing date check leaves
        the earlier assignments in place and queues no event. */
    method Update(p: MemberUpdateProps, stamp: EventStamp) returns (err: Option<Exception>)
      modifies this
      ensures ToSnapshot() == ApplyUpdate(old(ToSnapshot()), p).state
      ensures err == ApplyUpdate(old(ToSnapshot()), p).error
      ensures events == old(events) + (if err.None? && ApplyUpdate(old(ToSnapshot()), p).changed
                                       then [MemberEvent(stamp, MEMBER_UPDATED, memberId)] else [])
    {
      if p.fullName.Some? {
        var val := AssertValidFullName(p.fullName.value);
        if val.Failure? {
          return Some(val.error);
        }
      }
      var changed := AssignName(p, false);
      changed := AssignContact(p, changed);
      if p.birthDate.Some? {
        var bd := AssertValidDate(p.birthDate.value, INVALID_BIRTH_DATE);
        if bd.Failure? {
          return Some(bd.error);
        }
      }
      changed := AssignBirth(p, changed);
      changed := AssignBackground(p, changed);
      changed := AssignAddress(p, changed);
      if p.reception.Some? {
        var rd := AssertValidDate(p.reception.value.date, INVALID_RECEPTION_DATE);
        if rd.Failure? {
          return Some(rd.error);
        }
      }
      changed := AssignReception(p, changed);
      err := None;
      if changed {
        Emit(MemberEvent(stamp, MEMBER_UPDATED, memberId));
      }
    }

    /* The assignments of each stage. Each source `if (differs) { assign;
       changed = true }` is a comparison followed by an unconditional
       assignment, which stores the same value. */

    method AssignName(p: MemberUpdateProps, changedIn: bool) returns (changed: bool)
      requires p.fullName.Some? ==> IsValidFullName(p.fullName.value)
      modifies this
      ensures Step(ToSnapshot(), changed) == UpdateName(Step(old(ToSnapshot()), changedIn), p)
      ensures events == old(events)
    {
      var name := if p.fullName.Some? then SanitizeFullName(p.fullName.value) else fullName;
      changed := changedIn || name != fullName;
      fullName := name;
    }

    method AssignContact(p: MemberUpdateProps, changedIn: bool) returns (changed: bool)
      modifies this
      ensures Step(ToSnapshot(), changed) == UpdateContact(Step(old(ToSnapshot()), changedIn), p)
      ensures events == old(events)
    {
      changed := changedIn || (p.email.Some? && p.email.value != email);
      email := p.email.GetOr(email);
      changed := changed || (p.phone.Some? && p.phone.value != phone);
      phone := p.phone.GetOr(phone);
      changed := changed || (p.cpf.Some? && p.cpf.value != cpf);
      cpf := p.cpf.GetOr(cpf);
    }

    method AssignBirth(p: MemberUpdateProps, changedIn: bool) returns (changed: bool)
      modifies this
      ensures Step(ToSnapshot(), changed) == UpdateBirth(Step(old(ToSnapshot()), changedIn), p)
      ensures events == old(events)
    {
      var bdChanged := p.birthDate.Some? && !SameTime(p.birthDate.value, birthDate);
      changed := changedIn || bdChanged;
      birthDate := if bdChanged then p.birthDate.value else birthDate;
      changed := changed || (p.placeOfBirth.Some? && p.placeOfBirth.value != placeOfBirth);
      placeOfBirth := p.placeOfBirth.GetOr(placeOfBirth);
      changed := changed || (p.sex.Some? && p.sex.value != sex);
      sex := p.sex.GetOr(sex);
    }

    method AssignBackground(p: MemberUpdateProps, changedIn: bool) returns (changed: bool)
      modifies this
      ensures Step(ToSnapshot(), changed) == UpdateBackground(Step(old(ToSnapshot()), changedIn), p)
      ensures events == old(events)
    {
      changed := changedIn || (p.religiousBackground.Some? && p.religiousBackground.value != religiousBackground);
      religiousBackground := p.religiousBackground.GetOr(religiousBackground);
      changed := changed || (p.maritalStatus.Some? && p.maritalStatus.value != maritalStatus);
      maritalStatus := p.maritalStatus.GetOr(maritalStatus);
      changed := changed || (p.profession.Some? && Some(p.profession.value) != profession);
      profession := if p.profession.Some? then Some(p.profession.value) else profession;
    }

    method AssignAddress(p: MemberUpdateProps, changedIn: bool) returns (changed: bool)
      modifies this
      ensures Step(ToSnapshot(), changed) == UpdateAddress(Step(old(ToSnapshot()), changedIn), p)
      ensures events == old(events)
    {
      changed := changedIn || p.address.Some?;
      address := p.address.GetOr(address);
      changed := changed || (p.literacy.Some? && p.literacy.value != literacy);
      literacy := p.literacy.GetOr(literacy);
      changed := changed || (p.baptizedInInfancy.Some? && p.baptizedInInfancy.value != baptizedInInfancy);
      baptizedInInfancy := p.baptizedInInfancy.GetOr(baptizedInInfancy);
    }

    method AssignReception(p: MemberUpdateProps, changedIn: bool) returns (changed: bool)
      modifies this
      ensures Step(ToSnapshot(), changed) == UpdateReception(Step(old(ToSnapshot()), changedIn), p)
      ensures events == old(events)
    {
      changed := changedIn || p.reception.Some?;
      reception := p.reception.GetOr(reception);
      changed := changed || (p.celebrant.Some? && p.celebrant.value != celebrant);
      celebrant := p.celebrant.GetOr(celebrant);
    }

    /** Sets a new classification; a no-op when it is already the current one.
        The communicant admission fields are not re-checked. */
    method ChangeClassification(c: string, stamp: EventStamp) returns (err: Option<Exception>)
      modifies this
      ensures err.Some? <==> AssertValidClassification(c).Failure?
      ensures err.Some? ==> err.value == InvalidOp(INVALID_CLASSIFICATION)
      ensures err.Some? || AssertValidClassification(c).value == old(classification) ==>
                ToSnapshot() == old(ToSnapshot()) && events == old(events)
      ensures err.None? && AssertValidClassification(c).value != old(classification) ==>
                ToSnapshot() == old(ToSnapshot()).(classification := AssertValidClassification(c).value)
                && events == old(events) + [MemberClassificationChanged(stamp, memberId, c)]
    {
      var val := AssertValidClassification(c);
      if val.Failure? {
        return Some(val.error);
      }
      err := None;
      if val.value == classification {
        return;
      }
      classification := val.value;
      Emit(MemberClassificationChanged(stamp, memberId, ClassificationName(val.value)));
    }

    method Archive(stamp: EventStamp)
      modifies this
      ensures ToSnapshot() == old(ToSnapshot()).(status := Archived)
      ensures events == old(events) + (if old(status) == Archived then [] else [MemberEvent(stamp, MEMBER_ARCHIVED, memberId)])
    {
      if status == Archived {
        return;
      }
      status := Archived;
      Emit(MemberEvent(stamp, MEMBER_ARCHIVED, memberId));
    }

    method Restore(stamp: EventStamp)
      modifies this
      ensures ToSnapshot() == old(ToSnapshot()).(status := Active)
      ensures events == old(events) + (if old(status) == Active then [] else [MemberEvent(stamp, MEMBER_RESTORED, memberId)])
    {
      if status == Active {
        return;
      }
      status := Active;
      Emit(MemberEvent(stamp, MEMBER_RESTORED, memberId));
    }

    /** Queues the deletion intent; the row itself is removed by the repository. */
    method Delete(stamp: EventStamp)
      modifies this`events
      ensures events == old(events) + [MemberEvent(stamp, MEMBER_DELETED, memberId)]
    {
      Emit(MemberEvent(stamp, MEMBER_DELETED, memberId));
    }

    method Emit(event: DomainEvent)
      modifies this`events
      ensures events == old(events) + [event]
    {
      events := events + [event];
    }

    /** Hands back the queued events in emission order and empties the queue. */
    method PullEvents() returns (out: seq<DomainEvent>)
      modifies this`events
      ensures out == old(events) && events == []
    {
      out := events;
      events := [];
    }
  }
}
