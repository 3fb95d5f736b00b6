/** `mapPrismaMemberToView`: the view the search query builds straight from
    a member row, without going through the `Member` aggregate. It expects
    any column may be null and any enum column may hold an unknown value,
    and falls back to a default for each. */
module MemberRecordMapper {
  import opened Wrappers
  import opened Js
  import opened Errors
  import opened Dates
  import opened MemberEntity
  import opened Storage
  import opened Mappers

  /** A member row as the read side sees it: `None` is a null column, and
      the enum columns are the text the database holds. The columns the
      mapper does not read are not part of it, apart from `profile`, which
      the search filters on. */
  datatype MemberRow = MemberRow(
    memberId: string,
    fullName: string,
    email: Option<string>,
    phone: Option<string>,
    cpf: Option<string>,
    profile: Option<string>,
    classification: Option<string>,
    status: string,
    sex: string,
    maritalStatus: Option<string>,
    birthDate: Option<JsDate>,
    createdAt: Option<JsDate>,
    receptionDate: Option<JsDate>,
    receptionMode: Option<string>,
    receptionLocation: Option<string>,
    celebrant: Option<string>,
    profession: Option<string>,
    placeOfBirth: Option<string>,
    baptizedInInfancy: Option<bool>,
    religiousBackground: Option<string>,
    addressStreet: string,
    addressCity: string,
    addressNumber: Option<string>,
    addressDistrict: Option<string>,
    addressState: Option<string>,
    addressZip: Option<string>,
    addressComplement: Option<string>)

  const CLASSIFICATION_NAMES: set<string> := {"communicant", "non-communicant"}
  const MARITAL_STATUS_NAMES: set<string> := {"single", "married", "divorced", "widowed"}
  const RECEPTION_MODE_NAMES: set<string> := {"profession_of_faith", "transfer", "restoration"}

  /** `normalizeClassification`: the database's `nonCommunicant` becomes
      `non-communicant`, and everything else, null included, `communicant`. */
  function NormalizeClassification(value: Option<string>): (r: string)
    ensures r in CLASSIFICATION_NAMES
    ensures r == "non-communicant" <==> value == Some("nonCommunicant")
  {
    if value == Some("nonCommunicant") then "non-communicant" else "communicant"
  }

  /** `normalizeMaritalStatus`: married, divorced and widowed pass through;
      anything else, null included, becomes `single`. */
  function NormalizeMaritalStatus(value: Option<string>): (r: string)
    ensures r in MARITAL_STATUS_NAMES
    ensures value.Some? && value.value in {"married", "divorced", "widowed"} ==> r == value.value
    ensures !(value.Some? && value.value in {"married", "divorced", "widowed"}) ==> r == "single"
  {
    match value
    case Some("married") => "married"
    case Some("divorced") => "divorced"
    case Some("widowed") => "widowed"
    case _ => "single"
  }

  /** `normalizeReceptionMode`: transfer and restoration pass through;
      anything else, null included, becomes `profession_of_faith`. */
  function NormalizeReceptionMode(value: Option<string>): (r: string)
    ensures r in RECEPTION_MODE_NAMES
    ensures value.Some? && value.value in {"transfer", "restoration"} ==> r == value.value
    ensures !(value.Some? && value.value in {"transfer", "restoration"}) ==> r == "profession_of_faith"
  {
    match value
    case Some("transfer") => "transfer"
    case Some("restoration") => "restoration"
    case _ => "profession_of_faith"
  }

  /** The local `toIsoString`: a null date renders as the empty string; any
      `Date`, even an invalid one, is truthy and goes to `toISOString`. */
  function RowIsoString(value: Option<JsDate>): (r: Result<string, Exception>)
    ensures value.None? ==> r == Success("")
    ensures value.Some? ==> r == ToIsoString(value.value)
  {
    if value.None? then Success("") else ToIsoString(value.value)
  }

  /** `value ?? ""`. */
  function OrEmpty(value: Option<string>): string
  {
    if value.Some? then value.value else ""
  }

  /** The dates of a row the view renders. */
  predicate RowDatesRender(row: MemberRow)
  {
    RowIsoString(row.birthDate).Success? && RowIsoString(row.createdAt).Success?
    && RowIsoString(row.receptionDate).Success?
  }

  /** `mapPrismaMemberToView`; it throws only where `toISOString` does. */
  function MapRowToView(row: MemberRow): (r: Result<MemberView, Exception>)
    ensures r.Failure? <==> !RowDatesRender(row)
    ensures r.Failure? ==> r.error == InvalidTimeValue()
    ensures r.Success? ==>
      && r.value.id == row.memberId && r.value.fullName == row.fullName
      && r.value.email == row.email && r.value.phone == row.phone && r.value.cpf == row.cpf
      && r.value.classification == NormalizeClassification(Some(OrEmptyClassification(row.classification)))
      && r.value.status == row.status && r.value.sex == row.sex
      && r.value.maritalStatus == NormalizeMaritalStatus(row.maritalStatus)
      && r.value.address == MemberAddress(row.addressZip, row.addressCity, row.addressStreet, row.addressState,
                                          row.addressNumber, row.addressDistrict, row.addressComplement)
      && r.value.birthDate == RowIsoString(row.birthDate).value
      && r.value.createdAt == RowIsoString(row.createdAt).value
      && r.value.reception == ReceptionView(RowIsoString(row.receptionDate).value,
                                            NormalizeReceptionMode(row.receptionMode), OrEmpty(row.receptionLocation))
      && r.value.celebrant == OrEmpty(row.celebrant)
      && r.value.profession == Some(OrEmpty(row.profession))
      && r.value.placeOfBirth == OrEmpty(row.placeOfBirth)
      && r.value.baptizedInInfancy == (row.baptizedInInfancy == Some(true))
      && r.value.religiousBackground == OrEmpty(row.religiousBackground)
  {
    var birthDate := RowIsoString(row.birthDate);
    var createdAt := RowIsoString(row.createdAt);
    var receptionDate := RowIsoString(row.receptionDate);
    if birthDate.Failure? then Failure(birthDate.error)
    else if createdAt.Failure? then Failure(createdAt.error)
    else if receptionDate.Failure? then Failure(receptionDate.error)
    else
      Success(MemberView(
        row.memberId, row.fullName, row.email, row.phone, row.cpf,
        NormalizeClassification(Some(OrEmptyClassification(row.classification))), row.status, row.sex,
        NormalizeMaritalStatus(row.maritalStatus),
        MemberAddress(row.addressZip, row.addressCity, row.addressStreet, row.addressState,
                      row.addressNumber, row.addressDistrict, row.addressComplement),
        birthDate.value, createdAt.value,
        ReceptionView(receptionDate.value, NormalizeReceptionMode(row.receptionMode), OrEmpty(row.receptionLocation)),
        OrEmpty(row.celebrant), Some(OrEmpty(row.profession)), OrEmpty(row.placeOfBirth),
        if row.baptizedInInfancy.Some? then row.baptizedInInfancy.value else false,
        OrEmpty(row.religiousBackground)))
  }

  /** `record.classification ?? "communicant"`. */
  function OrEmptyClassification(value: Option<string>): string
  {
    if value.Some? then value.value else "communicant"
  }

  /** The normalisers keep every name the view allows: normalising a view's
      own value gives it back. */
  lemma NormalizersFixViewNames(c: string, m: string, mode: string)
    ensures c in CLASSIFICATION_NAMES && c != "non-communicant" ==> NormalizeClassification(Some(c)) == c
    ensures m in MARITAL_STATUS_NAMES ==> NormalizeMaritalStatus(Some(m)) == m
    ensures mode in RECEPTION_MODE_NAMES ==> NormalizeReceptionMode(Some(mode)) == mode
  {
  }

  /** A stored member row, as the read side sees it. */
  function RowOf(r: MemberRecord): MemberRow
  {
    MemberRow(r.memberId, r.fullName, r.email, r.phone, r.cpf, r.profile,
              Some(if r.classification == PrismaNonCommunicant then "nonCommunicant" else "communicant"),
              StatusName(r.status), SexName(r.sex), Some(MaritalStatusName(r.maritalStatus)),
              Some(r.birthDate), Some(ValidDate(r.createdAt)), Some(r.receptionDate),
              Some(ReceptionModeName(r.receptionMode)), Some(r.receptionLocation), Some(r.celebrant),
              r.profession, Some(r.placeOfBirth), Some(r.baptizedInInfancy), Some(r.religiousBackground),
              r.addressStreet, r.addressCity, r.addressNumber, r.addressDistrict, r.addressState,
              r.addressZip, r.addressComplement)
  }

  /** The enum columns of a stored row come through the normalisers as the
      domain's own names. */
  lemma StoredNamesNormalized(r: MemberRecord)
    ensures NormalizeClassification(Some(OrEmptyClassification(RowOf(r).classification)))
            == ClassificationName(ToDomainClassification(r.classification))
    ensures NormalizeMaritalStatus(RowOf(r).maritalStatus) == MaritalStatusName(r.maritalStatus)
    ensures NormalizeReceptionMode(RowOf(r).receptionMode) == ReceptionModeName(r.receptionMode)
  {
    match r.maritalStatus
    case Single =>
    case Married =>
    case Divorced =>
    case Widowed =>
  }

  /** For a row the repository wrote, the search view is the view the use
      cases return for the member read back from it, except that a null
      profession shows as the empty string rather than undefined. */
  lemma RowViewMatchesMemberView(r: MemberRecord)
    ensures var v := MemberToView(MemberFromRecord(r));
      && (MapRowToView(RowOf(r)).Success? <==> v.Success?)
      && (v.Success? ==> MapRowToView(RowOf(r)).value == v.value.(profession := Some(OrEmpty(r.profession))))
  {
    StoredNamesNormalized(r);
  }
}
