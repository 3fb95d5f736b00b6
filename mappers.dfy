/** `HeroMapper.toView` and `MemberMapper.toView`: the JSON-safe views the
    use cases return. `toISOString` throws on a date outside its range, so
    both are partial. */
module Mappers {
  import opened Wrappers
  import opened Js
  import opened Errors
  import opened Dates
  import opened HeroEntity
  import opened MemberEntity

  datatype HeroView = HeroView(id: string, name: string, power: int, alive: bool, createdAt: string)

  datatype ReceptionView = ReceptionView(date: string, mode: string, location: string)

  /** A member view; there is no `literacy` in it. */
  datatype MemberView = MemberView(
    id: string,
    fullName: string,
    email: Option<string>,
    phone: Option<string>,
    cpf: Option<string>,
    classification: string,
    status: string,
    sex: string,
    maritalStatus: string,
    address: MemberAddress,
    birthDate: string,
    createdAt: string,
    reception: ReceptionView,
    celebrant: string,
    profession: Option<string>,
    placeOfBirth: string,
    baptizedInInfancy: bool,
    religiousBackground: string)

  function HeroToView(s: HeroSnapshot): (r: Result<HeroView, Exception>)
    ensures r.Failure? <==> !InTimeRange(s.createdAt.epochMillis)
    ensures r.Failure? ==> r.error == InvalidTimeValue()
    ensures r.Success? ==> r.value.id == s.heroId && r.value.name == s.name && r.value.power == s.power
                           && r.value.alive == s.alive && r.value.createdAt == IsoOfTime(s.createdAt.epochMillis)
  {
    var createdAt := ToIsoString(ValidDate(s.createdAt));
    if createdAt.Failure? then Failure(createdAt.error)
    else Success(HeroView(s.heroId, s.name, s.power, s.alive, createdAt.value))
  }

  /** The three dates a member view renders, in the order it renders them. */
  predicate MemberDatesRender(s: MemberSnapshot)
  {
    Renders(s.birthDate) && InTimeRange(s.createdAt.epochMillis) && Renders(s.reception.date)
  }

  function MemberToView(s: MemberSnapshot): (r: Result<MemberView, Exception>)
    ensures r.Failure? <==> !MemberDatesRender(s)
    ensures r.Failure? ==> r.error == InvalidTimeValue()
    ensures r.Success? ==>
      && r.value.id == s.memberId && r.value.fullName == s.fullName
      && r.value.email == s.email && r.value.phone == s.phone && r.value.cpf == s.cpf
      && r.value.classification == ClassificationName(s.classification) && r.value.status == StatusName(s.status)
      && r.value.sex == SexName(s.sex) && r.value.maritalStatus == MaritalStatusName(s.maritalStatus)
      && r.value.address == s.address
      && r.value.birthDate == ToIsoString(s.birthDate).value
      && r.value.createdAt == IsoOfTime(s.createdAt.epochMillis)
      && r.value.reception == ReceptionView(ToIsoString(s.reception.date).value,
                                            ReceptionModeName(s.reception.mode), s.reception.location)
      && r.value.celebrant == s.celebrant && r.value.profession == s.profession
      && r.value.placeOfBirth == s.placeOfBirth && r.value.baptizedInInfancy == s.baptizedInInfancy
      && r.value.religiousBackground == s.religiousBackground
  {
    var birthDate := ToIsoString(s.birthDate);
    var createdAt := ToIsoString(ValidDate(s.createdAt));
    var receptionDate := ToIsoString(s.reception.date);
    if birthDate.Failure? then Failure(birthDate.error)
    else if createdAt.Failure? then Failure(createdAt.error)
    else if receptionDate.Failure? then Failure(receptionDate.error)
    else
      Success(MemberView(s.memberId, s.fullName, s.email, s.phone, s.cpf,
                         ClassificationName(s.classification), StatusName(s.status), SexName(s.sex),
                         MaritalStatusName(s.maritalStatus), s.address, birthDate.value, createdAt.value,
                         ReceptionView(receptionDate.value, ReceptionModeName(s.reception.mode), s.reception.location),
                         s.celebrant, s.profession, s.placeOfBirth, s.baptizedInInfancy, s.religiousBackground))
  }

  /** Two snapshots that differ only in `literacy` have the same view. */
  lemma MemberViewIgnoresLiteracy(s: MemberSnapshot, literacy: bool)
    ensures MemberToView(s.(literacy := literacy)) == MemberToView(s)
  {
  }
}
