/** The database rows behind the repositories, the store holding them, and
    the repositories' mappings between rows and aggregate snapshots. */
module Storage {
  import opened Wrappers
  import opened Js
  import opened Errors
  import opened HeroEntity
  import opened MemberEntity

  datatype HeroRecord = HeroRecord(heroId: string, name: string, power: int, alive: bool, createdAt: Instant)

  /** The database spelling of a classification. */
  datatype PrismaClassification = PrismaCommunicant | PrismaNonCommunicant

  /** A member row. `None` is a null column. */
  datatype MemberRecord = MemberRecord(
    memberId: string,
    fullName: string,
    email: Option<string>,
    phone: Option<string>,
    cpf: Option<string>,
    profile: Option<string>,
    classification: PrismaClassification,
    status: Status,
    sex: Sex,
    maritalStatus: MaritalStatus,
    birthDate: JsDate,
    placeOfBirth: string,
    literacy: bool,
    profession: Option<string>,
    religiousBackground: string,
    baptizedInInfancy: bool,
    receptionDate: JsDate,
    receptionMode: ReceptionMode,
    receptionLocation: string,
    celebrant: string,
    addressStreet: string,
    addressNumber: Option<string>,
    addressDistrict: Option<string>,
    addressCity: string,
    addressState: Option<string>,
    addressZip: Option<string>,
    addressComplement: Option<string>,
    createdAt: Instant)

  /** The hero and member tables, keyed by id. */
  datatype Store = Store(heroes: map<string, HeroRecord>, members: map<string, MemberRecord>)

  const EmptyStore := Store(map[], map[])

  /** Every row is stored under its own primary key. */
  predicate Keyed(store: Store)
  {
    && (forall id :: id in store.heroes ==> store.heroes[id].heroId == id)
    && (forall id :: id in store.members ==> store.members[id].memberId == id)
  }

  /** The hero `upsert` of `save`: a new row from the whole snapshot, or an
      update of name, power and alive that keeps the row's createdAt. */
  function UpsertHero(store: Store, s: HeroSnapshot): (r: Store)
    ensures r.members == store.members
    ensures r.heroes.Keys == store.heroes.Keys + {s.heroId}
    ensures forall id :: id in store.heroes && id != s.heroId ==> r.heroes[id] == store.heroes[id]
  {
    var row := if s.heroId in store.heroes
               then store.heroes[s.heroId].(name := s.name, power := s.power, alive := s.alive)
               else HeroRecord(s.heroId, s.name, s.power, s.alive, s.createdAt);
    store.(heroes := store.heroes[s.heroId := row])
  }

  /** The snapshot `findById` rehydrates a hero from. */
  function HeroFromRecord(rec: HeroRecord): (r: HeroSnapshot)
    ensures r.heroId == rec.heroId
    ensures HeroRecord(r.heroId, r.name, r.power, r.alive, r.createdAt) == rec
  {
    HeroSnapshot(rec.heroId, rec.name, rec.power, rec.alive, rec.createdAt)
  }

  /** Reading a hero back after `save` gives the saved snapshot, except
      that an existing row keeps its own createdAt. */
  lemma SavedHeroReadsBack(store: Store, s: HeroSnapshot)
    requires Keyed(store)
    ensures Keyed(UpsertHero(store, s))
    ensures var r := UpsertHero(store, s);
      s.heroId in r.heroes
      && HeroFromRecord(r.heroes[s.heroId])
         == if s.heroId in store.heroes then s.(createdAt := store.heroes[s.heroId].createdAt) else s
  {
  }

  function ToPrismaClassification(c: Classification): (r: PrismaClassification)
    ensures r == PrismaCommunicant <==> c == Communicant
    ensures ToDomainClassification(r) == c
  {
    if c == Communicant then PrismaCommunicant else PrismaNonCommunicant
  }

  function ToDomainClassification(c: PrismaClassification): (r: Classification)
    ensures r == Communicant <==> c == PrismaCommunicant
  {
    if c == PrismaCommunicant then Communicant else NonCommunicant
  }

  lemma ClassificationRoundTrip(c: Classification, p: PrismaClassification)
    ensures ToDomainClassification(ToPrismaClassification(c)) == c
    ensures ToPrismaClassification(ToDomainClassification(p)) == p
  {
  }

  /** `mapToCreate`: a new row, with a null profile. */
  function MemberToCreate(s: MemberSnapshot): (r: MemberRecord)
    ensures r.memberId == s.memberId && r.profile.None? && r.createdAt == s.createdAt
    ensures r.classification == ToPrismaClassification(s.classification)
    ensures MemberFromRecord(r) == s
  {
    MemberRecord(s.memberId, s.fullName, s.email, s.phone, s.cpf, None,
                 ToPrismaClassification(s.classification), s.status, s.sex, s.maritalStatus, s.birthDate,
                 s.placeOfBirth, s.literacy, s.profession, s.religiousBackground, s.baptizedInInfancy,
                 s.reception.date, s.reception.mode, s.reception.location, s.celebrant,
                 s.address.street, s.address.number, s.address.district, s.address.city,
                 s.address.state, s.address.zip, s.address.complement, s.createdAt)
  }

  /** `mapToUpdate` applied to an existing row: id, profile and createdAt are
      not written, and an undefined profession leaves the column as it is. */
  function MemberToUpdate(existing: MemberRecord, s: MemberSnapshot): (r: MemberRecord)
    ensures r.memberId == existing.memberId && r.profile == existing.profile && r.createdAt == existing.createdAt
    ensures r.classification == ToPrismaClassification(s.classification) && r.status == s.status
    ensures r.profession == if s.profession.Some? then s.profession else existing.profession
    ensures MemberFromRecord(r) == s.(memberId := existing.memberId, createdAt := existing.createdAt,
                                      profession := r.profession)
  {
    var row := MemberToCreate(s);
    row.(memberId := existing.memberId, profile := existing.profile, createdAt := existing.createdAt,
         profession := if s.profession.Some? then s.profession else existing.profession)
  }

  /** `mapToDomain`: the snapshot `findById` rehydrates a member from. */
  function MemberFromRecord(rec: MemberRecord): (r: MemberSnapshot)
    ensures r.memberId == rec.memberId && r.createdAt == rec.createdAt && r.profession == rec.profession
    ensures r.classification == ToDomainClassification(rec.classification) && r.status == rec.status
    ensures r.email == rec.email && r.phone == rec.phone && r.cpf == rec.cpf
    ensures r.address.street == rec.addressStreet && r.address.city == rec.addressCity
    ensures r.reception == MemberReception(rec.receptionDate, rec.receptionMode, rec.receptionLocation)
  {
    MemberSnapshot(rec.sex, rec.cpf, rec.email, rec.phone, rec.status,
                   MemberAddress(rec.addressZip, rec.addressCity, rec.addressStreet, rec.addressState,
                                 rec.addressNumber, rec.addressDistrict, rec.addressComplement),
                   rec.memberId, rec.fullName, rec.literacy, rec.createdAt, rec.birthDate, rec.celebrant,
                   MemberReception(rec.receptionDate, rec.receptionMode, rec.receptionLocation),
                   rec.profession, rec.placeOfBirth, rec.maritalStatus, ToDomainClassification(rec.classification),
                   rec.baptizedInInfancy, rec.religiousBackground)
  }

  function UpsertMember(store: Store, s: MemberSnapshot): (r: Store)
    ensures r.heroes == store.heroes
    ensures r.members.Keys == store.members.Keys + {s.memberId}
    ensures forall id :: id in store.members && id != s.memberId ==> r.members[id] == store.members[id]
    ensures s.memberId in r.members && r.members[s.memberId].status == s.status
    ensures r.members[s.memberId].classification == ToPrismaClassification(s.classification)
  {
    var row := if s.memberId in store.members then MemberToUpdate(store.members[s.memberId], s)
               else MemberToCreate(s);
    store.(members := store.members[s.memberId := row])
  }

  /** A new member row reads back as the snapshot it was made from. */
  lemma CreatedMemberReadsBack(s: MemberSnapshot)
    ensures MemberFromRecord(MemberToCreate(s)) == s
  {
  }

  /** Reading a member back after `save` gives the saved snapshot, except
      that an existing row keeps its createdAt and a profession the snapshot
      leaves undefined. */
  lemma SavedMemberReadsBack(store: Store, s: MemberSnapshot)
    requires Keyed(store)
    ensures Keyed(UpsertMember(store, s))
    ensures var r := UpsertMember(store, s);
      s.memberId in r.members
      && MemberFromRecord(r.members[s.memberId])
         == if s.memberId in store.members then
              var prev := store.members[s.memberId];
              s.(createdAt := prev.createdAt,
                 profession := if s.profession.Some? then s.profession else prev.profession)
            else s
  {
  }

  /** Saving a stored member with only its classification changed rewrites
      the classification column of its row and nothing else. */
  lemma ReclassifiedRow(store: Store, memberId: string, k: Classification)
    requires Keyed(store) && memberId in store.members
    ensures var t := MemberFromRecord(store.members[memberId]).(classification := k);
      UpsertMember(store, t).members[memberId]
      == store.members[memberId].(classification := ToPrismaClassification(k))
  {
    var row := store.members[memberId];
    var t := MemberFromRecord(row).(classification := k);
    assert t.memberId == memberId;
    assert MemberToUpdate(row, t) == row.(classification := ToPrismaClassification(k));
  }

  /** The message of the error the database raises for deleting a missing row;
      its exact text is not part of this model. */
  const RECORD_TO_DELETE_NOT_FOUND := "Record to delete does not exist."

  function DeleteMember(store: Store, memberId: string): (r: Result<Store, Exception>)
    ensures r.Failure? <==> memberId !in store.members
    ensures r.Success? && Keyed(store) ==> Keyed(r.value)
    ensures r.Success? ==> r.value == store.(members := store.members - {memberId})
  {
    if memberId !in store.members then Failure(Exception(PlainError, RECORD_TO_DELETE_NOT_FOUND))
    else Success(store.(members := store.members - {memberId}))
  }
}
