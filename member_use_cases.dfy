/** The member commands: register, update, change the classification,
    archive, restore and delete permanently, each inside one unit of work. */
module MemberUseCases {
  import opened Wrappers
  import opened Js
  import opened Errors
  import opened DomainEvents
  import opened Dates
  import opened MemberEntity
  import opened Storage
  import opened Bus
  import opened UnitOfWork
  import opened Repositories
  import opened Mappers

  /** `CreateMemberInput`. It has no `profession` property, and the
      `professionOfFaithDate` it carries is not read by the use case. */
  datatype CreateMemberInput = CreateMemberInput(
    sex: Sex,
    cpf: Option<string>,
    email: Option<string>,
    phone: Option<string>,
    address: MemberAddress,
    fullName: string,
    literacy: bool,
    birthDate: JsDate,
    reception: MemberReception,
    celebrant: string,
    professionOfFaithDate: JsDate,
    placeOfBirth: string,
    maritalStatus: MaritalStatus,
    classification: string,
    baptizedInInfancy: bool,
    religiousBackground: string)

  /** `UpdateMemberInput`: `None` is an undefined property; for cpf, email
      and phone `Some(None)` is an explicit null. */
  datatype UpdateMemberInput = UpdateMemberInput(
    cpf: Option<Option<string>>,
    sex: Option<Sex>,
    email: Option<Option<string>>,
    phone: Option<Option<string>>,
    memberId: string,
    fullName: Option<string>,
    address: Option<MemberAddress>,
    literacy: Option<bool>,
    birthDate: Option<JsDate>,
    reception: Option<MemberReception>,
    celebrant: Option<string>,
    professionOfFaithDate: Option<JsDate>,
    placeOfBirth: Option<string>,
    maritalStatus: Option<MaritalStatus>,
    baptizedInInfancy: Option<bool>,
    religiousBackground: Option<string>)

  /** The props `RegisterMemberUseCase.execute` hands to `Member.create`:
      the input's fields under the generated id. `input.profession` does not
      exist, so the profession is always undefined. */
  function CreatePropsOf(input: CreateMemberInput, memberId: string): (p: MemberCreateProps)
    ensures p.memberId == memberId && p.profession.None?
    ensures p.fullName == input.fullName && p.classification == input.classification
    ensures p.birthDate == input.birthDate && p.reception == input.reception && p.address == input.address
    ensures p.sex == input.sex && p.maritalStatus == input.maritalStatus
    ensures p.cpf == input.cpf && p.email == input.email && p.phone == input.phone
    ensures p.literacy == input.literacy && p.baptizedInInfancy == input.baptizedInInfancy
    ensures p.celebrant == input.celebrant && p.placeOfBirth == input.placeOfBirth
    ensures p.religiousBackground == input.religiousBackground
  {
    MemberCreateProps(input.sex, input.cpf, input.email, input.phone, input.address, memberId, input.fullName,
                      input.literacy, input.birthDate, input.celebrant, input.reception, None,
                      input.placeOfBirth, input.maritalStatus, input.classification, input.baptizedInInfancy,
                      input.religiousBackground)
  }

  /** The props `UpdateMemberUseCase.execute` hands to `member.update`.
      The profession is never forwarded, and `professionOfFaithDate` is
      passed to a property `update` does not read. */
  function UpdatePropsOf(input: UpdateMemberInput): (p: MemberUpdateProps)
    ensures p.profession.None?
    ensures p.fullName == input.fullName && p.birthDate == input.birthDate && p.reception == input.reception
    ensures p.email == input.email && p.phone == input.phone && p.cpf == input.cpf
    ensures p.sex == input.sex && p.maritalStatus == input.maritalStatus && p.address == input.address
    ensures p.literacy == input.literacy && p.baptizedInInfancy == input.baptizedInInfancy
    ensures p.celebrant == input.celebrant && p.placeOfBirth == input.placeOfBirth
    ensures p.religiousBackground == input.religiousBackground
  {
    MemberUpdateProps(input.sex, input.cpf, input.email, input.phone, input.address, input.literacy,
                      input.fullName, input.celebrant, input.birthDate, input.reception, None,
                      input.placeOfBirth, input.maritalStatus, input.baptizedInInfancy, input.religiousBackground)
  }

  /** The view ending a member work, or the exception `toView` throws. */
  function FinishMember(tx: Store, s: MemberSnapshot, events: seq<DomainEvent>): (r: TxWork<MemberView>)
    ensures r.tx == tx
    ensures r.work.WorkThrew? <==> MemberToView(s).Failure?
    ensures r.work.WorkDone? ==> r.work.result == MemberToView(s).value && r.work.events == Some(events)
  {
    var view := MemberToView(s);
    if view.Failure? then TxWork(tx, WorkThrew(view.error)) else TxWork(tx, WorkDone(view.value, Some(events)))
  }

  /** The work of `RegisterMemberUseCase.execute` under the generated id. */
  function RegisterMemberWork(tx: Store, input: CreateMemberInput, memberId: string, now: Instant,
                              stamp: EventStamp): (r: TxWork<MemberView>)
    ensures r.tx.heroes == tx.heroes
    ensures forall id :: id in tx.members && id != memberId ==> id in r.tx.members && r.tx.members[id] == tx.members[id]
    ensures CreateError(CreatePropsOf(input, memberId)).Some? ==>
              r == TxWork(tx, WorkThrew(CreateError(CreatePropsOf(input, memberId)).value))
    ensures CreateError(CreatePropsOf(input, memberId)).None? ==> memberId in r.tx.members
    ensures r.work.WorkDone? ==> r.work.events == Some([MemberEvent(stamp, MEMBER_REGISTERED, memberId)])
  {
    var p := CreatePropsOf(input, memberId);
    if CreateError(p).Some? then TxWork(tx, WorkThrew(CreateError(p).value))
    else
      var s := CreatedSnapshot(p, AssertValidClassification(p.classification).value, now);
      FinishMember(UpsertMember(tx, s), s, [MemberEvent(stamp, MEMBER_REGISTERED, memberId)])
  }

  /** The work of `UpdateMemberUseCase.execute`. */
  function UpdateMemberWork(tx: Store, input: UpdateMemberInput, stamp: EventStamp): (r: TxWork<MemberView>)
    ensures r.tx.heroes == tx.heroes
    ensures Keyed(tx) ==> r.tx.members.Keys == tx.members.Keys
    ensures input.memberId !in tx.members ==> r == TxWork(tx, WorkThrew(NotFound("Member", input.memberId)))
  {
    if input.memberId !in tx.members then TxWork(tx, WorkThrew(NotFound("Member", input.memberId)))
    else
      var s := MemberFromRecord(tx.members[input.memberId]);
      assert Keyed(tx) ==> s.memberId == input.memberId;
      UpdateLoaded(tx, s, UpdatePropsOf(input), stamp)
  }

  /** The update once the member `s` is loaded: a failing check throws, so
      the partial assignments are discarded with the transaction. */
  function UpdateLoaded(tx: Store, s: MemberSnapshot, p: MemberUpdateProps, stamp: EventStamp): (r: TxWork<MemberView>)
    ensures r.tx.heroes == tx.heroes
    ensures forall id :: id in tx.members && id != s.memberId ==> id in r.tx.members && r.tx.members[id] == tx.members[id]
    ensures ApplyUpdate(s, p).error.Some? ==> r == TxWork(tx, WorkThrew(ApplyUpdate(s, p).error.value))
    ensures ApplyUpdate(s, p).error.None? ==> r.tx.members.Keys == tx.members.Keys + {s.memberId}
    ensures r.work.WorkDone? && !ApplyUpdate(s, p).changed ==> r.work.events == Some([])
  {
    var o := ApplyUpdate(s, p);
    UpdateKeepsIdentity(s, p);
    if o.error.Some? then TxWork(tx, WorkThrew(o.error.value))
    else
      FinishMember(UpsertMember(tx, o.state), o.state,
                   if o.changed then [MemberEvent(stamp, MEMBER_UPDATED, s.memberId)] else [])
  }

  /** The work of `ChangeMemberClassificationUseCase.execute`. */
  function ChangeClassificationWork(tx: Store, memberId: string, c: string, stamp: EventStamp): (r: TxWork<MemberView>)
    ensures r.tx.heroes == tx.heroes
    ensures Keyed(tx) ==> r.tx.members.Keys == tx.members.Keys
    ensures memberId !in tx.members ==> r == TxWork(tx, WorkThrew(NotFound("Member", memberId)))
  {
    if memberId !in tx.members then TxWork(tx, WorkThrew(NotFound("Member", memberId)))
    else
      var s := MemberFromRecord(tx.members[memberId]);
      assert Keyed(tx) ==> s.memberId == memberId;
      ClassificationLoaded(tx, s, c, stamp)
  }

  /** The classification change once the member `s` is loaded; `save` runs
      even when the classification is already `c`. */
  function ClassificationLoaded(tx: Store, s: MemberSnapshot, c: string, stamp: EventStamp): (r: TxWork<MemberView>)
    ensures r.tx.heroes == tx.heroes
    ensures forall id :: id in tx.members && id != s.memberId ==> id in r.tx.members && r.tx.members[id] == tx.members[id]
    ensures c != "communicant" && c != "non-communicant" ==> r == TxWork(tx, WorkThrew(InvalidOp(INVALID_CLASSIFICATION)))
    ensures c == "communicant" || c == "non-communicant" ==>
              s.memberId in r.tx.members && ClassificationName(ToDomainClassification(r.tx.members[s.memberId].classification)) == c
  {
    var v := AssertValidClassification(c);
    if v.Failure? then TxWork(tx, WorkThrew(v.error))
    else
      var t := s.(classification := v.value);
      FinishMember(UpsertMember(tx, t), t,
                   if v.value == s.classification then [] else [MemberClassificationChanged(stamp, s.memberId, c)])
  }

  /** The work of `ArchiveMemberUseCase.execute` (`archive` is true) and
      of `RestoreMemberUseCase.execute` (`archive` is false). */
  function StatusWork(tx: Store, memberId: string, archive: bool, stamp: EventStamp): (r: TxWork<()>)
    ensures r.tx.heroes == tx.heroes
    ensures Keyed(tx) ==> r.tx.members.Keys == tx.members.Keys
    ensures memberId !in tx.members ==> r == TxWork(tx, WorkThrew(NotFound("Member", memberId)))
  {
    if memberId !in tx.members then TxWork(tx, WorkThrew(NotFound("Member", memberId)))
    else
      var s := MemberFromRecord(tx.members[memberId]);
      assert Keyed(tx) ==> s.memberId == memberId;
      StatusLoaded(tx, s, archive, stamp)
  }

  function StatusLoaded(tx: Store, s: MemberSnapshot, archive: bool, stamp: EventStamp): (r: TxWork<()>)
    ensures r.tx.heroes == tx.heroes
    ensures forall id :: id in tx.members && id != s.memberId ==> id in r.tx.members && r.tx.members[id] == tx.members[id]
    ensures s.memberId in r.tx.members && r.tx.members[s.memberId].status == if archive then Archived else Active
    ensures r.work.WorkDone? && (r.work.events == Some([]) <==> s.status == if archive then Archived else Active)
  {
    var target := if archive then Archived else Active;
    var t := s.(status := target);
    TxWork(UpsertMember(tx, t),
           WorkDone((), Some(if s.status == target then []
                             else [MemberEvent(stamp, if archive then MEMBER_ARCHIVED else MEMBER_RESTORED, s.memberId)])))
  }

  /** The work of `DeleteMemberPermanentlyUseCase.execute` once the
      confirmation has matched. */
  function DeleteWork(tx: Store, memberId: string, stamp: EventStamp): (r: TxWork<()>)
    ensures r.tx.heroes == tx.heroes
    ensures memberId !in tx.members ==> r == TxWork(tx, WorkThrew(NotFound("Member", memberId)))
    ensures memberId in tx.members ==> r.tx.members == tx.members - {memberId} && r.work.WorkDone?
  {
    if memberId !in tx.members then TxWork(tx, WorkThrew(NotFound("Member", memberId)))
    else
      var s := MemberFromRecord(tx.members[memberId]);
      TxWork(DeleteMember(tx, memberId).value, WorkDone((), Some([MemberEvent(stamp, MEMBER_DELETED, s.memberId)])))
  }

  /** The phrase that confirms a permanent deletion. */
  function DeleteConfirmation(memberId: string): string
  {
    "DELETE " + memberId
  }

  /** `DeleteMemberPermanentlyUseCase.execute`: a wrong confirmation throws
      before any transaction begins. */
  function DeletePermanently(committed: Store, memberId: string, confirm: string, stamp: EventStamp,
                             b: BusState, fails: (HandlerId, DomainEvent) -> bool): (r: Settlement<()>)
    requires Valid(b)
    ensures confirm != DeleteConfirmation(memberId) ==>
              r == Settlement(committed, Threw(InvalidOp(INVALID_DELETE_CONFIRMATION)), [])
    ensures confirm == DeleteConfirmation(memberId) && memberId !in committed.members ==>
              r == Settlement(committed, Threw(NotFound("Member", memberId)), [])
    ensures confirm == DeleteConfirmation(memberId) && memberId in committed.members ==>
              r.store == committed.(members := committed.members - {memberId}) && !r.outcome.Threw?
  {
    if confirm != DeleteConfirmation(memberId) then Settlement(committed, Threw(InvalidOp(INVALID_DELETE_CONFIRMATION)), [])
    else RunInTransaction(committed, DeleteWork(committed, memberId, stamp), b, fails)
  }

  // Properties of the member commands.

  /** A rejected registration throws the entity's error and changes nothing. */
  lemma RegisterRejectedChangesNothing(store: Store, input: CreateMemberInput, memberId: string, now: Instant,
                                       stamp: EventStamp, b: BusState, fails: (HandlerId, DomainEvent) -> bool)
    requires Valid(b) && CreateError(CreatePropsOf(input, memberId)).Some?
    ensures RunInTransaction(store, RegisterMemberWork(store, input, memberId, now, stamp), b, fails)
            == Settlement(store, Threw(CreateError(CreatePropsOf(input, memberId)).value), [])
  {
  }

  /** An accepted registration under a fresh id whose view renders stores a
      row that reads back as the created member, with an undefined
      profession, and keeps every other row. */
  lemma RegisterStoresMember(store: Store, input: CreateMemberInput, memberId: string, now: Instant,
                             stamp: EventStamp, b: BusState, fails: (HandlerId, DomainEvent) -> bool)
    requires Valid(b) && Keyed(store) && memberId !in store.members
    requires CreateError(CreatePropsOf(input, memberId)).None?
    ensures var r := RunInTransaction(store, RegisterMemberWork(store, input, memberId, now, stamp), b, fails);
      var p := CreatePropsOf(input, memberId);
      var s := CreatedSnapshot(p, AssertValidClassification(p.classification).value, now);
      MemberDatesRender(s) ==>
        && memberId in r.store.members && Keyed(r.store)
        && MemberFromRecord(r.store.members[memberId]) == s
        && r.store.members[memberId].profession.None?
        && r.store.heroes == store.heroes
        && (forall id :: id in store.members ==> id in r.store.members && r.store.members[id] == store.members[id])
  {
    var p := CreatePropsOf(input, memberId);
    var s := CreatedSnapshot(p, AssertValidClassification(p.classification).value, now);
    var events := [MemberEvent(stamp, MEMBER_REGISTERED, memberId)];
    assert RegisterMemberWork(store, input, memberId, now, stamp) == FinishMember(UpsertMember(store, s), s, events);
    FinishMemberSettles(store, UpsertMember(store, s), s, events, b, fails);
    SavedMemberReadsBack(store, s);
  }

  /** An accepted registration publishes at most `MemberRegistered` and
      returns the view of the created member; when that view does not
      render, it throws `Invalid time value` and stores nothing. */
  lemma RegisterPublishesOrRollsBack(store: Store, input: CreateMemberInput, memberId: string, now: Instant,
                                     stamp: EventStamp, b: BusState, fails: (HandlerId, DomainEvent) -> bool)
    requires Valid(b) && CreateError(CreatePropsOf(input, memberId)).None?
    ensures var r := RunInTransaction(store, RegisterMemberWork(store, input, memberId, now, stamp), b, fails);
      var p := CreatePropsOf(input, memberId);
      var s := CreatedSnapshot(p, AssertValidClassification(p.classification).value, now);
      && (MemberDatesRender(s) ==>
            && r.trace <= Deliveries(b, [MemberEvent(stamp, MEMBER_REGISTERED, memberId)])
            && (r.outcome.Returned? ==> r.outcome.value == MemberToView(s).value))
      && (!MemberDatesRender(s) ==> r == Settlement(store, Threw(InvalidTimeValue()), []))
  {
    var p := CreatePropsOf(input, memberId);
    var s := CreatedSnapshot(p, AssertValidClassification(p.classification).value, now);
    var events := [MemberEvent(stamp, MEMBER_REGISTERED, memberId)];
    assert RegisterMemberWork(store, input, memberId, now, stamp) == FinishMember(UpsertMember(store, s), s, events);
    FinishMemberSettles(store, UpsertMember(store, s), s, events, b, fails);
  }

  /** A communicant registration needs every admission field: with any of
      them missing it throws and stores nothing. */
  lemma RegisterCommunicantNeedsAdmissionFields(store: Store, input: CreateMemberInput, memberId: string,
                                                now: Instant, stamp: EventStamp, b: BusState,
                                                fails: (HandlerId, DomainEvent) -> bool)
    requires Valid(b) && IsValidFullName(input.fullName) && input.classification == "communicant"
    requires input.birthDate.ValidDate? && !CommunicantFieldsComplete(CreatePropsOf(input, memberId))
    ensures var r := RunInTransaction(store, RegisterMemberWork(store, input, memberId, now, stamp), b, fails);
      r.store == store && r.outcome.Threw? && r.trace == []
  {
    CreateAccepts(CreatePropsOf(input, memberId));
  }

  /** A command on an unknown member throws `EntityNotFoundException` and
      changes nothing. */
  lemma UnknownMemberChangesNothing(store: Store, memberId: string, input: UpdateMemberInput, c: string,
                                    archive: bool, stamp: EventStamp,
                                    b: BusState, fails: (HandlerId, DomainEvent) -> bool)
    requires Valid(b) && memberId !in store.members && input.memberId == memberId
    ensures RunInTransaction(store, UpdateMemberWork(store, input, stamp), b, fails)
            == Settlement(store, Threw(NotFound("Member", memberId)), [])
    ensures RunInTransaction(store, ChangeClassificationWork(store, memberId, c, stamp), b, fails)
            == Settlement(store, Threw(NotFound("Member", memberId)), [])
    ensures RunInTransaction(store, StatusWork(store, memberId, archive, stamp), b, fails)
            == Settlement(store, Threw(NotFound("Member", memberId)), [])
    ensures DeletePermanently(store, memberId, DeleteConfirmation(memberId), stamp, b, fails)
            == Settlement(store, Threw(NotFound("Member", memberId)), [])
  {
  }

  /** `ApplyUpdate` leaves the profession alone when the props leave it undefined. */
  lemma ApplyUpdateKeepsProfession(s: MemberSnapshot, p: MemberUpdateProps)
    requires p.profession.None?
    ensures ApplyUpdate(s, p).state.profession == s.profession
  {
  }

  /** An update never touches the stored profession: whatever the input,
      the row keeps the profession it had. */
  lemma UpdateKeepsStoredProfession(store: Store, input: UpdateMemberInput, stamp: EventStamp,
                                    b: BusState, fails: (HandlerId, DomainEvent) -> bool)
    requires Valid(b) && Keyed(store) && input.memberId in store.members
    ensures var r := RunInTransaction(store, UpdateMemberWork(store, input, stamp), b, fails);
      input.memberId in r.store.members
      && r.store.members[input.memberId].profession == store.members[input.memberId].profession
  {
    var s := MemberFromRecord(store.members[input.memberId]);
    var o := ApplyUpdate(s, UpdatePropsOf(input));
    ApplyUpdateKeepsProfession(s, UpdatePropsOf(input));
    UpdateKeepsIdentity(s, UpdatePropsOf(input));
    SavedMemberReadsBack(store, o.state);
  }

  /** An update whose checks pass and whose view renders stores the updated
      state (keeping the row's createdAt and profession); a failing check
      throws and stores nothing. */
  lemma UpdateStoresChanges(store: Store, input: UpdateMemberInput, stamp: EventStamp,
                            b: BusState, fails: (HandlerId, DomainEvent) -> bool)
    requires Valid(b) && Keyed(store) && input.memberId in store.members
    ensures var s := MemberFromRecord(store.members[input.memberId]);
      var o := ApplyUpdate(s, UpdatePropsOf(input));
      var r := RunInTransaction(store, UpdateMemberWork(store, input, stamp), b, fails);
      && (o.error.Some? ==> r == Settlement(store, Threw(o.error.value), []))
      && (o.error.None? && MemberDatesRender(o.state) ==>
            Keyed(r.store) && MemberFromRecord(r.store.members[input.memberId]) == o.state)
  {
    var s := MemberFromRecord(store.members[input.memberId]);
    var o := ApplyUpdate(s, UpdatePropsOf(input));
    if o.error.None? {
      var events := if o.changed then [MemberEvent(stamp, MEMBER_UPDATED, input.memberId)] else [];
      UpdateKeepsIdentity(s, UpdatePropsOf(input));
      assert UpdateMemberWork(store, input, stamp) == UpdateLoaded(store, s, UpdatePropsOf(input), stamp);
      assert UpdateLoaded(store, s, UpdatePropsOf(input), stamp) == FinishMember(UpsertMember(store, o.state), o.state, events);
      FinishMemberSettles(store, UpsertMember(store, o.state), o.state, events, b, fails);
      ApplyUpdateKeepsProfession(s, UpdatePropsOf(input));
      SavedMemberReadsBack(store, o.state);
    }
  }

  /** An update whose checks pass publishes `MemberUpdated` at most, and
      only when a value changed; with nothing changed it returns the view
      and calls no handler. */
  lemma UpdatePublishesChanges(store: Store, input: UpdateMemberInput, stamp: EventStamp,
                               b: BusState, fails: (HandlerId, DomainEvent) -> bool)
    requires Valid(b) && Keyed(store) && input.memberId in store.members
    ensures var s := MemberFromRecord(store.members[input.memberId]);
      var o := ApplyUpdate(s, UpdatePropsOf(input));
      var r := RunInTransaction(store, UpdateMemberWork(store, input, stamp), b, fails);
      o.error.None? && MemberDatesRender(o.state) ==>
        && r.trace <= Deliveries(b, if o.changed then [MemberEvent(stamp, MEMBER_UPDATED, input.memberId)] else [])
        && (!o.changed ==> r.trace == [] && r.outcome.Returned?)
  {
    var s := MemberFromRecord(store.members[input.memberId]);
    var o := ApplyUpdate(s, UpdatePropsOf(input));
    if o.error.None? {
      var events := if o.changed then [MemberEvent(stamp, MEMBER_UPDATED, input.memberId)] else [];
      assert UpdateMemberWork(store, input, stamp) == FinishMember(UpsertMember(store, o.state), o.state, events);
      FinishMemberSettles(store, UpsertMember(store, o.state), o.state, events, b, fails);
    }
  }

  /** An invalid classification throws and stores nothing. */
  lemma ChangeClassificationRejects(store: Store, memberId: string, c: string, stamp: EventStamp,
                                    b: BusState, fails: (HandlerId, DomainEvent) -> bool)
    requires Valid(b) && memberId in store.members
    requires c != "communicant" && c != "non-communicant"
    ensures RunInTransaction(store, ChangeClassificationWork(store, memberId, c, stamp), b, fails)
            == Settlement(store, Threw(InvalidOp(INVALID_CLASSIFICATION)), [])
  {
  }

  /** A valid classification is stored and every other column of the row
      is kept. */
  lemma ChangeClassificationStores(store: Store, memberId: string, c: string, stamp: EventStamp,
                                   b: BusState, fails: (HandlerId, DomainEvent) -> bool)
    requires Valid(b) && Keyed(store) && memberId in store.members
    requires c == "communicant" || c == "non-communicant"
    requires MemberDatesRender(MemberFromRecord(store.members[memberId]))
    ensures var r := RunInTransaction(store, ChangeClassificationWork(store, memberId, c, stamp), b, fails);
      && Keyed(r.store) && memberId in r.store.members
      && ClassificationName(MemberFromRecord(r.store.members[memberId]).classification) == c
      && r.store.members[memberId] == store.members[memberId].(classification := r.store.members[memberId].classification)
  {
    var s := MemberFromRecord(store.members[memberId]);
    var t := s.(classification := AssertValidClassification(c).value);
    var events := if t.classification == s.classification then [] else [MemberClassificationChanged(stamp, memberId, c)];
    ClassificationWorkFinishes(store, memberId, c, stamp);
    FinishMemberSettles(store, UpsertMember(store, t), t, events, b, fails);
    SavedMemberReadsBack(store, t);
    ReclassifiedRow(store, memberId, t.classification);
    var r := RunInTransaction(store, ChangeClassificationWork(store, memberId, c, stamp), b, fails);
    assert r.store == UpsertMember(store, t);
  }

  /** A valid classification change publishes at most
      `MemberClassificationChanged`, and nothing when the classification
      is already `c`. */
  lemma ChangeClassificationPublishes(store: Store, memberId: string, c: string, stamp: EventStamp,
                                      b: BusState, fails: (HandlerId, DomainEvent) -> bool)
    requires Valid(b) && memberId in store.members
    requires c == "communicant" || c == "non-communicant"
    requires MemberDatesRender(MemberFromRecord(store.members[memberId]))
    requires Keyed(store)
    ensures var s := MemberFromRecord(store.members[memberId]);
      var r := RunInTransaction(store, ChangeClassificationWork(store, memberId, c, stamp), b, fails);
      r.trace <= Deliveries(b, if ClassificationName(s.classification) == c then []
                               else [MemberClassificationChanged(stamp, memberId, c)])
  {
    var s := MemberFromRecord(store.members[memberId]);
    var t := s.(classification := AssertValidClassification(c).value);
    var events := if t.classification == s.classification then [] else [MemberClassificationChanged(stamp, memberId, c)];
    ClassificationWorkFinishes(store, memberId, c, stamp);
    assert MemberDatesRender(t);
    assert (t.classification == s.classification) == (ClassificationName(s.classification) == c);
    FinishMemberSettles(store, UpsertMember(store, t), t, events, b, fails);
  }

  /** A valid classification change on a loaded member saves the member with
      the new classification and collects the change event only when the
      classification differs. */
  lemma ClassificationWorkFinishes(store: Store, memberId: string, c: string, stamp: EventStamp)
    requires Keyed(store) && memberId in store.members
    requires c == "communicant" || c == "non-communicant"
    ensures var s := MemberFromRecord(store.members[memberId]);
      var v := AssertValidClassification(c).value;
      var t := s.(classification := v);
      var events := if v == s.classification then [] else [MemberClassificationChanged(stamp, memberId, c)];
      ChangeClassificationWork(store, memberId, c, stamp) == FinishMember(UpsertMember(store, t), t, events)
  {
  }

  /** How a work ending with a member view settles: a view that does not
      render throws `Invalid time value` and rolls back; otherwise the
      transaction store is committed and at most the collected events are
      delivered. */
  lemma FinishMemberSettles(committed: Store, tx: Store, s: MemberSnapshot, events: seq<DomainEvent>,
                            b: BusState, fails: (HandlerId, DomainEvent) -> bool)
    requires Valid(b)
    ensures var r := RunInTransaction(committed, FinishMember(tx, s, events), b, fails);
      && (MemberDatesRender(s) ==>
            && CollectedEvents(FinishMember(tx, s, events).work) == events
            && r.store == tx && r.trace <= Deliveries(b, events)
            && (r.outcome.Returned? ==> r.outcome.value == MemberToView(s).value)
            && (events == [] ==> r == Settlement(tx, Returned(MemberToView(s).value), [])))
      && (!MemberDatesRender(s) ==> r == Settlement(committed, Threw(InvalidTimeValue()), []))
  {
  }

  /** Archiving or restoring sets the status and nothing else, and publishes
      an event only when the status changes. */
  lemma StatusStores(store: Store, memberId: string, archive: bool, stamp: EventStamp,
                     b: BusState, fails: (HandlerId, DomainEvent) -> bool)
    requires Valid(b) && Keyed(store) && memberId in store.members
    ensures var target := if archive then Archived else Active;
      var r := RunInTransaction(store, StatusWork(store, memberId, archive, stamp), b, fails);
      && Keyed(r.store) && memberId in r.store.members
      && r.store.members[memberId] == store.members[memberId].(status := target)
      && r.store.heroes == store.heroes
      && (forall id :: id in store.members && id != memberId ==> id in r.store.members && r.store.members[id] == store.members[id])
      && (store.members[memberId].status == target ==> r.trace == [] && r.outcome == Returned(()))
      && !r.outcome.Threw?
  {
    var s := MemberFromRecord(store.members[memberId]);
    var target := if archive then Archived else Active;
    SavedMemberReadsBack(store, s.(status := target));
  }

  /** Archiving twice stores what archiving once stores. */
  lemma ArchiveIsIdempotent(store: Store, memberId: string, stamp: EventStamp, stamp2: EventStamp)
    requires Keyed(store) && memberId in store.members
    ensures var once := StatusWork(store, memberId, true, stamp).tx;
      StatusWork(once, memberId, true, stamp2).tx == once
      && StatusWork(once, memberId, true, stamp2).work == WorkDone((), Some([]))
  {
    var s := MemberFromRecord(store.members[memberId]);
    var once := StatusWork(store, memberId, true, stamp).tx;
    SavedMemberReadsBack(store, s.(status := Archived));
    var s2 := MemberFromRecord(once.members[memberId]);
    assert s2.status == Archived;
    assert s2.(status := Archived) == s2;
    assert once.members[memberId := once.members[memberId]] == once.members;
  }

  /** Archiving and then restoring an active member gives back its row. */
  lemma ArchiveThenRestore(store: Store, memberId: string, stamp: EventStamp, stamp2: EventStamp)
    requires Keyed(store) && memberId in store.members && store.members[memberId].status == Active
    ensures StatusWork(StatusWork(store, memberId, true, stamp).tx, memberId, false, stamp2).tx == store
  {
    var s := MemberFromRecord(store.members[memberId]);
    var once := StatusWork(store, memberId, true, stamp).tx;
    SavedMemberReadsBack(store, s.(status := Archived));
    var s2 := MemberFromRecord(once.members[memberId]);
    var twice := StatusWork(once, memberId, false, stamp2).tx;
    assert twice.members[memberId] == store.members[memberId];
    assert twice.members == store.members;
  }

  /** A wrong confirmation phrase throws before any transaction. */
  lemma DeleteNeedsConfirmation(store: Store, memberId: string, confirm: string, stamp: EventStamp,
                                b: BusState, fails: (HandlerId, DomainEvent) -> bool)
    requires Valid(b) && confirm != DeleteConfirmation(memberId)
    ensures DeletePermanently(store, memberId, confirm, stamp, b, fails)
            == Settlement(store, Threw(InvalidOp(INVALID_DELETE_CONFIRMATION)), [])
  {
  }

  /** With the confirmation, an existing member's row is removed, every
      other row is kept, and at most `MemberDeleted` is published. */
  lemma DeleteRemovesMember(store: Store, memberId: string, stamp: EventStamp,
                            b: BusState, fails: (HandlerId, DomainEvent) -> bool)
    requires Valid(b) && Keyed(store) && memberId in store.members
    ensures var r := DeletePermanently(store, memberId, DeleteConfirmation(memberId), stamp, b, fails);
      && r.store == store.(members := store.members - {memberId}) && Keyed(r.store)
      && r.trace <= Deliveries(b, [MemberEvent(stamp, MEMBER_DELETED, memberId)])
      && !r.outcome.Threw?
  {
  }

  /** The tail the member commands returning a view share: save, pull the
      events, map to a view. */
  method SaveAndView(repository: PrismaMemberRepository, member: Member) returns (w: Work<MemberView>)
    requires repository.uow.ambient.Some?
    modifies repository.uow, member`events
    ensures repository.uow.ambient.Some? && repository.uow.committed == old(repository.uow.committed)
    ensures TxWork(repository.uow.Client(), w)
            == FinishMember(UpsertMember(old(repository.uow.Client()), member.ToSnapshot()), member.ToSnapshot(),
                            old(member.events))
    ensures member.ToSnapshot() == old(member.ToSnapshot())
  {
    repository.Save(member);
    var events := member.PullEvents();
    w := FinishMember(repository.uow.Client(), member.ToSnapshot(), events).work;
  }

  class RegisterMemberUseCase {
    const uow: PrismaUnitOfWork
    const repository: PrismaMemberRepository

    constructor(uow: PrismaUnitOfWork)
      ensures this.uow == uow && repository.uow == uow
    {
      this.uow := uow;
      repository := new PrismaMemberRepository(uow);
    }

    /** `execute`; `memberId` is the generated id, `now` and `stamp` the
        clock and the event id. */
    method Execute(input: CreateMemberInput, memberId: string, now: Instant, stamp: EventStamp,
                   fails: (HandlerId, DomainEvent) -> bool)
      returns (outcome: TxOutcome<MemberView>, trace: seq<Delivery>)
      requires uow.ambient.None? && Valid(uow.bus.State()) && repository.uow == uow
      modifies uow
      ensures uow.ambient == None
      ensures Settlement(uow.committed, outcome, trace)
              == RunInTransaction(old(uow.committed), RegisterMemberWork(old(uow.committed), input, memberId, now, stamp),
                                  uow.bus.State(), fails)
    {
      uow.Begin();
      var w := Work(input, memberId, now, stamp);
      outcome, trace := uow.Complete(w, fails);
    }

    method Work(input: CreateMemberInput, memberId: string, now: Instant, stamp: EventStamp)
      returns (w: Work<MemberView>)
      requires uow.ambient.Some? && repository.uow == uow
      modifies uow
      ensures uow.ambient.Some? && uow.committed == old(uow.committed)
      ensures TxWork(uow.Client(), w) == RegisterMemberWork(old(uow.Client()), input, memberId, now, stamp)
    {
      var created := Member.Create(CreatePropsOf(input, memberId), now, stamp);
      if created.Failure? {
        return WorkThrew(created.error);
      }
      w := SaveAndView(repository, created.value);
    }
  }

  class UpdateMemberUseCase {
    const uow: PrismaUnitOfWork
    const repository: PrismaMemberRepository

    constructor(uow: PrismaUnitOfWork)
      ensures this.uow == uow && repository.uow == uow
    {
      this.uow := uow;
      repository := new PrismaMemberRepository(uow);
    }

    method Execute(input: UpdateMemberInput, stamp: EventStamp, fails: (HandlerId, DomainEvent) -> bool)
      returns (outcome: TxOutcome<MemberView>, trace: seq<Delivery>)
      requires uow.ambient.None? && Valid(uow.bus.State()) && repository.uow == uow
      modifies uow
      ensures uow.ambient == None
      ensures Settlement(uow.committed, outcome, trace)
              == RunInTransaction(old(uow.committed), UpdateMemberWork(old(uow.committed), input, stamp),
                                  uow.bus.State(), fails)
    {
      uow.Begin();
      var w := Work(input, stamp);
      outcome, trace := uow.Complete(w, fails);
    }

    method Work(input: UpdateMemberInput, stamp: EventStamp) returns (w: Work<MemberView>)
      requires uow.ambient.Some? && repository.uow == uow
      modifies uow
      ensures uow.ambient.Some? && uow.committed == old(uow.committed)
      ensures TxWork(uow.Client(), w) == UpdateMemberWork(old(uow.Client()), input, stamp)
    {
      ghost var tx := uow.Client();
      var found := repository.FindById(input.memberId);
      if found.None? {
        return WorkThrew(NotFound("Member", input.memberId));
      }
      var member := found.value;
      ghost var loaded := member.ToSnapshot();
      var err := member.Update(UpdatePropsOf(input), stamp);
      if err.Some? {
        return WorkThrew(err.value);
      }
      ghost var o := ApplyUpdate(loaded, UpdatePropsOf(input));
      assert member.ToSnapshot() == o.state && o.error.None?;
      assert member.events == if o.changed then [MemberEvent(stamp, MEMBER_UPDATED, loaded.memberId)] else [];
      assert tx == uow.Client();
      assert UpdateLoaded(tx, loaded, UpdatePropsOf(input), stamp)
             == FinishMember(UpsertMember(tx, member.ToSnapshot()), member.ToSnapshot(), member.events);
      w := SaveAndView(repository, member);
    }
  }

  class ChangeMemberClassificationUseCase {
    const uow: PrismaUnitOfWork
    const repository: PrismaMemberRepository

    constructor(uow: PrismaUnitOfWork)
      ensures this.uow == uow && repository.uow == uow
    {
      this.uow := uow;
      repository := new PrismaMemberRepository(uow);
    }

    method Execute(memberId: string, classification: string, stamp: EventStamp,
                   fails: (HandlerId, DomainEvent) -> bool)
      returns (outcome: TxOutcome<MemberView>, trace: seq<Delivery>)
      requires uow.ambient.None? && Valid(uow.bus.State()) && repository.uow == uow
      modifies uow
      ensures uow.ambient == None
      ensures Settlement(uow.committed, outcome, trace)
              == RunInTransaction(old(uow.committed), ChangeClassificationWork(old(uow.committed), memberId, classification, stamp),
                                  uow.bus.State(), fails)
    {
      uow.Begin();
      var w := Work(memberId, classification, stamp);
      outcome, trace := uow.Complete(w, fails);
    }

    method Work(memberId: string, classification: string, stamp: EventStamp) returns (w: Work<MemberView>)
      requires uow.ambient.Some? && repository.uow == uow
      modifies uow
      ensures uow.ambient.Some? && uow.committed == old(uow.committed)
      ensures TxWork(uow.Client(), w) == ChangeClassificationWork(old(uow.Client()), memberId, classification, stamp)
    {
      ghost var tx := uow.Client();
      var found := repository.FindById(memberId);
      if found.None? {
        return WorkThrew(NotFound("Member", memberId));
      }
      var member := found.value;
      ghost var loaded := member.ToSnapshot();
      var err := member.ChangeClassification(classification, stamp);
      if err.Some? {
        return WorkThrew(err.value);
      }
      ghost var v := AssertValidClassification(classification).value;
      assert member.ToSnapshot() == loaded.(classification := v);
      assert member.events == if v == loaded.classification then []
                              else [MemberClassificationChanged(stamp, loaded.memberId, classification)];
      assert tx == uow.Client();
      assert ClassificationLoaded(tx, loaded, classification, stamp)
             == FinishMember(UpsertMember(tx, member.ToSnapshot()), member.ToSnapshot(), member.events);
      w := SaveAndView(repository, member);
    }
  }

  /** `ArchiveMemberUseCase` and `RestoreMemberUseCase`: the same work with
      `archive` or `restore` as the mutation. */
  class ChangeMemberStatusUseCase {
    const uow: PrismaUnitOfWork
    const repository: PrismaMemberRepository
    const archive: bool

    constructor(uow: PrismaUnitOfWork, archive: bool)
      ensures this.uow == uow && repository.uow == uow && this.archive == archive
    {
      this.uow := uow;
      this.archive := archive;
      repository := new PrismaMemberRepository(uow);
    }

    method Execute(memberId: string, stamp: EventStamp, fails: (HandlerId, DomainEvent) -> bool)
      returns (outcome: TxOutcome<()>, trace: seq<Delivery>)
      requires uow.ambient.None? && Valid(uow.bus.State()) && repository.uow == uow
      modifies uow
      ensures uow.ambient == None
      ensures Settlement(uow.committed, outcome, trace)
              == RunInTransaction(old(uow.committed), StatusWork(old(uow.committed), memberId, archive, stamp),
                                  uow.bus.State(), fails)
    {
      uow.Begin();
      var w := Work(memberId, stamp);
      outcome, trace := uow.Complete(w, fails);
    }

    method Work(memberId: string, stamp: EventStamp) returns (w: Work<()>)
      requires uow.ambient.Some? && repository.uow == uow
      modifies uow
      ensures uow.ambient.Some? && uow.committed == old(uow.committed)
      ensures TxWork(uow.Client(), w) == StatusWork(old(uow.Client()), memberId, archive, stamp)
    {
      ghost var tx := uow.Client();
      var found := repository.FindById(memberId);
      if found.None? {
        return WorkThrew(NotFound("Member", memberId));
      }
      var member := found.value;
      ghost var loaded := member.ToSnapshot();
      if archive {
        member.Archive(stamp);
      } else {
        member.Restore(stamp);
      }
      ghost var target := if archive then Archived else Active;
      assert member.ToSnapshot() == loaded.(status := target);
      assert member.events == if loaded.status == target then []
                              else [MemberEvent(stamp, if archive then MEMBER_ARCHIVED else MEMBER_RESTORED, loaded.memberId)];
      assert tx == uow.Client();
      assert StatusLoaded(tx, loaded, archive, stamp)
             == TxWork(UpsertMember(tx, member.ToSnapshot()), WorkDone((), Some(member.events)));
      repository.Save(member);
      var events := member.PullEvents();
      w := WorkDone((), Some(events));
    }
  }

  class DeleteMemberPermanentlyUseCase {
    const uow: PrismaUnitOfWork
    const repository: PrismaMemberRepository

    constructor(uow: PrismaUnitOfWork)
      ensures this.uow == uow && repository.uow == uow
    {
      this.uow := uow;
      repository := new PrismaMemberRepository(uow);
    }

    method Execute(memberId: string, confirm: string, stamp: EventStamp, fails: (HandlerId, DomainEvent) -> bool)
      returns (outcome: TxOutcome<()>, trace: seq<Delivery>)
      requires uow.ambient.None? && Valid(uow.bus.State()) && repository.uow == uow
      modifies uow
      ensures uow.ambient == None
      ensures Settlement(uow.committed, outcome, trace)
              == DeletePermanently(old(uow.committed), memberId, confirm, stamp, uow.bus.State(), fails)
    {
      if confirm != DeleteConfirmation(memberId) {
        return Threw(InvalidOp(INVALID_DELETE_CONFIRMATION)), [];
      }
      uow.Begin();
      var w := Work(memberId, stamp);
      outcome, trace := uow.Complete(w, fails);
    }

    method Work(memberId: string, stamp: EventStamp) returns (w: Work<()>)
      requires uow.ambient.Some? && repository.uow == uow
      modifies uow
      ensures uow.ambient.Some? && uow.committed == old(uow.committed)
      ensures TxWork(uow.Client(), w) == DeleteWork(old(uow.Client()), memberId, stamp)
    {
      var found := repository.FindById(memberId);
      if found.None? {
        return WorkThrew(NotFound("Member", memberId));
      }
      var member := found.value;
      ghost var tx := uow.Client();
      ghost var loaded := MemberFromRecord(tx.members[memberId]);
      member.Delete(stamp);
      assert member.events == [MemberEvent(stamp, MEMBER_DELETED, loaded.memberId)];
      // The row was found in this transaction, so `delete` does not throw.
      var err := repository.Delete(memberId);
      assert err.None? && uow.Client() == DeleteMember(tx, memberId).value;
      var events := member.PullEvents();
      w := WorkDone((), Some(events));
    }
  }
}
