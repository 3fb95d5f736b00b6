/** The `deleteMemberPermanentlyAction` server action: it requires a member
    id and a confirmation phrase that, once trimmed, reads exactly
    `DELETE <id>` for the trimmed id, and then runs
    `DeleteMemberPermanentlyUseCase`. */
module DeleteMemberAction {
  import opened Wrappers
  import opened Text
  import opened Js
  import opened Errors
  import opened DomainEvents
  import opened MemberEntity
  import opened Storage
  import opened Bus
  import opened UnitOfWork
  import opened Validators
  import opened MemberUseCases

  const INPUT_REQUIRED := "Input is required."

  datatype DeleteRequest = DeleteRequest(memberId: string, confirm: string)

  /** The checks the action runs before resolving the use case. */
  function DeleteRequestOf(input: JsValue): (r: Result<DeleteRequest, Exception>)
    ensures r.Success? <==>
      && Truthy(input)
      && Get(input, "memberId").Str? && !IsBlank(Get(input, "memberId").s)
      && Get(input, "confirm").Str? && Trim(Get(input, "confirm").s) == DeleteConfirmation(Trim(Get(input, "memberId").s))
    ensures r.Success? ==>
      r.value.memberId == Trim(Get(input, "memberId").s) && r.value.confirm == DeleteConfirmation(r.value.memberId)
    ensures !Truthy(input) ==> r == Failure(PlainErr(INPUT_REQUIRED))
    ensures Truthy(input) && EnsureMemberId(Get(input, "memberId")).Failure? ==> r == Failure(PlainErr(MEMBER_ID_REQUIRED))
    ensures Truthy(input) && EnsureMemberId(Get(input, "memberId")).Success? ==>
      (r.Failure? ==> r.error == PlainErr(INVALID_DELETE_CONFIRMATION))
  {
    if !Truthy(input) then Failure(PlainErr(INPUT_REQUIRED))
    else
      var memberId := EnsureMemberId(Get(input, "memberId"));
      if memberId.Failure? then Failure(memberId.error)
      else
        var confirm := EnsureNonEmptyString(Get(input, "confirm"), INVALID_DELETE_CONFIRMATION);
        if confirm.Failure? then Failure(confirm.error)
        else if confirm.value != DeleteConfirmation(memberId.value) then Failure(PlainErr(INVALID_DELETE_CONFIRMATION))
        else Success(DeleteRequest(memberId.value, confirm.value))
  }

  /** `deleteMemberPermanentlyAction` as a whole. */
  function DeleteMemberPermanently(committed: Store, input: JsValue, stamp: EventStamp, b: BusState,
                                   fails: (HandlerId, DomainEvent) -> bool): (r: Settlement<()>)
    requires Valid(b)
    ensures DeleteRequestOf(input).Failure? ==> r == Settlement(committed, Threw(DeleteRequestOf(input).error), [])
  {
    var request := DeleteRequestOf(input);
    if request.Failure? then Settlement(committed, Threw(request.error), [])
    else DeletePermanently(committed, request.value.memberId, request.value.confirm, stamp, b, fails)
  }

  /** Once the action's check passes, the use case's own confirmation check
      never fires: the deletion runs. */
  lemma ActionCheckSubsumesUseCaseCheck(committed: Store, input: JsValue, stamp: EventStamp, b: BusState,
                                        fails: (HandlerId, DomainEvent) -> bool)
    requires Valid(b) && DeleteRequestOf(input).Success?
    ensures var id := DeleteRequestOf(input).value.memberId;
      DeleteMemberPermanently(committed, input, stamp, b, fails)
      == RunInTransaction(committed, DeleteWork(committed, id, stamp), b, fails)
  {
  }

  /** A confirmed request for a stored member removes exactly that row. */
  lemma ConfirmedDeleteRemovesMember(store: Store, input: JsValue, stamp: EventStamp, b: BusState,
                                     fails: (HandlerId, DomainEvent) -> bool)
    requires Valid(b) && Keyed(store) && DeleteRequestOf(input).Success?
    requires DeleteRequestOf(input).value.memberId in store.members
    ensures var id := DeleteRequestOf(input).value.memberId;
      var r := DeleteMemberPermanently(store, input, stamp, b, fails);
      r.store == store.(members := store.members - {id}) && !r.outcome.Threw?
  {
    var id := DeleteRequestOf(input).value.memberId;
    DeleteRemovesMember(store, id, stamp, b, fails);
  }

  /** White space around the id and the phrase does not matter. */
  lemma SurroundingSpaceAccepted(id: string, before: string, after: string)
    requires IsNormalText(id) && AllSpace(before) && AllSpace(after)
    ensures var input := Obj(map["memberId" := Str(before + id + after),
                                 "confirm" := Str(before + DeleteConfirmation(id) + after)]);
      DeleteRequestOf(input) == Success(DeleteRequest(id, DeleteConfirmation(id)))
  {
    PaddedTrim(id, before, after);
    assert IsNormalText(DeleteConfirmation(id));
    PaddedTrim(DeleteConfirmation(id), before, after);
    var input := Obj(map["memberId" := Str(before + id + after),
                         "confirm" := Str(before + DeleteConfirmation(id) + after)]);
    assert Get(input, "memberId") == Str(before + id + after);
    assert Get(input, "confirm") == Str(before + DeleteConfirmation(id) + after);
  }

  /** Trimming removes exactly the white space around normal text. */
  lemma PaddedTrim(t: string, before: string, after: string)
    requires IsNormalText(t) && AllSpace(before) && AllSpace(after)
    ensures Trim(before + t + after) == t
  {
    assert before + t + after == before + (t + after);
    TrimStartSkipsSpace(before, t + after);
    TrimStartOfUnspaced(t + after);
    TrimEndSkipsSpace(t, after);
    TrimEndOfUnspaced(t);
  }

  /** `deleteMemberPermanentlyAction` over a unit of work. */
  method DeleteMemberPermanentlyAction(useCase: DeleteMemberPermanentlyUseCase, input: JsValue, stamp: EventStamp,
                                       fails: (HandlerId, DomainEvent) -> bool)
    returns (outcome: TxOutcome<()>, trace: seq<Delivery>)
    requires useCase.uow.ambient.None? && Valid(useCase.uow.bus.State()) && useCase.repository.uow == useCase.uow
    modifies useCase.uow
    ensures useCase.uow.ambient == None
    ensures Settlement(useCase.uow.committed, outcome, trace)
            == DeleteMemberPermanently(old(useCase.uow.committed), input, stamp, useCase.uow.bus.State(), fails)
  {
    var request := DeleteRequestOf(input);
    if request.Failure? {
      return Threw(request.error), [];
    }
    outcome, trace := useCase.Execute(request.value.memberId, request.value.confirm, stamp, fails);
  }
}
