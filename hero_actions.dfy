/** The hero server actions: `createHeroAction` and `renameHeroAction`
    check and trim their input before running the use case, and
    `listHeroEventsAction` reads the hero events from the event log. */
module HeroActions {
  import opened Wrappers
  import opened Text
  import opened Js
  import opened Errors
  import opened DomainEvents
  import opened Dates
  import opened HeroEntity
  import opened Storage
  import opened Bus
  import opened UnitOfWork
  import opened Mappers
  import opened HeroUseCases
  import opened EventLog

  const NAME_TOO_SHORT := "Hero name must be at least 2 characters long."
  const HERO_ID_REQUIRED := "Hero id is required"
  const HERO_PREFIX := "Hero"

  /** `CreateHeroInput`; an absent input is `None`. */
  datatype CreateHeroInput = CreateHeroInput(name: string)

  /** `RenameHeroInput`; an absent input is `None`. */
  datatype RenameHeroInput = RenameHeroInput(heroId: string, newName: string)

  /** The guard of both actions on a name: a missing or empty name, or one
      shorter than two UTF-16 code units once trimmed, is refused; otherwise the
      trimmed name is forwarded. */
  function CheckedName(name: string): (r: Result<string, Exception>)
    ensures r.Success? <==> Utf16Length(Trim(name)) >= 2
    ensures r.Success? ==> r.value == Trim(name)
    ensures r.Failure? ==> r.error == PlainErr(NAME_TOO_SHORT)
  {
    if name == [] || Utf16Length(Trim(name)) < 2 then Failure(PlainErr(NAME_TOO_SHORT)) else Success(Trim(name))
  }

  /** Like the entity, the guard counts UTF-16 code units: a one-emoji name
      passes, a one-letter name is refused. */
  lemma AstralNameAccepted()
    ensures CheckedName("\U{1F600}") == Success("\U{1F600}")
    ensures CheckedName("a") == Failure(PlainErr(NAME_TOO_SHORT))
  {
    TrimOfTrimmed("\U{1F600}");
    TrimOfTrimmed("a");
    Utf16AtLeastTwo("\U{1F600}");
    Utf16AtLeastTwo("a");
  }

  /** A name the action accepts is one `Hero` accepts, and `Hero` keeps it
      as it is. */
  lemma CheckedNameIsValid(name: string)
    requires CheckedName(name).Success?
    ensures IsValidName(CheckedName(name).value)
    ensures SanitizeName(CheckedName(name).value) == CheckedName(name).value
    ensures IsValidName(name) && SanitizeName(name) == CheckedName(name).value
  {
    TrimIdempotent(name);
  }

  /** The checks of `createHeroAction`. */
  function CreateHeroRequest(input: Option<CreateHeroInput>): (r: Result<string, Exception>)
    ensures r.Success? <==> input.Some? && Utf16Length(Trim(input.value.name)) >= 2
    ensures r.Success? ==> r.value == Trim(input.value.name)
    ensures r.Failure? ==> r.error == PlainErr(NAME_TOO_SHORT)
  {
    if input.None? then Failure(PlainErr(NAME_TOO_SHORT)) else CheckedName(input.value.name)
  }

  /** `createHeroAction` as a whole: a refused name throws before any
      transaction begins; otherwise the use case runs on the trimmed name
      and its outcome is returned unchanged. */
  function CreateHero(committed: Store, input: Option<CreateHeroInput>, heroId: string, now: Instant,
                      stamp: EventStamp, b: BusState, fails: (HandlerId, DomainEvent) -> bool): (r: Settlement<HeroView>)
    requires Valid(b)
    ensures CreateHeroRequest(input).Failure? ==> r == Settlement(committed, Threw(PlainErr(NAME_TOO_SHORT)), [])
  {
    var name := CreateHeroRequest(input);
    if name.Failure? then Settlement(committed, Threw(name.error), [])
    else RunInTransaction(committed, CreateHeroWork(committed, heroId, name.value, now, stamp), b, fails)
  }

  /** An accepted request creates the hero under the trimmed name, so the
      use case's own invalid-name error never fires. */
  lemma AcceptedCreateStoresTrimmedName(store: Store, input: Option<CreateHeroInput>, heroId: string, now: Instant,
                                        stamp: EventStamp, b: BusState, fails: (HandlerId, DomainEvent) -> bool)
    requires Valid(b) && Keyed(store) && InTimeRange(now.epochMillis) && heroId !in store.heroes
    requires CreateHeroRequest(input).Success?
    ensures var r := CreateHero(store, input, heroId, now, stamp, b, fails);
      && heroId in r.store.heroes
      && HeroFromRecord(r.store.heroes[heroId]) == HeroSnapshot(heroId, Trim(input.value.name), 1, true, now)
      && r.trace <= Deliveries(b, [HeroCreated(stamp, heroId, Trim(input.value.name))])
  {
    var name := CreateHeroRequest(input).value;
    CheckedNameIsValid(input.value.name);
    CreateStoresHero(store, heroId, name, now, stamp, b, fails);
  }

  /** `createHeroAction` over a unit of work. */
  method CreateHeroAction(useCase: CreateHeroUseCase, input: Option<CreateHeroInput>, heroId: string, now: Instant,
                          stamp: EventStamp, fails: (HandlerId, DomainEvent) -> bool)
    returns (outcome: TxOutcome<HeroView>, trace: seq<Delivery>)
    requires useCase.uow.ambient.None? && Valid(useCase.uow.bus.State()) && useCase.repository.uow == useCase.uow
    modifies useCase.uow
    ensures useCase.uow.ambient == None
    ensures Settlement(useCase.uow.committed, outcome, trace)
            == CreateHero(old(useCase.uow.committed), input, heroId, now, stamp, useCase.uow.bus.State(), fails)
  {
    if input.None? || input.value.name == [] || Utf16Length(Trim(input.value.name)) < 2 {
      return Threw(PlainErr(NAME_TOO_SHORT)), [];
    }
    outcome, trace := useCase.Execute(Trim(input.value.name), heroId, now, stamp, fails);
  }

  /** The checks of `renameHeroAction`, the hero id first: the id is
      forwarded as given and the new name trimmed. */
  function RenameHeroRequest(input: Option<RenameHeroInput>): (r: Result<RenameHeroInput, Exception>)
    ensures (input.None? || input.value.heroId == []) ==> r == Failure(PlainErr(HERO_ID_REQUIRED))
    ensures input.Some? && input.value.heroId != [] ==>
      && (r.Success? <==> Utf16Length(Trim(input.value.newName)) >= 2)
      && (r.Failure? ==> r.error == PlainErr(NAME_TOO_SHORT))
    ensures r.Success? ==> r.value == RenameHeroInput(input.value.heroId, Trim(input.value.newName))
  {
    if input.None? || input.value.heroId == [] then Failure(PlainErr(HERO_ID_REQUIRED))
    else
      var newName := CheckedName(input.value.newName);
      if newName.Failure? then Failure(newName.error) else Success(RenameHeroInput(input.value.heroId, newName.value))
  }

  /** `renameHeroAction` as a whole. */
  function RenameHero(committed: Store, input: Option<RenameHeroInput>, stamp: EventStamp, b: BusState,
                      fails: (HandlerId, DomainEvent) -> bool): (r: Settlement<HeroView>)
    requires Valid(b)
    ensures RenameHeroRequest(input).Failure? ==> r == Settlement(committed, Threw(RenameHeroRequest(input).error), [])
  {
    var request := RenameHeroRequest(input);
    if request.Failure? then Settlement(committed, Threw(request.error), [])
    else RunInTransaction(committed, RenameHeroWork(committed, request.value.heroId, request.value.newName, stamp),
                          b, fails)
  }

  /** An accepted rename of a stored hero to a different name stores the
      trimmed name and publishes exactly `HeroRenamed`; an unknown hero
      throws `EntityNotFoundException` and changes nothing. */
  lemma AcceptedRenameStoresTrimmedName(store: Store, input: Option<RenameHeroInput>, stamp: EventStamp, b: BusState,
                                        fails: (HandlerId, DomainEvent) -> bool)
    requires Valid(b) && Keyed(store) && RenameHeroRequest(input).Success?
    ensures var id := input.value.heroId;
      var name := Trim(input.value.newName);
      var r := RenameHero(store, input, stamp, b, fails);
      && (id !in store.heroes ==> r == Settlement(store, Threw(NotFound("Hero", id)), []))
      && (id in store.heroes && name != store.heroes[id].name && InTimeRange(store.heroes[id].createdAt.epochMillis) ==>
            && r.store.heroes[id] == store.heroes[id].(name := name)
            && r.trace <= Deliveries(b, [HeroRenamed(stamp, id, name)]))
  {
    var id := input.value.heroId;
    var name := Trim(input.value.newName);
    CheckedNameIsValid(input.value.newName);
    if id !in store.heroes {
      UnknownHeroChangesNothing(store, id, name, stamp, b, fails);
    } else if name != store.heroes[id].name && InTimeRange(store.heroes[id].createdAt.epochMillis) {
      RenameStoresName(store, id, name, stamp, b, fails);
    }
  }

  /** `renameHeroAction` over a unit of work. */
  method RenameHeroAction(useCase: RenameHeroUseCase, input: Option<RenameHeroInput>, stamp: EventStamp,
                          fails: (HandlerId, DomainEvent) -> bool)
    returns (outcome: TxOutcome<HeroView>, trace: seq<Delivery>)
    requires useCase.uow.ambient.None? && Valid(useCase.uow.bus.State()) && useCase.repository.uow == useCase.uow
    modifies useCase.uow
    ensures useCase.uow.ambient == None
    ensures Settlement(useCase.uow.committed, outcome, trace)
            == RenameHero(old(useCase.uow.committed), input, stamp, useCase.uow.bus.State(), fails)
  {
    if input.None? || input.value.heroId == [] {
      return Threw(PlainErr(HERO_ID_REQUIRED)), [];
    }
    if input.value.newName == [] || Utf16Length(Trim(input.value.newName)) < 2 {
      return Threw(PlainErr(NAME_TOO_SHORT)), [];
    }
    outcome, trace := useCase.Execute(input.value.heroId, Trim(input.value.newName), stamp, fails);
  }

  /** `events.filter((event) => event.name.startsWith("Hero"))`. */
  function HeroEvents(events: seq<LoggedEvent>): (r: seq<LoggedEvent>)
    ensures |r| <= |events|
    ensures forall i :: 0 <= i < |r| ==> StartsWith(r[i].name, HERO_PREFIX)
    decreases events
  {
    if events == [] then []
    else if StartsWith(events[0].name, HERO_PREFIX) then [events[0]] + HeroEvents(events[1..])
    else HeroEvents(events[1..])
  }

  /** An entry is kept exactly when it is in the list and its name starts
      with "Hero". */
  lemma {:induction false} HeroEventsMembership(events: seq<LoggedEvent>, e: LoggedEvent)
    ensures e in HeroEvents(events) <==> e in events && StartsWith(e.name, HERO_PREFIX)
    decreases events
  {
    if events != [] {
      HeroEventsMembership(events[1..], e);
      assert events == [events[0]] + events[1..];
    }
  }

  /** Filtering keeps the order: the filter of a concatenation is the
      concatenation of the filters. */
  lemma {:induction false} HeroEventsOfConcat(a: seq<LoggedEvent>, b: seq<LoggedEvent>)
    ensures HeroEvents(a + b) == HeroEvents(a) + HeroEvents(b)
    decreases a
  {
    if a != [] {
      assert (a + b)[0] == a[0] && (a + b)[1..] == a[1..] + b;
      HeroEventsOfConcat(a[1..], b);
    } else {
      assert a + b == b;
    }
  }

  /** `listHeroEventsAction(limit = 20)`: the hero events among the newest
      `limit` entries, newest first; it leaves the log as it is. */
  method ListHeroEventsAction(log: InMemoryEventLog, limit: int := DEFAULT_LIST_LIMIT) returns (r: seq<LoggedEvent>)
    ensures r == HeroEvents(Listed(log.entries, limit))
  {
    var events := log.List(limit);
    r := HeroEvents(events);
  }

  /** It filters after limiting: at most `limit` entries come back, and a
      hero event older than the newest `limit` entries never does. */
  lemma ListedHeroEventsWithinWindow(entries: seq<LoggedEvent>, limit: int, e: LoggedEvent)
    requires 0 <= limit
    ensures |HeroEvents(Listed(entries, limit))| <= limit
    ensures e in HeroEvents(Listed(entries, limit)) <==>
      e in entries[..(if limit < |entries| then limit else |entries|)] && StartsWith(e.name, HERO_PREFIX)
  {
    ListedTakesNewest(entries, limit);
    HeroEventsMembership(Listed(entries, limit), e);
  }
}
