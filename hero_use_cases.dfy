/** The hero commands: load (or create), mutate, save, pull the events and
    map to a view, all inside one unit of work. */
module HeroUseCases {
  import opened Wrappers
  import opened Js
  import opened Errors
  import opened DomainEvents
  import opened Dates
  import opened HeroEntity
  import opened Storage
  import opened Bus
  import opened UnitOfWork
  import opened Repositories
  import opened Mappers

  /** The view ending a work, or the exception `toView` throws. */
  function Finish(tx: Store, s: HeroSnapshot, events: seq<DomainEvent>): (r: TxWork<HeroView>)
    ensures r.tx == tx
    ensures r.work.WorkThrew? <==> HeroToView(s).Failure?
    ensures r.work.WorkDone? ==> r.work.result == HeroToView(s).value && r.work.events == Some(events)
  {
    var view := HeroToView(s);
    if view.Failure? then TxWork(tx, WorkThrew(view.error)) else TxWork(tx, WorkDone(view.value, Some(events)))
  }

  /** The work of `CreateHeroUseCase.execute`. */
  function CreateHeroWork(tx: Store, heroId: string, name: string, now: Instant, stamp: EventStamp): (r: TxWork<HeroView>)
    ensures r.tx.members == tx.members
    ensures forall id :: id in tx.heroes && id != heroId ==> id in r.tx.heroes && r.tx.heroes[id] == tx.heroes[id]
    ensures !IsValidName(name) ==> r == TxWork(tx, WorkThrew(PlainErr(HERO_INVALID_NAME)))
    ensures IsValidName(name) ==> heroId in r.tx.heroes && r.tx.heroes[heroId].name == SanitizeName(name)
                                  && r.tx.heroes[heroId].power == 1 && r.tx.heroes[heroId].alive
    ensures r.work.WorkDone? ==> r.work.events == Some([HeroCreated(stamp, heroId, SanitizeName(name))])
  {
    if !IsValidName(name) then TxWork(tx, WorkThrew(PlainErr(HERO_INVALID_NAME)))
    else
      var s := HeroSnapshot(heroId, SanitizeName(name), 1, true, now);
      Finish(UpsertHero(tx, s), s, [HeroCreated(stamp, heroId, SanitizeName(name))])
  }

  /** The work of `RenameHeroUseCase.execute`. */
  function RenameHeroWork(tx: Store, heroId: string, newName: string, stamp: EventStamp): (r: TxWork<HeroView>)
    ensures r.tx.members == tx.members
    ensures Keyed(tx) ==> r.tx.heroes.Keys == tx.heroes.Keys
    ensures heroId !in tx.heroes ==> r == TxWork(tx, WorkThrew(NotFound("Hero", heroId)))
  {
    if heroId !in tx.heroes then TxWork(tx, WorkThrew(NotFound("Hero", heroId)))
    else RenameLoaded(tx, HeroFromRecord(tx.heroes[heroId]), newName, stamp)
  }

  /** The rename once the hero `s` is loaded. */
  function RenameLoaded(tx: Store, s: HeroSnapshot, newName: string, stamp: EventStamp): (r: TxWork<HeroView>)
    ensures r.tx.members == tx.members
    ensures forall id :: id in tx.heroes && id != s.heroId ==> id in r.tx.heroes && r.tx.heroes[id] == tx.heroes[id]
    ensures !IsValidName(newName) ==> r == TxWork(tx, WorkThrew(PlainErr(HERO_INVALID_NAME)))
    ensures IsValidName(newName) ==> s.heroId in r.tx.heroes && r.tx.heroes[s.heroId].name == SanitizeName(newName)
    ensures r.work.WorkDone? && SanitizeName(newName) == s.name ==> r.work.events == Some([])
  {
    if !IsValidName(newName) then TxWork(tx, WorkThrew(PlainErr(HERO_INVALID_NAME)))
    else
      var renamed := s.(name := SanitizeName(newName));
      Finish(UpsertHero(tx, renamed), renamed,
             if SanitizeName(newName) == s.name then [] else [HeroRenamed(stamp, s.heroId, SanitizeName(newName))])
  }

  /** The work of `LevelUpHeroUseCase.execute`. */
  function LevelUpHeroWork(tx: Store, heroId: string, stamp: EventStamp): (r: TxWork<HeroView>)
    ensures r.tx.members == tx.members
    ensures Keyed(tx) ==> r.tx.heroes.Keys == tx.heroes.Keys
    ensures heroId !in tx.heroes ==> r == TxWork(tx, WorkThrew(NotFound("Hero", heroId)))
    ensures Keyed(tx) && heroId in tx.heroes ==>
              heroId in r.tx.heroes && r.tx.heroes[heroId].power == tx.heroes[heroId].power + 1
  {
    if heroId !in tx.heroes then TxWork(tx, WorkThrew(NotFound("Hero", heroId)))
    else LevelUpLoaded(tx, HeroFromRecord(tx.heroes[heroId]), stamp)
  }

  /** The level-up once the hero `s` is loaded. */
  function LevelUpLoaded(tx: Store, s: HeroSnapshot, stamp: EventStamp): (r: TxWork<HeroView>)
    ensures r.tx.members == tx.members
    ensures forall id :: id in tx.heroes && id != s.heroId ==> id in r.tx.heroes && r.tx.heroes[id] == tx.heroes[id]
    ensures s.heroId in r.tx.heroes && r.tx.heroes[s.heroId].power == s.power + 1
    ensures r.work.WorkDone? ==> r.work.events == Some([HeroLeveledUp(stamp, s.heroId, s.power + 1)])
  {
    var leveled := s.(power := s.power + 1);
    Finish(UpsertHero(tx, leveled), leveled, [HeroLeveledUp(stamp, s.heroId, s.power + 1)])
  }

  /** An invalid name throws in `Hero.create`: nothing is stored and no
      event is published. */
  lemma CreateInvalidNameChangesNothing(store: Store, heroId: string, name: string, now: Instant, stamp: EventStamp,
                                        b: BusState, fails: (HandlerId, DomainEvent) -> bool)
    requires Valid(b) && !IsValidName(name)
    ensures RunInTransaction(store, CreateHeroWork(store, heroId, name, now, stamp), b, fails)
            == Settlement(store, Threw(PlainErr(HERO_INVALID_NAME)), [])
  {
  }

  /** A valid name stores the new hero under the generated id, returns its
      view and publishes exactly `HeroCreated`; the view is what reading the
      hero back renders. */
  lemma CreateStoresHero(store: Store, heroId: string, name: string, now: Instant, stamp: EventStamp,
                         b: BusState, fails: (HandlerId, DomainEvent) -> bool)
    requires Valid(b) && Keyed(store) && IsValidName(name) && InTimeRange(now.epochMillis)
    requires heroId !in store.heroes
    ensures var r := RunInTransaction(store, CreateHeroWork(store, heroId, name, now, stamp), b, fails);
      && heroId in r.store.heroes && Keyed(r.store)
      && HeroFromRecord(r.store.heroes[heroId]) == HeroSnapshot(heroId, SanitizeName(name), 1, true, now)
      && r.store.members == store.members
      && (forall id :: id in store.heroes ==> id in r.store.heroes && r.store.heroes[id] == store.heroes[id])
      && r.trace <= Deliveries(b, [HeroCreated(stamp, heroId, SanitizeName(name))])
      && (r.outcome.Returned? ==> r.outcome.value == HeroToView(HeroFromRecord(r.store.heroes[heroId])).value)
  {
    SavedHeroReadsBack(store, HeroSnapshot(heroId, SanitizeName(name), 1, true, now));
  }

  /** Renaming or leveling up an unknown hero throws `EntityNotFoundException`
      and changes nothing. */
  lemma UnknownHeroChangesNothing(store: Store, heroId: string, newName: string, stamp: EventStamp,
                                  b: BusState, fails: (HandlerId, DomainEvent) -> bool)
    requires Valid(b) && heroId !in store.heroes
    ensures RunInTransaction(store, RenameHeroWork(store, heroId, newName, stamp), b, fails)
            == Settlement(store, Threw(NotFound("Hero", heroId)), [])
    ensures RunInTransaction(store, LevelUpHeroWork(store, heroId, stamp), b, fails)
            == Settlement(store, Threw(NotFound("Hero", heroId)), [])
  {
  }

  /** Saving a hero unchanged after loading it leaves the store as it was. */
  lemma ResaveIsIdentity(store: Store, heroId: string)
    requires Keyed(store) && heroId in store.heroes
    ensures UpsertHero(store, HeroFromRecord(store.heroes[heroId])) == store
  {
    assert store.heroes[heroId := store.heroes[heroId]] == store.heroes;
  }

  /** Renaming a hero to the name it has is a no-op: `save` still runs but
      writes the same row, and no event is published. */
  lemma RenameToSameNameIsNoOp(store: Store, heroId: string, newName: string, stamp: EventStamp,
                               b: BusState, fails: (HandlerId, DomainEvent) -> bool)
    requires Valid(b) && Keyed(store) && heroId in store.heroes && IsValidName(newName)
    requires SanitizeName(newName) == store.heroes[heroId].name
    requires InTimeRange(store.heroes[heroId].createdAt.epochMillis)
    ensures var r := RunInTransaction(store, RenameHeroWork(store, heroId, newName, stamp), b, fails);
      r.store == store && r.trace == [] && r.outcome == Returned(HeroToView(HeroFromRecord(store.heroes[heroId])).value)
  {
    var s := HeroFromRecord(store.heroes[heroId]);
    assert s.(name := SanitizeName(newName)) == s;
    ResaveIsIdentity(store, heroId);
  }

  /** A successful rename to a different valid name stores the trimmed name,
      keeps power, alive and createdAt, and publishes exactly `HeroRenamed`. */
  lemma RenameStoresName(store: Store, heroId: string, newName: string, stamp: EventStamp,
                         b: BusState, fails: (HandlerId, DomainEvent) -> bool)
    requires Valid(b) && Keyed(store) && heroId in store.heroes && IsValidName(newName)
    requires SanitizeName(newName) != store.heroes[heroId].name
    requires InTimeRange(store.heroes[heroId].createdAt.epochMillis)
    ensures var r := RunInTransaction(store, RenameHeroWork(store, heroId, newName, stamp), b, fails);
      && heroId in r.store.heroes && Keyed(r.store)
      && r.store.heroes[heroId] == store.heroes[heroId].(name := SanitizeName(newName))
      && r.trace <= Deliveries(b, [HeroRenamed(stamp, heroId, SanitizeName(newName))])
      && !r.outcome.Threw?
  {
    SavedHeroReadsBack(store, HeroFromRecord(store.heroes[heroId]).(name := SanitizeName(newName)));
  }

  /** Leveling up stores exactly one more power point and publishes exactly
      `HeroLeveledUp` with the new power; the view carries it. */
  lemma LevelUpAddsOne(store: Store, heroId: string, stamp: EventStamp,
                       b: BusState, fails: (HandlerId, DomainEvent) -> bool)
    requires Valid(b) && Keyed(store) && heroId in store.heroes
    requires InTimeRange(store.heroes[heroId].createdAt.epochMillis)
    ensures var r := RunInTransaction(store, LevelUpHeroWork(store, heroId, stamp), b, fails);
      && heroId in r.store.heroes && Keyed(r.store)
      && r.store.heroes[heroId].power == store.heroes[heroId].power + 1
      && r.store.heroes[heroId] == store.heroes[heroId].(power := store.heroes[heroId].power + 1)
      && r.trace <= Deliveries(b, [HeroLeveledUp(stamp, heroId, store.heroes[heroId].power + 1)])
      && (r.outcome.Returned? ==> r.outcome.value.power == store.heroes[heroId].power + 1)
  {
    SavedHeroReadsBack(store, HeroFromRecord(store.heroes[heroId]).(power := store.heroes[heroId].power + 1));
  }

  /** The tail every hero command shares: save, pull the events, map to a
      view. */
  method SaveAndView(repository: PrismaHeroRepository, hero: Hero) returns (w: Work<HeroView>)
    requires repository.uow.ambient.Some?
    modifies repository.uow, hero`events
    ensures repository.uow.ambient.Some? && repository.uow.committed == old(repository.uow.committed)
    ensures TxWork(repository.uow.Client(), w)
            == Finish(UpsertHero(old(repository.uow.Client()), hero.ToSnapshot()), hero.ToSnapshot(), old(hero.events))
    ensures hero.ToSnapshot() == old(hero.ToSnapshot())
  {
    repository.Save(hero);
    var events := hero.PullEvents();
    w := Finish(repository.uow.Client(), hero.ToSnapshot(), events).work;
  }

  class CreateHeroUseCase {
    const uow: PrismaUnitOfWork
    const repository: PrismaHeroRepository

    constructor(uow: PrismaUnitOfWork)
      ensures this.uow == uow && repository.uow == uow
    {
      this.uow := uow;
      repository := new PrismaHeroRepository(uow);
    }

    /** `execute`; `heroId` is the generated id, `now` and `stamp` the clock
        and the event id. */
    method Execute(name: string, heroId: string, now: Instant, stamp: EventStamp,
                   fails: (HandlerId, DomainEvent) -> bool)
      returns (outcome: TxOutcome<HeroView>, trace: seq<Delivery>)
      requires uow.ambient.None? && Valid(uow.bus.State()) && repository.uow == uow
      modifies uow
      ensures uow.ambient == None
      ensures Settlement(uow.committed, outcome, trace)
              == RunInTransaction(old(uow.committed), CreateHeroWork(old(uow.committed), heroId, name, now, stamp),
                                  uow.bus.State(), fails)
    {
      uow.Begin();
      var w := Work(name, heroId, now, stamp);
      outcome, trace := uow.Complete(w, fails);
    }

    /** The body run inside the transaction. */
    method Work(name: string, heroId: string, now: Instant, stamp: EventStamp) returns (w: Work<HeroView>)
      requires uow.ambient.Some? && repository.uow == uow
      modifies uow
      ensures uow.ambient.Some? && uow.committed == old(uow.committed)
      ensures TxWork(uow.Client(), w) == CreateHeroWork(old(uow.Client()), heroId, name, now, stamp)
    {
      var created := Hero.Create(HeroCreateProps(heroId, name), now, stamp);
      if created.Failure? {
        return WorkThrew(created.error);
      }
      w := SaveAndView(repository, created.value);
    }
  }

  class RenameHeroUseCase {
    const uow: PrismaUnitOfWork
    const repository: PrismaHeroRepository

    constructor(uow: PrismaUnitOfWork)
      ensures this.uow == uow && repository.uow == uow
    {
      this.uow := uow;
      repository := new PrismaHeroRepository(uow);
    }

    method Execute(heroId: string, newName: string, stamp: EventStamp, fails: (HandlerId, DomainEvent) -> bool)
      returns (outcome: TxOutcome<HeroView>, trace: seq<Delivery>)
      requires uow.ambient.None? && Valid(uow.bus.State()) && repository.uow == uow
      modifies uow
      ensures uow.ambient == None
      ensures Settlement(uow.committed, outcome, trace)
              == RunInTransaction(old(uow.committed), RenameHeroWork(old(uow.committed), heroId, newName, stamp),
                                  uow.bus.State(), fails)
    {
      uow.Begin();
      var w := Work(heroId, newName, stamp);
      outcome, trace := uow.Complete(w, fails);
    }

    method Work(heroId: string, newName: string, stamp: EventStamp) returns (w: Work<HeroView>)
      requires uow.ambient.Some? && repository.uow == uow
      modifies uow
      ensures uow.ambient.Some? && uow.committed == old(uow.committed)
      ensures TxWork(uow.Client(), w) == RenameHeroWork(old(uow.Client()), heroId, newName, stamp)
    {
      ghost var tx := uow.Client();
      var found := repository.FindById(heroId);
      if found.Failure? {
        return WorkThrew(found.error);
      }
      var hero := found.value;
      ghost var loaded := HeroFromRecord(tx.heroes[heroId]);
      var err := hero.Rename(newName, stamp);
      if err.Some? {
        return WorkThrew(err.value);
      }
      assert hero.ToSnapshot() == loaded.(name := SanitizeName(newName));
      assert hero.events == if SanitizeName(newName) == loaded.name then []
                            else [HeroRenamed(stamp, loaded.heroId, SanitizeName(newName))];
      assert RenameLoaded(tx, loaded, newName, stamp) == Finish(UpsertHero(tx, hero.ToSnapshot()), hero.ToSnapshot(), hero.events);
      w := SaveAndView(repository, hero);
    }
  }

  class LevelUpHeroUseCase {
    const uow: PrismaUnitOfWork
    const repository: PrismaHeroRepository

    constructor(uow: PrismaUnitOfWork)
      ensures this.uow == uow && repository.uow == uow
    {
      this.uow := uow;
      repository := new PrismaHeroRepository(uow);
    }

    method Execute(heroId: string, stamp: EventStamp, fails: (HandlerId, DomainEvent) -> bool)
      returns (outcome: TxOutcome<HeroView>, trace: seq<Delivery>)
      requires uow.ambient.None? && Valid(uow.bus.State()) && repository.uow == uow
      modifies uow
      ensures uow.ambient == None
      ensures Settlement(uow.committed, outcome, trace)
              == RunInTransaction(old(uow.committed), LevelUpHeroWork(old(uow.committed), heroId, stamp),
                                  uow.bus.State(), fails)
    {
      uow.Begin();
      var w := Work(heroId, stamp);
      outcome, trace := uow.Complete(w, fails);
    }

    method Work(heroId: string, stamp: EventStamp) returns (w: Work<HeroView>)
      requires uow.ambient.Some? && repository.uow == uow
      modifies uow
      ensures uow.ambient.Some? && uow.committed == old(uow.committed)
      ensures TxWork(uow.Client(), w) == LevelUpHeroWork(old(uow.Client()), heroId, stamp)
    {
      ghost var tx := uow.Client();
      var found := repository.FindById(heroId);
      if found.Failure? {
        return WorkThrew(found.error);
      }
      var hero := found.value;
      ghost var loaded := HeroFromRecord(tx.heroes[heroId]);
      hero.LevelUp(stamp);
      assert hero.ToSnapshot() == loaded.(power := loaded.power + 1);
      assert hero.events == [HeroLeveledUp(stamp, loaded.heroId, loaded.power + 1)];
      assert LevelUpLoaded(tx, loaded, stamp) == Finish(UpsertHero(tx, hero.ToSnapshot()), hero.ToSnapshot(), hero.events);
      w := SaveAndView(repository, hero);
    }
  }
}
