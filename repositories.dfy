/** `PrismaHeroRepository` and `PrismaMemberRepository`: reads and writes
    through the unit of work's current client. */
module Repositories {
  import opened Wrappers
  import opened Errors
  import opened Storage
  import opened HeroEntity
  import opened MemberEntity
  import opened UnitOfWork

  class PrismaHeroRepository {
    const uow: PrismaUnitOfWork

    constructor(uow: PrismaUnitOfWork)
      ensures this.uow == uow
    {
      this.uow := uow;
    }

    /** `findById`: the rehydrated hero, or `EntityNotFoundException`. */
    method FindById(heroId: string) returns (r: Result<Hero, Exception>)
      ensures r.Success? <==> heroId in uow.Client().heroes
      ensures r.Failure? ==> r.error == NotFound("Hero", heroId)
      ensures r.Success? ==> fresh(r.value) && r.value.events == []
                             && r.value.ToSnapshot() == HeroFromRecord(uow.Client().heroes[heroId])
    {
      var client := uow.Client();
      if heroId !in client.heroes {
        return Failure(NotFound("Hero", heroId));
      }
      var hero := Hero.Rehydrate(HeroFromRecord(client.heroes[heroId]));
      return Success(hero);
    }

    /** `save`: an upsert keyed by the hero's id. */
    method Save(hero: Hero)
      modifies uow
      ensures uow.Client() == UpsertHero(old(uow.Client()), hero.ToSnapshot())
      ensures uow.ambient.Some? == old(uow.ambient).Some?
      ensures old(uow.ambient).Some? ==> uow.committed == old(uow.committed)
    {
      uow.Write(UpsertHero(uow.Client(), hero.ToSnapshot()));
    }
  }

  class PrismaMemberRepository {
    const uow: PrismaUnitOfWork

    constructor(uow: PrismaUnitOfWork)
      ensures this.uow == uow
    {
      this.uow := uow;
    }

    /** `findById`: the rehydrated member, or null. */
    method FindById(memberId: string) returns (r: Option<Member>)
      ensures r.Some? <==> memberId in uow.Client().members
      ensures r.Some? ==> fresh(r.value) && r.value.events == []
                          && r.value.ToSnapshot() == MemberFromRecord(uow.Client().members[memberId])
    {
      var client := uow.Client();
      if memberId !in client.members {
        return None;
      }
      var member := Member.Rehydrate(MemberFromRecord(client.members[memberId]));
      return Some(member);
    }

    /** `save`: an upsert keyed by the member's id, with `mapToCreate` for a
        new row and `mapToUpdate` for an existing one. */
    method Save(member: Member)
      modifies uow
      ensures uow.Client() == UpsertMember(old(uow.Client()), member.ToSnapshot())
      ensures uow.ambient.Some? == old(uow.ambient).Some?
      ensures old(uow.ambient).Some? ==> uow.committed == old(uow.committed)
    {
      uow.Write(UpsertMember(uow.Client(), member.ToSnapshot()));
    }

    /** `delete`: removes the row; deleting a missing row throws. */
    method Delete(memberId: string) returns (err: Option<Exception>)
      modifies uow
      ensures err.Some? <==> memberId !in old(uow.Client()).members
      ensures err.Some? ==> uow.Client() == old(uow.Client()) && err.value == DeleteMember(old(uow.Client()), memberId).error
      ensures err.None? ==> uow.Client() == DeleteMember(old(uow.Client()), memberId).value
      ensures uow.ambient.Some? == old(uow.ambient).Some?
      ensures old(uow.ambient).Some? ==> uow.committed == old(uow.committed)
    {
      var deleted := DeleteMember(uow.Client(), memberId);
      if deleted.Failure? {
        return Some(deleted.error);
      }
      uow.Write(deleted.value);
      return None;
    }
  }
}
