/** Domain events: an id, a name fixed by the event class, an occurrence time
    and a payload. The random UUID and the `new Date()` of the base class are
    supplied as an `EventStamp`. */
module DomainEvents {
  import opened Js
  import opened Text

  datatype EventStamp = EventStamp(id: string, occurredAt: Instant)

  datatype DomainEvent = DomainEvent(id: string, name: string, occurredAt: Instant, payload: JsValue)

  const HERO_CREATED := "HeroCreated"
  const HERO_RENAMED := "HeroRenamed"
  const HERO_LEVELED_UP := "HeroLeveledUp"
  const MEMBER_ARCHIVED := "MemberArchived"
  const MEMBER_CLASSIFICATION_CHANGED := "MemberClassificationChanged"
  const MEMBER_DELETED := "MemberDeleted"
  const MEMBER_REGISTERED := "MemberRegistered"
  const MEMBER_RESTORED := "MemberRestored"
  const MEMBER_UPDATED := "MemberUpdated"

  function Make(stamp: EventStamp, name: string, payload: map<string, JsValue>): DomainEvent
  {
    DomainEvent(stamp.id, name, stamp.occurredAt, Obj(payload))
  }

  function HeroCreated(stamp: EventStamp, heroId: string, name: string): DomainEvent
  {
    Make(stamp, HERO_CREATED, map["heroId" := Str(heroId), "name" := Str(name)])
  }

  function HeroRenamed(stamp: EventStamp, heroId: string, newName: string): DomainEvent
  {
    Make(stamp, HERO_RENAMED, map["heroId" := Str(heroId), "newName" := Str(newName)])
  }

  function HeroLeveledUp(stamp: EventStamp, heroId: string, newPower: int): DomainEvent
  {
    Make(stamp, HERO_LEVELED_UP, map["heroId" := Str(heroId), "newPower" := Num(Finite(newPower as real))])
  }

  /** The five member events whose payload is `{ memberId }`. */
  function MemberEvent(stamp: EventStamp, name: string, memberId: string): DomainEvent
  {
    Make(stamp, name, map["memberId" := Str(memberId)])
  }

  function MemberClassificationChanged(stamp: EventStamp, memberId: string, newClassification: string): DomainEvent
  {
    Make(stamp, MEMBER_CLASSIFICATION_CHANGED,
         map["memberId" := Str(memberId), "newClassification" := Str(newClassification)])
  }
}
