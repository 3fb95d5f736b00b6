/** The Hero aggregate: a named hero with a power level and a queue of
    pending domain events. */
module HeroEntity {
  import opened Wrappers
  import opened Js
  import opened Text
  import opened Errors
  import opened DomainEvents

  datatype HeroSnapshot = HeroSnapshot(heroId: string, name: string, power: int, alive: bool, createdAt: Instant)

  datatype HeroCreateProps = HeroCreateProps(heroId: string, name: string)

  /** `Hero.sanitizeName`: the trimmed name. */
  function SanitizeName(name: string): string
  {
    Trim(name)
  }

  /** `Hero.isValidName`: at least two UTF-16 code units once trimmed. */
  predicate IsValidName(name: string)
  {
    Utf16Length(SanitizeName(name)) >= 2
  }

  /** Sanitising is idempotent and leaves no white space at either end. */
  lemma SanitizeNameStable(name: string)
    ensures SanitizeName(SanitizeName(name)) == SanitizeName(name)
    ensures IsValidName(SanitizeName(name)) <==> IsValidName(name)
    ensures var s := SanitizeName(name); s == [] || (!IsSpace(s[0]) && !IsSpace(s[|s| - 1]))
  {
    TrimIdempotent(name);
    TrimmedHasNoOuterSpace(name);
  }

  /** `Hero.assertValidName`: the sanitised name, or the invalid-name error. */
  function AssertValidName(name: string): (r: Result<string, Exception>)
    ensures r.Success? <==> IsValidName(name)
    ensures r.Success? ==> r.value == SanitizeName(name) && IsValidName(r.value)
    ensures r.Failure? ==> r.error == PlainErr(HERO_INVALID_NAME)
  {
    var sanitized := SanitizeName(name);
    TrimIdempotent(name);
    if !IsValidName(sanitized) then Failure(PlainErr(HERO_INVALID_NAME)) else Success(sanitized)
  }

  /** The check counts UTF-16 code units as `.length` does: a single emoji
      is a valid name, a single letter is not. */
  lemma AstralNameValid()
    ensures AssertValidName("\U{1F600}") == Success("\U{1F600}")
    ensures AssertValidName(" a ").Failure?
  {
    assert Trim("\U{1F600}") == "\U{1F600}" by {
      TrimOfTrimmed("\U{1F600}");
    }
    assert Trim(" a ") == "a" by {
      assert " a " == " " + "a" + " ";
      TrimStartSkipsSpace(" ", "a ");
      TrimEndSkipsSpace("a", " ");
      TrimOfTrimmed("a");
    }
    Utf16AtLeastTwo("\U{1F600}");
    Utf16AtLeastTwo("a");
  }

  class Hero {
    const heroId: string
    const createdAt: Instant
    var name: string
    var power: int
    var alive: bool
    /** The pending events, oldest first. */
    var events: seq<DomainEvent>

    function ToSnapshot(): HeroSnapshot
      reads this
    {
      HeroSnapshot(heroId, name, power, alive, createdAt)
    }

    /** The private constructor: the state of the snapshot and an empty queue. */
    constructor (snapshot: HeroSnapshot)
      ensures ToSnapshot() == snapshot && events == []
    {
      heroId := snapshot.heroId;
      name := snapshot.name;
      power := snapshot.power;
      alive := snapshot.alive;
      createdAt := snapshot.createdAt;
      events := [];
    }

    static method Rehydrate(snapshot: HeroSnapshot) returns (hero: Hero)
      ensures fresh(hero) && hero.ToSnapshot() == snapshot && hero.events == []
    {
      hero := new Hero(snapshot);
    }

    /** `Hero.create`; `now` is the clock reading for createdAt. */
    static method Create(props: HeroCreateProps, now: Instant, stamp: EventStamp) returns (r: Result<Hero, Exception>)
      ensures r.Failure? <==> !IsValidName(props.name)
      ensures r.Failure? ==> r.error == PlainErr(HERO_INVALID_NAME)
      ensures r.Success? ==>
                fresh(r.value)
                && r.value.ToSnapshot() == HeroSnapshot(props.heroId, SanitizeName(props.name), 1, true, now)
                && r.value.events == [HeroCreated(stamp, props.heroId, SanitizeName(props.name))]
    {
      var checked := AssertValidName(props.name);
      if checked.Failure? {
        return Failure(checked.error);
      }
      var hero := new Hero(HeroSnapshot(props.heroId, checked.value, 1, true, now));
      hero.Emit(HeroCreated(stamp, hero.heroId, hero.name));
      return Success(hero);
    }

    method Rename(newName: string, stamp: EventStamp) returns (err: Option<Exception>)
      modifies this
      ensures err.Some? <==> !IsValidName(newName)
      ensures err.Some? ==> err.value == PlainErr(HERO_INVALID_NAME)
      ensures power == old(power) && alive == old(alive)
      ensures err.Some? ==> name == old(name) && events == old(events)
      ensures err.None? ==> var sanitized := SanitizeName(newName);
        if sanitized == old(name) then name == old(name) && events == old(events)
        else name == sanitized && events == old(events) + [HeroRenamed(stamp, heroId, sanitized)]
    {
      var checked := AssertValidName(newName);
      if checked.Failure? {
        return Some(checked.error);
      }
      err := None;
      if checked.value == name {
        return;
      }
      name := checked.value;
      Emit(HeroRenamed(stamp, heroId, checked.value));
    }

    method LevelUp(stamp: EventStamp)
      modifies this
      ensures power == old(power) + 1
      ensures name == old(name) && alive == old(alive)
      ensures events == old(events) + [HeroLeveledUp(stamp, heroId, power)]
    {
      power := power + 1;
      Emit(HeroLeveledUp(stamp, heroId, power));
    }

    method Emit(event: DomainEvent)
      modifies this`events
      ensures events == old(events) + [event]
    {
      events := events + [event];
    }

    /** Hands back the queued events in emission order and empties the queue. */
    method PullEvents() returns (out: seq<DomainEvent>)
      modifies this`events
      ensures out == old(events) && events == []
    {
      out := events;
      events := [];
    }
  }
}
