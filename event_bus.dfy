/** The in-process event bus: a map from event name to an insertion-ordered
    set of handlers, with the reserved name "*" for handlers of every event.

    Handlers are identified by `HandlerId`; what a handler does when it is
    called is left to its owner, and `Publish` reports which handler received
    which event, in call order. Every JavaScript `Set` the bus ever created is
    kept in `sets` under a number, because an unsubscribe closure keeps its own
    set alive after the bus has dropped it. */
module Bus {
  import opened DomainEvents

  const WILDCARD := "*"

  /** A handler: the closure an event log registers on `attach` (one per
      call), or any other listener. */
  datatype HandlerId = LogHandler(log: nat, generation: nat) | Listener(n: nat)

  /** What an unsubscribe closure captures: the set, the name it was
      registered under and the handler. */
  datatype Subscription = Subscription(setId: nat, eventName: string, handler: HandlerId)

  datatype BusState = BusState(handlers: map<string, nat>, sets: map<nat, seq<HandlerId>>, nextSetId: nat)

  datatype Delivery = Delivery(handler: HandlerId, event: DomainEvent)

  predicate NoDuplicates<T(==)>(s: seq<T>)
  {
    forall i, j :: 0 <= i < j < |s| ==> s[i] != s[j]
  }

  /** Every registered name points at a live set of its own; sets hold no
      duplicates. */
  predicate Valid(b: BusState)
  {
    (forall n :: n in b.handlers ==> b.handlers[n] in b.sets)
    && (forall n, m :: n in b.handlers && m in b.handlers && n != m ==> b.handlers[n] != b.handlers[m])
    && (forall k :: k in b.sets ==> k < b.nextSetId && NoDuplicates(b.sets[k]))
  }

  const EmptyBus := BusState(map[], map[], 0)

  /** The handlers registered under exactly `name`, in insertion order. */
  function Listeners(b: BusState, name: string): seq<HandlerId>
    requires Valid(b)
  {
    if name in b.handlers then b.sets[b.handlers[name]] else []
  }

  /** `Set.prototype.add`: appended when new, otherwise left in place. */
  function Added(s: seq<HandlerId>, h: HandlerId): (r: seq<HandlerId>)
    ensures h in r
    ensures forall x :: x in r <==> x in s || x == h
    ensures NoDuplicates(s) ==> NoDuplicates(r)
  {
    if h in s then s else s + [h]
  }

  /** `Set.prototype.delete`. */
  function Removed(s: seq<HandlerId>, h: HandlerId): (r: seq<HandlerId>)
    ensures forall x :: x in r <==> x in s && x != h
    ensures |r| <= |s|
    ensures NoDuplicates(s) ==> NoDuplicates(r)
  {
    if s == [] then []
    else if s[0] == h then Removed(s[1..], h)
    else
      var rest := Removed(s[1..], h);
      assert NoDuplicates(s) ==> s[0] !in s[1..];
      [s[0]] + rest
  }

  /** The set `subscribe` adds to: the current one, or a new one. */
  function TargetSet(b: BusState, name: string): nat
  {
    if name in b.handlers then b.handlers[name] else b.nextSetId
  }

  /** `subscribe(name, handler)` and the subscription its closure captures. */
  function Subscribed(b: BusState, name: string, h: HandlerId): BusState
    requires Valid(b)
  {
    if name in b.handlers then
      var k := b.handlers[name];
      b.(sets := b.sets[k := Added(b.sets[k], h)])
    else
      b.(handlers := b.handlers[name := b.nextSetId],
         sets := b.sets[b.nextSetId := [h]],
         nextSetId := b.nextSetId + 1)
  }

  /** Running an unsubscribe closure: delete the handler from the captured
      set, then, if that set is empty, delete whatever is registered under
      the captured name. */
  function Unsubscribed(b: BusState, sub: Subscription): BusState
    requires sub.setId in b.sets
  {
    var rest := Removed(b.sets[sub.setId], sub.handler);
    b.(sets := b.sets[sub.setId := rest],
       handlers := if |rest| == 0 then b.handlers - {sub.eventName} else b.handlers)
  }

  lemma SubscribedValid(b: BusState, name: string, h: HandlerId)
    requires Valid(b)
    ensures Valid(Subscribed(b, name, h))
    ensures TargetSet(b, name) in Subscribed(b, name, h).sets
  {
  }

  lemma UnsubscribedValid(b: BusState, sub: Subscription)
    requires Valid(b) && sub.setId in b.sets
    ensures Valid(Unsubscribed(b, sub))
    ensures Unsubscribed(b, sub).sets.Keys == b.sets.Keys
  {
  }

  /** After `subscribe`, the handler is listed under the name, once, after
      those already there; no other name changes. */
  lemma SubscribeRegisters(b: BusState, name: string, h: HandlerId, other: string)
    requires Valid(b)
    ensures var b' := Subscribed(b, name, h);
      Valid(b')
      && Listeners(b', name) == Added(Listeners(b, name), h)
      && (other != name ==> Listeners(b', other) == Listeners(b, other))
  {
    SubscribedValid(b, name, h);
  }

  /** Subscribing the same handler twice to the same name is one registration. */
  lemma SubscribeTwiceIsOnce(b: BusState, name: string, h: HandlerId)
    requires Valid(b)
    ensures var once := Subscribed(b, name, h);
      Valid(once) && Subscribed(once, name, h) == once
  {
    SubscribedValid(b, name, h);
  }

  /** Running the same closure twice in a row: the second run changes nothing. */
  lemma UnsubscribeTwiceIsOnce(b: BusState, sub: Subscription)
    requires Valid(b) && sub.setId in b.sets
    ensures var once := Unsubscribed(b, sub);
      sub.setId in once.sets && Unsubscribed(once, sub) == once
  {
    var rest := Removed(b.sets[sub.setId], sub.handler);
    RemovedAbsent(rest, sub.handler);
  }

  lemma RemovedAbsent(s: seq<HandlerId>, h: HandlerId)
    requires h !in s
    ensures Removed(s, h) == s
  {
    if s != [] {
      RemovedAbsent(s[1..], h);
    }
  }

  lemma RemovedAdded(s: seq<HandlerId>, h: HandlerId)
    requires h !in s
    ensures Removed(Added(s, h), h) == s
  {
    if s == [] {
    } else {
      assert Added(s, h)[1..] == Added(s[1..], h);
      RemovedAdded(s[1..], h);
    }
  }

  /** Subscribing a new handler and running its closure restores every
      name's listeners; a name that had none is unregistered again. */
  lemma SubscribeThenUnsubscribe(b: BusState, name: string, h: HandlerId, other: string)
    requires Valid(b) && h !in Listeners(b, name)
    ensures var b1 := Subscribed(b, name, h);
      var sub := Subscription(TargetSet(b, name), name, h);
      sub.setId in b1.sets
      && var b2 := Unsubscribed(b1, sub);
      Valid(b2)
      && Listeners(b2, other) == Listeners(b, other)
      && (name in b2.handlers <==> Listeners(b, name) != [])
  {
    SubscribedValid(b, name, h);
    var b1 := Subscribed(b, name, h);
    var sub := Subscription(TargetSet(b, name), name, h);
    UnsubscribedValid(b1, sub);
    RemovedAdded(Listeners(b, name), h);
    if name in b.handlers && b.sets[b.handlers[name]] == [] {
      assert Listeners(b, name) == [];
    }
  }

  /** An unsubscribe closure outlives its set: a stale closure run after a
      later subscriber created a fresh set under the same name unregisters
      that subscriber too. */
  lemma StaleUnsubscribeDropsLaterSubscriber(b: BusState, name: string, h1: HandlerId, h2: HandlerId)
    requires Valid(b) && Listeners(b, name) == []
    ensures var b1 := Subscribed(b, name, h1);
      var stale := Subscription(TargetSet(b, name), name, h1);
      stale.setId in b1.sets
      && var b2 := Unsubscribed(b1, stale);
      var b3 := Subscribed(b2, name, h2);
      Valid(b3) && Listeners(b3, name) == [h2]
      && stale.setId in b3.sets
      && Valid(Unsubscribed(b3, stale))
      && Listeners(Unsubscribed(b3, stale), name) == []
  {
    SubscribedValid(b, name, h1);
    var b1 := Subscribed(b, name, h1);
    var stale := Subscription(TargetSet(b, name), name, h1);
    UnsubscribedValid(b1, stale);
    var b2 := Unsubscribed(b1, stale);
    assert b1.sets[stale.setId] == [h1];
    assert name !in b2.handlers;
    SubscribedValid(b2, name, h2);
    var b3 := Subscribed(b2, name, h2);
    UnsubscribedValid(b3, stale);
    assert b3.sets[stale.setId] == [];
  }

  /** The listeners one event reaches: exact-name handlers, then wildcard
      handlers, taken before the first call. */
  function Fanout(b: BusState, e: DomainEvent): seq<Delivery>
    requires Valid(b)
  {
    var listeners := Listeners(b, e.name) + Listeners(b, WILDCARD);
    seq(|listeners|, i requires 0 <= i < |listeners| => Delivery(listeners[i], e))
  }

  /** Every delivery `publish(events)` makes when no handler throws, in order. */
  function Deliveries(b: BusState, events: seq<DomainEvent>): seq<Delivery>
    requires Valid(b)
  {
    if |events| == 0 then [] else Fanout(b, events[0]) + Deliveries(b, events[1..])
  }

  /** Publishing is event by event: the deliveries of a concatenation are
      those of each part in turn. */
  lemma {:induction false} DeliveriesConcat(b: BusState, xs: seq<DomainEvent>, ys: seq<DomainEvent>)
    requires Valid(b)
    ensures Deliveries(b, xs + ys) == Deliveries(b, xs) + Deliveries(b, ys)
  {
    if |xs| == 0 {
      assert xs + ys == ys;
    } else {
      assert (xs + ys)[1..] == xs[1..] + ys;
      DeliveriesConcat(b, xs[1..], ys);
    }
  }

  /** A handler registered under an event's name and under "*" receives
      that event twice: once as an exact-name listener, then once more as a
      wildcard listener. */
  lemma CalledTwiceWhenAlsoWildcard(b: BusState, e: DomainEvent, h: HandlerId)
    requires Valid(b) && h in Listeners(b, e.name) && h in Listeners(b, WILDCARD)
    ensures exists i, j :: 0 <= i < |Listeners(b, e.name)| <= j < |Fanout(b, e)|
                           && Fanout(b, e)[i] == Delivery(h, e) && Fanout(b, e)[j] == Delivery(h, e)
  {
    var exact := Listeners(b, e.name);
    assert |Fanout(b, e)| == |exact| + |Listeners(b, WILDCARD)|;
    var i :| 0 <= i < |exact| && exact[i] == h;
    var w :| 0 <= w < |Listeners(b, WILDCARD)| && Listeners(b, WILDCARD)[w] == h;
    assert Fanout(b, e)[i] == Delivery(h, e);
    assert Fanout(b, e)[|exact| + w] == Delivery(h, e);
  }

  /** The deliveries still to come from event `i` on: its fanout, then the rest. */
  lemma DeliveriesFrom(b: BusState, events: seq<DomainEvent>, i: nat)
    requires Valid(b) && i < |events|
    ensures Deliveries(b, events[i..]) == Fanout(b, events[i]) + Deliveries(b, events[i + 1..])
  {
    assert events[i..][1..] == events[i + 1..];
  }

  lemma PrefixOfConcat<T>(a: seq<T>, p: seq<T>, f: seq<T>, rest: seq<T>)
    requires p <= f
    ensures a + p <= a + f + rest
  {
    assert (a + f + rest)[..|a| + |p|] == a + p;
  }

  predicate NoneFail(ds: seq<Delivery>, fails: (HandlerId, DomainEvent) -> bool)
  {
    forall k :: 0 <= k < |ds| ==> !fails(ds[k].handler, ds[k].event)
  }

  lemma NoneFailConcat(xs: seq<Delivery>, ys: seq<Delivery>, fails: (HandlerId, DomainEvent) -> bool)
    requires NoneFail(xs, fails) && NoneFail(ys, fails)
    ensures NoneFail(xs + ys, fails)
  {
    forall k | 0 <= k < |xs + ys| ensures !fails((xs + ys)[k].handler, (xs + ys)[k].event) {
      if k < |xs| {
        assert (xs + ys)[k] == xs[k];
      } else {
        assert (xs + ys)[k] == ys[k - |xs|];
      }
    }
  }

  /** A clean run `done` followed by a run `part` of the next fanout that
      failed on its last call is a failing prefix of all deliveries. */
  lemma FailedPrefix(done: seq<Delivery>, part: seq<Delivery>, fan: seq<Delivery>, rest: seq<Delivery>,
                     fails: (HandlerId, DomainEvent) -> bool)
    requires NoneFail(done, fails)
    requires 0 < |part| <= |fan| && part == fan[..|part|]
    requires NoneFail(part[..|part| - 1], fails)
    requires fails(part[|part| - 1].handler, part[|part| - 1].event)
    ensures var t := done + part; var all := done + (fan + rest);
      0 < |t| <= |all| && t == all[..|t|]
      && NoneFail(t[..|t| - 1], fails)
      && fails(t[|t| - 1].handler, t[|t| - 1].event)
  {
    var t := done + part;
    assert t[..|t| - 1] == done + part[..|part| - 1];
    NoneFailConcat(done, part[..|part| - 1], fails);
    assert (done + (fan + rest))[..|t|] == t;
  }

  /** The calls `publish` makes of the deliveries `ds`: all of them, or
      those up to and including the first that throws. */
  function PublishedTrace(ds: seq<Delivery>, fails: (HandlerId, DomainEvent) -> bool): (r: seq<Delivery>)
    decreases ds
    ensures r <= ds
    ensures r == ds || (0 < |r| && fails(r[|r| - 1].handler, r[|r| - 1].event))
    ensures NoneFail(ds, fails) ==> r == ds
  {
    if ds == [] then []
    else if fails(ds[0].handler, ds[0].event) then [ds[0]]
    else [ds[0]] + PublishedTrace(ds[1..], fails)
  }

  /** What `Publish` promises pins its trace down: it is `PublishedTrace`,
      and it threw exactly when some delivery fails. */
  lemma {:induction false} PublishedTraceOf(ds: seq<Delivery>, trace: seq<Delivery>, threw: bool,
                                            fails: (HandlerId, DomainEvent) -> bool)
    requires !threw ==> trace == ds && NoneFail(ds, fails)
    requires threw ==> 0 < |trace| <= |ds| && trace == ds[..|trace|]
                       && NoneFail(trace[..|trace| - 1], fails)
                       && fails(trace[|trace| - 1].handler, trace[|trace| - 1].event)
    ensures trace == PublishedTrace(ds, fails)
    ensures threw <==> !NoneFail(ds, fails)
    decreases ds
  {
    if ds == [] {
    } else if !threw {
      assert NoneFail(ds[1..], fails) by {
        forall k | 0 <= k < |ds[1..]| ensures !fails(ds[1..][k].handler, ds[1..][k].event) {
          assert ds[1..][k] == ds[k + 1];
        }
      }
      PublishedTraceOf(ds[1..], trace[1..], false, fails);
    } else if fails(ds[0].handler, ds[0].event) {
    } else {
      var t := trace[1..];
      assert t[..|t| - 1] == trace[..|trace| - 1][1..];
      assert t == ds[1..][..|t|];
      PublishedTraceOf(ds[1..], t, true, fails);
      assert trace == [ds[0]] + t;
    }
  }

  class EventBus {
    var handlers: map<string, nat>
    var sets: map<nat, seq<HandlerId>>
    var nextSetId: nat

    function State(): BusState
      reads this
    {
      BusState(handlers, sets, nextSetId)
    }

    constructor ()
      ensures State() == EmptyBus
    {
      handlers := map[];
      sets := map[];
      nextSetId := 0;
    }

    /** `subscribe`: returns what the unsubscribe closure captures. */
    method Subscribe(name: string, h: HandlerId) returns (sub: Subscription)
      requires Valid(State())
      modifies this
      ensures State() == Subscribed(old(State()), name, h)
      ensures sub == Subscription(TargetSet(old(State()), name), name, h)
      ensures Valid(State()) && sub.setId in sets
    {
      SubscribedValid(State(), name, h);
      if name in handlers {
        var k := handlers[name];
        sets := sets[k := Added(sets[k], h)];
        sub := Subscription(k, name, h);
      } else {
        var k := nextSetId;
        sets := sets[k := [h]];
        handlers := handlers[name := k];
        nextSetId := nextSetId + 1;
        sub := Subscription(k, name, h);
      }
    }

    /** `subscribeToAll`: `subscribe` under the wildcard name. */
    method SubscribeToAll(h: HandlerId) returns (sub: Subscription)
      requires Valid(State())
      modifies this
      ensures State() == Subscribed(old(State()), WILDCARD, h)
      ensures sub == Subscription(TargetSet(old(State()), WILDCARD), WILDCARD, h)
      ensures Valid(State()) && sub.setId in sets
    {
      sub := Subscribe(WILDCARD, h);
    }

    /** Runs an unsubscribe closure of this bus. */
    method Unsubscribe(sub: Subscription)
      requires Valid(State()) && sub.setId in sets
      modifies this
      ensures State() == Unsubscribed(old(State()), sub)
      ensures Valid(State()) && sets.Keys == old(sets.Keys)
    {
      UnsubscribedValid(State(), sub);
      var subscribers := Removed(sets[sub.setId], sub.handler);
      sets := sets[sub.setId := subscribers];
      if |subscribers| == 0 {
        handlers := handlers - {sub.eventName};
      }
    }

    /** `publish`: calls the listeners of each event in turn, awaiting each
        one. `fails` says which calls throw; the first throw ends `publish`
        with the remaining calls not made. */
    method Publish(events: seq<DomainEvent>, fails: (HandlerId, DomainEvent) -> bool)
      returns (trace: seq<Delivery>, threw: bool)
      requires Valid(State())
      ensures var ds := Deliveries(State(), events);
        (!threw ==> trace == ds && NoneFail(ds, fails))
        && (threw ==> 0 < |trace| <= |ds| && trace == ds[..|trace|]
                      && NoneFail(trace[..|trace| - 1], fails)
                      && fails(trace[|trace| - 1].handler, trace[|trace| - 1].event))
    {
      trace := [];
      threw := false;
      var i := 0;
      assert events[0..] == events;
      while i < |events|
        invariant 0 <= i <= |events|
        invariant Deliveries(State(), events) == trace + Deliveries(State(), events[i..])
        invariant NoneFail(trace, fails)
      {
        var part, partThrew := Notify(events[i], fails);
        DeliveriesFrom(State(), events, i);
        if partThrew {
          FailedPrefix(trace, part, Fanout(State(), events[i]), Deliveries(State(), events[i + 1..]), fails);
          trace := trace + part;
          threw := true;
          return;
        }
        NoneFailConcat(trace, part, fails);
        trace := trace + part;
        i := i + 1;
      }
    }

    /** The inner loop of `publish`: one event to its listeners, snapshotted
        before the first call. */
    method Notify(event: DomainEvent, fails: (HandlerId, DomainEvent) -> bool)
      returns (part: seq<Delivery>, threw: bool)
      requires Valid(State())
      ensures var ds := Fanout(State(), event);
        (!threw ==> part == ds && NoneFail(ds, fails))
        && (threw ==> 0 < |part| <= |ds| && part == ds[..|part|]
                      && NoneFail(part[..|part| - 1], fails)
                      && fails(part[|part| - 1].handler, part[|part| - 1].event))
    {
      var listeners := Listeners(State(), event.name) + Listeners(State(), WILDCARD);
      part := [];
      threw := false;
      var j := 0;
      while j < |listeners|
        invariant 0 <= j <= |listeners|
        invariant part == Fanout(State(), event)[..j]
        invariant NoneFail(part, fails)
      {
        var d := Delivery(listeners[j], event);
        part := part + [d];
        if fails(d.handler, d.event) {
          threw := true;
          return;
        }
        j := j + 1;
      }
    }
  }
}
