/** The in-memory event log: a bounded, newest-first list of the events the
    bus has published, kept while the log is attached to a bus. */
module EventLog {
  import opened Wrappers
  import opened Js
  import opened Errors
  import opened DomainEvents
  import opened Dates
  import opened Bus

  datatype LoggedEvent = LoggedEvent(id: string, name: string, payload: JsValue, occurredAt: string,
                                     aggregateId: Option<string>)

  /** What an attached log holds to detach itself: the bus and what the
      unsubscribe closure captured. */
  datatype Attachment = Attachment(bus: EventBus, sub: Subscription)

  const DEFAULT_MAX_SIZE := 100
  const DEFAULT_LIST_LIMIT := 20

  /** `payload ?? {}`; the JSON round trip copies the JSON values events carry. */
  function PlainPayload(payload: JsValue): (r: JsValue)
    ensures r.Obj? || !IsNullish(r)
    ensures !IsNullish(payload) ==> r == payload
  {
    if IsNullish(payload) then Obj(map[]) else payload
  }

  /** `extractAggregateId`: the payload's `heroId` when it is a string. */
  function ExtractAggregateId(payload: JsValue): (r: Option<string>)
    ensures r.Some? <==> HasOwn(payload, "heroId") && payload.fields["heroId"].Str?
    ensures r.Some? ==> r.value == payload.fields["heroId"].s
  {
    if Truthy(payload) && (payload.Obj? || payload.DateObj?) && HasOwn(payload, "heroId") then
      var heroId := Get(payload, "heroId");
      if heroId.Str? then Some(heroId.s) else None
    else None
  }

  /** The entry `append` builds; `toISOString` throws for a time outside the
      representable range. */
  function ToLogged(e: DomainEvent): (r: Result<LoggedEvent, Exception>)
    ensures r.Failure? <==> !InTimeRange(e.occurredAt.epochMillis)
    ensures r.Success? ==> r.value.id == e.id && r.value.name == e.name
                           && r.value.payload == PlainPayload(e.payload)
                           && r.value.aggregateId == ExtractAggregateId(PlainPayload(e.payload))
  {
    var iso := ToIsoString(ValidDate(e.occurredAt));
    if iso.Failure? then Failure(iso.error)
    else
      var plain := PlainPayload(e.payload);
      Success(LoggedEvent(e.id, e.name, plain, iso.value, ExtractAggregateId(plain)))
  }

  /** Where `Array.prototype.slice(0, end)` stops on a list of length `len`. */
  function SliceEnd(len: nat, end: int): (r: nat)
    ensures r <= len
    ensures 0 <= end ==> r == if end < len then end else len
  {
    if end < 0 then (if len + end < 0 then 0 else len + end)
    else if end < len then end else len
  }

  /** `[entry, ...entries].slice(0, maxSize)`. */
  function Prepended(entries: seq<LoggedEvent>, entry: LoggedEvent, maxSize: int): seq<LoggedEvent>
  {
    ([entry] + entries)[..SliceEnd(|entries| + 1, maxSize)]
  }

  /** `entries.slice(0, limit)`. */
  function Listed(entries: seq<LoggedEvent>, limit: int): seq<LoggedEvent>
  {
    entries[..SliceEnd(|entries|, limit)]
  }

  /** The log is bounded and newest first: with a positive `maxSize` the new
      entry comes first, followed by the newest of the old entries, and the
      oldest fall off once `maxSize` is reached. */
  lemma PrependedBounded(entries: seq<LoggedEvent>, entry: LoggedEvent, maxSize: int)
    requires maxSize > 0
    ensures var r := Prepended(entries, entry, maxSize);
      |r| == (if |entries| + 1 < maxSize then |entries| + 1 else maxSize)
      && r[0] == entry && r[1..] == entries[..|r| - 1]
  {
  }

  /** `list(limit)` for a non-negative limit: the first `min(limit, size)`
      entries, newest first. */
  lemma ListedTakesNewest(entries: seq<LoggedEvent>, limit: int)
    requires limit >= 0
    ensures var r := Listed(entries, limit);
      |r| == (if limit < |entries| then limit else |entries|)
      && r == entries[..|r|]
  {
  }

  /** A negative limit counts from the end, as `slice` does: all but the
      last `-limit` entries. */
  lemma ListedNegative(entries: seq<LoggedEvent>, limit: int)
    requires limit < 0
    ensures var r := Listed(entries, limit);
      |r| == (if |entries| + limit < 0 then 0 else |entries| + limit) && r == entries[..|r|]
  {
  }

  /** The entries a log holds after appending `events` one by one, when no
      append throws. */
  function AppendAll(entries: seq<LoggedEvent>, events: seq<DomainEvent>, maxSize: int): seq<LoggedEvent>
    requires forall i :: 0 <= i < |events| ==> InTimeRange(events[i].occurredAt.epochMillis)
    decreases events
  {
    if events == [] then entries
    else AppendAll(Prepended(entries, ToLogged(events[0]).value, maxSize), events[1..], maxSize)
  }

  predicate AddressedTo(d: Delivery, log: nat)
  {
    d.handler.LogHandler? && d.handler.log == log
  }

  /** What running the log's handlers for `ds` in order does: the entries
      after each call addressed to this log, stopping at the first call that
      throws. */
  function Logged(entries: seq<LoggedEvent>, ds: seq<Delivery>, log: nat, maxSize: int)
    : (seq<LoggedEvent>, Option<Exception>)
    decreases ds
  {
    if ds == [] then (entries, None)
    else if !AddressedTo(ds[0], log) then Logged(entries, ds[1..], log, maxSize)
    else
      var entry := ToLogged(ds[0].event);
      if entry.Failure? then (entries, Some(entry.error))
      else Logged(Prepended(entries, entry.value, maxSize), ds[1..], log, maxSize)
  }

  /** Whether the log's handler throws for a delivery: only when the event's
      time cannot be rendered. */
  predicate LogHandlerFails(log: nat, h: HandlerId, e: DomainEvent)
  {
    h.LogHandler? && h.log == log && !InTimeRange(e.occurredAt.epochMillis)
  }

  lemma {:induction false} LoggedConcat(entries: seq<LoggedEvent>, xs: seq<Delivery>, ys: seq<Delivery>,
                                         log: nat, maxSize: int)
    requires Logged(entries, xs, log, maxSize).1.None?
    decreases xs
    ensures Logged(entries, xs + ys, log, maxSize)
            == Logged(Logged(entries, xs, log, maxSize).0, ys, log, maxSize)
  {
    if xs == [] {
      assert xs + ys == ys;
    } else {
      assert (xs + ys)[0] == xs[0];
      assert (xs + ys)[1..] == xs[1..] + ys;
      if !AddressedTo(xs[0], log) {
        LoggedConcat(entries, xs[1..], ys, log, maxSize);
      } else {
        var entry := ToLogged(xs[0].event);
        LoggedConcat(Prepended(entries, entry.value, maxSize), xs[1..], ys, log, maxSize);
      }
    }
  }

  /** The log's handler is registered once, under "*", and nowhere else. */
  predicate AttachedOnlyToAll(b: BusState, log: nat)
    requires Valid(b)
  {
    |Addressed(Listeners(b, WILDCARD), log)| == 1
    && forall n :: n in b.handlers && n != WILDCARD ==> Addressed(b.sets[b.handlers[n]], log) == []
  }

  /** The handlers in `hs` that belong to this log. */
  function Addressed(hs: seq<HandlerId>, log: nat): seq<HandlerId>
  {
    if hs == [] then []
    else if hs[0].LogHandler? && hs[0].log == log then [hs[0]] + Addressed(hs[1..], log)
    else Addressed(hs[1..], log)
  }

  lemma {:induction false} LoggedOfListeners(entries: seq<LoggedEvent>, hs: seq<HandlerId>, e: DomainEvent,
                                              log: nat, maxSize: int)
    requires InTimeRange(e.occurredAt.epochMillis)
    requires |Addressed(hs, log)| <= 1
    decreases hs
    ensures var ds := seq(|hs|, i requires 0 <= i < |hs| => Delivery(hs[i], e));
      Logged(entries, ds, log, maxSize)
      == (if |Addressed(hs, log)| == 1 then Prepended(entries, ToLogged(e).value, maxSize) else entries, None)
  {
    var ds := seq(|hs|, i requires 0 <= i < |hs| => Delivery(hs[i], e));
    if hs != [] {
      var tail := seq(|hs| - 1, i requires 0 <= i < |hs| - 1 => Delivery(hs[1..][i], e));
      assert ds[1..] == tail;
      if hs[0].LogHandler? && hs[0].log == log {
        assert Addressed(hs[1..], log) == [];
        assert Logged(entries, ds, log, maxSize) == Logged(Prepended(entries, ToLogged(e).value, maxSize), tail, log, maxSize);
        LoggedOfListeners(Prepended(entries, ToLogged(e).value, maxSize), hs[1..], e, log, maxSize);
      } else {
        assert Logged(entries, ds, log, maxSize) == Logged(entries, tail, log, maxSize);
        LoggedOfListeners(entries, hs[1..], e, log, maxSize);
      }
    }
  }

  /** One event's fanout appends it exactly once to a log attached only to
      "*", unless the event is itself named "*". */
  lemma LoggedOfFanout(entries: seq<LoggedEvent>, b: BusState, e: DomainEvent, log: nat, maxSize: int)
    requires Valid(b) && AttachedOnlyToAll(b, log)
    requires e.name != WILDCARD && InTimeRange(e.occurredAt.epochMillis)
    ensures Logged(entries, Fanout(b, e), log, maxSize) == (Prepended(entries, ToLogged(e).value, maxSize), None)
  {
    var exact := Listeners(b, e.name);
    var all := Listeners(b, WILDCARD);
    assert Addressed(exact, log) == [];
    var dx := seq(|exact|, i requires 0 <= i < |exact| => Delivery(exact[i], e));
    var dw := seq(|all|, i requires 0 <= i < |all| => Delivery(all[i], e));
    assert Fanout(b, e) == dx + dw;
    LoggedOfListeners(entries, exact, e, log, maxSize);
    LoggedConcat(entries, dx, dw, log, maxSize);
    LoggedOfListeners(entries, all, e, log, maxSize);
  }

  /** While the log is attached only to "*", publishing appends every event,
      in publishing order, and no call throws. */
  lemma {:induction false} LogRecordsEveryEvent(entries: seq<LoggedEvent>, b: BusState, events: seq<DomainEvent>,
                                                 log: nat, maxSize: int)
    requires Valid(b) && AttachedOnlyToAll(b, log)
    requires forall i :: 0 <= i < |events| ==> events[i].name != WILDCARD
    requires forall i :: 0 <= i < |events| ==> InTimeRange(events[i].occurredAt.epochMillis)
    decreases events
    ensures Logged(entries, Deliveries(b, events), log, maxSize) == (AppendAll(entries, events, maxSize), None)
  {
    if events != [] {
      LoggedOfFanout(entries, b, events[0], log, maxSize);
      LoggedConcat(entries, Fanout(b, events[0]), Deliveries(b, events[1..]), log, maxSize);
      LogRecordsEveryEvent(Prepended(entries, ToLogged(events[0]).value, maxSize), b, events[1..], log, maxSize);
    }
  }

  class InMemoryEventLog {
    /** The identity of this log's handler closures. */
    const id: nat
    const maxSize: int
    var entries: seq<LoggedEvent>
    var unsubscribe: Option<Attachment>
    /** How many handler closures `attach` has made. */
    var generation: nat

    /** The log's current handler closure. */
    function Handler(): HandlerId
      reads this
    {
      LogHandler(id, generation)
    }

    /** The attachment can still be undone on its bus. */
    predicate AttachmentLive()
      reads this, if unsubscribe.Some? then {unsubscribe.value.bus} else {}
    {
      unsubscribe.Some? ==> Valid(unsubscribe.value.bus.State()) && unsubscribe.value.sub.setId in unsubscribe.value.bus.sets
    }

    /** `new InMemoryEventLog(maxSize)`, not attached. */
    constructor (id: nat, maxSize: int := DEFAULT_MAX_SIZE)
      ensures this.id == id && this.maxSize == maxSize
      ensures entries == [] && unsubscribe.None? && generation == 0
    {
      this.id := id;
      this.maxSize := maxSize;
      entries := [];
      unsubscribe := None;
      generation := 0;
    }

    /** `new InMemoryEventLog(maxSize, bus)`: attached at once. */
    constructor Attached(id: nat, maxSize: int, bus: EventBus)
      requires Valid(bus.State())
      modifies bus
      ensures this.id == id && this.maxSize == maxSize && entries == []
      ensures bus.State() == Subscribed(old(bus.State()), WILDCARD, LogHandler(id, 0))
      ensures unsubscribe == Some(Attachment(bus, Subscription(TargetSet(old(bus.State()), WILDCARD), WILDCARD, LogHandler(id, 0))))
      ensures generation == 1 && AttachmentLive()
    {
      this.id := id;
      this.maxSize := maxSize;
      entries := [];
      generation := 1;
      new;
      var sub := bus.SubscribeToAll(LogHandler(id, 0));
      unsubscribe := Some(Attachment(bus, sub));
    }

    /** `append`: a failing `toISOString` throws before anything changes. */
    method Append(e: DomainEvent) returns (err: Option<Exception>)
      modifies this`entries
      ensures var r := ToLogged(e);
        (r.Failure? ==> err == Some(r.error) && entries == old(entries))
        && (r.Success? ==> err.None? && entries == Prepended(old(entries), r.value, maxSize))
    {
      var entry := ToLogged(e);
      if entry.Failure? {
        return Some(entry.error);
      }
      entries := ([entry.value] + entries)[..SliceEnd(|entries| + 1, maxSize)];
      err := None;
    }

    /** Runs this log's handler calls from a publish trace, in order. */
    method Receive(trace: seq<Delivery>) returns (err: Option<Exception>)
      modifies this`entries
      ensures (entries, err) == Logged(old(entries), trace, id, maxSize)
    {
      var i := 0;
      while i < |trace|
        invariant 0 <= i <= |trace|
        invariant Logged(old(entries), trace, id, maxSize) == Logged(entries, trace[i..], id, maxSize)
      {
        assert trace[i..][1..] == trace[i + 1..];
        if AddressedTo(trace[i], id) {
          err := Append(trace[i].event);
          if err.Some? {
            return;
          }
        }
        i := i + 1;
      }
      err := None;
    }

    /** `list(limit)`, leaving the log as it is. */
    method List(limit: int := DEFAULT_LIST_LIMIT) returns (r: seq<LoggedEvent>)
      ensures r == Listed(entries, limit)
      ensures 0 <= limit ==> |r| == (if limit < |entries| then limit else |entries|) && r == entries[..|r|]
    {
      r := entries[..SliceEnd(|entries|, limit)];
    }

    method Clear()
      modifies this`entries
      ensures entries == []
    {
      entries := [];
    }

    /** `attach(bus)`: drop any previous subscription, then subscribe a fresh
        handler closure to every event. */
    method Attach(bus: EventBus)
      requires Valid(bus.State()) && AttachmentLive()
      modifies this, bus, if unsubscribe.Some? then {unsubscribe.value.bus} else {}
      ensures generation == old(generation) + 1 && entries == old(entries)
      ensures var h := LogHandler(id, old(generation));
        var before := if old(unsubscribe).Some? && old(unsubscribe).value.bus == bus
                      then Unsubscribed(old(bus.State()), old(unsubscribe).value.sub) else old(bus.State());
        bus.State() == Subscribed(before, WILDCARD, h)
        && unsubscribe == Some(Attachment(bus, Subscription(TargetSet(before, WILDCARD), WILDCARD, h)))
      ensures old(unsubscribe).Some? && old(unsubscribe).value.bus != bus ==>
                old(unsubscribe).value.bus.State() == Unsubscribed(old(unsubscribe.value.bus.State()), old(unsubscribe).value.sub)
      ensures AttachmentLive()
    {
      if unsubscribe.Some? {
        unsubscribe.value.bus.Unsubscribe(unsubscribe.value.sub);
      }
      var h := LogHandler(id, generation);
      generation := generation + 1;
      var sub := bus.SubscribeToAll(h);
      unsubscribe := Some(Attachment(bus, sub));
    }

    /** `detach()`: run the unsubscribe closure if there is one, then forget it. */
    method Detach()
      requires AttachmentLive()
      modifies this`unsubscribe, if unsubscribe.Some? then {unsubscribe.value.bus} else {}
      ensures unsubscribe.None?
      ensures old(unsubscribe).Some? ==>
                old(unsubscribe).value.bus.State() == Unsubscribed(old(unsubscribe.value.bus.State()), old(unsubscribe).value.sub)
    {
      if unsubscribe.Some? {
        unsubscribe.value.bus.Unsubscribe(unsubscribe.value.sub);
      }
      unsubscribe := None;
    }
  }
}
