/** `PrismaUnitOfWork`: a transaction whose client the repositories reach
    through `getClient`, committed or rolled back with the work's outcome,
    and followed by publishing the events the work collected. */
module UnitOfWork {
  import opened Wrappers
  import opened Errors
  import opened DomainEvents
  import opened Storage
  import opened Bus

  /** What a unit of work's body ended with: a result and the events it
      pulled off its aggregates, or an exception. */
  datatype Work<T> = WorkDone(result: T, events: Option<seq<DomainEvent>>) | WorkThrew(error: Exception)

  /** What a work did inside its transaction: the transaction store it left
      and how its body ended. */
  datatype TxWork<T> = TxWork(tx: Store, work: Work<T>)

  /** How `runInTransaction` ended: the work's result; the work's exception
      (the transaction was rolled back); or the exception a handler threw
      while the collected events were published after the commit. */
  datatype TxOutcome<T> = Returned(value: T) | Threw(error: Exception) | HandlerThrew(at: Delivery)

  /** `collectedEvents = events ?? []`. */
  function CollectedEvents<T>(w: Work<T>): seq<DomainEvent>
  {
    if w.WorkDone? && w.events.Some? then w.events.value else []
  }

  datatype Settlement<T> = Settlement(store: Store, outcome: TxOutcome<T>, trace: seq<Delivery>)

  /** The store, the outcome and the handler calls of a transaction that
      started from `committed` and left the transaction store `tx`. */
  function Settle<T(==)>(committed: Store, tx: Store, w: Work<T>, b: BusState,
                         fails: (HandlerId, DomainEvent) -> bool): (r: Settlement<T>)
    requires Valid(b)
    ensures w.WorkThrew? ==> r.store == committed && r.outcome == Threw(w.error) && r.trace == []
    ensures w.WorkDone? ==> r.store == tx && !r.outcome.Threw?
    ensures r.trace <= Deliveries(b, CollectedEvents(w))
    ensures r.outcome.HandlerThrew? <==> w.WorkDone? && !NoneFail(Deliveries(b, CollectedEvents(w)), fails)
    ensures r.outcome.HandlerThrew? ==> 0 < |r.trace| && r.outcome.at == r.trace[|r.trace| - 1]
    ensures r.outcome.Returned? ==>
      w.WorkDone? && r.outcome.value == w.result && r.trace == Deliveries(b, CollectedEvents(w))
  {
    match w
    case WorkThrew(e) => Settlement(committed, Threw(e), [])
    case WorkDone(result, _) =>
      var events := CollectedEvents(w);
      if |events| == 0 then Settlement(tx, Returned(result), [])
      else
        var ds := Deliveries(b, events);
        var trace := PublishedTrace(ds, fails);
        if NoneFail(ds, fails) then Settlement(tx, Returned(result), trace)
        else Settlement(tx, HandlerThrew(trace[|trace| - 1]), trace)
  }

  /** A work that collected no events publishes nothing, whatever the
      subscribers. */
  lemma NoEventsNoDeliveries<T>(committed: Store, tx: Store, result: T, events: Option<seq<DomainEvent>>,
                                   b: BusState, fails: (HandlerId, DomainEvent) -> bool)
    requires Valid(b)
    requires events.None? || events == Some([])
    ensures Settle(committed, tx, WorkDone(result, events), b, fails) == Settlement(tx, Returned(result), [])
  {
  }

  /** `runInTransaction` of a work, as a whole. */
  function RunInTransaction<T(==)>(committed: Store, w: TxWork<T>, b: BusState,
                                   fails: (HandlerId, DomainEvent) -> bool): Settlement<T>
    requires Valid(b)
  {
    Settle(committed, w.tx, w.work, b, fails)
  }

  class PrismaUnitOfWork {
    /** The data outside any transaction. */
    var committed: Store
    /** The transaction client held in the async-local storage, if any. */
    var ambient: Option<Store>
    const bus: EventBus

    constructor(store: Store, bus: EventBus)
      ensures committed == store && ambient == None && this.bus == bus
    {
      committed := store;
      ambient := None;
      this.bus := bus;
    }

    /** `getClient`: the transaction client when one is active, the root
        client otherwise. */
    function Client(): Store
      reads this
    {
      if ambient.Some? then ambient.value else committed
    }

    /** A write through `getClient()`: into the transaction when one is
        active, straight into the committed data otherwise. */
    method Write(s: Store)
      modifies this
      ensures Client() == s
      ensures old(ambient).Some? ==> ambient == Some(s) && committed == old(committed)
      ensures old(ambient).None? ==> ambient == None && committed == s
    {
      if ambient.Some? {
        ambient := Some(s);
      } else {
        committed := s;
      }
    }

    /** The start of `runInTransaction`: a transaction over the committed
        data becomes the ambient client. */
    method Begin()
      requires ambient.None?
      modifies this
      ensures ambient == Some(committed) && committed == old(committed)
    {
      ambient := Some(committed);
    }

    /** The end of `runInTransaction`: commit or roll back with the work's
        outcome, leave the transaction scope, then publish the collected
        events when there are any. */
    method Complete<T(==)>(w: Work<T>, fails: (HandlerId, DomainEvent) -> bool)
      returns (outcome: TxOutcome<T>, trace: seq<Delivery>)
      requires ambient.Some? && Valid(bus.State())
      modifies this
      ensures ambient == None
      ensures Settlement(committed, outcome, trace) == Settle(old(committed), old(ambient.value), w, bus.State(), fails)
    {
      if w.WorkThrew? {
        ambient := None;
        return Threw(w.error), [];
      }
      committed := ambient.value;
      ambient := None;
      var collected := CollectedEvents(w);
      trace := [];
      outcome := Returned(w.result);
      if |collected| > 0 {
        var threw;
        trace, threw := bus.Publish(collected, fails);
        PublishedTraceOf(Deliveries(bus.State(), collected), trace, threw, fails);
        if threw {
          outcome := HandlerThrew(trace[|trace| - 1]);
        }
      }
    }
  }
}
