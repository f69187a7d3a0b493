/** The two PostgreSQL tables, the three transactions over them, and the class that runs them. */
module OrderTables {
  import opened OrderEvents

  datatype Status = Pending | Completed

  datatype OrderRow = OrderRow(
    customerId: string,
    cents: int,
    currency: string,
    sourceEventId: EventId,
    correlationId: string)

  /** Rows of `orders` by order_id and of `processed_events` by event_id. */
  datatype Tables = Tables(orders: map<OrderId, OrderRow>, events: map<EventId, Status>)

  const EMPTY := Tables(map[], map[])

  /** One more than the largest amount in cents that NUMERIC(18, 2) holds. */
  const CENTS_LIMIT := 1_000_000_000_000_000_000

  /** A positive amount rounded half up to two decimals. */
  function Cents(amount: real): int {
    (amount * 100.0 + 0.5).Floor
  }

  /** Nearest number of cents, a tie going up, and positive and small enough for the column. */
  predicate IsRoundedTo(amount: real, cents: int) {
    && cents as real - 0.5 <= amount * 100.0 < cents as real + 0.5
    && 0 < cents < CENTS_LIMIT
  }

  /**
   The amounts the column accepts. The wire contract only asks for a positive number, so an amount below half a cent
   is a valid event that can never be stored.
   */
  lemma AcceptedAmounts(amount: real)
    ensures 0 < Cents(amount) < CENTS_LIMIT <==> IsRoundedTo(amount, Cents(amount))
    ensures 0 < Cents(amount) < CENTS_LIMIT <==> 0.005 <= amount < 10_000_000_000_000_000.0 - 0.005
  {
    var x := amount * 100.0 + 0.5;
    assert x.Floor as real <= x < x.Floor as real + 1.0;
  }

  /** A TEXT column refuses the NUL character. */
  predicate IsText(s: string) {
    '\0' !in s
  }

  /** The values of this event satisfy the column types and the CHECK of the `orders` table. */
  predicate Storable(e: OrderEvent) {
    && 0 < Cents(e.amount) < CENTS_LIMIT
    && IsText(e.orderId) && IsText(e.customerId) && IsText(e.correlationId)
  }

  /** The orders row would break the primary key or UNIQUE (source_event_id). */
  predicate Collides(t: Tables, e: OrderEvent) {
    e.orderId in t.orders || exists o :: o in t.orders && t.orders[o].sourceEventId == e.eventId
  }

  function RowOf(e: OrderEvent): OrderRow {
    OrderRow(e.customerId, Cents(e.amount), e.currency, e.eventId, e.correlationId)
  }

  /** Claim and order row of a new event, still pending. */
  function Insert(t: Tables, e: OrderEvent): Tables {
    Tables(t.orders[e.orderId := RowOf(e)], t.events[e.eventId := Pending])
  }

  /** `store` of a new event breaks a constraint and rolls back. */
  predicate Refuses(t: Tables, e: OrderEvent) {
    e.eventId !in t.events && (!Storable(e) || Collides(t, e))
  }

  function StoreTx(t: Tables, e: OrderEvent): Tables {
    if e.eventId in t.events || Refuses(t, e) then t else Insert(t, e)
  }

  function MarkTx(t: Tables, id: EventId): Tables {
    if id in t.events then t.(events := t.events[id := Completed]) else t
  }

  function DiscardTx(t: Tables, id: EventId): Tables {
    Tables(map o | o in t.orders && t.orders[o].sourceEventId != id :: t.orders[o], t.events - {id})
  }

  /** A transaction whose connection may raise: it then either applied or left the tables alone. */
  function Under(f: Fault, t: Tables, t': Tables): Tables {
    if f.Raise? && !f.applied then t else t'
  }

  predicate IsCompleted(t: Tables, id: EventId) {
    id in t.events && t.events[id] == Completed
  }

  predicate IsPending(t: Tables, id: EventId) {
    id in t.events && t.events[id] == Pending
  }

  /** No row of either table belongs to the event. */
  predicate NoTrace(t: Tables, id: EventId) {
    && id !in t.events
    && forall o :: o in t.orders ==> t.orders[o].sourceEventId != id
  }

  /** Each processed_events row has exactly one order that names it, and conversely. */
  ghost predicate Matched(t: Tables) {
    && (forall o :: o in t.orders ==> t.orders[o].sourceEventId in t.events)
    && (forall id :: id in t.events ==> exists o :: o in t.orders && t.orders[o].sourceEventId == id)
    && (forall o, q :: o in t.orders && q in t.orders && t.orders[o].sourceEventId == t.orders[q].sourceEventId
                       ==> o == q)
  }

  /** Every row that belongs to one event. */
  function RowsFor(t: Tables, id: EventId): Tables {
    Tables(
      map o | o in t.orders && t.orders[o].sourceEventId == id :: t.orders[o],
      map i | i in t.events && i == id :: t.events[i])
  }

  lemma StoreKeepsMatched(t: Tables, e: OrderEvent)
    requires Matched(t)
    ensures Matched(StoreTx(t, e))
  {
    var t' := StoreTx(t, e);
    if t' != t {
      assert t'.orders[e.orderId].sourceEventId == e.eventId;
      forall id | id in t'.events ensures exists o :: o in t'.orders && t'.orders[o].sourceEventId == id {
        if id != e.eventId {
          var o :| o in t.orders && t.orders[o].sourceEventId == id;
          assert t'.orders[o] == t.orders[o];
        }
      }
    }
  }

  lemma MarkKeepsMatched(t: Tables, id: EventId)
    requires Matched(t)
    ensures Matched(MarkTx(t, id))
  {
    var t' := MarkTx(t, id);
    forall i | i in t'.events ensures exists o :: o in t'.orders && t'.orders[o].sourceEventId == i {
      assert i in t.events;
    }
  }

  lemma DiscardKeepsMatched(t: Tables, id: EventId)
    requires Matched(t)
    ensures Matched(DiscardTx(t, id))
    ensures NoTrace(DiscardTx(t, id), id)
  {
    var t' := DiscardTx(t, id);
    forall i | i in t'.events ensures exists o :: o in t'.orders && t'.orders[o].sourceEventId == i {
      var o :| o in t.orders && t.orders[o].sourceEventId == i;
      assert o in t'.orders;
    }
  }

  /** In matched tables the pending claim decides: without it there is no order row either. */
  lemma UnclaimedHasNoTrace(t: Tables, id: EventId)
    requires Matched(t) && id !in t.events
    ensures NoTrace(t, id)
    ensures DiscardTx(t, id) == t
  {
    assert DiscardTx(t, id).orders == t.orders;
  }

  /** Exactly the new orders that the tables take: the amount fits, the texts hold no NUL, the order ID is free. */
  predicate Fits(t: Tables, e: OrderEvent) {
    && 0.005 <= e.amount < 10_000_000_000_000_000.0 - 0.005
    && '\0' !in e.orderId && '\0' !in e.customerId && '\0' !in e.correlationId
    && e.orderId !in t.orders
  }

  /** The row of an order, its amount in whole cents, nearest, a tie going up. */
  predicate Records(row: OrderRow, e: OrderEvent) {
    && row.customerId == e.customerId && row.currency == e.currency
    && row.sourceEventId == e.eventId && row.correlationId == e.correlationId
    && row.cents as real - 0.5 <= e.amount * 100.0 < row.cents as real + 0.5
  }

  /** A new event is stored, with its two rows and no other change, if and only if it fits; else nothing changes. */
  lemma StoredIffFits(t: Tables, e: OrderEvent)
    requires Matched(t) && e.eventId !in t.events
    ensures Refuses(t, e) <==> !Fits(t, e)
    ensures
      var t' := StoreTx(t, e);
      if Fits(t, e) then
        && t'.events == t.events[e.eventId := Pending]
        && e.orderId in t'.orders && Records(t'.orders[e.orderId], e)
        && t'.orders == t.orders[e.orderId := t'.orders[e.orderId]]
      else t' == t
  {
    AcceptedAmounts(e.amount);
    UnclaimedHasNoTrace(t, e.eventId);
  }

  /** In matched tables a discard removes one row from each. */
  lemma DiscardRemovesOnePair(t: Tables, id: EventId)
    requires Matched(t) && id in t.events
    ensures |DiscardTx(t, id).orders| == |t.orders| - 1
    ensures |DiscardTx(t, id).events| == |t.events| - 1
  {
    var o :| o in t.orders && t.orders[o].sourceEventId == id;
    assert DiscardTx(t, id).orders.Keys == t.orders.Keys - {o};
    assert DiscardTx(t, id).events.Keys == t.events.Keys - {id};
  }

  /** order_count equals processed_event_count. */
  lemma {:induction false} CountsAgree(t: Tables)
    requires Matched(t)
    ensures |t.orders| == |t.events|
    decreases |t.events|
  {
    if t.events == map[] {
      assert t.orders == map[];
    } else {
      var id :| id in t.events;
      DiscardKeepsMatched(t, id);
      DiscardRemovesOnePair(t, id);
      CountsAgree(DiscardTx(t, id));
    }
  }

  /** Handling one event never touches a row of another, even when both carry the same order_id. */
  lemma OtherEventsUntouched(t: Tables, e: OrderEvent, other: EventId)
    requires other != e.eventId
    ensures RowsFor(StoreTx(t, e), other) == RowsFor(t, other)
    ensures RowsFor(MarkTx(t, e.eventId), other) == RowsFor(t, other)
    ensures RowsFor(DiscardTx(t, e.eventId), other) == RowsFor(t, other)
  {
    SameRowsFor(t, StoreTx(t, e), other);
    SameRowsFor(t, MarkTx(t, e.eventId), other);
    SameRowsFor(t, DiscardTx(t, e.eventId), other);
  }

  lemma SameRowsFor(t: Tables, t': Tables, id: EventId)
    requires forall o :: (o in t.orders && t.orders[o].sourceEventId == id) <==>
                         (o in t'.orders && t'.orders[o].sourceEventId == id)
    requires forall o :: o in t.orders && o in t'.orders && t.orders[o].sourceEventId == id ==> t.orders[o] == t'.orders[o]
    requires id in t.events <==> id in t'.events
    requires id in t.events ==> t.events[id] == t'.events[id]
    ensures RowsFor(t', id) == RowsFor(t, id)
  {
    assert RowsFor(t', id).orders == RowsFor(t, id).orders;
    assert RowsFor(t', id).events == RowsFor(t, id).events;
  }

  /** A refused or never stored event can be stored again after a discard exactly as before it was stored. */
  lemma DiscardUndoesStore(t: Tables, e: OrderEvent)
    requires Matched(t) && e.eventId !in t.events
    ensures DiscardTx(StoreTx(t, e), e.eventId) == t
    ensures DiscardTx(MarkTx(StoreTx(t, e), e.eventId), e.eventId) == t
  {
    UnclaimedHasNoTrace(t, e.eventId);
    var t' := StoreTx(t, e);
    assert DiscardTx(t', e.eventId).orders == t.orders;
    assert DiscardTx(t', e.eventId).events == t.events;
    assert DiscardTx(MarkTx(t', e.eventId), e.eventId).events == t.events;
  }

  // ---------- Interleavings ----------

  /** One committed transaction of some worker, or a call that left the tables alone. */
  datatype Tx = Untouched | StoreOf(event: OrderEvent) | MarkOf(id: EventId) | DiscardOf(id: EventId)

  function Apply(t: Tables, tx: Tx): Tables {
    match tx
    case Untouched => t
    case StoreOf(e) => StoreTx(t, e)
    case MarkOf(id) => MarkTx(t, id)
    case DiscardOf(id) => DiscardTx(t, id)
  }

  function ApplyAll(t: Tables, txs: seq<Tx>): Tables {
    if txs == [] then t else Apply(ApplyAll(t, txs[..|txs| - 1]), txs[|txs| - 1])
  }

  predicate Concerns(tx: Tx, id: EventId) {
    match tx
    case Untouched => false
    case StoreOf(e) => e.eventId == id
    case MarkOf(i) => i == id
    case DiscardOf(i) => i == id
  }

  lemma ApplyKeepsMatched(t: Tables, tx: Tx)
    requires Matched(t)
    ensures Matched(Apply(t, tx))
  {
    match tx
    case Untouched =>
    case StoreOf(e) => StoreKeepsMatched(t, e);
    case MarkOf(id) => MarkKeepsMatched(t, id);
    case DiscardOf(id) => DiscardKeepsMatched(t, id);
  }

  /** Any number of workers, interleaved in any order: the two tables stay matched and equally long. */
  lemma {:induction false} EveryInterleavingMatches(txs: seq<Tx>)
    ensures Matched(ApplyAll(EMPTY, txs))
    ensures |ApplyAll(EMPTY, txs).orders| == |ApplyAll(EMPTY, txs).events|
    decreases |txs|
  {
    if txs != [] {
      EveryInterleavingMatches(txs[..|txs| - 1]);
      ApplyKeepsMatched(ApplyAll(EMPTY, txs[..|txs| - 1]), txs[|txs| - 1]);
    }
    CountsAgree(ApplyAll(EMPTY, txs));
  }

  /** Whatever the workers do for other events, the rows of an event nobody handles do not change. */
  lemma {:induction false} BystandersUntouched(t: Tables, txs: seq<Tx>, id: EventId)
    requires forall tx :: tx in txs ==> !Concerns(tx, id)
    ensures RowsFor(ApplyAll(t, txs), id) == RowsFor(t, id)
    decreases |txs|
  {
    if txs != [] {
      var init, tx := txs[..|txs| - 1], txs[|txs| - 1];
      assert tx in txs && forall x :: x in init ==> x in txs;
      BystandersUntouched(t, init, id);
      var u := ApplyAll(t, init);
      match tx
      case Untouched =>
      case StoreOf(e) => OtherEventsUntouched(u, e, id);
      case MarkOf(i) => OtherEventsUntouched(u, OrderEvent(i, "", "", 0.0, "", ""), id);
      case DiscardOf(i) => OtherEventsUntouched(u, OrderEvent(i, "", "", 0.0, "", ""), id);
    }
  }

  /** What a `store` call hands back to its caller. */
  datatype StoreReply =
    | Stored(isNew: bool, downstreamRequired: bool)
    | ConstraintViolated
    | StoreRaised(retryable: bool)

  datatype UpdateReply = Updated | UnknownEvent | UpdateRaised(retryable: bool)

  class PostgresOrderStore {
    var orders: map<OrderId, OrderRow>
    var events: map<EventId, Status>

    /** Missing tables are created empty; tables that are found keep their rows. */
    constructor Initialize(found: Option<Tables>)
      ensures Rows() == if found.Some? then found.value else EMPTY
    {
      var tables := if found.Some? then found.value else EMPTY;
      orders, events := tables.orders, tables.events;
    }

    function Rows(): Tables
      reads this
    {
      Tables(orders, events)
    }

    method Store(e: OrderEvent, fault: Fault) returns (r: StoreReply)
      modifies this
      ensures Rows() == Under(fault, old(Rows()), StoreTx(old(Rows()), e))
      ensures fault.Raise? ==> r == StoreRaised(fault.retryable)
      ensures fault.Calm? ==>
                if e.eventId in old(events) then r == Stored(false, old(events)[e.eventId] != Completed)
                else if Refuses(old(Rows()), e) then r == ConstraintViolated
                else r == Stored(true, true)
      ensures fault.Calm? && Matched(old(Rows())) && e.eventId !in old(events) ==>
                if Fits(old(Rows()), e) then
                  && r == Stored(true, true)
                  && events == old(events)[e.eventId := Pending]
                  && e.orderId in orders && Records(orders[e.orderId], e)
                  && orders == old(orders)[e.orderId := orders[e.orderId]]
                else r == ConstraintViolated && orders == old(orders) && events == old(events)
    {
      if Matched(Rows()) && e.eventId !in events {
        StoredIffFits(Rows(), e);
      }
      if fault.Raise? && !fault.applied {
        return StoreRaised(fault.retryable);
      }
      var claimed := e.eventId !in events;
      if !claimed {
        r := Stored(false, events[e.eventId] != Completed);
      } else {
        var saved := events;
        events := events[e.eventId := Pending];
        if !Storable(e) || Collides(Rows(), e) {
          events := saved;
          r := ConstraintViolated;
        } else {
          orders := orders[e.orderId := RowOf(e)];
          r := Stored(true, true);
        }
      }
      if fault.Raise? {
        r := StoreRaised(fault.retryable);
      }
    }

    method MarkCompleted(id: EventId, fault: Fault) returns (r: UpdateReply)
      modifies this
      ensures Rows() == Under(fault, old(Rows()), MarkTx(old(Rows()), id))
      ensures r == if fault.Raise? then UpdateRaised(fault.retryable)
                   else if id in old(events) then Updated else UnknownEvent
    {
      if fault.Raise? && !fault.applied {
        return UpdateRaised(fault.retryable);
      }
      r := UnknownEvent;
      if id in events {
        events := events[id := Completed];
        r := Updated;
      }
      if fault.Raise? {
        r := UpdateRaised(fault.retryable);
      }
    }

    method Discard(id: EventId, fault: Fault) returns (r: UpdateReply)
      modifies this
      ensures Rows() == Under(fault, old(Rows()), DiscardTx(old(Rows()), id))
      ensures r == if fault.Raise? then UpdateRaised(fault.retryable) else Updated
    {
      if fault.Raise? && !fault.applied {
        return UpdateRaised(fault.retryable);
      }
      orders := map o | o in orders && orders[o].sourceEventId != id :: orders[o];
      events := map i | i in events && i != id :: events[i];
      r := if fault.Raise? then UpdateRaised(fault.retryable) else Updated;
    }
  }
}
