/** Splitting the tables by partition: transactions on one partition's event commute with the split. */
module Partitions {
  import opened OrderEvents
  import opened OrderTables

  /** The rows of partition p, given where order IDs and event IDs live. */
  function Restrict(place: OrderId -> nat, home: EventId -> nat, t: Tables, p: nat): Tables {
    Tables(
      map o | o in t.orders && place(o) == p :: t.orders[o],
      map id | id in t.events && home(id) == p :: t.events[id])
  }

  /** Every row lives in one of n partitions, an order with its event. */
  ghost predicate Housed(place: OrderId -> nat, home: EventId -> nat, n: nat, t: Tables) {
    && (forall o :: o in t.orders ==> place(o) == home(t.orders[o].sourceEventId) < n)
    && (forall id :: id in t.events ==> home(id) < n)
  }

  lemma CollidesLocally(place: OrderId -> nat, home: EventId -> nat, n: nat, t: Tables, e: OrderEvent)
    requires Housed(place, home, n, t) && home(e.eventId) == place(e.orderId)
    ensures Refuses(Restrict(place, home, t, home(e.eventId)), e) <==> Refuses(t, e)
  {
    var r := Restrict(place, home, t, home(e.eventId));
    forall o | o in t.orders && t.orders[o].sourceEventId == e.eventId
      ensures o in r.orders && r.orders[o].sourceEventId == e.eventId
    {
    }
  }

  lemma InsertHere(place: OrderId -> nat, home: EventId -> nat, t: Tables, e: OrderEvent, q: nat)
    requires home(e.eventId) == place(e.orderId)
    ensures Restrict(place, home, Insert(t, e), q) ==
            if q == home(e.eventId) then Insert(Restrict(place, home, t, q), e) else Restrict(place, home, t, q)
  {
    var r' := if q == home(e.eventId) then Insert(Restrict(place, home, t, q), e) else Restrict(place, home, t, q);
    assert Restrict(place, home, Insert(t, e), q).orders == r'.orders;
    assert Restrict(place, home, Insert(t, e), q).events == r'.events;
  }

  lemma RestrictStore(place: OrderId -> nat, home: EventId -> nat, n: nat, t: Tables, e: OrderEvent, q: nat)
    requires Housed(place, home, n, t) && home(e.eventId) == place(e.orderId)
    ensures Restrict(place, home, StoreTx(t, e), q) ==
            if q == home(e.eventId) then StoreTx(Restrict(place, home, t, q), e) else Restrict(place, home, t, q)
  {
    CollidesLocally(place, home, n, t, e);
    InsertHere(place, home, t, e, q);
  }

  lemma RestrictMark(place: OrderId -> nat, home: EventId -> nat, t: Tables, id: EventId, q: nat)
    ensures Restrict(place, home, MarkTx(t, id), q) ==
            if q == home(id) then MarkTx(Restrict(place, home, t, q), id) else Restrict(place, home, t, q)
  {
    var r' := if q == home(id) then MarkTx(Restrict(place, home, t, q), id) else Restrict(place, home, t, q);
    assert Restrict(place, home, MarkTx(t, id), q).events == r'.events;
  }

  lemma RestrictDiscard(place: OrderId -> nat, home: EventId -> nat, n: nat, t: Tables, id: EventId, q: nat)
    requires Housed(place, home, n, t)
    ensures Restrict(place, home, DiscardTx(t, id), q) ==
            if q == home(id) then DiscardTx(Restrict(place, home, t, q), id) else Restrict(place, home, t, q)
  {
    var r' := if q == home(id) then DiscardTx(Restrict(place, home, t, q), id) else Restrict(place, home, t, q);
    assert Restrict(place, home, DiscardTx(t, id), q).orders == r'.orders;
    assert Restrict(place, home, DiscardTx(t, id), q).events == r'.events;
  }

  /** A transaction belongs to partition p. */
  predicate LivesIn(place: OrderId -> nat, home: EventId -> nat, tx: Tx, p: nat) {
    match tx
    case Untouched => true
    case StoreOf(e) => home(e.eventId) == p == place(e.orderId)
    case MarkOf(id) => home(id) == p
    case DiscardOf(id) => home(id) == p
  }

  /** A transaction of partition p is the same transaction on the rows of p, and leaves every other part alone. */
  lemma ApplyOnPart(place: OrderId -> nat, home: EventId -> nat, n: nat, t: Tables, tx: Tx, p: nat, q: nat)
    requires Housed(place, home, n, t) && LivesIn(place, home, tx, p) && p < n
    ensures Housed(place, home, n, Apply(t, tx))
    ensures Restrict(place, home, Apply(t, tx), q) ==
            if q == p then Apply(Restrict(place, home, t, p), tx) else Restrict(place, home, t, q)
  {
    match tx
    case Untouched =>
    case StoreOf(e) => RestrictStore(place, home, n, t, e, q);
    case MarkOf(id) => RestrictMark(place, home, t, id, q);
    case DiscardOf(id) => RestrictDiscard(place, home, n, t, id, q);
  }

  /** Tables that agree on every partition are equal. */
  lemma AgreeOnParts(place: OrderId -> nat, home: EventId -> nat, n: nat, t: Tables, u: Tables)
    requires Housed(place, home, n, t) && Housed(place, home, n, u)
    requires forall p: nat :: p < n ==> Restrict(place, home, t, p) == Restrict(place, home, u, p)
    ensures t == u
  {
    PartsInclude(place, home, n, t, u);
    PartsInclude(place, home, n, u, t);
    assert t.orders == u.orders;
    assert t.events == u.events;
  }

  lemma PartsInclude(place: OrderId -> nat, home: EventId -> nat, n: nat, t: Tables, u: Tables)
    requires Housed(place, home, n, t)
    requires forall p: nat :: p < n ==> Restrict(place, home, t, p) == Restrict(place, home, u, p)
    ensures forall o :: o in t.orders ==> o in u.orders && u.orders[o] == t.orders[o]
    ensures forall id :: id in t.events ==> id in u.events && u.events[id] == t.events[id]
  {
    forall o | o in t.orders ensures o in u.orders && u.orders[o] == t.orders[o] {
      assert o in Restrict(place, home, t, place(o)).orders;
      assert o in Restrict(place, home, u, place(o)).orders;
    }
    forall id | id in t.events ensures id in u.events && u.events[id] == t.events[id] {
      assert id in Restrict(place, home, t, home(id)).events;
      assert id in Restrict(place, home, u, home(id)).events;
    }
  }
}
