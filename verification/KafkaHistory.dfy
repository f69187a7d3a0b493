/** What has happened along a run, which the protocol's own state forgets. */
module KafkaHistory {
  import opened OrderEvents
  import opened OrderTables
  import opened KafkaProtocol
  import opened KafkaInvariants

  datatype History = History(
    completedEver: set<EventId>,     // events whose row was once completed
    acknowledged: set<nat>,          // offsets whose DLQ record the broker acknowledged
    skipped: set<nat>,               // offsets whose process_one raised and whose consumer polled on
    deliveries: multiset<nat>,       // offsets, as often as they were polled
    notified: multiset<EventId>,     // notify calls that returned
    orphaned: multiset<EventId>,     // notify returned, then the completion did not take effect
    revoked: multiset<EventId>)      // completed rows that were deleted

  const NOTHING := History({}, {}, {}, multiset{}, multiset{}, multiset{}, multiset{})

  function EventInHand(c: Config, s: State): Option<OrderEvent> {
    if s.lane.pc.Busy? then EventAt(c, s.lane.pc.call.offset) else None
  }

  /** The call has notified the downstream service and has not yet tried to record the completion. */
  predicate BetweenNotifyAndMark(c: Config, s: State, id: EventId) {
    && s.lane.pc.Busy?
    && s.lane.pc.stage.Marking?
    && EventAt(c, s.lane.pc.call.offset).Some?
    && EventAt(c, s.lane.pc.call.offset).value.eventId == id
  }

  function CompletedIn(t: Tables): set<EventId> {
    set id | id in t.events && t.events[id] == Completed
  }

  function Observe(c: Config, s: State, l: Label, h: History): History {
    if !Enabled(c, s, l) then h
    else
      var s' := Step(c, s, l);
      var e := EventInHand(c, s);
      var mine := if e.Some? then multiset{e.value.eventId} else multiset{};
      History(
        h.completedEver + CompletedIn(s'.db),
        if l == Publish(Calm) then h.acknowledged + {s.lane.pc.call.offset} else h.acknowledged,
        if l.KeepPolling? && s.lane.pc.inHand.Some? then h.skipped + {s.lane.pc.inHand.value} else h.skipped,
        if l.Poll? then h.deliveries + multiset{s.lane.position} else h.deliveries,
        if l == Notify(Calm) then h.notified + mine else h.notified,
        if s.lane.pc.Busy? && s.lane.pc.stage.Marking? && e.Some? && !IsCompleted(s'.db, e.value.eventId)
        then h.orphaned + mine else h.orphaned,
        if l.Discard? && e.Some? && IsCompleted(s.db, e.value.eventId) && !IsCompleted(s'.db, e.value.eventId)
        then h.revoked + mine else h.revoked)
  }

  /** The history of a run from the initial state. */
  function Hist(c: Config, trace: seq<Label>): History {
    if trace == [] then NOTHING
    else
      var init := trace[..|trace| - 1];
      Observe(c, Exec(c, INITIAL, init), trace[|trace| - 1], Hist(c, init))
  }

  lemma HistSnoc(c: Config, trace: seq<Label>, l: Label)
    ensures Exec(c, INITIAL, trace + [l]) == Step(c, Exec(c, INITIAL, trace), l)
    ensures Hist(c, trace + [l]) == Observe(c, Exec(c, INITIAL, trace), l, Hist(c, trace))
  {
    assert (trace + [l])[..|trace|] == trace;
  }

  // ---------- No loss ----------

  function DlqOffsets(dlq: seq<DeadLetter>): set<nat> {
    set d | d in dlq :: d.offset
  }

  /** The record's event was completed at some time, or the broker acknowledged a DLQ record for it. */
  predicate Settled(c: Config, h: History, offset: nat) {
    || offset in h.acknowledged
    || (EventAt(c, offset).Some? && EventAt(c, offset).value.eventId in h.completedEver)
  }

  predicate InHandOffset(s: State, offset: nat) {
    || (s.lane.pc.Busy? && s.lane.pc.call.offset == offset)
    || s.lane.pc == Raised(Some(offset))
  }

  /** What is known of the record at offset k once the group or the running consumer has moved past it. */
  predicate Passed(c: Config, s: State, h: History, k: nat) {
    && (k < s.lane.committed ==> Settled(c, h, k) || k in h.skipped)
    && (!s.lane.pc.Down? && k < s.lane.position ==> Settled(c, h, k) || k in h.skipped || InHandOffset(s, k))
  }

  ghost predicate Accounted(c: Config, s: State, h: History) {
    && CompletedIn(s.db) <= h.completedEver
    && h.acknowledged <= DlqOffsets(s.lane.dlq)
    && (forall k: nat :: Passed(c, s, h, k))
    && (s.lane.committed > 0 ==> Settled(c, h, s.lane.committed - 1))
    && (s.lane.pc.Busy? && s.lane.pc.stage.Committing? ==> Settled(c, h, s.lane.pc.call.offset))
  }

  lemma DlqGrows(c: Config, s: State, l: Label)
    ensures s.lane.dlq <= Step(c, s, l).lane.dlq
    ensures DlqOffsets(s.lane.dlq) <= DlqOffsets(Step(c, s, l).lane.dlq)
    ensures l == Publish(Calm) && Enabled(c, s, l) ==>
              s.lane.pc.call.offset in DlqOffsets(Step(c, s, l).lane.dlq)
  {
    var dlq, dlq' := s.lane.dlq, Step(c, s, l).lane.dlq;
    assert dlq <= dlq';
    assert forall d :: d in dlq ==> d in dlq';
    if l == Publish(Calm) && Enabled(c, s, l) {
      assert dlq'[|dlq'| - 1] in dlq';
    }
  }

  lemma SettledStays(c: Config, s: State, l: Label, h: History, k: nat)
    requires Settled(c, h, k)
    ensures Settled(c, Observe(c, s, l, h), k)
  {
  }

  /** A call reaches its commit only with its record settled. */
  lemma SettledBeforeCommit(c: Config, s: State, l: Label, h: History)
    requires c.Valid() && Orderly(c, s)
    requires s.lane.pc.Busy? && s.lane.pc.stage.Committing? ==> Settled(c, h, s.lane.pc.call.offset)
    ensures
      var s' := Step(c, s, l);
      s'.lane.pc.Busy? && s'.lane.pc.stage.Committing? ==>
        Settled(c, Observe(c, s, l, h), s'.lane.pc.call.offset)
  {
    var s', h' := Step(c, s, l), Observe(c, s, l, h);
    OrderlyStep(c, s, l);
    if s'.lane.pc.Busy? && s'.lane.pc.stage.Committing? && Enabled(c, s, l) && s'.lane.pc.stage == Committing(false) {
      assert EventAt(c, s'.lane.pc.call.offset).value.eventId in CompletedIn(s'.db);
    }
  }

  lemma PassedStep(c: Config, s: State, l: Label, h: History, k: nat)
    requires c.Valid() && Orderly(c, s) && Passed(c, s, h, k)
    requires s.lane.pc.Busy? && s.lane.pc.stage.Committing? ==> Settled(c, h, s.lane.pc.call.offset)
    ensures Passed(c, Step(c, s, l), Observe(c, s, l, h), k)
  {
    if Settled(c, h, k) {
      SettledStays(c, s, l, h, k);
    } else if k !in h.skipped {
      UnsettledStep(c, s, l, h, k);
    }
  }

  /** A record that is neither settled nor skipped stays ahead of the group, and in hand once polled. */
  lemma UnsettledStep(c: Config, s: State, l: Label, h: History, k: nat)
    requires c.Valid() && Orderly(c, s) && Passed(c, s, h, k) && !Settled(c, h, k) && k !in h.skipped
    requires s.lane.pc.Busy? && s.lane.pc.stage.Committing? ==> Settled(c, h, s.lane.pc.call.offset)
    ensures k >= Step(c, s, l).lane.committed
    ensures !Step(c, s, l).lane.pc.Down? && k < Step(c, s, l).lane.position ==>
              InHandOffset(Step(c, s, l), k) || k in Observe(c, s, l, h).skipped
  {
    if Enabled(c, s, l) && s.lane.pc.Busy? && !l.Crash? {
      UnsettledInCall(c, s, l, h, k);
    } else {
      UnsettledBetween(c, s, l, h, k);
    }
  }

  lemma UnsettledInCall(c: Config, s: State, l: Label, h: History, k: nat)
    requires Orderly(c, s) && Passed(c, s, h, k) && !Settled(c, h, k) && k !in h.skipped
    requires s.lane.pc.Busy? && s.lane.pc.stage.Committing? ==> Settled(c, h, s.lane.pc.call.offset)
    requires Enabled(c, s, l) && s.lane.pc.Busy? && !l.Crash?
    ensures k >= Step(c, s, l).lane.committed
    ensures k < Step(c, s, l).lane.position ==> InHandOffset(Step(c, s, l), k)
  {
    LaneInCall(c, s, l);
    hide Step, StageFacts;
  }

  lemma UnsettledBetween(c: Config, s: State, l: Label, h: History, k: nat)
    requires Orderly(c, s) && Passed(c, s, h, k) && !Settled(c, h, k) && k !in h.skipped
    requires !Enabled(c, s, l) || !s.lane.pc.Busy? || l.Crash?
    ensures k >= Step(c, s, l).lane.committed
    ensures !Step(c, s, l).lane.pc.Down? && k < Step(c, s, l).lane.position ==>
              InHandOffset(Step(c, s, l), k) || k in Observe(c, s, l, h).skipped
  {
    hide CallStep, StageFacts;
  }

  lemma AccountedStep(c: Config, s: State, l: Label, h: History)
    requires c.Valid() && Orderly(c, s) && Accounted(c, s, h)
    ensures Accounted(c, Step(c, s, l), Observe(c, s, l, h))
  {
    DlqGrows(c, s, l);
    SettledBeforeCommit(c, s, l, h);
    forall k: nat ensures Passed(c, Step(c, s, l), Observe(c, s, l, h), k) {
      PassedStep(c, s, l, h, k);
    }
    CommittedStep(c, s, l, h);
    CompletedStep(c, s, l, h);
  }

  lemma CommittedStep(c: Config, s: State, l: Label, h: History)
    requires s.lane.committed > 0 ==> Settled(c, h, s.lane.committed - 1)
    requires s.lane.pc.Busy? && s.lane.pc.stage.Committing? ==> Settled(c, h, s.lane.pc.call.offset)
    ensures
      var s' := Step(c, s, l);
      s'.lane.committed > 0 ==> Settled(c, Observe(c, s, l, h), s'.lane.committed - 1)
  {
  }

  lemma CompletedStep(c: Config, s: State, l: Label, h: History)
    requires CompletedIn(s.db) <= h.completedEver && h.acknowledged <= DlqOffsets(s.lane.dlq)
    ensures CompletedIn(Step(c, s, l).db) <= Observe(c, s, l, h).completedEver
    ensures Observe(c, s, l, h).acknowledged <= DlqOffsets(Step(c, s, l).lane.dlq)
  {
    DlqGrows(c, s, l);
  }

  lemma {:induction false} AccountedAlways(c: Config, trace: seq<Label>)
    requires c.Valid()
    ensures Accounted(c, Exec(c, INITIAL, trace), Hist(c, trace))
    decreases |trace|
  {
    if trace != [] {
      var init := trace[..|trace| - 1];
      SoundAlways(c, init);
      AccountedAlways(c, init);
      AccountedStep(c, Exec(c, INITIAL, init), trace[|trace| - 1], Hist(c, init));
    }
  }

  // ---------- Downstream effects ----------

  function One(b: bool): nat {
    if b then 1 else 0
  }

  /** Successful notifications of an event, split by what became of each. */
  predicate Balanced(c: Config, s: State, h: History, id: EventId) {
    h.notified[id] == h.orphaned[id] + h.revoked[id]
                      + One(IsCompleted(s.db, id)) + One(BetweenNotifyAndMark(c, s, id))
  }

  lemma BalancedStep(c: Config, s: State, l: Label, h: History, id: EventId)
    requires c.Valid() && c.hasDownstream && Orderly(c, s) && Balanced(c, s, h, id)
    ensures Balanced(c, Step(c, s, l), Observe(c, s, l, h), id)
  {
    if Enabled(c, s, l) && s.lane.pc.Busy? {
      var e := EventInHand(c, s);
      if e.Some? {
        BalancedEventStep(c, s, l, h, id, e.value);
      }
    }
  }

  lemma BalancedEventStep(c: Config, s: State, l: Label, h: History, id: EventId, e: OrderEvent)
    requires c.Valid() && c.hasDownstream && Orderly(c, s) && Balanced(c, s, h, id)
    requires Enabled(c, s, l) && s.lane.pc.Busy? && EventInHand(c, s) == Some(e)
    ensures Balanced(c, Step(c, s, l), Observe(c, s, l, h), id)
  {
    hide Balanced, Step, Orderly, Observe;
    if id != e.eventId {
      BalancedForOthers(c, s, l, h, id, e);
    } else {
      match l
      case Store(_) => BalancedStoreOrDiscard(c, s, l, h, e);
      case Discard(_) => BalancedStoreOrDiscard(c, s, l, h, e);
      case Notify(_) => BalancedNotifyOrMark(c, s, l, h, e);
      case Mark(_) => BalancedNotifyOrMark(c, s, l, h, e);
      case _ => BalancedElsewhere(c, s, l, h, e);
    }
  }

  lemma BalancedForOthers(c: Config, s: State, l: Label, h: History, id: EventId, e: OrderEvent)
    requires Orderly(c, s) && Balanced(c, s, h, id) && id != e.eventId
    requires Enabled(c, s, l) && s.lane.pc.Busy? && EventInHand(c, s) == Some(e)
    ensures Balanced(c, Step(c, s, l), Observe(c, s, l, h), id)
  {
    StepCommits(c, s, l);
    if !l.Crash? {
      LaneInCall(c, s, l);
    }
    hide Step, Orderly;
    assert IsCompleted(Step(c, s, l).db, id) == IsCompleted(s.db, id);
    assert Step(c, s, l).lane.pc.Down? || !BetweenNotifyAndMark(c, Step(c, s, l), id);
  }

  lemma BalancedStoreOrDiscard(c: Config, s: State, l: Label, h: History, e: OrderEvent)
    requires c.hasDownstream && Orderly(c, s) && Balanced(c, s, h, e.eventId)
    requires Enabled(c, s, l) && s.lane.pc.Busy? && EventInHand(c, s) == Some(e) && (l.Store? || l.Discard?)
    ensures Balanced(c, Step(c, s, l), Observe(c, s, l, h), e.eventId)
  {
  }

  lemma BalancedNotifyOrMark(c: Config, s: State, l: Label, h: History, e: OrderEvent)
    requires c.hasDownstream && Orderly(c, s) && Balanced(c, s, h, e.eventId)
    requires Enabled(c, s, l) && s.lane.pc.Busy? && EventInHand(c, s) == Some(e) && (l.Notify? || l.Mark?)
    ensures Balanced(c, Step(c, s, l), Observe(c, s, l, h), e.eventId)
  {
  }

  lemma BalancedElsewhere(c: Config, s: State, l: Label, h: History, e: OrderEvent)
    requires c.hasDownstream && Orderly(c, s) && Balanced(c, s, h, e.eventId)
    requires Enabled(c, s, l) && s.lane.pc.Busy? && EventInHand(c, s) == Some(e)
    requires l.Parse? || l.Publish? || l.Commit? || l.Crash?
    ensures Balanced(c, Step(c, s, l), Observe(c, s, l, h), e.eventId)
  {
  }

  lemma {:induction false} BalancedAlways(c: Config, trace: seq<Label>, id: EventId)
    requires c.Valid() && c.hasDownstream
    ensures Balanced(c, Exec(c, INITIAL, trace), Hist(c, trace), id)
    decreases |trace|
  {
    if trace != [] {
      var init := trace[..|trace| - 1];
      SoundAlways(c, init);
      BalancedAlways(c, init, id);
      BalancedStep(c, Exec(c, INITIAL, init), trace[|trace| - 1], Hist(c, init), id);
    }
  }

  // ---------- Dead letters ----------

  /** The offsets of the DLQ records, with repetitions. */
  function Tally(dlq: seq<DeadLetter>): multiset<nat> {
    if dlq == [] then multiset{} else Tally(dlq[..|dlq| - 1]) + multiset{dlq[|dlq| - 1].offset}
  }

  predicate Faithful(c: Config, d: DeadLetter) {
    && d.offset < |c.log|
    && d.key == c.log[d.offset].key
    && d.payload == c.log[d.offset].body
    && 1 <= d.attempts <= c.maxAttempts
    && match d.payload
       case Order(e) => d.eventId == Some(e.eventId) && d.correlationId == Some(e.correlationId)
       case Malformed(_) => d.eventId == None && d.correlationId == None
  }

  predicate Unpublished(s: State, k: nat) {
    s.lane.pc.Busy? && s.lane.pc.call.offset == k && s.lane.pc.stage != Committing(true)
  }

  /** The row is the one that the event at a delivered offset asks for, and that event satisfies the constraints. */
  predicate Delivered(c: Config, h: History, o: OrderId, row: OrderRow, k: nat) {
    && k in h.deliveries
    && EventAt(c, k).Some?
    && EventAt(c, k).value.orderId == o
    && Storable(EventAt(c, k).value)
    && row.customerId == EventAt(c, k).value.customerId
    && row.currency == EventAt(c, k).value.currency
    && row.correlationId == EventAt(c, k).value.correlationId
    && row.sourceEventId == EventAt(c, k).value.eventId
    && IsRoundedTo(EventAt(c, k).value.amount, row.cents)
  }

  ghost predicate Traceable(c: Config, s: State, h: History) {
    && (forall d :: d in s.lane.dlq ==> Faithful(c, d))
    && (forall k: nat :: Tally(s.lane.dlq)[k] + One(Unpublished(s, k)) <= h.deliveries[k])
    && (forall o :: o in s.db.orders ==> exists k: nat :: Delivered(c, h, o, s.db.orders[o], k))
  }

  lemma FaithfulStep(c: Config, s: State, l: Label)
    requires c.Valid() && Orderly(c, s) && forall d :: d in s.lane.dlq ==> Faithful(c, d)
    ensures forall d :: d in Step(c, s, l).lane.dlq ==> Faithful(c, d)
  {
  }

  /** A step adds a DLQ record only for the call in hand, which then stops being unpublished. */
  lemma TallyGrows(c: Config, s: State, l: Label, k: nat)
    ensures
      var dlq' := Step(c, s, l).lane.dlq;
      Tally(dlq')[k] == Tally(s.lane.dlq)[k] + One(dlq' != s.lane.dlq && Unpublished(s, k))
    ensures Step(c, s, l).lane.dlq != s.lane.dlq ==> !Unpublished(Step(c, s, l), k)
  {
    var dlq, dlq' := s.lane.dlq, Step(c, s, l).lane.dlq;
    if dlq' != dlq {
      assert dlq'[..|dlq'| - 1] == dlq;
    }
  }

  /** A call becomes unpublished only by being delivered. */
  lemma UnpublishedStep(c: Config, s: State, l: Label, h: History, k: nat)
    ensures One(Unpublished(Step(c, s, l), k)) + h.deliveries[k]
            <= One(Unpublished(s, k)) + Observe(c, s, l, h).deliveries[k]
  {
  }

  lemma TallyStep(c: Config, s: State, l: Label, h: History, k: nat)
    requires Tally(s.lane.dlq)[k] + One(Unpublished(s, k)) <= h.deliveries[k]
    ensures Tally(Step(c, s, l).lane.dlq)[k] + One(Unpublished(Step(c, s, l), k)) <= Observe(c, s, l, h).deliveries[k]
  {
    TallyGrows(c, s, l, k);
    UnpublishedStep(c, s, l, h, k);
    assert h.deliveries[k] <= Observe(c, s, l, h).deliveries[k];
  }

  lemma RowsStep(c: Config, s: State, l: Label, h: History, o: OrderId)
    requires c.Valid() && Orderly(c, s)
    requires s.lane.pc.Busy? ==> Unpublished(s, s.lane.pc.call.offset) ==> s.lane.pc.call.offset in h.deliveries
    requires o in s.db.orders ==> exists k: nat :: Delivered(c, h, o, s.db.orders[o], k)
    requires o in Step(c, s, l).db.orders
    ensures exists k: nat :: Delivered(c, Observe(c, s, l, h), o, Step(c, s, l).db.orders[o], k)
  {
    var s', h' := Step(c, s, l), Observe(c, s, l, h);
    StepCommits(c, s, l);
    if o in s.db.orders && s'.db.orders[o] == s.db.orders[o] {
      var k: nat :| Delivered(c, h, o, s.db.orders[o], k);
      assert Delivered(c, h', o, s'.db.orders[o], k);
    } else {
      assert l.Store?;
      assert Delivered(c, h', o, s'.db.orders[o], s.lane.pc.call.offset);
    }
  }

  lemma TraceableStep(c: Config, s: State, l: Label, h: History)
    requires c.Valid() && Orderly(c, s) && Traceable(c, s, h)
    ensures Traceable(c, Step(c, s, l), Observe(c, s, l, h))
  {
    FaithfulStep(c, s, l);
    forall k: nat
      ensures Tally(Step(c, s, l).lane.dlq)[k] + One(Unpublished(Step(c, s, l), k)) <= Observe(c, s, l, h).deliveries[k]
    {
      TallyStep(c, s, l, h, k);
    }
    if s.lane.pc.Busy? {
      var k := s.lane.pc.call.offset;
      assert Tally(s.lane.dlq)[k] + One(Unpublished(s, k)) <= h.deliveries[k];
    }
    forall o | o in Step(c, s, l).db.orders
      ensures exists k: nat :: Delivered(c, Observe(c, s, l, h), o, Step(c, s, l).db.orders[o], k)
    {
      RowsStep(c, s, l, h, o);
    }
  }

  lemma {:induction false} TraceableAlways(c: Config, trace: seq<Label>)
    requires c.Valid()
    ensures Traceable(c, Exec(c, INITIAL, trace), Hist(c, trace))
    decreases |trace|
  {
    if trace != [] {
      var init := trace[..|trace| - 1];
      SoundAlways(c, init);
      TraceableAlways(c, init);
      TraceableStep(c, Exec(c, INITIAL, init), trace[|trace| - 1], Hist(c, init));
    }
  }
}
