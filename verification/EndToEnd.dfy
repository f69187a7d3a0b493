/** From the API's 202 to the order's row or its dead letter. */
module EndToEnd {
  import opened OrderEvents
  import opened OrderTables
  import opened KafkaProtocol
  import opened KafkaInvariants
  import opened KafkaHistory
  import opened KafkaTheorems
  import opened KafkaRefinement
  import P = OrderPublisher

  /** The consumer reads the partition of the receipt, which later records may have extended. */
  ghost predicate Feeds(place: OrderId -> nat, s: P.State, r: nat, c: Config) {
    && r < |s.requests|
    && s.requests[r].response.Some?
    && s.requests[r].response.value.Accepted?
    && s.requests[r].response.value.receipt.partition < |s.logs|
    && s.logs[s.requests[r].response.value.receipt.partition] <= c.log
  }

  /** The record at the receipt's offset is the accepted order. */
  lemma AcceptedIsInPartition(place: OrderId -> nat, partitions: nat, trace: seq<P.Label>, r: nat, c: Config)
    requires Feeds(place, P.Exec(place, P.Initial(partitions), trace), r, c)
    ensures
      var q := P.Exec(place, P.Initial(partitions), trace).requests[r];
      q.response.value.receipt.offset < |c.log| &&
      c.log[q.response.value.receipt.offset] == Record(Some(q.event.orderId), Order(q.event))
  {
    var s := P.Exec(place, P.Initial(partitions), trace);
    P.AcceptedIsLogged(place, partitions, trace, [], r);
    assert P.Exec(place, s, []) == s;
  }

  /**
   Once the group has passed an accepted order's offset, with a new consumer after every error, its event has been
   completed or the broker has acknowledged its dead letter, which carries the order.
   */
  lemma AcceptedOrderIsSettled(
    place: OrderId -> nat, partitions: nat, publishing: seq<P.Label>, r: nat, c: Config, consuming: seq<Label>)
    requires Feeds(place, P.Exec(place, P.Initial(partitions), publishing), r, c)
    requires c.Valid() && KeepPolling !in consuming
    requires Exec(c, INITIAL, consuming).lane.committed >
             P.Exec(place, P.Initial(partitions), publishing).requests[r].response.value.receipt.offset
    ensures
      var q := P.Exec(place, P.Initial(partitions), publishing).requests[r];
      || q.event.eventId in Hist(c, consuming).completedEver
      || (exists d :: d in Exec(c, INITIAL, consuming).lane.dlq && d.offset == q.response.value.receipt.offset
                      && d.payload == Order(q.event))
  {
    AcceptedIsInPartition(place, partitions, publishing, r, c);
    var q := P.Exec(place, P.Initial(partitions), publishing).requests[r];
    SettledBelowCommitted(c, consuming, q.response.value.receipt.offset, q.event);
  }

  lemma SettledBelowCommitted(c: Config, consuming: seq<Label>, k: nat, e: OrderEvent)
    requires c.Valid() && KeepPolling !in consuming && k < |c.log| && c.log[k].body == Order(e)
    requires Exec(c, INITIAL, consuming).lane.committed > k
    ensures
      || e.eventId in Hist(c, consuming).completedEver
      || (exists d :: d in Exec(c, INITIAL, consuming).lane.dlq && d.offset == k && d.payload == Order(e))
  {
    AccountedAlways(c, consuming);
    RebuildSkipsNothing(c, consuming);
    TraceableAlways(c, consuming);
    hide Exec, Hist;
    var s, h := Exec(c, INITIAL, consuming), Hist(c, consuming);
    assert Passed(c, s, h, k);
    if e.eventId !in h.completedEver {
      var d :| d in s.lane.dlq && d.offset == k;
      assert Faithful(c, d);
    }
  }

  /** A clean pass completes every order or dead-letters its record. */
  lemma {:induction false} FoldHandles(log: seq<Record>, k: nat, e: OrderEvent)
    requires k < |log| && log[k].body == Order(e)
    ensures IsCompleted(Fold(log), e.eventId) || DeadAt(log, k)
    decreases |log|
  {
    var init := log[..|log| - 1];
    if k < |init| {
      FoldHandles(init, k, e);
      assert init[..k] == log[..k];
      if e.eventId in Fold(init).events {
        FoldAllCompleted(log, e.eventId);
      }
    } else {
      assert log[..k] == init;
      if e.eventId in Fold(log).events {
        FoldAllCompleted(log, e.eventId);
      }
    }
  }

  /** After a drained run under absorbed faults every accepted order is completed in the tables, or dead-lettered. */
  lemma AcceptedOrderSurvivesDraining(
    place: OrderId -> nat, partitions: nat, publishing: seq<P.Label>, r: nat, c: Config, consuming: seq<Label>)
    requires Feeds(place, P.Exec(place, P.Initial(partitions), publishing), r, c)
    requires c.Valid() && c.hasDlq && GentleRun(c, consuming)
    requires Exec(c, INITIAL, consuming).lane.committed == |c.log|
    ensures
      var q := P.Exec(place, P.Initial(partitions), publishing).requests[r];
      var s := Exec(c, INITIAL, consuming);
      IsCompleted(s.db, q.event.eventId) || q.response.value.receipt.offset in DlqOffsets(s.lane.dlq)
  {
    AcceptedIsInPartition(place, partitions, publishing, r, c);
    var q := P.Exec(place, P.Initial(partitions), publishing).requests[r];
    DrainedEqualsCleanPass(c, consuming);
    FoldHandles(c.log, q.response.value.receipt.offset, q.event);
  }
}
