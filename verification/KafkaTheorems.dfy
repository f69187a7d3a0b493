/** The guarantees of the Kafka consumer over whole runs, and where they stop. */
module KafkaTheorems {
  import opened OrderEvents
  import opened OrderTables
  import opened KafkaProtocol
  import opened KafkaInvariants
  import opened KafkaHistory

  /** Every step of the run satisfies a condition on its label and the state it leaves. */
  ghost predicate AllSteps(c: Config, trace: seq<Label>, ok: (State, Label) -> bool) {
    trace == [] ||
    (AllSteps(c, trace[..|trace| - 1], ok) && ok(Exec(c, INITIAL, trace[..|trace| - 1]), trace[|trace| - 1]))
  }

  // ---------- Tables ----------

  lemma TablesAlwaysMatch(c: Config, trace: seq<Label>)
    requires c.Valid()
    ensures Matched(Exec(c, INITIAL, trace).db)
    ensures |Exec(c, INITIAL, trace).db.orders| == |Exec(c, INITIAL, trace).db.events|
  {
    SoundAlways(c, trace);
    CountsAgree(Exec(c, INITIAL, trace).db);
  }

  // ---------- No loss ----------

  /** The group has moved past the record, but its event was never completed and no DLQ record was acknowledged. */
  predicate Lost(c: Config, trace: seq<Label>, k: nat) {
    k < Exec(c, INITIAL, trace).lane.committed && !Settled(c, Hist(c, trace), k)
  }

  /** A lost record is one whose process_one raised while the consumer polled on, and a later record was committed. */
  lemma LostOnlyIfSkipped(c: Config, trace: seq<Label>, k: nat)
    requires c.Valid() && Lost(c, trace, k)
    ensures k in Hist(c, trace).skipped
    ensures k + 1 < Exec(c, INITIAL, trace).lane.committed <= |c.log|
  {
    SoundAlways(c, trace);
    AccountedAlways(c, trace);
    UnsettledIsSkipped(c, Exec(c, INITIAL, trace), Hist(c, trace), k);
  }

  lemma UnsettledIsSkipped(c: Config, s: State, h: History, k: nat)
    requires Orderly(c, s) && Accounted(c, s, h) && k < s.lane.committed && !Settled(c, h, k)
    ensures k in h.skipped && k + 1 < s.lane.committed <= |c.log|
  {
    assert Passed(c, s, h, k);
  }

  lemma {:induction false} RebuildSkipsNothing(c: Config, trace: seq<Label>)
    requires KeepPolling !in trace
    ensures Hist(c, trace).skipped == {}
    decreases |trace|
  {
    if trace != [] {
      assert trace[|trace| - 1] in trace;
      RebuildSkipsNothing(c, trace[..|trace| - 1]);
    }
  }

  /** With a new consumer after every error, whatever the group has passed was completed or dead-lettered. */
  lemma RebuildLosesNothing(c: Config, trace: seq<Label>, k: nat)
    requires c.Valid() && KeepPolling !in trace && k < Exec(c, INITIAL, trace).lane.committed
    ensures Settled(c, Hist(c, trace), k)
  {
    AccountedAlways(c, trace);
    RebuildSkipsNothing(c, trace);
    assert Passed(c, Exec(c, INITIAL, trace), Hist(c, trace), k);
  }

  // ---------- Redelivery ----------

  /** The record at offset k is still ahead: uncommitted, and not behind the position of a consumer at work. */
  predicate StillAhead(s: State, k: nat) {
    && s.lane.committed <= k
    && match s.lane.pc
       case Down => true
       case Raised(inHand) => inHand == Some(k) || s.lane.position <= k
       case _ => s.lane.position <= k
  }

  lemma AheadStep(c: Config, s: State, l: Label, k: nat)
    requires Orderly(c, s) && StillAhead(s, k) && l != KeepPolling
    requires l == Poll ==> s.lane.position != k
    ensures StillAhead(Step(c, s, l), k)
  {
    if Enabled(c, s, l) && s.lane.pc.Busy? && !l.Crash? {
      LaneInCall(c, s, l);
      hide Step, StageFacts;
    } else {
      hide CallStep, StageFacts;
    }
  }

  /** Until the record is polled again it stays ahead. */
  lemma {:induction false} AheadUntilDelivered(c: Config, trace: seq<Label>, more: seq<Label>, k: nat)
    requires c.Valid() && KeepPolling !in more && StillAhead(Exec(c, INITIAL, trace), k)
    ensures Hist(c, trace).deliveries[k] <= Hist(c, trace + more).deliveries[k]
    ensures Hist(c, trace).deliveries[k] == Hist(c, trace + more).deliveries[k] ==>
              StillAhead(Exec(c, INITIAL, trace + more), k)
    decreases |more|
  {
    if more == [] {
      assert trace + more == trace;
    } else {
      hide Exec, Hist, StillAhead, Step, Observe, Orderly;
      var init, l := more[..|more| - 1], more[|more| - 1];
      LastOf(trace, more);
      AheadUntilDelivered(c, trace, init, k);
      HistSnoc(c, trace + init, l);
      SoundAlways(c, trace + init);
      AheadOrDelivered(c, Exec(c, INITIAL, trace + init), l, Hist(c, trace + init), k);
    }
  }

  lemma LastOf(trace: seq<Label>, more: seq<Label>)
    requires more != [] && KeepPolling !in more
    ensures KeepPolling !in more[..|more| - 1] && more[|more| - 1] != KeepPolling
    ensures trace + more == (trace + more[..|more| - 1]) + [more[|more| - 1]]
  {
  }

  lemma AheadOrDelivered(c: Config, s: State, l: Label, h: History, k: nat)
    requires Orderly(c, s) && l != KeepPolling
    ensures h.deliveries[k] <= Observe(c, s, l, h).deliveries[k]
    ensures StillAhead(s, k) && h.deliveries[k] == Observe(c, s, l, h).deliveries[k] ==> StillAhead(Step(c, s, l), k)
  {
    if Enabled(c, s, l) && StillAhead(s, k) && (l == Poll ==> s.lane.position != k) {
      AheadStep(c, s, l, k);
    }
    hide Orderly, CallStep;
  }

  /**
   A record whose call raised before its commit took effect is delivered again before the group passes it, if the
   consumer is rebuilt after errors.
   */
  lemma RedeliveredBeforePassed(c: Config, trace: seq<Label>, more: seq<Label>, k: nat)
    requires c.Valid() && KeepPolling !in more
    requires Exec(c, INITIAL, trace).lane.pc == Raised(Some(k)) && Exec(c, INITIAL, trace).lane.committed <= k
    requires Exec(c, INITIAL, trace + more).lane.committed > k
    ensures Hist(c, trace + more).deliveries[k] > Hist(c, trace).deliveries[k]
  {
    AheadUntilDelivered(c, trace, more, k);
  }

  // ---------- When a record can be lost ----------

  /** The traces of a worker that polls on after an error, or of one that builds a new consumer instead. */
  predicate Policy(pollsOn: bool, trace: seq<Label>) {
    pollsOn || KeepPolling !in trace
  }

  /** The record at offset i is an order that the tables accept. */
  predicate StorableAt(c: Config, i: nat) {
    i < |c.log| && c.log[i].body.Order? && Storable(c.log[i].body.event)
  }

  predicate HasId(c: Config, k: nat, id: EventId) {
    k < |c.log| && c.log[k].body.Order? && c.log[k].body.event.eventId == id
  }

  /** The record at offset j is an order that can be completed, and its completion is not that of the record at k. */
  ghost predicate CompletableBut(c: Config, j: nat, k: nat) {
    && j < |c.log| && c.log[j].body.Order?
    && var id := c.log[j].body.event.eventId;
    && !HasId(c, k, id)
    && exists i: nat :: StorableAt(c, i) && HasId(c, i, id)
  }

  /** A later record can be committed: dead-lettered if there is a DLQ, else completed without completing this one. */
  ghost predicate CanBePassed(c: Config, k: nat) {
    if c.hasDlq then k + 1 < |c.log| else exists j: nat :: k < j && CompletableBut(c, j, k)
  }

  /**
   Some run loses the record at offset k exactly when the worker reuses its consumer after an error and a later record
   can be committed.
   */
  lemma LossIff(c: Config, pollsOn: bool, k: nat)
    requires c.Valid()
    ensures (exists trace :: Policy(pollsOn, trace) && Lost(c, trace, k)) <==> pollsOn && CanBePassed(c, k)
  {
    if trace :| Policy(pollsOn, trace) && Lost(c, trace, k) {
      LostOnlyIfSkipped(c, trace, k);
      if !pollsOn {
        RebuildSkipsNothing(c, trace);
        assert false;
      }
      if !c.hasDlq {
        PassedByCompletion(c, trace, k);
      }
    }
    if pollsOn && CanBePassed(c, k) {
      var trace := LosingRun(c, k);
      assert Policy(pollsOn, trace) && Lost(c, trace, k);
    }
  }

  lemma {:induction false} NothingAcknowledged(c: Config, trace: seq<Label>)
    requires c.Valid() && !c.hasDlq
    ensures Hist(c, trace).acknowledged == {}
    decreases |trace|
  {
    if trace != [] {
      NothingAcknowledged(c, trace[..|trace| - 1]);
      SoundAlways(c, trace[..|trace| - 1]);
    }
  }

  /** Every event that was ever completed is that of a storable record. */
  lemma {:induction false} CompletedWasStorable(c: Config, trace: seq<Label>, id: EventId)
    requires c.Valid() && id in Hist(c, trace).completedEver
    ensures exists i: nat :: StorableAt(c, i) && HasId(c, i, id)
    decreases |trace|
  {
    var init := trace[..|trace| - 1];
    if id in Hist(c, init).completedEver {
      CompletedWasStorable(c, init, id);
    } else {
      SoundAlways(c, trace);
      TraceableAlways(c, trace);
      ClaimWasStorable(c, Exec(c, INITIAL, trace), Hist(c, trace), id);
    }
  }

  lemma ClaimWasStorable(c: Config, s: State, h: History, id: EventId)
    requires Matched(s.db) && Traceable(c, s, h) && id in s.db.events
    ensures exists i: nat :: StorableAt(c, i) && HasId(c, i, id)
  {
    var o :| o in s.db.orders && s.db.orders[o].sourceEventId == id;
    var k: nat :| Delivered(c, h, o, s.db.orders[o], k);
    assert StorableAt(c, k) && HasId(c, k, id);
  }

  /** An order whose values the columns refuse, such as an amount below half a cent, never has a row, in any run. */
  lemma RefusedValuesNeverStored(c: Config, trace: seq<Label>, id: EventId)
    requires c.Valid() && forall i: nat :: HasId(c, i, id) ==> !Storable(c.log[i].body.event)
    ensures NoTrace(Exec(c, INITIAL, trace).db, id)
    ensures id !in Hist(c, trace).completedEver
  {
    SoundAlways(c, trace);
    TraceableAlways(c, trace);
    var s := Exec(c, INITIAL, trace);
    if id in s.db.events {
      ClaimWasStorable(c, s, Hist(c, trace), id);
      assert false;
    }
    UnclaimedHasNoTrace(s.db, id);
    if id in Hist(c, trace).completedEver {
      CompletedWasStorable(c, trace, id);
    }
  }

  /** Without a DLQ the last committed record was completed. */
  lemma PassedByCompletion(c: Config, trace: seq<Label>, k: nat)
    requires c.Valid() && !c.hasDlq && Lost(c, trace, k) && k + 1 < Exec(c, INITIAL, trace).lane.committed <= |c.log|
    ensures CanBePassed(c, k)
  {
    AccountedAlways(c, trace);
    NothingAcknowledged(c, trace);
    hide Exec, Hist;
    var j := Exec(c, INITIAL, trace).lane.committed - 1;
    CompletedWasStorable(c, trace, c.log[j].body.event.eventId);
    assert CompletableBut(c, j, k);
  }

  const FAIL := Raise(false, false)

  /** A run that never crashes and acknowledged no DLQ record for offset k; nothing it completed was deleted again. */
  ghost predicate Straight(c: Config, trace: seq<Label>, k: nat, s: State) {
    && IsRun(c, INITIAL, trace)
    && Crash !in trace
    && Exec(c, INITIAL, trace) == s
    && Hist(c, trace).completedEver == CompletedIn(s.db)
    && k !in Hist(c, trace).acknowledged
  }

  lemma StraightSnoc(c: Config, trace: seq<Label>, k: nat, s: State, l: Label, s': State) returns (trace': seq<Label>)
    requires Straight(c, trace, k, s)
    requires Enabled(c, s, l) && l != Crash && Step(c, s, l) == s'
    requires CompletedIn(s.db) <= CompletedIn(s'.db)
    requires l == Publish(Calm) && s.lane.pc.Busy? ==> k != s.lane.pc.call.offset
    ensures Straight(c, trace', k, s')
  {
    HistSnoc(c, trace, l);
    ExecSnoc(c, INITIAL, trace, l);
    trace' := trace + [l];
  }

  /** A consumer that stands before offset n, with nothing dead-lettered. */
  function Before(db: Tables, committed: nat, n: nat): State {
    State(db, Lane([], committed, n, Ready))
  }

  function During(db: Tables, committed: nat, n: nat, call: Call, stage: Stage): State {
    State(db, Lane([], committed, n + 1, Busy(call, stage)))
  }

  /** The record at offset n is polled and parsed. */
  lemma ParseAt(c: Config, k: nat, db: Tables, m: nat, n: nat, trace: seq<Label>) returns (trace': seq<Label>)
    requires c.Valid() && n < |c.log| && Straight(c, trace, k, Before(db, m, n))
    ensures Straight(c, trace', k, State(db, Lane([], m, n + 1, AfterParse(c, Call(n, 0, None)))))
  {
    var fetched := During(db, m, n, Call(n, 0, None), Fetched);
    trace' := StraightSnoc(c, trace, k, Before(db, m, n), Poll, fetched);
    trace' := StraightSnoc(c, trace', k, fetched, Parse, State(db, Lane([], m, n + 1, AfterParse(c, Call(n, 0, None)))));
  }

  /** Its first store call raises, if it parses at all. */
  lemma FailAt(c: Config, k: nat, db: Tables, m: nat, n: nat, trace: seq<Label>) returns (trace': seq<Label>)
    requires c.Valid() && n < |c.log| && Straight(c, trace, k, Before(db, m, n))
    ensures Straight(c, trace', k, State(db, Lane([], m, n + 1, FailedAt(c, n))))
  {
    trace' := ParseAt(c, k, db, m, n, trace);
    if c.log[n].body.Order? {
      trace' := StraightSnoc(c, trace', k, During(db, m, n, Call(n, 1, None), Storing), Store(FAIL),
                             State(db, Lane([], m, n + 1, FailedAt(c, n))));
    }
  }

  function FailedAt(c: Config, n: nat): Pc
    requires n < |c.log|
  {
    if !c.hasDlq then Raised(Some(n))
    else Busy(Call(n, 1, None), if c.log[n].body.Order? then Discarding(StoreFailed) else Publishing(Unparsed))
  }

  /** The record fails, so does its clean-up or its publication, and the worker polls on. */
  lemma SkipAt(c: Config, k: nat, db: Tables, m: nat, n: nat, trace: seq<Label>) returns (trace': seq<Label>)
    requires c.Valid() && n < |c.log| && Straight(c, trace, k, Before(db, m, n))
    ensures Straight(c, trace', k, Before(db, m, n + 1))
  {
    trace' := FailAt(c, k, db, m, n, trace);
    var failed := State(db, Lane([], m, n + 1, FailedAt(c, n)));
    var raised := State(db, Lane([], m, n + 1, Raised(Some(n))));
    if c.hasDlq {
      trace' := StraightSnoc(c, trace', k, failed, if c.log[n].body.Order? then Discard(FAIL) else Publish(FAIL), raised);
    }
    trace' := StraightSnoc(c, trace', k, raised, KeepPolling, Before(db, m, n + 1));
  }

  /** Fails on each record from offset `from` to before offset n, and polls on. */
  lemma {:induction false} SkipTo(c: Config, k: nat, db: Tables, m: nat, from: nat, n: nat, trace: seq<Label>)
    returns (trace': seq<Label>)
    requires c.Valid() && from <= n <= |c.log| && Straight(c, trace, k, Before(db, m, from))
    ensures Straight(c, trace', k, Before(db, m, n))
    decreases n - from
  {
    trace' := trace;
    if from < n {
      trace' := SkipAt(c, k, db, m, from, trace);
      trace' := SkipTo(c, k, db, m, from + 1, n, trace');
    }
  }

  /** Fails on each of the first n records, and polls on. */
  lemma WalkPast(c: Config, k: nat, n: nat) returns (trace: seq<Label>)
    requires c.Valid() && n <= |c.log|
    ensures Straight(c, trace, k, Before(EMPTY, 0, n))
  {
    assert Straight(c, [], k, INITIAL);
    trace := StraightSnoc(c, [], k, INITIAL, Start, Before(EMPTY, 0, 0));
    trace := SkipTo(c, k, EMPTY, 0, 0, n, trace);
  }

  lemma EmptyHasNothingToDiscard(id: EventId)
    ensures DiscardTx(EMPTY, id) == EMPTY
  {
    assert DiscardTx(EMPTY, id).orders == map[];
    assert DiscardTx(EMPTY, id).events == map[];
  }

  /** The record at offset n fails, is cleaned up and dead-lettered, and its offset is committed. */
  lemma DeadLetterAt(c: Config, k: nat, n: nat, trace: seq<Label>) returns (trace': seq<Label>, s: State)
    requires c.Valid() && c.hasDlq && n < |c.log| && n != k && Straight(c, trace, k, Before(EMPTY, 0, n))
    ensures Straight(c, trace', k, s) && s.db == EMPTY && s.lane.committed == n + 1
  {
    hide Straight;
    var call := Call(n, 1, None);
    var cause := if c.log[n].body.Order? then StoreFailed else Unparsed;
    trace' := FailAt(c, k, EMPTY, 0, n, trace);
    if c.log[n].body.Order? {
      EmptyHasNothingToDiscard(c.log[n].body.event.eventId);
      trace' := StraightSnoc(c, trace', k, During(EMPTY, 0, n, call, Discarding(cause)), Discard(Calm),
                             During(EMPTY, 0, n, call, Publishing(cause)));
    }
    var dlq := [DeadLetterFor(c, call, cause)];
    var published := State(EMPTY, Lane(dlq, 0, n + 1, Busy(call, Committing(true))));
    trace' := StraightSnoc(c, trace', k, During(EMPTY, 0, n, call, Publishing(cause)), Publish(Calm), published);
    s := State(EMPTY, Lane(dlq, n + 1, n + 1, Ready));
    trace' := StraightSnoc(c, trace', k, published, Commit(Calm), s);
  }

  /** A storable order is stored in empty tables. */
  lemma StoreAt(c: Config, k: nat, n: nat, trace: seq<Label>) returns (trace': seq<Label>)
    requires c.Valid() && StorableAt(c, n) && Straight(c, trace, k, Before(EMPTY, 0, n))
    ensures Straight(c, trace', k, During(Insert(EMPTY, c.log[n].body.event), 0, n, Call(n, 1, Some(true)),
                                          if c.hasDownstream then Notifying else Marking))
  {
    hide Straight;
    trace' := ParseAt(c, k, EMPTY, 0, n, trace);
    trace' := StraightSnoc(c, trace', k, During(EMPTY, 0, n, Call(n, 1, None), Storing), Store(Calm),
                           During(Insert(EMPTY, c.log[n].body.event), 0, n, Call(n, 1, Some(true)),
                                  if c.hasDownstream then Notifying else Marking));
  }

  lemma NotifyAt(c: Config, k: nat, db: Tables, m: nat, n: nat, call: Call, trace: seq<Label>)
    returns (trace': seq<Label>)
    requires c.Valid() && n < |c.log| && c.log[n].body.Order? && call.offset == n
    requires Straight(c, trace, k, During(db, m, n, call, if c.hasDownstream then Notifying else Marking))
    ensures Straight(c, trace', k, During(db, m, n, call, Marking))
  {
    trace' := trace;
    if c.hasDownstream {
      trace' := StraightSnoc(c, trace', k, During(db, m, n, call, Notifying), Notify(Calm), During(db, m, n, call, Marking));
    }
  }

  /** From a polled and stored order to its completion. */
  lemma MarkAt(c: Config, k: nat, db: Tables, m: nat, n: nat, call: Call, trace: seq<Label>)
    returns (trace': seq<Label>)
    requires c.Valid() && n < |c.log| && c.log[n].body.Order? && call.offset == n
    requires IsPending(db, c.log[n].body.event.eventId)
    requires Straight(c, trace, k, During(db, m, n, call, if c.hasDownstream then Notifying else Marking))
    ensures Straight(c, trace', k, During(MarkTx(db, c.log[n].body.event.eventId), m, n, call, Committing(false)))
  {
    hide Straight;
    trace' := NotifyAt(c, k, db, m, n, call, trace);
    trace' := StraightSnoc(c, trace', k, During(db, m, n, call, Marking), Mark(Calm),
                           During(MarkTx(db, c.log[n].body.event.eventId), m, n, call, Committing(false)));
  }

  /** The storable order at offset n is the first one to be stored, is completed and committed. */
  lemma CompleteAt(c: Config, k: nat, n: nat, trace: seq<Label>) returns (trace': seq<Label>, db: Tables)
    requires c.Valid() && StorableAt(c, n) && Straight(c, trace, k, Before(EMPTY, 0, n))
    ensures Straight(c, trace', k, Before(db, n + 1, n + 1))
    ensures CompletedIn(db) == {c.log[n].body.event.eventId}
  {
    hide Straight;
    var e := c.log[n].body.event;
    var call := Call(n, 1, Some(true));
    trace' := StoreAt(c, k, n, trace);
    trace' := MarkAt(c, k, Insert(EMPTY, e), 0, n, call, trace');
    db := MarkTx(Insert(EMPTY, e), e.eventId);
    trace' := StraightSnoc(c, trace', k, During(db, 0, n, call, Committing(false)), Commit(Calm), Before(db, n + 1, n + 1));
  }

  /** The order at offset n has been completed before: its delivery is committed at once. */
  lemma RepeatAt(c: Config, k: nat, db: Tables, m: nat, n: nat, trace: seq<Label>) returns (trace': seq<Label>)
    requires c.Valid() && n < |c.log| && c.log[n].body.Order? && IsCompleted(db, c.log[n].body.event.eventId)
    requires Straight(c, trace, k, Before(db, m, n))
    ensures Straight(c, trace', k, Before(db, n + 1, n + 1))
  {
    hide Straight;
    var call := Call(n, 1, Some(false));
    trace' := ParseAt(c, k, db, m, n, trace);
    trace' := StraightSnoc(c, trace', k, During(db, m, n, Call(n, 1, None), Storing), Store(Calm),
                           During(db, m, n, call, Committing(false)));
    trace' := StraightSnoc(c, trace', k, During(db, m, n, call, Committing(false)), Commit(Calm), Before(db, n + 1, n + 1));
  }

  lemma StraightLoses(c: Config, trace: seq<Label>, k: nat, s: State)
    requires Straight(c, trace, k, s) && k < s.lane.committed
    requires EventAt(c, k).Some? ==> EventAt(c, k).value.eventId !in CompletedIn(s.db)
    ensures Lost(c, trace, k) && IsRun(c, INITIAL, trace) && Crash !in trace
  {
  }

  /** Without a DLQ: a storable order is completed, and if it comes before k, its repetition after k is committed. */
  lemma LosingRunWithoutDlq(c: Config, k: nat, i: nat, j: nat) returns (trace: seq<Label>)
    requires c.Valid() && StorableAt(c, i) && k < j < |c.log| && c.log[j].body.Order?
    requires HasId(c, i, c.log[j].body.event.eventId) && !HasId(c, k, c.log[j].body.event.eventId)
    ensures Lost(c, trace, k) && IsRun(c, INITIAL, trace) && Crash !in trace
  {
    hide Straight;
    var db;
    trace := WalkPast(c, k, i);
    trace, db := CompleteAt(c, k, i, trace);
    if i > k {
      StraightLoses(c, trace, k, Before(db, i + 1, i + 1));
    } else {
      assert i < k;
      trace := SkipTo(c, k, db, i + 1, i + 1, j, trace);
      assert c.log[j].body.event.eventId in CompletedIn(db);
      trace := RepeatAt(c, k, db, i + 1, j, trace);
      StraightLoses(c, trace, k, Before(db, j + 1, j + 1));
    }
  }

  /** The run: fail on the record at k while polling on, then commit a later one. It never crashes. */
  lemma LosingRun(c: Config, k: nat) returns (trace: seq<Label>)
    requires c.Valid() && CanBePassed(c, k)
    ensures Lost(c, trace, k) && IsRun(c, INITIAL, trace) && Crash !in trace
  {
    if c.hasDlq {
      var s;
      trace := WalkPast(c, k, k + 1);
      trace, s := DeadLetterAt(c, k, k + 1, trace);
      StraightLoses(c, trace, k, s);
    } else {
      var j: nat :| k < j && CompletableBut(c, j, k);
      var i: nat :| StorableAt(c, i) && HasId(c, i, c.log[j].body.event.eventId);
      trace := LosingRunWithoutDlq(c, k, i, j);
    }
  }

  // ---------- Downstream effects ----------

  /** The windows in which an effect can be repeated stay quiet. */
  predicate WindowsQuiet(s: State, l: Label) {
    && (s.lane.pc.Busy? && s.lane.pc.stage.Marking? ==> l == Mark(Calm))
    && (l.Store? ==> l.fault.Calm?)
  }

  ghost predicate NeverStoreFailed(s: State) {
    s.lane.pc.Busy? && s.lane.pc.stage.Discarding? ==>
      s.lane.pc.stage.cause != StoreFailed && s.lane.pc.stage.cause != MarkFailed(true)
  }

  lemma {:induction false} QuietHistory(c: Config, trace: seq<Label>)
    requires c.Valid() && AllSteps(c, trace, WindowsQuiet)
    ensures Hist(c, trace).orphaned == multiset{} && Hist(c, trace).revoked == multiset{}
    ensures NeverStoreFailed(Exec(c, INITIAL, trace))
    decreases |trace|
  {
    if trace != [] {
      var init := trace[..|trace| - 1];
      SoundAlways(c, init);
      QuietHistory(c, init);
      QuietHistoryStep(c, Exec(c, INITIAL, init), trace[|trace| - 1], Hist(c, init));
    }
  }

  lemma QuietHistoryStep(c: Config, s: State, l: Label, h: History)
    requires c.Valid() && Orderly(c, s) && NeverStoreFailed(s) && WindowsQuiet(s, l)
    requires h.orphaned == multiset{} && h.revoked == multiset{}
    ensures Observe(c, s, l, h).orphaned == multiset{} && Observe(c, s, l, h).revoked == multiset{}
    ensures NeverStoreFailed(Step(c, s, l))
  {
  }

  /** Each event completed is notified exactly once, and no other event's notification is forgotten. */
  lemma NotifiedExactlyOnce(c: Config, trace: seq<Label>, id: EventId)
    requires c.Valid() && c.hasDownstream && AllSteps(c, trace, WindowsQuiet)
    ensures
      var s := Exec(c, INITIAL, trace);
      Hist(c, trace).notified[id] == if IsCompleted(s.db, id) || BetweenNotifyAndMark(c, s, id) then 1 else 0
  {
    SoundAlways(c, trace);
    QuietHistory(c, trace);
    BalancedAlways(c, trace, id);
    var s := Exec(c, INITIAL, trace);
    assert Orderly(c, s);
    assert !(IsCompleted(s.db, id) && BetweenNotifyAndMark(c, s, id));
  }

  // ---------- Completion ----------

  /** The step removes a completed claim. */
  predicate Revokes(c: Config, s: State, l: Label, id: EventId) {
    IsCompleted(s.db, id) && !IsCompleted(Step(c, s, l).db, id)
  }

  /**
   A completed row disappears exactly when the clean-up of a process_one call for the same event runs, after that
   call's store raised on the completed row or its mark_completed raised after taking effect.
   */
  lemma RevokedExactlyBy(c: Config, trace: seq<Label>, l: Label, id: EventId)
    requires c.Valid()
    ensures
      var s := Exec(c, INITIAL, trace);
      Revokes(c, s, l, id) <==>
        && l.Discard?
        && (l.fault.Calm? || l.fault.applied)
        && s.lane.pc.Busy?
        && s.lane.pc.stage.Discarding?
        && EventAt(c, s.lane.pc.call.offset).Some?
        && EventAt(c, s.lane.pc.call.offset).value.eventId == id
        && (s.lane.pc.stage.cause == MarkFailed(true) ||
            (s.lane.pc.stage.cause == StoreFailed && IsCompleted(s.db, id)))
  {
    SoundAlways(c, trace);
    RevokedExactlyByStep(c, Exec(c, INITIAL, trace), l, id);
  }

  lemma RevokedExactlyByStep(c: Config, s: State, l: Label, id: EventId)
    requires Orderly(c, s)
    ensures Revokes(c, s, l, id) <==>
        && l.Discard?
        && (l.fault.Calm? || l.fault.applied)
        && s.lane.pc.Busy?
        && s.lane.pc.stage.Discarding?
        && EventAt(c, s.lane.pc.call.offset).Some?
        && EventAt(c, s.lane.pc.call.offset).value.eventId == id
        && (s.lane.pc.stage.cause == MarkFailed(true) ||
            (s.lane.pc.stage.cause == StoreFailed && IsCompleted(s.db, id)))
  {
  }

  /** `store` raises only for a constraint, and a mark_completed that raises left the row alone. */
  predicate HonestStore(s: State, l: Label) {
    && (l.Store? ==> l.fault.Calm?)
    && (l.Mark? ==> l.fault.Calm? || !l.fault.applied)
  }

  lemma {:induction false} HonestCauses(c: Config, trace: seq<Label>)
    requires c.Valid() && AllSteps(c, trace, HonestStore)
    ensures NeverStoreFailed(Exec(c, INITIAL, trace))
    decreases |trace|
  {
    if trace != [] {
      HonestCauses(c, trace[..|trace| - 1]);
      HonestCauseStep(c, Exec(c, INITIAL, trace[..|trace| - 1]), trace[|trace| - 1]);
    }
  }

  lemma HonestCauseStep(c: Config, s: State, l: Label)
    requires NeverStoreFailed(s) && HonestStore(s, l)
    ensures NeverStoreFailed(Step(c, s, l))
  {
  }

  /** Once completed, always completed, however the run goes on. */
  lemma {:induction false} CompletionIsPermanent(c: Config, trace: seq<Label>, more: seq<Label>, id: EventId)
    requires c.Valid() && AllSteps(c, trace + more, HonestStore)
    requires IsCompleted(Exec(c, INITIAL, trace).db, id)
    ensures IsCompleted(Exec(c, INITIAL, trace + more).db, id)
    decreases |more|
  {
    if more == [] {
      assert trace + more == trace;
    } else {
      var init, l := more[..|more| - 1], more[|more| - 1];
      assert (trace + more)[..|trace + more| - 1] == trace + init;
      CompletionIsPermanent(c, trace, init, id);
      HonestCauses(c, trace + init);
      RevokedExactlyBy(c, trace + init, l, id);
    }
  }

  /** A run in which a completed order is deleted again exists exactly when there is a DLQ and a storable order. */
  lemma RevocableIff(c: Config)
    requires c.Valid()
    ensures (exists trace, l, id :: Revokes(c, Exec(c, INITIAL, trace), l, id)) <==>
            c.hasDlq && exists k: nat :: StorableAt(c, k)
  {
    if trace, l, id :| Revokes(c, Exec(c, INITIAL, trace), l, id) {
      RevokedExactlyBy(c, trace, l, id);
      SoundAlways(c, trace);
      TraceableAlways(c, trace);
      ClaimWasStorable(c, Exec(c, INITIAL, trace), Hist(c, trace), id);
    }
    if c.hasDlq && exists k: nat :: StorableAt(c, k) {
      var k: nat :| StorableAt(c, k);
      var trace := RevokingRun(c, k);
      assert Revokes(c, Exec(c, INITIAL, trace), Discard(Calm), c.log[k].body.event.eventId);
    }
  }

  /** The run: an order is stored and notified, its completion lands but the call raises, and the clean-up is due. */
  lemma RevokingRun(c: Config, k: nat) returns (trace: seq<Label>)
    requires c.Valid() && c.hasDlq && StorableAt(c, k)
    ensures Revokes(c, Exec(c, INITIAL, trace), Discard(Calm), c.log[k].body.event.eventId)
  {
    var e, call := c.log[k].body.event, Call(k, 1, Some(true));
    trace := WalkPast(c, k, k);
    trace := StoreAt(c, k, k, trace);
    trace := NotifyAt(c, k, Insert(EMPTY, e), 0, k, call, trace);
    LateMarkIsRevoked(c, k, During(Insert(EMPTY, e), 0, k, call, Marking));
    hide Step, Revokes, Enabled;
    ExecSnoc(c, INITIAL, trace, Mark(Raise(true, false)));
    trace := trace + [Mark(Raise(true, false))];
  }

  lemma LateMarkIsRevoked(c: Config, k: nat, s: State)
    requires c.Valid() && c.hasDlq && StorableAt(c, k)
    requires s == During(Insert(EMPTY, c.log[k].body.event), 0, k, Call(k, 1, Some(true)), Marking)
    ensures Revokes(c, Step(c, s, Mark(Raise(true, false))), Discard(Calm), c.log[k].body.event.eventId)
  {
  }

  // ---------- Dead letters ----------

  /** When a DLQ record is published, neither table holds a row of its event. */
  lemma PublishFindsNoRows(c: Config, trace: seq<Label>, f: Fault)
    requires c.Valid() && Enabled(c, Exec(c, INITIAL, trace), Publish(f))
    ensures
      var s := Exec(c, INITIAL, trace);
      EventAt(c, s.lane.pc.call.offset).Some? ==> NoTrace(s.db, EventAt(c, s.lane.pc.call.offset).value.eventId)
  {
    SoundAlways(c, trace);
    var s := Exec(c, INITIAL, trace);
    assert Orderly(c, s);
    if EventAt(c, s.lane.pc.call.offset).Some? {
      UnclaimedHasNoTrace(s.db, EventAt(c, s.lane.pc.call.offset).value.eventId);
    }
  }

  /** DLQ records are faithful copies, at most one per delivery; stored rows are those of delivered, parsed records. */
  ghost predicate Genuine(c: Config, s: State, h: History) {
    && (forall d :: d in s.lane.dlq ==> Faithful(c, d))
    && (forall k: nat :: Tally(s.lane.dlq)[k] <= h.deliveries[k])
    && (forall o :: o in s.db.orders ==> exists k: nat :: Delivered(c, h, o, s.db.orders[o], k))
  }

  lemma TraceableIsGenuine(c: Config, s: State, h: History)
    requires Traceable(c, s, h)
    ensures Genuine(c, s, h)
  {
    hide Tally, Faithful, Delivered;
    forall k: nat ensures Tally(s.lane.dlq)[k] <= h.deliveries[k] {
      assert Tally(s.lane.dlq)[k] + One(Unpublished(s, k)) <= h.deliveries[k];
    }
  }

  lemma DeadLettersAndRowsAreGenuine(c: Config, trace: seq<Label>)
    requires c.Valid()
    ensures Genuine(c, Exec(c, INITIAL, trace), Hist(c, trace))
  {
    TraceableAlways(c, trace);
    hide Traceable, Genuine;
    TraceableIsGenuine(c, Exec(c, INITIAL, trace), Hist(c, trace));
  }

  /** If every error leads to a new consumer, the group passes an unparseable record only over its DLQ record. */
  lemma MalformedPassedOnlyByDeadLetter(c: Config, trace: seq<Label>, k: nat)
    requires c.Valid() && KeepPolling !in trace
    requires k < Exec(c, INITIAL, trace).lane.committed && BodyAt(c, k).Malformed?
    ensures k in Hist(c, trace).acknowledged
    ensures exists d :: d in Exec(c, INITIAL, trace).lane.dlq && d.offset == k && d.payload == BodyAt(c, k)
  {
    AccountedAlways(c, trace);
    RebuildSkipsNothing(c, trace);
    TraceableAlways(c, trace);
    hide Exec, Hist;
    var s, h := Exec(c, INITIAL, trace), Hist(c, trace);
    assert Passed(c, s, h, k);
    var d :| d in s.lane.dlq && d.offset == k;
    assert Faithful(c, d);
  }
}
