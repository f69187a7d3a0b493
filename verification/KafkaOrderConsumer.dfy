/** The consumer class. Its `ProcessOne` is a run of the protocol, whatever the outside world does to its calls. */
module KafkaOrderConsumer {
  import opened OrderEvents
  import opened OrderTables
  import opened KafkaProtocol
  import opened KafkaInvariants
  import opened KafkaCall
  import opened NotificationClient

  /** The partition as the broker keeps it, and the DLQ topic. */
  class Broker {
    const log: seq<Record>
    var committed: nat
    var dlq: seq<DeadLetter>

    constructor (log: seq<Record>)
      ensures this.log == log && committed == 0 && dlq == []
    {
      this.log := log;
      committed, dlq := 0, [];
    }

    method Commit(offset: nat, fault: Fault) returns (ok: bool)
      modifies this
      ensures dlq == old(dlq)
      ensures committed == if fault.Raise? && !fault.applied then old(committed) else offset + 1
      ensures ok <==> fault.Calm?
    {
      if fault.Calm? || fault.applied {
        committed := offset + 1;
      }
      ok := fault.Calm?;
    }

    method PublishFailure(d: DeadLetter, fault: Fault) returns (ok: bool)
      modifies this
      ensures committed == old(committed)
      ensures dlq == if fault.Raise? && !fault.applied then old(dlq) else old(dlq) + [d]
      ensures ok <==> fault.Calm?
    {
      if fault.Calm? || fault.applied {
        dlq := dlq + [d];
      }
      ok := fault.Calm?;
    }
  }

  datatype PollReply = Nothing | BrokerError | Message

  /** What the polls before the deadline bring; a message can only be one that the log holds. */
  function News(polls: seq<PollReply>, ahead: bool): PollReply {
    if polls == [] then Nothing
    else if polls[0].BrokerError? || (polls[0].Message? && ahead) then polls[0]
    else News(polls[1..], ahead)
  }

  /** The news is that of the first poll that brings anything. */
  lemma {:induction false} NewsIsFirst(polls: seq<PollReply>, ahead: bool)
    ensures News(polls, ahead).Nothing? <==>
              forall i :: 0 <= i < |polls| ==> polls[i].Nothing? || (polls[i].Message? && !ahead)
    ensures News(polls, ahead).BrokerError? <==>
              exists i :: 0 <= i < |polls| && polls[i].BrokerError? && forall j :: 0 <= j < i ==> !(polls[j].Message? && ahead)
    ensures News(polls, ahead).Message? <==>
              exists i :: 0 <= i < |polls| && polls[i].Message? && ahead && forall j :: 0 <= j < i ==> !polls[j].BrokerError?
    decreases |polls|
  {
    if polls != [] && !polls[0].BrokerError? && !(polls[0].Message? && ahead) {
      NewsIsFirst(polls[1..], ahead);
      assert News(polls, ahead) == News(polls[1..], ahead);
      hide News;
      assert polls == [polls[0]] + polls[1..];
      assert forall i :: 0 <= i < |polls| - 1 ==> polls[1..][i] == polls[i + 1];
      assert forall i :: 1 <= i < |polls| ==> polls[i] == polls[1..][i - 1];
    }
  }

  /** What one process_one does: nothing, a poll that raises, or a call that ends, its faults as the oracle says. */
  ghost predicate Course(c: Config, s: State, polls: seq<PollReply>, oracle: nat -> Fault, trace: seq<Label>) {
    && IsRun(c, s, trace)
    && match News(polls, s.lane.position < |c.log|)
       case Nothing => trace == []
       case BrokerError => trace == [PollError]
       case Message =>
         && IsCall(c, s, trace)
         && Driven(oracle, 0, trace)
         && (Exec(c, s, trace).lane.pc.Ready? || Exec(c, s, trace).lane.pc.Raised?)
  }

  datatype Processed = Processed(
    eventId: Option<EventId>,
    offset: nat,
    duplicate: bool,
    attempts: nat,
    deadLettered: bool)

  datatype Outcome = Returned(record: Processed) | TimedOut | Errored

  /** The evidence a call reports, read off the consumer right before the commit. */
  function Report(c: Config, call: Call, dead: bool): Processed {
    Processed(
      if EventAt(c, call.offset).Some? then Some(EventAt(c, call.offset).value.eventId) else None,
      call.offset,
      call.initialIsNew == Some(false),
      call.attempts,
      dead)
  }

  /** What the returned evidence means, in terms of the log, the tables and the calls that were made. */
  predicate Truthful(c: Config, s: State, trace: seq<Label>, record: Processed) {
    && s.lane.position < |c.log|
    && record.offset == s.lane.position
    && match c.log[s.lane.position].body
       case Malformed(_) => record.deadLettered && record.eventId == None && !record.duplicate && record.attempts == 1
       case Order(e) =>
         && record.eventId == Some(e.eventId)
         && record.attempts == Stores(trace)
         && (record.duplicate <==>
               if record.deadLettered then FirstReply(c, s, trace, e) == Some(true)
               else e.eventId in s.db.events || BlindClaim(trace))
  }

  lemma EvidenceIsTruthful(c: Config, s: State, trace: seq<Label>, record: Processed)
    requires c.Valid() && Orderly(c, s) && IsCall(c, s, trace) && |trace| > 1 && trace[|trace| - 1] == Commit(Calm)
    requires
      var before := Exec(c, s, trace[..|trace| - 1]).lane.pc;
      before.Busy? && before.stage == Committing(record.deadLettered) && record == Report(c, before.call, record.deadLettered)
    ensures Truthful(c, s, trace, record)
  {
    var n := |trace| - 1;
    var init := trace[..n];
    RunPrefix(c, s, trace, n);
    assert IsCall(c, s, init);
    OffsetInHand(c, s, trace, n);
    RunPrefix(c, s, trace, 0);
    assert trace[..0] == [];
    hide Step, IsCall, Orderly;
    if EventAt(c, s.lane.position).None? {
      UnparsedCall(c, s, init);
      CallOffset(c, s, init);
    } else {
      var e := EventAt(c, s.lane.position).value;
      FirstReplyIsRemembered(c, s, init, e);
      CallFactsHold(c, s, init);
      if !record.deadLettered {
        EvidenceIsTrue(c, s, init);
      }
    }
  }

  /** How one pass through the try-block of the retry loop ends. */
  datatype AttemptResult = Succeeded | Failed(cause: Cause, retryable: bool)

  class KafkaOrderConsumer {
    const c: Config
    const store: PostgresOrderStore
    const client: OrderNotificationClient
    const broker: Broker
    var position: nat
    ghost var pc: Pc

    ghost predicate Valid()
      reads this, store, client, broker
    {
      c.Valid() && broker.log == c.log && client.maxAttempts > 0 && Orderly(c, State())
    }

    ghost function State(): State
      reads this, store, broker
    {
      KafkaProtocol.State(store.Rows(), Lane(broker.dlq, broker.committed, position, pc))
    }

    /** Wherever the consumer before it crashed, subscribing a new one resumes at the committed offset. */
    constructor (c: Config, store: PostgresOrderStore, client: OrderNotificationClient, broker: Broker)
      requires c.Valid() && broker.log == c.log && client.maxAttempts > 0 && broker.committed <= |c.log|
      ensures Valid() && this.c == c && this.store == store && this.client == client && this.broker == broker
      ensures forall p: nat, was: Pc ::
                var crashed := Step(c, KafkaProtocol.State(store.Rows(), Lane(broker.dlq, broker.committed, p, was)), Crash);
                State() == Step(c, crashed, Start)
    {
      this.c := c;
      this.store := store;
      this.client := client;
      this.broker := broker;
      position := broker.committed;
      pc := Ready;
    }

    // ---------- The external calls, one step of the protocol each ----------

    method CallStore(e: OrderEvent, ghost call: Call, fault: Fault) returns (r: StoreReply)
      requires Valid() && pc == Busy(call, Storing) && EventAt(c, call.offset) == Some(e)
      modifies store, `pc
      ensures Valid() && Enabled(c, old(State()), Store(fault)) && State() == Step(c, old(State()), Store(fault))
      ensures fault.Calm? ==>
                if IsCompleted(old(store.Rows()), e.eventId) then r == Stored(false, false)
                else if Refuses(old(store.Rows()), e) then r == ConstraintViolated
                else r == Stored(e.eventId !in old(store.events), true)
      ensures fault.Raise? ==> r == StoreRaised(fault.retryable)
      ensures store.Rows() == Under(fault, old(store.Rows()), StoreTx(old(store.Rows()), e))
      ensures pc == AfterStore(c, old(store.Rows()), e, call, fault)
    {
      ghost var s := State();
      r := store.Store(e, fault);
      pc := AfterStore(c, s.db, e, call, fault);
      assert State() == Step(c, s, Store(fault));
      OrderlyStep(c, s, Store(fault));
    }

    method CallNotify(e: OrderEvent, ghost call: Call, fault: Fault) returns (r: NotifyReply, ghost seen: Fault)
      requires Valid() && pc == Busy(call, Notifying) && EventAt(c, call.offset) == Some(e)
      modifies client, `pc
      ensures Valid() && Enabled(c, old(State()), Notify(seen)) && State() == Step(c, old(State()), Notify(seen))
      ensures seen == if r.Accepted? then Calm else Raise(fault.Raise? && fault.applied, r.retryable)
      ensures Dictated(Notify(seen), fault)
      ensures pc == if r.Accepted? then Busy(call, Marking) else AfterFailure(c, call, NotifyFailed, r.retryable)
      ensures fault.Calm? || r.Accepted? ==>
                Exchange(client.answers, client.maxAttempts, old(client.posts), client.posts, r.Accepted?)
      ensures fault.Calm? && !r.Accepted? ==> r.retryable == client.retryable
    {
      ghost var s := State();
      r := client.Notify(fault);
      seen := if r.Accepted? then Calm else Raise(fault.Raise? && fault.applied, r.retryable);
      pc := Step(c, s, Notify(seen)).lane.pc;
      OrderlyStep(c, s, Notify(seen));
    }

    method CallMark(e: OrderEvent, ghost call: Call, fault: Fault) returns (r: UpdateReply)
      requires Valid() && pc == Busy(call, Marking) && EventAt(c, call.offset) == Some(e)
      modifies store, `pc
      ensures Valid() && Enabled(c, old(State()), Mark(fault)) && State() == Step(c, old(State()), Mark(fault))
      ensures r == if fault.Raise? then UpdateRaised(fault.retryable) else Updated
      ensures store.Rows() == Under(fault, old(store.Rows()), MarkTx(old(store.Rows()), e.eventId))
      ensures pc == if fault.Calm? then Busy(call, Committing(false))
                    else AfterFailure(c, call, MarkFailed(fault.applied), fault.retryable)
    {
      ghost var s := State();
      r := store.MarkCompleted(e.eventId, fault);
      pc := AfterMark(c, s.db, e, call, fault);
      assert State() == Step(c, s, Mark(fault));
      OrderlyStep(c, s, Mark(fault));
    }

    // ---------- The retry loop ----------

    /** The event still needs its effects and its store call will not be refused. */
    ghost predicate Processable(e: OrderEvent)
      reads store
    {
      !IsCompleted(store.Rows(), e.eventId) && !Refuses(store.Rows(), e)
    }

    /** The second half of the try-block, for an event that is stored and not completed. */
    method CompleteEffects(e: OrderEvent, ghost call: Call, oracle: nat -> Fault, at: nat)
      returns (r: AttemptResult, next: nat, ghost steps: seq<Label>)
      requires Valid() && EventAt(c, call.offset) == Some(e)
      requires pc == Busy(call, if c.hasDownstream then Notifying else Marking)
      modifies store, client, `pc
      ensures Valid()
      ensures Walk(c, oracle, old(State()), at, steps, State(), next)
      ensures pc == if r.Succeeded? then Busy(call, Committing(false)) else AfterFailure(c, call, r.cause, r.retryable)
      ensures (forall i :: oracle(i).Calm?) && c.hasDownstream ==>
                && Exchange(client.answers, client.maxAttempts, old(client.posts), client.posts, r.Succeeded?)
                && (r.Failed? ==> r.retryable == client.retryable && store.Rows() == old(store.Rows()))
    {
      hide Walk, Orderly;
      ghost var s := State();
      steps, next := [], at;
      WalkNil(c, oracle, s, at);
      if c.hasDownstream {
        ghost var s' := State();
        var answer, seen := CallNotify(e, call, oracle(next));
        WalkSnoc(c, oracle, s, at, steps, s', next, Notify(seen));
        steps, next := steps + [Notify(seen)], next + 1;
        if answer.NotifyRaised? {
          return Failed(NotifyFailed, answer.retryable), next, steps;
        }
      }
      var fault := oracle(next);
      ghost var s' := State();
      var marked := CallMark(e, call, fault);
      WalkSnoc(c, oracle, s, at, steps, s', next, Mark(fault));
      steps, next := steps + [Mark(fault)], next + 1;
      r := if fault.Raise? then Failed(MarkFailed(fault.applied), marked.retryable) else Succeeded;
    }

    /** One pass through the try-block: store, then notify and mark_completed unless the row is completed already. */
    method Attempt(e: OrderEvent, offset: nat, attempts: nat, initialIsNew: Option<bool>, oracle: nat -> Fault, at: nat)
      returns (r: AttemptResult, isNew: Option<bool>, next: nat, ghost steps: seq<Label>)
      requires Valid() && pc == Busy(Call(offset, attempts, initialIsNew), Storing) && EventAt(c, offset) == Some(e)
      modifies store, client, `pc
      ensures Valid()
      ensures Walk(c, oracle, old(State()), at, steps, State(), next)
      ensures pc == if r.Succeeded? then Busy(Call(offset, attempts, isNew), Committing(false))
                    else AfterFailure(c, Call(offset, attempts, isNew), r.cause, r.retryable)
      ensures (forall i :: oracle(i).Calm?) && c.hasDownstream && old(Processable(e)) ==>
                && Exchange(client.answers, client.maxAttempts, old(client.posts), client.posts, r.Succeeded?)
                && (r.Failed? ==> r.retryable == client.retryable && Processable(e))
    {
      hide Walk, Orderly;
      ghost var s := State();
      isNew, next := initialIsNew, at + 1;
      var reply := CallStore(e, Call(offset, attempts, initialIsNew), oracle(at));
      WalkNil(c, oracle, s, at);
      WalkSnoc(c, oracle, s, at, [], s, at, Store(oracle(at)));
      steps := [] + [Store(oracle(at))];
      match reply {
        case StoreRaised(retryable) => r := Failed(StoreFailed, retryable);
        case ConstraintViolated => r := Failed(StoreRefused, c.refusalRetryable(e));
        case Stored(new_, required) =>
          isNew := if isNew.None? then Some(new_) else isNew;
          if required {
            ghost var s', rest := State(), [];
            r, next, rest := CompleteEffects(e, Call(offset, attempts, isNew), oracle, next);
            WalkConcat(c, oracle, s, at, steps, s', at + 1, rest, State(), next);
            steps := steps + rest;
          } else {
            r := Succeeded;
          }
      }
    }

    /** The retry loop: attempts until one succeeds, fails for good or uses up the limit. */
    method RetryEffects(e: OrderEvent, offset: nat, oracle: nat -> Fault, from: nat)
      returns (r: AttemptResult, attempts: nat, isNew: Option<bool>, next: nat, ghost steps: seq<Label>)
      requires Valid() && pc == Busy(Call(offset, 1, None), Storing) && EventAt(c, offset) == Some(e)
      modifies store, client, `pc
      ensures Valid()
      ensures Walk(c, oracle, old(State()), from, steps, State(), next)
      ensures pc == if r.Succeeded? then Busy(Call(offset, attempts, isNew), Committing(false))
                    else if c.hasDlq then Busy(Call(offset, attempts, isNew), Discarding(r.cause))
                    else Raised(Some(offset))
      ensures (forall i :: oracle(i).Calm?) && c.hasDownstream && client.retryable && old(Processable(e)) ==>
                RetriedExchange(client.answers, client.maxAttempts, c.maxAttempts, old(client.posts), client.posts,
                                attempts, r.Succeeded?)
    {
      hide Walk, Orderly, RetriedExchange, FailedSoFar;
      ghost var s := State();
      ghost var p := client.posts;
      steps, next, isNew, attempts := [], from, None, 0;
      WalkNil(c, oracle, s, from);
      NoneFailed(client.answers, client.maxAttempts, p);
      while true
        invariant Valid() && attempts < c.maxAttempts
        invariant pc == Busy(Call(offset, attempts + 1, isNew), Storing)
        invariant Walk(c, oracle, s, from, steps, State(), next)
        invariant (forall i :: oracle(i).Calm?) && c.hasDownstream && client.retryable && old(Processable(e)) ==>
                    Processable(e) && FailedSoFar(client.answers, client.maxAttempts, p, client.posts, attempts)
        decreases c.maxAttempts - attempts
      {
        attempts := attempts + 1;
        ghost var s', more, mid := State(), [], next;
        ghost var q := client.posts;
        r, isNew, next, more := Attempt(e, offset, attempts, isNew, oracle, next);
        WalkConcat(c, oracle, s, from, steps, s', mid, more, State(), next);
        steps := steps + more;
        ExchangeExtends(client.answers, client.maxAttempts, c.maxAttempts, p, q, client.posts, attempts, r.Succeeded?);
        if r.Succeeded? {
          return;
        }
        var canRetry := r.retryable && attempts < c.maxAttempts;
        if !canRetry {
          return;
        }
      }
    }

    // ---------- Commit and dead-letter path ----------

    method CommitOffset(ghost call: Call, offset: nat, ghost dead: bool, fault: Fault) returns (ok: bool)
      requires Valid() && call.offset == offset && pc == Busy(call, Committing(dead))
      modifies broker, `pc
      ensures Valid() && Enabled(c, old(State()), Commit(fault)) && State() == Step(c, old(State()), Commit(fault))
      ensures pc == if ok then Ready else Raised(Some(offset))
      ensures ok <==> fault.Calm?
      ensures broker.dlq == old(broker.dlq)
    {
      ghost var s := State();
      ok := broker.Commit(offset, fault);
      pc := if ok then Ready else Raised(Some(offset));
      assert State() == Step(c, s, Commit(fault));
      OrderlyStep(c, s, Commit(fault));
    }

    method CallPublish(call: Call, cause: Cause, fault: Fault) returns (ok: bool)
      requires Valid() && pc == Busy(call, Publishing(cause))
      modifies broker, `pc
      ensures Valid() && Enabled(c, old(State()), Publish(fault)) && State() == Step(c, old(State()), Publish(fault))
      ensures pc == if ok then Busy(call, Committing(true)) else Raised(Some(call.offset))
      ensures ok <==> fault.Calm?
      ensures Adds(old(broker.dlq), broker.dlq, fault, call, cause)
    {
      ghost var s := State();
      ok := broker.PublishFailure(DeadLetterFor(c, call, cause), fault);
      pc := if ok then Busy(call, Committing(true)) else Raised(Some(call.offset));
      assert State() == Step(c, s, Publish(fault));
      OrderlyStep(c, s, Publish(fault));
    }

    method CallDiscard(e: OrderEvent, ghost call: Call, ghost cause: Cause, fault: Fault) returns (ok: bool)
      requires Valid() && pc == Busy(call, Discarding(cause)) && EventAt(c, call.offset) == Some(e)
      modifies store, `pc
      ensures Valid() && Enabled(c, old(State()), Discard(fault)) && State() == Step(c, old(State()), Discard(fault))
      ensures pc == if ok then Busy(call, Publishing(cause)) else Raised(Some(call.offset))
      ensures ok <==> fault.Calm?
    {
      ghost var s := State();
      var r := store.Discard(e.eventId, fault);
      ok := r.Updated?;
      pc := if ok then Busy(call, Publishing(cause)) else Raised(Some(call.offset));
      assert State() == Step(c, s, Discard(fault));
      OrderlyStep(c, s, Discard(fault));
    }

    /** The last step of every returning call, and the evidence it returns. */
    ghost predicate Closes(s: State, steps: seq<Label>, r: Outcome)
      reads this, store, broker
    {
      match r
      case TimedOut => false
      case Errored => pc.Raised?
      case Returned(record) =>
        && pc == Ready
        && steps != []
        && steps[|steps| - 1] == Commit(Calm)
        && var before := Exec(c, s, steps[..|steps| - 1]).lane.pc;
        && before.Busy?
        && before.stage == Committing(record.deadLettered)
        && record == Report(c, before.call, record.deadLettered)
    }

    method Finish(call: Call, dead: bool, oracle: nat -> Fault, at: nat) returns (r: Outcome, ghost steps: seq<Label>)
      requires Valid() && pc == Busy(call, Committing(dead))
      modifies broker, `pc
      ensures Valid() && Walk(c, oracle, old(State()), at, steps, State(), at + Calls(steps))
      ensures Closes(old(State()), steps, r)
      ensures r == if oracle(at).Calm? then Returned(Report(c, call, dead)) else Errored
      ensures r.Returned? ==>
                && r.record.eventId == (if EventAt(c, call.offset).Some? then Some(EventAt(c, call.offset).value.eventId) else None)
                && r.record.offset == call.offset && r.record.deadLettered == dead
                && (r.record.duplicate <==> call.initialIsNew == Some(false)) && r.record.attempts == call.attempts
      ensures broker.dlq == old(broker.dlq)
    {
      ghost var s := State();
      var fault := oracle(at);
      var ok := CommitOffset(call, call.offset, dead, fault);
      WalkNil(c, oracle, s, at);
      WalkSnoc(c, oracle, s, at, [], s, at, Commit(fault));
      steps := [] + [Commit(fault)];
      r := if ok then Returned(Report(c, call, dead)) else Errored;
      if ok {
        ClosesWithCommit(s, call, dead);
      }
    }

    lemma ClosesWithCommit(s: State, call: Call, dead: bool)
      requires s.lane.pc == Busy(call, Committing(dead)) && pc == Ready
      ensures Closes(s, [] + [Commit(Calm)], Returned(Report(c, call, dead)))
    {
      var steps: seq<Label> := [] + [Commit(Calm)];
      assert steps[..|steps| - 1] == [];
    }

    /** A publication adds one record, for the message in hand and the given cause, or none. */
    predicate Adds(dlq: seq<DeadLetter>, dlq': seq<DeadLetter>, fault: Fault, call: Call, cause: Cause) {
      if fault.Raise? && !fault.applied then dlq' == dlq
      else
        && |dlq'| == |dlq| + 1 && dlq <= dlq'
        && dlq'[|dlq|].offset == call.offset && dlq'[|dlq|].cause == cause && dlq'[|dlq|].attempts == call.attempts
    }

    /** Publish the failure, and commit only once the broker has acknowledged it. */
    method DeadLetterCall(call: Call, cause: Cause, oracle: nat -> Fault, at: nat)
      returns (r: Outcome, ghost steps: seq<Label>)
      requires Valid() && pc == Busy(call, Publishing(cause))
      modifies broker, `pc
      ensures Valid() && Walk(c, oracle, old(State()), at, steps, State(), at + Calls(steps))
      ensures Closes(old(State()), steps, r)
      ensures r == if oracle(at).Calm? && oracle(at + 1).Calm? then Returned(Report(c, call, true)) else Errored
      ensures Adds(old(broker.dlq), broker.dlq, oracle(at), call, cause)
    {
      hide Walk, Orderly, Adds, Exec, Step, Enabled, Report;
      ghost var s := State();
      var fault := oracle(at);
      var ok := CallPublish(call, cause, fault);
      WalkNil(c, oracle, s, at);
      WalkSnoc(c, oracle, s, at, [], s, at, Publish(fault));
      steps := [] + [Publish(fault)];
      if !ok {
        return Errored, steps;
      }
      ghost var s', rest := State(), [];
      r, rest := Finish(call, true, oracle, at + 1);
      WalkConcat(c, oracle, s, at, steps, s', at + 1, rest, State(), at + 1 + Calls(rest));
      WalkEnds(c, oracle, s, at, steps, s', at + 1);
      ClosesAfter(s, steps, s', rest, r);
      steps := steps + rest;
      WalkEnds(c, oracle, s, at, steps, State(), at + 1 + Calls(rest));
    }

    lemma ClosesAfter(s: State, a: seq<Label>, s': State, b: seq<Label>, r: Outcome)
      requires Exec(c, s, a) == s' && Closes(s', b, r)
      ensures Closes(s, a + b, r)
    {
      if r.Returned? {
        assert (a + b)[..|a + b| - 1] == a + b[..|b| - 1];
        ExecConcat(c, s, a, b[..|b| - 1]);
      }
    }

    // ---------- process_one ----------

    /** With no fault but failing POSTs, the outcome is that of a single loop over the POSTs. */
    ghost predicate Flattened(p: nat, q: nat, r: Outcome)
    {
      client.maxAttempts > 0 &&
      match r
      case TimedOut => false
      case Errored => !c.hasDlq && OneLoop(client.answers, client.maxAttempts, c.maxAttempts, p, q, c.maxAttempts, false)
      case Returned(record) =>
        && (record.deadLettered ==> c.hasDlq)
        && OneLoop(client.answers, client.maxAttempts, c.maxAttempts, p, q, record.attempts, !record.deadLettered)
    }

    /** What follows a final failure when there is a DLQ: discard, then dead-letter. */
    method GiveUp(e: OrderEvent, call: Call, cause: Cause, oracle: nat -> Fault, at: nat)
      returns (r: Outcome, ghost steps: seq<Label>)
      requires Valid() && pc == Busy(call, Discarding(cause)) && EventAt(c, call.offset) == Some(e)
      modifies store, broker, `pc
      ensures Valid() && Walk(c, oracle, old(State()), at, steps, State(), at + Calls(steps))
      ensures Closes(old(State()), steps, r)
      ensures r == if oracle(at).Calm? && oracle(at + 1).Calm? && oracle(at + 2).Calm?
                   then Returned(Report(c, call, true)) else Errored
    {
      hide Walk, Orderly, Adds, Exec, Step, Enabled, Report;
      ghost var s := State();
      var fault := oracle(at);
      var ok := CallDiscard(e, call, cause, fault);
      WalkNil(c, oracle, s, at);
      WalkSnoc(c, oracle, s, at, [], s, at, Discard(fault));
      steps := [] + [Discard(fault)];
      if !ok {
        return Errored, steps;
      }
      ghost var s', rest := State(), [];
      r, rest := DeadLetterCall(call, cause, oracle, at + 1);
      WalkConcat(c, oracle, s, at, steps, s', at + 1, rest, State(), at + 1 + Calls(rest));
      WalkEnds(c, oracle, s, at, steps, s', at + 1);
      ClosesAfter(s, steps, s', rest, r);
      steps := steps + rest;
      WalkEnds(c, oracle, s, at, steps, State(), at + 1 + Calls(rest));
    }

    /** How a call ends whose last attempt succeeded or not, if nothing else fails. */
    predicate Concludes(attempts: nat, ok: bool, r: Outcome) {
      match r
      case TimedOut => false
      case Errored => !ok && !c.hasDlq
      case Returned(record) => record.attempts == attempts && record.deadLettered == !ok && (ok || c.hasDlq)
    }

    lemma IsFlattened(p: nat, q: nat, attempts: nat, ok: bool, r: Outcome)
      requires client.maxAttempts > 0 && Concludes(attempts, ok, r)
      requires RetriedExchange(client.answers, client.maxAttempts, c.maxAttempts, p, q, attempts, ok)
      ensures Flattened(p, q, r)
    {
      hide OneLoop;
      NestedLoopsFlatten(client.answers, client.maxAttempts, c.maxAttempts, p, q, attempts, ok);
    }

    /** What follows the retry loop: the commit, the dead-letter path or the error. */
    method Conclude(e: OrderEvent, call: Call, result: AttemptResult, oracle: nat -> Fault, at: nat)
      returns (r: Outcome, ghost steps: seq<Label>)
      requires Valid() && EventAt(c, call.offset) == Some(e)
      requires pc == if result.Succeeded? then Busy(call, Committing(false))
                     else if c.hasDlq then Busy(call, Discarding(result.cause))
                     else Raised(Some(call.offset))
      modifies store, broker, `pc
      ensures Valid() && Walk(c, oracle, old(State()), at, steps, State(), at + Calls(steps))
      ensures Closes(old(State()), steps, r)
      ensures (forall i :: oracle(i).Calm?) ==> Concludes(call.attempts, result.Succeeded?, r)
    {
      if result.Succeeded? {
        r, steps := Finish(call, false, oracle, at);
      } else if c.hasDlq {
        r, steps := GiveUp(e, call, result.cause, oracle, at);
      } else {
        WalkNil(c, oracle, State(), at);
        r, steps := Errored, [];
      }
    }

    method HandleEvent(e: OrderEvent, offset: nat, oracle: nat -> Fault) returns (r: Outcome, ghost steps: seq<Label>)
      requires Valid() && pc == Busy(Call(offset, 1, None), Storing) && EventAt(c, offset) == Some(e)
      modifies store, client, broker, `pc
      ensures Valid() && Walk(c, oracle, old(State()), 0, steps, State(), Calls(steps))
      ensures Closes(old(State()), steps, r)
      ensures (forall i :: oracle(i).Calm?) && c.hasDownstream && client.retryable && old(Processable(e)) ==>
                Flattened(old(client.posts), client.posts, r)
    {
      hide Walk, Orderly, RetriedExchange, Flattened, Concludes, Driven, Calls, IsRun, Exec;
      ghost var s := State();
      ghost var p := client.posts;
      var result, attempts, isNew, next, effects := RetryEffects(e, offset, oracle, 0);
      WalkEnds(c, oracle, s, 0, effects, State(), next);
      ghost var s', rest := State(), [];
      r, rest := Conclude(e, Call(offset, attempts, isNew), result, oracle, next);
      if (forall i :: oracle(i).Calm?) && c.hasDownstream && client.retryable && old(Processable(e)) {
        IsFlattened(p, client.posts, attempts, result.Succeeded?, r);
      }
      WalkConcat(c, oracle, s, 0, effects, s', next, rest, State(), next + Calls(rest));
      WalkEnds(c, oracle, s, 0, effects + rest, State(), next + Calls(rest));
      ClosesAfter(s, effects, s', rest, r);
      steps := effects + rest;
    }

    /** From the polled message to the commit or the error. */
    method HandleRecord(offset: nat, oracle: nat -> Fault) returns (r: Outcome, ghost steps: seq<Label>)
      requires Valid() && pc == Busy(Call(offset, 0, None), Fetched)
      modifies store, client, broker, `pc
      ensures Valid() && Walk(c, oracle, old(State()), 0, steps, State(), Calls(steps))
      ensures Closes(old(State()), steps, r)
      ensures (forall i :: oracle(i).Calm?) && c.hasDownstream && client.retryable && EventAt(c, offset).Some? &&
              old(Processable(EventAt(c, offset).value)) ==>
                Flattened(old(client.posts), client.posts, r)
    {
      ghost var s := State();
      WalkNil(c, oracle, s, 0);
      WalkSnoc(c, oracle, s, 0, [], s, 0, Parse);
      OrderlyStep(c, s, Parse);
      steps := [] + [Parse];
      pc := AfterParse(c, Call(offset, 0, None));
      ghost var s', rest := State(), [];
      assert s' == Step(c, s, Parse);
      if EventAt(c, offset).Some? {
        r, rest := HandleEvent(EventAt(c, offset).value, offset, oracle);
      } else if c.hasDlq {
        r, rest := DeadLetterCall(Call(offset, 1, None), Unparsed, oracle, 0);
      } else {
        return Errored, steps;
      }
      WalkConcat(c, oracle, s, 0, steps, s', 0, rest, State(), Calls(rest));
      ClosesAfter(s, steps, s', rest, r);
      steps := steps + rest;
    }

    /**
     One process_one: poll until a message, an error or the deadline, then handle the message. `polls` are the answers
     of the polls before the deadline.
     */
    method ProcessOne(polls: seq<PollReply>, oracle: nat -> Fault) returns (r: Outcome, ghost trace: seq<Label>)
      requires Valid() && pc == Ready
      modifies this, store, client, broker
      ensures Valid()
      ensures Course(c, old(State()), polls, oracle, trace) && Exec(c, old(State()), trace) == State()
      ensures r.TimedOut? <==>
                forall i :: 0 <= i < |polls| ==> polls[i].Nothing? || (polls[i].Message? && old(position) >= |c.log|)
      ensures trace == [PollError] <==>
                exists i :: 0 <= i < |polls| && polls[i].BrokerError?
                            && forall j :: 0 <= j < i ==> !(polls[j].Message? && old(position) < |c.log|)
      ensures position == old(position) + 1 <==>
                exists i :: 0 <= i < |polls| && polls[i].Message? && old(position) < |c.log|
                            && forall j :: 0 <= j < i ==> !polls[j].BrokerError?
      ensures r.TimedOut? <==> trace == []
      ensures r.Errored? <==> pc.Raised?
      ensures r.Returned? ==> Closes(old(State()), trace, r) && Truthful(c, old(State()), trace, r.record)
      ensures position == old(position) + if trace == [] || trace == [PollError] then 0 else 1
      ensures r.Returned? ==>
                && r.record.offset == old(position)
                && broker.committed == r.record.offset + 1
                && trace != [] && trace != [PollError]
      ensures (forall i :: oracle(i).Calm?) && c.hasDownstream && client.retryable && trace != [] && trace != [PollError] &&
              EventAt(c, old(position)).Some? && old(Processable(EventAt(c, position).value)) ==>
                Flattened(old(client.posts), client.posts, r)
    {
      hide Orderly, StageFacts, Flattened, Closes, Truthful, Driven;
      ghost var s := State();
      NewsIsFirst(polls, position < |c.log|);
      ExecSnoc(c, s, [], PollError);
      var i, found := 0, false;
      while i < |polls| && !found
        invariant Valid() && State() == s
        invariant found ==> position < |c.log|
        invariant client.posts == old(client.posts)
        invariant i <= |polls|
        invariant News(polls, position < |c.log|) == if found then Message else News(polls[i..], position < |c.log|)
      {
        match polls[i] {
          case Nothing =>
          case BrokerError =>
            pc := Raised(None);
            OrderlyStep(c, s, PollError);
            return Errored, [] + [PollError];
          case Message => found := position < |broker.log|;
        }
        i := i + 1;
      }
      if !found {
        return TimedOut, [];
      }
      var offset := position;
      position := position + 1;
      pc := Busy(Call(offset, 0, None), Fetched);
      ghost var s', steps := State(), [];
      assert s' == Step(c, s, Poll);
      OrderlyStep(c, s, Poll);
      r, steps := HandleRecord(offset, oracle);
      PollThenWalk(c, oracle, s, steps, State(), Calls(steps));
      trace := [Poll] + steps;
      assert Exec(c, s, [Poll]) == s' by { ExecSnoc(c, s, [], Poll); assert [] + [Poll] == [Poll]; }
      ClosesAfter(s, [Poll], s', steps, r);
      if r.Returned? {
        ReturnedCommitted(s, trace, r);
      }
    }

    /** Nothing rewinds the consumer that is used again after an error. */
    ghost method PollOn()
      requires Valid() && pc.Raised?
      modifies `pc
      ensures Valid() && Enabled(c, old(State()), KeepPolling) && State() == Step(c, old(State()), KeepPolling)
      ensures pc == Ready
    {
      ghost var s := State();
      pc := Ready;
      OrderlyStep(c, s, KeepPolling);
    }

    lemma ReturnedCommitted(s: State, trace: seq<Label>, r: Outcome)
      requires c.Valid() && Orderly(c, s) && IsCall(c, s, trace) && Closes(s, trace, r) && r.Returned?
      requires Exec(c, s, trace) == State()
      ensures r.record.offset == s.lane.position && broker.committed == r.record.offset + 1
      ensures Truthful(c, s, trace, r.record)
    {
      var i := |trace| - 1;
      RunPrefix(c, s, trace, i);
      assert trace[..i + 1] == trace;
      if i > 0 {
        OffsetInHand(c, s, trace, i);
      }
      EvidenceIsTruthful(c, s, trace, r.record);
    }
  }
}
