/**
 The at-least-once protocol of the Kafka consumer on one partition, as a transition system. Every step is one
 external call; a crash may happen between any two. The broker's `committed` offset survives a crash. The `position`
 lives in the consumer: it advances when a record is polled, whatever becomes of that record, and only a new consumer
 sets it back to `committed`.
 */
module KafkaProtocol {
  import opened OrderEvents
  import opened OrderTables

  /**
   The partition's final log and the settings of its consumer. A poll may find nothing, so a growing log is covered.
   Which constraint an event breaks depends on the event alone, and with it whether the policy retries that error.
   */
  datatype Config = Config(
    log: seq<Record>,
    maxAttempts: nat,
    hasDownstream: bool,
    hasDlq: bool,
    refusalRetryable: OrderEvent -> bool,
    unknownEventRetryable: bool)
  {
    predicate Valid() {
      maxAttempts > 0
    }
  }

  /** Why the last attempt of a `process_one` call failed. */
  datatype Cause = Unparsed | StoreRefused | StoreFailed | NotifyFailed | MarkFailed(applied: bool)

  datatype DeadLetter = DeadLetter(
    offset: nat,
    key: Option<string>,
    eventId: Option<EventId>,
    correlationId: Option<string>,
    attempts: nat,
    cause: Cause,
    payload: Body)

  /** Where one `process_one` call stands; each stage names the next external call. */
  datatype Stage =
    | Fetched
    | Storing
    | Notifying
    | Marking
    | Discarding(cause: Cause)
    | Publishing(cause: Cause)
    | Committing(dead: bool)

  /** The message in hand, the attempt number and the `is_new` of the first store call that returned. */
  datatype Call = Call(offset: nat, attempts: nat, initialIsNew: Option<bool>)

  datatype Pc =
    | Down
    | Ready
    | Raised(inHand: Option<nat>)
    | Busy(call: Call, stage: Stage)

  /** What belongs to one partition: its DLQ records, its two offsets and its consumer. */
  datatype Lane = Lane(dlq: seq<DeadLetter>, committed: nat, position: nat, pc: Pc)

  datatype State = State(db: Tables, lane: Lane)

  const FRESH_LANE := Lane([], 0, 0, Down)

  const INITIAL := State(EMPTY, FRESH_LANE)

  datatype Label =
    | Start
    | Poll
    | PollError
    | Parse
    | Store(fault: Fault)
    | Notify(fault: Fault)
    | Mark(fault: Fault)
    | Discard(fault: Fault)
    | Publish(fault: Fault)
    | Commit(fault: Fault)
    | KeepPolling
    | Crash

  predicate Enabled(c: Config, s: State, l: Label) {
    match (l, s.lane.pc)
    case (Start, Down) => true
    case (Poll, Ready) => s.lane.position < |c.log|
    case (PollError, Ready) => true
    case (Parse, Busy(_, Fetched)) => true
    case (Store(_), Busy(_, Storing)) => true
    case (Notify(_), Busy(_, Notifying)) => true
    case (Mark(_), Busy(_, Marking)) => true
    case (Discard(_), Busy(_, Discarding(_))) => true
    case (Publish(_), Busy(_, Publishing(_))) => true
    case (Commit(_), Busy(_, Committing(_))) => true
    case (KeepPolling, Raised(_)) => true
    case (Crash, _) => true
    case _ => false
  }

  /** The record a call has in hand. */
  function BodyAt(c: Config, offset: nat): Body {
    if offset < |c.log| then c.log[offset].body else Malformed("")
  }

  /** The parsed event a call has in hand, if its record parses. */
  function EventAt(c: Config, offset: nat): Option<OrderEvent> {
    match BodyAt(c, offset)
    case Order(e) => Some(e)
    case Malformed(_) => None
  }

  function DeadLetterFor(c: Config, call: Call, cause: Cause): DeadLetter {
    var e := EventAt(c, call.offset);
    DeadLetter(
      call.offset,
      if call.offset < |c.log| then c.log[call.offset].key else None,
      if e.Some? then Some(e.value.eventId) else None,
      if e.Some? then Some(e.value.correlationId) else None,
      call.attempts,
      cause,
      BodyAt(c, call.offset))
  }

  /** The except-branch of the retry loop: another attempt, the dead-letter path, or an error to the caller. */
  function AfterFailure(c: Config, call: Call, cause: Cause, retryable: bool): Pc {
    if retryable && call.attempts < c.maxAttempts then Busy(call.(attempts := call.attempts + 1), Storing)
    else if c.hasDlq then Busy(call, Discarding(cause))
    else Raised(Some(call.offset))
  }

  function AfterStore(c: Config, db: Tables, e: OrderEvent, call: Call, fault: Fault): Pc {
    if fault.Raise? then AfterFailure(c, call, StoreFailed, fault.retryable)
    else if Refuses(db, e) then AfterFailure(c, call, StoreRefused, c.refusalRetryable(e))
    else
      var isNew := e.eventId !in db.events;
      var call' := if call.initialIsNew.None? then call.(initialIsNew := Some(isNew)) else call;
      Busy(call',
           if IsCompleted(db, e.eventId) then Committing(false)
           else if c.hasDownstream then Notifying
           else Marking)
  }

  function AfterMark(c: Config, db: Tables, e: OrderEvent, call: Call, fault: Fault): Pc {
    if fault.Raise? then
      AfterFailure(c, call, MarkFailed(fault.applied && e.eventId in db.events), fault.retryable)
    else if e.eventId !in db.events then AfterFailure(c, call, MarkFailed(false), c.unknownEventRetryable)
    else Busy(call, Committing(false))
  }

  /** One step of a `process_one` call that has a message in hand. */
  function CallStep(c: Config, s: State, call: Call, stage: Stage, l: Label): State {
    var e := EventAt(c, call.offset);
    match (stage, l)
    case (Fetched, Parse) => s.(lane := s.lane.(pc := AfterParse(c, call)))
    case (Publishing(cause), Publish(f)) => PublishStep(c, s, call, cause, f)
    case (Committing(_), Commit(f)) => CommitStep(s, call, f)
    case _ => if e.Some? then EventStep(c, s, call, stage, l, e.value) else s
  }

  function AfterParse(c: Config, call: Call): Pc {
    var parsed := call.(attempts := 1);
    if EventAt(c, call.offset).Some? then Busy(parsed, Storing)
    else if c.hasDlq then Busy(parsed, Publishing(Unparsed))
    else Raised(Some(call.offset))
  }

  /** The steps that need a parsed event: the retried effects, and the clean-up before dead-lettering. */
  function EventStep(c: Config, s: State, call: Call, stage: Stage, l: Label, e: OrderEvent): State {
    match (stage, l)
    case (Storing, Store(f)) =>
      State(Under(f, s.db, StoreTx(s.db, e)), s.lane.(pc := AfterStore(c, s.db, e, call, f)))
    case (Notifying, Notify(f)) =>
      s.(lane := s.lane.(pc := if f.Calm? then Busy(call, Marking)
                               else AfterFailure(c, call, NotifyFailed, f.retryable)))
    case (Marking, Mark(f)) =>
      State(Under(f, s.db, MarkTx(s.db, e.eventId)), s.lane.(pc := AfterMark(c, s.db, e, call, f)))
    case (Discarding(cause), Discard(f)) =>
      State(Under(f, s.db, DiscardTx(s.db, e.eventId)),
            s.lane.(pc := if f.Calm? then Busy(call, Publishing(cause)) else Raised(Some(call.offset))))
    case _ => s
  }

  /** A publication that raises may still have reached the DLQ topic. */
  function PublishStep(c: Config, s: State, call: Call, cause: Cause, f: Fault): State {
    var lane := s.lane;
    var dlq' := lane.dlq + [DeadLetterFor(c, call, cause)];
    s.(lane := lane.(
         dlq := if f.Raise? && !f.applied then lane.dlq else dlq',
         pc := if f.Calm? then Busy(call, Committing(true)) else Raised(Some(call.offset))))
  }

  /** A commit that raises may still have moved the group's offset. */
  function CommitStep(s: State, call: Call, f: Fault): State {
    s.(lane := s.lane.(
         committed := if f.Raise? && !f.applied then s.lane.committed else call.offset + 1,
         pc := if f.Calm? then Ready else Raised(Some(call.offset))))
  }

  /** The effect of a step; a label that is not enabled changes nothing. */
  function Step(c: Config, s: State, l: Label): State {
    var lane := s.lane;
    if !Enabled(c, s, l) then s
    else
      match l
      case Start => s.(lane := lane.(position := lane.committed, pc := Ready))
      case Poll => s.(lane := lane.(position := lane.position + 1,
                                    pc := Busy(Call(lane.position, 0, None), Fetched)))
      case PollError => s.(lane := lane.(pc := Raised(None)))
      case KeepPolling => s.(lane := lane.(pc := Ready))
      case Crash => s.(lane := lane.(pc := Down))
      case _ => CallStep(c, s, lane.pc.call, lane.pc.stage, l)
  }

  /** The transaction a step commits: it depends on the label and the message in hand, never on the tables. */
  function TxOf(c: Config, s: State, l: Label): Tx {
    if !Enabled(c, s, l) || !s.lane.pc.Busy? || EventAt(c, s.lane.pc.call.offset).None? then Untouched
    else
      var e := EventAt(c, s.lane.pc.call.offset).value;
      match l
      case Store(f) => if f.Raise? && !f.applied then Untouched else StoreOf(e)
      case Mark(f) => if f.Raise? && !f.applied then Untouched else MarkOf(e.eventId)
      case Discard(f) => if f.Raise? && !f.applied then Untouched else DiscardOf(e.eventId)
      case _ => Untouched
  }

  lemma StepCommits(c: Config, s: State, l: Label)
    ensures Step(c, s, l).db == Apply(s.db, TxOf(c, s, l))
  {
  }

  /** The state after a sequence of labels. */
  function Exec(c: Config, s: State, trace: seq<Label>): State {
    if trace == [] then s
    else Step(c, Exec(c, s, trace[..|trace| - 1]), trace[|trace| - 1])
  }

  /** Every label of the trace is enabled where it occurs. */
  predicate IsRun(c: Config, s: State, trace: seq<Label>) {
    trace == [] ||
    (IsRun(c, s, trace[..|trace| - 1]) && Enabled(c, Exec(c, s, trace[..|trace| - 1]), trace[|trace| - 1]))
  }

  lemma ExecSnoc(c: Config, s: State, trace: seq<Label>, l: Label)
    ensures Exec(c, s, trace + [l]) == Step(c, Exec(c, s, trace), l)
    ensures IsRun(c, s, trace + [l]) <==> IsRun(c, s, trace) && Enabled(c, Exec(c, s, trace), l)
  {
    assert (trace + [l])[..|trace|] == trace;
  }

  lemma {:induction false} ExecConcat(c: Config, s: State, a: seq<Label>, b: seq<Label>)
    ensures Exec(c, s, a + b) == Exec(c, Exec(c, s, a), b)
    ensures IsRun(c, s, a + b) <==> IsRun(c, s, a) && IsRun(c, Exec(c, s, a), b)
    decreases |b|
  {
    if b == [] {
      assert a + b == a;
    } else {
      var init := b[..|b| - 1];
      assert a + b == (a + init) + [b[|b| - 1]];
      ExecSnoc(c, s, a + init, b[|b| - 1]);
      ExecConcat(c, s, a, init);
    }
  }
}
