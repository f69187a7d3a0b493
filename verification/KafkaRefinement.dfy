/**
 Crashes, redeliveries and absorbed retries refine one fault-free pass over the log: whatever happened on the way, a
 drained run ends in the tables and the dead-lettered offsets that a single clean pass produces.
 */
module KafkaRefinement {
  import opened OrderEvents
  import opened OrderTables
  import opened KafkaProtocol
  import opened KafkaInvariants
  import opened KafkaHistory
  import opened KafkaTheorems

  /** The clean effect of one delivery: a fresh acceptable order is stored and completed, all else changes nothing. */
  function Deliver(t: Tables, body: Body): Tables {
    match body
    case Malformed(_) => t
    case Order(e) => if Accepts(t, e) then MarkTx(Insert(t, e), e.eventId) else t
  }

  predicate Accepts(t: Tables, e: OrderEvent) {
    e.eventId !in t.events && !Refuses(t, e)
  }

  /** The tables after one clean pass over the records. */
  function Fold(log: seq<Record>): Tables {
    if log == [] then EMPTY else Deliver(Fold(log[..|log| - 1]), log[|log| - 1].body)
  }

  /** A clean pass dead-letters the record at offset k. */
  predicate DeadAt(log: seq<Record>, k: nat) {
    && k < |log|
    && match log[k].body
       case Malformed(_) => true
       case Order(e) => Refuses(Fold(log[..k]), e)
  }

  function DeadOffsets(log: seq<Record>): set<nat> {
    set k: nat | k < |log| && DeadAt(log, k)
  }

  /** The clean tables with the next record's row stored but still pending. */
  function Half(log: seq<Record>, k: nat): Tables
    requires k < |log|
  {
    match log[k].body
    case Malformed(_) => Fold(log[..k])
    case Order(e) => if Accepts(Fold(log[..k]), e) then Insert(Fold(log[..k]), e) else Fold(log[..k])
  }

  lemma FoldNext(log: seq<Record>, k: nat)
    requires k < |log|
    ensures Fold(log[..k + 1]) == Deliver(Fold(log[..k]), log[k].body)
  {
    assert log[..k + 1][..k] == log[..k];
  }

  lemma {:induction false} FoldAllCompleted(log: seq<Record>, id: EventId)
    requires id in Fold(log).events
    ensures IsCompleted(Fold(log), id)
    decreases |log|
  {
    if log != [] {
      var init := log[..|log| - 1];
      if id in Fold(init).events {
        FoldAllCompleted(init, id);
      }
    }
  }

  lemma {:induction false} FoldHoldsStorable(log: seq<Record>, id: EventId)
    requires id in Fold(log).events
    ensures exists i :: 0 <= i < |log| && log[i].body.Order? && log[i].body.event.eventId == id && Storable(log[i].body.event)
    decreases |log|
  {
    var init := log[..|log| - 1];
    if id in Fold(init).events {
      FoldHoldsStorable(init, id);
      var i :| 0 <= i < |init| && init[i].body.Order? && init[i].body.event.eventId == id && Storable(init[i].body.event);
      assert log[i] == init[i];
    } else {
      assert log[|log| - 1].body.Order?;
    }
  }

  /** A clean pass dead-letters an order of less than half a cent, unless an earlier record of its event ID had more. */
  lemma TinyAmountIsDeadLettered(log: seq<Record>, k: nat, e: OrderEvent)
    requires k < |log| && log[k].body == Order(e) && e.amount < 0.005
    requires forall i :: 0 <= i < k && log[i].body.Order? && log[i].body.event.eventId == e.eventId ==>
               log[i].body.event.amount < 0.005
    ensures DeadAt(log, k)
  {
    AcceptedAmounts(e.amount);
    forall i | 0 <= i < k && log[i].body.Order? && log[i].body.event.eventId == e.eventId
      ensures !Storable(log[i].body.event)
    {
      AcceptedAmounts(log[i].body.event.amount);
    }
    if e.eventId in Fold(log[..k]).events {
      FoldHoldsStorable(log[..k], e.eventId);
    }
  }

  // ---------- The assumptions on the environment ----------

  /** Transient faults of store, notify and mark_completed are retried within the budget. */
  predicate Absorbed(c: Config, s: State, f: Fault) {
    f.Raise? && s.lane.pc.Busy? ==> f.retryable && s.lane.pc.call.attempts < c.maxAttempts
  }

  /** Absorbed faults, a new consumer after every error. Crashes, commits, discards and publications do as they like. */
  predicate Gentle(c: Config, s: State, l: Label) {
    match l
    case Store(f) => Absorbed(c, s, f)
    case Notify(f) => Absorbed(c, s, f)
    case Mark(f) => Absorbed(c, s, f)
    case KeepPolling => false
    case _ => true
  }

  // ---------- The invariant ----------

  predicate NearClean(c: Config, db: Tables, k: nat) {
    || (k <= |c.log| && db == Fold(c.log[..k]))
    || (k < |c.log| && db == Half(c.log, k))
    || (k < |c.log| && db == Fold(c.log[..k + 1]))
  }

  /** The record in hand is the next uncommitted one, and the tables show how far its effects have come. */
  predicate CallClean(c: Config, s: State, call: Call, stage: Stage) {
    var k := s.lane.committed;
    && k == call.offset < |c.log|
    && match stage
       case Fetched => true
       case Storing => true
       case Notifying => s.db == Half(c.log, k) && c.log[k].body.Order? && Accepts(Fold(c.log[..k]), c.log[k].body.event)
       case Marking => s.db == Half(c.log, k) && c.log[k].body.Order? && Accepts(Fold(c.log[..k]), c.log[k].body.event)
       case Discarding(cause) => s.db == Fold(c.log[..k]) && DeadAt(c.log, k)
       case Publishing(cause) => s.db == Fold(c.log[..k]) && DeadAt(c.log, k)
       case Committing(dead) =>
         && s.db == Fold(c.log[..k + 1])
         && if dead then DeadAt(c.log, k) && k in DlqOffsets(s.lane.dlq) else !DeadAt(c.log, k)
  }

  predicate TablesClean(c: Config, s: State) {
    && NearClean(c, s.db, s.lane.committed)
    && (s.lane.pc.Ready? ==> s.lane.position == s.lane.committed)
    && (s.lane.pc.Busy? ==> CallClean(c, s, s.lane.pc.call, s.lane.pc.stage))
  }

  ghost predicate DlqClean(c: Config, s: State) {
    && (forall k: nat :: k < s.lane.committed && DeadAt(c.log, k) ==> k in DlqOffsets(s.lane.dlq))
    && (forall k :: k in DlqOffsets(s.lane.dlq) ==> k <= s.lane.committed && DeadAt(c.log, k))
  }

  ghost predicate Clean(c: Config, s: State) {
    TablesClean(c, s) && DlqClean(c, s)
  }

  lemma TablesCleanStep(c: Config, s: State, l: Label)
    requires c.Valid() && Sound(c, s) && TablesClean(c, s) && Gentle(c, s, l) && c.hasDlq
    ensures TablesClean(c, Step(c, s, l))
  {
    match l
    case Store(_) =>
      if Enabled(c, s, l) {
        StoreClean(c, s, l);
      }
    case Notify(_) => EffectClean(c, s, l);
    case Mark(_) => EffectClean(c, s, l);
    case Discard(_) => CleanUpClean(c, s, l);
    case Publish(_) => CleanUpClean(c, s, l);
    case _ => OtherwiseClean(c, s, l);
  }

  lemma EffectClean(c: Config, s: State, l: Label)
    requires c.Valid() && Orderly(c, s) && TablesClean(c, s) && Gentle(c, s, l) && (l.Notify? || l.Mark?)
    ensures TablesClean(c, Step(c, s, l))
  {
    if Enabled(c, s, l) {
      FoldNext(c.log, s.lane.committed);
    }
  }

  lemma CleanUpClean(c: Config, s: State, l: Label)
    requires c.Valid() && Sound(c, s) && TablesClean(c, s) && (l.Discard? || l.Publish?)
    ensures TablesClean(c, Step(c, s, l))
  {
    if Enabled(c, s, l) {
      FoldNext(c.log, s.lane.committed);
      if l.Discard? {
        UnclaimedHasNoTrace(s.db, c.log[s.lane.committed].body.event.eventId);
      }
    }
  }

  lemma OtherwiseClean(c: Config, s: State, l: Label)
    requires c.Valid() && Orderly(c, s) && TablesClean(c, s) && c.hasDlq
    requires !l.Store? && !l.Notify? && !l.Mark? && !l.Discard? && !l.Publish? && l != KeepPolling
    ensures TablesClean(c, Step(c, s, l))
  {
    if Enabled(c, s, l) && s.lane.pc.Busy? {
      FoldNext(c.log, s.lane.committed);
    }
  }

  /** What a store call finds and leaves when the tables are near a clean pass. */
  lemma StoreNearClean(c: Config, db: Tables, k: nat, e: OrderEvent)
    requires NearClean(c, db, k) && k < |c.log| && c.log[k].body == Order(e)
    ensures
      if Refuses(db, e) then db == Fold(c.log[..k]) && DeadAt(c.log, k)
      else if IsCompleted(db, e.eventId) then db == Fold(c.log[..k + 1]) && !DeadAt(c.log, k)
      else StoreTx(db, e) == Half(c.log, k) && Accepts(Fold(c.log[..k]), e)
  {
    FoldNext(c.log, k);
    if e.eventId in Fold(c.log[..k]).events {
      FoldAllCompleted(c.log[..k], e.eventId);
    }
  }

  lemma StoreClean(c: Config, s: State, l: Label)
    requires c.Valid() && Orderly(c, s) && TablesClean(c, s) && Gentle(c, s, l) && c.hasDlq
    requires Enabled(c, s, l) && l.Store?
    ensures TablesClean(c, Step(c, s, l))
  {
    var k := s.lane.committed;
    var e := c.log[k].body.event;
    StoreNearClean(c, s.db, k, e);
    StepCommits(c, s, l);
  }

  lemma DlqCleanStep(c: Config, s: State, l: Label)
    requires c.Valid() && Orderly(c, s) && Clean(c, s)
    ensures DlqClean(c, Step(c, s, l))
  {
    DlqGrows(c, s, l);
    var dlq, dlq' := s.lane.dlq, Step(c, s, l).lane.dlq;
    forall k | k in DlqOffsets(dlq')
      ensures k in DlqOffsets(dlq) || (s.lane.pc.Busy? && s.lane.pc.stage.Publishing? && k == s.lane.pc.call.offset)
    {
      var d :| d in dlq' && d.offset == k;
    }
  }

  /** The run meets the assumptions at every step. */
  ghost predicate GentleRun(c: Config, trace: seq<Label>) {
    AllSteps(c, trace, (s, l) => Gentle(c, s, l))
  }

  lemma {:induction false} CleanAlways(c: Config, trace: seq<Label>)
    requires c.Valid() && c.hasDlq && GentleRun(c, trace)
    ensures Clean(c, Exec(c, INITIAL, trace))
    decreases |trace|
  {
    if trace != [] {
      var init := trace[..|trace| - 1];
      SoundAlways(c, init);
      CleanAlways(c, init);
      TablesCleanStep(c, Exec(c, INITIAL, init), trace[|trace| - 1]);
      DlqCleanStep(c, Exec(c, INITIAL, init), trace[|trace| - 1]);
    }
  }

  /**
   At every moment the tables are those of a clean pass up to the committed offset, or with the next record's pending
   row, or one record further.
   */
  lemma AlwaysNearCleanPass(c: Config, trace: seq<Label>)
    requires c.Valid() && c.hasDlq && GentleRun(c, trace)
    ensures NearClean(c, Exec(c, INITIAL, trace).db, Exec(c, INITIAL, trace).lane.committed)
  {
    CleanAlways(c, trace);
  }

  /** A drained run ends exactly where one clean pass does: same tables, same dead-lettered offsets. */
  lemma DrainedEqualsCleanPass(c: Config, trace: seq<Label>)
    requires c.Valid() && c.hasDlq && GentleRun(c, trace)
    requires Exec(c, INITIAL, trace).lane.committed == |c.log|
    ensures Exec(c, INITIAL, trace).db == Fold(c.log)
    ensures DlqOffsets(Exec(c, INITIAL, trace).lane.dlq) == DeadOffsets(c.log)
  {
    CleanAlways(c, trace);
    assert c.log[..|c.log|] == c.log;
  }

  // ---------- Every gentle run can be drained ----------

  /** The next step when nothing goes wrong; after an error the consumer is closed and rebuilt. */
  function CalmLabel(pc: Pc): Label {
    match pc
    case Down => Start
    case Ready => Poll
    case Raised(_) => Crash
    case Busy(_, stage) =>
      match stage
      case Fetched => Parse
      case Storing => Store(Calm)
      case Notifying => Notify(Calm)
      case Marking => Mark(Calm)
      case Discarding(_) => Discard(Calm)
      case Publishing(_) => Publish(Calm)
      case Committing(_) => Commit(Calm)
  }

  function Phase(pc: Pc): nat {
    match pc
    case Raised(_) => 3
    case Down => 2
    case Ready => 1
    case Busy(_, _) => 0
  }

  function AttemptsLeft(c: Config, pc: Pc): nat {
    if pc.Busy? && pc.stage == Fetched then c.maxAttempts
    else if pc.Busy? && pc.call.attempts <= c.maxAttempts then c.maxAttempts - pc.call.attempts
    else 0
  }

  function StagesLeft(pc: Pc): nat {
    if pc.Busy? then
      match pc.stage
      case Fetched => 6
      case Storing => 5
      case Notifying => 4
      case Marking => 3
      case Discarding(_) => 2
      case Publishing(_) => 1
      case Committing(_) => 0
    else 0
  }

  /** Lexicographically: fewer records to go, or a later phase, or fewer attempts left, or a later stage. */
  predicate Closer(c: Config, s: Lane, s': Lane) {
    || s'.committed > s.committed
    || (s'.committed == s.committed && Phase(s'.pc) < Phase(s.pc))
    || (s'.committed == s.committed && Phase(s'.pc) == Phase(s.pc) && AttemptsLeft(c, s'.pc) < AttemptsLeft(c, s.pc))
    || (s'.committed == s.committed && Phase(s'.pc) == Phase(s.pc) && AttemptsLeft(c, s'.pc) == AttemptsLeft(c, s.pc)
        && StagesLeft(s'.pc) < StagesLeft(s.pc))
  }

  lemma CalmIsGentle(c: Config, s: State)
    ensures Gentle(c, s, CalmLabel(s.lane.pc))
  {
  }

  lemma CalmProgress(c: Config, s: State)
    requires c.Valid() && c.hasDlq && Orderly(c, s) && TablesClean(c, s) && s.lane.committed < |c.log|
    ensures Closer(c, s.lane, Step(c, s, CalmLabel(s.lane.pc)).lane)
  {
    if s.lane.pc.Busy? && !s.lane.pc.stage.Publishing? && !s.lane.pc.stage.Committing? {
      CalmEventProgress(c, s);
    }
  }

  lemma CalmEventProgress(c: Config, s: State)
    requires c.Valid() && c.hasDlq && Orderly(c, s) && TablesClean(c, s) && s.lane.committed < |c.log|
    requires s.lane.pc.Busy? && !s.lane.pc.stage.Publishing? && !s.lane.pc.stage.Committing?
    ensures Closer(c, s.lane, Step(c, s, CalmLabel(s.lane.pc)).lane)
  {
    if s.lane.pc.stage == Storing {
      CalmStoreProgress(c, s);
    } else {
      hide AfterStore;
    }
  }

  lemma CalmStoreProgress(c: Config, s: State)
    requires c.Valid() && c.hasDlq && Orderly(c, s) && TablesClean(c, s) && s.lane.committed < |c.log|
    requires s.lane.pc.Busy? && s.lane.pc.stage == Storing
    ensures Closer(c, s.lane, Step(c, s, Store(Calm)).lane)
  {
    hide Fold, Half, NearClean;
  }

  /** No crash, redelivery or absorbed fault leaves a state from which the log cannot be drained. */
  lemma {:induction false} CanAlwaysDrain(c: Config, trace: seq<Label>) returns (drained: seq<Label>)
    requires c.Valid() && c.hasDlq && GentleRun(c, trace)
    ensures trace <= drained && GentleRun(c, drained)
    ensures Exec(c, INITIAL, drained).lane.committed == |c.log|
    ensures Exec(c, INITIAL, drained).db == Fold(c.log)
    decreases |c.log| - Exec(c, INITIAL, trace).lane.committed, Phase(Exec(c, INITIAL, trace).lane.pc),
              AttemptsLeft(c, Exec(c, INITIAL, trace).lane.pc), StagesLeft(Exec(c, INITIAL, trace).lane.pc)
  {
    var s := Exec(c, INITIAL, trace);
    SoundAlways(c, trace);
    CleanAlways(c, trace);
    if s.lane.committed == |c.log| {
      DrainedEqualsCleanPass(c, trace);
      drained := trace;
    } else {
      var l := CalmLabel(s.lane.pc);
      CalmIsGentle(c, s);
      CalmProgress(c, s);
      OrderlyStep(c, s, l);
      ExecSnoc(c, INITIAL, trace, l);
      assert (trace + [l])[..|trace|] == trace;
      drained := CanAlwaysDrain(c, trace + [l]);
    }
  }
}
