/** The language of one `process_one` call: which external calls it makes, in which order, and what it reports. */
module KafkaCall {
  import opened OrderEvents
  import opened OrderTables
  import opened KafkaProtocol
  import opened KafkaInvariants

  predicate InCall(l: Label) {
    l.Parse? || l.Store? || l.Notify? || l.Mark? || l.Discard? || l.Publish? || l.Commit?
  }

  /** A run that polls one record and goes on with the external calls of the same process_one. */
  predicate IsCall(c: Config, s: State, trace: seq<Label>) {
    && IsRun(c, s, trace)
    && trace != []
    && trace[0] == Poll
    && forall i :: 1 <= i < |trace| ==> InCall(trace[i])
  }

  /** The steps lead from one state to another by external calls made inside one process_one. */
  predicate Trail(c: Config, s: State, steps: seq<Label>, s': State) {
    IsRun(c, s, steps) && Exec(c, s, steps) == s' && forall l :: l in steps ==> InCall(l)
  }

  lemma TrailSnoc(c: Config, s: State, steps: seq<Label>, s': State, l: Label)
    requires Trail(c, s, steps, s') && Enabled(c, s', l) && InCall(l)
    ensures Trail(c, s, steps + [l], Step(c, s', l))
  {
    ExecSnoc(c, s, steps, l);
  }

  lemma TrailConcat(c: Config, s: State, a: seq<Label>, s': State, b: seq<Label>, s'': State)
    requires Trail(c, s, a, s') && Trail(c, s', b, s'')
    ensures Trail(c, s, a + b, s'')
  {
    ExecConcat(c, s, a, b);
  }

  // ---------- Calls that fail as an oracle says ----------

  predicate IsFaulty(l: Label) {
    l.Store? || l.Notify? || l.Mark? || l.Discard? || l.Publish? || l.Commit?
  }

  /** The number of external calls that may fail. */
  function Calls(steps: seq<Label>): nat {
    if steps == [] then 0
    else Calls(steps[..|steps| - 1]) + if IsFaulty(steps[|steps| - 1]) then 1 else 0
  }

  /** The call fails as told; a notification also as the downstream service answers, or succeeds before it would fail. */
  predicate Dictated(l: Label, told: Fault) {
    match l
    case Notify(f) => told.Raise? && f.Raise? ==> f == told
    case _ => IsFaulty(l) ==> l.fault == told
  }

  /** The calls fail as the oracle says from its answer `at` on. */
  predicate Driven(oracle: nat -> Fault, at: nat, steps: seq<Label>) {
    steps == [] ||
    var init, l := steps[..|steps| - 1], steps[|steps| - 1];
    Driven(oracle, at, init) && Dictated(l, oracle(at + Calls(init)))
  }

  /** A trail whose calls fail as the oracle says and use up its answers from `at` to `next`. */
  predicate Walk(c: Config, oracle: nat -> Fault, s: State, at: nat, steps: seq<Label>, s': State, next: nat) {
    Trail(c, s, steps, s') && Driven(oracle, at, steps) && next == at + Calls(steps)
  }

  lemma WalkEnds(c: Config, oracle: nat -> Fault, s: State, at: nat, steps: seq<Label>, s': State, next: nat)
    requires Walk(c, oracle, s, at, steps, s', next)
    ensures next == at + Calls(steps) && Exec(c, s, steps) == s'
  {
  }

  lemma WalkNil(c: Config, oracle: nat -> Fault, s: State, at: nat)
    ensures Walk(c, oracle, s, at, [], s, at)
  {
  }

  lemma WalkSnoc(c: Config, oracle: nat -> Fault, s: State, at: nat, steps: seq<Label>, s': State, next: nat, l: Label)
    requires Walk(c, oracle, s, at, steps, s', next)
    requires Enabled(c, s', l) && InCall(l) && Dictated(l, oracle(next))
    ensures Walk(c, oracle, s, at, steps + [l], Step(c, s', l), if l.Parse? then next else next + 1)
  {
    TrailSnoc(c, s, steps, s', l);
    assert (steps + [l])[..|steps|] == steps;
  }

  lemma DrivenSnoc(oracle: nat -> Fault, at: nat, steps: seq<Label>, l: Label)
    ensures Driven(oracle, at, steps + [l]) <==> Driven(oracle, at, steps) && Dictated(l, oracle(at + Calls(steps)))
    ensures Calls(steps + [l]) == Calls(steps) + Calls([l])
  {
    assert (steps + [l])[..|steps|] == steps;
  }

  lemma {:induction false} DrivenConcat(oracle: nat -> Fault, at: nat, a: seq<Label>, b: seq<Label>)
    requires Driven(oracle, at, a) && Driven(oracle, at + Calls(a), b)
    ensures Driven(oracle, at, a + b) && Calls(a + b) == Calls(a) + Calls(b)
    decreases |b|
  {
    if b == [] {
      assert a + b == a;
    } else {
      hide Driven, Calls, Dictated;
      var init, l := b[..|b| - 1], b[|b| - 1];
      assert b == init + [l] && a + b == (a + init) + [l];
      DrivenSnoc(oracle, at + Calls(a), init, l);
      DrivenConcat(oracle, at, a, init);
      DrivenSnoc(oracle, at, a + init, l);
    }
  }

  lemma WalkConcat(c: Config, oracle: nat -> Fault, s: State, at: nat, a: seq<Label>, s': State, mid: nat,
                   b: seq<Label>, s'': State, next: nat)
    requires Walk(c, oracle, s, at, a, s', mid) && Walk(c, oracle, s', mid, b, s'', next)
    ensures Walk(c, oracle, s, at, a + b, s'', next)
  {
    hide Trail, Driven, Calls, Exec, IsRun, Step;
    TrailConcat(c, s, a, s', b, s'');
    DrivenConcat(oracle, at, a, b);
  }

  /** Polling a record and then walking on is a call. */
  lemma PollThenWalk(c: Config, oracle: nat -> Fault, s: State, steps: seq<Label>, s': State, next: nat)
    requires Enabled(c, s, Poll) && Walk(c, oracle, Step(c, s, Poll), 0, steps, s', next)
    ensures IsCall(c, s, [Poll] + steps) && Exec(c, s, [Poll] + steps) == s'
    ensures Driven(oracle, 0, [Poll] + steps)
  {
    ExecSnoc(c, s, [], Poll);
    assert [] + [Poll] == [Poll];
    ExecConcat(c, s, [Poll], steps);
    assert [Poll][..0] == [];
    DrivenConcat(oracle, 0, [Poll], steps);
  }

  lemma {:induction false} RunPrefix(c: Config, s: State, trace: seq<Label>, i: nat)
    requires IsRun(c, s, trace) && i < |trace|
    ensures IsRun(c, s, trace[..i])
    ensures Enabled(c, Exec(c, s, trace[..i]), trace[i])
    ensures Exec(c, s, trace[..i + 1]) == Step(c, Exec(c, s, trace[..i]), trace[i])
    decreases |trace|
  {
    if i + 1 == |trace| {
      assert trace[..i + 1] == trace;
    } else {
      var init := trace[..|trace| - 1];
      RunPrefix(c, s, init, i);
      assert init[..i] == trace[..i] && init[..i + 1] == trace[..i + 1];
    }
  }

  lemma {:induction false} OrderlyFrom(c: Config, s: State, trace: seq<Label>)
    requires c.Valid() && Orderly(c, s)
    ensures Orderly(c, Exec(c, s, trace))
    decreases |trace|
  {
    if trace != [] {
      OrderlyFrom(c, s, trace[..|trace| - 1]);
      OrderlyStep(c, Exec(c, s, trace[..|trace| - 1]), trace[|trace| - 1]);
    }
  }

  /** The labels after which a call may commit. */
  predicate LeadsToCommit(c: Config, s: State, l: Label) {
    && s.lane.pc.Busy?
    && var e := EventAt(c, s.lane.pc.call.offset);
    || l == Publish(Calm)
    || (l == Mark(Calm) && e.Some?)
    || (l == Store(Calm) && e.Some? && IsCompleted(s.db, e.value.eventId))
  }

  lemma CommitPredecessor(c: Config, s: State, l: Label)
    requires Orderly(c, s) && Enabled(c, s, l)
    requires Step(c, s, l).lane.pc.Busy? && Step(c, s, l).lane.pc.stage.Committing?
    ensures LeadsToCommit(c, s, l)
    ensures l == Publish(Calm) ==> s.lane.pc.stage.Publishing?
    ensures Step(c, s, l).lane.pc.stage.dead <==> l == Publish(Calm)
    ensures Step(c, s, l).lane.pc.call.offset == s.lane.pc.call.offset
  {
  }

  lemma PublishPredecessor(c: Config, s: State, l: Label)
    requires Orderly(c, s) && Enabled(c, s, l)
    requires Step(c, s, l).lane.pc.Busy? && Step(c, s, l).lane.pc.stage.Publishing?
    ensures s.lane.pc.Busy? && Step(c, s, l).lane.pc.call.offset == s.lane.pc.call.offset
    ensures if EventAt(c, s.lane.pc.call.offset).Some? then l == Discard(Calm) else l == Parse
  {
  }

  /**
   A commit is the last label of its call. Right before it, either the effects of the event completed, or the broker
   acknowledged a dead letter, and for a parsed event the discard that cleans up came right before that.
   */
  lemma CommitClosesCall(c: Config, s: State, trace: seq<Label>, i: nat)
    requires c.Valid() && Orderly(c, s) && IsCall(c, s, trace) && i < |trace| && trace[i].Commit?
    ensures i == |trace| - 1 && i >= 2
    ensures
      var before := Exec(c, s, trace[..i - 1]);
      && before.lane.pc.Busy?
      && before.lane.pc.call.offset == s.lane.position
      && LeadsToCommit(c, before, trace[i - 1])
      && (trace[i - 1] == Publish(Calm) && BodyAt(c, s.lane.position).Order? ==> i >= 3 && trace[i - 2] == Discard(Calm))
  {
    hide Step, StageFacts;
    CommitIsLast(c, s, trace, i);
    RunPrefix(c, s, trace, i);
    ParseComesFirst(c, s, trace);
    OffsetInHand(c, s, trace, i - 1);
    OrderlyFrom(c, s, trace[..i - 1]);
    RunPrefix(c, s, trace, i - 1);
    CommitPredecessor(c, Exec(c, s, trace[..i - 1]), trace[i - 1]);
    if trace[i - 1] == Publish(Calm) && BodyAt(c, s.lane.position).Order? {
      PublishFollowsDiscard(c, s, trace, i - 1);
    }
  }

  lemma CommitIsLast(c: Config, s: State, trace: seq<Label>, i: nat)
    requires IsCall(c, s, trace) && i < |trace| && trace[i].Commit?
    ensures i == |trace| - 1
  {
    RunPrefix(c, s, trace, i);
    CommitEnds(c, Exec(c, s, trace[..i]), trace[i]);
    if i + 1 < |trace| {
      RunPrefix(c, s, trace, i + 1);
      hide Step, Exec, Enabled;
      CallKeepsOffset(c, Exec(c, s, trace[..i + 1]), trace[i + 1]);
      assert false;
    }
  }

  lemma CommitEnds(c: Config, s: State, l: Label)
    requires Enabled(c, s, l) && l.Commit?
    ensures !Step(c, s, l).lane.pc.Busy?
  {
  }

  lemma CallKeepsOffset(c: Config, s: State, l: Label)
    requires Enabled(c, s, l) && InCall(l)
    ensures s.lane.pc.Busy?
    ensures Step(c, s, l).lane.pc.Busy? ==> Step(c, s, l).lane.pc.call.offset == s.lane.pc.call.offset
  {
  }

  /** Throughout the call the message in hand is the polled one. */
  lemma {:induction false} OffsetInHand(c: Config, s: State, trace: seq<Label>, i: nat)
    requires IsCall(c, s, trace) && 1 <= i < |trace|
    ensures Exec(c, s, trace[..i]).lane.pc.Busy?
    ensures Exec(c, s, trace[..i]).lane.pc.call.offset == s.lane.position
    decreases i
  {
    RunPrefix(c, s, trace, i);
    CallKeepsOffset(c, Exec(c, s, trace[..i]), trace[i]);
    RunPrefix(c, s, trace, i - 1);
    if i == 1 {
      assert trace[..0] == [];
    } else {
      OffsetInHand(c, s, trace, i - 1);
      CallKeepsOffset(c, Exec(c, s, trace[..i - 1]), trace[i - 1]);
    }
  }

  // ---------- Attempts ----------

  function Stores(trace: seq<Label>): nat {
    if trace == [] then 0
    else Stores(trace[..|trace| - 1]) + if trace[|trace| - 1].Store? then 1 else 0
  }

  /** The attempt failed with an exception that the policy retries, or does not. */
  predicate FailsAs(c: Config, s: State, l: Label, retryable: bool) {
    match l
    case Store(f) =>
      if f.Raise? then f.retryable == retryable
      else
        && s.lane.pc.Busy?
        && EventAt(c, s.lane.pc.call.offset).Some?
        && Refuses(s.db, EventAt(c, s.lane.pc.call.offset).value)
        && c.refusalRetryable(EventAt(c, s.lane.pc.call.offset).value) == retryable
    case Notify(f) => f.Raise? && f.retryable == retryable
    case Mark(f) => f.Raise? && f.retryable == retryable
    case _ => false
  }

  /** How one step of an attempt goes on: with the next attempt, or with the clean-up. */
  lemma AfterFailedStep(c: Config, s: State, l: Label)
    requires Orderly(c, s) && Enabled(c, s, l) && s.lane.pc.Busy? && EventAt(c, s.lane.pc.call.offset).Some?
    requires s.lane.pc.stage != Fetched
    ensures
      var pc' := Step(c, s, l).lane.pc;
      var n := s.lane.pc.call.attempts;
      && (pc'.Busy? && pc'.stage == Storing <==> FailsAs(c, s, l, true) && n < c.maxAttempts)
      && (pc'.Busy? && pc'.stage == Storing ==> pc'.call.attempts == n + 1)
      && (pc'.Busy? && pc'.stage.Discarding? <==> c.hasDlq && FailsForGood(c, s, l, n))
      && (pc'.Busy? && pc'.stage != Storing ==> pc'.call.attempts == n)
  {
  }

  /** The n-th attempt failed with an exception that is not retried, or that would be if this were not the last one. */
  predicate FailsForGood(c: Config, s: State, l: Label, n: nat) {
    FailsAs(c, s, l, false) || (FailsAs(c, s, l, true) && n == c.maxAttempts)
  }

  /** The step ends its attempt with all effects complete. */
  predicate Succeeds(c: Config, s: State, l: Label) {
    Step(c, s, l).lane.pc.Busy? && Step(c, s, l).lane.pc.stage == Committing(false)
  }

  /** The reported number of attempts is the number of store calls made. */
  predicate Counted(c: Config, pc: Pc, trace: seq<Label>) {
    pc.Busy? && EventAt(c, pc.call.offset).Some? ==>
      Stores(trace) + (if pc.stage == Storing then 1 else 0) == pc.call.attempts
  }

  lemma CountedStep(c: Config, s: State, trace: seq<Label>, l: Label)
    requires Orderly(c, s) && Enabled(c, s, l) && InCall(l) && Counted(c, s.lane.pc, trace)
    requires s.lane.pc.Busy? && s.lane.pc.stage == Fetched ==> s.lane.pc.call.attempts == 0
    ensures Counted(c, Step(c, s, l).lane.pc, trace + [l])
  {
    assert (trace + [l])[..|trace|] == trace;
  }

  // ---------- The duplicate flag ----------

  /** A store call raised after its row had been written, before any store call returned. */
  predicate BlindClaim(trace: seq<Label>) {
    trace != [] &&
    var init, l := trace[..|trace| - 1], trace[|trace| - 1];
    BlindClaim(init) || (l.Store? && l.fault.Raise? && l.fault.applied && Store(Calm) !in init)
  }

  predicate BeforeCleanup(stage: Stage) {
    !stage.Publishing? && stage != Committing(true)
  }

  /** What the call knows about the row of its event, given whether the row was there when the call began. */
  predicate Newness(db: Tables, e: OrderEvent, initialIsNew: Option<bool>, existed: bool, trace: seq<Label>) {
    var known := existed || BlindClaim(trace);
    match initialIsNew
    case Some(isNew) => isNew == !known && Store(Calm) in trace
    case None =>
      && (e.eventId in db.events ==> known)
      && (known ==> e.eventId in db.events || Refuses(db, e))
      && (Store(Calm) in trace ==> Refuses(db, e))
  }

  predicate NewnessAt(c: Config, s: State, existed: bool, trace: seq<Label>) {
    s.lane.pc.Busy? && EventAt(c, s.lane.pc.call.offset).Some? && BeforeCleanup(s.lane.pc.stage) ==>
      Newness(s.db, EventAt(c, s.lane.pc.call.offset).value, s.lane.pc.call.initialIsNew, existed, trace)
  }

  lemma NewnessStep(c: Config, s: State, existed: bool, trace: seq<Label>, l: Label)
    requires Orderly(c, s) && Enabled(c, s, l) && InCall(l) && NewnessAt(c, s, existed, trace)
    requires s.lane.pc.stage.Notifying? || s.lane.pc.stage.Marking? ==> s.lane.pc.call.initialIsNew.Some?
    ensures NewnessAt(c, Step(c, s, l), existed, trace + [l])
  {
    assert (trace + [l])[..|trace|] == trace;
    if l.Store? {
      NewnessStore(c, s, existed, trace, l);
    }
  }

  lemma NewnessStore(c: Config, s: State, existed: bool, trace: seq<Label>, l: Label)
    requires Orderly(c, s) && Enabled(c, s, l) && l.Store? && NewnessAt(c, s, existed, trace)
    ensures NewnessAt(c, Step(c, s, l), existed, trace + [l])
  {
    assert (trace + [l])[..|trace|] == trace;
  }

  /** What holds in the middle of every call. */
  predicate CallFacts(c: Config, s: State, existed: bool, trace: seq<Label>) {
    && Counted(c, s.lane.pc, trace)
    && NewnessAt(c, s, existed, trace)
    && (s.lane.pc.Busy? && s.lane.pc.stage == Fetched ==> s.lane.pc.call.attempts == 0)
    && (s.lane.pc.Busy? && (s.lane.pc.stage.Notifying? || s.lane.pc.stage.Marking? || s.lane.pc.stage == Committing(false))
        ==> s.lane.pc.call.initialIsNew.Some?)
  }

  lemma CallFactsStep(c: Config, s: State, existed: bool, trace: seq<Label>, l: Label)
    requires Orderly(c, s) && Enabled(c, s, l) && InCall(l) && CallFacts(c, s, existed, trace)
    ensures CallFacts(c, Step(c, s, l), existed, trace + [l])
  {
    CountedStep(c, s, trace, l);
    NewnessStep(c, s, existed, trace, l);
  }

  predicate Existed(c: Config, s: State) {
    EventAt(c, s.lane.position).Some? && EventAt(c, s.lane.position).value.eventId in s.db.events
  }

  lemma CallFactsBegin(c: Config, s: State)
    requires Enabled(c, s, Poll)
    ensures CallFacts(c, Step(c, s, Poll), Existed(c, s), [Poll])
  {
    assert [Poll][..0] == [];
  }

  lemma {:induction false} CallFactsHold(c: Config, s: State, trace: seq<Label>)
    requires c.Valid() && Orderly(c, s) && IsCall(c, s, trace)
    ensures CallFacts(c, Exec(c, s, trace), Existed(c, s), trace)
    decreases |trace|
  {
    var i := |trace| - 1;
    RunPrefix(c, s, trace, i);
    assert trace[..i + 1] == trace;
    if i == 0 {
      assert trace == [Poll] && trace[..0] == [];
      CallFactsBegin(c, s);
    } else {
      hide Step, CallFacts, IsRun;
      CallFactsHold(c, s, trace[..i]);
      OrderlyFrom(c, s, trace[..i]);
      assert Orderly(c, Exec(c, s, trace[..i]));
      CallFactsStep(c, Exec(c, s, trace[..i]), Existed(c, s), trace[..i], trace[i]);
      assert trace[..i] + [trace[i]] == trace;
    }
  }

  /**
   On a return that is not dead-lettered, `duplicate` holds exactly if the event's row was there when the call began
   or a store call of this very call wrote it and then raised. `attempts` is the number of store calls.
   */
  lemma EvidenceIsTrue(c: Config, s: State, trace: seq<Label>)
    requires c.Valid() && Orderly(c, s) && IsCall(c, s, trace)
    requires Exec(c, s, trace).lane.pc.Busy? && Exec(c, s, trace).lane.pc.stage == Committing(false)
    ensures
      var call := Exec(c, s, trace).lane.pc.call;
      && (call.initialIsNew == Some(false) <==> Existed(c, s) || BlindClaim(trace))
      && call.attempts == Stores(trace) <= c.maxAttempts
  {
    CallFactsHold(c, s, trace);
    CallOffset(c, s, trace);
    RunPrefix(c, s, trace, 0);
    assert trace[..0] == [];
    AttemptsBounded(c, s, trace);
  }

  lemma CallOffset(c: Config, s: State, trace: seq<Label>)
    requires c.Valid() && Orderly(c, s) && IsCall(c, s, trace) && Exec(c, s, trace).lane.pc.Busy?
    ensures Exec(c, s, trace).lane.pc.call.offset == s.lane.position
    ensures StageFacts(c, Exec(c, s, trace).db, Exec(c, s, trace).lane.pc.call, Exec(c, s, trace).lane.pc.stage)
  {
    OrderlyFrom(c, s, trace);
    assert Orderly(c, Exec(c, s, trace));
    var i := |trace| - 1;
    RunPrefix(c, s, trace, i);
    assert trace[..i + 1] == trace;
    if i == 0 {
      assert trace[..0] == [];
    } else {
      OffsetInHand(c, s, trace, i);
      CallKeepsOffset(c, Exec(c, s, trace[..i]), trace[i]);
    }
  }

  // ---------- The attempts of a whole call ----------

  /** What is known in the middle of a call. */
  lemma CallAt(c: Config, s: State, trace: seq<Label>, i: nat)
    requires c.Valid() && Orderly(c, s) && IsCall(c, s, trace) && 1 <= i < |trace|
    ensures
      var x := Exec(c, s, trace[..i]);
      && Orderly(c, x)
      && x.lane.pc.Busy? && x.lane.pc.call.offset == s.lane.position
      && Counted(c, x.lane.pc, trace[..i])
      && Enabled(c, x, trace[i]) && Exec(c, s, trace[..i + 1]) == Step(c, x, trace[i])
      && Stores(trace[..i + 1]) == Stores(trace[..i]) + if trace[i].Store? then 1 else 0
  {
    RunPrefix(c, s, trace, i);
    OffsetInHand(c, s, trace, i);
    OrderlyFrom(c, s, trace[..i]);
    assert IsCall(c, s, trace[..i]);
    CallFactsHold(c, s, trace[..i]);
    assert trace[..i + 1][..i] == trace[..i];
  }

  /** The step at i ends an attempt with a failure that is retried: one below the limit. */
  predicate RetriedAt(c: Config, s: State, trace: seq<Label>, i: nat)
    requires i < |trace|
  {
    FailsAs(c, Exec(c, s, trace[..i]), trace[i], true) && Stores(trace[..i + 1]) < c.maxAttempts
  }

  /** The step at i ends the last attempt: it completes the effects or fails for good. */
  predicate DecidedAt(c: Config, s: State, trace: seq<Label>, i: nat)
    requires i < |trace|
  {
    && Stores(trace[..i + 1]) == Stores(trace)
    && (Succeeds(c, Exec(c, s, trace[..i]), trace[i])
        || FailsForGood(c, Exec(c, s, trace[..i]), trace[i], Stores(trace)))
  }

  lemma ParseComesFirst(c: Config, s: State, trace: seq<Label>)
    requires IsCall(c, s, trace)
    ensures s.lane.pc == Ready && Exec(c, s, trace[..1]).lane.pc == Busy(Call(s.lane.position, 0, None), Fetched)
    ensures |trace| > 1 ==> trace[1] == Parse
  {
    RunPrefix(c, s, trace, 0);
    assert trace[..0] == [];
    if |trace| > 1 {
      RunPrefix(c, s, trace, 1);
    }
  }

  /** Each store call but the first follows right after an attempt that failed retryably below the limit. */
  lemma StoreFollowsRetriedAttempt(c: Config, s: State, trace: seq<Label>, i: nat)
    requires c.Valid() && Orderly(c, s) && IsCall(c, s, trace) && i < |trace| && trace[i].Store?
    requires EventAt(c, s.lane.position).Some?
    ensures i >= 2
    ensures if Stores(trace[..i]) == 0 then trace[i - 1] == Parse else RetriedAt(c, s, trace, i - 1)
  {
    ParseComesFirst(c, s, trace);
    CallAt(c, s, trace, i);
    CallAt(c, s, trace, i - 1);
    var x := Exec(c, s, trace[..i - 1]);
    if x.lane.pc.stage != Fetched {
      AfterFailedStep(c, x, trace[i - 1]);
    }
  }

  /** What a DLQ record says of the step that ended the last attempt. */
  function CauseOf(l: Label): Cause {
    match l
    case Store(f) => if f.Raise? then StoreFailed else StoreRefused
    case Notify(_) => NotifyFailed
    case Mark(f) => MarkFailed(f.Raise? && f.applied)
    case _ => Unparsed
  }

  /** The clean-up follows right after an attempt that failed for good. */
  lemma DiscardFollowsDecision(c: Config, s: State, trace: seq<Label>, i: nat)
    requires c.Valid() && Orderly(c, s) && IsCall(c, s, trace) && 1 <= i < |trace|
    requires EventAt(c, s.lane.position).Some?
    requires Exec(c, s, trace[..i]).lane.pc.Busy? && Exec(c, s, trace[..i]).lane.pc.stage.Discarding?
    ensures i >= 2 && FailsForGood(c, Exec(c, s, trace[..i - 1]), trace[i - 1], Stores(trace[..i]))
    ensures Exec(c, s, trace[..i]).lane.pc.stage.cause == CauseOf(trace[i - 1])
  {
    ParseComesFirst(c, s, trace);
    CallAt(c, s, trace, i);
    CallAt(c, s, trace, i - 1);
    var x := Exec(c, s, trace[..i - 1]);
    if x.lane.pc.stage != Fetched {
      AfterFailedStep(c, x, trace[i - 1]);
    }
  }

  /** The publication of a parsed event's failure follows right after the clean-up. */
  lemma PublishFollowsDiscard(c: Config, s: State, trace: seq<Label>, i: nat)
    requires c.Valid() && Orderly(c, s) && IsCall(c, s, trace) && 1 <= i < |trace|
    requires EventAt(c, s.lane.position).Some?
    requires Exec(c, s, trace[..i]).lane.pc.Busy? && Exec(c, s, trace[..i]).lane.pc.stage.Publishing?
    ensures i >= 2 && trace[i - 1] == Discard(Calm)
    ensures
      var pc := Exec(c, s, trace[..i - 1]).lane.pc;
      pc.Busy? && pc.stage == Discarding(Exec(c, s, trace[..i]).lane.pc.stage.cause)
  {
    ParseComesFirst(c, s, trace);
    CallAt(c, s, trace, i);
    CallAt(c, s, trace, i - 1);
    PublishPredecessor(c, Exec(c, s, trace[..i - 1]), trace[i - 1]);
  }

  /** The step that ends a call that returned or raised. */
  lemma LastStepDecides(c: Config, s: State, trace: seq<Label>) returns (i: nat)
    requires c.Valid() && Orderly(c, s) && IsCall(c, s, trace) && !Exec(c, s, trace).lane.pc.Busy?
    requires EventAt(c, s.lane.position).Some?
    ensures i < |trace| && DecidedAt(c, s, trace, i)
  {
    var n := |trace| - 1;
    assert trace[..n + 1] == trace;
    ParseComesFirst(c, s, trace);
    CallAt(c, s, trace, n);
    hide IsCall, Orderly, Step, Exec, Counted;
    if trace[n].Commit? {
      i := CommitDecides(c, s, trace);
    } else if trace[n].Discard? || trace[n].Publish? {
      i := CleanUpDecides(c, s, trace);
    } else {
      EffectDecides(c, s, trace);
      i := n;
    }
  }

  lemma EffectDecides(c: Config, s: State, trace: seq<Label>)
    requires c.Valid() && Orderly(c, s) && IsCall(c, s, trace) && !Exec(c, s, trace).lane.pc.Busy?
    requires |trace| > 1 && EventAt(c, s.lane.position).Some?
    requires !trace[|trace| - 1].Commit? && !trace[|trace| - 1].Discard? && !trace[|trace| - 1].Publish?
    ensures DecidedAt(c, s, trace, |trace| - 1)
  {
    var n := |trace| - 1;
    assert trace[..n + 1] == trace;
    CallAt(c, s, trace, n);
    var x := Exec(c, s, trace[..n]);
    LeavesCounted(c, x, trace[n], Stores(trace[..n]));
    LastEffectFails(c, x, trace[n]);
  }

  lemma CleanUpDecides(c: Config, s: State, trace: seq<Label>) returns (i: nat)
    requires c.Valid() && Orderly(c, s) && IsCall(c, s, trace) && |trace| > 1 && EventAt(c, s.lane.position).Some?
    requires trace[|trace| - 1].Discard? || trace[|trace| - 1].Publish?
    ensures i < |trace| && DecidedAt(c, s, trace, i)
  {
    var n := |trace| - 1;
    assert trace[..n + 1] == trace;
    CallAt(c, s, trace, n);
    hide IsCall, Orderly, Step, Exec, Counted;
    if trace[n].Discard? {
      DiscardFollowsDecision(c, s, trace, n);
      i := n - 1;
    } else {
      PublishFollowsDiscard(c, s, trace, n);
      CallAt(c, s, trace, n - 1);
      DiscardFollowsDecision(c, s, trace, n - 1);
      i := n - 2;
    }
  }

  lemma CommitDecides(c: Config, s: State, trace: seq<Label>) returns (i: nat)
    requires c.Valid() && Orderly(c, s) && IsCall(c, s, trace) && |trace| > 1 && EventAt(c, s.lane.position).Some?
    requires trace[|trace| - 1].Commit?
    ensures i < |trace| && DecidedAt(c, s, trace, i)
  {
    hide IsCall, Orderly, Counted, Step, Exec, Enabled, FailsForGood, StageFacts;
    var n := |trace| - 1;
    assert trace[..n + 1] == trace;
    CallAt(c, s, trace, n);
    CommitClosesCall(c, s, trace, n);
    CallAt(c, s, trace, n - 1);
    CommitStage(c, Exec(c, s, trace[..n]), trace[n]);
    CommitPredecessor(c, Exec(c, s, trace[..n - 1]), trace[n - 1]);
    if trace[n - 1] == Publish(Calm) {
      PublishFollowsDiscard(c, s, trace, n - 1);
      CallAt(c, s, trace, n - 2);
      DiscardFollowsDecision(c, s, trace, n - 2);
      i := n - 3;
    } else {
      i := n - 1;
    }
  }

  lemma CommitStage(c: Config, s: State, l: Label)
    requires Enabled(c, s, l) && l.Commit?
    ensures s.lane.pc.Busy? && s.lane.pc.stage.Committing?
  {
  }

  lemma LastEffectFails(c: Config, x: State, l: Label)
    requires Orderly(c, x) && Enabled(c, x, l) && x.lane.pc.Busy? && InCall(l)
    requires x.lane.pc.stage == Storing || x.lane.pc.stage == Notifying || x.lane.pc.stage == Marking
    requires !Step(c, x, l).lane.pc.Busy?
    ensures FailsForGood(c, x, l, x.lane.pc.call.attempts)
  {
  }

  /** The DLQ records of a call carry the number of its store calls. */
  lemma {:induction false} DeadLettersCount(c: Config, s: State, trace: seq<Label>)
    requires c.Valid() && Orderly(c, s) && IsCall(c, s, trace) && EventAt(c, s.lane.position).Some?
    ensures
      var t := Exec(c, s, trace);
      && s.lane.dlq <= t.lane.dlq
      && (forall j :: |s.lane.dlq| <= j < |t.lane.dlq| ==> t.lane.dlq[j].attempts == Stores(trace))
      && (t.lane.dlq != s.lane.dlq ==> !t.lane.pc.Busy? || t.lane.pc.stage == Committing(true))
    decreases |trace|
  {
    var n := |trace| - 1;
    assert trace[..n + 1] == trace;
    RunPrefix(c, s, trace, n);
    if n == 0 {
      assert trace[..0] == [];
    } else {
      assert IsCall(c, s, trace[..n]);
      DeadLettersCount(c, s, trace[..n]);
      CallAt(c, s, trace, n);
    }
  }

  /**
   The attempts of a call that returned or raised are the least number n such that the n-th attempt completes the
   effects, fails for good, or is the last one allowed: all attempts before it failed retryably below the limit. The
   number is that of the store calls, and the commit, the clean-up and every DLQ record of the call carry it.
   */
  lemma AttemptsAreMaximal(c: Config, s: State, trace: seq<Label>)
    requires c.Valid() && Orderly(c, s) && IsCall(c, s, trace) && !Exec(c, s, trace).lane.pc.Busy?
    requires EventAt(c, s.lane.position).Some?
    ensures forall i :: 2 <= i < |trace| && trace[i].Store? && Stores(trace[..i]) > 0 ==> RetriedAt(c, s, trace, i - 1)
    ensures exists i :: 0 <= i < |trace| && DecidedAt(c, s, trace, i)
    ensures 1 <= Stores(trace) <= c.maxAttempts
    ensures
      var last := Exec(c, s, trace[..|trace| - 1]).lane.pc;
      last.Busy? && last.call.attempts == Stores(trace)
    ensures forall j :: |s.lane.dlq| <= j < |Exec(c, s, trace).lane.dlq| ==>
              Exec(c, s, trace).lane.dlq[j].attempts == Stores(trace)
  {
    forall i | 2 <= i < |trace| && trace[i].Store? && Stores(trace[..i]) > 0 ensures RetriedAt(c, s, trace, i - 1) {
      StoreFollowsRetriedAttempt(c, s, trace, i);
    }
    var i := LastStepDecides(c, s, trace);
    DeadLettersCount(c, s, trace);
    AttemptsOfLastStep(c, s, trace);
  }

  lemma AttemptsOfLastStep(c: Config, s: State, trace: seq<Label>)
    requires c.Valid() && Orderly(c, s) && IsCall(c, s, trace) && !Exec(c, s, trace).lane.pc.Busy?
    requires EventAt(c, s.lane.position).Some?
    ensures
      var last := Exec(c, s, trace[..|trace| - 1]).lane.pc;
      last.Busy? && last.call.attempts == Stores(trace) && 1 <= Stores(trace) <= c.maxAttempts
  {
    var n := |trace| - 1;
    assert trace[..n + 1] == trace;
    ParseComesFirst(c, s, trace);
    CallAt(c, s, trace, n);
    AttemptsBounded(c, s, trace[..n]);
    LeavesCounted(c, Exec(c, s, trace[..n]), trace[n], Stores(trace[..n]));
  }

  lemma LeavesCounted(c: Config, x: State, l: Label, stores: nat)
    requires Enabled(c, x, l) && x.lane.pc.Busy? && EventAt(c, x.lane.pc.call.offset).Some? && InCall(l)
    requires !Step(c, x, l).lane.pc.Busy?
    requires stores + (if x.lane.pc.stage == Storing then 1 else 0) == x.lane.pc.call.attempts
    ensures x.lane.pc.stage != Fetched
    ensures x.lane.pc.call.attempts == stores + if l.Store? then 1 else 0
  {
  }

  // ---------- What a DLQ record tells ----------

  /** The record was published at step p of the call, with what the call knew then. */
  predicate PublishedAt(c: Config, s: State, trace: seq<Label>, p: nat, d: DeadLetter) {
    && 1 <= p < |trace| && trace[p].Publish?
    && var pc := Exec(c, s, trace[..p]).lane.pc;
    && pc.Busy? && pc.stage == Publishing(d.cause) && pc.call.attempts == d.attempts
  }

  lemma {:induction false} DeadLettersArePublished(c: Config, s: State, trace: seq<Label>, j: nat)
    requires IsCall(c, s, trace) && |s.lane.dlq| <= j < |Exec(c, s, trace).lane.dlq|
    ensures exists p: nat :: PublishedAt(c, s, trace, p, Exec(c, s, trace).lane.dlq[j])
    decreases |trace|
  {
    var n := |trace| - 1;
    assert trace[..n + 1] == trace;
    RunPrefix(c, s, trace, n);
    var x, d := Exec(c, s, trace[..n]), Exec(c, s, trace).lane.dlq[j];
    PublishTells(c, x, trace[n]);
    assert trace[..0] == [];
    if j < |x.lane.dlq| {
      assert IsCall(c, s, trace[..n]);
      hide Step, IsCall, Exec;
      DeadLettersArePublished(c, s, trace[..n], j);
      var p: nat :| PublishedAt(c, s, trace[..n], p, d);
      assert trace[..n][..p] == trace[..p];
      assert PublishedAt(c, s, trace, p, d);
    } else {
      assert PublishedAt(c, s, trace, n, d);
    }
  }

  lemma PublishTells(c: Config, s: State, l: Label)
    requires Enabled(c, s, l)
    ensures
      var dlq, dlq' := s.lane.dlq, Step(c, s, l).lane.dlq;
      && dlq <= dlq'
      && (|dlq'| > |dlq| ==>
            && |dlq'| == |dlq| + 1 && l.Publish? && s.lane.pc.Busy?
            && s.lane.pc.stage == Publishing(dlq'[|dlq|].cause)
            && s.lane.pc.call.attempts == dlq'[|dlq|].attempts)
  {
  }

  /** The record's cause and attempts are those of the step that ended the last attempt for good. */
  predicate TellsDecision(c: Config, s: State, trace: seq<Label>, i: nat, d: DeadLetter) {
    && i < |trace|
    && (match trace[i]
        case Store(f) => d.cause == if f.Raise? then StoreFailed else StoreRefused
        case Notify(_) => d.cause == NotifyFailed
        case Mark(f) => d.cause == MarkFailed(f.Raise? && f.applied)
        case _ => false)
    && d.attempts == Stores(trace[..i + 1]) == Stores(trace)
    && FailsForGood(c, Exec(c, s, trace[..i]), trace[i], d.attempts)
  }

  /**
   Every DLQ record of a call tells why its last attempt failed: which call raised or was refused, and the number of
   attempts. For a record that does not parse it tells that, and one attempt.
   */
  lemma DeadLettersTellWhy(c: Config, s: State, trace: seq<Label>, j: nat)
    requires c.Valid() && Orderly(c, s) && IsCall(c, s, trace) && |s.lane.dlq| <= j < |Exec(c, s, trace).lane.dlq|
    ensures
      var d := Exec(c, s, trace).lane.dlq[j];
      if EventAt(c, s.lane.position).Some? then exists i: nat :: TellsDecision(c, s, trace, i, d)
      else d.cause == Unparsed && d.attempts == 1
  {
    hide Step, Exec, IsCall, Orderly, FailsForGood, StageFacts, Counted, IsRun;
    DeadLettersArePublished(c, s, trace, j);
    var d := Exec(c, s, trace).lane.dlq[j];
    var p: nat :| PublishedAt(c, s, trace, p, d);
    if EventAt(c, s.lane.position).Some? {
      DeadLettersCount(c, s, trace);
      PublishFollowsDiscard(c, s, trace, p);
      DiscardFollowsDecision(c, s, trace, p - 1);
      CallAt(c, s, trace, p);
      CallAt(c, s, trace, p - 1);
      CallAt(c, s, trace, p - 2);
      OnlyEffectsFail(c, Exec(c, s, trace[..p - 2]), trace[p - 2], d.attempts);
      assert TellsDecision(c, s, trace, p - 2, d);
    } else {
      OffsetInHand(c, s, trace, p);
      UnparsedPrefix(c, s, trace, p);
    }
  }

  lemma OnlyEffectsFail(c: Config, s: State, l: Label, n: nat)
    requires FailsForGood(c, s, l, n)
    ensures l.Store? || l.Notify? || l.Mark?
  {
  }

  lemma UnparsedPrefix(c: Config, s: State, trace: seq<Label>, p: nat)
    requires IsCall(c, s, trace) && EventAt(c, s.lane.position).None? && 1 <= p < |trace|
    ensures UnparsedFacts(Exec(c, s, trace[..p]).lane.pc)
  {
    RunPrefix(c, s, trace, p);
    UnparsedCall(c, s, trace[..p]);
  }

  // ---------- What a call reports ----------

  /** A record that does not parse is published at once: no store call, one attempt. */
  predicate UnparsedFacts(pc: Pc) {
    pc.Busy? ==>
      && pc.call.initialIsNew.None?
      && (pc.stage == Fetched || pc.stage == Publishing(Unparsed) || pc.stage.Committing?)
      && pc.call.attempts == if pc.stage == Fetched then 0 else 1
  }

  lemma UnparsedStep(c: Config, s: State, l: Label)
    requires Enabled(c, s, l) && InCall(l) && s.lane.pc.Busy? && EventAt(c, s.lane.pc.call.offset).None?
    requires UnparsedFacts(s.lane.pc)
    ensures UnparsedFacts(Step(c, s, l).lane.pc)
  {
  }

  lemma {:induction false} UnparsedCall(c: Config, s: State, trace: seq<Label>)
    requires IsCall(c, s, trace) && EventAt(c, s.lane.position).None?
    ensures UnparsedFacts(Exec(c, s, trace).lane.pc)
    decreases |trace|
  {
    var n := |trace| - 1;
    assert trace[..n + 1] == trace;
    RunPrefix(c, s, trace, n);
    if n == 0 {
      assert trace[..0] == [];
    } else {
      assert IsCall(c, s, trace[..n]);
      UnparsedCall(c, s, trace[..n]);
      OffsetInHand(c, s, trace, n);
      UnparsedStep(c, Exec(c, s, trace[..n]), trace[n]);
    }
  }

  /** Whether the first store call of the steps that returned found its claim, if one returned. */
  function FirstReply(c: Config, s: State, trace: seq<Label>, e: OrderEvent): Option<bool> {
    if trace == [] then None
    else
      var init, l := trace[..|trace| - 1], trace[|trace| - 1];
      var db := Exec(c, s, init).db;
      if FirstReply(c, s, init, e).Some? then FirstReply(c, s, init, e)
      else if l == Store(Calm) && !Refuses(db, e) then Some(e.eventId in db.events)
      else None
  }

  predicate Remembers(c: Config, pc: Pc, e: OrderEvent, reply: Option<bool>) {
    pc.Busy? && EventAt(c, pc.call.offset) == Some(e) ==>
      pc.call.initialIsNew == if reply.Some? then Some(!reply.value) else None
  }

  lemma RemembersStep(c: Config, s: State, l: Label, e: OrderEvent, reply: Option<bool>)
    requires Enabled(c, s, l) && InCall(l) && s.lane.pc.Busy? && EventAt(c, s.lane.pc.call.offset) == Some(e)
    requires Remembers(c, s.lane.pc, e, reply)
    ensures Remembers(c, Step(c, s, l).lane.pc, e,
                      if reply.Some? then reply
                      else if l == Store(Calm) && !Refuses(s.db, e) then Some(e.eventId in s.db.events) else None)
  {
  }

  /** `initialIsNew` is the answer of the first store call that returned. */
  lemma {:induction false} FirstReplyIsRemembered(c: Config, s: State, trace: seq<Label>, e: OrderEvent)
    requires IsCall(c, s, trace) && EventAt(c, s.lane.position) == Some(e)
    ensures Remembers(c, Exec(c, s, trace).lane.pc, e, FirstReply(c, s, trace, e))
    decreases |trace|
  {
    var n := |trace| - 1;
    assert trace[..n + 1] == trace;
    RunPrefix(c, s, trace, n);
    if n == 0 {
      assert trace == [Poll] && trace[..0] == [];
    } else {
      assert IsCall(c, s, trace[..n]);
      FirstReplyIsRemembered(c, s, trace[..n], e);
      OffsetInHand(c, s, trace, n);
      RemembersStep(c, Exec(c, s, trace[..n]), trace[n], e, FirstReply(c, s, trace[..n], e));
      hide Step, Enabled, IsCall;
    }
  }

  predicate Bounded(c: Config, pc: Pc) {
    pc.Busy? ==> pc.call.attempts <= c.maxAttempts && (pc.stage != Fetched ==> 1 <= pc.call.attempts)
  }

  lemma BoundedStep(c: Config, s: State, l: Label)
    requires Bounded(c, s.lane.pc) && c.Valid()
    ensures Bounded(c, Step(c, s, l).lane.pc)
  {
  }

  lemma {:induction false} AttemptsBounded(c: Config, s: State, trace: seq<Label>)
    requires c.Valid() && Bounded(c, s.lane.pc)
    ensures Bounded(c, Exec(c, s, trace).lane.pc)
    decreases |trace|
  {
    if trace != [] {
      AttemptsBounded(c, s, trace[..|trace| - 1]);
      BoundedStep(c, Exec(c, s, trace[..|trace| - 1]), trace[|trace| - 1]);
    }
  }
}
