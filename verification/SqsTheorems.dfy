/** Safety and termination of the competing SQS workers. */
module SqsTheorems {
  import opened OrderEvents
  import opened OrderTables
  import opened SqsProtocol

  // ---------- Safety ----------

  predicate MessageFacts(limit: nat, t: Tables, msg: Message) {
    && msg.receives <= limit
    && (msg.place.DeadLettered? ==> msg.receives == limit)
    && (msg.place.InFlight? ==> msg.receives > 0)
    && (msg.place.Deleted? ==> msg.body.Order? && IsCompleted(t, msg.body.event.eventId) && msg.receives > 0)
  }

  predicate WorkerFacts(t: Tables, msgs: seq<Message>, worker: Worker) {
    worker.Holding? ==>
      && worker.msg < |msgs|
      && 1 <= worker.handle <= msgs[worker.msg].receives
      && (worker.stage != Received ==> msgs[worker.msg].body.Order?)
      && (worker.stage == ReadingStatus || worker.stage == Marking ==> msgs[worker.msg].body.event.eventId in t.events)
      && (worker.stage == Deleting ==> IsCompleted(t, msgs[worker.msg].body.event.eventId))
  }

  ghost predicate Safe(limit: nat, s: State) {
    && (forall m :: 0 <= m < |s.msgs| ==> MessageFacts(limit, s.db, s.msgs[m]))
    && (forall w :: 0 <= w < |s.workers| ==> WorkerFacts(s.db, s.msgs, s.workers[w]))
  }

  /** absent < pending < completed */
  function StatusRank(t: Tables, id: EventId): nat {
    if id !in t.events then 0 else if t.events[id] == Pending then 1 else 2
  }

  lemma StatusClimbs(limit: nat, s: State, l: Label, id: EventId)
    ensures StatusRank(s.db, id) <= StatusRank(Step(limit, s, l).db, id)
  {
  }

  /** No message disappears or changes its body, and the final places are final. */
  predicate Preserves(s: State, s': State, m: nat) {
    m < |s.msgs| ==>
      && m < |s'.msgs|
      && s'.msgs[m].body == s.msgs[m].body
      && s.msgs[m].receives <= s'.msgs[m].receives
      && (s.msgs[m].place.Deleted? ==> s'.msgs[m].place.Deleted?)
      && (s.msgs[m].place.DeadLettered? ==> s'.msgs[m].place.DeadLettered?)
  }

  lemma PreservesStep(limit: nat, s: State, l: Label, m: nat)
    ensures Preserves(s, Step(limit, s, l), m)
  {
  }

  lemma SafeStep(limit: nat, s: State, l: Label)
    requires Safe(limit, s)
    ensures Safe(limit, Step(limit, s, l))
  {
    if Enabled(limit, s, l) {
      var s' := Step(limit, s, l);
      forall m: nat | m < |s'.msgs| ensures MessageFacts(limit, s'.db, s'.msgs[m]) {
        MessageStep(limit, s, l, m);
      }
      forall w: nat | w < |s'.workers| ensures WorkerFacts(s'.db, s'.msgs, s'.workers[w]) {
        WorkerStep(limit, s, l, w);
      }
      hide Step, Enabled, MessageFacts, WorkerFacts;
    }
  }

  lemma MessageStep(limit: nat, s: State, l: Label, m: nat)
    requires Safe(limit, s) && Enabled(limit, s, l) && m < |Step(limit, s, l).msgs|
    ensures MessageFacts(limit, Step(limit, s, l).db, Step(limit, s, l).msgs[m])
  {
    if m < |s.msgs| {
      assert MessageFacts(limit, s.db, s.msgs[m]);
      if s.msgs[m].body.Order? {
        StatusClimbs(limit, s, l, s.msgs[m].body.event.eventId);
      }
      if l.Delete? {
        assert WorkerFacts(s.db, s.msgs, s.workers[l.w]);
      }
    }
  }

  /** A worker's facts survive what others do: statuses climb, and its message only gains receives. */
  lemma WorkerStep(limit: nat, s: State, l: Label, w: nat)
    requires Safe(limit, s) && Enabled(limit, s, l) && w < |Step(limit, s, l).workers|
    ensures WorkerFacts(Step(limit, s, l).db, Step(limit, s, l).msgs, Step(limit, s, l).workers[w])
  {
    var s' := Step(limit, s, l);
    assert w < |s.workers|;
    assert WorkerFacts(s.db, s.msgs, s.workers[w]);
    if s'.workers[w] == s.workers[w] && s.workers[w].Holding? {
      var m := s.workers[w].msg;
      PreservesStep(limit, s, l, m);
      if s.msgs[m].body.Order? {
        StatusClimbs(limit, s, l, s.msgs[m].body.event.eventId);
      }
      hide Step, Enabled;
    } else {
      OwnStep(limit, s, l, w);
    }
  }

  lemma OwnStep(limit: nat, s: State, l: Label, w: nat)
    requires w < |s.workers| && WorkerFacts(s.db, s.msgs, s.workers[w]) && Enabled(limit, s, l)
    requires Step(limit, s, l).workers[w] != s.workers[w] || s.workers[w].Idle?
    ensures WorkerFacts(Step(limit, s, l).db, Step(limit, s, l).msgs, Step(limit, s, l).workers[w])
  {
  }

  lemma {:induction false} SafeAlways(limit: nat, n: nat, trace: seq<Label>)
    ensures Safe(limit, Exec(limit, Initial(n), trace))
    decreases |trace|
  {
    if trace != [] {
      SafeAlways(limit, n, trace[..|trace| - 1]);
      SafeStep(limit, Exec(limit, Initial(n), trace[..|trace| - 1]), trace[|trace| - 1]);
    }
  }

  /** Neither error branch of the store can be taken: the claim is there when its status is read or set. */
  lemma StoreErrorsUnreachable(limit: nat, n: nat, trace: seq<Label>, w: nat)
    ensures
      var s := Exec(limit, Initial(n), trace);
      (AtStage(s, w, ReadingStatus) || AtStage(s, w, Marking)) ==>
        BodyOf(s, s.workers[w].msg).Order? && BodyOf(s, s.workers[w].msg).event.eventId in s.db.events
  {
    SafeAlways(limit, n, trace);
    var s := Exec(limit, Initial(n), trace);
    if w < |s.workers| {
      assert WorkerFacts(s.db, s.msgs, s.workers[w]);
    }
  }

  lemma {:induction false} ExecConcat(limit: nat, s: State, a: seq<Label>, b: seq<Label>)
    ensures Exec(limit, s, a + b) == Exec(limit, Exec(limit, s, a), b)
    decreases |b|
  {
    if b == [] {
      assert a + b == a;
    } else {
      var init := b[..|b| - 1];
      assert (a + b)[..|a + b| - 1] == a + init;
      ExecConcat(limit, s, a, init);
    }
  }

  /** From any state on, rows only climb from absent over pending to completed, and settled messages stay settled. */
  lemma {:induction false} RunsOnlyClimb(limit: nat, s: State, more: seq<Label>, id: EventId, m: nat)
    ensures StatusRank(s.db, id) <= StatusRank(Exec(limit, s, more).db, id)
    ensures Preserves(s, Exec(limit, s, more), m)
    decreases |more|
  {
    if more != [] {
      var init, l := more[..|more| - 1], more[|more| - 1];
      RunsOnlyClimb(limit, s, init, id, m);
      StatusClimbs(limit, Exec(limit, s, init), l, id);
      PreservesStep(limit, Exec(limit, s, init), l, m);
    }
  }

  /** A deleted message's event is completed, and stays so however the run goes on. */
  lemma DeletedMeansCompletedForever(limit: nat, n: nat, trace: seq<Label>, more: seq<Label>, m: nat)
    requires m < |Exec(limit, Initial(n), trace).msgs|
    requires Exec(limit, Initial(n), trace).msgs[m].place.Deleted?
    ensures
      var s' := Exec(limit, Initial(n), trace + more);
      m < |s'.msgs| && s'.msgs[m].place.Deleted? && s'.msgs[m].body.Order? &&
      IsCompleted(s'.db, s'.msgs[m].body.event.eventId)
  {
    SafeAlways(limit, n, trace);
    var s := Exec(limit, Initial(n), trace);
    assert MessageFacts(limit, s.db, s.msgs[m]);
    ExecConcat(limit, Initial(n), trace, more);
    RunsOnlyClimb(limit, s, more, s.msgs[m].body.event.eventId, m);
  }

  lemma StepCommits(limit: nat, s: State, l: Label)
    ensures Step(limit, s, l).db == Apply(s.db, TxOf(limit, s, l))
  {
  }

  lemma {:induction false} TablesAlwaysMatch(limit: nat, n: nat, trace: seq<Label>)
    ensures Matched(Exec(limit, Initial(n), trace).db)
    ensures |Exec(limit, Initial(n), trace).db.orders| == |Exec(limit, Initial(n), trace).db.events|
    decreases |trace|
  {
    if trace != [] {
      var init, l := trace[..|trace| - 1], trace[|trace| - 1];
      TablesAlwaysMatch(limit, n, init);
      StepCommits(limit, Exec(limit, Initial(n), init), l);
      ApplyKeepsMatched(Exec(limit, Initial(n), init).db, TxOf(limit, Exec(limit, Initial(n), init), l));
    }
    CountsAgree(Exec(limit, Initial(n), trace).db);
  }

  // ---------- Termination ----------

  function Sum(xs: seq<nat>): nat {
    if xs == [] then 0 else Sum(xs[..|xs| - 1]) + xs[|xs| - 1]
  }

  lemma {:induction false} SumUpdate(xs: seq<nat>, i: nat, v: nat)
    requires i < |xs|
    ensures Sum(xs[i := v]) + xs[i] == Sum(xs) + v
    decreases |xs|
  {
    var init := xs[..|xs| - 1];
    if i == |xs| - 1 {
      assert xs[i := v][..|xs| - 1] == init;
    } else {
      assert xs[i := v][..|xs| - 1] == init[i := v];
      SumUpdate(init, i, v);
    }
  }

  lemma {:induction false} SumBound(xs: seq<nat>, bound: nat)
    requires forall i :: 0 <= i < |xs| ==> xs[i] <= bound
    ensures Sum(xs) <= |xs| * bound
    decreases |xs|
  {
    if xs != [] {
      SumBound(xs[..|xs| - 1], bound);
      assert |xs| * bound == (|xs| - 1) * bound + bound;
    }
  }

  /** Steps that one more receive can cause: five of its worker, one expiry, and the receive itself. */
  const STEPS_PER_RECEIVE := 7

  function PlaceRank(p: Place): nat {
    match p
    case InFlight => 2
    case Visible => 1
    case DeadLettered => 0
    case Deleted => 0
  }

  function MessageWeight(limit: nat, msg: Message): nat {
    STEPS_PER_RECEIVE * (if msg.receives < limit then limit - msg.receives else 0) + PlaceRank(msg.place)
  }

  function WorkerWeight(worker: Worker): nat {
    if worker.Idle? then 0
    else
      match worker.stage
      case Received => 5
      case Claiming => 4
      case ReadingStatus => 3
      case Marking => 2
      case Deleting => 1
  }

  function MessageWeights(limit: nat, msgs: seq<Message>): seq<nat> {
    seq(|msgs|, i requires 0 <= i < |msgs| => MessageWeight(limit, msgs[i]))
  }

  function WorkerWeights(workers: seq<Worker>): seq<nat> {
    seq(|workers|, i requires 0 <= i < |workers| => WorkerWeight(workers[i]))
  }

  /** Bounds the number of steps that are left. */
  function Measure(limit: nat, s: State): nat {
    Sum(MessageWeights(limit, s.msgs)) + Sum(WorkerWeights(s.workers))
  }

  lemma SetMsgWeight(limit: nat, s: State, m: nat, msg: Message)
    requires m < |s.msgs|
    ensures Measure(limit, SetMsg(s, m, msg)) + MessageWeight(limit, s.msgs[m]) == Measure(limit, s) + MessageWeight(limit, msg)
  {
    assert MessageWeights(limit, s.msgs[m := msg]) == MessageWeights(limit, s.msgs)[m := MessageWeight(limit, msg)];
    SumUpdate(MessageWeights(limit, s.msgs), m, MessageWeight(limit, msg));
  }

  lemma SetWorkerWeight(limit: nat, s: State, w: nat, worker: Worker)
    requires w < |s.workers|
    ensures Measure(limit, SetWorker(s, w, worker)) + WorkerWeight(s.workers[w]) == Measure(limit, s) + WorkerWeight(worker)
  {
    assert WorkerWeights(s.workers[w := worker]) == WorkerWeights(s.workers)[w := WorkerWeight(worker)];
    SumUpdate(WorkerWeights(s.workers), w, WorkerWeight(worker));
  }

  /** A worker step that only changes its worker lowers the measure with that worker's weight. */
  lemma WorkerStepDecreases(limit: nat, s: State, l: Label, w: nat)
    requires Enabled(limit, s, l)
    requires l == Parse(w) || l == Stop(w) || (l.Claim? && l.w == w) || (l.ReadStatus? && l.w == w) || (l.Mark? && l.w == w)
    ensures Measure(limit, QueueStep(limit, s, l)) < Measure(limit, s)
  {
    var worker' := QueueStep(limit, s, l).workers[w];
    assert QueueStep(limit, s, l) == SetWorker(s, w, worker');
    SetWorkerWeight(limit, s, w, worker');
  }

  lemma QueueStepDecreases(limit: nat, s: State, l: Label)
    requires Enabled(limit, s, l)
    requires l.Receive? || l.Redrive? || l.Expire? || l.Delete?
    ensures Measure(limit, QueueStep(limit, s, l)) < Measure(limit, s)
  {
    hide MessageWeights, WorkerWeights, Sum;
    match l
    case Receive(w, m) =>
      var msg := s.msgs[m].(receives := s.msgs[m].receives + 1, place := InFlight);
      SetMsgWeight(limit, s, m, msg);
      SetWorkerWeight(limit, SetMsg(s, m, msg), w, Holding(m, msg.receives, Received));
    case Redrive(m) => SetMsgWeight(limit, s, m, s.msgs[m].(place := DeadLettered));
    case Expire(m) => SetMsgWeight(limit, s, m, s.msgs[m].(place := Visible));
    case Delete(w, f, honoured) =>
      var worker := s.workers[w];
      var deleted := s.msgs[worker.msg].(place := Deleted);
      if Deletes(s, worker, f, honoured) {
        SetMsgWeight(limit, s, worker.msg, deleted);
        SetWorkerWeight(limit, SetMsg(s, worker.msg, deleted), w, Idle);
      } else {
        SetWorkerWeight(limit, s, w, Idle);
      }
  }

  lemma MeasureDecreases(limit: nat, s: State, l: Label)
    requires Enabled(limit, s, l) && !l.Send?
    ensures Measure(limit, Step(limit, s, l)) < Measure(limit, s)
  {
    assert Measure(limit, Step(limit, s, l)) == Measure(limit, QueueStep(limit, s, l));
    if l.Receive? || l.Redrive? || l.Expire? || l.Delete? {
      QueueStepDecreases(limit, s, l);
    } else {
      WorkerStepDecreases(limit, s, l, l.w);
    }
  }

  predicate NoSends(trace: seq<Label>) {
    forall i :: 0 <= i < |trace| ==> !trace[i].Send?
  }

  /** Without new sends no run is longer than the measure of its first state. */
  lemma {:induction false} RunsAreFinite(limit: nat, s: State, trace: seq<Label>)
    requires IsRun(limit, s, trace) && NoSends(trace)
    ensures |trace| + Measure(limit, Exec(limit, s, trace)) <= Measure(limit, s)
    decreases |trace|
  {
    if trace != [] {
      var init := trace[..|trace| - 1];
      RunsAreFinite(limit, s, init);
      MeasureDecreases(limit, Exec(limit, s, init), trace[|trace| - 1]);
    }
  }

  lemma MeasureBound(limit: nat, s: State)
    ensures Measure(limit, s) <= |s.msgs| * (STEPS_PER_RECEIVE * limit + 2) + |s.workers| * 5
  {
    SumBound(MessageWeights(limit, s.msgs), STEPS_PER_RECEIVE * limit + 2);
    SumBound(WorkerWeights(s.workers), 5);
  }

  /** An explicit bound on every run without new sends, from any state, reachable or not. */
  lemma RunLength(limit: nat, s: State, trace: seq<Label>)
    requires IsRun(limit, s, trace) && NoSends(trace)
    ensures |trace| <= |s.msgs| * (STEPS_PER_RECEIVE * limit + 2) + |s.workers| * 5
  {
    RunsAreFinite(limit, s, trace);
    MeasureBound(limit, s);
  }

  /** How often the run receives message m. */
  function ReceivesOf(limit: nat, s: State, trace: seq<Label>, m: nat): nat {
    if trace == [] then 0
    else
      var init, l := trace[..|trace| - 1], trace[|trace| - 1];
      ReceivesOf(limit, s, init, m) + if l.Receive? && l.m == m && Enabled(limit, Exec(limit, s, init), l) then 1 else 0
  }

  function TotalReceives(limit: nat, s: State, trace: seq<Label>): nat {
    if trace == [] then 0
    else
      var init, l := trace[..|trace| - 1], trace[|trace| - 1];
      TotalReceives(limit, s, init) + if l.Receive? && Enabled(limit, Exec(limit, s, init), l) then 1 else 0
  }

  function Counts(msgs: seq<Message>): seq<nat> {
    seq(|msgs|, i requires 0 <= i < |msgs| => msgs[i].receives)
  }

  /** The receive count of a message is the number of times it was received, never more than the limit. */
  lemma {:induction false} ReceivesAreCounted(limit: nat, n: nat, trace: seq<Label>, m: nat)
    ensures
      var s := Exec(limit, Initial(n), trace);
      ReceivesOf(limit, Initial(n), trace, m) == (if m < |s.msgs| then s.msgs[m].receives else 0) <= limit
    decreases |trace|
  {
    if trace != [] {
      ReceivesAreCounted(limit, n, trace[..|trace| - 1], m);
    }
    SafeAlways(limit, n, trace);
    var s := Exec(limit, Initial(n), trace);
    if m < |s.msgs| {
      assert MessageFacts(limit, s.db, s.msgs[m]);
    }
  }

  lemma CountsStep(limit: nat, s: State, l: Label)
    ensures Sum(Counts(Step(limit, s, l).msgs)) ==
            Sum(Counts(s.msgs)) + if l.Receive? && Enabled(limit, s, l) then 1 else 0
  {
    var s' := Step(limit, s, l);
    if l.Receive? && Enabled(limit, s, l) {
      assert Counts(s'.msgs) == Counts(s.msgs)[l.m := s.msgs[l.m].receives + 1];
      SumUpdate(Counts(s.msgs), l.m, s.msgs[l.m].receives + 1);
    } else if l.Send? {
      assert Counts(s'.msgs)[..|s.msgs|] == Counts(s.msgs);
    } else {
      assert Counts(s'.msgs) == Counts(s.msgs);
    }
  }

  lemma {:induction false} TotalIsSum(limit: nat, n: nat, trace: seq<Label>)
    ensures TotalReceives(limit, Initial(n), trace) == Sum(Counts(Exec(limit, Initial(n), trace).msgs))
    decreases |trace|
  {
    if trace != [] {
      TotalIsSum(limit, n, trace[..|trace| - 1]);
      CountsStep(limit, Exec(limit, Initial(n), trace[..|trace| - 1]), trace[|trace| - 1]);
    }
  }

  /** All workers together receive at most maxReceiveCount times the number of messages sent. */
  lemma TotalReceivesBounded(limit: nat, n: nat, trace: seq<Label>)
    ensures TotalReceives(limit, Initial(n), trace) <= |Exec(limit, Initial(n), trace).msgs| * limit
  {
    TotalIsSum(limit, n, trace);
    SafeAlways(limit, n, trace);
    var s := Exec(limit, Initial(n), trace);
    forall i | 0 <= i < |s.msgs| ensures Counts(s.msgs)[i] <= limit {
      assert MessageFacts(limit, s.db, s.msgs[i]);
    }
    SumBound(Counts(s.msgs), limit);
  }

  // ---------- Quiescence ----------

  /** Nothing can happen any more but another send. */
  ghost predicate Quiescent(limit: nat, s: State) {
    forall l: Label :: Enabled(limit, s, l) ==> l.Send?
  }

  lemma QuiescentIsSettled(limit: nat, s: State, m: nat)
    requires Quiescent(limit, s) && |s.workers| > 0 && m < |s.msgs|
    ensures s.msgs[m].place.Deleted? || s.msgs[m].place.DeadLettered?
  {
    assert !Enabled(limit, s, Stop(0));
    assert !Enabled(limit, s, Receive(0, m));
    assert !Enabled(limit, s, Redrive(m));
    assert !Enabled(limit, s, Expire(m));
  }

  /** The body does not parse, or no message that carries its event ID has values the columns accept. */
  ghost predicate Poison(msgs: seq<Message>, body: Body) {
    body.Order? ==>
      forall i :: 0 <= i < |msgs| && msgs[i].body.Order? && msgs[i].body.event.eventId == body.event.eventId ==>
        !Storable(msgs[i].body.event)
  }

  /** Every claim was made for a storable event of some message. */
  ghost predicate ClaimsAreStorable(s: State) {
    forall id :: id in s.db.events ==> exists i :: 0 <= i < |s.msgs| && Carries(s.msgs[i].body, id)
  }

  predicate Carries(body: Body, id: EventId) {
    body.Order? && body.event.eventId == id && Storable(body.event)
  }

  lemma ClaimsStep(limit: nat, s: State, l: Label)
    requires ClaimsAreStorable(s)
    ensures ClaimsAreStorable(Step(limit, s, l))
  {
    var s' := Step(limit, s, l);
    forall id | id in s'.db.events ensures exists i :: 0 <= i < |s'.msgs| && Carries(s'.msgs[i].body, id) {
      if id in s.db.events {
        var i :| 0 <= i < |s.msgs| && Carries(s.msgs[i].body, id);
        PreservesStep(limit, s, l, i);
        assert Carries(s'.msgs[i].body, id);
      } else {
        assert l.Claim?;
        assert Carries(s'.msgs[s.workers[l.w].msg].body, id);
      }
    }
  }

  lemma {:induction false} ClaimsAlwaysStorable(limit: nat, n: nat, trace: seq<Label>)
    ensures ClaimsAreStorable(Exec(limit, Initial(n), trace))
    decreases |trace|
  {
    if trace != [] {
      ClaimsAlwaysStorable(limit, n, trace[..|trace| - 1]);
      ClaimsStep(limit, Exec(limit, Initial(n), trace[..|trace| - 1]), trace[|trace| - 1]);
    }
  }

  // ---------- What can always be done ----------

  lemma RunSnoc(limit: nat, s: State, trace: seq<Label>, x: State, l: Label) returns (trace': seq<Label>, y: State)
    requires IsRun(limit, s, trace) && Exec(limit, s, trace) == x && Enabled(limit, x, l)
    ensures y == Step(limit, x, l) && trace' == trace + [l]
    ensures IsRun(limit, s, trace') && Exec(limit, s, trace') == y
  {
    trace', y := trace + [l], Step(limit, x, l);
    assert trace'[..|trace|] == trace;
  }

  /** The tables accept the event: it is claimed already, or its store is not refused. */
  predicate Acceptable(t: Tables, body: Body) {
    body.Order? && (body.event.eventId in t.events || !Refuses(t, body.event))
  }

  /** A visible, acceptable message below the limit can be deleted by any idle worker, its event completed. */
  lemma CanBeDeleted(limit: nat, s: State, w: nat, m: nat) returns (trace: seq<Label>)
    requires w < |s.workers| && s.workers[w].Idle?
    requires m < |s.msgs| && s.msgs[m].place.Visible? && s.msgs[m].receives < limit && Acceptable(s.db, s.msgs[m].body)
    ensures IsRun(limit, s, trace)
    ensures
      var t := Exec(limit, s, trace);
      m < |t.msgs| && t.msgs[m].place.Deleted? && IsCompleted(t.db, s.msgs[m].body.event.eventId)
  {
    hide IsRun, Exec;
    var x;
    trace, x := ReachClaimed(limit, s, w, m);
    var id := s.msgs[m].body.event.eventId;
    if x.workers[w].stage == ReadingStatus {
      trace, x := RunSnoc(limit, s, trace, x, ReadStatus(w, Calm));
    }
    if x.workers[w].stage == Marking {
      trace, x := RunSnoc(limit, s, trace, x, Mark(w, Calm));
    }
    trace, x := RunSnoc(limit, s, trace, x, Delete(w, Calm, false));
  }

  lemma ReachClaimed(limit: nat, s: State, w: nat, m: nat) returns (trace: seq<Label>, x: State)
    requires w < |s.workers| && s.workers[w].Idle?
    requires m < |s.msgs| && s.msgs[m].place.Visible? && s.msgs[m].receives < limit && Acceptable(s.db, s.msgs[m].body)
    ensures IsRun(limit, s, trace) && Exec(limit, s, trace) == x
    ensures w < |x.workers| && m < |x.msgs| && x.msgs[m].body == s.msgs[m].body && x.msgs[m].place.InFlight?
    ensures s.msgs[m].body.event.eventId in x.db.events
    ensures x.workers[w] == Holding(m, x.msgs[m].receives, Marking) || x.workers[w] == Holding(m, x.msgs[m].receives, ReadingStatus)
  {
    assert IsRun(limit, s, []) && Exec(limit, s, []) == s;
    hide IsRun, Exec;
    trace, x := RunSnoc(limit, s, [], s, Receive(w, m));
    trace, x := RunSnoc(limit, s, trace, x, Parse(w));
    trace, x := RunSnoc(limit, s, trace, x, Claim(w, Calm));
  }

  /** From every state some run without new sends comes to rest. */
  lemma {:induction false} CanQuiesce(limit: nat, s: State) returns (trace: seq<Label>)
    ensures IsRun(limit, s, trace) && NoSends(trace) && Quiescent(limit, Exec(limit, s, trace))
    decreases Measure(limit, s)
  {
    if Quiescent(limit, s) {
      trace := [];
    } else {
      var l: Label :| Enabled(limit, s, l) && !l.Send?;
      MeasureDecreases(limit, s, l);
      var rest := CanQuiesce(limit, Step(limit, s, l));
      trace := [l] + rest;
      RunCons(limit, s, l, rest);
    }
  }

  lemma {:induction false} RunCons(limit: nat, s: State, l: Label, rest: seq<Label>)
    requires Enabled(limit, s, l) && IsRun(limit, Step(limit, s, l), rest)
    ensures IsRun(limit, s, [l] + rest) && Exec(limit, s, [l] + rest) == Exec(limit, Step(limit, s, l), rest)
    decreases |rest|
  {
    if rest == [] {
      var t, y := RunSnoc(limit, s, [], s, l);
      assert t == [l] + rest;
    } else {
      var init := rest[..|rest| - 1];
      assert ([l] + rest)[..|rest|] == [l] + init;
      RunCons(limit, s, l, init);
    }
  }

  // ---------- Conservation ----------

  /** The bodies sent so far, in order. */
  function Sent(trace: seq<Label>): seq<Body> {
    if trace == [] then []
    else Sent(trace[..|trace| - 1]) + if trace[|trace| - 1].Send? then [trace[|trace| - 1].body] else []
  }

  function Bodies(msgs: seq<Message>): seq<Body> {
    seq(|msgs|, i requires 0 <= i < |msgs| => msgs[i].body)
  }

  /** The queue system holds exactly the messages sent, each in one of its four places; a new one is visible. */
  lemma {:induction false} MessagesAreThoseSent(limit: nat, n: nat, trace: seq<Label>)
    ensures Bodies(Exec(limit, Initial(n), trace).msgs) == Sent(trace)
    ensures trace != [] && trace[|trace| - 1].Send? ==>
              var msgs := Exec(limit, Initial(n), trace).msgs;
              msgs != [] && msgs[|msgs| - 1].place.Visible? && msgs[|msgs| - 1].receives == 0
    decreases |trace|
  {
    if trace != [] {
      var init, l := trace[..|trace| - 1], trace[|trace| - 1];
      MessagesAreThoseSent(limit, n, init);
      var s, s' := Exec(limit, Initial(n), init), Exec(limit, Initial(n), trace);
      if l.Send? {
        assert s'.msgs[..|s.msgs|] == s.msgs;
        assert Bodies(s'.msgs) == Bodies(s.msgs) + [l.body];
      } else {
        assert |s'.msgs| == |s.msgs|;
        forall m: nat ensures Preserves(s, s', m) {
          PreservesStep(limit, s, l, m);
        }
        assert forall m :: 0 <= m < |s.msgs| ==> Preserves(s, s', m);
        assert Bodies(s'.msgs) == Bodies(s.msgs);
      }
    }
  }

  // ---------- Messages that can never be stored ----------

  /** If the step is part of a store call for message m, the call raises: it ends, or goes on to read the status. */
  predicate StoreFailsAt(limit: nat, s: State, l: Label, m: nat) {
    (l.Claim? || l.ReadStatus?) && Enabled(limit, s, l) && s.workers[l.w].msg == m ==>
      var worker := Step(limit, s, l).workers[l.w];
      worker.Idle? || worker.stage == ReadingStatus
  }

  /** Whatever the reason, every store call for message m raises. */
  ghost predicate StoreAlwaysFails(limit: nat, s: State, trace: seq<Label>, m: nat) {
    trace == [] ||
    (StoreAlwaysFails(limit, s, trace[..|trace| - 1], m)
     && StoreFailsAt(limit, Exec(limit, s, trace[..|trace| - 1]), trace[|trace| - 1], m))
  }

  /** Nobody has come past the store call for message m. */
  ghost predicate NotStored(s: State, m: nat) {
    && (m < |s.msgs| ==> !s.msgs[m].place.Deleted?)
    && forall w :: 0 <= w < |s.workers| && s.workers[w].Holding? && s.workers[w].msg == m ==>
         s.workers[w].stage != Marking && s.workers[w].stage != Deleting
  }

  lemma NotStoredStep(limit: nat, s: State, l: Label, m: nat)
    requires NotStored(s, m) && StoreFailsAt(limit, s, l, m)
    ensures NotStored(Step(limit, s, l), m)
  {
  }

  /** A message whose store call always raises is never deleted. */
  lemma {:induction false} AlwaysFailingIsNeverDeleted(limit: nat, n: nat, trace: seq<Label>, m: nat)
    requires StoreAlwaysFails(limit, Initial(n), trace, m)
    ensures NotStored(Exec(limit, Initial(n), trace), m)
    decreases |trace|
  {
    if trace != [] {
      var init := trace[..|trace| - 1];
      AlwaysFailingIsNeverDeleted(limit, n, init, m);
      NotStoredStep(limit, Exec(limit, Initial(n), init), trace[|trace| - 1], m);
    }
  }

  /** Values that the columns refuse make every store call raise. */
  lemma {:induction false} PoisonAlwaysFails(limit: nat, n: nat, trace: seq<Label>, more: seq<Label>, m: nat)
    requires
      var t := Exec(limit, Initial(n), trace + more);
      m < |t.msgs| && Poison(t.msgs, t.msgs[m].body)
    ensures StoreAlwaysFails(limit, Initial(n), trace, m)
    decreases |trace|
  {
    if trace != [] {
      var init, l := trace[..|trace| - 1], trace[|trace| - 1];
      assert init + ([l] + more) == trace + more;
      PoisonAlwaysFails(limit, n, init, [l] + more, m);
      PoisonFailsAt(limit, n, init, [l] + more, m, l);
    }
  }

  lemma PoisonFailsAt(limit: nat, n: nat, trace: seq<Label>, more: seq<Label>, m: nat, l: Label)
    requires
      var t := Exec(limit, Initial(n), trace + more);
      m < |t.msgs| && Poison(t.msgs, t.msgs[m].body)
    ensures StoreFailsAt(limit, Exec(limit, Initial(n), trace), l, m)
  {
    var s, t := Exec(limit, Initial(n), trace), Exec(limit, Initial(n), trace + more);
    ExecConcat(limit, Initial(n), trace, more);
    if (l.Claim? || l.ReadStatus?) && Enabled(limit, s, l) && s.workers[l.w].msg == m {
      RunsOnlyClimb(limit, s, more, 0, m);
      var e := s.msgs[m].body.event;
      ClaimsAlwaysStorable(limit, n, trace);
      if e.eventId in s.db.events {
        var i :| 0 <= i < |s.msgs| && Carries(s.msgs[i].body, e.eventId);
        RunsOnlyClimb(limit, s, more, 0, i);
        assert false;
      }
      assert t.msgs[m].body == s.msgs[m].body;
    }
  }

  /** So a message that never parses, or whose event the tables refuse by its values, is never deleted. */
  lemma PoisonIsNeverDeleted(limit: nat, n: nat, trace: seq<Label>, m: nat)
    requires
      var s := Exec(limit, Initial(n), trace);
      m < |s.msgs| && Poison(s.msgs, s.msgs[m].body)
    ensures !Exec(limit, Initial(n), trace).msgs[m].place.Deleted?
  {
    assert trace + [] == trace;
    PoisonAlwaysFails(limit, n, trace, [], m);
    AlwaysFailingIsNeverDeleted(limit, n, trace, m);
  }

  /**
   At quiescence every message is deleted, with its event completed, or in the DLQ after exactly maxReceiveCount
   receives. A message whose store call always raises, for whatever reason, is always the latter.
   */
  lemma QuiescentOutcome(limit: nat, n: nat, trace: seq<Label>, m: nat)
    requires
      var s := Exec(limit, Initial(n), trace);
      Quiescent(limit, s) && n > 0 && m < |s.msgs|
    ensures
      var s := Exec(limit, Initial(n), trace);
      || (s.msgs[m].place.Deleted? && s.msgs[m].body.Order? && IsCompleted(s.db, s.msgs[m].body.event.eventId))
      || (s.msgs[m].place.DeadLettered? && ReceivesOf(limit, Initial(n), trace, m) == limit)
    ensures StoreAlwaysFails(limit, Initial(n), trace, m) ==>
              && Exec(limit, Initial(n), trace).msgs[m].place.DeadLettered?
              && ReceivesOf(limit, Initial(n), trace, m) == limit
  {
    WorkersStay(limit, n, trace);
    SafeAlways(limit, n, trace);
    var s := Exec(limit, Initial(n), trace);
    assert MessageFacts(limit, s.db, s.msgs[m]);
    QuiescentIsSettled(limit, s, m);
    ReceivesAreCounted(limit, n, trace, m);
    if StoreAlwaysFails(limit, Initial(n), trace, m) {
      AlwaysFailingIsNeverDeleted(limit, n, trace, m);
    }
  }

  /** In particular a poison message. */
  lemma QuiescentPoison(limit: nat, n: nat, trace: seq<Label>, m: nat)
    requires
      var s := Exec(limit, Initial(n), trace);
      Quiescent(limit, s) && n > 0 && m < |s.msgs| && Poison(s.msgs, s.msgs[m].body)
    ensures Exec(limit, Initial(n), trace).msgs[m].place.DeadLettered?
    ensures ReceivesOf(limit, Initial(n), trace, m) == limit
  {
    assert trace + [] == trace;
    PoisonAlwaysFails(limit, n, trace, [], m);
    QuiescentOutcome(limit, n, trace, m);
  }

  lemma {:induction false} WorkersStay(limit: nat, n: nat, trace: seq<Label>)
    ensures |Exec(limit, Initial(n), trace).workers| == n
    decreases |trace|
  {
    if trace != [] {
      WorkersStay(limit, n, trace[..|trace| - 1]);
    }
  }
}
