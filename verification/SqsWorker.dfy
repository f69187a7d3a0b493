/**
 The continuous SQS worker, which reads the pause flag and then runs one process_one, interleaved with the dashboard's
 writes and with all that happens to the queue. It is the only worker of its broker.
 */
module SqsWorker {
  import opened OrderEvents
  import opened OrderTables
  import opened SqsProtocol
  import opened SqsTheorems

  /** Between flag reads; the flag was read as not paused; a process_one holds a message. */
  datatype Gate = Reading | Cleared | Working

  datatype Lab = Lab(paused: bool, gate: Gate, s: State)

  datatype LabStep = Dashboard(pause: bool) | ReadFlag | NoMessage | Act(l: Label)

  /** Steps of the queue and its senders, which no worker makes. */
  predicate IsElsewhere(l: Label) {
    l.Send? || l.Redrive? || l.Expire?
  }

  predicate Possible(limit: nat, x: Lab, step: LabStep) {
    match step
    case Dashboard(_) => true
    case ReadFlag => x.gate.Reading?
    case NoMessage => x.gate.Cleared?
    case Act(l) =>
      && Enabled(limit, x.s, l)
      && (IsElsewhere(l) || if l.Receive? then x.gate.Cleared? else x.gate.Working?)
  }

  function Next(limit: nat, x: Lab, step: LabStep): Lab {
    if !Possible(limit, x, step) then x
    else
      match step
      case Dashboard(pause) => x.(paused := pause)
      case ReadFlag => if x.paused then x else x.(gate := Cleared)
      case NoMessage => x.(gate := Reading)
      case Act(l) =>
        var s' := Step(limit, x.s, l);
        if IsElsewhere(l) then x.(s := s')
        else Lab(x.paused, if |s'.workers| == 1 && s'.workers[0].Holding? then Working else Reading, s')
  }

  function Play(limit: nat, x: Lab, steps: seq<LabStep>): Lab {
    if steps == [] then x else Next(limit, Play(limit, x, steps[..|steps| - 1]), steps[|steps| - 1])
  }

  predicate Consistent(x: Lab) {
    && |x.s.workers| == 1
    && (x.gate.Working? <==> x.s.workers[0].Holding?)
    && (x.s.workers[0].Holding? ==> x.s.workers[0].msg < |x.s.msgs|)
  }

  predicate IsEventOf(s: State, m: nat, id: EventId) {
    m < |s.msgs| && s.msgs[m].body.Order? && s.msgs[m].body.event.eventId == id
  }

  /** No row changed, except perhaps those of the event of message m; no other message was deleted. */
  ghost predicate OnlyTouched(x: State, y: State, m: nat) {
    && (forall id :: !IsEventOf(y, m, id) ==> RowsFor(y.db, id) == RowsFor(x.db, id))
    && |x.msgs| <= |y.msgs|
    && (forall i :: 0 <= i < |y.msgs| && i != m && y.msgs[i].place.Deleted? ==> i < |x.msgs| && x.msgs[i].place.Deleted?)
  }

  /** Not a row changed and no message was deleted. */
  ghost predicate Untouched(x: State, y: State) {
    && y.db == x.db
    && |x.msgs| <= |y.msgs|
    && (forall i :: 0 <= i < |y.msgs| && y.msgs[i].place.Deleted? ==> i < |x.msgs| && x.msgs[i].place.Deleted?)
  }

  lemma UntouchedStep(limit: nat, x: State, y: State, l: Label)
    requires Untouched(x, y) && (IsElsewhere(l) || l.Receive?)
    ensures Untouched(x, Step(limit, y, l))
  {
  }

  lemma TouchStep(limit: nat, x: State, y: State, l: Label, m: nat)
    requires OnlyTouched(x, y, m) && |y.workers| == 1 && Enabled(limit, y, l) && !l.Receive?
    requires IsElsewhere(l) || (y.workers[0].Holding? && y.workers[0].msg == m < |y.msgs|)
    requires m < |y.msgs|
    ensures OnlyTouched(x, Step(limit, y, l), m)
  {
    var y', tx := Step(limit, y, l), TxOf(limit, y, l);
    StepCommits(limit, y, l);
    PreservesStep(limit, y, l, m);
    forall id | !IsEventOf(y', m, id) ensures RowsFor(y'.db, id) == RowsFor(x.db, id) {
      assert !IsEventOf(y, m, id);
      assert !Concerns(tx, id);
      BystandersUntouched(y.db, [tx], id);
      assert [tx][..0] == [];
      assert ApplyAll(y.db, [tx]) == Apply(ApplyAll(y.db, []), tx);
    }
    QueueTouch(limit, x, y, l, m);
  }

  lemma QueueTouch(limit: nat, x: State, y: State, l: Label, m: nat)
    requires OnlyTouched(x, y, m) && |y.workers| == 1 && Enabled(limit, y, l) && !l.Receive?
    requires IsElsewhere(l) || (y.workers[0].Holding? && y.workers[0].msg == m)
    ensures
      var y' := Step(limit, y, l);
      && |x.msgs| <= |y'.msgs|
      && (forall i :: 0 <= i < |y'.msgs| && i != m && y'.msgs[i].place.Deleted? ==>
            i < |x.msgs| && x.msgs[i].place.Deleted?)
  {
  }

  function Receives(limit: nat, x: Lab, steps: seq<LabStep>): nat {
    if steps == [] then 0
    else
      var init, step := steps[..|steps| - 1], steps[|steps| - 1];
      Receives(limit, x, init) + if step.Act? && step.l.Receive? && Possible(limit, Play(limit, x, init), step) then 1 else 0
  }

  /** What a paused worker has done: nothing yet, or its one call, which holds or held message m. */
  ghost predicate Paused(limit: nat, x: Lab, steps: seq<LabStep>, m: nat) {
    var y, n := Play(limit, x, steps), Receives(limit, x, steps);
    && Consistent(y) && y.paused
    && n <= (if x.gate.Cleared? then 1 else 0)
    && (n == 0 && !x.gate.Working? ==> Untouched(x.s, y.s) && !y.gate.Working?)
    && (y.gate.Cleared? ==> x.gate.Cleared? && n == 0)
    && (n == 1 || x.gate.Working? ==> m < |y.s.msgs| && OnlyTouched(x.s, y.s, m))
    && (y.s.workers[0].Holding? ==> y.s.workers[0].msg == m)
  }

  lemma PausedStep(limit: nat, x: Lab, steps: seq<LabStep>, m: nat, step: LabStep) returns (m': nat)
    requires Paused(limit, x, steps, m) && step != Dashboard(false)
    ensures Paused(limit, x, steps + [step], m')
    ensures x.gate.Working? ==> m' == m
  {
    var y := Play(limit, x, steps);
    assert (steps + [step])[..|steps|] == steps;
    m' := m;
    if step.Act? && Possible(limit, y, step) {
      if step.l.Receive? {
        m' := step.l.m;
        UntouchedStep(limit, x.s, y.s, step.l);
      } else {
        if Receives(limit, x, steps) == 0 && !x.gate.Working? {
          UntouchedStep(limit, x.s, y.s, step.l);
        } else {
          TouchStep(limit, x.s, y.s, step.l, m);
        }
      }
    }
  }

  lemma {:induction false} PausedAlways(limit: nat, x: Lab, steps: seq<LabStep>) returns (m: nat)
    requires Consistent(x) && x.paused && Dashboard(false) !in steps
    ensures Paused(limit, x, steps, m)
    ensures x.gate.Working? ==> m == x.s.workers[0].msg
    decreases |steps|
  {
    if steps == [] {
      m := if x.gate.Working? then x.s.workers[0].msg else 0;
    } else {
      var init, step := steps[..|steps| - 1], steps[|steps| - 1];
      assert step in steps && forall i :: i in init ==> i in steps;
      m := PausedAlways(limit, x, init);
      m := PausedStep(limit, x, init, m, step);
      assert init + [step] == steps;
    }
  }

  /**
   After a committed pause and until the next resume, at most one message is received, only if its flag read came before
   the pause; no other message's event gains effects and no other message is deleted.
   */
  lemma PauseSafety(limit: nat, x: Lab, steps: seq<LabStep>)
    requires Consistent(x) && x.paused && Dashboard(false) !in steps
    ensures Receives(limit, x, steps) <= if x.gate.Cleared? then 1 else 0
    ensures Receives(limit, x, steps) == 0 && !x.gate.Working? ==> Untouched(x.s, Play(limit, x, steps).s)
    ensures exists m: nat :: OnlyTouched(x.s, Play(limit, x, steps).s, m)
                             && (x.gate.Working? ==> m == x.s.workers[0].msg)
  {
    var m := PausedAlways(limit, x, steps);
    assert OnlyTouched(x.s, Play(limit, x, steps).s, m);
  }

  // ---------- The worker and the protocol ----------

  /** The protocol's own steps in a worker's run. */
  function Labels(limit: nat, x: Lab, steps: seq<LabStep>): seq<Label> {
    if steps == [] then []
    else
      var init, step := steps[..|steps| - 1], steps[|steps| - 1];
      Labels(limit, x, init) + if step.Act? && Possible(limit, Play(limit, x, init), step) then [step.l] else []
  }

  /** Whatever the worker, the queue and the dashboard do is a run of the protocol. */
  lemma {:induction false} WorkerRunsTheProtocol(limit: nat, x: Lab, steps: seq<LabStep>)
    ensures Play(limit, x, steps).s == Exec(limit, x.s, Labels(limit, x, steps))
    ensures IsRun(limit, x.s, Labels(limit, x, steps))
    decreases |steps|
  {
    if steps != [] {
      var init, step := steps[..|steps| - 1], steps[|steps| - 1];
      WorkerRunsTheProtocol(limit, x, init);
      if step.Act? && Possible(limit, Play(limit, x, init), step) {
        var trace, _ := RunSnoc(limit, x.s, Labels(limit, x, init), Play(limit, x, init).s, step.l);
      } else {
        assert Labels(limit, x, steps) == Labels(limit, x, init);
      }
    }
  }

  /** Ready for the next protocol step of an unpaused worker. */
  predicate Unpaused(x: Lab) {
    Consistent(x) && !x.gate.Cleared? && !x.paused
  }

  lemma StepIsPlayed(limit: nat, x: Lab, steps: seq<LabStep>, step: LabStep)
    ensures Play(limit, x, steps + [step]) == Next(limit, Play(limit, x, steps), step)
    ensures Labels(limit, x, steps + [step]) ==
            Labels(limit, x, steps) + if step.Act? && Possible(limit, Play(limit, x, steps), step) then [step.l] else []
  {
    assert (steps + [step])[..|steps|] == steps;
  }

  /** The steps that take one enabled label: a receive needs a flag read first. */
  function StepsFor(l: Label): seq<LabStep> {
    if l.Receive? then [ReadFlag, Act(l)] else [Act(l)]
  }

  lemma NextLabel(limit: nat, y: Lab, l: Label)
    requires Unpaused(y) && Enabled(limit, y.s, l)
    ensures
      var z := if l.Receive? then Next(limit, y, ReadFlag) else y;
      && z.s == y.s
      && Possible(limit, z, Act(l))
      && Unpaused(Next(limit, z, Act(l)))
      && Next(limit, z, Act(l)).s == Step(limit, y.s, l)
  {
  }

  lemma PlayLabel(limit: nat, x: Lab, steps: seq<LabStep>, y: Lab, l: Label)
    requires Play(limit, x, steps) == y && Unpaused(y) && Enabled(limit, y.s, l)
    ensures Unpaused(Play(limit, x, steps + StepsFor(l)))
    ensures Play(limit, x, steps + StepsFor(l)).s == Step(limit, y.s, l)
    ensures Labels(limit, x, steps + StepsFor(l)) == Labels(limit, x, steps) + [l]
  {
    NextLabel(limit, y, l);
    hide Play, Labels, Next, Possible, Unpaused, Enabled, Step;
    var before := steps;
    if l.Receive? {
      StepIsPlayed(limit, x, steps, ReadFlag);
      before := steps + [ReadFlag];
      assert Labels(limit, x, before) == Labels(limit, x, steps);
    }
    StepIsPlayed(limit, x, before, Act(l));
    assert before + [Act(l)] == steps + StepsFor(l);
  }

  /** Conversely an unpaused worker can take any run of the protocol. */
  lemma {:induction false} ProtocolRunIsPlayed(limit: nat, x: Lab, trace: seq<Label>) returns (steps: seq<LabStep>)
    requires Unpaused(x) && IsRun(limit, x.s, trace)
    ensures Play(limit, x, steps).s == Exec(limit, x.s, trace) && Labels(limit, x, steps) == trace
    ensures Unpaused(Play(limit, x, steps))
    decreases |trace|
  {
    if trace == [] {
      steps := [];
    } else {
      var init, l := trace[..|trace| - 1], trace[|trace| - 1];
      hide Play, Labels, Unpaused, Enabled, Step;
      var before := ProtocolRunIsPlayed(limit, x, init);
      PlayLabel(limit, x, before, Play(limit, x, before), l);
      steps := before + StepsFor(l);
    }
  }

  /** Between two calls an unpaused worker can delete any visible, acceptable message below the limit. */
  lemma WorkerCanDelete(limit: nat, x: Lab, m: nat) returns (steps: seq<LabStep>)
    requires Unpaused(x) && x.gate.Reading?
    requires m < |x.s.msgs| && x.s.msgs[m].place.Visible? && x.s.msgs[m].receives < limit
    requires Acceptable(x.s.db, x.s.msgs[m].body)
    ensures
      var y := Play(limit, x, steps).s;
      m < |y.msgs| && y.msgs[m].place.Deleted? && IsCompleted(y.db, x.s.msgs[m].body.event.eventId)
  {
    var trace := CanBeDeleted(limit, x.s, 0, m);
    steps := ProtocolRunIsPlayed(limit, x, trace);
  }
}
