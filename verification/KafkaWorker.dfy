/**
 The continuous worker loop, which reads the pause flag, runs one process_one and polls on with the same consumer even
 after an error, interleaved with the dashboard's writes to the flag.
 */
module KafkaWorker {
  import opened OrderEvents
  import opened OrderTables
  import opened KafkaProtocol
  import opened KafkaInvariants
  import opened KafkaHistory
  import opened KafkaTheorems
  import opened KafkaCall
  import opened KafkaOrderConsumer
  import opened ConsumerControls

  /** Between flag reads; the flag was read as not paused; a process_one is running or has just raised. */
  datatype Gate = Reading | Cleared | Working

  datatype Lab = Lab(paused: bool, gate: Gate, s: State)

  datatype LabStep = Dashboard(pause: bool) | ReadFlag | NoRecord | Act(l: Label)

  predicate Possible(c: Config, x: Lab, step: LabStep) {
    match step
    case Dashboard(_) => true
    case ReadFlag => x.gate.Reading? && x.s.lane.pc == Ready
    case NoRecord => x.gate.Cleared?
    case Act(l) =>
      && Enabled(c, x.s, l)
      && match l
         case Poll => x.gate.Cleared?
         case PollError => x.gate.Cleared?
         case KeepPolling => x.gate.Working?
         case Start => x.gate.Reading?
         case Crash => true
         case _ => x.gate.Working?
  }

  function Next(c: Config, x: Lab, step: LabStep): Lab {
    if !Possible(c, x, step) then x
    else
      match step
      case Dashboard(pause) => x.(paused := pause)
      case ReadFlag => if x.paused then x else x.(gate := Cleared)
      case NoRecord => x.(gate := Reading)
      case Act(l) =>
        var s' := Step(c, x.s, l);
        Lab(x.paused, if s'.lane.pc.Busy? || s'.lane.pc.Raised? then Working else Reading, s')
  }

  function Play(c: Config, x: Lab, steps: seq<LabStep>): Lab {
    if steps == [] then x else Next(c, Play(c, x, steps[..|steps| - 1]), steps[|steps| - 1])
  }

  predicate Consistent(x: Lab) {
    match x.gate
    case Reading => x.s.lane.pc.Ready? || x.s.lane.pc.Down?
    case Cleared => x.s.lane.pc.Ready?
    case Working => x.s.lane.pc.Busy? || x.s.lane.pc.Raised?
  }

  /** Only the record at offset k has been touched since x. */
  ghost predicate OnlyTouched(c: Config, x: State, y: State, k: nat) {
    && (forall id :: EventAt(c, k) == None || EventAt(c, k).value.eventId != id ==> RowsFor(y.db, id) == RowsFor(x.db, id))
    && x.lane.dlq <= y.lane.dlq
    && (forall i :: |x.lane.dlq| <= i < |y.lane.dlq| ==> y.lane.dlq[i].offset == k)
    && (y.lane.committed == x.lane.committed || y.lane.committed == k + 1)
    && (y.lane.pc.Busy? ==> y.lane.pc.call.offset == k)
  }

  lemma TouchStep(c: Config, x: State, y: State, l: Label, k: nat)
    requires OnlyTouched(c, x, y, k) && Enabled(c, y, l)
    requires l == Poll ==> y.lane.position == k
    ensures OnlyTouched(c, x, Step(c, y, l), k)
  {
    StepCommits(c, y, l);
    var tx := TxOf(c, y, l);
    forall id | EventAt(c, k) == None || EventAt(c, k).value.eventId != id
      ensures RowsFor(Step(c, y, l).db, id) == RowsFor(x.db, id)
    {
      assert !Concerns(tx, id);
      BystandersUntouched(y.db, [tx], id);
      assert [tx][..0] == [];
      assert ApplyAll(y.db, [tx]) == Apply(ApplyAll(y.db, []), tx);
    }
    LaneTouch(c, x, y, l, k);
  }

  lemma LaneTouch(c: Config, x: State, y: State, l: Label, k: nat)
    requires OnlyTouched(c, x, y, k) && Enabled(c, y, l)
    requires l == Poll ==> y.lane.position == k
    ensures
      var y' := Step(c, y, l);
      && x.lane.dlq <= y'.lane.dlq
      && (forall i :: |x.lane.dlq| <= i < |y'.lane.dlq| ==> y'.lane.dlq[i].offset == k)
      && (y'.lane.committed == x.lane.committed || y'.lane.committed == k + 1)
      && (y'.lane.pc.Busy? ==> y'.lane.pc.call.offset == k)
  {
  }

  /** The record of the call that was let through before the pause, if one was. */
  function LetThrough(x: Lab): nat {
    if x.s.lane.pc.Busy? then x.s.lane.pc.call.offset else x.s.lane.position
  }

  function Polls(c: Config, x: Lab, steps: seq<LabStep>): nat {
    if steps == [] then 0
    else
      var init, step := steps[..|steps| - 1], steps[|steps| - 1];
      Polls(c, x, init) + if step == Act(Poll) && Possible(c, Play(c, x, init), step) then 1 else 0
  }

  /**
   After a committed pause and until the next resume, at most one record is polled, only if its flag read came before
   the pause; no other record gains effects, is dead-lettered or is committed.
   */
  lemma {:induction false} PauseSafety(c: Config, x: Lab, steps: seq<LabStep>)
    requires Consistent(x) && x.paused && Dashboard(false) !in steps
    ensures Polls(c, x, steps) <= if x.gate.Cleared? then 1 else 0
    ensures OnlyTouched(c, x.s, Play(c, x, steps).s, LetThrough(x))
    ensures x.gate.Reading? ==>
              var y := Play(c, x, steps).s;
              y.db == x.s.db && y.lane.dlq == x.s.lane.dlq && y.lane.committed == x.s.lane.committed
    ensures Consistent(Play(c, x, steps)) && Play(c, x, steps).paused
    ensures Play(c, x, steps).gate.Cleared? ==> x.gate.Cleared? && Play(c, x, steps).s == x.s && Polls(c, x, steps) == 0
    ensures x.gate.Reading? ==> Play(c, x, steps).gate.Reading?
    decreases |steps|
  {
    if steps != [] {
      var init, step := steps[..|steps| - 1], steps[|steps| - 1];
      assert step in steps && forall i :: i in init ==> i in steps;
      PauseSafety(c, x, init);
      var y := Play(c, x, init);
      if step.Act? && Possible(c, y, step) {
        TouchStep(c, x.s, y.s, step.l, LetThrough(x));
      }
    }
  }

  // ---------- The loop ----------

  function Acts(trace: seq<Label>): seq<LabStep> {
    if trace == [] then [] else Acts(trace[..|trace| - 1]) + [Act(trace[|trace| - 1])]
  }

  lemma PlaySnoc(c: Config, x: Lab, steps: seq<LabStep>, step: LabStep)
    ensures Play(c, x, steps + [step]) == Next(c, Play(c, x, steps), step)
  {
    assert (steps + [step])[..|steps|] == steps;
  }

  lemma {:induction false} PlayConcat(c: Config, x: Lab, a: seq<LabStep>, b: seq<LabStep>)
    ensures Play(c, x, a + b) == Play(c, Play(c, x, a), b)
    decreases |b|
  {
    if b == [] {
      assert a + b == a;
    } else {
      var init := b[..|b| - 1];
      assert a + b == (a + init) + [b[|b| - 1]];
      PlaySnoc(c, x, a + init, b[|b| - 1]);
      PlayConcat(c, x, a, init);
    }
  }

  /** The call that a cleared worker makes is a stretch of the worker's run. */
  lemma {:induction false} CallIsPlayed(c: Config, x: Lab, trace: seq<Label>)
    requires x.gate.Cleared? && x.s.lane.pc == Ready
    requires IsCall(c, x.s, trace) || (trace == [PollError] && IsRun(c, x.s, trace))
    ensures
      var s := Exec(c, x.s, trace);
      Play(c, x, Acts(trace)) ==
      Lab(x.paused, if s.lane.pc.Busy? || s.lane.pc.Raised? then Working else Reading, s)
    decreases |trace|
  {
    var init, l := trace[..|trace| - 1], trace[|trace| - 1];
    PlaySnoc(c, x, Acts(init), Act(l));
    if init == [] {
      assert Acts(init) == [];
    } else {
      assert IsCall(c, x.s, init);
      CallIsPlayed(c, x, init);
      assert InCall(l);
      CallKeepsOffset(c, Exec(c, x.s, init), l);
    }
  }

  /** The steps lead from x to y, and no consumer is stopped or created on the way. */
  predicate Played(c: Config, x: Lab, steps: seq<LabStep>, y: Lab) {
    Play(c, x, steps) == y && Act(Start) !in steps && Act(Crash) !in steps
  }

  lemma PlayedNil(c: Config, x: Lab)
    ensures Played(c, x, [], x)
  {
  }

  lemma PlayedSnoc(c: Config, x: Lab, steps: seq<LabStep>, y: Lab, step: LabStep)
    requires Played(c, x, steps, y) && step != Act(Start) && step != Act(Crash)
    ensures Played(c, x, steps + [step], Next(c, y, step))
  {
    PlaySnoc(c, x, steps, step);
  }

  lemma PlayedConcat(c: Config, x: Lab, a: seq<LabStep>, y: Lab, b: seq<LabStep>, z: Lab)
    requires Played(c, x, a, y) && Played(c, y, b, z)
    ensures Played(c, x, a + b, z)
  {
    PlayConcat(c, x, a, b);
  }

  lemma {:induction false} ActsStayUp(trace: seq<Label>)
    requires Start !in trace && Crash !in trace
    ensures Act(Start) !in Acts(trace) && Act(Crash) !in Acts(trace)
    decreases |trace|
  {
    if trace != [] {
      var init := trace[..|trace| - 1];
      assert forall l :: l in init ==> l in trace;
      ActsStayUp(init);
      assert trace[|trace| - 1] in trace;
    }
  }

  lemma CallIsPlayedUp(c: Config, x: Lab, trace: seq<Label>, s: State)
    requires x.gate.Cleared? && x.s.lane.pc == Ready && Exec(c, x.s, trace) == s
    requires IsCall(c, x.s, trace) || (trace == [PollError] && IsRun(c, x.s, trace))
    requires s.lane.pc.Ready? || s.lane.pc.Raised?
    ensures Played(c, x, Acts(trace), Lab(x.paused, if s.lane.pc.Raised? then Working else Reading, s))
  {
    CallIsPlayed(c, x, trace);
    CallStaysUp(c, x.s, trace);
    hide Play, Exec, IsCall, IsRun, Acts;
    ActsStayUp(trace);
  }

  lemma CallStaysUp(c: Config, s: State, trace: seq<Label>)
    requires IsCall(c, s, trace) || trace == [PollError]
    ensures Start !in trace && Crash !in trace
  {
  }

  // ---------- What each round does ----------

  /** The steps of one process_one, and polling on if it raised. */
  ghost predicate CallSteps(c: Config, s: State, polls: seq<PollReply>, oracle: nat -> Fault, steps: seq<LabStep>) {
    exists trace :: Course(c, s, polls, oracle, trace) && steps == TriedSteps(c, s, trace)
  }

  function TriedSteps(c: Config, s: State, trace: seq<Label>): seq<LabStep> {
    (if trace == [] then [NoRecord] else Acts(trace)) + AfterCall(Exec(c, s, trace))
  }

  function AfterCall(s: State): seq<LabStep> {
    if s.lane.pc.Raised? then [Act(KeepPolling)] else []
  }

  /**
   What the world does in one round: the dashboard's writes before the flag read and after it, the polls before the
   deadline, and the oracle. Nothing reads the flag after the flag read, so it does not matter when in the call the
   later writes come: see `WriteDuringCall`.
   */
  datatype Script = Script(before: seq<bool>, during: seq<bool>, polls: seq<PollReply>, oracle: nat -> Fault)

  function DashboardSteps(writes: seq<bool>): seq<LabStep> {
    if writes == [] then [] else DashboardSteps(writes[..|writes| - 1]) + [Dashboard(writes[|writes| - 1])]
  }

  function Written(paused: bool, writes: seq<bool>): bool {
    if writes == [] then paused else writes[|writes| - 1]
  }

  /** One round: the dashboard's writes, the flag read, more writes, and unless the flag said paused one process_one. */
  ghost predicate Round(c: Config, x: Lab, script: Script, steps: seq<LabStep>) {
    var start := DashboardSteps(script.before) + [ReadFlag] + DashboardSteps(script.during);
    if Written(x.paused, script.before) then steps == start
    else exists call :: CallSteps(c, x.s, script.polls, script.oracle, call) && steps == start + call
  }

  /** A write in the middle of a call might as well have come after it. */
  lemma {:induction false} WriteDuringCall(c: Config, x: Lab, a: seq<LabStep>, pause: bool, b: seq<LabStep>)
    requires forall step :: step in b ==> step.Act? || step.NoRecord?
    ensures Play(c, x, a + [Dashboard(pause)] + b) == Play(c, x, a + b + [Dashboard(pause)])
    decreases |b|
  {
    if b == [] {
      assert a + [Dashboard(pause)] + b == a + b + [Dashboard(pause)];
    } else {
      var init, step := b[..|b| - 1], b[|b| - 1];
      assert step in b && forall y :: y in init ==> y in b;
      WriteDuringCall(c, x, a, pause, init);
      assert a + [Dashboard(pause)] + b == (a + [Dashboard(pause)] + init) + [step];
      assert a + b == (a + init) + [step];
      PlaySnoc(c, x, a + [Dashboard(pause)] + init, step);
      PlaySnoc(c, x, a + init, Dashboard(pause));
      PlaySnoc(c, x, a + init, step);
      PlaySnoc(c, x, a + b, Dashboard(pause));
      WriteCommutes(c, Play(c, x, a + init), pause, step);
    }
  }

  lemma WriteCommutes(c: Config, y: Lab, pause: bool, step: LabStep)
    requires step.Act? || step.NoRecord?
    ensures Next(c, Next(c, y, Dashboard(pause)), step) == Next(c, Next(c, y, step), Dashboard(pause))
  {
  }

  /** The steps of a process_one that has ended, up to the polling on. */
  lemma TrySteps(c: Config, x: Lab, polls: seq<PollReply>, oracle: nat -> Fault, trace: seq<Label>, s: State)
    requires x.gate.Cleared? && x.s.lane.pc == Ready
    requires Course(c, x.s, polls, oracle, trace) && Exec(c, x.s, trace) == s
    ensures
      var steps := if trace == [] then [NoRecord] else Acts(trace);
      && Played(c, x, steps, Lab(x.paused, if s.lane.pc.Raised? then Working else Reading, s))
      && CallSteps(c, x.s, polls, oracle, steps + AfterCall(s))
  {
    if trace == [] {
      PlayedNil(c, x);
      PlayedSnoc(c, x, [], x, NoRecord);
      assert [] + [NoRecord] == [NoRecord];
    } else {
      if trace == [PollError] {
        ExecSnoc(c, x.s, [], PollError);
        assert [] + [PollError] == trace;
      }
      CallIsPlayedUp(c, x, trace, s);
    }
  }

  /** The try statement of the loop body: one process_one, and polling on after an error. */
  method TryProcess(consumer: KafkaOrderConsumer, polls: seq<PollReply>, oracle: nat -> Fault, ghost paused: bool)
    returns (ghost steps: seq<LabStep>)
    requires consumer.Valid() && consumer.pc == Ready
    modifies consumer, consumer.store, consumer.client, consumer.broker
    ensures consumer.Valid() && consumer.pc == Ready && old(consumer.position) <= consumer.position
    ensures Played(consumer.c, Lab(paused, Cleared, old(consumer.State())), steps, Lab(paused, Reading, consumer.State()))
    ensures CallSteps(consumer.c, old(consumer.State()), polls, oracle, steps)
  {
    hide Played, CallSteps, Course, Orderly;
    ghost var c := consumer.c;
    ghost var x := Lab(paused, Cleared, consumer.State());
    var outcome, trace := consumer.ProcessOne(polls, oracle);
    TrySteps(c, x, polls, oracle, trace, consumer.State());
    steps := if trace == [] then [NoRecord] else Acts(trace);
    if outcome.Errored? {
      PlayedSnoc(c, x, steps, Lab(paused, Working, consumer.State()), Act(KeepPolling));
      consumer.PollOn();
      steps := steps + [Act(KeepPolling)];
    } else {
      assert steps + [] == steps;
    }
  }

  /** What the Kafka row says. */
  ghost function Says(controls: ConsumerControlStore): bool
    reads controls
  {
    LastWritten(controls.writes, "kafka")
  }

  ghost predicate AtRest(consumer: KafkaOrderConsumer, controls: ConsumerControlStore)
    reads consumer, consumer.store, consumer.client, consumer.broker, controls
  {
    consumer.Valid() && consumer.pc == Ready && controls.Valid() && "kafka" in controls.rows
  }

  method DashboardWrites(controls: ConsumerControlStore, writes: seq<bool>, ghost c: Config, ghost y: Lab)
    requires controls.Valid() && "kafka" in controls.rows && y.paused == Says(controls)
    modifies controls
    ensures controls.Valid() && "kafka" in controls.rows && Says(controls) == Written(old(Says(controls)), writes)
    ensures Played(c, y, DashboardSteps(writes), y.(paused := Says(controls)))
  {
    PlayedNil(c, y);
    for i := 0 to |writes|
      invariant controls.Valid() && "kafka" in controls.rows
      invariant Says(controls) == Written(old(Says(controls)), writes[..i])
      invariant Played(c, y, DashboardSteps(writes[..i]), y.(paused := Says(controls)))
    {
      PlayedSnoc(c, y, DashboardSteps(writes[..i]), y.(paused := Says(controls)), Dashboard(writes[i]));
      LastWrittenSnoc(controls.writes, Write("kafka", writes[i]), "kafka");
      var _ := controls.SetPaused("kafka", writes[i]);
      assert writes[..i + 1][..i] == writes[..i];
    }
    assert writes[..|writes|] == writes;
  }

  /** From a flag read on: the writes during the rest of the round, and a process_one unless the flag said paused. */
  method ReadAndProcess(consumer: KafkaOrderConsumer, controls: ConsumerControlStore, script: Script)
    returns (ghost call: seq<LabStep>)
    requires AtRest(consumer, controls)
    modifies consumer, consumer.store, consumer.client, consumer.broker, controls
    ensures AtRest(consumer, controls) && old(consumer.position) <= consumer.position
    ensures
      && Played(consumer.c, Lab(old(Says(controls)), Reading, old(consumer.State())),
                [ReadFlag] + DashboardSteps(script.during) + call, Lab(Says(controls), Reading, consumer.State()))
      && if old(Says(controls)) then call == []
         else CallSteps(consumer.c, old(consumer.State()), script.polls, script.oracle, call)
  {
    hide Played, CallSteps;
    ghost var c := consumer.c;
    var flag := controls.IsPaused("kafka");
    ghost var y := Lab(flag.paused, Reading, consumer.State());
    ghost var read := if flag.paused then y else y.(gate := Cleared);
    PlayedNil(c, y);
    PlayedSnoc(c, y, [], y, ReadFlag);
    assert [] + [ReadFlag] == [ReadFlag];
    DashboardWrites(controls, script.during, c, read);
    ghost var written := read.(paused := Says(controls));
    PlayedConcat(c, y, [ReadFlag], read, DashboardSteps(script.during), written);
    call := [];
    if !flag.paused {
      call := TryProcess(consumer, script.polls, script.oracle, Says(controls));
      PlayedConcat(c, y, [ReadFlag] + DashboardSteps(script.during), written, call,
                   Lab(Says(controls), Reading, consumer.State()));
    } else {
      assert [ReadFlag] + DashboardSteps(script.during) + [] == [ReadFlag] + DashboardSteps(script.during);
    }
  }

  lemma RoundIsPlayed(c: Config, y: Lab, y': Lab, script: Script, call: seq<LabStep>, z: Lab) returns (steps: seq<LabStep>)
    requires y' == y.(paused := Written(y.paused, script.before))
    requires Played(c, y, DashboardSteps(script.before), y')
    requires Played(c, y', [ReadFlag] + DashboardSteps(script.during) + call, z)
    requires if y'.paused then call == [] else CallSteps(c, y.s, script.polls, script.oracle, call)
    ensures Round(c, y, script, steps) && Played(c, y, steps, z)
  {
    hide Played, CallSteps;
    var rest := [ReadFlag] + DashboardSteps(script.during) + call;
    PlayedConcat(c, y, DashboardSteps(script.before), y', rest, z);
    steps := DashboardSteps(script.before) + [ReadFlag] + DashboardSteps(script.during) + call;
    assert DashboardSteps(script.before) + rest == steps;
  }

  /** One round of the loop. */
  method RunRound(consumer: KafkaOrderConsumer, controls: ConsumerControlStore, script: Script)
    returns (ghost steps: seq<LabStep>)
    requires AtRest(consumer, controls)
    modifies consumer, consumer.store, consumer.client, consumer.broker, controls
    ensures AtRest(consumer, controls) && old(consumer.position) <= consumer.position
    ensures
      var y := Lab(old(Says(controls)), Reading, old(consumer.State()));
      && Round(consumer.c, y, script, steps)
      && Played(consumer.c, y, steps, Lab(Says(controls), Reading, consumer.State()))
  {
    hide Played, Round, CallSteps;
    ghost var c := consumer.c;
    ghost var y := Lab(Says(controls), Reading, consumer.State());
    DashboardWrites(controls, script.before, c, y);
    ghost var y' := Lab(Says(controls), Reading, consumer.State());
    ghost var call := ReadAndProcess(consumer, controls, script);
    steps := RoundIsPlayed(c, y, y', script, call, Lab(Says(controls), Reading, consumer.State()));
  }

  /** The rounds one after the other, each from the state the one before it left. */
  ghost predicate Rounds(c: Config, labs: seq<Lab>, parts: seq<seq<LabStep>>, scripts: nat -> Script) {
    && |labs| == |parts| + 1
    && forall i :: 0 <= i < |parts| ==>
         Round(c, labs[i], scripts(i), parts[i]) && Played(c, labs[i], parts[i], labs[i + 1])
  }

  lemma RoundsSnoc(c: Config, labs: seq<Lab>, parts: seq<seq<LabStep>>, scripts: nat -> Script, part: seq<LabStep>, y: Lab)
    requires Rounds(c, labs, parts, scripts)
    requires Round(c, labs[|parts|], scripts(|parts|), part) && Played(c, labs[|parts|], part, y)
    ensures Rounds(c, labs + [y], parts + [part], scripts)
  {
    hide Round, Played;
  }

  function Joined(parts: seq<seq<LabStep>>): seq<LabStep> {
    if parts == [] then [] else Joined(parts[..|parts| - 1]) + parts[|parts| - 1]
  }

  /** The rounds together are one run of the worker. */
  lemma {:induction false} RoundsArePlayed(c: Config, labs: seq<Lab>, parts: seq<seq<LabStep>>, scripts: nat -> Script)
    requires Rounds(c, labs, parts, scripts)
    ensures Played(c, labs[0], Joined(parts), labs[|parts|])
    decreases |parts|
  {
    hide Played, Round;
    if parts == [] {
      PlayedNil(c, labs[0]);
    } else {
      var n := |parts| - 1;
      RoundsArePlayed(c, labs[..n + 1], parts[..n], scripts);
      PlayedConcat(c, labs[0], Joined(parts[..n]), labs[n], parts[n], labs[n + 1]);
    }
  }

  /**
   The worker until `stop` is set after some number of rounds, with the dashboard's writes in between. Each error is
   followed by polling on with the same consumer: no new consumer, and no return to the committed offset.
   */
  method RunKafkaWorker(
    consumer: KafkaOrderConsumer, controls: ConsumerControlStore, rounds: nat, scripts: nat -> Script)
    returns (ghost labs: seq<Lab>, ghost parts: seq<seq<LabStep>>)
    requires consumer.Valid() && consumer.pc == Ready && controls.Valid()
    modifies consumer, consumer.store, consumer.client, consumer.broker, controls
    ensures AtRest(consumer, controls) && old(consumer.position) <= consumer.position
    ensures |parts| == rounds && Rounds(consumer.c, labs, parts, scripts)
    ensures labs[0] == Lab(old(Says(controls)), Reading, old(consumer.State()))
    ensures labs[rounds] == Lab(Says(controls), Reading, consumer.State())
  {
    hide Played, Round, Orderly, LastWritten;
    controls.Initialize();
    labs, parts := [Lab(Says(controls), Reading, consumer.State())], [];
    for i := 0 to rounds
      invariant AtRest(consumer, controls) && old(consumer.position) <= consumer.position
      invariant |labs| == i + 1 && |parts| == i && Rounds(consumer.c, labs, parts, scripts)
      invariant labs[0] == Lab(old(Says(controls)), Reading, old(consumer.State()))
      invariant labs[i] == Lab(Says(controls), Reading, consumer.State())
    {
      hide Rounds;
      ghost var part := RunRound(consumer, controls, scripts(i));
      RoundsSnoc(consumer.c, labs, parts, scripts, part, Lab(Says(controls), Reading, consumer.State()));
      labs, parts := labs + [Lab(Says(controls), Reading, consumer.State())], parts + [part];
    }
  }

  // ---------- Progress ----------

  lemma {:induction false} WritesArePlayed(c: Config, y: Lab, writes: seq<bool>)
    ensures Play(c, y, DashboardSteps(writes)) == y.(paused := Written(y.paused, writes))
    decreases |writes|
  {
    if writes != [] {
      var init, pause := writes[..|writes| - 1], writes[|writes| - 1];
      WritesArePlayed(c, y, init);
      PlaySnoc(c, y, DashboardSteps(init), Dashboard(pause));
    }
  }

  /** A poll brings a message, and none before it raises. */
  predicate BringsMessage(polls: seq<PollReply>) {
    exists i :: 0 <= i < |polls| && polls[i].Message? && forall j :: 0 <= j < i ==> !polls[j].BrokerError?
  }

  lemma {:induction false} CallMovesOn(c: Config, s: State, trace: seq<Label>)
    requires IsCall(c, s, trace)
    ensures Exec(c, s, trace).lane.position == s.lane.position + 1
    decreases |trace|
  {
    var init, l := trace[..|trace| - 1], trace[|trace| - 1];
    if init != [] {
      assert IsCall(c, s, init);
      CallMovesOn(c, s, init);
      assert InCall(l);
    }
  }

  /** Unless the flag read says paused, a round whose polls bring a message takes the next record. */
  lemma RoundTakesRecord(c: Config, x: Lab, script: Script, steps: seq<LabStep>)
    requires Round(c, x, script, steps) && x.gate.Reading? && x.s.lane.pc == Ready
    requires BringsMessage(script.polls) && x.s.lane.position < |c.log|
    ensures
      var y := Play(c, x, steps);
      && y.paused == Written(Written(x.paused, script.before), script.during)
      && y.gate.Reading? && y.s.lane.pc == Ready
      && if Written(x.paused, script.before) then y.s == x.s else y.s.lane.position == x.s.lane.position + 1
  {
    hide Course, Step, Enabled;
    var before, during := DashboardSteps(script.before), DashboardSteps(script.during);
    var read := Next(c, x.(paused := Written(x.paused, script.before)), ReadFlag);
    var z := read.(paused := Written(read.paused, script.during));
    WritesArePlayed(c, x, script.before);
    PlaySnoc(c, x, before, ReadFlag);
    WritesArePlayed(c, read, script.during);
    PlayConcat(c, x, before + [ReadFlag], during);
    if !Written(x.paused, script.before) {
      var call :| CallSteps(c, x.s, script.polls, script.oracle, call) && steps == before + [ReadFlag] + during + call;
      PlayConcat(c, x, before + [ReadFlag] + during, call);
      CallTakesRecord(c, z, script.polls, script.oracle, call);
    }
  }

  lemma CallTakesRecord(c: Config, z: Lab, polls: seq<PollReply>, oracle: nat -> Fault, call: seq<LabStep>)
    requires CallSteps(c, z.s, polls, oracle, call) && z.gate.Cleared? && z.s.lane.pc == Ready
    requires BringsMessage(polls) && z.s.lane.position < |c.log|
    ensures
      var y := Play(c, z, call);
      y.paused == z.paused && y.gate.Reading? && y.s.lane.pc == Ready && y.s.lane.position == z.s.lane.position + 1
  {
    hide Course, Step, Exec, IsCall, IsRun, Enabled, Play, Acts, BringsMessage;
    var trace :| Course(c, z.s, polls, oracle, trace) && call == TriedSteps(c, z.s, trace);
    MessageIsTaken(c, z.s, polls, oracle, trace);
    CallIsPlayed(c, z, trace);
    assert Acts(trace) + [] == Acts(trace);
    var y := Play(c, z, Acts(trace));
    PlaySnoc(c, z, Acts(trace), Act(KeepPolling));
    if y.s.lane.pc.Raised? {
      PollsOn(c, y);
    }
  }

  lemma MessageIsTaken(c: Config, s: State, polls: seq<PollReply>, oracle: nat -> Fault, trace: seq<Label>)
    requires Course(c, s, polls, oracle, trace) && BringsMessage(polls) && s.lane.position < |c.log|
    ensures IsCall(c, s, trace) && trace != []
    ensures Exec(c, s, trace).lane.pc.Ready? || Exec(c, s, trace).lane.pc.Raised?
    ensures Exec(c, s, trace).lane.position == s.lane.position + 1
  {
    hide News, Driven, Step, Exec, Enabled;
    NewsIsFirst(polls, true);
    CallMovesOn(c, s, trace);
  }

  lemma PollsOn(c: Config, y: Lab)
    requires y.gate.Working? && y.s.lane.pc.Raised?
    ensures
      var y' := Next(c, y, Act(KeepPolling));
      y'.paused == y.paused && y'.gate.Reading? && y'.s.lane.pc == Ready && y'.s.lane.position == y.s.lane.position
  {
  }

  /** A worker that is never paused takes one record of the log after the other, whatever its calls do. */
  lemma {:induction false} UnpausedWorkerTakesRecords(
    c: Config, labs: seq<Lab>, parts: seq<seq<LabStep>>, scripts: nat -> Script)
    requires Rounds(c, labs, parts, scripts)
    requires !labs[0].paused && labs[0].gate.Reading? && labs[0].s.lane.pc == Ready
    requires forall i :: 0 <= i < |parts| ==> true !in scripts(i).before && true !in scripts(i).during
    requires forall i :: 0 <= i < |parts| ==> BringsMessage(scripts(i).polls)
    requires labs[0].s.lane.position + |parts| <= |c.log|
    ensures
      var last := labs[|parts|];
      && !last.paused && last.gate.Reading? && last.s.lane.pc == Ready
      && last.s.lane.position == labs[0].s.lane.position + |parts|
    decreases |parts|
  {
    hide BringsMessage, Round;
    if parts != [] {
      var n := |parts| - 1;
      UnpausedWorkerTakesRecords(c, labs[..n + 1], parts[..n], scripts);
      assert labs[..n + 1][n] == labs[n];
      RoundTakesRecord(c, labs[n], scripts(n), parts[n]);
    }
  }

  // ---------- The worker and the protocol ----------

  /** The protocol's own steps in a worker's run. */
  function Labels(c: Config, x: Lab, steps: seq<LabStep>): seq<Label> {
    if steps == [] then []
    else
      var init, step := steps[..|steps| - 1], steps[|steps| - 1];
      Labels(c, x, init) + if step.Act? && Possible(c, Play(c, x, init), step) then [step.l] else []
  }

  /** Whatever the worker and the dashboard do is a run of the protocol, so every theorem about runs applies. */
  lemma {:induction false} WorkerRunsTheProtocol(c: Config, x: Lab, steps: seq<LabStep>)
    ensures Play(c, x, steps).s == Exec(c, x.s, Labels(c, x, steps))
    ensures IsRun(c, x.s, Labels(c, x, steps))
    decreases |steps|
  {
    if steps != [] {
      var init, step := steps[..|steps| - 1], steps[|steps| - 1];
      WorkerRunsTheProtocol(c, x, init);
      if step.Act? && Possible(c, Play(c, x, init), step) {
        ExecSnoc(c, x.s, Labels(c, x, init), step.l);
      } else {
        assert Labels(c, x, steps) == Labels(c, x, init);
      }
    }
  }

  /** Ready for the next protocol step of an unpaused worker. */
  predicate Unpaused(x: Lab) {
    Consistent(x) && !x.gate.Cleared? && !x.paused
  }

  lemma LabelsSnoc(c: Config, x: Lab, steps: seq<LabStep>, step: LabStep)
    ensures Labels(c, x, steps + [step]) ==
            Labels(c, x, steps) + if step.Act? && Possible(c, Play(c, x, steps), step) then [step.l] else []
  {
    assert (steps + [step])[..|steps|] == steps;
  }

  /** The steps that take one enabled label: a poll needs a flag read first. */
  function StepsFor(l: Label): seq<LabStep> {
    if l == Poll || l == PollError then [ReadFlag, Act(l)] else [Act(l)]
  }

  /** What one enabled label needs and leaves, seen from a worker that is not between flag read and call. */
  lemma NextLabel(c: Config, y: Lab, l: Label)
    requires Unpaused(y) && Enabled(c, y.s, l)
    ensures
      var z := if l == Poll || l == PollError then Next(c, y, ReadFlag) else y;
      && z.s == y.s
      && Possible(c, z, Act(l))
      && Unpaused(Next(c, z, Act(l)))
      && Next(c, z, Act(l)).s == Step(c, y.s, l)
  {
  }

  lemma PlayLabel(c: Config, x: Lab, steps: seq<LabStep>, y: Lab, l: Label)
    requires Play(c, x, steps) == y && Unpaused(y) && Enabled(c, y.s, l)
    ensures Unpaused(Play(c, x, steps + StepsFor(l)))
    ensures Play(c, x, steps + StepsFor(l)).s == Step(c, y.s, l)
    ensures Labels(c, x, steps + StepsFor(l)) == Labels(c, x, steps) + [l]
  {
    NextLabel(c, y, l);
    var before := steps;
    if l == Poll || l == PollError {
      PlaySnoc(c, x, steps, ReadFlag);
      LabelsSnoc(c, x, steps, ReadFlag);
      before := steps + [ReadFlag];
      assert Labels(c, x, before) == Labels(c, x, steps);
    }
    PlaySnoc(c, x, before, Act(l));
    LabelsSnoc(c, x, before, Act(l));
    assert before + [Act(l)] == steps + StepsFor(l);
  }

  /** Conversely an unpaused worker can take any run of the protocol. */
  lemma {:induction false} ProtocolRunIsPlayed(c: Config, x: Lab, trace: seq<Label>) returns (steps: seq<LabStep>)
    requires Unpaused(x) && IsRun(c, x.s, trace)
    ensures Play(c, x, steps).s == Exec(c, x.s, trace) && Labels(c, x, steps) == trace
    ensures Unpaused(Play(c, x, steps))
    ensures Crash !in trace ==> Act(Crash) !in steps
    decreases |trace|
  {
    if trace == [] {
      steps := [];
    } else {
      var n := |trace| - 1;
      RunPrefix(c, x.s, trace, n);
      assert trace[..n + 1] == trace == trace[..n] + [trace[n]];
      var before := ProtocolRunIsPlayed(c, x, trace[..n]);
      PlayLabel(c, x, before, Play(c, x, before), trace[n]);
      steps := before + StepsFor(trace[n]);
      NoCrashAdded(trace, before);
    }
  }

  lemma NoCrashAdded(trace: seq<Label>, before: seq<LabStep>)
    requires trace != []
    requires Crash !in trace[..|trace| - 1] ==> Act(Crash) !in before
    ensures Crash !in trace ==> Act(Crash) !in before + StepsFor(trace[|trace| - 1])
  {
    assert trace[|trace| - 1] in trace;
    assert forall l :: l in trace[..|trace| - 1] ==> l in trace;
  }

  /**
   A worker that never crashes and is never paused can lose any record that a later one can pass, with a DLQ as the
   local worker has every record but the last: the group moves past it although its event was never completed and no
   DLQ record was acknowledged.
   */
  lemma WorkerCanLose(c: Config, k: nat) returns (steps: seq<LabStep>)
    requires c.Valid() && CanBePassed(c, k)
    ensures Act(Crash) !in steps
    ensures Lost(c, Labels(c, Lab(false, Reading, INITIAL), steps), k)
  {
    var trace := LosingRun(c, k);
    steps := ProtocolRunIsPlayed(c, Lab(false, Reading, INITIAL), trace);
  }
}
