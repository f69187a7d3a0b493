/**
 Several partitions over one database, one consumer each, their steps interleaved at transaction granularity. The
 message key is the order ID, so everything that can collide shares a partition; each partition then runs as if alone.
 */
module KafkaCluster {
  import opened OrderEvents
  import opened OrderTables
  import opened KafkaProtocol
  import opened KafkaHistory
  import opened KafkaTheorems
  import opened KafkaRefinement
  import opened Partitions

  datatype Cluster = Cluster(db: Tables, lanes: seq<Lane>)

  /** A step of the consumer of one partition. */
  datatype Move = Move(partition: nat, action: Label)

  function View(cl: Cluster, p: nat): State
    requires p < |cl.lanes|
  {
    State(cl.db, cl.lanes[p])
  }

  function Advance(ps: seq<Config>, cl: Cluster, m: Move): Cluster {
    if m.partition < |ps| == |cl.lanes| then
      var s := Step(ps[m.partition], View(cl, m.partition), m.action);
      Cluster(s.db, cl.lanes[m.partition := s.lane])
    else cl
  }

  function Boot(ps: seq<Config>): Cluster {
    Cluster(EMPTY, seq(|ps|, _ => FRESH_LANE))
  }

  function Execute(ps: seq<Config>, moves: seq<Move>): Cluster {
    if moves == [] then Boot(ps)
    else Advance(ps, Execute(ps, moves[..|moves| - 1]), moves[|moves| - 1])
  }

  /** The steps of one partition, in order. */
  function Own(moves: seq<Move>, p: nat): seq<Label> {
    if moves == [] then []
    else
      var m := moves[|moves| - 1];
      Own(moves[..|moves| - 1], p) + if m.partition == p then [m.action] else []
  }

  predicate EventIn(ps: seq<Config>, p: nat, k: nat, e: OrderEvent) {
    p < |ps| && EventAt(ps[p], k) == Some(e)
  }

  /** The producer keys each event by its order ID and the partition is a function of the key. */
  ghost predicate Keyed(ps: seq<Config>, place: OrderId -> nat) {
    forall p, k, e :: EventIn(ps, p, k, e) ==> place(e.orderId) == p
  }

  /** An event ID names one event, however often it is sent. */
  ghost predicate IdsDetermineEvents(ps: seq<Config>) {
    forall p, k, e, q, j, f :: EventIn(ps, p, k, e) && EventIn(ps, q, j, f) && e.eventId == f.eventId ==> e == f
  }

  /** The partition that carries an event ID, if any does. */
  ghost function Home(ps: seq<Config>, id: EventId): nat {
    if exists p, k, e :: EventIn(ps, p, k, e) && e.eventId == id then
      var p: nat, k: nat, e :| EventIn(ps, p, k, e) && e.eventId == id;
      p
    else |ps|
  }

  lemma HomeOfEvent(ps: seq<Config>, place: OrderId -> nat, p: nat, k: nat, e: OrderEvent)
    requires Keyed(ps, place) && IdsDetermineEvents(ps) && EventIn(ps, p, k, e)
    ensures Home(ps, e.eventId) == p == place(e.orderId)
  {
    var q: nat, j: nat, f :| EventIn(ps, q, j, f) && f.eventId == e.eventId && Home(ps, e.eventId) == q;
    assert f == e;
  }

  /** `home` agrees with the logs about where each event lives. */
  ghost predicate Located(ps: seq<Config>, place: OrderId -> nat, home: EventId -> nat) {
    forall p, k, e :: EventIn(ps, p, k, e) ==> home(e.eventId) == p == place(e.orderId)
  }

  lemma HomeIsLocated(ps: seq<Config>, place: OrderId -> nat) returns (home: EventId -> nat)
    requires Keyed(ps, place) && IdsDetermineEvents(ps)
    ensures Located(ps, place, home)
  {
    home := id => Home(ps, id);
    forall p: nat, k: nat, e | EventIn(ps, p, k, e) ensures home(e.eventId) == p == place(e.orderId) {
      HomeOfEvent(ps, place, p, k, e);
    }
  }

  /** The whole cluster as partition p sees it. */
  function Projected(place: OrderId -> nat, home: EventId -> nat, cl: Cluster, p: nat): State
    requires p < |cl.lanes|
  {
    State(Restrict(place, home, cl.db, p), cl.lanes[p])
  }

  /** The next program counter sees the tables only through the row of the event in hand. */
  lemma SameLane(c: Config, s: State, t: State, l: Label)
    requires s.lane == t.lane
    requires s.lane.pc.Busy? && EventAt(c, s.lane.pc.call.offset).Some? ==>
               var e := EventAt(c, s.lane.pc.call.offset).value;
               && (e.eventId in s.db.events <==> e.eventId in t.db.events)
               && (IsCompleted(s.db, e.eventId) <==> IsCompleted(t.db, e.eventId))
               && (Refuses(s.db, e) <==> Refuses(t.db, e))
    ensures Step(c, s, l).lane == Step(c, t, l).lane
    ensures TxOf(c, s, l) == TxOf(c, t, l)
  {
  }

  lemma StepOnPart(ps: seq<Config>, place: OrderId -> nat, home: EventId -> nat, s: State, p: nat, l: Label, q: nat)
    requires p < |ps| && Located(ps, place, home) && Housed(place, home, |ps|, s.db)
    ensures
      var part := State(Restrict(place, home, s.db, p), s.lane);
      && Housed(place, home, |ps|, Step(ps[p], s, l).db)
      && Step(ps[p], part, l).lane == Step(ps[p], s, l).lane
      && Restrict(place, home, Step(ps[p], s, l).db, q) ==
         if q == p then Step(ps[p], part, l).db else Restrict(place, home, s.db, q)
  {
    var c, part := ps[p], State(Restrict(place, home, s.db, p), s.lane);
    if s.lane.pc.Busy? && EventAt(c, s.lane.pc.call.offset).Some? {
      var e := EventAt(c, s.lane.pc.call.offset).value;
      assert EventIn(ps, p, s.lane.pc.call.offset, e);
      CollidesLocally(place, home, |ps|, s.db, e);
      assert LivesIn(place, home, StoreOf(e), p);
    }
    SameLane(c, s, part, l);
    StepCommits(c, s, l);
    StepCommits(c, part, l);
    ApplyOnPart(place, home, |ps|, s.db, TxOf(c, s, l), p, q);
  }

  /** In every interleaving each partition's rows, offsets, DLQ records and consumer are those of its own run alone. */
  lemma {:induction false} EachPartitionRunsAlone(
    ps: seq<Config>, place: OrderId -> nat, home: EventId -> nat, moves: seq<Move>, p: nat)
    requires Located(ps, place, home) && p < |ps|
    ensures |Execute(ps, moves).lanes| == |ps|
    ensures Housed(place, home, |ps|, Execute(ps, moves).db)
    ensures Projected(place, home, Execute(ps, moves), p) == Exec(ps[p], INITIAL, Own(moves, p))
    decreases |moves|
  {
    if moves == [] {
      assert Restrict(place, home, EMPTY, p).orders == map[];
      assert Restrict(place, home, EMPTY, p).events == map[];
    } else {
      var init, m := moves[..|moves| - 1], moves[|moves| - 1];
      EachPartitionRunsAlone(ps, place, home, init, p);
      var cl := Execute(ps, init);
      if m.partition < |ps| {
        StepOnPart(ps, place, home, View(cl, m.partition), m.partition, m.action, p);
      }
      if m.partition == p {
        ExecSnoc(ps[p], INITIAL, Own(init, p), m.action);
      } else {
        assert Own(moves, p) == Own(init, p);
      }
    }
  }

  /** Partition p meets the assumptions of the refinement and is drained. */
  ghost predicate PartDrained(ps: seq<Config>, moves: seq<Move>, p: nat) {
    && p < |ps| == |Execute(ps, moves).lanes|
    && ps[p].Valid() && ps[p].hasDlq
    && GentleRun(ps[p], Own(moves, p))
    && Execute(ps, moves).lanes[p].committed == |ps[p].log|
  }

  ghost predicate DrainedGently(ps: seq<Config>, moves: seq<Move>) {
    forall p: nat :: p < |ps| ==> PartDrained(ps, moves, p)
  }

  /** What is left of partition p once it is drained. */
  lemma DrainedPart(ps: seq<Config>, place: OrderId -> nat, home: EventId -> nat, moves: seq<Move>, p: nat)
    requires Located(ps, place, home) && DrainedGently(ps, moves) && p < |ps|
    ensures p < |Execute(ps, moves).lanes|
    ensures Restrict(place, home, Execute(ps, moves).db, p) == Fold(ps[p].log)
    ensures DlqOffsets(Execute(ps, moves).lanes[p].dlq) == DeadOffsets(ps[p].log)
  {
    assert PartDrained(ps, moves, p);
    EachPartitionRunsAlone(ps, place, home, moves, p);
    DrainedEqualsCleanPass(ps[p], Own(moves, p));
  }

  /**
   However the partitions' consumers interleave, crash and retry: all drained runs end with the same two tables and
   the same dead-lettered offsets.
   */
  lemma InterleavingsAgree(ps: seq<Config>, place: OrderId -> nat, moves: seq<Move>, moves': seq<Move>)
    requires Keyed(ps, place) && IdsDetermineEvents(ps)
    requires DrainedGently(ps, moves) && DrainedGently(ps, moves')
    ensures Execute(ps, moves).db == Execute(ps, moves').db
    ensures forall p: nat :: p < |ps| ==>
              && p < |Execute(ps, moves).lanes| && p < |Execute(ps, moves').lanes|
              && DlqOffsets(Execute(ps, moves).lanes[p].dlq) == DlqOffsets(Execute(ps, moves').lanes[p].dlq)
  {
    var home := HomeIsLocated(ps, place);
    forall p: nat | p < |ps|
      ensures p < |Execute(ps, moves).lanes| && p < |Execute(ps, moves').lanes|
      ensures Restrict(place, home, Execute(ps, moves).db, p) == Restrict(place, home, Execute(ps, moves').db, p)
      ensures DlqOffsets(Execute(ps, moves).lanes[p].dlq) == DlqOffsets(Execute(ps, moves').lanes[p].dlq)
    {
      DrainedPart(ps, place, home, moves, p);
      DrainedPart(ps, place, home, moves', p);
    }
    if |ps| == 0 {
      NoPartitions(ps, moves);
      NoPartitions(ps, moves');
    } else {
      EachPartitionRunsAlone(ps, place, home, moves, 0);
      EachPartitionRunsAlone(ps, place, home, moves', 0);
      AgreeOnParts(place, home, |ps|, Execute(ps, moves).db, Execute(ps, moves').db);
    }
  }

  lemma {:induction false} NoPartitions(ps: seq<Config>, moves: seq<Move>)
    requires ps == []
    ensures Execute(ps, moves).db == EMPTY
    decreases |moves|
  {
    if moves != [] {
      NoPartitions(ps, moves[..|moves| - 1]);
    }
  }

  // ---------- Why the key matters ----------

  /** The local worker's settings on a partition with one order: a DLQ, no downstream, refusals not retried. */
  predicate LocalWorker(c: Config, e: OrderEvent) {
    && c.Valid() && c.hasDlq && !c.hasDownstream
    && !c.refusalRetryable(e)
    && Storable(e)
    && |c.log| == 1 && c.log[0].body == Order(e)
  }

  function MovesOf(p: nat, labels: seq<Label>): seq<Move> {
    if labels == [] then [] else MovesOf(p, labels[..|labels| - 1]) + [Move(p, labels[|labels| - 1])]
  }

  lemma MovesSnoc(moves: seq<Move>, p: nat, labels: seq<Label>)
    requires labels != []
    ensures moves + MovesOf(p, labels) ==
            moves + MovesOf(p, labels[..|labels| - 1]) + [Move(p, labels[|labels| - 1])]
  {
  }

  lemma ExecuteSnoc(ps: seq<Config>, moves: seq<Move>, m: Move)
    ensures Execute(ps, moves + [m]) == Advance(ps, Execute(ps, moves), m)
  {
    assert (moves + [m])[..|moves|] == moves;
  }

  lemma OwnSnoc(moves: seq<Move>, m: Move, q: nat)
    ensures Own(moves + [m], q) == Own(moves, q) + if m.partition == q then [m.action] else []
  {
    assert (moves + [m])[..|moves|] == moves;
  }

  /** The cluster after partition p alone has gone from its view to s. */
  function Replaced(cl: Cluster, p: nat, s: State): Cluster
    requires p < |cl.lanes|
  {
    Cluster(s.db, cl.lanes[p := s.lane])
  }

  lemma AdvanceReplaced(ps: seq<Config>, cl: Cluster, p: nat, s: State, l: Label)
    requires p < |ps| == |cl.lanes|
    ensures Advance(ps, Replaced(cl, p, s), Move(p, l)) == Replaced(cl, p, Step(ps[p], s, l))
  {
    var s' := Step(ps[p], s, l);
    assert View(Replaced(cl, p, s), p) == s;
    assert cl.lanes[p := s.lane][p := s'.lane] == cl.lanes[p := s'.lane];
  }

  /** Consecutive moves of one partition are a run of its consumer. */
  lemma {:induction false} Solo(ps: seq<Config>, moves: seq<Move>, p: nat, labels: seq<Label>)
    requires p < |ps| == |Execute(ps, moves).lanes|
    ensures
      var cl := Execute(ps, moves);
      Execute(ps, moves + MovesOf(p, labels)) == Replaced(cl, p, Exec(ps[p], View(cl, p), labels))
    decreases |labels|
  {
    var cl := Execute(ps, moves);
    if labels == [] {
      assert moves + MovesOf(p, labels) == moves;
      assert cl.lanes[p := cl.lanes[p]] == cl.lanes;
    } else {
      var n := |labels| - 1;
      Solo(ps, moves, p, labels[..n]);
      MovesSnoc(moves, p, labels);
      ExecuteSnoc(ps, moves + MovesOf(p, labels[..n]), Move(p, labels[n]));
      AdvanceReplaced(ps, cl, p, Exec(ps[p], View(cl, p), labels[..n]), labels[n]);
    }
  }

  lemma {:induction false} OwnOfMoves(moves: seq<Move>, p: nat, labels: seq<Label>, q: nat)
    ensures Own(moves + MovesOf(p, labels), q) == Own(moves, q) + if p == q then labels else []
    decreases |labels|
  {
    if labels == [] {
      assert moves + MovesOf(p, labels) == moves;
      assert Own(moves, q) + [] == Own(moves, q);
    } else {
      var n := |labels| - 1;
      OwnOfMoves(moves, p, labels[..n], q);
      MovesSnoc(moves, p, labels);
      OwnSnoc(moves + MovesOf(p, labels[..n]), Move(p, labels[n]), q);
      hide Own, MovesOf;
      if p == q {
        assert Own(moves, q) + labels[..n] + [labels[n]] == Own(moves, q) + labels;
      } else {
        assert Own(moves, q) + [] + [] == Own(moves, q) + [];
      }
    }
  }

  const CALM_STORE: seq<Label> :=
    [Label.Start, Poll, Parse, Store(Calm), Mark(Calm), Commit(Calm)]

  const CALM_REFUSAL: seq<Label> :=
    [Label.Start, Poll, Parse, Store(Calm), Discard(Calm), Publish(Calm), Commit(Calm)]

  predicate AllCalm(labels: seq<Label>) {
    forall l :: l in labels ==> (l.Store? || l.Mark? || l.Notify? ==> l.fault == Calm) && !l.KeepPolling?
  }

  lemma {:induction false} CalmIsGentle(c: Config, labels: seq<Label>)
    requires AllCalm(labels)
    ensures GentleRun(c, labels)
    decreases |labels|
  {
    if labels != [] {
      var init := labels[..|labels| - 1];
      assert labels[|labels| - 1] in labels && forall l :: l in init ==> l in labels;
      CalmIsGentle(c, init);
    }
  }

  lemma ReachStore(c: Config, db: Tables, e: OrderEvent)
    requires LocalWorker(c, e)
    ensures Exec(c, State(db, FRESH_LANE), [Label.Start, Poll, Parse]) ==
            State(db, Lane([], 0, 1, Busy(Call(0, 1, None), Storing)))
  {
    hide Exec, IsRun;
    var s := State(db, FRESH_LANE);
    ReachFetched(c, db, e);
    ExecSnoc(c, s, [Label.Start, Poll], Parse);
    assert [Label.Start, Poll] + [Parse] == [Label.Start, Poll, Parse];
  }

  lemma ReachFetched(c: Config, db: Tables, e: OrderEvent)
    requires LocalWorker(c, e)
    ensures Exec(c, State(db, FRESH_LANE), [Label.Start, Poll]) == State(db, Lane([], 0, 1, Busy(Call(0, 0, None), Fetched)))
  {
    var s := State(db, FRESH_LANE);
    assert Exec(c, s, []) == s;
    hide Exec, IsRun;
    ExecSnoc(c, s, [], Label.Start);
    assert [] + [Label.Start] == [Label.Start];
    ExecSnoc(c, s, [Label.Start], Poll);
    assert [Label.Start] + [Poll] == [Label.Start, Poll];
  }

  lemma StoreRun(c: Config, db: Tables, e: OrderEvent)
    requires LocalWorker(c, e) && Accepts(db, e)
    ensures
      var s := Exec(c, State(db, FRESH_LANE), CALM_STORE);
      s.db == MarkTx(Insert(db, e), e.eventId) && s.lane.committed == 1
  {
    var s, t := State(db, FRESH_LANE), [Label.Start, Poll, Parse];
    hide Exec, IsRun;
    ReachStore(c, db, e);
    ExecSnoc(c, s, t, Store(Calm));
    ExecSnoc(c, s, t + [Store(Calm)], Mark(Calm));
    ExecSnoc(c, s, t + [Store(Calm)] + [Mark(Calm)], Commit(Calm));
    assert t + [Store(Calm)] + [Mark(Calm)] + [Commit(Calm)] == CALM_STORE;
  }

  lemma ReachCleanUp(c: Config, db: Tables, e: OrderEvent)
    requires LocalWorker(c, e) && Refuses(db, e)
    ensures Exec(c, State(db, FRESH_LANE), [Label.Start, Poll, Parse] + [Store(Calm)]) ==
            State(db, Lane([], 0, 1, Busy(Call(0, 1, None), Discarding(StoreRefused))))
  {
    hide Exec, IsRun;
    ReachStore(c, db, e);
    ExecSnoc(c, State(db, FRESH_LANE), [Label.Start, Poll, Parse], Store(Calm));
  }

  lemma RefusalRun(c: Config, db: Tables, e: OrderEvent)
    requires LocalWorker(c, e) && Refuses(db, e) && Matched(db)
    ensures
      var s := Exec(c, State(db, FRESH_LANE), CALM_REFUSAL);
      s.db == db && s.lane.committed == 1
  {
    var s, t := State(db, FRESH_LANE), [Label.Start, Poll, Parse];
    hide Exec, IsRun;
    ReachCleanUp(c, db, e);
    UnclaimedHasNoTrace(db, e.eventId);
    ExecSnoc(c, s, t + [Store(Calm)], Discard(Calm));
    ExecSnoc(c, s, t + [Store(Calm)] + [Discard(Calm)], Publish(Calm));
    ExecSnoc(c, s, t + [Store(Calm)] + [Discard(Calm)] + [Publish(Calm)], Commit(Calm));
    assert t + [Store(Calm)] + [Discard(Calm)] + [Publish(Calm)] + [Commit(Calm)] == CALM_REFUSAL;
  }

  /** The moves of one partition's run, and then of the other's. */
  function InTurn(p: nat, a: seq<Label>, q: nat, b: seq<Label>): seq<Move> {
    MovesOf(p, a) + MovesOf(q, b)
  }

  lemma OneAfterTheOther(ps: seq<Config>, p: nat, a: seq<Label>, s: State, q: nat, b: seq<Label>, t: State)
    requires |ps| == 2 && p < 2 && q == 1 - p
    requires s == Exec(ps[p], INITIAL, a) && t == Exec(ps[q], State(s.db, FRESH_LANE), b)
    ensures
      var cl := Execute(ps, InTurn(p, a, q, b));
      |cl.lanes| == 2 && cl.db == t.db && cl.lanes[p] == s.lane && cl.lanes[q] == t.lane
  {
    hide Exec, Step;
    var none: seq<Move> := [];
    assert Execute(ps, none) == Boot(ps);
    Solo(ps, none, p, a);
    assert none + MovesOf(p, a) == MovesOf(p, a);
    assert View(Boot(ps), p) == INITIAL;
    Solo(ps, MovesOf(p, a), q, b);
  }

  lemma OwnInTurn(p: nat, a: seq<Label>, q: nat, b: seq<Label>)
    requires p != q
    ensures Own(InTurn(p, a, q, b), p) == a && Own(InTurn(p, a, q, b), q) == b
  {
    var none: seq<Move> := [];
    OwnOfMoves(none, p, a, p);
    OwnOfMoves(none, p, a, q);
    assert none + MovesOf(p, a) == MovesOf(p, a);
    OwnOfMoves(MovesOf(p, a), q, b, p);
    OwnOfMoves(MovesOf(p, a), q, b, q);
  }

  lemma {:induction false} BothDrainGently(ps: seq<Config>, p: nat, a: seq<Label>, s: State, q: nat, b: seq<Label>, t: State)
    requires |ps| == 2 && p < 2 && q == 1 - p && AllCalm(a) && AllCalm(b)
    requires ps[p].Valid() && ps[p].hasDlq && ps[q].Valid() && ps[q].hasDlq
    requires s == Exec(ps[p], INITIAL, a) && s.lane.committed == |ps[p].log|
    requires t == Exec(ps[q], State(s.db, FRESH_LANE), b) && t.lane.committed == |ps[q].log|
    ensures DrainedGently(ps, InTurn(p, a, q, b))
    ensures Execute(ps, InTurn(p, a, q, b)).db == t.db
  {
    OneAfterTheOther(ps, p, a, s, q, b, t);
    OwnInTurn(p, a, q, b);
    CalmIsGentle(ps[p], a);
    CalmIsGentle(ps[q], b);
    var moves := InTurn(p, a, q, b);
    forall r: nat | r < |ps| ensures PartDrained(ps, moves, r) {
      assert r == p || r == q;
    }
  }

  lemma CalmTraces()
    ensures AllCalm(CALM_STORE) && AllCalm(CALM_REFUSAL)
  {
  }

  /** With its order ID taken, the other order is refused. */
  lemma SecondIsRefused(e: OrderEvent, f: OrderEvent)
    requires e.orderId == f.orderId && e.eventId != f.eventId
    ensures Refuses(MarkTx(Insert(EMPTY, e), e.eventId), f) && Matched(MarkTx(Insert(EMPTY, e), e.eventId))
  {
    var db := Insert(EMPTY, e);
    assert db.orders[e.orderId].sourceEventId == e.eventId;
    assert Matched(db);
    MarkKeepsMatched(db, e.eventId);
  }

  /** Partition `first` drains before the other one: its order takes the order ID. */
  lemma FirstTakesOrderId(ps: seq<Config>, e: OrderEvent, f: OrderEvent, first: nat) returns (moves: seq<Move>)
    requires |ps| == 2 && first < 2
    requires LocalWorker(ps[first], e) && LocalWorker(ps[1 - first], f)
    requires e.orderId == f.orderId && e.eventId != f.eventId
    ensures DrainedGently(ps, moves)
    ensures Execute(ps, moves).db == MarkTx(Insert(EMPTY, e), e.eventId)
  {
    CalmTraces();
    SecondIsRefused(e, f);
    StoreRun(ps[first], EMPTY, e);
    RefusalRun(ps[1 - first], MarkTx(Insert(EMPTY, e), e.eventId), f);
    var s := Exec(ps[first], INITIAL, CALM_STORE);
    var t := Exec(ps[1 - first], State(s.db, FRESH_LANE), CALM_REFUSAL);
    BothDrainGently(ps, first, CALM_STORE, s, 1 - first, CALM_REFUSAL, t);
    moves := InTurn(first, CALM_STORE, 1 - first, CALM_REFUSAL);
  }

  /** Were the same order ID sent to two partitions, two fault-free drained runs could end in different tables. */
  lemma WithoutKeyingInterleavingsDisagree(ps: seq<Config>, e: OrderEvent, f: OrderEvent)
    returns (moves: seq<Move>, moves': seq<Move>)
    requires |ps| == 2 && LocalWorker(ps[0], e) && LocalWorker(ps[1], f)
    requires e.orderId == f.orderId && e.eventId != f.eventId
    ensures DrainedGently(ps, moves) && DrainedGently(ps, moves')
    ensures Execute(ps, moves).db != Execute(ps, moves').db
  {
    moves := FirstTakesOrderId(ps, e, f, 0);
    moves' := FirstTakesOrderId(ps, f, e, 1);
    assert Execute(ps, moves).db.orders[e.orderId].sourceEventId == e.eventId;
    assert Execute(ps, moves').db.orders[e.orderId].sourceEventId == f.eventId;
  }
}
