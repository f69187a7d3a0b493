/**
 The SQS consumer class. Its `ProcessOne` is a run of the protocol in which the other workers, senders, visibility
 timeouts and the redrive act between its calls as they like.
 */
module SqsOrderConsumer {
  import opened OrderEvents
  import opened OrderTables
  import opened SqsProtocol
  import opened SqsTheorems

  /** The queue service. It decides which visible message a receive returns. */
  class Queue {
    const limit: nat
    var msgs: seq<Message>

    constructor (limit: nat)
      ensures this.limit == limit && msgs == []
    {
      this.limit := limit;
      msgs := [];
    }

    method ReceiveMessage(pick: nat) returns (handle: Option<nat>)
      modifies this
      ensures if pick < |old(msgs)| && old(msgs)[pick].place.Visible? && old(msgs)[pick].receives < limit then
                && handle == Some(old(msgs)[pick].receives + 1)
                && msgs == old(msgs)[pick := old(msgs)[pick].(receives := handle.value, place := InFlight)]
              else handle == None && msgs == old(msgs)
    {
      handle := None;
      if pick < |msgs| && msgs[pick].place.Visible? && msgs[pick].receives < limit {
        handle := Some(msgs[pick].receives + 1);
        msgs := msgs[pick := msgs[pick].(receives := handle.value, place := InFlight)];
      }
    }

    method DeleteMessage(m: nat, handle: nat, fault: Fault, staleHonoured: bool) returns (ok: bool)
      requires m < |msgs|
      modifies this
      ensures ok <==> fault.Calm?
      ensures msgs == if (fault.Calm? || fault.applied) && (handle == old(msgs)[m].receives || staleHonoured)
                         && (old(msgs)[m].place.Visible? || old(msgs)[m].place.InFlight?)
                      then old(msgs)[m := old(msgs)[m].(place := Deleted)] else old(msgs)
    {
      if (fault.Calm? || fault.applied) && (handle == msgs[m].receives || staleHonoured) {
        if msgs[m].place.Visible? || msgs[m].place.InFlight? {
          msgs := msgs[m := msgs[m].(place := Deleted)];
        }
      }
      ok := fault.Calm?;
    }
  }

  /** What the worker processes are doing, this one and its competitors. */
  class Fleet {
    var workers: seq<Worker>

    constructor (n: nat)
      ensures workers == seq(n, _ => Idle)
    {
      workers := seq(n, _ => Idle);
    }
  }

  datatype Outcome = Processed(eventId: EventId) | NoMessage | Raised

  /** A step that is not one of worker w. */
  predicate Foreign(l: Label, w: nat) {
    match l
    case Send(_) => true
    case Redrive(_) => true
    case Expire(_) => true
    case _ => l.w != w
  }

  /** The calls of one process_one: store, mark_completed and delete_message fail as the oracle says, in this order. */
  predicate Dictated(w: nat, oracle: nat -> Fault, l: Label) {
    match l
    case Receive(v, _) => v == w
    case Parse(v) => v == w
    case Claim(v, f) => v == w && f == oracle(0)
    case ReadStatus(v, f) => v == w && f == Calm
    case Mark(v, f) => v == w && f == oracle(1)
    case Delete(v, f, _) => v == w && f == oracle(2)
    case _ => false
  }

  /** The steps are a run from one state to another: this worker's calls, with steps of others in between. */
  predicate Trail(limit: nat, w: nat, oracle: nat -> Fault, s: State, steps: seq<Label>, s': State) {
    IsRun(limit, s, steps) && Exec(limit, s, steps) == s' && forall l :: l in steps ==> Foreign(l, w) || Dictated(w, oracle, l)
  }

  lemma TrailEnds(limit: nat, w: nat, oracle: nat -> Fault, s: State, steps: seq<Label>, s': State)
    requires Trail(limit, w, oracle, s, steps, s')
    ensures Exec(limit, s, steps) == s'
  {
  }

  predicate Undeleted(w: nat, steps: seq<Label>) {
    forall l :: l in steps && l.Delete? ==> l.w != w
  }

  lemma TrailSnoc(limit: nat, w: nat, oracle: nat -> Fault, s: State, steps: seq<Label>, s': State, l: Label)
    requires Trail(limit, w, oracle, s, steps, s') && Enabled(limit, s', l)
    requires Foreign(l, w) || Dictated(w, oracle, l)
    ensures Trail(limit, w, oracle, s, steps + [l], Step(limit, s', l))
    ensures Undeleted(w, steps) && (l.Delete? ==> l.w != w) ==> Undeleted(w, steps + [l])
  {
    assert (steps + [l])[..|steps|] == steps;
  }

  /** What the steps of others leave to worker w: its own place, the message it holds, and every status or a higher one. */
  predicate Kept(s: State, s': State, w: nat, m: nat, id: EventId) {
    && |s'.workers| == |s.workers| && w < |s.workers| && s'.workers[w] == s.workers[w]
    && |s.msgs| <= |s'.msgs| && Preserves(s, s', m)
    && StatusRank(s.db, id) <= StatusRank(s'.db, id)
  }

  lemma ForeignKeeps(limit: nat, s: State, l: Label, w: nat, m: nat, id: EventId)
    requires Foreign(l, w) && w < |s.workers|
    ensures Kept(s, Step(limit, s, l), w, m, id)
  {
    PreservesStep(limit, s, l, m);
    StatusClimbs(limit, s, l, id);
  }

  class SqsOrderConsumer {
    const queue: Queue
    const store: PostgresOrderStore
    const fleet: Fleet
    const w: nat   // which of the workers this one is

    constructor (queue: Queue, store: PostgresOrderStore, fleet: Fleet, w: nat)
      ensures this.queue == queue && this.store == store && this.fleet == fleet && this.w == w
    {
      this.queue := queue;
      this.store := store;
      this.fleet := fleet;
      this.w := w;
    }

    function State(): State
      reads queue, store, fleet
    {
      SqsProtocol.State(store.Rows(), queue.msgs, fleet.workers)
    }

    ghost predicate Valid()
      reads queue, store, fleet
    {
      w < |fleet.workers| && Safe(queue.limit, State())
    }

    function Me(): Worker
      requires w < |fleet.workers|
      reads fleet
    {
      fleet.workers[w]
    }

    ghost predicate Receivable(msgs: seq<Message>, pick: nat) {
      pick < |msgs| && msgs[pick].place.Visible? && msgs[pick].receives < queue.limit
    }

    /** What the others do between two calls of this worker; a step that is not possible does not happen. */
    method Elsewhere(labels: seq<Label>, ghost oracle: nat -> Fault, m: nat, id: EventId, ghost s: State,
                     ghost before: seq<Label>)
      returns (ghost steps: seq<Label>)
      requires Valid() && Trail(queue.limit, w, oracle, s, before, State())
      requires forall l :: l in labels ==> Foreign(l, w)
      modifies queue, store, fleet
      ensures Valid() && Kept(old(State()), State(), w, m, id)
      ensures State() == Exec(queue.limit, old(State()), labels)
      ensures labels == [] ==> State() == old(State())
      ensures Trail(queue.limit, w, oracle, s, steps, State())
      ensures before <= steps && (Undeleted(w, before) ==> Undeleted(w, steps))
    {
      hide Trail, Safe, Undeleted;
      steps := before;
      ghost var first := State();
      for i := 0 to |labels|
        invariant Valid() && Kept(first, State(), w, m, id)
        invariant State() == Exec(queue.limit, first, labels[..i])
        invariant Trail(queue.limit, w, oracle, s, steps, State())
        invariant before <= steps && (Undeleted(w, before) ==> Undeleted(w, steps))
      {
        hide Enabled;
        var l := labels[i];
        assert l in labels && labels[..i + 1][..i] == labels[..i];
        var now := State();
        if Enabled(queue.limit, now, l) {
          ForeignKeeps(queue.limit, now, l, w, m, id);
          SafeStep(queue.limit, now, l);
          TrailSnoc(queue.limit, w, oracle, s, steps, now, l);
          var next := Step(queue.limit, now, l);
          store.orders, store.events := next.db.orders, next.db.events;
          queue.msgs := next.msgs;
          fleet.workers := next.workers;
          assert State() == next;
          steps := steps + [l];
        }
      }
      assert labels[..|labels|] == labels;
    }

    /** This worker's own step has been made. */
    lemma Record(l: Label, oracle: nat -> Fault, s: State, was: State, before: seq<Label>)
      returns (steps: seq<Label>)
      requires w < |was.workers| && Safe(queue.limit, was) && Trail(queue.limit, w, oracle, s, before, was)
      requires Enabled(queue.limit, was, l) && Dictated(w, oracle, l) && State() == Step(queue.limit, was, l)
      ensures Valid() && Trail(queue.limit, w, oracle, s, steps, State()) && steps == before + [l]
      ensures Undeleted(w, before) && !l.Delete? ==> Undeleted(w, steps)
    {
      hide Trail, Safe;
      SafeStep(queue.limit, was, l);
      WorkersKept(queue.limit, was, l);
      TrailSnoc(queue.limit, w, oracle, s, before, was, l);
      steps := before + [l];
    }

    /** The store call: the claim, and the read of the status when the claim was already there. */
    method CallStore(e: OrderEvent, oracle: nat -> Fault, ghost s: State, ghost before: seq<Label>)
      returns (r: StoreReply, ghost steps: seq<Label>)
      requires Valid() && Trail(queue.limit, w, oracle, s, before, State())
      requires AtStage(State(), w, Claiming) && queue.msgs[Me().msg].body == Order(e)
      modifies store, fleet
      ensures Valid() && Trail(queue.limit, w, oracle, s, steps, State())
      ensures before <= steps && (Undeleted(w, before) ==> Undeleted(w, steps))
      ensures before + [Claim(w, oracle(0))] <= steps
      ensures queue.msgs == old(queue.msgs)
      ensures r.Stored? <==> oracle(0).Calm? && Acceptable(old(store.Rows()), Order(e))
      ensures r.Stored? ==> (r.downstreamRequired <==> !IsCompleted(old(store.Rows()), e.eventId))
      ensures if r.Stored? then
                && Me() == old(Me()).(stage := if r.downstreamRequired then Marking else Deleting)
                && e.eventId in store.events
                && (!r.downstreamRequired ==> IsCompleted(store.Rows(), e.eventId))
              else Me() == Idle
    {
      hide Trail, Undeleted, Safe;
      var fault := oracle(0);
      ghost var s0 := State();
      var mine, known := Me(), e.eventId in store.events;
      r := store.Store(e, fault);
      var next := if !r.Stored? then None else Some(if known then ReadingStatus else Marking);
      fleet.workers := fleet.workers[w := GoOn(mine, next)];
      assert State() == Step(queue.limit, s0, Claim(w, fault));
      steps := Record(Claim(w, fault), oracle, s, s0, before);
      if fault.Calm? && known {
        ghost var s1 := State();
        fleet.workers := fleet.workers[w := mine.(stage := if r.downstreamRequired then Marking else Deleting)];
        assert State() == Step(queue.limit, s1, ReadStatus(w, Calm));
        steps := Record(ReadStatus(w, Calm), oracle, s, s1, steps);
      }
    }

    method CallMark(e: OrderEvent, oracle: nat -> Fault, ghost s: State, ghost before: seq<Label>)
      returns (ok: bool, ghost steps: seq<Label>)
      requires Valid() && Trail(queue.limit, w, oracle, s, before, State())
      requires AtStage(State(), w, Marking) && queue.msgs[Me().msg].body == Order(e)
      requires e.eventId in store.events
      modifies store, fleet
      ensures Valid() && Trail(queue.limit, w, oracle, s, steps, State())
      ensures before <= steps && (Undeleted(w, before) ==> Undeleted(w, steps))
      ensures queue.msgs == old(queue.msgs)
      ensures ok <==> oracle(1).Calm?
      ensures if ok then Me() == old(Me()).(stage := Deleting) && IsCompleted(store.Rows(), e.eventId) else Me() == Idle
    {
      hide Trail, Undeleted, Safe;
      var fault := oracle(1);
      ghost var s0 := State();
      var mine := Me();
      var r := store.MarkCompleted(e.eventId, fault);
      ok := r.Updated?;
      fleet.workers := fleet.workers[w := GoOn(mine, if ok then Some(Deleting) else None)];
      assert State() == Step(queue.limit, s0, Mark(w, fault));
      steps := Record(Mark(w, fault), oracle, s, s0, before);
    }

    method CallDelete(handle: nat, oracle: nat -> Fault, staleHonoured: bool, ghost s: State, ghost before: seq<Label>)
      returns (ok: bool, ghost steps: seq<Label>)
      requires Valid() && Trail(queue.limit, w, oracle, s, before, State()) && Undeleted(w, before)
      requires AtStage(State(), w, Deleting) && Me().handle == handle
      modifies queue, fleet
      ensures Valid() && Trail(queue.limit, w, oracle, s, steps, State()) && Me() == Idle
      ensures before <= steps && Delete(w, oracle(2), staleHonoured) in steps
      ensures forall l :: l in steps && l.Delete? && l.w == w ==> l.fault == oracle(2)
      ensures ok <==> oracle(2).Calm?
      ensures
        var m := old(Me()).msg;
        && m < |queue.msgs| == |old(queue.msgs)|
        && queue.msgs[m].body == old(queue.msgs)[m].body && queue.msgs[m].receives == old(queue.msgs)[m].receives
        && (ok && old(queue.msgs)[m].place.InFlight? && old(queue.msgs)[m].receives == handle ==> queue.msgs[m].place.Deleted?)
        && (ok ==> queue.msgs[m].place.Deleted? || queue.msgs[m].place.DeadLettered? || handle < queue.msgs[m].receives)
    {
      hide Trail, Safe;
      var fault := oracle(2);
      ghost var s0 := State();
      var m := Me().msg;
      assert handle <= queue.msgs[m].receives by { HandleIsNoNewer(queue.limit, s0, w); }
      ok := queue.DeleteMessage(m, handle, fault, staleHonoured);
      fleet.workers := fleet.workers[w := Idle];
      assert State() == Step(queue.limit, s0, Delete(w, fault, staleHonoured));
      steps := Record(Delete(w, fault, staleHonoured), oracle, s, s0, before);
    }

    method CallReceive(pick: nat, ghost oracle: nat -> Fault) returns (handle: Option<nat>, ghost steps: seq<Label>)
      requires Valid() && Me() == Idle
      modifies queue, fleet
      ensures Valid() && Trail(queue.limit, w, oracle, old(State()), steps, State()) && Undeleted(w, steps)
      ensures handle.Some? <==> Receivable(old(queue.msgs), pick)
      ensures handle.None? ==> Me() == Idle && steps == []
      ensures handle.Some? ==>
                && steps != [] && steps[0] == Receive(w, pick)
                && pick < |queue.msgs|
                && handle.value == queue.msgs[pick].receives == old(queue.msgs)[pick].receives + 1
                && queue.msgs[pick].place.InFlight? && queue.msgs[pick].body == old(queue.msgs)[pick].body
                && Me() == if queue.msgs[pick].body.Order? then Holding(pick, handle.value, Claiming) else Idle
    {
      ghost var s := State();
      steps := [];
      handle := queue.ReceiveMessage(pick);
      if handle.Some? {
        hide Safe;
        fleet.workers := fleet.workers[w := Holding(pick, handle.value, Received)];
        ghost var s1 := State();
        assert s1 == Step(queue.limit, s, Receive(w, pick));
        steps := Record(Receive(w, pick), oracle, s, s, steps);
        fleet.workers := fleet.workers[w := GoOn(Me(), if queue.msgs[pick].body.Order? then Some(Claiming) else None)];
        assert State() == Step(queue.limit, s1, Parse(w));
        steps := Record(Parse(w), oracle, s, s1, steps);
      }
    }

    /** The tables that the store call of the steps found. */
    ghost predicate FoundAt(s: State, steps: seq<Label>, oracle: nat -> Fault, found: Tables) {
      exists i: nat :: i < |steps| && steps[i] == Claim(w, oracle(0)) && Exec(queue.limit, s, steps[..i]).db == found
    }

    /** Store and mark_completed, the others acting before each. */
    method CallEffects(e: OrderEvent, oracle: nat -> Fault, elsewhere: nat -> seq<Label>, ghost s: State,
                       ghost before: seq<Label>)
      returns (ok: bool, ghost steps: seq<Label>, ghost found: Tables)
      requires Valid() && Trail(queue.limit, w, oracle, s, before, State())
      requires forall i, l :: l in elsewhere(i) ==> Foreign(l, w)
      requires AtStage(State(), w, Claiming) && queue.msgs[Me().msg].body == Order(e)
      modifies queue, store, fleet
      ensures Valid() && Trail(queue.limit, w, oracle, s, steps, State())
      ensures before <= steps && (Undeleted(w, before) ==> Undeleted(w, steps))
      ensures Preserves(old(State()), State(), old(Me()).msg)
      ensures FoundAt(s, steps, oracle, found)
      ensures ok <==>
                && oracle(0).Calm? && Acceptable(found, Order(e))
                && (IsCompleted(found, e.eventId) || oracle(1).Calm?)
      ensures elsewhere(0) == [] ==> found == old(store.Rows())
      ensures elsewhere(0) == [] && elsewhere(1) == [] ==> queue.msgs == old(queue.msgs)
      ensures if ok then Me() == old(Me()).(stage := Deleting) && IsCompleted(store.Rows(), e.eventId) else Me() == Idle
    {
      hide Trail, Undeleted, Safe, FoundAt, Refuses, Exec;
      var result;
      var m := Me().msg;
      steps := Elsewhere(elsewhere(0), oracle, m, e.eventId, s, before);
      found := store.Rows();
      ghost var prefix := steps;
      TrailEnds(queue.limit, w, oracle, s, prefix, State());
      result, steps := CallStore(e, oracle, s, steps);
      FoundNow(s, prefix, steps, oracle, found);
      ghost var claimed := steps;
      ok := result.Stored?;
      if ok && result.downstreamRequired {
        steps := Elsewhere(elsewhere(1), oracle, m, e.eventId, s, steps);
        ok, steps := CallMark(e, oracle, s, steps);
      }
      FoundStays(s, claimed, steps, oracle, found);
    }

    lemma FoundNow(s: State, prefix: seq<Label>, steps: seq<Label>, oracle: nat -> Fault, found: Tables)
      requires prefix + [Claim(w, oracle(0))] <= steps && Exec(queue.limit, s, prefix).db == found
      ensures FoundAt(s, steps, oracle, found)
    {
      assert steps[..|prefix|] == prefix && steps[|prefix|] == Claim(w, oracle(0));
    }

    lemma FoundStays(s: State, before: seq<Label>, steps: seq<Label>, oracle: nat -> Fault, found: Tables)
      requires FoundAt(s, before, oracle, found) && before <= steps
      ensures FoundAt(s, steps, oracle, found)
    {
      var i: nat :| i < |before| && before[i] == Claim(w, oracle(0)) && Exec(queue.limit, s, before[..i]).db == found;
      assert before[..i] == steps[..i];
    }

    /**
     Receive, parse, store, mark, and only then delete; any exception leaves the message to its visibility timeout.
     `elsewhere(i)` is what the others do before the i-th of the calls store, mark_completed and delete_message.
     */
    method ProcessOne(pick: nat, oracle: nat -> Fault, elsewhere: nat -> seq<Label>, staleHonoured: bool)
      returns (r: Outcome, ghost steps: seq<Label>, ghost found: Tables)
      requires Valid() && Me() == Idle
      requires forall i, l :: l in elsewhere(i) ==> Foreign(l, w)
      modifies queue, store, fleet
      ensures Valid() && Me() == Idle && Trail(queue.limit, w, oracle, old(State()), steps, State())
      ensures if Receivable(old(queue.msgs), pick) then steps != [] && steps[0] == Receive(w, pick) else steps == []
      ensures r.NoMessage? <==> steps == []
      ensures r.Processed? <==>
                && Receivable(old(queue.msgs), pick)
                && oracle(0).Calm? && Acceptable(found, old(queue.msgs)[pick].body)
                && (IsCompleted(found, old(queue.msgs)[pick].body.event.eventId) || oracle(1).Calm?)
                && oracle(2).Calm?
      ensures Receivable(old(queue.msgs), pick) && old(queue.msgs)[pick].body.Order? ==>
                FoundAt(old(State()), steps, oracle, found)
      ensures (forall i :: elsewhere(i) == []) ==>
                && found == old(store.Rows())
                && (r.Processed? ==> pick < |queue.msgs| && queue.msgs[pick].place.Deleted?)
      ensures r.Processed? <==> exists l :: l in steps && l.Delete? && l.w == w && l.fault == Calm
      ensures r.Processed? ==>
                && pick < |queue.msgs|
                && queue.msgs[pick].body.Order?
                && queue.msgs[pick].body == old(queue.msgs)[pick].body
                && r.eventId == queue.msgs[pick].body.event.eventId
                && IsCompleted(store.Rows(), r.eventId)
                && (queue.msgs[pick].place.Deleted? || queue.msgs[pick].place.DeadLettered?
                    || old(queue.msgs)[pick].receives + 1 < queue.msgs[pick].receives)
    {
      hide Trail, Safe, FoundAt, Exec;
      ghost var s := State();
      var handle;
      handle, steps := CallReceive(pick, oracle);
      found := store.Rows();
      if handle.None? {
        return NoMessage, steps, found;
      }
      var body := queue.msgs[pick].body;
      if body.Malformed? {
        return Raised, steps, found;
      }
      var done;
      done, steps, found := CallEffects(body.event, oracle, elsewhere, s, steps);
      if !done {
        return Raised, steps, found;
      }
      ghost var before := steps;
      steps := Elsewhere(elsewhere(2), oracle, pick, body.event.eventId, s, steps);
      done, steps := CallDelete(handle.value, oracle, staleHonoured, s, steps);
      FoundStays(s, before, steps, oracle, found);
      r := if done then Processed(body.event.eventId) else Raised;
    }
  }

  lemma WorkersKept(limit: nat, s: State, l: Label)
    ensures |Step(limit, s, l).workers| == |s.workers|
  {
  }

  lemma HandleIsNoNewer(limit: nat, s: State, w: nat)
    requires Safe(limit, s) && w < |s.workers| && s.workers[w].Holding?
    ensures s.workers[w].msg < |s.msgs| && s.workers[w].handle <= s.msgs[s.workers[w].msg].receives
  {
    assert WorkerFacts(s.db, s.msgs, s.workers[w]);
  }
}
