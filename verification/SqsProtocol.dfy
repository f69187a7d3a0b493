/**
 Competing SQS workers over one queue and one database, as a transition system. Visibility may expire in the middle of
 a call, a receipt handle may be stale, any call may raise, and any worker may stop between two calls. `store` is two
 steps when the claim already exists: the insert that does nothing, then the read of the status in a later snapshot.
 */
module SqsProtocol {
  import opened OrderEvents
  import opened OrderTables

  datatype Place = Visible | InFlight | DeadLettered | Deleted

  /** A sent message, known by its index; `receives` is its receive count and numbers its receipt handles. */
  datatype Message = Message(body: Body, receives: nat, place: Place)

  datatype Stage = Received | Claiming | ReadingStatus | Marking | Deleting

  datatype Worker = Idle | Holding(msg: nat, handle: nat, stage: Stage)

  datatype State = State(db: Tables, msgs: seq<Message>, workers: seq<Worker>)

  datatype Label =
    | Send(body: Body)
    | Receive(w: nat, m: nat)
    | Redrive(m: nat)
    | Expire(m: nat)
    | Parse(w: nat)
    | Claim(w: nat, fault: Fault)
    | ReadStatus(w: nat, fault: Fault)
    | Mark(w: nat, fault: Fault)
    | Delete(w: nat, fault: Fault, staleHonoured: bool)
    | Stop(w: nat)

  function BodyOf(s: State, m: nat): Body {
    if m < |s.msgs| then s.msgs[m].body else Malformed("")
  }

  predicate AtStage(s: State, w: nat, stage: Stage) {
    w < |s.workers| && s.workers[w].Holding? && s.workers[w].stage == stage && s.workers[w].msg < |s.msgs|
  }

  predicate HoldsEvent(s: State, w: nat) {
    w < |s.workers| && s.workers[w].Holding? && BodyOf(s, s.workers[w].msg).Order?
  }

  /** `limit` is the redrive policy's maxReceiveCount. */
  predicate Enabled(limit: nat, s: State, l: Label) {
    match l
    case Send(_) => true
    case Receive(w, m) =>
      w < |s.workers| && s.workers[w].Idle? && m < |s.msgs| && s.msgs[m].place.Visible? && s.msgs[m].receives < limit
    case Redrive(m) => m < |s.msgs| && s.msgs[m].place.Visible? && s.msgs[m].receives >= limit
    case Expire(m) => m < |s.msgs| && s.msgs[m].place.InFlight?
    case Parse(w) => AtStage(s, w, Received)
    case Claim(w, _) => AtStage(s, w, Claiming) && HoldsEvent(s, w)
    case ReadStatus(w, _) => AtStage(s, w, ReadingStatus) && HoldsEvent(s, w)
    case Mark(w, _) => AtStage(s, w, Marking) && HoldsEvent(s, w)
    case Delete(w, _, _) => AtStage(s, w, Deleting)
    case Stop(w) => w < |s.workers| && s.workers[w].Holding?
  }

  function SetMsg(s: State, m: nat, msg: Message): State
    requires m < |s.msgs|
  {
    s.(msgs := s.msgs[m := msg])
  }

  function SetWorker(s: State, w: nat, worker: Worker): State
    requires w < |s.workers|
  {
    s.(workers := s.workers[w := worker])
  }

  function AfterClaim(t: Tables, e: OrderEvent, f: Fault): Option<Stage> {
    if f.Raise? then None
    else if e.eventId in t.events then Some(ReadingStatus)
    else if Refuses(t, e) then None
    else Some(Marking)
  }

  function AfterReadStatus(t: Tables, e: OrderEvent, f: Fault): Option<Stage> {
    if f.Raise? || e.eventId !in t.events then None
    else if t.events[e.eventId] == Completed then Some(Deleting)
    else Some(Marking)
  }

  function AfterMark(t: Tables, e: OrderEvent, f: Fault): Option<Stage> {
    if f.Raise? || e.eventId !in t.events then None else Some(Deleting)
  }

  /** An exception ends the call; the message stays in flight until its visibility expires. */
  function GoOn(worker: Worker, next: Option<Stage>): Worker
    requires worker.Holding?
  {
    if next.Some? then worker.(stage := next.value) else Idle
  }

  /** The newest handle always deletes; a stale one may or may not; a message already gone stays gone. */
  predicate Deletes(s: State, worker: Worker, f: Fault, staleHonoured: bool)
    requires worker.Holding? && worker.msg < |s.msgs|
  {
    && (f.Calm? || f.applied)
    && (worker.handle == s.msgs[worker.msg].receives || staleHonoured)
    && (s.msgs[worker.msg].place.Visible? || s.msgs[worker.msg].place.InFlight?)
  }

  function TxOf(limit: nat, s: State, l: Label): Tx {
    if !Enabled(limit, s, l) then Untouched
    else
      match l
      case Claim(w, f) => if f.Raise? && !f.applied then Untouched else StoreOf(BodyOf(s, s.workers[w].msg).event)
      case Mark(w, f) => if f.Raise? && !f.applied then Untouched else MarkOf(BodyOf(s, s.workers[w].msg).event.eventId)
      case _ => Untouched
  }

  function QueueStep(limit: nat, s: State, l: Label): State
    requires Enabled(limit, s, l)
  {
    match l
    case Send(body) => s.(msgs := s.msgs + [Message(body, 0, Visible)])
    case Receive(w, m) =>
      var msg := s.msgs[m].(receives := s.msgs[m].receives + 1, place := InFlight);
      SetWorker(SetMsg(s, m, msg), w, Holding(m, msg.receives, Received))
    case Redrive(m) => SetMsg(s, m, s.msgs[m].(place := DeadLettered))
    case Expire(m) => SetMsg(s, m, s.msgs[m].(place := Visible))
    case Parse(w) =>
      SetWorker(s, w, GoOn(s.workers[w], if BodyOf(s, s.workers[w].msg).Order? then Some(Claiming) else None))
    case Claim(w, f) =>
      SetWorker(s, w, GoOn(s.workers[w], AfterClaim(s.db, BodyOf(s, s.workers[w].msg).event, f)))
    case ReadStatus(w, f) =>
      SetWorker(s, w, GoOn(s.workers[w], AfterReadStatus(s.db, BodyOf(s, s.workers[w].msg).event, f)))
    case Mark(w, f) =>
      SetWorker(s, w, GoOn(s.workers[w], AfterMark(s.db, BodyOf(s, s.workers[w].msg).event, f)))
    case Delete(w, f, staleHonoured) =>
      var worker := s.workers[w];
      var s' := if Deletes(s, worker, f, staleHonoured)
                then SetMsg(s, worker.msg, s.msgs[worker.msg].(place := Deleted)) else s;
      SetWorker(s', w, Idle)
    case Stop(w) => SetWorker(s, w, Idle)
  }

  /** The effect of a step; a label that is not enabled changes nothing. */
  function Step(limit: nat, s: State, l: Label): State {
    if !Enabled(limit, s, l) then s else QueueStep(limit, s, l).(db := Apply(s.db, TxOf(limit, s, l)))
  }

  function Exec(limit: nat, s: State, trace: seq<Label>): State {
    if trace == [] then s else Step(limit, Exec(limit, s, trace[..|trace| - 1]), trace[|trace| - 1])
  }

  predicate IsRun(limit: nat, s: State, trace: seq<Label>) {
    trace == [] ||
    (IsRun(limit, s, trace[..|trace| - 1]) && Enabled(limit, Exec(limit, s, trace[..|trace| - 1]), trace[|trace| - 1]))
  }

  /** An empty queue, empty tables and n idle workers. */
  function Initial(n: nat): State {
    State(EMPTY, [], seq(n, _ => Idle))
  }
}
