/**
 Concurrent API requests on one shared Kafka producer. Each request enqueues its own record with its own delivery
 callback; any thread's flush may serve anyone's callback, and the broker may append, reject, or append and still
 report an error. A request is answered 202 only on its own delivery report. A flush returns how many records of all
 requests still wait for their report; that the own report is then read as one step with it is no restriction, for
 when none waits the own report has been served, and otherwise the request is refused anyway.
 */
module OrderPublisher {
  import opened OrderEvents

  datatype Receipt = Receipt(partition: nat, offset: nat)

  datatype Response = Accepted(receipt: Receipt) | Unavailable

  /**
   One request: whether its record was handed to the producer, its place in the log once appended, and the lists its
   delivery callback fills.
   */
  datatype Request = Request(
    event: OrderEvent,
    enqueued: bool,
    appended: Option<Receipt>,
    reported: bool,
    delivered: seq<Receipt>,
    errors: nat,
    response: Option<Response>)

  datatype State = State(logs: seq<seq<Record>>, requests: seq<Request>)

  datatype Label =
    | Produce(event: OrderEvent)
    | ProduceRaises(event: OrderEvent)
    | Append(r: nat)
    | Report(r: nat, error: bool)
    | FlushReturns(r: nat)
    | FlushRaises(r: nat)

  /** The record of an event: keyed by its order ID. */
  function RecordOf(e: OrderEvent): Record {
    Record(Some(e.orderId), Order(e))
  }

  /** No record left in the queue, no error, exactly one delivery report. */
  predicate Acknowledged(undelivered: nat, errors: nat, delivered: seq<Receipt>) {
    undelivered == 0 && errors == 0 && |delivered| == 1
  }

  function Answer(undelivered: nat, errors: nat, delivered: seq<Receipt>): Response {
    if Acknowledged(undelivered, errors, delivered) then Accepted(delivered[0]) else Unavailable
  }

  /** What a flush returns: the records of all requests that are enqueued and whose callback has not been served. */
  function Queued(requests: seq<Request>): nat {
    if requests == [] then 0
    else Queued(requests[..|requests| - 1]) + if InQueue(requests[|requests| - 1]) then 1 else 0
  }

  predicate InQueue(q: Request) {
    q.enqueued && !q.reported
  }

  predicate Enabled(place: OrderId -> nat, s: State, l: Label) {
    match l
    case Produce(_) => true
    case ProduceRaises(_) => true
    case Append(r) =>
      && r < |s.requests| && s.requests[r].enqueued && s.requests[r].appended.None?
      && place(s.requests[r].event.orderId) < |s.logs|
    case Report(r, error) =>
      && r < |s.requests| && s.requests[r].enqueued && !s.requests[r].reported
      && (!error ==> s.requests[r].appended.Some?)
    case FlushReturns(r) => r < |s.requests| && s.requests[r].response.None?
    case FlushRaises(r) => r < |s.requests| && s.requests[r].response.None?
  }

  function Step(place: OrderId -> nat, s: State, l: Label): State {
    if !Enabled(place, s, l) then s
    else
      match l
      case Produce(e) => s.(requests := s.requests + [Request(e, true, None, false, [], 0, None)])
      case ProduceRaises(e) => s.(requests := s.requests + [Request(e, false, None, false, [], 0, Some(Unavailable))])
      case Append(r) =>
        var q := s.requests[r];
        var p := place(q.event.orderId);
        State(
          s.logs[p := s.logs[p] + [RecordOf(q.event)]],
          s.requests[r := q.(appended := Some(Receipt(p, |s.logs[p]|)))])
      case Report(r, error) =>
        var q := s.requests[r].(reported := true);
        s.(requests := s.requests[r := if error then q.(errors := q.errors + 1)
                                       else q.(delivered := q.delivered + [q.appended.value])])
      case FlushReturns(r) =>
        var q := s.requests[r];
        s.(requests := s.requests[r := q.(response := Some(Answer(Queued(s.requests), q.errors, q.delivered)))])
      case FlushRaises(r) => s.(requests := s.requests[r := s.requests[r].(response := Some(Unavailable))])
  }

  function Exec(place: OrderId -> nat, s: State, trace: seq<Label>): State {
    if trace == [] then s else Step(place, Exec(place, s, trace[..|trace| - 1]), trace[|trace| - 1])
  }

  function Initial(partitions: nat): State {
    State(seq(partitions, _ => []), [])
  }

  lemma ExecSnoc(place: OrderId -> nat, s: State, trace: seq<Label>, l: Label)
    ensures Exec(place, s, trace + [l]) == Step(place, Exec(place, s, trace), l)
  {
    assert (trace + [l])[..|trace|] == trace;
  }

  /** The request's own record, under its order ID, at the receipt's place in the log. */
  predicate InLog(place: OrderId -> nat, logs: seq<seq<Record>>, e: OrderEvent, at: Receipt) {
    && at.partition == place(e.orderId) < |logs|
    && at.offset < |logs[at.partition]|
    && logs[at.partition][at.offset] == RecordOf(e)
  }

  ghost predicate Honest(place: OrderId -> nat, s: State, q: Request) {
    && (q.appended.Some? ==> InLog(place, s.logs, q.event, q.appended.value))
    && (forall at :: at in q.delivered ==> q.appended == Some(at))
    && |q.delivered| + q.errors == (if q.reported then 1 else 0)
    && (q.response.None? ==> q.enqueued)
    && (q.response.Some? && q.response.value.Accepted? ==> q.appended == Some(q.response.value.receipt) && q.reported)
  }

  ghost predicate AllHonest(place: OrderId -> nat, s: State) {
    forall r :: 0 <= r < |s.requests| ==> Honest(place, s, s.requests[r])
  }

  predicate LogsGrow(logs: seq<seq<Record>>, logs': seq<seq<Record>>) {
    |logs| == |logs'| && forall p :: 0 <= p < |logs| ==> logs[p] <= logs'[p]
  }

  lemma LogsGrowStep(place: OrderId -> nat, s: State, l: Label)
    ensures LogsGrow(s.logs, Step(place, s, l).logs)
  {
  }

  lemma StaysInLog(place: OrderId -> nat, logs: seq<seq<Record>>, logs': seq<seq<Record>>, e: OrderEvent, at: Receipt)
    requires LogsGrow(logs, logs') && InLog(place, logs, e, at)
    ensures InLog(place, logs', e, at)
  {
    assert logs[at.partition] <= logs'[at.partition];
  }

  lemma HonestRequestStep(place: OrderId -> nat, s: State, l: Label, r: nat)
    requires r < |s.requests| && Honest(place, s, s.requests[r])
    ensures r < |Step(place, s, l).requests| && Honest(place, Step(place, s, l), Step(place, s, l).requests[r])
  {
    LogsGrowStep(place, s, l);
    var q := s.requests[r];
    if q.appended.Some? {
      StaysInLog(place, s.logs, Step(place, s, l).logs, q.event, q.appended.value);
    }
  }

  lemma HonestStep(place: OrderId -> nat, s: State, l: Label)
    requires AllHonest(place, s)
    ensures AllHonest(place, Step(place, s, l))
  {
    var s' := Step(place, s, l);
    forall r | 0 <= r < |s'.requests| ensures Honest(place, s', s'.requests[r]) {
      if r < |s.requests| {
        assert Honest(place, s, s.requests[r]);
        HonestRequestStep(place, s, l, r);
      }
    }
  }

  lemma {:induction false} HonestAlways(place: OrderId -> nat, partitions: nat, trace: seq<Label>)
    ensures AllHonest(place, Exec(place, Initial(partitions), trace))
    decreases |trace|
  {
    if trace != [] {
      HonestAlways(place, partitions, trace[..|trace| - 1]);
      HonestStep(place, Exec(place, Initial(partitions), trace[..|trace| - 1]), trace[|trace| - 1]);
    }
  }

  lemma {:induction false} LogsOnlyGrow(place: OrderId -> nat, s: State, more: seq<Label>)
    ensures LogsGrow(s.logs, Exec(place, s, more).logs)
    decreases |more|
  {
    if more != [] {
      var init := more[..|more| - 1];
      LogsOnlyGrow(place, s, init);
      LogsGrowStep(place, Exec(place, s, init), more[|more| - 1]);
      var logs, mid, logs' := s.logs, Exec(place, s, init).logs, Exec(place, s, more).logs;
      forall p | 0 <= p < |logs| ensures logs[p] <= logs'[p] {
        assert logs[p] <= mid[p] <= logs'[p];
      }
    }
  }

  /** A 202 means the request's own record is in the log under its order-ID key, and it stays there. */
  lemma AcceptedIsLogged(place: OrderId -> nat, partitions: nat, trace: seq<Label>, more: seq<Label>, r: nat)
    requires
      var s := Exec(place, Initial(partitions), trace);
      r < |s.requests| && s.requests[r].response.Some? && s.requests[r].response.value.Accepted?
    ensures
      var s := Exec(place, Initial(partitions), trace);
      InLog(place, Exec(place, s, more).logs, s.requests[r].event, s.requests[r].response.value.receipt)
  {
    HonestAlways(place, partitions, trace);
    var s := Exec(place, Initial(partitions), trace);
    assert Honest(place, s, s.requests[r]);
    LogsOnlyGrow(place, s, more);
    StaysInLog(place, s.logs, Exec(place, s, more).logs, s.requests[r].event, s.requests[r].response.value.receipt);
  }

  // ---------- When a request is refused ----------

  lemma {:induction false} QueuedCounts(requests: seq<Request>)
    ensures Queued(requests) == 0 <==> forall i :: 0 <= i < |requests| ==> !InQueue(requests[i])
    decreases |requests|
  {
    if requests != [] {
      var init := requests[..|requests| - 1];
      QueuedCounts(init);
      assert forall i :: 0 <= i < |init| ==> init[i] == requests[i];
    }
  }

  /** The record of another request still waits for its delivery report. */
  predicate OthersQueued(s: State, r: nat) {
    exists i :: 0 <= i < |s.requests| && i != r && InQueue(s.requests[i])
  }

  /**
   The answer of a flush that ends, in every reachable state: 503 exactly if the flush raises, the own report is
   missing or an error, or another request's record is queued. Whether the own record has been appended plays no part.
   */
  lemma RefusedIff(place: OrderId -> nat, partitions: nat, trace: seq<Label>, l: Label, r: nat)
    requires l == FlushReturns(r) || l == FlushRaises(r)
    requires Enabled(place, Exec(place, Initial(partitions), trace), l)
    ensures
      var s := Exec(place, Initial(partitions), trace);
      var q := s.requests[r];
      Step(place, s, l).requests[r].response == Some(Unavailable) <==>
        l.FlushRaises? || !q.reported || q.errors > 0 || OthersQueued(s, r)
  {
    HonestAlways(place, partitions, trace);
    hide Exec, AllHonest, Step, Enabled;
    RefusedAt(place, Exec(place, Initial(partitions), trace), l, r);
  }

  lemma RefusedAt(place: OrderId -> nat, s: State, l: Label, r: nat)
    requires AllHonest(place, s) && (l == FlushReturns(r) || l == FlushRaises(r)) && Enabled(place, s, l)
    ensures
      var q := s.requests[r];
      && Honest(place, s, q)
      && (Step(place, s, l).requests[r].response == Some(Unavailable) <==>
            l.FlushRaises? || !q.reported || q.errors > 0 || OthersQueued(s, r))
  {
    assert Honest(place, s, s.requests[r]);
    QueuedCounts(s.requests);
    hide Queued, InLog;
  }

  /** A returned flush refuses a request whose own record was delivered exactly because of another request's record. */
  lemma DeliveredButRefusedIff(place: OrderId -> nat, partitions: nat, trace: seq<Label>, r: nat)
    requires Enabled(place, Exec(place, Initial(partitions), trace), FlushReturns(r))
    ensures
      var s := Exec(place, Initial(partitions), trace);
      var q := s.requests[r];
      |q.delivered| == 1 && q.errors == 0 ==>
        && InLog(place, s.logs, q.event, q.delivered[0])
        && (Step(place, s, FlushReturns(r)).requests[r].response == Some(Unavailable) <==> OthersQueued(s, r))
  {
    HonestAlways(place, partitions, trace);
    var s := Exec(place, Initial(partitions), trace);
    hide Exec, AllHonest, Step, OthersQueued;
    RefusedAt(place, s, FlushReturns(r), r);
    assert s.requests[r].delivered != [] ==> s.requests[r].delivered[0] in s.requests[r].delivered;
  }

  /** It happens: the own record is logged and reported, and the request of another thread keeps the queue filled. */
  lemma LoggedButUnavailable(place: OrderId -> nat, partitions: nat, e: OrderEvent, f: OrderEvent)
    requires place(e.orderId) < partitions
    ensures
      var s := Exec(place, Initial(partitions),
                    [Produce(e), Produce(f), Append(0), Report(0, false), FlushReturns(0)]);
      && |s.requests| == 2
      && s.requests[0].response == Some(Unavailable)
      && s.requests[0].errors == 0 && |s.requests[0].delivered| == 1
      && InLog(place, s.logs, e, s.requests[0].delivered[0])
  {
    var s := Initial(partitions);
    ExecSnoc(place, s, [], Produce(e));
    assert [] + [Produce(e)] == [Produce(e)];
    ExecSnoc(place, s, [Produce(e)], Produce(f));
    assert [Produce(e)] + [Produce(f)] == [Produce(e), Produce(f)];
    ExecSnoc(place, s, [Produce(e), Produce(f)], Append(0));
    assert [Produce(e), Produce(f)] + [Append(0)] == [Produce(e), Produce(f), Append(0)];
    ExecSnoc(place, s, [Produce(e), Produce(f), Append(0)], Report(0, false));
    assert [Produce(e), Produce(f), Append(0)] + [Report(0, false)] ==
           [Produce(e), Produce(f), Append(0), Report(0, false)];
    var before := [Produce(e), Produce(f), Append(0), Report(0, false)];
    ExecSnoc(place, s, before, FlushReturns(0));
    assert before + [FlushReturns(0)] == [Produce(e), Produce(f), Append(0), Report(0, false), FlushReturns(0)];
    assert InQueue(Exec(place, s, before).requests[1]);
    DeliveredButRefusedIff(place, partitions, before, 0);
  }

  // ---------- The publisher ----------

  /** Producer, broker and all requests in progress, shared by the API's threads. */
  class KafkaEventPublisher {
    const place: OrderId -> nat
    var producer: State

    constructor (place: OrderId -> nat, partitions: nat)
      ensures this.place == place && producer == Initial(partitions)
    {
      this.place := place;
      producer := Initial(partitions);
    }

    /** The records of a request as far as its callback has told. */
    ghost predicate Told(r: nat, e: OrderEvent, delivered: seq<Receipt>, errors: nat)
      reads this
    {
      && r < |producer.requests|
      && producer.requests[r].event == e
      && producer.requests[r].response == None
      && producer.requests[r].delivered == delivered
      && producer.requests[r].errors == errors
    }

    method Advance(l: Label, ghost s: State, ghost before: seq<Label>) returns (ghost trace: seq<Label>)
      requires AllHonest(place, producer) && producer == Exec(place, s, before)
      modifies this
      ensures AllHonest(place, producer) && producer == Exec(place, s, trace)
      ensures producer == Step(place, old(producer), l) && trace == before + [l]
    {
      ExecSnoc(place, s, before, l);
      HonestStep(place, producer, l);
      trace := before + [l];
      producer := Step(place, producer, l);
    }

    /** How the flush of a request ends. */
    function FlushOf(r: nat, flushRaises: bool): Label {
      if flushRaises then FlushRaises(r) else FlushReturns(r)
    }

    /** What happens while the flush waits, and what this request's callback collects of it. */
    method AwaitReports(r: nat, e: OrderEvent, meanwhile: seq<Label>, ghost s: State, ghost before: seq<Label>)
      returns (delivered: seq<Receipt>, errors: nat, ghost trace: seq<Label>)
      requires AllHonest(place, producer) && producer == Exec(place, s, before)
      requires Told(r, e, [], 0)
      requires forall l :: l in meanwhile && (l.FlushReturns? || l.FlushRaises?) ==> l.r != r
      modifies this
      ensures AllHonest(place, producer) && producer == Exec(place, s, trace) && trace == before + meanwhile
      ensures Told(r, e, delivered, errors)
    {
      hide AllHonest, Exec, Queued;
      delivered, errors, trace := [], 0, before;
      assert before + meanwhile[..0] == before;
      for i := 0 to |meanwhile|
        invariant producer == Exec(place, s, trace) && AllHonest(place, producer)
        invariant Told(r, e, delivered, errors)
        invariant trace == before + meanwhile[..i]
      {
        var l := meanwhile[i];
        assert l in meanwhile;
        if l.Report? && l.r == r && Enabled(place, producer, l) {
          if l.error {
            errors := errors + 1;
          } else {
            delivered := delivered + [producer.requests[r].appended.value];
          }
        }
        trace := Advance(l, s, trace);
        assert before + meanwhile[..i] + [l] == before + meanwhile[..i + 1];
      }
      assert meanwhile[..|meanwhile|] == meanwhile;
    }

    /**
     Produce the event, flush, and judge by the own delivery report. `meanwhile` is everything the broker and the other
     threads do until the flush returns; among it are the calls of this request's callback.
     */
    method PublishOrderCreated(
      e: OrderEvent, produceRaises: bool, meanwhile: seq<Label>, flushRaises: bool)
      returns (response: Response, ghost trace: seq<Label>)
      requires AllHonest(place, producer)
      requires forall l :: l in meanwhile && (l.FlushReturns? || l.FlushRaises?) ==> l.r != |producer.requests|
      modifies this
      ensures AllHonest(place, producer)
      ensures producer == Exec(place, old(producer), trace)
      ensures trace == if produceRaises then [ProduceRaises(e)]
                       else [Produce(e)] + meanwhile + [FlushOf(|old(producer).requests|, flushRaises)]
      ensures
        var r := |old(producer).requests|;
        && r < |producer.requests|
        && producer.requests[r].event == e
        && producer.requests[r].response == Some(response)
      ensures response.Accepted? ==>
                && !produceRaises && !flushRaises
                && InLog(place, producer.logs, e, response.receipt)
    {
      ghost var s := producer;
      var r := |producer.requests|;
      trace := Advance(if produceRaises then ProduceRaises(e) else Produce(e), s, []);
      if produceRaises {
        return Unavailable, trace;
      }
      var delivered, errors;
      delivered, errors, trace := AwaitReports(r, e, meanwhile, s, trace);
      var undelivered := Queued(producer.requests);
      trace := Advance(FlushOf(r, flushRaises), s, trace);
      if flushRaises || undelivered > 0 || errors > 0 || |delivered| != 1 {
        return Unavailable, trace;
      }
      response := Accepted(delivered[0]);
      assert Honest(place, producer, producer.requests[r]);
    }
  }

  datatype HttpReply = HttpReply(status: nat, orderId: Option<OrderId>)

  /** POST /orders: 202 once the publisher returned, 503 when it raised. */
  method CreateOrder(
    publisher: KafkaEventPublisher, e: OrderEvent, produceRaises: bool, meanwhile: seq<Label>, flushRaises: bool)
    returns (reply: HttpReply)
    requires AllHonest(publisher.place, publisher.producer)
    requires forall l :: l in meanwhile && (l.FlushReturns? || l.FlushRaises?) ==> l.r != |publisher.producer.requests|
    modifies publisher
    ensures AllHonest(publisher.place, publisher.producer)
    ensures reply.status == 202 || reply.status == 503
    ensures
      var r := |old(publisher.producer).requests|;
      && r < |publisher.producer.requests|
      && publisher.producer.requests[r].event == e
      && publisher.producer.requests[r].response.Some?
      && (reply.status == 202 <==> publisher.producer.requests[r].response.value.Accepted?)
    ensures reply.status == 202 ==>
              && reply.orderId == Some(e.orderId)
              && exists at :: InLog(publisher.place, publisher.producer.logs, e, at)
    ensures reply.status == 503 ==> reply.orderId == None
  {
    var response, _ := publisher.PublishOrderCreated(e, produceRaises, meanwhile, flushRaises);
    reply := if response.Accepted? then HttpReply(202, Some(e.orderId)) else HttpReply(503, None);
  }
}
