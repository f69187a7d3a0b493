/** What every run of the Kafka protocol keeps, whatever fails and however often the process crashes. */
module KafkaInvariants {
  import opened OrderEvents
  import opened OrderTables
  import opened KafkaProtocol

  /** What the tables look like at each stage of the call in hand. */
  predicate StageFacts(c: Config, db: Tables, call: Call, stage: Stage) {
    var e := EventAt(c, call.offset);
    match stage
    case Fetched => true
    case Storing => e.Some? && 1 <= call.attempts <= c.maxAttempts
    case Notifying => e.Some? && IsPending(db, e.value.eventId) && 1 <= call.attempts <= c.maxAttempts && c.hasDownstream
    case Marking => e.Some? && IsPending(db, e.value.eventId) && 1 <= call.attempts <= c.maxAttempts
    case Discarding(cause) => e.Some? && c.hasDlq && CauseFacts(db, e.value, cause) && 1 <= call.attempts <= c.maxAttempts
    case Publishing(cause) =>
      && c.hasDlq
      && 1 <= call.attempts <= c.maxAttempts
      && (e.Some? ==> e.value.eventId !in db.events)
    case Committing(dead) => dead || (e.Some? && IsCompleted(db, e.value.eventId))
  }

  predicate CauseFacts(db: Tables, e: OrderEvent, cause: Cause) {
    match cause
    case Unparsed => false
    case StoreRefused => Refuses(db, e)
    case StoreFailed => true
    case NotifyFailed => IsPending(db, e.eventId)
    case MarkFailed(applied) => if applied then IsCompleted(db, e.eventId) else IsPending(db, e.eventId)
  }

  predicate Orderly(c: Config, s: State) {
    && s.lane.committed <= |c.log|
    && (!s.lane.pc.Down? ==> s.lane.committed <= s.lane.position <= |c.log|)
    && (s.lane.pc.Busy? ==>
          && s.lane.committed <= s.lane.pc.call.offset
          && s.lane.pc.call.offset + 1 == s.lane.position
          && StageFacts(c, s.db, s.lane.pc.call, s.lane.pc.stage))
    && (s.lane.pc.Raised? && s.lane.pc.inHand.Some? ==> s.lane.pc.inHand.value + 1 == s.lane.position)
  }

  ghost predicate Sound(c: Config, s: State) {
    Matched(s.db) && Orderly(c, s)
  }

  /** Between two calls: subscribing, polling, polling on after an error, and crashing anywhere. */
  lemma OrderlyBetween(c: Config, s: State, l: Label)
    requires c.Valid() && Orderly(c, s) && (l.Start? || l.Poll? || l.PollError? || l.KeepPolling? || l.Crash?)
    ensures Orderly(c, Step(c, s, l))
  {
  }

  lemma OrderlyStore(c: Config, s: State, l: Label)
    requires c.Valid() && Orderly(c, s) && l.Store?
    ensures Orderly(c, Step(c, s, l))
  {
  }

  lemma OrderlyNotify(c: Config, s: State, l: Label)
    requires c.Valid() && Orderly(c, s) && l.Notify?
    ensures Orderly(c, Step(c, s, l))
  {
  }

  lemma OrderlyMark(c: Config, s: State, l: Label)
    requires c.Valid() && Orderly(c, s) && l.Mark?
    ensures Orderly(c, Step(c, s, l))
  {
  }

  /** The ends of a call: parsing, clean-up, publication and commit. */
  lemma OrderlyEnds(c: Config, s: State, l: Label)
    requires c.Valid() && Orderly(c, s) && (l.Parse? || l.Discard? || l.Publish? || l.Commit?)
    ensures Orderly(c, Step(c, s, l))
  {
  }

  lemma OrderlyStep(c: Config, s: State, l: Label)
    requires c.Valid() && Orderly(c, s)
    ensures Orderly(c, Step(c, s, l))
  {
    hide Orderly, Step;
    match l
    case Store(_) => OrderlyStore(c, s, l);
    case Notify(_) => OrderlyNotify(c, s, l);
    case Mark(_) => OrderlyMark(c, s, l);
    case Parse => OrderlyEnds(c, s, l);
    case Discard(_) => OrderlyEnds(c, s, l);
    case Publish(_) => OrderlyEnds(c, s, l);
    case Commit(_) => OrderlyEnds(c, s, l);
    case _ => OrderlyBetween(c, s, l);
  }

  /** What a step inside a call does to the offsets and the message in hand, whatever becomes of the call. */
  lemma LaneInCall(c: Config, s: State, l: Label)
    requires Enabled(c, s, l) && s.lane.pc.Busy? && !l.Crash?
    ensures
      var call, lane, lane' := s.lane.pc.call, s.lane, Step(c, s, l).lane;
      && lane'.position == lane.position
      && (lane'.committed == lane.committed || (l.Commit? && lane'.committed == call.offset + 1))
      && !lane'.pc.Down?
      && (lane'.pc.Ready? ==> l == Commit(Calm))
      && (lane'.pc.Busy? ==> lane'.pc.call.offset == call.offset)
      && (lane'.pc.Raised? ==> lane'.pc.inHand == Some(call.offset))
  {
  }

  lemma SoundStep(c: Config, s: State, l: Label)
    requires c.Valid() && Sound(c, s)
    ensures Sound(c, Step(c, s, l))
  {
    OrderlyStep(c, s, l);
    StepCommits(c, s, l);
    ApplyKeepsMatched(s.db, TxOf(c, s, l));
  }

  lemma {:induction false} SoundAlways(c: Config, trace: seq<Label>)
    requires c.Valid()
    ensures Sound(c, Exec(c, INITIAL, trace))
    decreases |trace|
  {
    if trace != [] {
      SoundAlways(c, trace[..|trace| - 1]);
      SoundStep(c, Exec(c, INITIAL, trace[..|trace| - 1]), trace[|trace| - 1]);
    }
  }
}
