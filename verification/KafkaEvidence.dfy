/** The evidence a first delivery returns: when its `duplicate` is wrong. */
module KafkaEvidence {
  import opened OrderEvents
  import opened OrderTables
  import opened KafkaProtocol
  import opened KafkaInvariants
  import opened KafkaHistory
  import opened KafkaTheorems
  import opened KafkaCall
  import opened KafkaOrderConsumer

  /** A call returns, not dead-lettered, and reports a duplicate although its event had no row when it began. */
  predicate ReportsFalseDuplicate(c: Config, s: State, trace: seq<Label>) {
    && IsCall(c, s, trace)
    && trace[|trace| - 1] == Commit(Calm)
    && var last := Exec(c, s, trace[..|trace| - 1]).lane.pc;
    && last.Busy? && last.stage == Committing(false)
    && Report(c, last.call, false).duplicate
    && !Existed(c, s)
  }

  predicate FirstIsDuplicate(c: Config, before: seq<Label>, trace: seq<Label>) {
    IsRun(c, INITIAL, before) && ReportsFalseDuplicate(c, Exec(c, INITIAL, before), trace)
  }

  /** A first delivery can be reported as a duplicate exactly when the policy retries and some order can be stored. */
  lemma FalseDuplicateIff(c: Config)
    requires c.Valid()
    ensures (exists before, trace :: FirstIsDuplicate(c, before, trace)) <==>
            c.maxAttempts >= 2 && exists k: nat :: StorableAt(c, k)
  {
    if before, trace :| FirstIsDuplicate(c, before, trace) {
      FalseDuplicateNeeds(c, before, trace);
    }
    if c.maxAttempts >= 2 && exists k: nat :: StorableAt(c, k) {
      var k: nat :| StorableAt(c, k);
      var before, trace := FalseDuplicateRun(c, k);
      assert FirstIsDuplicate(c, before, trace);
    }
  }

  lemma {:induction false} BlindClaimStores(trace: seq<Label>)
    requires BlindClaim(trace)
    ensures Stores(trace) >= 1
    ensures Store(Calm) in trace ==> Stores(trace) >= 2
    decreases |trace|
  {
    var init := trace[..|trace| - 1];
    if BlindClaim(init) {
      BlindClaimStores(init);
    }
  }

  lemma FalseDuplicateNeeds(c: Config, before: seq<Label>, trace: seq<Label>)
    requires c.Valid() && FirstIsDuplicate(c, before, trace)
    ensures c.maxAttempts >= 2 && exists k: nat :: StorableAt(c, k)
  {
    var s, init := Exec(c, INITIAL, before), trace[..|trace| - 1];
    SoundAlways(c, before);
    assert IsCall(c, s, init);
    EvidenceIsTrue(c, s, init);
    CallFactsHold(c, s, init);
    CallOffset(c, s, init);
    BlindClaimStores(init);
    ExecConcat(c, INITIAL, before, init);
    SoundAlways(c, before + init);
    TraceableAlways(c, before + init);
    var call := Exec(c, s, init).lane.pc.call;
    ClaimWasStorable(c, Exec(c, INITIAL, before + init), Hist(c, before + init), EventAt(c, call.offset).value.eventId);
  }

  lemma CallSnoc(c: Config, s: State, trace: seq<Label>, x: State, l: Label, y: State) returns (trace': seq<Label>)
    requires IsCall(c, s, trace) && Exec(c, s, trace) == x
    requires Enabled(c, x, l) && InCall(l) && Step(c, x, l) == y
    ensures IsCall(c, s, trace') && Exec(c, s, trace') == y
    ensures trace' == trace + [l]
  {
    ExecSnoc(c, s, trace, l);
    trace' := trace + [l];
  }

  /** The run: the store call writes the row and raises, and the retry finds the row. */
  lemma FalseDuplicateRun(c: Config, k: nat) returns (before: seq<Label>, trace: seq<Label>)
    requires c.Valid() && c.maxAttempts >= 2 && StorableAt(c, k)
    ensures FirstIsDuplicate(c, before, trace)
  {
    var e := c.log[k].body.event;
    before := WalkPast(c, k, k);
    var s, db := Before(EMPTY, 0, k), Insert(EMPTY, e);
    trace := BlindlyStored(c, s, k);
    trace := CompletedCall(c, s, db, k, trace);
    var init, last := trace, During(MarkTx(db, e.eventId), 0, k, Call(k, 2, Some(false)), Committing(false));
    trace := CallSnoc(c, s, trace, last, Commit(Calm), Before(MarkTx(db, e.eventId), k + 1, k + 1));
    assert trace[..|trace| - 1] == init;
  }

  lemma BlindlyStored(c: Config, s: State, k: nat) returns (trace: seq<Label>)
    requires c.Valid() && c.maxAttempts >= 2 && StorableAt(c, k) && s == Before(EMPTY, 0, k)
    ensures
      IsCall(c, s, trace) &&
      Exec(c, s, trace) == During(Insert(EMPTY, c.log[k].body.event), 0, k, Call(k, 2, Some(false)),
                                  if c.hasDownstream then Notifying else Marking)
  {
    hide IsCall, Exec;
    var db := Insert(EMPTY, c.log[k].body.event);
    var fetched := During(EMPTY, 0, k, Call(k, 0, None), Fetched);
    var storing := During(EMPTY, 0, k, Call(k, 1, None), Storing);
    var again := During(db, 0, k, Call(k, 2, None), Storing);
    trace := PollCall(c, s);
    trace := CallSnoc(c, s, trace, fetched, Parse, storing);
    trace := CallSnoc(c, s, trace, storing, Store(Raise(true, true)), again);
    trace := CallSnoc(c, s, trace, again, Store(Calm),
                      During(db, 0, k, Call(k, 2, Some(false)), if c.hasDownstream then Notifying else Marking));
  }

  lemma PollCall(c: Config, s: State) returns (trace: seq<Label>)
    requires Enabled(c, s, Poll)
    ensures IsCall(c, s, trace) && Exec(c, s, trace) == Step(c, s, Poll)
  {
    ExecSnoc(c, s, [], Poll);
    assert [] + [Poll] == [Poll];
    trace := [Poll];
  }

  lemma CompletedCall(c: Config, s: State, db: Tables, k: nat, before: seq<Label>) returns (trace: seq<Label>)
    requires c.Valid() && StorableAt(c, k) && IsPending(db, c.log[k].body.event.eventId) && IsCall(c, s, before)
    requires Exec(c, s, before) ==
             During(db, 0, k, Call(k, 2, Some(false)), if c.hasDownstream then Notifying else Marking)
    ensures IsCall(c, s, trace)
    ensures Exec(c, s, trace) ==
            During(MarkTx(db, c.log[k].body.event.eventId), 0, k, Call(k, 2, Some(false)), Committing(false))
  {
    hide IsCall, Exec;
    var call := Call(k, 2, Some(false));
    trace := before;
    if c.hasDownstream {
      trace := CallSnoc(c, s, trace, During(db, 0, k, call, Notifying), Notify(Calm), During(db, 0, k, call, Marking));
    }
    trace := CallSnoc(c, s, trace, During(db, 0, k, call, Marking), Mark(Calm),
                      During(MarkTx(db, c.log[k].body.event.eventId), 0, k, call, Committing(false)));
  }
}
