/** The pause rows that the dashboard writes and the workers read. */
module ConsumerControls {

  datatype ControlReply = Flag(paused: bool) | UnsupportedBroker | MissingRow

  /** A committed write of the dashboard. */
  datatype Write = Write(broker: string, paused: bool)

  /** What the last write for the broker said; before any write a consumer is not paused. */
  function LastWritten(writes: seq<Write>, broker: string): bool {
    if writes == [] then false
    else if writes[|writes| - 1].broker == broker then writes[|writes| - 1].paused
    else LastWritten(writes[..|writes| - 1], broker)
  }

  /** A write holds until the next write for the same broker, whatever is written for others. */
  lemma {:induction false} LastWriteWins(before: seq<Write>, w: Write, after: seq<Write>)
    requires forall x :: x in after ==> x.broker != w.broker
    ensures LastWritten(before + [w] + after, w.broker) == w.paused
    decreases |after|
  {
    var all := before + [w] + after;
    if after == [] {
      assert all == before + [w];
    } else {
      var init := after[..|after| - 1];
      assert all[|all| - 1] == after[|after| - 1] && after[|after| - 1] in after;
      assert all[..|all| - 1] == before + [w] + init;
      assert forall x :: x in init ==> x in after;
      LastWriteWins(before, w, init);
    }
  }

  lemma LastWrittenSnoc(writes: seq<Write>, w: Write, broker: string)
    ensures LastWritten(writes + [w], broker) == if w.broker == broker then w.paused else LastWritten(writes, broker)
  {
    assert (writes + [w])[..|writes|] == writes;
  }

  /** A consumer that nobody has ever paused is not paused. */
  lemma {:induction false} NeverPaused(writes: seq<Write>, broker: string)
    requires Write(broker, true) !in writes
    ensures !LastWritten(writes, broker)
    decreases |writes|
  {
    if writes != [] {
      var init, w := writes[..|writes| - 1], writes[|writes| - 1];
      assert w in writes && forall x :: x in init ==> x in writes;
      NeverPaused(init, broker);
    }
  }

  predicate IsBroker(broker: string) {
    broker == "kafka" || broker == "sqs"
  }

  class ConsumerControlStore {
    var rows: map<string, bool>
    ghost var writes: seq<Write>   // the committed writes, in order

    ghost predicate Valid()
      reads this
    {
      && (forall b :: b in rows ==> IsBroker(b) && rows[b] == LastWritten(writes, b))
      && (forall b :: b !in rows ==> !LastWritten(writes, b))
    }

    constructor ()
      ensures Valid() && rows == map[] && writes == []
    {
      rows := map[];
      writes := [];
    }

    /** Both brokers have a row afterwards. A worker that starts while its consumer is paused finds it paused still. */
    method Initialize()
      requires Valid()
      modifies `rows
      ensures Valid() && rows.Keys == old(rows).Keys + {"kafka", "sqs"}
      ensures forall b :: b in rows ==> rows[b] == (b in old(rows) && old(rows)[b])
    {
      rows := map b | b in {"kafka", "sqs"} + rows.Keys :: if b in rows then rows[b] else false;
    }

    method SetPaused(broker: string, paused: bool) returns (r: ControlReply)
      requires Valid()
      modifies this
      ensures Valid() && rows.Keys == old(rows).Keys
      ensures r == if !IsBroker(broker) then UnsupportedBroker else if broker in rows then Flag(paused) else MissingRow
      ensures writes == old(writes) + if r.Flag? then [Write(broker, paused)] else []
    {
      if !IsBroker(broker) {
        return UnsupportedBroker;
      }
      if broker !in rows {
        return MissingRow;
      }
      forall b ensures LastWritten(writes + [Write(broker, paused)], b) == if b == broker then paused else LastWritten(writes, b) {
        LastWrittenSnoc(writes, Write(broker, paused), b);
      }
      rows := rows[broker := paused];
      writes := writes + [Write(broker, paused)];
      r := Flag(paused);
    }

    /** The last committed write decides, however many came before and whatever they were for. */
    method IsPaused(broker: string) returns (r: ControlReply)
      requires Valid()
      ensures r.UnsupportedBroker? <==> !IsBroker(broker)
      ensures r.Flag? <==> broker in rows
      ensures r.Flag? ==> r.paused == LastWritten(writes, broker)
    {
      r := if !IsBroker(broker) then UnsupportedBroker else if broker in rows then Flag(rows[broker]) else MissingRow;
    }
  }
}
