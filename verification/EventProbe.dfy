/** The test probe that observes a topic: records polled while it starts are kept for the first wait. */
module EventProbe {
  import opened OrderEvents

  /** What one poll of the broker answers, and whether partitions are assigned after it. */
  datatype Poll = Poll(answer: Answer, hasAssignment: bool)

  datatype Answer = Nothing | Got(record: Record) | BrokerError

  datatype Outcome = Started | Found(record: Record) | Failed | Expired(observed: nat, evidence: seq<Record>)

  function Brought(answer: Answer): seq<Record> {
    if answer.Got? then [answer.record] else []
  }

  /** The records that the first n polls hand over. */
  function Handed(polls: seq<Poll>, n: nat): seq<Record>
    requires n <= |polls|
  {
    if n == 0 then [] else Handed(polls, n - 1) + Brought(polls[n - 1].answer)
  }

  /** Poll k is the last one `start` makes: it raises, or partitions are assigned after it. */
  predicate Stops(polls: seq<Poll>, k: nat) {
    k < |polls| && (polls[k].answer.BrokerError? || polls[k].hasAssignment)
  }

  predicate Assigned(polls: seq<Poll>, k: nat) {
    k < |polls| && !polls[k].answer.BrokerError? && polls[k].hasAssignment
  }

  /** The number of polls `start` makes. */
  predicate MakesPolls(polls: seq<Poll>, n: nat) {
    && n <= |polls|
    && (forall k: nat :: k + 1 < n ==> !Stops(polls, k))
    && (n < |polls| ==> n > 0 && Stops(polls, n - 1))
  }

  /** The last n elements, or all of them if there are fewer: what a bounded deque keeps. */
  function LastOf<T>(s: seq<T>, n: nat): seq<T> {
    if |s| <= n then s else s[|s| - n..]
  }

  class KafkaEventProbe {
    const evidenceLimit: nat
    var started: bool
    var pending: seq<Record>
    ghost var polled: seq<Record>   // everything the broker handed over, in order
    ghost var shown: seq<Record>    // everything given to a predicate, in order

    constructor (evidenceLimit: nat)
      requires evidenceLimit > 0
      ensures Conserved() && polled == shown == pending == [] && !started
      ensures this.evidenceLimit == evidenceLimit
    {
      this.evidenceLimit := evidenceLimit;
      started, pending := false, [];
      polled, shown := [], [];
    }

    /** Every polled record is shown once, in order, or still waits to be shown. */
    ghost predicate Conserved()
      reads `shown, `pending, `polled
    {
      shown + pending == polled
    }

    method Keep(record: Record)
      requires Conserved()
      modifies `pending, `polled
      ensures Conserved() && old(pending) <= pending
      ensures polled == old(polled) + [record]
    {
      pending := pending + [record];
      polled := polled + [record];
    }

    /** Poll until partitions are assigned; `polls` are the polls before the deadline. */
    method Start(polls: seq<Poll>) returns (r: Outcome, ghost made: nat)
      requires Conserved()
      modifies this
      ensures Conserved() && shown == old(shown) && old(pending) <= pending
      ensures if old(started) then made == 0 else MakesPolls(polls, made)
      ensures made <= |polls| && polled == old(polled) + Handed(polls, made)
      ensures r == if started then Started else Failed
      ensures started <==> old(started) || (made > 0 && Assigned(polls, made - 1))
      ensures !old(started) ==>
                (started <==> exists k :: 0 <= k < |polls| && polls[k].hasAssignment
                                          && forall j :: 0 <= j <= k ==> !polls[j].answer.BrokerError?)
    {
      if started {
        return Started, 0;
      }
      hide Conserved, Assigned, MakesPolls;
      made := 0;
      NoPollsYet(polls);
      for i := 0 to |polls|
        invariant made == i && !started && Conserved() && shown == old(shown) && old(pending) <= pending
        invariant Extends(old(polled), Handed(polls, i), polled)
        invariant forall k: nat :: k < i ==> !Stops(polls, k)
      {
        hide Extends, Handed;
        made := made + 1;
        HandedNext(old(polled), polled, polls, made);
        EndsPolls(polls, made);
        if polls[i].answer.BrokerError? {
          StartsIff(polls, made);
          return Failed, made;
        }
        if polls[i].answer.Got? {
          Keep(polls[i].answer.record);
        }
        if polls[i].hasAssignment {
          StartsIff(polls, made);
          started := true;
          return Started, made;
        }
      }
      EndsPolls(polls, made);
      StartsIff(polls, made);
      r := Failed;
    }

    /** The next record to show: a pending one if there is any, else what one poll brings. */
    method Next(poll: Option<Answer>) returns (r: Answer)
      requires Conserved()
      modifies `pending, `polled, `shown
      ensures Conserved()
      ensures polled == old(polled) + if old(pending) == [] && poll.Some? then Brought(poll.value) else []
      ensures shown == if r.Got? then old(shown) + [r.record] else old(shown)
      ensures if old(pending) != [] then r == Got(old(pending)[0]) && pending == old(pending)[1..]
              else pending == [] && r == if poll.Some? then poll.value else Nothing
    {
      if pending != [] {
        r := Got(pending[0]);
        shown := shown + [pending[0]];
        pending := pending[1..];
      } else {
        r := if poll.Some? then poll.value else Nothing;
        if r.Got? {
          polled := polled + [r.record];
          shown := shown + [r.record];
        }
      }
    }

    /** Show one more record, if there is one, and remember it as evidence unless it matches. */
    method ShowNext(matches: Record -> bool, poll: Option<Answer>, ghost first: seq<Record>, ghost now: seq<Record>,
                    evidence: seq<Record>)
      returns (answer: Answer, found: bool, ghost now': seq<Record>, evidence': seq<Record>)
      requires Conserved() && evidenceLimit > 0
      requires Extends(first, now, shown) && NoneMatch(matches, now) && evidence == LastOf(now, evidenceLimit)
      requires poll.Some? ==> pending == []
      modifies `pending, `polled, `shown
      ensures Conserved() && Extends(first, now', shown)
      ensures poll.Some? ==> polled == old(polled) + Brought(poll.value)
      ensures poll.None? ==> polled == old(polled)
      ensures if old(pending) != [] then answer.Got? && |pending| < |old(pending)|
              else pending == [] && answer == if poll.Some? then poll.value else Nothing
      ensures found <==> answer.Got? && matches(answer.record)
      ensures |now'| == |now| + if answer.Got? then 1 else 0
      ensures if found then FirstMatch(matches, now', answer.record)
              else NoneMatch(matches, now') && evidence' == LastOf(now', evidenceLimit)
    {
      hide Conserved, LastOf, NoneMatch, FirstMatch, Extends;
      found, now', evidence' := false, now, evidence;
      ghost var before := shown;
      answer := Next(poll);
      if answer.Got? {
        LastOfAppend(now, answer.record, evidenceLimit);
        Judged(matches, now, answer.record);
        ExtendsSnoc(first, now, before, answer.record);
        now' := now + [answer.record];
        found := matches(answer.record);
        if !found {
          evidence' := LastOf(evidence + [answer.record], evidenceLimit);
        }
      }
    }

    /** The loop of `wait_for_event`: show the pending records, then poll; `now` is what was shown. */
    method Show(matches: Record -> bool, polls: seq<Poll>) returns (r: Outcome, ghost now: seq<Record>, ghost used: nat)
      requires Conserved() && evidenceLimit > 0
      modifies `pending, `polled, `shown
      ensures Conserved() && used <= |polls|
      ensures Extends(old(shown), now, shown) && Extends(old(polled), Handed(polls, used), polled)
      ensures match r
              case Started => false
              case Found(record) => FirstMatch(matches, now, record)
              case Failed => NoneMatch(matches, now) && used > 0 && polls[used - 1].answer.BrokerError?
              case Expired(observed, evidence) =>
                && NoneMatch(matches, now)
                && pending == [] && used == |polls|
                && observed == |now|
                && |evidence| == (if |now| < evidenceLimit then |now| else evidenceLimit)
                && evidence == now[|now| - |evidence|..]
    {
      now, used := [], 0;
      var observed, evidence: seq<Record>, i := 0, [], 0;
      NothingYet(matches, polls, shown, polled, evidenceLimit);
      hide Conserved, LastOf, NoneMatch, FirstMatch, Extends, Handed, Brought;
      while true
        invariant 0 <= i == used <= |polls| && observed == |now| && NoneMatch(matches, now)
        invariant Conserved() && Extends(old(shown), now, shown) && Extends(old(polled), Handed(polls, used), polled)
        invariant evidence == LastOf(now, evidenceLimit)
        decreases |polls| - i, |pending|
      {
        var poll: Option<Answer> := None;
        if pending == [] {
          if i == |polls| {
            break;
          }
          poll := Some(polls[i].answer);
          i, used := i + 1, used + 1;
        }
        ghost var before := polled;
        var answer, found;
        answer, found, now, evidence := ShowNext(matches, poll, old(shown), now, evidence);
        if poll.Some? {
          HandedNext(old(polled), before, polls, used);
        }
        if answer.BrokerError? {
          return Failed, now, used;
        }
        if answer.Got? {
          observed := observed + 1;
          if found {
            return Found(answer.record), now, used;
          }
        }
      }
      LastOfIsTail(now, evidenceLimit);
      r := Expired(observed, evidence);
    }

    /**
     Show the pending records, then poll until one matches or the deadline passes; pending records are shown even
     after the deadline. `startPolls` are the polls of an implicit start.
     */
    method WaitForEvent(matches: Record -> bool, startPolls: seq<Poll>, polls: seq<Poll>)
      returns (r: Outcome, ghost now: seq<Record>, ghost made: nat, ghost used: nat)
      requires Conserved() && evidenceLimit > 0
      modifies this
      ensures Conserved() && shown == old(shown) + now
      ensures if old(started) then made == 0 else MakesPolls(startPolls, made)
      ensures made <= |startPolls| && used <= |polls|
      ensures polled == old(polled) + Handed(startPolls, made) + Handed(polls, used)
      ensures match r
              case Started => false
              case Found(record) => FirstMatch(matches, now, record)
              case Failed => NoneMatch(matches, now) && (started ==> used > 0 && polls[used - 1].answer.BrokerError?)
              case Expired(observed, evidence) =>
                && NoneMatch(matches, now)
                && pending == [] && used == |polls|
                && observed == |now|
                && |evidence| == (if |now| < evidenceLimit then |now| else evidenceLimit)
                && evidence == now[|now| - |evidence|..]
      ensures started <==> old(started) || (made > 0 && Assigned(startPolls, made - 1))
      ensures !started ==> now == [] && used == 0 && r == Failed
    {
      hide Conserved;
      made := 0;
      if !started {
        var up;
        up, made := Start(startPolls);
        if up.Failed? {
          return Failed, [], made, 0;
        }
      }
      r, now, used := Show(matches, polls);
    }
  }

  predicate Extends(s: seq<Record>, more: seq<Record>, t: seq<Record>) {
    t == s + more
  }

  lemma NoPollsYet(polls: seq<Poll>)
    ensures Handed(polls, 0) == []
  {
  }

  /** Whether n polls without an earlier end are all the polls, and whether they end with an assignment. */
  lemma EndsPolls(polls: seq<Poll>, n: nat)
    requires n <= |polls| && forall k: nat :: k + 1 < n ==> !Stops(polls, k)
    ensures n == |polls| || (n > 0 && Stops(polls, n - 1)) ==> MakesPolls(polls, n)
    ensures n > 0 ==> (Assigned(polls, n - 1) <==> Stops(polls, n - 1) && !polls[n - 1].answer.BrokerError?)
  {
  }

  lemma NothingYet(matches: Record -> bool, polls: seq<Poll>, s: seq<Record>, t: seq<Record>, n: nat)
    ensures Extends(s, [], s) && Extends(t, Handed(polls, 0), t) && NoneMatch(matches, []) && LastOf<Record>([], n) == []
  {
  }

  lemma ExtendsSnoc(s: seq<Record>, more: seq<Record>, t: seq<Record>, record: Record)
    requires Extends(s, more, t)
    ensures Extends(s, more + [record], t + [record])
  {
  }

  lemma HandedNext(s: seq<Record>, t: seq<Record>, polls: seq<Poll>, n: nat)
    requires 0 < n <= |polls| && Extends(s, Handed(polls, n - 1), t)
    ensures Extends(s, Handed(polls, n), t + Brought(polls[n - 1].answer))
  {
  }

  predicate NoneMatch(matches: Record -> bool, records: seq<Record>) {
    forall i :: 0 <= i < |records| ==> !matches(records[i])
  }

  /** The record is the last of those shown and the only one that matches. */
  predicate FirstMatch(matches: Record -> bool, records: seq<Record>, record: Record) {
    records != [] && records[|records| - 1] == record && matches(record) && NoneMatch(matches, records[..|records| - 1])
  }

  lemma Judged(matches: Record -> bool, records: seq<Record>, record: Record)
    requires NoneMatch(matches, records)
    ensures if matches(record) then FirstMatch(matches, records + [record], record)
            else NoneMatch(matches, records + [record])
  {
    assert (records + [record])[..|records|] == records;
  }

  lemma LastOfIsTail<T>(s: seq<T>, n: nat)
    ensures |LastOf(s, n)| == (if |s| < n then |s| else n)
    ensures LastOf(s, n) == s[|s| - |LastOf(s, n)|..]
  {
  }

  /** Whether the polls end with an assignment is whether some poll is followed by one, with no error up to it. */
  lemma StartsIff(polls: seq<Poll>, made: nat)
    requires MakesPolls(polls, made)
    ensures made > 0 && Assigned(polls, made - 1) <==>
              exists k :: 0 <= k < |polls| && polls[k].hasAssignment && forall j :: 0 <= j <= k ==> !polls[j].answer.BrokerError?
  {
    if made > 0 && Assigned(polls, made - 1) {
      forall j | 0 <= j <= made - 1 ensures !polls[j].answer.BrokerError? {
        assert j == made - 1 || !Stops(polls, j);
      }
      assert polls[made - 1].hasAssignment;
    }
    if k :| 0 <= k < |polls| && polls[k].hasAssignment && forall j :: 0 <= j <= k ==> !polls[j].answer.BrokerError? {
      assert Stops(polls, k);
      assert made - 1 <= k;
      assert !polls[made - 1].answer.BrokerError?;
    }
  }

  /** A bounded deque keeps the last n of everything appended. */
  lemma LastOfAppend<T>(s: seq<T>, x: T, n: nat)
    requires n > 0
    ensures LastOf(LastOf(s, n) + [x], n) == LastOf(s + [x], n)
  {
  }
}
