/** The downstream HTTP client with its own bounded attempts inside the consumer's. */
module NotificationClient {
  import opened OrderEvents

  /** None of the n answers from position p on is a success. */
  predicate AllFail(answers: nat -> bool, p: nat, n: nat) {
    forall i: nat :: p <= i < p + n ==> !answers(i)
  }

  /** A notify call with limit a that starts at POST p ends at q: at the first success, or after a failures. */
  predicate Exchange(answers: nat -> bool, a: nat, p: nat, q: nat, ok: bool) {
    if ok then p < q <= p + a && AllFail(answers, p, q - 1 - p) && answers(q - 1)
    else q == p + a && AllFail(answers, p, a)
  }

  /** n whole notify calls, each of a POSTs, have failed. */
  predicate FailedSoFar(answers: nat -> bool, a: nat, p: nat, q: nat, n: nat) {
    q == p + n * a && AllFail(answers, p, n * a)
  }

  /** The nested loops end in attempt n: it succeeds, or it is the last of r and every POST failed. */
  predicate RetriedExchange(answers: nat -> bool, a: nat, r: nat, p: nat, q: nat, n: nat, ok: bool) {
    && 1 <= n <= r
    && if ok then
         p + (n - 1) * a < q <= p + n * a && AllFail(answers, p, q - 1 - p) && answers(q - 1)
       else
         n == r && FailedSoFar(answers, a, p, q, r)
  }

  lemma NoneFailed(answers: nat -> bool, a: nat, p: nat)
    ensures FailedSoFar(answers, a, p, p, 0)
  {
  }

  lemma ExchangeExtends(answers: nat -> bool, a: nat, r: nat, p: nat, q: nat, q': nat, n: nat, ok: bool)
    requires 1 <= n <= r
    ensures FailedSoFar(answers, a, p, q, n - 1) && Exchange(answers, a, q, q', ok) ==>
              if ok || n == r then RetriedExchange(answers, a, r, p, q', n, ok)
              else FailedSoFar(answers, a, p, q', n)
  {
    assert (n - 1) * a + a == n * a;
  }

  /** Exactly f POSTs from position p on fail before the first success. */
  predicate FirstSuccess(answers: nat -> bool, p: nat, f: nat) {
    AllFail(answers, p, f) && answers(p + f)
  }

  /** What one loop of a * r POSTs would do; `attempts` counts groups of a. */
  ghost predicate OneLoop(answers: nat -> bool, a: nat, r: nat, p: nat, q: nat, attempts: nat, ok: bool)
    requires a > 0
  {
    && (forall f: nat :: FirstSuccess(answers, p, f) ==>
          if f < a * r then ok && attempts == f / a + 1 && q == p + f + 1
          else !ok && attempts == r && q == p + a * r)
    && (AllFail(answers, p, a * r) ==> !ok && attempts == r && q == p + a * r)
  }

  /** The client's loop inside the consumer's loop behaves as one loop with the product of their limits. */
  lemma NestedLoopsFlatten(answers: nat -> bool, a: nat, r: nat, p: nat, q: nat, n: nat, ok: bool)
    requires a > 0 && RetriedExchange(answers, a, r, p, q, n, ok)
    ensures OneLoop(answers, a, r, p, q, n, ok)
  {
    ProductGrows(n, r, a);
    forall f: nat | FirstSuccess(answers, p, f)
      ensures if f < a * r then ok && n == f / a + 1 && q == p + f + 1 else !ok && n == r && q == p + a * r
    {
      if ok {
        assert q - 1 - p == f;
        QuotientOf(f, a, n - 1);
      }
    }
  }

  lemma ProductGrows(x: int, y: int, a: nat)
    requires x <= y
    ensures x * a <= y * a
  {
    assert y * a - x * a == (y - x) * a;
  }

  lemma QuotientOf(f: nat, a: nat, k: nat)
    requires a > 0 && k * a <= f < (k + 1) * a
    ensures f / a == k
  {
    var q := f / a;
    assert q * a <= f < (q + 1) * a;
    if q < k {
      ProductGrows(q + 1, k, a);
    } else if k < q {
      ProductGrows(k + 1, q, a);
    }
  }

  datatype NotifyReply = Accepted | NotifyRaised(retryable: bool)

  /**
   `answers(i)` tells whether the i-th POST ever made is answered with a 2xx status. `lateness(p)` is the number of POSTs
   that come before an exception that is not an HTTP error, in a call that starts at POST p and meets one.
   */
  class OrderNotificationClient {
    const maxAttempts: nat
    const retryable: bool
    const answers: nat -> bool
    const lateness: nat -> nat
    var posts: nat

    constructor (maxAttempts: nat, retryable: bool, answers: nat -> bool, lateness: nat -> nat)
      ensures this.maxAttempts == maxAttempts && this.retryable == retryable
      ensures this.answers == answers && this.lateness == lateness && posts == 0
    {
      this.maxAttempts := maxAttempts;
      this.retryable := retryable;
      this.answers := answers;
      this.lateness := lateness;
      posts := 0;
    }

    /** None is the ValueError for a timeout or an attempt limit that is not positive. */
    static method Create(timeoutSeconds: real, maxAttempts: int, retryable: bool, answers: nat -> bool,
                         lateness: nat -> nat)
      returns (client: Option<OrderNotificationClient>)
      ensures client.Some? <==> timeoutSeconds > 0.0 && maxAttempts > 0
      ensures client.Some? ==> fresh(client.value) && client.value.maxAttempts == maxAttempts && client.value.posts == 0
    {
      if timeoutSeconds <= 0.0 || maxAttempts <= 0 {
        return None;
      }
      var made := new OrderNotificationClient(maxAttempts, retryable, answers, lateness);
      client := Some(made);
    }

    /**
     A fault is an exception that is not an HTTP error. It leaves the loop at once, before or after its POST, unless an
     earlier POST of the call succeeds.
     */
    method Notify(fault: Fault) returns (r: NotifyReply)
      requires maxAttempts > 0
      modifies this
      ensures r.Accepted? ==> Exchange(answers, maxAttempts, old(posts), posts, true)
      ensures fault.Raise? && !r.Accepted? ==>
                && r == NotifyRaised(fault.retryable)
                && exists failed: nat :: failed < maxAttempts && AllFail(answers, old(posts), failed)
                                         && posts == old(posts) + failed + if fault.applied then 1 else 0
      ensures fault.Calm? && !r.Accepted? ==>
                r == NotifyRaised(retryable) && Exchange(answers, maxAttempts, old(posts), posts, false)
    {
      ghost var first := posts;
      var late := if lateness(posts) < maxAttempts then lateness(posts) else maxAttempts - 1;
      for i := 0 to maxAttempts
        invariant posts == first + i
        invariant AllFail(answers, first, i)
        invariant fault.Raise? ==> i <= late
      {
        if fault.Raise? && i == late {
          if fault.applied {
            posts := posts + 1;
          }
          return NotifyRaised(fault.retryable);
        }
        var ok := answers(posts);
        posts := posts + 1;
        if ok {
          return Accepted;
        }
      }
      r := NotifyRaised(retryable);
    }
  }
}
