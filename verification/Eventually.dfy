/** The bounded poller of the asynchronous tests, over an abstract monotonic clock. */
module Eventually {

  datatype Outcome<T> = Observed(value: T) | TimedOut(attempts: nat, lastObserved: T)

  /**
   The deadline as the clock shows it after each observation: time never runs backwards, and a wait lasts at least as
   long as asked unless the deadline has passed.
   */
  ghost predicate HonestClock(clock: nat -> real, timeout: real, interval: real) {
    && clock(1) >= clock(0)
    && forall i: nat :: i >= 1 && Remaining(clock, timeout, i) > 0.0 ==>
         clock(i + 1) >= clock(i) + Min(interval, Remaining(clock, timeout, i))
  }

  function Remaining(clock: nat -> real, timeout: real, i: nat): real {
    clock(0) + timeout - clock(i)
  }

  function Min(x: real, y: real): real {
    if x <= y then x else y
  }

  /** The length of k intervals. */
  function Span(k: int, interval: real): real {
    k as real * interval
  }

  lemma SpanGrows(j: int, k: int, interval: real)
    requires interval > 0.0 && j <= k
    ensures Span(j, interval) <= Span(k, interval)
    ensures j < k ==> Span(j, interval) < Span(k, interval)
    ensures Span(j + 1, interval) == Span(j, interval) + interval
  {
    assert Span(k, interval) - Span(j, interval) == (k - j) as real * interval;
  }

  /** The least whole number of intervals that covers the timeout. */
  function Intervals(timeout: real, interval: real): (n: nat)
    requires timeout > 0.0 && interval > 0.0
    ensures Span(n - 1, interval) < timeout <= Span(n, interval)
  {
    QuotientFloor(timeout, interval);
    var f := (timeout / interval).Floor;
    if Span(f, interval) >= timeout then f else f + 1
  }

  lemma ProductGrows(a: real, b: real, y: real)
    requires y > 0.0 && a <= b
    ensures a * y <= b * y
    ensures a < b ==> a * y < b * y
  {
  }

  lemma QuotientFloor(x: real, y: real)
    requires x > 0.0 && y > 0.0
    ensures (x / y).Floor >= 0
    ensures Span((x / y).Floor, y) <= x < Span((x / y).Floor + 1, y)
    ensures Span((x / y).Floor - 1, y) < x
  {
    var q := x / y;
    var f := q.Floor;
    FloorSpan(x, y, q, f);
    SpanGrows(f - 1, f, y);
  }

  lemma FloorSpan(x: real, y: real, q: real, f: int)
    requires y > 0.0 && q * y == x && f as real <= q < (f + 1) as real
    ensures Span(f, y) <= x < Span(f + 1, y)
  {
    ProductGrows(f as real, q, y);
    ProductGrows(q, (f + 1) as real, y);
  }

  /**
   Observe at once, then again after every interval until the value is accepted or the deadline has passed. `n` is the
   number of observations made.
   */
  method Eventually<T>(observe: nat -> T, accept: T -> bool, clock: nat -> real, timeout: real, interval: real)
    returns (r: Outcome<T>, n: nat)
    requires timeout > 0.0 && interval > 0.0 && HonestClock(clock, timeout, interval)
    ensures 1 <= n <= Intervals(timeout, interval) + 1
    ensures forall i: nat :: i < n - 1 ==> !accept(observe(i))
    ensures match r
            case Observed(value) => value == observe(n - 1) && accept(value)
            case TimedOut(attempts, last) =>
              attempts == n && last == observe(n - 1) && !accept(last) && clock(n) - clock(0) >= timeout
  {
    n := 0;
    while true
      invariant forall i: nat :: i < n ==> !accept(observe(i))
      invariant n >= 1 ==> Remaining(clock, timeout, n) > 0.0 && clock(n) - clock(0) >= Span(n - 1, interval)
      invariant n <= Intervals(timeout, interval)
      decreases Intervals(timeout, interval) - n
    {
      n := n + 1;
      var last := observe(n - 1);
      if accept(last) {
        return Observed(last), n;
      }
      if Remaining(clock, timeout, n) <= 0.0 {
        return TimedOut(n, last), n;
      }
      WaitedLongEnough(clock, timeout, interval, n);
    }
  }

  /** While time remains, the n-th reading comes after n - 1 whole intervals, so n does not exceed their number. */
  lemma WaitedLongEnough(clock: nat -> real, timeout: real, interval: real, n: nat)
    requires timeout > 0.0 && interval > 0.0 && HonestClock(clock, timeout, interval) && n >= 1
    requires n >= 2 ==> Remaining(clock, timeout, n - 1) > 0.0 && clock(n - 1) - clock(0) >= Span(n - 2, interval)
    requires Remaining(clock, timeout, n) > 0.0
    ensures clock(n) - clock(0) >= Span(n - 1, interval)
    ensures n <= Intervals(timeout, interval)
  {
    if n >= 2 {
      assert clock((n - 1) + 1) >= clock(n - 1) + Min(interval, Remaining(clock, timeout, n - 1));
      SpanGrows(n - 2, n - 1, interval);
    }
    var k := Intervals(timeout, interval);
    if n > k {
      SpanGrows(k, n - 1, interval);
    }
  }
}
