/**
 * The fixed-interval retry loop (retry.go). The retried function is an oracle
 * indexed by the loop counter: `op(n)` is what the call made while the
 * counter is `n` returns. The logger and `time.Sleep` are observable only as
 * the events the loop emits, in order.
 */
module Retries {
  import opened Common

  /** What one call of the retried function returns: nil or an error with a message. */
  datatype CallResult = Success | Failure(message: string)

  /** What the loop does, as an observer sees it. */
  datatype Event =
    | AttemptLogged(times: int)   // `Retry %d time`, logged before each call
    | Called                      // one call of the retried function
    | ErrorLogged(message: string) // `Retry func execute error: %s`
    | Slept                       // `time.Sleep(1 * time.Second)`

  /** The bound the loop compares its counter against: a `maxTimes` below 1 is taken as 1. */
  function Cap(maxTimes: int): (n: int)
    ensures n >= 1
    ensures maxTimes > 0 ==> n == maxTimes
    ensures maxTimes <= 0 ==> n == 1
  {
    if maxTimes <= 0 then 1 else maxTimes
  }

  /**
   * The events of the loop from the iteration whose counter is `current` on:
   * log the counter, call; stop on success or once the counter is above the
   * cap; otherwise log the error, sleep, and go on with the next counter.
   */
  function RunFrom(cap: int, current: int, op: int -> CallResult): seq<Event>
    decreases cap + 1 - current
  {
    [AttemptLogged(current), Called]
    + if op(current).Success? || current > cap then []
      else [ErrorLogged(op(current).message), Slept] + RunFrom(cap, current + 1, op)
  }

  /** The whole event sequence of `Retry(op, maxTimes)`. */
  function RetryLog(maxTimes: int, op: int -> CallResult): seq<Event> {
    RunFrom(Cap(maxTimes), 1, op)
  }

  /** The number of calls in an event sequence. */
  function Calls(log: seq<Event>): nat {
    if log == [] then 0 else (if log[0].Called? then 1 else 0) + Calls(log[1..])
  }

  /** The number of sleeps in an event sequence. */
  function Sleeps(log: seq<Event>): nat {
    if log == [] then 0 else (if log[0].Slept? then 1 else 0) + Sleeps(log[1..])
  }

  /** The counters logged, in order. */
  function Counters(log: seq<Event>): seq<int> {
    if log == [] then [] else (if log[0].AttemptLogged? then [log[0].times] else []) + Counters(log[1..])
  }

  /**
   * `Retry(retryableFunc, maxTimes, logger)`. `log` is what the loop did and
   * `calls` how many times it called `op`: every call before the last failed,
   * and the last one either succeeded or was made with the counter above the
   * cap, so at most `Cap(maxTimes) + 1` calls are made.
   */
  method Retry(op: int -> CallResult, maxTimes: int) returns (log: seq<Event>, calls: nat)
    ensures log == RetryLog(maxTimes, op)
    ensures 1 <= calls <= Cap(maxTimes) + 1
    ensures forall n :: 1 <= n < calls ==> op(n).Failure?
    ensures op(calls).Success? || calls == Cap(maxTimes) + 1
  {
    ghost var cap := Cap(maxTimes);
    var maxTimes := maxTimes;
    if maxTimes <= 0 {
      maxTimes := 1;
    }
    assert maxTimes == cap;
    var currentTimes := 1;
    log := [];
    calls := 0;
    while true
      invariant 1 <= currentTimes <= maxTimes + 1
      invariant calls == currentTimes - 1
      invariant forall n :: 1 <= n < currentTimes ==> op(n).Failure?
      invariant log + RunFrom(maxTimes, currentTimes, op) == RunFrom(cap, 1, op)
      decreases maxTimes + 1 - currentTimes
    {
      ghost var before := log;
      log := log + [AttemptLogged(currentTimes)];
      var err := op(currentTimes);
      log := log + [Called];
      calls := calls + 1;
      if err.Success? || currentTimes > maxTimes {
        LastIteration(before, maxTimes, currentTimes, op);
        break;
      }
      if err.Failure? {
        log := log + [ErrorLogged(err.message)];
      }
      log := log + [Slept];
      NextIteration(before, maxTimes, currentTimes, op);
      currentTimes := currentTimes + 1;
    }
  }

  /** The events of a last iteration, appended one by one, end the run. */
  lemma LastIteration(before: seq<Event>, cap: int, current: int, op: int -> CallResult)
    requires op(current).Success? || current > cap
    ensures before + [AttemptLogged(current)] + [Called] == before + RunFrom(cap, current, op)
  {
    AppendAssoc(before, [AttemptLogged(current)], [Called]);
  }

  /** The events of an iteration that goes on, appended one by one, lead to the next counter's run. */
  lemma NextIteration(before: seq<Event>, cap: int, current: int, op: int -> CallResult)
    requires !(op(current).Success? || current > cap)
    ensures before + [AttemptLogged(current)] + [Called] + [ErrorLogged(op(current).message)] + [Slept]
            + RunFrom(cap, current + 1, op)
         == before + RunFrom(cap, current, op)
  {
    var step := [AttemptLogged(current), Called, ErrorLogged(op(current).message), Slept];
    assert before + [AttemptLogged(current)] + [Called] + [ErrorLogged(op(current).message)] + [Slept]
        == before + step;
    assert RunFrom(cap, current, op) == step + RunFrom(cap, current + 1, op);
    AppendAssoc(before, step, RunFrom(cap, current + 1, op));
  }

  /** The counts over one iteration's opening events: a log line and a call. */
  lemma OpeningCounts(current: int, tail: seq<Event>)
    ensures Calls([AttemptLogged(current), Called] + tail) == 1 + Calls(tail)
    ensures Sleeps([AttemptLogged(current), Called] + tail) == Sleeps(tail)
    ensures Counters([AttemptLogged(current), Called] + tail) == [current] + Counters(tail)
  {
    var log := [AttemptLogged(current), Called] + tail;
    assert log[1..] == [Called] + tail;
    assert log[1..][1..] == tail;
  }

  /** The counts over one iteration's closing events: an error line and a sleep. */
  lemma ClosingCounts(message: string, rest: seq<Event>)
    ensures Calls([ErrorLogged(message), Slept] + rest) == Calls(rest)
    ensures Sleeps([ErrorLogged(message), Slept] + rest) == 1 + Sleeps(rest)
    ensures Counters([ErrorLogged(message), Slept] + rest) == Counters(rest)
  {
    var log := [ErrorLogged(message), Slept] + rest;
    assert log[1..] == [Slept] + rest;
    assert log[1..][1..] == rest;
  }

  /**
   * From counter `current` (at most one above the cap) on: the loop makes
   * `Calls` calls, logs counters `current`, `current + 1`, … one per call,
   * sleeps once less than it calls, calls with every counter up to the last
   * only after failures, and ends on a success or with the counter one above
   * the cap.
   */
  lemma {:induction false} RunFromShape(cap: int, current: int, op: int -> CallResult)
    requires current <= cap + 1
    ensures var log := RunFrom(cap, current, op);
      && 1 <= Calls(log) <= cap + 2 - current
      && Sleeps(log) == Calls(log) - 1
      && |Counters(log)| == Calls(log)
      && (forall k :: 0 <= k < |Counters(log)| ==> Counters(log)[k] == current + k)
      && (forall n :: current <= n < current + Calls(log) - 1 ==> op(n).Failure?)
      && (op(current + Calls(log) - 1).Success? || current + Calls(log) - 1 == cap + 1)
    decreases cap + 1 - current
  {
    var tail := if op(current).Success? || current > cap then []
      else [ErrorLogged(op(current).message), Slept] + RunFrom(cap, current + 1, op);
    OpeningCounts(current, tail);
    if tail != [] {
      RunFromShape(cap, current + 1, op);
      ClosingCounts(op(current).message, RunFrom(cap, current + 1, op));
    }
  }

  /** The whole loop: the properties of `RunFromShape` from counter 1 with the clamped cap. */
  lemma RetryShape(maxTimes: int, op: int -> CallResult)
    ensures var log := RetryLog(maxTimes, op);
      && 1 <= Calls(log) <= Cap(maxTimes) + 1
      && Sleeps(log) == Calls(log) - 1
      && |Counters(log)| == Calls(log)
      && (forall k :: 0 <= k < |Counters(log)| ==> Counters(log)[k] == k + 1)
      && (forall n :: 1 <= n < Calls(log) ==> op(n).Failure?)
      && (op(Calls(log)).Success? || Calls(log) == Cap(maxTimes) + 1)
  {
    RunFromShape(Cap(maxTimes), 1, op);
  }

  /** If every call fails, exactly `Cap(maxTimes) + 1` calls are made. */
  lemma AllFailuresExhaustRetries(maxTimes: int, op: int -> CallResult)
    requires forall n :: 1 <= n <= Cap(maxTimes) + 1 ==> op(n).Failure?
    ensures Calls(RetryLog(maxTimes, op)) == Cap(maxTimes) + 1
  {
    RetryShape(maxTimes, op);
  }

  /** A first call that succeeds is the only call, and nothing is slept. */
  lemma FirstSuccessStops(maxTimes: int, op: int -> CallResult)
    requires op(1).Success?
    ensures RetryLog(maxTimes, op) == [AttemptLogged(1), Called]
  {
  }

  /**
   * An error is logged only when another attempt follows: right after it
   * come a sleep and the next counter's log line; and the loop's last event
   * is the final call, whose error (if any) is not logged.
   */
  lemma {:induction false} ErrorLoggedOnlyBeforeRetry(cap: int, current: int, op: int -> CallResult)
    ensures var log := RunFrom(cap, current, op);
      && log[|log| - 1] == Called
      && forall i :: 0 <= i < |log| && log[i].ErrorLogged? ==>
           i + 2 < |log| && log[i + 1] == Slept && log[i + 2].AttemptLogged?
    decreases cap + 1 - current
  {
    var log := RunFrom(cap, current, op);
    if !(op(current).Success? || current > cap) {
      ErrorLoggedOnlyBeforeRetry(cap, current + 1, op);
      var rest := RunFrom(cap, current + 1, op);
      assert log == [AttemptLogged(current), Called, ErrorLogged(op(current).message), Slept] + rest;
      forall i | 0 <= i < |log| && log[i].ErrorLogged?
        ensures i + 2 < |log| && log[i + 1] == Slept && log[i + 2].AttemptLogged?
      {
        if i >= 4 {
          assert log[i] == rest[i - 4];
          assert i - 4 + 2 < |rest|;
          assert log[i + 1] == rest[i - 3] && log[i + 2] == rest[i - 2];
        } else {
          assert i == 2;
          assert log[4] == rest[0];
        }
      }
    }
  }
}
