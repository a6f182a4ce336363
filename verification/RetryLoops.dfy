/**
 * The deadline-bounded loops of the seed script and of the container runner. Time is a real
 * number that only moves forward: every clock reading and every outside call may take any
 * time, and a sleep lasts at least as long as was asked for.
 */
module Clocks {
  /** How long something took. */
  type Elapsed = x: real | x >= 0.0

  datatype Pause = Pause(at: real, duration: real)

  function Min(a: real, b: real): real { if a <= b then a else b }

  function Max(a: real, b: real): real { if a >= b then a else b }

  class Clock {
    var now: real
    var ticks: nat
    var pauses: seq<Pause>
    const drift: nat -> Elapsed

    constructor (start: real, drift: nat -> Elapsed)
      ensures now == start && ticks == 0 && pauses == [] && this.drift == drift
    {
      now, ticks, pauses, this.drift := start, 0, [], drift;
    }

    /** A clock reading; also any other moment at which time passes. */
    method Monotonic() returns (t: real)
      modifies `now, `ticks
      ensures t == now == old(now) + drift(old(ticks)) && ticks == old(ticks) + 1
    {
      now := now + drift(ticks);
      ticks := ticks + 1;
      t := now;
    }

    method Sleep(duration: real)
      requires duration >= 0.0
      modifies `now, `ticks, `pauses
      ensures now == old(now) + duration + drift(old(ticks)) && ticks == old(ticks) + 1
      ensures pauses == old(pauses) + [Pause(old(now), duration)]
    {
      pauses := pauses + [Pause(now, duration)];
      now := now + duration + drift(ticks);
      ticks := ticks + 1;
    }
  }
}

/** MonotonicDeadline and PipelineApiClient._request of the seed script. */
module HttpRetry {
  import opened Options
  import opened Clocks

  const MIN_DELAY := 0.05
  const MAX_DELAY := 5.0
  const INITIAL_BACKOFF := 0.25

  /** The first exponent at which Python cannot turn the power of two into a float. */
  const FLOAT_EXPONENT_LIMIT := 1024

  datatype Reply = TransportError | Response(status: nat, retryAfter: Option<Elapsed>)

  datatype Outcome =
    | Answered(status: nat)
    | DeadlineExhausted(attempts: nat)
    | AmbiguousFailure
    | BackoffOverflow

  datatype Sent = Sent(at: real, timeout: real)

  predicate Transient(status: nat) { status in {408, 425, 429} || 500 <= status < 600 }

  predicate Retryable(r: Reply) { r.TransportError? || Transient(r.status) }

  function RetryAfterOf(r: Reply): Option<Elapsed> {
    match r
    case TransportError => None
    case Response(_, header) => header
  }

  /** What ends the loop when a reply does. */
  function Final(r: Reply, mayRetry: bool): Outcome {
    if mayRetry && Retryable(r) then BackoffOverflow
    else if r.TransportError? then AmbiguousFailure
    else Answered(r.status)
  }

  /** A transport error, or one of the statuses that are worth another try. */
  ghost predicate FailedTransiently(r: Reply) {
    r.Response? ==> r.status == 408 || r.status == 425 || r.status == 429 || 500 <= r.status <= 599
  }

  lemma StatusesWrittenOut()
    ensures forall r :: Retryable(r) <==> FailedTransiently(r)
  {
  }

  lemma MethodsWrittenOut(httpMethod: string, retrySafe: bool)
    ensures MayRetry(httpMethod, retrySafe) <==> httpMethod in {"DELETE", "GET", "HEAD", "OPTIONS", "PUT"} || retrySafe
  {
  }

  const IDEMPOTENT_METHODS := {"DELETE", "GET", "HEAD", "OPTIONS", "PUT"}

  /** The method name is in upper case. */
  predicate MayRetry(httpMethod: string, retrySafe: bool) { httpMethod in IDEMPOTENT_METHODS || retrySafe }

  function Power(n: nat): (p: real)
    ensures p >= 1.0
  {
    if n == 0 then 1.0 else 2.0 * Power(n - 1)
  }

  /** No pause reaches past the deadline or lasts longer than the cap. */
  ghost predicate PauseFits(p: Pause, expiresAt: real) {
    p.at + p.duration <= expiresAt && 0.0 < p.duration <= MAX_DELAY
  }

  /** None stands for the OverflowError, which a Retry-After does not prevent. */
  function RetryDelay(attempts: nat, retryAfter: Option<Elapsed>): Option<real>
    requires attempts > 0
  {
    if attempts - 1 >= FLOAT_EXPONENT_LIMIT then None else
      var delay := if retryAfter.Some? then retryAfter.value else INITIAL_BACKOFF * Power(attempts - 1);
      Some(Min(MAX_DELAY, Max(MIN_DELAY, delay)))
  }

  lemma {:induction false} PowerGrows(a: nat, b: nat)
    requires a <= b
    ensures Power(a) <= Power(b)
  {
    if a < b { PowerGrows(a, b - 1); }
  }

  /**
   * Delays stay in range; without Retry-After they never shrink, double below the cap and sit at it
   * from the sixth on.
   */
  lemma DelayShape(n: nat, m: nat, retryAfter: Option<Elapsed>)
    requires 0 < n <= m <= FLOAT_EXPONENT_LIMIT
    ensures 0.05 <= RetryDelay(n, retryAfter).value <= 5.0 && RetryDelay(1, None) == Some(0.25)
    ensures RetryDelay(n, None).value <= RetryDelay(m, None).value
    ensures n < m && RetryDelay(n + 1, None).value < 5.0 ==>
              RetryDelay(n + 1, None).value == 2.0 * RetryDelay(n, None).value
    ensures RetryDelay(n, None).value == 5.0 <==> n >= 6
    ensures retryAfter.Some? ==>
              && (0.05 <= retryAfter.value <= 5.0 ==> RetryDelay(n, retryAfter).value == retryAfter.value)
              && (retryAfter.value < 0.05 ==> RetryDelay(n, retryAfter).value == 0.05)
              && (retryAfter.value > 5.0 ==> RetryDelay(n, retryAfter).value == 5.0)
  {
    PowerGrows(n - 1, m - 1);
    assert Power(4) == 16.0 && Power(5) == 32.0;
    if n >= 6 { PowerGrows(5, n - 1); } else { PowerGrows(n - 1, 4); }
  }

  // ---- The loop as a function of what the outside does ----

  /** The time and tick count after SleepBeforeRetry: two clock readings, then the sleep if any time is left. */
  function AfterPause(drift: nat -> Elapsed, delay: real, expiresAt: real, now: real, tick: nat): (real, nat)
  {
    var read := now + drift(tick) + drift(tick + 1);
    var duration := Min(Max(0.0, delay), Max(0.0, expiresAt - read));
    if duration > 0.0 then (read + duration + drift(tick + 2), tick + 3) else (read, tick + 2)
  }

  /** How the loop ends when `attempts` exchanges have failed transiently and the next reply is number `next`. */
  function OutcomeFrom(
    drift: nat -> Elapsed, replies: nat -> Reply, mayRetry: bool, expiresAt: real, now: real, tick: nat, next: nat,
    attempts: nat)
    : Outcome
    requires attempts <= FLOAT_EXPONENT_LIMIT
    decreases FLOAT_EXPONENT_LIMIT - attempts
  {
    var read, reply := now + drift(tick), replies(next);
    if expiresAt - read <= 0.0 then DeadlineExhausted(attempts)
    else if !mayRetry || !Retryable(reply) then Final(reply, mayRetry)
    else
      match RetryDelay(attempts + 1, RetryAfterOf(reply))
      case None => BackoffOverflow
      case Some(delay) =>
        var (later, after) := AfterPause(drift, delay, expiresAt, read + drift(tick + 1), tick + 2);
        OutcomeFrom(drift, replies, mayRetry, expiresAt, later, after, next + 1, attempts + 1)
  }

  /** One turn of the loop. */
  lemma OutcomeStep(
    drift: nat -> Elapsed, replies: nat -> Reply, mayRetry: bool, expiresAt: real, now: real, tick: nat, next: nat,
    attempts: nat)
    requires attempts <= FLOAT_EXPONENT_LIMIT
    ensures var read, reply, here := now + drift(tick), replies(next),
                OutcomeFrom(drift, replies, mayRetry, expiresAt, now, tick, next, attempts);
            && (expiresAt - read <= 0.0 ==> here == DeadlineExhausted(attempts))
            && (expiresAt - read > 0.0 && !(mayRetry && Retryable(reply)) ==> here == Final(reply, mayRetry))
            && (expiresAt - read > 0.0 && mayRetry && Retryable(reply) ==>
                  if attempts == FLOAT_EXPONENT_LIMIT then here == BackoffOverflow else
                    var delay := RetryDelay(attempts + 1, RetryAfterOf(reply)).value;
                    var (later, after) := AfterPause(drift, delay, expiresAt, read + drift(tick + 1), tick + 2);
                    here == OutcomeFrom(drift, replies, mayRetry, expiresAt, later, after, next + 1, attempts + 1))
  {
    hide AfterPause, Power;
  }

  class Client {
    const clock: Clock
    const requestTimeout: real
    const replies: nat -> Reply
    var sent: seq<Sent>

    constructor (clock: Clock, requestTimeout: real, replies: nat -> Reply)
      ensures this.clock == clock && sent == [] && this.replies == replies && this.requestTimeout == requestTimeout
    {
      this.clock, this.requestTimeout, this.replies := clock, requestTimeout, replies;
      sent := [];
    }

    /** One HTTP exchange: it goes out now and its reply arrives some time later. */
    method Exchange(timeout: real) returns (reply: Reply)
      modifies `sent, clock`now, clock`ticks
      ensures sent == old(sent) + [Sent(old(clock.now), timeout)]
      ensures reply == replies(|old(sent)|)
      ensures clock.now == old(clock.now) + clock.drift(old(clock.ticks)) && clock.ticks == old(clock.ticks) + 1
    {
      reply := replies(|sent|);
      sent := sent + [Sent(clock.now, timeout)];
      var _ := clock.Monotonic();
    }

    method Remaining(expiresAt: real) returns (r: real)
      modifies clock`now, clock`ticks
      ensures clock.now == old(clock.now) + clock.drift(old(clock.ticks)) && clock.ticks == old(clock.ticks) + 1
      ensures r == Max(0.0, expiresAt - clock.now)
    {
      var t := clock.Monotonic();
      r := Max(0.0, expiresAt - t);
    }

    /** Sleeps the delay or up to the deadline; either way no pause reaches past the deadline. */
    method SleepBeforeRetry(delay: real, expiresAt: real)
      requires delay >= 0.0
      modifies clock`now, clock`ticks, clock`pauses
      ensures (clock.now, clock.ticks) == AfterPause(clock.drift, delay, expiresAt, old(clock.now), old(clock.ticks))
      ensures clock.now >= Min(old(clock.now) + delay, expiresAt) && clock.now >= old(clock.now)
      ensures old(clock.pauses) <= clock.pauses && |clock.pauses| <= |old(clock.pauses)| + 1
      ensures forall i | |old(clock.pauses)| <= i < |clock.pauses| ::
                clock.pauses[i].at + clock.pauses[i].duration <= expiresAt && 0.0 < clock.pauses[i].duration <= delay
      ensures clock.now < expiresAt && delay > 0.0 ==>
                |clock.pauses| == |old(clock.pauses)| + 1 && clock.pauses[|old(clock.pauses)|].duration == delay
    {
      var _ := clock.Monotonic();
      var remaining := Remaining(expiresAt);
      var duration := Min(Max(0.0, delay), remaining);
      if duration > 0.0 { clock.Sleep(duration); }
    }

    ghost predicate RetriedSince(first: nat, last: nat, mayRetry: bool) {
      forall i | first <= i < last :: mayRetry && Retryable(replies(i))
    }

    /** The k-th retry since `first` waited exactly the delay its attempt and reply ask for. */
    ghost predicate Waited(pauses: seq<Pause>, firstPause: nat, first: nat, retries: int) {
      && firstPause + retries <= |pauses| && retries < FLOAT_EXPONENT_LIMIT + 1
      && forall k | 0 <= k < retries :: WaitedAt(pauses, firstPause, first, k)
    }

    ghost predicate WaitedAt(pauses: seq<Pause>, firstPause: nat, first: nat, k: int) {
      && 0 <= k && firstPause + k < |pauses|
      && RetryDelay(k + 1, RetryAfterOf(replies(first + k))) == Some(pauses[firstPause + k].duration)
    }

    ghost predicate SentFit(s: Sent, expiresAt: real) {
      s.at < expiresAt && s.timeout == Min(requestTimeout, expiresAt - s.at)
    }

    /** One turn of the loop; None goes on to the next attempt. */
    method Turn(attempts: nat, mayRetry: bool, expiresAt: real) returns (end: Option<Outcome>)
      requires attempts <= FLOAT_EXPONENT_LIMIT
      modifies `sent, clock`now, clock`ticks, clock`pauses
      ensures clock.now >= old(clock.now) && old(clock.pauses) <= clock.pauses
      ensures end.None? ==> attempts < FLOAT_EXPONENT_LIMIT
      ensures OutcomeFrom(clock.drift, replies, mayRetry, expiresAt, old(clock.now), old(clock.ticks),
                          |old(sent)|, attempts) ==
              match end
              case Some(outcome) => outcome
              case None =>
                OutcomeFrom(clock.drift, replies, mayRetry, expiresAt, clock.now, clock.ticks, |sent|, attempts + 1)
      ensures sent == old(sent) ==>
                end == Some(DeadlineExhausted(attempts)) && clock.now >= expiresAt && clock.pauses == old(clock.pauses)
      ensures sent != old(sent) ==>
                && old(sent) <= sent && |sent| == |old(sent)| + 1
                && SentFit(sent[|old(sent)|], expiresAt) && old(clock.now) < expiresAt
                && match end
                   case Some(outcome) =>
                     && outcome == Final(replies(|old(sent)|), mayRetry) && clock.pauses == old(clock.pauses)
                     && (outcome.BackoffOverflow? ==> attempts == FLOAT_EXPONENT_LIMIT)
                   case None =>
                     && mayRetry && Retryable(replies(|old(sent)|))
                     && clock.now >= Min(old(clock.now) + MIN_DELAY, expiresAt)
                     && |clock.pauses| <= |old(clock.pauses)| + 1
                     && (forall i | |old(clock.pauses)| <= i < |clock.pauses| :: PauseFits(clock.pauses[i], expiresAt))
                     && (clock.now < expiresAt ==>
                           |clock.pauses| == |old(clock.pauses)| + 1
                           && RetryDelay(attempts + 1, RetryAfterOf(replies(|old(sent)|)))
                              == Some(clock.pauses[|old(clock.pauses)|].duration))
    {
      hide OutcomeFrom, AfterPause, Power;
      OutcomeStep(clock.drift, replies, mayRetry, expiresAt, clock.now, clock.ticks, |sent|, attempts);
      var remaining := Remaining(expiresAt);
      if remaining <= 0.0 { return Some(DeadlineExhausted(attempts)); }
      var reply := Exchange(Min(requestTimeout, remaining));
      match reply {
        case TransportError =>
          if !mayRetry { return Some(AmbiguousFailure); }
        case Response(status, _) =>
          if !Transient(status) || !mayRetry { return Some(Answered(status)); }
      }
      var delay := RetryDelay(attempts + 1, RetryAfterOf(reply));
      if delay.None? { return Some(BackoffOverflow); }
      SleepBeforeRetry(delay.value, expiresAt);
      return None;
    }

    /**
     * Retries transient failures until the deadline. With a budget (the time to the deadline),
     * fewer than budget / 0.05 + 1 attempts are made; no timeout and no pause reaches past the
     * deadline; every retry waited what its attempt and reply ask for; what may not be retried
     * is sent at most once; and the outcome is that of the last exchange, all earlier ones
     * having failed transiently.
     */
    method Request(httpMethod: string, retrySafe: bool, expiresAt: real) returns (outcome: Outcome)
      modifies `sent, clock`now, clock`ticks, clock`pauses
      ensures old(sent) <= sent && old(clock.pauses) <= clock.pauses
      ensures clock.now >= old(clock.now)
      ensures outcome == OutcomeFrom(clock.drift, replies, MayRetry(httpMethod, retrySafe), expiresAt, old(clock.now),
                                     old(clock.ticks), |old(sent)|, 0)
      ensures var attempts, mayRetry := |sent| - |old(sent)|, MayRetry(httpMethod, retrySafe);
              && (attempts > 0 ==> (attempts - 1) as real * 0.05 < expiresAt - old(clock.now))
              && (!mayRetry ==> attempts <= 1)
              && (outcome.DeadlineExhausted? ==> outcome.attempts == attempts && clock.now >= expiresAt
                                                 && RetriedSince(|old(sent)|, |sent|, mayRetry))
              && (!outcome.DeadlineExhausted? ==>
                    && attempts > 0 && RetriedSince(|old(sent)|, |sent| - 1, mayRetry)
                    && outcome == Final(replies(|sent| - 1), mayRetry))
              && (outcome.BackoffOverflow? <==> attempts == FLOAT_EXPONENT_LIMIT + 1 && mayRetry
                                                && Retryable(replies(|sent| - 1)))
              && attempts <= FLOAT_EXPONENT_LIMIT + 1
              && Waited(clock.pauses, |old(clock.pauses)|, |old(sent)|, attempts - 1)
      ensures forall i | |old(sent)| <= i < |sent| :: SentFit(sent[i], expiresAt)
      ensures forall i | |old(clock.pauses)| <= i < |clock.pauses| :: PauseFits(clock.pauses[i], expiresAt)
      ensures httpMethod in {"DELETE", "GET", "HEAD", "OPTIONS", "PUT"} || retrySafe ==>
                && (outcome.Answered? ==> outcome.status !in {408, 425, 429} && !(500 <= outcome.status < 600))
                && outcome != AmbiguousFailure
      ensures httpMethod !in {"DELETE", "GET", "HEAD", "OPTIONS", "PUT"} && !retrySafe ==> |sent| <= |old(sent)| + 1
      ensures forall i | |old(sent)| <= i < |sent| - 1 :: FailedTransiently(replies(i))
    {
      hide OutcomeFrom, RetryDelay, MayRetry;
      MethodsWrittenOut(httpMethod, retrySafe);
      StatusesWrittenOut();
      var mayRetry := MayRetry(httpMethod, retrySafe);
      var attempts := 0;
      while true
        invariant old(sent) <= sent && old(clock.pauses) <= clock.pauses
        invariant attempts == |sent| - |old(sent)| <= FLOAT_EXPONENT_LIMIT
        invariant clock.now >= old(clock.now)
        invariant OutcomeFrom(clock.drift, replies, mayRetry, expiresAt, old(clock.now), old(clock.ticks),
                              |old(sent)|, 0)
                  == OutcomeFrom(clock.drift, replies, mayRetry, expiresAt, clock.now, clock.ticks, |sent|, attempts)
        invariant clock.now >= expiresAt || clock.now >= old(clock.now) + attempts as real * MIN_DELAY
        invariant attempts > 0 ==> (attempts - 1) as real * MIN_DELAY < expiresAt - old(clock.now)
        invariant Waited(clock.pauses, |old(clock.pauses)|, |old(sent)|,
                         if clock.now < expiresAt then attempts else attempts - 1)
        invariant clock.now < expiresAt ==> |clock.pauses| == |old(clock.pauses)| + attempts
        invariant RetriedSince(|old(sent)|, |sent|, mayRetry) && (!mayRetry ==> attempts == 0)
        invariant forall i | |old(sent)| <= i < |sent| :: SentFit(sent[i], expiresAt)
        invariant forall i | |old(clock.pauses)| <= i < |clock.pauses| :: PauseFits(clock.pauses[i], expiresAt)
        decreases FLOAT_EXPONENT_LIMIT - attempts
      {
        ghost var before := clock.pauses;
        var end := Turn(attempts, mayRetry, expiresAt);
        if end.Some? { return end.value; }
        attempts := attempts + 1;
        forall k | 0 <= k < if clock.now < expiresAt then attempts else attempts - 1
          ensures WaitedAt(clock.pauses, |old(clock.pauses)|, |old(sent)|, k)
        {
          if k < attempts - 1 { assert WaitedAt(before, |old(clock.pauses)|, |old(sent)|, k); }
        }
      }
    }
  }

  // ---- When the backoff overflows ----

  /** Each retry used up a minimal delay, so overflowing takes more than what the attempts still to come need. */
  lemma {:induction false} OverflowTakesTime(
    drift: nat -> Elapsed, replies: nat -> Reply, mayRetry: bool, expiresAt: real, now: real, tick: nat, next: nat,
    attempts: nat)
    requires attempts <= FLOAT_EXPONENT_LIMIT
    requires OutcomeFrom(drift, replies, mayRetry, expiresAt, now, tick, next, attempts).BackoffOverflow?
    ensures mayRetry && expiresAt - now > (FLOAT_EXPONENT_LIMIT - attempts) as real * MIN_DELAY
    decreases FLOAT_EXPONENT_LIMIT - attempts
  {
    if attempts < FLOAT_EXPONENT_LIMIT {
      var read, reply := now + drift(tick), replies(next);
      var delay := RetryDelay(attempts + 1, RetryAfterOf(reply)).value;
      var (later, after) := AfterPause(drift, delay, expiresAt, read + drift(tick + 1), tick + 2);
      OverflowTakesTime(drift, replies, mayRetry, expiresAt, later, after, next + 1, attempts + 1);
    }
  }

  const INSTANT: nat -> Elapsed := (n: nat) => 0.0
  const BUSY: nat -> Reply := (n: nat) => Response(503, Some(0.05))

  /**
   * An instant clock and a server that always answers 503 with a short Retry-After overflow
   * whenever the time suffices.
   */
  lemma {:induction false} BusyServerOverflows(expiresAt: real, now: real, tick: nat, next: nat, attempts: nat)
    requires attempts <= FLOAT_EXPONENT_LIMIT
    requires expiresAt - now > (FLOAT_EXPONENT_LIMIT - attempts) as real * MIN_DELAY
    ensures OutcomeFrom(INSTANT, BUSY, true, expiresAt, now, tick, next, attempts).BackoffOverflow?
    decreases FLOAT_EXPONENT_LIMIT - attempts
  {
    if attempts < FLOAT_EXPONENT_LIMIT {
      assert RetryDelay(attempts + 1, Some(0.05)) == Some(MIN_DELAY);
      var (later, after) := AfterPause(INSTANT, MIN_DELAY, expiresAt, now, tick + 2);
      assert later == now + MIN_DELAY;
      BusyServerOverflows(expiresAt, later, after, next + 1, attempts + 1);
    }
  }

  /** Some clock and some replies make the request overflow. */
  ghost predicate CanOverflow(mayRetry: bool, expiresAt: real, now: real, tick: nat, next: nat) {
    exists drift, replies :: OutcomeFrom(drift, replies, mayRetry, expiresAt, now, tick, next, 0).BackoffOverflow?
  }

  /** A request can overflow exactly when it may be retried and its budget exceeds 51.2 seconds. */
  lemma OverflowExactly(mayRetry: bool, expiresAt: real, now: real, tick: nat, next: nat)
    ensures CanOverflow(mayRetry, expiresAt, now, tick, next) <==> mayRetry && expiresAt - now > 51.2
  {
    if mayRetry && expiresAt - now > 51.2 {
      BusyServerOverflows(expiresAt, now, tick, next, 0);
    }
    if CanOverflow(mayRetry, expiresAt, now, tick, next) {
      var drift, replies :| OutcomeFrom(drift, replies, mayRetry, expiresAt, now, tick, next, 0).BackoffOverflow?;
      OverflowTakesTime(drift, replies, mayRetry, expiresAt, now, tick, next, 0);
    }
  }

  /** With the default budget a GET to a busy server ends in the overflow, although every response says Retry-After. */
  method DefaultBudgetOverflows() returns (outcome: Outcome)
    ensures outcome == BackoffOverflow
  {
    var clock := new Clock(0.0, INSTANT);
    var client := new Client(clock, 20.0, BUSY);
    BusyServerOverflows(180.0, 0.0, 0, 0, 0);
    outcome := client.Request("GET", false, 180.0);
  }
}

/** The two consumer wait loops of the container runner. */
module ConsumerWait {
  import opened Clocks

  const RABBITMQCTL_TIMEOUT := 10.0
  const MIN_INSPECTION_TIMEOUT := 0.1

  /** One look at the broker, or a transient failure of the command. */
  datatype Inspection<T> = Observed(value: T) | Failed

  /** SleepRejected is the ValueError of sleeping a negative time. */
  datatype Wait<T> = Ready(attempts: nat) | TimedOut(attempts: nat, lastObserved: T) | SleepRejected(attempts: nat)

  class Broker<T(0)> {
    const clock: Clock
    const script: nat -> Inspection<T>
    var inspections: seq<Pause>

    constructor (clock: Clock, script: nat -> Inspection<T>)
      ensures this.clock == clock && this.script == script && inspections == []
    {
      this.clock, this.script, inspections := clock, script, [];
    }

    /** rabbitmqctl list_consumers with its own timeout. */
    method Inspect(timeout: real) returns (seen: Inspection<T>)
      modifies `inspections, clock`now, clock`ticks
      ensures inspections == old(inspections) + [Pause(old(clock.now), timeout)]
      ensures seen == script(|old(inspections)|)
      ensures clock.now == old(clock.now) + clock.drift(old(clock.ticks)) && clock.ticks == old(clock.ticks) + 1
    {
      seen := script(|inspections|);
      inspections := inspections + [Pause(clock.now, timeout)];
      var _ := clock.Monotonic();
    }

    /** One turn of the loop: inspect if there is time, then sleep if there still is. */
    method Poll(lastObserved: T, good: T -> bool, expires: real, poll: real) returns (end: PollEnd, observed: T)
      modifies `inspections, clock`now, clock`ticks, clock`pauses
      ensures clock.now >= old(clock.now) && clock.ticks > old(clock.ticks)
      ensures poll == 0.0 ==>
                clock.now == old(clock.now) + TotalDrift(clock.drift, old(clock.ticks), clock.ticks - old(clock.ticks))
      ensures clock.pauses == old(clock.pauses)
              || (|clock.pauses| == |old(clock.pauses)| + 1 && old(clock.pauses) <= clock.pauses
                  && PauseFits(clock.pauses[|old(clock.pauses)|], expires, poll))
      ensures inspections == old(inspections) ==> end.Expired? && observed == lastObserved && clock.now >= expires
      ensures inspections != old(inspections) ==>
                && |inspections| == |old(inspections)| + 1 && old(inspections) <= inspections
                && InspectionFits(inspections[|old(inspections)|], expires) && old(clock.now) < expires
                && Judged(script(|old(inspections)|), good, lastObserved, observed, end.Good?)
                && (end.GoOn? ==> poll >= 0.0 && clock.now >= Min(old(clock.now) + poll, expires))
                && (end.Expired? ==> clock.now >= expires)
                && (end.Rejected? ==> poll < 0.0)
    {
      hide TotalDrift;
      var t := clock.Monotonic();
      DriftStep(clock.drift, old(clock.ticks), 0);
      if expires - t <= 0.0 { return Expired, lastObserved; }
      var seen := Inspect(Max(MIN_INSPECTION_TIMEOUT, Min(RABBITMQCTL_TIMEOUT, expires - t)));
      DriftStep(clock.drift, old(clock.ticks), 1);
      observed := lastObserved;
      if seen.Observed? {
        observed := seen.value;
        if good(observed) { return Good, observed; }
      }
      t := clock.Monotonic();
      DriftStep(clock.drift, old(clock.ticks), 2);
      if expires - t <= 0.0 { return Expired, observed; }
      if Min(poll, expires - t) < 0.0 { return Rejected, observed; }
      clock.Sleep(Min(poll, expires - t));
      DriftStep(clock.drift, old(clock.ticks), 3);
      end := GoOn;
    }

    /**
     * The loop of both waits: inspect, return on a good observation, otherwise sleep a poll
     * interval or up to the deadline. Fewer than timeout / poll + 1 inspections are made. With a
     * zero interval only the clock's own readings move time on, and the loop ends exactly if
     * these reach the deadline or an observation is good, within some horizon; a negative one is
     * refused at the first sleep.
     */
    method WaitUntil(initial: T, good: T -> bool, timeout: real, poll: real, ghost horizon: nat)
      returns (r: Wait<T>, ghost deadline: real)
      requires poll == 0.0 ==> Ends(script, |inspections|, good, clock.drift, clock.ticks + 1, timeout, horizon)
      modifies `inspections, clock`now, clock`ticks, clock`pauses
      ensures old(inspections) <= inspections && deadline >= old(clock.now) + timeout
      ensures WaitedCorrectly(script, |old(inspections)|, |inspections|, initial, good, clock.now, deadline,
                              timeout, poll, horizon, r)
      ensures PausesFit(clock.pauses, |old(clock.pauses)|, deadline, poll)
      ensures InspectionsFit(inspections, |old(inspections)|, deadline)
    {
      hide Due, PollBound, LastObserved, Ends, TotalDrift, PauseFits, InspectionFits;
      ObservedStep(script, |inspections|, |inspections|, initial);
      FirstPoll(poll, timeout);
      var started := clock.Monotonic();
      ghost var begun := clock.ticks;
      var expires := started + timeout;
      deadline := expires;
      var attempts, lastObserved := 0, initial;
      DriftStep(clock.drift, begun, 0);
      while true
        invariant old(inspections) <= inspections && attempts == |inspections| - |old(inspections)|
        invariant clock.ticks >= begun + attempts && (poll < 0.0 ==> attempts == 0)
        invariant poll > 0.0 ==> clock.now >= Min(started + Due(attempts, poll), expires)
        invariant poll == 0.0 ==> clock.now == started + TotalDrift(clock.drift, begun, clock.ticks - begun)
        invariant AttemptsFit(attempts, timeout, poll, horizon)
        invariant NeverGood(script, |old(inspections)|, |inspections|, good)
        invariant lastObserved == LastObserved(script, |old(inspections)|, |inspections|, initial)
        invariant PausesFit(clock.pauses, |old(clock.pauses)|, expires, poll)
        invariant InspectionsFit(inspections, |old(inspections)|, expires)
        decreases TurnBound(timeout, poll, horizon) - attempts
      {
        ghost var ticks, now := clock.ticks, clock.now;
        if now < expires {
          NextPollFits(script, |old(inspections)|, good, clock.drift, begun, ticks, attempts, timeout, poll, horizon);
        }
        ObservedStep(script, |old(inspections)|, |inspections|, initial);
        var end, made := Expired, |inspections|;
        end, lastObserved := Poll(lastObserved, good, expires, poll);
        attempts := attempts + (|inspections| - made);
        if poll == 0.0 { DriftAdds(clock.drift, begun, ticks - begun, clock.ticks - ticks); }
        if end.Good? { return Ready(attempts), deadline; }
        if end.Expired? { break; }
        if end.Rejected? { return SleepRejected(attempts), deadline; }
      }
      r := TimedOut(attempts, lastObserved);
    }
  }

  /** How one turn ends. */
  datatype PollEnd = GoOn | Good | Expired | Rejected

  /** The last observation after one more inspection, and whether it was good. */
  ghost predicate Judged<T>(seen: Inspection<T>, good: T -> bool, before: T, observed: T, isGood: bool) {
    observed == (if seen.Observed? then seen.value else before) && (isGood <==> seen.Observed? && good(observed))
  }

  ghost predicate NeverGood<T>(script: nat -> Inspection<T>, first: nat, last: nat, good: T -> bool) {
    forall i | first <= i < last :: !(script(i).Observed? && good(script(i).value))
  }

  /** The value of the last successful inspection in the range, or the initial one. */
  ghost function LastObserved<T>(script: nat -> Inspection<T>, first: nat, last: nat, initial: T): T
    requires first <= last
    decreases last
  {
    if first == last then initial
    else if script(last - 1).Observed? then script(last - 1).value
    else LastObserved(script, first, last - 1, initial)
  }

  lemma ObservedStep<T>(script: nat -> Inspection<T>, first: nat, last: nat, initial: T)
    requires first <= last
    ensures LastObserved(script, first, first, initial) == initial
    ensures LastObserved(script, first, last + 1, initial)
            == if script(last).Observed? then script(last).value else LastObserved(script, first, last, initial)
  {
  }

  /** What every wait guarantees: it returns at the first good observation, or after the deadline without one. */
  ghost predicate WaitedCorrectly<T>(
    script: nat -> Inspection<T>, first: nat, last: nat, initial: T, good: T -> bool, ended: real, deadline: real,
    timeout: real, poll: real, horizon: nat, r: Wait<T>)
    requires first <= last
  {
    && r.attempts == last - first
    && AttemptsFit(r.attempts, timeout, poll, horizon)
    && match r
       case Ready(_) =>
         && first < last && script(last - 1).Observed? && good(script(last - 1).value)
         && NeverGood(script, first, last - 1, good)
       case TimedOut(_, observed) =>
         && NeverGood(script, first, last, good) && ended >= deadline
         && observed == LastObserved(script, first, last, initial)
       case SleepRejected(_) =>
         poll < 0.0 && r.attempts == 1 && NeverGood(script, first, last, good)
  }

  // ---- How often a wait can poll ----

  /** The least time n polls take. */
  function Due(n: nat, poll: real): real { n as real * poll }

  /** Fewer than timeout / poll + 1 inspections, at most `horizon` with a zero interval, one with a negative one. */
  ghost predicate AttemptsFit(attempts: nat, timeout: real, poll: real, horizon: nat) {
    if poll > 0.0 then attempts > 0 ==> Due(attempts - 1, poll) < timeout
    else if poll == 0.0 then attempts <= horizon
    else attempts <= 1
  }

  function PollBound(timeout: real, poll: real): int
    requires poll > 0.0
  {
    (timeout / poll).Floor + 1
  }

  function TurnBound(timeout: real, poll: real, horizon: nat): int {
    if poll > 0.0 then PollBound(timeout, poll) else if poll == 0.0 then horizon else 1
  }

  /** How far the clock's own readings move in n ticks. */
  function TotalDrift(drift: nat -> Elapsed, from: nat, n: nat): real {
    if n == 0 then 0.0 else TotalDrift(drift, from, n - 1) + drift(from + n - 1)
  }

  lemma DriftStep(drift: nat -> Elapsed, from: nat, n: nat)
    ensures TotalDrift(drift, from, 0) == 0.0
    ensures TotalDrift(drift, from, n + 1) == TotalDrift(drift, from, n) + drift(from + n)
  {
  }

  lemma {:induction false} DriftAdds(drift: nat -> Elapsed, from: nat, n: nat, m: nat)
    ensures TotalDrift(drift, from, n + m) == TotalDrift(drift, from, n) + TotalDrift(drift, from + n, m)
  {
    if m > 0 { DriftAdds(drift, from, n, m - 1); }
  }

  lemma {:induction false} DriftGrows(drift: nat -> Elapsed, from: nat, n: nat, m: nat)
    requires n <= m
    ensures TotalDrift(drift, from, n) <= TotalDrift(drift, from, m)
  {
    if n < m { DriftGrows(drift, from, n, m - 1); }
  }

  /** With a zero interval: the clock passes the deadline, or an observation is good, within the horizon. */
  ghost predicate Ends<T>(
    script: nat -> Inspection<T>, first: nat, good: T -> bool, drift: nat -> Elapsed, tick: nat, timeout: real,
    horizon: nat)
  {
    || TotalDrift(drift, tick, horizon) >= timeout
    || exists i | first <= i < first + horizon :: script(i).Observed? && good(script(i).value)
  }

  lemma DivideLess(a: real, b: real, d: real)
    requires d > 0.0 && a < b
    ensures a / d < b / d
  {
    assert a / d * d == a && b / d * d == b;
  }

  lemma OneMorePoll(attempts: nat, poll: real, timeout: real)
    requires poll > 0.0
    ensures Due(0, poll) == 0.0 && Due(attempts + 1, poll) == Due(attempts, poll) + poll
    ensures Due(attempts, poll) < timeout ==> attempts < PollBound(timeout, poll)
  {
    if Due(attempts, poll) < timeout {
      DivideLess(attempts as real * poll, timeout, poll);
      assert attempts as real * poll / poll == attempts as real;
    }
  }

  lemma FirstPoll(poll: real, timeout: real)
    ensures Due(0, poll) == 0.0
  {
  }

  /** As long as there is time left, one more inspection stays within the bound. */
  lemma NextPollFits<T>(
    script: nat -> Inspection<T>, first: nat, good: T -> bool, drift: nat -> Elapsed, begun: nat, ticks: nat,
    attempts: nat, timeout: real, poll: real, horizon: nat)
    requires NeverGood(script, first, first + attempts, good) && ticks >= begun + attempts
    requires poll > 0.0 ==> Due(attempts, poll) < timeout
    requires poll == 0.0 ==>
               && TotalDrift(drift, begun, ticks - begun) < timeout
               && Ends(script, first, good, drift, begun, timeout, horizon)
    requires poll < 0.0 ==> attempts == 0
    ensures attempts < TurnBound(timeout, poll, horizon) && AttemptsFit(attempts + 1, timeout, poll, horizon)
    ensures Due(attempts + 1, poll) == Due(attempts, poll) + poll
  {
    if poll > 0.0 { OneMorePoll(attempts, poll, timeout); }
    if poll == 0.0 && horizon <= ticks - begun { DriftGrows(drift, begun, horizon, ticks - begun); }
  }

  /** A pause lasts a poll interval or up to the deadline. */
  ghost predicate PauseFits(p: Pause, deadline: real, poll: real) {
    p.at < deadline && p.duration == Min(poll, deadline - p.at)
  }

  ghost predicate PausesFit(pauses: seq<Pause>, first: nat, deadline: real, poll: real) {
    first <= |pauses| && forall i | first <= i < |pauses| :: PauseFits(pauses[i], deadline, poll)
  }

  /** An inspection starts before the deadline and may take what is left, at most 10 seconds but at least 0.1. */
  ghost predicate InspectionFits(p: Pause, deadline: real) {
    p.at < deadline && p.duration == Max(MIN_INSPECTION_TIMEOUT, Min(RABBITMQCTL_TIMEOUT, deadline - p.at))
  }

  ghost predicate InspectionsFit(inspections: seq<Pause>, first: nat, deadline: real) {
    first <= |inspections| && forall i | first <= i < |inspections| :: InspectionFits(inspections[i], deadline)
  }

  /** How far an inspection begun at `at` may run past the deadline. */
  function Overrun(at: real, deadline: real): real {
    at + Max(MIN_INSPECTION_TIMEOUT, Min(RABBITMQCTL_TIMEOUT, deadline - at)) - deadline
  }

  /** An inspection may outlast the deadline exactly when less than 0.1 seconds are left, and then by less than that. */
  lemma InspectionOverruns(at: real, deadline: real)
    requires at < deadline
    ensures Overrun(at, deadline) > 0.0 <==> deadline - at < 0.1
    ensures Overrun(at, deadline) < 0.1
    ensures deadline - at > 10.0 ==> Overrun(at, deadline) == 10.0 - (deadline - at)
    ensures at == 0.0 && deadline == 0.05 ==> Overrun(at, deadline) == 0.05
  {
  }

  /** Every required queue has a consumer. */
  method WaitForPipelineConsumers(
    broker: Broker<set<string>>, required: set<string>, timeout: real, poll: real, ghost horizon: nat)
    returns (r: Wait<set<string>>, ghost deadline: real)
    requires poll == 0.0 ==> Ends(broker.script, |broker.inspections|, (seen: set<string>) => required <= seen,
                                  broker.clock.drift, broker.clock.ticks + 1, timeout, horizon)
    modifies broker`inspections, broker.clock`now, broker.clock`ticks, broker.clock`pauses
    ensures old(broker.inspections) <= broker.inspections && deadline >= old(broker.clock.now) + timeout
    ensures WaitedCorrectly(broker.script, |old(broker.inspections)|, |broker.inspections|, {},
                            (seen: set<string>) => required <= seen, broker.clock.now, deadline, timeout, poll,
                            horizon, r)
    ensures PausesFit(broker.clock.pauses, |old(broker.clock.pauses)|, deadline, poll)
    ensures InspectionsFit(broker.inspections, |old(broker.inspections)|, deadline)
  {
    r, deadline := broker.WaitUntil({}, (seen: set<string>) => required <= seen, timeout, poll, horizon);
  }

  type Ownership = map<string, seq<string>>

  /** Every expected queue has exactly one consumer, of the expected role. */
  predicate OwnedExactly(o: Ownership, expected: map<string, string>) {
    forall q | q in expected :: (if q in o then o[q] else []) == [expected[q]]
  }

  /** A queue nobody consumes is not owned, whatever role is expected. */
  lemma OwnedMeans(expected: map<string, string>)
    ensures forall o :: OwnedExactly(o, expected) <==> forall q | q in expected :: q in o && o[q] == [expected[q]]
  {
  }

  method WaitForPipelineConsumerOwnership(
    broker: Broker<Ownership>, expected: map<string, string>, timeout: real, poll: real, ghost horizon: nat)
    returns (r: Wait<Ownership>, ghost deadline: real)
    requires poll == 0.0 ==>
               Ends(broker.script, |broker.inspections|, (seen: Ownership) => OwnedExactly(seen, expected),
                    broker.clock.drift, broker.clock.ticks + 1, timeout, horizon)
    modifies broker`inspections, broker.clock`now, broker.clock`ticks, broker.clock`pauses
    ensures old(broker.inspections) <= broker.inspections && deadline >= old(broker.clock.now) + timeout
    ensures WaitedCorrectly(broker.script, |old(broker.inspections)|, |broker.inspections|, map[],
                            (seen: Ownership) => OwnedExactly(seen, expected), broker.clock.now, deadline, timeout,
                            poll, horizon, r)
    ensures r.Ready? ==>
              && |old(broker.inspections)| < |broker.inspections|
              && var last := broker.script(|broker.inspections| - 1);
              && last.Observed?
              && forall q | q in expected :: q in last.value && last.value[q] == [expected[q]]
    ensures PausesFit(broker.clock.pauses, |old(broker.clock.pauses)|, deadline, poll)
    ensures InspectionsFit(broker.inspections, |old(broker.inspections)|, deadline)
  {
    OwnedMeans(expected);
    r, deadline := broker.WaitUntil(map[], (seen: Ownership) => OwnedExactly(seen, expected), timeout, poll, horizon);
  }
}
