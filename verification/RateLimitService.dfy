/**
 * The request path of memexpert/api/security.py over a shared Redis key. Between the
 * commands of one request any schedule of other requests, clock ticks and crashes may
 * run. The bucket's log is the schedule so far; its history is that schedule's outcome
 * in the transition system, so whatever holds of all runs holds of every bucket.
 */
module RateLimitService {
  import opened Options
  import opened RateLimiter

  class Bucket {
    const policy: Policy
    const start: int
    var clock: int
    // The key as Redis stores it; an expired key may linger until it is next touched.
    var present: bool
    var counter: nat
    var expiry: Option<int>
    var history: State
    ghost var log: seq<Event>

    ghost predicate Valid() reads this {
      && ValidPolicy(policy)
      && Run(policy, Initial(start), log) == Some(history)
      && history.now == clock
      && (history.Alive() ==> present && counter == |history.Last().members| && expiry == history.Last().expiry)
      && (!history.Alive() && present ==> expiry.Some? && expiry.value <= clock)
    }

    constructor (policy: Policy, start: int)
      requires ValidPolicy(policy)
      ensures Valid() && this.policy == policy && this.start == start && log == [] && history == Initial(start)
    {
      this.policy, this.start := policy, start;
      clock, present, counter, expiry := start, false, 0, None;
      history, log := Initial(start), [];
    }

    /** The ghost half of a command: the event joins the log. */
    ghost method Record(e: Event)
      requires Run(policy, Initial(start), log) == Some(history) && Enabled(history, e)
      modifies `log
      ensures log == old(log) + [e] && Run(policy, Initial(start), log) == Some(Apply(policy, history, e))
    {
      assert Run(policy, Apply(policy, history, e), []) == Some(Apply(policy, history, e));
      RunConcat(policy, Initial(start), log, [e]);
      log := log + [e];
    }

    /** Redis drops a key whose expiry has passed before it serves a command. */
    method Purge()
      requires Valid()
      modifies `present
      ensures Valid() && present == history.Alive()
    {
      if present && expiry.Some? && expiry.value <= clock { present := false; }
    }

    method Incr(r: nat) returns (value: nat)
      requires Valid() && r !in history.requests
      modifies this
      ensures Valid() && log == old(log) + [Event.Incr(r)]
      ensures history == ApplyIncr(old(history), r) && value == history.requests[r].count
    {
      Purge();
      if present {
        counter := counter + 1;
      } else {
        present, counter, expiry := true, 1, None;
      }
      Record(Event.Incr(r));
      history := Apply(policy, history, Event.Incr(r));
      value := counter;
    }

    method ReadTtl(r: nat) returns (ttl: int)
      requires Valid() && Enabled(history, Event.ReadTtl(r))
      modifies this
      ensures Valid() && log == old(log) + [Event.ReadTtl(r)]
      ensures ttl == old(history).Ttl() && history == Apply(policy, old(history), Event.ReadTtl(r))
      ensures ttl >= 0 ==> expiry == Some(clock + ttl)
    {
      Purge();
      ttl := if !present then -2 else if expiry.None? then -1 else expiry.value - clock;
      Record(Event.ReadTtl(r));
      history := Apply(policy, history, Event.ReadTtl(r));
    }

    method SetExpiry(r: nat, heard: bool) returns (applied: bool)
      requires Valid() && Enabled(history, Event.SetExpiry(r, heard))
      modifies this
      ensures Valid() && log == old(log) + [Event.SetExpiry(r, heard)]
      ensures applied == old(history).Alive() && history == Apply(policy, old(history), Event.SetExpiry(r, heard))
      ensures applied ==> expiry == Some(clock + policy.windowSeconds)
    {
      Purge();
      applied := present;
      if present { expiry := Some(clock + policy.windowSeconds); }
      Record(Event.SetExpiry(r, heard));
      history := Apply(policy, history, Event.SetExpiry(r, heard));
    }

    method Tick(seconds: nat)
      requires Valid()
      modifies this
      ensures Valid() && log == old(log) + [Event.Tick(seconds)]
      ensures history == Apply(policy, old(history), Event.Tick(seconds))
    {
      Record(Event.Tick(seconds));
      clock := clock + seconds;
      history := Apply(policy, history, Event.Tick(seconds));
    }

    method Abandon(r: nat)
      requires Valid() && Enabled(history, Event.Crash(r))
      modifies this
      ensures Valid() && log == old(log) + [Event.Crash(r)]
      ensures history == Apply(policy, old(history), Event.Crash(r))
    {
      Record(Event.Crash(r));
      history := Apply(policy, history, Event.Crash(r));
    }

    method Step(e: Event)
      requires Valid() && Enabled(history, e)
      modifies this
      ensures Valid() && log == old(log) + [e] && history == Apply(policy, old(history), e)
    {
      match e
      case Tick(seconds) => Tick(seconds);
      case Incr(r) => var _ := Incr(r);
      case ReadTtl(r) => var _ := ReadTtl(r);
      case SetExpiry(r, heard) => var _ := SetExpiry(r, heard);
      case Crash(r) => Abandon(r);
    }

    /** The part of a schedule that concerns others than request r and is possible runs now. */
    method Interfere(r: nat, schedule: seq<Event>)
      requires Valid() && r in history.requests
      modifies this
      ensures Valid() && old(log) <= log
      ensures r in history.requests && history.requests[r] == old(history).requests[r]
    {
      for i := 0 to |schedule|
        invariant Valid() && old(log) <= log
        invariant r in history.requests && history.requests[r] == old(history).requests[r]
      {
        var e := schedule[i];
        if (e.Tick? || e.r != r) && Enabled(history, e) { Step(e); }
      }
    }
  }

  datatype Outcome = Result(count: nat, retryAfter: int) | ConnectionError

  /**
   * What surrounds one request: whether INCR reaches Redis at all, the schedules between its
   * commands, where its timeout strikes, and whether the reply to EXPIRE arrives.
   */
  datatype Surroundings = Surroundings(
    incrSent: bool, beforeTtl: seq<Event>, lostBeforeTtl: bool,
    beforeExpire: seq<Event>, lostBeforeExpire: bool, replyHeard: bool)

  /** What request r returns, read off the state it ends in. */
  function OutcomeOf(s: State, r: nat): Outcome {
    if r !in s.requests then ConnectionError else
      match s.requests[r].phase
      case Answered(seconds) => Result(s.requests[r].count, seconds)
      case _ => ConnectionError
  }

  lemma Registered(s: State, r: nat)
    requires r !in s.requests
    ensures r in ApplyIncr(s, r).requests && ApplyIncr(s, r).requests[r].phase.Counted?
  {
  }

  lemma Settled(p: Policy, s: State, r: nat, heard: bool)
    requires r in s.requests
    ensures var t := ApplySetExpiry(p, s, r, heard);
            && r in t.requests && t.requests[r].count == s.requests[r].count
            && t.requests[r].phase == if !heard then Crashed
                                      else if s.Alive() then Answered(Max(p.windowSeconds, 1)) else Failed
  {
  }

  /** One request's INCR, TTL and EXPIRE under arbitrary interference. */
  method ConsumeSecurityRateLimit(b: Bucket, r: nat, around: Surroundings) returns (o: Outcome)
    requires b.Valid() && r !in b.history.requests
    modifies b
    ensures b.Valid()
    ensures around.incrSent ==> old(b.log) + [Incr(r)] <= b.log
    ensures !around.incrSent ==> b.log == old(b.log) && b.history == old(b.history)
    ensures r in b.history.requests <==> around.incrSent
    ensures r in b.history.requests ==> !b.history.requests[r].InFlight()
    ensures o == OutcomeOf(b.history, r)
    ensures o.Result? ==> b.expiry.Some? && o.retryAfter == b.expiry.value - b.clock
  {
    hide Run, ApplyIncr, ApplySetExpiry;
    if !around.incrSent { return ConnectionError; }
    Registered(b.history, r);
    var count := b.Incr(r);
    b.Interfere(r, around.beforeTtl);
    if around.lostBeforeTtl {
      b.Abandon(r);
      return ConnectionError;
    }
    var ttl := b.ReadTtl(r);
    if !(count == 1 || ttl < 0) {
      return Result(count, Max(ttl, 1));
    }
    b.Interfere(r, around.beforeExpire);
    if around.lostBeforeExpire {
      b.Abandon(r);
      return ConnectionError;
    }
    Settled(b.policy, b.history, r, around.replyHeard);
    var applied := b.SetExpiry(r, around.replyHeard);
    if !applied || !around.replyHeard {
      return ConnectionError;
    }
    o := Result(count, Max(b.policy.windowSeconds, 1));
  }

  datatype Verdict = Pass(remaining: nat, reset: int) | RateLimited(retryAfter: int) | Unavailable | Degraded

  /** Whether the limiter answered request r. */
  predicate AnsweredIn(s: State, r: nat) { r in s.requests && s.requests[r].phase.Answered? }

  /**
   * The guard of one protected request: resolve the subject, consume, then admit, refuse, or
   * fail open or closed. A request without a subject never reaches the bucket.
   */
  method EnsureSecurityRuntimeAvailable(b: Bucket, r: nat, subjectKnown: bool, around: Surroundings, failClosed: bool)
    returns (v: Verdict)
    requires b.Valid() && r !in b.history.requests
    modifies b
    ensures b.Valid() && old(b.log) <= b.log
    ensures !subjectKnown ==> b.log == old(b.log) && v == if failClosed then Unavailable else Degraded
    ensures (v.Pass? <==> AnsweredIn(b.history, r) && Admitted(b.policy, b.history.requests[r]))
    ensures (v.RateLimited? <==> AnsweredIn(b.history, r) && b.history.requests[r].count > b.policy.maxRequests)
    ensures (v.Unavailable? <==> !AnsweredIn(b.history, r) && failClosed)
    ensures v.Pass? ==>
              && v.remaining + b.history.requests[r].count == b.policy.maxRequests
              && 1 <= v.reset <= b.policy.windowSeconds
    ensures v.Pass? ==> b.expiry.Some? && v.reset == b.expiry.value - b.clock
    ensures v.RateLimited? ==> b.expiry.Some? && v.retryAfter == b.expiry.value - b.clock
    ensures v.RateLimited? ==>
              && 1 <= v.retryAfter <= b.policy.windowSeconds
              && |InLife(b.history, b.history.requests[r].life, b.policy.maxRequests)| == b.policy.maxRequests
    ensures forall from, to | to - from <= b.policy.windowSeconds ::
              |AdmittedBetween(b.policy, b.history, from, to)| <= 2 * b.policy.maxRequests
  {
    var o := ConnectionError;
    if subjectKnown { o := ConsumeSecurityRateLimit(b, r, around); }
    RunKeepsInv(b.policy, Initial(b.start), b.log);
    assert r in b.history.requests ==> AnswerOk(b.policy, b.history.requests[r]);
    if o.ConnectionError? {
      v := if failClosed then Unavailable else Degraded;
    } else if o.count > b.policy.maxRequests {
      RefusalIsEarned(b.policy, b.history, r);
      v := RateLimited(o.retryAfter);
    } else {
      v := Pass(b.policy.maxRequests - o.count, o.retryAfter);
    }
    forall from, to | to - from <= b.policy.windowSeconds
      ensures |AdmittedBetween(b.policy, b.history, from, to)| <= 2 * b.policy.maxRequests
    {
      AdmissionBound(b.policy, b.history, from, to);
    }
  }
}
