/**
 * The Redis fixed-window limiter of memexpert/api/security.py, as a transition
 * system. Every request runs INCR, then TTL, then sometimes EXPIRE on one shared
 * key; between any two of these commands other requests, the clock and crashes
 * may run. The key lives until its expiry; the next INCR creates a new life.
 */
module RateLimiter {
  import opened Counting
  import opened Options

  datatype Policy = Policy(maxRequests: nat, windowSeconds: nat)

  /** Settings reject non-positive limits and windows. */
  predicate ValidPolicy(p: Policy) {
    p.maxRequests > 0 && p.windowSeconds > 0
  }

  /** One life of the key: `members` are the requests that incremented it, in order. */
  datatype Life = Life(createdAt: int, members: seq<nat>, expiry: Option<int>)

  datatype Phase =
    | Counted                        // INCR done, TTL still to come
    | ExpiryDue                      // TTL read, EXPIRE still to come
    | Answered(retryAfter: int)      // a SecurityRateLimitResult was returned
    | Failed                         // EXPIRE found no key: RedisConnectionError
    | Crashed                        // timeout, lost connection or dead process

  /** `joinedArmed` records whether the life already had an expiry at INCR. */
  datatype Request = Request(life: nat, count: nat, incrementedAt: int, joinedArmed: bool, phase: Phase) {
    predicate InFlight() { phase.Counted? || phase.ExpiryDue? }
  }

  /** The key is the last life while that life is alive; earlier lives are history. */
  datatype State = State(now: int, lives: seq<Life>, requests: map<nat, Request>) {
    predicate Alive() {
      |lives| > 0 && (Last().expiry.Some? ==> now < Last().expiry.value)
    }

    function Last(): Life
      requires |lives| > 0
    {
      lives[|lives| - 1]
    }

    /** Redis TTL: -2 without a key, -1 without an expiry, else the seconds left. */
    function Ttl(): int {
      if !Alive() then -2
      else if Last().expiry.None? then -1
      else Last().expiry.value - now
    }
  }

  /** `heard` is false when EXPIRE takes effect but its reply is lost to the timeout. */
  datatype Event = Tick(seconds: nat) | Incr(r: nat) | ReadTtl(r: nat) | SetExpiry(r: nat, heard: bool) | Crash(r: nat)

  function Initial(now: int): State {
    State(now, [], map[])
  }

  predicate Enabled(s: State, e: Event) {
    match e
    case Tick(_) => true
    case Incr(r) => r !in s.requests
    case ReadTtl(r) => r in s.requests && s.requests[r].phase.Counted?
    case SetExpiry(r, _) => r in s.requests && s.requests[r].phase.ExpiryDue?
    case Crash(r) => r in s.requests && s.requests[r].InFlight()
  }

  function Max(a: int, b: int): int { if a < b then b else a }

  function ApplyIncr(s: State, r: nat): State {
    var i := if s.Alive() then |s.lives| - 1 else |s.lives|;
    var life := if s.Alive() then s.Last().(members := s.Last().members + [r]) else Life(s.now, [r], None);
    s.(lives := s.lives[..i] + [life],
       requests := s.requests[r := Request(i, |life.members|, s.now, life.expiry.Some?, Counted)])
  }

  /** After TTL the code either answers or goes on to EXPIRE. */
  function AfterTtl(count: nat, ttl: int): Phase {
    if count == 1 || ttl < 0 then ExpiryDue else Answered(Max(ttl, 1))
  }

  function WithPhase(s: State, r: nat, phase: Phase): State
    requires r in s.requests
  {
    s.(requests := s.requests[r := s.requests[r].(phase := phase)])
  }

  function ApplySetExpiry(p: Policy, s: State, r: nat, heard: bool): State
    requires r in s.requests
  {
    if s.Alive() then
      var armed := s.Last().(expiry := Some(s.now + p.windowSeconds));
      WithPhase(s.(lives := s.lives[..|s.lives| - 1] + [armed]), r,
                if heard then Answered(Max(p.windowSeconds, 1)) else Crashed)
    else
      WithPhase(s, r, if heard then Failed else Crashed)
  }

  function Apply(p: Policy, s: State, e: Event): State
    requires Enabled(s, e)
  {
    match e
    case Tick(d) => s.(now := s.now + d)
    case Incr(r) => ApplyIncr(s, r)
    case ReadTtl(r) => WithPhase(s, r, AfterTtl(s.requests[r].count, s.Ttl()))
    case SetExpiry(r, heard) => ApplySetExpiry(p, s, r, heard)
    case Crash(r) => WithPhase(s, r, Crashed)
  }

  /** The state after a schedule, or None when some event is not enabled. */
  function Run(p: Policy, s: State, es: seq<Event>): Option<State>
    decreases |es|
  {
    if es == [] then Some(s)
    else if Enabled(s, es[0]) then Run(p, Apply(p, s, es[0]), es[1..])
    else None
  }

  lemma {:induction false} RunConcat(p: Policy, s: State, a: seq<Event>, b: seq<Event>)
    requires Run(p, s, a).Some?
    ensures Run(p, s, a + b) == Run(p, Run(p, s, a).value, b)
    decreases |a|
  {
    if a == [] {
      assert a + b == b;
    } else {
      assert (a + b)[1..] == a[1..] + b;
      RunConcat(p, Apply(p, s, a[0]), a[1..], b);
    }
  }

  // ---- What every schedule keeps ----

  /** A life's expiry lies at least one window after its creation and at most one window ahead. */
  ghost predicate LifeOk(p: Policy, s: State, i: nat)
    requires i < |s.lives|
  {
    var l := s.lives[i];
    && l.createdAt <= s.now && |l.members| > 0
    && (l.expiry.Some? ==> l.createdAt + p.windowSeconds <= l.expiry.value <= s.now + p.windowSeconds)
    && (i + 1 < |s.lives| ==> l.expiry.Some? && l.expiry.value <= s.lives[i + 1].createdAt)
  }

  /** The c-th INCR of a life returned c + 1. */
  ghost predicate MemberOk(s: State, i: nat, c: nat)
    requires i < |s.lives| && c < |s.lives[i].members|
  {
    var r := s.lives[i].members[c];
    r in s.requests && s.requests[r].life == i && s.requests[r].count == c + 1
  }

  ghost predicate RequestOk(s: State, r: nat)
    requires r in s.requests
  {
    var q := s.requests[r];
    && q.life < |s.lives|
    && var l := s.lives[q.life];
    && 1 <= q.count <= |l.members|
    && l.members[q.count - 1] == r
    && l.createdAt <= q.incrementedAt <= s.now
    && (l.expiry.Some? ==> q.incrementedAt < l.expiry.value)
    && (q.count == 1 ==> q.incrementedAt == l.createdAt)
    && (q.joinedArmed ==> q.count > 1 && l.expiry.Some?)
    && (q.joinedArmed && q.phase.ExpiryDue? ==> !(q.life == |s.lives| - 1 && s.Alive()))
  }

  /** The reset seconds sent to a client lie between one and the window. */
  ghost predicate AnswerOk(p: Policy, q: Request) {
    q.phase.Answered? ==> 1 <= q.phase.retryAfter <= p.windowSeconds
  }

  ghost predicate LivesOk(p: Policy, s: State) { forall i: nat | i < |s.lives| :: LifeOk(p, s, i) }
  ghost predicate MembersOk(s: State) {
    forall i: nat, c: nat | i < |s.lives| && c < |s.lives[i].members| :: MemberOk(s, i, c)
  }
  ghost predicate RequestsOk(s: State) { forall r | r in s.requests :: RequestOk(s, r) }
  ghost predicate AnswersOk(p: Policy, s: State) { forall r | r in s.requests :: AnswerOk(p, s.requests[r]) }

  ghost predicate Inv(p: Policy, s: State) {
    ValidPolicy(p) && LivesOk(p, s) && MembersOk(s) && RequestsOk(s) && AnswersOk(p, s)
  }

  lemma StepKeepsLives(p: Policy, s: State, e: Event)
    requires Inv(p, s) && Enabled(s, e)
    ensures LivesOk(p, Apply(p, s, e))
  {
    var t := Apply(p, s, e);
    forall i: nat | i < |t.lives| ensures LifeOk(p, t, i) {
      if i < |s.lives| { assert LifeOk(p, s, i); }
    }
  }

  lemma StepKeepsMembers(p: Policy, s: State, e: Event)
    requires Inv(p, s) && Enabled(s, e)
    ensures MembersOk(Apply(p, s, e))
  {
    var t := Apply(p, s, e);
    forall i: nat, c: nat | i < |t.lives| && c < |t.lives[i].members| ensures MemberOk(t, i, c) {
      if i < |s.lives| && c < |s.lives[i].members| { assert MemberOk(s, i, c); }
    }
  }

  lemma IncrKeepsRequest(p: Policy, s: State, r: nat, q: nat)
    requires Inv(p, s) && Enabled(s, Incr(r)) && q in ApplyIncr(s, r).requests
    ensures RequestOk(ApplyIncr(s, r), q)
  {
    if q in s.requests {
      assert RequestOk(s, q);
      assert LifeOk(p, s, s.requests[q].life);
    } else if |s.lives| > 0 {
      assert LifeOk(p, s, |s.lives| - 1);
    }
  }

  lemma SetExpiryKeepsRequest(p: Policy, s: State, r: nat, heard: bool, q: nat)
    requires Inv(p, s) && Enabled(s, SetExpiry(r, heard)) && q in ApplySetExpiry(p, s, r, heard).requests
    ensures RequestOk(ApplySetExpiry(p, s, r, heard), q)
  {
    assert RequestOk(s, q);
    assert LifeOk(p, s, s.requests[q].life);
  }

  /** A tick, a TTL or a crash changes no life; of requests, at most a phase. */
  lemma OtherStepKeepsRequest(p: Policy, s: State, e: Event, q: nat)
    requires Inv(p, s) && Enabled(s, e) && !e.Incr? && !e.SetExpiry? && q in Apply(p, s, e).requests
    ensures RequestOk(Apply(p, s, e), q)
  {
    assert RequestOk(s, q);
    assert LifeOk(p, s, s.requests[q].life);
  }

  lemma StepKeepsRequests(p: Policy, s: State, e: Event)
    requires Inv(p, s) && Enabled(s, e)
    ensures RequestsOk(Apply(p, s, e))
  {
    hide Inv, RequestOk, ApplyIncr, ApplySetExpiry;
    forall q | q in Apply(p, s, e).requests ensures RequestOk(Apply(p, s, e), q) {
      match e
      case Incr(r) => IncrKeepsRequest(p, s, r, q);
      case SetExpiry(r, heard) => SetExpiryKeepsRequest(p, s, r, heard, q);
      case _ => OtherStepKeepsRequest(p, s, e, q);
    }
  }

  lemma StepKeepsAnswers(p: Policy, s: State, e: Event)
    requires Inv(p, s) && Enabled(s, e)
    ensures AnswersOk(p, Apply(p, s, e))
  {
    if |s.lives| > 0 { assert LifeOk(p, s, |s.lives| - 1); }
  }

  lemma StepKeepsInv(p: Policy, s: State, e: Event)
    requires Inv(p, s) && Enabled(s, e)
    ensures Inv(p, Apply(p, s, e))
  {
    StepKeepsLives(p, s, e);
    StepKeepsMembers(p, s, e);
    StepKeepsRequests(p, s, e);
    StepKeepsAnswers(p, s, e);
  }

  lemma {:induction false} RunKeepsInv(p: Policy, s: State, es: seq<Event>)
    requires Inv(p, s) && Run(p, s, es).Some?
    ensures Inv(p, Run(p, s, es).value)
    decreases |es|
  {
    if es != [] {
      StepKeepsInv(p, s, es[0]);
      RunKeepsInv(p, Apply(p, s, es[0]), es[1..]);
    }
  }

  /** A TTL that answers gives the seconds the key has left, and an EXPIRE that is heard the whole window. */
  lemma AnswerIsReset(p: Policy, s: State, r: nat)
    requires Inv(p, s)
    ensures Enabled(s, ReadTtl(r)) && Apply(p, s, ReadTtl(r)).requests[r].phase.Answered? ==>
              && s.Alive() && s.Last().expiry.Some?
              && Apply(p, s, ReadTtl(r)).requests[r].phase.retryAfter == s.Last().expiry.value - s.now
    ensures Enabled(s, SetExpiry(r, true)) && Apply(p, s, SetExpiry(r, true)).requests[r].phase.Answered? ==>
              Apply(p, s, SetExpiry(r, true)).requests[r].phase.retryAfter == p.windowSeconds
  {
  }

  // ---- The admission bound ----

  /** Admitted through the counter: answered, with a count inside the budget. */
  predicate Admitted(p: Policy, q: Request) {
    q.phase.Answered? && q.count <= p.maxRequests
  }

  function AdmittedBetween(p: Policy, s: State, from: int, to: int): set<nat> {
    set r | r in s.requests && Admitted(p, s.requests[r]) && from <= s.requests[r].incrementedAt <= to
  }

  function InLife(s: State, life: nat, budget: nat): set<nat> {
    set r | r in s.requests && s.requests[r].life == life && s.requests[r].count <= budget
  }

  lemma LifeMembersDistinct(p: Policy, s: State, i: nat)
    requires Inv(p, s) && i < |s.lives|
    ensures Distinct(s.lives[i].members)
  {
    var m := s.lives[i].members;
    forall a: nat, b: nat | a < b < |m| ensures m[a] != m[b] {
      assert MemberOk(s, i, a) && MemberOk(s, i, b);
    }
  }

  /** Exactly the first `budget` increments of a life fall inside the budget. */
  lemma LifeBudget(p: Policy, s: State, i: nat, budget: nat)
    requires Inv(p, s) && i < |s.lives|
    ensures |InLife(s, i, budget)| == if budget < |s.lives[i].members| then budget else |s.lives[i].members|
  {
    var m := s.lives[i].members;
    var first := if budget < |m| then m[..budget] else m;
    LifeMembersDistinct(p, s, i);
    ElementsCount(first);
    forall r ensures r in InLife(s, i, budget) <==> r in Elements(first) {
      if r in InLife(s, i, budget) {
        assert RequestOk(s, r);
        assert first[s.requests[r].count - 1] == r;
      }
      if r in first {
        var c: nat :| c < |first| && first[c] == r;
        assert MemberOk(s, i, c);
      }
    }
    assert InLife(s, i, budget) == Elements(first);
  }

  lemma {:induction false} LivesOrdered(p: Policy, s: State, i: nat, j: nat)
    requires Inv(p, s) && i < j < |s.lives|
    ensures s.lives[i].expiry.Some? && s.lives[i].expiry.value <= s.lives[j].createdAt
    decreases j - i
  {
    assert LifeOk(p, s, i) && LifeOk(p, s, i + 1);
    if i + 1 < j {
      LivesOrdered(p, s, i + 1, j);
    }
  }

  /** INCRs two or more lives apart are more than one window apart. */
  lemma LivesFarApart(p: Policy, s: State, r: nat, q: nat)
    requires Inv(p, s) && r in s.requests && q in s.requests
    requires s.requests[r].life + 2 <= s.requests[q].life
    ensures s.requests[q].incrementedAt - s.requests[r].incrementedAt > p.windowSeconds
  {
    assert RequestOk(s, r) && RequestOk(s, q);
    var i := s.requests[r].life;
    assert LifeOk(p, s, i) && LifeOk(p, s, i + 1);
    LivesOrdered(p, s, i + 1, s.requests[q].life);
  }

  /** At most 2 * maxRequests admissions have their INCR inside any interval of one window. */
  lemma AdmissionBound(p: Policy, s: State, from: int, to: int)
    requires Inv(p, s) && to - from <= p.windowSeconds
    ensures |AdmittedBetween(p, s, from, to)| <= 2 * p.maxRequests
  {
    var admitted := AdmittedBetween(p, s, from, to);
    if admitted != {} {
      var r := EarliestLife(s, admitted);
      var l := s.requests[r].life;
      assert RequestOk(s, r);
      var here := InLife(s, l, p.maxRequests);
      var next := InLife(s, l + 1, p.maxRequests);
      LifeBudget(p, s, l, p.maxRequests);
      if l + 1 < |s.lives| {
        LifeBudget(p, s, l + 1, p.maxRequests);
      } else {
        forall q | q in s.requests ensures q !in next { assert RequestOk(s, q); }
        assert next == {};
      }
      forall q | q in admitted ensures q in here + next {
        if s.requests[q].life >= l + 2 { LivesFarApart(p, s, r, q); }
      }
      SubsetCount(admitted, here + next);
    }
  }

  lemma {:induction false} EarliestLife(s: State, rs: set<nat>) returns (r: nat)
    requires rs != {} && rs <= s.requests.Keys
    ensures r in rs && forall q | q in rs :: s.requests[r].life <= s.requests[q].life
  {
    r :| r in rs;
    if rs != {r} {
      var t := EarliestLife(s, rs - {r});
      if s.requests[t].life < s.requests[r].life { r := t; }
    }
  }

  /** The bound over whole schedules: any interleaving from a fresh limiter meets it. */
  lemma AdmissionBoundOverRuns(p: Policy, start: int, es: seq<Event>, from: int, to: int)
    requires ValidPolicy(p) && Run(p, Initial(start), es).Some? && to - from <= p.windowSeconds
    ensures |AdmittedBetween(p, Run(p, Initial(start), es).value, from, to)| <= 2 * p.maxRequests
  {
    RunKeepsInv(p, Initial(start), es);
    AdmissionBound(p, Run(p, Initial(start), es).value, from, to);
  }

  /** A refusal is never spurious: its life already held maxRequests increments within the budget. */
  lemma RefusalIsEarned(p: Policy, s: State, r: nat)
    requires Inv(p, s) && r in s.requests && s.requests[r].count > p.maxRequests
    ensures |InLife(s, s.requests[r].life, p.maxRequests)| == p.maxRequests
    ensures r !in InLife(s, s.requests[r].life, p.maxRequests)
  {
    assert RequestOk(s, r);
    LifeBudget(p, s, s.requests[r].life, p.maxRequests);
  }

  // ---- No permanent key, no sliding window ----

  predicate Armed(s: State) { forall i | 0 <= i < |s.lives| :: s.lives[i].expiry.Some? }

  predicate Mentions(es: seq<Event>, r: nat) {
    exists e | e in es :: !e.Tick? && e.r == r
  }

  /** Every completed EXPIRE leaves no life without an expiry. */
  lemma SetExpiryArms(p: Policy, s: State, r: nat, heard: bool)
    requires Inv(p, s) && Enabled(s, SetExpiry(r, heard))
    ensures Armed(ApplySetExpiry(p, s, r, heard))
  {
    forall i: nat | i < |s.lives| ensures ApplySetExpiry(p, s, r, heard).lives[i].expiry.Some? {
      assert LifeOk(p, s, i);
    }
  }

  lemma {:induction false} OthersLeavePhase(p: Policy, s: State, es: seq<Event>, r: nat)
    requires r in s.requests && !Mentions(es, r) && Run(p, s, es).Some?
    ensures r in Run(p, s, es).value.requests
    ensures Run(p, s, es).value.requests[r] == s.requests[r]
    decreases |es|
  {
    if es != [] {
      assert es[0] in es;
      assert forall e | e in es[1..] :: e in es;
      OthersLeavePhase(p, Apply(p, s, es[0]), es[1..], r);
    }
  }

  /**
   * A key left without an expiry by a crash is re-armed by the next request that reads
   * its TTL, whatever other requests, ticks and crashes run before that request's EXPIRE.
   */
  lemma PermanentKeyIsRearmed(p: Policy, s: State, r: nat, heard: bool, es: seq<Event>)
    requires Inv(p, s) && Enabled(s, ReadTtl(r)) && !Armed(s)
    requires !Mentions(es, r) && Run(p, Apply(p, s, ReadTtl(r)), es).Some?
    ensures var t := Run(p, Apply(p, s, ReadTtl(r)), es).value;
            Enabled(t, SetExpiry(r, heard)) && Armed(Apply(p, t, SetExpiry(r, heard)))
  {
    var i: nat :| i < |s.lives| && s.lives[i].expiry.None?;
    assert LifeOk(p, s, i);
    var u := Apply(p, s, ReadTtl(r));
    assert u.requests[r].phase.ExpiryDue?;
    StepKeepsInv(p, s, ReadTtl(r));
    OthersLeavePhase(p, u, es, r);
    RunKeepsInv(p, u, es);
    SetExpiryArms(p, Run(p, u, es).value, r, heard);
  }

  /** A request that joined a life already armed never moves that life's expiry. */
  lemma LateJoinerNeverExtends(p: Policy, s: State, r: nat, heard: bool)
    requires Inv(p, s) && Enabled(s, SetExpiry(r, heard)) && s.requests[r].joinedArmed
    ensures Apply(p, s, SetExpiry(r, heard)).lives[s.requests[r].life] == s.lives[s.requests[r].life]
  {
    assert RequestOk(s, r);
  }

  /** A key without an expiry still has its creator in flight. */
  ghost predicate CreatorPending(s: State) {
    |s.lives| > 0 && s.Last().expiry.None? ==>
      |s.Last().members| > 0 && var c := s.Last().members[0]; c in s.requests && s.requests[c].InFlight()
  }

  lemma StepKeepsCreator(p: Policy, s: State, e: Event)
    requires Inv(p, s) && CreatorPending(s) && Enabled(s, e) && !e.Crash?
    ensures CreatorPending(Apply(p, s, e))
  {
    if |s.lives| > 0 {
      assert LifeOk(p, s, |s.lives| - 1);
      assert MemberOk(s, |s.lives| - 1, 0);
    }
  }

  /** The creator, having count 1, goes on to EXPIRE whatever TTL says. */
  lemma CreatorIssuesExpire(p: Policy, s: State, heard: bool)
    requires Inv(p, s) && CreatorPending(s) && |s.lives| > 0 && s.Last().expiry.None?
    ensures var c := s.Last().members[0];
            && c in s.requests
            && (s.requests[c].phase.Counted? ==> Apply(p, s, ReadTtl(c)).requests[c].phase == ExpiryDue)
            && (s.requests[c].phase.ExpiryDue? ==> Armed(Apply(p, s, SetExpiry(c, heard))))
  {
    var c := s.Last().members[0];
    assert MemberOk(s, |s.lives| - 1, 0);
    if s.requests[c].phase.ExpiryDue? { SetExpiryArms(p, s, c, heard); }
  }

  /** No request in flight is older than `limit` seconds. */
  ghost predicate Timely(s: State, limit: nat) {
    forall r | r in s.requests && s.requests[r].InFlight() :: s.now - s.requests[r].incrementedAt <= limit
  }

  /** Every state of the schedule is timely. */
  ghost predicate RunTimely(p: Policy, s: State, es: seq<Event>, limit: nat)
    decreases |es|
  {
    Timely(s, limit) && (es != [] && Enabled(s, es[0]) ==> RunTimely(p, Apply(p, s, es[0]), es[1..], limit))
  }

  ghost predicate LifeEndsInTime(p: Policy, s: State, limit: nat, i: nat)
    requires i < |s.lives|
  {
    match s.lives[i].expiry
    case Some(end) => end <= s.lives[i].createdAt + p.windowSeconds + 2 * limit
    case None => s.now <= s.lives[i].createdAt + limit
  }

  /** An EXPIRE still due on the current life comes from an INCR early in that life. */
  ghost predicate DueEarly(s: State, limit: nat, r: nat)
    requires r in s.requests
  {
    var q := s.requests[r];
    q.phase.ExpiryDue? && q.life == |s.lives| - 1 && s.Alive() ==> q.incrementedAt <= s.Last().createdAt + limit
  }

  ghost predicate TimelyInv(p: Policy, s: State, limit: nat) {
    && Inv(p, s) && CreatorPending(s)
    && (forall i: nat | i < |s.lives| && s.lives[i].expiry.Some? :: LifeEndsInTime(p, s, limit, i))
    && (forall r | r in s.requests :: DueEarly(s, limit, r))
  }

  lemma UnarmedIsYoung(p: Policy, s: State, limit: nat)
    requires Inv(p, s) && CreatorPending(s) && Timely(s, limit) && |s.lives| > 0 && s.Last().expiry.None?
    ensures s.now <= s.Last().createdAt + limit
  {
    assert MemberOk(s, |s.lives| - 1, 0);
    assert RequestOk(s, s.Last().members[0]);
  }

  /** An EXPIRE on the live key is issued at most 2 * limit after the life began. */
  lemma ExpireIsEarly(p: Policy, s: State, limit: nat, r: nat)
    requires TimelyInv(p, s, limit) && Timely(s, limit) && r in s.requests && s.requests[r].phase.ExpiryDue?
             && s.Alive()
    ensures s.now <= s.Last().createdAt + 2 * limit
  {
    assert RequestOk(s, r) && DueEarly(s, limit, r);
    if s.requests[r].life < |s.lives| - 1 { LivesOrdered(p, s, s.requests[r].life, |s.lives| - 1); }
  }

  lemma StepKeepsLifeEnds(p: Policy, s: State, limit: nat, e: Event, i: nat)
    requires TimelyInv(p, s, limit) && Timely(s, limit) && Enabled(s, e)
    requires i < |Apply(p, s, e).lives| && Apply(p, s, e).lives[i].expiry.Some?
    ensures LifeEndsInTime(p, Apply(p, s, e), limit, i)
  {
    if e.SetExpiry? && s.Alive() { ExpireIsEarly(p, s, limit, e.r); }
    assert i < |s.lives| && s.lives[i].expiry.Some? ==> LifeEndsInTime(p, s, limit, i);
  }

  lemma StepKeepsDueEarly(p: Policy, s: State, limit: nat, e: Event, q: nat)
    requires TimelyInv(p, s, limit) && Timely(s, limit) && Enabled(s, e) && q in Apply(p, s, e).requests
    ensures DueEarly(Apply(p, s, e), limit, q)
  {
    if q in s.requests {
      assert DueEarly(s, limit, q) && RequestOk(s, q);
      if e == ReadTtl(q) && |s.lives| > 0 && s.Last().expiry.None? { UnarmedIsYoung(p, s, limit); }
    }
  }

  lemma StepKeepsTimelyInv(p: Policy, s: State, limit: nat, e: Event)
    requires TimelyInv(p, s, limit) && Timely(s, limit) && Enabled(s, e) && !e.Crash?
    ensures TimelyInv(p, Apply(p, s, e), limit)
  {
    var t := Apply(p, s, e);
    StepKeepsInv(p, s, e);
    StepKeepsCreator(p, s, e);
    forall i: nat | i < |t.lives| && t.lives[i].expiry.Some? ensures LifeEndsInTime(p, t, limit, i) {
      StepKeepsLifeEnds(p, s, limit, e, i);
    }
    forall q | q in t.requests ensures DueEarly(t, limit, q) {
      StepKeepsDueEarly(p, s, limit, e, q);
    }
  }

  lemma {:induction false} RunKeepsTimelyInv(p: Policy, s: State, limit: nat, es: seq<Event>)
    requires TimelyInv(p, s, limit) && Run(p, s, es).Some? && RunTimely(p, s, es, limit)
    requires forall e | e in es :: !e.Crash?
    ensures TimelyInv(p, Run(p, s, es).value, limit) && Timely(Run(p, s, es).value, limit)
    decreases |es|
  {
    if es != [] {
      assert es[0] in es;
      StepKeepsTimelyInv(p, s, limit, es[0]);
      assert forall e | e in es[1..] :: e in es;
      RunKeepsTimelyInv(p, Apply(p, s, es[0]), limit, es[1..]);
    }
  }

  /**
   * No sliding window: when requests never crash and each finishes within `limit`,
   * every life of the key is over by window + 2 * limit after its creation.
   */
  lemma NoSlidingWindow(p: Policy, start: int, limit: nat, es: seq<Event>, i: nat)
    requires ValidPolicy(p) && Run(p, Initial(start), es).Some? && RunTimely(p, Initial(start), es, limit)
    requires forall e | e in es :: !e.Crash?
    requires i < |Run(p, Initial(start), es).value.lives|
    ensures var s := Run(p, Initial(start), es).value;
            && LifeEndsInTime(p, s, limit, i)
            && (s.now >= s.lives[i].createdAt + p.windowSeconds + 2 * limit ==> !(i == |s.lives| - 1 && s.Alive()))
  {
    RunKeepsTimelyInv(p, Initial(start), limit, es);
    var s := Run(p, Initial(start), es).value;
    assert LifeOk(p, s, i);
    if s.lives[i].expiry.None? { UnarmedIsYoung(p, s, limit); }
  }

  // ---- The bound is reached ----

  /** `k` requests base, base + 1, ... have been answered in the live key's life, all at `at`. */
  ghost predicate Served(p: Policy, s: State, base: nat, k: nat, at: int) {
    && s.now == at && |s.lives| > 0 && s.Last().expiry == Some(at + p.windowSeconds)
    && |s.Last().members| == k > 0
    && forall j: nat | j < k :: ServedRequest(s, base, j, at)
  }

  ghost predicate ServedRequest(s: State, base: nat, j: nat, at: int) {
    && base + j in s.requests
    && var q := s.requests[base + j];
    q.count == j + 1 && q.incrementedAt == at && q.phase.Answered?
  }

  ghost predicate Unused(s: State, base: nat) { forall r | r in s.requests :: r < base }

  /** The first request of a burst opens a life and arms it. */
  lemma BurstOpens(p: Policy, s: State, base: nat)
    requires ValidPolicy(p) && !s.Alive() && Unused(s, base)
    ensures var es := [Incr(base), ReadTtl(base), SetExpiry(base, true)];
            && Run(p, s, es).Some?
            && var u := Run(p, s, es).value;
            && Served(p, u, base, 1, s.now) && Unused(u, base + 1)
            && forall r | r in s.requests :: r in u.requests && u.requests[r] == s.requests[r]
  {
    hide Apply, Served, Run;
    var es := [Incr(base), ReadTtl(base), SetExpiry(base, true)];
    OpenedLife(p, s, base);
    var s1 := Apply(p, s, Incr(base));
    var s2 := Apply(p, s1, ReadTtl(base));
    var third := [SetExpiry(base, true)];
    var second := [ReadTtl(base)] + third;
    RunStep(p, s2, SetExpiry(base, true), []);
    RunStep(p, Apply(p, s2, SetExpiry(base, true)), Tick(0), []);
    RunStep(p, s1, ReadTtl(base), third);
    RunStep(p, s, Incr(base), second);
    assert [SetExpiry(base, true)] + [] == third;
    assert es == [Incr(base)] + second;
  }

  lemma RunStep(p: Policy, s: State, e: Event, es: seq<Event>)
    requires Enabled(s, e)
    ensures Run(p, s, [e] + es) == Run(p, Apply(p, s, e), es)
    ensures Run(p, s, []) == Some(s)
  {
    assert ([e] + es)[1..] == es;
  }

  lemma OpenedLife(p: Policy, s: State, base: nat)
    requires ValidPolicy(p) && !s.Alive() && Unused(s, base)
    ensures Enabled(s, Incr(base))
    ensures var s1 := Apply(p, s, Incr(base));
            && Enabled(s1, ReadTtl(base))
            && var s2 := Apply(p, s1, ReadTtl(base));
            && Enabled(s2, SetExpiry(base, true))
            && var u := Apply(p, s2, SetExpiry(base, true));
            && Served(p, u, base, 1, s.now) && Unused(u, base + 1)
            && forall r | r in s.requests :: r in u.requests && u.requests[r] == s.requests[r]
  {
    var s1 := Apply(p, s, Incr(base));
    assert s1.Alive() && s1.Last() == Life(s.now, [base], None);
    var s2 := Apply(p, s1, ReadTtl(base));
    var u := Apply(p, s2, SetExpiry(base, true));
    assert u.Last() == Life(s.now, [base], Some(s.now + p.windowSeconds));
    assert ServedRequest(u, base, 0, s.now);
  }

  /** Each further one joins it. */
  lemma BurstGoesOn(p: Policy, t: State, base: nat, k: nat, at: int)
    requires ValidPolicy(p) && Served(p, t, base, k, at) && Unused(t, base + k)
    ensures var es := [Incr(base + k), ReadTtl(base + k)];
            && Run(p, t, es).Some?
            && var u := Run(p, t, es).value;
            && Served(p, u, base, k + 1, at) && Unused(u, base + k + 1)
            && forall r | r in t.requests :: r in u.requests && u.requests[r] == t.requests[r]
  {
    var r := base + k;
    var es := [Incr(r), ReadTtl(r)];
    var t1 := Apply(p, t, Incr(r));
    var u := Apply(p, t1, ReadTtl(r));
    assert es[1..] == [ReadTtl(r)];
    assert Run(p, t1, [ReadTtl(r)]) == Some(u);
    forall j: nat | j < k + 1 ensures ServedRequest(u, base, j, at) {
      assert j < k ==> ServedRequest(t, base, j, at);
    }
  }

  lemma {:induction false} Burst(p: Policy, s: State, base: nat, k: nat) returns (es: seq<Event>)
    requires ValidPolicy(p) && !s.Alive() && Unused(s, base) && k > 0
    ensures Run(p, s, es).Some?
    ensures Served(p, Run(p, s, es).value, base, k, s.now) && Unused(Run(p, s, es).value, base + k)
    ensures var u := Run(p, s, es).value;
            forall r | r in s.requests :: r in u.requests && u.requests[r] == s.requests[r]
  {
    hide Run, Served, Apply, Enabled;
    if k == 1 {
      es := [Incr(base), ReadTtl(base), SetExpiry(base, true)];
      BurstOpens(p, s, base);
    } else {
      var before := Burst(p, s, base, k - 1);
      var last := [Incr(base + k - 1), ReadTtl(base + k - 1)];
      BurstGoesOn(p, Run(p, s, before).value, base, k - 1, s.now);
      RunConcat(p, s, before, last);
      es := before + last;
    }
  }

  /** No smaller bound holds: for every policy some schedule admits 2 * maxRequests in one window. */
  lemma AdmissionBoundIsTight(p: Policy)
    requires ValidPolicy(p)
    ensures exists es ::
              && Run(p, Initial(0), es).Some?
              && |AdmittedBetween(p, Run(p, Initial(0), es).value, 0, p.windowSeconds)| == 2 * p.maxRequests
  {
    var n := p.maxRequests;
    var first := Burst(p, Initial(0), 0, n);
    var s := Run(p, Initial(0), first).value;
    var wait := [Tick(p.windowSeconds)];
    var t := Apply(p, s, wait[0]);
    assert Run(p, s, wait) == Some(t);
    RunConcat(p, Initial(0), first, wait);
    var second := Burst(p, t, n, n);
    RunConcat(p, Initial(0), first + wait, second);
    var es := first + wait + second;
    var u := Run(p, Initial(0), es).value;
    var admitted := AdmittedBetween(p, u, 0, p.windowSeconds);
    forall r: nat | r < 2 * n ensures r in admitted {
      if r < n {
        assert ServedRequest(s, 0, r, 0);
      } else {
        assert ServedRequest(u, n, r - n, p.windowSeconds);
      }
    }
    SubsetCount(Below(2 * n), admitted);
    AdmissionBoundOverRuns(p, 0, es, 0, p.windowSeconds);
  }
}

/** Bucket names: one Redis key per tier and resolved subject. */
module RateLimitKeys {
  import opened Separators

  datatype Tier = AuthWrite | SearchFeed | AnalyticsWrite | Write | Upload | Admin {
    function Value(): string {
      match this
      case AuthWrite => "auth_write"
      case SearchFeed => "search_feed"
      case AnalyticsWrite => "analytics_write"
      case Write => "write"
      case Upload => "upload"
      case Admin => "admin"
    }
  }

  /** The signed user of the access cookie, if any, and the client host. */
  datatype Caller = Caller(user: string, signedIn: bool, host: string)

  datatype Subject = User(id: string) | Ip(host: string) {
    function Text(): string {
      match this
      case User(id) => "user:" + id
      case Ip(host) => "ip:" + host
    }
  }

  /** Authentication and upload tiers are limited by address even for signed-in users. */
  function Resolve(tier: Tier, caller: Caller): Subject {
    if caller.signedIn && !tier.AuthWrite? && !tier.Upload? then User(caller.user) else Ip(caller.host)
  }

  const PREFIX := "security:rate_limit:"

  function Key(tier: Tier, subject: Subject): string {
    PREFIX + tier.Value() + ":" + subject.Text()
  }

  /** The keys as they are written. */
  lemma KeySpelled(tier: Tier, subject: Subject)
    ensures Key(tier, subject) ==
            "security:rate_limit:"
            + (match tier
               case AuthWrite => "auth_write:"
               case SearchFeed => "search_feed:"
               case AnalyticsWrite => "analytics_write:"
               case Write => "write:"
               case Upload => "upload:"
               case Admin => "admin:")
            + (match subject case User(id) => "user:" + id case Ip(host) => "ip:" + host)
  {
    var text := subject.Text();
    match tier
    case AuthWrite => assert Key(tier, subject) == "security:rate_limit:" + "auth_write:" + text;
    case SearchFeed => assert Key(tier, subject) == "security:rate_limit:" + "search_feed:" + text;
    case AnalyticsWrite => assert Key(tier, subject) == "security:rate_limit:" + "analytics_write:" + text;
    case Write => assert Key(tier, subject) == "security:rate_limit:" + "write:" + text;
    case Upload => assert Key(tier, subject) == "security:rate_limit:" + "upload:" + text;
    case Admin => assert Key(tier, subject) == "security:rate_limit:" + "admin:" + text;
  }

  lemma TextInjective(s: Subject, t: Subject)
    ensures s.Text() == t.Text() <==> s == t
  {
    if s.Text() == t.Text() {
      assert s.Text()[0] == if s.User? then 'u' else 'i';
      assert t.Text()[0] == if t.User? then 'u' else 'i';
      var n := if s.User? then 5 else 3;
      assert s.Text()[n..] == if s.User? then s.id else s.host;
      assert t.Text()[n..] == if t.User? then t.id else t.host;
    }
  }

  lemma TierInjective(a: Tier, b: Tier)
    ensures a.Value() == b.Value() <==> a == b
    ensures ':' !in a.Value()
  {
    assert |a.Value()| == if a.AuthWrite? then 10 else if a.SearchFeed? then 11 else if a.AnalyticsWrite? then 15
                          else if a.Write? then 5 else if a.Upload? then 6 else 5;
    assert a.Value()[0] == if a.Write? then 'w' else if a.SearchFeed? then 's' else if a.Upload? then 'u' else 'a';
    assert b.Value()[0] == if b.Write? then 'w' else if b.SearchFeed? then 's' else if b.Upload? then 'u' else 'a';
  }

  lemma PartsDetermined(prefix: string, a: string, x: string, b: string, y: string)
    requires ':' !in a && ':' !in b && prefix + a + ":" + x == prefix + b + ":" + y
    ensures a == b && x == y
  {
    assert prefix + a + ":" + x == prefix + (a + ":" + x) && prefix + b + ":" + y == prefix + (b + ":" + y);
    PrefixCancels(prefix, a + ":" + x, b + ":" + y);
    SeparatorCancels(a, x, b, y, ':');
  }

  /** Two requests share a bucket exactly when tier and resolved subject agree. */
  lemma KeyInjective(a: Tier, s: Subject, b: Tier, t: Subject)
    ensures Key(a, s) == Key(b, t) <==> a == b && s == t
  {
    if Key(a, s) == Key(b, t) {
      var av, bv, st, tt := a.Value(), b.Value(), s.Text(), t.Text();
      TierInjective(a, b);
      TierInjective(b, a);
      TextInjective(s, t);
      PartsDetermined(PREFIX, av, st, bv, tt);
    }
  }

  /** Who shares a bucket: the address for auth and upload, else the signed user when there is one. */
  lemma SharedBucket(a: Tier, x: Caller, b: Tier, y: Caller)
    ensures Key(a, Resolve(a, x)) == Key(b, Resolve(b, y)) <==>
            && a == b
            && if a.AuthWrite? || a.Upload? || (!x.signedIn && !y.signedIn) then x.host == y.host
               else x.signedIn && y.signedIn && x.user == y.user
  {
    KeyInjective(a, Resolve(a, x), b, Resolve(b, y));
  }
}
