/**
 * Runners of scripts/run_container_e2e.py competing for one Compose project name, as a
 * transition system. The claim is a Docker network created atomically under a fixed name;
 * each step is one Docker command of one runner, and a runner may die at any point.
 */
module RunnerClaim {
  import opened Options

  datatype Kind = Containers | Volumes | Networks

  /** A Docker resource labelled with the project; owner None means no runner made it. */
  datatype Resource = Resource(kind: Kind, owner: Option<nat>)

  datatype Phase =
    | Preflight(listed: nat, clean: bool)  // claim obtained; `listed` of three listings done
    | Available                            // preflight passed: compose commands may run
    | Teardown
    | ImageRemoval
    | Release
    | Done
    | Crashed(during: Phase)               // the process is gone; its last command may still be running

  /** The flags `main` keeps. `holds` is project_claim, `available` project_available. */
  datatype Runner = Runner(
    phase: Phase, keepStack: bool, holds: bool, available: bool,
    downOk: bool, imagesOk: bool, released: bool)
  {
    predicate Active() { !phase.Done? && !phase.Crashed? }

    /** A compose command outlived its runner. */
    predicate OrphanedStack() { phase.Crashed? && (phase.during.Available? || phase.during.Teardown?) }

    /** The removal of the claim outlived its runner. */
    predicate OrphanedRelease() { phase.Crashed? && phase.during.Release? }
  }

  datatype State = State(claim: Option<nat>, resources: set<Resource>, runners: map<nat, Runner>)

  datatype ClaimResult = Created | CreatedWithoutId | Refused

  datatype Event =
    | Claim(r: nat, keepStack: bool, result: ClaimResult)
    | List(r: nat, ok: bool)
    | Compose(r: nat, created: set<Kind>, removed: set<Resource>, ok: bool)
    | Finish(r: nat)
    | Down(r: nat, left: set<Resource>, ok: bool)
    | RemoveImages(r: nat, ok: bool)
    | ReleaseClaim(r: nat, gone: bool, ok: bool)
    | Die(r: nat)
    | Orphan(r: nat, created: set<Kind>, removed: set<Resource>)
    | OrphanRelease(r: nat)

  function Initial(foreign: set<Resource>): State {
    State(None, foreign, map[])
  }

  const KINDS: seq<Kind> := [Containers, Volumes, Networks]

  predicate Enabled(s: State, e: Event) {
    match e
    case Claim(r, _, result) => r !in s.runners && (result.Refused? || s.claim.None?)
    case List(r, _) => r in s.runners && s.runners[r].phase.Preflight? && s.runners[r].phase.listed < 3
    case Compose(r, _, _, _) => r in s.runners && s.runners[r].phase.Available?
    case Finish(r) => r in s.runners && s.runners[r].phase.Available?
    case Down(r, _, _) => r in s.runners && s.runners[r].phase.Teardown?
    case RemoveImages(r, _) => r in s.runners && s.runners[r].phase.ImageRemoval?
    case ReleaseClaim(r, gone, ok) => r in s.runners && s.runners[r].phase.Release? && (ok ==> gone)
    case Die(r) => r in s.runners && s.runners[r].Active()
    case Orphan(r, _, _) => r in s.runners && s.runners[r].OrphanedStack()
    case OrphanRelease(r) => r in s.runners && s.runners[r].OrphanedRelease()
  }

  predicate Lists(resources: set<Resource>, kind: Kind) {
    exists x | x in resources :: x.kind == kind
  }

  /** Where `main` goes when its body ends: a kept stack is not torn down. */
  function AfterBody(q: Runner): Runner {
    q.(phase := if q.keepStack then Done else Teardown)
  }

  function ApplyClaim(s: State, r: nat, keepStack: bool, result: ClaimResult): State {
    var holds := result.Created?;
    var phase := if holds then Preflight(0, true) else Done;
    s.(claim := if result.Refused? then s.claim else Some(r),
       runners := s.runners[r := Runner(phase, keepStack, holds, false, false, false, false)])
  }

  function AfterListing(q: Runner, found: bool, ok: bool): Runner
    requires q.phase.Preflight?
  {
    var clean := q.phase.clean && !found;
    if !ok then q.(phase := Done)
    else if q.phase.listed < 2 then q.(phase := Preflight(q.phase.listed + 1, clean))
    else if clean then q.(phase := Available, available := true)
    else q.(phase := Done)
  }

  function AfterCompose(s: State, r: nat, created: set<Kind>, removed: set<Resource>): set<Resource> {
    s.resources - removed + set k | k in created :: Resource(k, Some(r))
  }

  /** A successful `down` leaves no resource of any runner; a failed one may leave anything. */
  function AfterDown(s: State, left: set<Resource>, ok: bool): set<Resource> {
    set x | x in s.resources && x in left && (ok ==> x.owner.None?)
  }

  function Apply(s: State, e: Event): State
    requires Enabled(s, e)
  {
    match e
    case Claim(r, keepStack, result) => ApplyClaim(s, r, keepStack, result)
    case List(r, ok) =>
      var q := s.runners[r];
      s.(runners := s.runners[r := AfterListing(q, Lists(s.resources, KINDS[q.phase.listed]), ok)])
    case Compose(r, created, removed, ok) =>
      var q := s.runners[r];
      s.(resources := AfterCompose(s, r, created, removed),
         runners := s.runners[r := if ok then q else AfterBody(q)])
    case Finish(r) => s.(runners := s.runners[r := AfterBody(s.runners[r])])
    case Down(r, left, ok) =>
      s.(resources := AfterDown(s, left, ok),
         runners := s.runners[r := s.runners[r].(phase := ImageRemoval, downOk := ok)])
    case RemoveImages(r, ok) =>
      var q := s.runners[r];
      s.(runners := s.runners[r := q.(phase := if q.downOk && ok then Release else Done, imagesOk := ok)])
    case ReleaseClaim(r, gone, ok) =>
      s.(claim := if gone then None else s.claim,
         runners := s.runners[r := s.runners[r].(phase := Done, released := ok)])
    case Die(r) => s.(runners := s.runners[r := s.runners[r].(phase := Crashed(s.runners[r].phase))])
    case Orphan(r, created, removed) => s.(resources := AfterCompose(s, r, created, removed))
    case OrphanRelease(r) => s.(claim := None, runners := s.runners[r := s.runners[r].(phase := Crashed(Done))])
  }

  function Run(s: State, es: seq<Event>): Option<State>
    decreases |es|
  {
    if es == [] then Some(s)
    else if Enabled(s, es[0]) then Run(Apply(s, es[0]), es[1..])
    else None
  }

  lemma {:induction false} RunConcat(s: State, a: seq<Event>, b: seq<Event>)
    requires Run(s, a).Some?
    ensures Run(s, a + b) == Run(Run(s, a).value, b)
    decreases |a|
  {
    if a == [] {
      assert a + b == b;
    } else {
      assert (a + b)[1..] == a[1..] + b;
      RunConcat(Apply(s, a[0]), a[1..], b);
    }
  }

  // ---- What every interleaving keeps ----

  function Foreign(s: State): set<Resource> { set x | x in s.resources && x.owner.None? }
  function Owned(s: State): set<Resource> { set x | x in s.resources && x.owner.Some? }

  ghost predicate RunnerOk(s: State, r: nat)
    requires r in s.runners
  {
    var q := s.runners[r];
    && (q.Active() || q.OrphanedStack() || q.OrphanedRelease() ==> s.claim == Some(r) && q.holds && !q.released)
    && (q.OrphanedStack() || q.OrphanedRelease() ==> q.available)
    && (q.OrphanedRelease() ==> q.downOk && q.imagesOk && !q.keepStack && Owned(s) == {})
    && (q.phase.Preflight? ==> !q.available && q.phase.listed < 3)
    && (q.phase.Preflight? && q.phase.clean ==>
          forall i | 0 <= i < q.phase.listed :: !Lists(s.resources, KINDS[i]))
    && (q.available ==> q.holds && Foreign(s) == {})
    && (q.phase.Available? || q.phase.Teardown? || q.phase.ImageRemoval? || q.phase.Release? ==> q.available)
    && (q.phase.Teardown? || q.phase.ImageRemoval? || q.phase.Release? ==> !q.keepStack)
    && (q.phase.ImageRemoval? && q.downOk ==> Owned(s) == {})
    && (q.phase.Release? ==> q.downOk && q.imagesOk && Owned(s) == {})
    && (q.released ==> q.downOk && q.imagesOk && q.available && !q.keepStack)
  }

  /** A runner-made resource exists only under its maker's claim, after that maker's preflight. */
  ghost predicate ResourceOk(s: State, x: Resource) {
    x.owner.Some? ==>
      s.claim == x.owner && x.owner.value in s.runners && s.runners[x.owner.value].available
  }

  ghost predicate Inv(s: State) {
    && (s.claim.Some? ==> s.claim.value in s.runners)
    && (forall r | r in s.runners :: RunnerOk(s, r))
    && (forall x | x in s.resources :: ResourceOk(s, x))
  }

  /** While a runner has not passed its preflight, nothing runner-made is labelled with the project. */
  lemma NothingOwned(s: State)
    requires Inv(s) && (s.claim.None? || !s.runners[s.claim.value].available)
    ensures Owned(s) == {}
  {
    forall x | x in s.resources ensures x.owner.None? { assert ResourceOk(s, x); }
  }

  /** Three listings by kind miss nothing. */
  lemma ThreeListingsSeeAll(resources: set<Resource>)
    ensures resources == {} || exists i :: 0 <= i < 3 && Lists(resources, KINDS[i])
  {
    assert KINDS[0] == Containers && KINDS[1] == Volumes && KINDS[2] == Networks;
    if resources != {} {
      var x :| x in resources;
      var i := match x.kind case Containers => 0 case Volumes => 1 case Networks => 2;
      assert Lists(resources, KINDS[i]);
    }
  }

  /** The facts of the invariant a step can rely on. */
  lemma KnownBefore(s: State, e: Event, r: nat)
    requires Inv(s) && Enabled(s, e)
    ensures r in s.runners ==> RunnerOk(s, r)
    ensures e.r in s.runners ==> RunnerOk(s, e.r)
    ensures s.claim.None? || (s.claim.value in s.runners && !s.runners[s.claim.value].available) ==> Owned(s) == {}
  {
    if s.claim.None? || !s.runners[s.claim.value].available { NothingOwned(s); }
  }

  /** The runner that takes the step. */
  lemma StepKeepsActor(s: State, e: Event)
    requires Inv(s) && Enabled(s, e)
    ensures e.r in Apply(s, e).runners && RunnerOk(Apply(s, e), e.r)
  {
    hide Inv;
    KnownBefore(s, e, e.r);
    if e.List? && Apply(s, e).runners[e.r].phase.Available? { ThreeListingsSeeAll(s.resources); }
  }

  /** Any other runner. */
  lemma StepKeepsOther(s: State, e: Event, r: nat)
    requires Inv(s) && Enabled(s, e) && r in Apply(s, e).runners && r != e.r
    ensures RunnerOk(Apply(s, e), r)
  {
    hide Inv;
    KnownBefore(s, e, r);
  }

  lemma StepKeepsRunner(s: State, e: Event, r: nat)
    requires Inv(s) && Enabled(s, e) && r in Apply(s, e).runners
    ensures RunnerOk(Apply(s, e), r)
  {
    hide Inv, Apply, Enabled, RunnerOk;
    if r == e.r { StepKeepsActor(s, e); } else { StepKeepsOther(s, e, r); }
  }

  lemma StepKeepsResource(s: State, e: Event, x: Resource)
    requires Inv(s) && Enabled(s, e) && x in Apply(s, e).resources
    ensures ResourceOk(Apply(s, e), x)
  {
    if x in s.resources { assert ResourceOk(s, x) && (x.owner.Some? ==> x in Owned(s)); }
    if e.r in s.runners { assert RunnerOk(s, e.r); }
  }

  lemma StepKeepsInv(s: State, e: Event)
    requires Inv(s) && Enabled(s, e)
    ensures Inv(Apply(s, e))
  {
    var t := Apply(s, e);
    forall r | r in t.runners ensures RunnerOk(t, r) { StepKeepsRunner(s, e, r); }
    forall x | x in t.resources ensures ResourceOk(t, x) { StepKeepsResource(s, e, x); }
  }

  lemma {:induction false} RunKeepsInv(s: State, es: seq<Event>)
    requires Inv(s) && Run(s, es).Some?
    ensures Inv(Run(s, es).value)
    decreases |es|
  {
    if es != [] {
      StepKeepsInv(s, es[0]);
      RunKeepsInv(Apply(s, es[0]), es[1..]);
    }
  }

  // ---- Guarantees of every run ----

  /** Before the runners came, everything under the name was made by others. */
  predicate Unowned(resources: set<Resource>) { forall x | x in resources :: x.owner.None? }

  /** The state after some run, over any interleaving of any number of runners. */
  ghost predicate Reached(foreign: set<Resource>, es: seq<Event>, s: State) {
    Unowned(foreign) && Run(Initial(foreign), es) == Some(s)
  }

  lemma ReachedInv(foreign: set<Resource>, es: seq<Event>, s: State)
    requires Reached(foreign, es, s)
    ensures Inv(s) && Foreign(s) == foreign
  {
    RunKeepsInv(Initial(foreign), es);
    ForeignStays(Initial(foreign), es);
    assert Foreign(Initial(foreign)) == foreign;
  }

  /** At most one runner is between its claim and its release, and the network it created is the claim. */
  lemma MutualExclusion(foreign: set<Resource>, es: seq<Event>, s: State, r: nat, q: nat)
    requires Reached(foreign, es, s) && r in s.runners && q in s.runners && s.runners[r].Active()
             && s.runners[q].Active()
    ensures r == q && s.claim == Some(r) && s.runners[r].holds
  {
    ReachedInv(foreign, es, s);
    assert RunnerOk(s, r) && RunnerOk(s, q);
  }

  /** When the name is unclaimed, exactly what was there before the runners is under it. */
  lemma FreeNameIsClean(foreign: set<Resource>, es: seq<Event>, s: State)
    requires Reached(foreign, es, s) && s.claim.None?
    ensures s.resources == foreign
  {
    ReachedInv(foreign, es, s);
    NothingOwned(s);
    forall x | x in s.resources ensures x.owner.None? { assert x.owner.Some? ==> x in Owned(s); }
  }

  lemma TouchedByHolder(s: State, e: Event)
    requires Inv(s) && Enabled(s, e) && Apply(s, e).resources != s.resources
    ensures (e.Compose? || e.Down? || e.Orphan?) && s.claim == Some(e.r) && s.runners[e.r].available
    ensures Foreign(s) == {} && Foreign(Apply(s, e)) == {}
  {
    assert RunnerOk(s, e.r);
  }

  /**
   * At any point of any run, resources change only by the claim holder, or what it left running,
   * after its preflight.
   */
  lemma OnlyHolderTouchesStack(foreign: set<Resource>, es: seq<Event>, s: State, e: Event)
    requires Reached(foreign, es, s) && Enabled(s, e) && Apply(s, e).resources != s.resources
    ensures (e.Compose? || e.Down? || e.Orphan?) && s.claim == Some(e.r) && s.runners[e.r].available
    ensures foreign == {}
  {
    ReachedInv(foreign, es, s);
    TouchedByHolder(s, e);
  }

  /**
   * At any point of any run, the claim disappears only by its own holder's release, after teardown
   * and image removal succeeded.
   */
  lemma ReleaseOnlyWhenClean(foreign: set<Resource>, es: seq<Event>, s: State, e: Event)
    requires Reached(foreign, es, s) && Enabled(s, e) && s.claim.Some? && Apply(s, e).claim != s.claim
    ensures (e.ReleaseClaim? || e.OrphanRelease?) && s.claim == Some(e.r) && Apply(s, e).claim.None?
    ensures s.runners[e.r].downOk && s.runners[e.r].imagesOk && !s.runners[e.r].keepStack
    ensures s.resources == {}
  {
    ReachedInv(foreign, es, s);
    assert RunnerOk(s, e.r);
    forall x | x in s.resources ensures x in Foreign(s) + Owned(s) {}
  }

  lemma {:induction false} ForeignStays(s: State, es: seq<Event>)
    requires Inv(s) && Run(s, es).Some?
    ensures Foreign(Run(s, es).value) == Foreign(s)
    decreases |es|
  {
    if es != [] {
      if Apply(s, es[0]).resources != s.resources { TouchedByHolder(s, es[0]); }
      StepKeepsInv(s, es[0]);
      ForeignStays(Apply(s, es[0]), es[1..]);
    }
  }

  /** Whatever was under the project name before the runners came is still there after any run. */
  lemma ForeignStackUntouched(foreign: set<Resource>, es: seq<Event>, s: State)
    requires Reached(foreign, es, s)
    ensures foreign <= s.resources && forall x | x in s.resources && x !in foreign :: x.owner.Some?
  {
    ReachedInv(foreign, es, s);
    forall x | x in foreign ensures x in s.resources { assert x in Foreign(s); }
  }

  /** Foreign resources under the name keep every runner from passing its preflight. */
  lemma ForeignStackRefused(foreign: set<Resource>, es: seq<Event>, s: State, r: nat)
    requires Reached(foreign, es, s) && foreign != {} && r in s.runners
    ensures !s.runners[r].available
  {
    ReachedInv(foreign, es, s);
    assert RunnerOk(s, r);
  }

  /** Under a claim whose runner is gone, nothing happens but refused claims and what that runner left running. */
  lemma IdleRunnersCannotAct(s: State, e: Event, r: nat)
    requires Inv(s) && Enabled(s, e) && r in s.runners && s.claim == Some(r) && !s.runners[r].Active()
    ensures (e.Claim? && e.result.Refused? && e.r !in s.runners) || ((e.Orphan? || e.OrphanRelease?) && e.r == r)
  {
    assert forall q | q in s.runners :: RunnerOk(s, q);
  }

  lemma {:induction false} Fenced(s: State, r: nat, es: seq<Event>)
    requires Inv(s) && Run(s, es).Some?
    requires r in s.runners && s.claim == Some(r) && !s.runners[r].Active() && !s.runners[r].OrphanedRelease()
    ensures var t := Run(s, es).value;
            && t.claim == Some(r) && r in t.runners && t.runners[r] == s.runners[r]
            && (!s.runners[r].OrphanedStack() ==> t.resources == s.resources)
    decreases |es|
  {
    if es != [] {
      StepKeepsInv(s, es[0]);
      IdleRunnersCannotAct(s, es[0], r);
      Fenced(Apply(s, es[0]), r, es[1..]);
    }
  }

  /**
   * A claim kept by a finished or dead runner fences the name for good: no other runner is ever
   * active again, and the stack stays as it is, except for what the dead runner left running.
   * The one exception is a runner that died while its release was under way.
   */
  lemma RetainedClaimFences(foreign: set<Resource>, before: seq<Event>, s: State, r: nat, es: seq<Event>, t: State)
    requires Reached(foreign, before, s) && Run(s, es) == Some(t)
    requires r in s.runners && s.claim == Some(r) && !s.runners[r].Active() && !s.runners[r].OrphanedRelease()
    ensures t.claim == Some(r) && r in t.runners && t.runners[r] == s.runners[r]
    ensures forall q | q in t.runners :: !t.runners[q].Active()
    ensures !s.runners[r].OrphanedStack() ==> t.resources == s.resources
  {
    ReachedInv(foreign, before, s);
    Fenced(s, r, es);
    RunKeepsInv(s, es);
    forall q | q in t.runners ensures !t.runners[q].Active() { assert RunnerOk(t, q); }
  }
}

/** `main` of scripts/run_container_e2e.py, run against a shared Docker under interference. */
module RunnerMain {
  import opened Options
  import opened RunnerClaim

  class Docker {
    const foreign: set<Resource>
    var state: State
    ghost var log: seq<Event>

    ghost predicate Valid() reads this {
      Reached(foreign, log, state)
    }

    constructor (foreign: set<Resource>)
      requires Unowned(foreign)
      ensures Valid() && this.foreign == foreign && log == []
    {
      this.foreign := foreign;
      state, log := Initial(foreign), [];
    }

    method Step(e: Event)
      requires Valid() && Enabled(state, e)
      modifies this
      ensures Valid() && log == old(log) + [e] && state == Apply(old(state), e)
    {
      assert Run(Apply(state, e), []) == Some(Apply(state, e));
      RunConcat(Initial(foreign), log, [e]);
      log := log + [e];
      state := Apply(state, e);
    }

    /** Commands of other runners, as far as they are possible now. */
    method Interfere(r: nat, schedule: seq<Event>)
      requires Valid()
      modifies this
      ensures Valid() && old(log) <= log
      ensures r in old(state).runners <==> r in state.runners
      ensures r in state.runners ==> state.runners[r] == old(state).runners[r]
    {
      for i := 0 to |schedule|
        invariant Valid() && old(log) <= log
        invariant r in old(state).runners <==> r in state.runners
        invariant r in state.runners ==> state.runners[r] == old(state).runners[r]
      {
        if schedule[i].r != r && Enabled(state, schedule[i]) { Step(schedule[i]); }
      }
    }
  }

  /** How one subprocess ended: a non-zero status, or a Python exception around it. */
  datatype Result = Ok | Exit(code: int) | Raised

  datatype Command = Command(created: set<Kind>, removed: set<Resource>, result: Result, before: seq<Event>)

  /** Everything `main` does not decide itself: what each command returns and who runs in between. */
  datatype Script = Script(
    keepStack: bool, claim: Result, idReturned: bool,
    listings: seq<Result>, commands: seq<Command>,
    left: set<Resource>, down: Result, images: Result, networkGone: bool, release: Result, metadataWritten: bool,
    between: seq<Event>)
  {
    predicate WellFormed() {
      && |listings| == 3
      && (claim.Exit? ==> claim.code != 0) && (down.Exit? ==> down.code != 0)
      && (forall i | 0 <= i < |listings| :: listings[i].Exit? ==> listings[i].code != 0)
      && (forall i | 0 <= i < |commands| :: commands[i].result.Exit? ==> commands[i].result.code != 0)
      && (release.Ok? ==> networkGone)
    }
  }

  datatype Failure = NoFailure | Collision | CommandFailed(code: int) | PythonException {
    function ExitCode(): int {
      match this
      case NoFailure => 0
      case Collision => 2
      case CommandFailed(code) => code
      case PythonException => 1
    }
  }

  function FailureOf(r: Result): Failure {
    match r
    case Ok => NoFailure
    case Exit(code) => CommandFailed(code)
    case Raised => PythonException
  }

  datatype Reason = KeepStack | PreflightFailed | CleanupFailed | TeardownNotCompleted

  /** `_claim_retained_reason`. */
  function RetainedReason(released: bool, keepStack: bool, available: bool, cleanupFailures: nat): Option<Reason> {
    if released then None
    else if keepStack then Some(KeepStack)
    else if !available then Some(PreflightFailed)
    else if cleanupFailures > 0 then Some(CleanupFailed)
    else Some(TeardownNotCompleted)
  }

  /** claim_project: a refused create is a collision when the network is found to exist afterwards. */
  method ClaimProject(d: Docker, r: nat, script: Script) returns (failure: Failure)
    requires d.Valid() && r !in d.state.runners && script.WellFormed()
    modifies d
    ensures d.Valid() && old(d.log) <= d.log && r in d.state.runners && d.state.runners[r].keepStack == script.keepStack
    ensures failure.NoFailure? <==> d.state.runners[r].phase == Preflight(0, true)
    ensures failure.NoFailure? <==> d.state.runners[r].holds
    ensures !failure.NoFailure? ==> d.state.runners[r].phase.Done? && failure.ExitCode() != 0
    ensures !d.state.runners[r].available && !d.state.runners[r].released
    ensures failure.Collision? ==> d.state.claim.Some?
    ensures var refused := old(d.state).claim.Some? || !script.claim.Ok?;
            && (refused ==> failure.ExitCode() == if d.state.claim.Some? then 2 else CodeOf(script.claim, 1))
            && (!refused ==> failure.ExitCode() == if script.idReturned then 0 else 1)
  {
    hide Run, Reached, AfterListing, AfterCompose, AfterDown;
    if d.state.claim.Some? || !script.claim.Ok? {
      d.Step(Claim(r, script.keepStack, Refused));
      d.Interfere(r, script.between);
      return if d.state.claim.Some? then Collision
             else if script.claim.Ok? then CommandFailed(1)
             else FailureOf(script.claim);
    }
    d.Step(Claim(r, script.keepStack, if script.idReturned then Created else CreatedWithoutId));
    failure := if script.idReturned then NoFailure else PythonException;
  }

  /** One of the three listings. */
  method ListResources(d: Docker, r: nat, ok: bool, between: seq<Event>) returns (found: bool)
    requires d.Valid() && r in d.state.runners
    requires d.state.runners[r].phase.Preflight? && d.state.runners[r].phase.listed < 3
    modifies d
    ensures d.Valid() && old(d.log) <= d.log && r in d.state.runners
    ensures d.state.runners[r] == AfterListing(old(d.state).runners[r], found, ok)
  {
    hide Run, Reached, Lists, ApplyClaim, AfterListing, AfterCompose, AfterDown;
    d.Interfere(r, between);
    found := Lists(d.state.resources, KINDS[d.state.runners[r].phase.listed]);
    d.Step(List(r, ok));
  }

  /** assert_project_available: three listings, each a separate command. */
  method AssertProjectAvailable(d: Docker, r: nat, script: Script) returns (failure: Failure)
    requires d.Valid() && script.WellFormed()
    requires r in d.state.runners && d.state.runners[r].phase == Preflight(0, true) && !d.state.runners[r].available
    modifies d
    ensures d.Valid() && old(d.log) <= d.log && r in d.state.runners
    ensures d.state.runners[r] == old(d.state).runners[r].(
              phase := if failure.NoFailure? then Available else Done, available := failure.NoFailure?)
    ensures !failure.NoFailure? ==> failure.ExitCode() != 0
    ensures !failure.NoFailure? && (forall i | 0 <= i < 3 :: script.listings[i].Ok?) ==> failure.ExitCode() == 2
    ensures forall i | FirstFailure(script.listings, i) :: failure.ExitCode() == CodeOf(script.listings[i], 0)
  {
    hide Run, Reached, Apply, Enabled, FailureOf, CodeOf;
    CodesAgree();
    var listed := 0;
    failure := NoFailure;
    var collided := false;
    while listed < 3
      invariant 0 <= listed <= 3 && d.Valid() && old(d.log) <= d.log && r in d.state.runners
      invariant failure.NoFailure? && forall i | 0 <= i < listed :: script.listings[i].Ok?
      invariant listed < 3 ==> d.state.runners[r] == old(d.state).runners[r].(phase := Preflight(listed, !collided))
      invariant listed == 3 ==>
                  d.state.runners[r] ==
                  old(d.state).runners[r].(phase := if collided then Done else Available, available := !collided)
    {
      var found := ListResources(d, r, script.listings[listed].Ok?, script.between);
      if !script.listings[listed].Ok? { return FailureOf(script.listings[listed]); }
      if found { collided := true; }
      listed := listed + 1;
    }
    if collided { failure := Collision; }
  }

  /** The exit code an ended subprocess leads to: its own, one for a Python exception. */
  function CodeOf(r: Result, whenOk: int): int {
    match r
    case Ok => whenOk
    case Exit(code) => code
    case Raised => 1
  }

  lemma CodesAgree()
    ensures forall r: Result | !r.Ok? :: FailureOf(r).ExitCode() == CodeOf(r, 0) && !FailureOf(r).NoFailure?
    ensures forall r: Result | r.Exit? && r.code != 0 :: CodeOf(r, 0) != 0
    ensures CodeOf(Raised, 0) == 1
  {
  }

  predicate FirstFailure(results: seq<Result>, i: int) {
    0 <= i < |results| && !results[i].Ok? && forall k | 0 <= k < i :: results[k].Ok?
  }

  function ResultsOf(commands: seq<Command>): (r: seq<Result>)
    ensures |r| == |commands| && forall i | 0 <= i < |r| :: r[i] == commands[i].result
  {
    seq(|commands|, i requires 0 <= i < |commands| => commands[i].result)
  }

  predicate BodyOk(commands: seq<Command>) { forall i | 0 <= i < |commands| :: commands[i].result.Ok? }

  /** The compose commands of the body, up to the first failure. */
  method RunCommands(d: Docker, r: nat, script: Script) returns (failure: Failure)
    requires d.Valid() && script.WellFormed() && r in d.state.runners && d.state.runners[r].phase.Available?
    modifies d
    ensures d.Valid() && old(d.log) <= d.log && r in d.state.runners
    ensures d.state.runners[r] == AfterBody(old(d.state).runners[r])
    ensures failure.NoFailure? <==> BodyOk(script.commands)
    ensures !failure.NoFailure? ==> failure.ExitCode() != 0
    ensures forall i | FirstFailure(ResultsOf(script.commands), i) ::
              failure.ExitCode() == CodeOf(script.commands[i].result, 0)
  {
    hide Run, Reached, Lists, ApplyClaim, AfterListing, AfterDown, AfterCompose, FailureOf, CodeOf;
    CodesAgree();
    for i := 0 to |script.commands|
      invariant d.Valid() && old(d.log) <= d.log && r in d.state.runners
      invariant d.state.runners[r] == old(d.state).runners[r] && BodyOk(script.commands[..i])
    {
      var c := script.commands[i];
      d.Interfere(r, c.before);
      d.Step(Compose(r, c.created, c.removed, c.result.Ok?));
      if !c.result.Ok? { return FailureOf(c.result); }
    }
    d.Step(Finish(r));
    failure := NoFailure;
  }

  /** The `finally` block of a run that passed preflight and does not keep its stack. */
  method CleanUp(d: Docker, r: nat, script: Script) returns (released: bool, failures: nat)
    requires d.Valid() && script.WellFormed() && r in d.state.runners
    requires d.state.runners[r].phase.Teardown? && d.state.runners[r].holds && !d.state.runners[r].released
    modifies d
    ensures d.Valid() && old(d.log) <= d.log && r in d.state.runners
    ensures d.state.runners[r] == old(d.state).runners[r].(
              phase := Done, downOk := script.down.Ok?, imagesOk := script.images.Ok?, released := released)
    ensures released <==> failures == 0
    ensures released <==> script.down.Ok? && script.images.Ok? && script.release.Ok?
  {
    failures, released := 0, false;
    d.Interfere(r, script.between);
    d.Step(Down(r, script.left, script.down.Ok?));
    if !script.down.Ok? { failures := failures + 1; }
    d.Interfere(r, script.between);
    d.Step(RemoveImages(r, script.images.Ok?));
    if !script.images.Ok? { failures := failures + 1; }
    if failures == 0 {
      d.Interfere(r, script.between);
      d.Step(ReleaseClaim(r, script.networkGone, script.release.Ok?));
      if script.release.Ok? { released := true; } else { failures := failures + 1; }
    }
  }

  datatype Report = Report(claimed: bool, available: bool, released: bool, reason: Option<Reason>, cleanupFailures: nat)

  /** One whole run of the script and the claim part of its final metadata. */
  method RunContainerE2E(d: Docker, r: nat, script: Script) returns (exitCode: int, report: Report)
    requires d.Valid() && r !in d.state.runners && script.WellFormed()
    modifies d
    ensures d.Valid() && old(d.log) <= d.log
    ensures r in d.state.runners && d.state.runners[r].phase.Done?
    ensures report.claimed == d.state.runners[r].holds && report.available == d.state.runners[r].available
    ensures report.released == d.state.runners[r].released
    ensures report.released <==> report.available && !script.keepStack && report.cleanupFailures == 0
    ensures report.released ==> d.state.runners[r].downOk && d.state.runners[r].imagesOk
    ensures report.reason.None? <==> report.released
    ensures report.reason != Some(TeardownNotCompleted)
    ensures report.reason == Some(KeepStack) <==> script.keepStack
    ensures report.reason == Some(PreflightFailed) <==> !script.keepStack && !report.available
    ensures report.reason == Some(CleanupFailed) <==> !script.keepStack && report.available && !report.released
    ensures exitCode == 0 <==> report.available && BodyOk(script.commands) && script.metadataWritten
    ensures !report.claimed ==>
              if old(d.state).claim.Some? || !script.claim.Ok?
              then exitCode == if d.state.claim.Some? then 2 else CodeOf(script.claim, 1)
              else exitCode == 1
    ensures report.claimed && !report.available ==>
              && ((forall i | 0 <= i < 3 :: script.listings[i].Ok?) ==> exitCode == 2)
              && forall i | FirstFailure(script.listings, i) :: exitCode == CodeOf(script.listings[i], 0)
    ensures report.available ==>
              forall i | FirstFailure(ResultsOf(script.commands), i) :: exitCode == CodeOf(script.commands[i].result, 0)
  {
    var released, failures := false, 0;
    var failure := ClaimProject(d, r, script);
    var claimed, available := failure.NoFailure?, false;
    if claimed {
      d.Interfere(r, script.between);
      failure := AssertProjectAvailable(d, r, script);
      available := failure.NoFailure?;
    }
    if available {
      failure := RunCommands(d, r, script);
      if !script.keepStack { released, failures := CleanUp(d, r, script); }
    }
    exitCode := failure.ExitCode();
    if !script.metadataWritten && exitCode == 0 { exitCode := 1; }
    report := Report(claimed, available, released,
                     RetainedReason(released, script.keepStack, available, failures), failures);
  }
}
