/** The four recovery planners, the simulation loop, and what each policy does over whole runs (eval/policies.py). */
module Policies {
  import opened Collections
  import opened Recovery

  const GLOBAL_MAX_ATTEMPTS: int := 3
  const MAX_ATTEMPTS_HARD: int := 8
  const SESSION_TTL_SECONDS: int := 900
  const BLIND_RETRY_ATTEMPTS: int := 3
  const BLIND_RETRY_DELAY_SECONDS: int := 30
  const STATIC_RULES_AMBIGUOUS_ATTEMPTS: int := 3
  const STATIC_RULES_SOFT_ATTEMPTS: int := 2
  const STATIC_RULES_AMBIGUOUS_DELAY_SECONDS: int := 600
  const STATIC_RULES_SOFT_DELAY_SECONDS: int := 300
  const STATIC_RULES_MISCLASSIFY_BP: int := 3500
  const INCUMBENT_MAX_ATTEMPTS: int := 3
  const INCUMBENT_REFRESH_ATTEMPTS: int := 2
  const INCUMBENT_REFRESH_DELAY_SECONDS: int := 120
  const INCUMBENT_DEFAULT_SCHEDULE: seq<int> := [600, 3600, 21600]
  const INCUMBENT_OUTAGE_PRIOR_SECONDS: int := 5400
  const INCUMBENT_MIN_WAIT_SECONDS: int := 600
  const INCUMBENT_MAX_WAIT_SECONDS: int := 12 * HOUR
  const FUNDS_RETRY_SCHEDULE: seq<int> := [6 * HOUR, 24 * HOUR, 48 * HOUR]
  const MESH_REFRESH_ATTEMPTS: int := 2
  const MESH_REFRESH_DELAY_SECONDS: int := 120
  const MESH_BACKOFF_SCHEDULE: seq<int> := [60, 600, 3600]
  const MESH_DEGRADED_SCHEDULE: seq<int> := [300, 1800, 7200]
  const MESH_DOWNTIME_UPPER_BOUND: seq<int> := [2 * HOUR, 6 * HOUR, 24 * HOUR]
  const DOWNTIME_RELEASE_LAG_SECONDS: int := 20

  function Max(x: int, y: int): int { if x < y then y else x }

  function Min(x: int, y: int): int { if x < y then x else y }

  // --------------------------------------------------------------------------
  // Planners
  // --------------------------------------------------------------------------

  /** A planner sees the observation and the attempts so far, and plans the next one or stops. */
  type Planner = (Observation, seq<Attempt>) -> Option<Attempt>

  /** An attempt on the rail that failed, out of session and with no obligation discharged. */
  function Bare(o: Observation, at: int, presentation: Presentation): Attempt {
    Attempt(at, o.rail, presentation, false, false, false, 0)
  }

  function PlanBlindRetry(o: Observation, h: seq<Attempt>): Option<Attempt> {
    if |h| >= BLIND_RETRY_ATTEMPTS then None
    else Some(Bare(o, PreviousAt(o, h) + BLIND_RETRY_DELAY_SECONDS, Unchanged))
  }

  function PlanStaticRules(o: Observation, h: seq<Attempt>): Option<Attempt> {
    var code := o.errorCode;
    if code in TERMINAL_DECLINE_CODES then None
    else if code in REFRESHABLE_DECLINE_CODES then None
    else if code in AMBIGUOUS_FAILURE_CODES && o.ambiguityRoll < STATIC_RULES_MISCLASSIFY_BP then None
    else
      var soft := code in SOFT_DECLINE_CODES;
      var limit := if soft then STATIC_RULES_SOFT_ATTEMPTS else STATIC_RULES_AMBIGUOUS_ATTEMPTS;
      if |h| >= limit then None
      else
        var delay := if soft then STATIC_RULES_SOFT_DELAY_SECONDS else STATIC_RULES_AMBIGUOUS_DELAY_SECONDS;
        var delay := if o.isRecurring then Max(delay, MANDATE_COOLING_SECONDS) else delay;
        Some(Bare(o, PreviousAt(o, h) + delay, Unchanged))
  }

  function Doubled(x: int, n: nat): int {
    if n == 0 then x else 2 * Doubled(x, n - 1)
  }

  /** `_estimated_outage_wait`. */
  function EstimatedOutageWait(o: Observation, index: nat): int {
    var scale := 7000 + (o.timingNoiseBp * 6000) / 10_000;
    var wait := (INCUMBENT_OUTAGE_PRIOR_SECONDS * scale) / 10_000;
    Min(Max(Doubled(wait, index), INCUMBENT_MIN_WAIT_SECONDS), INCUMBENT_MAX_WAIT_SECONDS)
  }

  function PlanIncumbent(o: Observation, h: seq<Attempt>): Option<Attempt> {
    var code, index := o.errorCode, |h|;
    if code in TERMINAL_DECLINE_CODES then None
    else
      var refresh := code in REFRESHABLE_DECLINE_CODES;
      if refresh && index >= INCUMBENT_REFRESH_ATTEMPTS then None
      else if !refresh && index >= INCUMBENT_MAX_ATTEMPTS then None
      else
        var delay :=
          if refresh then INCUMBENT_REFRESH_DELAY_SECONDS
          else if code in FUNDS_CODES then FUNDS_RETRY_SCHEDULE[index]
          else if o.degraded then EstimatedOutageWait(o, index)
          else INCUMBENT_DEFAULT_SCHEDULE[index];
        var delay := if o.isRecurring then Max(delay, MANDATE_COOLING_SECONDS) else delay;
        Some(Bare(o, PreviousAt(o, h) + delay, if refresh then NetworkToken else Unchanged))
  }

  predicate HealedInSession(h: seq<Attempt>) {
    exists k :: 0 <= k < |h| && h[k].inSession
  }

  /** Where and when the mesh retries a decline no refresh can fix, before mandate obligations. */
  datatype Route = Route(at: int, rail: string, presentation: Presentation, inSession: bool, comms: int)

  predicate IssuerSuspect(o: Observation) { o.degraded || o.errorCode in AMBIGUOUS_FAILURE_CODES }

  predicate SessionLive(o: Observation, h: seq<Attempt>) {
    && o.sessionActive && !o.isRecurring && !HealedInSession(h)
    && o.sessionAgeSeconds + (PreviousAt(o, h) - o.arrivalTs) < SESSION_TTL_SECONDS
  }

  /** The asynchronous path: a backoff, or the release of a published downtime if that comes first. */
  function AsyncAt(o: Observation, previousAt: int, index: nat): int
    requires index < 3
  {
    var schedule := if IssuerSuspect(o) then MESH_DEGRADED_SCHEDULE else MESH_BACKOFF_SCHEDULE;
    match o.downtime
    case Some(Downtime(true, true, Some(end))) =>
      var releaseAt := end + DOWNTIME_RELEASE_LAG_SECONDS;
      var deadline := previousAt + MESH_DOWNTIME_UPPER_BOUND[index];
      Max(previousAt, Min(releaseAt, deadline))
    case _ => previousAt + schedule[index]
  }

  function MeshRoute(o: Observation, h: seq<Attempt>): Route
    requires |h| < 3
  {
    var code, index, previousAt := o.errorCode, |h|, PreviousAt(o, h);
    if SessionLive(o, h) && IssuerSuspect(o) && o.altRailObservedHealthy
    then Route(previousAt, o.altRail, Unchanged, true, 0)
    else if SessionLive(o, h) && code in CUSTOMER_ACTION_CODES
    then Route(previousAt, o.rail, FreshAuthorisation, true, 0)
    else if code in FUNDS_CODES
    then Route(previousAt + FUNDS_RETRY_SCHEDULE[index], o.rail, Unchanged, false, 0)
    else
      var customer := code in CUSTOMER_ACTION_CODES;
      Route(AsyncAt(o, previousAt, index), o.rail, if customer then FreshAuthorisation else Unchanged, false,
            if customer then 1 else 0)
  }

  function PlanMesh(o: Observation, h: seq<Attempt>): Option<Attempt> {
    var code, index, previousAt := o.errorCode, |h|, PreviousAt(o, h);
    if code in TERMINAL_DECLINE_CODES then None
    else if index >= GLOBAL_MAX_ATTEMPTS then None
    else if AboveCeiling(o) then None
    else if o.isRecurring && o.attemptsInCycleBefore + index >= MANDATE_CYCLE_CAP then None
    else if code in REFRESHABLE_DECLINE_CODES && index >= MESH_REFRESH_ATTEMPTS then None
    else
      var route :=
        if code in REFRESHABLE_DECLINE_CODES
        then Route(previousAt + MESH_REFRESH_DELAY_SECONDS, o.rail, NetworkToken, false, 0)
        else MeshRoute(o, h);
      if o.isRecurring
      then Some(Attempt(
        Max(route.at, previousAt + MANDATE_COOLING_SECONDS), route.rail, route.presentation, route.inSession,
        true, false, route.comms + 1))
      else Some(Attempt(route.at, route.rail, route.presentation, route.inSession, false, false, route.comms))
  }

  // --------------------------------------------------------------------------
  // The simulation loop
  // --------------------------------------------------------------------------

  datatype Costs = Costs(gatewayFee: int, commsCost: int, compliancePenalty: int, sessionFriction: int)

  datatype PolicyOutcome = PolicyOutcome(
    recovered: bool, recoveredPaisa: int, retries: nat, comms: int, morphs: nat, violations: nat,
    nrcvPaisa: int, attempts: seq<Attempt>)

  datatype Played = Played(history: seq<Attempt>, recovered: bool)

  /** The attempts a planner makes from `h` on, and whether the last one recovered the payment. */
  function Play(i: Incident, p: Planner, h: seq<Attempt>): Result<Played, Error>
    decreases MAX_ATTEMPTS_HARD - |h|
  {
    if |h| >= MAX_ATTEMPTS_HARD then Ok(Played(h, false))
    else
      match p(i.seen, h)
      case None => Ok(Played(h, false))
      case Some(a) =>
        if a.at < PreviousAt(i.seen, h) then Err(TimeOrder)
        else
          match AttemptSuccess(i, a, |h|)
          case Err(e) => Err(e)
          case Ok(true) => Ok(Played(h + [a], true))
          case Ok(false) => Play(i, p, h + [a])
  }

  function Comms(h: seq<Attempt>): int {
    if h == [] then 0 else Comms(h[..|h| - 1]) + h[|h| - 1].commsMessages
  }

  function Morphs(o: Observation, h: seq<Attempt>): nat {
    if h == [] then 0
    else Morphs(o, h[..|h| - 1]) + if h[|h| - 1].inSession && h[|h| - 1].rail != o.rail then 1 else 0
  }

  /** `nrcv_paisa`. */
  function NrcvPaisa(recovered: int, retries: int, comms: int, violations: int, morphs: int, c: Costs): int {
    recovered - retries * c.gatewayFee - comms * c.commsCost - violations * c.compliancePenalty
    - morphs * c.sessionFriction
  }

  /** How a finished run is scored. */
  function Scored(o: Observation, run: Played, c: Costs): PolicyOutcome {
    var h := run.history;
    var paisa := if run.recovered then o.amountPaisa else 0;
    PolicyOutcome(
      run.recovered, paisa, |h|, Comms(h), Morphs(o, h), Violations(o, h),
      NrcvPaisa(paisa, |h|, Comms(h), Violations(o, h), Morphs(o, h), c), h)
  }

  method CountComms(h: seq<Attempt>) returns (n: int)
    ensures n == Comms(h)
  {
    n := 0;
    for k := 0 to |h|
      invariant n == Comms(h[..k])
    {
      assert h[..k + 1][..k] == h[..k];
      n := n + h[k].commsMessages;
    }
    assert h[..|h|] == h;
  }

  method CountMorphs(o: Observation, h: seq<Attempt>) returns (n: nat)
    ensures n == Morphs(o, h)
  {
    n := 0;
    for k := 0 to |h|
      invariant n == Morphs(o, h[..k])
    {
      assert h[..k + 1][..k] == h[..k];
      if h[k].inSession && h[k].rail != o.rail {
        n := n + 1;
      }
    }
    assert h[..|h|] == h;
  }

  /** `simulate`. */
  method Simulate(i: Incident, p: Planner, c: Costs) returns (r: Result<PolicyOutcome, Error>)
    ensures match Play(i, p, [])
            case Err(e) => r == Err(e)
            case Ok(run) => r == Ok(Scored(i.seen, run, c))
  {
    var o := i.seen;
    var history: seq<Attempt> := [];
    var recovered := false;
    var index := 0;
    while index < MAX_ATTEMPTS_HARD
      invariant 0 <= index == |history| <= MAX_ATTEMPTS_HARD && !recovered
      invariant Play(i, p, history) == Play(i, p, [])
    {
      var next := p(o, history);
      if next.None? {
        break;
      }
      var floor := PreviousAt(o, history);
      if next.value.at < floor {
        return Err(TimeOrder);
      }
      var settled := AttemptSuccess(i, next.value, index);
      if settled.Err? {
        return Err(settled.error);
      }
      history := history + [next.value];
      if settled.value {
        recovered := true;
        break;
      }
      index := index + 1;
    }
    assert Play(i, p, []) == Ok(Played(history, recovered));
    var comms := CountComms(history);
    var morphs := CountMorphs(o, history);
    var violations := AuditViolations(o, history);
    var paisa := if recovered then o.amountPaisa else 0;
    r := Ok(PolicyOutcome(
      recovered, paisa, |history|, comms, morphs, violations,
      NrcvPaisa(paisa, |history|, comms, violations, morphs, c), history));
  }

  // --------------------------------------------------------------------------
  // Whole runs
  // --------------------------------------------------------------------------

  /** A tape long enough for every attempt a policy may make, and a usable half-life. */
  predicate WellFormed(i: Incident) {
    |i.draws| >= GLOBAL_MAX_ATTEMPTS && i.truth.halfLifeSeconds > 0
  }

  /** Attempts never go back in time. */
  ghost predicate InOrder(o: Observation, h: seq<Attempt>) {
    forall k :: 0 <= k < |h| ==> h[k].at >= EventBefore(o, h, k)
  }

  /** From histories satisfying `inv`, the planner stays inside it, on time and within three attempts. */
  ghost predicate Keeps(o: Observation, p: Planner, inv: seq<Attempt> -> bool) {
    forall h :: inv(h) && p(o, h).Some? ==>
      |h| < GLOBAL_MAX_ATTEMPTS && p(o, h).value.at >= PreviousAt(o, h) && inv(h + [p(o, h).value])
  }

  lemma EventsKept(o: Observation, h: seq<Attempt>, a: Attempt, k: nat)
    requires k <= |h|
    ensures EventBefore(o, h + [a], k) == EventBefore(o, h, k)
  {
  }

  lemma InOrderExtends(o: Observation, h: seq<Attempt>, a: Attempt)
    requires InOrder(o, h) && a.at >= PreviousAt(o, h)
    ensures InOrder(o, h + [a])
  {
    forall k | 0 <= k < |h + [a]|
      ensures (h + [a])[k].at >= EventBefore(o, h + [a], k)
    {
      EventsKept(o, h, a, k);
    }
  }

  /** The loop neither fails nor leaves the invariant, and stops within three attempts. */
  lemma {:induction false} PlayStaysInside(i: Incident, p: Planner, inv: seq<Attempt> -> bool, h: seq<Attempt>)
    requires WellFormed(i) && Keeps(i.seen, p, inv)
    requires inv(h) && |h| <= GLOBAL_MAX_ATTEMPTS && InOrder(i.seen, h)
    ensures Play(i, p, h).Ok?
    ensures var run := Play(i, p, h).value;
            inv(run.history) && |run.history| <= GLOBAL_MAX_ATTEMPTS && InOrder(i.seen, run.history)
    ensures Play(i, p, h).value.recovered ==>
              var got := Play(i, p, h).value.history;
              got != [] && AttemptSuccess(i, got[|got| - 1], |got| - 1) == Ok(true)
    decreases GLOBAL_MAX_ATTEMPTS - |h|
  {
    hide SuccessProbabilityBp;
    if p(i.seen, h).Some? {
      var a := p(i.seen, h).value;
      InOrderExtends(i.seen, h, a);
      AlwaysSettles(i, a, |h|);
      if AttemptSuccess(i, a, |h|) == Ok(false) {
        PlayStaysInside(i, p, inv, h + [a]);
      }
    }
  }

  lemma AlwaysSettles(i: Incident, a: Attempt, index: nat)
    requires WellFormed(i) && index < GLOBAL_MAX_ATTEMPTS
    ensures AttemptSuccess(i, a, index).Ok?
  {
  }

  // --------------------------------------------------------------------------
  // The mesh
  // --------------------------------------------------------------------------

  function InSessionCount(h: seq<Attempt>): nat {
    if h == [] then 0 else InSessionCount(h[..|h| - 1]) + if h[|h| - 1].inSession then 1 else 0
  }

  lemma {:induction false} NoneHealed(h: seq<Attempt>)
    ensures !HealedInSession(h) ==> InSessionCount(h) == 0
  {
    if h != [] {
      NoneHealed(h[..|h| - 1]);
      assert HealedInSession(h[..|h| - 1]) ==> HealedInSession(h) by {
        if HealedInSession(h[..|h| - 1]) {
          var k :| 0 <= k < |h| - 1 && h[..|h| - 1][k].inSession;
          assert h[k].inSession;
        }
      }
      assert h[|h| - 1].inSession ==> HealedInSession(h);
    }
  }

  ghost predicate MeshHistory(o: Observation, h: seq<Attempt>) {
    Compliant(o, h) && InSessionCount(h) <= 1 && (o.isRecurring ==> InSessionCount(h) == 0)
  }

  lemma AsyncNotBefore(o: Observation, previousAt: int, index: nat)
    requires index < 3
    ensures AsyncAt(o, previousAt, index) >= previousAt
  {
  }

  lemma MeshRouteOnTime(o: Observation, h: seq<Attempt>)
    requires |h| < 3
    ensures MeshRoute(o, h).at >= PreviousAt(o, h)
    ensures MeshRoute(o, h).inSession ==> !HealedInSession(h) && !o.isRecurring
  {
    hide AsyncAt, PreviousAt;
    AsyncNotBefore(o, PreviousAt(o, h), |h|);
  }

  lemma MeshAttempt(o: Observation, h: seq<Attempt>)
    requires PlanMesh(o, h).Some?
    ensures
      var a := PlanMesh(o, h).value;
      && |h| < GLOBAL_MAX_ATTEMPTS && a.at >= PreviousAt(o, h)
      && (a.inSession ==> !HealedInSession(h) && !o.isRecurring)
      && (o.isRecurring ==>
            && a.preDebitNotified && a.at >= PreviousAt(o, h) + MANDATE_COOLING_SECONDS
            && o.amountPaisa <= AfaCeilingPaisa(o.mandateCategory)
            && o.attemptsInCycleBefore + |h| < MANDATE_CYCLE_CAP)
  {
    hide MeshRoute, PreviousAt, AfaCeilingPaisa, HealedInSession;
    if |h| < 3 {
      MeshRouteOnTime(o, h);
    }
  }

  lemma CompliantExtends(o: Observation, h: seq<Attempt>, a: Attempt)
    requires Compliant(o, h)
    requires o.isRecurring ==>
               && a.preDebitNotified && a.at >= PreviousAt(o, h) + MANDATE_COOLING_SECONDS
               && o.amountPaisa <= AfaCeilingPaisa(o.mandateCategory)
               && o.attemptsInCycleBefore + |h| < MANDATE_CYCLE_CAP
    ensures Compliant(o, h + [a])
  {
    hide AfaCeilingPaisa;
    var g := h + [a];
    if o.isRecurring {
      forall k | 0 <= k < |g|
        ensures g[k].at - EventBefore(o, g, k) >= MANDATE_COOLING_SECONDS && g[k].preDebitNotified
      {
        EventsKept(o, h, a, k);
        if k < |h| {
          assert g[k] == h[k];
        }
      }
    }
  }

  lemma MeshKeeps(o: Observation)
    ensures Keeps(o, PlanMesh, h => MeshHistory(o, h))
  {
    hide Compliant, PlanMesh, HealedInSession;
    forall h | MeshHistory(o, h) && PlanMesh(o, h).Some?
      ensures |h| < GLOBAL_MAX_ATTEMPTS && PlanMesh(o, h).value.at >= PreviousAt(o, h)
      ensures MeshHistory(o, h + [PlanMesh(o, h).value])
    {
      var a := PlanMesh(o, h).value;
      MeshAttempt(o, h);
      CompliantExtends(o, h, a);
      NoneHealed(h);
      assert (h + [a])[..|h|] == h;
    }
  }

  lemma NothingYet(o: Observation)
    ensures MeshHistory(o, []) && InOrder(o, [])
  {
  }

  /**
   Whole-run compliance: on every incident with a usable tape and half-life, the mesh policy finishes
   without an error, within three attempts that never go back in time, with at most one in session,
   and the referee, written independently of it, finds nothing.
   */
  lemma MeshNeverBreaches(i: Incident)
    requires WellFormed(i)
    ensures Play(i, PlanMesh, []).Ok?
    ensures
      var run := Play(i, PlanMesh, []).value;
      && Violations(i.seen, run.history) == 0
      && |run.history| <= GLOBAL_MAX_ATTEMPTS && InOrder(i.seen, run.history)
      && InSessionCount(run.history) <= 1
  {
    hide Compliant, PlanMesh, Violations, Play, InOrder;
    MeshKeeps(i.seen);
    NothingYet(i.seen);
    PlayStaysInside(i, PlanMesh, h => MeshHistory(i.seen, h), []);
    RefereeIsExact(i.seen, Play(i, PlanMesh, []).value.history);
  }

  // --------------------------------------------------------------------------
  // The baselines, charged exactly
  // --------------------------------------------------------------------------

  /** An attempt that meets no obligation, sends nothing and stays out of the session. */
  predicate IsBare(a: Attempt) {
    !a.preDebitNotified && !a.afaObtained && !a.inSession && a.commsMessages == 0
  }

  /** Every attempt is bare, and follows the event before it by exactly, or at least, `wait`. */
  ghost predicate BareHistory(o: Observation, h: seq<Attempt>, wait: int, exactly: bool) {
    forall k :: 0 <= k < |h| ==>
      && IsBare(h[k])
      && h[k].at - EventBefore(o, h, k) >= wait
      && (exactly ==> h[k].at - EventBefore(o, h, k) == wait)
  }

  lemma BareExtends(o: Observation, h: seq<Attempt>, wait: int, exactly: bool, a: Attempt)
    requires BareHistory(o, h, wait, exactly)
    requires IsBare(a)
    requires a.at - PreviousAt(o, h) >= wait && (exactly ==> a.at - PreviousAt(o, h) == wait)
    ensures BareHistory(o, h + [a], wait, exactly)
  {
    var g := h + [a];
    forall k | 0 <= k < |g|
      ensures IsBare(g[k])
      ensures g[k].at - EventBefore(o, g, k) >= wait
      ensures exactly ==> g[k].at - EventBefore(o, g, k) == wait
    {
      EventsKept(o, h, a, k);
      if k < |h| {
        assert g[k] == h[k];
      }
    }
  }

  /** How long a policy with only the cooling window in its table waits at least. */
  function CooledWait(o: Observation): int { if o.isRecurring then MANDATE_COOLING_SECONDS else 0 }

  lemma BlindKeeps(o: Observation)
    ensures Keeps(o, PlanBlindRetry, h => BareHistory(o, h, BLIND_RETRY_DELAY_SECONDS, true))
  {
    hide BareHistory;
    forall h | BareHistory(o, h, BLIND_RETRY_DELAY_SECONDS, true) && PlanBlindRetry(o, h).Some?
      ensures BareHistory(o, h + [PlanBlindRetry(o, h).value], BLIND_RETRY_DELAY_SECONDS, true)
    {
      BareExtends(o, h, BLIND_RETRY_DELAY_SECONDS, true, PlanBlindRetry(o, h).value);
    }
  }

  lemma StaticAttempt(o: Observation, h: seq<Attempt>)
    requires PlanStaticRules(o, h).Some?
    ensures
      var a := PlanStaticRules(o, h).value;
      && |h| < GLOBAL_MAX_ATTEMPTS && a.at - PreviousAt(o, h) >= CooledWait(o)
      && IsBare(a)
  {
    hide PreviousAt;
  }

  lemma IncumbentAttempt(o: Observation, h: seq<Attempt>)
    requires PlanIncumbent(o, h).Some?
    ensures
      var a := PlanIncumbent(o, h).value;
      && |h| < GLOBAL_MAX_ATTEMPTS && a.at - PreviousAt(o, h) >= CooledWait(o)
      && IsBare(a)
  {
    hide PreviousAt, Doubled;
  }

  lemma StaticKeeps(o: Observation)
    ensures Keeps(o, PlanStaticRules, h => BareHistory(o, h, CooledWait(o), false))
  {
    hide BareHistory, PlanStaticRules;
    forall h | BareHistory(o, h, CooledWait(o), false) && PlanStaticRules(o, h).Some?
      ensures |h| < GLOBAL_MAX_ATTEMPTS && PlanStaticRules(o, h).value.at >= PreviousAt(o, h)
      ensures BareHistory(o, h + [PlanStaticRules(o, h).value], CooledWait(o), false)
    {
      StaticAttempt(o, h);
      BareExtends(o, h, CooledWait(o), false, PlanStaticRules(o, h).value);
    }
  }

  lemma IncumbentKeeps(o: Observation)
    ensures Keeps(o, PlanIncumbent, h => BareHistory(o, h, CooledWait(o), false))
  {
    hide BareHistory, PlanIncumbent;
    forall h | BareHistory(o, h, CooledWait(o), false) && PlanIncumbent(o, h).Some?
      ensures |h| < GLOBAL_MAX_ATTEMPTS && PlanIncumbent(o, h).value.at >= PreviousAt(o, h)
      ensures BareHistory(o, h + [PlanIncumbent(o, h).value], CooledWait(o), false)
    {
      IncumbentAttempt(o, h);
      BareExtends(o, h, CooledWait(o), false, PlanIncumbent(o, h).value);
    }
  }

  /** What a bare recurring history is charged: per attempt, and for the cycle. */
  function BareCharge(o: Observation, n: nat, perAttempt: nat): nat {
    if !o.isRecurring || n == 0 then 0
    else
      n * (perAttempt + if AboveCeiling(o) then 1 else 0)
      + if o.attemptsInCycleBefore + n > MANDATE_CYCLE_CAP then o.attemptsInCycleBefore + n - MANDATE_CYCLE_CAP else 0
  }

  lemma BareIsCharged(o: Observation, h: seq<Attempt>, wait: int, exactly: bool)
    requires BareHistory(o, h, wait, exactly)
    requires o.isRecurring ==> wait >= MANDATE_COOLING_SECONDS || (exactly && wait < MANDATE_COOLING_SECONDS)
    ensures Violations(o, h) == BareCharge(o, |h|, if wait >= MANDATE_COOLING_SECONDS then 1 else 2)
  {
    hide AfaCeilingPaisa, Findings;
    if o.isRecurring && h != [] {
      var each := (if wait >= MANDATE_COOLING_SECONDS then 1 else 2) + if AboveCeiling(o) then 1 else 0;
      UniformFindings(o, h, each, |h|);
    }
  }

  lemma NothingBare(o: Observation, wait: int, exactly: bool)
    ensures BareHistory(o, [], wait, exactly) && InOrder(o, [])
  {
  }

  /**
   The blind loop's whole-run bill on every incident: each recurring attempt is too soon and
   unnotified, unauthenticated too above the ceiling, and the cycle cap is ignored.
   */
  lemma BlindIsCharged(i: Incident)
    requires WellFormed(i)
    ensures Play(i, PlanBlindRetry, []).Ok?
    ensures var h := Play(i, PlanBlindRetry, []).value.history;
            && |h| <= GLOBAL_MAX_ATTEMPTS && InOrder(i.seen, h)
            && Violations(i.seen, h) == BareCharge(i.seen, |h|, 2)
  {
    hide Play, Violations, BareHistory, PlanBlindRetry, InOrder, BareCharge;
    BlindKeeps(i.seen);
    NothingBare(i.seen, BLIND_RETRY_DELAY_SECONDS, true);
    PlayStaysInside(i, PlanBlindRetry, h => BareHistory(i.seen, h, BLIND_RETRY_DELAY_SECONDS, true), []);
    BareIsCharged(i.seen, Play(i, PlanBlindRetry, []).value.history, BLIND_RETRY_DELAY_SECONDS, true);
  }

  lemma CooledCharge(o: Observation, h: seq<Attempt>)
    requires BareHistory(o, h, CooledWait(o), false)
    ensures Violations(o, h) == BareCharge(o, |h|, 1)
  {
    hide AfaCeilingPaisa, Findings, BareHistory;
    if o.isRecurring {
      BareIsCharged(o, h, CooledWait(o), false);
    }
  }

  /** The table and the incumbent keep the cooling window and nothing else of the mandate rules. */
  lemma CooledBaselinesAreCharged(i: Incident)
    requires WellFormed(i)
    ensures Play(i, PlanStaticRules, []).Ok? && Play(i, PlanIncumbent, []).Ok?
    ensures var h := Play(i, PlanStaticRules, []).value.history;
            && |h| <= GLOBAL_MAX_ATTEMPTS && InOrder(i.seen, h)
            && Violations(i.seen, h) == BareCharge(i.seen, |h|, 1)
    ensures var h := Play(i, PlanIncumbent, []).value.history;
            && |h| <= GLOBAL_MAX_ATTEMPTS && InOrder(i.seen, h)
            && Violations(i.seen, h) == BareCharge(i.seen, |h|, 1)
  {
    hide Play, Violations, BareHistory, PlanStaticRules, PlanIncumbent, InOrder, BareCharge;
    NothingBare(i.seen, CooledWait(i.seen), false);
    StaticKeeps(i.seen);
    PlayStaysInside(i, PlanStaticRules, h => BareHistory(i.seen, h, CooledWait(i.seen), false), []);
    CooledCharge(i.seen, Play(i, PlanStaticRules, []).value.history);
    IncumbentKeeps(i.seen);
    PlayStaysInside(i, PlanIncumbent, h => BareHistory(i.seen, h, CooledWait(i.seen), false), []);
    CooledCharge(i.seen, Play(i, PlanIncumbent, []).value.history);
  }

  // --------------------------------------------------------------------------
  // A breach is never profitable
  // --------------------------------------------------------------------------

  /** Tape values are rolls in [0, 10000). */
  predicate GoodTape(i: Incident) { forall k :: 0 <= k < |i.draws| ==> 0 <= i.draws[k] < 10_000 }

  lemma DeclinedAboveCeiling(i: Incident, a: Attempt, index: nat)
    requires GoodTape(i) && AboveCeiling(i.seen) && !a.afaObtained
    ensures AttemptSuccess(i, a, index) != Ok(true)
  {
    hide Retention;
  }

  lemma BareLast(o: Observation, h: seq<Attempt>, wait: int, exactly: bool)
    requires BareHistory(o, h, wait, exactly) && h != []
    ensures !h[|h| - 1].afaObtained
  {
  }

  /**
   No policy recovers a mandate debit above its ceiling: the baselines try and are declined at a
   loss, the mesh abstains at no cost, so on those incidents the mesh is worth at least as much.
   */
  lemma AbstainingBeatsBreaching(i: Incident, c: Costs)
    requires WellFormed(i) && GoodTape(i) && AboveCeiling(i.seen)
    requires c.gatewayFee >= 0 && c.compliancePenalty >= 0
    ensures Play(i, PlanMesh, []) == Ok(Played([], false))
    ensures Play(i, PlanBlindRetry, []).Ok? && Play(i, PlanStaticRules, []).Ok? && Play(i, PlanIncumbent, []).Ok?
    ensures
      var mesh := Scored(i.seen, Played([], false), c).nrcvPaisa;
      && mesh == 0
      && Scored(i.seen, Play(i, PlanBlindRetry, []).value, c).nrcvPaisa <= mesh
      && Scored(i.seen, Play(i, PlanStaticRules, []).value, c).nrcvPaisa <= mesh
      && Scored(i.seen, Play(i, PlanIncumbent, []).value, c).nrcvPaisa <= mesh
  {
    hide Violations, BareHistory, PlanStaticRules, PlanIncumbent, PlanBlindRetry, InOrder, AboveCeiling, Play, Scored, Keeps;
    MeshAbstains(i);
    EmptyScore(i.seen, c);
    NothingBare(i.seen, BLIND_RETRY_DELAY_SECONDS, true);
    NothingBare(i.seen, CooledWait(i.seen), false);
    BlindKeeps(i.seen);
    StaticKeeps(i.seen);
    IncumbentKeeps(i.seen);
    BareRunLoses(i, PlanBlindRetry, BLIND_RETRY_DELAY_SECONDS, true, c);
    BareRunLoses(i, PlanStaticRules, CooledWait(i.seen), false, c);
    BareRunLoses(i, PlanIncumbent, CooledWait(i.seen), false, c);
  }

  lemma MeshAbstains(i: Incident)
    requires AboveCeiling(i.seen)
    ensures Play(i, PlanMesh, []) == Ok(Played([], false))
  {
  }

  lemma EmptyScore(o: Observation, c: Costs)
    ensures Scored(o, Played([], false), c).nrcvPaisa == 0
  {
  }

  lemma {:induction false} BareIsFree(o: Observation, h: seq<Attempt>, n: nat)
    requires n <= |h| && forall k :: 0 <= k < |h| ==> IsBare(h[k])
    ensures Comms(h[..n]) == 0 && Morphs(o, h[..n]) == 0
    decreases n
  {
    if n > 0 {
      assert h[..n][..n - 1] == h[..n - 1];
      BareIsFree(o, h, n - 1);
    }
  }

  lemma BareScore(o: Observation, h: seq<Attempt>, wait: int, exactly: bool, c: Costs)
    requires BareHistory(o, h, wait, exactly)
    requires c.gatewayFee >= 0 && c.compliancePenalty >= 0
    ensures Scored(o, Played(h, false), c).nrcvPaisa <= 0
  {
    hide Violations, Comms, Morphs;
    BareIsFree(o, h, |h|);
    assert h[..|h|] == h;
    ChargesAreLosses(|h|, Violations(o, h), c);
  }

  lemma ChargesAreLosses(retries: nat, violations: nat, c: Costs)
    requires c.gatewayFee >= 0 && c.compliancePenalty >= 0
    ensures NrcvPaisa(0, retries, 0, violations, 0, c) <= 0
  {
    assert retries * c.gatewayFee >= 0;
    assert violations * c.compliancePenalty >= 0;
  }

  lemma BareRunLoses(i: Incident, p: Planner, wait: int, exactly: bool, c: Costs)
    requires WellFormed(i) && GoodTape(i) && AboveCeiling(i.seen)
    requires c.gatewayFee >= 0 && c.compliancePenalty >= 0
    requires BareHistory(i.seen, [], wait, exactly) && InOrder(i.seen, [])
    requires Keeps(i.seen, p, h => BareHistory(i.seen, h, wait, exactly))
    ensures Play(i, p, []).Ok?
    ensures Scored(i.seen, Play(i, p, []).value, c).nrcvPaisa <= 0
  {
    hide Play, BareHistory, Keeps, AboveCeiling, InOrder, Scored, AttemptSuccess;
    PlayStaysInside(i, p, h => BareHistory(i.seen, h, wait, exactly), []);
    var run := Play(i, p, []).value;
    if run.recovered {
      BareLast(i.seen, run.history, wait, exactly);
      DeclinedAboveCeiling(i, run.history[|run.history| - 1], |run.history| - 1);
      assert false;
    }
    BareScore(i.seen, run.history, wait, exactly, c);
  }
}
