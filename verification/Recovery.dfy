/**
 Recovery attempts, the outcome model and the compliance referee (eval/generator.py and
 eval/policies.py). Money is in paisa, time in seconds, shares in basis points.
 */
module Recovery {
  import opened Collections

  const HOUR: int := 3600

  // --------------------------------------------------------------------------
  // Vocabulary
  // --------------------------------------------------------------------------

  const TERMINAL_DECLINE_CODES: set<string> := {
    "debit_instrument_blocked", "bank_account_invalid", "transaction_limit_exceeded",
    "payment_method_not_enabled", "invalid_card_number", "card_lost_or_stolen",
    "international_transaction_not_allowed", "payment_cancelled_by_user", "mandate_revoked"}
  const REFRESHABLE_DECLINE_CODES: set<string> := {"card_expired", "card_not_supported"}
  const AMBIGUOUS_FAILURE_CODES: set<string> := {
    "bank_technical_error", "gateway_technical_error", "payment_timed_out", "server_error",
    "issuer_down", "gateway_error", "upi_psp_error", "payment_pending"}
  const SOFT_DECLINE_CODES: set<string> := {
    "insufficient_funds", "payment_failed", "invalid_otp", "incorrect_otp",
    "authentication_failed", "upi_collect_expired", "mandate_not_active"}
  const CUSTOMER_ACTION_CODES: set<string> := {
    "invalid_otp", "incorrect_otp", "authentication_failed", "upi_collect_expired"}
  const FUNDS_CODES: set<string> := {"insufficient_funds", "mandate_not_active"}
  const ELEVATED_CATEGORIES: set<string> := {"insurance", "mutual_fund", "credit_card_bill"}

  const AFA_CEILING_GENERAL_PAISA: int := 15_000_00
  const AFA_CEILING_ELEVATED_PAISA: int := 1_00_000_00

  /** An unrecognised category gets the stricter ceiling. */
  function AfaCeilingPaisa(category: string): int {
    if category in ELEVATED_CATEGORIES then AFA_CEILING_ELEVATED_PAISA else AFA_CEILING_GENERAL_PAISA
  }

  datatype Presentation = Unchanged | NetworkToken | StoredCredential | FreshAuthorisation

  /** One outbound attempt, as a policy declares it. */
  datatype Attempt = Attempt(
    at: int, rail: string, presentation: Presentation, inSession: bool,
    preDebitNotified: bool, afaObtained: bool, commsMessages: int)

  datatype Downtime = Downtime(matchesIssuer: bool, started: bool, end: Option<int>)

  /** What a policy may see of an incident. */
  datatype Observation = Observation(
    rail: string, errorCode: string, amountPaisa: int, isRecurring: bool, mandateCategory: string,
    attemptsInCycleBefore: int, sessionActive: bool, sessionAgeSeconds: int, arrivalTs: int,
    degraded: bool, downtime: Option<Downtime>, altRail: string, altRailObservedHealthy: bool,
    ambiguityRoll: int, timingNoiseBp: int)

  datatype Cause = Outage | Transient | Permanent | Stale | Funds | Customer

  /** What it may not see. */
  datatype Truth = Truth(
    cause: Cause, recoveryTs: int, floorBp: int, recoveredBp: int, oobAuthBp: int,
    altRailBp: int, refreshBp: int, halfLifeSeconds: int)

  datatype Incident = Incident(seen: Observation, truth: Truth, draws: seq<int>)

  datatype Error = TimeOrder | TapeIndex | HalfLife

  // --------------------------------------------------------------------------
  // The outcome model
  // --------------------------------------------------------------------------

  const MAX_HALVINGS: int := 16

  /** `value >> n`. */
  function Halved(value: nat, n: nat): nat {
    if n == 0 then value else Halved(value, n - 1) / 2
  }

  /** The share of payers still there, for a positive half-life: exact halvings, then a straight line. */
  function Retention(elapsed: int, halfLife: int): (r: nat)
    requires halfLife > 0
    ensures r <= 10_000
  {
    if elapsed <= 0 then 10_000
    else
      var halvings := elapsed / halfLife;
      if halvings >= MAX_HALVINGS then 0
      else
        var remainder := elapsed - halvings * halfLife;
        var value := Halved(10_000, halvings);
        HalvedShrinks(10_000, halvings);
        DecayWithin(value, remainder, halfLife);
        var left := value - (value * remainder) / (2 * halfLife);
        if left > 0 then left else 0
  }

  lemma {:induction false} HalvedShrinks(value: nat, n: nat)
    ensures Halved(value, n) <= value
  {
    if n > 0 {
      HalvedShrinks(value, n - 1);
    }
  }

  /** Within one half-life at most half of the value decays. */
  lemma DecayWithin(value: nat, r: int, h: int)
    requires h > 0 && 0 <= r <= h
    ensures 0 <= (value * r) / (2 * h)
    ensures 2 * ((value * r) / (2 * h)) <= value
  {
    var q := (value * r) / (2 * h);
    ScaleInt(0, r, value);
    ScaleInt(r, h, value);
    DivisionBounds(value * r, 2 * h);
    QuotientNonNegative(value * r, 2 * h);
    assert q * (2 * h) == (2 * q) * h;
    CancelInt(2 * q, value, h);
  }

  lemma ScaleInt(a: int, b: int, k: int)
    requires a <= b && k >= 0
    ensures k * a <= k * b
  {
  }

  lemma CancelInt(a: int, b: int, k: int)
    requires k > 0 && a * k <= b * k
    ensures a <= b
  {
    assert a > b ==> (a - b) * k > 0;
    assert (a - b) * k == a * k - b * k;
  }

  lemma QuotientNonNegative(a: int, b: int)
    requires a >= 0 && b > 0
    ensures a / b >= 0
  {
  }

  lemma DivisionBounds(a: int, b: int)
    requires b > 0
    ensures (a / b) * b <= a < (a / b) * b + b
  {
  }

  lemma HalvedOrder(value: nat, m: nat, n: nat)
    requires m < n
    ensures 2 * Halved(value, n) <= Halved(value, m)
    decreases n
  {
    if n > m + 1 {
      HalvedOrder(value, m, n - 1);
    }
  }

  lemma QuotientOrder(a: int, b: int, d: int)
    requires d > 0 && a <= b
    ensures a / d <= b / d
  {
    DivisionBounds(a, d);
    DivisionBounds(b, d);
    var x, y := a / d, b / d;
    assert x > y ==> (x - y - 1) * d >= 0;
    assert (x - y - 1) * d == x * d - y * d - d;
  }

  lemma RemainderWithin(e: int, h: int)
    requires h > 0 && e > 0
    ensures 0 <= e / h && 0 <= e - (e / h) * h < h
  {
    DivisionBounds(e, h);
    QuotientNonNegative(e, h);
  }

  /** Between the ends of a half-life the curve stays between the value there and half of it. */
  lemma RetentionBand(e: int, h: int)
    requires h > 0 && e > 0 && e / h < MAX_HALVINGS
    ensures 0 <= e / h
    ensures Halved(10_000, e / h + 1) <= Retention(e, h) <= Halved(10_000, e / h)
    ensures Retention(e, h) == Halved(10_000, e / h) - (Halved(10_000, e / h) * (e - (e / h) * h)) / (2 * h)
  {
    RemainderWithin(e, h);
    DecayWithin(Halved(10_000, e / h), e - (e / h) * h, h);
  }

  /** Waiting never brings a payer back: retention never rises, across every halving boundary. */
  lemma RetentionNeverRises(e: int, e': int, h: int)
    requires h > 0 && e <= e'
    ensures Retention(e', h) <= Retention(e, h)
  {
    hide Retention, Halved;
    if e > 0 && e' / h < MAX_HALVINGS {
      QuotientOrder(e, e', h);
      RetentionBand(e, h);
      RetentionBand(e', h);
      var m, n := e / h, e' / h;
      if m < n {
        HalvedStep(10_000, m, n);
      } else {
        var v := Halved(10_000, m);
        RemainderWithin(e, h);
        ScaleInt(e - m * h, e' - m * h, v);
        QuotientOrder(v * (e - m * h), v * (e' - m * h), 2 * h);
      }
    } else {
      RetentionEnds(e, e', h);
    }
  }

  lemma HalvedStep(value: nat, m: nat, n: nat)
    requires m < n
    ensures Halved(value, n) <= Halved(value, m + 1)
  {
    if m + 1 < n {
      HalvedOrder(value, m + 1, n);
    }
  }

  lemma RetentionEnds(e: int, e': int, h: int)
    requires h > 0 && e <= e' && (e <= 0 || e' / h >= MAX_HALVINGS)
    ensures Retention(e', h) <= Retention(e, h)
  {
    hide Halved;
  }

  /** Whether a recurring debit needs a fresh factor this attempt does not carry. */
  predicate AboveCeiling(o: Observation) {
    o.isRecurring && o.amountPaisa > AfaCeilingPaisa(o.mandateCategory)
  }

  /** The issuer's answer, leaving abandonment aside. */
  function IssuerSuccessBp(i: Incident, a: Attempt): int {
    if AboveCeiling(i.seen) && !a.afaObtained then 0
    else
      match i.truth.cause
      case Permanent => 0
      case Stale => if a.presentation in {NetworkToken, FreshAuthorisation} then i.truth.refreshBp else 0
      case Outage => IssuerTroubleBp(i, a)
      case Transient => IssuerTroubleBp(i, a)
      case Funds => if a.at >= i.truth.recoveryTs then i.truth.recoveredBp else i.truth.floorBp
      case Customer =>
        if a.inSession then i.truth.recoveredBp
        else if a.presentation == FreshAuthorisation then i.truth.oobAuthBp
        else i.truth.floorBp
  }

  function IssuerTroubleBp(i: Incident, a: Attempt): int {
    if a.rail != i.seen.rail then i.truth.altRailBp
    else if a.at >= i.truth.recoveryTs then i.truth.recoveredBp
    else i.truth.floorBp
  }

  function SuccessProbabilityBp(i: Incident, a: Attempt): Result<int, Error> {
    if i.truth.halfLifeSeconds <= 0 then Err(HalfLife)
    else Ok(IssuerSuccessBp(i, a) * Retention(a.at - i.seen.arrivalTs, i.truth.halfLifeSeconds) / 10_000)
  }

  /** Attempt number `index` is settled by draw number `index` of the incident's own tape. */
  function AttemptSuccess(i: Incident, a: Attempt, index: nat): Result<bool, Error> {
    if index >= |i.draws| then Err(TapeIndex)
    else
      match SuccessProbabilityBp(i, a)
      case Err(e) => Err(e)
      case Ok(p) => Ok(p > i.draws[index])
  }

  /** Drawn probabilities are not negative. */
  predicate GoodTruth(t: Truth) {
    t.floorBp >= 0 && t.recoveredBp >= 0 && t.oobAuthBp >= 0 && t.altRailBp >= 0 && t.refreshBp >= 0
  }

  /** Between `from` and `to` the issuer, or the account, came back. */
  predicate Recovers(t: Truth, from: int, to: int) {
    t.cause in {Outage, Transient, Funds} && from < t.recoveryTs <= to
  }

  lemma IssuerUnmoved(i: Incident, a: Attempt, later: int)
    requires a.at <= later && !Recovers(i.truth, a.at, later)
    ensures IssuerSuccessBp(i, a.(at := later)) == IssuerSuccessBp(i, a)
    ensures GoodTruth(i.truth) ==> IssuerSuccessBp(i, a) >= 0
  {
    hide AfaCeilingPaisa;
  }

  /**
   Waiting pays only across a recovery: an attempt postponed within one regime never stands a
   better chance, and against the same draw never turns a decline into a success.
   */
  lemma WaitingPaysOnlyAcrossRecovery(i: Incident, a: Attempt, later: int, index: nat)
    requires i.truth.halfLifeSeconds > 0 && GoodTruth(i.truth)
    requires a.at <= later && !Recovers(i.truth, a.at, later)
    ensures SuccessProbabilityBp(i, a.(at := later)).Ok? && SuccessProbabilityBp(i, a).Ok?
    ensures SuccessProbabilityBp(i, a.(at := later)).value <= SuccessProbabilityBp(i, a).value
    ensures AttemptSuccess(i, a.(at := later), index) == Ok(true) ==> AttemptSuccess(i, a, index) == Ok(true)
  {
    hide IssuerSuccessBp, Retention;
    var h, t := i.truth.halfLifeSeconds, i.seen.arrivalTs;
    var p := IssuerSuccessBp(i, a);
    IssuerUnmoved(i, a, later);
    RetentionNeverRises(a.at - t, later - t, h);
    ScaleInt(Retention(later - t, h), Retention(a.at - t, h), p);
    QuotientOrder(p * Retention(later - t, h), p * Retention(a.at - t, h), 10_000);
  }

  // --------------------------------------------------------------------------
  // The referee
  // --------------------------------------------------------------------------

  const MANDATE_COOLING_SECONDS: int := 86400
  const MANDATE_CYCLE_CAP: int := 3

  /** When the event before attempt `k` happened: the original failed debit, or the attempt before. */
  function EventBefore(o: Observation, h: seq<Attempt>, k: nat): int
    requires k <= |h|
  {
    if k == 0 then o.arrivalTs else h[k - 1].at
  }

  function PreviousAt(o: Observation, h: seq<Attempt>): int { EventBefore(o, h, |h|) }

  /** Findings against attempt `k` on its own. */
  function FindingsAt(o: Observation, h: seq<Attempt>, k: nat): nat
    requires k < |h|
  {
    (if h[k].at - EventBefore(o, h, k) < MANDATE_COOLING_SECONDS then 1 else 0)
    + (if !h[k].preDebitNotified then 1 else 0)
    + (if o.amountPaisa > AfaCeilingPaisa(o.mandateCategory) && !h[k].afaObtained then 1 else 0)
  }

  function Findings(o: Observation, h: seq<Attempt>, k: nat): nat
    requires k <= |h|
  {
    if k == 0 then 0 else Findings(o, h, k - 1) + FindingsAt(o, h, k - 1)
  }

  /** Debits beyond the cycle cap. */
  function Overflow(o: Observation, h: seq<Attempt>): nat {
    var n := o.attemptsInCycleBefore + |h|;
    if n > MANDATE_CYCLE_CAP then n - MANDATE_CYCLE_CAP else 0
  }

  function Violations(o: Observation, h: seq<Attempt>): nat {
    if !o.isRecurring || h == [] then 0 else Findings(o, h, |h|) + Overflow(o, h)
  }

  /** `audit_violations`. */
  method AuditViolations(o: Observation, attempts: seq<Attempt>) returns (violations: nat)
    ensures violations == Violations(o, attempts)
  {
    if !o.isRecurring || |attempts| == 0 {
      return 0;
    }
    violations := 0;
    var aboveCeiling := o.amountPaisa > AfaCeilingPaisa(o.mandateCategory);
    var previousAt := o.arrivalTs;
    for k := 0 to |attempts|
      invariant violations == Findings(o, attempts, k) && previousAt == EventBefore(o, attempts, k)
    {
      var a := attempts[k];
      if a.at - previousAt < MANDATE_COOLING_SECONDS {
        violations := violations + 1;
      }
      if !a.preDebitNotified {
        violations := violations + 1;
      }
      if aboveCeiling && !a.afaObtained {
        violations := violations + 1;
      }
      previousAt := a.at;
    }
    var inCycle := o.attemptsInCycleBefore + |attempts|;
    if inCycle > MANDATE_CYCLE_CAP {
      violations := violations + (inCycle - MANDATE_CYCLE_CAP);
    }
  }

  /** The regulation itself: every recurring debit cooled, notified, authenticated and within the cycle. */
  ghost predicate Compliant(o: Observation, h: seq<Attempt>) {
    o.isRecurring && h != [] ==>
      && (forall k :: 0 <= k < |h| ==>
            && h[k].at - EventBefore(o, h, k) >= MANDATE_COOLING_SECONDS
            && h[k].preDebitNotified
            && (o.amountPaisa > AfaCeilingPaisa(o.mandateCategory) ==> h[k].afaObtained))
      && o.attemptsInCycleBefore + |h| <= MANDATE_CYCLE_CAP
  }

  lemma {:induction false} NoFindings(o: Observation, h: seq<Attempt>, n: nat)
    requires n <= |h|
    ensures Findings(o, h, n) == 0 <==> forall k :: 0 <= k < n ==> FindingsAt(o, h, k) == 0
    decreases n
  {
    hide FindingsAt;
    if n == 0 {
    } else {
      NoFindings(o, h, n - 1);
    }
  }

  /** The referee charges nothing exactly when the regulation is met. */
  lemma RefereeIsExact(o: Observation, h: seq<Attempt>)
    ensures Violations(o, h) == 0 <==> Compliant(o, h)
  {
    hide Findings;
    NoFindings(o, h, |h|);
    assert forall k :: 0 <= k < |h| ==>
      (FindingsAt(o, h, k) == 0 <==>
        && h[k].at - EventBefore(o, h, k) >= MANDATE_COOLING_SECONDS
        && h[k].preDebitNotified
        && (o.amountPaisa > AfaCeilingPaisa(o.mandateCategory) ==> h[k].afaObtained));
  }

  lemma {:induction false} UniformFindings(o: Observation, h: seq<Attempt>, each: nat, n: nat)
    requires n <= |h| && forall k :: 0 <= k < |h| ==> FindingsAt(o, h, k) == each
    ensures Findings(o, h, n) == n * each
    decreases n
  {
    hide FindingsAt;
    if n == 0 {
    } else {
      UniformFindings(o, h, each, n - 1);
      assert n * each == (n - 1) * each + each;
    }
  }
}
