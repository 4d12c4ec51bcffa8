/**
 Runs of the breaker: arbitrary interleavings of admissions, reports and key expiries on one
 non-decreasing clock, and what every run keeps.
 */
module BreakerRuns {
  import opened Collections
  import opened Breaker

  datatype Event =
    | Allowing(at: int)
    | Reporting(at: int, ok: bool)
    | HashExpires(at: int)
    | WindowExpires(at: int)

  /** A key may expire at any moment once its instant has come; nothing says it must. */
  predicate Enabled(s: Store, e: Event) {
    match e
    case Allowing(_) => true
    case Reporting(_, _) => true
    case HashExpires(at) => s.hashTtl.Some? && at >= s.hashTtl.value
    case WindowExpires(at) => s.windowTtl.Some? && at >= s.windowTtl.value
  }

  function Next(c: Config, s: Store, e: Event): Store {
    match e
    case Allowing(at) => AllowStore(c, s, at)
    case Reporting(at, ok) => ReportStore(c, s, at, ok)
    case HashExpires(_) => s.DropHash()
    case WindowExpires(_) => s.DropWindow()
  }

  /** The store after the first `i` events. */
  function At(c: Config, s: Store, es: seq<Event>, i: nat): Store
    requires i <= |es|
  {
    if i == 0 then s else Next(c, At(c, s, es, i - 1), es[i - 1])
  }

  /** Event `i` can happen when its turn comes. */
  predicate EnabledAt(c: Config, s: Store, es: seq<Event>, i: nat)
    requires i < |es|
  {
    Enabled(At(c, s, es, i), es[i])
  }

  ghost predicate IsRun(c: Config, s: Store, es: seq<Event>) {
    && (forall i, j :: 0 <= i <= j < |es| ==> es[i].at <= es[j].at)
    && forall i: nat :: i < |es| ==> EnabledAt(c, s, es, i)
  }

  lemma RunStep(c: Config, s: Store, es: seq<Event>, i: nat)
    requires IsRun(c, s, es) && i < |es|
    ensures At(c, s, es, i + 1) == Next(c, At(c, s, es, i), es[i])
    ensures Enabled(At(c, s, es, i), es[i])
    ensures i > 0 ==> es[i - 1].at <= es[i].at
  {
    hide Next, Enabled;
    assert EnabledAt(c, s, es, i);
  }

  lemma InOrder(c: Config, s: Store, es: seq<Event>, i: nat, j: nat)
    requires IsRun(c, s, es) && i <= j < |es|
    ensures es[i].at <= es[j].at
  {
    hide Enabled, At;
  }

  /** Event `i` is an admission check, and it was let through. */
  predicate Admitted(c: Config, s: Store, es: seq<Event>, i: nat)
    requires i < |es|
  {
    es[i].Allowing? && AllowVerdict(c, At(c, s, es, i), es[i].at).allowed
  }

  /** Event `i` opened the breaker, or repaired an uninterpretable state into an open one. */
  predicate OpensAt(c: Config, s: Store, es: seq<Event>, i: nat)
    requires i < |es|
  {
    match es[i]
    case Allowing(at) =>
      var v := AllowVerdict(c, At(c, s, es, i), at);
      v.to == Open && (v.from != Open || v.reason == StateRepaired)
    case Reporting(at, ok) =>
      var v := ReportVerdict(c, At(c, s, es, i), ok);
      v.to == Open && (v.from != Open || v.reason == StateRepaired)
    case _ => false
  }

  // --------------------------------------------------------------------------
  // Load is shed for the whole cooldown
  // --------------------------------------------------------------------------

  /** Open since `t`, in a hash that outlives the cooldown. */
  ghost predicate OpenSince(c: Config, s: Store, t: int) {
    && s.state == Some(Open) && s.openedAt == Whole(t)
    && s.hashTtl.Some? && s.hashTtl.value >= t + c.ttl
  }

  lemma CoolingStep(c: Config, s: Store, e: Event, t: int)
    requires WellConfigured(c) && OpenSince(c, s, t) && Enabled(s, e)
    requires t <= e.at < t + c.cooldown
    ensures OpenSince(c, Next(c, s, e), t)
  {
  }

  lemma JustOpened(c: Config, s: Store, es: seq<Event>, i: nat)
    requires WellConfigured(c) && i < |es| && OpensAt(c, s, es, i)
    ensures OpenSince(c, Next(c, At(c, s, es, i), es[i]), es[i].at)
  {
    hide At;
  }

  lemma {:induction false} StaysOpen(c: Config, s: Store, es: seq<Event>, i: nat, j: nat)
    requires WellConfigured(c) && IsRun(c, s, es) && i < j < |es|
    requires OpensAt(c, s, es, i) && es[j].at < es[i].at + c.cooldown
    ensures OpenSince(c, At(c, s, es, j), es[i].at)
    decreases j
  {
    hide IsRun, At, Next, Enabled, OpenSince, OpensAt, WellConfigured;
    RunStep(c, s, es, j - 1);
    InOrder(c, s, es, j - 1, j);
    if j == i + 1 {
      JustOpened(c, s, es, i);
    } else {
      InOrder(c, s, es, i, j - 1);
      StaysOpen(c, s, es, i, j - 1);
      CoolingStep(c, At(c, s, es, j - 1), es[j - 1], es[i].at);
    }
  }

  /**
   Once the breaker opens at time t, no admission check before t + cooldown is let through, in any
   interleaving of checks, late reports and key expiries, whatever the store held to begin with.
   */
  lemma ShedsForTheCooldown(c: Config, s: Store, es: seq<Event>, i: nat, j: nat)
    requires WellConfigured(c) && IsRun(c, s, es) && i < j < |es|
    requires OpensAt(c, s, es, i) && es[j].at < es[i].at + c.cooldown
    ensures !Admitted(c, s, es, j)
  {
    hide IsRun, At, OpensAt;
    StaysOpen(c, s, es, i, j);
    InOrder(c, s, es, i, j);
  }

  // --------------------------------------------------------------------------
  // The probe budget
  // --------------------------------------------------------------------------

  /** A half-open episode starts when the cooldown elapses or the previous one is presumed lost. */
  predicate StartsEpisode(c: Config, s: Store, es: seq<Event>, i: nat)
    requires i < |es|
  {
    es[i].Allowing?
    && AllowVerdict(c, At(c, s, es, i), es[i].at).reason in {CooldownElapsed, ProbeLeaseExpired}
  }

  /** Admissions since the latest episode started, counted from the verdicts alone. */
  function EpisodeAdmissions(c: Config, s: Store, es: seq<Event>, i: nat): nat
    requires i <= |es|
  {
    if i == 0 then 0
    else
      (if StartsEpisode(c, s, es, i - 1) then 0 else EpisodeAdmissions(c, s, es, i - 1))
      + if Admitted(c, s, es, i - 1) then 1 else 0
  }

  /** What holds of the keys in every run of a breaker nothing else writes to. */
  ghost predicate Sound(c: Config, s: Store, now: int, admissions: nat) {
    && s.state != Some(Unknown)
    && (s.Acting() == Open ==> s.openedAt.Whole? && s.openedAt.n <= now)
    && (s.Acting() == HalfOpen ==>
          && s.halfOpenAt.Whole? && s.halfOpenAt.n <= now
          && s.probes == Whole(admissions) && 1 <= admissions <= c.maxProbes)
    && (s.Acting() != Closed ==> s.window == [])
    && |s.window| <= c.windowSize
  }

  lemma SoundStep(c: Config, s: Store, e: Event, now: int, admissions: nat)
    requires WellConfigured(c) && Sound(c, s, now, admissions) && now <= e.at && Enabled(s, e)
    ensures
      var v := AllowVerdict(c, s, e.at);
      var kept := if e.Allowing? && v.reason in {CooldownElapsed, ProbeLeaseExpired} then 0 else admissions;
      Sound(c, Next(c, s, e), e.at, kept + if e.Allowing? && v.allowed then 1 else 0)
  {
  }

  /** The latest instant of the first `i` events, or `start`. */
  function Clock(es: seq<Event>, start: int, i: nat): int
    requires i <= |es|
  {
    if i == 0 then start else es[i - 1].at
  }

  lemma {:induction false} AlwaysSound(c: Config, es: seq<Event>, start: int, i: nat)
    requires WellConfigured(c) && IsRun(c, EMPTY_STORE, es) && i <= |es|
    requires es != [] ==> start <= es[0].at
    ensures Sound(c, At(c, EMPTY_STORE, es, i), Clock(es, start, i), EpisodeAdmissions(c, EMPTY_STORE, es, i))
    decreases i
  {
    hide Sound, WellConfigured, IsRun, At, Next, Enabled, AllowVerdict;
    if i == 0 {
      AtStart(c, EMPTY_STORE, es);
      SoundEmpty(c, start);
    } else {
      AlwaysSound(c, es, start, i - 1);
      RunStep(c, EMPTY_STORE, es, i - 1);
      SoundStep(
        c, At(c, EMPTY_STORE, es, i - 1), es[i - 1], Clock(es, start, i - 1),
        EpisodeAdmissions(c, EMPTY_STORE, es, i - 1));
    }
  }

  lemma AtStart(c: Config, s: Store, es: seq<Event>)
    ensures At(c, s, es, 0) == s
  {
  }

  lemma SoundEmpty(c: Config, start: int)
    requires WellConfigured(c)
    ensures Sound(c, EMPTY_STORE, start, 0)
  {
  }

  /**
   In every run the stored count is the number of probes admitted in the current half-open episode,
   and it never passes the budget.
   */
  lemma ProbeBudgetHolds(c: Config, es: seq<Event>, i: nat)
    requires WellConfigured(c) && IsRun(c, EMPTY_STORE, es) && i <= |es|
    requires At(c, EMPTY_STORE, es, i).Acting() == HalfOpen
    ensures At(c, EMPTY_STORE, es, i).probes == Whole(EpisodeAdmissions(c, EMPTY_STORE, es, i))
    ensures 1 <= EpisodeAdmissions(c, EMPTY_STORE, es, i) <= c.maxProbes
  {
    AlwaysSound(c, es, if es == [] then 0 else es[0].at, i);
  }

  // --------------------------------------------------------------------------
  // The window refines an unbounded history
  // --------------------------------------------------------------------------

  /**
   The outcomes reported while closed since the last state change or window expiry, oldest first
   and without any cap, read off the verdicts.
   */
  function History(c: Config, s: Store, es: seq<Event>, i: nat): seq<bool>
    requires i <= |es|
  {
    if i == 0 then []
    else
      var h, before, e := History(c, s, es, i - 1), At(c, s, es, i - 1), es[i - 1];
      match e
      case Allowing(at) => if AllowVerdict(c, before, at).to != Closed then [] else h
      case Reporting(_, ok) =>
        if ReportVerdict(c, before, ok).from == Closed && ReportVerdict(c, before, ok).to == Closed then h + [ok] else []
      case HashExpires(_) => h
      case WindowExpires(_) => []
  }

  /** The last `n` of a history, newest first. */
  function Newest(h: seq<bool>, n: int): seq<bool> {
    if h == [] || n <= 0 then [] else [h[|h| - 1]] + Newest(h[..|h| - 1], n - 1)
  }

  lemma {:induction false} NewestLength(h: seq<bool>, n: int)
    requires n >= 0
    ensures |Newest(h, n)| == if n < |h| then n else |h|
    decreases |h|
  {
    if h == [] || n == 0 {
    } else {
      NewestLength(h[..|h| - 1], n - 1);
    }
  }

  lemma {:induction false} NewestCapped(h: seq<bool>, n: int, m: int)
    requires 0 <= n <= m
    ensures Capped(Newest(h, m), n) == Newest(h, n)
    decreases |h|
  {
    NewestLength(h, m);
    NewestLength(h, n);
    if h == [] || n == 0 {
    } else {
      NewestCapped(h[..|h| - 1], n - 1, m - 1);
      NewestLength(h[..|h| - 1], m - 1);
    }
  }

  /** Pushing then trimming keeps exactly the newest. */
  lemma NewestPushed(h: seq<bool>, ok: bool, n: int)
    requires n >= 1
    ensures Capped([ok] + Newest(h, n), n) == Newest(h + [ok], n)
  {
    NewestCapped(h + [ok], n, n + 1);
    assert (h + [ok])[..|h + [ok]| - 1] == h;
  }

  ghost predicate Refines(c: Config, s: Store, h: seq<bool>) {
    s.window == Newest(h, c.windowSize) && (s.Acting() != Closed ==> h == [])
  }

  lemma RefinesEmpty(c: Config)
    ensures Refines(c, EMPTY_STORE, [])
  {
  }

  lemma RefinesStep(c: Config, s: Store, e: Event, h: seq<bool>)
    requires WellConfigured(c) && Refines(c, s, h) && s.state != Some(Unknown)
    ensures
      var h' :=
        match e
        case Allowing(at) => (if AllowVerdict(c, s, at).to != Closed then [] else h)
        case Reporting(_, ok) =>
          (if ReportVerdict(c, s, ok).from == Closed && ReportVerdict(c, s, ok).to == Closed then h + [ok] else [])
        case HashExpires(_) => h
        case WindowExpires(_) => [];
      Refines(c, Next(c, s, e), h')
  {
    hide Newest, Successes, Breaches, Capped;
    NewestOfNone(c.windowSize);
    if e.Reporting? {
      NewestPushed(h, e.ok, c.windowSize);
    }
  }

  lemma NewestOfNone(n: int)
    ensures Newest([], n) == []
  {
  }

  /**
   In every run the capped list is exactly the newest WindowSize of the outcomes reported since the
   last state change or expiry, and it is empty whenever the breaker is not closed.
   */
  lemma {:induction false} WindowRefinesHistory(c: Config, es: seq<Event>, i: nat)
    requires WellConfigured(c) && IsRun(c, EMPTY_STORE, es) && i <= |es|
    ensures Refines(c, At(c, EMPTY_STORE, es, i), History(c, EMPTY_STORE, es, i))
    decreases i
  {
    hide IsRun, At, Next, Enabled, AllowVerdict, ReportVerdict, Refines, WellConfigured;
    if i == 0 {
      AtStart(c, EMPTY_STORE, es);
      RefinesEmpty(c);
    } else {
      WindowRefinesHistory(c, es, i - 1);
      AlwaysSound(c, es, es[0].at, i - 1);
      RunStep(c, EMPTY_STORE, es, i - 1);
      RefinesStep(c, At(c, EMPTY_STORE, es, i - 1), es[i - 1], History(c, EMPTY_STORE, es, i - 1));
    }
  }

  /**
   A report opens a closed breaker exactly when the newest WindowSize outcomes since the last
   change, this one included, meet the sample floor and fall below the scaled trip rate; and the
   evidence it hands to the audit trail is those outcomes.
   */
  lemma TripsExactlyWhenBreached(c: Config, es: seq<Event>, i: nat)
    requires WellConfigured(c) && IsRun(c, EMPTY_STORE, es) && i < |es| && es[i].Reporting?
    requires At(c, EMPTY_STORE, es, i).Acting() == Closed
    ensures
      var v := ReportVerdict(c, At(c, EMPTY_STORE, es, i), es[i].ok);
      var w := Newest(History(c, EMPTY_STORE, es, i) + [es[i].ok], c.windowSize);
      && (v.to == Open <==> Breaches(c, w))
      && v.samples == |w| && v.successes == Successes(w)
  {
    WindowRefinesHistory(c, es, i);
    NewestPushed(History(c, EMPTY_STORE, es, i), es[i].ok, c.windowSize);
  }

  // --------------------------------------------------------------------------
  // Reading, and the audit trail
  // --------------------------------------------------------------------------

  /** An uninterpretable state counts as open. */
  function Stands(s: Store): State { if s.Acting() == Unknown then Open else s.Acting() }

  datatype Notice = Notice(from: State, to: State, reason: Reason)

  /** `reportTransition`: what event `i` hands to the callback, if anything. */
  function Noticed(c: Config, s: Store, e: Event): Option<Notice> {
    match e
    case Allowing(at) =>
      var v := AllowVerdict(c, s, at);
      if v.from == v.to && v.reason != StateRepaired then None else Some(Notice(v.from, v.to, v.reason))
    case Reporting(_, ok) =>
      var v := ReportVerdict(c, s, ok);
      if v.from == v.to && v.reason != StateRepaired then None else Some(Notice(v.from, v.to, v.reason))
    case _ => None
  }

  /** The state an auditor infers from the notices of the first `i` events. */
  function Inferred(c: Config, s: Store, es: seq<Event>, i: nat): State
    requires i <= |es|
  {
    if i == 0 then Stands(s)
    else
      match Noticed(c, At(c, s, es, i - 1), es[i - 1])
      case Some(n) => n.to
      case None => Inferred(c, s, es, i - 1)
  }

  lemma NoticeIsExact(c: Config, s: Store, e: Event)
    requires !e.HashExpires?
    ensures match Noticed(c, s, e)
            case Some(n) => n.from == Stands(s) && n.to == Stands(Next(c, s, e))
            case None => Stands(Next(c, s, e)) == Stands(s)
  {
  }

  /** Since the latest notice the hash expired under an open or half-open breaker. */
  predicate Stale(c: Config, s: Store, es: seq<Event>, i: nat)
    requires i <= |es|
  {
    i > 0
    && var before := At(c, s, es, i - 1);
       && Noticed(c, before, es[i - 1]).None?
       && (Stale(c, s, es, i - 1) || (es[i - 1].HashExpires? && Stands(before) != Closed))
  }

  lemma ExpiryCloses(c: Config, s: Store, e: Event)
    requires e.HashExpires?
    ensures Noticed(c, s, e).None? && Stands(Next(c, s, e)) == Closed
  {
  }

  /** A stale trail says more than closed, and the breaker is closed. */
  lemma {:induction false} StaleIsClosed(c: Config, s: Store, es: seq<Event>, i: nat)
    requires i <= |es|
    ensures if Stale(c, s, es, i)
            then Stands(At(c, s, es, i)) == Closed && Inferred(c, s, es, i) != Closed
            else Inferred(c, s, es, i) == Stands(At(c, s, es, i))
    decreases i
  {
    hide Next, Noticed, Stands;
    if i > 0 {
      StaleIsClosed(c, s, es, i - 1);
      if es[i - 1].HashExpires? {
        ExpiryCloses(c, At(c, s, es, i - 1), es[i - 1]);
      } else {
        NoticeIsExact(c, At(c, s, es, i - 1), es[i - 1]);
      }
    }
  }

  /**
   How much the audit trail tells, in every run, expiries included: the notices alone reconstruct the
   breaker's state exactly when the hash has not expired under an open or half-open breaker since the
   latest one. Every notice names the state it found and the state it left.
   */
  lemma TrailReconstructsState(c: Config, s: Store, es: seq<Event>, i: nat)
    requires i <= |es|
    ensures Inferred(c, s, es, i) == Stands(At(c, s, es, i)) <==> !Stale(c, s, es, i)
    ensures i < |es| && Noticed(c, At(c, s, es, i), es[i]).Some? ==>
              var n := Noticed(c, At(c, s, es, i), es[i]).value;
              n.from == Stands(At(c, s, es, i)) && n.to == Stands(Next(c, At(c, s, es, i), es[i]))
  {
    hide Next, Noticed, Stands;
    StaleIsClosed(c, s, es, i);
    if i < |es| {
      if es[i].HashExpires? {
        ExpiryCloses(c, At(c, s, es, i), es[i]);
      } else {
        NoticeIsExact(c, At(c, s, es, i), es[i]);
      }
    }
  }

  // --------------------------------------------------------------------------
  // What a reader is shown
  // --------------------------------------------------------------------------

  /** When the latest notice of an opening was given. */
  function LastOpening(c: Config, s: Store, es: seq<Event>, i: nat): int
    requires i <= |es|
  {
    if i == 0 then 0
    else
      match Noticed(c, At(c, s, es, i - 1), es[i - 1])
      case Some(n) => if n.to == Open then es[i - 1].at else LastOpening(c, s, es, i - 1)
      case None => LastOpening(c, s, es, i - 1)
  }

  lemma OpeningStep(c: Config, s: Store, e: Event, opening: int)
    requires s.state != Some(Unknown) && (s.Acting() == Open ==> s.openedAt == Whole(opening))
    ensures Next(c, s, e).Acting() == Open ==>
              Next(c, s, e).openedAt
              == match Noticed(c, s, e)
                 case Some(n) => (if n.to == Open then Whole(e.at) else Whole(opening))
                 case None => Whole(opening)
  {
  }

  lemma {:induction false} OpenedAtNotice(c: Config, es: seq<Event>, i: nat)
    requires WellConfigured(c) && IsRun(c, EMPTY_STORE, es) && i <= |es|
    ensures var s := At(c, EMPTY_STORE, es, i);
            s.Acting() == Open ==> s.openedAt == Whole(LastOpening(c, EMPTY_STORE, es, i))
    decreases i
  {
    hide IsRun, Next, Noticed, WellConfigured;
    if i > 0 {
      OpenedAtNotice(c, es, i - 1);
      OwnState(c, es, i - 1);
      OpeningStep(c, At(c, EMPTY_STORE, es, i - 1), es[i - 1], LastOpening(c, EMPTY_STORE, es, i - 1));
    }
  }

  lemma OwnState(c: Config, es: seq<Event>, i: nat)
    requires WellConfigured(c) && IsRun(c, EMPTY_STORE, es) && i <= |es|
    ensures At(c, EMPTY_STORE, es, i).state != Some(Unknown)
  {
    hide IsRun, At, WellConfigured;
    AlwaysSound(c, es, if es == [] then 0 else es[0].at, i);
  }

  /** What the notices alone foretell a reader will be shown at `now`. */
  function Foretold(c: Config, es: seq<Event>, i: nat, now: int): State
    requires i <= |es|
  {
    var inferred := Inferred(c, EMPTY_STORE, es, i);
    if inferred == Open && now - LastOpening(c, EMPTY_STORE, es, i) >= c.cooldown then HalfOpen else inferred
  }

  /**
   Readers, checks and the trail agree: at every instant of every run a read shows the state a check
   at that instant would leave, and, unless an expiry has made the trail stale, the state the notices
   alone foretell, the promotion of an elapsed cooldown included.
   */
  lemma ReadsFollowTheTrail(c: Config, es: seq<Event>, i: nat, now: int)
    requires WellConfigured(c) && IsRun(c, EMPTY_STORE, es) && i <= |es|
    ensures var s := At(c, EMPTY_STORE, es, i);
            && Effective(c, s, now) == AllowVerdict(c, s, now).to
            && (!Stale(c, EMPTY_STORE, es, i) ==> Effective(c, s, now) == Foretold(c, es, i, now))
  {
    hide IsRun, At, WellConfigured, Inferred, Stale, LastOpening;
    OpenedAtNotice(c, es, i);
    OwnState(c, es, i);
    StaleIsClosed(c, EMPTY_STORE, es, i);
  }
}
