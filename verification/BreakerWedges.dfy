/**
 When the breaker lets something through again (internal/breaker/breaker.go): the stores from which
 no run without a report can stay refused for a cooldown, and what the last check of a run meets.
 */
module BreakerWedges {
  import opened Collections
  import opened Breaker
  import opened BreakerRuns

  /**
   The state is uninterpretable, or its timestamps are ones a clock reading at most `now` left
   behind. Only a foreign write to a timestamp breaks this.
   */
  ghost predicate SaneTimes(s: Store, now: int) {
    && (s.Acting() == Open ==> if s.openedAt.Reads() then s.openedAt.NotAhead(now) else 0 <= now)
    && (s.Acting() == HalfOpen ==> s.halfOpenAt.NotAhead(now))
  }

  /** Refusing since `t` at the latest. */
  ghost predicate RefusingSince(c: Config, s: Store, t: int) {
    || s.Acting() == Closed
    || (s.Acting() == Open && if s.openedAt.Reads() then s.openedAt.NotAhead(t) else 0 <= t)
    || (s.Acting() == HalfOpen && s.halfOpenAt.NotAhead(t))
  }

  lemma AllowingStep(c: Config, s: Store, e: Event)
    requires e.Allowing?
    ensures Next(c, s, e) == AllowStore(c, s, e.at)
  {
  }

  lemma FirstRefusal(c: Config, s: Store, at: int)
    requires SaneTimes(s, at) && !AllowVerdict(c, s, at).allowed
    ensures RefusingSince(c, AllowStore(c, s, at), at)
  {
  }

  lemma StillRefusing(c: Config, s: Store, e: Event, t: int)
    requires WellConfigured(c) && RefusingSince(c, s, t) && t <= e.at && !e.Reporting?
    requires e.Allowing? ==> !AllowVerdict(c, s, e.at).allowed
    ensures RefusingSince(c, Next(c, s, e), t)
  {
  }

  lemma {:induction false} RefusingUntil(c: Config, s: Store, es: seq<Event>, n: nat)
    requires WellConfigured(c) && IsRun(c, s, es) && 0 < n <= |es|
    requires es[0].Allowing? && SaneTimes(s, es[0].at)
    requires forall k :: 0 <= k < n ==> !es[k].Reporting? && !Admitted(c, s, es, k)
    ensures RefusingSince(c, At(c, s, es, n), es[0].at)
    decreases n
  {
    hide IsRun, At, Next, Enabled, AllowVerdict, RefusingSince, SaneTimes, WellConfigured;
    RunStep(c, s, es, n - 1);
    assert !Admitted(c, s, es, n - 1);
    AtStart(c, s, es);
    if n == 1 {
      AllowingStep(c, s, es[0]);
      FirstRefusal(c, s, es[0].at);
    } else {
      RefusingUntil(c, s, es, n - 1);
      InOrder(c, s, es, 0, n - 1);
      StillRefusing(c, At(c, s, es, n - 1), es[n - 1], es[0].at);
    }
  }

  /** A run without a report that starts with a check at `t0`, ends with one, and lasts a cooldown. */
  ghost predicate IsProbing(c: Config, s: Store, es: seq<Event>, t0: int) {
    && IsRun(c, s, es) && |es| > 1
    && es[0] == Allowing(t0) && es[|es| - 1].Allowing?
    && (forall k :: 0 <= k < |es| ==> !es[k].Reporting?)
    && es[|es| - 1].at >= t0 + c.cooldown
  }

  ghost predicate SomeAdmitted(c: Config, s: Store, es: seq<Event>) {
    exists k :: 0 <= k < |es| && Admitted(c, s, es, k)
  }

  /** What the store must be like at the first check. */
  ghost predicate Unwedged(c: Config, s: Store, t0: int) {
    AllowVerdict(c, s, t0).allowed || SaneTimes(s, t0)
  }

  /**
   The breaker does not wedge: in any stretch without a report that begins and ends with a check and
   lasts at least one cooldown, some check is let through. Probes may be lost and the state may have
   been overwritten with nonsense.
   */
  lemma NeverWedges(c: Config, s: Store, es: seq<Event>, t0: int)
    requires WellConfigured(c) && IsProbing(c, s, es, t0) && Unwedged(c, s, t0)
    ensures SomeAdmitted(c, s, es)
  {
    hide IsRun, At, AllowVerdict, SaneTimes;
    var n := |es| - 1;
    AtStart(c, s, es);
    if AllowVerdict(c, s, t0).allowed {
      assert Admitted(c, s, es, 0);
    } else if forall k :: 0 <= k < n ==> !Admitted(c, s, es, k) {
      RefusingUntil(c, s, es, n);
      ElapsedIsAdmitted(c, At(c, s, es, n), es[n].at, t0);
      assert Admitted(c, s, es, n);
    }
  }

  lemma ElapsedIsAdmitted(c: Config, s: Store, at: int, t: int)
    requires WellConfigured(c) && RefusingSince(c, s, t) && at >= t + c.cooldown
    ensures AllowVerdict(c, s, at).allowed
  {
  }

  /** From any other store a check now and a check a cooldown later are both refused. */
  lemma InsaneIsRefusedTwice(c: Config, s: Store, t0: int)
    requires WellConfigured(c) && !Unwedged(c, s, t0)
    ensures IsProbing(c, s, [Allowing(t0), Allowing(t0 + c.cooldown)], t0)
    ensures !SomeAdmitted(c, s, [Allowing(t0), Allowing(t0 + c.cooldown)])
  {
    var es := [Allowing(t0), Allowing(t0 + c.cooldown)];
    assert At(c, s, es, 0) == s && At(c, s, es, 1) == s;
    assert !Admitted(c, s, es, 0) && !Admitted(c, s, es, 1);
  }

  /**
   The exact condition, for every store and every instant: all such stretches that start there let
   something through if and only if the first check is let through, or every timestamp that counts
   is present and not ahead of the clock.
   */
  lemma WedgesExactly(c: Config, s: Store, t0: int)
    requires WellConfigured(c)
    ensures (forall es :: IsProbing(c, s, es, t0) ==> SomeAdmitted(c, s, es)) <==> Unwedged(c, s, t0)
  {
    hide IsProbing, SomeAdmitted, Unwedged;
    if Unwedged(c, s, t0) {
      forall es | IsProbing(c, s, es, t0)
        ensures SomeAdmitted(c, s, es)
      {
        NeverWedges(c, s, es, t0);
      }
    } else {
      InsaneIsRefusedTwice(c, s, t0);
    }
  }

  /** Whatever the package's own scripts write, in any run, is never wedged. */
  lemma OwnStoresNeverWedge(c: Config, es: seq<Event>, i: nat, t0: int)
    requires WellConfigured(c) && IsRun(c, EMPTY_STORE, es) && i <= |es|
    requires i > 0 ==> es[i - 1].at <= t0
    ensures Unwedged(c, At(c, EMPTY_STORE, es, i), t0)
  {
    hide IsRun, At, AllowVerdict;
    AlwaysSound(c, es, if es == [] then t0 else es[0].at, i);
    if i == 0 {
      AtStart(c, EMPTY_STORE, es);
    }
  }

  // --------------------------------------------------------------------------
  // How long a refusal lasts
  // --------------------------------------------------------------------------

  /** A check at `until` would be refused, and so would any before it. */
  ghost predicate RefusedUntil(c: Config, s: Store, until: int) {
    s.Acting() != Unknown && !AllowVerdict(c, s, until).allowed
  }

  lemma RefusedUntilStep(c: Config, s: Store, e: Event, until: int)
    requires WellConfigured(c) && RefusedUntil(c, s, until) && e.at <= until
    requires !e.Reporting? && !e.HashExpires?
    ensures RefusedUntil(c, Next(c, s, e), until)
    ensures e.Allowing? ==> !AllowVerdict(c, s, e.at).allowed
  {
  }

  lemma {:induction false} RefusedUntilAt(c: Config, s: Store, es: seq<Event>, until: int, n: nat)
    requires WellConfigured(c) && RefusedUntil(c, s, until) && n <= |es|
    requires forall k :: 0 <= k < |es| ==> es[k].at <= until && !es[k].Reporting? && !es[k].HashExpires?
    ensures RefusedUntil(c, At(c, s, es, n), until)
    decreases n
  {
    hide Next, WellConfigured, RefusedUntil;
    if n == 0 {
    } else {
      RefusedUntilAt(c, s, es, until, n - 1);
      RefusedUntilStep(c, At(c, s, es, n - 1), es[n - 1], until);
    }
  }

  /**
   A refusal reaches back: when a store would refuse a check at some instant, it refuses every check
   up to that instant, however many there are, until a report arrives or the key expires.
   */
  lemma RefusalReachesBack(c: Config, s: Store, es: seq<Event>, until: int, i: nat)
    requires WellConfigured(c) && RefusedUntil(c, s, until) && i < |es|
    requires forall k :: 0 <= k < |es| ==> es[k].at <= until && !es[k].Reporting? && !es[k].HashExpires?
    ensures !Admitted(c, s, es, i)
  {
    hide At, RefusedUntil;
    RefusedUntilAt(c, s, es, until, i);
    if es[i].Allowing? {
      RefusedUntilStep(c, At(c, s, es, i), es[i], until);
    }
  }

  /** No further probe fits: the count has reached the budget, or HINCRBY refuses it. */
  predicate Blocked(c: Config, count: Field) {
    count.NotBelow(c.maxProbes) || count.Other?
  }

  /**
   A wedged store: an opening instant ahead of the clock, or a half-open episode that takes no further
   probe and whose start is ahead of the clock or does not read as a number. An infinite or undefined
   instant is ahead of every clock.
   */
  predicate IsWedged(c: Config, s: Store, t0: int) {
    || (s.Acting() == Open && if s.openedAt.Reads() then !s.openedAt.NotAhead(t0) else t0 < 0)
    || (s.Acting() == HalfOpen && Blocked(c, s.probes)
        && if s.halfOpenAt.Reads() then !s.halfOpenAt.NotAhead(t0) else c.cooldown > 0)
  }

  /** When a check is a cooldown past the instant in `stamp`; never, if there is none. */
  predicate CooldownPast(c: Config, stamp: Field, at: int) {
    match stamp
    case Whole(n) => at >= n + c.cooldown
    case Other(Finite(x), _) => at as real >= x + c.cooldown as real
    case Other(Infinite(positive), _) => !positive
    case _ => false
  }

  /**
   These are the only shapes, and each refuses until a cooldown past its instant. One whose instant is
   infinite, undefined or, half-open, no number at all refuses for ever.
   */
  lemma WedgedShapes(c: Config, s: Store, t0: int)
    requires WellConfigured(c)
    ensures IsWedged(c, s, t0) <==> !Unwedged(c, s, t0)
    ensures IsWedged(c, s, t0) && s.Acting() == Open ==> forall until ::
              RefusedUntil(c, s, until) <==>
                !(if s.openedAt.Reads() then CooldownPast(c, s.openedAt, until) else until >= c.cooldown)
    ensures IsWedged(c, s, t0) && s.Acting() == HalfOpen ==> forall until ::
              RefusedUntil(c, s, until) <==> !CooldownPast(c, s.halfOpenAt, until)
  {
  }

  /**
   A count that something else overwrote with a text wedges a half-open store whose start it erased:
   the script fails at every check, for ever, until a report arrives or the key expires.
   */
  lemma UnreadableCountWedges(c: Config, t0: int)
    requires WellConfigured(c) && c.cooldown > 0
    ensures
      var s := EMPTY_STORE.(state := Some(HalfOpen), probes := Other(Unreadable, 0));
      && AllowVerdict(c, s, t0) == Admission(false, HalfOpen, HalfOpen, ScriptFailed)
      && AllowStore(c, s, t0) == s
      && IsWedged(c, s, t0) && forall until :: RefusedUntil(c, s, until)
  {
  }

  // --------------------------------------------------------------------------
  // The two ends of a stretch
  // --------------------------------------------------------------------------

  /**
   Two checks a cooldown apart can both be refused when another check between them took the probe,
   so the guarantee is about the stretch and not about its two ends.
   */
  lemma BothEndsCanBeRefused()
    ensures
      var c := Config(60, 900, 1, 10, 200_000, 50);
      var s := EMPTY_STORE.(state := Some(Open), openedAt := Whole(0), hashTtl := Some(900));
      var es := [Allowing(59), Allowing(60), Allowing(119)];
      && WellConfigured(c) && IsRun(c, s, es) && SaneTimes(s, 59)
      && es[2].at >= es[0].at + c.cooldown
      && !Admitted(c, s, es, 0) && Admitted(c, s, es, 1) && !Admitted(c, s, es, 2)
  {
    var c := Config(60, 900, 1, 10, 200_000, 50);
    var s := EMPTY_STORE.(state := Some(Open), openedAt := Whole(0), hashTtl := Some(900));
    var es := [Allowing(59), Allowing(60), Allowing(119)];
    assert At(c, s, es, 0) == s && At(c, s, es, 1) == s;
    var h := s.(state := Some(HalfOpen), probes := Whole(1), halfOpenAt := Whole(60), hashTtl := Some(960));
    assert At(c, s, es, 2) == h;
  }

  /** In a half-open episode begun at `t`, with `n` probes admitted, in a hash that outlives it. */
  ghost predicate InEpisode(c: Config, s: Store, t: int, n: nat) {
    && s.state == Some(HalfOpen) && s.halfOpenAt == Whole(t)
    && s.probes == Whole(n) && 1 <= n <= c.maxProbes
    && s.hashTtl.Some? && s.hashTtl.value >= t + c.ttl
  }

  /** Whether a check at this moment starts an episode. */
  predicate Starts(c: Config, s: Store, e: Event) {
    e.Allowing? && AllowVerdict(c, s, e.at).reason in {CooldownElapsed, ProbeLeaseExpired}
  }

  lemma StartStep(c: Config, s: Store, e: Event)
    requires WellConfigured(c) && s.Acting() != Unknown && Starts(c, s, e)
    ensures InEpisode(c, Next(c, s, e), e.at, 1)
    ensures e.Allowing? && AllowVerdict(c, s, e.at).allowed
  {
  }

  /** Without a start a refusing store stays one. */
  lemma RefusingStep(c: Config, s: Store, e: Event, t: int)
    requires WellConfigured(c) && RefusingSince(c, s, t) && t <= e.at && !e.Reporting? && !Starts(c, s, e)
    ensures RefusingSince(c, Next(c, s, e), t)
  {
  }

  /** Without a start an episode goes on, or its hash expires. */
  lemma EpisodeStep(c: Config, s: Store, e: Event, t: int, n: nat)
    requires WellConfigured(c) && InEpisode(c, s, t, n) && t <= e.at && !e.Reporting? && !Starts(c, s, e)
    ensures var admitted := e.Allowing? && AllowVerdict(c, s, e.at).allowed;
            if e.HashExpires? then Next(c, s, e).Acting() == Closed
            else InEpisode(c, Next(c, s, e), t, if admitted then n + 1 else n)
  {
  }

  lemma EpisodeHolds(c: Config, s: Store, e: Event, t: int, n: nat)
    requires WellConfigured(c) && InEpisode(c, s, t, n) && e.at < t + c.cooldown && Enabled(s, e) && t <= e.at
    ensures !Starts(c, s, e) && !e.HashExpires?
  {
  }

  /** The episode begun by event `k` is the current one. */
  ghost predicate Current(c: Config, s: Store, es: seq<Event>, k: nat, i: nat)
    requires i <= |es|
  {
    k < i && StartsEpisode(c, s, es, k) && InEpisode(c, At(c, s, es, i), es[k].at, EpisodeAdmissions(c, s, es, i))
  }

  lemma EpisodeUnfolds(c: Config, s: Store, es: seq<Event>, i: nat)
    requires i < |es|
    ensures StartsEpisode(c, s, es, i) <==> Starts(c, At(c, s, es, i), es[i])
    ensures EpisodeAdmissions(c, s, es, i + 1)
         == (if StartsEpisode(c, s, es, i) then 0 else EpisodeAdmissions(c, s, es, i))
            + if Admitted(c, s, es, i) then 1 else 0
    ensures At(c, s, es, i + 1) == Next(c, At(c, s, es, i), es[i])
  {
    hide AllowVerdict, Next;
  }

  /** Where a stretch whose first check was refused can have got to. */
  lemma {:induction false} RefusedOrInEpisode(c: Config, s: Store, es: seq<Event>, i: nat)
    requires WellConfigured(c) && 0 < i <= |es| && IsProbing(c, s, es, es[0].at) && SaneTimes(s, es[0].at)
    requires !Admitted(c, s, es, 0)
    ensures RefusingSince(c, At(c, s, es, i), es[0].at) || exists k :: 0 < k < i && Current(c, s, es, k, i)
    decreases i
  {
    hide IsRun, At, Next, Enabled, AllowVerdict, RefusingSince, SaneTimes, WellConfigured, InEpisode, EpisodeAdmissions,
      StartsEpisode, Starts;
    var t0 := es[0].at;
    if i == 1 {
      AtStart(c, s, es);
      RunStep(c, s, es, 0);
      AllowingStep(c, s, es[0]);
      FirstRefusal(c, s, t0);
    } else {
      var e, before := es[i - 1], At(c, s, es, i - 1);
      RefusedOrInEpisode(c, s, es, i - 1);
      EpisodeUnfolds(c, s, es, i - 1);
      InOrder(c, s, es, 0, i - 1);
      if RefusingSince(c, before, t0) {
        if Starts(c, before, e) {
          RefusingIsKnown(c, before, t0);
          StartStep(c, before, e);
          assert Current(c, s, es, i - 1, i);
        } else {
          RefusingStep(c, before, e, t0);
        }
      } else {
        var k :| 0 < k < i - 1 && Current(c, s, es, k, i - 1);
        InOrder(c, s, es, k, i - 1);
        EpisodeMoves(c, s, es, k, i - 1, t0);
      }
    }
  }

  lemma RefusingIsKnown(c: Config, s: Store, t: int)
    requires RefusingSince(c, s, t)
    ensures s.Acting() != Unknown
  {
  }

  lemma EpisodeMoves(c: Config, s: Store, es: seq<Event>, k: nat, i: nat, t0: int)
    requires WellConfigured(c) && 0 < k < i < |es| && Current(c, s, es, k, i) && es[k].at <= es[i].at && !es[i].Reporting?
    ensures || RefusingSince(c, At(c, s, es, i + 1), t0)
            || Current(c, s, es, k, i + 1) || Current(c, s, es, i, i + 1)
  {
    hide At, Next, AllowVerdict, WellConfigured, EpisodeAdmissions, StartsEpisode, Starts;
    EpisodeUnfolds(c, s, es, i);
    var before := At(c, s, es, i);
    if Starts(c, before, es[i]) {
      StartStep(c, before, es[i]);
    } else {
      EpisodeStep(c, before, es[i], es[k].at, EpisodeAdmissions(c, s, es, i));
    }
  }

  /** For a cooldown from its start nothing but a report ends an episode. */
  lemma {:induction false} EpisodeLasts(c: Config, s: Store, es: seq<Event>, k: nat, i: nat)
    requires WellConfigured(c) && IsRun(c, s, es) && k < i < |es|
    requires forall j :: 0 <= j < |es| ==> !es[j].Reporting?
    requires StartsEpisode(c, s, es, k) && es[i].at < es[k].at + c.cooldown
    ensures Current(c, s, es, k, i)
    decreases i
  {
    hide IsRun, At, Next, Enabled, AllowVerdict, WellConfigured, InEpisode, EpisodeAdmissions, StartsEpisode, Starts;
    EpisodeUnfolds(c, s, es, i - 1);
    RunStep(c, s, es, i - 1);
    InOrder(c, s, es, k, i - 1);
    InOrder(c, s, es, i - 1, i);
    var before := At(c, s, es, i - 1);
    if i == k + 1 {
      StartsKnown(c, before, es[k]);
      StartStep(c, before, es[k]);
    } else {
      EpisodeLasts(c, s, es, k, i - 1);
      var n := EpisodeAdmissions(c, s, es, i - 1);
      EpisodeHolds(c, before, es[i - 1], es[k].at, n);
      EpisodeStep(c, before, es[i - 1], es[k].at, n);
    }
  }

  lemma StartsKnown(c: Config, s: Store, e: Event)
    requires Starts(c, s, e)
    ensures s.Acting() != Unknown
  {
  }

  /** In an episode a check is refused exactly within its cooldown and with its budget spent. */
  lemma EpisodeRefuses(c: Config, s: Store, at: int, t: int, n: nat)
    requires WellConfigured(c) && InEpisode(c, s, t, n)
    ensures !AllowVerdict(c, s, at).allowed <==> at < t + c.cooldown && n == c.maxProbes
  {
  }

  /**
   What the last check of a stretch meets, when the first was refused: it is refused exactly when an
   episode began less than a cooldown before it and that episode's probes are all spent.
   */
  lemma LastRefusedExactly(c: Config, s: Store, es: seq<Event>)
    requires WellConfigured(c) && es != [] && IsProbing(c, s, es, es[0].at) && SaneTimes(s, es[0].at)
    requires !Admitted(c, s, es, 0)
    ensures var n := |es| - 1;
            !Admitted(c, s, es, n)
            <==> && (exists k :: 0 < k < n && StartsEpisode(c, s, es, k) && es[n].at < es[k].at + c.cooldown)
                 && EpisodeAdmissions(c, s, es, n) == c.maxProbes
  {
    hide IsRun, At, AllowVerdict, RefusingSince, SaneTimes, WellConfigured, InEpisode, EpisodeAdmissions, StartsEpisode;
    var n := |es| - 1;
    if exists k :: 0 < k < n && StartsEpisode(c, s, es, k) && es[n].at < es[k].at + c.cooldown {
      var k :| 0 < k < n && StartsEpisode(c, s, es, k) && es[n].at < es[k].at + c.cooldown;
      EpisodeLasts(c, s, es, k, n);
      EpisodeRefuses(c, At(c, s, es, n), es[n].at, es[k].at, EpisodeAdmissions(c, s, es, n));
    } else {
      RefusedOrInEpisode(c, s, es, n);
      if RefusingSince(c, At(c, s, es, n), es[0].at) {
        ElapsedIsAdmitted(c, At(c, s, es, n), es[n].at, es[0].at);
      } else {
        var k :| 0 < k < n && Current(c, s, es, k, n);
        EpisodeRefuses(c, At(c, s, es, n), es[n].at, es[k].at, EpisodeAdmissions(c, s, es, n));
      }
    }
  }
}
