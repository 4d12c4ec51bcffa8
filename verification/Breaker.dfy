/**
 The per-issuer circuit breaker (internal/breaker/breaker.go): configuration clamping, the Redis
 keys one issuer owns, and the two atomic scripts that read and rewrite them.
 */
module Breaker {
  import opened Collections

  // --------------------------------------------------------------------------
  // Configuration
  // --------------------------------------------------------------------------

  const TRIP_SCALE: int := 1_000_000
  const MAX_WINDOW_SIZE: int := 10_000
  const MAX_HALF_OPEN_PROBES: int := 1_000
  const MILLISECOND: int := 1_000_000
  const SECOND: int := 1_000 * MILLISECOND
  const MINUTE: int := 60 * SECOND
  const HOUR: int := 60 * MINUTE
  const MAX_COOLDOWN: int := 24 * HOUR
  const MIN_KEY_TTL: int := 15 * MINUTE
  const MAX_KEY_TTL: int := 7 * 24 * HOUR

  /** A trip rate as configured: NaN, or a number. */
  datatype Rate = NotANumber | Rate(value: real)

  /** Durations are in nanoseconds. */
  datatype Settings = Settings(
    tripRate: Rate, minSamples: int, cooldown: int, halfOpenProbes: int, windowSize: int)

  const DEFAULTS: Settings := Settings(Rate(0.2), 10, 60 * SECOND, 3, 50)

  function Between(x: int, low: int, high: int, default: int): int {
    var y := if x < low then default else x;
    if y > high then high else y
  }

  /** `withDefaults`. */
  function WithDefaults(s: Settings): Settings {
    var rate := if s.tripRate.Rate? && 0.0 < s.tripRate.value <= 1.0 then s.tripRate else DEFAULTS.tripRate;
    var window := Between(s.windowSize, 1, MAX_WINDOW_SIZE, DEFAULTS.windowSize);
    var samples := if s.minSamples < 1 then DEFAULTS.minSamples else s.minSamples;
    Settings(
      rate,
      if samples > window then window else samples,
      Between(s.cooldown, 1, MAX_COOLDOWN, DEFAULTS.cooldown),
      Between(s.halfOpenProbes, 1, MAX_HALF_OPEN_PROBES, DEFAULTS.halfOpenProbes),
      window)
  }

  /** What the scripts are given; times are in milliseconds. The probe lease is the cooldown. */
  datatype Config = Config(
    cooldown: int, ttl: int, maxProbes: int, minSamples: int, tripScaled: int, windowSize: int)

  /** The script arguments `New` precomputes. */
  function New(s: Settings): Config {
    var d := WithDefaults(s);
    var ttl := 10 * d.cooldown;
    var ttl := if ttl < MIN_KEY_TTL then MIN_KEY_TTL else ttl;
    var ttl := if ttl > MAX_KEY_TTL then MAX_KEY_TTL else ttl;
    var rate := if d.tripRate.Rate? then d.tripRate.value else 0.0;
    Config(
      d.cooldown / MILLISECOND, ttl / MILLISECOND, d.halfOpenProbes, d.minSamples,
      (rate * TRIP_SCALE as real + 0.5).Floor, d.windowSize)
  }

  predicate WellConfigured(c: Config) {
    && 0 <= c.cooldown && 7 * c.cooldown <= c.ttl && 0 < c.ttl
    && 1 <= c.maxProbes
    && 1 <= c.minSamples <= c.windowSize
    && 0 <= c.tripScaled <= TRIP_SCALE
  }

  lemma RoundedRate(rate: real)
    requires 0.0 < rate <= 1.0
    ensures 0 <= (rate * TRIP_SCALE as real + 0.5).Floor <= TRIP_SCALE
  {
    var x := rate * TRIP_SCALE as real;
    assert 0.0 <= x <= TRIP_SCALE as real;
  }

  /** Whatever the operator wrote, the clamps leave a key lifetime of at least seven cooldowns. */
  lemma ClampsHold(s: Settings)
    ensures WellConfigured(New(s))
  {
    var d := WithDefaults(s);
    RoundedRate(d.tripRate.value);
    var q := d.cooldown / MILLISECOND;
    assert 7 * (q * MILLISECOND) <= 7 * d.cooldown;
    assert New(s).ttl >= 7 * q;
  }

  /** The intended ten cooldowns are kept exactly up to 16.8 hours; above that the ceiling cuts in. */
  lemma TenCooldownsExactly(s: Settings)
    ensures New(s).ttl >= 10 * New(s).cooldown <==> WithDefaults(s).cooldown / MILLISECOND <= 60_480_000
  {
    var c := WithDefaults(s).cooldown;
    var q := c / MILLISECOND;
    assert q * MILLISECOND <= c < (q + 1) * MILLISECOND;
    assert 10 * c <= MAX_KEY_TTL ==> (10 * c) / MILLISECOND >= 10 * q;
  }

  // --------------------------------------------------------------------------
  // The keys
  // --------------------------------------------------------------------------

  /** A stored state; `Unknown` is any value this package did not write. */
  datatype State = Closed | Open | HalfOpen | Unknown

  /** What Lua's `tonumber` makes of a text: nothing, a number, an infinity or the undefined number. */
  datatype Reading = Unreadable | Finite(value: real) | Infinite(positive: bool) | Undefined

  /**
   A timestamp or count in the state hash: missing, a 64-bit integer as Redis itself writes one, or any
   other text, which only something else can have written. The scripts go by its reading, the Go reader
   by `parsed`, what its own integer parser makes of it or 0, and HINCRBY refuses it.
   */
  datatype Field = Missing | Whole(n: int) | Other(reading: Reading, parsed: int)
  {
    /** The scripts see a number. */
    predicate Reads() { Whole? || (Other? && reading != Unreadable) }

    /** It reads as an instant at or before `now`. */
    predicate NotAhead(now: int) {
      match this
      case Missing => false
      case Whole(n) => n <= now
      case Other(Finite(x), _) => x <= now as real
      case Other(Infinite(positive), _) => !positive
      case Other(_, _) => false
    }

    /** `now - stamp >= wait`, with `default` for what does not read as a number. */
    predicate Elapsed(default: int, now: int, wait: int) {
      match this
      case Whole(n) => now - n >= wait
      case Other(Finite(x), _) => now as real - x >= wait as real
      case Other(Infinite(positive), _) => !positive
      case Other(Undefined, _) => false
      case _ => now - default >= wait
    }

    /** `count < limit` fails, with 0 for what does not read as a number. */
    predicate NotBelow(limit: int) {
      match this
      case Whole(n) => n >= limit
      case Other(Finite(x), _) => x >= limit as real
      case Other(Infinite(positive), _) => positive
      case Other(Undefined, _) => true
      case _ => 0 >= limit
    }

    /** HINCRBY by one: a missing field counts as 0, and any other text is an error. */
    function Incremented(): Option<Field> {
      match this
      case Missing => Some(Whole(1))
      case Whole(n) => Some(Whole(n + 1))
      case Other(_, _) => None
    }

    /** What the Go reader sees. */
    function Parsed(): int {
      match this
      case Missing => 0
      case Whole(n) => n
      case Other(_, parsed) => parsed
    }
  }

  /**
   One issuer's Redis keys: the fields of the state hash with its expiry instant, and the window
   list, newest first, with its own. A missing or empty state field is None.
   */
  datatype Store = Store(
    state: Option<State>, openedAt: Field, probes: Field, halfOpenAt: Field,
    hashTtl: Option<int>, window: seq<bool>, windowTtl: Option<int>)
  {
    /** The state the scripts act on. */
    function Acting(): State {
      match state
      case Some(st) => st
      case None => Closed
    }

    predicate HashExists() { state.Some? || !openedAt.Missing? || !probes.Missing? || !halfOpenAt.Missing? }

    /** PEXPIRE on the hash: no effect on a key that does not exist. */
    function ExpireHash(at: int): Store {
      if HashExists() then this.(hashTtl := Some(at)) else this
    }

    function ExpireWindow(at: int): Store {
      if window != [] then this.(windowTtl := Some(at)) else this
    }

    /** DEL on the window. */
    function DropWindow(): Store { this.(window := [], windowTtl := None) }

    function DropHash(): Store {
      this.(state := None, openedAt := Missing, probes := Missing, halfOpenAt := Missing, hashTtl := None)
    }
  }

  const EMPTY_STORE: Store := Store(None, Missing, Missing, Missing, None, [], None)

  datatype Reason =
    | NoReason | CooldownElapsed | ProbeLeaseExpired | StateRepaired
    | ProbeSuccess | ProbeFailure | TripRateBreached | IgnoredWhileOpen
    | ScriptFailed

  /** A failed script leaves the keys as it found them, and the caller an error and no admission. */
  datatype Admission = Admission(allowed: bool, from: State, to: State, reason: Reason)

  datatype Recording = Recording(from: State, to: State, reason: Reason, samples: nat, successes: nat)

  // --------------------------------------------------------------------------
  // The scripts as functions
  // --------------------------------------------------------------------------

  function AllowVerdict(c: Config, s: Store, now: int): Admission {
    match s.Acting()
    case Closed => Admission(true, Closed, Closed, NoReason)
    case Open =>
      if s.openedAt.Elapsed(0, now, c.cooldown)
      then Admission(true, Open, HalfOpen, CooldownElapsed)
      else Admission(false, Open, Open, NoReason)
    case HalfOpen =>
      if s.halfOpenAt.Elapsed(now, now, c.cooldown)
      then Admission(0 < c.maxProbes, HalfOpen, HalfOpen, ProbeLeaseExpired)
      else if s.probes.NotBelow(c.maxProbes) then Admission(false, HalfOpen, HalfOpen, NoReason)
      else if s.probes.Incremented().None? then Admission(false, HalfOpen, HalfOpen, ScriptFailed)
      else Admission(true, HalfOpen, HalfOpen, NoReason)
    case Unknown => Admission(false, Open, Open, StateRepaired)
  }

  function AllowStore(c: Config, s: Store, now: int): Store {
    match s.Acting()
    case Closed => s
    case Open =>
      if s.openedAt.Elapsed(0, now, c.cooldown)
      then s.(state := Some(HalfOpen), probes := Whole(1), halfOpenAt := Whole(now)).ExpireHash(now + c.ttl)
      else s
    case HalfOpen =>
      if s.halfOpenAt.Elapsed(now, now, c.cooldown)
      then s.(probes := Whole(if 0 < c.maxProbes then 1 else 0), halfOpenAt := Whole(now)).ExpireHash(now + c.ttl)
      else if s.probes.NotBelow(c.maxProbes) || s.probes.Incremented().None? then s
      else s.(probes := s.probes.Incremented().value).ExpireHash(now + c.ttl)
    case Unknown =>
      s.(state := Some(Open), openedAt := Whole(now), probes := Whole(0), halfOpenAt := Whole(now)).ExpireHash(now + c.ttl)
  }

  function Opened(s: Store, now: int): Store {
    s.(state := Some(Open), openedAt := Whole(now), probes := Whole(0), halfOpenAt := Whole(0)).DropWindow()
  }

  function Successes(w: seq<bool>): (n: nat)
    ensures n <= |w|
  {
    if w == [] then 0 else Successes(w[..|w| - 1]) + if w[|w| - 1] then 1 else 0
  }

  function Capped(w: seq<bool>, n: int): seq<bool> {
    if 0 <= n < |w| then w[..n] else w
  }

  /** The evidence floor is met and the success rate is below the scaled trip rate. */
  predicate Breaches(c: Config, w: seq<bool>) {
    |w| >= c.minSamples && Successes(w) * TRIP_SCALE < |w| * c.tripScaled
  }

  /** The window once an outcome is pushed and the list trimmed. */
  function Pushed(c: Config, s: Store, ok: bool): seq<bool> { Capped([ok] + s.window, c.windowSize) }

  function ReportVerdict(c: Config, s: Store, ok: bool): Recording {
    match s.Acting()
    case HalfOpen =>
      if ok then Recording(HalfOpen, Closed, ProbeSuccess, 0, 0) else Recording(HalfOpen, Open, ProbeFailure, 0, 0)
    case Open => Recording(Open, Open, IgnoredWhileOpen, 0, 0)
    case Closed =>
      var w := Pushed(c, s, ok);
      if Breaches(c, w) then Recording(Closed, Open, TripRateBreached, |w|, Successes(w))
      else Recording(Closed, Closed, NoReason, |w|, Successes(w))
    case Unknown => Recording(Open, Open, StateRepaired, 0, 0)
  }

  function ReportStore(c: Config, s: Store, now: int, ok: bool): Store {
    var t :=
      match s.Acting()
      case HalfOpen =>
        if ok
        then s.(state := Some(Closed), openedAt := Whole(0), probes := Whole(0), halfOpenAt := Whole(0)).DropWindow()
        else Opened(s, now)
      case Open => s
      case Closed =>
        var w := Pushed(c, s, ok);
        if Breaches(c, w) then Opened(s, now) else s.(window := w)
      case Unknown => Opened(s, now);
    t.ExpireHash(now + c.ttl).ExpireWindow(now + c.ttl)
  }

  /** `effective`: the state a reader should act on, without writing anything. */
  function Effective(c: Config, s: Store, now: int): State {
    match s.Acting()
    case Closed => Closed
    case HalfOpen => HalfOpen
    case Open => if now - s.openedAt.Parsed() >= c.cooldown then HalfOpen else Open
    case Unknown => Open
  }

  // --------------------------------------------------------------------------
  // The scripts as they run
  // --------------------------------------------------------------------------

  /** The keys as Redis holds them, rewritten command by command inside one atomic script. */
  class IssuerKeys {
    var state: Option<State>
    var openedAt: Field
    var probes: Field
    var halfOpenAt: Field
    var hashTtl: Option<int>
    var window: seq<bool>
    var windowTtl: Option<int>

    ghost function Snapshot(): Store
      reads this
    {
      Store(state, openedAt, probes, halfOpenAt, hashTtl, window, windowTtl)
    }

    constructor ()
      ensures Snapshot() == EMPTY_STORE
    {
      state, openedAt, probes, halfOpenAt, hashTtl := None, Missing, Missing, Missing, None;
      window, windowTtl := [], None;
    }

    method ExpireHash(at: int)
      modifies this
      ensures Snapshot() == old(Snapshot()).ExpireHash(at)
    {
      if state.Some? || !openedAt.Missing? || !probes.Missing? || !halfOpenAt.Missing? {
        hashTtl := Some(at);
      }
    }

    method ExpireWindow(at: int)
      modifies this
      ensures Snapshot() == old(Snapshot()).ExpireWindow(at)
    {
      if window != [] {
        windowTtl := Some(at);
      }
    }

    /** `allowScript`. */
    method Allow(c: Config, now: int) returns (a: Admission)
      modifies this
      ensures a == AllowVerdict(c, old(Snapshot()), now)
      ensures Snapshot() == AllowStore(c, old(Snapshot()), now)
    {
      var st := if state.Some? then state.value else Closed;
      var from, to, reason, allowed, wrote := st, st, NoReason, false, false;
      if st == Closed {
        allowed := true;
      } else if st == Open {
        if openedAt.Elapsed(0, now, c.cooldown) {
          to, reason, allowed, wrote := HalfOpen, CooldownElapsed, true, true;
          state := Some(HalfOpen);
          probes := Whole(1);
          halfOpenAt := Whole(now);
        }
      } else if st == HalfOpen {
        if halfOpenAt.Elapsed(now, now, c.cooldown) {
          reason, wrote := ProbeLeaseExpired, true;
          probes := Whole(0);
          halfOpenAt := Whole(now);
        }
        if !probes.NotBelow(c.maxProbes) {
          var counted := probes.Incremented();
          if counted.None? {
            return Admission(false, st, st, ScriptFailed);
          }
          probes := counted.value;
          allowed, wrote := true, true;
        }
      } else {
        from, to, reason, wrote := Open, Open, StateRepaired, true;
        state := Some(Open);
        openedAt := Whole(now);
        probes := Whole(0);
        halfOpenAt := Whole(now);
      }
      if wrote {
        ExpireHash(now + c.ttl);
      }
      a := Admission(allowed, from, to, reason);
    }

    /** The script-local `openNow`. */
    method OpenNow(now: int)
      modifies this
      ensures Snapshot() == Opened(old(Snapshot()), now)
    {
      window, windowTtl := [], None;
      state := Some(Open);
      openedAt := Whole(now);
      probes := Whole(0);
      halfOpenAt := Whole(0);
    }

    method CountSuccesses() returns (n: nat)
      ensures n == Successes(window)
    {
      n := 0;
      for i := 0 to |window|
        invariant n == Successes(window[..i])
      {
        assert window[..i + 1][..i] == window[..i];
        if window[i] {
          n := n + 1;
        }
      }
      assert window[..|window|] == window;
    }

    /** `reportScript`. */
    method Report(c: Config, now: int, ok: bool) returns (r: Recording)
      requires c.windowSize >= 1
      modifies this
      ensures r == ReportVerdict(c, old(Snapshot()), ok)
      ensures Snapshot() == ReportStore(c, old(Snapshot()), now, ok)
    {
      hide Successes;
      var st := if state.Some? then state.value else Closed;
      var from, to, reason, samples, successes := st, st, NoReason, 0, 0;
      if st == HalfOpen {
        if ok {
          to, reason := Closed, ProbeSuccess;
          window, windowTtl := [], None;
          state := Some(Closed);
          openedAt := Whole(0);
          probes := Whole(0);
          halfOpenAt := Whole(0);
        } else {
          to, reason := Open, ProbeFailure;
          OpenNow(now);
        }
      } else if st == Open {
        reason := IgnoredWhileOpen;
      } else if st == Closed {
        window := [ok] + window;
        if |window| > c.windowSize {
          window := window[..c.windowSize];
        }
        samples := |window|;
        successes := CountSuccesses();
        if samples >= c.minSamples && successes * TRIP_SCALE < samples * c.tripScaled {
          to, reason := Open, TripRateBreached;
          OpenNow(now);
        }
      } else {
        from, to, reason := Open, Open, StateRepaired;
        OpenNow(now);
      }
      ExpireHash(now + c.ttl);
      ExpireWindow(now + c.ttl);
      r := Recording(from, to, reason, samples, successes);
    }
  }
}
