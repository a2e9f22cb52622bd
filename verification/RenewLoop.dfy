/** The client's renewal loop (ayane-cli/src/cmd/renew.rs): schedule, waiting and backoff. */
module RenewLoop {
  import opened Basics
  import opened Certificates
  import opened Planning
  import ClaimSpec
  import E = Extensions
  import V = Validity

  // Instants and durations of this module are whole nanoseconds; certificate times are whole seconds.
  const SECOND: nat := 1_000_000_000

  function Max(a: int, b: int): int {
    if a >= b then a else b
  }

  function Min(a: int, b: int): int {
    if a <= b then a else b
  }

  // Half a unit in the last place of a double, relative to its value.
  const DOUBLE_ERROR: real := 1.0 / 9_007_199_254_740_992.0

  /** `times` is the double-precision product of a whole number of seconds and the fraction. */
  datatype LoopConfig = LoopConfig(fraction: real, renewBefore: Option<nat>, jitter: nat, maxSleep: nat,
                                   times: (nat, real) -> real)
  {
    /** The product is rounded once, and rounding is monotone: it never passes the length itself. */
    ghost predicate Valid() {
      && FractionOk(fraction)
      && forall secs: nat :: secs <= V.MAX_CERT_TIME ==>
           && 0.0 <= times(secs, fraction) <= secs as real
           && Near(times(secs, fraction), Share(secs, fraction), Share(secs, fraction) * DOUBLE_ERROR)
    }
  }

  /** Two numbers lie at most this far apart. */
  ghost predicate Near(x: real, y: real, error: real) {
    y - error <= x <= y + error
  }

  /** The loop refuses any other fraction at start-up. */
  predicate FractionOk(fraction: real) {
    0.0 < fraction < 1.0
  }

  /** Resolve the schedule options: at most one of them, and a fraction strictly between 0 and 1. */
  function ResolveFraction(renewFraction: Option<real>, renewBefore: Option<nat>): (r: Result<real, ()>)
    ensures r.Ok? <==> (renewFraction.None? || (renewBefore.None? && 0.0 < renewFraction.value < 1.0))
    ensures r.Ok? ==> 0.0 < r.value < 1.0 && (renewFraction.Some? ==> r.value == renewFraction.value)
    ensures r.Ok? && renewFraction.None? ==> r.value == 0.66
  {
    if renewFraction.Some? && renewBefore.Some? then Err(())
    else
      var fraction := renewFraction.UnwrapOr(0.66);
      if FractionOk(fraction) then Ok(fraction) else Err(())
  }

  // ----- Schedule -----

  /** To the nearest integer, a tie to the even one: how a number of seconds becomes a duration. */
  function RoundHalfEven(x: real): int {
    var below := x.Floor;
    var rest := x - below as real;
    if rest < 0.5 || (rest == 0.5 && below % 2 == 0) then below else below + 1
  }

  function Lifetime(notBefore: V.CertTime, notAfter: V.CertTime): nat {
    Max(notAfter - notBefore, 0)
  }

  /** The unjittered renewal instant: a fixed time before expiry, or a fraction of the lifetime. */
  function RenewalBase(notBefore: V.CertTime, notAfter: V.CertTime, cfg: LoopConfig): int {
    match cfg.renewBefore
    case Some(before) => notAfter * SECOND - before
    case None => notBefore * SECOND + Part(Lifetime(notBefore, notAfter), cfg)
  }

  /** The configured fraction of a lifetime, in nanoseconds. */
  function Part(secs: nat, cfg: LoopConfig): int {
    RoundHalfEven(cfg.times(secs, cfg.fraction) * SECOND as real)
  }

  function NextRenewal(notBefore: V.CertTime, notAfter: V.CertTime, cfg: LoopConfig, jitterSecs: nat): int {
    Max(RenewalBase(notBefore, notAfter, cfg) - jitterSecs * SECOND, notBefore * SECOND)
  }

  /** Rounding keeps within any integer bound, and reaches an even one exactly from half a unit below. */
  lemma RoundingWithin(x: real, bound: nat)
    requires 0.0 <= x <= bound as real
    ensures 0 <= RoundHalfEven(x) <= bound
    ensures bound % 2 == 0 ==> (RoundHalfEven(x) < bound <==> x < bound as real - 0.5)
    ensures Near(RoundHalfEven(x) as real, x, 0.5)
    ensures x - x.Floor as real == 0.5 ==> RoundHalfEven(x) % 2 == 0
  {
    var below := x.Floor;
    assert 0 <= below <= bound;
    assert below == bound ==> x == bound as real;
  }

  /** With a time before expiry configured, renewal is due exactly then, less the jitter, but never before notBefore. */
  lemma DueBeforeExpiryExactly(notBefore: V.CertTime, notAfter: V.CertTime, cfg: LoopConfig, jitterSecs: nat)
    requires cfg.renewBefore.Some?
    ensures
      var wanted := notAfter * 1_000_000_000 - cfg.renewBefore.value - jitterSecs * 1_000_000_000;
      NextRenewal(notBefore, notAfter, cfg, jitterSecs)
      == if wanted < notBefore * 1_000_000_000 then notBefore * 1_000_000_000 else wanted
  {
  }

  /** A fraction of the lifetime is left over that rounding to a nanosecond does not swallow. */
  predicate LeavesTime(secs: nat, cfg: LoopConfig) {
    (secs as real - cfg.times(secs, cfg.fraction)) * SECOND as real > 0.5
  }

  lemma ProductWithin(product: real, secs: nat)
    requires 0.0 <= product <= secs as real
    ensures 0 <= RoundHalfEven(product * SECOND as real) <= secs * SECOND
    ensures RoundHalfEven(product * SECOND as real) < secs * SECOND <==> (secs as real - product) * SECOND as real > 0.5
  {
    RoundingWithin(product * SECOND as real, secs * SECOND);
  }

  /** A part of a lifetime lies within it, and falls short of it exactly when it leaves time. */
  lemma PartWithin(secs: nat, cfg: LoopConfig)
    requires cfg.Valid() && secs <= V.MAX_CERT_TIME
    ensures 0 <= Part(secs, cfg) <= secs * SECOND
    ensures Part(secs, cfg) < secs * SECOND <==> LeavesTime(secs, cfg)
  {
    ProductWithin(cfg.times(secs, cfg.fraction), secs);
  }

  /** Whatever the jitter, renewal is due inside the validity window. */
  lemma DueWithinWindow(notBefore: V.CertTime, notAfter: V.CertTime, cfg: LoopConfig, jitterSecs: nat)
    requires notBefore <= notAfter && cfg.Valid()
    ensures notBefore * SECOND <= NextRenewal(notBefore, notAfter, cfg, jitterSecs) <= notAfter * SECOND
  {
    PartWithin(Lifetime(notBefore, notAfter), cfg);
  }

  /**
   Renewal is due strictly before expiry exactly when there is jitter, or the time asked for before
   expiry is positive, or the fraction leaves more than half a nanosecond of the lifetime.
   */
  lemma DueBeforeExpiry(notBefore: V.CertTime, notAfter: V.CertTime, cfg: LoopConfig, jitterSecs: nat)
    requires notBefore <= notAfter && cfg.Valid()
    ensures NextRenewal(notBefore, notAfter, cfg, jitterSecs) < notAfter * SECOND
            <==> notBefore < notAfter
                 && (jitterSecs > 0
                     || if cfg.renewBefore.Some? then cfg.renewBefore.value > 0
                        else LeavesTime(Lifetime(notBefore, notAfter), cfg))
  {
    PartWithin(Lifetime(notBefore, notAfter), cfg);
  }

  /** A one-day certificate with a fraction a hair below one is due for renewal only at expiry. */
  lemma NearlyWholeFractionIsDueAtExpiry()
    ensures
      var cfg := LoopConfig(0.999999999999999, None, 0, 1, (secs: nat, f: real) => secs as real * f);
      cfg.Valid() && NextRenewal(0, 86_400, cfg, 0) == 86_400 * SECOND
  {
    var cfg := LoopConfig(0.999999999999999, None, 0, 1, (secs: nat, f: real) => secs as real * f);
    assert cfg.times(86_400, cfg.fraction) == 86_399.9999999999136;
    DueWithinWindow(0, 86_400, cfg, 0);
    DueBeforeExpiry(0, 86_400, cfg, 0);
  }

  /** The schedule is the requested fraction to within half a nanosecond and one rounding of a double. */
  lemma FractionAccurate(notBefore: V.CertTime, notAfter: V.CertTime, cfg: LoopConfig)
    requires notBefore <= notAfter && cfg.Valid() && cfg.renewBefore.None?
    ensures Accurate(RenewalBase(notBefore, notAfter, cfg) - notBefore * SECOND, Share(notAfter - notBefore, cfg.fraction))
  {
    var secs := Lifetime(notBefore, notAfter);
    var product, exact := cfg.times(secs, cfg.fraction), Share(secs, cfg.fraction);
    RoundedProduct(product, secs, exact);
  }

  /** The exact share of a lifetime, in seconds. */
  function Share(secs: nat, fraction: real): real {
    secs as real * fraction
  }

  ghost predicate Accurate(nanos: int, exact: real) {
    Near(nanos as real, exact * SECOND as real, 0.5 + exact * DOUBLE_ERROR * SECOND as real)
  }

  lemma RoundedProduct(product: real, secs: nat, exact: real)
    requires 0.0 <= product <= secs as real && Near(product, exact, exact * DOUBLE_ERROR)
    ensures Accurate(RoundHalfEven(product * SECOND as real), exact)
  {
    RoundingWithin(product * SECOND as real, secs * SECOND);
    Scaled(product, exact, exact * DOUBLE_ERROR);
  }

  lemma Scaled(x: real, y: real, error: real)
    requires Near(x, y, error)
    ensures Near(x * SECOND as real, y * SECOND as real, error * SECOND as real)
  {
  }

  /** More jitter never delays, and never moves the instant by more than itself. */
  lemma JitterPullsEarlier(notBefore: V.CertTime, notAfter: V.CertTime, cfg: LoopConfig, jitterSecs: nat)
    ensures
      var plain := NextRenewal(notBefore, notAfter, cfg, 0);
      plain - jitterSecs * SECOND <= NextRenewal(notBefore, notAfter, cfg, jitterSecs) <= plain
  {
  }

  // ----- Sleeping -----

  datatype Wake = Elapsed | Hangup | Stop

  datatype Nap = Nap(start: int, length: nat, woke: Wake)

  /** The clock and the signals; a nap may end early, and time never goes back. `slept` is every nap so far. */
  class Environment {
    var now: int
    ghost var slept: seq<Nap>

    constructor (start: int)
      ensures now == start && slept == []
    {
      now := start;
      slept := [];
    }

    method Sleep(duration: nat) returns (w: Wake)
      modifies this
      ensures w.Elapsed? ==> old(now) + duration <= now
      ensures old(now) <= now
      ensures slept == old(slept) + [Nap(old(now), duration, w)]
    {
      w := *;
      slept := slept + [Nap(now, duration, w)];
      var later :| now + (if w.Elapsed? then duration else 0) <= later;
      now := later;
    }
  }

  /** A uniform draw in [0, max seconds]. */
  method DrawJitter(max: nat) returns (secs: nat)
    ensures secs <= max / SECOND
  {
    secs :| secs <= max / SECOND;
  }

  /** Each nap lasts until the deadline, or the cap if that is sooner; only the last may end in a signal. */
  ghost predicate GoodNaps(naps: seq<Nap>, renewAt: int, maxSleep: nat) {
    && (forall i :: 0 <= i < |naps| ==>
          0 < naps[i].length && naps[i].length == if renewAt - naps[i].start <= maxSleep then renewAt - naps[i].start else maxSleep)
    && (forall i :: 0 <= i < |naps| - 1 ==> naps[i].woke.Elapsed?)
  }

  /** Naps of at most `maxSleep`, until the deadline or a signal, never past the deadline. */
  method WaitUntil(env: Environment, renewAt: int, maxSleep: nat) returns (w: Wake, ghost naps: seq<Nap>)
    requires 0 < maxSleep
    modifies env
    ensures old(env.now) <= env.now
    ensures w.Elapsed? ==> renewAt <= env.now && (naps != [] ==> naps[|naps| - 1].woke.Elapsed?)
    ensures !w.Elapsed? ==> naps != [] && naps[|naps| - 1].woke == w && old(env.now) < renewAt
    ensures GoodNaps(naps, renewAt, maxSleep) && env.slept == old(env.slept) + naps
    ensures old(env.now) >= renewAt ==> naps == [] && env.now == old(env.now)
  {
    naps := [];
    while true
      invariant old(env.now) <= env.now
      invariant GoodNaps(naps, renewAt, maxSleep) && env.slept == old(env.slept) + naps
      invariant naps != [] ==> naps[|naps| - 1].woke.Elapsed?
      invariant old(env.now) >= renewAt ==> naps == [] && env.now == old(env.now)
      decreases renewAt - env.now
    {
      var wait := Max(renewAt - env.now, 0);
      if wait == 0 {
        return Elapsed, naps;
      }
      var nap: nat := Min(wait, maxSleep);
      ghost var start := env.now;
      w := env.Sleep(nap);
      naps := naps + [Nap(start, nap, w)];
      if !w.Elapsed? {
        return w, naps;
      }
    }
  }

  // ----- Backoff -----

  const BASE_SECS: nat := 60
  const CAP_SECS: nat := 1800

  function Pow2(k: nat): nat {
    if k == 0 then 1 else 2 * Pow2(k - 1)
  }

  /** The longest delay after `failures` consecutive transient failures. */
  function BackoffCeiling(failures: nat): nat {
    Min(BASE_SECS * Pow2(Min(failures, 5)), CAP_SECS)
  }

  /** The ceiling doubles from a minute and settles at half an hour after five failures. */
  lemma BackoffDoubles(failures: nat)
    ensures BackoffCeiling(0) == 60
    ensures BackoffCeiling(failures + 1) == if 2 * BackoffCeiling(failures) <= 1800 then 2 * BackoffCeiling(failures) else 1800
    ensures failures >= 5 ==> BackoffCeiling(failures) == 1800
  {
    assert Pow2(0) == 1 && Pow2(1) == 2 && Pow2(2) == 4 && Pow2(3) == 8 && Pow2(4) == 16 && Pow2(5) == 32;
  }

  class Backoff {
    var n: nat
    ghost var failures: nat

    /** The counter saturates; the exponent it stands for does not notice. */
    ghost predicate Valid()
      reads this
    {
      n == Min(failures, 6)
    }

    constructor ()
      ensures Valid() && failures == 0
    {
      n := 0;
      failures := 0;
    }

    method Reset()
      modifies this
      ensures Valid() && failures == 0
    {
      n := 0;
      failures := 0;
    }

    /** Sleep a random part of the current ceiling, then advance. Only a stop signal is reported as one. */
    method Wait(env: Environment) returns (w: Wake, ghost nap: Nap)
      requires Valid()
      modifies this, env
      ensures Valid() && failures == old(failures) + 1
      ensures env.slept == old(env.slept) + [nap] && BackoffNap(nap, old(failures))
      ensures w == if nap.woke.Stop? then Stop else Elapsed
      ensures old(env.now) <= env.now
    {
      var exponent := Min(n, 5);
      var ceiling := Min(BASE_SECS * Pow2(exponent), CAP_SECS);
      n := Min(n + 1, 6);
      failures := failures + 1;
      var secs := DrawJitter(ceiling * SECOND);
      ghost var start := env.now;
      var woke := env.Sleep(secs * SECOND);
      nap := Nap(start, secs * SECOND, woke);
      w := if woke.Stop? then Stop else Elapsed;
    }
  }

  /** Whole seconds, up to the ceiling. */
  ghost predicate BackoffNap(nap: Nap, failures: nat) {
    exists secs :: 0 <= secs <= BackoffCeiling(failures) && nap.length == secs * 1_000_000_000
  }

  // ----- One iteration -----

  datatype Flow = Continue | Stopped

  /** What the server made of a renewal, and whether a new certificate could be written to disk. */
  datatype Reply = Renewed(saved: bool) | Transient | Rejected

  datatype Loaded = Loaded(notBefore: V.CertTime, notAfter: V.CertTime)

  /**
   What one cycle did: the jitter drawn and when that made renewal due, the start-up delay drawn, the
   naps until then and what ended them, when renewal was attempted, and the backoff after a failure.
   */
  datatype Report = Report(jitter: nat, due: Option<int>, startup: Option<nat>, naps: seq<Nap>, woke: Option<Wake>,
                           attemptedAt: Option<int>, backoff: Option<Nap>)

  class Loop {
    const cfg: LoopConfig
    const backoff: Backoff
    var first: bool

    ghost predicate Valid()
      reads this, backoff
    {
      0 < cfg.maxSleep && cfg.Valid() && backoff.Valid()
    }

    constructor (cfg: LoopConfig)
      requires 0 < cfg.maxSleep && cfg.Valid()
      ensures Valid() && first && backoff.failures == 0 && this.cfg == cfg && fresh(backoff)
    {
      this.cfg := cfg;
      this.backoff := new Backoff();
      first := true;
    }

    /**
     One cycle. `loaded` is the certificate read from disk, if it could be read, and `server` what the
     server would answer at each instant. `None` ends the process with an error: a first load that fails, a rejection,
     or a new certificate that cannot be written. A renewal is attempted only once it is due, or on a
     hangup; only consecutive transient failures lengthen the backoff.
     */
    method Cycle(env: Environment, loaded: Option<Loaded>, server: int -> Reply)
      returns (flow: Option<Flow>, ghost report: Report)
      requires Valid()
      modifies this, backoff, env
      ensures Valid() && old(env.now) <= env.now
      ensures loaded.None? ==>
                && report.due.None? && report.attemptedAt.None? && first == old(first)
                && (if old(first) then flow.None? && env.slept == old(env.slept)
                    else report.backoff.Some? && env.slept == old(env.slept) + [report.backoff.value]
                         && flow == Some(if report.backoff.value.woke.Stop? then Stopped else Continue))
      ensures loaded.Some? ==> Awaited(cfg, loaded.value, old(first), old(env.now), report)
      ensures loaded.Some? && loaded.value.notBefore <= loaded.value.notAfter ==>
                loaded.value.notBefore * SECOND <= report.due.value <= loaded.value.notAfter * SECOND
      ensures loaded.Some? ==> Slept(old(env.slept), old(env.now), env.slept, report)
      ensures report.attemptedAt.Some? ==>
                && !first && (report.due.value <= report.attemptedAt.value || report.woke == Some(Hangup))
                && var reply := server(report.attemptedAt.value);
                && (flow.None? <==> reply.Rejected? || reply == Renewed(false))
                && (reply == Renewed(true) ==> flow == Some(Continue) && backoff.failures == 0)
                && (report.backoff.Some? <==> reply.Transient?)
                && (reply.Transient? ==> flow == Some(if report.backoff.value.woke.Stop? then Stopped else Continue))
      ensures loaded.Some? && report.attemptedAt.None? ==> flow == Some(Stopped) && report.backoff.None?
      ensures report.backoff.Some? ==>
                BackoffNap(report.backoff.value, old(backoff.failures)) && backoff.failures == old(backoff.failures) + 1
      ensures report.backoff.None? && !(report.attemptedAt.Some? && server(report.attemptedAt.value) == Renewed(true)) ==>
                backoff.failures == old(backoff.failures)
    {
      report := Report(0, None, None, [], None, None, None);
      ghost var nap;
      if loaded.None? {
        if first {
          return None, report;
        }
        flow, nap := BackOff(env);
        report := report.(backoff := Some(nap));
        return;
      }
      var stopped;
      stopped, report := AwaitDue(env, loaded.value);
      if stopped {
        return Some(Stopped), report;
      }
      report := report.(attemptedAt := Some(env.now));
      ghost var delayed;
      flow, delayed := Renew(env, server(env.now));
      report := report.(backoff := delayed);
    }

    /** Until renewal is due, a hangup asks for it, or a stop signal ends the loop. */
    method AwaitDue(env: Environment, cert: Loaded) returns (stopped: bool, ghost report: Report)
      requires Valid()
      modifies this, env
      ensures Valid() && old(env.now) <= env.now
      ensures report.attemptedAt.None? && report.backoff.None?
      ensures Awaited(cfg, cert, old(first), old(env.now), report.(attemptedAt := if stopped then None else Some(env.now)))
      ensures cert.notBefore <= cert.notAfter ==> cert.notBefore * SECOND <= report.due.value <= cert.notAfter * SECOND
      ensures Slept(old(env.slept), old(env.now), env.slept, report)
      ensures !stopped ==> !first && (report.due.value <= env.now || report.woke == Some(Hangup))
    {
      var jitter := DrawJitter(cfg.jitter);
      var renewAt := NextRenewal(cert.notBefore, cert.notAfter, cfg, jitter);
      report := Report(jitter, Some(renewAt), None, [], None, None, None);
      if cert.notBefore <= cert.notAfter {
        DueWithinWindow(cert.notBefore, cert.notAfter, cfg, jitter);
      }
      if first && env.now >= renewAt {
        ghost var startup;
        stopped, startup := Spread(env);
        report := report.(startup := Some(startup));
        if stopped {
          report := report.(woke := Some(Stop));
          return;
        }
      }
      first := false;
      var waited;
      ghost var naps;
      waited, naps := WaitUntil(env, renewAt, cfg.maxSleep);
      report := report.(naps := naps, woke := Some(waited));
      stopped := waited.Stop?;
    }

    /** A random start-up delay, so that a fleet restarted at once does not renew at once. */
    method Spread(env: Environment) returns (stopped: bool, ghost startup: nat)
      modifies env
      ensures old(env.now) <= env.now && startup <= Min(cfg.jitter, cfg.maxSleep) / SECOND
      ensures if startup == 0 then !stopped && env.slept == old(env.slept) && env.now == old(env.now)
              else exists woke :: env.slept == old(env.slept) + [Nap(old(env.now), startup * 1_000_000_000, woke)] && stopped == woke.Stop?
    {
      var secs := DrawJitter(Min(cfg.jitter, cfg.maxSleep));
      startup := secs;
      stopped := false;
      if secs > 0 {
        var woke := env.Sleep(secs * SECOND);
        stopped := woke.Stop?;
      }
    }

    /** Renew once: save and go on, back off, or end the process. */
    method Renew(env: Environment, reply: Reply) returns (flow: Option<Flow>, ghost delay: Option<Nap>)
      requires Valid()
      modifies backoff, env
      ensures Valid() && old(env.now) <= env.now
      ensures flow.None? <==> reply.Rejected? || reply == Renewed(false)
      ensures reply == Renewed(true) ==> flow == Some(Continue) && backoff.failures == 0
      ensures reply.Transient? ==>
                && delay.Some? && BackoffNap(delay.value, old(backoff.failures)) && backoff.failures == old(backoff.failures) + 1
                && env.slept == old(env.slept) + [delay.value]
                && flow == Some(if delay.value.woke.Stop? then Stopped else Continue)
      ensures !reply.Transient? ==> delay.None? && env.slept == old(env.slept)
      ensures flow.None? ==> backoff.failures == old(backoff.failures)
    {
      delay := None;
      match reply {
        case Renewed(saved) =>
          if !saved {
            return None, delay;
          }
          backoff.Reset();
          return Some(Continue), delay;
        case Transient =>
          ghost var nap;
          flow, nap := BackOff(env);
          delay := Some(nap);
        case Rejected =>
          return None, delay;
      }
    }

    /** One backoff interval, no longer than the ceiling for the failures so far. */
    method BackOff(env: Environment) returns (flow: Option<Flow>, ghost nap: Nap)
      requires Valid()
      modifies backoff, env
      ensures Valid() && backoff.failures == old(backoff.failures) + 1
      ensures env.slept == old(env.slept) + [nap] && BackoffNap(nap, old(backoff.failures))
      ensures flow == Some(if nap.woke.Stop? then Stopped else Continue)
      ensures old(env.now) <= env.now
    {
      var w;
      w, nap := backoff.Wait(env);
      flow := Some(if w.Stop? then Stopped else Continue);
    }
  }

  /**
   How a cycle came to renewal, or did not: due by the jitter drawn, after a start-up delay exactly when the
   loop starts with renewal due, in naps up to then; a hangup or the due instant leads to an attempt, a
   stop signal to none.
   */
  ghost predicate Awaited(cfg: LoopConfig, cert: Loaded, first: bool, now: int, report: Report) {
    && report.jitter <= cfg.jitter / SECOND
    && report.due == Some(NextRenewal(cert.notBefore, cert.notAfter, cfg, report.jitter))
    && (report.startup.Some? <==> first && now >= report.due.value)
    && (report.startup.Some? ==> report.startup.value <= Min(cfg.jitter, cfg.maxSleep) / SECOND)
    && GoodNaps(report.naps, report.due.value, cfg.maxSleep)
    && report.woke.Some?
    && (report.attemptedAt.Some? <==> !report.woke.value.Stop?)
  }

  /** All the sleep of a cycle with a certificate: the start-up delay if one was drawn, the wait, the backoff. */
  ghost predicate Slept(before: seq<Nap>, now: int, after: seq<Nap>, report: Report) {
    var tail := report.naps + (if report.backoff.Some? then [report.backoff.value] else []);
    if report.startup.Some? && report.startup.value > 0
    then exists woke :: after == before + [Nap(now, report.startup.value * 1_000_000_000, woke)] + tail
                        && (woke.Stop? ==> tail == [] && report.woke == Some(Stop))
    else after == before + tail
  }

  // ----- Against a hookless server -----

  /** One renewal as the server sees it. */
  datatype Attempt = Attempt(now: Moment, proof: Proof, serial: Bytes)

  /** The certificate a hookless server makes of a renewal, if it makes one. */
  function Renewal(ca: Authority, cert: Certificate, a: Attempt): Option<Certificate> {
    match PlanReissue(ca, cert, Ok(a.proof), None, [], a.now)
    case Err(_) => None
    case Ok(plan) => Certify(ca, plan.work, a.serial)
  }

  /** A certificate the server would renew at this instant, were it only in time. */
  ghost predicate Renewable(ca: Authority, cert: Certificate, a: Attempt) {
    && CertWindow(cert).Encodable() && 0 < CertWindow(cert).Span()
    && !IsMarkedNonRenewable(cert)
    && ClaimSpec.DpopIssuedAt(a.proof.iat, a.now).Ok?
    && E.CertSans(ca.der, cert.extensions).Some? && E.SansEncodable(ca.der, E.CertSans(ca.der, cert.extensions).value)
    && a.now + CertWindow(cert).Span() <= V.MAX_CERT_TIME
  }

  /** A renewal attempt succeeds exactly before notAfter, and gets the original span from its instant. */
  lemma InTimeIsRenewed(ca: Authority, cert: Certificate, a: Attempt)
    requires Renewable(ca, cert, a)
    ensures Renewal(ca, cert, a).Some? <==> a.now < cert.notAfter
    ensures Renewal(ca, cert, a).Some? ==>
              CertWindow(Renewal(ca, cert, a).value) == V.Window(a.now, a.now + CertWindow(cert).Span())
  {
    V.HooklessWindow(a.now, CertWindow(cert));
    if PlanReissue(ca, cert, Ok(a.proof), None, [], a.now).Ok? {
      HooklessPlan(ca, cert, Ok(a.proof), None, a.now);
    }
  }

  /** A renewal that succeeds at all keeps the span. */
  lemma RenewalKeepsSpan(ca: Authority, cert: Certificate, a: Attempt)
    requires 0 < CertWindow(cert).Span() && Renewal(ca, cert, a).Some?
    ensures CertWindow(Renewal(ca, cert, a).value) == V.Window(a.now, a.now + CertWindow(cert).Span())
  {
    HooklessPlan(ca, cert, Ok(a.proof), None, a.now);
  }

  /** The certificate after a series of renewals. */
  function Renewals(ca: Authority, first: Certificate, attempts: seq<Attempt>): Option<Certificate> {
    if attempts == [] then Some(first)
    else match Renewals(ca, first, attempts[..|attempts| - 1])
      case None => None
      case Some(parent) => Renewal(ca, parent, attempts[|attempts| - 1])
  }

  /** The span never drifts: each renewal runs from its instant for exactly the original length. */
  lemma {:induction false} SpanConstant(ca: Authority, first: Certificate, attempts: seq<Attempt>)
    requires 0 < CertWindow(first).Span() && Renewals(ca, first, attempts).Some?
    ensures CertWindow(Renewals(ca, first, attempts).value).Span() == CertWindow(first).Span()
    ensures attempts != [] ==> Renewals(ca, first, attempts).value.notBefore == attempts[|attempts| - 1].now
  {
    if attempts != [] {
      var n := |attempts| - 1;
      SpanConstant(ca, first, attempts[..n]);
      RenewalKeepsSpan(ca, Renewals(ca, first, attempts[..n]).value, attempts[n]);
    }
  }

  /** A certificate as this CA issues them, renewable for as long as it is in time. */
  ghost predicate Standing(ca: Authority, cert: Certificate) {
    && CertWindow(cert).Encodable() && 0 < CertWindow(cert).Span()
    && DistinctOids(cert.extensions) && Lookup(cert.extensions, NonRenewableOid).None?
    && E.CertSans(ca.der, cert.extensions).Some? && E.SansEncodable(ca.der, E.CertSans(ca.der, cert.extensions).value)
  }

  /** One attempt on a standing certificate: granted exactly in time, and the new certificate stands as the old one did. */
  lemma StandingStays(ca: Authority, cert: Certificate, a: Attempt)
    requires ca.der.SansInvert() && Standing(ca, cert) && Sensible(cert, a)
    ensures Renewal(ca, cert, a).Some? <==> a.now < cert.notAfter
    ensures Renewal(ca, cert, a).Some? ==>
              var renewed := Renewal(ca, cert, a).value;
              Standing(ca, renewed) && renewed.notBefore == a.now && CertWindow(renewed).Span() == CertWindow(cert).Span()
  {
    InTimeIsRenewed(ca, cert, a);
    if Renewal(ca, cert, a).Some? {
      HooklessPlan(ca, cert, Ok(a.proof), None, a.now);
      var work := PlanReissue(ca, cert, Ok(a.proof), None, [], a.now).value.work;
      E.HooklessReissue(ca.der, cert.extensions, work.spki, ca.caKeyId, SubjectOf(work).None?);
    }
  }

  /** When the certificate current at attempt `i` expires, if all before it succeeded. */
  function ExpiryBefore(first: Certificate, attempts: seq<Attempt>, i: nat): int
    requires i < |attempts|
  {
    if i == 0 then first.notAfter else attempts[i - 1].now + CertWindow(first).Span()
  }

  /** An attempt with a fresh proof whose certificate would end within the years X.509 can write. */
  predicate Sensible(first: Certificate, a: Attempt) {
    ClaimSpec.DpopIssuedAt(a.proof.iat, a.now).Ok? && a.now + CertWindow(first).Span() <= V.MAX_CERT_TIME
  }

  /** Every attempt is made before the expiry then current. */
  ghost predicate AllInTime(first: Certificate, attempts: seq<Attempt>) {
    forall i :: 0 <= i < |attempts| ==> attempts[i].now < ExpiryBefore(first, attempts, i)
  }

  lemma InTimeSoFar(first: Certificate, attempts: seq<Attempt>)
    requires attempts != []
    ensures
      var n := |attempts| - 1;
      AllInTime(first, attempts) <==> AllInTime(first, attempts[..n]) && attempts[n].now < ExpiryBefore(first, attempts, n)
  {
    var n := |attempts| - 1;
    assert forall i :: 0 <= i < n ==>
        attempts[..n][i] == attempts[i] && ExpiryBefore(first, attempts[..n], i) == ExpiryBefore(first, attempts, i);
  }

  /** A whole chain of renewals succeeds exactly when each attempt is made before the current expiry. */
  lemma {:induction false} RenewalsSucceed(ca: Authority, first: Certificate, attempts: seq<Attempt>)
    requires ca.der.SansInvert() && Standing(ca, first)
    requires forall i :: 0 <= i < |attempts| ==> Sensible(first, attempts[i])
    ensures Renewals(ca, first, attempts).Some? <==> AllInTime(first, attempts)
    ensures Renewals(ca, first, attempts).Some? ==> Standing(ca, Renewals(ca, first, attempts).value)
  {
    if attempts != [] {
      var n := |attempts| - 1;
      RenewalsSucceed(ca, first, attempts[..n]);
      InTimeSoFar(first, attempts);
      if Renewals(ca, first, attempts[..n]).Some? {
        SpanConstant(ca, first, attempts[..n]);
        StandingStays(ca, Renewals(ca, first, attempts[..n]).value, attempts[n]);
      }
    }
  }

  /** The renewal that an attempt at this nanosecond asks for. */
  function AttemptAt(t: int, proof: Proof, serial: Bytes): Attempt
    requires 0 <= t <= MAX_INSTANT
  {
    Attempt(t / SECOND, proof, serial)
  }

  function ServerReply(ca: Authority, cert: Certificate, proof: Proof, serial: Bytes, t: int): Reply {
    if 0 <= t <= MAX_INSTANT && Renewal(ca, cert, AttemptAt(t, proof, serial)).Some? then Renewed(true) else Rejected
  }

  /**
   One cycle of the client against a hookless server, on one clock: an attempt succeeds, and the loop
   goes on, exactly before notAfter; then the certificate has the original span, from the second of
   the attempt, and its own renewal is due within it.
   */
  method CycleAgainstServer(client: Loop, env: Environment, ca: Authority, cert: Certificate, proof: Proof, serial: Bytes)
    returns (flow: Option<Flow>, ghost report: Report)
    requires client.Valid() && CertWindow(cert).Encodable() && cert.notBefore <= cert.notAfter
    modifies client, client.backoff, env
    ensures client.Valid()
    ensures report.due.Some? && cert.notBefore * SECOND <= report.due.value <= cert.notAfter * SECOND
    ensures report.attemptedAt.Some? && 0 <= report.attemptedAt.value <= MAX_INSTANT
            && Renewable(ca, cert, AttemptAt(report.attemptedAt.value, proof, serial)) ==>
              var t := report.attemptedAt.value;
              && (flow == Some(Continue) <==> t < cert.notAfter * SECOND)
              && (flow == Some(Continue) ==> RenewedAt(ca, cert, AttemptAt(t, proof, serial), client.cfg))
  {
    flow, report := client.Cycle(env, Some(Loaded(cert.notBefore, cert.notAfter)), t => ServerReply(ca, cert, proof, serial, t));
    ghost var attempted := report.attemptedAt;
    if attempted.Some? && 0 <= attempted.value <= MAX_INSTANT {
      ghost var a := AttemptAt(attempted.value, proof, serial);
      if Renewable(ca, cert, a) {
        RenewedInTime(ca, cert, a, client.cfg);
      }
    }
  }

  /** The renewed certificate runs from the attempt for the parent's span, and is itself due within that time. */
  ghost predicate RenewedAt(ca: Authority, cert: Certificate, a: Attempt, cfg: LoopConfig) {
    && Renewal(ca, cert, a).Some?
    && var w := CertWindow(Renewal(ca, cert, a).value);
    && w == V.Window(a.now, a.now + CertWindow(cert).Span()) && w.Encodable()
    && w.notBefore * SECOND <= NextRenewal(w.notBefore, w.notAfter, cfg, 0) <= w.notAfter * SECOND
  }

  lemma RenewedInTime(ca: Authority, cert: Certificate, a: Attempt, cfg: LoopConfig)
    requires Renewable(ca, cert, a) && cfg.Valid()
    ensures Renewal(ca, cert, a).Some? <==> a.now < cert.notAfter
    ensures Renewal(ca, cert, a).Some? ==> RenewedAt(ca, cert, a, cfg)
  {
    InTimeIsRenewed(ca, cert, a);
    if Renewal(ca, cert, a).Some? {
      DueWithinWindow(a.now, a.now + CertWindow(cert).Span(), cfg, 0);
    }
  }
}
