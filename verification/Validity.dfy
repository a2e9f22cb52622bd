/** Validity windows of signed and reissued certificates (ayane/src/template.rs, ayane/src/service.rs). */
module Validity {
  import opened Basics

  function CheckedAdd(t: Instant, d: nat): Option<Instant> {
    if t + d <= MAX_INSTANT then Some(t + d) else None
  }

  function CheckedSub(t: Instant, d: nat): Option<Instant> {
    if t - d >= MIN_INSTANT then Some(t - d) else None
  }

  function Min(a: int, b: int): int {
    if a <= b then a else b
  }

  datatype ValidityPolicy = ValidityPolicy(defaultValidity: nat, minValidity: nat, maxValidity: nat, backdate: nat) {
    /** The longest window this template ever allows. */
    function Ceiling(): nat {
      maxValidity + backdate
    }
  }

  datatype Window = Window(notBefore: Instant, notAfter: Instant) {
    function Span(): int {
      notAfter - notBefore
    }

    /** X.509 times run from the epoch to the end of the year 9999. */
    predicate Encodable() {
      0 <= notBefore <= MAX_CERT_TIME && 0 <= notAfter <= MAX_CERT_TIME
    }
  }

  const MAX_CERT_TIME: Instant := 253_402_300_799

  /** A time read from a certificate: whole seconds. */
  type CertTime = t: Instant | 0 <= t <= MAX_CERT_TIME

  // ----- Signing -----

  function ComputeValidity(p: ValidityPolicy, now: Instant, wantBefore: Option<Instant>, wantAfter: Option<Instant>)
    : Result<Window, Error>
  {
    var base := wantBefore.UnwrapOr(now);
    var notBefore := CheckedSub(base, p.backdate).UnwrapOr(base);
    if wantAfter.Some? && wantAfter.value < notBefore then Err(BadRequest)
    else
      var requested := if wantAfter.Some? then wantAfter.value - notBefore else p.defaultValidity + p.backdate;
      if requested < p.minValidity then Err(BadRequest)
      else match CheckedAdd(notBefore, Min(requested, p.maxValidity + p.backdate))
        case None => Err(Internal)
        case Some(notAfter) => Ok(Window(notBefore, notAfter))
  }

  function MaxNotAfter(p: ValidityPolicy, notBefore: Instant): Option<Instant> {
    CheckedAdd(notBefore, p.maxValidity + p.backdate)
  }

  /** The window finally signed, from whatever window the hooks left. */
  function SignWindow(p: ValidityPolicy, hooked: Window): Result<Window, Error> {
    var ceiling := MaxNotAfter(p, hooked.notBefore);
    var w := if ceiling.Some? && hooked.notAfter > ceiling.value then hooked.(notAfter := ceiling.value) else hooked;
    if w.notAfter <= w.notBefore then Err(Forbidden) else Ok(w)
  }

  /** A window a caller asks for comes back exactly, cut only by the ceiling. */
  lemma RequestedWindow(p: ValidityPolicy, now: Instant, wantBefore: Option<Instant>, wantAfter: Option<Instant>)
    requires ComputeValidity(p, now, wantBefore, wantAfter).Ok?
    requires wantBefore.UnwrapOr(now) - p.backdate >= MIN_INSTANT
    ensures
      var w := ComputeValidity(p, now, wantBefore, wantAfter).value;
      var base := wantBefore.UnwrapOr(now);
      && w.notBefore + p.backdate == base
      && w.Span() <= p.Ceiling()
      && (p.minValidity <= p.Ceiling() ==> p.minValidity <= w.Span())
      && (wantAfter.None? ==> w.notAfter == base + Min(p.defaultValidity, p.maxValidity))
      && (wantAfter.Some? ==> w.notAfter == Min(wantAfter.value, base + p.maxValidity))
  {
  }

  /** Whatever the hooks did, a signed window is non-empty, within the ceiling, and inside the hooked one. */
  lemma SignedWindowBounded(p: ValidityPolicy, hooked: Window)
    ensures
      match SignWindow(p, hooked)
      case Ok(w) =>
        && 0 < w.Span() <= p.Ceiling()
        && w.notBefore == hooked.notBefore
        && w.notAfter == Min(hooked.notAfter, hooked.notBefore + p.Ceiling())
      case Err(e) => e == Forbidden && (hooked.Span() <= 0 || p.Ceiling() == 0)
  {
  }

  /**
   Below the second: windows are compared to the nanosecond, but a certificate's times are whole
   seconds. A window that passes the collapse check is signed with a positive span exactly when its
   ends fall in different seconds; the ceiling, in whole seconds, survives the truncation.
   */
  lemma SubSecondWindow(notBefore: nat, notAfter: nat, ceiling: nat)
    requires notBefore < notAfter <= notBefore + ceiling * NANOS
    ensures 0 <= notAfter / NANOS - notBefore / NANOS <= ceiling
    ensures 0 < notAfter / NANOS - notBefore / NANOS <==> notBefore - notBefore % NANOS + NANOS <= notAfter
  {
    var b, a := notBefore / NANOS, notAfter / NANOS;
    assert notBefore == b * NANOS + notBefore % NANOS && notAfter == a * NANOS + notAfter % NANOS;
  }

  const NANOS: nat := 1_000_000_000

  /** A hooked window from 10.2 s to 10.7 s passes the check and is signed with no span at all. */
  lemma SubSecondWindowCollapses()
    ensures
      var notBefore, notAfter := 10_200_000_000, 10_700_000_000;
      notBefore < notAfter && notBefore / NANOS == notAfter / NANOS
  {
    SubSecondWindow(10_200_000_000, 10_700_000_000, 1);
  }

  // ----- Reissue -----

  /** Original duration, zero for an inverted window. */
  function Duration(parent: Window): nat {
    if parent.notAfter >= parent.notBefore then parent.notAfter - parent.notBefore else 0
  }

  /** The window offered to the hooks on renewal. */
  function ReissueBaseline(now: Instant, parent: Window): Result<Window, Error> {
    match CheckedAdd(now, Duration(parent))
    case None => Err(Internal)
    case Some(notAfter) => Ok(Window(now, notAfter))
  }

  function ReissueWindow(baseline: Window, hooked: Window): Result<Window, Error> {
    var w := if hooked.notAfter > baseline.notAfter then hooked.(notAfter := baseline.notAfter) else hooked;
    if w.notAfter <= w.notBefore then Err(Forbidden) else Ok(w)
  }

  /** A reissue never outlives the renewal instant by more than its parent's span. */
  lemma ReissuedWindowBounded(now: Instant, parent: Window, hooked: Window)
    requires ReissueBaseline(now, parent).Ok?
    requires ReissueWindow(ReissueBaseline(now, parent).value, hooked).Ok?
    ensures
      var w := ReissueWindow(ReissueBaseline(now, parent).value, hooked).value;
      && 0 < w.Span()
      && w.notBefore == hooked.notBefore
      && w.notAfter <= now + Duration(parent)
      && (hooked.notBefore >= now ==> w.Span() <= Duration(parent))
  {
  }

  ghost predicate SpanGrows(now: Instant, parent: Window, hooked: Window) {
    match ReissueBaseline(now, parent)
    case Err(_) => false
    case Ok(baseline) =>
      match ReissueWindow(baseline, hooked)
      case Err(_) => false
      case Ok(w) => w.Span() > Duration(parent)
  }

  /** The guard against growth is exactly that the hook keeps notBefore at or after the renewal instant. */
  lemma SpanGuard(now: Instant, parent: Window, notBefore: Instant)
    requires ReissueBaseline(now, parent).Ok?
    ensures (forall notAfter: Instant :: !SpanGrows(now, parent, Window(notBefore, notAfter))) <==> notBefore >= now
  {
    if notBefore < now {
      var notAfter: Instant := now + Duration(parent);
      assert SpanGrows(now, parent, Window(notBefore, notAfter));
    }
  }

  /** A hook that backdates a renewal by an hour turns a one-day certificate into a 25-hour one. */
  lemma BackdatingHookGrowsSpan()
    ensures
      var parent := Window(0, 86400);
      var now := 50000;
      var hooked := Window(now - 3600, now + 86400);
      && ReissueBaseline(now, parent) == Ok(Window(now, now + 86400))
      && ReissueWindow(Window(now, now + 86400), hooked) == Ok(hooked)
      && hooked.Span() == 90000 > parent.Span()
  {
    var hooked := Window(50000 - 3600, 50000 + 86400);
    assert hooked.Span() == 90000;
  }

  /** Without hooks a renewal starts now and keeps the span. */
  lemma HooklessWindow(now: Instant, parent: Window)
    requires ReissueBaseline(now, parent).Ok? && parent.Span() > 0
    ensures
      var baseline := ReissueBaseline(now, parent).value;
      && ReissueWindow(baseline, baseline) == Ok(baseline)
      && baseline.notBefore == now && baseline.Span() == parent.Span()
      && baseline.notAfter == now + parent.Span()
  {
  }
}
