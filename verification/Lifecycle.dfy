/**
 Every concurrent run of the service: sign, renew, rekey and revoke requests, reaper runs and lazy
 sweeps interleave at each storage operation, with clocks read at any earlier moment and, on a
 backend that is not consistent, revocation lookups answered from any earlier version. The invariants below hold in every
 reachable state; the last section reads them as safety properties.
 */
module Lifecycle {
  import opened Basics
  import opened Certificates
  import opened Validity
  import opened Hooks
  import opened StorageContract
  import opened ClaimSpec
  import opened Planning
  import E = Extensions
  import Denylist

  /** What stays fixed over a run: the CA, the configuration, the backend's slack, whether its lookups are current. */
  datatype Setting = Setting(ca: Authority, cfg: Config, slack: nat, consistent: bool)

  /** One certificate the CA key has signed; `parent` is the entry it was reissued from. */
  datatype Entry = Entry(cert: Certificate, work: Work, parent: Option<nat>)

  /** A revocation lookup: the step it happened at, and how many steps the version it saw reflects. */
  datatype Gate = Gate(at: nat, seen: nat)

  /** A request in progress. `claims` are the positions in the trace of its claims so far, in order. */
  datatype Thread =
    | Gated(presented: nat, gate: Gate)
    | Claiming(plan: Plan, parent: Option<nat>, gate: Gate, claims: seq<nat>)
    | Signed(plan: Plan, entry: nat, gate: Gate, claims: seq<nat>)
    | Returned(plan: Plan, entry: nat, gate: Gate, claims: seq<nat>)
    | Finished(held: Option<Held>)

  /** A plan with the claims made for it. */
  datatype Held = Held(plan: Plan, claims: seq<nat>)

  datatype State = State(
    clock: Moment, store: Store, issued: seq<Entry>, threads: map<nat, Thread>,
    trace: seq<Denylist.Event>, revokedAt: map<string, nat>, steps: nat)

  const INITIAL := State(0, EMPTY_STORE, [], map[], [], map[], 0)

  datatype Step =
    | Tick(to: Moment)
    | StartSign(t: nat, req: SignRequest, hooks: seq<Hook>, now: Moment)
    | StartReissue(t: nat, presented: nat, seen: nat)
    | PlanRenewal(t: nat, proof: Result<Proof, Error>, newKey: Option<Result<Bytes, Error>>, hooks: seq<Hook>, now: Moment)
    | ClaimNext(t: nat, floorNow: Moment, stamp: Moment)
    | IssueNext(t: nat, serial: Bytes)
    | RecordNext(t: nat)
    | OtherClaim(other: ClaimRequest)
    | RevokeSerial(revocation: RevocationRecord)
    | Purge(keys: set<string>, stamp: Moment)
    | Abort(t: nat)

  /** The claims of a plan in order: the credential first, then every scope. */
  function PlannedClaim(plan: Plan, i: nat): (string, int)
    requires i <= |plan.scopes|
  {
    if i == 0 then (plan.jtiKey, plan.jtiExpiry)
    else (ScopeKey(plan.scopes[i - 1].namespace, plan.scopes[i - 1].value), ScopeExpiry(plan.scopes[i - 1], plan.work.window.notAfter))
  }

  /** The plan a thread follows, or followed, and its claims. */
  function HeldBy(th: Thread): Option<Held> {
    match th
    case Gated(_, _) => None
    case Claiming(plan, _, _, claims) => Some(Held(plan, claims))
    case Signed(plan, _, _, claims) => Some(Held(plan, claims))
    case Returned(plan, _, _, claims) => Some(Held(plan, claims))
    case Finished(held) => held
  }

  function ClaimsOf(th: Thread): seq<nat> {
    if HeldBy(th).Some? then HeldBy(th).value.claims else []
  }

  /** Whether a version reflecting the first `seen` steps shows this serial revoked. */
  predicate ShownRevoked(s: State, serial: string, seen: nat) {
    serial in s.revokedAt && s.revokedAt[serial] < seen
  }

  /** The claim a thread makes next. */
  function NextRequest(th: Thread, floorNow: Moment, stamp: Moment): ClaimRequest
    requires th.Claiming? && |th.claims| <= |th.plan.scopes|
  {
    var (key, wanted) := PlannedClaim(th.plan, |th.claims|);
    ClaimRequest(key, wanted, floorNow, stamp)
  }

  /** A claim takes effect in the store and in the trace together. */
  function WithClaim(w: Setting, s: State, req: ClaimRequest): State
    requires req.stamp <= s.clock
  {
    s.(store := StorageContract.Step(s.store, ClaimToken(req.key, req.Recorded(), req.stamp), w.slack).0,
       trace := s.trace + [EventOf(req, s.clock)])
  }

  /** Lapsed claims disappear: all of them when a reaper runs, some when the backend sweeps. */
  function WithPurge(w: Setting, s: State, keys: set<string>, stamp: Moment): State {
    s.(store := s.store.(tokens := Purged(s.store.tokens, keys, stamp, w.slack)),
       trace := s.trace + [Denylist.Purge(keys, stamp, s.clock)])
  }

  function WithThread(s: State, t: nat, th: Thread): State {
    s.(threads := s.threads[t := th])
  }

  // ----- One function per kind of step -----

  predicate CanSign(s: State, t: nat, req: SignRequest, now: Moment) {
    t !in s.threads && now <= s.clock && (req.token.Ok? ==> TokenInRange(req.token.value))
  }

  ghost function AfterSign(w: Setting, s: State, t: nat, req: SignRequest, hooks: seq<Hook>, now: Moment): State
    requires CanSign(s, t, req, now)
  {
    match PlanSign(w.cfg, req, hooks, now)
    case Err(_) => WithThread(s, t, Finished(None))
    case Ok(plan) => WithThread(s, t, Claiming(plan, None, Gate(s.steps, s.steps), []))
  }

  predicate CanLookUp(w: Setting, s: State, t: nat, presented: nat, seen: nat) {
    t !in s.threads && presented < |s.issued| && seen <= s.steps && (w.consistent ==> seen == s.steps)
  }

  function AfterLookup(s: State, t: nat, presented: nat, seen: nat): State
    requires presented < |s.issued|
  {
    if ShownRevoked(s, SerialNumber(s.issued[presented].cert), seen) then WithThread(s, t, Finished(None))
    else WithThread(s, t, Gated(presented, Gate(s.steps, seen)))
  }

  predicate CanPlan(s: State, t: nat, now: Moment) {
    t in s.threads && s.threads[t].Gated? && s.threads[t].presented < |s.issued| && now <= s.clock
  }

  function AfterPlan(w: Setting, s: State, t: nat, proof: Result<Proof, Error>, newKey: Option<Result<Bytes, Error>>,
                     hooks: seq<Hook>, now: Moment): State
    requires CanPlan(s, t, now)
  {
    var th := s.threads[t];
    match PlanReissue(w.ca, s.issued[th.presented].cert, proof, newKey, hooks, now)
    case Err(_) => WithThread(s, t, Finished(None))
    case Ok(plan) => WithThread(s, t, Claiming(plan, Some(th.presented), th.gate, []))
  }

  predicate CanClaim(s: State, t: nat, floorNow: Moment, stamp: Moment) {
    t in s.threads && s.threads[t].Claiming? && |s.threads[t].claims| <= |s.threads[t].plan.scopes|
    && floorNow <= stamp <= s.clock
  }

  function AfterClaim(w: Setting, s: State, t: nat, floorNow: Moment, stamp: Moment): State
    requires CanClaim(s, t, floorNow, stamp)
  {
    var th := s.threads[t];
    var req := NextRequest(th, floorNow, stamp);
    WithThread(WithClaim(w, s, req), t,
               if Free(s.store.tokens, req.key, stamp, w.slack)
               then Claiming(th.plan, th.parent, th.gate, th.claims + [|s.trace|]) else Finished(HeldBy(th)))
  }

  predicate CanIssue(s: State, t: nat, serial: Bytes) {
    t in s.threads && s.threads[t].Claiming? && |s.threads[t].claims| == |s.threads[t].plan.scopes| + 1 && GoodSerial(serial)
  }

  function AfterIssue(w: Setting, s: State, t: nat, serial: Bytes): State
    requires CanIssue(s, t, serial)
  {
    var th := s.threads[t];
    match Certify(w.ca, th.plan.work, serial)
    case None => WithThread(s, t, Finished(HeldBy(th)))
    case Some(cert) =>
      WithThread(s.(issued := s.issued + [Entry(cert, th.plan.work, th.parent)]), t,
                 Signed(th.plan, |s.issued|, th.gate, th.claims))
  }

  predicate CanRecord(s: State, t: nat) {
    t in s.threads && s.threads[t].Signed? && s.threads[t].entry < |s.issued|
  }

  function AfterRecord(w: Setting, s: State, t: nat): State
    requires CanRecord(s, t)
  {
    var th := s.threads[t];
    var (store, answer) := StorageContract.Step(s.store, RecordCertificate(RecordOf(th.plan.work, s.issued[th.entry].cert)), w.slack);
    WithThread(s.(store := store), t,
               if answer == Done then Returned(th.plan, th.entry, th.gate, th.claims) else Finished(HeldBy(th)))
  }

  function AfterRevoke(w: Setting, s: State, r: RevocationRecord): State {
    s.(store := StorageContract.Step(s.store, Revoke(r), w.slack).0,
       revokedAt := if r.serialNumber in s.revokedAt then s.revokedAt else s.revokedAt[r.serialNumber := s.steps])
  }

  ghost predicate Enabled(w: Setting, s: State, step: Step) {
    match step
    case Tick(to) => s.clock <= to
    case StartSign(t, req, _, now) => CanSign(s, t, req, now)
    case StartReissue(t, presented, seen) => CanLookUp(w, s, t, presented, seen)
    case PlanRenewal(t, _, _, _, now) => CanPlan(s, t, now)
    case ClaimNext(t, floorNow, stamp) => CanClaim(s, t, floorNow, stamp)
    case IssueNext(t, serial) => CanIssue(s, t, serial)
    case RecordNext(t) => CanRecord(s, t)
    case OtherClaim(other) => other.floorNow <= other.stamp <= s.clock
    case RevokeSerial(_) => true
    case Purge(_, stamp) => stamp <= s.clock
    case Abort(t) => t in s.threads && !s.threads[t].Returned?
  }

  ghost function Effect(w: Setting, s: State, step: Step): State
    requires Enabled(w, s, step)
  {
    match step
    case Tick(to) => s.(clock := to)
    case StartSign(t, req, hooks, now) => AfterSign(w, s, t, req, hooks, now)
    case StartReissue(t, presented, seen) => AfterLookup(s, t, presented, seen)
    case PlanRenewal(t, proof, newKey, hooks, now) => AfterPlan(w, s, t, proof, newKey, hooks, now)
    case ClaimNext(t, floorNow, stamp) => AfterClaim(w, s, t, floorNow, stamp)
    case IssueNext(t, serial) => AfterIssue(w, s, t, serial)
    case RecordNext(t) => AfterRecord(w, s, t)
    case OtherClaim(other) => WithClaim(w, s, other)
    case RevokeSerial(r) => AfterRevoke(w, s, r)
    case Purge(keys, stamp) => WithPurge(w, s, keys, stamp)
    case Abort(t) => WithThread(s, t, Finished(HeldBy(s.threads[t])))
  }

  function Counted(s: State): State {
    s.(steps := s.steps + 1)
  }

  ghost function Next(w: Setting, s: State, step: Step): State
    requires Enabled(w, s, step)
  {
    Counted(Effect(w, s, step))
  }

  /**
   No run is left out: requests begin, look up, plan, claim, issue, record and end in any order, with clocks
   read at any moment so far, between purges and revocations at any time.
   */
  lemma NoRunLeftOut(w: Setting, s: State, t: nat, read: Moment, stamp: Moment, step: Step)
    ensures After(w, []) == State(0, EMPTY_STORE, [], map[], [], map[], 0)
    ensures step.Tick? && s.clock <= step.to ==> Enabled(w, s, step)
    ensures step.RevokeSerial? ==> Enabled(w, s, step)
    ensures step.Purge? && step.stamp <= s.clock ==> Enabled(w, s, step)
    ensures step.OtherClaim? && step.other.floorNow <= step.other.stamp <= s.clock ==> Enabled(w, s, step)
    ensures step.StartSign? && step.t !in s.threads && step.now <= s.clock ==>
              (step.req.token.Ok? ==> TokenInRange(step.req.token.value)) ==> Enabled(w, s, step)
    ensures step.StartReissue? && step.t !in s.threads && step.presented < |s.issued| ==>
              step.seen == s.steps || (!w.consistent && step.seen <= s.steps) ==> Enabled(w, s, step)
    ensures t in s.threads ==>
              match s.threads[t]
              case Gated(presented, _) =>
                step.PlanRenewal? && step.t == t && step.now <= s.clock && presented < |s.issued| ==> Enabled(w, s, step)
              case Claiming(plan, _, _, claims) =>
                && (|claims| <= |plan.scopes| && read <= stamp <= s.clock ==> Enabled(w, s, ClaimNext(t, read, stamp)))
                && (|claims| == |plan.scopes| + 1 && step.IssueNext? && step.t == t && GoodSerial(step.serial) ==> Enabled(w, s, step))
                && Enabled(w, s, Abort(t))
              case Signed(_, entry, _, _) => Enabled(w, s, Abort(t)) && (entry < |s.issued| ==> Enabled(w, s, RecordNext(t)))
              case _ => true
  {
  }

  ghost predicate Legal(w: Setting, run: seq<Step>)
    decreases |run|, 0
  {
    run != [] ==>
      Legal(w, run[..|run| - 1]) && Enabled(w, After(w, run[..|run| - 1]), run[|run| - 1])
  }

  ghost function After(w: Setting, run: seq<Step>): State
    requires Legal(w, run)
    decreases |run|, 1
  {
    if run == [] then INITIAL else Next(w, After(w, run[..|run| - 1]), run[|run| - 1])
  }

  // ----- The invariant -----

  /** The work is bounded by its template, or descends from a live, renewable certificate. */
  ghost predicate WorkFits(issued: seq<Entry>, work: Work, parent: Option<nat>) {
    && 0 < work.window.Span()
    && match parent
       case None => work.origin.Fresh? && work.window.Span() <= work.origin.template.policy.Ceiling()
       case Some(p) =>
         && p < |issued| && work.origin.Again? && work.origin.parent == issued[p].cert
         && !IsMarkedNonRenewable(issued[p].cert)
         && work.window.notAfter <= work.issuedAt + Duration(CertWindow(issued[p].cert))
  }

  /** Distinct identifiers, the CA's own key identifiers, and the marker exactly when non-renewable. */
  ghost predicate WellShaped(ca: Authority, cert: Certificate, work: Work) {
    && E.SansEncodable(ca.der, work.sans)
    && DistinctOids(cert.extensions)
    && Lookup(cert.extensions, SubjectKeyIdOid) == Some(E.SubjectKeyIdExtension(ca.der, cert.spki))
    && Lookup(cert.extensions, AuthorityKeyIdOid) == Some(E.AuthorityKeyIdExtension(ca.der, ca.caKeyId))
    && Lookup(cert.extensions, NonRenewableOid) == (if work.renewable then None else Some(NON_RENEWABLE_EXTENSION))
  }

  ghost predicate EntryOk(w: Setting, issued: seq<Entry>, i: nat)
    requires i < |issued|
  {
    var e := issued[i];
    && Certify(w.ca, e.work, e.cert.serial) == Some(e.cert)
    && WorkFits(issued[..i], e.work, e.parent)
    && WellShaped(w.ca, e.cert, e.work)
  }

  ghost predicate GateOk(w: Setting, s: State, gate: Gate) {
    gate.seen <= gate.at < s.steps && (w.consistent ==> gate.seen == gate.at)
  }

  /** The version looked up does not reflect any revocation of the parent. */
  ghost predicate LookupPrecedesRevocation(s: State, parent: Option<nat>, gate: Gate) {
    parent.Some? ==>
      parent.value < |s.issued| && !ShownRevoked(s, SerialNumber(s.issued[parent.value].cert), gate.seen)
  }

  /** The plan's claim number `k` was made at `i` of the trace, successfully and for long enough. */
  ghost predicate Claimed(w: Setting, s: State, plan: Plan, k: nat, i: nat)
    requires k <= |plan.scopes|
  {
    && i < |s.trace| && s.trace[i].Claim?
    && s.trace[i].key == PlannedClaim(plan, k).0 && s.trace[i].expiresAt >= PlannedClaim(plan, k).1
    && Denylist.SucceededAt(s.trace, i, w.slack)
  }

  /** A proof's claim outlasts its verification by the replay leeway. */
  predicate ProofLasts(plan: Plan) {
    plan.work.origin.Again? ==> plan.jtiExpiry >= plan.work.issuedAt + REPLAY_LEEWAY
  }

  ghost predicate HeldOk(w: Setting, s: State, held: Option<Held>) {
    held.Some? ==>
      var (plan, claims) := (held.value.plan, held.value.claims);
      && ProofLasts(plan) && |claims| <= |plan.scopes| + 1
      && forall k :: 0 <= k < |claims| ==> Claimed(w, s, plan, k, claims[k])
  }

  ghost predicate EntryOf(s: State, plan: Plan, entry: nat) {
    entry < |s.issued| && s.issued[entry].work == plan.work
  }

  ghost predicate Recorded(s: State, entry: nat)
    requires entry < |s.issued|
  {
    var e := s.issued[entry];
    SerialNumber(e.cert) in s.store.certificates && s.store.certificates[SerialNumber(e.cert)] == RecordOf(e.work, e.cert)
  }

  /** What a request knows at its present stage, apart from its claims. */
  ghost predicate StageOk(w: Setting, s: State, th: Thread) {
    match th
    case Gated(presented, gate) => GateOk(w, s, gate) && LookupPrecedesRevocation(s, Some(presented), gate)
    case Claiming(plan, parent, gate, _) =>
      GateOk(w, s, gate) && LookupPrecedesRevocation(s, parent, gate) && WorkFits(s.issued, plan.work, parent)
    case Signed(plan, entry, gate, claims) => EntryStage(w, s, plan, entry, gate, claims)
    case Returned(plan, entry, gate, claims) => EntryStage(w, s, plan, entry, gate, claims) && Recorded(s, entry)
    case Finished(_) => true
  }

  ghost predicate EntryStage(w: Setting, s: State, plan: Plan, entry: nat, gate: Gate, claims: seq<nat>) {
    && GateOk(w, s, gate) && EntryOf(s, plan, entry) && LookupPrecedesRevocation(s, s.issued[entry].parent, gate)
    && |claims| == |plan.scopes| + 1
  }

  ghost predicate ThreadOk(w: Setting, s: State, th: Thread) {
    StageOk(w, s, th) && HeldOk(w, s, HeldBy(th))
  }

  /** Each claim in the trace was made by one request, and a request's claims are in order. */
  ghost predicate OwnClaims(s: State) {
    && (forall t, u, i :: t in s.threads && u in s.threads && i in ClaimsOf(s.threads[t]) && i in ClaimsOf(s.threads[u]) ==> t == u)
    && (forall t :: t in s.threads ==> Ascending(ClaimsOf(s.threads[t]), |s.trace|))
  }

  predicate Ascending(claims: seq<nat>, limit: nat) {
    && (forall k, l :: 0 <= k < l < |claims| ==> claims[k] < claims[l])
    && (forall i :: i in claims ==> i < limit)
  }

  /** The token table is the denylist the trace builds. */
  ghost predicate TraceOk(w: Setting, s: State) {
    && Denylist.Concurrent(s.trace)
    && (s.trace != [] ==> s.trace[|s.trace| - 1].commit <= s.clock)
    && Denylist.TokensHeld(s.store.tokens, Denylist.After(s.trace, w.slack), w.slack)
  }

  ghost predicate RevocationsDated(s: State) {
    s.revokedAt.Keys == s.store.revocations.Keys && forall k :: k in s.revokedAt ==> s.revokedAt[k] < s.steps
  }

  ghost predicate EntriesOk(w: Setting, issued: seq<Entry>) {
    forall i :: 0 <= i < |issued| ==> EntryOk(w, issued, i)
  }

  ghost predicate ThreadsOk(w: Setting, s: State) {
    forall t :: t in s.threads ==> ThreadOk(w, s, s.threads[t])
  }

  ghost predicate Inv(w: Setting, s: State) {
    TraceOk(w, s) && RevocationsDated(s) && EntriesOk(w, s.issued) && ThreadsOk(w, s) && OwnClaims(s)
  }

  // ----- What a step can only add -----

  ghost predicate Grows(s: State, s': State) {
    && s.issued <= s'.issued && s.trace <= s'.trace && s.steps < s'.steps
    && (forall k :: k in s.store.certificates ==> k in s'.store.certificates && s'.store.certificates[k] == s.store.certificates[k])
    && (forall k :: k in s.revokedAt ==> k in s'.revokedAt && s'.revokedAt[k] == s.revokedAt[k])
    && (forall k :: k in s'.revokedAt && k !in s.revokedAt ==> s'.revokedAt[k] >= s.steps)
  }

  lemma ClaimedStays(w: Setting, s: State, s': State, plan: Plan, k: nat, i: nat)
    requires k <= |plan.scopes| && s.trace <= s'.trace && Claimed(w, s, plan, k, i)
    ensures Claimed(w, s', plan, k, i)
  {
    assert s'.trace[..i] == s.trace[..i];
  }

  lemma HeldStays(w: Setting, s: State, s': State, held: Option<Held>)
    requires s.trace <= s'.trace && HeldOk(w, s, held)
    ensures HeldOk(w, s', held)
  {
    if held.Some? {
      var plan, claims := held.value.plan, held.value.claims;
      forall k | 0 <= k < |claims| ensures Claimed(w, s', plan, k, claims[k]) {
        ClaimedStays(w, s, s', plan, k, claims[k]);
      }
    }
  }

  lemma ThreadStays(w: Setting, s: State, s': State, th: Thread)
    requires Grows(s, s') && ThreadOk(w, s, th)
    ensures ThreadOk(w, s', th)
  {
    HeldStays(w, s, s', HeldBy(th));
  }

  /** One thread moves, the others are carried along. */
  lemma ThreadsStay(w: Setting, s: State, s': State, t: nat)
    requires ThreadsOk(w, s) && Grows(s, s')
    requires t in s'.threads && ThreadOk(w, s', s'.threads[t])
    requires forall u :: u in s'.threads && u != t ==> u in s.threads && s'.threads[u] == s.threads[u]
    ensures ThreadsOk(w, s')
  {
    forall u | u in s'.threads ensures ThreadOk(w, s', s'.threads[u]) {
      if u != t { ThreadStays(w, s, s', s.threads[u]); }
    }
  }

  lemma AllThreadsStay(w: Setting, s: State, s': State)
    requires ThreadsOk(w, s) && Grows(s, s') && s'.threads == s.threads
    ensures ThreadsOk(w, s')
  {
    forall u | u in s'.threads ensures ThreadOk(w, s', s'.threads[u]) {
      ThreadStays(w, s, s', s.threads[u]);
    }
  }

  lemma Ascends(claims: seq<nat>, limit: nat)
    requires Ascending(claims, limit)
    ensures Ascending(claims + [limit], limit + 1)
  {
    var more := claims + [limit];
    forall k, l | 0 <= k < l < |more| ensures more[k] < more[l] {
      assert more[k] in claims;
    }
  }

  function ClaimsBefore(s: State, t: nat): seq<nat> {
    if t in s.threads then ClaimsOf(s.threads[t]) else []
  }

  /** A thread that keeps its claims, drops them, or adds the newest one, shares none with another. */
  lemma OwnClaimsStay(s: State, s': State, t: nat)
    requires OwnClaims(s) && s.trace <= s'.trace
    requires t in s'.threads
    requires forall u :: u in s'.threads && u != t ==> u in s.threads && s'.threads[u] == s.threads[u]
    requires
      var claims := ClaimsOf(s'.threads[t]);
      || claims == [] || claims == ClaimsBefore(s, t)
      || (claims == ClaimsBefore(s, t) + [|s.trace|] && |s.trace| < |s'.trace|)
    ensures OwnClaims(s')
  {
    var claims := ClaimsOf(s'.threads[t]);
    forall i | i in claims ensures i in ClaimsBefore(s, t) || i == |s.trace| {
    }
    forall u, v, i | u in s'.threads && v in s'.threads && i in ClaimsOf(s'.threads[u]) && i in ClaimsOf(s'.threads[v])
      ensures u == v
    {
      if u != t { assert i < |s.trace|; }
      if v != t { assert i < |s.trace|; }
    }
    assert Ascending(ClaimsBefore(s, t), |s.trace|);
    Ascends(ClaimsBefore(s, t), |s.trace|);
    assert Ascending(claims, |s'.trace|);
    forall u | u in s'.threads ensures Ascending(ClaimsOf(s'.threads[u]), |s'.trace|) {
      if u != t { assert Ascending(ClaimsOf(s.threads[u]), |s.trace|); }
    }
  }

  // ----- Each kind of step keeps the invariant -----

  /** An event committed now extends the trace, and the tokens follow it. */
  lemma TraceExtends(w: Setting, s: State, s': State, e: Denylist.Event)
    requires TraceOk(w, s) && e.stamp <= e.commit == s.clock == s'.clock && s'.trace == s.trace + [e]
    requires Denylist.TokensHeld(s'.store.tokens, Denylist.Apply(Denylist.After(s.trace, w.slack), e, w.slack), w.slack)
    ensures TraceOk(w, s')
  {
    Denylist.OneMoreEvent(s.trace, e, w.slack);
  }

  /** A claim succeeds by the trace exactly when the table has its key free. */
  lemma ClaimFollows(w: Setting, s: State, req: ClaimRequest)
    requires TraceOk(w, s)
    ensures Denylist.Succeeds(Denylist.After(s.trace, w.slack), EventOf(req, s.clock)) <==> Free(s.store.tokens, req.key, req.stamp, w.slack)
  {
  }

  /** Once a claim has landed, only threads may differ besides. */
  lemma ClaimLands(w: Setting, s: State, req: ClaimRequest, s': State)
    requires TraceOk(w, s) && RevocationsDated(s) && req.stamp <= s.clock
    requires s' == Counted(WithClaim(w, s, req)).(threads := s'.threads)
    ensures TraceOk(w, s') && RevocationsDated(s') && Grows(s, s') && s'.issued == s.issued
  {
    ClaimFollows(w, s, req);
    TraceExtends(w, s, s', EventOf(req, s.clock));
  }

  /** One thread moves on, to a stage it is fit for and with no new claim, while everything else can only grow. */
  lemma OneThreadGrows(w: Setting, s: State, s': State, t: nat)
    requires Inv(w, s) && Grows(s, s') && TraceOk(w, s') && RevocationsDated(s') && EntriesOk(w, s'.issued)
    requires t in s'.threads && s'.threads == s.threads[t := s'.threads[t]]
    requires StageOk(w, s', s'.threads[t])
    requires HeldBy(s'.threads[t]) == (if t in s.threads then HeldBy(s.threads[t]) else None)
    ensures Inv(w, s')
  {
    if t in s.threads {
      assert ThreadOk(w, s, s.threads[t]);
      HeldStays(w, s, s', HeldBy(s.threads[t]));
    }
    ThreadsStay(w, s, s', t);
    OwnClaimsStay(s, s', t);
  }

  lemma OneThreadMoves(w: Setting, s: State, s': State, t: nat)
    requires Inv(w, s) && t in s'.threads && s' == Counted(WithThread(s, t, s'.threads[t]))
    requires StageOk(w, s', s'.threads[t])
    requires
      var held := if t in s.threads then HeldBy(s.threads[t]) else None;
      HeldBy(s'.threads[t]) == held || NewlyPlanned(held, HeldBy(s'.threads[t]))
    ensures Inv(w, s')
  {
    if t in s.threads {
      assert ThreadOk(w, s, s.threads[t]);
      HeldStays(w, s, s', HeldBy(s.threads[t]));
    }
    ThreadsStay(w, s, s', t);
    OwnClaimsStay(s, s', t);
  }

  /** A plan just made, with nothing claimed yet. */
  ghost predicate NewlyPlanned(before: Option<Held>, after: Option<Held>) {
    before.None? && after.Some? && after.value.claims == [] && ProofLasts(after.value.plan)
  }

  lemma SignStep(w: Setting, s: State, t: nat, req: SignRequest, hooks: seq<Hook>, now: Moment)
    requires Inv(w, s) && CanSign(s, t, req, now)
    ensures Inv(w, Counted(AfterSign(w, s, t, req, hooks, now)))
  {
    if PlanSign(w.cfg, req, hooks, now).Ok? {
      SignPlanBounded(w.cfg, req, hooks, now);
    }
    OneThreadMoves(w, s, Counted(AfterSign(w, s, t, req, hooks, now)), t);
  }

  lemma LookupStep(w: Setting, s: State, t: nat, presented: nat, seen: nat)
    requires Inv(w, s) && CanLookUp(w, s, t, presented, seen)
    ensures Inv(w, Counted(AfterLookup(s, t, presented, seen)))
  {
    OneThreadMoves(w, s, Counted(AfterLookup(s, t, presented, seen)), t);
  }

  lemma PlanStep(w: Setting, s: State, t: nat, proof: Result<Proof, Error>, newKey: Option<Result<Bytes, Error>>,
                 hooks: seq<Hook>, now: Moment)
    requires Inv(w, s) && CanPlan(s, t, now)
    ensures Inv(w, Counted(AfterPlan(w, s, t, proof, newKey, hooks, now)))
  {
    assert ThreadOk(w, s, s.threads[t]);
    var cert := s.issued[s.threads[t].presented].cert;
    if PlanReissue(w.ca, cert, proof, newKey, hooks, now).Ok? {
      ReissuePlanBounded(w.ca, cert, proof, newKey, hooks, now);
    }
    OneThreadMoves(w, s, Counted(AfterPlan(w, s, t, proof, newKey, hooks, now)), t);
  }

  /** A claim that succeeds is on record as the thread's own from then on. */
  lemma NewClaim(w: Setting, s: State, s': State, plan: Plan, k: nat, req: ClaimRequest)
    requires TraceOk(w, s) && s'.trace == s.trace + [EventOf(req, s.clock)]
    requires k <= |plan.scopes| && req.key == PlannedClaim(plan, k).0 && req.wanted == PlannedClaim(plan, k).1
    requires Free(s.store.tokens, req.key, req.stamp, w.slack)
    ensures Claimed(w, s', plan, k, |s.trace|)
  {
    ClaimFollows(w, s, req);
    assert s'.trace[..|s.trace|] == s.trace;
  }

  lemma ClaimThread(w: Setting, s: State, t: nat, floorNow: Moment, stamp: Moment)
    requires TraceOk(w, s) && CanClaim(s, t, floorNow, stamp) && HeldOk(w, s, HeldBy(s.threads[t]))
    ensures
      var s' := Counted(AfterClaim(w, s, t, floorNow, stamp));
      HeldOk(w, s', HeldBy(s'.threads[t]))
  {
    var s', th := Counted(AfterClaim(w, s, t, floorNow, stamp)), s.threads[t];
    var req := NextRequest(th, floorNow, stamp);
    HeldStays(w, s, s', HeldBy(th));
    if Free(s.store.tokens, req.key, stamp, w.slack) {
      NewClaim(w, s, s', th.plan, |th.claims|, req);
    }
  }

  lemma ClaimStep(w: Setting, s: State, t: nat, floorNow: Moment, stamp: Moment)
    requires Inv(w, s) && CanClaim(s, t, floorNow, stamp)
    ensures Inv(w, Counted(AfterClaim(w, s, t, floorNow, stamp)))
  {
    var s' := Counted(AfterClaim(w, s, t, floorNow, stamp));
    assert ThreadOk(w, s, s.threads[t]);
    ClaimThread(w, s, t, floorNow, stamp);
    ClaimLands(w, s, NextRequest(s.threads[t], floorNow, stamp), s');
    ThreadsStay(w, s, s', t);
    OwnClaimsStay(s, s', t);
  }

  lemma OtherClaimStep(w: Setting, s: State, other: ClaimRequest)
    requires Inv(w, s) && other.floorNow <= other.stamp <= s.clock
    ensures Inv(w, Counted(WithClaim(w, s, other)))
  {
    var s' := Counted(WithClaim(w, s, other));
    ClaimLands(w, s, other, s');
    AllThreadsStay(w, s, s');
  }

  lemma PurgeStep(w: Setting, s: State, keys: set<string>, stamp: Moment)
    requires Inv(w, s) && stamp <= s.clock
    ensures Inv(w, Counted(WithPurge(w, s, keys, stamp)))
  {
    var s' := Counted(WithPurge(w, s, keys, stamp));
    TraceExtends(w, s, s', Denylist.Purge(keys, stamp, s.clock));
    AllThreadsStay(w, s, s');
  }

  /** Issuing keeps the certificates already made, and the new one is well shaped. */
  lemma NewEntryOk(w: Setting, issued: seq<Entry>, work: Work, parent: Option<nat>, serial: Bytes)
    requires EntriesOk(w, issued) && WorkFits(issued, work, parent) && Certify(w.ca, work, serial).Some?
    ensures EntriesOk(w, issued + [Entry(Certify(w.ca, work, serial).value, work, parent)])
  {
    var cert := Certify(w.ca, work, serial).value;
    var issued' := issued + [Entry(cert, work, parent)];
    CertifiedShape(w, issued, work, parent, serial);
    forall i | 0 <= i < |issued'| ensures EntryOk(w, issued', i) {
      if i < |issued| {
        assert EntryOk(w, issued, i);
        assert issued'[..i] == issued[..i];
      } else {
        assert issued'[..i] == issued;
      }
    }
  }

  lemma ExtensionsShape(w: Setting, issued: seq<Entry>, work: Work, parent: Option<nat>, oid: Oid)
    requires EntriesOk(w, issued) && WorkFits(issued, work, parent) && E.SansEncodable(w.ca.der, work.sans)
    requires oid == SubjectKeyIdOid || oid == AuthorityKeyIdOid || oid == NonRenewableOid
    ensures DistinctOids(ExtensionsOf(w.ca, work))
    ensures Lookup(ExtensionsOf(w.ca, work), oid)
            == if oid == SubjectKeyIdOid then Some(E.SubjectKeyIdExtension(w.ca.der, work.spki))
               else if oid == AuthorityKeyIdOid then Some(E.AuthorityKeyIdExtension(w.ca.der, w.ca.caKeyId))
               else if work.renewable then None else Some(NON_RENEWABLE_EXTENSION)
  {
    var ca, empty := w.ca, SubjectOf(work).None?;
    match work.origin
    case Fresh(template, _) =>
      E.IssuedCarries(ca.der, template.profile, work.spki, work.sans, ca.caKeyId, empty, work.overrides, work.renewable, oid);
    case Again(old', _, _) =>
      assert EntryOk(w, issued, parent.value);
      E.ReissuedCarries(ca.der, old'.extensions, work.spki, work.sans, ca.caKeyId, empty, work.overrides, work.renewable, oid);
  }

  lemma CertifiedShape(w: Setting, issued: seq<Entry>, work: Work, parent: Option<nat>, serial: Bytes)
    requires EntriesOk(w, issued) && WorkFits(issued, work, parent) && Certify(w.ca, work, serial).Some?
    ensures WellShaped(w.ca, Certify(w.ca, work, serial).value, work)
  {
    ExtensionsShape(w, issued, work, parent, SubjectKeyIdOid);
    ExtensionsShape(w, issued, work, parent, AuthorityKeyIdOid);
    ExtensionsShape(w, issued, work, parent, NonRenewableOid);
  }

  lemma IssueStep(w: Setting, s: State, t: nat, serial: Bytes)
    requires Inv(w, s) && CanIssue(s, t, serial)
    ensures Inv(w, Counted(AfterIssue(w, s, t, serial)))
  {
    var s', th := Counted(AfterIssue(w, s, t, serial)), s.threads[t];
    assert ThreadOk(w, s, th);
    if Certify(w.ca, th.plan.work, serial).None? {
      OneThreadMoves(w, s, s', t);
    } else {
      NewEntryOk(w, s.issued, th.plan.work, th.parent, serial);
      OneThreadGrows(w, s, s', t);
    }
  }

  lemma RecordStep(w: Setting, s: State, t: nat)
    requires Inv(w, s) && CanRecord(s, t)
    ensures Inv(w, Counted(AfterRecord(w, s, t)))
  {
    assert ThreadOk(w, s, s.threads[t]);
    OneThreadGrows(w, s, Counted(AfterRecord(w, s, t)), t);
  }

  lemma RevokeStep(w: Setting, s: State, r: RevocationRecord)
    requires Inv(w, s)
    ensures Inv(w, Counted(AfterRevoke(w, s, r)))
  {
    AllThreadsStay(w, s, Counted(AfterRevoke(w, s, r)));
  }

  lemma TickStep(w: Setting, s: State, to: Moment)
    requires Inv(w, s) && s.clock <= to
    ensures Inv(w, Counted(s.(clock := to)))
  {
    AllThreadsStay(w, s, Counted(s.(clock := to)));
  }

  lemma AbortStep(w: Setting, s: State, t: nat)
    requires Inv(w, s) && t in s.threads && !s.threads[t].Returned?
    ensures Inv(w, Counted(WithThread(s, t, Finished(HeldBy(s.threads[t])))))
  {
    OneThreadMoves(w, s, Counted(WithThread(s, t, Finished(HeldBy(s.threads[t])))), t);
  }

  lemma StepKeepsInv(w: Setting, s: State, step: Step)
    requires Inv(w, s) && Enabled(w, s, step)
    ensures Inv(w, Next(w, s, step))
  {
    match step
    case StartSign(t, req, hooks, now) => SignStep(w, s, t, req, hooks, now);
    case StartReissue(t, presented, seen) => LookupStep(w, s, t, presented, seen);
    case PlanRenewal(t, proof, newKey, hooks, now) => PlanStep(w, s, t, proof, newKey, hooks, now);
    case ClaimNext(t, floorNow, stamp) => ClaimStep(w, s, t, floorNow, stamp);
    case IssueNext(t, serial) => IssueStep(w, s, t, serial);
    case RecordNext(t) => RecordStep(w, s, t);
    case OtherClaim(other) => OtherClaimStep(w, s, other);
    case RevokeSerial(r) => RevokeStep(w, s, r);
    case Purge(keys, stamp) => PurgeStep(w, s, keys, stamp);
    case Tick(to) => TickStep(w, s, to);
    case Abort(t) => AbortStep(w, s, t);
  }

  /** The invariant holds after every legal run. */
  lemma {:induction false} AlwaysInv(w: Setting, run: seq<Step>)
    requires Legal(w, run)
    ensures Inv(w, After(w, run))
  {
    if run != [] {
      AlwaysInv(w, run[..|run| - 1]);
      StepKeepsInv(w, After(w, run[..|run| - 1]), run[|run| - 1]);
    }
  }

  // ----- Safety over every run -----

  lemma MarkerMeaning(cert: Certificate)
    ensures Lookup(cert.extensions, NonRenewableOid) == None ==> !IsMarkedNonRenewable(cert)
    ensures Lookup(cert.extensions, NonRenewableOid) == Some(NON_RENEWABLE_EXTENSION) ==> IsMarkedNonRenewable(cert)
  {
  }

  /** The inventory record of a certificate, field by field. */
  ghost predicate RecordsIt(record: CertificateRecord, cert: Certificate, work: Work) {
    && record.pem == cert && record.serialNumber == SerialNumber(cert)
    && record.notBefore == cert.notBefore && record.notAfter == cert.notAfter
    && (record.renewable <==> !IsMarkedNonRenewable(cert))
    && record.sans == work.sans && record.subject == work.commonName && record.issuedAt == work.issuedAt
    && (work.origin.Fresh? ==> record.operation == "sign" && record.provisioner == Some(work.origin.provisioner))
    && (work.origin.Again? ==> record.operation == (if work.origin.rekey then "rekey" else "renew") && record.provisioner.None?)
  }

  /** A returned certificate is in the inventory under its serial, field by field, and marked exactly when its record says so. */
  lemma ReturnedIsRecorded(w: Setting, run: seq<Step>, t: nat)
    requires Legal(w, run) && t in After(w, run).threads && After(w, run).threads[t].Returned?
    ensures
      var s := After(w, run);
      var entry := s.threads[t].entry;
      && entry < |s.issued|
      && var cert := s.issued[entry].cert;
         && SerialNumber(cert) in s.store.certificates
         && RecordsIt(s.store.certificates[SerialNumber(cert)], cert, s.threads[t].plan.work)
  {
    var s := After(w, run);
    AlwaysInv(w, run);
    assert ThreadOk(w, s, s.threads[t]);
    assert EntryOk(w, s.issued, s.threads[t].entry);
    MarkerMeaning(s.issued[s.threads[t].entry].cert);
  }

  /** Whatever hooks inject: no duplicate extension, and the CA's own key identifiers. */
  lemma EveryCertificateWellShaped(w: Setting, run: seq<Step>, i: nat)
    requires Legal(w, run) && i < |After(w, run).issued|
    ensures WellShaped(w.ca, After(w, run).issued[i].cert, After(w, run).issued[i].work)
  {
    AlwaysInv(w, run);
    assert EntryOk(w, After(w, run).issued, i);
  }

  /** `a` is `i` reached through one or more reissues. */
  ghost predicate Ancestor(issued: seq<Entry>, a: nat, i: nat)
    decreases i
  {
    i < |issued| && issued[i].parent.Some? && issued[i].parent.value < i
    && (a == issued[i].parent.value || Ancestor(issued, a, issued[i].parent.value))
  }

  /** Non-renewable is final: nothing descends from a marked certificate. */
  lemma {:induction false} NoMarkedAncestor(w: Setting, run: seq<Step>, a: nat, i: nat)
    requires Legal(w, run) && Ancestor(After(w, run).issued, a, i)
    ensures a < |After(w, run).issued| && !IsMarkedNonRenewable(After(w, run).issued[a].cert)
    decreases i
  {
    AlwaysInv(w, run);
    var issued := After(w, run).issued;
    assert EntryOk(w, issued, i);
    var p := issued[i].parent.value;
    if a != p { NoMarkedAncestor(w, run, a, p); }
  }

  /**
   A returned reissue looked its parent up in a version no younger than any revocation of it. When
   lookups are current, that is the lookup itself: no renewal succeeds whose lookup follows a revocation.
   */
  lemma RevokedIsNotRenewed(w: Setting, run: seq<Step>, t: nat)
    requires Legal(w, run) && t in After(w, run).threads && After(w, run).threads[t].Returned?
    ensures
      var s := After(w, run);
      var th := s.threads[t];
      && th.entry < |s.issued| && th.gate.seen <= th.gate.at && (w.consistent ==> th.gate.seen == th.gate.at)
      && (s.issued[th.entry].parent.Some? ==>
            var p := s.issued[th.entry].parent.value;
            p < |s.issued|
            && (SerialNumber(s.issued[p].cert) in s.store.revocations
                ==> SerialNumber(s.issued[p].cert) in s.revokedAt && th.gate.seen <= s.revokedAt[SerialNumber(s.issued[p].cert)]))
  {
    var s := After(w, run);
    AlwaysInv(w, run);
    assert ThreadOk(w, s, s.threads[t]);
  }

  /** A lookup stops a reissue exactly when the version it sees reflects a revocation of the serial. */
  lemma LookupStops(w: Setting, run: seq<Step>, t: nat, presented: nat, seen: nat)
    requires Legal(w, run) && CanLookUp(w, After(w, run), t, presented, seen)
    ensures
      var s := After(w, run);
      var serial := SerialNumber(s.issued[presented].cert);
      var stopped := AfterLookup(s, t, presented, seen).threads[t] == Finished(None);
      && (stopped <==> serial in s.revokedAt && s.revokedAt[serial] < seen)
      && (seen == s.steps ==> (stopped <==> serial in s.store.revocations))
  {
    AlwaysInv(w, run);
  }

  /** Steps from any state, one after the other. */
  ghost predicate Leads(w: Setting, s: State, steps: seq<Step>, s': State)
    decreases |steps|
  {
    if steps == [] then s' == s
    else Enabled(w, s, steps[0]) && Leads(w, Next(w, s, steps[0]), steps[1..], s')
  }

  lemma {:induction false} RunsOn(w: Setting, run: seq<Step>, steps: seq<Step>, s': State)
    requires Legal(w, run) && Leads(w, After(w, run), steps, s')
    ensures Legal(w, run + steps) && After(w, run + steps) == s'
    decreases |steps|
  {
    if steps == [] {
      assert run + steps == run;
    } else {
      var longer := run + [steps[0]];
      assert longer[..|run|] == run;
      assert longer + steps[1..] == run + steps;
      RunsOn(w, longer, steps[1..], s');
    }
  }

  lemma LeadsOn(w: Setting, s: State, step: Step, rest: seq<Step>, s': State)
    requires Enabled(w, s, step) && Leads(w, Next(w, s, step), rest, s')
    ensures Leads(w, s, [step] + rest, s')
  {
    assert ([step] + rest)[1..] == rest;
  }

  /** All a renewal without scopes needs, apart from its revocation lookup. */
  ghost predicate WouldRenew(w: Setting, s: State, presented: nat, proof: Result<Proof, Error>, now: Moment, serial: Bytes) {
    && presented < |s.issued| && now <= s.clock && GoodSerial(serial)
    && var plan := PlanReissue(w.ca, s.issued[presented].cert, proof, None, [], now);
    && plan.Ok? && Free(s.store.tokens, plan.value.jtiKey, s.clock, w.slack)
    && Certify(w.ca, plan.value.work, serial).Some?
    && SerialNumber(Certify(w.ca, plan.value.work, serial).value) !in s.store.certificates
  }

  /** The five steps of a renewal whose lookup reflects the first `seen` steps. */
  function RenewalSteps(s: State, t: nat, presented: nat, seen: nat, proof: Result<Proof, Error>, now: Moment, serial: Bytes): seq<Step> {
    [StartReissue(t, presented, seen), PlanRenewal(t, proof, None, [], now)] + CommitSteps(s, t, serial)
  }

  function CommitSteps(s: State, t: nat, serial: Bytes): seq<Step> {
    [ClaimNext(t, s.clock, s.clock), IssueNext(t, serial), RecordNext(t)]
  }

  /** A renewed certificate has been returned, and the certificate it was renewed from is this one. */
  ghost predicate Renewed(s': State, t: nat, presented: nat) {
    && t in s'.threads && s'.threads[t].Returned? && s'.threads[t].entry < |s'.issued|
    && s'.issued[s'.threads[t].entry].parent == Some(presented)
  }

  /**
   The condition is exact: on a backend whose lookups may trail, after any run, a certificate revoked at
   or after the version its renewal looks up is renewed all the same.
   */
  lemma TrailingLookupRenews(w: Setting, run: seq<Step>, t: nat, presented: nat, seen: nat, proof: Result<Proof, Error>, now: Moment, serial: Bytes)
    requires Legal(w, run) && !w.consistent && t !in After(w, run).threads && seen <= After(w, run).steps
    requires WouldRenew(w, After(w, run), presented, proof, now, serial)
    requires
      var s := After(w, run);
      var revoked := SerialNumber(s.issued[presented].cert);
      revoked in s.store.revocations && revoked in s.revokedAt && seen <= s.revokedAt[revoked]
    ensures
      var longer := run + RenewalSteps(After(w, run), t, presented, seen, proof, now, serial);
      Legal(w, longer) && Renewed(After(w, longer), t, presented)
  {
    var s := After(w, run);
    var s' := LookedUpAndRenewed(w, s, t, presented, seen, proof, now, serial);
    RunsOn(w, run, RenewalSteps(s, t, presented, seen, proof, now, serial), s');
  }

  /** Nothing stands between a planned renewal without scopes and its certificate. */
  ghost predicate ReadyToRenew(w: Setting, s: State, t: nat, serial: Bytes) {
    && t in s.threads && GoodSerial(serial)
    && var th := s.threads[t];
    && th.Claiming? && th.claims == [] && th.plan.scopes == [] && Free(s.store.tokens, th.plan.jtiKey, s.clock, w.slack)
    && Certify(w.ca, th.plan.work, serial).Some?
    && SerialNumber(Certify(w.ca, th.plan.work, serial).value) !in s.store.certificates
  }

  lemma LookedUpAndPlanned(w: Setting, s: State, t: nat, presented: nat, seen: nat, proof: Result<Proof, Error>, now: Moment, serial: Bytes)
    requires CanLookUp(w, s, t, presented, seen) && WouldRenew(w, s, presented, proof, now, serial)
    requires !ShownRevoked(s, SerialNumber(s.issued[presented].cert), seen)
    ensures
      var s1 := Counted(AfterLookup(s, t, presented, seen));
      && CanPlan(s1, t, now) && var s2 := Counted(AfterPlan(w, s1, t, proof, None, [], now));
      && ReadyToRenew(w, s2, t, serial) && s2.threads[t].parent == Some(presented) && s2.clock == s.clock
  {
    HooklessPlan(w.ca, s.issued[presented].cert, proof, None, now);
    var s1 := Counted(AfterLookup(s, t, presented, seen));
    assert s1.threads[t] == Gated(presented, Gate(s.steps, seen));
  }

  lemma LookedUpAndRenewed(w: Setting, s: State, t: nat, presented: nat, seen: nat, proof: Result<Proof, Error>, now: Moment, serial: Bytes)
    returns (s': State)
    requires CanLookUp(w, s, t, presented, seen) && WouldRenew(w, s, presented, proof, now, serial)
    requires !ShownRevoked(s, SerialNumber(s.issued[presented].cert), seen)
    ensures Leads(w, s, RenewalSteps(s, t, presented, seen, proof, now, serial), s') && Renewed(s', t, presented)
  {
    LookedUpAndPlanned(w, s, t, presented, seen, proof, now, serial);
    var lookup, plan := StartReissue(t, presented, seen), PlanRenewal(t, proof, None, [], now);
    var s1 := Counted(AfterLookup(s, t, presented, seen));
    var s2 := Counted(AfterPlan(w, s1, t, proof, None, [], now));
    var rest := CommitSteps(s, t, serial);
    s' := CommittedRenewal(w, s2, t, presented, serial);
    assert CommitSteps(s2, t, serial) == rest;
    LeadsOn(w, s1, plan, rest, s');
    LeadsOn(w, s, lookup, [plan] + rest, s');
    assert [lookup, plan] + rest == [lookup] + ([plan] + rest);
  }

  lemma CommittedRenewal(w: Setting, s: State, t: nat, presented: nat, serial: Bytes) returns (s': State)
    requires ReadyToRenew(w, s, t, serial) && s.threads[t].parent == Some(presented)
    ensures Leads(w, s, CommitSteps(s, t, serial), s') && Renewed(s', t, presented)
  {
    var claim, rest := ClaimNext(t, s.clock, s.clock), [IssueNext(t, serial), RecordNext(t)];
    var s1 := Counted(AfterClaim(w, s, t, s.clock, s.clock));
    s' := IssuedAndRecorded(w, s1, t, presented, serial);
    LeadsOn(w, s, claim, rest, s');
    assert CommitSteps(s, t, serial) == [claim] + rest;
  }

  lemma IssuedAndRecorded(w: Setting, s: State, t: nat, presented: nat, serial: Bytes) returns (s': State)
    requires CanIssue(s, t, serial) && s.threads[t].parent == Some(presented)
    requires
      var cert := Certify(w.ca, s.threads[t].plan.work, serial);
      cert.Some? && SerialNumber(cert.value) !in s.store.certificates
    ensures Leads(w, s, [IssueNext(t, serial), RecordNext(t)], s') && Renewed(s', t, presented)
  {
    var issue, record := IssueNext(t, serial), RecordNext(t);
    var s1 := Counted(AfterIssue(w, s, t, serial));
    s' := Counted(AfterRecord(w, s1, t));
    assert [record] == [record] + [] && [issue, record] == [issue] + [record];
    LeadsOn(w, s1, record, [], s');
    LeadsOn(w, s, issue, [record], s');
  }

  /**
   Whoever claims it, for issuance, revocation or a scope: two successful claims of one key in a run
   are apart by the first one's recorded expiry, on the clock of the storage, plus its slack.
   */
  lemma ClaimIsExclusive(w: Setting, run: seq<Step>, i: nat, j: nat)
    requires Legal(w, run) && i < j < |After(w, run).trace|
    requires
      var trace := After(w, run).trace;
      && Denylist.SucceededAt(trace, i, w.slack) && Denylist.SucceededAt(trace, j, w.slack)
      && trace[i].key == trace[j].key
    ensures After(w, run).trace[j].commit >= After(w, run).trace[i].expiresAt + w.slack
  {
    AlwaysInv(w, run);
    Denylist.AtMostOnce(After(w, run).trace, i, j, w.slack);
  }

  /** The trace event of a request's claim number `k`, whatever became of the request. */
  lemma ClaimOnRecord(w: Setting, run: seq<Step>, t: nat, k: nat)
    requires Legal(w, run) && t in After(w, run).threads && HeldBy(After(w, run).threads[t]).Some?
    requires k < |ClaimsOf(After(w, run).threads[t])|
    ensures
      var s := After(w, run);
      var held := HeldBy(s.threads[t]).value;
      k <= |held.plan.scopes| && Claimed(w, s, held.plan, k, held.claims[k])
  {
    AlwaysInv(w, run);
    assert ThreadOk(w, After(w, run), After(w, run).threads[t]);
  }

  /**
   Of two claims of one key, by requests whatever became of them, the later commits no sooner than the
   expiry the first one's plan asked for, plus the slack. Number 0 is the credential, the others scopes.
   */
  lemma PlannedClaimsApart(w: Setting, run: seq<Step>, t: nat, k: nat, u: nat, l: nat)
    requires Legal(w, run) && t in After(w, run).threads && u in After(w, run).threads
    requires k < |ClaimsOf(After(w, run).threads[t])| && l < |ClaimsOf(After(w, run).threads[u])|
    requires
      var a, b := HeldBy(After(w, run).threads[t]).value, HeldBy(After(w, run).threads[u]).value;
      k <= |a.plan.scopes| && l <= |b.plan.scopes| && PlannedClaim(a.plan, k).0 == PlannedClaim(b.plan, l).0
      && a.claims[k] < b.claims[l]
    ensures
      var s := After(w, run);
      var a, b := HeldBy(s.threads[t]).value, HeldBy(s.threads[u]).value;
      b.claims[l] < |s.trace| && s.trace[b.claims[l]].commit >= PlannedClaim(a.plan, k).1 + w.slack
  {
    ClaimOnRecord(w, run, t, k);
    ClaimOnRecord(w, run, u, l);
    ClaimIsExclusive(w, run, ClaimsOf(After(w, run).threads[t])[k], ClaimsOf(After(w, run).threads[u])[l]);
  }

  /**
   One credential, one issuance: of two requests that both got past claiming the same key, whatever
   became of them, one claimed it no sooner than the other's expiry plus the slack.
   */
  lemma CredentialSingleUse(w: Setting, run: seq<Step>, t: nat, u: nat)
    requires Legal(w, run)
    requires t in After(w, run).threads && u in After(w, run).threads && t != u
    requires ClaimsOf(After(w, run).threads[t]) != [] && ClaimsOf(After(w, run).threads[u]) != []
    requires HeldBy(After(w, run).threads[t]).value.plan.jtiKey == HeldBy(After(w, run).threads[u]).value.plan.jtiKey
    ensures
      var s := After(w, run);
      var a, b := HeldBy(s.threads[t]).value, HeldBy(s.threads[u]).value;
      var i, j := a.claims[0], b.claims[0];
      && i < |s.trace| && j < |s.trace| && i != j
      && (i < j ==> s.trace[j].commit >= a.plan.jtiExpiry + w.slack)
      && (j < i ==> s.trace[i].commit >= b.plan.jtiExpiry + w.slack)
  {
    var s := After(w, run);
    AlwaysInv(w, run);
    ClaimOnRecord(w, run, t, 0);
    ClaimOnRecord(w, run, u, 0);
    var i, j := ClaimsOf(s.threads[t])[0], ClaimsOf(s.threads[u])[0];
    assert i in ClaimsOf(s.threads[t]) && j in ClaimsOf(s.threads[u]);
    if i < j { PlannedClaimsApart(w, run, t, 0, u, 0); }
    if j < i { PlannedClaimsApart(w, run, u, 0, t, 0); }
  }

  /**
   A proof of possession (its jti and issuance time fix the claim's key and expiry) is consumed twice
   only if the later request took a full minute, plus the slack, from verifying it to claiming it.
   */
  lemma ProofSingleUse(w: Setting, run: seq<Step>, t: nat, u: nat)
    requires Legal(w, run)
    requires t in After(w, run).threads && u in After(w, run).threads
    requires ClaimsOf(After(w, run).threads[t]) != [] && ClaimsOf(After(w, run).threads[u]) != []
    requires
      var a, b := HeldBy(After(w, run).threads[t]).value, HeldBy(After(w, run).threads[u]).value;
      a.plan.jtiKey == b.plan.jtiKey && a.plan.jtiExpiry == b.plan.jtiExpiry
      && b.plan.work.origin.Again? && a.claims[0] < b.claims[0]
    ensures
      var s := After(w, run);
      var b := HeldBy(s.threads[u]).value;
      b.claims[0] < |s.trace| && s.trace[b.claims[0]].commit >= b.plan.work.issuedAt + REPLAY_LEEWAY + w.slack
  {
    AlwaysInv(w, run);
    assert ThreadOk(w, After(w, run), After(w, run).threads[u]);
    PlannedClaimsApart(w, run, t, 0, u, 0);
  }

  /** The plan a request follows, once its checks are through. */
  function PlanOf(th: Thread): Option<Plan> {
    if HeldBy(th).Some? then Some(HeldBy(th).value.plan) else None
  }

  /** A request past its checks keeps its plan, or its want of one, whatever happens next. */
  ghost predicate Settled(s: State, t: nat, plan: Option<Plan>) {
    t in s.threads && !s.threads[t].Gated? && PlanOf(s.threads[t]) == plan
  }

  lemma SettledStays(w: Setting, s: State, step: Step, t: nat, plan: Option<Plan>)
    requires Enabled(w, s, step) && Settled(s, t, plan)
    ensures Settled(Next(w, s, step), t, plan)
  {
  }

  lemma {:induction false} SettledForGood(w: Setting, run: seq<Step>, n: nat, t: nat, plan: Option<Plan>)
    requires Legal(w, run) && n <= |run| && LegalPrefix(w, run, n)
    requires Settled(After(w, run[..n]), t, plan)
    ensures Settled(After(w, run), t, plan)
  {
    if n == |run| {
      assert run[..n] == run;
    } else {
      var front := run[..|run| - 1];
      assert front[..n] == run[..n];
      SettledForGood(w, front, n, t, plan);
      SettledStays(w, After(w, front), run[|run| - 1], t, plan);
    }
  }

  ghost predicate LegalPrefix(w: Setting, run: seq<Step>, n: nat)
    requires n <= |run|
  {
    Legal(w, run[..n])
  }

  lemma {:induction false} PrefixesLegal(w: Setting, run: seq<Step>, n: nat)
    requires Legal(w, run) && n <= |run|
    ensures LegalPrefix(w, run, n)
    ensures n < |run| ==> Enabled(w, After(w, run[..n]), run[n])
  {
    if n == |run| {
      assert run[..n] == run;
    } else {
      var front := run[..|run| - 1];
      assert front[..n] == run[..n];
      PrefixesLegal(w, front, n);
      if n == |front| { assert front == run[..n]; }
    }
  }

  /** The states on either side of one step of a run. */
  lemma StepAt(w: Setting, run: seq<Step>, n: nat)
    requires Legal(w, run) && n < |run|
    ensures LegalPrefix(w, run, n) && LegalPrefix(w, run, n + 1) && Enabled(w, After(w, run[..n]), run[n])
    ensures After(w, run[..n + 1]) == Counted(Effect(w, After(w, run[..n]), run[n]))
  {
    PrefixesLegal(w, run, n);
    PrefixesLegal(w, run, n + 1);
    assert run[..n + 1][..n] == run[..n];
  }

  function Made(plan: Result<Plan, Error>): Option<Plan> {
    if plan.Ok? then Some(plan.value) else None
  }

  lemma SignSettles(w: Setting, s: State, t: nat, req: SignRequest, hooks: seq<Hook>, now: Moment)
    requires CanSign(s, t, req, now)
    ensures Settled(Counted(AfterSign(w, s, t, req, hooks, now)), t, Made(PlanSign(w.cfg, req, hooks, now)))
  {
  }

  lemma PlanSettles(w: Setting, s: State, t: nat, proof: Result<Proof, Error>, newKey: Option<Result<Bytes, Error>>,
                    hooks: seq<Hook>, now: Moment)
    requires CanPlan(s, t, now)
    ensures Settled(Counted(AfterPlan(w, s, t, proof, newKey, hooks, now)), t,
                    Made(PlanReissue(w.ca, s.issued[s.threads[t].presented].cert, proof, newKey, hooks, now)))
  {
  }

  /** What a signing request planned is what its thread follows to the end. */
  lemma SignedBy(w: Setting, run: seq<Step>, a: nat)
    requires Legal(w, run) && a < |run| && run[a].StartSign?
    requires run[a].t in After(w, run).threads && ClaimsOf(After(w, run).threads[run[a].t]) != []
    ensures run[a].req.token.Ok? ==> TokenInRange(run[a].req.token.value)
    ensures PlanSign(w.cfg, run[a].req, run[a].hooks, run[a].now) == Ok(HeldBy(After(w, run).threads[run[a].t]).value.plan)
  {
    StepAt(w, run, a);
    SignSettles(w, After(w, run[..a]), run[a].t, run[a].req, run[a].hooks, run[a].now);
    SettledForGood(w, run, a + 1, run[a].t, Made(PlanSign(w.cfg, run[a].req, run[a].hooks, run[a].now)));
  }

  /** The same for a renewal, against the certificate it presents. */
  lemma RenewedBy(w: Setting, run: seq<Step>, a: nat) returns (cert: Certificate)
    requires Legal(w, run) && a < |run| && run[a].PlanRenewal?
    requires run[a].t in After(w, run).threads && ClaimsOf(After(w, run).threads[run[a].t]) != []
    ensures PlanReissue(w.ca, cert, run[a].proof, run[a].newKey, run[a].hooks, run[a].now)
            == Ok(HeldBy(After(w, run).threads[run[a].t]).value.plan)
  {
    StepAt(w, run, a);
    var s := After(w, run[..a]);
    cert := s.issued[s.threads[run[a].t].presented].cert;
    PlanSettles(w, s, run[a].t, run[a].proof, run[a].newKey, run[a].hooks, run[a].now);
    SettledForGood(w, run, a + 1, run[a].t, Made(PlanReissue(w.ca, cert, run[a].proof, run[a].newKey, run[a].hooks, run[a].now)));
  }

  /**
   One token, one issuance: of two signing requests with tokens of one replay id that both got past
   claiming it, the later claimed it no sooner than a minute past the first token's expiry, plus the slack.
   */
  lemma TokenSingleUse(w: Setting, run: seq<Step>, a: nat, b: nat)
    requires Legal(w, run) && a < |run| && b < |run| && run[a].StartSign? && run[b].StartSign?
    requires run[a].req.token.Ok? && run[b].req.token.Ok? && run[a].req.token.value.replayId == run[b].req.token.value.replayId
    requires run[a].t in After(w, run).threads && run[b].t in After(w, run).threads
    requires
      var s := After(w, run);
      var first, second := ClaimsOf(s.threads[run[a].t]), ClaimsOf(s.threads[run[b].t]);
      first != [] && second != [] && first[0] < second[0]
    ensures
      var s := After(w, run);
      var second := ClaimsOf(s.threads[run[b].t])[0];
      second < |s.trace| && s.trace[second].commit >= AtLeastZero(run[a].req.token.value.claims.exp) + 60 + w.slack
  {
    SignedBy(w, run, a);
    SignedBy(w, run, b);
    var sans, window, c, own := SignPlanMeans(w.cfg, run[a].req, run[a].hooks, run[a].now);
    sans, window, c, own := SignPlanMeans(w.cfg, run[b].req, run[b].hooks, run[b].now);
    PlannedClaimsApart(w, run, run[a].t, 0, run[b].t, 0);
  }

  /**
   One proof, one issuance: of two renewals with one proof that both got past claiming it, the later
   took a full minute, plus the slack, from reading its clock to claiming it.
   */
  lemma ProofReuseLags(w: Setting, run: seq<Step>, a: nat, b: nat)
    requires Legal(w, run) && a < |run| && b < |run| && run[a].PlanRenewal? && run[b].PlanRenewal?
    requires run[a].proof.Ok? && run[a].proof == run[b].proof
    requires run[a].t in After(w, run).threads && run[b].t in After(w, run).threads
    requires
      var s := After(w, run);
      var first, second := ClaimsOf(s.threads[run[a].t]), ClaimsOf(s.threads[run[b].t]);
      first != [] && second != [] && first[0] < second[0]
    ensures
      var s := After(w, run);
      var second := ClaimsOf(s.threads[run[b].t])[0];
      second < |s.trace| && s.trace[second].commit >= run[b].now + 60 + w.slack
  {
    var parent := RenewedBy(w, run, a);
    var sans, c := ReissuePlanMeans(w.ca, parent, run[a].proof, run[a].newKey, run[a].hooks, run[a].now);
    parent := RenewedBy(w, run, b);
    sans, c := ReissuePlanMeans(w.ca, parent, run[b].proof, run[b].newKey, run[b].hooks, run[b].now);
    PlannedClaimsApart(w, run, run[a].t, 0, run[b].t, 0);
  }

  /**
   One scope, one valid certificate: of two returned certificates that share a scope key, the later one's
   claim commits no sooner than the scope's own expiry in the first, or the first one's notAfter if it has
   none, plus the slack.
   */
  lemma ScopeSingleUse(w: Setting, run: seq<Step>, t: nat, k: nat, u: nat, l: nat)
    requires Legal(w, run) && t in After(w, run).threads && u in After(w, run).threads
    requires After(w, run).threads[t].Returned? && After(w, run).threads[u].Returned?
    requires
      var a, b := After(w, run).threads[t], After(w, run).threads[u];
      && k < |a.plan.scopes| && l < |b.plan.scopes|
      && ScopeKey(a.plan.scopes[k].namespace, a.plan.scopes[k].value) == ScopeKey(b.plan.scopes[l].namespace, b.plan.scopes[l].value)
      && |a.claims| > k + 1 && |b.claims| > l + 1 && a.claims[k + 1] < b.claims[l + 1]
    ensures
      var s := After(w, run);
      var a, b := s.threads[t], s.threads[u];
      && a.entry < |s.issued| && b.claims[l + 1] < |s.trace|
      && s.trace[b.claims[l + 1]].commit
         >= (if a.plan.scopes[k].expiresAt.Some? then a.plan.scopes[k].expiresAt.value else s.issued[a.entry].cert.notAfter) + w.slack
  {
    var s := After(w, run);
    AlwaysInv(w, run);
    assert ThreadOk(w, s, s.threads[t]);
    assert EntryOk(w, s.issued, s.threads[t].entry);
    PlannedClaimsApart(w, run, t, k + 1, u, l + 1);
  }

  /** A returned certificate's request made every claim of its plan, in order. */
  lemma ReturnedClaimedAll(w: Setting, run: seq<Step>, t: nat)
    requires Legal(w, run) && t in After(w, run).threads && After(w, run).threads[t].Returned?
    ensures
      var th := After(w, run).threads[t];
      |th.claims| == |th.plan.scopes| + 1 && forall k, l :: 0 <= k < l < |th.claims| ==> th.claims[k] < th.claims[l]
  {
    AlwaysInv(w, run);
    assert ThreadOk(w, After(w, run), After(w, run).threads[t]);
    assert Ascending(ClaimsOf(After(w, run).threads[t]), |After(w, run).trace|);
  }

  /** No reissue on the way to `i` starts before its own renewal instant. */
  ghost predicate KeepsNotBefore(issued: seq<Entry>, i: nat)
    requires i < |issued|
    decreases i
  {
    issued[i].parent.Some? ==>
      issued[i].parent.value < i
      && issued[i].work.window.notBefore >= issued[i].work.issuedAt
      && KeepsNotBefore(issued, issued[i].parent.value)
  }

  /** The fresh certificate a chain started from. */
  ghost function Root(issued: seq<Entry>, i: nat): nat
    requires i < |issued|
    decreases i
  {
    if issued[i].parent.Some? && issued[i].parent.value < i then Root(issued, issued[i].parent.value) else i
  }

  /** Along any renew and rekey chain the template ceiling bounds the span forever, unless a hook backdates. */
  lemma {:induction false} LifetimesBounded(w: Setting, run: seq<Step>, i: nat)
    requires Legal(w, run) && i < |After(w, run).issued| && KeepsNotBefore(After(w, run).issued, i)
    ensures
      var issued := After(w, run).issued;
      var root := Root(issued, i);
      && root < |issued| && issued[root].work.origin.Fresh?
      && 0 < CertWindow(issued[i].cert).Span() <= issued[root].work.origin.template.policy.Ceiling()
    decreases i
  {
    AlwaysInv(w, run);
    var issued := After(w, run).issued;
    assert EntryOk(w, issued, i);
    if issued[i].parent.Some? {
      LifetimesBounded(w, run, issued[i].parent.value);
    }
  }

  /** Every reissued certificate ends by its renewal instant plus its parent's span, whatever the hooks said. */
  lemma ReissueEndsInTime(w: Setting, run: seq<Step>, i: nat)
    requires Legal(w, run) && i < |After(w, run).issued| && After(w, run).issued[i].parent.Some?
    ensures
      var issued := After(w, run).issued;
      var p := issued[i].parent.value;
      && p < i && !IsMarkedNonRenewable(issued[p].cert)
      && issued[i].cert.notAfter <= issued[i].work.issuedAt + Duration(CertWindow(issued[p].cert))
  {
    AlwaysInv(w, run);
    assert EntryOk(w, After(w, run).issued, i);
  }

  /**
   Over every run, a reissue that no hook touched agrees with its parent on every extension but the
   key identifiers and the SAN, and its SAN decodes to exactly the parent's names.
   */
  lemma HooklessReissueFaithful(w: Setting, run: seq<Step>, i: nat)
    requires Legal(w, run) && i < |After(w, run).issued| && After(w, run).issued[i].parent.Some?
    requires After(w, run).issued[i].parent.value < i && w.ca.der.SansInvert()
    requires
      var issued := After(w, run).issued;
      var work := issued[i].work;
      work.overrides == E.NO_OVERRIDES && work.renewable
      && E.CertSans(w.ca.der, issued[issued[i].parent.value].cert.extensions) == Some(work.sans)
    ensures
      var issued := After(w, run).issued;
      var child, parent := issued[i].cert.extensions, issued[issued[i].parent.value].cert.extensions;
      && E.CertSans(w.ca.der, child) == E.CertSans(w.ca.der, parent)
      && forall oid :: oid != SubjectKeyIdOid && oid != AuthorityKeyIdOid && oid != SubjectAltNameOid
           ==> Lookup(child, oid) == Lookup(parent, oid)
  {
    AlwaysInv(w, run);
    var issued := After(w, run).issued;
    var p := issued[i].parent.value;
    assert EntryOk(w, issued, i) && EntryOk(w, issued, p);
    MarkerMeaning(issued[p].cert);
    E.HooklessReissue(w.ca.der, issued[p].cert.extensions, issued[i].work.spki, w.ca.caKeyId, SubjectOf(issued[i].work).None?);
  }
}
