/**
 The storage contract (ayane/src/storage/mod.rs) as one abstract store, and the denylist
 behind its one-time claims as a state machine over stale timestamps.
 */
module StorageContract {
  import opened Basics
  import opened Certificates

  /** One issued certificate. The certificate itself stands for its PEM text. */
  datatype CertificateRecord = CertificateRecord(
    serialNumber: string, subject: string, sans: seq<San>, notBefore: int, notAfter: int, issuedAt: int,
    provisioner: Option<string>, operation: string, renewable: bool, pem: Certificate)

  datatype RevocationRecord = RevocationRecord(
    serialNumber: string, reasonCode: int, reason: Option<string>, revokedAt: int, provisioner: Option<string>)

  datatype CacheEntry = CacheEntry(value: Bytes, expiresAt: nat)

  datatype Store = Store(
    certificates: map<string, CertificateRecord>,
    revocations: map<string, RevocationRecord>,
    tokens: map<string, nat>,
    cache: map<string, CacheEntry>)

  const EMPTY_STORE := Store(map[], map[], map[], map[])

  datatype Op =
    | RecordCertificate(certificate: CertificateRecord)
    | Revoke(revocation: RevocationRecord)
    | GetRevocation(serialNumber: string)
    | ClaimToken(jti: string, expiresAt: nat, now: nat)
    | GetCache(key: string, now: nat)
    | SetCache(key: string, value: Bytes, expiresAt: nat)
    | ReapExpired(now: nat)

  datatype Answer =
    | Done
    | Refused(error: Error)
    | Revocation(found: Option<RevocationRecord>)
    | Cached(value: Option<Bytes>)

  /** Operations that only read: the ones a backend may answer from an earlier version. */
  predicate IsLookup(op: Op) {
    op.GetRevocation? || op.GetCache?
  }

  /** A claim is free when absent, or when `slack` seconds have passed since its expiry. */
  predicate Free(tokens: map<string, nat>, jti: string, now: nat, slack: nat) {
    jti in tokens ==> tokens[jti] + slack <= now
  }

  /** Dropping some lapsed claims of one's choice: a reaper run, or a lazy sweep. */
  function Purged(tokens: map<string, nat>, keys: set<string>, stamp: nat, slack: nat): map<string, nat> {
    map k | k in tokens && !(k in keys && tokens[k] + slack <= stamp) :: tokens[k]
  }

  /** The contract. Nothing is ever forgotten; expiry is judged only when a key is read. */
  function Step(s: Store, op: Op, slack: nat): (Store, Answer) {
    match op
    case RecordCertificate(c) =>
      if c.serialNumber in s.certificates then (s, Refused(Internal))
      else (s.(certificates := s.certificates[c.serialNumber := c]), Done)
    case Revoke(r) =>
      (if r.serialNumber in s.revocations then s else s.(revocations := s.revocations[r.serialNumber := r]), Done)
    case GetRevocation(serial) =>
      (s, Revocation(if serial in s.revocations then Some(s.revocations[serial]) else None))
    case ClaimToken(jti, expiresAt, now) =>
      if Free(s.tokens, jti, now, slack) then (s.(tokens := s.tokens[jti := expiresAt]), Done)
      else (s, Refused(Conflict))
    case GetCache(key, now) =>
      (s, Cached(if key in s.cache && now < s.cache[key].expiresAt then Some(s.cache[key].value) else None))
    case SetCache(key, value, expiresAt) =>
      (s.(cache := s.cache[key := CacheEntry(value, expiresAt)]), Done)
    case ReapExpired(_) => (s, Done)
  }

  function Run(s: Store, ops: seq<Op>, slack: nat): (Store, seq<Answer>) {
    if ops == [] then (s, [])
    else
      var (before, answers) := Run(s, ops[..|ops| - 1], slack);
      var (after, answer) := Step(before, ops[|ops| - 1], slack);
      (after, answers + [answer])
  }

  /** The timestamp an operation carries, if it reads the clock. */
  function Stamp(op: Op): Option<nat> {
    match op
    case ClaimToken(_, _, now) => Some(now)
    case GetCache(_, now) => Some(now)
    case ReapExpired(now) => Some(now)
    case _ => None
  }

  /** The latest timestamp so far. */
  function Clock(ops: seq<Op>): nat {
    if ops == [] then 0 else Stamp(ops[|ops| - 1]).UnwrapOr(Clock(ops[..|ops| - 1]))
  }

  /** Timestamps never go back along the run. */
  predicate Serialised(ops: seq<Op>) {
    ops != [] ==> Serialised(ops[..|ops| - 1]) && Clock(ops[..|ops| - 1]) <= Clock(ops)
  }

  /** The latest stamp of a run is that of its last operation to carry one. */
  lemma {:induction false} ClockIsLatest(ops: seq<Op>)
    requires Serialised(ops)
    ensures forall i :: 0 <= i < |ops| && Stamp(ops[i]).Some? ==> Stamp(ops[i]).value <= Clock(ops)
    ensures (forall i :: 0 <= i < |ops| ==> Stamp(ops[i]).None?) ==> Clock(ops) == 0
    ensures (exists i :: 0 <= i < |ops| && Stamp(ops[i]).Some?) ==>
              exists i :: 0 <= i < |ops| && Stamp(ops[i]) == Some(Clock(ops))
  {
    if ops != [] {
      var n := |ops| - 1;
      ClockIsLatest(ops[..n]);
      assert forall i :: 0 <= i < n ==> ops[..n][i] == ops[i];
    }
  }

  /** A run is serialised exactly when no operation carries a stamp older than one before it. */
  lemma {:induction false} SerialisedMeans(ops: seq<Op>)
    ensures Serialised(ops) <==>
              forall i, j :: 0 <= i < j < |ops| && Stamp(ops[i]).Some? && Stamp(ops[j]).Some? ==> Stamp(ops[i]).value <= Stamp(ops[j]).value
  {
    if ops != [] {
      var n := |ops| - 1;
      SerialisedMeans(ops[..n]);
      assert forall i :: 0 <= i < n ==> ops[..n][i] == ops[i];
      if Serialised(ops[..n]) {
        ClockIsLatest(ops[..n]);
      }
    }
  }

  // ----- The contract read as promises -----

  /** A revocation, once recorded, is reported with its first record by every later lookup. */
  lemma {:induction false} FirstRevocationStays(s: Store, ops: seq<Op>, slack: nat, serial: string)
    requires serial in s.revocations
    ensures serial in Run(s, ops, slack).0.revocations
    ensures Run(s, ops, slack).0.revocations[serial] == s.revocations[serial]
  {
    if ops != [] { FirstRevocationStays(s, ops[..|ops| - 1], slack, serial); }
  }

  /** The same for the certificate inventory. */
  lemma {:induction false} FirstCertificateStays(s: Store, ops: seq<Op>, slack: nat, serial: string)
    requires serial in s.certificates
    ensures serial in Run(s, ops, slack).0.certificates
    ensures Run(s, ops, slack).0.certificates[serial] == s.certificates[serial]
  {
    if ops != [] { FirstCertificateStays(s, ops[..|ops| - 1], slack, serial); }
  }
}

/** One-time claims under concurrency: each operation carries a timestamp read before it commits. */
module Denylist {
  import opened Basics

  /** `stamp` is the clock value an operation read; `commit` is when it took effect. */
  datatype Event =
    | Claim(key: string, expiresAt: nat, stamp: nat, commit: nat)
    | Purge(keys: set<string>, stamp: nat, commit: nat)

  /** Held keys, each with the instant from which it may be claimed again. */
  type Holds = map<string, nat>

  predicate Succeeds(h: Holds, e: Event) {
    e.Claim? && (e.key in h ==> h[e.key] <= e.stamp)
  }

  /** A claim holds its key until `slack` after its expiry; a purge may drop any lapsed keys it chooses. */
  function Apply(h: Holds, e: Event, slack: nat): Holds {
    match e
    case Claim(key, expiresAt, _, _) => if Succeeds(h, e) then h[key := expiresAt + slack] else h
    case Purge(keys, stamp, _) => map k | k in h && !(k in keys && h[k] <= stamp) :: h[k]
  }

  function After(trace: seq<Event>, slack: nat): Holds {
    if trace == [] then map[] else Apply(After(trace[..|trace| - 1], slack), trace[|trace| - 1], slack)
  }

  /** Commits are ordered; every timestamp was read no later than the commit, however stale. */
  ghost predicate Concurrent(trace: seq<Event>) {
    && (forall i :: 0 <= i < |trace| ==> trace[i].stamp <= trace[i].commit)
    && (forall i, j :: 0 <= i <= j < |trace| ==> trace[i].commit <= trace[j].commit)
  }

  /** A token table with recorded expiries, seen as holds that end `slack` later. */
  ghost predicate TokensHeld(tokens: map<string, nat>, h: Holds, slack: nat) {
    tokens.Keys == h.Keys && forall k :: k in tokens ==> h[k] == tokens[k] + slack
  }

  /** One more event, committed now with a reading no later, keeps a trace concurrent. */
  lemma OneMoreEvent(trace: seq<Event>, e: Event, slack: nat)
    requires Concurrent(trace) && e.stamp <= e.commit
    requires trace != [] ==> trace[|trace| - 1].commit <= e.commit
    ensures Concurrent(trace + [e])
    ensures After(trace + [e], slack) == Apply(After(trace, slack), e, slack)
  {
    var longer, n := trace + [e], |trace|;
    assert longer[..n] == trace;
    forall i, j | 0 <= i <= j < |longer| ensures longer[i].commit <= longer[j].commit {
      if j == n && i < n { assert trace[i].commit <= trace[n - 1].commit; }
    }
  }

  predicate SucceededAt(trace: seq<Event>, i: nat, slack: nat)
    requires i < |trace|
  {
    Succeeds(After(trace[..i], slack), trace[i])
  }

  /** A successful claim still holds its key, or its hold has lapsed by the last commit. */
  lemma {:induction false} HeldOrLapsed(trace: seq<Event>, i: nat, slack: nat)
    requires Concurrent(trace) && i < |trace| && SucceededAt(trace, i, slack)
    ensures
      var h, e := After(trace, slack), trace[i];
      (e.key in h && h[e.key] == e.expiresAt + slack) || e.expiresAt + slack <= trace[|trace| - 1].commit
    decreases |trace|
  {
    var n := |trace| - 1;
    var front := trace[..n];
    if i < n {
      assert front[..i] == trace[..i];
      HeldOrLapsed(front, i, slack);
      assert trace[n - 1].commit <= trace[n].commit;
    }
  }

  /**
   At most once: however the requests interleave and however stale their clocks, two successful
   claims of one key are apart by at least the first claim's recorded expiry plus the slack.
   */
  lemma AtMostOnce(trace: seq<Event>, i: nat, j: nat, slack: nat)
    requires Concurrent(trace) && i < j < |trace|
    requires SucceededAt(trace, i, slack) && SucceededAt(trace, j, slack)
    requires trace[i].key == trace[j].key
    ensures trace[i].expiresAt + slack <= trace[j].commit
  {
    var front := trace[..j];
    assert front[..i] == trace[..i];
    HeldOrLapsed(front, i, slack);
    assert trace[j - 1].commit <= trace[j].commit;
  }
}
