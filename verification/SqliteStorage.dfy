/** The SQLite backend (ayane/src/storage/sqlite.rs): tables updated in transactions, plus a reaper. */
module Sqlite {
  import opened Basics
  import opened StorageContract
  import Denylist

  predicate Expired(expiresAt: nat, now: nat) {
    expiresAt <= now
  }

  function LiveTokens(tokens: map<string, nat>, now: nat): map<string, nat> {
    map k | k in tokens && !Expired(tokens[k], now) :: tokens[k]
  }

  function LiveCache(cache: map<string, CacheEntry>, now: nat): map<string, CacheEntry> {
    map k | k in cache && !Expired(cache[k].expiresAt, now) :: cache[k]
  }

  /** `DELETE … WHERE key = ?1 AND expires_at <= ?2`. */
  function WithoutExpired(cache: map<string, CacheEntry>, key: string, now: nat): map<string, CacheEntry> {
    if key in cache && Expired(cache[key].expiresAt, now) then cache - {key} else cache
  }

  /** The rows after one operation, and its answer. */
  function RowsStep(rows: Store, op: Op): (Store, Answer) {
    match op
    case RecordCertificate(_) => StorageContract.Step(rows, op, 0)
    case Revoke(_) => StorageContract.Step(rows, op, 0)
    case GetRevocation(_) => StorageContract.Step(rows, op, 0)
    case ClaimToken(_, _, _) => StorageContract.Step(rows, op, 0)
    case SetCache(_, _, _) => StorageContract.Step(rows, op, 0)
    case GetCache(key, now) =>
      var left := WithoutExpired(rows.cache, key, now);
      (rows.(cache := left), Cached(if key in left then Some(left[key].value) else None))
    case ReapExpired(now) =>
      (rows.(tokens := LiveTokens(rows.tokens, now), cache := LiveCache(rows.cache, now)), Done)
  }

  class SqliteStorage {
    var certificates: map<string, CertificateRecord>
    var revocations: map<string, RevocationRecord>
    var tokens: map<string, nat>
    var cache: map<string, CacheEntry>

    function Rows(): Store
      reads this
    {
      Store(certificates, revocations, tokens, cache)
    }

    constructor OpenInMemory()
      ensures Rows() == EMPTY_STORE
    {
      certificates, revocations, tokens, cache := map[], map[], map[], map[];
    }

    /** A plain insert: the primary key rejects a reused serial. */
    method RecordCertificate(record: CertificateRecord) returns (answer: Answer)
      modifies this
      ensures (Rows(), answer) == RowsStep(old(Rows()), Op.RecordCertificate(record))
    {
      if record.serialNumber in certificates {
        return Refused(Internal);
      }
      certificates := certificates[record.serialNumber := record];
      return Done;
    }

    /** INSERT OR IGNORE: the first record wins. */
    method Revoke(record: RevocationRecord) returns (answer: Answer)
      modifies this
      ensures (Rows(), answer) == RowsStep(old(Rows()), Op.Revoke(record))
    {
      if record.serialNumber !in revocations {
        revocations := revocations[record.serialNumber := record];
      }
      return Done;
    }

    method GetRevocation(serial: string) returns (answer: Answer)
      ensures (Rows(), answer) == RowsStep(Rows(), Op.GetRevocation(serial))
    {
      return Revocation(if serial in revocations then Some(revocations[serial]) else None);
    }

    /** One transaction: delete the key's expired claim, insert or ignore, roll back on conflict. */
    method ClaimToken(jti: string, expiresAt: nat, now: nat) returns (answer: Answer)
      modifies this
      ensures (Rows(), answer) == RowsStep(old(Rows()), Op.ClaimToken(jti, expiresAt, now))
    {
      var tx := tokens;
      if jti in tx && Expired(tx[jti], now) {
        tx := tx - {jti};
      }
      var inserted := 0;
      if jti !in tx {
        tx := tx[jti := expiresAt];
        inserted := 1;
      }
      if inserted == 0 {
        return Refused(Conflict);
      }
      assert tx == tokens[jti := expiresAt];
      tokens := tx;
      return Done;
    }

    method GetCache(key: string, now: nat) returns (answer: Answer)
      modifies this
      ensures (Rows(), answer) == RowsStep(old(Rows()), Op.GetCache(key, now))
    {
      if key in cache && Expired(cache[key].expiresAt, now) {
        cache := cache - {key};
      }
      return Cached(if key in cache then Some(cache[key].value) else None);
    }

    method SetCache(key: string, value: Bytes, expiresAt: nat) returns (answer: Answer)
      modifies this
      ensures (Rows(), answer) == RowsStep(old(Rows()), Op.SetCache(key, value, expiresAt))
    {
      cache := cache[key := CacheEntry(value, expiresAt)];
      return Done;
    }

    /** Delete every expired token and cache row, counting them. */
    method ReapExpired(now: nat) returns (reaped: nat)
      modifies this
      ensures (Rows(), Done) == RowsStep(old(Rows()), Op.ReapExpired(now))
      ensures reaped == |old(tokens)| - |tokens| + |old(cache)| - |cache|
    {
      reaped := 0;
      var liveTokens := LiveTokens(tokens, now);
      reaped := reaped + |tokens.Keys - liveTokens.Keys|;
      SubsetSize(liveTokens.Keys, tokens.Keys);
      tokens := liveTokens;
      var liveCache := LiveCache(cache, now);
      reaped := reaped + |cache.Keys - liveCache.Keys|;
      SubsetSize(liveCache.Keys, cache.Keys);
      cache := liveCache;
    }
  }

  lemma SubsetSize(a: set<string>, b: set<string>)
    requires a <= b
    ensures |b - a| == |b| - |a|
  {
    assert b == a + (b - a);
  }

  // ----- Refinement -----

  function RowsRun(ops: seq<Op>): (Store, seq<Answer>) {
    if ops == [] then (EMPTY_STORE, [])
    else
      var (before, answers) := RowsRun(ops[..|ops| - 1]);
      var (after, answer) := RowsStep(before, ops[|ops| - 1]);
      (after, answers + [answer])
  }

  /** The live tokens are the contract's, except claims that had expired by `clock`. */
  ghost predicate TokensMatch(live: map<string, nat>, all: map<string, nat>, clock: nat) {
    && (forall k :: k in live ==> k in all && all[k] == live[k])
    && (forall k :: k in all && k !in live ==> all[k] <= clock)
  }

  ghost predicate CacheMatches(live: map<string, CacheEntry>, all: map<string, CacheEntry>, clock: nat) {
    && (forall k :: k in live ==> k in all && all[k] == live[k])
    && (forall k :: k in all && k !in live ==> all[k].expiresAt <= clock)
  }

  /** The rows hold what the contract holds, except entries that had expired by `clock`. */
  ghost predicate Represents(rows: Store, s: Store, clock: nat) {
    && rows.certificates == s.certificates
    && rows.revocations == s.revocations
    && TokensMatch(rows.tokens, s.tokens, clock)
    && CacheMatches(rows.cache, s.cache, clock)
  }

  lemma ClaimRefines(live: map<string, nat>, all: map<string, nat>, clock: nat, jti: string, expiresAt: nat, now: nat)
    requires TokensMatch(live, all, clock) && clock <= now
    ensures Free(live, jti, now, 0) <==> Free(all, jti, now, 0)
    ensures TokensMatch(live, all, now) && TokensMatch(live[jti := expiresAt], all[jti := expiresAt], now)
  {
  }

  lemma CacheRefines(live: map<string, CacheEntry>, all: map<string, CacheEntry>, clock: nat, key: string, now: nat)
    requires CacheMatches(live, all, clock) && clock <= now
    ensures
      var left := WithoutExpired(live, key, now);
      && CacheMatches(left, all, now)
      && (key in left <==> key in all && now < all[key].expiresAt)
      && (key in left ==> left[key] == all[key])
  {
  }

  lemma ReapRefines(rows: Store, s: Store, clock: nat, now: nat)
    requires TokensMatch(rows.tokens, s.tokens, clock) && CacheMatches(rows.cache, s.cache, clock) && clock <= now
    ensures TokensMatch(LiveTokens(rows.tokens, now), s.tokens, now)
    ensures CacheMatches(LiveCache(rows.cache, now), s.cache, now)
  {
  }

  lemma StepRefines(rows: Store, s: Store, op: Op, clock: nat, clock': nat)
    requires Represents(rows, s, clock)
    requires clock <= clock' == Stamp(op).UnwrapOr(clock)
    ensures Represents(RowsStep(rows, op).0, StorageContract.Step(s, op, 0).0, clock')
    ensures RowsStep(rows, op).1 == StorageContract.Step(s, op, 0).1
  {
    match op
    case RecordCertificate(_) =>
    case Revoke(_) =>
    case GetRevocation(_) =>
    case ClaimToken(jti, expiresAt, now) => ClaimRefines(rows.tokens, s.tokens, clock, jti, expiresAt, now);
    case GetCache(key, now) => CacheRefines(rows.cache, s.cache, clock, key, now);
    case SetCache(_, _, _) =>
    case ReapExpired(now) => ReapRefines(rows, s, clock, now);
  }

  /** SQLite gives exactly the contract's answers; deletions on read and reaper runs are unobservable. */
  lemma {:induction false} Refines(ops: seq<Op>)
    requires Serialised(ops)
    ensures RowsRun(ops).1 == StorageContract.Run(EMPTY_STORE, ops, 0).1
    ensures Represents(RowsRun(ops).0, StorageContract.Run(EMPTY_STORE, ops, 0).0, Clock(ops))
  {
    if ops != [] {
      var front := ops[..|ops| - 1];
      Refines(front);
      StepRefines(RowsRun(front).0, StorageContract.Run(EMPTY_STORE, front, 0).0, ops[|ops| - 1], Clock(front), Clock(ops));
    }
  }

  // ----- Stale timestamps -----

  lemma RunsExtend(ops: seq<Op>, op: Op)
    ensures RowsRun(ops + [op]).0 == RowsStep(RowsRun(ops).0, op).0
    ensures RowsRun(ops + [op]).1 == RowsRun(ops).1 + [RowsStep(RowsRun(ops).0, op).1]
    ensures StorageContract.Run(EMPTY_STORE, ops + [op], 0).0 == StorageContract.Step(StorageContract.Run(EMPTY_STORE, ops, 0).0, op, 0).0
    ensures StorageContract.Run(EMPTY_STORE, ops + [op], 0).1
            == StorageContract.Run(EMPTY_STORE, ops, 0).1 + [StorageContract.Step(StorageContract.Run(EMPTY_STORE, ops, 0).0, op, 0).1]
  {
    assert (ops + [op])[..|ops|] == ops;
  }

  /** Refinement needs timestamps in order: a reaper ahead of a slow claim frees a key the contract still holds. */
  lemma OrderIsNeeded(jti: string)
    ensures
      var ops := [Op.ClaimToken(jti, 90, 10), Op.ReapExpired(100), Op.ClaimToken(jti, 200, 80)];
      RowsRun(ops).1 == [Done, Done, Done] && StorageContract.Run(EMPTY_STORE, ops, 0).1 == [Done, Done, Refused(Conflict)]
  {
    var a, b, c := Op.ClaimToken(jti, 90, 10), Op.ReapExpired(100), Op.ClaimToken(jti, 200, 80);
    RunsExtend([], a);
    RunsExtend([a], b);
    RunsExtend([a, b], c);
    assert [] + [a] == [a] && [a] + [b] == [a, b] && [a, b] + [c] == [a, b, c];
  }

  /**
   On the rows themselves every operation, however stale its timestamp, answers as the contract does
   and leaves what the contract leaves; a reaper run drops the lapsed claims and nothing lasting.
   */
  lemma StepAtAnyTime(rows: Store, op: Op)
    ensures
      var (after, answer) := RowsStep(rows, op);
      var (s', answer') := StorageContract.Step(rows, op, 0);
      && answer == answer'
      && after.certificates == s'.certificates && after.revocations == s'.revocations
      && after.tokens == if op.ReapExpired? then Purged(rows.tokens, rows.tokens.Keys, op.now, 0) else s'.tokens
  {
    if op.ReapExpired? {
      assert LiveTokens(rows.tokens, op.now) == Purged(rows.tokens, rows.tokens.Keys, op.now, 0);
    }
  }

  /** What an operation does to the token table, as a denylist event committed at `commit`. */
  function TokenEvent(rows: Store, op: Op, commit: nat): Denylist.Event {
    match op
    case ClaimToken(jti, expiresAt, now) => Denylist.Claim(jti, expiresAt, now, commit)
    case ReapExpired(now) => Denylist.Purge(rows.tokens.Keys, now, commit)
    case _ => Denylist.Purge({}, 0, commit)
  }

  /** Every operation, at any timestamp, acts on the tokens as a denylist with no slack. */
  lemma TokensAreDenylist(rows: Store, op: Op, commit: nat)
    ensures RowsStep(rows, op).0.tokens == Denylist.Apply(rows.tokens, TokenEvent(rows, op, commit), 0)
    ensures op.ClaimToken? ==> (RowsStep(rows, op).1 == Done <==> Denylist.Succeeds(rows.tokens, TokenEvent(rows, op, commit)))
  {
  }

  /** The answer to the operation at `i`. */
  function OpAnswer(ops: seq<Op>, i: nat): Answer
    requires i < |ops|
  {
    RowsStep(RowsRun(ops[..i]).0, ops[i]).1
  }

  /** The denylist events of a run whose operations committed at `commits`. */
  function Trace(ops: seq<Op>, commits: seq<nat>): seq<Denylist.Event>
    requires |ops| == |commits|
  {
    seq(|ops|, i requires 0 <= i < |ops| => TokenEvent(RowsRun(ops[..i]).0, ops[i], commits[i]))
  }

  lemma TracePrefix(ops: seq<Op>, commits: seq<nat>, n: nat)
    requires |ops| == |commits| && n <= |ops|
    ensures Trace(ops, commits)[..n] == Trace(ops[..n], commits[..n])
  {
    assert forall i :: 0 <= i < n ==> ops[..n][..i] == ops[..i];
  }

  lemma {:induction false} TraceFollows(ops: seq<Op>, commits: seq<nat>)
    requires |ops| == |commits|
    ensures Denylist.After(Trace(ops, commits), 0) == RowsRun(ops).0.tokens
  {
    if ops != [] {
      var n := |ops| - 1;
      TraceFollows(ops[..n], commits[..n]);
      TracePrefix(ops, commits, n);
      TokensAreDenylist(RowsRun(ops[..n]).0, ops[n], commits[n]);
    }
  }

  lemma DoneIsSuccess(ops: seq<Op>, commits: seq<nat>, k: nat)
    requires |ops| == |commits| && k < |ops| && ops[k].ClaimToken? && OpAnswer(ops, k) == Done
    ensures Denylist.SucceededAt(Trace(ops, commits), k, 0)
    ensures Trace(ops, commits)[k] == Denylist.Claim(ops[k].jti, ops[k].expiresAt, ops[k].now, commits[k])
  {
    TracePrefix(ops, commits, k);
    TraceFollows(ops[..k], commits[..k]);
    TokensAreDenylist(RowsRun(ops[..k]).0, ops[k], commits[k]);
  }

  lemma TraceIsConcurrent(ops: seq<Op>, commits: seq<nat>)
    requires |ops| == |commits|
    requires forall k :: 0 <= k < |ops| ==> Stamp(ops[k]).UnwrapOr(0) <= commits[k]
    requires forall k, l :: 0 <= k <= l < |ops| ==> commits[k] <= commits[l]
    ensures Denylist.Concurrent(Trace(ops, commits))
  {
    var trace := Trace(ops, commits);
    forall k | 0 <= k < |trace|
      ensures trace[k].stamp <= trace[k].commit == commits[k]
    {
      assert Stamp(ops[k]).UnwrapOr(0) <= commits[k];
    }
  }

  /**
   At most once on SQLite, for every interleaving: operations commit in order with timestamps read
   at any earlier moment, and reapers run at will.
   */
  lemma ClaimsAtMostOnce(ops: seq<Op>, commits: seq<nat>, i: nat, j: nat)
    requires |ops| == |commits| && i < j < |ops|
    requires forall k :: 0 <= k < |ops| ==> Stamp(ops[k]).UnwrapOr(0) <= commits[k]
    requires forall k, l :: 0 <= k <= l < |ops| ==> commits[k] <= commits[l]
    requires ops[i].ClaimToken? && ops[j].ClaimToken? && ops[i].jti == ops[j].jti
    requires OpAnswer(ops, i) == Done && OpAnswer(ops, j) == Done
    ensures ops[i].expiresAt <= commits[j]
  {
    DoneIsSuccess(ops, commits, i);
    DoneIsSuccess(ops, commits, j);
    TraceIsConcurrent(ops, commits);
    Denylist.AtMostOnce(Trace(ops, commits), i, j, 0);
  }
}
