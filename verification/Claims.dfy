/**
 One-time claims of the service (ayane/src/service.rs, ayane/src/dpop.rs): token ids, proof ids
 and scopes, each held at least until its credential can no longer be accepted.
 */
module ClaimSpec {
  import opened Basics
  import opened StorageContract
  import opened Text
  import opened Hooks
  import Denylist

  const REPLAY_LEEWAY: nat := 60
  const DPOP_MAX_AGE: nat := 300
  const DPOP_SKEW: nat := 60

  // ----- Keys -----

  function JtiKey(kind: string, jti: string): string {
    kind + "#" + jti
  }

  function ScopeKey(namespace: string, value: string): string {
    "scope" + "#" + (namespace + "#" + value)
  }

  /** The part of a key before its first '#' names the keyspace. */
  lemma KeyspacesDisjoint(a: string, x: string, b: string, y: string)
    requires '#' !in a && '#' !in b
    ensures JtiKey(a, x) == JtiKey(b, y) <==> a == b && x == y
  {
    if JtiKey(a, x) == JtiKey(b, y) {
      CutIsUnique(a, x, b, y, '#');
    }
  }

  lemma OttDpopAndScopeKeysDisjoint(jti: string, other: string, namespace: string, value: string)
    ensures JtiKey("ott", jti) != JtiKey("dpop", other)
    ensures JtiKey("ott", jti) != ScopeKey(namespace, value)
    ensures JtiKey("dpop", jti) != ScopeKey(namespace, value)
  {
    KeyspacesDisjoint("ott", jti, "dpop", other);
    KeyspacesDisjoint("ott", jti, "scope", namespace + "#" + value);
    KeyspacesDisjoint("dpop", jti, "scope", namespace + "#" + value);
  }

  /** One scope's key read as another's: `n'` is `n`, a '#' and more, and `v` starts with that rest. */
  predicate Overlaps(n: string, v: string, n': string, v': string) {
    n + "#" <= n' && v == n'[|n| + 1..] + "#" + v'
  }

  /** Two scopes share a key exactly when they are one scope or one overlaps the other. */
  lemma ScopeKeysEqual(n: string, v: string, n': string, v': string)
    ensures ScopeKey(n, v) == ScopeKey(n', v')
            <==> (n == n' && v == v') || Overlaps(n, v, n', v') || Overlaps(n', v', n, v)
  {
    var a, b := n + "#" + v, n' + "#" + v';
    if ScopeKey(n, v) == ScopeKey(n', v') {
      SamePrefix("scope" + "#", a, b);
      if |n| == |n'| {
        assert n == a[..|n|] && n' == b[..|n'|] && v == a[|n| + 1..] && v' == b[|n'| + 1..];
      } else if |n| < |n'| {
        OverlapFound(n, v, n', v');
      } else {
        OverlapFound(n', v', n, v);
      }
    }
    if Overlaps(n, v, n', v') { assert a == b; }
    if Overlaps(n', v', n, v) { assert a == b; }
  }

  lemma OverlapFound(n: string, v: string, n': string, v': string)
    requires n + "#" + v == n' + "#" + v' && |n| < |n'|
    ensures Overlaps(n, v, n', v')
  {
    var a := n + "#" + v;
    assert n' == a[..|n'|] && n + "#" == a[..|n| + 1];
    assert v == a[|n| + 1..] == n'[|n| + 1..] + "#" + v';
  }

  /** Two different namespaces can share a key exactly when one, followed by '#', begins the other. */
  lemma ScopeNamespacesClash(n: string, n': string)
    requires n != n'
    ensures (exists v, v' :: ScopeKey(n, v) == ScopeKey(n', v')) <==> n + "#" <= n' || n' + "#" <= n
  {
    if exists v, v' :: ScopeKey(n, v) == ScopeKey(n', v') {
      var v, v' :| ScopeKey(n, v) == ScopeKey(n', v');
      ScopeKeysEqual(n, v, n', v');
    }
    if n + "#" <= n' {
      ScopeKeysEqual(n, n'[|n| + 1..] + "#", n', "");
    }
    if n' + "#" <= n {
      ScopeKeysEqual(n, "", n', n[|n'| + 1..] + "#");
    }
  }

  lemma OverlapNeedsHash(n: string, n': string)
    ensures n + "#" <= n' ==> '#' in n'
  {
    if n + "#" <= n' {
      assert n'[|n|] == (n + "#")[|n|];
    }
  }

  /** Scope keys tell apart any two scopes whose namespaces hold no '#'. */
  lemma ScopeKeyInjective(n: string, v: string, n': string, v': string)
    requires '#' !in n && '#' !in n'
    ensures ScopeKey(n, v) == ScopeKey(n', v') <==> n == n' && v == v'
  {
    ScopeKeysEqual(n, v, n', v');
    OverlapNeedsHash(n, n');
    OverlapNeedsHash(n', n);
  }

  /** A '#' inside a namespace can make two scopes share a key. */
  lemma ScopeKeyClash()
    ensures ScopeKey("prov:a#b", "c") == ScopeKey("prov:a", "b#c")
  {
    var n, n' := "prov:a", "prov:a#b";
    assert n + "#" == n'[..|n| + 1] && n'[|n| + 1..] == "b";
    ScopeKeysEqual(n, "b#c", n', "c");
  }

  /** Token scopes and hook scopes never share a key, whatever their names hold. */
  lemma TokenAndHookScopesApart(provisioner: string, hook: string, v: string, v': string)
    ensures ScopeKey("prov:" + provisioner, v) != ScopeKey("hook:" + hook, v')
  {
    var a, b := "prov:" + provisioner + "#" + v, "hook:" + hook + "#" + v';
    assert a[0] == "prov:"[0] && b[0] == "hook:"[0];
    if ScopeKey("prov:" + provisioner, v) == ScopeKey("hook:" + hook, v') {
      SamePrefix("scope" + "#", a, b);
    }
  }

  // ----- A sequence of claims -----

  /** One claim, with the two clock readings it takes: for the floor, and inside the store. */
  datatype ClaimRequest = ClaimRequest(key: string, wanted: int, floorNow: nat, stamp: nat) {
    /** The expiry recorded: never sooner than the floor. */
    function Recorded(): nat {
      if wanted >= floorNow + REPLAY_LEEWAY then wanted else floorNow + REPLAY_LEEWAY
    }
  }

  function Recorded(tokens: map<string, nat>, reqs: seq<ClaimRequest>): map<string, nat> {
    if reqs == [] then tokens
    else Recorded(tokens, reqs[..|reqs| - 1])[reqs[|reqs| - 1].key := reqs[|reqs| - 1].Recorded()]
  }

  /** Claims in order until one is refused: the resulting tokens and how many succeeded. */
  function ClaimAll(tokens: map<string, nat>, reqs: seq<ClaimRequest>, slack: nat): (map<string, nat>, nat) {
    if reqs == [] then (tokens, 0)
    else
      var n := |reqs| - 1;
      var (before, count) := ClaimAll(tokens, reqs[..n], slack);
      if count == n && Free(before, reqs[n].key, reqs[n].stamp, slack) then (before[reqs[n].key := reqs[n].Recorded()], count + 1)
      else (before, count)
  }

  /** A refusal leaves exactly the claims before it. */
  lemma {:induction false} PrefixIsClaimed(tokens: map<string, nat>, reqs: seq<ClaimRequest>, slack: nat)
    ensures
      var (after, count) := ClaimAll(tokens, reqs, slack);
      count <= |reqs| && after == Recorded(tokens, reqs[..count])
  {
    if reqs != [] {
      var n := |reqs| - 1;
      PrefixIsClaimed(tokens, reqs[..n], slack);
      var count := ClaimAll(tokens, reqs, slack).1;
      if count == n + 1 {
        assert reqs[..count] == reqs;
        assert reqs[..n][..n] == reqs[..n];
      } else {
        assert reqs[..n][..count] == reqs[..count];
      }
    }
  }

  /** Claiming one sequence and then another is claiming their concatenation. */
  lemma {:induction false} ClaimSequence(tokens: map<string, nat>, a: seq<ClaimRequest>, b: seq<ClaimRequest>, slack: nat)
    requires ClaimAll(tokens, a, slack).1 == |a|
    ensures
      var (after, count) := ClaimAll(ClaimAll(tokens, a, slack).0, b, slack);
      ClaimAll(tokens, a + b, slack) == (after, |a| + count)
  {
    if b == [] {
      assert a + b == a;
    } else {
      ClaimSequence(tokens, a, b[..|b| - 1], slack);
      assert (a + b)[..|a + b| - 1] == a + b[..|b| - 1];
    }
  }

  ghost predicate DistinctKeys(reqs: seq<ClaimRequest>) {
    forall i, j :: 0 <= i < j < |reqs| ==> reqs[i].key != reqs[j].key
  }

  /** The whole sequence takes less than the floor, so nothing it claims lapses meanwhile. */
  ghost predicate Brisk(reqs: seq<ClaimRequest>) {
    forall i, j :: 0 <= i < j < |reqs| ==> reqs[j].stamp < reqs[i].floorNow + REPLAY_LEEWAY
  }

  lemma {:induction false} RecordedLookup(tokens: map<string, nat>, reqs: seq<ClaimRequest>, key: string)
    ensures (forall i :: 0 <= i < |reqs| ==> reqs[i].key != key)
            ==> (key in Recorded(tokens, reqs) <==> key in tokens)
                && (key in tokens ==> Recorded(tokens, reqs)[key] == tokens[key])
    ensures (exists i :: 0 <= i < |reqs| && reqs[i].key == key)
            ==> key in Recorded(tokens, reqs)
                && exists i :: 0 <= i < |reqs| && reqs[i].key == key && Recorded(tokens, reqs)[key] == reqs[i].Recorded()
  {
    if reqs != [] {
      var n := |reqs| - 1;
      RecordedLookup(tokens, reqs[..n], key);
      if reqs[n].key != key && exists i :: 0 <= i < |reqs| && reqs[i].key == key {
        var i :| 0 <= i < |reqs| && reqs[i].key == key;
        assert reqs[..n][i].key == key;
        var m :| 0 <= m < n && reqs[..n][m].key == key && Recorded(tokens, reqs[..n])[key] == reqs[..n][m].Recorded();
        assert reqs[m].key == key;
      } else if reqs[n].key != key {
        assert forall i :: 0 <= i < n ==> reqs[..n][i].key == reqs[i].key;
      }
    }
  }

  /** All claims of one request succeed exactly when every key was free beforehand and no two coincide. */
  lemma {:induction false} AllClaimedIff(tokens: map<string, nat>, reqs: seq<ClaimRequest>, slack: nat)
    requires Brisk(reqs)
    ensures ClaimAll(tokens, reqs, slack).1 == |reqs|
            <==> (forall i :: 0 <= i < |reqs| ==> Free(tokens, reqs[i].key, reqs[i].stamp, slack)) && DistinctKeys(reqs)
  {
    if reqs != [] {
      var n := |reqs| - 1;
      var front, last := reqs[..n], reqs[n];
      AllClaimedIff(tokens, front, slack);
      PrefixIsClaimed(tokens, front, slack);
      assert forall i :: 0 <= i < n ==> front[i] == reqs[i];
      if ClaimAll(tokens, front, slack).1 == n {
        assert front[..n] == front;
        LastClaim(tokens, front, last, slack);
        assert DistinctKeys(reqs) <==> DistinctKeys(front) && forall i :: 0 <= i < n ==> front[i].key != last.key;
      }
    }
  }

  /** After a brisk run of claims, a further key is free exactly when it was free before and is new. */
  lemma LastClaim(tokens: map<string, nat>, front: seq<ClaimRequest>, last: ClaimRequest, slack: nat)
    requires forall i :: 0 <= i < |front| ==> last.stamp < front[i].floorNow + REPLAY_LEEWAY
    ensures Free(Recorded(tokens, front), last.key, last.stamp, slack)
            <==> Free(tokens, last.key, last.stamp, slack) && forall i :: 0 <= i < |front| ==> front[i].key != last.key
  {
    RecordedLookup(tokens, front, last.key);
  }

  // ----- The DPoP freshness window -----

  /** The age checks on a proof: not from the future beyond the skew, not older than the maximum age. */
  function DpopIssuedAt(iat: int, now: nat): Result<nat, Error> {
    var issuedAt: nat := if iat >= 0 then iat else 0;
    if issuedAt > now + DPOP_SKEW then Err(Unauthorized)
    else if now >= issuedAt && now - issuedAt > DPOP_MAX_AGE then Err(Unauthorized)
    else Ok(issuedAt)
  }

  // ----- At most once, over every concurrent run -----

  function EventOf(r: ClaimRequest, commit: nat): Denylist.Event {
    Denylist.Claim(r.key, r.Recorded(), r.stamp, commit)
  }

  /** The claim a proof makes, for the issuance time its verification returned. */
  predicate IsProofClaim(r: ClaimRequest, jti: string, issuedAt: nat) {
    r.key == JtiKey("dpop", jti) && r.wanted == issuedAt + DPOP_MAX_AGE + REPLAY_LEEWAY
  }

  /**
   A proof is consumed a second time only by a request that took a full minute, plus the
   backend's slack, between verifying it and claiming it.
   */
  lemma ProofConsumedOnce(trace: seq<Denylist.Event>, slack: nat, i: nat, j: nat,
                          first: ClaimRequest, second: ClaimRequest, jti: string, iat: int, verifiedAt: nat)
    requires Denylist.Concurrent(trace) && i < j < |trace|
    requires Denylist.SucceededAt(trace, i, slack) && Denylist.SucceededAt(trace, j, slack)
    requires DpopIssuedAt(iat, verifiedAt).Ok?
    requires trace[i] == EventOf(first, trace[i].commit) && IsProofClaim(first, jti, DpopIssuedAt(iat, verifiedAt).value)
    requires trace[j] == EventOf(second, trace[j].commit) && IsProofClaim(second, jti, DpopIssuedAt(iat, verifiedAt).value)
    ensures trace[j].commit >= verifiedAt + REPLAY_LEEWAY + slack
  {
    Denylist.AtMostOnce(trace, i, j, slack);
  }

  /** A token id is never claimed twice before the token's expiry plus the leeway. */
  lemma TokenClaimedOnce(trace: seq<Denylist.Event>, slack: nat, i: nat, j: nat, first: ClaimRequest, exp: int)
    requires Denylist.Concurrent(trace) && i < j < |trace|
    requires Denylist.SucceededAt(trace, i, slack) && Denylist.SucceededAt(trace, j, slack)
    requires trace[i] == EventOf(first, trace[i].commit) && trace[i].key == trace[j].key
    requires first.wanted == (if exp >= 0 then exp else 0) + REPLAY_LEEWAY
    ensures trace[j].commit >= exp + REPLAY_LEEWAY + slack
  {
    Denylist.AtMostOnce(trace, i, j, slack);
  }

  /** A scope without its own expiry is not granted again while the first certificate is valid. */
  lemma ScopeClaimedOnce(trace: seq<Denylist.Event>, slack: nat, i: nat, j: nat,
                         first: ClaimRequest, scope: OnceClaim, notAfter: int)
    requires Denylist.Concurrent(trace) && i < j < |trace|
    requires Denylist.SucceededAt(trace, i, slack) && Denylist.SucceededAt(trace, j, slack)
    requires trace[i] == EventOf(first, trace[i].commit) && trace[i].key == trace[j].key
    requires first.wanted == ScopeExpiry(scope, notAfter) && scope.expiresAt.None?
    ensures trace[j].commit >= notAfter + slack
  {
    Denylist.AtMostOnce(trace, i, j, slack);
  }

  function ScopeExpiry(scope: OnceClaim, defaultExpiry: int): int {
    if scope.expiresAt.Some? then scope.expiresAt.value else defaultExpiry
  }
}

/** The claim steps as the service performs them, against any store that keeps the contract. */
module Claiming {
  import opened Basics
  import opened StorageContract
  import opened ClaimSpec
  import opened Hooks

  /** A clock that never goes back. */
  class Clock {
    var now: Moment

    constructor (start: Moment)
      ensures now == start
    {
      now := start;
    }

    method Read() returns (t: Moment)
      modifies this
      ensures old(now) <= t == now
    {
      var later: Moment :| now <= later;
      now := later;
      t := now;
    }
  }

  /**
   A store that keeps the contract with its own slack; both backends are such stores. A lookup sees
   the current contents, or any earlier ones if the store is not consistent.
   */
  class Storage {
    var store: Store
    var earlier: seq<Store>
    const slack: nat
    const consistent: bool

    predicate MayShow(seen: Store)
      reads this
    {
      seen == store || (!consistent && seen in earlier)
    }

    constructor (slack: nat, consistent: bool)
      ensures store == EMPTY_STORE && earlier == [] && this.slack == slack && this.consistent == consistent
    {
      store, earlier := EMPTY_STORE, [];
      this.slack, this.consistent := slack, consistent;
    }

    method Perform(op: Op) returns (answer: Answer)
      requires !IsLookup(op)
      modifies this
      ensures (store, answer) == Step(old(store), op, slack)
      ensures earlier == old(earlier) + [old(store)]
    {
      var (after, a) := Step(store, op, slack);
      earlier, store := earlier + [store], after;
      answer := a;
    }

    method Look(op: Op) returns (answer: Answer, ghost seen: Store)
      requires IsLookup(op)
      ensures MayShow(seen) && answer == Step(seen, op, slack).1
    {
      var version :| MayShow(version) by {
        assert MayShow(store);
      }
      seen := version;
      answer := Step(version, op, slack).1;
    }
  }

  /** Claim one key, flooring its expiry; a conflict becomes Unauthorized. */
  method ClaimOnce(storage: Storage, clock: Clock, key: string, expiresAt: int)
    returns (r: Result<(), Error>, ghost req: ClaimRequest)
    modifies storage, clock
    ensures req.key == key && req.wanted == expiresAt
    ensures old(clock.now) <= req.floorNow <= req.stamp == clock.now
    ensures r == if Free(old(storage.store.tokens), key, req.stamp, storage.slack) then Ok(()) else Err(Unauthorized)
    ensures storage.store == old(storage.store).(tokens := ClaimAll(old(storage.store.tokens), [req], storage.slack).0)
    ensures r.Ok? ==> storage.store.tokens
                      == old(storage.store.tokens)[key := if expiresAt <= req.floorNow + 60 then req.floorNow + 60 else expiresAt]
  {
    var t := clock.Read();
    var floor := t + REPLAY_LEEWAY;
    var recorded: nat := if expiresAt >= floor then expiresAt else floor;
    var now := clock.Read();
    req := ClaimRequest(key, expiresAt, t, now);
    OneClaim(storage.store.tokens, req, storage.slack);
    var answer := storage.Perform(ClaimToken(key, recorded, now));
    match answer
    case Refused(Conflict) => r := Err(Unauthorized);
    case Refused(e) => r := Err(e);
    case _ => r := Ok(());
  }

  method ClaimJti(storage: Storage, clock: Clock, kind: string, jti: string, expiresAt: int)
    returns (r: Result<(), Error>, ghost req: ClaimRequest)
    modifies storage, clock
    ensures req.key == JtiKey(kind, jti) && req.wanted == expiresAt
    ensures old(clock.now) <= req.floorNow <= req.stamp == clock.now
    ensures r == if Free(old(storage.store.tokens), req.key, req.stamp, storage.slack) then Ok(()) else Err(Unauthorized)
    ensures storage.store == old(storage.store).(tokens := ClaimAll(old(storage.store.tokens), [req], storage.slack).0)
  {
    r, req := ClaimOnce(storage, clock, JtiKey(kind, jti), expiresAt);
  }

  /** The requests made are those of a prefix of the scopes, in order. */
  ghost predicate ForScopes(reqs: seq<ClaimRequest>, scopes: seq<OnceClaim>, defaultExpiry: int) {
    |reqs| <= |scopes|
    && forall i :: 0 <= i < |reqs| ==>
         && reqs[i].key == "scope" + "#" + (scopes[i].namespace + "#" + scopes[i].value)
         && reqs[i].wanted == if scopes[i].expiresAt.Some? then scopes[i].expiresAt.value else defaultExpiry
  }

  ghost predicate InOrder(reqs: seq<ClaimRequest>, from: nat, to: nat) {
    && (forall i :: 0 <= i < |reqs| ==> from <= reqs[i].floorNow <= reqs[i].stamp <= to)
    && (forall i, j :: 0 <= i < j < |reqs| ==> reqs[i].stamp <= reqs[j].floorNow)
  }

  /** The next scope's claim keeps the requests those of a prefix, in order. */
  lemma OneMoreScope(reqs: seq<ClaimRequest>, req: ClaimRequest, scopes: seq<OnceClaim>, defaultExpiry: int,
                     from: nat, mid: nat, to: nat)
    requires ForScopes(reqs, scopes, defaultExpiry) && InOrder(reqs, from, mid) && |reqs| < |scopes|
    requires req.key == ScopeKey(scopes[|reqs|].namespace, scopes[|reqs|].value) && req.wanted == ScopeExpiry(scopes[|reqs|], defaultExpiry)
    requires from <= mid <= req.floorNow <= req.stamp <= to
    ensures ForScopes(reqs + [req], scopes, defaultExpiry) && InOrder(reqs + [req], from, to)
  {
    var more, n := reqs + [req], |reqs|;
    forall i | 0 <= i <= n
      ensures more[i].key == ScopeKey(scopes[i].namespace, scopes[i].value) && more[i].wanted == ScopeExpiry(scopes[i], defaultExpiry)
    {
      if i < n { assert more[i] == reqs[i]; }
    }
  }

  /** Claim every scope in order, stopping at the first conflict. */
  method ClaimOnceScopes(storage: Storage, clock: Clock, scopes: seq<OnceClaim>, defaultExpiry: int)
    returns (r: Result<(), Error>, ghost reqs: seq<ClaimRequest>)
    modifies storage, clock
    ensures ForScopes(reqs, scopes, defaultExpiry)
    ensures old(clock.now) <= clock.now && InOrder(reqs, old(clock.now), clock.now)
    ensures storage.store == old(storage.store).(tokens := ClaimAll(old(storage.store.tokens), reqs, storage.slack).0)
    ensures r.Ok? ==> |reqs| == |scopes| == ClaimAll(old(storage.store.tokens), reqs, storage.slack).1
    ensures r.Err? ==> r.error == Unauthorized && ClaimAll(old(storage.store.tokens), reqs, storage.slack).1 + 1 == |reqs|
  {
    reqs := [];
    ghost var tokens := storage.store.tokens;
    for i := 0 to |scopes|
      invariant |reqs| == i && ForScopes(reqs, scopes, defaultExpiry)
      invariant old(clock.now) <= clock.now && InOrder(reqs, old(clock.now), clock.now)
      invariant storage.store == old(storage.store).(tokens := ClaimAll(tokens, reqs, storage.slack).0)
      invariant ClaimAll(tokens, reqs, storage.slack).1 == i
    {
      var scope := scopes[i];
      ghost var before, mid := storage.store.tokens, clock.now;
      var one;
      ghost var req;
      one, req := ClaimOnce(storage, clock, ScopeKey(scope.namespace, scope.value), ScopeExpiry(scope, defaultExpiry));
      OneMoreScope(reqs, req, scopes, defaultExpiry, old(clock.now), mid, clock.now);
      ClaimSequence(tokens, reqs, [req], storage.slack);
      OneClaim(before, req, storage.slack);
      reqs := reqs + [req];
      if one.Err? {
        return Err(one.error), reqs;
      }
    }
    return Ok(()), reqs;
  }

  lemma OneClaim(tokens: map<string, nat>, req: ClaimRequest, slack: nat)
    ensures ClaimAll(tokens, [req], slack)
            == if Free(tokens, req.key, req.stamp, slack) then (tokens[req.key := req.Recorded()], 1) else (tokens, 0)
  {
    assert [req][..0] == [] && ClaimAll(tokens, [], slack) == (tokens, 0);
  }
}
