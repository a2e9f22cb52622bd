/**
 The single-flight key-set cache (ayane/src/authorizer/jwks.rs) under any interleaving of callers.
 Steps are the stretches of code between two awaits.
 */
module Jwks {
  import opened Basics
  import opened Text
  import opened Decimal

  const MIN_REFETCH: nat := 60
  const MIN_TTL: nat := 300
  const MAX_TTL: nat := 24 * 3600
  const DEFAULT_TTL: nat := 3600

  datatype Jwk = Jwk(kid: Option<string>, material: Bytes)

  datatype Keyset = Keyset(keys: seq<Jwk>, fetchedAt: nat, ttl: nat) {
    predicate Fresh(now: nat) {
      now < fetchedAt + ttl
    }
  }

  function FirstWithKid(keys: seq<Jwk>, kid: string): Option<Jwk> {
    if keys == [] then None
    else if keys[0].kid == Some(kid) then Some(keys[0])
    else FirstWithKid(keys[1..], kid)
  }

  /** By `kid` when the token names one; otherwise the sole key of a one-key set. */
  function SelectKey(keys: seq<Jwk>, kid: Option<string>): Option<Jwk> {
    match kid
    case Some(id) => FirstWithKid(keys, id)
    case None => if |keys| == 1 then Some(keys[0]) else None
  }

  /** The key selected bears the id asked for, the first in the set to do so; without an id it is the set's only key. */
  lemma {:induction false} SelectedKey(keys: seq<Jwk>, kid: Option<string>)
    ensures
      match SelectKey(keys, kid)
      case Some(key) =>
        if kid.None? then keys == [key]
        else exists i :: 0 <= i < |keys| && keys[i] == key && key.kid == kid && forall j :: 0 <= j < i ==> keys[j].kid != kid
      case None => if kid.None? then |keys| != 1 else forall i :: 0 <= i < |keys| ==> keys[i].kid != kid
    decreases |keys|
  {
    if kid.Some? && keys != [] && keys[0].kid != kid {
      SelectedKey(keys[1..], kid);
      if SelectKey(keys, kid).Some? {
        var i :| 0 <= i < |keys[1..]| && keys[1..][i] == SelectKey(keys, kid).value && forall j :: 0 <= j < i ==> keys[1..][j].kid != kid;
        assert keys[i + 1] == keys[1..][i];
        forall j | 0 <= j < i + 1 ensures keys[j].kid != kid {
          if j > 0 { assert keys[j] == keys[1..][j - 1]; }
        }
      } else {
        forall i | 0 <= i < |keys| ensures keys[i].kid != kid {
          if i > 0 { assert keys[i] == keys[1..][i - 1]; }
        }
      }
    }
  }

  // ----- Lifetime of a fetched set -----

  function Clamp(seconds: nat): nat {
    if seconds < MIN_TTL then MIN_TTL else if seconds > MAX_TTL then MAX_TTL else seconds
  }

  function DirectiveSeconds(directive: string): Option<nat> {
    match StripPrefix(Trim(directive), "max-age=")
    case None => None
    case Some(v) => ParseU64(v)
  }

  /** The first `max-age` that parses. */
  function FirstMaxAge(directives: seq<string>): Option<nat> {
    if directives == [] then None
    else if DirectiveSeconds(directives[0]).Some? then DirectiveSeconds(directives[0])
    else FirstMaxAge(directives[1..])
  }

  /** A directive gives an age exactly when, trimmed, it is `max-age=` and a number of at most 64 bits. */
  lemma DirectiveAge(directive: string)
    ensures
      var d := Trim(directive);
      DirectiveSeconds(directive) == if |d| >= 8 && d[..8] == "max-age=" then ParseU64(d[8..]) else None
  {
    assert |"max-age="| == 8;
  }

  /** The age in force is that of the first directive that gives one. */
  lemma {:induction false} FirstAge(directives: seq<string>)
    ensures
      match FirstMaxAge(directives)
      case Some(s) =>
        exists i :: 0 <= i < |directives| && DirectiveSeconds(directives[i]) == Some(s)
                    && forall j :: 0 <= j < i ==> DirectiveSeconds(directives[j]).None?
      case None => forall i :: 0 <= i < |directives| ==> DirectiveSeconds(directives[i]).None?
  {
    if directives != [] && DirectiveSeconds(directives[0]).None? {
      var rest := directives[1..];
      FirstAge(rest);
      if FirstMaxAge(directives).Some? {
        var i :| 0 <= i < |rest| && DirectiveSeconds(rest[i]) == FirstMaxAge(directives) && forall j :: 0 <= j < i ==> DirectiveSeconds(rest[j]).None?;
        forall j | 0 <= j < i + 1 ensures DirectiveSeconds(directives[j]).None? {
          if j > 0 { assert directives[j] == rest[j - 1]; }
        }
        assert directives[i + 1] == rest[i];
      } else {
        forall i | 0 <= i < |directives| ensures DirectiveSeconds(directives[i]).None? {
          if i > 0 { assert directives[i] == rest[i - 1]; }
        }
      }
    }
  }

  /** Within bounds whatever the header says: above the refetch floor in particular. */
  method CacheControlTtl(header: Option<string>) returns (ttl: nat)
    ensures 60 < 300 <= ttl <= 86_400
    ensures header.None? || FirstMaxAge(Split(header.value, ',')).None? ==> ttl == 3_600
    ensures header.Some? && FirstMaxAge(Split(header.value, ',')).Some? ==>
              var s := FirstMaxAge(Split(header.value, ',')).value;
              ttl == if s < 300 then 300 else if s > 86_400 then 86_400 else s
  {
    if header.None? {
      return DEFAULT_TTL;
    }
    var directives := Split(header.value, ',');
    for i := 0 to |directives|
      invariant FirstMaxAge(directives) == FirstMaxAge(directives[i..])
    {
      var seconds := DirectiveSeconds(directives[i]);
      if seconds.Some? {
        return Clamp(seconds.value);
      }
    }
    return DEFAULT_TTL;
  }

  // ----- Callers -----

  /** Where a call of `resolve` stands; `start` is when it began. */
  datatype Caller =
    | Waiting(start: nat, kid: Option<string>)
    | Locked(start: nat, kid: Option<string>)
    | Fetching(start: nat, kid: Option<string>, since: nat)
    | Storing(start: nat, kid: Option<string>, keyset: Keyset)
    | Refreshed(start: nat, kid: Option<string>)
    | Resolved(start: nat, kid: Option<string>, key: Jwk, source: Keyset, at: nat)
    | Failed

  /** `fetched` lists the instants of the successful fetches stored so far. */
  datatype State = State(now: nat, memo: Option<Keyset>, lock: Option<nat>, callers: map<nat, Caller>, fetched: seq<nat>)

  const INITIAL := State(0, None, None, map[], [])

  datatype Step =
    | Tick(to: nat)
    | Call(t: nat, kid: Option<string>)
    | Acquire(t: nat)
    | Check(t: nat)
    | FetchOk(t: nat, keys: seq<Jwk>, ttl: nat)
    | FetchFail(t: nat)
    | Store(t: nat)
    | Read(t: nat)
    | Cancel(t: nat)

  predicate HoldsLock(c: Caller) {
    c.Locked? || c.Fetching? || c.Storing?
  }

  predicate At(s: State, t: nat) {
    t in s.callers
  }

  predicate Enabled(s: State, step: Step) {
    match step
    case Tick(to) => s.now <= to
    case Call(t, _) => t !in s.callers
    case Acquire(t) => At(s, t) && s.callers[t].Waiting? && s.lock.None?
    case Check(t) => At(s, t) && s.callers[t].Locked?
    case FetchOk(t, _, ttl) => At(s, t) && s.callers[t].Fetching? && MIN_TTL <= ttl <= MAX_TTL
    case FetchFail(t) => At(s, t) && s.callers[t].Fetching?
    case Store(t) => At(s, t) && s.callers[t].Storing?
    case Read(t) => At(s, t) && s.callers[t].Refreshed?
    case Cancel(t) => At(s, t) && !s.callers[t].Resolved?
  }

  /** The fast path: a fresh cached set that holds the key. */
  predicate ServedFromCache(s: State, kid: Option<string>) {
    s.memo.Some? && s.memo.value.Fresh(s.now) && SelectKey(s.memo.value.keys, kid).Some?
  }

  function Put(s: State, t: nat, c: Caller): State {
    s.(callers := s.callers[t := c])
  }

  function Next(s: State, step: Step): State
    requires Enabled(s, step)
  {
    match step
    case Tick(to) => s.(now := to)
    case Call(t, kid) =>
      if ServedFromCache(s, kid)
      then Put(s, t, Resolved(s.now, kid, SelectKey(s.memo.value.keys, kid).value, s.memo.value, s.now))
      else Put(s, t, Waiting(s.now, kid))
    case Acquire(t) => Put(s.(lock := Some(t)), t, Locked(s.callers[t].start, s.callers[t].kid))
    case Check(t) =>
      if s.memo.Some? && s.now < s.memo.value.fetchedAt + MIN_REFETCH
      then Put(s.(lock := None), t, Refreshed(s.callers[t].start, s.callers[t].kid))
      else Put(s, t, Fetching(s.callers[t].start, s.callers[t].kid, s.now))
    case FetchOk(t, keys, ttl) =>
      Put(s, t, Storing(s.callers[t].start, s.callers[t].kid, Keyset(keys, s.now, ttl)))
    case FetchFail(t) => Put(s.(lock := None), t, Failed)
    case Store(t) =>
      var keyset := s.callers[t].keyset;
      Put(s.(memo := Some(keyset), lock := None, fetched := s.fetched + [keyset.fetchedAt]), t,
          Refreshed(s.callers[t].start, s.callers[t].kid))
    case Read(t) =>
      (match s.memo
       case None => Put(s, t, Failed)
       case Some(keyset) =>
         match SelectKey(keyset.keys, s.callers[t].kid)
         case None => Put(s, t, Failed)
         case Some(key) => Put(s, t, Resolved(s.callers[t].start, s.callers[t].kid, key, keyset, s.now)))
    case Cancel(t) =>
      Put(if HoldsLock(s.callers[t]) then s.(lock := None) else s, t, Failed)
  }

  predicate Legal(run: seq<Step>)
    decreases |run|, 0
  {
    run != [] ==> Legal(run[..|run| - 1]) && Enabled(After(run[..|run| - 1]), run[|run| - 1])
  }

  function After(run: seq<Step>): State
    requires Legal(run)
    decreases |run|, 1
  {
    if run == [] then INITIAL else Next(After(run[..|run| - 1]), run[|run| - 1])
  }

  /** No run is left out: callers come, take the free lock, finish, fail or are cancelled at any stretch between two awaits. */
  lemma NoRunLeftOut(s: State, t: nat, kid: Option<string>, to: nat)
    ensures s.now <= to ==> Enabled(s, Tick(to))
    ensures t !in s.callers ==> Enabled(s, Call(t, kid))
    ensures t in s.callers ==>
              && (s.callers[t].Waiting? && s.lock.None? ==> Enabled(s, Acquire(t)))
              && (s.callers[t].Locked? ==> Enabled(s, Check(t)))
              && (s.callers[t].Fetching? ==> Enabled(s, FetchFail(t)))
              && (s.callers[t].Storing? ==> Enabled(s, Store(t)))
              && (s.callers[t].Refreshed? ==> Enabled(s, Read(t)))
              && (!s.callers[t].Resolved? ==> Enabled(s, Cancel(t)))
  {
  }

  /** A run goes on by any enabled step, with that step's effect. */
  lemma RunGoesOn(run: seq<Step>, step: Step)
    requires Legal(run) && Enabled(After(run), step)
    ensures Legal(run + [step]) && After(run + [step]) == Next(After(run), step)
    ensures After([]) == State(0, None, None, map[], [])
  {
    assert (run + [step])[..|run|] == run;
  }

  // ----- Invariant -----

  /** The set had been fetched and had not expired at some instant of the call. */
  ghost predicate FreshDuring(keyset: Keyset, start: nat, end: nat) {
    exists x :: start <= x <= end && keyset.fetchedAt <= x && keyset.Fresh(x)
  }

  /** No set was stored less than the refetch floor before `since`. */
  predicate FloorPassed(memo: Option<Keyset>, since: nat) {
    memo.Some? ==> memo.value.fetchedAt + MIN_REFETCH <= since
  }

  ghost predicate CallerOk(s: State, c: Caller) {
    match c
    case Waiting(start, _) => start <= s.now
    case Locked(start, _) => start <= s.now
    case Fetching(start, _, since) => start <= since <= s.now && FloorPassed(s.memo, since)
    case Storing(start, _, keyset) =>
      start <= keyset.fetchedAt <= s.now && MIN_TTL <= keyset.ttl <= MAX_TTL && FloorPassed(s.memo, keyset.fetchedAt)
    case Refreshed(start, _) => start <= s.now && s.memo.Some? && start < s.memo.value.fetchedAt + MIN_REFETCH
    case Resolved(start, kid, key, source, at) =>
      SelectKey(source.keys, kid) == Some(key) && at <= s.now && FreshDuring(source, start, at)
    case Failed => true
  }

  ghost predicate Spaced(fetched: seq<nat>) {
    forall i, j :: 0 <= i < j < |fetched| ==> fetched[i] + MIN_REFETCH <= fetched[j]
  }

  ghost predicate Inv(s: State) {
    && (forall t :: t in s.callers ==> CallerOk(s, s.callers[t]))
    && (forall t :: t in s.callers ==> (HoldsLock(s.callers[t]) <==> s.lock == Some(t)))
    && (s.lock.Some? ==> s.lock.value in s.callers)
    && (s.memo.Some? ==> s.memo.value.fetchedAt <= s.now && MIN_TTL <= s.memo.value.ttl <= MAX_TTL)
    && Spaced(s.fetched)
    && (if s.fetched == [] then s.memo.None? else s.memo.Some? && s.memo.value.fetchedAt == s.fetched[|s.fetched| - 1])
  }

  lemma CallKeeps(s: State, step: Step)
    requires Inv(s) && Enabled(s, step) && step.Call?
    ensures Inv(Next(s, step))
  {
    if s.memo.Some? && s.memo.value.Fresh(s.now) {
      assert FreshDuring(s.memo.value, s.now, s.now);
    }
  }

  lemma ReadKeeps(s: State, step: Step)
    requires Inv(s) && Enabled(s, step) && step.Read?
    ensures Inv(Next(s, step))
  {
    var c := s.callers[step.t];
    assert CallerOk(s, c);
    var keyset := s.memo.value;
    var x := if c.start <= keyset.fetchedAt then keyset.fetchedAt else c.start;
    assert keyset.Fresh(x);
    assert FreshDuring(keyset, c.start, s.now);
  }

  lemma StoreKeeps(s: State, step: Step)
    requires Inv(s) && Enabled(s, step) && step.Store?
    ensures Inv(Next(s, step))
  {
    var s', t := Next(s, step), step.t;
    var keyset := s.callers[t].keyset;
    assert CallerOk(s, s.callers[t]);
    forall u | u in s'.callers ensures CallerOk(s', s'.callers[u]) {
      if u != t {
        assert CallerOk(s, s.callers[u]);
        assert !HoldsLock(s.callers[u]);
      }
    }
    forall i, j | 0 <= i < j < |s'.fetched| ensures s'.fetched[i] + MIN_REFETCH <= s'.fetched[j] {
      if j == |s.fetched| && i < |s.fetched| - 1 {
        assert s.fetched[i] + MIN_REFETCH <= s.fetched[|s.fetched| - 1];
      }
    }
  }

  lemma TickKeeps(s: State, step: Step)
    requires Inv(s) && Enabled(s, step) && step.Tick?
    ensures Inv(Next(s, step))
  {
    forall t | t in s.callers ensures CallerOk(Next(s, step), s.callers[t]) {
      assert CallerOk(s, s.callers[t]);
    }
  }

  // The remaining steps move one caller and the lock, and leave the cache alone.

  lemma AcquireKeeps(s: State, step: Step)
    requires Inv(s) && Enabled(s, step) && step.Acquire?
    ensures Inv(Next(s, step))
  {
    var s' := Next(s, step);
    assert CallerOk(s, s.callers[step.t]);
    forall u | u in s'.callers ensures CallerOk(s', s'.callers[u]) {
      if u != step.t { assert CallerOk(s, s.callers[u]); }
    }
  }

  lemma CheckKeeps(s: State, step: Step)
    requires Inv(s) && Enabled(s, step) && step.Check?
    ensures Inv(Next(s, step))
  {
    var s' := Next(s, step);
    assert CallerOk(s, s.callers[step.t]);
    forall u | u in s'.callers ensures CallerOk(s', s'.callers[u]) {
      if u != step.t { assert CallerOk(s, s.callers[u]); }
    }
  }

  lemma FetchOkKeeps(s: State, step: Step)
    requires Inv(s) && Enabled(s, step) && step.FetchOk?
    ensures Inv(Next(s, step))
  {
    var s' := Next(s, step);
    assert CallerOk(s, s.callers[step.t]);
    forall u | u in s'.callers ensures CallerOk(s', s'.callers[u]) {
      if u != step.t { assert CallerOk(s, s.callers[u]); }
    }
  }

  lemma GiveUpKeeps(s: State, step: Step)
    requires Inv(s) && Enabled(s, step) && (step.FetchFail? || step.Cancel?)
    ensures Inv(Next(s, step))
  {
    var s' := Next(s, step);
    assert CallerOk(s, s.callers[step.t]);
    forall u | u in s'.callers ensures CallerOk(s', s'.callers[u]) {
      if u != step.t { assert CallerOk(s, s.callers[u]); }
    }
  }

  lemma {:induction false} AlwaysInv(run: seq<Step>)
    requires Legal(run)
    ensures Inv(After(run))
  {
    if run != [] {
      var s, step := After(run[..|run| - 1]), run[|run| - 1];
      AlwaysInv(run[..|run| - 1]);
      match step
      case Call(_, _) => CallKeeps(s, step);
      case Read(_) => ReadKeeps(s, step);
      case Store(_) => StoreKeeps(s, step);
      case Tick(_) => TickKeeps(s, step);
      case Acquire(_) => AcquireKeeps(s, step);
      case Check(_) => CheckKeeps(s, step);
      case FetchOk(_, _, _) => FetchOkKeeps(s, step);
      case FetchFail(_) => GiveUpKeeps(s, step);
      case Cancel(_) => GiveUpKeeps(s, step);
    }
  }

  // ----- Safety over every run -----

  /** At most one fetch is in flight. */
  lemma SingleFlight(run: seq<Step>, t: nat, u: nat)
    requires Legal(run) && t in After(run).callers && u in After(run).callers
    requires After(run).callers[t].Fetching? && After(run).callers[u].Fetching?
    ensures t == u
  {
    AlwaysInv(run);
  }

  /** Successful fetches are at least a minute apart. */
  lemma FetchesSpaced(run: seq<Step>, i: nat, j: nat)
    requires Legal(run) && i < j < |After(run).fetched|
    ensures After(run).fetched[i] + 60 <= After(run).fetched[j]
  {
    AlwaysInv(run);
  }

  /** Every key returned was selected from a set that was fresh at some instant during the call. */
  lemma ResolvedFromFreshSet(run: seq<Step>, t: nat)
    requires Legal(run) && t in After(run).callers && After(run).callers[t].Resolved?
    ensures
      var c := After(run).callers[t];
      && c.key in c.source.keys && (if c.kid.None? then |c.source.keys| == 1 else c.key.kid == c.kid)
      && var x := if c.start <= c.source.fetchedAt then c.source.fetchedAt else c.start;
         x <= c.at && x < c.source.fetchedAt + c.source.ttl
  {
    AlwaysInv(run);
    assert CallerOk(After(run), After(run).callers[t]);
    SelectedKey(After(run).callers[t].source.keys, After(run).callers[t].kid);
  }

  /** After a successful refresh the cache is never empty. */
  lemma NeverEmptyAfterRefresh(run: seq<Step>, t: nat)
    requires Legal(run) && t in After(run).callers && After(run).callers[t].Refreshed?
    ensures After(run).memo.Some?
  {
    AlwaysInv(run);
    assert CallerOk(After(run), After(run).callers[t]);
  }

  /** Past the lock a caller fetches exactly when nothing was stored in the last minute. */
  lemma FetchesAfterAMinute(run: seq<Step>, t: nat)
    requires Legal(run) && t in After(run).callers && After(run).callers[t].Locked?
    ensures
      var s := After(run);
      Enabled(s, Check(t))
      && (Next(s, Check(t)).callers[t].Fetching? <==> s.memo.None? || s.memo.value.fetchedAt + 60 <= s.now)
      && (Next(s, Check(t)).callers[t].Fetching? || Next(s, Check(t)).callers[t].Refreshed?)
  {
  }

  /** A caller that fetches may be answered with any lifetime a header can ask for. */
  lemma AnyLifetime(s: State, t: nat, keys: seq<Jwk>, ttl: nat)
    requires t in s.callers && s.callers[t].Fetching? && 300 <= ttl <= 86_400
    ensures Enabled(s, FetchOk(t, keys, ttl)) && Next(s, FetchOk(t, keys, ttl)).callers[t].Storing?
    ensures Next(s, FetchOk(t, keys, ttl)).callers[t].keyset == Keyset(keys, s.now, ttl)
  {
  }

  /**
   Only successful fetches are held back: once a fetch fails, a newcomer is served without one exactly
   when a fresh cached set holds its key, and otherwise starts the next fetch in the same instant.
   */
  lemma FailedFetchFreesTheNext(run: seq<Step>, t: nat, u: nat, kid: Option<string>)
    requires Legal(run) && t in After(run).callers && After(run).callers[t].Fetching? && u !in After(run).callers
    ensures
      var s := After(run);
      && Enabled(s, FetchFail(t)) && var s1 := Next(s, FetchFail(t));
      && Enabled(s1, Call(u, kid)) && var s2 := Next(s1, Call(u, kid));
      && (s2.callers[u].Resolved? <==> ServedFromCache(s, kid))
      && (!ServedFromCache(s, kid) ==>
            && Enabled(s2, Acquire(u)) && var s3 := Next(s2, Acquire(u));
            && Enabled(s3, Check(u)) && Next(s3, Check(u)).callers[u] == Fetching(s.now, kid, s.now))
  {
    AlwaysInv(run);
    assert CallerOk(After(run), After(run).callers[t]);
  }
}
