/**
 The signed roots response end to end: the server's cached signature
 (ayane/src/service.rs) and the client's checks (ayane-cli/src/httpsig.rs).
 */
module SignedRoots {
  import opened Basics
  import opened HttpSig
  import opened StorageContract
  import opened Claiming
  import P = PathSearch
  import Text

  /** The fixed CA and configuration, with the libraries it uses. */
  datatype Signer = Signer(
    body: Bytes, ttl: nat, externalUrl: string, x5t: string, alg: string,
    sha384: Bytes -> Bytes, hex: Bytes -> string, b64: Base64,
    sign: string -> Bytes,
    toJson: CachedRootsSig -> Bytes, fromJson: Bytes -> Option<CachedRootsSig>)
  {
    /** The configured lifetime is a whole number of seconds the wire format can carry; JSON and base64 round-trip. */
    ghost predicate Valid() {
      && ttl <= MAX_INSTANT
      && b64.Inverts()
      && |sha384(body)| == 48
      && forall c :: fromJson(toJson(c)) == Some(c)
    }
  }

  datatype CachedRootsSig = CachedRootsSig(
    created: u64, expires: u64, signatureKey: string, signature: string, signatureInput: string)

  datatype Response = Response(
    body: Bytes, contentType: string, contentDigest: string,
    signatureInput: string, signature: string, signatureKey: string)

  // ----- Server -----

  function Min(a: nat, b: nat): nat {
    if a <= b then a else b
  }

  function RefreshMargin(ttl: nat): nat {
    Min(ttl / 4, 300)
  }

  /** A quarter of the lifetime, at most five minutes: from twenty minutes on it is the five minutes. */
  lemma MarginIs(ttl: nat)
    ensures ttl >= 1_200 ==> RefreshMargin(ttl) == 300
    ensures ttl < 1_200 ==> 4 * RefreshMargin(ttl) <= ttl < 4 * RefreshMargin(ttl) + 4
  {
  }

  function CacheKeyOf(c: Signer): string {
    "roots-sig:v1:" + c.hex(c.sha384(c.body))
  }

  /** Another body has another cache key, as long as digests and their hexadecimal tell them apart. */
  lemma CacheKeysDiffer(c: Signer, body: Bytes)
    requires c.hex(c.sha384(c.body)) != c.hex(c.sha384(body))
    ensures CacheKeyOf(c) != CacheKeyOf(c.(body := body))
  {
    if CacheKeyOf(c) == CacheKeyOf(c.(body := body)) {
      Text.SamePrefix("roots-sig:v1:", c.hex(c.sha384(c.body)), c.hex(c.sha384(body)));
      assert false;
    }
  }

  function ParamsAt(c: Signer, created: Moment): RootsSigParams
    requires c.ttl <= MAX_INSTANT
  {
    RootsSigParams(created, created + c.ttl, c.alg)
  }

  function KeyHeader(c: Signer): string {
    SignatureKeyX509(c.externalUrl + SIGNER_CHAIN_PATH, c.x5t)
  }

  function DigestHeader(c: Signer): string {
    ContentDigestHeader(c.b64, c.sha384(c.body))
  }

  /** The signature made at `created`: it covers exactly the digest and key headers returned with it. */
  function SignatureAt(c: Signer, created: Moment): CachedRootsSig
    requires c.ttl <= MAX_INSTANT
  {
    var p := ParamsAt(c, created);
    var base := RootsSignatureBase(200, ROOTS_CONTENT_TYPE, DigestHeader(c), KeyHeader(c), p);
    CachedRootsSig(p.created, p.expires, KeyHeader(c), SignatureHeaderValue(c.b64, c.sign(base)), SignatureInputValue(p))
  }

  function ResponseWith(c: Signer, sig: CachedRootsSig): Response {
    Response(c.body, ROOTS_CONTENT_TYPE, DigestHeader(c), sig.signatureInput, sig.signature, sig.signatureKey)
  }

  function ResponseAt(c: Signer, created: Moment): Response
    requires c.ttl <= MAX_INSTANT
  {
    ResponseWith(c, SignatureAt(c, created))
  }

  /** What a request at `now` makes of the cache entry it found: a signature with enough time left, or none. */
  function Usable(c: Signer, now: Moment, found: Option<Bytes>): Result<Option<CachedRootsSig>, Error> {
    match found
    case None => Ok(None)
    case Some(bytes) =>
      match c.fromJson(bytes)
      case None => Err(Internal)
      case Some(sig) => Ok(if now + RefreshMargin(c.ttl) < sig.expires then Some(sig) else None)
  }

  /** The cache holds a signature made at this instant. */
  ghost predicate HoldsSignature(c: Signer, store: Store, created: Moment)
    requires c.ttl <= MAX_INSTANT
  {
    CacheKeyOf(c) in store.cache
    && store.cache[CacheKeyOf(c)] == CacheEntry(c.toJson(SignatureAt(c, created)), created + c.ttl)
  }

  /** Whatever the cache holds for this body was signed by this CA no later than `clock`. */
  ghost predicate CacheSound(c: Signer, store: Store, clock: Moment)
    requires c.ttl <= MAX_INSTANT
  {
    CacheKeyOf(c) in store.cache ==> exists created: Moment :: created <= clock && HoldsSignature(c, store, created)
  }

  lemma HitIsSignature(c: Signer, store: Store, read: nat, slack: nat, created: Moment)
    requires c.Valid() && HoldsSignature(c, store, created)
    requires Step(store, GetCache(CacheKeyOf(c), read), slack).1.value.Some?
    ensures c.fromJson(Step(store, GetCache(CacheKeyOf(c), read), slack).1.value.value) == Some(SignatureAt(c, created))
  {
    assert c.fromJson(c.toJson(SignatureAt(c, created))) == Some(SignatureAt(c, created));
  }

  /** The same of every version a lookup may show. */
  ghost predicate AllSound(c: Signer, storage: Storage, clock: Moment)
    requires c.ttl <= MAX_INSTANT
    reads storage
  {
    CacheSound(c, storage.store, clock) && forall v :: v in storage.earlier ==> CacheSound(c, v, clock)
  }

  lemma SoundLater(c: Signer, storage: Storage, clock: Moment, later: Moment)
    requires c.Valid() && AllSound(c, storage, clock) && clock <= later
    ensures AllSound(c, storage, later)
  {
    forall v | v in storage.earlier ensures CacheSound(c, v, later) {
      assert CacheSound(c, v, clock);
    }
  }

  /** Whether a request finding a signature from `last` makes a new one. */
  predicate Resigns(ttl: nat, last: Option<Moment>, now: Moment, read: Moment) {
    last.None? || last.value + ttl <= read || last.value + ttl <= now + RefreshMargin(ttl)
  }

  /** A cache entry holds one signature only. */
  lemma HoldsOne(c: Signer, store: Store, a: Moment, b: Moment)
    requires c.Valid() && HoldsSignature(c, store, a) && HoldsSignature(c, store, b)
    ensures a == b
  {
    assert c.fromJson(c.toJson(SignatureAt(c, a))) == Some(SignatureAt(c, a));
    assert c.fromJson(c.toJson(SignatureAt(c, b))) == Some(SignatureAt(c, b));
  }

  /** The instant of the signature a version of the cache holds, if it holds one. */
  ghost predicate LastIn(c: Signer, v: Store, last: Option<Moment>)
    requires c.ttl <= MAX_INSTANT
  {
    if CacheKeyOf(c) in v.cache then last.Some? && HoldsSignature(c, v, last.value) else last.None?
  }

  lemma LastKnown(c: Signer, v: Store, clock: Moment) returns (last: Option<Moment>)
    requires c.Valid() && CacheSound(c, v, clock)
    ensures LastIn(c, v, last) && (last.Some? ==> last.value <= clock)
  {
    last := None;
    if CacheKeyOf(c) in v.cache {
      var created: Moment :| created <= clock && HoldsSignature(c, v, created);
      last := Some(created);
    }
  }

  /** A lookup gets this CA's own signature, and none when it is time to sign again. */
  lemma LookupAnswer(c: Signer, seen: Store, now: Moment, read: Moment, slack: nat, last: Option<Moment>)
    requires c.Valid() && now <= read && LastIn(c, seen, last)
    ensures Usable(c, now, Step(seen, GetCache(CacheKeyOf(c), read), slack).1.value)
            == Ok(if Resigns(c.ttl, last, now, read) then None else Some(SignatureAt(c, last.value)))
  {
    if Step(seen, GetCache(CacheKeyOf(c), read), slack).1.value.Some? {
      HitIsSignature(c, seen, read, slack, last.value);
    }
  }

  /** The cached signature, if it still has enough time left. */
  method LookUp(c: Signer, storage: Storage, at: Moment, readAt: Moment, ghost clock: Moment)
    returns (cached: Result<Option<CachedRootsSig>, Error>, ghost seen: Store, ghost last: Option<Moment>)
    requires c.Valid() && AllSound(c, storage, clock) && at <= readAt
    ensures storage.MayShow(seen) && LastIn(c, seen, last) && (last.Some? ==> last.value <= clock)
    ensures cached == Ok(if Resigns(c.ttl, last, at, readAt) then None else Some(SignatureAt(c, last.value)))
  {
    var found;
    found, seen := storage.Look(GetCache(CacheKeyOf(c), readAt));
    assert CacheSound(c, seen, clock);
    last := LastKnown(c, seen, clock);
    LookupAnswer(c, seen, at, readAt, storage.slack, last);
    cached := Usable(c, at, found.value);
  }

  /** Sign at `at` and cache the signature for its lifetime. */
  method SignAndCache(c: Signer, storage: Storage, at: Moment, ghost clock: Moment) returns (sig: CachedRootsSig)
    requires c.Valid() && AllSound(c, storage, clock) && at <= clock
    modifies storage
    ensures sig == SignatureAt(c, at) && HoldsSignature(c, storage.store, at)
    ensures AllSound(c, storage, clock)
    ensures storage.store.(cache := old(storage.store.cache)) == old(storage.store)
  {
    sig := SignatureAt(c, at);
    var stored := storage.Perform(SetCache(CacheKeyOf(c), c.toJson(sig), at + c.ttl));
    assert HoldsSignature(c, storage.store, at);
  }

  /**
   `GET /v1/roots`. Hit or fresh, the response is one this CA signed at `created`, not in the
   future and not yet expired when the request read its clock. `seen` is the version the lookup
   showed, and `last` the instant of the signature in it.
   */
  method GetSignedRoots(c: Signer, storage: Storage, clock: Clock)
    returns (r: Result<Response, Error>, ghost now: Moment, ghost read: Moment, ghost created: Moment,
             ghost seen: Store, ghost last: Option<Moment>)
    requires c.Valid() && AllSound(c, storage, clock.now)
    modifies storage, clock
    ensures old(clock.now) <= now <= read == clock.now
    ensures old(storage.MayShow(seen)) && LastIn(c, seen, last)
    ensures created == if Resigns(c.ttl, last, now, read) then now else last.value
    ensures r == Ok(ResponseAt(c, created))
    ensures created <= clock.now && (0 < c.ttl ==> now < created + c.ttl)
    ensures AllSound(c, storage, clock.now)
    ensures storage.store.(cache := old(storage.store.cache)) == old(storage.store)
    ensures seen == old(storage.store) ==> HoldsSignature(c, storage.store, created)
  {
    var at := clock.Read();
    now := at;
    var readAt := clock.Read();
    read := readAt;
    var cached;
    cached, seen, last := LookUp(c, storage, at, readAt, old(clock.now));
    SoundLater(c, storage, old(clock.now), clock.now);
    created := if Resigns(c.ttl, last, now, read) then now else last.value;
    if cached.Err? {
      return Err(Internal), now, read, created, seen, last;
    }
    if cached.value.Some? {
      return Ok(ResponseWith(c, cached.value.value)), now, read, created, seen, last;
    }
    var sig := SignAndCache(c, storage, at, clock.now);
    r := Ok(ResponseWith(c, sig));
  }

  // ----- How often the CA signs -----

  /** One request's two clock readings: its own, and the one inside the cache lookup. */
  datatype Visit = Visit(now: Moment, read: Moment)

  /** The instant of the signature in the cache after a sequence of visits. */
  function LastSigned(ttl: nat, visits: seq<Visit>): Option<Moment> {
    if visits == [] then None
    else
      var last, v := LastSigned(ttl, visits[..|visits| - 1]), visits[|visits| - 1];
      if Resigns(ttl, last, v.now, v.read) then Some(v.now) else last
  }

  predicate SignsAt(ttl: nat, visits: seq<Visit>, i: nat)
    requires i < |visits|
  {
    Resigns(ttl, LastSigned(ttl, visits[..i]), visits[i].now, visits[i].read)
  }

  ghost predicate Sequential(visits: seq<Visit>) {
    && (forall i :: 0 <= i < |visits| ==> visits[i].now <= visits[i].read)
    && (forall i, j :: 0 <= i < j < |visits| ==> visits[i].read <= visits[j].now)
  }

  lemma {:induction false} LastSignedSince(ttl: nat, visits: seq<Visit>, i: nat)
    requires Sequential(visits) && i < |visits| && SignsAt(ttl, visits, i)
    ensures LastSigned(ttl, visits).Some? && visits[i].now <= LastSigned(ttl, visits).value
    decreases |visits|
  {
    var n := |visits| - 1;
    var front := visits[..n];
    if i == n {
      assert visits[..i] == front;
    } else {
      assert front[..i] == visits[..i];
      LastSignedSince(ttl, front, i);
      assert visits[i].read <= visits[n].now;
    }
  }

  function Max(a: nat, b: nat): nat {
    if a >= b then a else b
  }

  /** How long after reading its clock a request looked the signature up. */
  function Lag(v: Visit): nat
    requires v.now <= v.read
  {
    v.read - v.now
  }

  /**
   Between two signatures of one body lies the lifetime, less the refresh margin or the second
   request's lag, whichever is longer.
   */
  lemma ResigningIsSpaced(ttl: nat, visits: seq<Visit>, i: nat, j: nat)
    requires Sequential(visits) && i < j < |visits|
    requires SignsAt(ttl, visits, i) && SignsAt(ttl, visits, j)
    ensures visits[j].read >= visits[i].now + ttl - RefreshMargin(ttl)
    ensures visits[j].now >= visits[i].now + ttl - Max(RefreshMargin(ttl), Lag(visits[j]))
  {
    var front := visits[..j];
    assert front[..i] == visits[..i];
    LastSignedSince(ttl, front, i);
  }

  /**
   The refresh margin alone bounds the spacing exactly when the lookup lags by no more than it: only
   then does every earlier signature that leads to a new one lie a lifetime less the margin back. (A
   lookup before one lifetime has passed since the epoch finds nothing expired, and no lifetime at all
   leaves nothing to space.)
   */
  lemma SpacedExactly(ttl: nat, v: Visit)
    requires v.now <= v.read
    ensures (forall last: Moment :: last <= v.now && Resigns(ttl, Some(last), v.now, v.read) ==> v.now >= last + ttl - RefreshMargin(ttl))
            <==> Lag(v) <= RefreshMargin(ttl) || v.read < ttl || ttl == 0
  {
    if Lag(v) > RefreshMargin(ttl) && v.read >= ttl && ttl > 0 {
      var last: Moment := if v.read - ttl <= v.now then v.read - ttl else v.now;
      assert last <= v.now && Resigns(ttl, Some(last), v.now, v.read) && v.now < last + ttl - RefreshMargin(ttl);
    }
  }

  /** Slow lookups sign again early: twice in one instant, or ten minutes before the lifetime is up. */
  lemma SlowLookupSignsAgain()
    ensures
      var visits := [Visit(10, 10), Visit(10, 11)];
      Sequential(visits) && SignsAt(1, visits, 0) && SignsAt(1, visits, 1)
    ensures
      var visits := [Visit(0, 0), Visit(3000, 3600)];
      Sequential(visits) && SignsAt(3600, visits, 0) && SignsAt(3600, visits, 1) && RefreshMargin(3600) == 300
  {
    var a, b := [Visit(10, 10), Visit(10, 11)], [Visit(0, 0), Visit(3000, 3600)];
    assert a[..0] == [] && a[..1] == [Visit(10, 10)] && [Visit(10, 10)][..0] == [];
    assert b[..0] == [] && b[..1] == [Visit(0, 0)] && [Visit(0, 0)][..0] == [];
  }

  /** After each visit the cache holds the signature the visits so far account for. */
  ghost predicate Accounted(ttl: nat, visits: seq<Visit>, signedAt: seq<Moment>) {
    |visits| == |signedAt| && forall i :: 0 <= i < |signedAt| ==> LastSigned(ttl, visits[..i + 1]) == Some(signedAt[i])
  }

  lemma AccountedExtends(ttl: nat, visits: seq<Visit>, signedAt: seq<Moment>, v: Visit, created: Moment)
    requires Accounted(ttl, visits, signedAt)
    requires created == if signedAt == [] || Resigns(ttl, Some(signedAt[|signedAt| - 1]), v.now, v.read) then v.now else signedAt[|signedAt| - 1]
    ensures Accounted(ttl, visits + [v], signedAt + [created])
  {
    var n, longer, instants := |visits|, visits + [v], signedAt + [created];
    if n > 0 { assert visits[..n] == visits; }
    forall i | 0 <= i <= n ensures LastSigned(ttl, longer[..i + 1]) == Some(instants[i]) {
      if i == n {
        assert longer[..n + 1] == longer && longer[..n] == visits;
      } else {
        assert longer[..i + 1] == visits[..i + 1];
      }
    }
  }

  lemma SequentialExtends(visits: seq<Visit>, v: Visit, clock: Moment)
    requires Sequential(visits) && clock <= v.now <= v.read
    requires forall i :: 0 <= i < |visits| ==> visits[i].read <= clock
    ensures Sequential(visits + [v])
  {
  }

  /** What holds between two requests: the visits so far, and the signature they left in the cache. */
  ghost predicate Served(c: Signer, storage: Storage, now: Moment, visits: seq<Visit>, signedAt: seq<Moment>)
    requires c.ttl <= MAX_INSTANT
    reads storage
  {
    && Sequential(visits) && (forall i :: 0 <= i < |visits| ==> visits[i].read <= now)
    && Accounted(c.ttl, visits, signedAt) && AllSound(c, storage, now)
    && (if signedAt == [] then CacheKeyOf(c) !in storage.store.cache
        else HoldsSignature(c, storage.store, signedAt[|signedAt| - 1]))
  }

  /** One more request, accounted for. */
  method ServeNext(c: Signer, storage: Storage, clock: Clock, ghost visits: seq<Visit>, ghost signedAt: seq<Moment>)
    returns (response: Response, ghost v: Visit, ghost created: Moment)
    requires c.Valid() && storage.consistent && Served(c, storage, clock.now, visits, signedAt)
    modifies storage, clock
    ensures response == ResponseAt(c, created)
    ensures Served(c, storage, clock.now, visits + [v], signedAt + [created])
  {
    ghost var before := clock.now;
    var r;
    ghost var now, read, seen, last;
    r, now, read, created, seen, last := GetSignedRoots(c, storage, clock);
    response, v := r.value, Visit(now, read);
    if last.Some? {
      HoldsOne(c, seen, last.value, signedAt[|signedAt| - 1]);
    }
    SequentialExtends(visits, v, before);
    AccountedExtends(c.ttl, visits, signedAt, v, created);
  }

  /** Each response is the one signed at the instant beside it. */
  ghost predicate SignedResponses(c: Signer, responses: seq<Response>, signedAt: seq<Moment>)
    requires c.ttl <= MAX_INSTANT
  {
    |responses| == |signedAt| && forall i :: 0 <= i < |responses| ==> responses[i] == ResponseAt(c, signedAt[i])
  }

  lemma NothingServed(c: Signer, storage: Storage, now: Moment)
    requires c.Valid() && AllSound(c, storage, now) && CacheKeyOf(c) !in storage.store.cache
    ensures Served(c, storage, now, [], []) && SignedResponses(c, [], [])
  {
  }

  lemma OneMoreResponse(c: Signer, responses: seq<Response>, signedAt: seq<Moment>, created: Moment)
    requires c.ttl <= MAX_INSTANT && SignedResponses(c, responses, signedAt)
    ensures SignedResponses(c, responses + [ResponseAt(c, created)], signedAt + [created])
  {
  }

  /** Requests one after the other, on a consistent store, get the signatures their visits account for. */
  method ServeInTurn(c: Signer, storage: Storage, clock: Clock, count: nat)
    returns (responses: seq<Response>, ghost visits: seq<Visit>, ghost signedAt: seq<Moment>)
    requires c.Valid() && storage.consistent
    requires CacheKeyOf(c) !in storage.store.cache && AllSound(c, storage, clock.now)
    modifies storage, clock
    ensures |responses| == count && Sequential(visits)
    ensures Accounted(c.ttl, visits, signedAt)
    ensures SignedResponses(c, responses, signedAt)
  {
    NothingServed(c, storage, clock.now);
    responses, visits, signedAt := [], [], [];
    for served := 0 to count
      invariant |responses| == served && SignedResponses(c, responses, signedAt)
      invariant Served(c, storage, clock.now, visits, signedAt)
    {
      var response;
      ghost var v, created;
      response, v, created := ServeNext(c, storage, clock, visits, signedAt);
      OneMoreResponse(c, responses, signedAt, created);
      visits, signedAt, responses := visits + [v], signedAt + [created], responses + [response];
    }
  }

  // ----- Overlapping requests -----

  /** A request between two awaits: before the cache lookup, before the cache write, answered, or given up. */
  datatype Request =
    | Started(now: Moment)
    | Signing(now: Moment)
    | Answered(now: Moment, created: nat, response: Response)
    | Broken
    | GivenUp

  /** `past` are the earlier versions of the store; `signed` the instants the CA has set out to sign at. */
  datatype Server = Server(clock: Moment, store: Store, past: seq<Store>, requests: map<nat, Request>, signed: set<Moment>)

  /**
   `Look` may see any version, past or current. `Elsewhere` is anything else the store may do: it can
   drop this entry, but never write it.
   */
  datatype ServerStep =
    | Tick(to: Moment)
    | Begin(t: nat)
    | Look(t: nat, read: Moment, seen: nat)
    | Put(t: nat)
    | GiveUp(t: nat)
    | Elsewhere(after: Store)

  function Shown(s: Server, seen: nat): Store {
    if seen < |s.past| then s.past[seen] else s.store
  }

  function WithStore(s: Server, after: Store): Server {
    s.(store := after, past := s.past + [s.store])
  }

  predicate NeverWrites(c: Signer, before: Store, after: Store) {
    CacheKeyOf(c) in after.cache ==>
      CacheKeyOf(c) in before.cache && after.cache[CacheKeyOf(c)] == before.cache[CacheKeyOf(c)]
  }

  predicate Enabled(c: Signer, s: Server, step: ServerStep) {
    match step
    case Tick(to) => s.clock <= to
    case Begin(t) => t !in s.requests
    case Look(t, read, _) => t in s.requests && s.requests[t].Started? && s.requests[t].now <= read <= s.clock
    case Put(t) => t in s.requests && s.requests[t].Signing?
    case GiveUp(t) => t in s.requests && (s.requests[t].Started? || s.requests[t].Signing?)
    case Elsewhere(after) => NeverWrites(c, s.store, after)
  }

  /** What a lookup makes of a request: an answer, or a signature to make. */
  function Looked(c: Signer, now: Moment, view: Store, read: Moment): Request {
    match Usable(c, now, Step(view, GetCache(CacheKeyOf(c), read), 0).1.value)
    case Err(_) => Broken
    case Ok(None) => Signing(now)
    case Ok(Some(sig)) => Answered(now, sig.created, ResponseWith(c, sig))
  }

  function AfterLook(c: Signer, s: Server, t: nat, read: Moment, seen: nat): Server
    requires t in s.requests && s.requests[t].Started?
  {
    var r := Looked(c, s.requests[t].now, Shown(s, seen), read);
    s.(requests := s.requests[t := r], signed := if r.Signing? then s.signed + {r.now} else s.signed)
  }

  function AfterPut(c: Signer, s: Server, t: nat): Server
    requires c.ttl <= MAX_INSTANT && t in s.requests && s.requests[t].Signing?
  {
    var now := s.requests[t].now;
    var sig := SignatureAt(c, now);
    WithStore(s, Step(s.store, SetCache(CacheKeyOf(c), c.toJson(sig), now + c.ttl), 0).0)
      .(requests := s.requests[t := Answered(now, now, ResponseWith(c, sig))])
  }

  function Next(c: Signer, s: Server, step: ServerStep): Server
    requires c.ttl <= MAX_INSTANT && Enabled(c, s, step)
  {
    match step
    case Tick(to) => s.(clock := to)
    case Begin(t) => s.(requests := s.requests[t := Started(s.clock)])
    case Look(t, read, seen) => AfterLook(c, s, t, read, seen)
    case Put(t) => AfterPut(c, s, t)
    case GiveUp(t) => s.(requests := s.requests[t := GivenUp])
    case Elsewhere(after) => WithStore(s, after)
  }

  predicate Legal(c: Signer, run: seq<ServerStep>)
    requires c.ttl <= MAX_INSTANT
    decreases |run|, 0
  {
    run != [] ==> Legal(c, run[..|run| - 1]) && Enabled(c, After(c, run[..|run| - 1]), run[|run| - 1])
  }

  function After(c: Signer, run: seq<ServerStep>): Server
    requires c.ttl <= MAX_INSTANT && Legal(c, run)
    decreases |run|, 1
  {
    if run == [] then Server(0, EMPTY_STORE, [], map[], {}) else Next(c, After(c, run[..|run| - 1]), run[|run| - 1])
  }

  /**
   No run is left out: time may pass, requests may begin, look with any reading not in the future and see
   any version of the store, write, or be given up, in any order; and so may the rest of the store change.
   */
  lemma NoRunLeftOut(c: Signer, s: Server, t: nat, to: Moment, read: Moment, seen: nat, after: Store)
    requires c.ttl <= MAX_INSTANT
    ensures s.clock <= to ==> Enabled(c, s, Tick(to))
    ensures t !in s.requests ==> Enabled(c, s, Begin(t)) && Next(c, s, Begin(t)) == s.(requests := s.requests[t := Started(s.clock)])
    ensures t in s.requests && s.requests[t].Started? ==>
              && Enabled(c, s, GiveUp(t))
              && (s.requests[t].now <= read <= s.clock ==>
                    Enabled(c, s, Look(t, read, seen))
                    && Next(c, s, Look(t, read, seen)).requests[t]
                       == Looked(c, s.requests[t].now, if seen < |s.past| then s.past[seen] else s.store, read))
    ensures t in s.requests && s.requests[t].Signing? ==>
              && Enabled(c, s, GiveUp(t)) && Enabled(c, s, Put(t))
              && Next(c, s, Put(t)).past == s.past + [s.store]
    ensures after.cache == s.store.cache || after.cache == s.store.cache - {CacheKeyOf(c)} ==>
              Enabled(c, s, Elsewhere(after)) && Next(c, s, Elsewhere(after)) == s.(store := after, past := s.past + [s.store])
  {
  }

  /** A run goes on by any enabled step, with that step's effect. */
  lemma RunGoesOn(c: Signer, run: seq<ServerStep>, step: ServerStep)
    requires c.ttl <= MAX_INSTANT && Legal(c, run) && Enabled(c, After(c, run), step)
    ensures Legal(c, run + [step]) && After(c, run + [step]) == Next(c, After(c, run), step)
    ensures After(c, []) == Server(0, EMPTY_STORE, [], map[], {})
  {
    assert (run + [step])[..|run|] == run;
  }

  ghost predicate RequestOk(c: Signer, s: Server, r: Request)
    requires c.ttl <= MAX_INSTANT
  {
    match r
    case Started(now) => now <= s.clock
    case Signing(now) => now <= s.clock && now in s.signed
    case Answered(now, created, response) =>
      created in s.signed && created <= s.clock && response == ResponseAt(c, created) && (0 < c.ttl ==> now < created + c.ttl)
    case Broken => false
    case GivenUp => true
  }

  /** A version of the cache holds this body's signature from one of these instants, if any. */
  ghost predicate VersionOk(c: Signer, v: Store, clock: Moment, signed: set<Moment>)
    requires c.ttl <= MAX_INSTANT
  {
    CacheKeyOf(c) in v.cache ==> exists created :: created in signed && created <= clock && HoldsSignature(c, v, created)
  }

  ghost predicate Inv(c: Signer, s: Server)
    requires c.ttl <= MAX_INSTANT
  {
    && VersionOk(c, s.store, s.clock, s.signed)
    && (forall v :: v in s.past ==> VersionOk(c, v, s.clock, s.signed))
    && (forall t :: t in s.requests ==> RequestOk(c, s, s.requests[t]))
  }

  /** Time and the set of signatures only grow, and what was sound stays so. */
  lemma StaysOk(c: Signer, s: Server, s': Server, t: Option<nat>)
    requires c.Valid() && Inv(c, s) && s.clock <= s'.clock && s.signed <= s'.signed
    requires VersionOk(c, s'.store, s'.clock, s'.signed) && forall v :: v in s'.past ==> v in s.past || v == s.store
    requires forall u :: u in s'.requests && t != Some(u) ==> u in s.requests && s'.requests[u] == s.requests[u]
    requires t.Some? && t.value in s'.requests ==> RequestOk(c, s', s'.requests[t.value])
    ensures Inv(c, s')
  {
    forall v | v in s'.past ensures VersionOk(c, v, s'.clock, s'.signed) {
      assert VersionOk(c, v, s.clock, s.signed);
    }
    forall u | u in s'.requests ensures RequestOk(c, s', s'.requests[u]) {
      if t != Some(u) { assert RequestOk(c, s, s.requests[u]); }
    }
  }

  lemma LookedOk(c: Signer, now: Moment, view: Store, read: Moment, clock: Moment, signed: set<Moment>)
    requires c.Valid() && VersionOk(c, view, clock, signed) && now <= read <= clock
    ensures
      match Looked(c, now, view, read)
      case Signing(now') => now' == now
      case Answered(now', created, response) =>
        now' == now && created in signed && created <= clock && response == ResponseAt(c, created) && now < created + c.ttl
      case _ => false
  {
    if Step(view, GetCache(CacheKeyOf(c), read), 0).1.value.Some? {
      var created :| created in signed && created <= clock && HoldsSignature(c, view, created);
      HitIsSignature(c, view, read, 0, created);
    }
  }

  lemma LookKeeps(c: Signer, s: Server, t: nat, read: Moment, seen: nat)
    requires c.Valid() && Inv(c, s) && t in s.requests && s.requests[t].Started? && s.requests[t].now <= read <= s.clock
    ensures Inv(c, AfterLook(c, s, t, read, seen))
  {
    assert VersionOk(c, Shown(s, seen), s.clock, s.signed);
    LookedOk(c, s.requests[t].now, Shown(s, seen), read, s.clock, s.signed);
    StaysOk(c, s, AfterLook(c, s, t, read, seen), Some(t));
  }

  lemma PutKeeps(c: Signer, s: Server, t: nat)
    requires c.Valid() && Inv(c, s) && t in s.requests && s.requests[t].Signing?
    ensures Inv(c, AfterPut(c, s, t))
  {
    var s' := AfterPut(c, s, t);
    assert RequestOk(c, s, s.requests[t]);
    assert HoldsSignature(c, s'.store, s.requests[t].now);
    StaysOk(c, s, s', Some(t));
  }

  lemma ElsewhereKeeps(c: Signer, s: Server, after: Store)
    requires c.Valid() && Inv(c, s) && NeverWrites(c, s.store, after)
    ensures Inv(c, WithStore(s, after))
  {
    if CacheKeyOf(c) in after.cache {
      var created :| created in s.signed && created <= s.clock && HoldsSignature(c, s.store, created);
      assert HoldsSignature(c, after, created);
    }
    StaysOk(c, s, WithStore(s, after), None);
  }

  lemma TickKeeps(c: Signer, s: Server, to: Moment)
    requires c.Valid() && Inv(c, s) && s.clock <= to
    ensures Inv(c, s.(clock := to))
  {
    StaysOk(c, s, s.(clock := to), None);
  }

  lemma RequestKeeps(c: Signer, s: Server, t: nat, r: Request)
    requires c.Valid() && Inv(c, s) && RequestOk(c, s, r)
    ensures Inv(c, s.(requests := s.requests[t := r]))
  {
    StaysOk(c, s, s.(requests := s.requests[t := r]), Some(t));
  }

  /** However requests overlap and lookups trail, every version of the cache holds only signatures this CA made by now. */
  lemma {:induction false} AlwaysInv(c: Signer, run: seq<ServerStep>)
    requires c.Valid() && Legal(c, run)
    ensures Inv(c, After(c, run))
  {
    if run != [] {
      var s, step := After(c, run[..|run| - 1]), run[|run| - 1];
      AlwaysInv(c, run[..|run| - 1]);
      match step
      case Look(t, read, seen) => LookKeeps(c, s, t, read, seen);
      case Put(t) => PutKeeps(c, s, t);
      case Elsewhere(after) => ElsewhereKeeps(c, s, after);
      case Tick(to) => TickKeeps(c, s, to);
      case Begin(t) => RequestKeeps(c, s, t, Started(s.clock));
      case GiveUp(t) => RequestKeeps(c, s, t, GivenUp);
    }
  }

  /**
   However requests overlap and lookups trail, no request breaks, and every response is one this CA
   signed at an instant not in the future, unexpired at the request's own reading of the clock.
   */
  lemma EveryResponseSigned(c: Signer, run: seq<ServerStep>, t: nat)
    requires c.Valid() && Legal(c, run) && t in After(c, run).requests
    ensures !After(c, run).requests[t].Broken?
    ensures
      var s := After(c, run);
      match s.requests[t]
      case Answered(now, created, response) =>
        created in s.signed && created <= s.clock && response == ResponseAt(c, created) && (0 < c.ttl ==> now < created + c.ttl)
      case _ => true
  {
    AlwaysInv(c, run);
    assert RequestOk(c, After(c, run), After(c, run).requests[t]);
  }

  // ----- Client -----

  const SKEW: nat := 60
  const MAX_SIGNATURE_LIFETIME: nat := 7 * 24 * 3600

  /** The client's libraries: digests, the leaf thumbprint, signatures over messages and certificates. */
  datatype Client = Client(
    sha384: Bytes -> Bytes, thumbprint: Bytes -> string, b64: Base64,
    verifies: (string, Bytes, string, Bytes) -> bool,
    verifiesCert: (P.Node, Bytes) -> bool)

  datatype Rejection =
    | Malformed(error: HttpSigError) | DigestMismatch | ExpiresBeforeCreated | LifetimeTooLong | Expired | FromTheFuture
    | EmptyChain | WrongLeaf | BadSignatureValue | NoPinnedRoots | NotAnchored

  function Freshness(p: RootsSigParams, now: nat): Option<Rejection> {
    if p.expires <= p.created then Some(ExpiresBeforeCreated)
    else if p.expires - p.created > MAX_SIGNATURE_LIFETIME then Some(LifetimeTooLong)
    else if now >= p.expires then Some(Expired)
    else if p.created > now + SKEW then Some(FromTheFuture)
    else None
  }

  /** All checks before anchoring: digest, freshness, thumbprint, signature. */
  function CheckHeaders(k: Client, r: Response, chain: seq<P.Node>, now: nat): Option<Rejection> {
    match ParseContentDigest(k.b64, r.contentDigest)
    case Err(e) => Some(Malformed(e))
    case Ok(digest) =>
      if digest != k.sha384(r.body) then Some(DigestMismatch)
      else match ParsedRootsSigParams(r.signatureInput)
        case Err(e) => Some(Malformed(e))
        case Ok(p) =>
          if Freshness(p, now).Some? then Freshness(p, now)
          else match ParseSignatureKeyX509(r.signatureKey)
            case Err(e) => Some(Malformed(e))
            case Ok((_, x5t)) =>
              if chain == [] then Some(EmptyChain)
              else if k.thumbprint(chain[0].der) != x5t then Some(WrongLeaf)
              else CheckSignature(k, r, p, chain[0].spki)
  }

  function CheckSignature(k: Client, r: Response, p: RootsSigParams, spki: Bytes): Option<Rejection> {
    var base := RootsSignatureBase(200, ROOTS_CONTENT_TYPE, r.contentDigest, r.signatureKey, p);
    match ParseSignatureHeader(k.b64, r.signature)
    case Err(e) => Some(Malformed(e))
    case Ok(signature) => if k.verifies(p.alg, spki, base, signature) then None else Some(BadSignatureValue)
  }

  function WorldOf(k: Client, chain: seq<P.Node>, known: seq<P.Node>, now: nat): P.World {
    P.World(chain, known, now, k.verifiesCert)
  }

  /** The verdict as a specification: the headers first, then the pins, then a path to one of them. */
  ghost function Verdict(k: Client, r: Response, chain: seq<P.Node>, known: seq<P.Node>, now: nat): Option<Rejection> {
    if CheckHeaders(k, r, chain, now).Some? then CheckHeaders(k, r, chain, now) else Anchoring(k, chain, known, now)
  }

  /** What the chain alone decides: a path, as declared, from the signer to a pinned root. */
  ghost function Anchoring(k: Client, chain: seq<P.Node>, known: seq<P.Node>, now: nat): Option<Rejection> {
    if known == [] then Some(NoPinnedRoots)
    else if chain != [] && P.Reachable(WorldOf(k, chain, known, now)) then None
    else Some(NotAnchored)
  }

  /** The client reports the first check that fails, and accepts exactly when none does. */
  method VerifyRootsResponse(k: Client, r: Response, chain: seq<P.Node>, known: seq<P.Node>, now: nat) returns (rejected: Option<Rejection>)
    ensures rejected == Verdict(k, r, chain, known, now)
    ensures rejected.None? <==>
              CheckHeaders(k, r, chain, now).None? && known != [] && chain != [] && P.Reachable(WorldOf(k, chain, known, now))
  {
    var headers := CheckHeaders(k, r, chain, now);
    if headers.Some? {
      return headers;
    }
    if known == [] {
      return Some(NoPinnedRoots);
    }
    var anchored := P.AnchorSigner(WorldOf(k, chain, known, now));
    return if anchored then None else Some(NotAnchored);
  }

  // ----- What the checks demand, field by field -----

  /** The digest header decodes to 48 bytes, the digest of the body. */
  ghost predicate DigestOk(k: Client, r: Response) {
    ParseContentDigest(k.b64, r.contentDigest) == Ok(k.sha384(r.body))
  }

  /** A lifetime of at most seven days that holds the client's clock, give or take a minute ahead of it. */
  ghost predicate InLifetime(p: RootsSigParams, now: nat) {
    p.created < p.expires <= p.created + 604_800 && p.created - 60 <= now < p.expires
  }

  /** The key header names the thumbprint of the first certificate served. */
  ghost predicate LeafOk(k: Client, r: Response, chain: seq<P.Node>) {
    chain != [] && ParseSignatureKeyX509(r.signatureKey).Ok? && ParseSignatureKeyX509(r.signatureKey).value.1 == k.thumbprint(chain[0].der)
  }

  /** The signature verifies, under that certificate's key, over status 200, JSON, and the headers as received. */
  ghost predicate SignatureOk(k: Client, r: Response, p: RootsSigParams, spki: Bytes) {
    ParseSignatureHeader(k.b64, r.signature).Ok?
    && k.verifies(p.alg, spki, RootsSignatureBase(200, "application/json", r.contentDigest, r.signatureKey, p),
                  ParseSignatureHeader(k.b64, r.signature).value)
  }

  /** The headers pass exactly when digest, lifetime, leaf and signature are all right. */
  lemma HeadersDemand(k: Client, r: Response, chain: seq<P.Node>, now: nat)
    ensures CheckHeaders(k, r, chain, now).None? <==>
              && DigestOk(k, r) && ParsedRootsSigParams(r.signatureInput).Ok?
              && InLifetime(ParsedRootsSigParams(r.signatureInput).value, now)
              && LeafOk(k, r, chain)
              && SignatureOk(k, r, ParsedRootsSigParams(r.signatureInput).value, chain[0].spki)
  {
  }

  /** Which check a lifetime fails first. */
  ghost predicate LifetimeFault(p: RootsSigParams, now: nat, e: Rejection) {
    if p.expires <= p.created then e == ExpiresBeforeCreated
    else if p.expires - p.created > 604_800 then e == LifetimeTooLong
    else if p.expires <= now then e == Expired
    else p.created > now + 60 && e == FromTheFuture
  }

  /** The first thing wrong decides the rejection: digest, then lifetime, then the leaf, then the signature. */
  lemma HeadersRefused(k: Client, r: Response, chain: seq<P.Node>, now: nat, e: Rejection)
    ensures ParseContentDigest(k.b64, r.contentDigest).Err?
            ==> CheckHeaders(k, r, chain, now) == Some(Malformed(ParseContentDigest(k.b64, r.contentDigest).error))
    ensures ParseContentDigest(k.b64, r.contentDigest).Ok? && !DigestOk(k, r) ==> CheckHeaders(k, r, chain, now) == Some(DigestMismatch)
    ensures DigestOk(k, r) ==>
              match ParsedRootsSigParams(r.signatureInput)
              case Err(bad) => CheckHeaders(k, r, chain, now) == Some(Malformed(bad))
              case Ok(p) => LifetimeFault(p, now, e) ==> CheckHeaders(k, r, chain, now) == Some(e)
    ensures DigestOk(k, r) && ParsedRootsSigParams(r.signatureInput).Ok? && InLifetime(ParsedRootsSigParams(r.signatureInput).value, now) ==>
              var p, verdict := ParsedRootsSigParams(r.signatureInput).value, CheckHeaders(k, r, chain, now);
              match ParseSignatureKeyX509(r.signatureKey)
              case Err(bad) => verdict == Some(Malformed(bad))
              case Ok((_, x5t)) =>
                if chain == [] then verdict == Some(EmptyChain)
                else if x5t != k.thumbprint(chain[0].der) then verdict == Some(WrongLeaf)
                else
                  && (ParseSignatureHeader(k.b64, r.signature).Err?
                      ==> verdict == Some(Malformed(ParseSignatureHeader(k.b64, r.signature).error)))
                  && (ParseSignatureHeader(k.b64, r.signature).Ok? && !SignatureOk(k, r, p, chain[0].spki) ==> verdict == Some(BadSignatureValue))
  {
  }

  // ----- Server meets client -----

  /** The client speaks to this CA: same digest and encodings, and the leaf is the signing certificate. */
  ghost predicate Trusts(k: Client, c: Signer, leaf: P.Node) {
    && k.sha384 == c.sha384 && k.b64 == c.b64
    && k.thumbprint(leaf.der) == c.x5t
    && forall base :: k.verifies(c.alg, leaf.spki, base, c.sign(base))
  }

  /** Values the server puts in headers parse back: a plain URL and thumbprint, an algorithm token. */
  predicate PlainHeaders(c: Signer) {
    '"' !in c.externalUrl && '"' !in c.x5t && ';' !in c.alg
  }

  lemma HonestHeadersPass(k: Client, c: Signer, chain: seq<P.Node>, created: Moment, now: nat)
    requires c.Valid() && 0 < c.ttl <= MAX_SIGNATURE_LIFETIME && PlainHeaders(c)
    requires chain != [] && Trusts(k, c, chain[0])
    ensures CheckHeaders(k, ResponseAt(c, created), chain, now)
            == if now >= created + c.ttl then Some(Expired)
               else if created > now + SKEW then Some(FromTheFuture)
               else None
  {
    var p := ParamsAt(c, created);
    DigestRoundTrip(c.b64, c.sha384(c.body));
    ParamsRoundTrip(p);
    ServerKeyRoundTrip(c.externalUrl, c.x5t);
    var base := RootsSignatureBase(200, ROOTS_CONTENT_TYPE, DigestHeader(c), KeyHeader(c), p);
    SignatureRoundTrip(c.b64, c.sign(base));
  }

  /**
   Whatever response a client gets from any run of overlapping requests, cached or fresh, it is rejected
   as expired from `expires` on and as premature until a minute before `created`; in between the
   verdict is the anchoring alone.
   */
  lemma AcceptedExactlyWhileFresh(k: Client, c: Signer, run: seq<ServerStep>, t: nat, chain: seq<P.Node>, known: seq<P.Node>, now: nat)
    requires c.Valid() && 0 < c.ttl <= MAX_SIGNATURE_LIFETIME && PlainHeaders(c)
    requires Legal(c, run) && t in After(c, run).requests && After(c, run).requests[t].Answered?
    requires chain != [] && Trusts(k, c, chain[0])
    ensures
      var served := After(c, run).requests[t];
      Verdict(k, served.response, chain, known, now)
      == if now >= served.created + c.ttl then Some(Expired)
         else if now < served.created - SKEW then Some(FromTheFuture)
         else Anchoring(k, chain, known, now)
  {
    EveryResponseSigned(c, run, t);
    HonestHeadersPass(k, c, chain, After(c, run).requests[t].created, now);
  }

  /** One fetch end to end: the server answers, and a client whose clock shows `at` judges the answer. */
  method FetchAndVerify(c: Signer, storage: Storage, clock: Clock, k: Client, chain: seq<P.Node>, known: seq<P.Node>, at: nat)
    returns (rejected: Option<Rejection>, ghost created: Moment)
    requires c.Valid() && 0 < c.ttl <= MAX_SIGNATURE_LIFETIME && PlainHeaders(c)
    requires AllSound(c, storage, clock.now) && chain != [] && Trusts(k, c, chain[0])
    modifies storage, clock
    ensures AllSound(c, storage, clock.now) && created <= clock.now
    ensures rejected.None? <==> created - SKEW <= at < created + c.ttl && Anchoring(k, chain, known, at).None?
    ensures clock.now - SKEW <= at <= old(clock.now) ==> rejected == Anchoring(k, chain, known, at)
  {
    var response;
    ghost var now, read, seen, last;
    response, now, read, created, seen, last := GetSignedRoots(c, storage, clock);
    HonestHeadersPass(k, c, chain, created, at);
    rejected := VerifyRootsResponse(k, response.value, chain, known, at);
  }

  // ----- What acceptance proves -----

  /** The values one signature covers. */
  datatype Covered = Covered(digest: string, key: string, params: RootsSigParams) {
    function Base(): string {
      RootsSignatureBase(200, ROOTS_CONTENT_TYPE, digest, key, params)
    }

    predicate OneLine() {
      '\n' !in digest && '\n' !in key
    }
  }

  /**
   The signature value presented is no forgery: whatever message it verifies under this key is one of
   those signed.
   */
  ghost predicate Genuine(k: Client, spki: Bytes, signature: Bytes, signed: set<Covered>) {
    forall alg, base :: k.verifies(alg, spki, base, signature) ==> exists v :: v in signed && v.Base() == base
  }

  /** The same of the signature a response presents, if it presents any. */
  ghost predicate PresentsGenuine(k: Client, spki: Bytes, r: Response, signed: set<Covered>) {
    var presented := ParseSignatureHeader(k.b64, r.signature);
    presented.Ok? ==> Genuine(k, spki, presented.value, signed)
  }

  lemma BaseDetermines(v: Covered, w: Covered)
    requires v.OneLine() && w.OneLine() && v.Base() == w.Base()
    ensures v == w
  {
    SignatureBaseUnambiguous(200, ROOTS_CONTENT_TYPE, v.digest, v.key, v.params,
                             200, ROOTS_CONTENT_TYPE, w.digest, w.key, w.params);
  }

  /** What the headers of a response claim to be covered by its signature. */
  function Claimed(r: Response): Option<Covered> {
    match ParsedRootsSigParams(r.signatureInput)
    case Err(_) => None
    case Ok(p) => Some(Covered(r.contentDigest, r.signatureKey, p))
  }

  /** An accepted response's own claim verifies under the leaf key, matches its body and is fresh. */
  lemma AcceptedClaim(k: Client, r: Response, chain: seq<P.Node>, now: nat)
    requires chain != [] && CheckHeaders(k, r, chain, now).None?
    ensures Claimed(r).Some? && Freshness(Claimed(r).value.params, now).None?
    ensures ParseContentDigest(k.b64, r.contentDigest) == Ok(k.sha384(r.body))
    ensures ParseSignatureHeader(k.b64, r.signature).Ok?
    ensures k.verifies(Claimed(r).value.params.alg, chain[0].spki, Claimed(r).value.Base(), ParseSignatureHeader(k.b64, r.signature).value)
  {
    assert CheckSignature(k, r, ParsedRootsSigParams(r.signatureInput).value, chain[0].spki).None?;
  }

  /**
   Header values hold no newline, so an accepted response whose signature is no forgery carries the
   digest header, the key header, the times and the algorithm of one and the same signature.
   */
  lemma AcceptedIsSigned(k: Client, r: Response, chain: seq<P.Node>, known: seq<P.Node>, now: nat, signed: set<Covered>)
    requires chain != [] && PresentsGenuine(k, chain[0].spki, r, signed) && forall v :: v in signed ==> v.OneLine()
    requires '\n' !in r.contentDigest && '\n' !in r.signatureKey
    requires Verdict(k, r, chain, known, now).None?
    ensures Claimed(r).Some? && Claimed(r).value in signed
  {
    AcceptedClaim(k, r, chain, now);
    var v :| v in signed && v.Base() == Claimed(r).value.Base();
    BaseDetermines(v, Claimed(r).value);
  }

  function CoveredAt(c: Signer, created: Moment): Covered
    requires c.ttl <= MAX_INSTANT
  {
    Covered(DigestHeader(c), KeyHeader(c), ParamsAt(c, created))
  }

  /** The signatures this CA made over its one body at these instants. */
  function SignedAt(c: Signer, instants: set<Moment>): set<Covered>
    requires c.ttl <= MAX_INSTANT
  {
    set i | i in instants :: CoveredAt(c, i)
  }

  /** An accepted response that claims to be signed at `created` has this CA's body and is in its lifetime. */
  lemma AcceptedInLifetime(k: Client, c: Signer, r: Response, chain: seq<P.Node>, now: nat, created: Moment)
    requires c.Valid() && k.b64 == c.b64 && chain != [] && CheckHeaders(k, r, chain, now).None?
    requires Claimed(r) == Some(CoveredAt(c, created))
    ensures k.sha384(r.body) == c.sha384(c.body) && created - SKEW <= now < created + c.ttl
  {
    AcceptedClaim(k, r, chain, now);
    DigestRoundTrip(c.b64, c.sha384(c.body));
  }

  /**
   A client that accepts, whoever answered it, has the CA's body, by its digest, under a signature made
   by this run of the server, at an instant whose lifetime covers the client's clock, give or take the
   minute of skew.
   */
  lemma AcceptedComesFromRun(k: Client, c: Signer, run: seq<ServerStep>, r: Response, chain: seq<P.Node>, known: seq<P.Node>, now: nat)
    requires c.Valid() && Legal(c, run) && chain != [] && k.b64 == c.b64
    requires PresentsGenuine(k, chain[0].spki, r, SignedAt(c, After(c, run).signed))
    requires OneLineHeaders(c, r)
    requires Verdict(k, r, chain, known, now).None?
    ensures k.sha384(r.body) == c.sha384(c.body)
    ensures exists created :: created in After(c, run).signed && created - SKEW <= now < created + c.ttl
                              && Claimed(r) == Some(CoveredAt(c, created))
  {
    var instants := After(c, run).signed;
    AcceptedIsSigned(k, r, chain, known, now, SignedAt(c, instants));
    var created :| created in instants && Claimed(r).value == CoveredAt(c, created);
    AcceptedInLifetime(k, c, r, chain, now, created);
  }

  /** HTTP header values hold no newline. */
  predicate OneLineHeaders(c: Signer, r: Response) {
    '\n' !in DigestHeader(c) && '\n' !in KeyHeader(c) && '\n' !in r.contentDigest && '\n' !in r.signatureKey
  }

  /** A signature of this CA verifies for no message but its own. */
  ghost predicate Binds(k: Client, c: Signer, leaf: P.Node) {
    forall alg, base, own :: k.verifies(alg, leaf.spki, base, c.sign(own)) ==> base == own
  }

  /** A response that presents a signature this CA made over one of these presents a genuine one. */
  lemma OwnIsGenuine(k: Client, c: Signer, leaf: P.Node, r: Response, signed: set<Covered>, own: Covered)
    requires Binds(k, c, leaf) && own in signed && ParseSignatureHeader(k.b64, r.signature) == Ok(c.sign(own.Base()))
    ensures PresentsGenuine(k, leaf.spki, r, signed)
  {
  }

  /** Every response the server gives presents a genuine signature, so the two results meet. */
  lemma AnswersAreGenuine(k: Client, c: Signer, run: seq<ServerStep>, t: nat, leaf: P.Node)
    requires c.Valid() && Legal(c, run) && t in After(c, run).requests && After(c, run).requests[t].Answered?
    requires Trusts(k, c, leaf) && Binds(k, c, leaf)
    ensures PresentsGenuine(k, leaf.spki, After(c, run).requests[t].response, SignedAt(c, After(c, run).signed))
  {
    EveryResponseSigned(c, run, t);
    var r, created: Moment := After(c, run).requests[t].response, After(c, run).requests[t].created;
    var own := CoveredAt(c, created);
    SignatureRoundTrip(c.b64, c.sign(own.Base()));
    OwnIsGenuine(k, c, leaf, r, SignedAt(c, After(c, run).signed), own);
  }

  /** The response carries what this CA signed at `created`, with that signature, and in its lifetime. */
  ghost predicate Matches(k: Client, c: Signer, r: Response, now: nat, created: Moment)
    requires c.ttl <= MAX_INSTANT
  {
    && Claimed(r) == Some(CoveredAt(c, created)) && k.sha384(r.body) == c.sha384(c.body)
    && ParseSignatureHeader(k.b64, r.signature) == Ok(c.sign(CoveredAt(c, created).Base()))
    && created - SKEW <= now < created + c.ttl
  }

  lemma MatchPasses(k: Client, c: Signer, r: Response, chain: seq<P.Node>, now: nat, created: Moment)
    requires c.Valid() && 0 < c.ttl <= MAX_SIGNATURE_LIFETIME && PlainHeaders(c)
    requires chain != [] && Trusts(k, c, chain[0]) && Matches(k, c, r, now, created)
    ensures CheckHeaders(k, r, chain, now).None?
  {
    DigestRoundTrip(c.b64, c.sha384(c.body));
    ServerKeyRoundTrip(c.externalUrl, c.x5t);
    assert CheckSignature(k, r, ParamsAt(c, created), chain[0].spki).None?;
  }

  /** The signature verified is the one made over the response's own claim. */
  lemma OwnClaim(k: Client, c: Signer, r: Response, chain: seq<P.Node>, now: nat, own: Covered)
    requires chain != [] && CheckHeaders(k, r, chain, now).None? && Binds(k, c, chain[0])
    requires ParseSignatureHeader(k.b64, r.signature) == Ok(c.sign(own.Base()))
    ensures Claimed(r).Some? && ParseSignatureHeader(k.b64, r.signature) == Ok(c.sign(Claimed(r).value.Base()))
  {
    AcceptedClaim(k, r, chain, now);
  }

  lemma MatchFound(k: Client, c: Signer, run: seq<ServerStep>, r: Response, chain: seq<P.Node>, known: seq<P.Node>, now: nat, own: Covered)
    requires c.Valid() && Legal(c, run) && chain != [] && k.b64 == c.b64 && Binds(k, c, chain[0]) && OneLineHeaders(c, r)
    requires own in SignedAt(c, After(c, run).signed) && ParseSignatureHeader(k.b64, r.signature) == Ok(c.sign(own.Base()))
    requires Verdict(k, r, chain, known, now).None?
    ensures exists created :: created in After(c, run).signed && Matches(k, c, r, now, created)
  {
    OwnIsGenuine(k, c, chain[0], r, SignedAt(c, After(c, run).signed), own);
    AcceptedComesFromRun(k, c, run, r, chain, known, now);
    OwnClaim(k, c, r, chain, now, own);
  }

  /**
   The two halves together: a client that trusts the CA accepts a response bearing a signature of this
   run exactly when its chain is anchored and the response carries what that signature covers, with the
   CA's body, within its lifetime.
   */
  lemma AcceptedExactlyFromRun(k: Client, c: Signer, run: seq<ServerStep>, r: Response, chain: seq<P.Node>, known: seq<P.Node>, now: nat, own: Covered)
    requires c.Valid() && 0 < c.ttl <= MAX_SIGNATURE_LIFETIME && PlainHeaders(c) && OneLineHeaders(c, r)
    requires Legal(c, run) && chain != [] && Trusts(k, c, chain[0]) && Binds(k, c, chain[0])
    requires own in SignedAt(c, After(c, run).signed) && ParseSignatureHeader(k.b64, r.signature) == Ok(c.sign(own.Base()))
    ensures Verdict(k, r, chain, known, now).None?
            <==> Anchoring(k, chain, known, now).None? && exists created :: created in After(c, run).signed && Matches(k, c, r, now, created)
  {
    if Verdict(k, r, chain, known, now).None? {
      MatchFound(k, c, run, r, chain, known, now, own);
    }
    if created :| created in After(c, run).signed && Matches(k, c, r, now, created) {
      MatchPasses(k, c, r, chain, now, created);
    }
  }
}
