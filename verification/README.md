# Verified model of ayane

ayane is an X.509 certificate authority and its client. Around library cryptography and
transport sit five pieces of its own logic, and this project models each of them in Dafny and
proves what they are for:

1. **Trust paths.** The client's depth-first search over an unordered bag of certificates accepts
   exactly the bags that hold a short path to a pinned root (`PathSearch.dfy`).
2. **Claims, revocations and storage.** SQLite and DynamoDB both give the answers of one abstract
   store; one-time credentials are consumed at most once under every interleaving
   (`Storage.dfy`, `SqliteStorage.dfy`, `DynamoDbStorage.dfy`, `Claims.dfy`).
3. **Certificates.** Serial arithmetic, validity windows, the hook fold, extension lists, and the
   sign, renew, rekey and revoke handlers (`Serial.dfy`, `Validity.dfy`, `Hooks.dfy`,
   `Extensions.dfy`, `Service.dfy`), then every concurrent run of them (`Lifecycle.dfy`).
4. **Signed roots.** The wire format, the cached signature and the client's checks
   (`HttpSig.dfy`, `SignedRoots.dfy`).
5. **Timed loops.** The single-flight key-set cache and the renewal loop (`Jwks.dfy`,
   `RenewLoop.dfy`).

`Basics.dfy`, `Text.dfy`, `Decimal.dfy` and `Certificates.dfy` hold the shared vocabulary.
`dafny verify dfyconfig.toml` checks everything.

## How to read it

Where the program changes state, the model does: `Visited`, `SqliteStorage`, `DynamoDbStorage`,
`ExtensionList`, `Storage`, `Clock`, `Backoff` and `Loop` are classes, and methods with loops are
proved against specification functions. Library calls are function-valued parameters (`Der`,
`Base64`, `World.verifies`, `Signer.sign`, `Client.verifies`, `LoopConfig.times`) with the one law
each needs: decoding inverts encoding, the CA's signature verifies under its own key, and a
double-precision product is rounded once.

- Time is whole seconds, whole nanoseconds in the renewal loop. An operation that reads the clock
  carries the value it read; how stale that value may be is stated where it matters.
- A hook is its answer to the one request that every hook sees.
- `Storage` is the storage contract as an object with a slack: 0 s for SQLite, 3600 s for
  DynamoDB. Its lookups see the current contents, or any earlier version if it is not `consistent`,
  as DynamoDB reads are not: they never ask for consistency. For operations in timestamp order, `Sqlite.Refines` and `DynamoDb.Refines` justify using
  it for either backend. They need that order: an abstract store that never forgets and a backend
  whose reaper ran ahead of a slow request answer that request differently (`Sqlite.OrderIsNeeded`).
- `Lifecycle.dfy` therefore takes stale timestamps against the backend's own contents, lapsed entries
  included, with reaper runs and sweeps as steps of their own. `Sqlite.StepAtAnyTime`,
  `DynamoDb.StepAtAnyTime` and `DynamoDb.SweepAtAnyTime` say that each backend operation, at any
  timestamp, does exactly what those steps do. A revocation lookup there names the version it sees,
  the current one if the setting is `consistent`.
- In `Lifecycle.dfy` the certificates a client can present are those the CA key has signed, so
  signatures are assumed unforgeable. Revocations and unrelated claims may happen at any step.
- The main operations are tied to specification functions, and those in turn to statements in the
  fields of requests, certificates and replies alone, with times and texts written out:
  `PathSearch.Reachable`, `Planning.SignPlanMeans`, `Planning.ReissuePlanMeans`,
  `Planning.CertificateMeans`, `Service.RevocationEntitled`, `SignedRoots.HeadersDemand` and
  `Hooks.OutcomeHeeds`, each with the refusals beside it.
- A certificate stands for its PEM text in an inventory record. Object identifiers the CA itself
  writes are named constructors; any other identifier is its arcs.

## What turned out narrower than the comments say

- DynamoDB's put condition is per (pk, sk), and a certificate's sort key carries the common name, so
  a reused serial is noticed exactly when the name is reused as well (`DynamoDb.ReuseDetection`).
- No DynamoDB read asks for consistency, so a lookup may be answered from before an acknowledged
  revocation (`DynamoDb.RevocationMissed`). It answers as a current one exactly unless the revocation
  came in between (`DynamoDb.TrailingLookup`). Over whole runs, every renewed certificate was looked up
  in a version no younger than its revocation (`Lifecycle.RevokedIsNotRenewed`), and nothing more can be
  said: a certificate revoked after that version is renewed (`Lifecycle.TrailingLookupRenews`). With
  current lookups, as on SQLite, a renewal whose lookup follows a revocation fails.
- Signatures of one roots body are spaced by the lifetime less the refresh margin exactly when the cache
  lookup follows the request's clock reading by no more than that margin (`SignedRoots.SpacedExactly`);
  slower lookups sign again early (`SignedRoots.SlowLookupSignsAgain`).
- A hook can lengthen a renewal by moving notBefore before the renewal instant. No choice of
  notAfter can do so exactly when notBefore is at or after that instant (`Validity.SpanGuard`,
  `Validity.BackdatingHookGrowsSpan`).
- Printed signature parameters parse back exactly when the algorithm token holds no `;`
  (`HttpSig.ParamsRoundTrip`), and a printed signature key exactly when both values are free of
  quotes and the URL does not end in `x5t=`, unless the thumbprint is the string misread in that
  case (`HttpSig.SignatureKeyRoundTrip`).
- Two scope namespaces can share a key exactly when one of them, followed by `#`, begins the other
  (`ClaimSpec.ScopeNamespacesClash`, with a concrete pair in `ClaimSpec.ScopeKeyClash`).
- Only successful key-set fetches are held apart. After a failed one a newcomer fetches in the same
  instant, exactly unless a fresh cached set holds its key (`Jwks.FailedFetchFreesTheNext`).
- Renewal can be due at expiry itself, when the server refuses it: with a renew-before of zero, or
  with a fraction that leaves at most half a nanosecond of the lifetime, and no jitter
  (`RenewLoop.DueBeforeExpiry`, `RenewLoop.NearlyWholeFractionIsDueAtExpiry`).
- The collapse check compares instants to the nanosecond, while a certificate's times are whole
  seconds. A window that passes it is signed with no span at all exactly when both ends fall in one
  second (`Validity.SubSecondWindow`); windows elsewhere in this project are whole seconds.

## Model

| member | source | states |
|---|---|---|
| `PathSearch.AnchorSigner` | ayane-cli/src/httpsig.rs:153-172 | accepts exactly when there is a path of at most 8 climbs: each representative has its certificate's subject and key and notBefore <= now <= notAfter, each certificate climbed to is a CA named as issuer whose key verifies, and the end is a pinned root or issued and verified by one |
| `PathSearch.ExpiredSignerRefused` | ayane-cli/src/httpsig.rs:138-198 | acceptance takes a certificate with the signer's subject and key that is valid now, whatever else is served |
| `PathSearch.LoneSigner` | ayane-cli/src/httpsig.rs:205-216 | a signer served alone and valid now is accepted exactly when it is pinned, or issued and verified by a pinned root |
| `PathSearch.ReachesAnchor` | ayane-cli/src/httpsig.rs:177-231 | the in-place search computes its specification, restores the visited stack whenever it fails, and only ever extends it |
| `PathSearch.SearchIsExact` | ayane-cli/src/httpsig.rs:177-231 | pruning by visited edges, backtracking and the depth bound lose no path and invent none |
| `PathSearch.ReachGivesPath` | ayane-cli/src/httpsig.rs:177-231 | a successful search from any certificate yields an actual path within the remaining depth |
| `PathSearch.SimplePathIsFound` | ayane-cli/src/httpsig.rs:197-229 | a path that repeats no edge and avoids the stack is found |
| `PathSearch.Shortcut` | ayane-cli/src/httpsig.rs:188-204 | two hops through one (subject, key, issuer) edge can be joined, giving a strictly shorter path |
| `PathSearch.DropRepeats` | ayane-cli/src/httpsig.rs:174-204 | every path has one no longer, from the same certificate, that repeats no edge |
| `PathSearch.MoreCertificatesNeverHurt` | ayane-cli/src/httpsig.rs:142-172 | serving more certificates or pinning more roots never turns accept into reject |
| `PathSearch.VerdictDependsOnSetsOnly` | ayane-cli/src/httpsig.rs:146-172 | order and repetition of the served bag after the signer, and of the pinned bundle, never change the verdict |
| `Serial.SerialToDecimal` | ayane/src/ca.rs:343-359 | the digits are the canonical numeral of the number the bytes denote, with a 16-bit carry that never overflows |
| `Serial.MultiplyIn` | ayane/src/ca.rs:346-357 | one byte step multiplies the digits by 256 and adds the byte; every intermediate is at most 2559 and every carry at most 255 |
| `Serial.MulAddValue` | ayane/src/ca.rs:346-357 | the digit sequence of one step has the value 256·d + b |
| `Serial.MulAddNoLeadingZero` | ayane/src/ca.rs:344-358 | a step never creates a leading zero |
| `Serial.NormalizeIsNumeral` | ayane/src/service.rs:864-888 | a spelling is accepted exactly when it denotes a number, and then normalises to that number's canonical numeral |
| `Serial.HexAlphabet` | ayane/src/service.rs:877-878 | a hexadecimal digit's value is its place in the alphabet, in either case |
| `Serial.SpellingsAgree` | ayane/src/service.rs:864-888 | two accepted spellings normalise alike exactly when they denote one number |
| `Serial.NormalizeIdempotent` | ayane/src/service.rs:864-888 | normalising twice changes nothing |
| `Serial.RevocationKeyMatches` | ayane/src/service.rs:526-531 | a revocation under any accepted spelling is stored under the key the renewal gate looks up, exactly when it denotes that serial |
| `Decimal.CanonicalIsNumeral` | ayane/src/ca.rs:358 | a digit string without leading zeros is determined by its value |
| `HttpSig.ParseRootsSigParams` | ayane-protocol/src/httpsig.rs:138-183 | the parameter loop computes the parser specification on every input, errors included |
| `HttpSig.ParamsRoundTrip` | ayane-protocol/src/httpsig.rs:121-183 | parsing inverts printing exactly for algorithm tokens without a semicolon, for all 64-bit times |
| `HttpSig.SignatureKeyRoundTrip` | ayane-protocol/src/httpsig.rs:104-119 | the exact condition under which the printed signature key parses back |
| `HttpSig.X5tParses` | ayane-protocol/src/httpsig.rs:236-242 | which text the thumbprint search finds, also when the URL itself ends in the parameter name |
| `HttpSig.ServerKeyRoundTrip` | ayane/src/service.rs:133-139 | every URL the server signs parses back together with its thumbprint |
| `HttpSig.SignatureBaseUnambiguous` | ayane-protocol/src/httpsig.rs:185-202 | with newline-free headers, equal signature bases mean equal covered values, and conversely |
| `HttpSig.ParamsValueInjective` | ayane-protocol/src/httpsig.rs:121-129 | the signature parameters line determines created, expires and algorithm, whatever the algorithm holds |
| `HttpSig.ParamsText` | ayane-protocol/src/httpsig.rs:121-133 | the parameters line and the signature input, as text |
| `HttpSig.HeaderText` | ayane-protocol/src/httpsig.rs:67-119 | the key, digest and signature headers, as text |
| `HttpSig.BaseText` | ayane-protocol/src/httpsig.rs:185-202 | the five lines of the message signed, as text |
| `HttpSig.DigestRoundTrip` | ayane-protocol/src/httpsig.rs:67-95 | a 48-byte digest survives its header |
| `HttpSig.DigestAccepted` | ayane-protocol/src/httpsig.rs:75-95 | a digest header is accepted exactly when, trimmed, it encloses a decodable text of 48 bytes |
| `HttpSig.SignatureRoundTrip` | ayane-protocol/src/httpsig.rs:204-225 | signature bytes survive their header |
| `HttpSig.SignatureAccepted` | ayane-protocol/src/httpsig.rs:212-225 | a signature header is accepted exactly when it is labelled and encloses a decodable text |
| `SignedRoots.GetSignedRoots` | ayane/src/service.rs:100-181 | one request: hit or fresh, the response is the one this CA signed at `created`, not in the future and unexpired at the request's own reading; a new signature is made exactly by the rule on the version the lookup saw; every version of the cache stays sound |
| `SignedRoots.AlwaysInv` | ayane/src/service.rs:100-181 | however requests overlap, lookups trail and the store drops entries, every version of the cache holds only signatures this CA made by now |
| `SignedRoots.EveryResponseSigned` | ayane/src/service.rs:100-181 | in every such run no request fails on its cache entry, and every response is one this CA signed, not in the future and unexpired at the request's own reading |
| `SignedRoots.NoRunLeftOut` | ayane/src/service.rs:100-181 | requests may begin, look at any version with any reading so far, write or be given up in any order |
| `SignedRoots.ServeInTurn` | ayane/src/service.rs:100-181 | on a consistent store, requests in turn are answered, each, with the signature the fold over their clock readings predicts |
| `SignedRoots.ResigningIsSpaced` | ayane/src/service.rs:114-131 | of two sequential signatures of one body the second is made at least the lifetime after the first, less the refresh margin or its own lookup's lag |
| `SignedRoots.SpacedExactly` | ayane/src/service.rs:114-131 | the refresh margin alone bounds the spacing, whatever the earlier signature, exactly when the lookup lags by at most the margin |
| `SignedRoots.SlowLookupSignsAgain` | ayane/src/service.rs:114-131 | slow lookups that sign twice in one instant, or ten minutes before the lifetime is up |
| `SignedRoots.MarginIs` | ayane/src/service.rs:116-117 | the refresh margin is a quarter of the lifetime, and five minutes from twenty minutes on |
| `SignedRoots.VerifyRootsResponse` | ayane-cli/src/httpsig.rs:47-97 | the first failing check of digest, freshness, thumbprint, signature and pins is reported; it accepts exactly when none fails and a path to a pinned root exists |
| `SignedRoots.HeadersDemand` | ayane-cli/src/httpsig.rs:47-90 | the headers pass exactly when the digest is the body's, created < expires <= created + 604800, created - 60 <= now < expires, the first certificate has the thumbprint named, and the signature verifies under its key |
| `SignedRoots.HeadersRefused` | ayane-cli/src/httpsig.rs:47-90 | which of these failing gives which rejection, in order |
| `SignedRoots.HonestHeadersPass` | ayane-cli/src/httpsig.rs:54-90 | on a response of this CA only the clock can fail, and which error it gives |
| `SignedRoots.AcceptedExactlyWhileFresh` | ayane-cli/src/httpsig.rs:47-97 | a response of any run of overlapping requests is rejected as expired from `expires` on and as premature before created - 60; in between the anchoring alone decides |
| `SignedRoots.FetchAndVerify` | ayane-cli/src/httpsig.rs:47-97 | server and client composed: accepted exactly for client clocks in [created - 60, expires) with an anchored chain |
| `SignedRoots.AcceptedIsSigned` | ayane-cli/src/httpsig.rs:54-90 | if the signature value presented verifies only messages that were signed, an accepted response carries the digest, key header, times and algorithm of one of them |
| `SignedRoots.AcceptedComesFromRun` | ayane-cli/src/httpsig.rs:54-90 | so an accepted body has the digest of the CA's body, under a signature the server run made at an instant whose lifetime covers the client's clock |
| `SignedRoots.AnswersAreGenuine` | ayane/src/service.rs:133-157 | every response the server run gives presents such a signature value, for a client that trusts the CA |
| `SignedRoots.AcceptedExactlyFromRun` | ayane-cli/src/httpsig.rs:47-97 | server run and trusting client together: a response bearing a signature of the run is accepted exactly when anchored, within its lifetime, and carrying what that signature covers with the CA's body |
| `StorageContract.FirstRevocationStays` | ayane/src/storage/mod.rs:104-112 | a recorded revocation keeps its first record through every later operation |
| `StorageContract.FirstCertificateStays` | ayane/src/storage/mod.rs:93-102 | so does an inventory record |
| `Sqlite.SqliteStorage.RecordCertificate` | ayane/src/storage/sqlite.rs:155-186 | plain insert; a reused serial is an error and changes nothing |
| `Sqlite.SqliteStorage.Revoke` | ayane/src/storage/sqlite.rs:210-229 | insert or ignore: the first record wins |
| `Sqlite.SqliteStorage.GetRevocation` | ayane/src/storage/sqlite.rs:231-251 | reports the stored record |
| `Sqlite.SqliteStorage.ClaimToken` | ayane/src/storage/sqlite.rs:276-310 | delete-expired then insert-or-ignore in one transaction succeeds exactly when the key is absent or expired; a conflict rolls back |
| `Sqlite.SqliteStorage.GetCache` | ayane/src/storage/sqlite.rs:312-335 | drops the entry if expired, then answers from what is left |
| `Sqlite.SqliteStorage.SetCache` | ayane/src/storage/sqlite.rs:337-354 | the last write replaces the entry |
| `Sqlite.SqliteStorage.ReapExpired` | ayane/src/storage/sqlite.rs:356-378 | removes exactly the expired tokens and cache rows and counts them |
| `Sqlite.Refines` | ayane/src/storage/sqlite.rs:210-378 | over every serialised run SQLite gives the contract's answers with no slack; deletions on read and reaper runs are unobservable |
| `Sqlite.StepRefines` | ayane/src/storage/sqlite.rs:210-378 | each operation answers as the contract does and keeps the representation |
| `Sqlite.OrderIsNeeded` | ayane/src/storage/sqlite.rs:276-378 | a claim, a reaper run and a claim with an older timestamp that SQLite and the contract answer differently |
| `Sqlite.StepAtAnyTime` | ayane/src/storage/sqlite.rs:155-378 | on the rows themselves every operation with any timestamp answers as the contract does; a reaper run drops lapsed claims and nothing lasting |
| `Sqlite.ClaimsAtMostOnce` | ayane/src/storage/sqlite.rs:276-310 | over every run with arbitrarily stale timestamps, two successful claims of one key are apart by the first one's expiry |
| `DynamoDb.KeyTextInjective` | ayane/src/storage/dynamodb.rs:68-88 | the key text determines kind and content, so the keyspaces of the one table never meet |
| `DynamoDb.KeyText` | ayane/src/storage/dynamodb.rs:16-88 | the partition and sort keys in use, as text |
| `DynamoDb.DynamoDbStorage.GetItem` | ayane/src/storage/dynamodb.rs:219-228 | the item under a full key as of some version of the table |
| `DynamoDb.DynamoDbStorage.PutIfAbsent` | ayane/src/storage/dynamodb.rs:115-122 | the conditional put stores exactly when the full key is free |
| `DynamoDb.DynamoDbStorage.RecordCertificate` | ayane/src/storage/dynamodb.rs:97-134 | refused exactly when this serial is already recorded under this name |
| `DynamoDb.DynamoDbStorage.Revoke` | ayane/src/storage/dynamodb.rs:175-213 | a failed condition is success and keeps the first record |
| `DynamoDb.DynamoDbStorage.GetRevocation` | ayane/src/storage/dynamodb.rs:215-245 | reports the record of some version of the table, for no consistent read is asked for |
| `DynamoDb.DynamoDbStorage.ClaimToken` | ayane/src/storage/dynamodb.rs:289-349 | succeeds when the item is absent or its padded ttl has passed, and stores a ttl an hour past the expiry |
| `DynamoDb.DynamoDbStorage.GetCache` | ayane/src/storage/dynamodb.rs:351-391 | reads some version, and judges expiry by the real expiry, not by the padded ttl |
| `DynamoDb.DynamoDbStorage.SetCache` | ayane/src/storage/dynamodb.rs:393-439 | unconditional overwrite with both expiries |
| `DynamoDb.DynamoDbStorage.ListRevocations` | ayane/src/storage/dynamodb.rs:247-287 | although the index trails the table and changes between pages: in index order without repeats, only revocations, and every one the index showed throughout; the loop ends |
| `DynamoDb.Refines` | ayane/src/storage/dynamodb.rs:175-446 | over every serialised run each write is answered as the contract does with an hour of slack, and each lookup as the contract did at the version it saw, whatever the TTL sweep removes, unless a serial is reused under another name |
| `DynamoDb.CurrentReadsRefine` | ayane/src/storage/dynamodb.rs:175-446 | over every serialised run whose lookups are current DynamoDB gives exactly the contract's answers with an hour of slack |
| `DynamoDb.TrailingLookup` | ayane/src/storage/dynamodb.rs:219-228 | a trailing revocation lookup answers as a current one exactly unless the revocation came in between |
| `DynamoDb.RevocationMissed` | ayane/src/storage/dynamodb.rs:219-228 | an acknowledged revocation that the next lookup does not find |
| `DynamoDb.StepRefines` | ayane/src/storage/dynamodb.rs:175-446 | each operation on a version of the table answers as the contract does there and keeps the representation |
| `DynamoDb.SweepRefines` | ayane/src/storage/dynamodb.rs:28-31 | a lazy TTL sweep of any lapsed items is unobservable |
| `DynamoDb.StepAtAnyTime` | ayane/src/storage/dynamodb.rs:175-446 | on a table's own contents every operation with any timestamp is the contract's with an hour of slack; a write acts on the current table, a lookup on the version it reads |
| `DynamoDb.SweepAtAnyTime` | ayane/src/storage/dynamodb.rs:28-31 | a sweep removes lapsed claims and cached values and nothing lasting |
| `DynamoDb.ReuseDetection` | ayane/src/storage/dynamodb.rs:102-120 | a put of a reused serial answers as the contract demands exactly when the common name is the recorded one |
| `DynamoDb.HeldForAnHourMore` | ayane/src/storage/dynamodb.rs:289-349 | a claim holds its key until exactly 3600 s past its expiry |
| `DynamoDb.ClaimsAtMostOnce` | ayane/src/storage/dynamodb.rs:289-349 | over every run with stale timestamps and any sweeps, two successful claims of one key are apart by the first one's expiry plus an hour |
| `Denylist.AtMostOnce` | ayane/src/storage/mod.rs:118-125 | two successful claims of a key are apart by the first recorded expiry plus the slack, for every interleaving |
| `Denylist.HeldOrLapsed` | ayane/src/storage/mod.rs:118-125 | a successful claim still holds its key, or its hold has lapsed |
| `ClaimSpec.AllClaimedIff` | ayane/src/service.rs:211-268 | in one brisk request all claims succeed exactly when every key is free beforehand and no two coincide |
| `ClaimSpec.PrefixIsClaimed` | ayane/src/service.rs:252-268 | a refusal leaves exactly the claims before it |
| `ClaimSpec.KeyspacesDisjoint` | ayane/src/service.rs:231-245 | keys of different kinds differ, and keys of one kind determine the id |
| `ClaimSpec.OttDpopAndScopeKeysDisjoint` | ayane/src/service.rs:231-258 | token, proof and scope keys never coincide |
| `ClaimSpec.ScopeKeysEqual` | ayane/src/service.rs:247-258 | the exact condition under which two scopes share a key |
| `ClaimSpec.ScopeNamespacesClash` | ayane/src/service.rs:247-258 | two different namespaces can share a key exactly when one, followed by `#`, begins the other |
| `ClaimSpec.ScopeKeyInjective` | ayane/src/service.rs:247-258 | so scope keys determine namespace and value when namespaces hold no `#` |
| `ClaimSpec.ScopeKeyClash` | ayane/src/service.rs:247-258 | two different scopes that share a key through a `#` in a namespace |
| `ClaimSpec.TokenAndHookScopesApart` | ayane/src/service.rs:371-380 | a token scope and a hook scope never share a key |
| `ClaimSpec.ProofConsumedOnce` | ayane/src/dpop.rs:112-132 | a proof is consumed again only by a request that lagged a full minute, plus the backend's slack, between verifying and claiming |
| `ClaimSpec.TokenClaimedOnce` | ayane/src/service.rs:382-391 | a token id is never claimed twice before the token's expiry plus 60 s |
| `ClaimSpec.ScopeClaimedOnce` | ayane/src/service.rs:247-268 | a scope without its own expiry is not granted again before the first certificate's notAfter |
| `Claiming.ClaimOnce` | ayane/src/service.rs:211-229 | claims exactly when the key is free, flooring the recorded expiry; a conflict becomes unauthorized |
| `Claiming.ClaimJti` | ayane/src/service.rs:231-245 | the same under the namespaced key |
| `Claiming.ClaimOnceScopes` | ayane/src/service.rs:252-268 | claims the scopes in order, stops at the first conflict, and leaves exactly the claims made |
| `Validity.RequestedWindow` | ayane/src/template.rs:197-230 | a requested window comes back exactly, cut only by the ceiling and never below the minimum the ceiling allows |
| `Validity.SignedWindowBounded` | ayane/src/service.rs:356-369 | in whole seconds, for any hook output a signed window is non-empty, within max validity plus backdate, and inside the hooked one; it fails only on an empty window |
| `Validity.SubSecondWindow` | ayane/src/x509.rs:88-103 | truncating to whole seconds keeps the ceiling, and leaves a positive span exactly when the ends fall in different seconds |
| `Validity.SubSecondWindowCollapses` | ayane/src/service.rs:365-369 | a concrete window that passes the collapse check and is signed with no span |
| `Validity.ReissuedWindowBounded` | ayane/src/service.rs:568-613 | a reissue ends by the renewal instant plus the parent's span, and keeps the span if notBefore is not moved back |
| `Validity.SpanGuard` | ayane/src/service.rs:602-613 | no hooked notAfter lengthens the span exactly when notBefore is at or after the renewal instant |
| `Validity.BackdatingHookGrowsSpan` | ayane/src/service.rs:602-613 | a concrete hook answer that turns a one-day certificate into a 25-hour one |
| `Validity.HooklessWindow` | ayane/src/service.rs:565-573 | without hooks a renewal starts now and keeps the span |
| `Hooks.Run` | ayane/src/hook/mod.rs:286-351 | the loop computes the declarative outcome: the first objection in order, else the layered customization if authorized or granted |
| `Hooks.Consult` | ayane/src/hook/mod.rs:316-349 | one hook objects, or layers its response and says whether it grants |
| `Hooks.ApplyResponse` | ayane/src/hook/mod.rs:365-404 | one response is layered as specified, or rejected for an unparsable extension |
| `Hooks.OutcomeSucceeds` | ayane/src/hook/mod.rs:290-363 | a request succeeds exactly when no applicable hook objects and it is authorized or granted |
| `Hooks.OutcomeDecided` | ayane/src/hook/mod.rs:294-363 | success exactly when every hook asked answers, none denies, all extensions parse, and the request is authorized or some reply says allow |
| `Hooks.OutcomeHeeds` | ayane/src/hook/mod.rs:294-404 | on success every property is what the replies, in order, made of it: last word, latch, replacement and additions, concatenation |
| `Hooks.OutcomeRefused` | ayane/src/hook/mod.rs:332-350 | the first reply to refuse decides the error; an unauthorized request nobody grants is forbidden |
| `Hooks.LayersOverrides` | ayane/src/hook/mod.rs:375-397 | each scalar is the last applicable override, or the baseline |
| `Hooks.LayersSans` | ayane/src/hook/mod.rs:378-385 | the SANs are the last replacement followed by the later additions that are new |
| `Hooks.AddNewMeaning` | ayane/src/hook/mod.rs:381-385 | additions keep what was there, bring in exactly the missing names and repeat none |
| `Hooks.LayersLatch` | ayane/src/hook/mod.rs:370-374 | renewability is the baseline unless some hook disabled it |
| `Hooks.LayersClaims` | ayane/src/hook/mod.rs:341-347 | once-claims and extensions are concatenated in hook order |
| `Extensions.ExtensionList.Upsert` | ayane/src/template.rs:246-253 | the list afterwards is the old one without that identifier, then the new extension |
| `Extensions.ExtensionList.SetNonRenewableMarker` | ayane/src/ca.rs:327-341 | any earlier copy is dropped, and the marker stamped only when non-renewable |
| `Extensions.ExtensionList.FinalizeKeyIdentifiers` | ayane/src/template.rs:302-325 | both key identifiers replace any already present |
| `Extensions.BuildExtensions` | ayane/src/template.rs:157-195 | the assembled list is the template's, overridden and extended as specified |
| `Extensions.ReissueExtensions` | ayane/src/ca.rs:250-289 | the assembled list is the parent's, re-derived, overridden and extended as specified |
| `Extensions.IssuedCarries` | ayane/src/template.rs:157-195 | for every identifier, which extension a fresh certificate carries, in order of precedence; identifiers are distinct |
| `Extensions.ReissuedCarries` | ayane/src/ca.rs:243-289 | for every identifier, which extension a reissue carries; distinctness is inherited |
| `Extensions.LookupUpserted` | ayane/src/template.rs:246-253 | an upsert changes the lookup at its own identifier and nowhere else |
| `Extensions.DistinctUpserted` | ayane/src/template.rs:246-253 | an upsert keeps identifiers distinct |
| `Extensions.HooklessReissue` | ayane/src/ca.rs:222-289 | a hookless reissue agrees with its parent on all but key identifiers and SAN, and its SAN decodes to the parent's names |
| `Extensions.CertSansIsLookup` | ayane/src/service.rs:906-926 | with distinct identifiers the names read back are those of the one SAN extension |
| `Planning.SignedSansPermitted` | ayane/src/service.rs:316-334 | under an authorizing token, unless a hook changes the names, every name issued is permitted by the token and there is at least one |
| `Planning.SignPlanMeans` | ayane/src/service.rs:299-414 | a signing plan in the fields of the request: CSR binding, names, template, window, hooks, the claim `ott#` and the replay id until max(exp, 0) + 60, the token's own scope last |
| `Planning.SignRefused` | ayane/src/service.rs:299-342 | which failing check before the hooks gives which error, in order |
| `Planning.SignHookRefusal` | ayane/src/service.rs:344-369 | past those the hooks decide: first refusal, default deny, collapsed window, else a plan |
| `Planning.SignWindowRefused` | ayane/src/template.rs:209-230 | a request for which no window can be granted is refused |
| `Planning.ValidityToAsk` | ayane/src/template.rs:199-230 | exactly which window is granted for which request, and when it is a bad request |
| `Planning.UnauthorizedNeedsGrant` | ayane/src/service.rs:302-356 | an unauthorized token gets a certificate only if an applicable hook grants it |
| `Planning.SignPlanBounded` | ayane/src/service.rs:336-369 | a planned certificate is within its template's ceiling, and renewable only if its token says so |
| `Planning.ReissuePlanBounded` | ayane/src/service.rs:532-613 | a planned reissue descends from a live, unmarked certificate and is bounded by its span |
| `Planning.ReissuePlanMeans` | ayane/src/service.rs:532-642 | a renewal plan in the fields of the request: marker, expiry, fresh proof, key, the claim `dpop#` and the jti until max(iat, 0) + 360, and every hook for all provisioners heeded |
| `Planning.ReissueRefused` | ayane/src/service.rs:532-602 | which failing check gives which error, in order, the hooks' first refusal last |
| `Planning.ReissueAllowed` | ayane/src/service.rs:585-613 | a renewal no hook refuses is planned exactly if the window the hooks put, cut at the parent's span, is not empty |
| `Planning.HooklessPlan` | ayane/src/service.rs:552-601 | without hooks a reissue keeps subject, names, span and policy, and is renewable |
| `Service.Issue` | ayane/src/ca.rs:173-220 | builds exactly the specified certificate and its decimal serial, or reports a name that cannot be encoded, then a time that cannot |
| `Planning.CertificateMeans` | ayane/src/ca.rs:173-312 | when a certificate can be made, and its serial, subject, key, times, key identifiers and marker, as encoded |
| `Planning.CertificateExtensions` | ayane/src/ca.rs:250-289 | under any other identifier: what a hook last sent, else the names, else what the template or the parent gives, as encoded and with its criticality |
| `Planning.SerialLength` | ayane/src/x509.rs:64-76 | a drawn serial is a positive number of 151 bits, and every such number can be drawn |
| `Service.Commit` | ayane/src/service.rs:382-431 | on success all claims are made, the certificate is the specified one and its record is the only other change; it fails exactly for a refused claim, a certificate that cannot be encoded or a taken serial, and then only claims remain |
| `Service.TrySign` | ayane/src/service.rs:290-441 | a request that fails a check changes nothing; otherwise it commits its plan |
| `Service.TryRenewOrRekey` | ayane/src/service.rs:503-674 | a serial revoked in the version the lookup saw, or any failed check, leaves the store unchanged; otherwise it commits its plan |
| `Service.TryRevoke` | ayane/src/service.rs:700-771 | the credential is consumed and then the serial revoked, keeping an earlier record, exactly if the credential was free; a failed check changes nothing |
| `Service.RevocationEntitled` | ayane/src/service.rs:710-747 | a revocation goes ahead exactly when its spelling denotes a number and a token names the same number, or a proof at most 300 s old and 60 s ahead comes with this CA's certificate of it; and which claim consumes that |
| `Service.RevocationRefused` | ayane/src/service.rs:710-747 | which failing check gives which error, in order |
| `Lifecycle.AlwaysInv` | ayane/src/service.rs:290-771 | the invariant of claims, inventory, lineage, shape and revocation order holds in every reachable state of every interleaving of requests, reaper runs and sweeps, with stale clocks and trailing lookups |
| `Lifecycle.NoRunLeftOut` | ayane/src/service.rs:290-771 | requests, purges and revocations may interleave in any order and with any reading of the clock so far |
| `Lifecycle.ReturnedIsRecorded` | ayane/src/service.rs:416-440 | every returned certificate is in the inventory under its serial, with its PEM, names, times, provisioner and operation, and is marked exactly when the record says non-renewable |
| `Lifecycle.EveryCertificateWellShaped` | ayane/src/ca.rs:183-289 | whatever hooks inject, every certificate has distinct identifiers, the CA's key identifiers and the right marker |
| `Lifecycle.NoMarkedAncestor` | ayane/src/service.rs:532-540 | nothing ever descends by reissue from a non-renewable certificate |
| `Lifecycle.RevokedIsNotRenewed` | ayane/src/service.rs:526-531 | every successful reissue looked its parent up in a version that reflects no revocation of it; with current lookups, before any revocation |
| `Lifecycle.LookupStops` | ayane/src/service.rs:526-531 | a lookup stops a reissue exactly when the version it sees reflects a revocation; a current one exactly when the serial is revoked |
| `Lifecycle.TrailingLookupRenews` | ayane/src/service.rs:526-674 | after any run, a certificate revoked at or after the version its renewal looks up is renewed and returned |
| `Lifecycle.ClaimIsExclusive` | ayane/src/service.rs:211-245 | whoever makes them, issuance, revocation or scopes, two successful claims of one key in a run are apart by the first one's recorded expiry plus the slack |
| `Lifecycle.CredentialSingleUse` | ayane/src/service.rs:386-391 | of two requests that got past claiming one credential, finished or not, the later claimed it no sooner than the first one's recorded expiry plus the slack |
| `Lifecycle.TokenSingleUse` | ayane/src/service.rs:386-391 | over every run, of two signing requests with one replay id that got past claiming it, the later claimed it no sooner than exp + 60 plus the slack |
| `Lifecycle.ProofReuseLags` | ayane/src/service.rs:542-619 | over every run, of two renewals with one proof that got past claiming it, the later took 60 s plus the slack from its clock reading to its claim |
| `Lifecycle.ProofSingleUse` | ayane/src/service.rs:542-619 | over every run a proof is consumed twice only if the later request took a full minute plus the slack between verifying and claiming |
| `Lifecycle.PlannedClaimsApart` | ayane/src/service.rs:382-391 | of two planned claims of one key, credential or scope, the later commits no sooner than the expiry the first one's plan asked for plus the slack |
| `Lifecycle.ScopeSingleUse` | ayane/src/service.rs:247-268 | over every run, of two returned certificates sharing a scope the later one's claim commits no sooner than the scope's own expiry, or the first one's notAfter if it has none |
| `Lifecycle.ReturnedClaimedAll` | ayane/src/service.rs:382-415 | a returned certificate's request made every claim of its plan, in order |
| `Lifecycle.LifetimesBounded` | ayane/src/service.rs:356-369 | along any renew and rekey chain whose hooks keep notBefore, the span stays within the root template's ceiling |
| `Lifecycle.ReissueEndsInTime` | ayane/src/service.rs:568-608 | whatever the hooks said, a reissue ends by its renewal instant plus its parent's span |
| `Lifecycle.HooklessReissueFaithful` | ayane/src/ca.rs:222-289 | over every run, an untouched reissue keeps its parent's extensions and names |
| `Jwks.CacheControlTtl` | ayane/src/authorizer/jwks.rs:325-343 | the first usable max-age, unchanged from 300 to 86400 s and cut to those bounds outside, else 3600 s |
| `Jwks.DirectiveAge` | ayane/src/authorizer/jwks.rs:325-343 | a directive gives an age exactly when, trimmed, it is `max-age=` and a 64-bit number |
| `Jwks.FirstAge` | ayane/src/authorizer/jwks.rs:325-343 | the age in force is that of the first directive to give one |
| `Jwks.SelectedKey` | ayane/src/authorizer/jwks.rs:283-298 | the key selected is the first with the id asked for, or the only key when no id is |
| `Jwks.SingleFlight` | ayane/src/authorizer/jwks.rs:123-139 | at most one fetch is in flight, for every interleaving, failure and cancellation |
| `Jwks.NoRunLeftOut` | ayane/src/authorizer/jwks.rs:98-139 | callers may come, take the free lock, finish, fail or be cancelled in any order |
| `Jwks.FetchesSpaced` | ayane/src/authorizer/jwks.rs:123-139 | successful fetches are at least 60 s apart |
| `Jwks.FetchesAfterAMinute` | ayane/src/authorizer/jwks.rs:123-139 | past the lock a caller fetches exactly when nothing was stored in the last minute |
| `Jwks.ResolvedFromFreshSet` | ayane/src/authorizer/jwks.rs:98-121 | every key returned bears the id asked for, or is its set's only key, and that set was fresh at some instant of the call |
| `Jwks.NeverEmptyAfterRefresh` | ayane/src/authorizer/jwks.rs:112-116 | the cache is never empty after a successful refresh |
| `Jwks.FailedFetchFreesTheNext` | ayane/src/authorizer/jwks.rs:100-139 | after a failed fetch a newcomer is served without one exactly when a fresh cached set holds its key, and otherwise fetches in the same instant |
| `RenewLoop.ResolveFraction` | ayane-cli/src/cmd/renew.rs:115-125 | the schedule options are refused exactly when both are set or the fraction is out of range; otherwise the fraction is the one asked for, or 0.66 |
| `RenewLoop.DueWithinWindow` | ayane-cli/src/cmd/renew.rs:297-318 | renewal is due inside the validity window for every jitter |
| `RenewLoop.DueBeforeExpiryExactly` | ayane-cli/src/cmd/renew.rs:305-317 | with a time before expiry configured, renewal is due exactly then, less the jitter, but not before notBefore |
| `RenewLoop.DueBeforeExpiry` | ayane-cli/src/cmd/renew.rs:297-318 | it is due strictly before expiry exactly with jitter, a positive renew-before, or a fraction leaving more than half a nanosecond |
| `RenewLoop.NearlyWholeFractionIsDueAtExpiry` | ayane-cli/src/cmd/renew.rs:307-312 | a one-day certificate and a fraction below one whose renewal is due only at notAfter |
| `RenewLoop.FractionAccurate` | ayane-cli/src/cmd/renew.rs:307-312 | the schedule is the requested fraction to within half a nanosecond and one rounding of a double |
| `RenewLoop.JitterPullsEarlier` | ayane-cli/src/cmd/renew.rs:314-317 | jitter only moves renewal earlier, by at most itself |
| `RenewLoop.WaitUntil` | ayane-cli/src/cmd/renew.rs:216-233 | naps are at most the cap and never pass the deadline; it ends only at the deadline or on a signal |
| `RenewLoop.Backoff.Wait` | ayane-cli/src/cmd/renew.rs:348-376 | the delay is at most the ceiling for the failures so far, although the counter saturates |
| `RenewLoop.BackoffDoubles` | ayane-cli/src/cmd/renew.rs:354-366 | the ceiling doubles from a minute and stays at half an hour from the fifth failure on |
| `RenewLoop.Loop.Cycle` | ayane-cli/src/cmd/renew.rs:155-278 | a renewal is attempted only when due, after capped naps, or on a hangup; by the server's answer at that instant a saved renewal resets the backoff, a transient failure waits at most the ceiling and lengthens it; rejection, an unsaved renewal and a first-load failure end the loop |
| `RenewLoop.Loop.AwaitDue` | ayane-cli/src/cmd/renew.rs:169-194 | jitter, start-up delay and naps until renewal is due; the due instant or a hangup leads to an attempt, a stop signal to none |
| `RenewLoop.Loop.Spread` | ayane-cli/src/cmd/renew.rs:176-189 | one start-up delay of at most the jitter and the nap cap, ended early only by a stop signal |
| `RenewLoop.Loop.Renew` | ayane-cli/src/cmd/renew.rs:235-268 | the three ways a renewal attempt ends, with what each does to the backoff |
| `RenewLoop.SpanConstant` | ayane/src/service.rs:568-573 | however many renewals a hookless server grants, each runs from its instant for exactly the original span |
| `RenewLoop.InTimeIsRenewed` | ayane/src/service.rs:541-573 | a hookless server grants a renewal exactly before notAfter, with the original span from its instant |
| `RenewLoop.RenewalsSucceed` | ayane/src/service.rs:541-573 | a whole chain of renewals succeeds exactly when each attempt comes before the expiry then current |
| `RenewLoop.CycleAgainstServer` | ayane-cli/src/cmd/renew.rs:155-268 | client cycle and hookless server composed on one clock: the loop goes on exactly when the attempt comes before notAfter, and the new certificate has the original span and is due within it |

## Left out

- Cryptography, DER, PEM, base64, JSON, JWT and IP-address parsing: library code, here function-valued parameters.
- AWS, HTTP, Lambda and exec transports, TLS serving, argument parsing, audit sinks, provisioner listing: input and output only.
- Looking certificates up by serial (`get_certificate`): no handler uses it, and on DynamoDB it returns one arbitrary match.
- The reaper's endless timer loop: its single step is `ReapExpired`, allowed at any point of a run.
- Self-issued serving certificates (`ayane/src/tls.rs`): they bypass the inventory.
- Randomness quality: serials, jitter and identifiers are arbitrary values of the stated shape.
- Bits of the double-precision product: any value within one rounding of the exact product and not past the length itself; its rounding to nanoseconds, ties to even, is modelled.
- DynamoDb.Refines: assumes no serial is recorded again under another common name, because the table does not notice that; `DynamoDb.ReuseDetection` gives the exact condition.
- DynamoDb.StepAtAnyTime: makes the same assumption.
- Lifecycle.AlwaysInv: on DynamoDB it rests on the same assumption, since its inventory refuses any reused serial.
- RenewLoop.WaitUntil: requires a positive cap on naps; with a zero cap the program polls the clock without sleeping.
- SignedRoots.AcceptedExactlyWhileFresh: assumes plain header values (no quote in the URL or thumbprint, no `;` in the algorithm), which the configured values satisfy.
- SignedRoots.FetchAndVerify: makes the same assumption.
- SignedRoots.AcceptedExactlyFromRun: makes the same assumption.
- SignedRoots.ServeInTurn: assumes current lookups; for trailing ones the responses are sound (`SignedRoots.EveryResponseSigned`), but their spacing is not.
- Validity.SignedWindowBounded: windows are whole seconds; what truncation does to a finer one is `Validity.SubSecondWindow`.
- The key-set cache and the concurrent service runs are state machines over values, one step per stretch between awaits, because callers interleave inside a method; object identity of the locks is not modelled.
- Deserialising a corrupt database row: stored values read back as written.
