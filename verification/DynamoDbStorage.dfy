/**
 The DynamoDB backend (ayane/src/storage/dynamodb.rs): one table under a composite key,
 conditional puts, a lazy TTL sweep that may remove lapsed items at any time, and reads that
 do not ask for consistency, so an earlier version may answer them.
 */
module DynamoDb {
  import opened Basics
  import opened StorageContract
  import opened Text
  import Denylist

  /** Retention added to `ttl` beyond an item's real expiry. */
  const TTL_BUFFER: nat := 3600

  /** The composite keys in use; their text is `Pk()` and `Sk()`. */
  datatype Key =
    | CertificateKey(serial: string, commonName: string)
    | RevocationKey(serial: string)
    | TokenKey(jti: string)
    | CacheKey(key: string)
  {
    function Pk(): string {
      match this
      case CertificateKey(serial, _) => "certificate:" + serial
      case RevocationKey(serial) => "revocation:" + serial
      case TokenKey(jti) => "token:" + jti
      case CacheKey(key) => "cache:" + key
    }

    function Sk(): string {
      match this
      case CertificateKey(_, commonName) => "cn:" + commonName
      case RevocationKey(_) => "revocation"
      case TokenKey(_) => "token"
      case CacheKey(_) => "cache"
    }
  }

  /** The partition and sort keys in use, as text. */
  lemma KeyText(id: string, commonName: string)
    ensures CertificateKey(id, commonName).Pk() == "certificate:" + id && CertificateKey(id, commonName).Sk() == "cn:" + commonName
    ensures RevocationKey(id).Pk() == "revocation:" + id && RevocationKey(id).Sk() == "revocation"
    ensures TokenKey(id).Pk() == "token:" + id && TokenKey(id).Sk() == "token"
    ensures CacheKey(id).Pk() == "cache:" + id && CacheKey(id).Sk() == "cache"
  {
  }

  /** The text of a key determines it, so the keyspaces never meet. */
  lemma KeyTextInjective(a: Key, b: Key)
    ensures a.Pk() == b.Pk() && a.Sk() == b.Sk() <==> a == b
  {
    if a.Pk() == b.Pk() && a.Sk() == b.Sk() {
      assert a.Pk()[0] == b.Pk()[0] && a.Pk()[1] == b.Pk()[1];
      match (a, b)
      case (CertificateKey(s, c), CertificateKey(s', c')) =>
        SamePrefix("certificate:", s, s');
        SamePrefix("cn:", c, c');
      case (RevocationKey(s), RevocationKey(s')) => SamePrefix("revocation:", s, s');
      case (TokenKey(j), TokenKey(j')) => SamePrefix("token:", j, j');
      case (CacheKey(k), CacheKey(k')) => SamePrefix("cache:", k, k');
      case _ =>
    }
  }

  /** The attributes an item may carry. */
  datatype Item = Item(
    certificate: Option<CertificateRecord>, revocation: Option<RevocationRecord>,
    value: Option<Bytes>, exp: Option<nat>, ttl: Option<nat>)

  type Table = map<Key, Item>

  /** `attribute_not_exists(pk) OR #ttl <= :now`, evaluated on the item under the full key. */
  predicate AbsentOrLapsed(table: Table, k: Key, now: nat) {
    k in table ==> table[k].ttl.Some? && table[k].ttl.value <= now
  }

  function TableStep(table: Table, op: Op): (Table, Answer) {
    match op
    case RecordCertificate(c) =>
      var k := CertificateKey(c.serialNumber, c.subject);
      if k in table then (table, Refused(Internal))
      else (table[k := Item(Some(c), None, None, None, None)], Done)
    case Revoke(r) =>
      var k := RevocationKey(r.serialNumber);
      (if k in table then table else table[k := Item(None, Some(r), None, None, None)], Done)
    case GetRevocation(serial) =>
      var k := RevocationKey(serial);
      (table, Revocation(if k in table then table[k].revocation else None))
    case ClaimToken(jti, expiresAt, now) =>
      var k := TokenKey(jti);
      if AbsentOrLapsed(table, k, now) then (table[k := Item(None, None, None, None, Some(expiresAt + TTL_BUFFER))], Done)
      else (table, Refused(Conflict))
    case GetCache(key, now) =>
      var k := CacheKey(key);
      (table,
       if k !in table || table[k].exp.None? || table[k].exp.value <= now then Cached(None)
       else if table[k].value.Some? then Cached(table[k].value)
       else Refused(Internal))
    case SetCache(key, value, expiresAt) =>
      (table[CacheKey(key) := Item(None, None, Some(value), Some(expiresAt), Some(expiresAt + TTL_BUFFER))], Done)
    case ReapExpired(_) => (table, Done)
  }

  /** DynamoDB's own TTL deletion of some lapsed items. */
  function Swept(table: Table, keys: set<Key>, now: nat): Table {
    map k | k in table && !(k in keys && table[k].ttl.Some? && table[k].ttl.value <= now) :: table[k]
  }

  class DynamoDbStorage {
    var table: Table
    var earlier: seq<Table>

    /** Every version the service may still read from, the current one last. */
    function Versions(): (versions: seq<Table>)
      reads this
      ensures versions != []
    {
      earlier + [table]
    }

    constructor ()
      ensures Versions() == [map[]]
    {
      table, earlier := map[], [];
    }

    /** GetItem without `ConsistentRead`: the item as of some version. */
    method GetItem(k: Key) returns (item: Option<Item>, ghost seen: nat)
      ensures seen < |Versions()|
      ensures item == if k in Versions()[seen] then Some(Versions()[seen][k]) else None
    {
      var v :| 0 <= v < |Versions()|;
      var version := Versions()[v];
      seen := v;
      return if k in version then Some(version[k]) else None, seen;
    }

    method Put(k: Key, item: Item)
      modifies this
      ensures table == old(table)[k := item] && earlier == old(Versions())
    {
      earlier, table := earlier + [table], table[k := item];
    }

    /** PutItem with `attribute_not_exists(pk)`: refused when the full key is taken. Conditions see the current version. */
    method PutIfAbsent(k: Key, item: Item) returns (stored: bool)
      modifies this
      ensures stored == (k !in old(table))
      ensures table == if stored then old(table)[k := item] else old(table)
      ensures earlier == if stored then old(Versions()) else old(earlier)
    {
      stored := k !in table;
      if stored {
        Put(k, item);
      }
    }

    method RecordCertificate(record: CertificateRecord) returns (answer: Answer)
      modifies this
      ensures (table, answer) == TableStep(old(table), Op.RecordCertificate(record))
      ensures earlier == if answer == Done then old(Versions()) else old(earlier)
    {
      var stored := PutIfAbsent(CertificateKey(record.serialNumber, record.subject), Item(Some(record), None, None, None, None));
      return if stored then Done else Refused(Internal);
    }

    /** A failed condition is idempotent success: the first record is kept. */
    method Revoke(record: RevocationRecord) returns (answer: Answer)
      modifies this
      ensures (table, answer) == TableStep(old(table), Op.Revoke(record))
      ensures earlier == if RevocationKey(record.serialNumber) in old(table) then old(earlier) else old(Versions())
    {
      var stored := PutIfAbsent(RevocationKey(record.serialNumber), Item(None, Some(record), None, None, None));
      return Done;
    }

    method GetRevocation(serial: string) returns (answer: Answer, ghost seen: nat)
      ensures seen < |Versions()| && answer == TableStep(Versions()[seen], Op.GetRevocation(serial)).1
    {
      var item;
      item, seen := GetItem(RevocationKey(serial));
      return Revocation(if item.Some? then item.value.revocation else None), seen;
    }

    method ClaimToken(jti: string, expiresAt: nat, now: nat) returns (answer: Answer)
      modifies this
      ensures (table, answer) == TableStep(old(table), Op.ClaimToken(jti, expiresAt, now))
      ensures earlier == if answer == Done then old(Versions()) else old(earlier)
    {
      var k := TokenKey(jti);
      var ttl := expiresAt + TTL_BUFFER;
      if !AbsentOrLapsed(table, k, now) {
        return Refused(Conflict);
      }
      Put(k, Item(None, None, None, None, Some(ttl)));
      return Done;
    }

    /** The padded `ttl` is for deletion only: expiry on read is judged by `exp`. */
    method GetCache(key: string, now: nat) returns (answer: Answer, ghost seen: nat)
      ensures seen < |Versions()| && answer == TableStep(Versions()[seen], Op.GetCache(key, now)).1
    {
      var found;
      found, seen := GetItem(CacheKey(key));
      if found.None? {
        return Cached(None), seen;
      }
      var item := found.value;
      var expired := item.exp.None? || item.exp.value <= now;
      if expired {
        return Cached(None), seen;
      }
      return if item.value.Some? then Cached(item.value) else Refused(Internal), seen;
    }

    /** Last writer wins: no condition. */
    method SetCache(key: string, value: Bytes, expiresAt: nat) returns (answer: Answer)
      modifies this
      ensures (table, answer) == TableStep(old(table), Op.SetCache(key, value, expiresAt))
      ensures earlier == old(Versions())
    {
      Put(CacheKey(key), Item(None, None, Some(value), Some(expiresAt), Some(expiresAt + TTL_BUFFER)));
      return Done;
    }
  }

  // ----- Listing revocations -----

  /**
   The inverted index while it is being listed: the revocations it shows throughout, and all it shows
   at any time. `before` is its key order.
   */
  datatype Index = Index(steady: set<string>, ever: map<string, RevocationRecord>, before: (string, string) -> bool) {
    ghost predicate Valid() {
      && steady <= ever.Keys
      && (forall a, b :: before(a, b) ==> !before(b, a))
      && (forall a, b, c :: before(a, b) && before(b, c) ==> before(a, c))
      && (forall a, b :: a != b ==> before(a, b) || before(b, a))
    }

    predicate Follows(start: Option<string>, s: string) {
      start.Some? ==> before(start.value, s)
    }
  }

  /** One answer to a query: the serials shown, in order, and the last key evaluated if there may be more. */
  datatype Page = Page(serials: seq<string>, last: Option<string>)

  predicate InOrder(index: Index, serials: seq<string>) {
    forall i, j :: 0 <= i < j < |serials| ==> index.before(serials[i], serials[j])
  }

  /** A page of `view`, whatever the index happens to show now, from just after `start`. */
  predicate IsPage(index: Index, view: set<string>, start: Option<string>, page: Page) {
    && InOrder(index, page.serials)
    && (forall s :: s in page.serials ==> s in view && index.Follows(start, s))
    && (page.last.Some? ==> page.serials != [] && page.last.value == page.serials[|page.serials| - 1])
    && (forall s :: s in view && index.Follows(start, s) && (page.last.Some? ==> s == page.last.value || index.before(s, page.last.value))
          ==> s in page.serials)
  }

  /** Serials up to and including `start`: what the pages so far have covered. */
  function Covered(index: Index, start: Option<string>): set<string> {
    if start.None? then {} else set s | s in index.ever && (s == start.value || index.before(s, start.value))
  }

  lemma {:induction false} LeastExists(index: Index, some: set<string>) returns (least: string)
    requires index.Valid() && some != {}
    ensures least in some && forall s :: s in some && s != least ==> index.before(least, s)
    decreases |some|
  {
    var s :| s in some;
    if some - {s} == {} {
      assert some == {s} + (some - {s});
      least := s;
    } else {
      var other := LeastExists(index, some - {s});
      least := if index.before(s, other) then s else other;
    }
  }

  lemma PageExists(index: Index, view: set<string>, start: Option<string>)
    requires index.Valid()
    ensures exists page :: IsPage(index, view, start, page)
  {
    var after := set s | s in view && index.Follows(start, s);
    assert forall s :: s in view && index.Follows(start, s) ==> s in after;
    if after == {} {
      assert IsPage(index, view, start, Page([], None));
    } else {
      var least := LeastExists(index, after);
      assert IsPage(index, view, start, Page([least], Some(least)));
    }
  }

  /** One query. The index trails the table and changes between queries; it shows at least what is steady. */
  method Query(index: Index, start: Option<string>) returns (page: Page, ghost view: set<string>)
    requires index.Valid()
    ensures index.steady <= view <= index.ever.Keys && IsPage(index, view, start, page)
  {
    var shown: set<string> :| index.steady <= shown <= index.ever.Keys;
    PageExists(index, shown, start);
    page :| IsPage(index, shown, start, page);
    view := shown;
  }

  /** What has been listed once the pages up to `start` are in: in order, and nothing steady skipped. */
  ghost predicate Listed(index: Index, start: Option<string>, more: bool, serials: seq<string>) {
    && InOrder(index, serials)
    && (forall s :: s in serials ==> s in index.ever && (more ==> s in Covered(index, start)))
    && (forall s :: s in index.steady && (more ==> s in Covered(index, start)) ==> s in serials)
  }

  lemma PageInOrder(index: Index, start: Option<string>, serials: seq<string>, view: set<string>, page: Page)
    requires index.Valid() && Listed(index, start, true, serials) && IsPage(index, view, start, page)
    ensures InOrder(index, serials + page.serials)
  {
    var all := serials + page.serials;
    forall i, j | 0 <= i < j < |all| ensures index.before(all[i], all[j]) {
      if i < |serials| <= j {
        assert all[i] in serials && all[j] in page.serials;
        assert all[i] == start.value || index.before(all[i], start.value);
      }
    }
  }

  lemma PageExtends(index: Index, start: Option<string>, serials: seq<string>, view: set<string>, page: Page)
    requires index.Valid() && Listed(index, start, true, serials)
    requires index.steady <= view <= index.ever.Keys && IsPage(index, view, start, page)
    ensures Listed(index, page.last, page.last.Some?, serials + page.serials)
  {
    PageInOrder(index, start, serials, view, page);
    var all, more := serials + page.serials, page.last.Some?;
    forall s | s in all ensures s in index.ever && (more ==> s in Covered(index, page.last)) {
      if more { UpToLast(index, start, view, page, s, serials); }
    }
    forall s | s in index.steady && (more ==> s in Covered(index, page.last)) ensures s in all {
      if !index.Follows(start, s) { assert s in Covered(index, start); }
    }
  }

  /** A page's last key covers the page and all that was covered before. */
  lemma UpToLast(index: Index, start: Option<string>, view: set<string>, page: Page, s: string, serials: seq<string>)
    requires index.Valid() && Listed(index, start, true, serials)
    requires view <= index.ever.Keys && IsPage(index, view, start, page) && page.last.Some?
    requires s in serials || s in page.serials
    ensures s in Covered(index, page.last)
  {
    var n := |page.serials| - 1;
    if s in page.serials {
      var k :| 0 <= k <= n && page.serials[k] == s;
      assert k < n ==> index.before(page.serials[k], page.serials[n]);
    } else {
      assert s in Covered(index, start) && page.serials[n] in page.serials;
    }
  }

  predicate Known(index: Index, serials: seq<string>) {
    forall s :: s in serials ==> s in index.ever
  }

  function RecordsOf(index: Index, serials: seq<string>): (r: seq<RevocationRecord>)
    requires Known(index, serials)
    ensures |r| == |serials| && forall i :: 0 <= i < |r| ==> r[i] == index.ever[serials[i]]
  {
    seq(|serials|, i requires 0 <= i < |serials| => index.ever[serials[i]])
  }

  /** How many revocations the pages so far leave to come. */
  ghost function Remaining(index: Index, start: Option<string>): nat {
    |index.ever.Keys - Covered(index, start)|
  }

  /** One page further: all of it is known, nothing steady is skipped, and less is left to come. */
  lemma PageStep(index: Index, start: Option<string>, serials: seq<string>, view: set<string>, page: Page)
    requires index.Valid() && Listed(index, start, true, serials) && Known(index, serials)
    requires index.steady <= view <= index.ever.Keys && IsPage(index, view, start, page)
    ensures Known(index, page.serials) && Known(index, serials + page.serials)
    ensures Listed(index, page.last, page.last.Some?, serials + page.serials)
    ensures page.last.Some? ==> Remaining(index, page.last) < Remaining(index, start)
    ensures RecordsOf(index, serials + page.serials) == RecordsOf(index, serials) + RecordsOf(index, page.serials)
  {
    PageExtends(index, start, serials, view, page);
    if page.last.Some? {
      assert page.last.value in page.serials;
      CoverageGrows(index, start, page.last.value);
    }
  }

  lemma NothingListed(index: Index)
    ensures Listed(index, None, true, [])
  {
  }

  /**
   All revocations, page by page: in index order, so each at most once; nothing but revocations; and
   every one the index showed throughout.
   */
  method ListRevocations(index: Index) returns (serials: seq<string>, out: seq<RevocationRecord>)
    requires index.Valid()
    ensures InOrder(index, serials) && Known(index, serials)
    ensures forall s :: s in index.steady ==> s in serials
    ensures out == RecordsOf(index, serials)
  {
    serials, out := [], [];
    var startKey, more := None, true;
    NothingListed(index);
    while more
      invariant Listed(index, startKey, more, serials) && Known(index, serials)
      invariant out == RecordsOf(index, serials)
      decreases if more then Remaining(index, startKey) + 1 else 0
    {
      var page;
      ghost var view;
      page, view := Query(index, startKey);
      PageStep(index, startKey, serials, view, page);
      serials, out := serials + page.serials, out + RecordsOf(index, page.serials);
      startKey, more := page.last, page.last.Some?;
    }
  }

  lemma CoverageGrows(index: Index, start: Option<string>, last: string)
    requires index.Valid() && last in index.ever && index.Follows(start, last)
    ensures Remaining(index, Some(last)) < Remaining(index, start)
  {
    var less, more := index.ever.Keys - Covered(index, Some(last)), index.ever.Keys - Covered(index, start);
    assert last in Covered(index, Some(last)) && last !in Covered(index, start);
    assert less <= more - {last};
    SmallerSet(less, more - {last});
  }

  lemma SmallerSet(a: set<string>, b: set<string>)
    requires a <= b
    ensures |a| <= |b|
  {
    assert b == a + (b - a);
  }

  // ----- Refinement -----

  /** `seen` counts the actions a lookup's answer reflects; a write always acts on the current table. */
  datatype Action = Perform(op: Op, seen: nat) | Sweep(keys: set<Key>, now: nat)

  function Ops(actions: seq<Action>): seq<Op> {
    if actions == [] then []
    else
      var front := Ops(actions[..|actions| - 1]);
      if actions[|actions| - 1].Perform? then front + [actions[|actions| - 1].op] else front
  }

  /** The actions whose effects the last action sees: all before it, unless it is a lookup that trails. */
  function Visible(actions: seq<Action>): (front: seq<Action>)
    requires actions != []
    ensures |front| < |actions| && front == actions[..|front|]
  {
    var n, last := |actions| - 1, actions[|actions| - 1];
    if last.Perform? && IsLookup(last.op) && last.seen < n then actions[..last.seen] else actions[..n]
  }

  function TableRun(actions: seq<Action>): (Table, seq<Answer>) {
    if actions == [] then (map[], [])
    else
      var (before, answers) := TableRun(actions[..|actions| - 1]);
      match actions[|actions| - 1]
      case Sweep(keys, now) => (Swept(before, keys, now), answers)
      case Perform(op, _) =>
        (TableStep(before, op).0, answers + [TableStep(TableRun(Visible(actions)).0, op).1])
  }

  /** The contract's state after the operations of a run. */
  function ContractStore(actions: seq<Action>): Store {
    StorageContract.Run(EMPTY_STORE, Ops(actions), TTL_BUFFER).0
  }

  /** The contract's answers, each lookup answered at the version it saw. */
  function ContractAnswers(actions: seq<Action>): seq<Answer> {
    if actions == [] then []
    else
      var answers, last := ContractAnswers(actions[..|actions| - 1]), actions[|actions| - 1];
      if last.Sweep? then answers
      else answers + [StorageContract.Step(ContractStore(Visible(actions)), last.op, TTL_BUFFER).1]
  }

  function ActionStamp(a: Action): Option<nat> {
    match a
    case Perform(op, _) => Stamp(op)
    case Sweep(_, now) => Some(now)
  }

  function ActionClock(actions: seq<Action>): nat {
    if actions == [] then 0
    else ActionStamp(actions[|actions| - 1]).UnwrapOr(ActionClock(actions[..|actions| - 1]))
  }

  predicate SerialisedActions(actions: seq<Action>) {
    actions != [] ==>
      SerialisedActions(actions[..|actions| - 1]) && ActionClock(actions[..|actions| - 1]) <= ActionClock(actions)
  }

  /** Under which condition the per-key put notices a reused serial. */
  predicate NameMatches(s: Store, op: Op) {
    op.RecordCertificate? && op.certificate.serialNumber in s.certificates
    ==> s.certificates[op.certificate.serialNumber].subject == op.certificate.subject
  }

  /** No serial is recorded again under another common name. */
  predicate NoCrossNameReuse(actions: seq<Action>) {
    actions != [] ==>
      var front, last := actions[..|actions| - 1], actions[|actions| - 1];
      && NoCrossNameReuse(front)
      && (last.Perform? ==> NameMatches(ContractStore(front), last.op))
  }

  ghost predicate CertificatesMatch(table: Table, certs: map<string, CertificateRecord>) {
    && (forall s :: s in certs ==> CertificateKey(s, certs[s].subject) in table)
    && (forall s, cn :: CertificateKey(s, cn) in table ==> s in certs && certs[s].subject == cn)
  }

  ghost predicate RevocationsMatch(table: Table, revs: map<string, RevocationRecord>) {
    forall s :: if s in revs then RevocationKey(s) in table && table[RevocationKey(s)] == Item(None, Some(revs[s]), None, None, None)
                else RevocationKey(s) !in table
  }

  ghost predicate TokensMatch(table: Table, tokens: map<string, nat>, clock: nat) {
    && (forall j :: TokenKey(j) in table ==> j in tokens && table[TokenKey(j)].ttl == Some(tokens[j] + TTL_BUFFER))
    && (forall j :: j in tokens && TokenKey(j) !in table ==> tokens[j] + TTL_BUFFER <= clock)
  }

  function CachedItem(e: CacheEntry): Item {
    Item(None, None, Some(e.value), Some(e.expiresAt), Some(e.expiresAt + TTL_BUFFER))
  }

  ghost predicate CacheMatches(table: Table, cache: map<string, CacheEntry>, clock: nat) {
    && (forall c :: CacheKey(c) in table ==> c in cache && table[CacheKey(c)] == CachedItem(cache[c]))
    && (forall c :: c in cache && CacheKey(c) !in table ==> cache[c].expiresAt + TTL_BUFFER <= clock)
  }

  /** Only lapsing items carry a `ttl`. */
  ghost predicate PermanentItems(table: Table) {
    forall k :: k in table && (k.CertificateKey? || k.RevocationKey?) ==> table[k].ttl.None?
  }

  ghost predicate Represents(table: Table, s: Store, clock: nat) {
    && CertificatesMatch(table, s.certificates)
    && RevocationsMatch(table, s.revocations)
    && TokensMatch(table, s.tokens, clock)
    && CacheMatches(table, s.cache, clock)
    && PermanentItems(table)
  }

  lemma TokensAge(table: Table, tokens: map<string, nat>, clock: nat, clock': nat)
    requires TokensMatch(table, tokens, clock) && clock <= clock'
    ensures TokensMatch(table, tokens, clock')
  {
  }

  lemma CacheAges(table: Table, cache: map<string, CacheEntry>, clock: nat, clock': nat)
    requires CacheMatches(table, cache, clock) && clock <= clock'
    ensures CacheMatches(table, cache, clock')
  {
  }

  lemma RecordRefines(table: Table, s: Store, c: CertificateRecord, clock: nat)
    requires Represents(table, s, clock) && NameMatches(s, Op.RecordCertificate(c))
    ensures
      var k := CertificateKey(c.serialNumber, c.subject);
      && (k in table <==> c.serialNumber in s.certificates)
      && (k !in table ==>
            Represents(table[k := Item(Some(c), None, None, None, None)], s.(certificates := s.certificates[c.serialNumber := c]), clock))
  {
    var k := CertificateKey(c.serialNumber, c.subject);
    var after := table[k := Item(Some(c), None, None, None, None)];
    if k !in table {
      assert c.serialNumber !in s.certificates;
      assert CertificatesMatch(after, s.certificates[c.serialNumber := c]);
    }
  }

  lemma RevokeRefines(table: Table, s: Store, r: RevocationRecord, clock: nat)
    requires Represents(table, s, clock)
    ensures
      var k := RevocationKey(r.serialNumber);
      && (k in table <==> r.serialNumber in s.revocations)
      && (k !in table ==>
            Represents(table[k := Item(None, Some(r), None, None, None)], s.(revocations := s.revocations[r.serialNumber := r]), clock))
  {
    var k := RevocationKey(r.serialNumber);
  }

  lemma ClaimRefines(table: Table, s: Store, jti: string, expiresAt: nat, now: nat, clock: nat)
    requires Represents(table, s, clock) && clock <= now
    ensures Represents(table, s, now)
    ensures
      var k := TokenKey(jti);
      && (AbsentOrLapsed(table, k, now) <==> Free(s.tokens, jti, now, TTL_BUFFER))
      && Represents(table[k := Item(None, None, None, None, Some(expiresAt + TTL_BUFFER))], s.(tokens := s.tokens[jti := expiresAt]), now)
  {
    var k := TokenKey(jti);
    var after := table[k := Item(None, None, None, None, Some(expiresAt + TTL_BUFFER))];
    TokensAge(table, s.tokens, clock, now);
    CacheAges(table, s.cache, clock, now);
    assert TokensMatch(after, s.tokens[jti := expiresAt], now);
  }

  lemma SetCacheRefines(table: Table, s: Store, key: string, e: CacheEntry, clock: nat)
    requires Represents(table, s, clock)
    ensures Represents(table[CacheKey(key) := CachedItem(e)], s.(cache := s.cache[key := e]), clock)
  {
    var after := table[CacheKey(key) := CachedItem(e)];
    assert CacheMatches(after, s.cache[key := e], clock);
  }

  lemma ReadRefines(table: Table, s: Store, op: Op, clock: nat, clock': nat)
    requires op.GetRevocation? || op.GetCache? || op.ReapExpired?
    requires Represents(table, s, clock) && clock <= clock' == Stamp(op).UnwrapOr(clock)
    ensures StepAgrees(table, s, op, clock')
  {
    assert Represents(table, s, clock');
  }

  lemma SweepRefines(table: Table, s: Store, keys: set<Key>, now: nat, clock: nat)
    requires Represents(table, s, clock) && clock <= now
    ensures Represents(Swept(table, keys, now), s, now)
  {
    var after := Swept(table, keys, now);
    assert CertificatesMatch(after, s.certificates);
    assert RevocationsMatch(after, s.revocations);
  }

  /** One operation: the same answer, and the representation holds again. */
  ghost predicate StepAgrees(table: Table, s: Store, op: Op, clock: nat) {
    var (after, answer) := TableStep(table, op);
    var (s', answer') := StorageContract.Step(s, op, TTL_BUFFER);
    answer == answer' && Represents(after, s', clock)
  }

  lemma RecordStep(table: Table, s: Store, c: CertificateRecord, clock: nat)
    requires Represents(table, s, clock) && NameMatches(s, Op.RecordCertificate(c))
    ensures StepAgrees(table, s, Op.RecordCertificate(c), clock)
  {
    RecordRefines(table, s, c, clock);
  }

  lemma RevokeStep(table: Table, s: Store, r: RevocationRecord, clock: nat)
    requires Represents(table, s, clock)
    ensures StepAgrees(table, s, Op.Revoke(r), clock)
  {
    RevokeRefines(table, s, r, clock);
  }

  lemma ClaimAnswer(table: Table, s: Store, jti: string, expiresAt: nat, now: nat)
    requires AbsentOrLapsed(table, TokenKey(jti), now) <==> Free(s.tokens, jti, now, TTL_BUFFER)
    ensures
      var op := Op.ClaimToken(jti, expiresAt, now);
      if Free(s.tokens, jti, now, TTL_BUFFER)
      then TableStep(table, op) == (table[TokenKey(jti) := Item(None, None, None, None, Some(expiresAt + TTL_BUFFER))], Done)
           && StorageContract.Step(s, op, TTL_BUFFER) == (s.(tokens := s.tokens[jti := expiresAt]), Done)
      else TableStep(table, op) == (table, Refused(Conflict)) && StorageContract.Step(s, op, TTL_BUFFER) == (s, Refused(Conflict))
  {
  }

  lemma ClaimStep(table: Table, s: Store, jti: string, expiresAt: nat, now: nat, clock: nat)
    requires Represents(table, s, clock) && clock <= now
    ensures StepAgrees(table, s, Op.ClaimToken(jti, expiresAt, now), now)
  {
    ClaimRefines(table, s, jti, expiresAt, now, clock);
    ClaimAnswer(table, s, jti, expiresAt, now);
  }

  lemma SetCacheStep(table: Table, s: Store, key: string, value: Bytes, expiresAt: nat, clock: nat)
    requires Represents(table, s, clock)
    ensures StepAgrees(table, s, Op.SetCache(key, value, expiresAt), clock)
  {
    SetCacheRefines(table, s, key, CacheEntry(value, expiresAt), clock);
  }

  lemma StepRefines(table: Table, s: Store, op: Op, clock: nat, clock': nat)
    requires Represents(table, s, clock) && NameMatches(s, op)
    requires clock <= clock' == Stamp(op).UnwrapOr(clock)
    ensures StepAgrees(table, s, op, clock')
  {
    if op.RecordCertificate? {
      RecordStep(table, s, op.certificate, clock);
    } else if op.Revoke? {
      RevokeStep(table, s, op.revocation, clock);
    } else if op.ClaimToken? {
      ClaimStep(table, s, op.jti, op.expiresAt, op.now, clock);
    } else if op.SetCache? {
      SetCacheStep(table, s, op.key, op.value, op.expiresAt, clock);
    } else {
      ReadRefines(table, s, op, clock, clock');
    }
  }

  /**
   DynamoDB gives exactly the contract's answers with an hour of slack, whatever the TTL sweep does and
   however far lookups trail: each answers as the contract did at the version it saw.
   */
  lemma {:induction false} Refines(actions: seq<Action>)
    requires SerialisedActions(actions) && NoCrossNameReuse(actions)
    ensures TableRun(actions).1 == ContractAnswers(actions)
    ensures Represents(TableRun(actions).0, ContractStore(actions), ActionClock(actions))
    decreases |actions|
  {
    if actions != [] {
      var front, last, seen := actions[..|actions| - 1], actions[|actions| - 1], Visible(actions);
      Refines(front);
      match last
      case Sweep(keys, now) => SweepRefines(TableRun(front).0, ContractStore(front), keys, now, ActionClock(front));
      case Perform(op, _) =>
        if |seen| < |front| {
          PrefixRuns(front, |seen|);
          assert seen == front[..|seen|];
          Refines(seen);
        } else {
          assert seen == front;
        }
        LastRefines(actions);
    }
  }

  /** The last operation, once the runs before it and before what it sees refine. */
  lemma LastRefines(actions: seq<Action>)
    requires actions != [] && actions[|actions| - 1].Perform?
    requires SerialisedActions(actions) && NoCrossNameReuse(actions)
    requires
      var front := actions[..|actions| - 1];
      TableRun(front).1 == ContractAnswers(front) && Represents(TableRun(front).0, ContractStore(front), ActionClock(front))
    requires
      var seen := Visible(actions);
      Represents(TableRun(seen).0, ContractStore(seen), ActionClock(seen)) && ActionClock(seen) <= ActionClock(actions[..|actions| - 1])
    ensures TableRun(actions).1 == ContractAnswers(actions)
    ensures Represents(TableRun(actions).0, ContractStore(actions), ActionClock(actions))
  {
    var front, op, seen, ops := actions[..|actions| - 1], actions[|actions| - 1].op, Visible(actions), Ops(actions);
    assert ops[..|ops| - 1] == Ops(front);
    StepRefines(TableRun(front).0, ContractStore(front), op, ActionClock(front), ActionClock(actions));
    if IsLookup(op) {
      ReadRefines(TableRun(seen).0, ContractStore(seen), op, ActionClock(seen), Stamp(op).UnwrapOr(ActionClock(seen)));
    }
  }

  lemma {:induction false} PrefixRuns(actions: seq<Action>, n: nat)
    requires SerialisedActions(actions) && NoCrossNameReuse(actions) && n <= |actions|
    ensures SerialisedActions(actions[..n]) && NoCrossNameReuse(actions[..n])
    ensures ActionClock(actions[..n]) <= ActionClock(actions)
  {
    if n == |actions| {
      assert actions[..n] == actions;
    } else {
      PrefixRuns(actions[..|actions| - 1], n);
      assert actions[..|actions| - 1][..n] == actions[..n];
    }
  }

  /** No lookup trails. */
  predicate Current(actions: seq<Action>) {
    actions != [] ==> Current(actions[..|actions| - 1]) && Visible(actions) == actions[..|actions| - 1]
  }

  /** When no lookup trails, the answers are the contract's own. */
  lemma {:induction false} CurrentReadsRefine(actions: seq<Action>)
    requires SerialisedActions(actions) && NoCrossNameReuse(actions) && Current(actions)
    ensures TableRun(actions).1 == StorageContract.Run(EMPTY_STORE, Ops(actions), TTL_BUFFER).1
  {
    Refines(actions);
    CurrentAnswers(actions);
  }

  lemma {:induction false} CurrentAnswers(actions: seq<Action>)
    requires Current(actions)
    ensures ContractAnswers(actions) == StorageContract.Run(EMPTY_STORE, Ops(actions), TTL_BUFFER).1
  {
    if actions != [] {
      CurrentAnswers(actions[..|actions| - 1]);
      if actions[|actions| - 1].Perform? {
        var ops := Ops(actions);
        assert ops[..|ops| - 1] == Ops(actions[..|actions| - 1]);
      }
    }
  }

  lemma {:induction false} RevocationsGrow(actions: seq<Action>, n: nat, serial: string)
    requires n <= |actions| && serial in ContractStore(actions[..n]).revocations
    ensures serial in ContractStore(actions).revocations
    ensures ContractStore(actions).revocations[serial] == ContractStore(actions[..n]).revocations[serial]
  {
    if n == |actions| {
      assert actions[..n] == actions;
    } else {
      var front := actions[..|actions| - 1];
      assert front[..n] == actions[..n];
      RevocationsGrow(front, n, serial);
      if actions[|actions| - 1].Perform? {
        var ops := Ops(actions);
        assert ops[..|ops| - 1] == Ops(front);
      }
    }
  }

  /** A run that looks a serial up last gets the contract's answer at the version seen. */
  lemma LookupAnswer(actions: seq<Action>, serial: string, seen: nat)
    requires SerialisedActions(actions) && NoCrossNameReuse(actions) && seen <= |actions|
    ensures
      var lookup := Op.GetRevocation(serial);
      var answers := TableRun(actions + [Perform(lookup, seen)]).1;
      answers != [] && answers[|answers| - 1] == StorageContract.Step(ContractStore(actions[..seen]), lookup, TTL_BUFFER).1
  {
    var longer := actions + [Perform(Op.GetRevocation(serial), seen)];
    assert longer[..|actions|] == actions && longer[..seen] == actions[..seen];
    Refines(longer);
    assert Visible(longer) == actions[..seen] by {
      if seen == |actions| { assert actions[..seen] == actions; }
    }
  }

  /** A trailing revocation lookup answers as a current one exactly unless the revocation came in between. */
  lemma TrailingLookup(actions: seq<Action>, serial: string, seen: nat)
    requires SerialisedActions(actions) && NoCrossNameReuse(actions) && seen <= |actions|
    ensures
      var lookup := Op.GetRevocation(serial);
      var answers := TableRun(actions + [Perform(lookup, seen)]).1;
      answers != []
      && (answers[|answers| - 1] == StorageContract.Step(ContractStore(actions), lookup, TTL_BUFFER).1
          <==> (serial in ContractStore(actions).revocations ==> serial in ContractStore(actions[..seen]).revocations))
  {
    LookupAnswer(actions, serial, seen);
    if serial in ContractStore(actions[..seen]).revocations { RevocationsGrow(actions, seen, serial); }
  }

  /** An acknowledged revocation that the next lookup does not find. */
  lemma RevocationMissed(r: RevocationRecord)
    ensures TableRun([Perform(Op.Revoke(r), 0), Perform(Op.GetRevocation(r.serialNumber), 0)]).1 == [Done, Revocation(None)]
  {
    var revoke, lookup := Perform(Op.Revoke(r), 0), Perform(Op.GetRevocation(r.serialNumber), 0);
    var actions := [revoke, lookup];
    assert actions[..1] == [revoke] && [revoke][..0] == [] && actions[..0] == [];
    assert TableRun([revoke]).1 == [Done];
  }

  /** The put condition is per (pk, sk): a reused serial is noticed exactly when the common name is reused too. */
  lemma ReuseDetection(table: Table, s: Store, c: CertificateRecord, clock: nat)
    requires Represents(table, s, clock)
    ensures
      var op := Op.RecordCertificate(c);
      TableStep(table, op).1 == StorageContract.Step(s, op, TTL_BUFFER).1 <==> NameMatches(s, op)
  {
  }

  /** A claim once made holds its key until an hour past its expiry, and not a second longer. */
  lemma HeldForAnHourMore(table: Table, jti: string, expiresAt: nat, now: nat, again: nat, later: nat)
    requires TableStep(table, Op.ClaimToken(jti, expiresAt, now)).1 == Done
    ensures
      var claimed := TableStep(table, Op.ClaimToken(jti, expiresAt, now)).0;
      TableStep(claimed, Op.ClaimToken(jti, again, later)).1 == Done <==> expiresAt + 3_600 <= later
  {
  }

  // ----- Stale timestamps -----

  /** The store is the table's own contents, lapsed items included. */
  ghost predicate Mirrors(table: Table, s: Store) {
    && Represents(table, s, 0)
    && (forall j :: j in s.tokens ==> TokenKey(j) in table)
    && (forall c :: c in s.cache ==> CacheKey(c) in table)
  }

  function SweptJtis(keys: set<Key>): set<string> {
    set k | k in keys && k.TokenKey? :: k.jti
  }

  function SweptStore(s: Store, keys: set<Key>, now: nat): Store {
    s.(tokens := Purged(s.tokens, SweptJtis(keys), now, TTL_BUFFER),
       cache := map c | c in s.cache && !(CacheKey(c) in keys && s.cache[c].expiresAt + TTL_BUFFER <= now) :: s.cache[c])
  }

  /**
   On the table's own contents every operation, however stale its timestamp, is the contract's with an
   hour of slack. A write acts on the current table; a lookup reads whichever version it is given.
   */
  lemma StepAtAnyTime(table: Table, s: Store, op: Op)
    requires Mirrors(table, s) && NameMatches(s, op)
    ensures
      var (after, answer) := TableStep(table, op);
      var (s', answer') := StorageContract.Step(s, op, TTL_BUFFER);
      answer == answer' && Mirrors(after, s')
  {
    StepRefines(table, s, op, 0, Stamp(op).UnwrapOr(0));
    var after, s' := TableStep(table, op).0, StorageContract.Step(s, op, TTL_BUFFER).0;
    assert TokensMatch(after, s'.tokens, 0) && CacheMatches(after, s'.cache, 0);
  }

  /** A sweep removes lapsed claims and cached values, and nothing lasting. */
  lemma SweepAtAnyTime(table: Table, s: Store, keys: set<Key>, now: nat)
    requires Mirrors(table, s)
    ensures Mirrors(Swept(table, keys, now), SweptStore(s, keys, now))
  {
    var after, s' := Swept(table, keys, now), SweptStore(s, keys, now);
    assert forall j :: j in SweptJtis(keys) <==> TokenKey(j) in keys;
    assert TokensMatch(after, s'.tokens, 0);
    assert CacheMatches(after, s'.cache, 0);
    assert CertificatesMatch(after, s'.certificates) && RevocationsMatch(after, s'.revocations);
  }

  ghost predicate TokensCarryTtl(table: Table) {
    forall k :: k in table && k.TokenKey? ==> table[k].ttl.Some?
  }

  /** Token items as a denylist. */
  function Holds(table: Table): Denylist.Holds
    requires TokensCarryTtl(table)
  {
    map k | k in table && k.TokenKey? :: k.jti := table[k].ttl.value
  }

  /** A claim at any timestamp, however stale, acts as a denylist claim with the hour of slack. */
  lemma ClaimIsDenylist(table: Table, jti: string, expiresAt: nat, now: nat, commit: nat)
    requires TokensCarryTtl(table)
    ensures
      var (after, answer) := TableStep(table, Op.ClaimToken(jti, expiresAt, now));
      var event := Denylist.Claim(jti, expiresAt, now, commit);
      && TokensCarryTtl(after)
      && (answer == Done <==> Denylist.Succeeds(Holds(table), event))
      && Holds(after) == Denylist.Apply(Holds(table), event, TTL_BUFFER)
  {
    assert jti in Holds(table) <==> TokenKey(jti) in table;
  }

  /** So does the TTL sweep, as a purge of the keys it picks. */
  lemma SweepIsDenylist(table: Table, keys: set<Key>, now: nat, commit: nat)
    requires TokensCarryTtl(table)
    ensures
      var event := Denylist.Purge(SweptJtis(keys), now, commit);
      && TokensCarryTtl(Swept(table, keys, now))
      && Holds(Swept(table, keys, now)) == Denylist.Apply(Holds(table), event, TTL_BUFFER)
  {
    var after := Swept(table, keys, now);
    assert forall j :: j in SweptJtis(keys) <==> TokenKey(j) in keys;
    assert forall j :: j in Holds(after) <==> TokenKey(j) in after;
    assert forall j :: j in Holds(table) <==> TokenKey(j) in table;
  }

  lemma SameTokensSameHolds(before: Table, after: Table)
    requires TokensCarryTtl(before)
    requires forall k: Key :: k.TokenKey? ==> (k in after <==> k in before) && (k in before ==> after[k] == before[k])
    ensures TokensCarryTtl(after) && Holds(after) == Holds(before)
  {
    assert forall j :: j in Holds(after) <==> TokenKey(j) in after;
    assert forall j :: j in Holds(before) <==> TokenKey(j) in before;
  }

  /** No other operation touches the token items. */
  lemma OthersKeepTokens(table: Table, op: Op)
    requires TokensCarryTtl(table) && !op.ClaimToken?
    ensures TokensCarryTtl(TableStep(table, op).0)
    ensures Holds(TableStep(table, op).0) == Holds(table)
  {
    SameTokensSameHolds(table, TableStep(table, op).0);
  }

  /** The answer an action gets; a sweep answers nobody. */
  function ActionAnswer(actions: seq<Action>, i: nat): Option<Answer>
    requires i < |actions|
  {
    match actions[i]
    case Sweep(_, _) => None
    case Perform(op, _) => Some(TableStep(TableRun(Visible(actions[..i + 1])).0, op).1)
  }

  function ActionEvent(a: Action, commit: nat): Denylist.Event {
    match a
    case Perform(ClaimToken(jti, expiresAt, now), _) => Denylist.Claim(jti, expiresAt, now, commit)
    case Sweep(keys, now) => Denylist.Purge(SweptJtis(keys), now, commit)
    case _ => Denylist.Purge({}, 0, commit)
  }

  function Trace(actions: seq<Action>, commits: seq<nat>): (trace: seq<Denylist.Event>)
    requires |actions| == |commits|
    ensures |trace| == |actions|
  {
    seq(|actions|, i requires 0 <= i < |actions| => ActionEvent(actions[i], commits[i]))
  }

  lemma ActionIsDenylist(table: Table, a: Action, commit: nat)
    requires TokensCarryTtl(table)
    ensures
      var after := if a.Perform? then TableStep(table, a.op).0 else Swept(table, a.keys, a.now);
      TokensCarryTtl(after) && Holds(after) == Denylist.Apply(Holds(table), ActionEvent(a, commit), TTL_BUFFER)
  {
    match a
    case Sweep(keys, now) => SweepIsDenylist(table, keys, now, commit);
    case Perform(op, _) =>
      if op.ClaimToken? {
        ClaimIsDenylist(table, op.jti, op.expiresAt, op.now, commit);
      } else {
        OthersKeepTokens(table, op);
      }
  }

  lemma {:induction false} TraceFollows(actions: seq<Action>, commits: seq<nat>)
    requires |actions| == |commits|
    ensures TokensCarryTtl(TableRun(actions).0)
    ensures Denylist.After(Trace(actions, commits), TTL_BUFFER) == Holds(TableRun(actions).0)
  {
    if actions != [] {
      var n := |actions| - 1;
      TraceFollows(actions[..n], commits[..n]);
      TracePrefix(actions, commits, n);
      ActionIsDenylist(TableRun(actions[..n]).0, actions[n], commits[n]);
    }
  }

  lemma TracePrefix(actions: seq<Action>, commits: seq<nat>, n: nat)
    requires |actions| == |commits| && n <= |actions|
    ensures Trace(actions, commits)[..n] == Trace(actions[..n], commits[..n])
  {
  }

  /** A write's answer comes from the current table. */
  lemma WriteAnswer(actions: seq<Action>, k: nat)
    requires k < |actions| && actions[k].Perform? && !IsLookup(actions[k].op)
    ensures ActionAnswer(actions, k) == Some(TableStep(TableRun(actions[..k]).0, actions[k].op).1)
  {
    assert Visible(actions[..k + 1]) == actions[..k];
  }

  lemma DoneIsSuccess(actions: seq<Action>, commits: seq<nat>, k: nat)
    requires |actions| == |commits| && k < |actions|
    requires actions[k].Perform? && actions[k].op.ClaimToken? && ActionAnswer(actions, k) == Some(Done)
    ensures Denylist.SucceededAt(Trace(actions, commits), k, TTL_BUFFER)
  {
    var op := actions[k].op;
    WriteAnswer(actions, k);
    TracePrefix(actions, commits, k);
    TraceFollows(actions[..k], commits[..k]);
    var table := TableRun(actions[..k]).0;
    ClaimIsDenylist(table, op.jti, op.expiresAt, op.now, commits[k]);
    var event := Denylist.Claim(op.jti, op.expiresAt, op.now, commits[k]);
    assert Denylist.Succeeds(Holds(table), event);
    assert Trace(actions, commits)[k] == event;
  }

  lemma TraceIsConcurrent(actions: seq<Action>, commits: seq<nat>)
    requires |actions| == |commits|
    requires forall k :: 0 <= k < |actions| ==> ActionStamp(actions[k]).UnwrapOr(0) <= commits[k]
    requires forall k, l :: 0 <= k <= l < |actions| ==> commits[k] <= commits[l]
    ensures Denylist.Concurrent(Trace(actions, commits))
  {
    var trace := Trace(actions, commits);
    forall k | 0 <= k < |trace|
      ensures trace[k].stamp <= trace[k].commit == commits[k]
    {
      assert ActionStamp(actions[k]).UnwrapOr(0) <= commits[k];
    }
  }

  /** At most once on DynamoDB, for every interleaving and every sweep, with an hour to spare. */
  lemma ClaimsAtMostOnce(actions: seq<Action>, commits: seq<nat>, i: nat, j: nat)
    requires |actions| == |commits| && i < j < |actions|
    requires forall k :: 0 <= k < |actions| ==> ActionStamp(actions[k]).UnwrapOr(0) <= commits[k]
    requires forall k, l :: 0 <= k <= l < |actions| ==> commits[k] <= commits[l]
    requires actions[i].Perform? && actions[i].op.ClaimToken? && ActionAnswer(actions, i) == Some(Done)
    requires actions[j].Perform? && actions[j].op.ClaimToken? && ActionAnswer(actions, j) == Some(Done)
    requires actions[i].op.jti == actions[j].op.jti
    ensures actions[i].op.expiresAt + 3_600 <= commits[j]
  {
    DoneIsSuccess(actions, commits, i);
    DoneIsSuccess(actions, commits, j);
    TraceIsConcurrent(actions, commits);
    Denylist.AtMostOnce(Trace(actions, commits), i, j, TTL_BUFFER);
  }
}
