/**
 Trust-path search of the client (ayane-cli/src/httpsig.rs): does the signer
 certificate, helped by an unordered bag of served certificates, reach a pinned
 root?  The search is a depth-first walk with an in-place stack of visited edges;
 the main results say that the pruning and the depth bound lose no short path.
 */
module PathSearch {
  import opened Basics

  /** Upper bound on intermediate hops. */
  const MAX_PATH_DEPTH: nat := 8

  /** A parsed certificate with the fields path building needs. */
  datatype Node = Node(
    subject: Bytes, issuer: Bytes, spki: Bytes, der: Bytes,
    notBefore: nat, notAfter: nat, isCa: bool)
  {
    predicate TemporallyValid(now: nat) {
      notBefore <= notAfter && notBefore <= now && now <= notAfter
    }
  }

  /** An edge on the current path, as recorded on the visited stack. */
  datatype Edge = Edge(subject: Bytes, spki: Bytes, issuer: Bytes)

  /** Everything one search reads: the served bag, the pinned roots, the clock, and signature verification. */
  datatype World = World(bag: seq<Node>, anchors: seq<Node>, now: nat, verifies: (Node, Bytes) -> bool)

  function EdgeOf(t: Node): Edge {
    Edge(t.subject, t.spki, t.issuer)
  }

  /** Same subject and key: `t` is `c` itself or a cross-signed twin of it. */
  predicate IsTwin(w: World, c: nat, t: nat)
    requires c < |w.bag| && t < |w.bag|
  {
    w.bag[t].subject == w.bag[c].subject && w.bag[t].spki == w.bag[c].spki
  }

  predicate IsPinned(w: World, t: Node) {
    exists a :: a in w.anchors && a.der == t.der
  }

  predicate IssuedByPinned(w: World, t: Node) {
    exists a :: a in w.anchors && a.subject == t.issuer && w.verifies(t, a.spki)
  }

  predicate Anchored(w: World, t: Node) {
    IsPinned(w, t) || IssuedByPinned(w, t)
  }

  /** `bag[j]` is a CA, is named as the issuer of `bag[t]`, and verifies it. */
  predicate Issues(w: World, j: nat, t: nat)
    requires j < |w.bag| && t < |w.bag|
  {
    w.bag[j].isCa && w.bag[j].subject == w.bag[t].issuer && w.verifies(w.bag[t], w.bag[j].spki)
  }

  // ----- Paths: the declarative meaning, in the fields of the certificates alone -----

  /** One step of a path: the certificate climbed to, and the representative chosen for it. */
  datatype Hop = Hop(cert: nat, rep: nat)

  /** The representative has the certificate's subject and key, and is valid now. */
  ghost predicate GoodHop(w: World, h: Hop) {
    && h.cert < |w.bag| && h.rep < |w.bag|
    && var c, t := w.bag[h.cert], w.bag[h.rep];
    && t.subject == c.subject && t.spki == c.spki && t.notBefore <= w.now <= t.notAfter
  }

  /** The certificate climbed to is a CA, named as the issuer of the representative below, and its key verifies that. */
  ghost predicate GoodClimb(w: World, below: Hop, above: Hop)
    requires GoodHop(w, below) && GoodHop(w, above)
  {
    var t, c := w.bag[below.rep], w.bag[above.cert];
    c.isCa && c.subject == t.issuer && w.verifies(t, c.spki)
  }

  /** The representative is a pinned root, byte for byte, or a pinned root is its issuer and verifies it. */
  ghost predicate GoodEnd(w: World, h: Hop)
    requires GoodHop(w, h)
  {
    var t := w.bag[h.rep];
    exists a :: a in w.anchors && (a.der == t.der || (a.subject == t.issuer && w.verifies(t, a.spki)))
  }

  ghost predicate AnchorPath(w: World, path: seq<Hop>) {
    && 0 < |path|
    && (forall i :: 0 <= i < |path| ==> GoodHop(w, path[i]))
    && (forall i :: 0 < i < |path| ==> GoodClimb(w, path[i - 1], path[i]))
    && GoodEnd(w, path[|path| - 1])
  }

  /** The signer reaches a pinned root through at most 8 climbs. */
  ghost predicate Reachable(w: World)
    requires 0 < |w.bag|
  {
    exists path: seq<Hop> :: AnchorPath(w, path) && path[0].cert == 0 && |path| - 1 <= 8
  }

  // ----- What the search computes -----

  ghost predicate Reach(w: World, c: nat, visited: seq<Edge>, depth: nat)
    requires c < |w.bag|
    decreases MAX_PATH_DEPTH + 1 - depth, 1
  {
    depth <= MAX_PATH_DEPTH
    && exists t: nat :: t < |w.bag| && IsTwin(w, c, t) && RepReaches(w, t, visited, depth)
  }

  ghost predicate RepReaches(w: World, t: nat, visited: seq<Edge>, depth: nat)
    requires t < |w.bag| && depth <= MAX_PATH_DEPTH
    decreases MAX_PATH_DEPTH + 1 - depth, 0
  {
    w.bag[t].TemporallyValid(w.now) && EdgeOf(w.bag[t]) !in visited
    && (Anchored(w, w.bag[t])
        || exists j: nat :: j < |w.bag| && Issues(w, j, t) && Reach(w, j, visited + [EdgeOf(w.bag[t])], depth + 1))
  }

  /** Candidate representatives of `c`: itself first, then every other bag entry with its subject and key. */
  function Twins(w: World, c: nat): (ts: seq<nat>)
    requires c < |w.bag|
    ensures forall t: nat :: t in ts <==> t < |w.bag| && IsTwin(w, c, t)
  {
    [c] + OtherTwins(w, c, 0)
  }

  function OtherTwins(w: World, c: nat, from: nat): (ts: seq<nat>)
    requires c < |w.bag| && from <= |w.bag|
    ensures forall t: nat :: t in ts <==> from <= t < |w.bag| && t != c && IsTwin(w, c, t)
    decreases |w.bag| - from
  {
    if from == |w.bag| then []
    else if from != c && IsTwin(w, c, from) then [from] + OtherTwins(w, c, from + 1)
    else OtherTwins(w, c, from + 1)
  }

  /** The `&mut Vec` of edges on the current path. */
  class Visited {
    var edges: seq<Edge>

    constructor ()
      ensures edges == []
    {
      edges := [];
    }
  }

  method ReachesAnchor(w: World, c: nat, visited: Visited, depth: nat) returns (found: bool)
    requires c < |w.bag| && depth <= MAX_PATH_DEPTH + 1
    modifies visited
    ensures found == Reach(w, c, old(visited.edges), depth)
    ensures !found ==> visited.edges == old(visited.edges)
    ensures old(visited.edges) <= visited.edges
    decreases MAX_PATH_DEPTH + 1 - depth
  {
    if depth > MAX_PATH_DEPTH {
      return false;
    }
    ghost var before := visited.edges;
    var twins := Twins(w, c);
    assert forall i :: 0 <= i < |twins| ==> twins[i] in twins;
    for k := 0 to |twins|
      invariant visited.edges == before
      invariant forall i :: 0 <= i < k ==> !RepReaches(w, twins[i], before, depth)
    {
      var t := twins[k];
      if !w.bag[t].TemporallyValid(w.now) {
        continue;
      }
      var edge := EdgeOf(w.bag[t]);
      if edge in visited.edges {
        continue;
      }
      if IsPinned(w, w.bag[t]) {
        return true;
      }
      if IssuedByPinned(w, w.bag[t]) {
        return true;
      }
      visited.edges := visited.edges + [edge];
      for j := 0 to |w.bag|
        invariant visited.edges == before + [edge]
        invariant forall i: nat :: i < j && Issues(w, i, t) ==> !Reach(w, i, before + [edge], depth + 1)
      {
        if Issues(w, j, t) {
          var up := ReachesAnchor(w, j, visited, depth + 1);
          if up {
            return true;
          }
        }
      }
      visited.edges := visited.edges[..|visited.edges| - 1];
    }
    return false;
  }

  /** Accepts exactly the bags that hold a path of at most 8 climbs. */
  method AnchorSigner(w: World) returns (ok: bool)
    requires 0 < |w.bag|
    ensures ok <==> Reachable(w)
  {
    var visited := new Visited();
    ok := ReachesAnchor(w, 0, visited, 0);
    SearchIsExact(w);
  }

  // ----- Exactness -----

  /** Soundness: a successful search yields a path within the remaining depth. */
  lemma {:induction false} ReachGivesPath(w: World, c: nat, visited: seq<Edge>, depth: nat) returns (path: seq<Hop>)
    requires c < |w.bag| && Reach(w, c, visited, depth)
    ensures AnchorPath(w, path) && path[0].cert == c && |path| <= MAX_PATH_DEPTH + 1 - depth
    decreases MAX_PATH_DEPTH + 1 - depth
  {
    var t: nat :| t < |w.bag| && IsTwin(w, c, t) && RepReaches(w, t, visited, depth);
    if Anchored(w, w.bag[t]) {
      path := [Hop(c, t)];
    } else {
      var j: nat :| j < |w.bag| && Issues(w, j, t) && Reach(w, j, visited + [EdgeOf(w.bag[t])], depth + 1);
      var rest := ReachGivesPath(w, j, visited + [EdgeOf(w.bag[t])], depth + 1);
      path := [Hop(c, t)] + rest;
      assert path[|path| - 1] == rest[|rest| - 1];
      forall i | 0 <= i < |path| ensures GoodHop(w, path[i]) {
        if i > 0 { assert path[i] == rest[i - 1]; }
      }
      forall i | 0 < i < |path| ensures GoodClimb(w, path[i - 1], path[i]) {
        assert path[i] == rest[i - 1];
      }
    }
  }

  ghost predicate DistinctEdges(w: World, path: seq<Hop>)
    requires forall i :: 0 <= i < |path| ==> path[i].rep < |w.bag|
  {
    forall i, j :: 0 <= i < j < |path| ==> EdgeOf(w.bag[path[i].rep]) != EdgeOf(w.bag[path[j].rep])
  }

  /** Two hops through one edge are in one (subject, key) class, so the segment between them can be cut out. */
  lemma Shortcut(w: World, path: seq<Hop>, i: nat, j: nat) returns (short: seq<Hop>)
    requires AnchorPath(w, path) && i < j < |path|
    requires EdgeOf(w.bag[path[i].rep]) == EdgeOf(w.bag[path[j].rep])
    ensures AnchorPath(w, short) && short[0].cert == path[0].cert && |short| < |path|
  {
    short := path[..i] + [Hop(path[i].cert, path[j].rep)] + path[j + 1..];
    assert GoodHop(w, path[i]) && GoodHop(w, path[j]);
    forall k | 0 <= k < |short| ensures GoodHop(w, short[k]) {
      if k > i { assert short[k] == path[k + (j - i)]; }
    }
    forall k | 0 < k < |short| ensures GoodClimb(w, short[k - 1], short[k]) {
      if k == i {
        assert GoodClimb(w, path[i - 1], path[i]);
      } else if k > i {
        assert short[k] == path[k + (j - i)];
        assert short[k - 1].rep == path[k - 1 + (j - i)].rep;
        assert GoodClimb(w, path[k - 1 + (j - i)], path[k + (j - i)]);
      }
    }
    assert short[|short| - 1].rep == path[|path| - 1].rep;
  }

  /** Every path has one at most as long that repeats no edge. */
  lemma {:induction false} DropRepeats(w: World, path: seq<Hop>) returns (simple: seq<Hop>)
    requires AnchorPath(w, path)
    ensures AnchorPath(w, simple) && simple[0].cert == path[0].cert && |simple| <= |path|
    ensures DistinctEdges(w, simple)
    decreases |path|
  {
    if DistinctEdges(w, path) {
      simple := path;
    } else {
      var i, j :| 0 <= i < j < |path| && EdgeOf(w.bag[path[i].rep]) == EdgeOf(w.bag[path[j].rep]);
      var short := Shortcut(w, path, i, j);
      simple := DropRepeats(w, short);
    }
  }

  /** Completeness for paths that repeat no edge and avoid the stack. */
  lemma {:induction false} SimplePathIsFound(w: World, path: seq<Hop>, visited: seq<Edge>, depth: nat)
    requires AnchorPath(w, path) && DistinctEdges(w, path)
    requires |path| <= MAX_PATH_DEPTH + 1 - depth
    requires forall i :: 0 <= i < |path| ==> EdgeOf(w.bag[path[i].rep]) !in visited
    ensures path[0].cert < |w.bag| && Reach(w, path[0].cert, visited, depth)
    decreases |path|
  {
    var t := path[0].rep;
    assert GoodHop(w, path[0]);
    if |path| > 1 {
      var rest := path[1..];
      var edge := EdgeOf(w.bag[t]);
      assert forall i :: 0 <= i < |rest| ==> rest[i] == path[i + 1];
      SimplePathIsFound(w, rest, visited + [edge], depth + 1);
      assert GoodClimb(w, path[0], path[1]);
      assert Issues(w, rest[0].cert, t);
    }
    assert RepReaches(w, t, visited, depth);
  }

  /** Pruning by visited edges and backtracking lose nothing. */
  lemma SearchIsExact(w: World)
    requires 0 < |w.bag|
    ensures Reach(w, 0, [], 0) <==> Reachable(w)
  {
    if Reach(w, 0, [], 0) {
      var path := ReachGivesPath(w, 0, [], 0);
    }
    if Reachable(w) {
      var path: seq<Hop> :| AnchorPath(w, path) && path[0].cert == 0 && |path| - 1 <= 8;
      var simple := DropRepeats(w, path);
      SimplePathIsFound(w, simple, [], 0);
    }
  }

  /**
   Whatever else is served, acceptance takes a certificate with the signer's subject and key that is valid
   now: a bag where all such certificates have expired, or have yet to start, is refused.
   */
  lemma ExpiredSignerRefused(w: World)
    requires 0 < |w.bag| && Reachable(w)
    ensures exists t :: t in w.bag && t.subject == w.bag[0].subject && t.spki == w.bag[0].spki && t.notBefore <= w.now <= t.notAfter
  {
    var path: seq<Hop> :| AnchorPath(w, path) && path[0].cert == 0 && |path| - 1 <= 8;
    assert GoodHop(w, path[0]) && w.bag[path[0].rep] in w.bag;
  }

  /** A signer valid now is accepted on its own exactly when it is pinned, or a pinned root issued and verifies it. */
  lemma LoneSigner(w: World)
    requires |w.bag| == 1 && w.bag[0].notBefore <= w.now <= w.bag[0].notAfter
    ensures Reachable(w) <==> GoodEnd(w, Hop(0, 0))
  {
    if Reachable(w) {
      var path: seq<Hop> :| AnchorPath(w, path) && path[0].cert == 0 && |path| - 1 <= 8;
      var end := path[|path| - 1];
      assert GoodHop(w, end) && GoodEnd(w, end);
    }
    if GoodEnd(w, Hop(0, 0)) {
      assert AnchorPath(w, [Hop(0, 0)]);
    }
  }

  // ----- The bag and the pins are sets -----

  /** Everything `w` offers, `v` offers too, for the same signer. */
  ghost predicate Extends(v: World, w: World)
    requires 0 < |v.bag| && 0 < |w.bag|
  {
    && v.now == w.now && v.verifies == w.verifies
    && v.bag[0] == w.bag[0]
    && (forall n :: n in w.bag ==> n in v.bag)
    && (forall a :: a in w.anchors ==> a in v.anchors)
  }

  function IndexIn(bag: seq<Node>, n: Node): (i: nat)
    requires n in bag
    ensures i < |bag| && bag[i] == n
    ensures n == bag[0] ==> i == 0
  {
    if bag[0] == n then 0 else 1 + IndexIn(bag[1..], n)
  }

  function Moved(w: World, v: World, i: nat): (j: nat)
    requires 0 < |v.bag| && 0 < |w.bag| && Extends(v, w) && i < |w.bag|
    ensures j < |v.bag| && v.bag[j] == w.bag[i]
    ensures i == 0 ==> j == 0
  {
    IndexIn(v.bag, w.bag[i])
  }

  function MovedHop(w: World, v: World, h: Hop): Hop
    requires 0 < |v.bag| && 0 < |w.bag| && Extends(v, w) && h.cert < |w.bag| && h.rep < |w.bag|
  {
    Hop(Moved(w, v, h.cert), Moved(w, v, h.rep))
  }

  lemma HopMoves(w: World, v: World, h: Hop)
    requires 0 < |w.bag| && 0 < |v.bag| && Extends(v, w) && GoodHop(w, h)
    ensures GoodHop(v, MovedHop(w, v, h))
    ensures GoodEnd(w, h) ==> GoodEnd(v, MovedHop(w, v, h))
  {
    if GoodEnd(w, h) {
      var t := w.bag[h.rep];
      var a :| a in w.anchors && (a.der == t.der || (a.subject == t.issuer && w.verifies(t, a.spki)));
      assert a in v.anchors;
    }
  }

  lemma ClimbMoves(w: World, v: World, below: Hop, above: Hop)
    requires 0 < |w.bag| && 0 < |v.bag| && Extends(v, w)
    requires GoodHop(w, below) && GoodHop(w, above) && GoodClimb(w, below, above)
    ensures GoodHop(v, MovedHop(w, v, below)) && GoodHop(v, MovedHop(w, v, above))
    ensures GoodClimb(v, MovedHop(w, v, below), MovedHop(w, v, above))
  {
  }

  lemma PathMoves(w: World, v: World, path: seq<Hop>) returns (moved: seq<Hop>)
    requires 0 < |w.bag| && 0 < |v.bag| && Extends(v, w)
    requires AnchorPath(w, path)
    ensures AnchorPath(v, moved) && |moved| == |path|
    ensures path[0].cert == 0 ==> moved[0].cert == 0
  {
    assert forall i :: 0 <= i < |path| ==> GoodHop(w, path[i]);
    moved := seq(|path|, i requires 0 <= i < |path| => MovedHop(w, v, path[i]));
    forall i | 0 <= i < |path| ensures GoodHop(v, moved[i]) {
      HopMoves(w, v, path[i]);
    }
    forall i | 0 < i < |path| ensures GoodClimb(v, moved[i - 1], moved[i]) {
      ClimbMoves(w, v, path[i - 1], path[i]);
    }
    HopMoves(w, v, path[|path| - 1]);
  }

  /** Serving more certificates, or pinning more roots, never turns accept into reject. */
  lemma MoreCertificatesNeverHurt(w: World, v: World)
    requires 0 < |w.bag| && 0 < |v.bag| && Extends(v, w)
    requires Reachable(w)
    ensures Reachable(v)
  {
    var path: seq<Hop> :| AnchorPath(w, path) && path[0].cert == 0 && |path| - 1 <= 8;
    var moved := PathMoves(w, v, path);
  }

  /** Order and multiplicity of `chain[1..]` and of the pinned bundle are irrelevant. */
  lemma VerdictDependsOnSetsOnly(w: World, v: World)
    requires 0 < |w.bag| && 0 < |v.bag|
    requires v.now == w.now && v.verifies == w.verifies && v.bag[0] == w.bag[0]
    requires forall n :: n in w.bag <==> n in v.bag
    requires forall a :: a in w.anchors <==> a in v.anchors
    ensures Reachable(w) <==> Reachable(v)
  {
    if Reachable(w) { MoreCertificatesNeverHurt(w, v); }
    if Reachable(v) { MoreCertificatesNeverHurt(v, w); }
  }
}
