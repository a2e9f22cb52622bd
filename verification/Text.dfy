/** The string operations the sources use: trimming, prefixes, searching and splitting. */
module Text {
  import opened Basics

  /** The Unicode White_Space property. */
  predicate IsWhitespace(c: char) {
    || '\U{0009}' <= c <= '\U{000D}' || c == ' ' || c == '\U{0085}' || c == '\U{00A0}'
    || c == '\U{1680}' || '\U{2000}' <= c <= '\U{200A}' || c == '\U{2028}' || c == '\U{2029}'
    || c == '\U{202F}' || c == '\U{205F}' || c == '\U{3000}'
  }

  function TrimStart(s: string): string {
    if s != [] && IsWhitespace(s[0]) then TrimStart(s[1..]) else s
  }

  function TrimEnd(s: string): string {
    if s != [] && IsWhitespace(s[|s| - 1]) then TrimEnd(s[..|s| - 1]) else s
  }

  function Trim(s: string): string {
    TrimEnd(TrimStart(s))
  }

  lemma TrimKeepsTight(s: string)
    requires s != [] ==> !IsWhitespace(s[0]) && !IsWhitespace(s[|s| - 1])
    ensures TrimStart(s) == s && Trim(s) == s
  {
  }

  predicate Blank(s: string) {
    forall i :: 0 <= i < |s| ==> IsWhitespace(s[i])
  }

  lemma {:induction false} TrimStartMeaning(s: string)
    ensures
      var t := TrimStart(s);
      |t| <= |s| && s[|s| - |t|..] == t && Blank(s[..|s| - |t|]) && (t != [] ==> !IsWhitespace(t[0]))
  {
    if s != [] && IsWhitespace(s[0]) {
      TrimStartMeaning(s[1..]);
      var n := |s| - |TrimStart(s)|;
      assert s[n..] == s[1..][n - 1..];
      assert forall i :: 0 < i < n ==> s[i] == s[1..][i - 1];
    } else {
      assert s[0..] == s;
    }
  }

  lemma {:induction false} TrimEndMeaning(s: string)
    ensures
      var t := TrimEnd(s);
      t <= s && Blank(s[|t|..]) && (t != [] ==> !IsWhitespace(t[|t| - 1]))
  {
    if s != [] && IsWhitespace(s[|s| - 1]) {
      var front := s[..|s| - 1];
      TrimEndMeaning(front);
      var n := |TrimEnd(front)|;
      forall i | 0 <= i < |s| - n ensures IsWhitespace(s[n..][i]) {
        if n + i < |front| { assert s[n..][i] == front[n..][i]; }
      }
    }
  }

  /** Trimming takes blanks off both ends, all of them and nothing else. */
  lemma TrimMeaning(s: string)
    ensures
      var t := Trim(s);
      (t != [] ==> !IsWhitespace(t[0]) && !IsWhitespace(t[|t| - 1]))
      && exists before, after :: Blank(before) && Blank(after) && s == before + t + after
  {
    TrimStartMeaning(s);
    var u := TrimStart(s);
    TrimEndMeaning(u);
    var t := TrimEnd(u);
    var before, after := s[..|s| - |u|], u[|t|..];
    assert s == before + t + after;
  }

  function StripPrefix(s: string, p: string): Option<string> {
    if p <= s then Some(s[|p|..]) else None
  }

  function StripSuffix(s: string, p: string): Option<string> {
    if EndsWith(s, p) then Some(s[..|s| - |p|]) else None
  }

  predicate EndsWith(s: string, p: string) {
    |p| <= |s| && s[|s| - |p|..] == p
  }

  predicate MatchAt(s: string, p: string, i: nat) {
    i + |p| <= |s| && s[i..i + |p|] == p
  }

  lemma NoMatch(s: string, p: string, i: nat, k: nat)
    requires k < |p|
    requires i + k < |s| ==> s[i + k] != p[k]
    ensures !MatchAt(s, p, i)
  {
    if i + |p| <= |s| {
      assert s[i..i + |p|][k] == s[i + k];
    }
  }

  /** First occurrence of `p` in `s`. */
  function Find(s: string, p: string): (r: Option<nat>)
    ensures r.Some? ==> MatchAt(s, p, r.value)
    ensures r.Some? ==> forall j: nat :: j < r.value ==> !MatchAt(s, p, j)
    ensures r.None? ==> forall j: nat :: !MatchAt(s, p, j)
  {
    FindFrom(s, p, 0)
  }

  function FindFrom(s: string, p: string, from: nat): (r: Option<nat>)
    requires from <= |s| + 1
    ensures r.Some? ==> from <= r.value && MatchAt(s, p, r.value)
    ensures r.Some? ==> forall j: nat :: from <= j < r.value ==> !MatchAt(s, p, j)
    ensures r.None? ==> forall j: nat :: from <= j ==> !MatchAt(s, p, j)
    decreases |s| + 1 - from
  {
    if MatchAt(s, p, from) then Some(from)
    else if from > |s| then None
    else FindFrom(s, p, from + 1)
  }

  lemma FindIs(s: string, p: string, i: nat)
    requires MatchAt(s, p, i)
    requires forall j: nat :: j < i ==> !MatchAt(s, p, j)
    ensures Find(s, p) == Some(i)
  {
  }

  /** `split_once(c)`: the parts around the first `c`. */
  function SplitOnce(s: string, c: char): (r: Option<(string, string)>)
    ensures r.Some? ==> c !in r.value.0 && s == r.value.0 + [c] + r.value.1
    ensures r.None? ==> c !in s
  {
    if s == [] then None
    else if s[0] == c then Some(("", s[1..]))
    else match SplitOnce(s[1..], c)
      case None => None
      case Some((a, b)) => Some(([s[0]] + a, b))
  }

  lemma {:induction false} SplitOnceAt(a: string, c: char, b: string)
    requires c !in a
    ensures SplitOnce(a + [c] + b, c) == Some((a, b))
  {
    var s := a + [c] + b;
    if a != [] {
      assert s[1..] == a[1..] + [c] + b;
      SplitOnceAt(a[1..], c, b);
      assert [a[0]] + a[1..] == a;
    }
  }

  /** `split(c)`: the pieces between separators; never empty. */
  function Split(s: string, c: char): (pieces: seq<string>)
    ensures pieces != [] && (forall p :: p in pieces ==> c !in p)
  {
    if s == [] then [""]
    else
      var rest := Split(s[1..], c);
      if s[0] == c then [""] + rest else [[s[0]] + rest[0]] + rest[1..]
  }

  lemma {:induction false} SplitAt(a: string, c: char, b: string)
    requires c !in a
    ensures Split(a + [c] + b, c) == [a] + Split(b, c)
  {
    var s := a + [c] + b;
    if a == [] {
      assert s[1..] == b;
    } else {
      assert s[1..] == a[1..] + [c] + b;
      SplitAt(a[1..], c, b);
      assert [a[0]] + a[1..] == a;
    }
  }

  lemma {:induction false} SplitWhole(a: string, c: char)
    requires c !in a
    ensures Split(a, c) == [a]
  {
    if a != [] {
      SplitWhole(a[1..], c);
      assert [a[0]] + a[1..] == a;
    }
  }

  /** A separator that occurs in neither left part fixes where the left part ends. */
  lemma {:induction false} CutIsUnique(a: string, x: string, b: string, y: string, c: char)
    requires c !in a && c !in b
    requires a + [c] + x == b + [c] + y
    ensures a == b && x == y
  {
    SplitOnceAt(a, c, x);
    SplitOnceAt(b, c, y);
  }

  lemma SamePrefix(p: string, a: string, b: string)
    requires p + a == p + b
    ensures a == b
  {
    assert a == (p + a)[|p|..];
    assert b == (p + b)[|p|..];
  }
}
