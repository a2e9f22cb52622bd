/**
 Wire format of the signed roots response (ayane-protocol/src/httpsig.rs): the
 printers and parsers of the signature headers, and the signature base of
 section 2.5 of RFC 9421 over a fixed component set.
 */
module HttpSig {
  import opened Basics
  import opened Decimal
  import opened Text

  const ROOTS_SIGNATURE_LABEL := "sig"
  const SIGNER_CHAIN_PATH := "/v1/roots/signer-chain"
  const ROOTS_CONTENT_TYPE := "application/json"
  const COVERED_COMPONENTS := "(" + "\"@status\" \"content-type\" \"content-digest\" \"signature-key\")"

  type u64 = n: nat | n < U64_LIMIT

  datatype RootsSigParams = RootsSigParams(created: u64, expires: u64, alg: string)

  datatype HttpSigError =
    | NoLabel | WrongScheme | MissingX5u | MissingX5t
    | WrongComponents | NotKeyValue | BadCreated | BadExpires | AlgNotQuoted
    | MissingCreated | MissingExpires | MissingAlg
    | BadDigest | BadSignature

  /** The base64 library: all the format needs is that decoding inverts encoding. */
  datatype Base64 = Base64(encode: Bytes -> string, decode: string -> Option<Bytes>) {
    ghost predicate Inverts() {
      forall b :: decode(encode(b)) == Some(b)
    }
  }

  // ----- Printers -----

  function SignatureKeyX509(x5u: string, x5t: string): string {
    ROOTS_SIGNATURE_LABEL + "=x509;x5u=\"" + x5u + "\";x5t=\"" + x5t + "\""
  }

  function CreatedParam(p: RootsSigParams): string {
    "created" + "=" + Numeral(p.created)
  }

  function ExpiresParam(p: RootsSigParams): string {
    "expires" + "=" + Numeral(p.expires)
  }

  function Quoted(s: string): string {
    "\"" + s + "\""
  }

  function AlgParam(p: RootsSigParams): string {
    "alg" + "=" + Quoted(p.alg)
  }

  function RootsSigParamsValue(p: RootsSigParams): string {
    COVERED_COMPONENTS + ";" + CreatedParam(p) + ";" + ExpiresParam(p) + ";" + AlgParam(p)
  }

  function SignatureInputValue(p: RootsSigParams): string {
    ROOTS_SIGNATURE_LABEL + "=" + RootsSigParamsValue(p)
  }

  /** One covered component: its quoted name and its value. */
  function Line(name: string, value: string): string {
    "\"" + name + "\": " + value
  }

  function RootsSignatureBase(status: nat, contentType: string, contentDigest: string,
                              signatureKey: string, p: RootsSigParams): string {
    Line("@status", Numeral(status)) + "\n"
    + Line("content-type", contentType) + "\n"
    + Line("content-digest", contentDigest) + "\n"
    + Line("signature-key", signatureKey) + "\n"
    + Line("@signature-params", RootsSigParamsValue(p))
  }

  function ContentDigestHeader(b64: Base64, sha384: Bytes): string {
    "sha-384=:" + b64.encode(sha384) + ":"
  }

  function SignatureHeaderValue(b64: Base64, signature: Bytes): string {
    ROOTS_SIGNATURE_LABEL + "=:" + b64.encode(signature) + ":"
  }

  // ----- Parsers -----

  function StripLabel(value: string): Option<string> {
    match StripPrefix(Trim(value), ROOTS_SIGNATURE_LABEL)
    case None => None
    case Some(rest) => StripPrefix(rest, "=")
  }

  /** The value of `name="value"`: between the first `name="` and the next quote. */
  function QuotedParam(s: string, name: string): (r: Option<string>)
    ensures r.Some? ==> '"' !in r.value
  {
    var needle := name + "=\"";
    match Find(s, needle)
    case None => None
    case Some(at) =>
      match SplitOnce(s[at + |needle|..], '"')
      case None => None
      case Some((value, _)) => Some(value)
  }

  function ParseSignatureKeyX509(value: string): Result<(string, string), HttpSigError> {
    match StripLabel(value)
    case None => Err(NoLabel)
    case Some(body) =>
      if !("x509" <= TrimStart(body)) then Err(WrongScheme)
      else match QuotedParam(body, "x5u")
        case None => Err(MissingX5u)
        case Some(x5u) =>
          match QuotedParam(body, "x5t")
          case None => Err(MissingX5t)
          case Some(x5t) => Ok((x5u, x5t))
  }

  /** What the parameter loop has collected so far. */
  datatype Collected = Collected(created: Option<u64>, expires: Option<u64>, alg: Option<string>)

  const NOTHING := Collected(None, None, None)

  function Unquote(v: string): Option<string> {
    match StripPrefix(v, "\"")
    case None => None
    case Some(s) => StripSuffix(s, "\"")
  }

  function CollectOne(c: Collected, param: string): Result<Collected, HttpSigError> {
    match SplitOnce(param, '=')
    case None => Err(NotKeyValue)
    case Some((k, v)) =>
      if k == "created" then
        if ParseU64(v).Some? then Ok(c.(created := Some(ParseU64(v).value))) else Err(BadCreated)
      else if k == "expires" then
        if ParseU64(v).Some? then Ok(c.(expires := Some(ParseU64(v).value))) else Err(BadExpires)
      else if k == "alg" then
        if Unquote(v).Some? then Ok(c.(alg := Some(Unquote(v).value))) else Err(AlgNotQuoted)
      else Ok(c)
  }

  function CollectAll(c: Collected, params: seq<string>): Result<Collected, HttpSigError>
    decreases |params|
  {
    if params == [] then Ok(c)
    else if params[0] == "" then CollectAll(c, params[1..])
    else match CollectOne(c, params[0])
      case Err(e) => Err(e)
      case Ok(next) => CollectAll(next, params[1..])
  }

  function Complete(c: Collected): Result<RootsSigParams, HttpSigError> {
    if c.created.None? then Err(MissingCreated)
    else if c.expires.None? then Err(MissingExpires)
    else if c.alg.None? then Err(MissingAlg)
    else Ok(RootsSigParams(c.created.value, c.expires.value, c.alg.value))
  }

  function ParsedRootsSigParams(value: string): Result<RootsSigParams, HttpSigError> {
    match StripLabel(value)
    case None => Err(NoLabel)
    case Some(body) =>
      match StripPrefix(Trim(body), COVERED_COMPONENTS)
      case None => Err(WrongComponents)
      case Some(rest) =>
        ParsedParams(rest)
  }

  function ParsedParams(rest: string): Result<RootsSigParams, HttpSigError> {
    match CollectAll(NOTHING, Split(rest, ';'))
    case Err(e) => Err(e)
    case Ok(c) => Complete(c)
  }

  method ParseRootsSigParams(value: string) returns (r: Result<RootsSigParams, HttpSigError>)
    ensures r == ParsedRootsSigParams(value)
  {
    var body := StripLabel(value);
    if body.None? {
      return Err(NoLabel);
    }
    var rest := StripPrefix(Trim(body.value), COVERED_COMPONENTS);
    if rest.None? {
      return Err(WrongComponents);
    }
    var created: Option<u64>, expires: Option<u64>, alg: Option<string> := None, None, None;
    var params := Split(rest.value, ';');
    for i := 0 to |params|
      invariant CollectAll(Collected(created, expires, alg), params[i..]) == CollectAll(NOTHING, params)
    {
      if params[i] == "" {
        continue;
      }
      var kv := SplitOnce(params[i], '=');
      if kv.None? {
        return Err(NotKeyValue);
      }
      var (k, v) := kv.value;
      if k == "created" {
        var n := ParseU64(v);
        if n.None? { return Err(BadCreated); }
        created := Some(n.value);
      } else if k == "expires" {
        var n := ParseU64(v);
        if n.None? { return Err(BadExpires); }
        expires := Some(n.value);
      } else if k == "alg" {
        alg := Unquote(v);
        if alg.None? { return Err(AlgNotQuoted); }
      }
    }
    return Complete(Collected(created, expires, alg));
  }

  function ParseContentDigest(b64: Base64, value: string): Result<Bytes, HttpSigError> {
    match StripPrefix(Trim(value), "sha-384=:")
    case None => Err(BadDigest)
    case Some(v) =>
      match StripSuffix(v, ":")
      case None => Err(BadDigest)
      case Some(inner) =>
        match b64.decode(inner)
        case None => Err(BadDigest)
        case Some(bytes) => if |bytes| == 48 then Ok(bytes) else Err(BadDigest)
  }

  function ParseSignatureHeader(b64: Base64, value: string): Result<Bytes, HttpSigError> {
    match StripLabel(value)
    case None => Err(NoLabel)
    case Some(body) =>
      match StripPrefix(Trim(body), ":")
      case None => Err(BadSignature)
      case Some(v) =>
        match StripSuffix(v, ":")
        case None => Err(BadSignature)
        case Some(inner) =>
          match b64.decode(inner)
          case None => Err(BadSignature)
          case Some(bytes) => Ok(bytes)
  }

  // ----- The wire text -----

  /** The parameters as text: the components covered, then the times and the algorithm. */
  lemma ParamsText(p: RootsSigParams)
    ensures RootsSigParamsValue(p)
            == "(" + "\"@status\" \"content-type\" \"content-digest\" \"signature-key\")"
               + ";" + ("created" + "=" + Numeral(p.created)) + ";" + ("expires" + "=" + Numeral(p.expires))
               + ";" + ("alg" + "=" + ("\"" + p.alg + "\""))
    ensures SignatureInputValue(p) == "sig" + "=" + RootsSigParamsValue(p)
  {
  }

  /** The other headers as text. */
  lemma HeaderText(x5u: string, x5t: string, b64: Base64, bytes: Bytes)
    ensures SignatureKeyX509(x5u, x5t) == "sig" + "=x509;x5u=\"" + x5u + "\";x5t=\"" + x5t + "\""
    ensures ContentDigestHeader(b64, bytes) == "sha-384=:" + b64.encode(bytes) + ":"
    ensures SignatureHeaderValue(b64, bytes) == "sig" + "=:" + b64.encode(bytes) + ":"
  {
  }

  /** The message signed, line by line (section 2.5 of RFC 9421). */
  lemma BaseText(digest: string, key: string, p: RootsSigParams)
    ensures RootsSignatureBase(200, ROOTS_CONTENT_TYPE, digest, key, p)
            == "\"" + "@status" + "\": " + Numeral(200) + "\n"
               + ("\"" + "content-type" + "\": " + "application/json") + "\n"
               + ("\"" + "content-digest" + "\": " + digest) + "\n"
               + ("\"" + "signature-key" + "\": " + key) + "\n"
               + ("\"" + "@signature-params" + "\": " + RootsSigParamsValue(p))
  {
  }

  // ----- What the parsers accept -----

  /** A digest header is accepted exactly when, trimmed, it is `sha-384=:`, a decodable text of 48 bytes, and `:`. */
  lemma DigestAccepted(b64: Base64, value: string, digest: Bytes)
    ensures ParseContentDigest(b64, value) == Ok(digest) <==>
              |digest| == 48 && exists inner :: Trim(value) == "sha-384=:" + inner + ":" && b64.decode(inner) == Some(digest)
    ensures ParseContentDigest(b64, value).Err? ==> ParseContentDigest(b64, value) == Err(BadDigest)
  {
    var t := Trim(value);
    forall inner | t == "sha-384=:" + inner + ":" ensures Enclosed(t, "sha-384=:") == Some(inner) {
      EnclosedText("sha-384=:", inner);
    }
    if Enclosed(t, "sha-384=:").Some? { EnclosedParts(t, "sha-384=:"); }
  }

  /** A signature header is accepted exactly when, trimmed, it is `sig=` and then, trimmed, a decodable text between colons. */
  lemma SignatureAccepted(b64: Base64, value: string, signature: Bytes)
    ensures ParseSignatureHeader(b64, value) == Ok(signature) <==>
              exists body, inner :: Labelled(value, body) && Trim(body) == ":" + inner + ":" && b64.decode(inner) == Some(signature)
  {
    forall body | Labelled(value, body) ensures StripLabel(value) == Some(body) {
      LabelledStrips(value, body);
    }
    if StripLabel(value).Some? {
      var body := StripLabel(value).value;
      StrippedLabel(value);
      var t := Trim(body);
      forall inner | t == ":" + inner + ":" ensures Enclosed(t, ":") == Some(inner) {
        EnclosedText(":", inner);
      }
      if Enclosed(t, ":").Some? { EnclosedParts(t, ":"); }
    }
  }

  /** `sig=` and then `body`, but for blanks around the whole. */
  ghost predicate Labelled(value: string, body: string) {
    Trim(value) == "sig" + "=" + body
  }

  lemma LabelledStrips(value: string, body: string)
    requires Labelled(value, body)
    ensures StripLabel(value) == Some(body)
  {
    var t := Trim(value);
    assert t == "sig" + ("=" + body);
    assert t[3..] == "=" + body && ("=" + body)[1..] == body;
  }

  lemma StrippedLabel(value: string)
    requires StripLabel(value).Some?
    ensures Labelled(value, StripLabel(value).value)
  {
    var t, body := Trim(value), StripLabel(value).value;
    assert t[3..] == "=" + body;
    assert t == "sig" + ("=" + body);
  }

  /** What lies between a prefix and a final colon. */
  function Enclosed(t: string, prefix: string): Option<string> {
    match StripPrefix(t, prefix)
    case None => None
    case Some(v) => StripSuffix(v, ":")
  }

  lemma EnclosedText(prefix: string, inner: string)
    ensures Enclosed(prefix + inner + ":", prefix) == Some(inner)
  {
    var t := prefix + inner + ":";
    assert t == prefix + (inner + ":");
    assert t[|prefix|..] == inner + ":";
    assert (inner + ":")[..|inner|] == inner;
  }

  lemma EnclosedParts(t: string, prefix: string)
    requires Enclosed(t, prefix).Some?
    ensures t == prefix + Enclosed(t, prefix).value + ":"
  {
    var v := t[|prefix|..];
    assert t == prefix + v && v == v[..|v| - 1] + ":";
  }

  /** A key header is accepted exactly when it is labelled, of scheme `x509`, and quotes both parameters; they are then read as quoted. */
  lemma KeyAccepted(value: string)
    ensures
      var r := ParseSignatureKeyX509(value);
      match StripLabel(value)
      case None => r == Err(NoLabel)
      case Some(body) =>
        if !("x509" <= TrimStart(body)) then r == Err(WrongScheme)
        else if QuotedParam(body, "x5u").None? then r == Err(MissingX5u)
        else if QuotedParam(body, "x5t").None? then r == Err(MissingX5t)
        else r == Ok((QuotedParam(body, "x5u").value, QuotedParam(body, "x5t").value))
  {
  }

  // ----- Round trips -----

  lemma DigestRoundTrip(b64: Base64, digest: Bytes)
    requires b64.Inverts() && |digest| == 48
    ensures ParseContentDigest(b64, ContentDigestHeader(b64, digest)) == Ok(digest)
  {
    var h := ContentDigestHeader(b64, digest);
    TrimKeepsTight(h);
    assert h == "sha-384=:" + (b64.encode(digest) + ":");
    assert h[|"sha-384=:"|..] == b64.encode(digest) + ":";
  }

  lemma LabelStrips(body: string)
    requires body != [] && !IsWhitespace(body[|body| - 1])
    ensures StripLabel(ROOTS_SIGNATURE_LABEL + "=" + body) == Some(body)
  {
    TrimKeepsTight(ROOTS_SIGNATURE_LABEL + "=" + body);
  }

  lemma SignatureRoundTrip(b64: Base64, signature: Bytes)
    requires b64.Inverts()
    ensures ParseSignatureHeader(b64, SignatureHeaderValue(b64, signature)) == Ok(signature)
  {
    var v := b64.encode(signature) + ":";
    var body := ":" + v;
    assert SignatureHeaderValue(b64, signature) == ROOTS_SIGNATURE_LABEL + "=" + body;
    LabelStrips(body);
    TrimKeepsTight(body);
    assert body[1..] == v;
    assert v[..|v| - 1] == b64.encode(signature);
  }

  lemma CollectOneKeepsOut(c: Collected, param: string, x: char)
    requires x !in param && (c.alg.Some? ==> x !in c.alg.value)
    ensures CollectOne(c, param).Ok? && CollectOne(c, param).value.alg.Some?
            ==> x !in CollectOne(c, param).value.alg.value
  {
    match SplitOnce(param, '=')
    case None =>
    case Some((k, v)) =>
      assert forall i :: 0 <= i < |v| ==> v[i] == param[|k| + 1 + i];
      match Unquote(v)
      case None =>
      case Some(alg) => assert forall i :: 0 <= i < |alg| ==> alg[i] == v[1 + i];
  }

  /** Whatever the loop collects as the algorithm lies inside one piece. */
  lemma {:induction false} CollectedAlgKeepsOut(c: Collected, params: seq<string>, x: char)
    requires forall p :: p in params ==> x !in p
    requires c.alg.Some? ==> x !in c.alg.value
    ensures CollectAll(c, params).Ok? && CollectAll(c, params).value.alg.Some?
            ==> x !in CollectAll(c, params).value.alg.value
    decreases |params|
  {
    if params != [] {
      assert params[0] in params && forall p :: p in params[1..] ==> p in params;
      if params[0] == "" {
        CollectedAlgKeepsOut(c, params[1..], x);
      } else if CollectOne(c, params[0]).Ok? {
        CollectOneKeepsOut(c, params[0], x);
        CollectedAlgKeepsOut(CollectOne(c, params[0]).value, params[1..], x);
      }
    }
  }

  lemma NumeralLacks(n: nat, c: char)
    requires !IsDigit(c)
    ensures c !in Numeral(n)
  {
    NumeralDenotes(n);
  }

  lemma ParamsLackSemicolon(p: RootsSigParams)
    ensures ';' !in CreatedParam(p) && ';' !in ExpiresParam(p)
    ensures ';' !in p.alg ==> ';' !in AlgParam(p)
  {
    NumeralLacks(p.created, ';');
    NumeralLacks(p.expires, ';');
  }

  lemma SplitTwo(b: string, c: string, x: char)
    requires x !in b && x !in c
    ensures Split(b + [x] + c, x) == [b, c]
  {
    SplitWhole(c, x);
    SplitAt(b, x, c);
  }

  lemma SplitThree(a: string, b: string, c: string, x: char)
    requires x !in a && x !in b && x !in c
    ensures Split([x] + a + [x] + b + [x] + c, x) == ["", a, b, c]
  {
    var two := b + [x] + c;
    SplitTwo(b, c, x);
    SplitAt(a, x, two);
    var three := a + [x] + two;
    SplitAt("", x, three);
    assert "" + [x] + three == [x] + a + [x] + b + [x] + c;
    assert [""] + ([a] + [b, c]) == ["", a, b, c];
  }

  lemma KeyValueSplits(key: string, v: string)
    requires '=' !in key
    ensures SplitOnce(key + "=" + v, '=') == Some((key, v))
  {
    SplitOnceAt(key, '=', v);
  }

  lemma UnquoteQuoted(s: string)
    ensures Unquote(Quoted(s)) == Some(s)
  {
    assert Quoted(s) == "\"" + (s + "\"");
    assert Quoted(s)[1..] == s + "\"";
    assert (s + "\"")[..|s|] == s;
    assert (s + "\"")[|s|..] == "\"";
  }

  lemma CollectCreated(c: Collected, p: RootsSigParams)
    ensures CollectOne(c, CreatedParam(p)) == Ok(c.(created := Some(p.created)))
  {
    KeyValueSplits("created", Numeral(p.created));
    ParseU64Numeral(p.created);
  }

  lemma CollectExpires(c: Collected, p: RootsSigParams)
    ensures CollectOne(c, ExpiresParam(p)) == Ok(c.(expires := Some(p.expires)))
  {
    KeyValueSplits("expires", Numeral(p.expires));
    ParseU64Numeral(p.expires);
    assert "expires" != "created";
  }

  lemma CollectAlg(c: Collected, p: RootsSigParams)
    ensures CollectOne(c, AlgParam(p)) == Ok(c.(alg := Some(p.alg)))
  {
    KeyValueSplits("alg", Quoted(p.alg));
    UnquoteQuoted(p.alg);
    assert |"alg"| == 3 && |"created"| == 7 && |"expires"| == 7;
  }

  lemma CollectStep(c: Collected, param: string, rest: seq<string>)
    requires param != "" && CollectOne(c, param).Ok?
    ensures CollectAll(c, [param] + rest) == CollectAll(CollectOne(c, param).value, rest)
  {
    assert ([param] + rest)[1..] == rest;
  }

  lemma PiecesCollect(p: RootsSigParams)
    ensures CollectAll(NOTHING, ["", CreatedParam(p), ExpiresParam(p), AlgParam(p)])
            == Ok(Collected(Some(p.created), Some(p.expires), Some(p.alg)))
  {
    var a, b, c := CreatedParam(p), ExpiresParam(p), AlgParam(p);
    var c1 := NOTHING.(created := Some(p.created));
    var c2 := c1.(expires := Some(p.expires));
    CollectCreated(NOTHING, p);
    CollectExpires(c1, p);
    CollectAlg(c2, p);
    CollectStep(c2, c, []);
    CollectStep(c1, b, [c]);
    CollectStep(NOTHING, a, [b, c]);
    assert ["", a, b, c][1..] == [a] + [b, c];
    assert [b] + [c] == [b, c] && [c] + [] == [c];
  }

  lemma InputBody(rest: string)
    requires rest != [] && !IsWhitespace(rest[|rest| - 1])
    ensures ParsedRootsSigParams(ROOTS_SIGNATURE_LABEL + "=" + (COVERED_COMPONENTS + rest)) == ParsedParams(rest)
  {
    var body := COVERED_COMPONENTS + rest;
    assert body[0] == COVERED_COMPONENTS[0] == '(';
    LabelStrips(body);
    TrimKeepsTight(body);
    assert body[|COVERED_COMPONENTS|..] == rest;
  }

  lemma ParsedParamsRoundTrip(p: RootsSigParams, rest: string)
    requires rest == ";" + CreatedParam(p) + ";" + ExpiresParam(p) + ";" + AlgParam(p)
    ensures ParsedParams(rest) == Ok(p) <==> ';' !in p.alg
  {
    if ';' !in p.alg {
      ParamsLackSemicolon(p);
      SplitThree(CreatedParam(p), ExpiresParam(p), AlgParam(p), ';');
      PiecesCollect(p);
    } else {
      CollectedAlgKeepsOut(NOTHING, Split(rest, ';'), ';');
    }
  }

  lemma ParamsTail(p: RootsSigParams)
    ensures
      var rest := ";" + CreatedParam(p) + ";" + ExpiresParam(p) + ";" + AlgParam(p);
      SignatureInputValue(p) == ROOTS_SIGNATURE_LABEL + "=" + (COVERED_COMPONENTS + rest)
      && rest[|rest| - 1] == '"'
  {
    var rest := ";" + CreatedParam(p) + ";" + ExpiresParam(p) + ";" + AlgParam(p);
    assert RootsSigParamsValue(p) == COVERED_COMPONENTS + rest;
    assert rest[|rest| - 1] == Quoted(p.alg)[|p.alg| + 1];
  }

  /** Parsing inverts printing exactly for the parameter sets whose algorithm holds no ';'. */
  lemma ParamsRoundTrip(p: RootsSigParams)
    ensures ParsedRootsSigParams(SignatureInputValue(p)) == Ok(p) <==> ';' !in p.alg
  {
    var rest := ";" + CreatedParam(p) + ";" + ExpiresParam(p) + ";" + AlgParam(p);
    ParamsTail(p);
    InputBody(rest);
    ParsedParamsRoundTrip(p, rest);
  }

  // ----- The signature key -----

  /** The header body after the label. */
  function KeyBody(x5u: string, x5t: string): string {
    "x509;x5u=\"" + x5u + "\";x5t=\"" + x5t + "\""
  }

  lemma KeyBodyChars(x5u: string, x5t: string)
    ensures
      var b, n := KeyBody(x5u, x5t), |x5u|;
      && |b| == 18 + n + |x5t|
      && b[0] == 'x' && b[1] == '5' && b[2] == '0' && b[3] == '9' && b[4] == ';'
      && b[5] == 'x' && b[6] == '5' && b[7] == 'u' && b[8] == '=' && b[9] == '"'
      && b[10..10 + n] == x5u && b[10 + n] == '"'
      && b[11 + n] == ';' && b[12 + n] == 'x' && b[13 + n] == '5' && b[14 + n] == 't' && b[15 + n] == '='
      && b[16 + n] == '"' && b[17 + n..] == x5t + "\""
  {
  }

  lemma X5uFound(x5u: string, x5t: string)
    ensures Find(KeyBody(x5u, x5t), "x5u=\"") == Some(5)
  {
    var body := KeyBody(x5u, x5t);
    KeyBodyChars(x5u, x5t);
    assert body[5..10] == "x5u=\"";
    NoMatch(body, "x5u=\"", 0, 2);
    NoMatch(body, "x5u=\"", 1, 0);
    NoMatch(body, "x5u=\"", 2, 0);
    NoMatch(body, "x5u=\"", 3, 0);
    NoMatch(body, "x5u=\"", 4, 0);
    FindIs(body, "x5u=\"", 5);
  }

  lemma X5uParses(x5u: string, x5t: string)
    requires '"' !in x5u
    ensures QuotedParam(KeyBody(x5u, x5t), "x5u") == Some(x5u)
  {
    var body := KeyBody(x5u, x5t);
    KeyBodyChars(x5u, x5t);
    assert "x5u" + "=\"" == "x5u=\"";
    X5uFound(x5u, x5t);
    assert body[10..] == x5u + ['"'] + body[11 + |x5u|..];
    SplitOnceAt(x5u, '"', body[11 + |x5u|..]);
  }

  /** A match of `x5t="` ends at a quote: before the real parameter, only right after the URL. */
  lemma X5tMatches(x5u: string, x5t: string, j: nat)
    requires '"' !in x5u && j < 12 + |x5u|
    ensures MatchAt(KeyBody(x5u, x5t), "x5t=\"", j) <==> j == 6 + |x5u| && EndsWith(x5u, "x5t=")
  {
    var body, n := KeyBody(x5u, x5t), |x5u|;
    KeyBodyChars(x5u, x5t);
    if j == 5 && n > 0 {
      NoMatch(body, "x5t=\"", j, 2);
    } else if j == 6 + n {
      if n < 4 {
        NoMatch(body, "x5t=\"", j, 3 - n);
      } else {
        assert body[j..j + 5] == body[10..10 + n][n - 4..] + "\"";
        assert body[j..j + 5][..4] == x5u[n - 4..];
      }
    } else {
      if j == 5 {
        NoMatch(body, "x5t=\"", j, 2);
      } else {
        assert 6 <= j < 6 + n ==> body[j + 4] == body[10..10 + n][j - 6];
        NoMatch(body, "x5t=\"", j, 4);
      }
    }
  }

  lemma X5tFound(x5u: string, x5t: string)
    requires '"' !in x5u
    ensures Find(KeyBody(x5u, x5t), "x5t=\"") == Some(if EndsWith(x5u, "x5t=") then 6 + |x5u| else 12 + |x5u|)
  {
    var body, n := KeyBody(x5u, x5t), |x5u|;
    forall j: nat | j < 12 + n
      ensures MatchAt(body, "x5t=\"", j) <==> j == 6 + n && EndsWith(x5u, "x5t=")
    {
      X5tMatches(x5u, x5t, j);
    }
    KeyBodyChars(x5u, x5t);
    assert body[12 + n..17 + n] == "x5t=\"";
    FindIs(body, "x5t=\"", if EndsWith(x5u, "x5t=") then 6 + n else 12 + n);
  }

  lemma X5tParses(x5u: string, x5t: string)
    requires '"' !in x5u
    ensures EndsWith(x5u, "x5t=") ==> QuotedParam(KeyBody(x5u, x5t), "x5t") == Some(";x5t=")
    ensures !EndsWith(x5u, "x5t=") && '"' !in x5t ==> QuotedParam(KeyBody(x5u, x5t), "x5t") == Some(x5t)
  {
    var body, n := KeyBody(x5u, x5t), |x5u|;
    assert "x5t" + "=\"" == "x5t=\"";
    KeyBodyChars(x5u, x5t);
    X5tFound(x5u, x5t);
    if EndsWith(x5u, "x5t=") {
      assert body[11 + n..] == ";x5t=" + ['"'] + body[17 + n..];
      SplitOnceAt(";x5t=", '"', body[17 + n..]);
    } else if '"' !in x5t {
      assert x5t + ['"'] + "" == x5t + "\"";
      SplitOnceAt(x5t, '"', "");
    }
  }

  /** What is left of parsing once the label and the scheme are gone. */
  function ParseBody(body: string): Result<(string, string), HttpSigError> {
    match QuotedParam(body, "x5u")
    case None => Err(MissingX5u)
    case Some(x5u) =>
      match QuotedParam(body, "x5t")
      case None => Err(MissingX5t)
      case Some(x5t) => Ok((x5u, x5t))
  }

  lemma KeyHeaderBody(body: string)
    requires "x509" <= body && !IsWhitespace(body[|body| - 1])
    ensures ParseSignatureKeyX509(ROOTS_SIGNATURE_LABEL + "=" + body) == ParseBody(body)
  {
    LabelStrips(body);
    assert body[0] == "x509"[0];
    TrimKeepsTight(body);
  }

  /**
   Parsing inverts printing exactly for quote-free values whose URL does not itself end in `x5t=`
   (or where the misread thumbprint happens to be the right one).
   */
  lemma SignatureKeyRoundTrip(x5u: string, x5t: string)
    ensures ParseSignatureKeyX509(SignatureKeyX509(x5u, x5t)) == Ok((x5u, x5t))
            <==> '"' !in x5u && '"' !in x5t && (EndsWith(x5u, "x5t=") ==> x5t == ";x5t=")
  {
    var body := KeyBody(x5u, x5t);
    assert SignatureKeyX509(x5u, x5t) == ROOTS_SIGNATURE_LABEL + "=" + body;
    assert "x509" <= body && body[|body| - 1] == '"';
    KeyHeaderBody(body);
    if '"' !in x5u {
      X5uParses(x5u, x5t);
      X5tParses(x5u, x5t);
    }
  }

  lemma ServerUrlShape(externalUrl: string)
    ensures !EndsWith(externalUrl + SIGNER_CHAIN_PATH, "x5t=")
    ensures '"' !in externalUrl ==> '"' !in externalUrl + SIGNER_CHAIN_PATH
  {
    var x5u := externalUrl + SIGNER_CHAIN_PATH;
    assert x5u[|x5u| - 4..][3] == 'n';
  }

  /** Every URL the server signs ends in the signer-chain path, so its header always parses back. */
  lemma ServerKeyRoundTrip(externalUrl: string, x5t: string)
    requires '"' !in externalUrl && '"' !in x5t
    ensures ParseSignatureKeyX509(SignatureKeyX509(externalUrl + SIGNER_CHAIN_PATH, x5t))
            == Ok((externalUrl + SIGNER_CHAIN_PATH, x5t))
  {
    ServerUrlShape(externalUrl);
    SignatureKeyRoundTrip(externalUrl + SIGNER_CHAIN_PATH, x5t);
  }

  // ----- The signature base -----

  lemma FourFields(h: string, a: string, b: string, c: string, a': string, b': string, c': string, x: char)
    requires x !in a && x !in b && x !in a' && x !in b'
    requires h + [x] + a + [x] + b + [x] + c == h + [x] + a' + [x] + b' + [x] + c'
    ensures a == a' && b == b' && c == c'
  {
    var s := h + [x] + a + [x] + b + [x] + c;
    assert s == (h + [x]) + (a + [x] + (b + [x] + c));
    assert s == (h + [x]) + (a' + [x] + (b' + [x] + c'));
    SamePrefix(h + [x], a + [x] + (b + [x] + c), a' + [x] + (b' + [x] + c'));
    CutIsUnique(a, b + [x] + c, a', b' + [x] + c', x);
    CutIsUnique(b, c, b', c', x);
  }

  lemma ParamsValueInjective(p: RootsSigParams, q: RootsSigParams)
    requires RootsSigParamsValue(p) == RootsSigParamsValue(q)
    ensures p == q
  {
    ParamsLackSemicolon(p);
    ParamsLackSemicolon(q);
    FourFields(COVERED_COMPONENTS, CreatedParam(p), ExpiresParam(p), AlgParam(p),
               CreatedParam(q), ExpiresParam(q), AlgParam(q), ';');
    SamePrefix("created" + "=", Numeral(p.created), Numeral(q.created));
    SamePrefix("expires" + "=", Numeral(p.expires), Numeral(q.expires));
    NumeralInjective(p.created, q.created);
    NumeralInjective(p.expires, q.expires);
    SamePrefix("alg" + "=", Quoted(p.alg), Quoted(q.alg));
    UnquoteQuoted(p.alg);
    UnquoteQuoted(q.alg);
  }

  lemma FiveLines(a: string, b: string, c: string, d: string, e: string,
                  a': string, b': string, c': string, d': string, e': string, x: char)
    requires x !in a && x !in b && x !in c && x !in d && x !in a' && x !in b' && x !in c' && x !in d'
    requires a + [x] + b + [x] + c + [x] + d + [x] + e == a' + [x] + b' + [x] + c' + [x] + d' + [x] + e'
    ensures a == a' && b == b' && c == c' && d == d' && e == e'
  {
    var t3, t3' := d + [x] + e, d' + [x] + e';
    var t2, t2' := c + [x] + t3, c' + [x] + t3';
    var t1, t1' := b + [x] + t2, b' + [x] + t2';
    assert a + [x] + t1 == a + [x] + b + [x] + c + [x] + d + [x] + e;
    assert a' + [x] + t1' == a' + [x] + b' + [x] + c' + [x] + d' + [x] + e';
    CutIsUnique(a, t1, a', t1', x);
    CutIsUnique(b, t2, b', t2', x);
    CutIsUnique(c, t3, c', t3', x);
    CutIsUnique(d, e, d', e', x);
  }

  lemma LineInjective(name: string, v: string, w: string)
    requires Line(name, v) == Line(name, w)
    ensures v == w
  {
    SamePrefix("\"" + name + "\": ", v, w);
  }

  /** Section 2.5 of RFC 9421: one signature base, one set of covered values. */
  lemma SignatureBaseUnambiguous(
      status: nat, ct: string, cd: string, sk: string, p: RootsSigParams,
      status': nat, ct': string, cd': string, sk': string, p': RootsSigParams)
    requires '\n' !in ct && '\n' !in cd && '\n' !in sk
    requires '\n' !in ct' && '\n' !in cd' && '\n' !in sk'
    ensures RootsSignatureBase(status, ct, cd, sk, p) == RootsSignatureBase(status', ct', cd', sk', p')
            <==> status == status' && ct == ct' && cd == cd' && sk == sk' && p == p'
  {
    if RootsSignatureBase(status, ct, cd, sk, p) == RootsSignatureBase(status', ct', cd', sk', p') {
      NumeralLacks(status, '\n');
      NumeralLacks(status', '\n');
      var v, v' := RootsSigParamsValue(p), RootsSigParamsValue(p');
      FiveLines(Line("@status", Numeral(status)), Line("content-type", ct), Line("content-digest", cd),
                Line("signature-key", sk), Line("@signature-params", v),
                Line("@status", Numeral(status')), Line("content-type", ct'), Line("content-digest", cd'),
                Line("signature-key", sk'), Line("@signature-params", v'), '\n');
      LineInjective("@status", Numeral(status), Numeral(status'));
      NumeralInjective(status, status');
      LineInjective("content-type", ct, ct');
      LineInjective("content-digest", cd, cd');
      LineInjective("signature-key", sk, sk');
      LineInjective("@signature-params", v, v');
      ParamsValueInjective(p, p');
    }
  }
}
