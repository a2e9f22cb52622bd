/**
 Request orchestration (ayane/src/service.rs, ayane/src/ca.rs): from an authenticated request to
 a plan, and from a plan to claims, a certificate and its inventory record.
 */
module Planning {
  import opened Basics
  import opened Certificates
  import opened Validity
  import opened Hooks
  import opened StorageContract
  import opened ClaimSpec
  import E = Extensions
  import Serial
  import Decimal

  // ----- Requests, after the libraries have parsed them -----

  datatype Csr = Csr(spki: Bytes, requestedSans: Result<seq<San>, Error>, fingerprint: string)

  datatype TokenScope = TokenScope(scope: string, exp: Option<int>)

  /** Token claims, with the subject and each SAN already classified. */
  datatype TokenClaims = TokenClaims(
    subject: string, subjectSan: San, sans: seq<San>, exp: int, renew: bool,
    csrBinding: Option<string>, once: Option<TokenScope>)

  datatype ValidatedToken = ValidatedToken(
    claims: TokenClaims, provisioner: string, template: Option<string>, authorized: bool, replayId: string)

  datatype SignRequest = SignRequest(
    csr: Result<Csr, Error>, token: Result<ValidatedToken, Error>,
    notBefore: Result<Option<Instant>, Error>, notAfter: Result<Option<Instant>, Error>)

  /** A proof whose signature, method and URI have been checked. */
  datatype Proof = Proof(jti: string, iat: int)

  /** Renewal carries no CSR; rekey carries the outcome of parsing one. */
  datatype ReissueRequest = ReissueRequest(
    certificate: Result<Certificate, Error>, proof: Option<Result<Proof, Error>>, newKey: Option<Result<Bytes, Error>>)

  datatype Template = Template(profile: E.Profile, setCommonName: bool, policy: ValidityPolicy)

  datatype Config = Config(templates: map<string, Template>, defaultTemplate: Option<string>, fallback: Template)

  /** The issuing CA: its key identifier and the DER library. */
  datatype Authority = Authority(der: Der, caKeyId: Bytes)

  // ----- Plans -----

  datatype Origin =
    | Fresh(template: Template, provisioner: string)
    | Again(parent: Certificate, commonNameOverride: Option<string>, rekey: bool)

  /** Everything the CA needs to make one certificate. */
  datatype Work = Work(
    origin: Origin, commonName: string, sans: seq<San>, spki: Bytes, window: Window,
    overrides: E.Overrides, renewable: bool, issuedAt: Instant)

  /** A request whose checks have all passed: what to claim, then what to issue. */
  datatype Plan = Plan(jtiKey: string, jtiExpiry: int, scopes: seq<OnceClaim>, work: Work)

  function ResolveTemplate(cfg: Config, name: Option<string>): Result<Template, Error> {
    var chosen := if name.Some? then name else cfg.defaultTemplate;
    if chosen.None? then Ok(cfg.fallback)
    else if chosen.value in cfg.templates then Ok(cfg.templates[chosen.value])
    else Err(Error.Config)
  }

  function AllowedSans(claims: TokenClaims): seq<San> {
    if claims.sans == [] then [claims.subjectSan] else claims.sans
  }

  /** For an authorizing provisioner: the permitted set when none are requested, and nothing outside it. */
  function EffectiveSans(requested: seq<San>, token: ValidatedToken): Result<seq<San>, Error> {
    if !token.authorized then Ok(requested)
    else
      var allowed := AllowedSans(token.claims);
      var sans := if requested == [] then allowed else requested;
      if forall san :: san in sans ==> san in allowed then Ok(sans) else Err(Forbidden)
  }

  function Epoch(seconds: int): int {
    if seconds >= 0 then seconds else 0
  }

  function SignContext(token: ValidatedToken, sans: seq<San>, window: Window): Context {
    Context(token.authorized, Some(token.provisioner), sans, window, token.claims.renew)
  }

  function OverridesOf(c: Customization): E.Overrides {
    E.Overrides(c.keyUsage, c.extKeyUsage, c.additionalExtensions)
  }

  /** Hook scopes, then the scope the token carries. */
  function SignScopes(token: ValidatedToken, custom: Customization): seq<OnceClaim>
    requires forall exp :: token.claims.once.Some? && token.claims.once.value.exp == Some(exp) ==> Epoch(exp) <= MAX_INSTANT
  {
    match token.claims.once
    case None => custom.onceClaims
    case Some(once) =>
      custom.onceClaims
      + [OnceClaim("prov:" + token.provisioner, once.scope, if once.exp.Some? then Some(Epoch(once.exp.value)) else None)]
  }

  /** Token times are 64-bit numbers. */
  predicate TokenInRange(token: ValidatedToken) {
    token.claims.exp <= MAX_INSTANT
    && (token.claims.once.Some? && token.claims.once.value.exp.Some? ==> token.claims.once.value.exp.value <= MAX_INSTANT)
  }

  /** Every check of a signing request up to, not including, the claims. */
  function PlanSign(cfg: Config, req: SignRequest, hooks: seq<Hook>, now: Instant): Result<Plan, Error>
    requires req.token.Ok? ==> TokenInRange(req.token.value)
  {
    if req.csr.Err? then Err(req.csr.error)
    else if req.token.Err? then Err(req.token.error)
    else
      var csr, token := req.csr.value, req.token.value;
      if token.claims.csrBinding.Some? && token.claims.csrBinding.value != csr.fingerprint then Err(Forbidden)
      else if csr.requestedSans.Err? then Err(csr.requestedSans.error)
      else match EffectiveSans(csr.requestedSans.value, token)
        case Err(e) => Err(e)
        case Ok(sans) =>
          match ResolveTemplate(cfg, token.template)
          case Err(e) => Err(e)
          case Ok(template) =>
            if req.notBefore.Err? then Err(req.notBefore.error)
            else if req.notAfter.Err? then Err(req.notAfter.error)
            else match ComputeValidity(template.policy, now, req.notBefore.value, req.notAfter.value)
              case Err(e) => Err(e)
              case Ok(window) => PlanHooked(template, token, csr.spki, now, Outcome(hooks, SignContext(token, sans, window)))
  }

  function PlanHooked(template: Template, token: ValidatedToken, spki: Bytes, now: Instant, outcome: Result<Customization, Error>)
    : Result<Plan, Error>
    requires TokenInRange(token)
  {
    match outcome
    case Err(e) => Err(e)
    case Ok(custom) =>
      match SignWindow(template.policy, custom.window)
      case Err(e) => Err(e)
      case Ok(window) =>
        Ok(Plan(JtiKey("ott", token.replayId), Epoch(token.claims.exp) + REPLAY_LEEWAY, SignScopes(token, custom),
                Work(Fresh(template, token.provisioner), custom.subjectCommonName.UnwrapOr(token.claims.subject), custom.sans,
                     spki, window, OverridesOf(custom), custom.renewable, now)))
  }

  function CertWindow(cert: Certificate): Window {
    Window(cert.notBefore, cert.notAfter)
  }

  function SerialNumber(cert: Certificate): string {
    Decimal.Numeral(Serial.Magnitude(cert.serial))
  }

  function ReissueContext(sans: seq<San>, window: Window): Context {
    Context(true, None, sans, window, true)
  }

  /** Every check of a renewal after the revocation lookup, up to the claims. */
  function PlanReissue(ca: Authority, cert: Certificate, proof: Result<Proof, Error>, newKey: Option<Result<Bytes, Error>>,
                       hooks: seq<Hook>, now: Moment): Result<Plan, Error>
  {
    var parent := CertWindow(cert);
    if IsMarkedNonRenewable(cert) then Err(Forbidden)
    else if now >= cert.notAfter then Err(Forbidden)
    else if proof.Err? then Err(proof.error)
    else match DpopIssuedAt(proof.value.iat, now)
      case Err(e) => Err(e)
      case Ok(issuedAt) =>
        if newKey.Some? && newKey.value.Err? then Err(newKey.value.error)
        else match E.CertSans(ca.der, cert.extensions)
          case None => Err(Internal)
          case Some(sans) =>
            match ReissueBaseline(now, parent)
            case Err(e) => Err(e)
            case Ok(baseline) =>
              var spki := if newKey.Some? then newKey.value.value else cert.spki;
              PlanReissued(cert, baseline, proof.value.jti, issuedAt, spki, newKey.Some?, now,
                           Outcome(hooks, ReissueContext(sans, baseline)))
  }

  function PlanReissued(cert: Certificate, baseline: Window, jti: string, issuedAt: nat, spki: Bytes, rekey: bool,
                        now: Instant, outcome: Result<Customization, Error>): Result<Plan, Error>
  {
    match outcome
    case Err(e) => Err(e)
    case Ok(custom) =>
      match ReissueWindow(baseline, custom.window)
      case Err(e) => Err(e)
      case Ok(window) =>
        Ok(Plan(JtiKey("dpop", jti), issuedAt + DPOP_MAX_AGE + REPLAY_LEEWAY, custom.onceClaims,
                Work(Again(cert, custom.subjectCommonName, rekey),
                     custom.subjectCommonName.UnwrapOr(cert.subject.UnwrapOr("")), custom.sans,
                     spki, window, OverridesOf(custom), custom.renewable, now)))
  }

  // ----- Certificates and records -----

  /** 19 bytes, positive, with a non-zero leading byte. */
  predicate GoodSerial(serial: Bytes) {
    |serial| == 19 && 0x40 <= serial[0] <= 0x7f
  }

  function SubjectOf(w: Work): Subject {
    match w.origin
    case Fresh(template, _) => NameWithCommonName(if template.setCommonName then w.commonName else "")
    case Again(parent, Some(cn), _) => NameWithCommonName(cn)
    case Again(parent, None, _) => parent.subject
  }

  function ExtensionsOf(ca: Authority, w: Work): seq<Extension>
    requires E.SansEncodable(ca.der, w.sans)
  {
    match w.origin
    case Fresh(template, _) =>
      E.IssuedExtensions(ca.der, template.profile, w.spki, w.sans, ca.caKeyId, SubjectOf(w).None?, w.overrides, w.renewable)
    case Again(parent, _, _) =>
      E.ReissuedExtensions(ca.der, parent.extensions, w.spki, w.sans, ca.caKeyId, SubjectOf(w).None?, w.overrides, w.renewable)
  }

  /** The certificate this work yields under a given serial; none when a SAN or a validity time cannot be encoded. */
  function Certify(ca: Authority, w: Work, serial: Bytes): Option<Certificate> {
    if !E.SansEncodable(ca.der, w.sans) || !w.window.Encodable() then None
    else Some(Certificate(serial, SubjectOf(w), w.window.notBefore, w.window.notAfter, w.spki, ExtensionsOf(ca, w)))
  }

  function RecordOf(w: Work, cert: Certificate): CertificateRecord {
    CertificateRecord(
      SerialNumber(cert), w.commonName, w.sans, w.window.notBefore, w.window.notAfter, w.issuedAt,
      if w.origin.Fresh? then Some(w.origin.provisioner) else None,
      if w.origin.Fresh? then "sign" else if w.origin.rekey then "rekey" else "renew",
      w.renewable, cert)
  }

  // ----- What a plan guarantees -----

  /** An authorizing token bounds the names: unless a hook changes them, all are permitted by the token. */
  lemma SignedSansPermitted(cfg: Config, req: SignRequest, hooks: seq<Hook>, now: Instant)
    requires req.token.Ok? && TokenInRange(req.token.value) && req.token.value.authorized
    requires PlanSign(cfg, req, hooks, now).Ok?
    requires forall h :: h in Applicable(hooks, Some(req.token.value.provisioner)) && h.reply.Ok?
               ==> h.reply.value.sans.None? && h.reply.value.additionalSans == []
    ensures forall san :: san in PlanSign(cfg, req, hooks, now).value.work.sans ==> san in AllowedSans(req.token.value.claims)
    ensures PlanSign(cfg, req, hooks, now).value.work.sans != []
  {
    var token := req.token.value;
    var sans := EffectiveSans(req.csr.value.requestedSans.value, token).value;
    var template := ResolveTemplate(cfg, token.template).value;
    var window := ComputeValidity(template.policy, now, req.notBefore.value, req.notAfter.value).value;
    var ctx := SignContext(token, sans, window);
    var hs := Applicable(hooks, ctx.provisioner);
    LayersSans(ctx, hs);
    NoSanChange(hs);
  }

  lemma {:induction false} NoSanChange(hs: seq<Hook>)
    requires forall h :: h in hs && h.reply.Ok? ==> h.reply.value.sans.None? && h.reply.value.additionalSans == []
    ensures LastOverride(hs, SansOf).None? && LaterAdditions(hs) == []
  {
    if hs != [] {
      var front := hs[..|hs| - 1];
      assert hs[|hs| - 1] in hs && forall h :: h in front ==> h in hs;
      NoSanChange(front);
    }
  }

  /** An unauthorized token gets a certificate only when a hook grants it. */
  lemma UnauthorizedNeedsGrant(cfg: Config, req: SignRequest, hooks: seq<Hook>, now: Instant)
    requires req.token.Ok? && TokenInRange(req.token.value) && !req.token.value.authorized
    requires PlanSign(cfg, req, hooks, now).Ok?
    ensures exists h :: h in hooks && h.AppliesTo(Some(req.token.value.provisioner)) && Grants(h)
  {
    var hs := Applicable(hooks, Some(req.token.value.provisioner));
    var h :| h in hs && Grants(h);
    ApplicableMember(hooks, Some(req.token.value.provisioner), h);
  }

  /** A planned fresh certificate is bounded by its template and by the token's own renewability. */
  lemma SignPlanBounded(cfg: Config, req: SignRequest, hooks: seq<Hook>, now: Instant)
    requires req.token.Ok? && TokenInRange(req.token.value) && PlanSign(cfg, req, hooks, now).Ok?
    ensures
      var w := PlanSign(cfg, req, hooks, now).value.work;
      && w.origin.Fresh? && 0 < w.window.Span() <= w.origin.template.policy.Ceiling()
      && (w.renewable ==> req.token.value.claims.renew)
  {
    var token := req.token.value;
    var sans := EffectiveSans(req.csr.value.requestedSans.value, token).value;
    var template := ResolveTemplate(cfg, token.template).value;
    var window := ComputeValidity(template.policy, now, req.notBefore.value, req.notAfter.value).value;
    var ctx := SignContext(token, sans, window);
    LayersLatch(ctx, Applicable(hooks, ctx.provisioner));
    SignedWindowBounded(template.policy, Outcome(hooks, ctx).value.window);
  }

  /** A planned reissue descends from a live, renewable certificate and does not outlive its span. */
  lemma ReissuePlanBounded(ca: Authority, cert: Certificate, proof: Result<Proof, Error>, newKey: Option<Result<Bytes, Error>>,
                           hooks: seq<Hook>, now: Moment)
    requires PlanReissue(ca, cert, proof, newKey, hooks, now).Ok?
    ensures
      var w := PlanReissue(ca, cert, proof, newKey, hooks, now).value.work;
      var parent := CertWindow(cert);
      && w.origin.Again? && w.origin.parent == cert && w.issuedAt == now
      && !IsMarkedNonRenewable(cert) && now < cert.notAfter
      && 0 < w.window.Span()
      && w.window.notAfter <= now + Duration(parent)
      && (w.window.notBefore >= now ==> w.window.Span() <= Duration(parent))
    ensures PlanReissue(ca, cert, proof, newKey, hooks, now).value.jtiExpiry >= now + REPLAY_LEEWAY
  {
  }

  /** Without hooks a reissue changes the key and the window only. */
  lemma HooklessPlan(ca: Authority, cert: Certificate, proof: Result<Proof, Error>, newKey: Option<Result<Bytes, Error>>, now: Moment)
    requires PlanReissue(ca, cert, proof, newKey, [], now).Ok?
    ensures
      var w := PlanReissue(ca, cert, proof, newKey, [], now).value.work;
      && w.origin == Again(cert, None, newKey.Some?) && SubjectOf(w) == cert.subject
      && w.spki == (if newKey.Some? && newKey.value.Ok? then newKey.value.value else cert.spki)
      && E.CertSans(ca.der, cert.extensions) == Some(w.sans)
      && w.window == Window(now, now + Duration(CertWindow(cert)))
      && w.overrides == E.NO_OVERRIDES && w.renewable
      && PlanReissue(ca, cert, proof, newKey, [], now).value.scopes == []
  {
  }

  // ----- Plans in the words of the request -----

  /** Seconds since the epoch, never before it. */
  function AtLeastZero(seconds: int): nat {
    if seconds < 0 then 0 else seconds
  }

  /** The template a token names, else the default, else the built-in one. */
  ghost predicate IsTemplate(cfg: Config, name: Option<string>, template: Template) {
    match (name, cfg.defaultTemplate)
    case (Some(n), _) => n in cfg.templates && template == cfg.templates[n]
    case (None, Some(d)) => d in cfg.templates && template == cfg.templates[d]
    case (None, None) => template == cfg.fallback
  }

  ghost predicate PermittedBy(claims: TokenClaims, san: San) {
    if claims.sans == [] then san == claims.subjectSan else san in claims.sans
  }

  /** The names put to the hooks: those requested, or all the token permits when none are; nothing else from an authorizing token. */
  ghost predicate NamesToAsk(requested: seq<San>, token: ValidatedToken, sans: seq<San>) {
    if !token.authorized then sans == requested
    else
      && (forall san :: san in sans ==> PermittedBy(token.claims, san))
      && (requested != [] ==> sans == requested)
      && (requested == [] ==> sans == if token.claims.sans == [] then [token.claims.subjectSan] else token.claims.sans)
  }

  /** The window put to the hooks, in the policy's own seconds. */
  ghost predicate WindowToAsk(p: ValidityPolicy, now: Instant, wantBefore: Option<Instant>, wantAfter: Option<Instant>, w: Window) {
    var base := match wantBefore case Some(t) => t case None => now;
    var length := match wantAfter case Some(t) => t - w.notBefore case None => p.defaultValidity + p.backdate;
    && w.notBefore == (if base - p.backdate < MIN_INSTANT then base else base - p.backdate)
    && length >= p.minValidity && length >= 0
    && w.notAfter - w.notBefore == (if length <= p.maxValidity + p.backdate then length else p.maxValidity + p.backdate)
  }

  /** The customized window, cut at a ceiling, and not empty. */
  ghost predicate CutAt(w: Window, custom: Window, ceiling: int) {
    && w.notBefore == custom.notBefore && w.notBefore < w.notAfter
    && w.notAfter == if custom.notAfter <= ceiling then custom.notAfter else ceiling
  }

  /** The token's own scope, if it carries one, under its provisioner's name. */
  ghost predicate TokenScopes(token: ValidatedToken, scopes: seq<OnceClaim>) {
    match token.claims.once
    case None => scopes == []
    case Some(once) =>
      && |scopes| == 1 && scopes[0].namespace == "prov:" + token.provisioner && scopes[0].value == once.scope
      && match once.exp
         case None => scopes[0].expiresAt.None?
         case Some(e) => scopes[0].expiresAt.Some? && scopes[0].expiresAt.value == AtLeastZero(e)
  }

  lemma NamesAreAsked(requested: seq<San>, token: ValidatedToken)
    ensures EffectiveSans(requested, token).Err? <==> OutsideToken(requested, token)
    ensures EffectiveSans(requested, token).Err? ==> EffectiveSans(requested, token) == Err(Forbidden)
    ensures EffectiveSans(requested, token).Ok? ==> NamesToAsk(requested, token, EffectiveSans(requested, token).value)
  {
    forall san ensures PermittedBy(token.claims, san) <==> san in AllowedSans(token.claims) {
    }
  }

  lemma TemplateIsNamed(cfg: Config, name: Option<string>)
    ensures ResolveTemplate(cfg, name).Ok? ==> IsTemplate(cfg, name, ResolveTemplate(cfg, name).value)
    ensures ResolveTemplate(cfg, name).Ok? ==> forall t :: IsTemplate(cfg, name, t) <==> t == ResolveTemplate(cfg, name).value
    ensures ResolveTemplate(cfg, name).Err? ==> ResolveTemplate(cfg, name) == Err(Error.Config) && forall t :: !IsTemplate(cfg, name, t)
  {
  }

  /** The window is granted exactly as asked for; too short a one is a bad request, one past the end of time an internal error. */
  lemma ValidityToAsk(p: ValidityPolicy, now: Instant, wantBefore: Option<Instant>, wantAfter: Option<Instant>, w: Window)
    ensures ComputeValidity(p, now, wantBefore, wantAfter) == Ok(w) <==> WindowToAsk(p, now, wantBefore, wantAfter, w)
    ensures
      var r := ComputeValidity(p, now, wantBefore, wantAfter);
      var base := match wantBefore case Some(t) => t case None => now;
      var start := if base - p.backdate < MIN_INSTANT then base else base - p.backdate;
      var length := match wantAfter case Some(t) => t - start case None => p.defaultValidity + p.backdate;
      && (length < 0 || length < p.minValidity <==> r == Err(BadRequest))
      && (r.Err? ==> r == Err(BadRequest) || r == Err(Internal))
  {
  }

  /** A token's credential claim: its replay id, until a minute past its expiry. */
  ghost predicate TokenClaim(token: ValidatedToken, key: string, expiry: int) {
    key == "ott#" + token.replayId && expiry == AtLeastZero(token.claims.exp) + 60
  }

  /** A proof's credential claim: its jti, until six minutes past its issuance. */
  ghost predicate ProofClaim(proof: Proof, key: string, expiry: int) {
    key == "dpop#" + proof.jti && expiry == AtLeastZero(proof.iat) + 360
  }

  /** No older than five minutes, no more than one minute ahead. */
  ghost predicate ProofFresh(proof: Proof, now: int) {
    AtLeastZero(proof.iat) <= now + 60 && now <= AtLeastZero(proof.iat) + 300
  }

  lemma KeyTexts(id: string)
    ensures JtiKey("ott", id) == "ott#" + id && JtiKey("dpop", id) == "dpop#" + id
  {
    assert "ott" + "#" == "ott#" && "dpop" + "#" == "dpop#";
  }

  lemma FreshProof(proof: Proof, now: nat)
    ensures DpopIssuedAt(proof.iat, now).Ok? <==> ProofFresh(proof, now)
    ensures DpopIssuedAt(proof.iat, now) == if ProofFresh(proof, now) then Ok(AtLeastZero(proof.iat)) else Err(Unauthorized)
  {
  }

  /** The parts of a work order a customization decides. */
  ghost predicate Carries(w: Work, c: Customization, subject: string) {
    && w.sans == c.sans && w.renewable == c.renewable
    && w.commonName == (if c.subjectCommonName.Some? then c.subjectCommonName.value else subject)
    && w.overrides.keyUsage == c.keyUsage && w.overrides.extKeyUsage == c.extKeyUsage
    && w.overrides.additional == c.additionalExtensions
  }

  /** What a signing plan is made of: the token's claim, the CSR's key, and what the hooks made of the request. */
  lemma SignPlanMeans(cfg: Config, req: SignRequest, hooks: seq<Hook>, now: Instant)
    returns (sans: seq<San>, window: Window, c: Customization, own: seq<OnceClaim>)
    requires req.token.Ok? ==> TokenInRange(req.token.value)
    requires PlanSign(cfg, req, hooks, now).Ok?
    ensures req.csr.Ok? && req.token.Ok? && req.csr.value.requestedSans.Ok? && req.notBefore.Ok? && req.notAfter.Ok?
    ensures
      var csr, token := req.csr.value, req.token.value;
      var plan := PlanSign(cfg, req, hooks, now).value;
      && (token.claims.csrBinding.Some? ==> token.claims.csrBinding.value == csr.fingerprint)
      && TokenClaim(token, plan.jtiKey, plan.jtiExpiry)
      && plan.work.spki == csr.spki && plan.work.issuedAt == now
      && plan.work.origin.Fresh? && plan.work.origin.provisioner == token.provisioner
      && IsTemplate(cfg, token.template, plan.work.origin.template)
      && NamesToAsk(csr.requestedSans.value, token, sans)
      && WindowToAsk(plan.work.origin.template.policy, now, req.notBefore.value, req.notAfter.value, window)
      && Heeds(hooks, Context(token.authorized, Some(token.provisioner), sans, window, token.claims.renew), c)
      && Carries(plan.work, c, token.claims.subject)
      && var policy := plan.work.origin.template.policy;
      && CutAt(plan.work.window, c.window, c.window.notBefore + policy.maxValidity + policy.backdate)
      && TokenScopes(token, own) && plan.scopes == c.onceClaims + own
  {
    var csr, token := req.csr.value, req.token.value;
    sans := EffectiveSans(csr.requestedSans.value, token).value;
    NamesAreAsked(csr.requestedSans.value, token);
    var template := ResolveTemplate(cfg, token.template).value;
    TemplateIsNamed(cfg, token.template);
    window := ComputeValidity(template.policy, now, req.notBefore.value, req.notAfter.value).value;
    ValidityToAsk(template.policy, now, req.notBefore.value, req.notAfter.value, window);
    var outcome := Outcome(hooks, SignContext(token, sans, window));
    OutcomeHeeds(hooks, SignContext(token, sans, window));
    c, own := HookedPlanMeans(template, token, csr.spki, now, outcome);
  }

  /** The same for the part of a signing plan that follows the hooks. */
  lemma HookedPlanMeans(template: Template, token: ValidatedToken, spki: Bytes, now: Instant, outcome: Result<Customization, Error>)
    returns (c: Customization, own: seq<OnceClaim>)
    requires TokenInRange(token) && PlanHooked(template, token, spki, now, outcome).Ok?
    ensures outcome == Ok(c)
    ensures
      var plan := PlanHooked(template, token, spki, now, outcome).value;
      && TokenClaim(token, plan.jtiKey, plan.jtiExpiry)
      && plan.work.spki == spki && plan.work.issuedAt == now
      && plan.work.origin.Fresh? && plan.work.origin.provisioner == token.provisioner && plan.work.origin.template == template
      && Carries(plan.work, c, token.claims.subject)
      && CutAt(plan.work.window, c.window, c.window.notBefore + template.policy.maxValidity + template.policy.backdate)
      && TokenScopes(token, own) && plan.scopes == c.onceClaims + own
  {
    c := outcome.value;
    KeyTexts(token.replayId);
    own := SignScopes(token, c.(onceClaims := []));
    assert c.onceClaims + [] == c.onceClaims && [] + own == own;
  }

  /** How a signing request is refused before the hooks: the first check that fails decides. */
  lemma SignRefused(cfg: Config, req: SignRequest, hooks: seq<Hook>, now: Instant)
    requires req.token.Ok? ==> TokenInRange(req.token.value)
    ensures req.csr.Err? ==> PlanSign(cfg, req, hooks, now) == Err(req.csr.error)
    ensures req.csr.Ok? && req.token.Err? ==> PlanSign(cfg, req, hooks, now) == Err(req.token.error)
    ensures req.csr.Ok? && req.token.Ok? ==>
              var csr, token, plan := req.csr.value, req.token.value, PlanSign(cfg, req, hooks, now);
              && (BoundElsewhere(csr, token) ==> plan == Err(Forbidden))
              && (!BoundElsewhere(csr, token) && csr.requestedSans.Err? ==> plan == Err(csr.requestedSans.error))
              && (!BoundElsewhere(csr, token) && csr.requestedSans.Ok? ==>
                    && (OutsideToken(csr.requestedSans.value, token) ==> plan == Err(Forbidden))
                    && (!OutsideToken(csr.requestedSans.value, token) ==>
                          && ((forall t :: !IsTemplate(cfg, token.template, t)) ==> plan == Err(Error.Config))
                          && forall t :: IsTemplate(cfg, token.template, t) ==>
                               && (req.notBefore.Err? ==> plan == Err(req.notBefore.error))
                               && (req.notBefore.Ok? && req.notAfter.Err? ==> plan == Err(req.notAfter.error))))
  {
    if req.csr.Ok? && req.token.Ok? && req.csr.value.requestedSans.Ok? {
      NamesAreAsked(req.csr.value.requestedSans.value, req.token.value);
      TemplateIsNamed(cfg, req.token.value.template);
    }
  }

  /** The token is bound to another CSR. */
  ghost predicate BoundElsewhere(csr: Csr, token: ValidatedToken) {
    exists b :: token.claims.csrBinding == Some(b) && b != csr.fingerprint
  }

  /** An authorizing token does not permit a requested name. */
  ghost predicate OutsideToken(requested: seq<San>, token: ValidatedToken) {
    token.authorized && exists san :: san in requested && !PermittedBy(token.claims, san)
  }

  /** A request that passes every check before the window and the hooks. */
  ghost predicate Admissible(cfg: Config, req: SignRequest, template: Template) {
    && req.csr.Ok? && req.token.Ok? && TokenInRange(req.token.value) && req.csr.value.requestedSans.Ok?
    && req.notBefore.Ok? && req.notAfter.Ok?
    && !BoundElsewhere(req.csr.value, req.token.value) && !OutsideToken(req.csr.value.requestedSans.value, req.token.value)
    && IsTemplate(cfg, req.token.value.template, template)
  }

  /** What the hooks are shown of an admissible signing request. */
  ghost predicate Shown(req: SignRequest, template: Template, now: Instant, ctx: Context)
    requires req.csr.Ok? && req.token.Ok? && req.csr.value.requestedSans.Ok? && req.notBefore.Ok? && req.notAfter.Ok?
  {
    var token := req.token.value;
    && ctx.authorized == token.authorized && ctx.provisioner == Some(token.provisioner) && ctx.renewable == token.claims.renew
    && NamesToAsk(req.csr.value.requestedSans.value, token, ctx.sans)
    && WindowToAsk(template.policy, now, req.notBefore.value, req.notAfter.value, ctx.window)
  }

  /**
   Past those checks the hooks decide: the first to refuse gives its error; an unauthorized token nobody
   grants is Forbidden; otherwise the plan stands exactly if the window, cut at the ceiling, is not empty.
   */
  lemma SignHookRefusal(cfg: Config, req: SignRequest, hooks: seq<Hook>, now: Instant, template: Template, ctx: Context, i: nat, e: Error)
    requires Admissible(cfg, req, template) && Shown(req, template, now, ctx)
    ensures
      var plan := PlanSign(cfg, req, hooks, now);
      && (FirstRefusal(hooks, ctx.provisioner, i, e) ==> plan == Err(e))
      && (AllAgree(hooks, ctx.provisioner) && !ctx.authorized && !SomeoneGrants(hooks, ctx.provisioner) ==> plan == Err(Forbidden))
    ensures AllAgree(hooks, ctx.provisioner) && (ctx.authorized || SomeoneGrants(hooks, ctx.provisioner)) ==>
              forall w :: FinalWindow(hooks, ctx, w) ==>
                if w.notBefore < w.notAfter && 0 < template.policy.maxValidity + template.policy.backdate
                then PlanSign(cfg, req, hooks, now).Ok? else PlanSign(cfg, req, hooks, now) == Err(Forbidden)
  {
    ShownToHooks(cfg, req, hooks, now, template, ctx);
    OutcomeRefused(hooks, ctx, i, e);
    OutcomeDecided(hooks, ctx);
    if Outcome(hooks, ctx).Ok? {
      forall w | FinalWindow(hooks, ctx, w)
        ensures if w.notBefore < w.notAfter && 0 < template.policy.maxValidity + template.policy.backdate
                then PlanSign(cfg, req, hooks, now).Ok? else PlanSign(cfg, req, hooks, now) == Err(Forbidden)
      {
        OutcomeWindow(hooks, ctx, w);
      }
    }
  }

  /** The plan is made of exactly what the hooks make of what they are shown. */
  lemma ShownToHooks(cfg: Config, req: SignRequest, hooks: seq<Hook>, now: Instant, template: Template, ctx: Context)
    requires Admissible(cfg, req, template) && Shown(req, template, now, ctx)
    ensures PlanSign(cfg, req, hooks, now)
            == PlanHooked(template, req.token.value, req.csr.value.spki, now, Outcome(hooks, ctx))
  {
    var token := req.token.value;
    NamesAreAsked(req.csr.value.requestedSans.value, token);
    TemplateIsNamed(cfg, token.template);
    ValidityToAsk(template.policy, now, req.notBefore.value, req.notAfter.value, ctx.window);
    var sans := EffectiveSans(req.csr.value.requestedSans.value, token).value;
    assert ctx == SignContext(token, sans, ctx.window);
  }

  /** A request for which no window can be granted is a bad request, or past the end of time. */
  lemma SignWindowRefused(cfg: Config, req: SignRequest, hooks: seq<Hook>, now: Instant, template: Template)
    requires Admissible(cfg, req, template)
    requires forall w :: !WindowToAsk(template.policy, now, req.notBefore.value, req.notAfter.value, w)
    ensures PlanSign(cfg, req, hooks, now) == Err(BadRequest) || PlanSign(cfg, req, hooks, now) == Err(Internal)
  {
    NamesAreAsked(req.csr.value.requestedSans.value, req.token.value);
    TemplateIsNamed(cfg, req.token.value.template);
    var granted := ComputeValidity(template.policy, now, req.notBefore.value, req.notAfter.value);
    if granted.Ok? {
      ValidityToAsk(template.policy, now, req.notBefore.value, req.notAfter.value, granted.value);
      assert false;
    }
    ValidityToAsk(template.policy, now, req.notBefore.value, req.notAfter.value, Window(0, 0));
  }

  /** The marker is absent, or says TRUE. */
  ghost predicate MayRenew(cert: Certificate) {
    match Lookup(cert.extensions, NonRenewableOid)
    case None => true
    case Some(ext) => ext.value == [1, 1, 255]
  }

  ghost predicate KeyOf(cert: Certificate, newKey: Option<Result<Bytes, Error>>, spki: Bytes) {
    match newKey
    case None => spki == cert.spki
    case Some(k) => k == Ok(spki)
  }

  /** How long a certificate was valid, nothing if its window is inverted. */
  function SpanOf(cert: Certificate): nat {
    if cert.notAfter < cert.notBefore then 0 else cert.notAfter - cert.notBefore
  }

  /** What a renewal plan is made of: the proof's claim, the parent, and what the hooks for all provisioners made of it. */
  lemma ReissuePlanMeans(ca: Authority, cert: Certificate, proof: Result<Proof, Error>, newKey: Option<Result<Bytes, Error>>,
                         hooks: seq<Hook>, now: Moment)
    returns (sans: seq<San>, c: Customization)
    requires PlanReissue(ca, cert, proof, newKey, hooks, now).Ok?
    ensures MayRenew(cert) && now < cert.notAfter && proof.Ok? && ProofFresh(proof.value, now)
    ensures forall h :: h in hooks && h.provisioners == [] ==> Agrees(h)
    ensures
      var plan := PlanReissue(ca, cert, proof, newKey, hooks, now).value;
      && ProofClaim(proof.value, plan.jtiKey, plan.jtiExpiry)
      && plan.work.origin == Again(cert, c.subjectCommonName, newKey.Some?)
      && KeyOf(cert, newKey, plan.work.spki) && plan.work.issuedAt == now
      && E.CertSans(ca.der, cert.extensions) == Some(sans)
      && now + SpanOf(cert) <= MAX_INSTANT
      && Heeds(hooks, Context(true, None, sans, Window(now, now + SpanOf(cert)), true), c)
      && Carries(plan.work, c, if cert.subject.Some? then cert.subject.value else "")
      && CutAt(plan.work.window, c.window, now + SpanOf(cert))
      && plan.scopes == c.onceClaims
  {
    sans := E.CertSans(ca.der, cert.extensions).value;
    var baseline := ReissueBaseline(now, CertWindow(cert)).value;
    var outcome := Outcome(hooks, ReissueContext(sans, baseline));
    OutcomeHeeds(hooks, ReissueContext(sans, baseline));
    FreshProof(proof.value, now);
    var spki := if newKey.Some? then newKey.value.value else cert.spki;
    c := HookedReissueMeans(cert, baseline, proof.value, spki, newKey.Some?, now, outcome);
    forall h | h in hooks && h.provisioners == [] ensures Agrees(h) {
      assert Asked(h, None);
    }
  }

  /** The same for the part of a renewal plan that follows the hooks. */
  lemma HookedReissueMeans(cert: Certificate, baseline: Window, proof: Proof, spki: Bytes, rekey: bool, now: Instant,
                           outcome: Result<Customization, Error>)
    returns (c: Customization)
    requires PlanReissued(cert, baseline, proof.jti, AtLeastZero(proof.iat), spki, rekey, now, outcome).Ok?
    ensures outcome == Ok(c)
    ensures
      var plan := PlanReissued(cert, baseline, proof.jti, AtLeastZero(proof.iat), spki, rekey, now, outcome).value;
      && ProofClaim(proof, plan.jtiKey, plan.jtiExpiry)
      && plan.work.origin == Again(cert, c.subjectCommonName, rekey) && plan.work.spki == spki && plan.work.issuedAt == now
      && Carries(plan.work, c, if cert.subject.Some? then cert.subject.value else "")
      && CutAt(plan.work.window, c.window, baseline.notAfter)
      && plan.scopes == c.onceClaims
  {
    c := outcome.value;
    KeyTexts(proof.jti);
  }

  /** How a renewal is refused: the first check that fails decides, the hooks' first refusal after all others. */
  lemma ReissueRefused(ca: Authority, cert: Certificate, proof: Result<Proof, Error>, newKey: Option<Result<Bytes, Error>>,
                       hooks: seq<Hook>, now: Moment, i: nat, e: Error)
    ensures
      var plan := PlanReissue(ca, cert, proof, newKey, hooks, now);
      && (!MayRenew(cert) ==> plan == Err(Forbidden))
      && (MayRenew(cert) && cert.notAfter <= now ==> plan == Err(Forbidden))
      && (MayRenew(cert) && now < cert.notAfter ==>
            && (proof.Err? ==> plan == Err(proof.error))
            && (proof.Ok? && !ProofFresh(proof.value, now) ==> plan == Err(Unauthorized))
            && (proof.Ok? && ProofFresh(proof.value, now) ==>
                  && (newKey.Some? && newKey.value.Err? ==> plan == Err(newKey.value.error))
                  && ((newKey.None? || newKey.value.Ok?) ==>
                        && (E.CertSans(ca.der, cert.extensions).None? ==> plan == Err(Internal))
                        && (E.CertSans(ca.der, cert.extensions).Some? ==>
                              && (now + SpanOf(cert) > MAX_INSTANT ==> plan == Err(Internal))
                              && (now + SpanOf(cert) <= MAX_INSTANT && FirstRefusal(hooks, None, i, e) ==> plan == Err(e))))))
  {
    if proof.Ok? { FreshProof(proof.value, now); }
    if E.CertSans(ca.der, cert.extensions).Some? && ReissueBaseline(now, CertWindow(cert)).Ok? {
      var ctx := ReissueContext(E.CertSans(ca.der, cert.extensions).value, ReissueBaseline(now, CertWindow(cert)).value);
      OutcomeRefused(hooks, ctx, i, e);
    }
  }

  /**
   Past its own checks a renewal is allowed by default: unless a hook for all provisioners refuses, it is
   planned exactly if the window the hooks put, cut at the parent's span, is not empty.
   */
  lemma ReissueAllowed(ca: Authority, cert: Certificate, proof: Result<Proof, Error>, newKey: Option<Result<Bytes, Error>>,
                       hooks: seq<Hook>, now: Moment, sans: seq<San>, w: Window)
    requires MayRenew(cert) && now < cert.notAfter && proof.Ok? && ProofFresh(proof.value, now)
    requires newKey.None? || newKey.value.Ok?
    requires E.CertSans(ca.der, cert.extensions) == Some(sans) && now + SpanOf(cert) <= MAX_INSTANT
    requires AllAgree(hooks, None) && FinalWindow(hooks, Context(true, None, sans, Window(now, now + SpanOf(cert)), true), w)
    ensures
      var plan := PlanReissue(ca, cert, proof, newKey, hooks, now);
      if w.notBefore < w.notAfter && w.notBefore < now + SpanOf(cert) then plan.Ok? else plan == Err(Forbidden)
  {
    FreshProof(proof.value, now);
    var ctx := ReissueContext(sans, ReissueBaseline(now, CertWindow(cert)).value);
    OutcomeDecided(hooks, ctx);
    OutcomeWindow(hooks, ctx, w);
  }

  /** A serial number is 151 bits long: positive, and never short. */
  lemma SerialLength(serial: Bytes)
    ensures GoodSerial(serial) <==>
              |serial| == 19 && var unit := Power256(|serial| - 1); 64 * unit <= Serial.Magnitude(serial) < 128 * unit
  {
    if |serial| == 19 {
      LeadingByte(serial);
      TopBits(serial[0] as nat, Power256(|serial| - 1), Serial.Magnitude(serial));
    }
  }

  lemma TopBits(b: nat, unit: nat, m: nat)
    requires 0 < unit && b * unit <= m < (b + 1) * unit
    ensures 64 * unit <= m < 128 * unit <==> 64 <= b < 128
  {
    InUnits(b, unit, m, 64);
    InUnits(b, unit, m, 128);
  }

  function Power256(n: nat): (p: nat)
    ensures 0 < p
  {
    if n == 0 then 1 else 256 * Power256(n - 1)
  }

  /** A number from `b` to `b + 1` units is below `k` units exactly when `b` is below `k`. */
  lemma InUnits(b: nat, unit: nat, m: nat, k: nat)
    requires 0 < unit && b * unit <= m < (b + 1) * unit
    ensures m < k * unit <==> b < k
  {
    if b < k {
      assert (b + 1) * unit <= k * unit;
    } else {
      assert k * unit <= b * unit;
    }
  }

  lemma NextByte(b: nat, unit: nat, m: nat, x: nat)
    requires b * unit <= m < (b + 1) * unit && x < 256
    ensures b * (256 * unit) <= 256 * m + x < (b + 1) * (256 * unit)
  {
    assert b * (256 * unit) == 256 * (b * unit) && (b + 1) * (256 * unit) == 256 * ((b + 1) * unit);
  }

  /** The leading byte of a magnitude decides it to within one unit of that byte. */
  lemma {:induction false} LeadingByte(bytes: Bytes)
    requires bytes != []
    ensures
      var unit := Power256(|bytes| - 1);
      bytes[0] as nat * unit <= Serial.Magnitude(bytes) < (bytes[0] as nat + 1) * unit
  {
    var n := |bytes| - 1;
    if n > 0 {
      LeadingByte(bytes[..n]);
      NextByte(bytes[0] as nat, Power256(n - 1), Serial.Magnitude(bytes[..n]), bytes[n] as nat);
    } else {
      assert bytes[..0] == [];
    }
  }

  // ----- Certificates in the words of the work order -----

  /** The last extension a hook sent under this identifier. */
  ghost predicate LastSent(sent: seq<Extension>, oid: Oid, ext: Option<Extension>) {
    match ext
    case None => forall x :: x in sent ==> x.oid != oid
    case Some(e) => exists i :: 0 <= i < |sent| && sent[i] == e && e.oid == oid && forall j :: i < j < |sent| ==> sent[j].oid != oid
  }

  lemma {:induction false} LookupLastIsSent(sent: seq<Extension>, oid: Oid)
    ensures LastSent(sent, oid, LookupLast(sent, oid))
  {
    if sent != [] {
      LookupLastIsSent(sent[..|sent| - 1], oid);
      if sent[|sent| - 1].oid != oid { LastSentLonger(sent, oid, LookupLast(sent, oid)); }
    }
  }

  lemma LastSentLonger(sent: seq<Extension>, oid: Oid, ext: Option<Extension>)
    requires sent != [] && sent[|sent| - 1].oid != oid && LastSent(sent[..|sent| - 1], oid, ext)
    ensures LastSent(sent, oid, ext)
  {
    var n := |sent| - 1;
    var front := sent[..n];
    if ext.Some? {
      var i :| 0 <= i < n && front[i] == ext.value && forall j :: i < j < n ==> front[j].oid != oid;
      forall j | i < j < |sent| ensures sent[j].oid != oid {
        if j < n { assert sent[j] == front[j]; }
      }
      assert sent[i] == front[i];
    } else {
      forall x | x in sent ensures x.oid != oid {
        var k :| 0 <= k < |sent| && sent[k] == x;
        if k < n { assert front[k] in front; }
      }
    }
  }

  /** Key usages as they are encoded, critical; nothing when there are none. */
  ghost predicate IsKeyUsage(der: Der, names: seq<KeyUsageName>, ext: Option<Extension>) {
    if names == [] then ext.None? else ext == Some(Extension(KeyUsageOid, true, der.keyUsage(names)))
  }

  ghost predicate IsExtKeyUsage(der: Der, names: seq<ExtKeyUsageName>, ext: Option<Extension>) {
    if names == [] then ext.None? else ext == Some(Extension(ExtKeyUsageOid, false, der.extKeyUsage(names)))
  }

  /** The names, critical exactly when the subject is empty; nothing when there are none. */
  ghost predicate IsSan(der: Der, sans: seq<San>, subject: Subject, ext: Option<Extension>) {
    if sans == [] then ext.None?
    else der.encodeSans(sans).Some? && ext == Some(Extension(SubjectAltNameOid, subject.None?, der.encodeSans(sans).value))
  }

  /** The subject: the common name if the template sets it, or if a hook replaced it; otherwise the parent's; none when it is empty. */
  ghost predicate IsSubject(w: Work, subject: Subject) {
    if w.origin.Again? && w.origin.commonNameOverride.None? then subject == w.origin.parent.subject
    else
      var cn := if w.origin.Again? then w.origin.commonNameOverride.value else if w.origin.template.setCommonName then w.commonName else "";
      subject == if cn == "" then None else Some(cn)
  }

  /** What a certificate owes to its work order whatever its origin. */
  lemma CertificateMeans(ca: Authority, w: Work, serial: Bytes)
    ensures Certify(ca, w, serial).Some? <==>
              && (w.sans == [] || ca.der.encodeSans(w.sans).Some?)
              && 0 <= w.window.notBefore <= 253_402_300_799 && 0 <= w.window.notAfter <= 253_402_300_799
    ensures Certify(ca, w, serial).Some? ==>
              var cert := Certify(ca, w, serial).value;
              && cert.serial == serial && cert.spki == w.spki
              && cert.notBefore == w.window.notBefore && cert.notAfter == w.window.notAfter
              && Lookup(cert.extensions, SubjectKeyIdOid)
                 == Some(Extension(SubjectKeyIdOid, false, ca.der.subjectKeyId(ca.der.keyIdentifier(w.spki))))
              && Lookup(cert.extensions, AuthorityKeyIdOid) == Some(Extension(AuthorityKeyIdOid, false, ca.der.authorityKeyId(ca.caKeyId)))
              && Lookup(cert.extensions, NonRenewableOid) == (if w.renewable then None else Some(Extension(NonRenewableOid, false, [1, 1, 0])))
              && IsSubject(w, cert.subject)
  {
    if Certify(ca, w, serial).Some? {
      ExtensionMeans(ca, w, SubjectKeyIdOid);
      ExtensionMeans(ca, w, AuthorityKeyIdOid);
      ExtensionMeans(ca, w, NonRenewableOid);
    }
  }

  /** The extension finally under an identifier, as the whole list was built. */
  function MeaningOf(ca: Authority, w: Work, oid: Oid): Option<Extension>
    requires E.SansEncodable(ca.der, w.sans)
  {
    if w.origin.Fresh? then
      E.IssuedMeaning(ca.der, w.origin.template.profile, w.spki, w.sans, ca.caKeyId, SubjectOf(w).None?, w.overrides, w.renewable, oid)
    else
      E.ReissuedMeaning(ca.der, w.origin.parent.extensions, w.spki, w.sans, ca.caKeyId, SubjectOf(w).None?, w.overrides, w.renewable, oid)
  }

  lemma ExtensionMeans(ca: Authority, w: Work, oid: Oid)
    requires E.SansEncodable(ca.der, w.sans)
    ensures Lookup(ExtensionsOf(ca, w), oid) == MeaningOf(ca, w, oid)
  {
    var empty := SubjectOf(w).None?;
    if w.origin.Fresh? {
      E.IssuedCarries(ca.der, w.origin.template.profile, w.spki, w.sans, ca.caKeyId, empty, w.overrides, w.renewable, oid);
    } else {
      E.ReissuedCarries(ca.der, w.origin.parent.extensions, w.spki, w.sans, ca.caKeyId, empty, w.overrides, w.renewable, oid);
    }
  }

  /** Identifiers no hook may set: the CA's own. */
  predicate CaOwned(oid: Oid) {
    oid == SubjectKeyIdOid || oid == AuthorityKeyIdOid || oid == NonRenewableOid
  }

  /** What the template itself puts under an identifier: key usages unless a hook replaced them, and basic constraints. */
  ghost predicate FromTemplate(der: Der, p: E.Profile, o: E.Overrides, oid: Oid, ext: Option<Extension>) {
    if oid == KeyUsageOid then IsKeyUsage(der, if o.keyUsage.Some? then o.keyUsage.value else p.keyUsage, ext)
    else if oid == ExtKeyUsageOid then IsExtKeyUsage(der, if o.extKeyUsage.Some? then o.extKeyUsage.value else p.extKeyUsage, ext)
    else if oid == BasicConstraintsOid then
      ext == Some(Extension(BasicConstraintsOid, true, der.basicConstraints(p.isCa, if p.isCa then p.pathLen else None)))
    else ext.None?
  }

  /** What a reissue keeps: its parent's, but for key usages a hook replaced. */
  ghost predicate FromParent(der: Der, parent: seq<Extension>, o: E.Overrides, oid: Oid, ext: Option<Extension>) {
    if oid == KeyUsageOid && o.keyUsage.Some? then IsKeyUsage(der, o.keyUsage.value, ext)
    else if oid == ExtKeyUsageOid && o.extKeyUsage.Some? then IsExtKeyUsage(der, o.extKeyUsage.value, ext)
    else ext == Lookup(parent, oid)
  }

  ghost predicate Gives(ca: Authority, w: Work, oid: Oid, subject: Subject, ext: Option<Extension>) {
    if oid == SubjectAltNameOid then IsSan(ca.der, w.sans, subject, ext)
    else if w.origin.Fresh? then FromTemplate(ca.der, w.origin.template.profile, w.overrides, oid, ext)
    else FromParent(ca.der, w.origin.parent.extensions, w.overrides, oid, ext)
  }

  lemma UnsentMeans(ca: Authority, w: Work, oid: Oid)
    requires E.SansEncodable(ca.der, w.sans) && !CaOwned(oid) && LookupLast(w.overrides.additional, oid).None?
    ensures Gives(ca, w, oid, SubjectOf(w), MeaningOf(ca, w, oid))
  {
  }

  /** Under any other identifier: what a hook last sent, else the names, else what the template or the parent gives, as encoded. */
  lemma CertificateExtensions(ca: Authority, w: Work, serial: Bytes, oid: Oid)
    requires Certify(ca, w, serial).Some? && !CaOwned(oid)
    ensures
      var cert := Certify(ca, w, serial).value;
      var found := Lookup(cert.extensions, oid);
      if exists x :: x in w.overrides.additional && x.oid == oid then found.Some? && LastSent(w.overrides.additional, oid, found)
      else Gives(ca, w, oid, cert.subject, found)
  {
    ExtensionMeans(ca, w, oid);
    var sent := LookupLast(w.overrides.additional, oid);
    LookupLastIsSent(w.overrides.additional, oid);
    if sent.None? {
      UnsentMeans(ca, w, oid);
    } else {
      assert sent.value in w.overrides.additional && sent.value.oid == oid;
      assert MeaningOf(ca, w, oid) == sent;
    }
  }
}

/** The request handlers, performing a plan against storage step by step. */
module Service {
  import opened Basics
  import opened Certificates
  import opened Validity
  import opened Hooks
  import opened StorageContract
  import opened ClaimSpec
  import opened Claiming
  import opened Planning
  import E = Extensions
  import Serial
  import Decimal

  /** Build, mark and sign one certificate. A name that cannot be encoded is reported before a validity time. */
  method Issue(ca: Authority, w: Work, serial: Bytes) returns (cert: Result<Certificate, Error>, serialDecimal: string)
    ensures cert.Ok? ==> Certify(ca, w, serial) == Some(cert.value) && serialDecimal == SerialNumber(cert.value)
    ensures cert.Err? ==>
              Certify(ca, w, serial).None? && cert.error == if E.SansEncodable(ca.der, w.sans) then Internal else BadRequest
  {
    serialDecimal := Serial.SerialToDecimal(serial);
    if !E.SansEncodable(ca.der, w.sans) {
      return Err(BadRequest), serialDecimal;
    }
    var subject := SubjectOf(w);
    var list: E.ExtensionList;
    match w.origin {
      case Fresh(template, _) =>
        list := E.BuildExtensions(ca.der, template.profile, w.spki, w.sans, ca.caKeyId, subject.None?, w.overrides);
        list.SetNonRenewableMarker(w.renewable);
      case Again(parent, _, _) =>
        list := E.ReissueExtensions(ca.der, parent.extensions, w.spki, w.sans, ca.caKeyId, subject.None?, w.overrides, w.renewable);
    }
    if !w.window.Encodable() {
      return Err(Internal), serialDecimal;
    }
    return Ok(Certificate(serial, subject, w.window.notBefore, w.window.notAfter, w.spki, list.items)), serialDecimal;
  }

  /** All claims of a plan, in the order they are made. */
  ghost predicate ClaimsOfPlan(reqs: seq<ClaimRequest>, plan: Plan) {
    && 0 < |reqs|
    && reqs[0].key == plan.jtiKey && reqs[0].wanted == plan.jtiExpiry
    && ForScopes(reqs[1..], plan.scopes, plan.work.window.notAfter)
  }

  /** Why a commit fails: a claim was refused, the certificate cannot be encoded, or the serial drawn is taken. */
  ghost predicate Fails(ca: Authority, before: Store, plan: Plan, made: nat, succeeded: nat, e: Error) {
    if succeeded < made then e == Unauthorized
    else
      made == 1 + |plan.scopes|
      && exists serial :: GoodSerial(serial) && CannotIssue(ca, before, plan.work, serial, e)
  }

  ghost predicate CannotIssue(ca: Authority, before: Store, w: Work, serial: Bytes, e: Error) {
    match Certify(ca, w, serial)
    case None => e == if w.sans != [] && ca.der.encodeSans(w.sans).None? then BadRequest else Internal
    case Some(cert) => SerialNumber(cert) in before.certificates && e == Internal
  }

  /** Outcome of a commit: the claims made either way; on success also the one new inventory record. */
  ghost predicate Committed(ca: Authority, slack: nat, before: Store, after: Store, plan: Plan,
                            reqs: seq<ClaimRequest>, r: Result<Certificate, Error>)
  {
    var (tokens, count) := ClaimAll(before.tokens, reqs, slack);
    var claimed := before.(tokens := tokens);
    && ClaimsOfPlan(reqs, plan)
    && (r.Err? ==> after == claimed && Fails(ca, before, plan, |reqs|, count, r.error))
    && (r.Ok? ==>
          && |reqs| == 1 + |plan.scopes| == count
          && GoodSerial(r.value.serial) && Certify(ca, plan.work, r.value.serial) == Some(r.value)
          && SerialNumber(r.value) !in before.certificates
          && after == claimed.(certificates := before.certificates[SerialNumber(r.value) := RecordOf(plan.work, r.value)]))
  }

  /** Claim, issue, record, in that order; the inventory is written before the certificate is returned. */
  method Commit(ca: Authority, storage: Storage, clock: Clock, plan: Plan)
    returns (r: Result<Certificate, Error>, ghost reqs: seq<ClaimRequest>)
    modifies storage, clock
    ensures old(clock.now) <= clock.now
    ensures Committed(ca, storage.slack, old(storage.store), storage.store, plan, reqs, r)
  {
    ghost var tokens := storage.store.tokens;
    var jti;
    ghost var req;
    jti, req := ClaimOnce(storage, clock, plan.jtiKey, plan.jtiExpiry);
    reqs := [req];
    OneClaim(tokens, req, storage.slack);
    if jti.Err? {
      return Err(jti.error), reqs;
    }
    ghost var afterJti := storage.store.tokens;
    var scoped;
    ghost var more;
    scoped, more := ClaimOnceScopes(storage, clock, plan.scopes, plan.work.window.notAfter);
    reqs := [req] + more;
    assert reqs[1..] == more;
    ClaimSequence(tokens, [req], more, storage.slack);
    if scoped.Err? {
      return Err(scoped.error), reqs;
    }
    var serial :| GoodSerial(serial) by {
      assert GoodSerial([0x40, 0, 0, 0, 0, 0, 0, 0, 0, 0, 0, 0, 0, 0, 0, 0, 0, 0, 0]);
    }
    var cert, serialDecimal := Issue(ca, plan.work, serial);
    if cert.Err? {
      assert CannotIssue(ca, old(storage.store), plan.work, serial, cert.error);
      return Err(cert.error), reqs;
    }
    var recorded := storage.Perform(RecordCertificate(RecordOf(plan.work, cert.value)));
    if recorded.Refused? {
      assert CannotIssue(ca, old(storage.store), plan.work, serial, recorded.error);
      return Err(recorded.error), reqs;
    }
    return Ok(cert.value), reqs;
  }

  /** Sign: all checks, then the commit. A request that fails its checks changes nothing. */
  method TrySign(ca: Authority, cfg: Config, storage: Storage, clock: Clock, req: SignRequest, hooks: seq<Hook>)
    returns (r: Result<Certificate, Error>, ghost now: Moment, ghost reqs: seq<ClaimRequest>)
    requires req.token.Ok? ==> TokenInRange(req.token.value)
    modifies storage, clock
    ensures old(clock.now) <= now <= clock.now
    ensures
      match PlanSign(cfg, req, hooks, now)
      case Err(e) => r == Err(e) && storage.store == old(storage.store)
      case Ok(plan) => Committed(ca, storage.slack, old(storage.store), storage.store, plan, reqs, r)
  {
    reqs := [];
    var at := clock.Read();
    now := at;
    var plan := PlanSign(cfg, req, hooks, at);
    if plan.Err? {
      return Err(plan.error), now, reqs;
    }
    r, reqs := Commit(ca, storage, clock, plan.value);
  }

  /**
   Renew or rekey. `issued` says whether the CA's signature on the presented certificate verifies.
   A serial revoked in the version the lookup saw, or any failed check, leaves the store as it was.
   */
  method TryRenewOrRekey(ca: Authority, storage: Storage, clock: Clock, req: ReissueRequest, issued: bool, hooks: seq<Hook>)
    returns (r: Result<Certificate, Error>, ghost now: Moment, ghost reqs: seq<ClaimRequest>, ghost seen: Store)
    modifies storage, clock
    ensures old(storage.MayShow(seen))
    ensures req.proof.None? ==> r == Err(Unauthorized) && storage.store == old(storage.store)
    ensures req.proof.Some? && req.certificate.Err? ==> r == Err(req.certificate.error) && storage.store == old(storage.store)
    ensures req.proof.Some? && req.certificate.Ok? && !issued ==> r == Err(Forbidden) && storage.store == old(storage.store)
    ensures req.proof.Some? && req.certificate.Ok? && issued ==>
              if SerialNumber(req.certificate.value) in seen.revocations
              then r == Err(Forbidden) && storage.store == old(storage.store)
              else
                old(clock.now) <= now <= clock.now
                && match PlanReissue(ca, req.certificate.value, req.proof.value, req.newKey, hooks, now)
                   case Err(e) => r == Err(e) && storage.store == old(storage.store)
                   case Ok(plan) => Committed(ca, storage.slack, old(storage.store), storage.store, plan, reqs, r)
  {
    reqs := [];
    now, seen := clock.now, storage.store;
    if req.proof.None? {
      return Err(Unauthorized), now, reqs, seen;
    }
    if req.certificate.Err? {
      return Err(req.certificate.error), now, reqs, seen;
    }
    var cert := req.certificate.value;
    if !issued {
      return Err(Forbidden), now, reqs, seen;
    }
    var serial := Serial.SerialToDecimal(cert.serial);
    var revocation;
    revocation, seen := storage.Look(GetRevocation(serial));
    if revocation.found.Some? {
      return Err(Forbidden), now, reqs, seen;
    }
    var at := clock.Read();
    now := at;
    var plan := PlanReissue(ca, cert, req.proof.value, req.newKey, hooks, at);
    if plan.Err? {
      return Err(plan.error), now, reqs, seen;
    }
    r, reqs := Commit(ca, storage, clock, plan.value);
  }

  /** How a revocation is authorized: a token for the serial, or a proof with the certificate itself. */
  datatype RevokeCredential =
    | ByToken(token: Result<ValidatedToken, Error>)
    | ByProof(proof: Result<Proof, Error>, certificate: Result<Certificate, Error>, issued: bool)
    | Nothing

  datatype RevokeRequest = RevokeRequest(serialNumber: string, reasonCode: Option<int>, reason: Option<string>, credential: RevokeCredential)

  /** The claim a revocation makes, once its credential is shown to cover the serial. */
  function RevocationClaim(req: RevokeRequest, now: nat): Result<(string, int, Option<string>), Error> {
    match Serial.NormalizeSerial(req.serialNumber)
    case Err(_) => Err(BadRequest)
    case Ok(serial) =>
      match req.credential
      case Nothing => Err(Unauthorized)
      case ByToken(Err(e)) => Err(e)
      case ByToken(Ok(token)) =>
        (match Serial.NormalizeSerial(token.claims.subject)
         case Err(_) => Err(BadRequest)
         case Ok(subject) =>
           if subject != serial then Err(Forbidden)
           else Ok((JtiKey("ott", token.replayId), Epoch(token.claims.exp) + REPLAY_LEEWAY, Some(token.provisioner))))
      case ByProof(proof, certificate, issued) =>
        if certificate.Err? then Err(certificate.error)
        else if !issued then Err(Forbidden)
        else if SerialNumber(certificate.value) != serial then Err(Forbidden)
        else if proof.Err? then Err(proof.error)
        else match DpopIssuedAt(proof.value.iat, now)
          case Err(e) => Err(e)
          case Ok(issuedAt) => Ok((JtiKey("dpop", proof.value.jti), issuedAt + DPOP_MAX_AGE + REPLAY_LEEWAY, None))
  }

  /** What entitles a revocation of the number `n`: a token for it, or a fresh proof with this CA's certificate of it. */
  ghost predicate Entitles(credential: RevokeCredential, n: nat, now: nat) {
    match credential
    case Nothing => false
    case ByToken(token) => token.Ok? && Serial.Denoted(token.value.claims.subject) == Some(n)
    case ByProof(proof, certificate, issued) =>
      && certificate.Ok? && issued && Serial.Magnitude(certificate.value.serial) == n
      && proof.Ok? && ProofFresh(proof.value, now)
  }

  /** The claim that consumes a credential, and the provisioner on record. */
  ghost predicate Consumes(credential: RevokeCredential, key: string, expiry: int, provisioner: Option<string>) {
    match credential
    case Nothing => false
    case ByToken(token) => token.Ok? && TokenClaim(token.value, key, expiry) && provisioner == Some(token.value.provisioner)
    case ByProof(proof, _, _) => proof.Ok? && ProofClaim(proof.value, key, expiry) && provisioner.None?
  }

  lemma SameNumeral(m: nat, n: nat)
    ensures Decimal.Numeral(m) == Decimal.Numeral(n) <==> m == n
  {
    if Decimal.Numeral(m) == Decimal.Numeral(n) {
      Decimal.NumeralInjective(m, n);
    }
  }

  /** A spelling normalises to the numeral of `n` exactly when it denotes `n`. */
  lemma SpellingOf(spelling: string, n: nat)
    ensures Serial.NormalizeSerial(spelling).Err? <==> Serial.Denoted(spelling).None?
    ensures Serial.NormalizeSerial(spelling) == Ok(Decimal.Numeral(n)) <==> Serial.Denoted(spelling) == Some(n)
  {
    Serial.NormalizeIsNumeral(spelling);
    if Serial.Denoted(spelling).Some? { SameNumeral(Serial.Denoted(spelling).value, n); }
  }

  lemma TokenEntitles(req: RevokeRequest, now: nat, n: nat)
    requires Serial.Denoted(req.serialNumber) == Some(n) && req.credential.ByToken?
    ensures RevocationClaim(req, now).Ok? <==> Entitles(req.credential, n, now)
    ensures RevocationClaim(req, now).Ok? ==>
              var (key, expiry, provisioner) := RevocationClaim(req, now).value;
              Consumes(req.credential, key, expiry, provisioner)
  {
    SpellingOf(req.serialNumber, n);
    if req.credential.token.Ok? {
      SpellingOf(req.credential.token.value.claims.subject, n);
      KeyTexts(req.credential.token.value.replayId);
    }
  }

  lemma ProofEntitles(req: RevokeRequest, now: nat, n: nat)
    requires Serial.Denoted(req.serialNumber) == Some(n) && req.credential.ByProof?
    ensures RevocationClaim(req, now).Ok? <==> Entitles(req.credential, n, now)
    ensures RevocationClaim(req, now).Ok? ==>
              var (key, expiry, provisioner) := RevocationClaim(req, now).value;
              Consumes(req.credential, key, expiry, provisioner)
  {
    SpellingOf(req.serialNumber, n);
    if req.credential.certificate.Ok? { SameNumeral(Serial.Magnitude(req.credential.certificate.value.serial), n); }
    if req.credential.proof.Ok? {
      KeyTexts(req.credential.proof.value.jti);
      FreshProof(req.credential.proof.value, now);
    }
  }

  /** A revocation goes ahead exactly when its serial is spelled properly and its credential entitles it to that number. */
  lemma RevocationEntitled(req: RevokeRequest, now: nat)
    ensures RevocationClaim(req, now).Ok? <==>
              Serial.Denoted(req.serialNumber).Some? && Entitles(req.credential, Serial.Denoted(req.serialNumber).value, now)
    ensures RevocationClaim(req, now).Ok? ==>
              var (key, expiry, provisioner) := RevocationClaim(req, now).value;
              Consumes(req.credential, key, expiry, provisioner)
  {
    SpellingOf(req.serialNumber, 0);
    if Serial.Denoted(req.serialNumber).Some? {
      var n := Serial.Denoted(req.serialNumber).value;
      match req.credential
      case Nothing =>
      case ByToken(_) => TokenEntitles(req, now, n);
      case ByProof(_, _, _) => ProofEntitles(req, now, n);
    }
  }

  /** How a revocation is refused: the first check that fails decides. */
  lemma RevocationRefused(req: RevokeRequest, now: nat)
    ensures
      var r := RevocationClaim(req, now);
      match Serial.Denoted(req.serialNumber)
      case None => r == Err(BadRequest)
      case Some(n) =>
        match req.credential
        case Nothing => r == Err(Unauthorized)
        case ByToken(token) =>
          && (token.Err? ==> r == Err(token.error))
          && (token.Ok? ==>
                match Serial.Denoted(token.value.claims.subject)
                case None => r == Err(BadRequest)
                case Some(m) => m != n ==> r == Err(Forbidden))
        case ByProof(proof, certificate, issued) =>
          && (certificate.Err? ==> r == Err(certificate.error))
          && (certificate.Ok? && !issued ==> r == Err(Forbidden))
          && (certificate.Ok? && issued && Serial.Magnitude(certificate.value.serial) != n ==> r == Err(Forbidden))
          && (certificate.Ok? && issued && Serial.Magnitude(certificate.value.serial) == n ==>
                && (proof.Err? ==> r == Err(proof.error))
                && (proof.Ok? && !ProofFresh(proof.value, now) ==> r == Err(Unauthorized)))
  {
    SpellingOf(req.serialNumber, 0);
    if Serial.Denoted(req.serialNumber).Some? {
      var n := Serial.Denoted(req.serialNumber).value;
      SpellingOf(req.serialNumber, n);
      match req.credential
      case Nothing =>
      case ByToken(Err(_)) =>
      case ByToken(Ok(token)) => SpellingOf(token.claims.subject, n);
      case ByProof(proof, certificate, _) =>
        if certificate.Ok? { SameNumeral(Serial.Magnitude(certificate.value.serial), n); }
        if proof.Ok? { FreshProof(proof.value, now); }
    }
  }

  /** Revoke: the credential is consumed, then the serial is revoked, keeping any earlier record. */
  method TryRevoke(storage: Storage, clock: Clock, req: RevokeRequest)
    returns (r: Result<(), Error>, ghost now: Moment, ghost reqs: seq<ClaimRequest>)
    modifies storage, clock
    ensures old(clock.now) <= now <= clock.now
    ensures
      var before := old(storage.store);
      match RevocationClaim(req, now)
      case Err(e) => r == Err(e) && storage.store == before
      case Ok((key, expiry, _)) =>
        && |reqs| == 1 && reqs[0].key == key && reqs[0].wanted == expiry
        && storage.store.tokens == ClaimAll(before.tokens, reqs, storage.slack).0
        && storage.store.certificates == before.certificates
        && (r.Ok? <==> Free(before.tokens, key, reqs[0].stamp, storage.slack))
        && (r.Err? ==> r.error == Unauthorized && storage.store.revocations == before.revocations)
        && (r.Ok? ==>
              var serial := Serial.NormalizeSerial(req.serialNumber).value;
              var (_, _, provisioner) := RevocationClaim(req, now).value;
              storage.store.revocations
              == if serial in before.revocations then before.revocations
                 else before.revocations[serial := RevocationRecord(serial, req.reasonCode.UnwrapOr(0), req.reason, now, provisioner)])
  {
    reqs := [];
    var at := clock.Read();
    now := at;
    var claim := RevocationClaim(req, at);
    if claim.Err? {
      return Err(claim.error), now, reqs;
    }
    var (key, expiry, provisioner) := claim.value;
    var claimed;
    ghost var one;
    claimed, one := ClaimOnce(storage, clock, key, expiry);
    reqs := [one];
    if claimed.Err? {
      return Err(claimed.error), now, reqs;
    }
    var serial := Serial.NormalizeSerial(req.serialNumber).value;
    var done := storage.Perform(Revoke(RevocationRecord(serial, req.reasonCode.UnwrapOr(0), req.reason, at, provisioner)));
    return Ok(()), now, reqs;
  }
}
