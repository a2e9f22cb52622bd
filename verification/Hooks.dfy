/**
 Issuance hooks (ayane/src/hook/mod.rs): consulted in order, each may deny or layer its
 changes onto the pending certificate; an unauthorized request needs an explicit grant.
 */
module Hooks {
  import opened Basics
  import opened Certificates
  import opened Validity

  /** An extension as a hook sends it; `oid` is absent when its text does not parse. */
  datatype RawExtension = RawExtension(oid: Option<Oid>, critical: bool, value: Bytes)

  datatype OnceScope = OnceScope(scope: string, expiresAt: Option<Instant>)

  datatype OnceClaim = OnceClaim(namespace: string, value: string, expiresAt: Option<Instant>)

  datatype HookResponse = HookResponse(
    allow: Option<bool>, renew: Option<bool>,
    subjectCommonName: Option<string>,
    sans: Option<seq<San>>, additionalSans: seq<San>,
    notBefore: Option<Instant>, notAfter: Option<Instant>,
    keyUsage: Option<seq<KeyUsageName>>, extKeyUsage: Option<seq<ExtKeyUsageName>>,
    additionalExtensions: seq<RawExtension>,
    once: seq<OnceScope>)

  /** A configured hook and its answer to the one request every hook sees. */
  datatype Hook = Hook(name: string, provisioners: seq<string>, reply: Result<HookResponse, Error>) {
    predicate AppliesTo(provisioner: Option<string>) {
      provisioners == [] || (provisioner.Some? && provisioner.value in provisioners)
    }
  }

  datatype Context = Context(authorized: bool, provisioner: Option<string>, sans: seq<San>, window: Window, renewable: bool)

  datatype Customization = Customization(
    subjectCommonName: Option<string>, sans: seq<San>, window: Window,
    keyUsage: Option<seq<KeyUsageName>>, extKeyUsage: Option<seq<ExtKeyUsageName>>,
    additionalExtensions: seq<Extension>, onceClaims: seq<OnceClaim>, renewable: bool)

  function Baseline(ctx: Context): Customization {
    Customization(None, ctx.sans, ctx.window, None, None, [], [], ctx.renewable)
  }

  // ----- Specification -----

  function Applicable(hooks: seq<Hook>, provisioner: Option<string>): seq<Hook> {
    if hooks == [] then []
    else
      var front := Applicable(hooks[..|hooks| - 1], provisioner);
      if hooks[|hooks| - 1].AppliesTo(provisioner) then front + [hooks[|hooks| - 1]] else front
  }

  predicate Parses(raws: seq<RawExtension>) {
    forall i :: 0 <= i < |raws| ==> raws[i].oid.Some?
  }

  /** Why this hook alone would stop the request. */
  function Objection(h: Hook): Option<Error> {
    match h.reply
    case Err(e) => Some(e)
    case Ok(r) =>
      if r.allow == Some(false) then Some(Forbidden)
      else if !Parses(r.additionalExtensions) then Some(BadRequest)
      else None
  }

  /** The earliest objection. */
  function FirstObjection(hs: seq<Hook>): Option<Error> {
    if hs == [] then None
    else
      var earlier := FirstObjection(hs[..|hs| - 1]);
      if earlier.Some? then earlier else Objection(hs[|hs| - 1])
  }

  predicate Grants(h: Hook) {
    h.reply.Ok? && h.reply.value.allow == Some(true)
  }

  predicate AnyGrants(hs: seq<Hook>) {
    exists h :: h in hs && Grants(h)
  }

  lemma AnyGrantsStep(hs: seq<Hook>, h: Hook)
    ensures AnyGrants(hs + [h]) <==> AnyGrants(hs) || Grants(h)
  {
    assert forall g :: g in hs + [h] <==> g in hs || g == h;
  }

  /** Append the elements not yet present. */
  function AddNew(sans: seq<San>, more: seq<San>): seq<San> {
    if more == [] then sans
    else
      var front := AddNew(sans, more[..|more| - 1]);
      if more[|more| - 1] in front then front else front + [more[|more| - 1]]
  }

  function Parsed(raws: seq<RawExtension>): seq<Extension>
    requires Parses(raws)
  {
    seq(|raws|, i requires 0 <= i < |raws| => Extension(raws[i].oid.value, raws[i].critical, raws[i].value))
  }

  function Claims(name: string, scopes: seq<OnceScope>): seq<OnceClaim> {
    seq(|scopes|, i requires 0 <= i < |scopes| => OnceClaim("hook:" + name, scopes[i].scope, scopes[i].expiresAt))
  }

  function Layered(c: Customization, h: Hook): Customization
    requires Objection(h).None?
  {
    var r := h.reply.value;
    Customization(
      if r.subjectCommonName.Some? then r.subjectCommonName else c.subjectCommonName,
      AddNew(r.sans.UnwrapOr(c.sans), r.additionalSans),
      Window(r.notBefore.UnwrapOr(c.window.notBefore), r.notAfter.UnwrapOr(c.window.notAfter)),
      if r.keyUsage.Some? then r.keyUsage else c.keyUsage,
      if r.extKeyUsage.Some? then r.extKeyUsage else c.extKeyUsage,
      c.additionalExtensions + Parsed(r.additionalExtensions),
      c.onceClaims + Claims(h.name, r.once),
      c.renewable && r.renew != Some(false))
  }

  function Layers(c: Customization, hs: seq<Hook>): Customization
    requires FirstObjection(hs).None?
  {
    if hs == [] then c else Layered(Layers(c, hs[..|hs| - 1]), hs[|hs| - 1])
  }

  /** The outcome of consulting every hook. */
  function Outcome(hooks: seq<Hook>, ctx: Context): Result<Customization, Error> {
    var hs := Applicable(hooks, ctx.provisioner);
    match FirstObjection(hs)
    case Some(e) => Err(e)
    case None =>
      if ctx.authorized || AnyGrants(hs) then Ok(Layers(Baseline(ctx), hs)) else Err(Forbidden)
  }

  // ----- The loop -----

  function UnauthorizedGuard(authorized: bool, explicitlyAllowed: bool): Result<(), Error> {
    if authorized || explicitlyAllowed then Ok(()) else Err(Forbidden)
  }

  method AddSans(before: seq<San>, more: seq<San>) returns (sans: seq<San>)
    ensures sans == AddNew(before, more)
  {
    sans := before;
    for i := 0 to |more|
      invariant sans == AddNew(before, more[..i])
    {
      assert more[..i + 1][..i] == more[..i];
      if more[i] !in sans {
        sans := sans + [more[i]];
      }
    }
    assert more[..|more|] == more;
  }

  method ParseExtensions(raws: seq<RawExtension>) returns (r: Result<seq<Extension>, Error>)
    ensures r == if Parses(raws) then Ok(Parsed(raws)) else Err(BadRequest)
  {
    var exts: seq<Extension> := [];
    for i := 0 to |raws|
      invariant Parses(raws[..i]) && exts == Parsed(raws[..i])
    {
      if raws[i].oid.None? {
        return Err(BadRequest);
      }
      assert raws[..i + 1] == raws[..i] + [raws[i]];
      exts := exts + [Extension(raws[i].oid.value, raws[i].critical, raws[i].value)];
    }
    assert raws[..|raws|] == raws;
    return Ok(exts);
  }

  /** Layer one response onto the accumulating customization; the caller has already pushed its claims. */
  method ApplyResponse(before: Customization, h: Hook) returns (r: Result<Customization, Error>)
    requires h.reply.Ok? && h.reply.value.allow != Some(false)
    ensures r == if Objection(h).None? then Ok(Layered(before, h).(onceClaims := before.onceClaims)) else Err(BadRequest)
  {
    var response := h.reply.value;
    var renewable, commonName, sans := before.renewable, before.subjectCommonName, before.sans;
    var notBefore, notAfter := before.window.notBefore, before.window.notAfter;
    var keyUsage, extKeyUsage := before.keyUsage, before.extKeyUsage;
    if response.renew == Some(false) {
      renewable := false;
    }
    if response.subjectCommonName.Some? {
      commonName := response.subjectCommonName;
    }
    if response.sans.Some? {
      sans := response.sans.value;
    }
    sans := AddSans(sans, response.additionalSans);
    if response.notBefore.Some? {
      notBefore := response.notBefore.value;
    }
    if response.notAfter.Some? {
      notAfter := response.notAfter.value;
    }
    if response.keyUsage.Some? {
      keyUsage := response.keyUsage;
    }
    if response.extKeyUsage.Some? {
      extKeyUsage := response.extKeyUsage;
    }
    var exts := ParseExtensions(response.additionalExtensions);
    if exts.Err? {
      return Err(exts.error);
    }
    return Ok(Customization(commonName, sans, Window(notBefore, notAfter), keyUsage, extKeyUsage,
                            before.additionalExtensions + exts.value, before.onceClaims, renewable));
  }

  /** Consult one hook: its objection, or whether it grants and the customization with its layer on top. */
  method Consult(before: Customization, h: Hook) returns (r: Result<(Customization, bool), Error>)
    ensures r == match Objection(h) case Some(e) => Err(e) case None => Ok((Layered(before, h), Grants(h)))
  {
    if h.reply.Err? {
      return Err(h.reply.error);
    }
    var response := h.reply.value;
    if response.allow == Some(false) {
      return Err(Forbidden);
    }
    var claimed := before.(onceClaims := before.onceClaims + Claims(h.name, response.once));
    var applied := ApplyResponse(claimed, h);
    if applied.Err? {
      return Err(applied.error);
    }
    return Ok((applied.value, response.allow == Some(true)));
  }

  /** Every applicable hook in turn, up to the first objection. */
  method Run(hooks: seq<Hook>, ctx: Context) returns (r: Result<Customization, Error>)
    ensures r == Outcome(hooks, ctx)
  {
    var custom := Baseline(ctx);
    if hooks == [] {
      var guard := UnauthorizedGuard(ctx.authorized, false);
      return if guard.Ok? then Ok(custom) else Err(guard.error);
    }
    var explicitlyAllowed := false;
    for i := 0 to |hooks|
      invariant Consulted(hooks, i, ctx, custom, explicitlyAllowed)
    {
      if !hooks[i].AppliesTo(ctx.provisioner) {
        SkipStep(hooks, i, ctx, custom, explicitlyAllowed);
        continue;
      }
      var one := Consult(custom, hooks[i]);
      if one.Err? {
        ObjectionStep(hooks, i, ctx, custom, explicitlyAllowed);
        return Err(one.error);
      }
      LayerStep(hooks, i, ctx, custom, explicitlyAllowed);
      custom := one.value.0;
      if one.value.1 {
        explicitlyAllowed := true;
      }
    }
    assert hooks[..|hooks|] == hooks;
    var guard := UnauthorizedGuard(ctx.authorized, explicitlyAllowed);
    return if guard.Ok? then Ok(custom) else Err(guard.error);
  }

  /** The first `i` hooks did not object, and left this customization and this grant. */
  ghost predicate Consulted(hooks: seq<Hook>, i: nat, ctx: Context, custom: Customization, allowed: bool)
    requires i <= |hooks|
  {
    var consulted := Applicable(hooks[..i], ctx.provisioner);
    FirstObjection(consulted).None? && allowed == AnyGrants(consulted) && custom == Layers(Baseline(ctx), consulted)
  }

  lemma SkipStep(hooks: seq<Hook>, i: nat, ctx: Context, custom: Customization, allowed: bool)
    requires i < |hooks| && Consulted(hooks, i, ctx, custom, allowed) && !hooks[i].AppliesTo(ctx.provisioner)
    ensures Consulted(hooks, i + 1, ctx, custom, allowed)
  {
    ApplicableStep(hooks, i, ctx.provisioner);
  }

  lemma LayerStep(hooks: seq<Hook>, i: nat, ctx: Context, custom: Customization, allowed: bool)
    requires i < |hooks| && Consulted(hooks, i, ctx, custom, allowed)
    requires hooks[i].AppliesTo(ctx.provisioner) && Objection(hooks[i]).None?
    ensures Consulted(hooks, i + 1, ctx, Layered(custom, hooks[i]), allowed || Grants(hooks[i]))
  {
    ApplicableStep(hooks, i, ctx.provisioner);
    ConsultStep(Baseline(ctx), Applicable(hooks[..i], ctx.provisioner), hooks[i]);
  }

  lemma ObjectionStep(hooks: seq<Hook>, i: nat, ctx: Context, custom: Customization, allowed: bool)
    requires i < |hooks| && Consulted(hooks, i, ctx, custom, allowed)
    requires hooks[i].AppliesTo(ctx.provisioner) && Objection(hooks[i]).Some?
    ensures Outcome(hooks, ctx) == Err(Objection(hooks[i]).value)
  {
    ApplicableStep(hooks, i, ctx.provisioner);
    ConsultStep(Baseline(ctx), Applicable(hooks[..i], ctx.provisioner), hooks[i]);
    FirstObjectionStays(hooks, i + 1, ctx.provisioner);
  }

  /** One more consulted hook: its objection is the first, and its layer goes on top. */
  lemma ConsultStep(base: Customization, consulted: seq<Hook>, h: Hook)
    requires FirstObjection(consulted).None?
    ensures FirstObjection(consulted + [h]) == Objection(h)
    ensures AnyGrants(consulted + [h]) <==> AnyGrants(consulted) || Grants(h)
    ensures Objection(h).None? ==> Layers(base, consulted + [h]) == Layered(Layers(base, consulted), h)
  {
    assert (consulted + [h])[..|consulted|] == consulted;
    AnyGrantsStep(consulted, h);
  }

  lemma ApplicableStep(hooks: seq<Hook>, i: nat, provisioner: Option<string>)
    requires i < |hooks|
    ensures Applicable(hooks[..i + 1], provisioner)
            == if hooks[i].AppliesTo(provisioner) then Applicable(hooks[..i], provisioner) + [hooks[i]]
               else Applicable(hooks[..i], provisioner)
  {
    assert hooks[..i + 1][..i] == hooks[..i];
  }

  /** Later hooks cannot lift an objection already made. */
  lemma {:induction false} FirstObjectionStays(hooks: seq<Hook>, i: nat, provisioner: Option<string>)
    requires i <= |hooks| && FirstObjection(Applicable(hooks[..i], provisioner)).Some?
    ensures FirstObjection(Applicable(hooks, provisioner)) == FirstObjection(Applicable(hooks[..i], provisioner))
    decreases |hooks| - i
  {
    if i == |hooks| {
      assert hooks[..i] == hooks;
    } else {
      ApplicableStep(hooks, i, provisioner);
      var done := Applicable(hooks[..i], provisioner);
      assert (done + [hooks[i]])[..|done|] == done;
      FirstObjectionStays(hooks, i + 1, provisioner);
    }
  }

  // ----- What the layers amount to -----

  /** The last hook that sets a property. */
  function LastOverride<T>(hs: seq<Hook>, property: HookResponse -> Option<T>): Option<T> {
    if hs == [] then None
    else
      var h := hs[|hs| - 1];
      if h.reply.Ok? && property(h.reply.value).Some? then property(h.reply.value)
      else LastOverride(hs[..|hs| - 1], property)
  }

  /** SAN additions made after, or together with, the last replacement. */
  function LaterAdditions(hs: seq<Hook>): seq<San> {
    if hs == [] then []
    else
      var h := hs[|hs| - 1];
      var here := if h.reply.Ok? then h.reply.value.additionalSans else [];
      if h.reply.Ok? && h.reply.value.sans.Some? then here else LaterAdditions(hs[..|hs| - 1]) + here
  }

  function AllClaims(hs: seq<Hook>): seq<OnceClaim> {
    if hs == [] then []
    else
      var h := hs[|hs| - 1];
      AllClaims(hs[..|hs| - 1]) + (if h.reply.Ok? then Claims(h.name, h.reply.value.once) else [])
  }

  function AllExtensions(hs: seq<Hook>): seq<Extension>
    requires FirstObjection(hs).None?
  {
    if hs == [] then []
    else AllExtensions(hs[..|hs| - 1]) + Parsed(hs[|hs| - 1].reply.value.additionalExtensions)
  }

  lemma {:induction false} AddNewTwice(s: seq<San>, a: seq<San>, b: seq<San>)
    ensures AddNew(AddNew(s, a), b) == AddNew(s, a + b)
  {
    if b == [] {
      assert a + b == a;
    } else {
      AddNewTwice(s, a, b[..|b| - 1]);
      assert (a + b)[..|a + b| - 1] == a + b[..|b| - 1];
    }
  }

  /** Additions extend the list, bring in exactly the missing names, and repeat none. */
  lemma {:induction false} AddNewMeaning(s: seq<San>, more: seq<San>)
    ensures
      var r := AddNew(s, more);
      && s <= r
      && (forall x :: x in r <==> x in s || x in more)
      && (forall i, j :: 0 <= i < j < |r| && |s| <= j ==> r[i] != r[j])
  {
    if more != [] {
      var front := more[..|more| - 1];
      AddNewMeaning(s, front);
      assert more == front + [more[|more| - 1]];
    }
  }

  function CommonNameOf(r: HookResponse): Option<string> { r.subjectCommonName }
  function NotBeforeOf(r: HookResponse): Option<Instant> { r.notBefore }
  function NotAfterOf(r: HookResponse): Option<Instant> { r.notAfter }
  function KeyUsageOf(r: HookResponse): Option<seq<KeyUsageName>> { r.keyUsage }
  function ExtKeyUsageOf(r: HookResponse): Option<seq<ExtKeyUsageName>> { r.extKeyUsage }
  function SansOf(r: HookResponse): Option<seq<San>> { r.sans }

  /** Each scalar is the last override, or the baseline. */
  lemma {:induction false} LayersOverrides(ctx: Context, hs: seq<Hook>)
    requires FirstObjection(hs).None?
    ensures
      var c := Layers(Baseline(ctx), hs);
      && c.subjectCommonName == LastOverride(hs, CommonNameOf)
      && c.window.notBefore == LastOverride(hs, NotBeforeOf).UnwrapOr(ctx.window.notBefore)
      && c.window.notAfter == LastOverride(hs, NotAfterOf).UnwrapOr(ctx.window.notAfter)
      && c.keyUsage == LastOverride(hs, KeyUsageOf)
      && c.extKeyUsage == LastOverride(hs, ExtKeyUsageOf)
  {
    if hs != [] { LayersOverrides(ctx, hs[..|hs| - 1]); }
  }

  /** SANs are the last replacement, then the later additions that are new. */
  lemma {:induction false} LayersSans(ctx: Context, hs: seq<Hook>)
    requires FirstObjection(hs).None?
    ensures Layers(Baseline(ctx), hs).sans
            == AddNew(LastOverride(hs, SansOf).UnwrapOr(ctx.sans), LaterAdditions(hs))
  {
    if hs != [] {
      var front, r := hs[..|hs| - 1], hs[|hs| - 1].reply.value;
      LayersSans(ctx, front);
      AddNewTwice(LastOverride(front, SansOf).UnwrapOr(ctx.sans), LaterAdditions(front), r.additionalSans);
    }
  }

  predicate AnyDisables(hs: seq<Hook>) {
    exists h :: h in hs && h.reply.Ok? && h.reply.value.renew == Some(false)
  }

  /** Renewability is a one-way switch: the baseline, unless some hook turned it off. */
  lemma {:induction false} LayersLatch(ctx: Context, hs: seq<Hook>)
    requires FirstObjection(hs).None?
    ensures Layers(Baseline(ctx), hs).renewable <==> ctx.renewable && !AnyDisables(hs)
  {
    if hs != [] {
      var front, h := hs[..|hs| - 1], hs[|hs| - 1];
      LayersLatch(ctx, front);
      assert forall g :: g in hs <==> g in front || g == h by {
        assert hs == front + [h];
      }
    }
  }

  /** Once-claims and extensions are concatenated in order. */
  lemma {:induction false} LayersClaims(ctx: Context, hs: seq<Hook>)
    requires FirstObjection(hs).None?
    ensures Layers(Baseline(ctx), hs).onceClaims == AllClaims(hs)
    ensures Layers(Baseline(ctx), hs).additionalExtensions == AllExtensions(hs)
  {
    if hs != [] { LayersClaims(ctx, hs[..|hs| - 1]); }
  }

  /** A request succeeds exactly when nothing objects and somebody authorized it. */
  lemma OutcomeSucceeds(hooks: seq<Hook>, ctx: Context)
    ensures Outcome(hooks, ctx).Ok? <==>
              && (forall h :: h in Applicable(hooks, ctx.provisioner) ==> Objection(h).None?)
              && (ctx.authorized || AnyGrants(Applicable(hooks, ctx.provisioner)))
  {
    NoObjection(Applicable(hooks, ctx.provisioner));
  }

  lemma {:induction false} NoObjection(hs: seq<Hook>)
    ensures FirstObjection(hs).None? <==> forall h :: h in hs ==> Objection(h).None?
  {
    if hs != [] {
      var front, h := hs[..|hs| - 1], hs[|hs| - 1];
      NoObjection(front);
      assert hs == front + [h];
    }
  }

  // ----- The outcome in the words of the replies -----

  /** A hook is asked when it names no provisioner, or names the request's own. */
  ghost predicate Asked(h: Hook, provisioner: Option<string>) {
    h.provisioners == [] || exists p :: provisioner == Some(p) && p in h.provisioners
  }

  /** It answered, did not deny, and every extension it sends parses. */
  ghost predicate Agrees(h: Hook) {
    && h.reply.Ok? && h.reply.value.allow != Some(false)
    && forall x :: x in h.reply.value.additionalExtensions ==> x.oid.Some?
  }

  ghost predicate AllAgree(hooks: seq<Hook>, provisioner: Option<string>) {
    forall h :: h in hooks && Asked(h, provisioner) ==> Agrees(h)
  }

  ghost predicate SomeoneGrants(hooks: seq<Hook>, provisioner: Option<string>) {
    exists h :: h in hooks && Asked(h, provisioner) && h.reply.Ok? && h.reply.value.allow == Some(true)
  }

  ghost predicate NobodyDisables(hooks: seq<Hook>, provisioner: Option<string>) {
    forall h :: h in hooks && Asked(h, provisioner) && h.reply.Ok? ==> h.reply.value.renew != Some(false)
  }

  /** The property as the last hook to mention it put it; nothing if none did. */
  ghost predicate LastSaid<T(!new)>(hooks: seq<Hook>, provisioner: Option<string>, said: HookResponse -> Option<T>, v: Option<T>) {
    if v.None? then SilentFrom(hooks, provisioner, said, 0)
    else exists i :: 0 <= i < |hooks| && Asked(hooks[i], provisioner) && hooks[i].reply.Ok? && said(hooks[i].reply.value) == v
                     && SilentFrom(hooks, provisioner, said, i + 1)
  }

  ghost predicate SilentFrom<T(!new)>(hooks: seq<Hook>, provisioner: Option<string>, said: HookResponse -> Option<T>, from: nat) {
    forall j :: from <= j < |hooks| && Asked(hooks[j], provisioner) && hooks[j].reply.Ok? ==> said(hooks[j].reply.value).None?
  }

  /** The last word on a property, or its value beforehand. */
  ghost predicate FinalWord<T(!new)>(hooks: seq<Hook>, provisioner: Option<string>, said: HookResponse -> Option<T>, before: T, after: T) {
    (after == before && LastSaid(hooks, provisioner, said, None)) || LastSaid(hooks, provisioner, said, Some(after))
  }

  /** Each hook's scopes in order, under its own name. */
  ghost function ScopesAsked(hooks: seq<Hook>, provisioner: Option<string>): seq<OnceClaim> {
    if hooks == [] then []
    else
      var before, h := ScopesAsked(hooks[..|hooks| - 1], provisioner), hooks[|hooks| - 1];
      if Asked(h, provisioner) && h.reply.Ok?
      then before + seq(|h.reply.value.once|, i requires 0 <= i < |h.reply.value.once| =>
                          OnceClaim("hook:" + h.name, h.reply.value.once[i].scope, h.reply.value.once[i].expiresAt))
      else before
  }

  /** The names in force: replaced by the last hook to replace them, then added to. */
  ghost function SansAsked(hooks: seq<Hook>, provisioner: Option<string>, sans: seq<San>): seq<San> {
    if hooks == [] then sans
    else
      var before, h := SansAsked(hooks[..|hooks| - 1], provisioner, sans), hooks[|hooks| - 1];
      if Asked(h, provisioner) && h.reply.Ok?
      then AddNew(if h.reply.value.sans.Some? then h.reply.value.sans.value else before, h.reply.value.additionalSans)
      else before
  }

  ghost predicate SameExtension(raw: RawExtension, ext: Extension) {
    raw.oid == Some(ext.oid) && raw.critical == ext.critical && raw.value == ext.value
  }

  /** Every extension sent, in order. */
  ghost function ExtensionsSent(hooks: seq<Hook>, provisioner: Option<string>): seq<RawExtension> {
    if hooks == [] then []
    else
      var before, h := ExtensionsSent(hooks[..|hooks| - 1], provisioner), hooks[|hooks| - 1];
      if Asked(h, provisioner) && h.reply.Ok? then before + h.reply.value.additionalExtensions else before
  }

  ghost predicate SameExtensions(raws: seq<RawExtension>, exts: seq<Extension>) {
    |raws| == |exts| && forall i :: 0 <= i < |raws| ==> SameExtension(raws[i], exts[i])
  }

  /** A customization that does what every hook asked said, and nothing else. */
  ghost predicate Heeds(hooks: seq<Hook>, ctx: Context, c: Customization) {
    var p := ctx.provisioner;
    && AllAgree(hooks, p) && (ctx.authorized || SomeoneGrants(hooks, p))
    && (c.renewable <==> ctx.renewable && NobodyDisables(hooks, p))
    && c.sans == SansAsked(hooks, p, ctx.sans)
    && c.onceClaims == ScopesAsked(hooks, p)
    && SameExtensions(ExtensionsSent(hooks, p), c.additionalExtensions)
    && LastSaid(hooks, p, CommonNameOf, c.subjectCommonName)
    && FinalWord(hooks, p, NotBeforeOf, ctx.window.notBefore, c.window.notBefore)
    && FinalWord(hooks, p, NotAfterOf, ctx.window.notAfter, c.window.notAfter)
    && LastSaid(hooks, p, KeyUsageOf, c.keyUsage)
    && LastSaid(hooks, p, ExtKeyUsageOf, c.extKeyUsage)
  }

  /** The first hook asked that does not agree, and the error that makes of the request. */
  ghost predicate FirstRefusal(hooks: seq<Hook>, provisioner: Option<string>, i: nat, e: Error) {
    && i < |hooks| && Asked(hooks[i], provisioner) && AllAgree(hooks[..i], provisioner)
    && match hooks[i].reply
       case Err(failure) => e == failure
       case Ok(r) =>
         if r.allow == Some(false) then e == Forbidden
         else (exists x :: x in r.additionalExtensions && x.oid.None?) && e == BadRequest
  }

  lemma {:induction false} ApplicableMember(hooks: seq<Hook>, provisioner: Option<string>, h: Hook)
    ensures h in Applicable(hooks, provisioner) <==> h in hooks && h.AppliesTo(provisioner)
  {
    if hooks != [] {
      var front := hooks[..|hooks| - 1];
      ApplicableMember(front, provisioner, h);
      assert hooks == front + [hooks[|hooks| - 1]];
    }
  }

  lemma AskedApplies(h: Hook, provisioner: Option<string>)
    ensures Asked(h, provisioner) <==> h.AppliesTo(provisioner)
  {
  }

  lemma ApplicableAgree(hooks: seq<Hook>, provisioner: Option<string>)
    ensures FirstObjection(Applicable(hooks, provisioner)).None? <==> AllAgree(hooks, provisioner)
    ensures AnyGrants(Applicable(hooks, provisioner)) <==> SomeoneGrants(hooks, provisioner)
    ensures AnyDisables(Applicable(hooks, provisioner)) <==> !NobodyDisables(hooks, provisioner)
  {
    var hs := Applicable(hooks, provisioner);
    forall h ensures h in hs <==> h in hooks && Asked(h, provisioner) {
      ApplicableMember(hooks, provisioner, h);
      AskedApplies(h, provisioner);
    }
    NoObjection(hs);
    forall h ensures Agrees(h) <==> Objection(h).None? {
      AgreesIsNoObjection(h);
    }
  }

  lemma AgreesIsNoObjection(h: Hook)
    ensures Agrees(h) <==> Objection(h).None?
  {
    if h.reply.Ok? {
      var raws := h.reply.value.additionalExtensions;
      assert (forall x :: x in raws ==> x.oid.Some?) <==> Parses(raws) by {
        if Parses(raws) {
          assert forall x :: x in raws ==> x.oid.Some?;
        }
      }
    }
  }

  lemma {:induction false} LastOverrideIsLastSaid<T(!new)>(hooks: seq<Hook>, provisioner: Option<string>, said: HookResponse -> Option<T>)
    ensures LastSaid(hooks, provisioner, said, LastOverride(Applicable(hooks, provisioner), said))
  {
    if hooks != [] {
      var n := |hooks| - 1;
      var front, h := hooks[..n], hooks[n];
      LastOverrideIsLastSaid(front, provisioner, said);
      var before := Applicable(front, provisioner);
      assert Asked(h, provisioner) <==> h.AppliesTo(provisioner);
      if h.AppliesTo(provisioner) {
        assert (before + [h])[..|before|] == before;
      }
      var v := LastOverride(Applicable(hooks, provisioner), said);
      if h.AppliesTo(provisioner) && h.reply.Ok? && said(h.reply.value).Some? {
        assert SilentFrom(hooks, provisioner, said, n + 1);
      } else if v.Some? {
        var i :| 0 <= i < |front| && Asked(front[i], provisioner) && front[i].reply.Ok? && said(front[i].reply.value) == v
                 && SilentFrom(front, provisioner, said, i + 1);
        assert hooks[i] == front[i];
        SilentLonger(hooks, provisioner, said, i + 1);
      } else {
        SilentLonger(hooks, provisioner, said, 0);
      }
    }
  }

  /** There is one last word. */
  lemma LastSaidOnce<T(!new)>(hooks: seq<Hook>, provisioner: Option<string>, said: HookResponse -> Option<T>, v: Option<T>, w: Option<T>)
    requires LastSaid(hooks, provisioner, said, v) && LastSaid(hooks, provisioner, said, w)
    ensures v == w
  {
    if v.Some? && w.Some? {
      var i :| 0 <= i < |hooks| && Asked(hooks[i], provisioner) && hooks[i].reply.Ok? && said(hooks[i].reply.value) == v
               && SilentFrom(hooks, provisioner, said, i + 1);
      var j :| 0 <= j < |hooks| && Asked(hooks[j], provisioner) && hooks[j].reply.Ok? && said(hooks[j].reply.value) == w
               && SilentFrom(hooks, provisioner, said, j + 1);
      assert i == j;
    }
  }

  lemma FinalWordOnce<T(!new)>(hooks: seq<Hook>, provisioner: Option<string>, said: HookResponse -> Option<T>, before: T, a: T, b: T)
    requires FinalWord(hooks, provisioner, said, before, a) && FinalWord(hooks, provisioner, said, before, b)
    ensures a == b
  {
    var v := if LastSaid(hooks, provisioner, said, Some(a)) then Some(a) else None;
    var w := if LastSaid(hooks, provisioner, said, Some(b)) then Some(b) else None;
    LastSaidOnce(hooks, provisioner, said, v, w);
  }

  /** The window as the hooks finally put it. */
  ghost predicate FinalWindow(hooks: seq<Hook>, ctx: Context, w: Window) {
    && FinalWord(hooks, ctx.provisioner, NotBeforeOf, ctx.window.notBefore, w.notBefore)
    && FinalWord(hooks, ctx.provisioner, NotAfterOf, ctx.window.notAfter, w.notAfter)
  }

  /** Consulting the hooks leaves the window they finally put, whichever way that is described. */
  lemma OutcomeWindow(hooks: seq<Hook>, ctx: Context, w: Window)
    requires Outcome(hooks, ctx).Ok? && FinalWindow(hooks, ctx, w)
    ensures Outcome(hooks, ctx).value.window == w
  {
    OutcomeHeeds(hooks, ctx);
    var c := Outcome(hooks, ctx).value;
    FinalWordOnce(hooks, ctx.provisioner, NotBeforeOf, ctx.window.notBefore, w.notBefore, c.window.notBefore);
    FinalWordOnce(hooks, ctx.provisioner, NotAfterOf, ctx.window.notAfter, w.notAfter, c.window.notAfter);
  }

  lemma SilentLonger<T(!new)>(hooks: seq<Hook>, provisioner: Option<string>, said: HookResponse -> Option<T>, from: nat)
    requires hooks != [] && SilentFrom(hooks[..|hooks| - 1], provisioner, said, from)
    requires
      var h := hooks[|hooks| - 1];
      Asked(h, provisioner) && h.reply.Ok? ==> said(h.reply.value).None?
    ensures SilentFrom(hooks, provisioner, said, from)
  {
    var front := hooks[..|hooks| - 1];
    forall j | from <= j < |hooks| && Asked(hooks[j], provisioner) && hooks[j].reply.Ok? ensures said(hooks[j].reply.value).None? {
      if j < |front| { assert front[j] == hooks[j]; }
    }
  }

  lemma {:induction false} LayersAreAsked(hooks: seq<Hook>, ctx: Context)
    requires FirstObjection(Applicable(hooks, ctx.provisioner)).None?
    ensures
      var c := Layers(Baseline(ctx), Applicable(hooks, ctx.provisioner));
      && c.sans == SansAsked(hooks, ctx.provisioner, ctx.sans)
      && c.onceClaims == ScopesAsked(hooks, ctx.provisioner)
      && SameExtensions(ExtensionsSent(hooks, ctx.provisioner), c.additionalExtensions)
  {
    if hooks != [] {
      var front, h := hooks[..|hooks| - 1], hooks[|hooks| - 1];
      var before := Applicable(front, ctx.provisioner);
      assert Asked(h, ctx.provisioner) <==> h.AppliesTo(ctx.provisioner);
      if h.AppliesTo(ctx.provisioner) {
        assert (before + [h])[..|before|] == before;
      }
      LayersAreAsked(front, ctx);
    }
  }

  /** Consulting the hooks yields a customization that heeds every one of them. */
  lemma OutcomeHeeds(hooks: seq<Hook>, ctx: Context)
    requires Outcome(hooks, ctx).Ok?
    ensures Heeds(hooks, ctx, Outcome(hooks, ctx).value)
  {
    var p := ctx.provisioner;
    var hs := Applicable(hooks, p);
    ApplicableAgree(hooks, p);
    LayersOverrides(ctx, hs);
    LayersLatch(ctx, hs);
    LayersAreAsked(hooks, ctx);
    LastOverrideIsLastSaid(hooks, p, CommonNameOf);
    LastOverrideIsLastSaid(hooks, p, NotBeforeOf);
    LastOverrideIsLastSaid(hooks, p, NotAfterOf);
    LastOverrideIsLastSaid(hooks, p, KeyUsageOf);
    LastOverrideIsLastSaid(hooks, p, ExtKeyUsageOf);
  }

  /** Consulting the hooks succeeds exactly when all agree and, unless the request is authorized, someone grants it. */
  lemma OutcomeDecided(hooks: seq<Hook>, ctx: Context)
    ensures Outcome(hooks, ctx).Ok? <==> AllAgree(hooks, ctx.provisioner) && (ctx.authorized || SomeoneGrants(hooks, ctx.provisioner))
  {
    ApplicableAgree(hooks, ctx.provisioner);
  }

  /** The earliest refusal decides the error, whatever later hooks say; a request nobody grants is Forbidden. */
  lemma {:induction false} OutcomeRefused(hooks: seq<Hook>, ctx: Context, i: nat, e: Error)
    ensures FirstRefusal(hooks, ctx.provisioner, i, e) ==> Outcome(hooks, ctx) == Err(e)
    ensures AllAgree(hooks, ctx.provisioner) && !ctx.authorized && !SomeoneGrants(hooks, ctx.provisioner)
            ==> Outcome(hooks, ctx) == Err(Forbidden)
  {
    var p := ctx.provisioner;
    ApplicableAgree(hooks, p);
    if FirstRefusal(hooks, p, i, e) {
      ApplicableAgree(hooks[..i], p);
      ApplicableStep(hooks, i, p);
      var before := Applicable(hooks[..i], p);
      assert Asked(hooks[i], p) <==> hooks[i].AppliesTo(p);
      AgreesIsNoObjection(hooks[i]);
      assert (before + [hooks[i]])[..|before|] == before;
      assert Objection(hooks[i]) == Some(e);
      FirstObjectionStays(hooks, i + 1, p);
    }
  }
}
