/**
 The extension list of an issued or reissued certificate: upserts in place, the CA-owned
 marker and key identifiers, and what each identifier finally maps to
 (ayane/src/template.rs, ayane/src/ca.rs).
 */
module Extensions {
  import opened Basics
  import opened Certificates

  /** The part of a template that shapes extensions. */
  datatype Profile = Profile(
    keyUsage: seq<KeyUsageName>, extKeyUsage: seq<ExtKeyUsageName>, isCa: bool, pathLen: Option<nat>)

  datatype Overrides = Overrides(
    keyUsage: Option<seq<KeyUsageName>>,
    extKeyUsage: Option<seq<ExtKeyUsageName>>,
    additional: seq<Extension>)

  const NO_OVERRIDES := Overrides(None, None, [])

  /** `retain(|e| e.extn_id != oid)`. */
  function Without(exts: seq<Extension>, oid: Oid): seq<Extension> {
    if exts == [] then []
    else if exts[0].oid == oid then Without(exts[1..], oid)
    else [exts[0]] + Without(exts[1..], oid)
  }

  function Upserted(exts: seq<Extension>, ext: Extension): seq<Extension> {
    Without(exts, ext.oid) + [ext]
  }

  function UpsertedAll(exts: seq<Extension>, more: seq<Extension>): seq<Extension> {
    if more == [] then exts
    else Upserted(UpsertedAll(exts, more[..|more| - 1]), more[|more| - 1])
  }

  function UpsertedSome(exts: seq<Extension>, ext: Option<Extension>): seq<Extension> {
    if ext.Some? then Upserted(exts, ext.value) else exts
  }

  // ----- Building single extensions -----

  function BasicConstraintsExtension(der: Der, p: Profile): Extension {
    Extension(BasicConstraintsOid, true, der.basicConstraints(p.isCa, if p.isCa then p.pathLen else None))
  }

  function KeyUsageExtension(der: Der, names: seq<KeyUsageName>): Option<Extension> {
    if names == [] then None else Some(Extension(KeyUsageOid, true, der.keyUsage(names)))
  }

  function ExtKeyUsageExtension(der: Der, names: seq<ExtKeyUsageName>): Option<Extension> {
    if names == [] then None else Some(Extension(ExtKeyUsageOid, false, der.extKeyUsage(names)))
  }

  predicate SansEncodable(der: Der, sans: seq<San>) {
    sans == [] || der.encodeSans(sans).Some?
  }

  function SubjectAltNameExtension(der: Der, sans: seq<San>, critical: bool): Option<Extension>
    requires SansEncodable(der, sans)
  {
    if sans == [] then None else Some(Extension(SubjectAltNameOid, critical, der.encodeSans(sans).value))
  }

  function SubjectKeyIdExtension(der: Der, spki: Bytes): Extension {
    Extension(SubjectKeyIdOid, false, der.subjectKeyId(der.keyIdentifier(spki)))
  }

  function AuthorityKeyIdExtension(der: Der, caKeyId: Bytes): Extension {
    Extension(AuthorityKeyIdOid, false, der.authorityKeyId(caKeyId))
  }

  // ----- Whole lists -----

  function WithMarker(exts: seq<Extension>, renewable: bool): seq<Extension> {
    var rest := Without(exts, NonRenewableOid);
    if renewable then rest else rest + [NON_RENEWABLE_EXTENSION]
  }

  function WithKeyIds(der: Der, exts: seq<Extension>, spki: Bytes, caKeyId: Bytes): seq<Extension> {
    Upserted(Upserted(exts, SubjectKeyIdExtension(der, spki)), AuthorityKeyIdExtension(der, caKeyId))
  }

  /** Everything the template contributes, before hook extensions. */
  function TemplateExtensions(der: Der, p: Profile, sans: seq<San>, subjectEmpty: bool, o: Overrides): seq<Extension>
    requires SansEncodable(der, sans)
  {
    var base := Upserted([], BasicConstraintsExtension(der, p));
    var ku := UpsertedSome(base, KeyUsageExtension(der, o.keyUsage.UnwrapOr(p.keyUsage)));
    var eku := UpsertedSome(ku, ExtKeyUsageExtension(der, o.extKeyUsage.UnwrapOr(p.extKeyUsage)));
    UpsertedSome(eku, SubjectAltNameExtension(der, sans, subjectEmpty))
  }

  function BuiltExtensions(der: Der, p: Profile, spki: Bytes, sans: seq<San>, caKeyId: Bytes,
                           subjectEmpty: bool, o: Overrides): seq<Extension>
    requires SansEncodable(der, sans)
  {
    var base := TemplateExtensions(der, p, sans, subjectEmpty, o);
    WithKeyIds(der, UpsertedAll(base, o.additional), spki, caKeyId)
  }

  function IssuedExtensions(der: Der, p: Profile, spki: Bytes, sans: seq<San>, caKeyId: Bytes,
                            subjectEmpty: bool, o: Overrides, renewable: bool): seq<Extension>
    requires SansEncodable(der, sans)
  {
    WithMarker(BuiltExtensions(der, p, spki, sans, caKeyId, subjectEmpty, o), renewable)
  }

  /** A key-usage override replaces the extension, or removes it when empty. */
  function Overridden(exts: seq<Extension>, oid: Oid, present: bool, ext: Option<Extension>): seq<Extension> {
    if !present then exts
    else if ext.Some? then Upserted(exts, ext.value)
    else Without(exts, oid)
  }

  function Inherited(parent: seq<Extension>): seq<Extension> {
    Without(Without(Without(parent, SubjectKeyIdOid), AuthorityKeyIdOid), SubjectAltNameOid)
  }

  /** The parent's extensions with SANs and key usages brought up to date. */
  function CarriedExtensions(der: Der, parent: seq<Extension>, sans: seq<San>, subjectEmpty: bool, o: Overrides): seq<Extension>
    requires SansEncodable(der, sans)
  {
    var san := UpsertedSome(Inherited(parent), SubjectAltNameExtension(der, sans, subjectEmpty));
    var ku := Overridden(san, KeyUsageOid, o.keyUsage.Some?, KeyUsageExtension(der, o.keyUsage.UnwrapOr([])));
    Overridden(ku, ExtKeyUsageOid, o.extKeyUsage.Some?, ExtKeyUsageExtension(der, o.extKeyUsage.UnwrapOr([])))
  }

  function ReissuedExtensions(der: Der, parent: seq<Extension>, spki: Bytes, sans: seq<San>, caKeyId: Bytes,
                              subjectEmpty: bool, o: Overrides, renewable: bool): seq<Extension>
    requires SansEncodable(der, sans)
  {
    var base := CarriedExtensions(der, parent, sans, subjectEmpty, o);
    WithKeyIds(der, WithMarker(UpsertedAll(base, o.additional), renewable), spki, caKeyId)
  }

  /** SANs read back from a certificate. */
  function CertSans(der: Der, exts: seq<Extension>): Option<seq<San>> {
    if exts == [] then Some([])
    else
      var rest := CertSans(der, exts[1..]);
      if exts[0].oid != SubjectAltNameOid then rest
      else match der.decodeSans(exts[0].value)
        case None => None
        case Some(here) => if rest.Some? then Some(here + rest.value) else None
  }

  // ----- In place -----

  /** The `Vec<Extension>` a certificate is assembled in. */
  class ExtensionList {
    var items: seq<Extension>

    constructor ()
      ensures items == []
    {
      items := [];
    }

    method Retain(oid: Oid)
      modifies this
      ensures items == Without(old(items), oid)
    {
      var kept: seq<Extension> := [];
      for i := 0 to |items|
        invariant items == old(items)
        invariant kept + Without(items[i..], oid) == Without(items, oid)
      {
        assert items[i..][1..] == items[i + 1..];
        if items[i].oid != oid {
          kept := kept + [items[i]];
        }
      }
      items := kept;
    }

    /** Append the parent's extensions, skipping those that are re-derived. */
    method Inherit(parent: seq<Extension>)
      modifies this
      ensures items == old(items) + Inherited(parent)
    {
      for i := 0 to |parent|
        invariant items + Inherited(parent[i..]) == old(items) + Inherited(parent)
      {
        var ext, rest := parent[i], Inherited(parent[i + 1..]);
        InheritedAt(parent, i);
        if ext.oid == SubjectKeyIdOid || ext.oid == AuthorityKeyIdOid || ext.oid == SubjectAltNameOid {
          continue;
        }
        assert items + ([ext] + rest) == (items + [ext]) + rest;
        items := items + [ext];
      }
      assert Inherited(parent[|parent|..]) == [];
    }

    method Upsert(ext: Extension)
      modifies this
      ensures items == Upserted(old(items), ext)
    {
      Retain(ext.oid);
      items := items + [ext];
    }

    method UpsertAll(more: seq<Extension>)
      modifies this
      ensures items == UpsertedAll(old(items), more)
    {
      for i := 0 to |more|
        invariant items == UpsertedAll(old(items), more[..i])
      {
        assert more[..i + 1][..i] == more[..i];
        Upsert(more[i]);
      }
      assert more[..|more|] == more;
    }

    method SetNonRenewableMarker(renewable: bool)
      modifies this
      ensures items == WithMarker(old(items), renewable)
    {
      Retain(NonRenewableOid);
      if !renewable {
        items := items + [NON_RENEWABLE_EXTENSION];
      }
    }

    method Override(oid: Oid, present: bool, ext: Option<Extension>)
      modifies this
      ensures items == Overridden(old(items), oid, present, ext)
    {
      if present {
        if ext.Some? { Upsert(ext.value); } else { Retain(oid); }
      }
    }

    method FinalizeKeyIdentifiers(der: Der, spki: Bytes, caKeyId: Bytes)
      modifies this
      ensures items == WithKeyIds(der, old(items), spki, caKeyId)
    {
      Upsert(SubjectKeyIdExtension(der, spki));
      Upsert(AuthorityKeyIdExtension(der, caKeyId));
    }
  }

  method BuildExtensions(der: Der, p: Profile, spki: Bytes, sans: seq<San>, caKeyId: Bytes,
                         subjectEmpty: bool, o: Overrides) returns (exts: ExtensionList)
    requires SansEncodable(der, sans)
    ensures fresh(exts) && exts.items == BuiltExtensions(der, p, spki, sans, caKeyId, subjectEmpty, o)
  {
    exts := new ExtensionList();
    exts.Upsert(BasicConstraintsExtension(der, p));
    var ku := KeyUsageExtension(der, o.keyUsage.UnwrapOr(p.keyUsage));
    if ku.Some? {
      exts.Upsert(ku.value);
    }
    var eku := ExtKeyUsageExtension(der, o.extKeyUsage.UnwrapOr(p.extKeyUsage));
    if eku.Some? {
      exts.Upsert(eku.value);
    }
    var san := SubjectAltNameExtension(der, sans, subjectEmpty);
    if san.Some? {
      exts.Upsert(san.value);
    }
    exts.UpsertAll(o.additional);
    exts.FinalizeKeyIdentifiers(der, spki, caKeyId);
  }

  method ReissueExtensions(der: Der, parent: seq<Extension>, spki: Bytes, sans: seq<San>, caKeyId: Bytes,
                           subjectEmpty: bool, o: Overrides, renewable: bool) returns (exts: ExtensionList)
    requires SansEncodable(der, sans)
    ensures fresh(exts)
    ensures exts.items == ReissuedExtensions(der, parent, spki, sans, caKeyId, subjectEmpty, o, renewable)
  {
    exts := new ExtensionList();
    exts.Inherit(parent);
    assert exts.items == Inherited(parent);
    var san := SubjectAltNameExtension(der, sans, subjectEmpty);
    if san.Some? {
      exts.Upsert(san.value);
    }
    exts.Override(KeyUsageOid, o.keyUsage.Some?, KeyUsageExtension(der, o.keyUsage.UnwrapOr([])));
    exts.Override(ExtKeyUsageOid, o.extKeyUsage.Some?, ExtKeyUsageExtension(der, o.extKeyUsage.UnwrapOr([])));
    exts.UpsertAll(o.additional);
    exts.SetNonRenewableMarker(renewable);
    exts.FinalizeKeyIdentifiers(der, spki, caKeyId);
  }

  lemma InheritedAt(parent: seq<Extension>, i: nat)
    requires i < |parent|
    ensures Inherited(parent[i..])
            == if parent[i].oid == SubjectKeyIdOid || parent[i].oid == AuthorityKeyIdOid || parent[i].oid == SubjectAltNameOid
               then Inherited(parent[i + 1..]) else [parent[i]] + Inherited(parent[i + 1..])
  {
    assert parent[i..] == [parent[i]] + parent[i + 1..];
    InheritedStep(parent[i], parent[i + 1..]);
  }

  lemma InheritedStep(ext: Extension, rest: seq<Extension>)
    ensures Inherited([ext] + rest)
            == if ext.oid == SubjectKeyIdOid || ext.oid == AuthorityKeyIdOid || ext.oid == SubjectAltNameOid
               then Inherited(rest) else [ext] + Inherited(rest)
  {
    WithoutStep(ext, rest, SubjectKeyIdOid);
    var a := Without(rest, SubjectKeyIdOid);
    WithoutStep(ext, a, AuthorityKeyIdOid);
    WithoutStep(ext, Without(a, AuthorityKeyIdOid), SubjectAltNameOid);
  }

  lemma WithoutStep(ext: Extension, rest: seq<Extension>, oid: Oid)
    ensures Without([ext] + rest, oid) == if ext.oid == oid then Without(rest, oid) else [ext] + Without(rest, oid)
  {
    assert ([ext] + rest)[1..] == rest;
  }

  // ----- What each step does to a lookup, and to distinctness -----

  lemma {:induction false} LookupWithout(exts: seq<Extension>, gone: Oid, oid: Oid)
    ensures Lookup(Without(exts, gone), oid) == if oid == gone then None else Lookup(exts, oid)
  {
    if exts != [] {
      LookupWithout(exts[1..], gone, oid);
      if exts[0].oid != gone {
        assert Without(exts, gone)[1..] == Without(exts[1..], gone);
      }
    }
  }

  lemma {:induction false} LookupAppend(exts: seq<Extension>, ext: Extension, oid: Oid)
    ensures Lookup(exts + [ext], oid)
            == if Lookup(exts, oid).Some? then Lookup(exts, oid) else if ext.oid == oid then Some(ext) else None
  {
    if exts != [] {
      assert (exts + [ext])[1..] == exts[1..] + [ext];
      LookupAppend(exts[1..], ext, oid);
    }
  }

  lemma LookupUpserted(exts: seq<Extension>, ext: Extension, oid: Oid)
    ensures Lookup(Upserted(exts, ext), oid) == if oid == ext.oid then Some(ext) else Lookup(exts, oid)
  {
    LookupWithout(exts, ext.oid, oid);
    LookupAppend(Without(exts, ext.oid), ext, oid);
  }

  lemma {:induction false} LookupUpsertedAll(exts: seq<Extension>, more: seq<Extension>, oid: Oid)
    ensures Lookup(UpsertedAll(exts, more), oid)
            == if LookupLast(more, oid).Some? then LookupLast(more, oid) else Lookup(exts, oid)
  {
    if more != [] {
      var front := more[..|more| - 1];
      LookupUpsertedAll(exts, front, oid);
      LookupUpserted(UpsertedAll(exts, front), more[|more| - 1], oid);
    }
  }

  lemma LookupMarked(exts: seq<Extension>, renewable: bool, oid: Oid)
    ensures Lookup(WithMarker(exts, renewable), oid)
            == if oid != NonRenewableOid then Lookup(exts, oid)
               else if renewable then None else Some(NON_RENEWABLE_EXTENSION)
  {
    LookupWithout(exts, NonRenewableOid, oid);
    LookupAppend(Without(exts, NonRenewableOid), NON_RENEWABLE_EXTENSION, oid);
  }

  lemma LookupKeyIds(der: Der, exts: seq<Extension>, spki: Bytes, caKeyId: Bytes, oid: Oid)
    ensures Lookup(WithKeyIds(der, exts, spki, caKeyId), oid)
            == if oid == SubjectKeyIdOid then Some(SubjectKeyIdExtension(der, spki))
               else if oid == AuthorityKeyIdOid then Some(AuthorityKeyIdExtension(der, caKeyId))
               else Lookup(exts, oid)
  {
    LookupUpserted(exts, SubjectKeyIdExtension(der, spki), oid);
    LookupUpserted(Upserted(exts, SubjectKeyIdExtension(der, spki)), AuthorityKeyIdExtension(der, caKeyId), oid);
  }

  lemma {:induction false} WithoutMember(exts: seq<Extension>, oid: Oid, e: Extension)
    ensures e in Without(exts, oid) <==> e in exts && e.oid != oid
  {
    if exts != [] {
      WithoutMember(exts[1..], oid, e);
    }
  }

  lemma {:induction false} LookupNone(exts: seq<Extension>, oid: Oid)
    requires forall e :: e in exts ==> e.oid != oid
    ensures Lookup(exts, oid).None?
  {
    if exts != [] {
      assert exts[0] in exts;
      LookupNone(exts[1..], oid);
    }
  }

  lemma {:induction false} DistinctWithout(exts: seq<Extension>, oid: Oid)
    requires DistinctOids(exts)
    ensures DistinctOids(Without(exts, oid))
  {
    if exts != [] {
      DistinctWithout(exts[1..], oid);
      var rest := Without(exts[1..], oid);
      forall j | 0 <= j < |rest| ensures rest[j].oid != exts[0].oid {
        WithoutMember(exts[1..], oid, rest[j]);
      }
    }
  }

  lemma DistinctAppend(exts: seq<Extension>, ext: Extension)
    requires DistinctOids(exts) && forall e :: e in exts ==> e.oid != ext.oid
    ensures DistinctOids(exts + [ext])
  {
    forall i, j | 0 <= i < j < |exts + [ext]| ensures (exts + [ext])[i].oid != (exts + [ext])[j].oid {
      if j == |exts| { assert exts[i] in exts; }
    }
  }

  lemma DistinctUpserted(exts: seq<Extension>, ext: Extension)
    requires DistinctOids(exts)
    ensures DistinctOids(Upserted(exts, ext))
  {
    DistinctWithout(exts, ext.oid);
    forall e ensures e in Without(exts, ext.oid) <==> e in exts && e.oid != ext.oid {
      WithoutMember(exts, ext.oid, e);
    }
    DistinctAppend(Without(exts, ext.oid), ext);
  }

  lemma {:induction false} DistinctUpsertedAll(exts: seq<Extension>, more: seq<Extension>)
    requires DistinctOids(exts)
    ensures DistinctOids(UpsertedAll(exts, more))
  {
    if more != [] {
      DistinctUpsertedAll(exts, more[..|more| - 1]);
      DistinctUpserted(UpsertedAll(exts, more[..|more| - 1]), more[|more| - 1]);
    }
  }

  lemma DistinctMarked(exts: seq<Extension>, renewable: bool)
    requires DistinctOids(exts)
    ensures DistinctOids(WithMarker(exts, renewable))
  {
    DistinctWithout(exts, NonRenewableOid);
    forall e ensures e in Without(exts, NonRenewableOid) <==> e in exts && e.oid != NonRenewableOid {
      WithoutMember(exts, NonRenewableOid, e);
    }
    DistinctAppend(Without(exts, NonRenewableOid), NON_RENEWABLE_EXTENSION);
  }

  lemma DistinctKeyIds(der: Der, exts: seq<Extension>, spki: Bytes, caKeyId: Bytes)
    requires DistinctOids(exts)
    ensures DistinctOids(WithKeyIds(der, exts, spki, caKeyId))
  {
    DistinctUpserted(exts, SubjectKeyIdExtension(der, spki));
    DistinctUpserted(Upserted(exts, SubjectKeyIdExtension(der, spki)), AuthorityKeyIdExtension(der, caKeyId));
  }

  // ----- What a certificate finally carries -----

  /** The extension a fresh certificate carries under each identifier, in order of precedence. */
  function IssuedMeaning(der: Der, p: Profile, spki: Bytes, sans: seq<San>, caKeyId: Bytes,
                         subjectEmpty: bool, o: Overrides, renewable: bool, oid: Oid): Option<Extension>
    requires SansEncodable(der, sans)
  {
    if oid == NonRenewableOid then (if renewable then None else Some(NON_RENEWABLE_EXTENSION))
    else if oid == SubjectKeyIdOid then Some(SubjectKeyIdExtension(der, spki))
    else if oid == AuthorityKeyIdOid then Some(AuthorityKeyIdExtension(der, caKeyId))
    else if LookupLast(o.additional, oid).Some? then LookupLast(o.additional, oid)
    else if oid == SubjectAltNameOid then SubjectAltNameExtension(der, sans, subjectEmpty)
    else if oid == ExtKeyUsageOid then ExtKeyUsageExtension(der, o.extKeyUsage.UnwrapOr(p.extKeyUsage))
    else if oid == KeyUsageOid then KeyUsageExtension(der, o.keyUsage.UnwrapOr(p.keyUsage))
    else if oid == BasicConstraintsOid then Some(BasicConstraintsExtension(der, p))
    else None
  }

  lemma LookupUpsertedSome(exts: seq<Extension>, ext: Option<Extension>, at: Oid, oid: Oid)
    requires ext.Some? ==> ext.value.oid == at
    ensures Lookup(UpsertedSome(exts, ext), oid)
            == if oid == at && ext.Some? then ext else Lookup(exts, oid)
    ensures DistinctOids(exts) ==> DistinctOids(UpsertedSome(exts, ext))
  {
    if ext.Some? {
      LookupUpserted(exts, ext.value, oid);
      if DistinctOids(exts) { DistinctUpserted(exts, ext.value); }
    }
  }

  lemma TemplateCarries(der: Der, p: Profile, sans: seq<San>, subjectEmpty: bool, o: Overrides, oid: Oid)
    requires SansEncodable(der, sans)
    ensures
      var exts := TemplateExtensions(der, p, sans, subjectEmpty, o);
      DistinctOids(exts)
      && Lookup(exts, oid)
         == if oid == SubjectAltNameOid then SubjectAltNameExtension(der, sans, subjectEmpty)
            else if oid == ExtKeyUsageOid then ExtKeyUsageExtension(der, o.extKeyUsage.UnwrapOr(p.extKeyUsage))
            else if oid == KeyUsageOid then KeyUsageExtension(der, o.keyUsage.UnwrapOr(p.keyUsage))
            else if oid == BasicConstraintsOid then Some(BasicConstraintsExtension(der, p))
            else None
  {
    var bc := BasicConstraintsExtension(der, p);
    var base := Upserted([], bc);
    LookupUpserted([], bc, oid);
    DistinctUpserted([], bc);
    var kuExt := KeyUsageExtension(der, o.keyUsage.UnwrapOr(p.keyUsage));
    LookupUpsertedSome(base, kuExt, KeyUsageOid, oid);
    var ku := UpsertedSome(base, kuExt);
    var ekuExt := ExtKeyUsageExtension(der, o.extKeyUsage.UnwrapOr(p.extKeyUsage));
    LookupUpsertedSome(ku, ekuExt, ExtKeyUsageOid, oid);
    var eku := UpsertedSome(ku, ekuExt);
    LookupUpsertedSome(eku, SubjectAltNameExtension(der, sans, subjectEmpty), SubjectAltNameOid, oid);
  }

  /** Hook extensions, the marker and the key identifiers, in the order of a fresh issuance. */
  lemma IssueLayers(der: Der, base: seq<Extension>, more: seq<Extension>, spki: Bytes, caKeyId: Bytes, renewable: bool, oid: Oid)
    ensures
      var exts := WithMarker(WithKeyIds(der, UpsertedAll(base, more), spki, caKeyId), renewable);
      (DistinctOids(base) ==> DistinctOids(exts))
      && Lookup(exts, oid)
         == if oid == NonRenewableOid then (if renewable then None else Some(NON_RENEWABLE_EXTENSION))
            else if oid == AuthorityKeyIdOid then Some(AuthorityKeyIdExtension(der, caKeyId))
            else if oid == SubjectKeyIdOid then Some(SubjectKeyIdExtension(der, spki))
            else if LookupLast(more, oid).Some? then LookupLast(more, oid)
            else Lookup(base, oid)
  {
    var all := UpsertedAll(base, more);
    LookupUpsertedAll(base, more, oid);
    LookupKeyIds(der, all, spki, caKeyId, oid);
    LookupMarked(WithKeyIds(der, all, spki, caKeyId), renewable, oid);
    if DistinctOids(base) {
      DistinctUpsertedAll(base, more);
      DistinctKeyIds(der, all, spki, caKeyId);
      DistinctMarked(WithKeyIds(der, all, spki, caKeyId), renewable);
    }
  }

  lemma IssuedCarries(der: Der, p: Profile, spki: Bytes, sans: seq<San>, caKeyId: Bytes,
                      subjectEmpty: bool, o: Overrides, renewable: bool, oid: Oid)
    requires SansEncodable(der, sans)
    ensures
      var exts := IssuedExtensions(der, p, spki, sans, caKeyId, subjectEmpty, o, renewable);
      DistinctOids(exts)
      && Lookup(exts, oid) == IssuedMeaning(der, p, spki, sans, caKeyId, subjectEmpty, o, renewable, oid)
  {
    TemplateCarries(der, p, sans, subjectEmpty, o, oid);
    IssueLayers(der, TemplateExtensions(der, p, sans, subjectEmpty, o), o.additional, spki, caKeyId, renewable, oid);
  }

  lemma LookupInherited(parent: seq<Extension>, oid: Oid)
    ensures Lookup(Inherited(parent), oid)
            == if oid == SubjectKeyIdOid || oid == AuthorityKeyIdOid || oid == SubjectAltNameOid then None
               else Lookup(parent, oid)
    ensures DistinctOids(parent) ==> DistinctOids(Inherited(parent))
  {
    var a := Without(parent, SubjectKeyIdOid);
    var b := Without(a, AuthorityKeyIdOid);
    LookupWithout(parent, SubjectKeyIdOid, oid);
    LookupWithout(a, AuthorityKeyIdOid, oid);
    LookupWithout(b, SubjectAltNameOid, oid);
    if DistinctOids(parent) {
      DistinctWithout(parent, SubjectKeyIdOid);
      DistinctWithout(a, AuthorityKeyIdOid);
      DistinctWithout(b, SubjectAltNameOid);
    }
  }

  lemma LookupOverridden(exts: seq<Extension>, at: Oid, present: bool, ext: Option<Extension>, oid: Oid)
    requires ext.Some? ==> ext.value.oid == at
    ensures Lookup(Overridden(exts, at, present, ext), oid) == if oid == at && present then ext else Lookup(exts, oid)
    ensures DistinctOids(exts) ==> DistinctOids(Overridden(exts, at, present, ext))
  {
    if present {
      if ext.Some? { LookupUpserted(exts, ext.value, oid); } else { LookupWithout(exts, at, oid); }
      if DistinctOids(exts) {
        if ext.Some? { DistinctUpserted(exts, ext.value); } else { DistinctWithout(exts, at); }
      }
    }
  }

  /** The extension a reissued certificate carries under each identifier. */
  function ReissuedMeaning(der: Der, parent: seq<Extension>, spki: Bytes, sans: seq<San>, caKeyId: Bytes,
                           subjectEmpty: bool, o: Overrides, renewable: bool, oid: Oid): Option<Extension>
    requires SansEncodable(der, sans)
  {
    if oid == NonRenewableOid then (if renewable then None else Some(NON_RENEWABLE_EXTENSION))
    else if oid == SubjectKeyIdOid then Some(SubjectKeyIdExtension(der, spki))
    else if oid == AuthorityKeyIdOid then Some(AuthorityKeyIdExtension(der, caKeyId))
    else if LookupLast(o.additional, oid).Some? then LookupLast(o.additional, oid)
    else if oid == SubjectAltNameOid then SubjectAltNameExtension(der, sans, subjectEmpty)
    else if oid == ExtKeyUsageOid && o.extKeyUsage.Some? then ExtKeyUsageExtension(der, o.extKeyUsage.value)
    else if oid == KeyUsageOid && o.keyUsage.Some? then KeyUsageExtension(der, o.keyUsage.value)
    else Lookup(parent, oid)
  }

  lemma CarriedCarries(der: Der, parent: seq<Extension>, sans: seq<San>, subjectEmpty: bool, o: Overrides, oid: Oid)
    requires SansEncodable(der, sans)
    ensures
      var exts := CarriedExtensions(der, parent, sans, subjectEmpty, o);
      (DistinctOids(parent) ==> DistinctOids(exts))
      && Lookup(exts, oid)
         == if oid == SubjectAltNameOid then SubjectAltNameExtension(der, sans, subjectEmpty)
            else if oid == SubjectKeyIdOid || oid == AuthorityKeyIdOid then None
            else if oid == ExtKeyUsageOid && o.extKeyUsage.Some? then ExtKeyUsageExtension(der, o.extKeyUsage.value)
            else if oid == KeyUsageOid && o.keyUsage.Some? then KeyUsageExtension(der, o.keyUsage.value)
            else Lookup(parent, oid)
  {
    LookupInherited(parent, oid);
    var sanExt := SubjectAltNameExtension(der, sans, subjectEmpty);
    LookupUpsertedSome(Inherited(parent), sanExt, SubjectAltNameOid, oid);
    var san := UpsertedSome(Inherited(parent), sanExt);
    var kuExt := KeyUsageExtension(der, o.keyUsage.UnwrapOr([]));
    LookupOverridden(san, KeyUsageOid, o.keyUsage.Some?, kuExt, oid);
    var ku := Overridden(san, KeyUsageOid, o.keyUsage.Some?, kuExt);
    LookupOverridden(ku, ExtKeyUsageOid, o.extKeyUsage.Some?, ExtKeyUsageExtension(der, o.extKeyUsage.UnwrapOr([])), oid);
  }

  /** The same layers in the order of a reissue. */
  lemma ReissueLayers(der: Der, base: seq<Extension>, more: seq<Extension>, spki: Bytes, caKeyId: Bytes, renewable: bool, oid: Oid)
    ensures
      var exts := WithKeyIds(der, WithMarker(UpsertedAll(base, more), renewable), spki, caKeyId);
      (DistinctOids(base) ==> DistinctOids(exts))
      && Lookup(exts, oid)
         == if oid == NonRenewableOid then (if renewable then None else Some(NON_RENEWABLE_EXTENSION))
            else if oid == AuthorityKeyIdOid then Some(AuthorityKeyIdExtension(der, caKeyId))
            else if oid == SubjectKeyIdOid then Some(SubjectKeyIdExtension(der, spki))
            else if LookupLast(more, oid).Some? then LookupLast(more, oid)
            else Lookup(base, oid)
  {
    var all := UpsertedAll(base, more);
    LookupUpsertedAll(base, more, oid);
    LookupMarked(all, renewable, oid);
    LookupKeyIds(der, WithMarker(all, renewable), spki, caKeyId, oid);
    if DistinctOids(base) {
      DistinctUpsertedAll(base, more);
      DistinctMarked(all, renewable);
      DistinctKeyIds(der, WithMarker(all, renewable), spki, caKeyId);
    }
  }

  lemma ReissuedCarries(der: Der, parent: seq<Extension>, spki: Bytes, sans: seq<San>, caKeyId: Bytes,
                        subjectEmpty: bool, o: Overrides, renewable: bool, oid: Oid)
    requires SansEncodable(der, sans)
    ensures
      var exts := ReissuedExtensions(der, parent, spki, sans, caKeyId, subjectEmpty, o, renewable);
      (DistinctOids(parent) ==> DistinctOids(exts))
      && Lookup(exts, oid) == ReissuedMeaning(der, parent, spki, sans, caKeyId, subjectEmpty, o, renewable, oid)
  {
    CarriedCarries(der, parent, sans, subjectEmpty, o, oid);
    ReissueLayers(der, CarriedExtensions(der, parent, sans, subjectEmpty, o), o.additional, spki, caKeyId, renewable, oid);
  }

  // ----- SANs across a reissue -----

  lemma {:induction false} CertSansNone(der: Der, exts: seq<Extension>)
    requires Lookup(exts, SubjectAltNameOid).None?
    ensures CertSans(der, exts) == Some([])
  {
    if exts != [] { CertSansNone(der, exts[1..]); }
  }

  /** With distinct identifiers, the SANs read back are those of the one SAN extension. */
  lemma {:induction false} CertSansIsLookup(der: Der, exts: seq<Extension>)
    requires DistinctOids(exts)
    ensures CertSans(der, exts)
            == match Lookup(exts, SubjectAltNameOid)
               case None => Some([])
               case Some(ext) => der.decodeSans(ext.value)
  {
    if exts != [] {
      if exts[0].oid == SubjectAltNameOid {
        forall e | e in exts[1..] ensures e.oid != SubjectAltNameOid {
          var j :| 0 <= j < |exts[1..]| && exts[1..][j] == e;
          assert exts[j + 1] == e;
        }
        LookupNone(exts[1..], SubjectAltNameOid);
        CertSansNone(der, exts[1..]);
        if der.decodeSans(exts[0].value).Some? {
          assert der.decodeSans(exts[0].value).value + [] == der.decodeSans(exts[0].value).value;
        }
      } else {
        CertSansIsLookup(der, exts[1..]);
      }
    }
  }

  /** A hookless reissue keeps every other extension and re-encodes exactly the parent's SANs. */
  lemma HooklessReissue(der: Der, parent: seq<Extension>, spki: Bytes, caKeyId: Bytes, subjectEmpty: bool)
    requires der.SansInvert() && DistinctOids(parent)
    requires CertSans(der, parent).Some? && SansEncodable(der, CertSans(der, parent).value)
    requires Lookup(parent, NonRenewableOid).None?
    ensures
      var sans := CertSans(der, parent).value;
      var exts := ReissuedExtensions(der, parent, spki, sans, caKeyId, subjectEmpty, NO_OVERRIDES, true);
      && DistinctOids(exts)
      && CertSans(der, exts) == Some(sans)
      && forall oid :: oid != SubjectKeyIdOid && oid != AuthorityKeyIdOid && oid != SubjectAltNameOid
           ==> Lookup(exts, oid) == Lookup(parent, oid)
  {
    var sans := CertSans(der, parent).value;
    var exts := ReissuedExtensions(der, parent, spki, sans, caKeyId, subjectEmpty, NO_OVERRIDES, true);
    ReissuedCarries(der, parent, spki, sans, caKeyId, subjectEmpty, NO_OVERRIDES, true, SubjectAltNameOid);
    forall oid
      ensures Lookup(exts, oid) == ReissuedMeaning(der, parent, spki, sans, caKeyId, subjectEmpty, NO_OVERRIDES, true, oid)
    {
      ReissuedCarries(der, parent, spki, sans, caKeyId, subjectEmpty, NO_OVERRIDES, true, oid);
    }
    CertSansIsLookup(der, exts);
  }
}
