/** Certificates as the CA builds them (ayane/src/x509.rs), over an uninterpreted DER library. */
module Certificates {
  import opened Basics

  /** Object identifiers: the ones the CA writes itself by name, any other by its arcs. */
  datatype Oid =
    | SubjectKeyIdOid      // 2.5.29.14
    | KeyUsageOid          // 2.5.29.15
    | SubjectAltNameOid    // 2.5.29.17
    | BasicConstraintsOid  // 2.5.29.19
    | AuthorityKeyIdOid    // 2.5.29.35
    | ExtKeyUsageOid       // 2.5.29.37
    | NonRenewableOid      // 1.3.6.1.4.1.47517.9.1.509.1
    | OtherOid(arcs: seq<nat>)

  datatype Extension = Extension(oid: Oid, critical: bool, value: Bytes)

  datatype San = Dns(name: string) | Ip(octets: Bytes) | Email(mailbox: string) | Uri(uri: string)

  datatype KeyUsageName =
    | DigitalSignature | ContentCommitment | KeyEncipherment | DataEncipherment | KeyAgreement
    | KeyCertSign | CrlSign | EncipherOnly | DecipherOnly

  datatype ExtKeyUsageName = ServerAuth | ClientAuth | CodeSigning | EmailProtection | TimeStamping | OcspSigning

  /** The subject: empty, or a single common name. */
  type Subject = Option<string>

  function NameWithCommonName(cn: string): Subject {
    if cn == "" then None else Some(cn)
  }

  datatype Certificate = Certificate(
    serial: Bytes, subject: Subject, notBefore: Instant, notAfter: Instant, spki: Bytes, extensions: seq<Extension>)

  /** The DER encoders and decoders; SAN encoding can fail on a name outside IA5. */
  datatype Der = Der(
    encodeSans: seq<San> -> Option<Bytes>,
    decodeSans: Bytes -> Option<seq<San>>,
    basicConstraints: (bool, Option<nat>) -> Bytes,
    keyUsage: seq<KeyUsageName> -> Bytes,
    extKeyUsage: seq<ExtKeyUsageName> -> Bytes,
    keyIdentifier: Bytes -> Bytes,
    subjectKeyId: Bytes -> Bytes,
    authorityKeyId: Bytes -> Bytes)
  {
    /** Decoding inverts encoding. */
    ghost predicate SansInvert() {
      forall sans :: encodeSans(sans).Some? ==> decodeSans(encodeSans(sans).value) == Some(sans)
    }
  }

  // ----- Extension lists -----

  /** The first extension with this identifier, as `iter().find` returns it. */
  function Lookup(exts: seq<Extension>, oid: Oid): Option<Extension> {
    if exts == [] then None
    else if exts[0].oid == oid then Some(exts[0])
    else Lookup(exts[1..], oid)
  }

  /** The last extension with this identifier. */
  function LookupLast(exts: seq<Extension>, oid: Oid): Option<Extension> {
    if exts == [] then None
    else if exts[|exts| - 1].oid == oid then Some(exts[|exts| - 1])
    else LookupLast(exts[..|exts| - 1], oid)
  }

  ghost predicate DistinctOids(exts: seq<Extension>) {
    forall i, j :: 0 <= i < j < |exts| ==> exts[i].oid != exts[j].oid
  }

  // ----- The non-renewable marker -----

  /** DER of BOOLEAN FALSE. */
  const DER_FALSE: Bytes := [1, 1, 0]
  const DER_TRUE: Bytes := [1, 1, 255]

  function DecodeBool(value: Bytes): Option<bool> {
    if value == DER_FALSE then Some(false) else if value == DER_TRUE then Some(true) else None
  }

  const NON_RENEWABLE_EXTENSION := Extension(NonRenewableOid, false, DER_FALSE)

  /** Marked when present and not decodable as TRUE: fails closed. */
  predicate IsMarkedNonRenewable(cert: Certificate) {
    match Lookup(cert.extensions, NonRenewableOid)
    case Some(ext) => !DecodeBool(ext.value).UnwrapOr(false)
    case None => false
  }
}
