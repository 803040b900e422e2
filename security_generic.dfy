/**
 * The generic security configuration resolver of the client's connection
 * layer. For one Security object instance (LwM2M object 0) it reads the
 * Security Mode resource, checks the mode against the security of the
 * server URI's transport, reads up to three key-material resources under
 * per-field REQUIRED/OPTIONAL rules, and builds the security descriptor
 * handed to the transport: nothing, a PSK pair, or a certificate with a
 * private key and, when server key material is present, a DANE TLSA
 * record pinning it. Every step can fail, and the first failure aborts.
 *
 * The data model is seen through its reads: the mode resource is an
 * optional integer, the key resources a map from resource id to bytes.
 */
module SecurityGeneric {
  import opened Dm

  newtype byte = x: int | 0 <= x < 256
  type Bytes = seq<byte>

  /** The key-material resources of the Security object (object 0). */
  const RID_PK_OR_IDENTITY: Id16 := 3
  const RID_SERVER_PK_OR_IDENTITY: Id16 := 4
  const RID_SECRET_KEY: Id16 := 5

  /** The Security Mode values of object 0. */
  datatype SecurityMode = Psk | Rpk | Certificate | NoSec | Est

  function ModeCode(m: SecurityMode): int
  {
    match m
    case Psk => 0
    case Rpk => 1
    case Certificate => 2
    case NoSec => 3
    case Est => 4
  }

  /**
   * get_security_mode: a failed read, the unsupported raw-public-key mode
   * and any out-of-range value all give the same failure; the four
   * supported codes give their mode.
   */
  function GetSecurityMode(read: Option<int>): (r: Option<SecurityMode>)
    ensures r.Some? <==> read.Some? && (read.value == 0 || read.value == 2 || read.value == 3 || read.value == 4)
    ensures r.Some? ==> ModeCode(r.value) == read.value && r.value != Rpk
  {
    if read.None? then None
    else match read.value
      case 0 => Some(Psk)
      case 2 => Some(Certificate)
      case 3 => Some(NoSec)
      case 4 => Some(Est)
      case _ => None
  }

  /** Reading back a stored mode code gives that mode, unless it is the unsupported one. */
  lemma GetSecurityModeRoundTrip(m: SecurityMode)
    ensures GetSecurityMode(Some(ModeCode(m))) == (if m == Rpk then None else Some(m))
  {
  }

  /** What a URI scheme says about transport security. */
  datatype TransportSecurity = SecurityUndefined | Unencrypted | Encrypted

  /** The transport looked up by URI scheme. */
  datatype TransportInfo = TransportInfo(uriScheme: string, security: TransportSecurity)

  /**
   * security_matches_transport: a scheme that does not say accepts every
   * mode; otherwise the no-security mode needs a plain scheme and every
   * other mode an encrypted one.
   */
  predicate SecurityMatchesTransport(mode: SecurityMode, transport: TransportInfo)
  {
    transport.security == SecurityUndefined
    || (transport.security == Encrypted) == (mode != NoSec)
  }

  /** The match rule case by case, in both directions. */
  lemma SecurityMatchesTransportCases(mode: SecurityMode, transport: TransportInfo)
    ensures SecurityMatchesTransport(mode, transport) <==>
              || transport.security == SecurityUndefined
              || (mode == NoSec && transport.security == Unencrypted)
              || (mode != NoSec && transport.security == Encrypted)
  {
  }

  /** The key material of one Security instance, each buffer with its size. */
  datatype DtlsKeys = DtlsKeys(pkOrIdentity: Bytes, serverPkOrIdentity: Bytes, secretKey: Bytes)

  /** The zeroed key buffers of a fresh allocation: every size 0. */
  const EMPTY_KEYS: DtlsKeys := DtlsKeys([], [], [])

  /** The capacity of each key buffer. */
  datatype KeyCapacities = KeyCapacities(pkOrIdentity: nat, serverPkOrIdentity: nat, secretKey: nat)

  /** Which buffer of the key material a value definition fills. */
  datatype KeyField = PkOrIdentityField | ServerPkOrIdentityField | SecretKeyField

  function Capacity(caps: KeyCapacities, field: KeyField): nat
  {
    match field
    case PkOrIdentityField => caps.pkOrIdentity
    case ServerPkOrIdentityField => caps.serverPkOrIdentity
    case SecretKeyField => caps.secretKey
  }

  /** The key material with one buffer replaced. */
  function WithField(keys: DtlsKeys, field: KeyField, value: Bytes): DtlsKeys
  {
    match field
    case PkOrIdentityField => keys.(pkOrIdentity := value)
    case ServerPkOrIdentityField => keys.(serverPkOrIdentity := value)
    case SecretKeyField => keys.(secretKey := value)
  }

  datatype ValueStatus = Skip | Optional | Required

  /** One entry of the field table: how to treat a failed read, which resource, which buffer. */
  datatype ValueDef = ValueDef(status: ValueStatus, rid: Id16, field: KeyField)

  /**
   * The field table, in reading order: the client's identity or public
   * key, the server's, and the secret key. Only the server's is optional,
   * and only in PSK mode.
   */
  function ValueDefs(mode: SecurityMode): seq<ValueDef>
  {
    [ ValueDef(Required, RID_PK_OR_IDENTITY, PkOrIdentityField),
      ValueDef(if mode != Psk then Required else Optional, RID_SERVER_PK_OR_IDENTITY, ServerPkOrIdentityField),
      ValueDef(Required, RID_SECRET_KEY, SecretKeyField) ]
  }

  /** The resources of one Security instance as the resolver reads them. */
  datatype SecurityInstance = SecurityInstance(securityMode: Option<int>, keyResources: map<Id16, Bytes>)

  /** One resource read into a buffer: absent resources and values that do not fit fail. */
  function ReadResource(inst: SecurityInstance, rid: Id16, capacity: nat): (r: Option<Bytes>)
    ensures r.Some? <==> rid in inst.keyResources && |inst.keyResources[rid]| <= capacity
    ensures r.Some? ==> r.value == inst.keyResources[rid] && |r.value| <= capacity
  {
    if rid in inst.keyResources && |inst.keyResources[rid]| <= capacity
    then Some(inst.keyResources[rid]) else None
  }

  /** Whether a key resource can be read into its buffer. */
  predicate Readable(inst: SecurityInstance, caps: KeyCapacities, rid: Id16, field: KeyField)
  {
    ReadResource(inst, rid, Capacity(caps, field)).Some?
  }

  /** The outcome of reading the key material: success, the buffers, and the resources read. */
  datatype KeysOutcome = KeysOutcome(ok: bool, keys: DtlsKeys, trace: seq<Id16>)

  /**
   * The loop of get_dtls_keys over the rest of the field table: skipped
   * entries are not read; a failed required read stops the loop; a failed
   * optional read leaves its buffer as it was.
   */
  function ReadKeys(defs: seq<ValueDef>, inst: SecurityInstance, caps: KeyCapacities, keys: DtlsKeys): KeysOutcome
    decreases |defs|
  {
    if defs == [] then KeysOutcome(true, keys, [])
    else if defs[0].status == Skip then ReadKeys(defs[1..], inst, caps, keys)
    else
      var d := defs[0];
      match ReadResource(inst, d.rid, Capacity(caps, d.field))
      case Some(value) =>
        var rest := ReadKeys(defs[1..], inst, caps, WithField(keys, d.field, value));
        rest.(trace := [d.rid] + rest.trace)
      case None =>
        if d.status == Required then KeysOutcome(false, keys, [d.rid])
        else
          var rest := ReadKeys(defs[1..], inst, caps, keys);
          rest.(trace := [d.rid] + rest.trace)
  }

  /** get_dtls_keys as a whole: nothing is read in no-security mode. */
  function DtlsKeysOf(mode: SecurityMode, inst: SecurityInstance, caps: KeyCapacities): KeysOutcome
  {
    if mode == NoSec then KeysOutcome(true, EMPTY_KEYS, [])
    else ReadKeys(ValueDefs(mode), inst, caps, EMPTY_KEYS)
  }

  /** The success condition of get_dtls_keys, stated field by field. */
  predicate KeysReadable(mode: SecurityMode, inst: SecurityInstance, caps: KeyCapacities)
  {
    mode == NoSec
    || (&& Readable(inst, caps, RID_PK_OR_IDENTITY, PkOrIdentityField)
        && (mode == Psk || Readable(inst, caps, RID_SERVER_PK_OR_IDENTITY, ServerPkOrIdentityField))
        && Readable(inst, caps, RID_SECRET_KEY, SecretKeyField))
  }

  /** The resources get_dtls_keys reads: in table order, up to and including the first failed required one. */
  function KeyReads(mode: SecurityMode, inst: SecurityInstance, caps: KeyCapacities): seq<Id16>
  {
    if mode == NoSec then []
    else if !Readable(inst, caps, RID_PK_OR_IDENTITY, PkOrIdentityField) then [RID_PK_OR_IDENTITY]
    else if mode != Psk && !Readable(inst, caps, RID_SERVER_PK_OR_IDENTITY, ServerPkOrIdentityField)
    then [RID_PK_OR_IDENTITY, RID_SERVER_PK_OR_IDENTITY]
    else [RID_PK_OR_IDENTITY, RID_SERVER_PK_OR_IDENTITY, RID_SECRET_KEY]
  }

  /** The buffers after a successful read: every value read, an unreadable optional one left empty. */
  function ExtractedKeys(mode: SecurityMode, inst: SecurityInstance, caps: KeyCapacities): DtlsKeys
  {
    if mode == NoSec then EMPTY_KEYS
    else
      DtlsKeys(
        if Readable(inst, caps, RID_PK_OR_IDENTITY, PkOrIdentityField) then inst.keyResources[RID_PK_OR_IDENTITY] else [],
        if Readable(inst, caps, RID_SERVER_PK_OR_IDENTITY, ServerPkOrIdentityField) then inst.keyResources[RID_SERVER_PK_OR_IDENTITY] else [],
        if Readable(inst, caps, RID_SECRET_KEY, SecretKeyField) then inst.keyResources[RID_SECRET_KEY] else [])
  }

  /**
   * The loop over the field table agrees with the field-by-field account:
   * it succeeds exactly when every required resource is readable, reads
   * resources in table order up to the first failed required one, and on
   * success leaves each buffer holding its resource.
   */
  lemma DtlsKeysExactly(mode: SecurityMode, inst: SecurityInstance, caps: KeyCapacities)
    ensures DtlsKeysOf(mode, inst, caps).ok <==> KeysReadable(mode, inst, caps)
    ensures DtlsKeysOf(mode, inst, caps).trace == KeyReads(mode, inst, caps)
    ensures DtlsKeysOf(mode, inst, caps).ok ==> DtlsKeysOf(mode, inst, caps).keys == ExtractedKeys(mode, inst, caps)
  {
    if mode != NoSec {
      var defs := ValueDefs(mode);
      var k1 := if Readable(inst, caps, RID_PK_OR_IDENTITY, PkOrIdentityField)
                then EMPTY_KEYS.(pkOrIdentity := inst.keyResources[RID_PK_OR_IDENTITY]) else EMPTY_KEYS;
      var k2 := if Readable(inst, caps, RID_SERVER_PK_OR_IDENTITY, ServerPkOrIdentityField)
                then k1.(serverPkOrIdentity := inst.keyResources[RID_SERVER_PK_OR_IDENTITY]) else k1;
      assert defs[1..][1..][1..] == [];
      ReadKeysStep(defs, inst, caps, EMPTY_KEYS);
      ReadKeysStep(defs[1..], inst, caps, k1);
      ReadKeysStep(defs[1..][1..], inst, caps, k2);
    }
  }

  /** One turn of the loop, for a table entry that is not skipped. */
  lemma ReadKeysStep(defs: seq<ValueDef>, inst: SecurityInstance, caps: KeyCapacities, keys: DtlsKeys)
    requires defs != [] && defs[0].status != Skip
    ensures var d := defs[0];
            var value := ReadResource(inst, d.rid, Capacity(caps, d.field));
            var rest := ReadKeys(defs[1..], inst, caps, if value.Some? then WithField(keys, d.field, value.value) else keys);
            ReadKeys(defs, inst, caps, keys) ==
              if value.None? && d.status == Required then KeysOutcome(false, keys, [d.rid])
              else rest.(trace := [d.rid] + rest.trace)
  {
  }

  /** The DANE certificate usages of section 2.1.1 of RFC 6698. */
  datatype DaneCertificateUsage = CaConstraint | ServiceCertificateConstraint | TrustAnchorAssertion | DomainIssuedCertificate

  function UsageCode(u: DaneCertificateUsage): nat
  {
    match u
    case CaConstraint => 0
    case ServiceCertificateConstraint => 1
    case TrustAnchorAssertion => 2
    case DomainIssuedCertificate => 3
  }

  /** A TLSA record pinning the server: its certificate usage and association data. */
  datatype DaneTlsaRecord = DaneTlsaRecord(certificateUsage: DaneCertificateUsage, associationData: Bytes)

  /** The certificate descriptor handed to the transport. */
  datatype CertificateInfo = CertificateInfo(
    ignoreSystemTrustStore: bool,
    clientCert: Bytes,
    clientKey: Bytes,
    serverCertValidation: bool,
    dane: bool)

  /** The security descriptor: unset (no security), a PSK pair, or a certificate. */
  datatype SecurityInfo =
    | Unset
    | PskInfo(identity: Bytes, key: Bytes)
    | CertInfo(certificate: CertificateInfo)

  /** The resolver's result: ciphersuites, descriptor, and the TLSA record if one is attached. */
  datatype SecurityConfig = SecurityConfig(
    tlsCiphersuites: seq<nat>,
    securityInfo: SecurityInfo,
    daneTlsaRecord: Option<DaneTlsaRecord>)

  /**
   * init_cert_security: the client's key resource is the certificate and
   * the secret key the private key, the system trust store is never used;
   * only non-empty server key material turns on server certificate
   * validation and DANE and attaches the TLSA record, over exactly those
   * bytes.
   */
  function InitCertSecurity(config: SecurityConfig, record: DaneTlsaRecord, keys: DtlsKeys): (r: SecurityConfig)
    ensures r.tlsCiphersuites == config.tlsCiphersuites
    ensures r.securityInfo.CertInfo?
    ensures r.securityInfo.certificate.ignoreSystemTrustStore
    ensures r.securityInfo.certificate.clientCert == keys.pkOrIdentity
    ensures r.securityInfo.certificate.clientKey == keys.secretKey
    ensures r.securityInfo.certificate.serverCertValidation <==> |keys.serverPkOrIdentity| > 0
    ensures r.securityInfo.certificate.dane <==> |keys.serverPkOrIdentity| > 0
    ensures |keys.serverPkOrIdentity| > 0 ==>
              r.daneTlsaRecord == Some(record.(associationData := keys.serverPkOrIdentity))
    ensures |keys.serverPkOrIdentity| == 0 ==> r.daneTlsaRecord == config.daneTlsaRecord
  {
    var pinned := |keys.serverPkOrIdentity| > 0;
    var certificate := CertificateInfo(true, keys.pkOrIdentity, keys.secretKey, pinned, pinned);
    config.(
      securityInfo := CertInfo(certificate),
      daneTlsaRecord := if pinned then Some(record.(associationData := keys.serverPkOrIdentity)) else config.daneTlsaRecord)
  }

  /**
   * init_security: nothing to do for no security, the PSK initialiser for
   * PSK, the certificate builder for certificates and EST, failure for raw
   * public keys. pskInit says whether the PSK initialiser accepts the keys.
   */
  function InitSecurity(config: SecurityConfig, record: DaneTlsaRecord, mode: SecurityMode,
                        keys: DtlsKeys, pskInit: DtlsKeys -> bool): (r: Option<SecurityConfig>)
    ensures r.None? <==> mode == Rpk || (mode == Psk && !pskInit(keys))
    ensures r.Some? && mode == NoSec ==> r.value == config
    ensures r.Some? && mode == Psk ==>
              r.value == config.(securityInfo := PskInfo(keys.pkOrIdentity, keys.secretKey))
    ensures r.Some? && (mode == Certificate || mode == Est) ==>
              r.value == InitCertSecurity(config, record, keys)
  {
    match mode
    case NoSec => Some(config)
    case Psk => if pskInit(keys) then Some(config.(securityInfo := PskInfo(keys.pkOrIdentity, keys.secretKey))) else None
    case Certificate => Some(InitCertSecurity(config, record, keys))
    case Est => Some(InitCertSecurity(config, record, keys))
    case Rpk => None
  }

  /** The connection being set up: which Security instance and server, and the transport if known. */
  datatype ConnectionInfo = ConnectionInfo(
    securityIid: Id16,
    ssid: Id16,
    transportInfo: Option<TransportInfo>,
    isEncrypted: bool)

  /** The zeroed result of the allocation: default ciphersuites, nothing else but the preset usage. */
  function InitialConfig(defaultCiphersuites: seq<nat>): SecurityConfig
  {
    SecurityConfig(defaultCiphersuites, Unset, None)
  }

  const INITIAL_RECORD: DaneTlsaRecord := DaneTlsaRecord(DomainIssuedCertificate, [])

  /** The pipeline of get_config as one expression: mode, transport, keys, descriptor. */
  function ResolveConfig(info: ConnectionInfo, inst: SecurityInstance, caps: KeyCapacities,
                         defaultCiphersuites: seq<nat>, pskInit: DtlsKeys -> bool): Option<SecurityConfig>
  {
    var mode := GetSecurityMode(inst.securityMode);
    if mode.None? then None
    else if info.transportInfo.Some? && !SecurityMatchesTransport(mode.value, info.transportInfo.value) then None
    else
      var keys := DtlsKeysOf(mode.value, inst, caps);
      if !keys.ok then None
      else InitSecurity(InitialConfig(defaultCiphersuites), INITIAL_RECORD, mode.value, keys.keys, pskInit)
  }

  /**
   * get_config succeeds exactly when the mode is supported, matches the
   * transport when one is known, every required key resource is readable
   * and the descriptor can be built; it then carries the default
   * ciphersuites.
   */
  lemma ResolveConfigSucceeds(info: ConnectionInfo, inst: SecurityInstance, caps: KeyCapacities,
                              defaultCiphersuites: seq<nat>, pskInit: DtlsKeys -> bool)
    ensures var r := ResolveConfig(info, inst, caps, defaultCiphersuites, pskInit);
            var mode := GetSecurityMode(inst.securityMode);
            && (r.Some? <==>
                  && mode.Some?
                  && (info.transportInfo.Some? ==> SecurityMatchesTransport(mode.value, info.transportInfo.value))
                  && KeysReadable(mode.value, inst, caps)
                  && (mode.value == Psk ==> pskInit(ExtractedKeys(mode.value, inst, caps))))
            && (r.Some? ==> r.value.tlsCiphersuites == defaultCiphersuites)
  {
    var mode := GetSecurityMode(inst.securityMode);
    if mode.Some? {
      DtlsKeysExactly(mode.value, inst, caps);
    }
  }

  /**
   * What each mode resolves to: no security gives an unset descriptor
   * without a TLSA record; PSK the pair of client identity and secret key;
   * certificates and EST a certificate descriptor pinned to the server key
   * exactly when that key is non-empty.
   */
  lemma ResolveConfigDescriptor(info: ConnectionInfo, inst: SecurityInstance, caps: KeyCapacities,
                                defaultCiphersuites: seq<nat>, pskInit: DtlsKeys -> bool)
    requires ResolveConfig(info, inst, caps, defaultCiphersuites, pskInit).Some?
    ensures var c := ResolveConfig(info, inst, caps, defaultCiphersuites, pskInit).value;
            var mode := GetSecurityMode(inst.securityMode).value;
            var keys := ExtractedKeys(mode, inst, caps);
            && (mode == NoSec ==> c.securityInfo == Unset && c.daneTlsaRecord == None)
            && (mode == Psk ==> c.securityInfo == PskInfo(keys.pkOrIdentity, keys.secretKey) && c.daneTlsaRecord == None)
            && ((mode == Certificate || mode == Est) ==>
                  && c.securityInfo.CertInfo?
                  && c.securityInfo.certificate.clientCert == keys.pkOrIdentity
                  && c.securityInfo.certificate.clientKey == keys.secretKey
                  && (c.daneTlsaRecord.Some? <==> |keys.serverPkOrIdentity| > 0)
                  && (c.daneTlsaRecord.Some? ==>
                        && c.daneTlsaRecord.value == DaneTlsaRecord(DomainIssuedCertificate, keys.serverPkOrIdentity)
                        && UsageCode(c.daneTlsaRecord.value.certificateUsage) == 3))
  {
    var mode := GetSecurityMode(inst.securityMode).value;
    DtlsKeysExactly(mode, inst, caps);
  }

  /**
   * get_dtls_keys: walks the field table, reading each entry that is not
   * skipped into its buffer, and stops at the first failed required read.
   */
  method GetDtlsKeys(mode: SecurityMode, inst: SecurityInstance, caps: KeyCapacities)
    returns (ok: bool, keys: DtlsKeys, trace: seq<Id16>)
    ensures KeysOutcome(ok, keys, trace) == DtlsKeysOf(mode, inst, caps)
    ensures ok <==> KeysReadable(mode, inst, caps)
    ensures trace == KeyReads(mode, inst, caps)
    ensures ok ==> keys == ExtractedKeys(mode, inst, caps)
  {
    DtlsKeysExactly(mode, inst, caps);
    keys := EMPTY_KEYS;
    trace := [];
    if mode == NoSec {
      return true, keys, trace;
    }
    var defs := ValueDefs(mode);
    var i := 0;
    while i < |defs|
      invariant 0 <= i <= |defs|
      invariant var rest := ReadKeys(defs[i..], inst, caps, keys);
                DtlsKeysOf(mode, inst, caps) == rest.(trace := trace + rest.trace)
    {
      var d := defs[i];
      assert defs[i..][1..] == defs[i + 1..];
      if d.status != Skip {
        var value := ReadResource(inst, d.rid, Capacity(caps, d.field));
        trace := trace + [d.rid];
        if value.None? && d.status == Required {
          return false, keys, trace;
        }
        if value.Some? {
          keys := WithField(keys, d.field, value.value);
        }
      }
      i := i + 1;
    }
    ok := true;
  }

  /**
   * _anjay_connection_security_generic_get_config: the zeroed result is
   * given the default ciphersuites and a TLSA record preset to the
   * domain-issued-certificate usage; then the mode is read, checked
   * against the transport when one is known, the keys are read and the
   * descriptor built, and the first failure gives no result. On success
   * the connection is marked encrypted exactly when the mode is not
   * no-security.
   */
  method GetConfig(info: ConnectionInfo, inst: SecurityInstance, caps: KeyCapacities,
                   defaultCiphersuites: seq<nat>, pskInit: DtlsKeys -> bool)
    returns (config: Option<SecurityConfig>, outInfo: ConnectionInfo, keyReads: seq<Id16>)
    ensures config == ResolveConfig(info, inst, caps, defaultCiphersuites, pskInit)
    ensures config.Some? ==>
              outInfo == info.(isEncrypted := GetSecurityMode(inst.securityMode).value != NoSec)
    ensures config.None? ==> outInfo == info
    ensures GetSecurityMode(inst.securityMode).None? ==> keyReads == []
    ensures GetSecurityMode(inst.securityMode) == Some(NoSec) ==> keyReads == []
    ensures info.transportInfo.Some? && GetSecurityMode(inst.securityMode).Some?
            && !SecurityMatchesTransport(GetSecurityMode(inst.securityMode).value, info.transportInfo.value)
            ==> keyReads == []
  {
    outInfo := info;
    keyReads := [];
    var result := InitialConfig(defaultCiphersuites);
    var record := INITIAL_RECORD;
    var mode := GetSecurityMode(inst.securityMode);
    if mode.None? {
      return None, outInfo, keyReads;
    }
    if info.transportInfo.Some? && !SecurityMatchesTransport(mode.value, info.transportInfo.value) {
      return None, outInfo, keyReads;
    }
    var ok, keys;
    ok, keys, keyReads := GetDtlsKeys(mode.value, inst, caps);
    if !ok {
      return None, outInfo, keyReads;
    }
    config := InitSecurity(result, record, mode.value, keys, pskInit);
    if config.Some? {
      outInfo := info.(isEncrypted := mode.value != NoSec);
    }
  }

  /** The parts of a parsed server URI that the acceptance rule looks at. */
  datatype ParsedUrl = ParsedUrl(protocol: string, user: Option<string>, password: Option<string>, port: Option<string>)

  /** The URI is refused when it carries credentials or an empty port. */
  predicate UrlAcceptable(url: ParsedUrl)
  {
    url.user.None? && url.password.None? && (url.port.Some? ==> url.port.value != "")
  }

  /**
   * _anjay_connection_security_generic_get_uri: a failed read of the
   * Server URI resource, a URI the parser rejects, a scheme with no known
   * transport, credentials in the URI or an empty port all fail; otherwise
   * the parsed URI and its transport are returned. The parser and the
   * scheme table are parameters.
   */
  function GetUri(raw: Option<string>, parse: string -> Option<ParsedUrl>,
                  transportByScheme: string -> Option<TransportInfo>): (r: Option<(ParsedUrl, TransportInfo)>)
    ensures r.Some? <==>
              && raw.Some?
              && parse(raw.value).Some?
              && transportByScheme(parse(raw.value).value.protocol).Some?
              && UrlAcceptable(parse(raw.value).value)
    ensures r.Some? ==>
              && r.value.0 == parse(raw.value).value
              && r.value.1 == transportByScheme(r.value.0.protocol).value
              && r.value.0.user.None? && r.value.0.password.None?
  {
    if raw.None? then None
    else
      var url := parse(raw.value);
      if url.None? then None
      else
        var transport := transportByScheme(url.value.protocol);
        if transport.None? || !UrlAcceptable(url.value) then None
        else Some((url.value, transport.value))
  }
}
