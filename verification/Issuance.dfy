/**
 * Issuing and validating licenses. A package carries payload bytes and a signature over a
 * length-prefixed input; the two issuers and the validator each build that input themselves.
 * The FlatBuffers layout is abstract: a package either unpacks to its four fields or does not,
 * and a reader turns payload bytes into the fields of a license.
 */
module Issuance {
  import opened Bytes
  import opened Crypto
  import opened Messages
  import opened Licensing

  const MAX_PACKAGE: nat := 1024 * 1024
  const MAX_IDENTIFIER: nat := 255
  const MAX_TEXT: nat := 1024

  datatype Policy = Policy(mode: int, machineId: Option<Bytes>)

  datatype Payload = Payload(
    licenseId: Option<Bytes>, product: Option<Bytes>, customer: Option<Bytes>, issueTime: U64, notBefore: U64,
      expire: U64,
    kind: int, features: Option<seq<Bytes>>, maxSessions: U32, policy: Option<Policy>)

  datatype Package = Package(version: U16, keyId: Option<Bytes>, payload: Option<Bytes>, signature: Option<Signature>)

  /** Packed: carries the file identifier and passes the package verifier. */
  datatype Blob = Packed(package: Package, size: nat) | Unpackable(raw: Bytes)

  /** What the payload verifier and accessors make of payload bytes. */
  type Reader = Bytes -> Option<Payload>

  const TRIAL: int := 0
  const SUBSCRIPTION: int := 1
  const PERMANENT: int := 2
  const UNBOUND: int := 0
  const EXACT: int := 1

  // ---- the signed bytes ----

  const LICENSE_DOMAIN: Bytes := Ascii("YOAUTHORIZE-LICENSE-V1")

  /** Lengths are written in two and four bytes, as the casts leave them. */
  function SigningInput(version: nat, keyId: Bytes, payload: Bytes): Bytes {
    LICENSE_DOMAIN + BigEndian(version, 2) + BigEndian(|keyId|, 2) + keyId + BigEndian(|payload|, 4) + payload
  }

  lemma SigningFields(version: nat, keyId: Bytes, payload: Bytes)
    ensures var s := SigningInput(version, keyId, payload);
            && |s| == 30 + |keyId| + |payload|
            && s[..22] == LICENSE_DOMAIN
            && s[22..24] == BigEndian(version, 2)
            && s[24..26] == BigEndian(|keyId|, 2)
            && s[26..26 + |keyId|] == keyId
            && s[30 + |keyId|..] == payload
  {
  }

  /** The signed bytes determine version, key id and payload. */
  lemma SigningInputInjective(v: U16, k: Bytes, p: Bytes, w: U16, l: Bytes, q: Bytes)
    requires |k| < U16_LIMIT && |l| < U16_LIMIT && SigningInput(v, k, p) == SigningInput(w, l, q)
    ensures v == w && k == l && p == q
  {
    SigningFields(v, k, p);
    SigningFields(w, l, q);
    PowerLimits();
    BigEndianInjective(v, w, 2);
    BigEndianInjective(|k|, |l|, 2);
  }

  /** No license is signed by signing a handshake, and no handshake by signing a license. */
  lemma DomainsSeparate(version: nat, keyId: Bytes, payload: Bytes, t: Transcript)
    ensures SigningInput(version, keyId, payload) != TranscriptBytes(t)
  {
    SigningFields(version, keyId, payload);
    assert SigningInput(version, keyId, payload)[12] == LICENSE_DOMAIN[12] == 'L' as int;
    assert TranscriptBytes(t)[12] == HANDSHAKE_DOMAIN[12] == 'S' as int;
  }

  method AppendU16(output: Bytes, value: nat) returns (r: Bytes)
    ensures r == output + BigEndian(value, 2)
  {
    r := output + [(value / 256) % 256];
    r := r + [value % 256];
    TwoBytes(value);
  }

  method AppendU32(output: Bytes, value: nat) returns (r: Bytes)
    ensures r == output + BigEndian(value, 4)
  {
    r := output;
    var i := 0;
    while i < 4
      invariant 0 <= i <= 4
      invariant r == output + BigEndian(value, 4)[..i]
    {
      BigEndianAt(value, 4, i);
      r := r + [(value / Pow256(3 - i)) % 256];
      i := i + 1;
    }
    assert BigEndian(value, 4)[..4] == BigEndian(value, 4);
  }

  /** The validator's and the issuer's construction: any version, any lengths. */
  method AppendSigningInput(version: U16, keyId: Bytes, payload: Bytes) returns (input: Bytes)
    ensures input == SigningInput(version, keyId, payload)
  {
    input := LICENSE_DOMAIN;
    input := AppendU16(input, version);
    input := AppendU16(input, |keyId|);
    input := input + keyId;
    input := AppendU32(input, |payload|);
    input := input + payload;
  }

  /** signing_message refuses what does not fit, and otherwise makes the same bytes for version 1. */
  method SigningMessage(keyId: Bytes, payload: Bytes) returns (r: Option<Bytes>)
    ensures r == if 0 < |keyId| < U16_LIMIT
            && |payload| < U32_LIMIT then Some(SigningInput(1, keyId, payload)) else None
  {
    if |keyId| == 0 || |keyId| > 0xFFFF || |payload| > 0xFFFF_FFFF { return None; }
    var out := LICENSE_DOMAIN;
    out := out + BigEndian(1, 2);
    out := out + BigEndian(|keyId|, 2);
    out := out + keyId;
    out := out + BigEndian(|payload|, 4);
    out := out + payload;
    return Some(out);
  }

  // ---- the validator ----

  datatype Error = InvalidFormat | UnsupportedVersion | InvalidLicense | UnknownKey | InvalidSignature
                 | ProductMismatch | NotYetValid | Expired | MachineMismatch

  datatype Verdict = Admitted(license: Snapshot) | Refused(error: Error)

  function Validate(trusted: map<Bytes, Key>, read: Reader, blob: Blob, product: Bytes, machine: Bytes,
      now: U64): Verdict {
    if !blob.Packed? || blob.size > MAX_PACKAGE || blob.size < 8 then Refused(InvalidFormat) else
    var outer := blob.package;
    if outer.version != 1 then Refused(UnsupportedVersion)
    else if !(0 < |Text(outer.keyId)| < U16_LIMIT) || Text(outer.payload) == []
      || !IsSignature(outer.signature) then Refused(InvalidLicense)
    else if outer.keyId.value !in trusted then Refused(UnknownKey)
    else if !Verifies(trusted[outer.keyId.value], SigningInput(outer.version, outer.keyId.value, outer.payload.value),
      outer.signature.value) then Refused(InvalidSignature)
    else
      match read(outer.payload.value)
      case None => Refused(InvalidLicense)
      case Some(data) => Examine(data, product, machine, now)
  }

  function Examine(data: Payload, product: Bytes, machine: Bytes, now: U64): Verdict {
    if Text(data.licenseId) == [] || Text(data.product) == [] || data.maxSessions == 0
      || data.policy.None? then Refused(InvalidLicense)
    else if data.kind !in {TRIAL, SUBSCRIPTION, PERMANENT} then Refused(InvalidLicense)
    else if data.product.value != product then Refused(ProductMismatch)
    else if now < data.notBefore then Refused(NotYetValid)
    else if data.kind == PERMANENT && data.expire != 0 then Refused(InvalidLicense)
    else if data.kind != PERMANENT && (data.expire <= data.notBefore || now >= data.expire) then Refused(Expired)
    else
      var policy := data.policy.value;
      if policy.mode !in {UNBOUND, EXACT} then Refused(InvalidLicense)
      else if policy.mode == EXACT
        && (Text(policy.machineId) == [] || policy.machineId.value != machine) then Refused(MachineMismatch)
      else
        var features := if data.features.Some? then data.features.value else [];
        if HasEmpty(features) then Refused(InvalidLicense)
        else Admitted(Snapshot(data.licenseId.value, data.product.value, Text(data.customer), data.issueTime,
          data.notBefore, data.expire,
                               KindOf(data.kind), features, data.maxSessions, if policy.mode == EXACT then Exact
                                 else Unbound, Text(policy.machineId)))
  }

  predicate HasEmpty(features: seq<Bytes>) { exists i :: 0 <= i < |features| && features[i] == [] }

  function KindOf(kind: int): LicenseType {
    if kind == SUBSCRIPTION then Subscription else if kind == PERMANENT then Permanent else Trial
  }

  /** The feature loop at the end of validate. */
  method CollectFeatures(source: Option<seq<Bytes>>) returns (r: Option<seq<Bytes>>)
    ensures r.Some? ==> r.value == (if source.Some? then source.value else []) && [] !in r.value
    ensures r.None? ==> source.Some? && [] in source.value
  {
    var features: seq<Bytes> := [];
    if source.Some? {
      var i := 0;
      while i < |source.value|
        invariant 0 <= i <= |source.value|
        invariant features == source.value[..i] && [] !in features
      {
        if |source.value[i]| == 0 { return None; }
        features := features + [source.value[i]];
        i := i + 1;
      }
    }
    return Some(features);
  }

  // ---- the C++ issuer ----

  datatype Definition = Definition(
    keyId: Bytes, licenseId: Bytes, product: Bytes, customer: Bytes, issueTime: U64, notBefore: U64, expire: U64,
    features: seq<Bytes>, maxSessions: U32, machineId: Bytes)

  predicate IsIdentifier(s: Bytes) { 0 < |s| <= MAX_IDENTIFIER }

  predicate IssuerAccepts(d: Definition) {
    && 0 < |d.keyId| < U16_LIMIT
    && IsIdentifier(d.licenseId) && IsIdentifier(d.product) && IsIdentifier(d.customer)
    && d.issueTime != 0 && d.notBefore != 0 && d.notBefore >= d.issueTime && d.maxSessions != 0
    && (d.expire != 0 ==> d.expire > d.notBefore)
    && ValidFeatures(d.features)
  }

  /** valid. */
  method CheckDefinition(d: Definition) returns (ok: bool)
    ensures ok <==> IssuerAccepts(d)
  {
    if |d.keyId| == 0 || |d.keyId| > 0xFFFF || |d.licenseId| == 0 || |d.licenseId| > MAX_IDENTIFIER
       || |d.product| == 0 || |d.product| > MAX_IDENTIFIER || |d.customer| == 0 || |d.customer| > MAX_IDENTIFIER
       || d.issueTime == 0 || d.notBefore == 0 || d.notBefore < d.issueTime || d.maxSessions == 0
             || |d.features| > MAX_FEATURES
    {
      return false;
    }
    if d.expire != 0 && d.expire <= d.notBefore { return false; }
    var i := 0;
    while i < |d.features|
      invariant 0 <= i <= |d.features|
      invariant forall k :: 0 <= k < i ==> ValidFeature(d.features[k])
    {
      if |d.features[i]| == 0 || |d.features[i]| > MAX_FEATURE {
        assert !ValidFeature(d.features[i]);
        return false;
      }
      i := i + 1;
    }
    return true;
  }

  /** What the issuer writes into the payload. */
  function PayloadOf(d: Definition): Payload {
    Payload(Some(d.licenseId), Some(d.product), Some(d.customer), d.issueTime, d.notBefore, d.expire,
            if d.expire == 0 then PERMANENT else SUBSCRIPTION, Some(d.features), d.maxSessions,
            Some(Policy(if d.machineId == [] then UNBOUND else EXACT, Some(d.machineId))))
  }

  datatype IssueResult = Issued(blob: Blob) | InvalidInput | SigningFailed

  /** issueLicense; payload and size are what the builders produce, signOk whether signing succeeded. */
  method IssueLicense(d: Definition, signer: Key, payload: Bytes, size: nat, signOk: bool) returns (r: IssueResult)
    ensures r.InvalidInput? <==> !IssuerAccepts(d)
    ensures r.SigningFailed? <==> IssuerAccepts(d) && !signOk
    ensures r.Issued? ==> r.blob == PackageOf(d.keyId, signer, payload, size)
  {
    var ok := CheckDefinition(d);
    if !ok { return InvalidInput; }
    var input := AppendSigningInput(1, d.keyId, payload);
    if !signOk { return SigningFailed; }
    return Issued(Packed(Package(1, Some(d.keyId), Some(payload), Some(Signed(signer, input))), size));
  }

  function PackageOf(keyId: Bytes, signer: Key, payload: Bytes, size: nat): Blob {
    Packed(Package(1, Some(keyId), Some(payload), Some(Signed(signer, SigningInput(1, keyId, payload)))), size)
  }

  /** The license a definition stands for. */
  function SnapshotOf(d: Definition): Snapshot {
    Snapshot(d.licenseId, d.product, d.customer, d.issueTime, d.notBefore, d.expire,
             if d.expire == 0 then Permanent else Subscription, d.features, d.maxSessions,
             if d.machineId == [] then Unbound else Exact, d.machineId)
  }

  // ---- the Rust issuer ----

  datatype RemoteDefinition = RemoteDefinition(
    licenseId: Bytes, product: Bytes, customer: Bytes, issueTime: U64, notBefore: U64, expire: U64, kind: LicenseType,
    features: seq<Bytes>, maxSessions: U32, machineId: Option<Bytes>)

  predicate IsText(s: Bytes) { 0 < |s| <= MAX_TEXT }

  predicate FeatureByte(b: Byte) {
    || '0' as int <= b <= '9' as int || 'A' as int <= b <= 'Z' as int || 'a' as int <= b <= 'z' as int
    || b == '_' as int || b == '.' as int || b == '-' as int
  }

  predicate RemoteFeature(f: Bytes) {
    IsText(f) && forall i :: 0 <= i < |f| ==> FeatureByte(f[i])
  }

  predicate RemoteAccepts(d: RemoteDefinition) {
    && IsText(d.licenseId) && IsText(d.product) && IsText(d.customer)
    && |d.features| <= MAX_FEATURES && (forall i :: 0 <= i < |d.features| ==> RemoteFeature(d.features[i]))
    && d.maxSessions != 0
    && (if d.kind == Permanent then d.expire == 0 else d.expire > d.notBefore)
    && (d.machineId.Some? ==> IsText(d.machineId.value))
  }

  function RemotePayload(d: RemoteDefinition): Payload {
    Payload(Some(d.licenseId), Some(d.product), Some(d.customer), d.issueTime, d.notBefore, d.expire,
            (match d.kind case Trial => TRIAL case Subscription => SUBSCRIPTION case Permanent => PERMANENT),
            Some(d.features), d.maxSessions, Some(Policy(if d.machineId.Some? then EXACT else UNBOUND, d.machineId)))
  }

  function RemoteSnapshot(d: RemoteDefinition): Snapshot {
    Snapshot(d.licenseId, d.product, d.customer, d.issueTime, d.notBefore, d.expire, d.kind, d.features, d.maxSessions,
             if d.machineId.Some? then Exact else Unbound, Text(d.machineId))
  }

  /** generate. */
  method Generate(d: RemoteDefinition, keyId: Bytes, signer: Key, payload: Bytes, size: nat) returns (r: Option<Blob>)
    ensures r.Some? <==> RemoteAccepts(d) && 0 < |keyId| < U16_LIMIT && |payload| < U32_LIMIT && size <= MAX_PACKAGE
    ensures r.Some? ==> r.value == PackageOf(keyId, signer, payload, size)
  {
    if !RemoteAccepts(d) { return None; }
    var input := SigningMessage(keyId, payload);
    if input.None? { return None; }
    if size > MAX_PACKAGE { return None; }
    return Some(Packed(Package(1, Some(keyId), Some(payload), Some(Signed(signer, input.value))), size));
  }

  /** verify: the check the service makes on what its signer returned. */
  predicate Verified(read: Reader, blob: Blob, keyId: Bytes, key: Key) {
    && blob.Packed? && blob.size <= MAX_PACKAGE
    && blob.package.version == 1 && blob.package.keyId == Some(keyId)
    && blob.package.payload.Some? && IsSignature(blob.package.signature)
    && 0 < |keyId| < U16_LIMIT && |blob.package.payload.value| < U32_LIMIT
    && Verifies(key, SigningInput(1, keyId, blob.package.payload.value), blob.package.signature.value)
    && read(blob.package.payload.value).Some?
  }

  /** The limits of the two issuers, in numbers. */
  lemma IssuerLimits(d: Definition)
    ensures IssuerAccepts(d) <==>
              && 1 <= |d.keyId| <= 65535 && 1 <= |d.licenseId| <= 255 && 1 <= |d.product| <= 255
              && 1 <= |d.customer| <= 255
              && 0 < d.issueTime <= d.notBefore && d.maxSessions != 0 && (d.expire == 0 || d.notBefore < d.expire)
              && WireFeatures(d.features)
  {
    SameFeatureLimits(d.features);
  }

  lemma RemoteLimits(d: RemoteDefinition)
    ensures RemoteAccepts(d) <==>
              && 1 <= |d.licenseId| <= 1024 && 1 <= |d.product| <= 1024 && 1 <= |d.customer| <= 1024
              && |d.features| <= 256
              && (forall i :: 0 <= i < |d.features| ==> 1 <= |d.features[i]| <= 1024 && PlainText(d.features[i]))
              && d.maxSessions != 0 && (d.kind == Permanent ==> d.expire == 0)
              && (d.kind != Permanent ==> d.notBefore < d.expire)
              && (d.machineId.Some? ==> 1 <= |d.machineId.value| <= 1024)
  {
    forall i | 0 <= i < |d.features|
      ensures RemoteFeature(d.features[i]) <==> 1 <= |d.features[i]| <= 1024 && PlainText(d.features[i])
    {
      forall k | 0 <= k < |d.features[i]| ensures FeatureByte(d.features[i][k]) <==> d.features[i][k] in PLAIN {
      }
    }
  }

  /** ASCII digits, letters, underscore, dot and hyphen. */
  const PLAIN: set<Byte> := set b: Byte | 0x30 <= b <= 0x39 || 0x41 <= b <= 0x5A || 0x61 <= b <= 0x7A || b in {0x5F,
      0x2E, 0x2D}

  predicate PlainText(s: Bytes) { forall k :: 0 <= k < |s| ==> s[k] in PLAIN }

  /** Any payload at all: admitted exactly under these conditions, as these fields. */
  lemma ExaminedIff(data: Payload, product: Bytes, machine: Bytes, now: U64)
    ensures Examine(data, product, machine, now).Admitted? <==>
              && data.licenseId.Some? && data.licenseId.value != [] && data.product == Some(product) && product != []
              && data.maxSessions != 0 && data.kind in {0, 1, 2} && data.notBefore <= now
              && (data.kind == 2 ==> data.expire == 0)
              && (data.kind != 2 ==> data.notBefore < data.expire && now < data.expire)
              && data.policy.Some? && data.policy.value.mode in {0, 1}
              && (data.policy.value.mode == 1 ==> data.policy.value.machineId == Some(machine) && machine != [])
              && (data.features.Some? ==> forall i :: 0 <= i < |data.features.value| ==> data.features.value[i] != [])
    ensures Examine(data, product, machine, now).Admitted? ==>
              var l := Examine(data, product, machine, now).license;
              && l.licenseId == data.licenseId.value && l.product == product && l.issueTime == data.issueTime
              && l.notBefore == data.notBefore && l.expire == data.expire && l.maxSessions == data.maxSessions
              && (l.kind == Trial <==> data.kind == 0) && (l.kind == Subscription <==> data.kind == 1)
              && (l.machineMode == Exact <==> data.policy.value.mode == 1)
              && l.features == (if data.features.Some? then data.features.value else [])
              && l.customer == (if data.customer.Some? then data.customer.value else [])
              && l.machineId == (if data.policy.value.machineId.Some? then data.policy.value.machineId.value else [])
  {
    if Examine(data, product, machine, now).Admitted? && data.features.Some? {
      assert !HasEmpty(data.features.value);
    }
  }

  // ---- issue and validate ----

  predicate InForce(l: Snapshot, now: U64) {
    l.notBefore <= now && (l.kind == Permanent || now < l.expire)
  }

  /** What the validator owes a package that an issuer made for license l under keyId, signed by signer. */
  function Owed(trusted: map<Bytes, Key>, keyId: Bytes, signer: Key, size: nat, l: Snapshot, product: Bytes,
      machine: Bytes, now: U64): Verdict {
    if size > MAX_PACKAGE then Refused(InvalidFormat)
    else if keyId !in trusted then Refused(UnknownKey)
    else if trusted[keyId] != signer then Refused(InvalidSignature)
    else if l.product != product then Refused(ProductMismatch)
    else if now < l.notBefore then Refused(NotYetValid)
    else if l.kind != Permanent && now >= l.expire then Refused(Expired)
    else if l.machineMode == Exact && l.machineId != machine then Refused(MachineMismatch)
    else Admitted(l)
  }

  /** Builders make at least the eight bytes of offset and identifier, and the payload reads back as written. */
  predicate Faithful(read: Reader, written: Payload, payload: Bytes, size: nat) {
    payload != [] && size >= 8 && read(payload) == Some(written)
  }

  /**
   * A license of the C++ issuer validates to exactly its definition, when and only when the
   * package fits, the key is trusted, the product and any bound machine match and the time is
   * right; otherwise the first failing condition is the error.
   */
  lemma {:induction false} IssuedValidates(trusted: map<Bytes, Key>, read: Reader, d: Definition, signer: Key,
      payload: Bytes, size: nat, product: Bytes, machine: Bytes, now: U64)
    requires IssuerAccepts(d) && Faithful(read, PayloadOf(d), payload, size)
    ensures Validate(trusted, read, PackageOf(d.keyId, signer, payload, size), product, machine, now)
            == Owed(trusted, d.keyId, signer, size, SnapshotOf(d), product, machine, now)
    ensures Validate(trusted, read, PackageOf(d.keyId, signer, payload, size), product, machine, now)
            == Admitted(SnapshotOf(d))
            <==> && size <= 1048576 && d.keyId in trusted && trusted[d.keyId] == signer && d.product == product
                 && (d.machineId == [] || d.machineId == machine) && d.notBefore <= now
                 && (d.expire == 0 || now < d.expire)
  {
  }

  /** The same for the Rust issuer, which also issues trials and refuses oversized packages itself. */
  lemma {:induction false} GeneratedValidates(trusted: map<Bytes, Key>, read: Reader, d: RemoteDefinition,
      keyId: Bytes, signer: Key, payload: Bytes, size: nat, product: Bytes, machine: Bytes, now: U64)
    requires RemoteAccepts(d) && 0 < |keyId| < U16_LIMIT && Faithful(read, RemotePayload(d), payload, size)
    ensures Validate(trusted, read, PackageOf(keyId, signer, payload, size), product, machine, now)
            == Owed(trusted, keyId, signer, size, RemoteSnapshot(d), product, machine, now)
    ensures Validate(trusted, read, PackageOf(keyId, signer, payload, size), product, machine, now)
            == Admitted(RemoteSnapshot(d))
            <==> && size <= 1048576 && keyId in trusted && trusted[keyId] == signer && d.product == product
                 && (d.machineId.Some? ==> d.machineId.value == machine) && d.notBefore <= now
                 && (d.kind == Permanent || now < d.expire)
  {
  }

  /** verify accepts what generate made, under that key id and key and no other. */
  lemma {:induction false} GeneratedVerifies(read: Reader, d: RemoteDefinition, keyId: Bytes, signer: Key,
      payload: Bytes, size: nat, id: Bytes, key: Key)
    requires RemoteAccepts(d) && 0 < |keyId| < U16_LIMIT && |payload| < U32_LIMIT && size <= MAX_PACKAGE
             && Faithful(read, RemotePayload(d), payload, size)
    ensures Verified(read, PackageOf(keyId, signer, payload, size), id, key) <==> id == keyId && key == signer
  {
  }

  /** A package the service verified reaches the payload checks of any validator that trusts its key. */
  lemma {:induction false} VerifiedIsExamined(trusted: map<Bytes, Key>, read: Reader, blob: Blob, keyId: Bytes,
      key: Key, product: Bytes, machine: Bytes, now: U64)
    requires Verified(read, blob, keyId, key) && blob.size >= 8 && blob.package.payload != Some([])
    ensures keyId in trusted && trusted[keyId] == key ==>
              Validate(trusted, read, blob, product, machine, now)
                == Examine(read(blob.package.payload.value).value, product, machine, now)
  {
  }

  /** A definition accepted by either issuer, with the key id it was issued under. */
  datatype Issue = Local(local: Definition) | Remote(remote: RemoteDefinition, remoteKeyId: Bytes)
  {
    predicate Accepted() {
      match this
      case Local(d) => IssuerAccepts(d)
      case Remote(d, k) => RemoteAccepts(d) && 0 < |k| < U16_LIMIT
    }

    function KeyId(): Bytes {
      match this case Local(d) => d.keyId case Remote(_, k) => k
    }

    function Written(): Payload {
      match this case Local(d) => PayloadOf(d) case Remote(d, _) => RemotePayload(d)
    }

    function License(): Snapshot {
      match this case Local(d) => SnapshotOf(d) case Remote(d, _) => RemoteSnapshot(d)
    }
  }

  /** The trusted keys have signed nothing but the packages of the issued definitions. */
  ghost predicate SignsOnlyIssued(trusted: map<Bytes, Key>, write: Issue -> Bytes, issued: set<Issue>, s: Signature) {
    s.Signed? && s.signer in trusted.Values ==>
      exists d :: d in issued && s.message == SigningInput(1, d.KeyId(), write(d))
  }

  /**
   * Nothing else validates: if the trusted keys have signed only packages of issued
   * definitions, then whatever a validator admits is one of those definitions, in force and for
   * this product and machine, whoever made the package.
   */
  lemma {:induction false} OnlyIssuedValidate(trusted: map<Bytes, Key>, read: Reader, write: Issue -> Bytes,
      issued: set<Issue>, blob: Blob, product: Bytes, machine: Bytes, now: U64)
    requires forall d :: d in issued ==> d.Accepted() && read(write(d)) == Some(d.Written())
    requires blob.Packed? && blob.package.signature.Some? ==>
               SignsOnlyIssued(trusted, write, issued, blob.package.signature.value)
    requires Validate(trusted, read, blob, product, machine, now).Admitted?
    ensures exists d :: && d in issued && blob.package.keyId == Some(d.KeyId())
                        && Validate(trusted, read, blob, product, machine, now) == Admitted(d.License())
                        && InForce(d.License(), now) && d.License().product == product
                        && (d.License().machineMode == Exact ==> d.License().machineId == machine)
  {
    var outer := blob.package;
    var d :| d in issued && outer.signature.value.message == SigningInput(1, d.KeyId(), write(d));
    SigningInputInjective(1, outer.keyId.value, outer.payload.value, 1, d.KeyId(), write(d));
    assert Validate(trusted, read, blob, product, machine, now) == Examine(d.Written(), product, machine, now);
  }
}
