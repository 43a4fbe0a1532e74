/**
 * Symbolic primitives and the byte strings they are applied to.
 *
 * A key pair is named by its public key. The X25519 secret of two pairs is the unordered
 * pair of their public keys (section 6.1 of RFC 7748: both sides compute the same value);
 * HKDF output (section 2 of RFC 5869), SHA-256 digests, Ed25519 signatures (section 5.1 of
 * RFC 8032) and ChaCha20-Poly1305 ciphertexts (section 2.8 of RFC 8439) are constructor
 * terms, so that equal outputs have equal inputs. What is hashed, signed and
 * authenticated is concrete bytes.
 */
module Crypto {
  import opened Bytes

  type Key = k: Bytes | |k| == 32 witness [0,0,0,0,0,0,0,0,0,0,0,0,0,0,0,0,0,0,0,0,0,0,0,0,0,0,0,0,0,0,0,0]

  const TAG_SIZE: nat := 16

  datatype Shared = Shared(pair: set<Key>)
  datatype Digest = Sha256(input: Bytes) | Unhashed(raw: Bytes)
  datatype Derived = Hkdf(secret: Shared, salt: Digest, info: string)
  datatype RecordKey = RecordKey(key: Derived, nonceSalt: Derived)
  datatype SessionKeys = SessionKeys(clientToService: RecordKey, serviceToClient: RecordKey)
  datatype Nonce = Nonce(salt: Derived, counter: Bytes)
  datatype Signature = Signed(signer: Key, message: Bytes) | Arbitrary(raw: Bytes)

  /** Both ends of an X25519 exchange. */
  function Exchange(own: Key, peer: Key): Shared {
    Shared({own, peer})
  }

  lemma ExchangeCommutes(a: Key, b: Key)
    ensures Exchange(a, b) == Exchange(b, a)
  {
  }

  predicate Verifies(key: Key, message: Bytes, s: Signature) {
    s == Signed(key, message)
  }

  // ---- handshake transcript ----

  const HANDSHAKE_DOMAIN: Bytes := Ascii("YOAUTHORIZE-SERVICE-HANDSHAKE-V1")

  datatype Transcript = Transcript(
    minVersion: U16, maxVersion: U16, selected: U16,
    clientNonce: Key, serverNonce: Key, clientPublic: Key, serverPublic: Key, serviceKeyId: Bytes)

  predicate Encodable(t: Transcript) {
    0 < |t.serviceKeyId| < U16_LIMIT
  }

  function TranscriptBytes(t: Transcript): Bytes {
    HANDSHAKE_DOMAIN
    + BigEndian(t.minVersion, 2) + BigEndian(t.maxVersion, 2) + BigEndian(t.selected, 2)
    + t.clientNonce + t.serverNonce + t.clientPublic + t.serverPublic
    + BigEndian(|t.serviceKeyId|, 2) + t.serviceKeyId
  }

  function EncodeTranscript(t: Transcript): Option<Bytes> {
    if Encodable(t) then Some(TranscriptBytes(t)) else None
  }

  /** The signed transcript determines every field, although the key id at its end has variable length. */
  lemma TranscriptInjective(a: Transcript, b: Transcript)
    requires Encodable(a) && Encodable(b)
    requires TranscriptBytes(a) == TranscriptBytes(b)
    ensures a == b
  {
    TranscriptFields(a);
    TranscriptFields(b);
    PowerLimits();
    BigEndianInjective(a.minVersion, b.minVersion, 2);
    BigEndianInjective(a.maxVersion, b.maxVersion, 2);
    BigEndianInjective(a.selected, b.selected, 2);
  }

  lemma TranscriptFields(t: Transcript)
    ensures var s := TranscriptBytes(t);
            && |s| >= 168
            && s[32..34] == BigEndian(t.minVersion, 2)
            && s[34..36] == BigEndian(t.maxVersion, 2)
            && s[36..38] == BigEndian(t.selected, 2)
            && s[38..70] == t.clientNonce
            && s[70..102] == t.serverNonce
            && s[102..134] == t.clientPublic
            && s[134..166] == t.serverPublic
            && s[168..] == t.serviceKeyId
  {
  }

  /** encodeTranscript: appends to a growing buffer. */
  method BuildTranscript(t: Transcript) returns (r: Option<Bytes>)
    ensures r == EncodeTranscript(t)
  {
    if |t.serviceKeyId| == 0 || |t.serviceKeyId| > 0xFFFF { return None; }
    var output := HANDSHAKE_DOMAIN;
    output := output + [(t.minVersion / 256) % 256, t.minVersion % 256];
    output := output + [(t.maxVersion / 256) % 256, t.maxVersion % 256];
    output := output + [(t.selected / 256) % 256, t.selected % 256];
    TwoBytes(t.minVersion);
    TwoBytes(t.maxVersion);
    TwoBytes(t.selected);
    TwoBytes(|t.serviceKeyId|);
    output := output + t.clientNonce;
    output := output + t.serverNonce;
    output := output + t.clientPublic;
    output := output + t.serverPublic;
    output := output + [(|t.serviceKeyId| / 256) % 256, |t.serviceKeyId| % 256];
    output := output + t.serviceKeyId;
    return Some(output);
  }

  lemma TwoBytes(v: nat)
    ensures BigEndian(v, 2) == [(v / 256) % 256, v % 256]
  {
  }

  // ---- session keys ----

  const C2S_KEY := "YA-V1-C2S-KEY"
  const S2C_KEY := "YA-V1-S2C-KEY"
  const C2S_NONCE := "YA-V1-C2S-NONCE"
  const S2C_NONCE := "YA-V1-S2C-NONCE"

  function DeriveSessionKeys(secret: Shared, hash: Digest): SessionKeys {
    SessionKeys(
      RecordKey(Hkdf(secret, hash, C2S_KEY), Hkdf(secret, hash, C2S_NONCE)),
      RecordKey(Hkdf(secret, hash, S2C_KEY), Hkdf(secret, hash, S2C_NONCE)))
  }

  /** The keys a transcript stands for. */
  function KeysOf(t: Transcript): SessionKeys {
    DeriveSessionKeys(Exchange(t.clientPublic, t.serverPublic), Sha256(TranscriptBytes(t)))
  }

  lemma LabelsDiffer()
    ensures C2S_KEY != S2C_KEY
  {
  }

  /** Traffic keys identify both the transcript and the direction. */
  lemma KeysDetermineTranscript(a: Transcript, b: Transcript)
    requires Encodable(a) && Encodable(b)
    ensures KeysOf(a).clientToService.key == KeysOf(b).clientToService.key ==> a == b
    ensures KeysOf(a).serviceToClient.key == KeysOf(b).serviceToClient.key ==> a == b
    ensures KeysOf(a).clientToService.key != KeysOf(b).serviceToClient.key
  {
    LabelsDiffer();
    if TranscriptBytes(a) == TranscriptBytes(b) {
      TranscriptInjective(a, b);
    }
  }

  // ---- record nonces ----

  function RecordNonce(salt: Derived, sequence: nat): Nonce {
    Nonce(salt, BigEndian(sequence, 8))
  }

  /** makeRecordNonce: the shifting loop over the eight counter bytes that follow the salt. */
  method FillNonce(salt: Derived, sequence: nat) returns (nonce: Nonce)
    ensures nonce == RecordNonce(salt, sequence)
  {
    var counter := new Byte[8](_ => 0);
    var i := 0;
    while i < 8
      invariant 0 <= i <= 8
      invariant forall k :: 0 <= k < i ==> counter[k] == BigEndian(sequence, 8)[k]
    {
      BigEndianAt(sequence, 8, i);
      counter[i] := (sequence / Pow256(7 - i)) % 256;
      i := i + 1;
    }
    assert counter[..] == BigEndian(sequence, 8);
    return Nonce(salt, counter[..]);
  }

  lemma NonceInjective(salt: Derived, m: nat, n: nat)
    requires m < U64_LIMIT && n < U64_LIMIT && RecordNonce(salt, m) == RecordNonce(salt, n)
    ensures m == n
  {
    PowerLimits();
    BigEndianInjective(m, n, 8);
  }
}
