/**
 * The self-delimiting frame: twenty header bytes (magic, version, flags, sequence,
 * payload size) and a payload. The header codec is specified on byte strings; the
 * methods at the end are the buffer loops that implement it.
 */
module Frames {
  import opened Bytes

  const HEADER_SIZE: nat := 20
  const FRAME_VERSION: nat := 1
  const ENCRYPTED_FLAG: nat := 1
  const MAX_PAYLOAD: nat := 1024 * 1024
  const MAGIC: Bytes := [89, 65, 76, 49]  // "YAL1"

  datatype Header = Header(version: nat, flags: nat, sequence: nat, payloadSize: nat)

  datatype FrameError = InsufficientData | InvalidMagic | UnsupportedVersion | UnknownFlags
                      | EmptyPayload | PayloadTooLarge | LengthMismatch

  datatype Decoded<+T> = Decoded(value: T) | Refused(error: FrameError)

  /** The fields fit the widths they are written with. */
  predicate Fits(h: Header) {
    h.version < U16_LIMIT && h.flags < U16_LIMIT && h.sequence < U64_LIMIT && h.payloadSize < U32_LIMIT
  }

  /** What a receiver accepts as a header. */
  predicate Acceptable(h: Header, max: nat) {
    && Fits(h)
    && h.version == FRAME_VERSION
    && h.flags <= ENCRYPTED_FLAG
    && 0 < h.payloadSize <= max
  }

  function EncodeHeader(h: Header): (s: Bytes)
    ensures |s| == HEADER_SIZE
  {
    MAGIC + BigEndian(h.version, 2) + BigEndian(h.flags, 2) + BigEndian(h.sequence, 8) + BigEndian(h.payloadSize, 4)
  }

  function DecodeHeader(s: Bytes, max: nat): Decoded<Header> {
    if |s| < HEADER_SIZE then Refused(InsufficientData)
    else if s[..4] != MAGIC then Refused(InvalidMagic)
    else
      var h := Header(Value(s[4..6]), Value(s[6..8]), Value(s[8..16]), Value(s[16..20]));
      if h.version != FRAME_VERSION then Refused(UnsupportedVersion)
      else if h.flags > ENCRYPTED_FLAG then Refused(UnknownFlags)
      else if h.payloadSize == 0 then Refused(EmptyPayload)
      else if h.payloadSize > max then Refused(PayloadTooLarge)
      else Decoded(h)
  }

  function DecodeFrame(s: Bytes, max: nat): Decoded<(Header, Bytes)> {
    match DecodeHeader(s, max)
    case Refused(e) => Refused(e)
    case Decoded(h) =>
      if |s| != HEADER_SIZE + h.payloadSize then Refused(LengthMismatch)
      else Decoded((h, s[HEADER_SIZE..]))
  }

  /** The fields of an encoded header sit where the decoder looks for them. */
  lemma EncodedFields(h: Header, rest: Bytes)
    ensures var s := EncodeHeader(h) + rest;
            && s[..4] == MAGIC
            && s[4..6] == BigEndian(h.version, 2)
            && s[6..8] == BigEndian(h.flags, 2)
            && s[8..16] == BigEndian(h.sequence, 8)
            && s[16..20] == BigEndian(h.payloadSize, 4)
            && s[20..] == rest
  {
  }

  /** The layout on the wire: "YAL1", then version, flags, number and size, in twenty bytes. */
  lemma HeaderLayout(h: Header)
    ensures var s := EncodeHeader(h);
            && |s| == 20 && s[0] == 0x59 && s[1] == 0x41 && s[2] == 0x4C && s[3] == 0x31
            && s[4..6] == BigEndian(h.version, 2) && s[6..8] == BigEndian(h.flags, 2)
            && s[8..16] == BigEndian(h.sequence, 8) && s[16..20] == BigEndian(h.payloadSize, 4)
    ensures Acceptable(h, MAX_PAYLOAD) <==>
              h.version == 1 && h.flags in {0, 1} && h.sequence < U64_LIMIT && 1 <= h.payloadSize <= 1048576
  {
    EncodedFields(h, []);
    assert EncodeHeader(h) + [] == EncodeHeader(h);
  }

  /** Why a header is turned down, by its first fault. */
  lemma HeaderRefusals(s: Bytes, max: nat)
    ensures |s| < 20 ==> DecodeHeader(s, max) == Refused(InsufficientData)
    ensures |s| >= 20 && s[..4] != [0x59, 0x41, 0x4C, 0x31] ==> DecodeHeader(s, max) == Refused(InvalidMagic)
    ensures |s| >= 20 && s[..4] == [0x59, 0x41, 0x4C, 0x31] ==>
              var version, flags, size := Value(s[4..6]), Value(s[6..8]), Value(s[16..20]);
              && (version != 1 ==> DecodeHeader(s, max) == Refused(UnsupportedVersion))
              && (version == 1 && flags >= 2 ==> DecodeHeader(s, max) == Refused(UnknownFlags))
              && (version == 1 && flags <= 1 && size == 0 ==> DecodeHeader(s, max) == Refused(EmptyPayload))
              && (version == 1 && flags <= 1 && size > 0 && size > max ==>
                    DecodeHeader(s, max) == Refused(PayloadTooLarge))
              && (version == 1 && flags <= 1 && 0 < size <= max ==>
                    DecodeHeader(s, max) == Decoded(Header(1, flags, Value(s[8..16]), size)))
  {
  }

  /** Decoding an encoded header yields it exactly when it is acceptable. */
  lemma DecodeEncoded(h: Header, rest: Bytes, max: nat)
    requires Fits(h)
    ensures DecodeHeader(EncodeHeader(h) + rest, max).Decoded? <==> Acceptable(h, max)
    ensures Acceptable(h, max) ==> DecodeHeader(EncodeHeader(h) + rest, max) == Decoded(h)
  {
    EncodedFields(h, rest);
    PowerLimits();
    ValueOfBigEndian(h.version, 2);
    ValueOfBigEndian(h.flags, 2);
    ValueOfBigEndian(h.sequence, 8);
    ValueOfBigEndian(h.payloadSize, 4);
  }

  lemma DecodeOwn(h: Header, max: nat)
    requires Acceptable(h, max)
    ensures DecodeHeader(EncodeHeader(h), max) == Decoded(h)
  {
    DecodeEncoded(h, [], max);
    assert EncodeHeader(h) + [] == EncodeHeader(h);
  }

  /** A header that decodes is the encoding of what it decodes to. */
  lemma EncodeDecoded(s: Bytes, max: nat)
    requires DecodeHeader(s, max).Decoded?
    ensures Acceptable(DecodeHeader(s, max).value, max)
    ensures s[..HEADER_SIZE] == EncodeHeader(DecodeHeader(s, max).value)
  {
    PowerLimits();
    BigEndianOfValue(s[4..6]);
    BigEndianOfValue(s[6..8]);
    BigEndianOfValue(s[8..16]);
    BigEndianOfValue(s[16..20]);
    assert s[..20] == s[..4] + s[4..6] + s[6..8] + s[8..16] + s[16..20];
  }

  /**
   * decodeFrame accepts exactly the byte strings encodeHeader(h) + payload of an acceptable h of
   * that payload's size.
   */
  lemma FrameCodecExact(s: Bytes, max: nat, h: Header, payload: Bytes)
    ensures DecodeFrame(s, max) == Decoded((h, payload))
       <==> Acceptable(h, max) && |payload| == h.payloadSize && s == EncodeHeader(h) + payload
  {
    if DecodeFrame(s, max) == Decoded((h, payload)) {
      EncodeDecoded(s, max);
      assert s == s[..HEADER_SIZE] + s[HEADER_SIZE..];
    }
    if Acceptable(h, max) && |payload| == h.payloadSize && s == EncodeHeader(h) + payload {
      DecodeEncoded(h, payload, max);
      EncodedFields(h, payload);
    }
  }

  /** Distinct headers have distinct encodings: a header authenticates its own fields. */
  lemma HeaderInjective(g: Header, h: Header)
    requires Fits(g) && Fits(h) && EncodeHeader(g) == EncodeHeader(h)
    ensures g == h
  {
    EncodedFields(g, []);
    EncodedFields(h, []);
    assert EncodeHeader(g) + [] == EncodeHeader(h) + [];
    PowerLimits();
    BigEndianInjective(g.version, h.version, 2);
    BigEndianInjective(g.flags, h.flags, 2);
    BigEndianInjective(g.sequence, h.sequence, 8);
    BigEndianInjective(g.payloadSize, h.payloadSize, 4);
  }

  // ---- the buffer loops ----

  /** The shifting loop behind writeU16, writeU32 and writeU64: width bytes of v at offset at. */
  method WriteBigEndian(buffer: array<Byte>, at: nat, width: nat, v: nat)
    requires at + width <= buffer.Length
    modifies buffer
    ensures buffer[..] == old(buffer[..at]) + BigEndian(v, width) + old(buffer[at + width..])
  {
    var i := 0;
    while i < width
      invariant 0 <= i <= width
      invariant forall k :: 0 <= k < i ==> buffer[at + k] == BigEndian(v, width)[k]
      invariant forall k :: 0 <= k < at ==> buffer[k] == old(buffer[k])
      invariant forall k :: at + i <= k < buffer.Length ==> buffer[k] == old(buffer[k])
    {
      BigEndianAt(v, width, i);
      buffer[at + i] := (v / Pow256(width - 1 - i)) % 256;
      i := i + 1;
    }
    assert buffer[at..at + width] == BigEndian(v, width);
    assert buffer[..] == buffer[..at] + buffer[at..at + width] + buffer[at + width..];
  }

  /** The accumulating loop behind readU32 and readU64. */
  method ReadBigEndian(s: Bytes) returns (v: nat)
    ensures v == Value(s)
    ensures v < Pow256(|s|)
  {
    v := 0;
    for i := 0 to |s|
      invariant v == Value(s[..i])
    {
      assert s[..i + 1][..i] == s[..i];
      v := v * 256 + s[i];
    }
    assert s[..|s|] == s;
    BigEndianOfValue(s);
  }

  /** encodeHeader: a zeroed buffer filled field by field. */
  method FillHeader(h: Header) returns (buffer: array<Byte>)
    ensures fresh(buffer)
    ensures buffer[..] == EncodeHeader(h)
  {
    buffer := new Byte[HEADER_SIZE](_ => 0);
    var i := 0;
    while i < 4
      invariant 0 <= i <= 4
      invariant forall k :: 0 <= k < i ==> buffer[k] == MAGIC[k]
    {
      buffer[i] := MAGIC[i];
      i := i + 1;
    }
    assert buffer[..4] == MAGIC;
    WriteBigEndian(buffer, 4, 2, h.version);
    assert buffer[..6] == MAGIC + BigEndian(h.version, 2);
    WriteBigEndian(buffer, 6, 2, h.flags);
    assert buffer[..8] == MAGIC + BigEndian(h.version, 2) + BigEndian(h.flags, 2);
    WriteBigEndian(buffer, 8, 8, h.sequence);
    assert buffer[..16] == MAGIC + BigEndian(h.version, 2) + BigEndian(h.flags, 2) + BigEndian(h.sequence, 8);
    WriteBigEndian(buffer, 16, 4, h.payloadSize);
  }
}
