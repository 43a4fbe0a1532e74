/**
 * The encrypted record layer: a writer and a reader that share a key, number their frames
 * from one, and bind the number into both the header (authenticated data) and the nonce.
 */
module Records {
  import opened Bytes
  import opened Frames
  import opened Crypto
  import opened Messages

  datatype Aead = Aead(key: Derived, nonce: Nonce, aad: Bytes, plain: Buffer)

  /** What follows a frame header on the wire. */
  datatype Payload = Clear(buffer: Buffer) | Sealed(aead: Aead) | Noise(raw: Bytes)
  {
    function Size(): nat {
      match this
      case Clear(b) => b.Size()
      case Sealed(a) => a.plain.Size() + TAG_SIZE
      case Noise(raw) => |raw|
    }
  }

  type HeaderBytes = h: Bytes | |h| == 20 witness [0,0,0,0,0,0,0,0,0,0,0,0,0,0,0,0,0,0,0,0]

  datatype WireFrame = WireFrame(head: HeaderBytes, payload: Payload) | Truncated

  /** decodeFrame on a frame whose payload is a term. */
  function DecodeWire(f: WireFrame): Decoded<Header> {
    if f.Truncated? then Refused(InsufficientData) else
    match DecodeHeader(f.head, MAX_PAYLOAD)
    case Refused(e) => Refused(e)
    case Decoded(h) => if f.payload.Size() != h.payloadSize then Refused(LengthMismatch) else Decoded(h)
  }

  /** A frame whose header announces its payload decodes to that header. */
  lemma WireDecodes(h: Header, p: Payload)
    requires Acceptable(h, MAX_PAYLOAD) && p.Size() == h.payloadSize
    ensures DecodeWire(WireFrame(EncodeHeader(h), p)) == Decoded(h)
  {
    DecodeOwn(h, MAX_PAYLOAD);
  }

  lemma ClearDecodes(f: WireFrame, h: Header)
    requires DecodeWire(f) == Decoded(h) && h.flags == 0 && h.sequence == 0 && f.WireFrame? && f.payload.Clear?
    ensures ClearBuffer(f) == Some(f.payload.buffer)
  {
  }

  /** An unencrypted, unnumbered frame around a buffer. */
  function ClearFrame(b: Buffer): WireFrame {
    WireFrame(EncodeHeader(Header(FRAME_VERSION, 0, 0, b.Size() % U32_LIMIT)), Clear(b))
  }

  /** The buffer of an unencrypted, unnumbered frame. */
  function ClearBuffer(f: WireFrame): Option<Buffer> {
    match DecodeWire(f)
    case Refused(_) => None
    case Decoded(h) =>
      if h.flags != 0 || h.sequence != 0 then None
      else if f.payload.Clear? then Some(f.payload.buffer)
      else Some(Unparsable([]))
  }

  datatype RecordError = InvalidFrame | UnencryptedFrame | InvalidSequence | SequenceExhausted | AuthenticationFailed

  datatype Outcome<+T> = Done(value: T) | Denied(error: RecordError)

  /** One end of a channel: its key and the number of the next frame. */
  datatype End = End(key: RecordKey, next: U64)

  const LAST_SEQUENCE: U64 := 0xFFFF_FFFF_FFFF_FFFF

  /** An end as it is when its handshake creates it. */
  function Fresh(key: RecordKey): End { End(key, 1) }

  function SealedHeader(sequence: nat, plain: Buffer): Header {
    Header(FRAME_VERSION, ENCRYPTED_FLAG, sequence, plain.Size() + TAG_SIZE)
  }

  function SealedFrame(key: RecordKey, sequence: nat, plain: Buffer): WireFrame {
    var head := EncodeHeader(SealedHeader(sequence, plain));
    WireFrame(head, Sealed(Aead(key.key, RecordNonce(key.nonceSalt, sequence), head, plain)))
  }

  predicate Sealable(plain: Buffer) {
    0 < plain.Size() <= MAX_PAYLOAD - TAG_SIZE
  }

  /** seal; cipherOk is whether the cipher call itself succeeded. */
  function SealRecord(w: End, plain: Buffer, cipherOk: bool): (End, Outcome<WireFrame>) {
    if w.next == LAST_SEQUENCE then (w, Denied(SequenceExhausted))
    else if !Sealable(plain) then (w, Denied(InvalidFrame))
    else if !cipherOk then (w, Denied(AuthenticationFailed))
    else (w.(next := w.next + 1), Done(SealedFrame(w.key, w.next, plain)))
  }

  predicate Authentic(r: End, f: WireFrame) {
    && f.WireFrame? && f.payload.Sealed?
    && f.payload.aead.key == r.key.key
    && f.payload.aead.nonce == RecordNonce(r.key.nonceSalt, r.next)
    && f.payload.aead.aad == f.head
  }

  function OpenRecord(r: End, f: WireFrame): (End, Outcome<Buffer>) {
    if r.next == LAST_SEQUENCE then (r, Denied(SequenceExhausted)) else
    match DecodeWire(f)
    case Refused(_) => (r, Denied(InvalidFrame))
    case Decoded(h) =>
      if h.flags != ENCRYPTED_FLAG then (r, Denied(UnencryptedFrame))
      else if h.sequence != r.next then (r, Denied(InvalidSequence))
      else if !Authentic(r, f) then (r, Denied(AuthenticationFailed))
      else (r.(next := r.next + 1), Done(f.payload.aead.plain))
  }

  /** Opening undoes sealing when both ends are at the same number. */
  lemma OpenSealed(r: End, plain: Buffer)
    requires Sealable(plain) && r.next < LAST_SEQUENCE
    ensures OpenRecord(r, SealedFrame(r.key, r.next, plain)) == (r.(next := r.next + 1), Done(plain))
  {
    DecodeOwn(SealedHeader(r.next, plain), MAX_PAYLOAD);
  }

  // ---- runs of one channel over an arbitrary network ----

  /** A channel with the history of what was sealed and what was accepted. */
  datatype Channel = Channel(writer: End, reader: End, sealed: seq<Buffer>, frames: seq<WireFrame>,
      accepted: seq<Buffer>)

  ghost predicate Opening(c: Channel) {
    c.writer == c.reader == Fresh(c.writer.key) && c.sealed == [] && c.frames == [] && c.accepted == []
  }

  /**
   * The network may alter headers at will and drop, repeat, reorder or invent frames, but a
   * ciphertext under the channel key came from the writer.
   */
  ghost predicate Deliverable(c: Channel, f: WireFrame) {
    f.WireFrame? && f.payload.Sealed? && f.payload.aead.key == c.writer.key.key ==>
      exists i :: 0 <= i < |c.frames| && c.frames[i].WireFrame? && c.frames[i].payload == f.payload
  }

  function AfterSeal(c: Channel, plain: Buffer, cipherOk: bool): Channel {
    var (w, r) := SealRecord(c.writer, plain, cipherOk);
    match r
    case Denied(_) => c.(writer := w)
    case Done(f) => c.(writer := w, sealed := c.sealed + [plain], frames := c.frames + [f])
  }

  function AfterDelivery(c: Channel, f: WireFrame): Channel {
    var (e, r) := OpenRecord(c.reader, f);
    match r
    case Denied(_) => c.(reader := e)
    case Done(plain) => c.(reader := e, accepted := c.accepted + [plain])
  }

  ghost predicate ChannelStep(c: Channel, d: Channel) {
    || (exists plain, cipherOk :: d == AfterSeal(c, plain, cipherOk))
    || (exists f :: Deliverable(c, f) && d == AfterDelivery(c, f))
  }

  ghost predicate ChannelRun(run: seq<Channel>) {
    && run != [] && Opening(run[0])
    && forall i :: 0 <= i < |run| - 1 ==> ChannelStep(run[i], run[i + 1])
  }

  ghost predicate ChannelInvariant(c: Channel) {
    && c.writer.key == c.reader.key
    && |c.frames| == |c.sealed|
    && c.writer.next == |c.sealed| + 1
    && c.reader.next == |c.accepted| + 1
    && c.accepted <= c.sealed
    && (forall i :: 0 <= i < |c.sealed| ==>
          Sealable(c.sealed[i]) && c.frames[i] == SealedFrame(c.writer.key, i + 1, c.sealed[i]))
  }

  /** A ciphertext sealed under number i that opens under number next was sealed under that number. */
  lemma SameNumber(key: RecordKey, i: U64, next: U64, plain: Buffer, f: WireFrame)
    requires f.WireFrame? && f.payload == SealedFrame(key, i, plain).payload
    requires Authentic(End(key, next), f)
    ensures i == next && f.payload.aead.plain == plain
  {
    NonceInjective(key.nonceSalt, i, next);
  }

  /** An accepted frame carries the plaintext that was sealed under the number the reader expects. */
  lemma AcceptedIsNext(c: Channel, f: WireFrame)
    requires ChannelInvariant(c) && Deliverable(c, f) && OpenRecord(c.reader, f).1.Done?
    ensures |c.accepted| < |c.sealed| && OpenRecord(c.reader, f).1.value == c.sealed[|c.accepted|]
  {
    assert Authentic(c.reader, f);
    var i :| 0 <= i < |c.frames| && c.frames[i].WireFrame? && c.frames[i].payload == f.payload;
    SameNumber(c.writer.key, i + 1, c.reader.next, c.sealed[i], f);
  }

  lemma OpenAdvances(e: End, f: WireFrame)
    ensures OpenRecord(e, f).0 == if OpenRecord(e, f).1.Done? then e.(next := OpenRecord(e, f).0.next) else e
    ensures OpenRecord(e, f).1.Done? ==> OpenRecord(e, f).0.next == e.next + 1
  {
  }

  lemma OneMoreAccepted(c: Channel, e: End, plain: Buffer)
    requires ChannelInvariant(c) && |c.accepted| < |c.sealed| && plain == c.sealed[|c.accepted|]
    requires e.key == c.reader.key && e.next == c.reader.next + 1
    ensures ChannelInvariant(c.(reader := e, accepted := c.accepted + [plain]))
  {
    assert c.accepted + [plain] == c.sealed[..|c.accepted| + 1];
  }

  lemma DeliveryKeepsInvariant(c: Channel, f: WireFrame)
    requires ChannelInvariant(c) && Deliverable(c, f)
    ensures ChannelInvariant(AfterDelivery(c, f))
  {
    OpenAdvances(c.reader, f);
    var (e, r) := OpenRecord(c.reader, f);
    if r.Done? {
      AcceptedIsNext(c, f);
      OneMoreAccepted(c, e, r.value);
    }
  }

  lemma {:induction false} RunKeepsInvariant(run: seq<Channel>, n: nat)
    requires ChannelRun(run) && n < |run|
    ensures ChannelInvariant(run[n])
  {
    if n > 0 {
      RunKeepsInvariant(run, n - 1);
      var c, d := run[n - 1], run[n];
      assert ChannelStep(run[n - 1], run[n - 1 + 1]);
      if f :| Deliverable(c, f) && d == AfterDelivery(c, f) {
        DeliveryKeepsInvariant(c, f);
      }
    }
  }

  /**
   * Ordered delivery: whatever the network does, what the reader has accepted is a prefix of
   * what the writer sealed; no refused frame costs the reader its place, because the frame it
   * waits for is always accepted; and no nonce is used twice.
   */
  lemma OrderedDelivery(run: seq<Channel>, n: nat)
    requires ChannelRun(run) && n < |run|
    ensures run[n].accepted <= run[n].sealed
    ensures |run[n].sealed| < LAST_SEQUENCE
    ensures |run[n].frames| == |run[n].sealed|
    ensures |run[n].accepted| < |run[n].sealed| ==>
              AfterDelivery(run[n], run[n].frames[|run[n].accepted|]).accepted
              == run[n].accepted + [run[n].sealed[|run[n].accepted|]]
    ensures forall i, j :: 0 <= i < j < |run[n].frames| ==>
              && run[n].frames[i].WireFrame? && run[n].frames[j].WireFrame?
              && run[n].frames[i].payload.Sealed? && run[n].frames[j].payload.Sealed?
              && run[n].frames[i].payload.aead.nonce != run[n].frames[j].payload.aead.nonce
  {
    RunKeepsInvariant(run, n);
    var c := run[n];
    NextAccepted(c);
    forall i, j | 0 <= i < j < |c.frames|
      ensures c.frames[i].WireFrame? && c.frames[j].WireFrame?
      ensures c.frames[i].payload.Sealed? && c.frames[j].payload.Sealed?
      ensures c.frames[i].payload.aead.nonce != c.frames[j].payload.aead.nonce
    {
      FramesApart(c, i, j);
    }
  }

  /** The frame a reader waits for is accepted whenever it arrives. */
  lemma NextAccepted(c: Channel)
    requires ChannelInvariant(c)
    ensures |c.accepted| < |c.sealed| ==>
              AfterDelivery(c, c.frames[|c.accepted|]).accepted == c.accepted + [c.sealed[|c.accepted|]]
  {
    if |c.accepted| < |c.sealed| {
      OpenSealed(c.reader, c.sealed[|c.accepted|]);
    }
  }

  lemma FramesApart(c: Channel, i: nat, j: nat)
    requires ChannelInvariant(c) && i < j < |c.frames|
    ensures c.frames[i].WireFrame? && c.frames[j].WireFrame?
    ensures c.frames[i].payload.Sealed? && c.frames[j].payload.Sealed?
    ensures c.frames[i].payload.aead.nonce != c.frames[j].payload.aead.nonce
  {
    DistinctNonces(c.writer.key, i + 1, j + 1, c.sealed[i], c.sealed[j]);
  }

  lemma DistinctNonces(key: RecordKey, i: U64, j: U64, p: Buffer, q: Buffer)
    requires i != j
    ensures SealedFrame(key, i, p).payload.aead.nonce != SealedFrame(key, j, q).payload.aead.nonce
  {
    if RecordNonce(key.nonceSalt, i) == RecordNonce(key.nonceSalt, j) {
      NonceInjective(key.nonceSalt, i, j);
    }
  }

  // ---- the objects ----

  class RecordWriter {
    const key: RecordKey
    var next: U64

    constructor (key: RecordKey)
      ensures View() == Fresh(key)
    {
      this.key := key;
      next := 1;
    }

    ghost function View(): End
      reads this
    {
      End(key, next)
    }

    method Seal(plain: Buffer, cipherOk: bool) returns (r: Outcome<WireFrame>)
      modifies this
      ensures (View(), r) == SealRecord(old(View()), plain, cipherOk)
    {
      if next == LAST_SEQUENCE { return Denied(SequenceExhausted); }
      if plain.Size() == 0 || plain.Size() > MAX_PAYLOAD - TAG_SIZE { return Denied(InvalidFrame); }
      var header := Header(FRAME_VERSION, ENCRYPTED_FLAG, next, plain.Size() + TAG_SIZE);
      var encoded := FillHeader(header);
      var nonce := FillNonce(key.nonceSalt, next);
      if !cipherOk { return Denied(AuthenticationFailed); }
      r := Done(WireFrame(encoded[..], Sealed(Aead(key.key, nonce, encoded[..], plain))));
      next := next + 1;
    }
  }

  class RecordReader {
    const key: RecordKey
    var next: U64

    constructor (key: RecordKey)
      ensures View() == Fresh(key)
    {
      this.key := key;
      next := 1;
    }

    ghost function View(): End
      reads this
    {
      End(key, next)
    }

    method Open(frame: WireFrame) returns (r: Outcome<Buffer>)
      modifies this
      ensures (View(), r) == OpenRecord(old(View()), frame)
    {
      if next == LAST_SEQUENCE { return Denied(SequenceExhausted); }
      var decoded := DecodeWire(frame);
      if decoded.Refused? { return Denied(InvalidFrame); }
      if decoded.value.flags != ENCRYPTED_FLAG { return Denied(UnencryptedFrame); }
      if decoded.value.sequence != next { return Denied(InvalidSequence); }
      var nonce := FillNonce(key.nonceSalt, next);
      if !frame.payload.Sealed? || frame.payload.aead.key != key.key
         || frame.payload.aead.nonce != nonce || frame.payload.aead.aad != frame.head {
        return Denied(AuthenticationFailed);
      }
      next := next + 1;
      return Done(frame.payload.aead.plain);
    }
  }
}
