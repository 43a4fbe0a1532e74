/** The request ids of all the frames a client sends on its connection, read from the frames themselves. */
module RequestIds {
  import opened Bytes
  import opened Crypto
  import opened Messages
  import opened Records
  import opened Handshakes
  import opened Clients

  /** The message in a frame, sealed or not. */
  function Content(f: WireFrame): Buffer {
    if f.Truncated? then Unparsable([])
    else match f.payload case Clear(b) => b case Sealed(a) => a.plain case Noise(raw) => Unparsable(raw)
  }

  /** The id its envelope carries, 0 for a frame without one. */
  function RequestId(f: WireFrame): U64 {
    if Content(f).Encoded? then Content(f).envelope.requestId else 0
  }

  predicate IsHello(f: WireFrame) { Content(f).Encoded? && Content(f).envelope.body.ClientHelloBody? }

  predicate IsFinished(f: WireFrame) { Content(f).Encoded? && Content(f).envelope.body.ClientFinishedBody? }

  /** Neither of the two handshake messages. */
  predicate IsRequest(f: WireFrame) { !IsHello(f) && !IsFinished(f) }

  function Ids(frames: seq<WireFrame>): seq<U64> {
    seq(|frames|, i requires 0 <= i < |frames| => RequestId(frames[i]))
  }

  /** The frames sent by the first n events of a run. */
  ghost function Sent(run: seq<Sdk>, events: seq<Event>, n: nat): seq<WireFrame>
    requires ClientRun(run, events) && n <= |events|
  {
    if n == 0 then [] else Sent(run, events, n - 1) + Apply(run[n - 1], events[n - 1]).frames
  }

  // ---- what one event sends ----

  predicate Established(s: Sdk) { s.handshake.Some? && s.handshake.value.state == HandshakeState.Established }

  predicate SaysHello(s: Sdk) { s.handshake.Some? ==> s.handshake.value.requestId == HELLO_ID }

  /** Dialing sends at most the hello. */
  lemma DialSends(s: Sdk, e: Event)
    requires Enabled(s, e) && e.Dial?
    ensures var t := Apply(s, e);
            && t.client.used == s.used && (s.handshake.None? ==> SaysHello(t.client))
            && (t.frames == [] || (|t.frames| == 1 && IsHello(t.frames[0]) && RequestId(t.frames[0]) == HELLO_ID))
            && (t.client.handshake.Some? && s.handshake.None? ==> t.frames != [])
  {
  }

  lemma SealSends(c: ClientEnd, b: Buffer, cipherOk: bool)
    ensures ClientSeal(c, b, cipherOk).0.requestId == c.requestId
    ensures ClientSeal(c, b, cipherOk).1.Done? ==> Content(ClientSeal(c, b, cipherOk).1.value) == b
  {
  }

  /** The finished message carries the id of the hello. */
  lemma FinishedSends(c: ClientEnd, b: Buffer, env: HelloEnv)
    requires ClientReceiveHello(c, b, env).1.Reply?
    ensures var (h, r) := ClientReceiveHello(c, b, env);
            h.requestId == c.requestId && IsFinished(r.value) && RequestId(r.value) == c.requestId
  {
  }

  lemma RequestSends(s: Sdk, h: ClientEnd, finished: WireFrame, fw: bool, process: U64, size: nat, cipherOk: bool,
      written: bool)
    requires h.requestId == HELLO_ID && IsFinished(finished) && RequestId(finished) == HELLO_ID
    ensures var t := RequestAuthorization(s, h, finished, fw, process, size, cipherOk, written);
            && 1 <= |t.frames| <= 2 && t.frames[0] == finished && SaysHello(t.client)
            && t.client.used == s.used + Ids(t.frames) && (|t.frames| == 2 ==> IsRequest(t.frames[1]))
  {
    var encoded := EncodeAuthorize(Authorize(AUTHORIZE_ID, h.selected, s.config.product, process), size);
    if encoded.Some? {
      SealSends(h, encoded.value, cipherOk);
    }
  }

  lemma ServerHelloSends(s: Sdk, e: Event)
    requires Enabled(s, e) && e.ServerHelloArrives? && SaysHello(s)
    ensures var t := Apply(s, e);
            && SaysHello(t.client) && t.client.used == s.used + Ids(t.frames) && |t.frames| <= 2
            && (t.frames != [] ==> IsFinished(t.frames[0]) && RequestId(t.frames[0]) == HELLO_ID)
            && (|t.frames| == 2 ==> IsRequest(t.frames[1]))
  {
    if e.frame.Some? && ClearBuffer(e.frame.value).Some? {
      var b := ClearBuffer(e.frame.value).value;
      var (h, r) := ClientReceiveHello(s.handshake.value, b, e.env);
      if r.Reply? {
        FinishedSends(s.handshake.value, b, e.env);
        RequestSends(s, h, r.value, e.finishedWritten, e.process, e.size, e.cipherOk, e.written);
      }
    }
  }

  /** At most one request, over an established channel. */
  predicate SendsOne(s: Sdk, t: Turn) {
    && SaysHello(t.client) && t.client.used == s.used + Ids(t.frames)
    && (t.frames == [] || (|t.frames| == 1 && Established(s) && IsRequest(t.frames[0])))
  }

  lemma BeatSends(s: Sdk, e: Event)
    requires Enabled(s, e) && e.Beat? && SaysHello(s)
    ensures SendsOne(s, Apply(s, e))
  {
    var encoded := EncodeHeartbeat(Heartbeat(s.nextId, s.handshake.value.selected, s.session), e.size);
    if encoded.Some? {
      SealSends(s.handshake.value, encoded.value, e.cipherOk);
    }
  }

  lemma JoinSends(s: Sdk, e: Event)
    requires Enabled(s, e) && e.Join? && SaysHello(s)
    ensures SendsOne(s, Apply(s, e))
  {
    if s.handshake.Some? {
      var encoded := EncodeCloseSession(CloseSession(s.nextId, s.handshake.value.selected), e.size);
      if encoded.Some? {
        SealSends(s.handshake.value, encoded.value, e.cipherOk);
      }
    }
  }

  /** Every other event sends nothing. */
  lemma QuietSends(s: Sdk, e: Event)
    requires Enabled(s, e) && SaysHello(s)
    requires e.Initialize? || e.AuthResultArrives? || e.Shutdown? || e.AckArrives? || e.WorkerStops?
    ensures SendsOne(s, Apply(s, e)) && Apply(s, e).frames == []
  {
    if e.AuthResultArrives? && e.frame.Some? {
      OpenKeepsId(s.handshake.value, e.frame.value);
    }
    if e.AckArrives? && e.frame.Some? {
      OpenKeepsId(s.handshake.value, e.frame.value);
    }
  }

  lemma OpenKeepsId(c: ClientEnd, f: WireFrame)
    ensures ClientOpen(c, f).0.requestId == c.requestId
  {
  }

  // ---- what a run has sent ----

  /** The hello first, then frames whose ids are the history of used ids, the first of them the finished message. */
  predicate Recorded(s: Sdk, sent: seq<WireFrame>) {
    && SaysHello(s)
    && (s.snapshot.state == Uninitialized || s.operation == Dialing ==> sent == [])
    && (s.handshake.Some? ==> sent != [])
    && (s.operation == AwaitServerHello ==> |sent| == 1)
    && (Established(s) ==> |sent| > 1)
    && (sent == [] ==> s.used == [])
    && (sent != [] ==> IsHello(sent[0]) && RequestId(sent[0]) == HELLO_ID && Ids(sent[1..]) == s.used)
    && (|sent| > 1 ==> IsFinished(sent[1]) && RequestId(sent[1]) == HELLO_ID)
    && (forall k :: 2 <= k < |sent| ==> IsRequest(sent[k]))
  }

  lemma IdsAppend(a: seq<WireFrame>, b: seq<WireFrame>)
    ensures Ids(a + b) == Ids(a) + Ids(b)
  {
  }

  /** Where an event other than dialing can lead. */
  ghost predicate Onwards(s: Sdk, e: Event, t: Turn) {
    && (t.client.snapshot.state == Uninitialized ==> s.snapshot.state == Uninitialized)
    && (t.client.operation == Dialing ==> s.snapshot.state == Uninitialized || s.operation == Dialing)
    && (t.client.handshake.Some? ==> s.handshake.Some?)
    && (t.client.operation == AwaitServerHello ==> s.operation == AwaitServerHello && !e.ServerHelloArrives?)
    && (Established(t.client) ==> Established(s) || (e.ServerHelloArrives? && t.frames != []))
  }

  lemma HelloOnwards(s: Sdk, e: Event)
    requires SdkInvariant(s) && Enabled(s, e) && e.ServerHelloArrives?
    ensures Onwards(s, e, Apply(s, e))
  {
    EventAdvances(s, e);
  }

  lemma AuthResultOnwards(s: Sdk, e: Event)
    requires SdkInvariant(s) && Enabled(s, e) && e.AuthResultArrives?
    ensures Onwards(s, e, Apply(s, e))
  {
    if e.frame.Some? {
      OpenOutcome(s.handshake.value, e.frame.value);
    }
  }

  lemma AckOnwards(s: Sdk, e: Event)
    requires SdkInvariant(s) && Enabled(s, e) && e.AckArrives?
    ensures Onwards(s, e, Apply(s, e))
  {
    if e.frame.Some? {
      OpenOutcome(s.handshake.value, e.frame.value);
    }
  }

  lemma QuietOnwards(s: Sdk, e: Event)
    requires SdkInvariant(s) && Enabled(s, e) && (e.Initialize? || e.Shutdown? || e.WorkerStops?)
    ensures Onwards(s, e, Apply(s, e))
  {
  }

  lemma SendingOnwards(s: Sdk, e: Event)
    requires SdkInvariant(s) && Enabled(s, e) && (e.Beat? || e.Join?)
    ensures Onwards(s, e, Apply(s, e))
  {
  }

  lemma EventRecorded(s: Sdk, e: Event, sent: seq<WireFrame>)
    requires SdkInvariant(s) && Enabled(s, e) && Recorded(s, sent)
    ensures Recorded(Apply(s, e).client, sent + Apply(s, e).frames)
  {
    match e
    case Dial(_, _, _, _, _, _, _) => DialRecorded(s, e, sent);
    case ServerHelloArrives(_, _, _, _, _, _, _) =>
      ServerHelloSends(s, e);
      HelloOnwards(s, e);
      OnwardRecorded(s, e, Apply(s, e), sent);
    case Beat(_, _, _) =>
      BeatSends(s, e);
      SendingOnwards(s, e);
      OnwardRecorded(s, e, Apply(s, e), sent);
    case Join(_, _) =>
      JoinSends(s, e);
      SendingOnwards(s, e);
      OnwardRecorded(s, e, Apply(s, e), sent);
    case AuthResultArrives(_) =>
      QuietSends(s, e);
      AuthResultOnwards(s, e);
      OnwardRecorded(s, e, Apply(s, e), sent);
    case AckArrives(_) =>
      QuietSends(s, e);
      AckOnwards(s, e);
      OnwardRecorded(s, e, Apply(s, e), sent);
    case _ =>
      QuietSends(s, e);
      QuietOnwards(s, e);
      OnwardRecorded(s, e, Apply(s, e), sent);
  }

  lemma DialRecorded(s: Sdk, e: Event, sent: seq<WireFrame>)
    requires SdkInvariant(s) && Enabled(s, e) && e.Dial? && Recorded(s, sent)
    ensures Recorded(Apply(s, e).client, sent + Apply(s, e).frames)
  {
    DialSends(s, e);
    var t := Apply(s, e);
    assert sent + t.frames == t.frames;
    assert t.frames != [] ==> t.frames[1..] == [];
  }

  lemma IdsOnward(sent: seq<WireFrame>, frames: seq<WireFrame>)
    requires sent != []
    ensures Ids((sent + frames)[1..]) == Ids(sent[1..]) + Ids(frames)
  {
    assert (sent + frames)[1..] == sent[1..] + frames;
    IdsAppend(sent[1..], frames);
  }

  /** Frames sent after the hello, in whichever event. */
  lemma OnwardRecorded(s: Sdk, e: Event, t: Turn, sent: seq<WireFrame>)
    requires Recorded(s, sent) && Onwards(s, e, t) && (e.ServerHelloArrives? ==> |sent| == 1)
    requires s.operation == AwaitServerHello && !e.ServerHelloArrives? ==> t.frames == []
    requires SaysHello(t.client) && t.client.used == s.used + Ids(t.frames)
    requires if e.ServerHelloArrives? then
               && |t.frames| <= 2 && (t.frames != [] ==> IsFinished(t.frames[0]) && RequestId(t.frames[0]) == HELLO_ID)
               && (|t.frames| == 2 ==> IsRequest(t.frames[1]))
             else t.frames == [] || (|t.frames| == 1 && Established(s) && IsRequest(t.frames[0]))
    ensures Recorded(t.client, sent + t.frames)
  {
    if t.frames == [] {
      assert sent + t.frames == sent && Ids(t.frames) == [];
    } else {
      IdsOnward(sent, t.frames);
    }
  }

  lemma {:induction false} RunRecorded(run: seq<Sdk>, events: seq<Event>, n: nat)
    requires ClientRun(run, events) && n <= |events|
    ensures Recorded(run[n], Sent(run, events, n))
  {
    if n > 0 {
      RunRecorded(run, events, n - 1);
      RunKeepsSdk(run, events, n - 1);
      EventRecorded(run[n - 1], events[n - 1], Sent(run, events, n - 1));
    }
  }

  /** In a recorded history two frames share an id exactly when they are the hello and the finished message. */
  lemma RecordedIds(s: Sdk, sent: seq<WireFrame>, i: nat, j: nat)
    requires Recorded(s, sent) && Rising(s.used) && i < j < |sent|
    ensures RequestId(sent[i]) == RequestId(sent[j]) <==> IsHello(sent[i]) && IsFinished(sent[j])
    ensures RequestId(sent[i]) == RequestId(sent[j]) <==> i == 0 && j == 1
  {
    assert RequestId(sent[j]) == s.used[j - 1];
    assert RequestId(sent[1]) == s.used[0];
    if i > 0 {
      assert RequestId(sent[i]) == s.used[i - 1];
    }
  }

  /**
   * Over every run of a client: of all the frames it sends, two carry the same request id if and
   * only if one is the hello and the other the finished message, which are the first two.
   */
  lemma SharedRequestIds(run: seq<Sdk>, events: seq<Event>, n: nat, i: nat, j: nat)
    requires ClientRun(run, events) && n <= |events| && i < j < |Sent(run, events, n)|
    ensures var sent := Sent(run, events, n);
            && (RequestId(sent[i]) == RequestId(sent[j]) <==> IsHello(sent[i]) && IsFinished(sent[j]))
            && (RequestId(sent[i]) == RequestId(sent[j]) <==> i == 0 && j == 1)
  {
    RunRecorded(run, events, n);
    RunKeepsSdk(run, events, n);
    RecordedIds(run[n], Sent(run, events, n), i, j);
  }

  /** The hello and the finished message of every run that gets so far do share theirs. */
  lemma HelloAndFinishedCollide(run: seq<Sdk>, events: seq<Event>, n: nat)
    requires ClientRun(run, events) && n <= |events| && |Sent(run, events, n)| > 1
    ensures var sent := Sent(run, events, n);
            IsHello(sent[0]) && IsFinished(sent[1]) && RequestId(sent[0]) == RequestId(sent[1]) == HELLO_ID
  {
    RunRecorded(run, events, n);
  }
}
