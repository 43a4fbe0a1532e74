/**
 * The SDK client: initialize and shutdown, serialised by the operation mutex, and the
 * heartbeat thread beside them. Each event is one stretch that runs between two points where
 * a thread can be made to wait; any interleaving of enabled events is a run.
 */
module Clients {
  import opened Bytes
  import opened Crypto
  import opened Messages
  import opened Records
  import opened Handshakes

  datatype ClientState = Uninitialized | Connecting | Valid | Grace | Expired | Revoked | Error | Closed

  /** The snapshot applications read. */
  datatype Published = Published(state: ClientState, features: seq<Bytes>, expire: U64)

  datatype Config = Config(product: Bytes, endpoint: Bytes, trusted: map<Bytes, Key>, connectTimeout: int,
      ioTimeout: int)
  {
    predicate Complete() {
      product != [] && endpoint != [] && trusted != map[] && connectTimeout > 0 && ioTimeout > 0
    }
  }

  /** Who holds the operation mutex, and where it waits. */
  datatype Operation = Idle | Dialing | AwaitServerHello | AwaitAuthResult | Joining

  /** The heartbeat thread. */
  datatype Worker = NotStarted | Waiting | AwaitAck(requestId: U64) | Exited

  /** used is history: the request ids of the sealed frames, in the order they were sealed. */
  datatype Sdk = Sdk(
    snapshot: Published, config: Config, operation: Operation, worker: Worker, stop: bool,
    transport: bool, handshake: Option<ClientEnd>, session: SessionId, nextId: U64, used: seq<U64>)

  datatype Event =
    | Initialize(config: Config)
    | Dial(connected: bool, start: StartEnv, written: bool, minVersion: U16, maxVersion: U16, sdkVersion: Bytes,
      blank: Key)
    | ServerHelloArrives(frame: Option<WireFrame>, env: HelloEnv, finishedWritten: bool, process: U64, size: nat,
      cipherOk: bool, written: bool)
    | AuthResultArrives(frame: Option<WireFrame>)
    | Shutdown
    | Join(size: nat, cipherOk: bool)
    | Beat(size: nat, cipherOk: bool, written: bool)
    | AckArrives(frame: Option<WireFrame>)
    | WorkerStops

  /** What an event makes of the client, and the frames it sends. */
  datatype Turn = Turn(client: Sdk, frames: seq<WireFrame>)

  const HELLO_ID: U64 := 1
  const AUTHORIZE_ID: U64 := 2
  const FIRST_FREE_ID: U64 := 3

  predicate Unused(s: Sdk) {
    s.snapshot == Published(Uninitialized, [], 0) && s.operation == Idle && s.worker == NotStarted && !s.stop
    && !s.transport && s.handshake.None? && s.nextId == FIRST_FREE_ID && s.used == []
  }

  predicate Enabled(s: Sdk, e: Event) {
    match e
    case Initialize(_) => s.operation == Idle
    case Dial(_, _, _, _, _, _, _) => s.operation == Dialing
    case ServerHelloArrives(_, _, _, _, _, _, _) => s.operation == AwaitServerHello && s.handshake.Some?
    case AuthResultArrives(_) => s.operation == AwaitAuthResult && s.handshake.Some?
    case Shutdown => s.operation == Idle
    case Join(_, _) => s.operation == Joining && s.worker in {NotStarted, Exited}
    case Beat(_, _, _) => s.worker == Waiting && !s.stop && s.handshake.Some?
    case AckArrives(_) => s.worker.AwaitAck? && s.handshake.Some?
    case WorkerStops => s.worker == Waiting && s.stop
  }

  /** fail(): initialization gives up, releases the mutex and drops transport and handshake. */
  function GiveUp(s: Sdk): Sdk {
    s.(snapshot := s.snapshot.(state := Error, features := []), operation := Idle, transport := false,
      handshake := None)
  }

  /** heartbeatFailed(): the thread publishes Error and ends. */
  function BeatFailed(s: Sdk): Sdk {
    s.(snapshot := s.snapshot.(state := Error, features := []), worker := Exited)
  }

  function Bump(id: U64): U64 {
    if id == LAST_SEQUENCE then 0 else id + 1
  }

  function BeginInitialize(s: Sdk, config: Config): Turn {
    if s.snapshot.state != Uninitialized then Turn(s, [])
    else if !config.Complete() then Turn(s.(snapshot := s.snapshot.(state := Error)), [])
    else Turn(s.(snapshot := s.snapshot.(state := Connecting), config := config, operation := Dialing), [])
  }

  function NewHandshake(s: Sdk, minVersion: U16, maxVersion: U16, sdkVersion: Bytes, blank: Key): ClientEnd {
    ClientEnd(s.config.trusted, sdkVersion, HELLO_ID, minVersion, maxVersion, 0, blank, blank, None, None, Initial)
  }

  function DialOut(s: Sdk, connected: bool, start: StartEnv, written: bool, minVersion: U16, maxVersion: U16,
      sdkVersion: Bytes, blank: Key): Turn {
    if !connected then Turn(GiveUp(s), []) else
    match ClientStart(NewHandshake(s, minVersion, maxVersion, sdkVersion, blank), start)
    case (_, Reject(_)) => Turn(GiveUp(s), [])
    case (h, Reply(hello)) =>
      if !written then Turn(GiveUp(s), [ClearFrame(hello)])
      else Turn(s.(transport := true, handshake := Some(h), operation := AwaitServerHello), [ClearFrame(hello)])
  }

  function TakeServerHello(s: Sdk, frame: Option<WireFrame>, env: HelloEnv, finishedWritten: bool, process: U64,
      size: nat, cipherOk: bool, written: bool): Turn
    requires s.handshake.Some?
  {
    if frame.None? || ClearBuffer(frame.value).None? then Turn(GiveUp(s), []) else
    match ClientReceiveHello(s.handshake.value, ClearBuffer(frame.value).value, env)
    case (_, Reject(_)) => Turn(GiveUp(s), [])
    case (h, Reply(finished)) => RequestAuthorization(s, h, finished, finishedWritten, process, size, cipherOk, written)
  }

  /** The two frames an established client sends: its finished message and the request. */
  function RequestAuthorization(s: Sdk, h: ClientEnd, finished: WireFrame, finishedWritten: bool, process: U64,
      size: nat, cipherOk: bool, written: bool): Turn {
    var s := s.(handshake := Some(h), used := s.used + [HELLO_ID]);
    if !finishedWritten then Turn(GiveUp(s), [finished]) else
    match EncodeAuthorize(Authorize(AUTHORIZE_ID, h.selected, s.config.product, process), size)
    case None => Turn(GiveUp(s), [finished])
    case Some(b) =>
      match ClientSeal(h, b, cipherOk)
      case (_, Denied(_)) => Turn(GiveUp(s), [finished])
      case (h, Done(request)) =>
        var s := s.(handshake := Some(h), used := s.used + [AUTHORIZE_ID]);
        if !written then Turn(GiveUp(s), [finished, request])
        else Turn(s.(operation := AwaitAuthResult), [finished, request])
  }

  /** An answer that grants the session the client asked for. */
  predicate Grants(h: ClientEnd, r: AuthResult) {
    && r.error == NO_ERROR && r.requestId == AUTHORIZE_ID && r.version == h.selected && r.session.Some?
    && 0 < r.interval < r.timeout
  }

  function TakeAuthResult(s: Sdk, frame: Option<WireFrame>): Turn
    requires s.handshake.Some?
  {
    if frame.None? then Turn(GiveUp(s), []) else
    match ClientOpen(s.handshake.value, frame.value)
    case (_, Denied(_)) => Turn(GiveUp(s), [])
    case (h, Done(plain)) =>
      match DecodeAuthResult(plain)
      case None => Turn(GiveUp(s), [])
      case Some(r) =>
        if !Grants(h, r) then Turn(GiveUp(s), [])
        else Turn(s.(handshake := Some(h), session := r.session.value,
          snapshot := Published(Valid, r.features, r.expire),
                     operation := Idle, worker := Waiting), [])
  }

  /** shutdown after the thread has been joined: a farewell if there is a channel, then everything is dropped. */
  function FinishShutdown(s: Sdk, size: nat, cipherOk: bool): Turn {
    var gone := s.(snapshot := s.snapshot.(state := Closed, features := []), operation := Idle, transport := false,
      handshake := None);
    if !s.transport || s.handshake.None? || s.handshake.value.state != Established then Turn(gone, []) else
    var next := gone.(nextId := Bump(s.nextId));
    match EncodeCloseSession(CloseSession(s.nextId, s.handshake.value.selected), size)
    case None => Turn(next, [])
    case Some(b) =>
      match ClientSeal(s.handshake.value, b, cipherOk)
      case (_, Denied(_)) => Turn(next, [])
      case (_, Done(f)) => Turn(next.(used := s.used + [s.nextId]), [f])
  }

  function SendBeat(s: Sdk, size: nat, cipherOk: bool, written: bool): Turn
    requires s.handshake.Some?
  {
    var id := s.nextId;
    var s := s.(nextId := Bump(id));
    match EncodeHeartbeat(Heartbeat(id, s.handshake.value.selected, s.session), size)
    case None => Turn(BeatFailed(s), [])
    case Some(b) =>
      match ClientSeal(s.handshake.value, b, cipherOk)
      case (_, Denied(_)) => Turn(BeatFailed(s), [])
      case (h, Done(f)) =>
        var s := s.(handshake := Some(h), used := s.used + [id]);
        if !written then Turn(BeatFailed(s), [f]) else Turn(s.(worker := AwaitAck(id)), [f])
  }

  function AckedState(state: Byte): ClientState {
    if state == STATE_VALID then Valid else if state == STATE_GRACE then Grace
    else if state == STATE_EXPIRED then Expired else if state == STATE_REVOKED then Revoked else Error
  }

  function TakeAck(s: Sdk, frame: Option<WireFrame>): Turn
    requires s.handshake.Some? && s.worker.AwaitAck?
  {
    if frame.None? then Turn(BeatFailed(s), []) else
    match ClientOpen(s.handshake.value, frame.value)
    case (_, Denied(_)) => Turn(BeatFailed(s), [])
    case (h, Done(plain)) =>
      var s := s.(handshake := Some(h));
      match DecodeHeartbeatAck(plain)
      case None => Turn(BeatFailed(s), [])
      case Some(a) =>
        if a.requestId != s.worker.requestId || a.version != h.selected then Turn(BeatFailed(s), []) else
        var state := AckedState(a.state);
        Turn(s.(snapshot := Published(state, if state == Valid then a.features else [], a.expire),
                worker := if state == Valid then Waiting else Exited), [])
  }

  function Apply(s: Sdk, e: Event): Turn
    requires Enabled(s, e)
  {
    match e
    case Initialize(config) => BeginInitialize(s, config)
    case Dial(connected, start, written, lo, hi, sdkVersion, blank) =>
      DialOut(s, connected, start, written, lo, hi, sdkVersion, blank)
    case ServerHelloArrives(f, env, fw, process, size, cipherOk, written) =>
      TakeServerHello(s, f, env, fw, process, size, cipherOk, written)
    case AuthResultArrives(f) => TakeAuthResult(s, f)
    case Shutdown => Turn(s.(stop := true, operation := Joining), [])
    case Join(size, cipherOk) => FinishShutdown(s, size, cipherOk)
    case Beat(size, cipherOk, written) => SendBeat(s, size, cipherOk, written)
    case AckArrives(f) => TakeAck(s, f)
    case WorkerStops => Turn(s.(worker := Exited), [])
  }

  // ---- invariants ----

  predicate Rising(ids: seq<U64>) {
    forall i, j :: 0 <= i < j < |ids| ==> ids[i] < ids[j]
  }

  /** The last id used, or 0. */
  function LastId(ids: seq<U64>): U64 {
    if ids == [] then 0 else ids[|ids| - 1]
  }

  /**
   * The thread counts in step with the record layer: request n travels as record n, and at most one
   * id is spent without a record, by the beat that ends the thread.
   */
  predicate InStep(s: Sdk) {
    s.handshake.Some? && s.handshake.value.state == Established ==>
      && s.handshake.value.writer.Some?
      && var next := s.handshake.value.writer.value.next;
         && next >= FIRST_FREE_ID
         && LastId(s.used) < next
         && (s.nextId == next || (s.worker == Exited && s.nextId == Bump(next)))
  }

  /** Which combinations of published state, operation and thread occur. */
  predicate Shape(s: Sdk) {
    && (s.snapshot.state == Uninitialized ==>
          s.operation in {Idle, Joining} && s.worker == NotStarted && s.handshake.None?)
    && (s.operation in {Dialing, AwaitServerHello, AwaitAuthResult} <==> s.snapshot.state == Connecting)
    && (s.operation == Dialing ==> s.handshake.None?)
    && (s.operation == AwaitServerHello ==> s.handshake.Some? && s.handshake.value.state == HelloSent)
    && (s.operation == AwaitAuthResult ==> s.handshake.Some? && s.handshake.value.state == Established)
    && (s.snapshot.state == Connecting ==> s.worker == NotStarted)
    && (s.snapshot.features != [] ==> s.snapshot.state == Valid)
    && (s.worker == Waiting || s.worker.AwaitAck? ==>
          s.snapshot.state == Valid && s.handshake.Some? && s.handshake.value.state == Established)
    && (s.snapshot.state == Valid ==> s.worker != NotStarted && (s.worker == Exited ==> s.operation == Joining))
    && (s.stop <==> s.operation == Joining || s.snapshot.state == Closed)
    && (s.snapshot.state == Closed ==> s.handshake.None? && !s.transport && s.worker in {NotStarted, Exited})
    && (s.handshake.Some? && s.worker == NotStarted ==> s.snapshot.state == Connecting)
  }

  /** Request ids rise and keep step with the record layer. */
  predicate Numbers(s: Sdk) {
    && (s.snapshot.state == Uninitialized || s.operation in {Dialing, AwaitServerHello} ==>
          s.used == [] && s.nextId == FIRST_FREE_ID)
    && Rising(s.used)
    && InStep(s)
  }

  predicate SdkInvariant(s: Sdk) {
    Shape(s) && Numbers(s)
  }

  /** How far a client has come; nothing takes it back. */
  function Rank(state: ClientState): nat {
    match state
    case Uninitialized => 0
    case Connecting => 1
    case Valid => 2
    case Closed => 4
    case _ => 3
  }

  /** What one event guarantees about the next state. */
  ghost predicate Advances(s: Sdk, t: Turn) {
    && SdkInvariant(t.client)
    && Rank(s.snapshot.state) <= Rank(t.client.snapshot.state)
    && s.used <= t.client.used
    && (s.stop ==> t.client.stop)
    && (s.snapshot.state == Closed ==> t.client.snapshot == s.snapshot && t.frames == [])
  }

  lemma RisingMore(ids: seq<U64>, id: U64)
    requires Rising(ids) && LastId(ids) < id
    ensures Rising(ids + [id]) && LastId(ids + [id]) == id
  {
  }

  lemma InitializeAdvances(s: Sdk, config: Config)
    requires SdkInvariant(s) && s.operation == Idle
    ensures Advances(s, BeginInitialize(s, config))
  {
  }

  lemma DialAdvances(s: Sdk, connected: bool, start: StartEnv, written: bool, lo: U16, hi: U16, sdkVersion: Bytes,
      blank: Key)
    requires SdkInvariant(s) && s.operation == Dialing
    ensures Advances(s, DialOut(s, connected, start, written, lo, hi, sdkVersion, blank))
  {
  }

  /** A client that accepted a server hello is established and has sealed exactly its finished message. */
  lemma HelloOutcome(c: ClientEnd, message: Buffer, env: HelloEnv)
    requires ClientReceiveHello(c, message, env).1.Reply?
    ensures var h := ClientReceiveHello(c, message, env).0;
            h.state == Established && h.writer.Some? && h.writer.value.next == 2
  {
  }

  /** What sealing does to the numbers. */
  lemma SealOutcome(c: ClientEnd, plain: Buffer, cipherOk: bool)
    ensures var (h, r) := ClientSeal(c, plain, cipherOk);
            && h.state == c.state
            && (r.Denied? ==> h == c)
            && (r.Done? ==> && c.state == Established && c.writer.Some? && c.writer.value.next < LAST_SEQUENCE
                            && h.writer == Some(c.writer.value.(next := c.writer.value.next + 1)))
  {
  }

  lemma OpenOutcome(c: ClientEnd, f: WireFrame)
    ensures ClientOpen(c, f).0.state == c.state && ClientOpen(c, f).0.writer == c.writer
  {
  }

  /** Giving up during initialization, whatever ids were spent. */
  lemma GiveUpAdvances(s: Sdk, t: Sdk)
    requires SdkInvariant(s) && s.snapshot.state == Connecting
    requires t == s.(handshake := t.handshake, used := t.used) && Rising(t.used) && s.used <= t.used
    ensures SdkInvariant(GiveUp(t)) && Rank(s.snapshot.state) <= Rank(GiveUp(t).snapshot.state)
  {
  }

  lemma ServerHelloAdvances(s: Sdk, frame: Option<WireFrame>, env: HelloEnv, fw: bool, process: U64, size: nat,
      cipherOk: bool, written: bool)
    requires SdkInvariant(s) && s.operation == AwaitServerHello
    ensures Advances(s, TakeServerHello(s, frame, env, fw, process, size, cipherOk, written))
  {
    GiveUpAdvances(s, s);
    if frame.Some? && ClearBuffer(frame.value).Some? {
      var b := ClearBuffer(frame.value).value;
      var (h, r) := ClientReceiveHello(s.handshake.value, b, env);
      if r.Reply? {
        HelloOutcome(s.handshake.value, b, env);
        EstablishedAdvances(s, h, r.value, fw, process, size, cipherOk, written);
      }
    }
  }

  lemma EstablishedAdvances(s: Sdk, h: ClientEnd, finished: WireFrame, fw: bool, process: U64, size: nat,
      cipherOk: bool, written: bool)
    requires SdkInvariant(s) && s.operation == AwaitServerHello
    requires h.state == Established && h.writer.Some? && h.writer.value.next == 2
    ensures Advances(s, RequestAuthorization(s, h, finished, fw, process, size, cipherOk, written))
  {
    var one := s.(handshake := Some(h), used := s.used + [HELLO_ID]);
    assert one.used == [HELLO_ID];
    GiveUpAdvances(s, one);
    var encoded := EncodeAuthorize(Authorize(AUTHORIZE_ID, h.selected, one.config.product, process), size);
    if fw && encoded.Some? {
      SealOutcome(h, encoded.value, cipherOk);
      var (k, r) := ClientSeal(h, encoded.value, cipherOk);
      if r.Done? {
        var two := one.(handshake := Some(k), used := one.used + [AUTHORIZE_ID]);
        RisingMore(one.used, AUTHORIZE_ID);
        GiveUpAdvances(s, two);
        assert SdkInvariant(two.(operation := AwaitAuthResult));
      }
    }
  }

  lemma AuthResultAdvances(s: Sdk, frame: Option<WireFrame>)
    requires SdkInvariant(s) && s.operation == AwaitAuthResult
    ensures Advances(s, TakeAuthResult(s, frame))
  {
    GiveUpAdvances(s, s);
    if frame.Some? {
      OpenOutcome(s.handshake.value, frame.value);
    }
  }

  lemma JoinAdvances(s: Sdk, size: nat, cipherOk: bool)
    requires SdkInvariant(s) && s.operation == Joining && s.worker in {NotStarted, Exited}
    ensures Advances(s, FinishShutdown(s, size, cipherOk))
  {
    if LastId(s.used) < s.nextId {
      RisingMore(s.used, s.nextId);
    }
  }

  /** The thread ends by failure: at most one id beyond the records. */
  lemma BeatFailedAdvances(s: Sdk, t: Sdk)
    requires SdkInvariant(s) && s.snapshot.state == Valid && Rising(t.used) && s.used <= t.used
    requires t == s.(handshake := t.handshake, nextId := t.nextId, used := t.used)
    requires t.handshake.Some? && t.handshake.value.state == Established && t.handshake.value.writer.Some?
    requires var next := t.handshake.value.writer.value.next;
             next >= FIRST_FREE_ID && LastId(t.used) < next && (t.nextId == next || t.nextId == Bump(next))
    ensures Advances(s, Turn(BeatFailed(t), []))
  {
  }

  lemma BeatAdvances(s: Sdk, size: nat, cipherOk: bool, written: bool)
    requires SdkInvariant(s) && s.worker == Waiting && s.handshake.Some?
    ensures Advances(s, SendBeat(s, size, cipherOk, written))
  {
    var id := s.nextId;
    var spent := s.(nextId := Bump(id));
    BeatFailedAdvances(s, spent);
    var encoded := EncodeHeartbeat(Heartbeat(id, s.handshake.value.selected, s.session), size);
    if encoded.Some? {
      SealOutcome(s.handshake.value, encoded.value, cipherOk);
      var (h, r) := ClientSeal(s.handshake.value, encoded.value, cipherOk);
      if r.Done? {
        var sent := spent.(handshake := Some(h), used := s.used + [id]);
        RisingMore(s.used, id);
        BeatFailedAdvances(s, sent);
        assert SdkInvariant(sent.(worker := AwaitAck(id)));
      }
    }
  }

  lemma AckAdvances(s: Sdk, frame: Option<WireFrame>)
    requires SdkInvariant(s) && s.worker.AwaitAck? && s.handshake.Some?
    ensures Advances(s, TakeAck(s, frame))
  {
    BeatFailedAdvances(s, s);
    if frame.Some? {
      OpenOutcome(s.handshake.value, frame.value);
      var (h, r) := ClientOpen(s.handshake.value, frame.value);
      var t := s.(handshake := Some(h));
      BeatFailedAdvances(s, t);
      if r.Done? && DecodeHeartbeatAck(r.value).Some? {
        var a := DecodeHeartbeatAck(r.value).value;
        AckedAdvances(s, t, AckedState(a.state), a.features, a.expire);
      }
    }
  }

  lemma AckedAdvances(s: Sdk, t: Sdk, state: ClientState, features: seq<Bytes>, expire: U64)
    requires SdkInvariant(s) && s.worker.AwaitAck? && t == s.(handshake := t.handshake)
    requires t.handshake.Some? && t.handshake.value.state == Established
             && t.handshake.value.writer == s.handshake.value.writer
    requires state in {Valid, Grace, Expired, Revoked, Error}
    ensures Advances(s, Turn(t.(snapshot := Published(state, if state == Valid then features else [], expire),
                                worker := if state == Valid then Waiting else Exited), []))
  {
  }

  lemma EventAdvances(s: Sdk, e: Event)
    requires SdkInvariant(s) && Enabled(s, e)
    ensures Advances(s, Apply(s, e))
  {
    match e
    case Initialize(config) => InitializeAdvances(s, config);
    case Dial(connected, start, written, lo, hi, sdkVersion, blank) =>
      DialAdvances(s, connected, start, written, lo, hi, sdkVersion, blank);
    case ServerHelloArrives(f, env, fw, process, size, cipherOk, written) =>
      ServerHelloAdvances(s, f, env, fw, process, size, cipherOk, written);
    case AuthResultArrives(f) => AuthResultAdvances(s, f);
    case Shutdown =>
    case Join(size, cipherOk) => JoinAdvances(s, size, cipherOk);
    case Beat(size, cipherOk, written) => BeatAdvances(s, size, cipherOk, written);
    case AckArrives(f) => AckAdvances(s, f);
    case WorkerStops =>
  }

  ghost predicate ClientRun(run: seq<Sdk>, events: seq<Event>) {
    && |run| == |events| + 1 && Unused(run[0])
    && forall i :: 0 <= i < |events| ==> Enabled(run[i], events[i]) && run[i + 1] == Apply(run[i], events[i]).client
  }

  lemma {:induction false} RunKeepsSdk(run: seq<Sdk>, events: seq<Event>, n: nat)
    requires ClientRun(run, events) && n < |run|
    ensures SdkInvariant(run[n])
  {
    if n > 0 {
      RunKeepsSdk(run, events, n - 1);
      EventAdvances(run[n - 1], events[n - 1]);
    }
  }

  /** What Advances says of two consecutive states. */
  ghost predicate Progress(s: Sdk, t: Sdk) {
    && Rank(s.snapshot.state) <= Rank(t.snapshot.state)
    && (s.snapshot.state == Closed ==> t.snapshot == s.snapshot)
  }

  ghost predicate Progresses(run: seq<Sdk>) {
    forall i :: 0 <= i < |run| - 1 ==> Progress(run[i], run[i + 1])
  }

  lemma RunProgresses(run: seq<Sdk>, events: seq<Event>)
    requires ClientRun(run, events)
    ensures Progresses(run)
  {
    forall i | 0 <= i < |run| - 1 ensures Progress(run[i], run[i + 1]) {
      RunKeepsSdk(run, events, i);
      EventAdvances(run[i], events[i]);
    }
  }

  lemma {:induction false} RunAdvances(run: seq<Sdk>, m: nat, n: nat)
    requires Progresses(run) && m <= n < |run|
    ensures Progress(run[m], run[n])
    decreases n - m
  {
    if m < n {
      RunAdvances(run, m, n - 1);
      assert Progress(run[n - 1], run[n - 1 + 1]);
    }
  }

  /**
   * The lifecycle under every interleaving of initialize, shutdown and the heartbeat thread:
   * published features mean Valid; a client that has left Valid never returns to it; after
   * shutdown the snapshot never changes and nothing more is sent; and the request ids of the
   * sealed frames of the connection are pairwise distinct.
   */
  lemma Lifecycle(run: seq<Sdk>, events: seq<Event>, m: nat, n: nat)
    requires ClientRun(run, events) && m <= n < |run|
    ensures run[n].snapshot.features != [] ==> run[n].snapshot.state == Valid
    ensures Rank(run[m].snapshot.state) > Rank(Valid) ==> run[n].snapshot.state != Valid
    ensures run[m].snapshot.state == Closed ==> run[n].snapshot == run[m].snapshot
    ensures run[m].snapshot.state == Closed && n < |events| ==> Apply(run[n], events[n]).frames == []
    ensures forall i, j :: 0 <= i < j < |run[n].used| ==> run[n].used[i] != run[n].used[j]
  {
    RunKeepsSdk(run, events, n);
    RunProgresses(run, events);
    RunAdvances(run, m, n);
    if n < |events| {
      EventAdvances(run[n], events[n]);
    }
  }
}
