/**
 * Frames over a byte stream: the partial-transfer loops of the socket transport and the
 * readFrame built on them. The kernel is an arbitrary schedule of chunk sizes,
 * interruptions and faults; nothing below depends on how a schedule splits the stream.
 */
module Streams {
  import opened Bytes
  import opened Frames

  /** One answer of recv or send: up to limit bytes (at least one), an interruption, or a hard error. */
  datatype Event = Chunk(limit: nat) | Interrupted | Fault

  datatype Transfer = Moved(count: nat) | EndOfFile | TryAgain | Broken
  {
    function Count(): nat { if Moved? then count else 0 }
  }

  datatype Status = Ok | Eof | Failed

  /** The frame at the front of a stream, if all of it is there and its header is acceptable. */
  function NextFrame(s: Bytes): Option<Bytes> {
    match DecodeHeader(s[..if |s| < HEADER_SIZE then |s| else HEADER_SIZE], MAX_PAYLOAD)
    case Refused(_) => None
    case Decoded(h) => if |s| < HEADER_SIZE + h.payloadSize then None else Some(s[..HEADER_SIZE + h.payloadSize])
  }

  /** All the frames that repeated reading takes off the front of a stream. */
  function FramesOf(s: Bytes): seq<Bytes>
    decreases |s|
  {
    match NextFrame(s)
    case None => []
    case Some(f) => if |f| == 0 then [] else [f] + FramesOf(s[|f|..])
  }

  function Flatten(frames: seq<Bytes>): Bytes {
    if frames == [] then [] else frames[0] + Flatten(frames[1..])
  }

  predicate IsFrame(f: Bytes) {
    DecodeFrame(f, MAX_PAYLOAD).Decoded?
  }

  /** A frame is read whole off the front of any stream that begins with it. */
  lemma NextFrameOf(f: Bytes, rest: Bytes)
    requires IsFrame(f)
    ensures |f| > HEADER_SIZE
    ensures NextFrame(f + rest) == Some(f)
  {
    var (h, payload) := DecodeFrame(f, MAX_PAYLOAD).value;
    FrameCodecExact(f, MAX_PAYLOAD, h, payload);
    assert (f + rest)[..HEADER_SIZE] == f[..HEADER_SIZE] == EncodeHeader(h);
    DecodeEncoded(h, [], MAX_PAYLOAD);
    assert EncodeHeader(h) + [] == EncodeHeader(h);
    assert (f + rest)[..|f|] == f;
  }

  /**
   * The frame format is self-delimiting: a stream of frames reads back as exactly those frames,
   * then as whatever follows.
   */
  lemma {:induction false} FramesOfFlatten(frames: seq<Bytes>, rest: Bytes)
    requires forall i :: 0 <= i < |frames| ==> IsFrame(frames[i])
    ensures FramesOf(Flatten(frames) + rest) == frames + FramesOf(rest)
  {
    if frames == [] {
      assert Flatten(frames) + rest == rest;
    } else {
      var tail := Flatten(frames[1..]) + rest;
      assert Flatten(frames) + rest == frames[0] + tail;
      FramesOfFirst(frames[0], tail);
      FramesOfFlatten(frames[1..], rest);
      HeadOn(frames, FramesOf(rest));
    }
  }

  lemma HeadOn(frames: seq<Bytes>, more: seq<Bytes>)
    requires frames != []
    ensures [frames[0]] + (frames[1..] + more) == frames + more
  {
  }

  lemma FramesOfFirst(f: Bytes, tail: Bytes)
    requires IsFrame(f)
    ensures FramesOf(f + tail) == [f] + FramesOf(tail)
  {
    NextFrameOf(f, tail);
    assert (f + tail)[|f|..] == tail;
  }

  /** Two lists of frames with the same bytes are the same list. */
  lemma FlattenInjective(xs: seq<Bytes>, ys: seq<Bytes>)
    requires forall i :: 0 <= i < |xs| ==> IsFrame(xs[i])
    requires forall i :: 0 <= i < |ys| ==> IsFrame(ys[i])
    requires Flatten(xs) == Flatten(ys)
    ensures xs == ys
  {
    FramesOfFlatten(xs, []);
    FramesOfFlatten(ys, []);
    assert FramesOf([]) == [];
    assert xs + [] == xs && ys + [] == ys;
  }

  lemma NextFrameShort(s: Bytes)
    ensures |s| < HEADER_SIZE ==> NextFrame(s) == None
  {
  }

  lemma NextFrameLong(s: Bytes, head: Bytes)
    requires |s| >= HEADER_SIZE && head == s[..HEADER_SIZE]
    ensures NextFrame(s) == (match DecodeHeader(head, MAX_PAYLOAD)
                             case Refused(_) => None
                             case Decoded(h) =>
                               if |s| < HEADER_SIZE + h.payloadSize then None
                                 else Some(s[..HEADER_SIZE + h.payloadSize]))
  {
  }

  class Socket {
    var inbox: Bytes        // what the peer has sent and this side has not received
    var sent: Bytes         // what this side has handed over
    var events: seq<Event>  // how the kernel will answer; an exhausted schedule moves all it can

    constructor (inbox: Bytes, events: seq<Event>)
      ensures this.inbox == inbox && this.events == events && sent == []
    {
      this.inbox := inbox;
      this.events := events;
      sent := [];
    }

    /** How much of n bytes the kernel moves when `available` bytes can move. */
    static function Grant(limit: nat, n: nat, available: nat): (count: nat)
      requires n > 0
      ensures count <= n && count <= available
      ensures available > 0 ==> count > 0
    {
      var wanted := if limit == 0 then 1 else if limit < n then limit else n;
      if wanted < available then wanted else available
    }

    /** recv: at most n bytes into the output buffer. */
    method Receive(output: array<Byte>, offset: nat, n: nat) returns (t: Transfer)
      requires n > 0 && offset + n <= output.Length
      modifies this`inbox, this`events, output
      ensures t.Moved? ==> 0 < t.count <= n && t.count <= old(|inbox|)
      ensures t.Moved? ==> inbox == old(inbox)[t.count..]
      ensures t.Moved? ==> forall k :: offset <= k < offset + t.count ==> output[k] == old(inbox)[k - offset]
      ensures !t.Moved? ==> inbox == old(inbox)
      ensures forall k :: 0 <= k < output.Length && !(offset <= k < offset + t.Count()) ==> output[k] == old(output[k])
      ensures t.EndOfFile? ==> inbox == []
      ensures t.Broken? ==> Fault in old(events)
      ensures events == old(events)[if old(events) == [] then 0 else 1..]
      ensures t.TryAgain? ==> old(events) != []
    {
      var event := Chunk(n);
      if events != [] {
        event, events := events[0], events[1..];
      }
      match event
      case Interrupted => return TryAgain;
      case Fault => return Broken;
      case Chunk(limit) =>
        if inbox == [] { return EndOfFile; }
        var count := Grant(limit, n, |inbox|);
        var i := 0;
        while i < count
          invariant 0 <= i <= count
          invariant forall k :: offset <= k < offset + i ==> output[k] == inbox[k - offset]
          invariant forall k :: 0 <= k < output.Length && !(offset <= k < offset + i) ==> output[k] == old(output[k])
          modifies output
        {
          output[offset + i] := inbox[i];
          i := i + 1;
        }
        inbox := inbox[count..];
        return Moved(count);
    }

    /** readExact: fill output[from..end], whatever sizes recv chooses. */
    method ReadExact(output: array<Byte>, from: nat, end: nat) returns (status: Status)
      requires from <= end <= output.Length
      modifies this`inbox, this`events, output
      ensures status == Ok ==> end - from <= old(|inbox|)
      ensures status == Ok ==> inbox == old(inbox)[end - from..]
      ensures status == Ok ==> forall k :: from <= k < end ==> output[k] == old(inbox)[k - from]
      ensures status == Ok ==> forall k :: 0 <= k < output.Length && !(from <= k < end) ==> output[k] == old(output[k])
      ensures status == Eof ==> old(|inbox|) < end - from
      ensures status == Failed ==> Fault in old(events)
      ensures Fault in events ==> Fault in old(events)
    {
      var offset := from;
      ghost var source := inbox;
      while offset < end
        invariant from <= offset <= end
        invariant offset - from <= |source|
        invariant forall k :: from <= k < offset ==> output[k] == source[k - from]
        invariant forall k :: 0 <= k < output.Length && !(from <= k < offset) ==> output[k] == old(output[k])
        invariant inbox == source[offset - from..]
        invariant Fault in events ==> Fault in old(events)
        decreases end - offset + |events|
      {
        var t := Receive(output, offset, end - offset);
        match t {
          case Moved(count) =>
            assert inbox == source[offset - from + count..];
            offset := offset + count;
          case EndOfFile => return Eof;
          case TryAgain =>
          case Broken => return Failed;
        }
      }
      return Ok;
    }

    /** writeAll: hand over every byte of data in order, whatever sizes send chooses. */
    method WriteAll(data: Bytes) returns (status: Status)
      modifies this`sent, this`events
      ensures status == Ok ==> sent == old(sent) + data
      ensures status != Ok ==> Fault in old(events)
      ensures exists k :: 0 <= k <= |data| && sent == old(sent) + data[..k]
    {
      var offset := 0;
      assert sent == old(sent) + data[..0];
      while offset < |data|
        invariant 0 <= offset <= |data|
        invariant sent == old(sent) + data[..offset]
        invariant Fault in events ==> Fault in old(events)
        decreases |data| - offset + |events|
      {
        var event := Chunk(|data| - offset);
        if events != [] {
          event, events := events[0], events[1..];
        }
        match event {
          case Chunk(limit) =>
            var count := Grant(limit, |data| - offset, |data| - offset);
            assert data[..offset + count] == data[..offset] + data[offset..offset + count];
            sent := sent + data[offset..offset + count];
            offset := offset + count;
          case Interrupted =>
          case Fault => return Failed;
        }
      }
      assert data[..|data|] == data;
      return Ok;
    }

    /** readFrame: the header, then as much payload as it announces. */
    method ReadFrame() returns (frame: Option<Bytes>)
      modifies this`inbox, this`events
      ensures frame.Some? ==> frame == NextFrame(old(inbox)) && inbox == old(inbox)[|frame.value|..]
      ensures frame.None? ==> NextFrame(old(inbox)) == None || Fault in old(events)
      ensures Fault in events ==> Fault in old(events)
    {
      ghost var stream := inbox;
      var head := new Byte[HEADER_SIZE](_ => 0);
      var status := ReadExact(head, 0, HEADER_SIZE);
      if status != Ok {
        NextFrameShort(stream);
        return None;
      }
      var decoded := DecodeHeader(head[..], MAX_PAYLOAD);
      NextFrameLong(stream, head[..]);
      if decoded.Refused? { return None; }
      frame := ReadPayload(head[..], decoded.value.payloadSize, stream);
    }

    /** The frame buffer: the header copied in, then the payload read behind it. */
    method ReadPayload(head: Bytes, size: nat, ghost stream: Bytes) returns (frame: Option<Bytes>)
      requires |head| == HEADER_SIZE && HEADER_SIZE <= |stream| && head == stream[..HEADER_SIZE]
               && inbox == stream[HEADER_SIZE..]
      modifies this`inbox, this`events
      ensures frame.Some? ==>
                HEADER_SIZE + size <= |stream| && frame.value == stream[..HEADER_SIZE + size]
                  && inbox == stream[HEADER_SIZE + size..]
      ensures frame.None? ==> |stream| < HEADER_SIZE + size || Fault in old(events)
      ensures Fault in events ==> Fault in old(events)
    {
      var buffer := new Byte[HEADER_SIZE + size](_ => 0);
      var i := 0;
      while i < HEADER_SIZE
        invariant 0 <= i <= HEADER_SIZE
        invariant forall k :: 0 <= k < i ==> buffer[k] == head[k]
        modifies buffer
      {
        buffer[i] := head[i];
        i := i + 1;
      }
      assert buffer[..HEADER_SIZE] == head;
      var status := ReadExact(buffer, HEADER_SIZE, HEADER_SIZE + size);
      if status != Ok { return None; }
      assert buffer[..] == stream[..HEADER_SIZE + size];
      return Some(buffer[..]);
    }

    /** Reading until a read fails: without a fault this is every frame of the stream, under every schedule. */
    method ReadFrames() returns (frames: seq<Bytes>)
      modifies this`inbox, this`events
      ensures Fault !in old(events) ==> frames == FramesOf(old(inbox))
      ensures frames <= FramesOf(old(inbox))
    {
      frames := [];
      while true
        invariant FramesOf(old(inbox)) == frames + FramesOf(inbox)
        invariant Fault in events ==> Fault in old(events)
        decreases |inbox|
      {
        ghost var before := inbox;
        var next := ReadFrame();
        if next.None? {
          assert NextFrame(before) == None ==> FramesOf(before) == [];
          return;
        }
        assert |next.value| > 0;
        frames := frames + [next.value];
      }
    }
  }
}
