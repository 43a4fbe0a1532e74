/** A client that is Valid after a heartbeat owes it to an acknowledgement sent while the license had not expired. */
module Timeliness {
  import opened Bytes
  import opened Crypto
  import opened Messages
  import opened Records
  import opened Handshakes
  import opened Connections
  import opened Agreement
  import Clients
  import Replies = Answers

  /**
   * A frame accepted over the channel of transcript t, with the connection that sealed it and the
   * clock it did so at.
   */
  lemma SealedWhen(g: Setup, h: History, t: Transcript, f: WireFrame) returns (j: nat, now: U64)
    requires HistoryOk(g, h) && Agreement.Deliverable(g, h, f) && Encodable(t)
    requires t.clientPublic in g.pool && t.serverPublic in g.pool
    requires f.WireFrame? && f.payload.Sealed? && f.payload.aead.key == KeysOf(t).serviceToClient.key
    ensures j in h.signed && h.signed[j] == t
    ensures Emission(Server(j), f.payload.aead, now) in h.sealed && Timely(g.license, now, f.payload.aead.plain)
  {
    HonestKeysSecret(g, t);
    var e :| e in h.sealed && e.aead == f.payload.aead;
    assert EmissionOk(g, h, e);
    LabelsDiffer();
    assert e.author.Server?;
    j, now := e.author.which, e.now;
    assert SignedOk(g, h, j);
    KeysDetermineTranscript(h.signed[j], t);
    assert e == Emission(Server(j), f.payload.aead, now);
  }

  /** What an acknowledgement that leaves a client Valid must have been. */
  lemma ValidAck(s: Clients.Sdk, frame: Option<WireFrame>)
    requires s.handshake.Some? && s.worker.AwaitAck? && Clients.TakeAck(s, frame).client.snapshot.state == Clients.Valid
    ensures frame.Some? && ClientOpen(s.handshake.value, frame.value).1.Done?
    ensures var ack := DecodeHeartbeatAck(ClientOpen(s.handshake.value, frame.value).1.value);
            ack.Some? && ack.value.requestId == s.worker.requestId && ack.value.state == 1
  {
    Replies.AckPublished(s, frame);
  }

  lemma OpenedFrame(c: ClientEnd, f: WireFrame)
    requires ClientOpen(c, f).1.Done?
    ensures c.state == Established && c.reader.Some? && f.WireFrame? && f.payload.Sealed?
    ensures f.payload.aead.key == c.reader.value.key.key && ClientOpen(c, f).1.value == f.payload.aead.plain
  {
  }

  lemma ValidAckSealed(g: Setup, w: World, i: nat, f: WireFrame) returns (j: nat, now: U64)
    requires WorldOk(g, w) && i in w.clients && w.clients[i].handshake.Some? && w.clients[i].worker.AwaitAck?
    requires Agreement.Deliverable(g, w.past, f)
             && Clients.TakeAck(w.clients[i], Some(f)).client.snapshot.state == Clients.Valid
    ensures Agreed(g, w, i, j) && f.WireFrame? && f.payload.Sealed?
    ensures Emission(Server(j), f.payload.aead, now) in w.past.sealed
    ensures g.license.expire == 0 || now < g.license.expire
  {
    var s := w.clients[i];
    ValidAck(s, Some(f));
    OpenedFrame(s.handshake.value, f);
    assert ClientOk(g, w.past, i, s);
    MetKeysHonest(g, w.past, i);
    j, now := SealedWhen(g, w.past, w.past.met[i].transcript, f);
    SignerAgrees(g, w, i, j);
  }

  /**
   * In every run over an arbitrary network: whenever a client is Valid after an acknowledgement,
   * that frame was sealed by the one connection it shares a transcript with, it acknowledges the
   * heartbeat the client waited for as valid, and the license had not expired on the service's
   * clock when it was sent.
   */
  lemma AckAgreement(g: Setup, run: seq<World>, actions: seq<Action>, n: nat, i: nat) returns (j: nat, now: U64)
    requires Run(g, run, actions) && n < |actions| && actions[n].ClientActs? && actions[n].who == i
             && actions[n].event.AckArrives?
    requires i in run[n + 1].clients && run[n + 1].clients[i].snapshot.state == Clients.Valid
    ensures i in run[n].clients && run[n].clients[i].worker.AwaitAck? && actions[n].event.frame.Some?
    ensures var f := actions[n].event.frame.value;
            && f.WireFrame? && f.payload.Sealed? && Emission(Server(j), f.payload.aead, now) in run[n].past.sealed
            && var ack := DecodeHeartbeatAck(f.payload.aead.plain);
               ack.Some? && ack.value.requestId == run[n].clients[i].worker.requestId && ack.value.state == 1
    ensures Agreed(g, run[n], i, j)
    ensures g.license.expire == 0 || now < g.license.expire
  {
    RunKeepsWorld(g, run, actions, n);
    assert Can(g, run[n], actions[n]) && run[n + 1] == Do(g, run[n], actions[n]);
    var s, frame := run[n].clients[i], actions[n].event.frame;
    ValidAck(s, frame);
    OpenedFrame(s.handshake.value, frame.value);
    j, now := ValidAckSealed(g, run[n], i, frame.value);
  }
}
