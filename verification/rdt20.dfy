/**
 * rdt2.0: stop-and-wait over a channel with bit errors (fase1/rdt20.py).
 *
 * The sender has two states and resends its one stored DATA frame on a NAK, on a
 * damaged reply or on a socket timeout. The receiver has a single state: it answers a
 * damaged frame with a NAK and delivers and ACKs every undamaged DATA frame. Because the
 * receiver keeps no sequence number, a DATA frame resent after a damaged ACK is
 * delivered a second time; that weakness of the protocol is kept, not repaired.
 */
module Rdt20 {
  import opened Common
  import opened Frames

  datatype SenderState = WaitCallFromAbove | WaitAckOrNak

  datatype Sender = Sender(state: SenderState, sndpkt: Option<Frame>, retransmissions: nat)

  function InitialSender(): Sender
  {
    Sender(WaitCallFromAbove, None, 0)
  }

  /** The DATA frame for `data`. The rdt2.0 wire format has no sequence number;
      the field is 0 and no rdt2.0 handler reads it. */
  function MakePkt(data: Bytes): Frame
  {
    Frame(Data, 0, data)
  }

  /** The sender holds a stored DATA frame exactly while it waits for a reply. */
  predicate SenderValid(s: Sender)
  {
    && (s.state == WaitAckOrNak <==> s.sndpkt.Some?)
    && (s.sndpkt.Some? ==> s.sndpkt.value.kind == Data)
  }

  /** The NAK test reads only the type field, whatever the checksum says. */
  predicate IsNak(d: Decoded)
  {
    d.kind == Nak
  }

  predicate IsAck(d: Decoded)
  {
    d.kind == Ack
  }

  predicate Corrupt(d: Decoded)
  {
    !d.valid
  }

  /** `r` re-emits the stored frame of `s`, counts one retransmission and changes nothing else. */
  predicate Retransmits(s: Sender, r: Step<Sender>)
  {
    && r.next == s.(retransmissions := s.retransmissions + 1)
    && r.out == (if s.sndpkt.Some? then [s.sndpkt.value] else [])
    && !r.ok
  }

  function Resend(s: Sender): Step<Sender>
  {
    Step(s.(retransmissions := s.retransmissions + 1),
         if s.sndpkt.Some? then [s.sndpkt.value] else [],
         false)
  }

  /** `rdt_send`: accepted only while waiting for a call from above. */
  function Send(s: Sender, data: Bytes): (r: Step<Sender>)
    ensures r.ok <==> s.state == WaitCallFromAbove
    ensures !r.ok ==> r.next == s && r.out == []
    ensures r.ok ==> && r.out == [MakePkt(data)]
                     && r.next.state == WaitAckOrNak
                     && r.next.sndpkt == Some(MakePkt(data))
                     && r.next.retransmissions == s.retransmissions
    ensures SenderValid(s) ==> SenderValid(r.next)
  {
    if s.state != WaitCallFromAbove then Step(s, [], false)
    else
      var pkt := MakePkt(data);
      Step(Sender(WaitAckOrNak, Some(pkt), s.retransmissions), [pkt], true)
  }

  /** One reply read by the wait loop of `_wait_for_ack_or_nak`; the loop runs only in
      the waiting state, so in the other state a reply is not consumed. `ok` is the True
      the blocked `rdt_send` call returns once the round completes. */
  function OnReply(s: Sender, d: Decoded): (r: Step<Sender>)
    ensures s.state == WaitCallFromAbove ==> r == Step(s, [], false)
    ensures s.state == WaitAckOrNak && (IsNak(d) || Corrupt(d)) ==> Retransmits(s, r)
    ensures r.ok <==> s.state == WaitAckOrNak && d.valid && d.kind == Ack
    ensures r.ok ==> r.out == [] && r.next == Sender(WaitCallFromAbove, None, s.retransmissions)
    ensures s.state == WaitAckOrNak && d.valid && d.kind in {Data, Unknown} ==> r == Step(s, [], false)
    ensures SenderValid(s) ==> SenderValid(r.next)
  {
    if s.state != WaitAckOrNak then Step(s, [], false)
    else if IsNak(d) then Resend(s)
    else if Corrupt(d) then Resend(s)
    else if IsAck(d) then Step(Sender(WaitCallFromAbove, None, s.retransmissions), [], true)
    else Step(s, [], false)
  }

  /** The socket read of the wait loop timed out. */
  function OnTimeout(s: Sender): (r: Step<Sender>)
    ensures s.state == WaitAckOrNak ==> Retransmits(s, r)
    ensures s.state == WaitCallFromAbove ==> r == Step(s, [], false)
    ensures SenderValid(s) ==> SenderValid(r.next)
  {
    if s.state == WaitAckOrNak then Resend(s) else Step(s, [], false)
  }

  /** The inputs that drive the sender: a call from above, a reply, or a socket timeout. */
  datatype Event = Call(data: Bytes) | Reply(d: Decoded) | SocketTimeout

  function Handle(s: Sender, e: Event): Step<Sender>
  {
    match e
    case Call(data) => Send(s, data)
    case Reply(d) => OnReply(s, d)
    case SocketTimeout => OnTimeout(s)
  }

  /** The effect of a run of events: last state, every frame emitted, the number of
      accepted `rdt_send` calls and the number of rounds completed by an ACK. */
  datatype Trace = Trace(last: Sender, out: seq<Frame>, accepted: nat, completed: nat)

  function Run(s: Sender, es: seq<Event>): Trace
    decreases |es|
  {
    if es == [] then Trace(s, [], 0, 0)
    else
      var st := Handle(s, es[0]);
      var t := Run(st.next, es[1..]);
      Trace(t.last, st.out + t.out,
            t.accepted + (if es[0].Call? && st.ok then 1 else 0),
            t.completed + (if es[0].Reply? && st.ok then 1 else 0))
  }

  /** 1 while a DATA frame is outstanding. */
  function Outstanding(s: Sender): nat
  {
    if s.state == WaitAckOrNak then 1 else 0
  }

  /** Over any run: every frame on the wire is a DATA frame and is either the first
      transmission of an accepted call or a counted retransmission, and calls and ACKed
      rounds alternate so that at most one frame is ever outstanding. */
  lemma {:induction false} RunAccounting(s: Sender, es: seq<Event>)
    requires SenderValid(s)
    ensures var t := Run(s, es);
            && SenderValid(t.last)
            && |t.out| == t.accepted + (t.last.retransmissions - s.retransmissions)
            && t.accepted + Outstanding(s) == t.completed + Outstanding(t.last)
            && forall i :: 0 <= i < |t.out| ==> t.out[i].kind == Data
    decreases |es|
  {
    if es != [] {
      var st := Handle(s, es[0]);
      RunAccounting(st.next, es[1..]);
      var t := Run(st.next, es[1..]);
      assert Run(s, es).out == st.out + t.out;
    }
  }

  datatype Receiver = Receiver(messages: seq<Bytes>, receivedCount: nat, corruptedCount: nat)

  function InitialReceiver(): Receiver
  {
    Receiver([], 0, 0)
  }

  /** `received_count` counts exactly the delivered messages. */
  predicate ReceiverValid(r: Receiver)
  {
    r.receivedCount == |r.messages|
  }

  /** `deliver_data`: append the payload and count it. */
  function DeliverData(r: Receiver, data: Bytes): (x: Receiver)
    ensures x.messages == r.messages + [data]
    ensures ReceiverValid(r) ==> ReceiverValid(x)
  {
    r.(receivedCount := r.receivedCount + 1, messages := r.messages + [data])
  }

  /** `rdt_rcv` for one arriving frame. */
  function Receive(r: Receiver, d: Decoded): (x: Rcv<Receiver>)
    ensures !d.valid ==> && x.out == [Control(Nak, 0)]
                         && x.delivered == None
                         && x.next == r.(corruptedCount := r.corruptedCount + 1)
    ensures d.valid && d.kind == Data ==> && x.delivered == Some(d.payload)
                                          && x.out == [Control(Ack, 0)]
                                          && x.next.messages == r.messages + [d.payload]
                                          && x.next.corruptedCount == r.corruptedCount
    ensures d.valid && d.kind != Data ==> x == Rcv(r, [], None)
    ensures ReceiverValid(r) ==> ReceiverValid(x.next)
  {
    if Corrupt(d) then
      Rcv(r.(corruptedCount := r.corruptedCount + 1), [Control(Nak, 0)], None)
    else if d.kind == Data then
      Rcv(DeliverData(r, d.payload), [Control(Ack, 0)], Some(d.payload))
    else
      Rcv(r, [], None)
  }

  /** No duplicate suppression: the same undamaged DATA frame arriving twice is
      delivered twice and ACKed twice. */
  lemma DeliversRepeats(r: Receiver, f: Frame)
    requires f.kind == Data
    ensures var x1 := Receive(r, Intact(f));
            var x2 := Receive(x1.next, Intact(f));
            && x1.delivered == Some(f.payload) && x2.delivered == Some(f.payload)
            && x2.next.messages == r.messages + [f.payload, f.payload]
            && x1.out + x2.out == [Control(Ack, 0), Control(Ack, 0)]
  {
  }

  /** The documented weakness, end to end: the receiver delivers `data` and ACKs, the ACK
      arrives damaged, the sender resends the identical frame and the receiver delivers
      `data` a second time. */
  lemma DamagedAckDuplicatesDelivery(data: Bytes, ackOnArrival: Decoded)
    requires !ackOnArrival.valid
    ensures var s1 := Send(InitialSender(), data);
            var r1 := Receive(InitialReceiver(), Intact(s1.out[0]));
            var s2 := OnReply(s1.next, ackOnArrival);
            var r2 := Receive(r1.next, Intact(s2.out[0]));
            && r1.out == [Control(Ack, 0)]
            && s2.out == s1.out
            && s2.next.state == WaitAckOrNak
            && r2.next.messages == [data, data]
  {
  }
}
