/**
 * rdt2.1: stop-and-wait with a one-bit sequence number over a channel with bit errors
 * (fase1/rdt21.py).
 *
 * The sender alternates between DATA 0 and DATA 1 and resends on a damaged reply, on a
 * valid NAK and on a socket timeout. As written, the wait loop completes a round on any
 * valid ACK without looking at the ACK's sequence field (`OnReply`); `OnReplyChecked`
 * is the corrected loop, which resends on an ACK for the other bit.
 */
module Rdt21 {
  import opened Common
  import opened Frames
  import opened AltBit

  datatype Sender = Sender(state: SenderState, sndpkt: Option<Frame>, retransmissions: nat)

  function InitialSender(): Sender
  {
    Sender(WaitCall(0), None, 0)
  }

  predicate SenderValid(s: Sender)
  {
    StoredMatches(s.state, s.sndpkt)
  }

  /** Both tests require a matching checksum. */
  predicate IsNak(d: Decoded)
  {
    d.valid && d.kind == Nak
  }

  predicate IsAck(d: Decoded)
  {
    d.valid && d.kind == Ack
  }

  /** `r` re-emits the stored frame of `s`, counts one retransmission and changes nothing else. */
  predicate Retransmits(s: Sender, r: Step<Sender>)
  {
    && r.next == s.(retransmissions := s.retransmissions + 1)
    && r.out == (if s.sndpkt.Some? then [s.sndpkt.value] else [])
    && !r.ok
  }

  function Resend(s: Sender): Step<Sender>
  {
    Step(s.(retransmissions := s.retransmissions + 1),
         if s.sndpkt.Some? then [s.sndpkt.value] else [],
         false)
  }

  /** `rdt_send`: in "wait for call b" send DATA b and wait for its reply. */
  function Send(s: Sender, data: Bytes): (r: Step<Sender>)
    ensures r.ok <==> s.state.WaitCall?
    ensures !r.ok ==> r.next == s && r.out == []
    ensures r.ok ==> && r.out == [MakePkt(s.state.bit, data)]
                     && r.next.state == WaitAck(s.state.bit)
                     && r.next.sndpkt == Some(MakePkt(s.state.bit, data))
                     && r.next.retransmissions == s.retransmissions
    ensures SenderValid(s) ==> SenderValid(r.next)
  {
    match s.state
    case WaitCall(b) =>
      var pkt := MakePkt(b, data);
      Step(Sender(WaitAck(b), Some(pkt), s.retransmissions), [pkt], true)
    case WaitAck(_) => Step(s, [], false)
  }

  /** The round is over: wait for the call of the other bit. */
  function Complete(s: Sender): Step<Sender>
  {
    Step(Sender(WaitCall(Flip(s.state.bit)), None, s.retransmissions), [], true)
  }

  /** One reply read by `_wait_for_ack_or_nak`, as written: any valid ACK completes the
      round, whatever its sequence field. */
  function OnReply(s: Sender, d: Decoded): (r: Step<Sender>)
    ensures s.state.WaitCall? ==> r == Step(s, [], false)
    ensures s.state.WaitAck? && (!d.valid || IsNak(d)) ==> Retransmits(s, r)
    ensures r.ok <==> s.state.WaitAck? && IsAck(d)
    ensures r.ok ==> r.out == [] && r.next == Sender(WaitCall(Flip(s.state.bit)), None, s.retransmissions)
    ensures s.state.WaitAck? && d.valid && d.kind in {Data, Unknown} ==> r == Step(s, [], false)
    ensures SenderValid(s) ==> SenderValid(r.next)
  {
    if s.state.WaitCall? then Step(s, [], false)
    else if !d.valid || IsNak(d) then Resend(s)
    else if IsAck(d) then Complete(s)
    else Step(s, [], false)
  }

  /** The wait loop as its duplicate-ACK branch intends: only an ACK carrying the awaited
      bit completes the round, and an ACK for the other bit triggers a resend. */
  function OnReplyChecked(s: Sender, d: Decoded): (r: Step<Sender>)
    ensures s.state.WaitCall? ==> r == Step(s, [], false)
    ensures s.state.WaitAck? && (!d.valid || IsNak(d)) ==> Retransmits(s, r)
    ensures r.ok <==> s.state.WaitAck? && IsAck(d) && d.seqNum == s.state.bit
    ensures r.ok ==> r.out == [] && r.next == Sender(WaitCall(Flip(s.state.bit)), None, s.retransmissions)
    ensures s.state.WaitAck? && IsAck(d) && d.seqNum != s.state.bit ==> Retransmits(s, r)
    ensures s.state.WaitAck? && d.valid && d.kind in {Data, Unknown} ==> r == Step(s, [], false)
    ensures SenderValid(s) ==> SenderValid(r.next)
  {
    if s.state.WaitCall? then Step(s, [], false)
    else if !d.valid || IsNak(d) then Resend(s)
    else if IsAck(d) && d.seqNum == s.state.bit then Complete(s)
    else if IsAck(d) then Resend(s)
    else Step(s, [], false)
  }

  /** The two wait loops differ exactly on a valid ACK for the bit not awaited. */
  lemma RepliesDifferOnlyOnStaleAck(s: Sender, d: Decoded)
    ensures OnReply(s, d) != OnReplyChecked(s, d) <==>
              s.state.WaitAck? && IsAck(d) && d.seqNum != s.state.bit
  {
  }

  /** The socket read of the wait loop timed out. */
  function OnTimeout(s: Sender): (r: Step<Sender>)
    ensures s.state.WaitAck? ==> Retransmits(s, r)
    ensures s.state.WaitCall? ==> r == Step(s, [], false)
    ensures SenderValid(s) ==> SenderValid(r.next)
  {
    if s.state.WaitAck? then Resend(s) else Step(s, [], false)
  }

  datatype Event = Call(data: Bytes) | Reply(d: Decoded) | SocketTimeout

  /** One event, with the corrected wait loop when `checked` holds. */
  function Handle(checked: bool, s: Sender, e: Event): Step<Sender>
  {
    match e
    case Call(data) => Send(s, data)
    case Reply(d) => if checked then OnReplyChecked(s, d) else OnReply(s, d)
    case SocketTimeout => OnTimeout(s)
  }

  datatype Trace = Trace(last: Sender, out: seq<Frame>, accepted: nat, completed: nat)

  function Run(checked: bool, s: Sender, es: seq<Event>): Trace
    decreases |es|
  {
    if es == [] then Trace(s, [], 0, 0)
    else
      var st := Handle(checked, s, es[0]);
      var t := Run(checked, st.next, es[1..]);
      Trace(t.last, st.out + t.out,
            t.accepted + (if es[0].Call? && st.ok then 1 else 0),
            t.completed + (if es[0].Reply? && st.ok then 1 else 0))
  }

  function Outstanding(s: Sender): nat
  {
    if s.state.WaitAck? then 1 else 0
  }

  /** The accounting of one event, which `RunAccounting` adds up. */
  lemma HandleAccounting(checked: bool, s: Sender, e: Event)
    requires SenderValid(s)
    ensures var st := Handle(checked, s, e);
            var accepted := if e.Call? && st.ok then 1 else 0;
            var completed := if e.Reply? && st.ok then 1 else 0;
            && SenderValid(st.next)
            && |st.out| == accepted + (st.next.retransmissions - s.retransmissions)
            && accepted + Outstanding(s) == completed + Outstanding(st.next)
            && forall i :: 0 <= i < |st.out| ==> st.out[i].kind == Data && 0 <= st.out[i].seqNum <= 1
  {
  }

  /** Over any run, with either wait loop: every frame sent is DATA with a 0/1 sequence
      field and is a first transmission or a counted retransmission, and calls and
      completed rounds alternate. */
  lemma {:induction false} RunAccounting(checked: bool, s: Sender, es: seq<Event>)
    requires SenderValid(s)
    ensures var t := Run(checked, s, es);
            && SenderValid(t.last)
            && |t.out| == t.accepted + (t.last.retransmissions - s.retransmissions)
            && t.accepted + Outstanding(s) == t.completed + Outstanding(t.last)
            && forall i :: 0 <= i < |t.out| ==> t.out[i].kind == Data && 0 <= t.out[i].seqNum <= 1
    decreases |es|
  {
    if es != [] {
      var st := Handle(checked, s, es[0]);
      HandleAccounting(checked, s, es[0]);
      RunAccounting(checked, st.next, es[1..]);
      var t := Run(checked, st.next, es[1..]);
      assert Run(checked, s, es).out == st.out + t.out;
    }
  }

  lemma HandleFlipsBit(checked: bool, s: Sender, e: Event)
    ensures var st := Handle(checked, s, e);
            st.next.state.bit == if e.Reply? && st.ok then Flip(s.state.bit) else s.state.bit
  {
  }

  /** Over any run the sender's bit has flipped once per completed round. */
  lemma {:induction false} RunFlipsBit(checked: bool, s: Sender, es: seq<Event>)
    ensures Run(checked, s, es).last.state.bit == (s.state.bit + Run(checked, s, es).completed) % 2
    decreases |es|
  {
    if es != [] {
      var st := Handle(checked, s, es[0]);
      var completed := if es[0].Reply? && st.ok then 1 else 0;
      HandleFlipsBit(checked, s, es[0]);
      RunFlipsBit(checked, st.next, es[1..]);
      if completed == 1 {
        ParityAdd(s.state.bit, Run(checked, st.next, es[1..]).completed);
      }
    }
  }

  /** `rdt_rcv`: a damaged DATA frame is answered with a NAK, a duplicate with a fresh
      ACK of its own bit. */
  function Receive(r: Receiver, d: Decoded): (x: Rcv<Receiver>)
    ensures d.kind == Data && !d.valid ==> x.out == [Control(Nak, 0)] && x.delivered == None
    ensures x.delivered.Some? <==> d.kind == Data && d.valid && d.seqNum == r.awaited
    ensures d.kind == Data && d.valid && d.seqNum == Flip(r.awaited) ==> x.out == [Control(Ack, d.seqNum)]
    ensures forall i :: 0 <= i < |x.out| ==> x.out[i].kind in {Ack, Nak}
    ensures ReceiverValid(r) ==> ReceiverValid(x.next)
  {
    AltBit.Receive(NakOnCorrupt, r, d)
  }

  /** The fix over rdt2.0: the ACK for DATA 0 arrives damaged, the sender resends DATA 0,
      and the receiver recognises the duplicate, re-acknowledges it and delivers nothing. */
  lemma DamagedAckDoesNotDuplicate(m: Bytes, ackOnArrival: Decoded)
    requires !ackOnArrival.valid
    ensures var s1 := Send(InitialSender(), m);
            var r1 := Receive(InitialReceiver(), Intact(s1.out[0]));
            var s2 := OnReply(s1.next, ackOnArrival);
            var r2 := Receive(r1.next, Intact(s2.out[0]));
            var s3 := OnReply(s2.next, Intact(r2.out[0]));
            && s2.out == s1.out
            && r2.delivered == None
            && r2.next.messages == [m]
            && r2.next.duplicateCount == 1
            && s3.ok && s3.next.state == WaitCall(1)
  {
  }

  /** As written, a message is lost. DATA 0 is delivered but its ACK is slow, so the socket
      timeout resends DATA 0 and the receiver ACKs the duplicate: two ACK 0 are in flight.
      The first completes round 0; the sender sends `m1` as DATA 1, which arrives damaged;
      the second, stale ACK 0 then completes round 1. The sender has dropped `m1` and
      reported success, and the receiver never delivered it. The corrected loop resends
      DATA 1 instead. */
  lemma StaleAckLosesMessage(m0: Bytes, m1: Bytes, damaged: Decoded)
    requires damaged.kind == Data && !damaged.valid
    ensures var s1 := Send(InitialSender(), m0);
            var r1 := Receive(InitialReceiver(), Intact(s1.out[0]));
            var s2 := OnTimeout(s1.next);
            var r2 := Receive(r1.next, Intact(s2.out[0]));
            var s3 := OnReply(s2.next, Intact(r1.out[0]));
            var s4 := Send(s3.next, m1);
            var r3 := Receive(r2.next, damaged);
            var s5 := OnReply(s4.next, Intact(r2.out[0]));
            var c5 := OnReplyChecked(s4.next, Intact(r2.out[0]));
            && s3.ok && s4.ok && s5.ok
            && s5.next.sndpkt == None
            && r3.next.messages == [m0]
            && !c5.ok && c5.out == [MakePkt(1, m1)] && c5.next.state == WaitAck(1)
  {
  }
}
