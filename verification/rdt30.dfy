/**
 * rdt3.0: the alternating-bit protocol over a channel that damages and loses frames
 * (fase1/rdt30.py).
 *
 * The sender starts a countdown timer with each DATA frame; a reply that is damaged or
 * acknowledges the other bit is discarded, and only the expiry of the timer causes a
 * resend. The receiver sends no NAK: it answers a damaged frame by re-acknowledging the
 * last packet it delivered. The timer is a flag here; its duration is not modelled.
 */
module Rdt30 {
  import opened Common
  import opened Frames
  import opened AltBit

  datatype Sender = Sender(state: SenderState, sndpkt: Option<Frame>, retransmissions: nat,
                           timerRunning: bool, bytesSent: nat)

  function InitialSender(): Sender
  {
    Sender(WaitCall(0), None, 0, false, 0)
  }

  /** The timer runs exactly while a stored DATA frame awaits its ACK. */
  predicate SenderValid(s: Sender)
  {
    && StoredMatches(s.state, s.sndpkt)
    && (s.timerRunning <==> s.state.WaitAck?)
  }

  /** `isACK(rcvpkt, b)`: a valid ACK carrying bit `b`. */
  predicate IsAckFor(d: Decoded, b: Bit)
  {
    d.valid && d.kind == Ack && d.seqNum == b
  }

  /** `rdt_send`. The payload length is added to `bytes_sent` before the state is
      checked, so a refused call is counted too. */
  function Send(s: Sender, data: Bytes): (r: Step<Sender>)
    ensures r.next.bytesSent == s.bytesSent + |data|
    ensures r.ok <==> s.state.WaitCall?
    ensures !r.ok ==> r.next == s.(bytesSent := s.bytesSent + |data|) && r.out == []
    ensures r.ok ==> && r.out == [MakePkt(s.state.bit, data)]
                     && r.next.state == WaitAck(s.state.bit)
                     && r.next.sndpkt == Some(MakePkt(s.state.bit, data))
                     && r.next.timerRunning
                     && r.next.retransmissions == s.retransmissions
    ensures SenderValid(s) ==> SenderValid(r.next)
  {
    var counted := s.(bytesSent := s.bytesSent + |data|);
    match s.state
    case WaitCall(b) =>
      var pkt := MakePkt(b, data);
      Step(counted.(state := WaitAck(b), sndpkt := Some(pkt), timerRunning := true), [pkt], true)
    case WaitAck(_) => Step(counted, [], false)
  }

  /** One reply read by `_wait_for_ack`. Nothing is ever sent from here: only the ACK of
      the awaited bit has an effect, stopping the timer and completing the round. */
  function OnReply(s: Sender, d: Decoded): (r: Step<Sender>)
    ensures r.out == []
    ensures r.ok <==> s.state.WaitAck? && IsAckFor(d, s.state.bit)
    ensures r.ok ==> r.next == s.(state := WaitCall(Flip(s.state.bit)), sndpkt := None,
                                  timerRunning := false)
    ensures !r.ok ==> r.next == s
    ensures SenderValid(s) ==> SenderValid(r.next)
  {
    match s.state
    case WaitCall(_) => Step(s, [], false)
    case WaitAck(b) =>
      if !d.valid || (d.kind == Ack && d.seqNum != b) then Step(s, [], false)
      else if IsAckFor(d, b) then
        Step(s.(state := WaitCall(Flip(b)), sndpkt := None, timerRunning := false), [], true)
      else Step(s, [], false)
  }

  /** `_timeout_handler`, which runs only when a started timer expires: count a
      retransmission, resend the stored frame if there is one, and restart the timer. */
  function OnTimer(s: Sender): (r: Step<Sender>)
    ensures !r.ok
    ensures !s.timerRunning ==> r.next == s && r.out == []
    ensures s.timerRunning ==> && r.next == s.(retransmissions := s.retransmissions + 1)
                               && r.out == (if s.sndpkt.Some? then [s.sndpkt.value] else [])
    ensures SenderValid(s) ==> SenderValid(r.next)
  {
    if !s.timerRunning then Step(s, [], false)
    else
      Step(s.(retransmissions := s.retransmissions + 1, timerRunning := true),
           if s.sndpkt.Some? then [s.sndpkt.value] else [], false)
  }

  datatype Event = Call(data: Bytes) | Reply(d: Decoded) | TimerExpiry

  function Handle(s: Sender, e: Event): Step<Sender>
  {
    match e
    case Call(data) => Send(s, data)
    case Reply(d) => OnReply(s, d)
    case TimerExpiry => OnTimer(s)
  }

  /** The effect of a run: as for rdt2.1, plus `offered`, the bytes of every call made. */
  datatype Trace = Trace(last: Sender, out: seq<Frame>, accepted: nat, completed: nat, offered: nat)

  function Run(s: Sender, es: seq<Event>): Trace
    decreases |es|
  {
    if es == [] then Trace(s, [], 0, 0, 0)
    else
      var st := Handle(s, es[0]);
      var t := Run(st.next, es[1..]);
      Trace(t.last, st.out + t.out,
            t.accepted + (if es[0].Call? && st.ok then 1 else 0),
            t.completed + (if es[0].Reply? && st.ok then 1 else 0),
            t.offered + (if es[0].Call? then |es[0].data| else 0))
  }

  function Outstanding(s: Sender): nat
  {
    if s.state.WaitAck? then 1 else 0
  }

  /** The accounting of one event, which `RunAccounting` adds up. */
  lemma HandleAccounting(s: Sender, e: Event)
    requires SenderValid(s)
    ensures var st := Handle(s, e);
            var accepted := if e.Call? && st.ok then 1 else 0;
            var completed := if e.Reply? && st.ok then 1 else 0;
            && SenderValid(st.next)
            && |st.out| == accepted + (st.next.retransmissions - s.retransmissions)
            && accepted + Outstanding(s) == completed + Outstanding(st.next)
            && st.next.bytesSent == s.bytesSent + (if e.Call? then |e.data| else 0)
            && forall i :: 0 <= i < |st.out| ==> st.out[i].kind == Data && 0 <= st.out[i].seqNum <= 1
  {
  }

  /** Over any run: every frame sent is DATA and is a first transmission or a counted
      retransmission, calls and completed rounds alternate, and `bytes_sent` grows by the
      length of every call, accepted or not. */
  lemma {:induction false} RunAccounting(s: Sender, es: seq<Event>)
    requires SenderValid(s)
    ensures var t := Run(s, es);
            && SenderValid(t.last)
            && |t.out| == t.accepted + (t.last.retransmissions - s.retransmissions)
            && t.accepted + Outstanding(s) == t.completed + Outstanding(t.last)
            && t.last.bytesSent == s.bytesSent + t.offered
            && forall i :: 0 <= i < |t.out| ==> t.out[i].kind == Data && 0 <= t.out[i].seqNum <= 1
    decreases |es|
  {
    if es != [] {
      var st := Handle(s, es[0]);
      HandleAccounting(s, es[0]);
      RunAccounting(st.next, es[1..]);
      var t := Run(st.next, es[1..]);
      assert Run(s, es).out == st.out + t.out;
    }
  }

  lemma HandleFlipsBit(s: Sender, e: Event)
    ensures var st := Handle(s, e);
            st.next.state.bit == if e.Reply? && st.ok then Flip(s.state.bit) else s.state.bit
  {
  }

  /** Over any run the sender's bit has flipped once per completed round. */
  lemma {:induction false} RunFlipsBit(s: Sender, es: seq<Event>)
    ensures Run(s, es).last.state.bit == (s.state.bit + Run(s, es).completed) % 2
    decreases |es|
  {
    if es != [] {
      var st := Handle(s, es[0]);
      var completed := if es[0].Reply? && st.ok then 1 else 0;
      HandleFlipsBit(s, es[0]);
      RunFlipsBit(st.next, es[1..]);
      if completed == 1 {
        ParityAdd(s.state.bit, Run(st.next, es[1..]).completed);
      }
    }
  }

  /** `rdt_rcv`: a damaged DATA frame is answered by re-acknowledging the last delivered
      packet; no NAK is ever sent, and every reply acknowledges the bit before the
      awaited one. */
  function Receive(r: Receiver, d: Decoded): (x: Rcv<Receiver>)
    ensures d.kind == Data && !d.valid ==> x.out == [Control(Ack, Flip(r.awaited))] && x.delivered == None
    ensures x.delivered.Some? <==> d.kind == Data && d.valid && d.seqNum == r.awaited
    ensures d.kind == Data && d.valid && d.seqNum == Flip(r.awaited) ==> x.out == [Control(Ack, d.seqNum)]
    ensures forall i :: 0 <= i < |x.out| ==> x.out[i] == Control(Ack, Flip(x.next.awaited))
    ensures ReceiverValid(r) ==> ReceiverValid(x.next)
  {
    AltBit.Receive(ReAckOnCorrupt, r, d)
  }

  /** Loss recovery: DATA 0 is lost, the timer expires and resends the identical frame,
      which is delivered once; its ACK completes the round and stops the timer. */
  lemma LostDataRecovered(m: Bytes)
    ensures var s1 := Send(InitialSender(), m);
            var s2 := OnTimer(s1.next);
            var r2 := Receive(InitialReceiver(), Intact(s2.out[0]));
            var s3 := OnReply(s2.next, Intact(r2.out[0]));
            && s2.out == s1.out
            && r2.next.messages == [m]
            && s3.ok && !s3.next.timerRunning && s3.next.state == WaitCall(1)
            && s3.next.retransmissions == 1
  {
  }

  /** A premature timeout is harmless: both copies of DATA 0 arrive, the second is
      recognised as a duplicate, the first ACK 0 completes the round, and the second,
      stale ACK 0 is discarded while DATA 1 is outstanding. */
  lemma PrematureTimeoutHarmless(m0: Bytes, m1: Bytes)
    ensures var s1 := Send(InitialSender(), m0);
            var s2 := OnTimer(s1.next);
            var r1 := Receive(InitialReceiver(), Intact(s1.out[0]));
            var r2 := Receive(r1.next, Intact(s2.out[0]));
            var s3 := OnReply(s2.next, Intact(r1.out[0]));
            var s4 := Send(s3.next, m1);
            var s5 := OnReply(s4.next, Intact(r2.out[0]));
            && r2.next.messages == [m0]
            && r2.next.duplicateCount == 1
            && s3.ok && s4.ok
            && !s5.ok && s5.next == s4.next && s5.next.sndpkt == Some(MakePkt(1, m1))
  {
  }
}
