/**
 * The alternating-bit machinery shared by rdt2.1 (fase1/rdt21.py) and rdt3.0
 * (fase1/rdt30.py): the one-bit sequence number, the four sender states and the
 * two-state receiver.
 *
 * The two receivers behave identically on an undamaged DATA frame and differ only in
 * the reply to a damaged one: rdt2.1 answers with a NAK, rdt3.0 re-acknowledges the
 * last packet it delivered. `Reply` selects between the two.
 */
module AltBit {
  import opened Common
  import opened Frames

  type Bit = b: int | 0 <= b <= 1

  function Flip(b: Bit): (r: Bit)
    ensures r != b
  {
    1 - b
  }

  /** Flipping a bit and then flipping it `y` more times is flipping it `y + 1` times. */
  lemma ParityAdd(b: Bit, y: nat)
    ensures (Flip(b) + y) % 2 == (b + 1 + y) % 2
  {
  }

  /** "Wait for call b from above" and "wait for ACK (or NAK) b". */
  datatype SenderState = WaitCall(bit: Bit) | WaitAck(bit: Bit)

  /** The DATA frame carrying `data` under sequence bit `b`. */
  function MakePkt(b: Bit, data: Bytes): Frame
  {
    Frame(Data, b, data)
  }

  /** A stored frame is present exactly while waiting for an ACK, and it is the DATA
      frame of the bit being waited for. */
  predicate StoredMatches(state: SenderState, sndpkt: Option<Frame>)
  {
    && (state.WaitAck? <==> sndpkt.Some?)
    && (sndpkt.Some? ==> sndpkt.value.kind == Data && sndpkt.value.seqNum == state.bit)
  }

  /** The receiver: the bit it waits for, the delivered messages and three counters. */
  datatype Receiver = Receiver(awaited: Bit, messages: seq<Bytes>, receivedCount: nat,
                               corruptedCount: nat, duplicateCount: nat)

  function InitialReceiver(): Receiver
  {
    Receiver(0, [], 0, 0, 0)
  }

  /** `received_count` counts the delivered messages, and the awaited bit is the parity
      of how many have been delivered: every delivery flips it. */
  predicate ReceiverValid(r: Receiver)
  {
    && r.receivedCount == |r.messages|
    && r.awaited == |r.messages| % 2
  }

  /** How a receiver answers a damaged DATA frame. */
  datatype Reply = NakOnCorrupt | ReAckOnCorrupt

  function DeliverData(r: Receiver, data: Bytes): (x: Receiver)
    ensures x.messages == r.messages + [data]
    ensures x.awaited != r.awaited
    ensures ReceiverValid(r) ==> ReceiverValid(x)
  {
    r.(awaited := Flip(r.awaited), receivedCount := r.receivedCount + 1,
       messages := r.messages + [data])
  }

  /** `rdt_rcv` of either receiver. A frame whose type field is not DATA is ignored before
      the checksum is looked at; a valid DATA frame whose sequence field is neither 0 nor 1
      matches no branch and is ignored as well. */
  function Receive(reply: Reply, r: Receiver, d: Decoded): (x: Rcv<Receiver>)
    ensures x.delivered.Some? <==> d.kind == Data && d.valid && d.seqNum == r.awaited
    ensures x.delivered.Some? ==> && x.delivered.value == d.payload
                                   && x.next.messages == r.messages + [d.payload]
                                   && x.out == [Control(Ack, r.awaited)]
    ensures x.delivered.None? ==> x.next.messages == r.messages && x.next.awaited == r.awaited
    ensures d.kind != Data ==> x == Rcv(r, [], None)
    ensures d.kind == Data && !d.valid ==>
              && x.next == r.(corruptedCount := r.corruptedCount + 1)
              && x.out == (if reply == NakOnCorrupt then [Control(Nak, 0)]
                           else [Control(Ack, Flip(r.awaited))])
    ensures d.kind == Data && d.valid && d.seqNum == Flip(r.awaited) ==>
              && x.out == [Control(Ack, d.seqNum)]
              && x.next == r.(duplicateCount := x.next.duplicateCount)
    ensures d.kind == Data && d.valid && d.seqNum != 0 && d.seqNum != 1 ==> x == Rcv(r, [], None)
    ensures x.next.duplicateCount == r.duplicateCount +
              (if d.kind == Data && d.valid && r.awaited == 1 && d.seqNum == 0 then 1 else 0)
    ensures forall i :: 0 <= i < |x.out| && x.out[i].kind == Ack ==>
              x.out[i] == Control(Ack, Flip(x.next.awaited))
    ensures ReceiverValid(r) ==> ReceiverValid(x.next)
  {
    if d.kind != Data then Rcv(r, [], None)
    else if !d.valid then
      var answer := if reply == NakOnCorrupt then Control(Nak, 0) else Control(Ack, Flip(r.awaited));
      Rcv(r.(corruptedCount := r.corruptedCount + 1), [answer], None)
    else if d.seqNum == r.awaited then
      Rcv(DeliverData(r, d.payload), [Control(Ack, r.awaited)], Some(d.payload))
    else if d.seqNum == Flip(r.awaited) then
      var dup := if r.awaited == 1 then 1 else 0;
      Rcv(r.(duplicateCount := r.duplicateCount + dup), [Control(Ack, d.seqNum)], None)
    else
      Rcv(r, [], None)
  }

  /** The effect of a sequence of arrivals: the last state, the replies, the delivered
      payloads and the sequence bit of each delivered frame. */
  datatype RcvTrace = RcvTrace(last: Receiver, out: seq<Frame>, delivered: seq<Bytes>, bits: seq<int>)

  function RunReceiver(reply: Reply, r: Receiver, ds: seq<Decoded>): RcvTrace
    decreases |ds|
  {
    if ds == [] then RcvTrace(r, [], [], [])
    else
      var x := Receive(reply, r, ds[0]);
      var t := RunReceiver(reply, x.next, ds[1..]);
      if x.delivered.Some? then
        RcvTrace(t.last, x.out + t.out, [x.delivered.value] + t.delivered, [ds[0].seqNum] + t.bits)
      else
        RcvTrace(t.last, x.out + t.out, t.delivered, t.bits)
  }

  /** Over any arrivals, however damaged, duplicated or reordered: exactly the delivered
      payloads are appended, and the frames delivered carry alternating bits starting
      with the awaited one, so two consecutive deliveries never come from the same
      frame bit. */
  lemma {:induction false} ReceiverRunAlternates(reply: Reply, r: Receiver, ds: seq<Decoded>)
    requires ReceiverValid(r)
    ensures var t := RunReceiver(reply, r, ds);
            && ReceiverValid(t.last)
            && t.last.messages == r.messages + t.delivered
            && |t.bits| == |t.delivered|
            && (forall i :: 0 <= i < |t.bits| ==> t.bits[i] == (r.awaited + i) % 2)
    decreases |ds|
  {
    if ds != [] {
      var x := Receive(reply, r, ds[0]);
      ReceiverRunAlternates(reply, x.next, ds[1..]);
      var t := RunReceiver(reply, x.next, ds[1..]);
      if x.delivered.Some? {
        assert x.next.awaited == (r.awaited + 1) % 2;
        var u := RunReceiver(reply, r, ds);
        assert u.bits == [ds[0].seqNum] + t.bits;
        forall i | 0 <= i < |u.bits|
          ensures u.bits[i] == (r.awaited + i) % 2
        {
          if i > 0 {
            assert u.bits[i] == t.bits[i - 1];
          }
        }
        assert u.last.messages == r.messages + u.delivered;
      }
    }
  }
}
