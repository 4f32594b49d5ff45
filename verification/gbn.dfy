/**
 * Go-Back-N (fase2/gbn.py): a pipelined sender with a window of `n` unacknowledged
 * frames, one timer, cumulative ACKs and bulk resend on timeout; a single-state receiver
 * that delivers strictly in order and answers everything else with its stored ACK.
 *
 * Sequence numbers are unbounded integers here, as the counters and dictionary keys of
 * the source are. Two defects of the source are modelled as written and corrected:
 *   - the ACK loop sets `base` from any valid ACK, so a stale ACK moves it backward
 *     (`OnAck` as written, `OnAckChecked` corrected);
 *   - the receiver starts with a stored ACK for packet 0 although nothing has been
 *     received (`InitialReceiver` as written, `CorrectedInitialReceiver` corrected).
 */
module Gbn {
  import opened Common
  import opened Frames

  datatype Sender = Sender(base: int, nextSeqNum: int, n: int, sndpkt: map<int, Frame>,
                           timerRunning: bool, retransmissions: nat, bytesSent: nat)

  function InitialSender(n: int): Sender
  {
    Sender(0, 0, n, map[], false, 0, 0)
  }

  /** Every buffered frame is the DATA frame of its key. */
  predicate Tagged(s: Sender)
  {
    forall k :: k in s.sndpkt ==> s.sndpkt[k].kind == Data && s.sndpkt[k].seqNum == k
  }

  /** The window invariant: `base <= nextseqnum <= base + N`, the buffered frames are
      exactly those numbered in `[base, nextseqnum)`, and the timer runs exactly while
      that range is not empty. */
  ghost predicate Window(s: Sender)
  {
    && s.base <= s.nextSeqNum <= s.base + s.n
    && (forall k :: k in s.sndpkt <==> s.base <= k < s.nextSeqNum)
    && Tagged(s)
    && (s.timerRunning <==> s.base < s.nextSeqNum)
  }

  lemma InitialWindow(n: int)
    requires n >= 0
    ensures Window(InitialSender(n))
  {
  }

  /** `rdt_send`: accepted while the window has room. */
  function Send(s: Sender, data: Bytes): (r: Step<Sender>)
    ensures r.ok <==> s.nextSeqNum < s.base + s.n
    ensures !r.ok ==> r.next == s && r.out == []
    ensures r.ok ==> && r.out == [Frame(Data, s.nextSeqNum, data)]
                     && r.next.base == s.base
                     && r.next.nextSeqNum == s.nextSeqNum + 1
                     && r.next.sndpkt == s.sndpkt[s.nextSeqNum := Frame(Data, s.nextSeqNum, data)]
                     && r.next.bytesSent == s.bytesSent + |data|
                     && r.next.retransmissions == s.retransmissions
                     && r.next.timerRunning == (s.timerRunning || s.base == s.nextSeqNum)
                     && r.next.n == s.n
    ensures Tagged(s) ==> Tagged(r.next)
    ensures Window(s) ==> Window(r.next)
  {
    if s.nextSeqNum < s.base + s.n then
      var pkt := Frame(Data, s.nextSeqNum, data);
      Step(s.(sndpkt := s.sndpkt[s.nextSeqNum := pkt],
              bytesSent := s.bytesSent + |data|,
              timerRunning := s.timerRunning || s.base == s.nextSeqNum,
              nextSeqNum := s.nextSeqNum + 1),
           [pkt], true)
    else
      Step(s, [], false)
  }

  /** The buffered frames numbered `lo`, `lo + 1`, ..., `hi - 1`, skipping absent numbers. */
  function WindowFrames(m: map<int, Frame>, lo: int, hi: int): (r: seq<Frame>)
    ensures (forall j :: j in m ==> m[j].seqNum == j) ==>
              forall i :: 0 <= i < |r| ==>
                lo <= r[i].seqNum < hi && r[i].seqNum in m && r[i] == m[r[i].seqNum]
    ensures (forall j :: lo <= j < hi ==> j in m) ==>
              && |r| == (if lo < hi then hi - lo else 0)
              && forall i :: 0 <= i < |r| ==> r[i] == m[lo + i]
    decreases hi - lo
  {
    if lo >= hi then []
    else (if lo in m then [m[lo]] else []) + WindowFrames(m, lo + 1, hi)
  }

  /** `_timeout_handler`, which runs only when the started timer expires: resend every
      buffered frame of the window in ascending order, counting each, and restart the timer. */
  function OnTimer(s: Sender): (r: Step<Sender>)
    ensures !r.ok
    ensures !s.timerRunning ==> r.next == s && r.out == []
    ensures s.timerRunning ==> r.next == s.(retransmissions := s.retransmissions + |r.out|)
    ensures Tagged(s) ==>
              forall i :: 0 <= i < |r.out| ==>
                && s.base <= r.out[i].seqNum < s.nextSeqNum
                && r.out[i].seqNum in s.sndpkt
                && r.out[i] == s.sndpkt[r.out[i].seqNum]
    ensures Window(s) && s.timerRunning ==>
              && |r.out| == s.nextSeqNum - s.base
              && forall i :: 0 <= i < |r.out| ==> r.out[i] == Frame(Data, s.base + i, s.sndpkt[s.base + i].payload)
    ensures Tagged(s) ==> Tagged(r.next)
    ensures Window(s) ==> Window(r.next)
  {
    if !s.timerRunning then Step(s, [], false)
    else
      var out := WindowFrames(s.sndpkt, s.base, s.nextSeqNum);
      Step(s.(retransmissions := s.retransmissions + |out|, timerRunning := true), out, false)
  }

  /** The ACK loop on a valid ACK numbered `a`, as written: `base` becomes `a + 1`
      unconditionally, frames below it are dropped, and the timer runs iff the window is
      not empty. */
  function OnAck(s: Sender, a: int): (r: Sender)
    ensures r.base == a + 1
    ensures r.nextSeqNum == s.nextSeqNum && r.n == s.n
    ensures forall k :: k in r.sndpkt <==> k in s.sndpkt && k > a
    ensures forall k :: k in r.sndpkt ==> r.sndpkt[k] == s.sndpkt[k]
    ensures r.timerRunning <==> a + 1 != s.nextSeqNum
    ensures Tagged(s) ==> Tagged(r)
    ensures Window(s) && s.base <= a + 1 <= s.nextSeqNum ==> Window(r)
  {
    var b := a + 1;
    s.(base := b,
       sndpkt := map k | k in s.sndpkt && k >= b :: s.sndpkt[k],
       timerRunning := b != s.nextSeqNum)
  }

  /** The ACK loop with the check the window invariant needs: an ACK acts only when it
      acknowledges something outstanding; any other ACK, including a replay of an old
      one, changes nothing. */
  function OnAckChecked(s: Sender, a: int): (r: Sender)
    ensures s.base <= a < s.nextSeqNum ==> r == OnAck(s, a)
    ensures !(s.base <= a < s.nextSeqNum) ==> r == s
    ensures r.base >= s.base
    ensures Tagged(s) ==> Tagged(r)
    ensures Window(s) ==> Window(r)
  {
    if s.base <= a < s.nextSeqNum then OnAck(s, a) else s
  }

  /** As written, a valid ACK older than `base - 1` moves `base` backward and breaks the
      window invariant: the number `a + 1` lies in the new window but its frame was
      dropped when the newer ACK arrived. */
  lemma StaleAckBreaksWindow(s: Sender, a: int)
    requires Window(s)
    requires a + 1 < s.base
    ensures OnAck(s, a).base < s.base
    ensures !Window(OnAck(s, a))
  {
    var r := OnAck(s, a);
    assert a + 1 !in r.sndpkt;
    assert r.base <= a + 1 < r.nextSeqNum;
  }

  /** A concrete instance: with N = 4, frames 3..6 outstanding after ACK 2, a delayed ACK 0
      sets `base` to 1, so `nextseqnum = 7 > base + N = 5`. */
  lemma StaleAckOverfillsWindow()
    ensures var s := Sender(3, 7, 4, map k | 3 <= k < 7 :: Frame(Data, k, []), true, 0, 0);
            var r := OnAck(s, 0);
            && Window(s)
            && r.base == 1 && r.nextSeqNum > r.base + r.n
  {
  }

  /** The reply loop: a frame whose type field is not ACK is skipped before the checksum
      is looked at, a damaged ACK is discarded, and a valid ACK goes to `OnAck` (as
      written) or `OnAckChecked` (corrected). No frame is ever sent from here. */
  function OnReply(checked: bool, s: Sender, d: Decoded): (r: Step<Sender>)
    ensures r.out == [] && !r.ok
    ensures d.kind != Ack || !d.valid ==> r.next == s
    ensures d.kind == Ack && d.valid ==>
              r.next == if checked then OnAckChecked(s, d.seqNum) else OnAck(s, d.seqNum)
    ensures Tagged(s) ==> Tagged(r.next)
    ensures checked && Window(s) ==> Window(r.next)
    ensures checked ==> r.next.base >= s.base
  {
    if d.kind != Ack then Step(s, [], false)
    else if !d.valid then Step(s, [], false)
    else if checked then Step(OnAckChecked(s, d.seqNum), [], false)
    else Step(OnAck(s, d.seqNum), [], false)
  }

  datatype Event = Call(data: Bytes) | Reply(d: Decoded) | TimerExpiry

  function Handle(checked: bool, s: Sender, e: Event): Step<Sender>
  {
    match e
    case Call(data) => Send(s, data)
    case Reply(d) => OnReply(checked, s, d)
    case TimerExpiry => OnTimer(s)
  }

  datatype Trace = Trace(last: Sender, out: seq<Frame>, accepted: nat)

  function Run(checked: bool, s: Sender, es: seq<Event>): Trace
    decreases |es|
  {
    if es == [] then Trace(s, [], 0)
    else
      var st := Handle(checked, s, es[0]);
      var t := Run(checked, st.next, es[1..]);
      Trace(t.last, st.out + t.out, t.accepted + (if st.ok then 1 else 0))
  }

  /** With the corrected ACK handling, over any run: the window invariant holds after every
      step, `base` and `nextseqnum` never decrease, every frame sent is a first
      transmission or a counted retransmission, and each first transmission took a new
      sequence number. */
  lemma {:induction false} CheckedRunKeepsWindow(s: Sender, es: seq<Event>)
    requires Window(s)
    ensures var t := Run(true, s, es);
            && Window(t.last)
            && t.last.base >= s.base
            && t.last.nextSeqNum == s.nextSeqNum + t.accepted
            && |t.out| == t.accepted + (t.last.retransmissions - s.retransmissions)
    decreases |es|
  {
    if es != [] {
      var st := Handle(true, s, es[0]);
      CheckedRunKeepsWindow(st.next, es[1..]);
      var t := Run(true, st.next, es[1..]);
      assert Run(true, s, es).out == st.out + t.out;
    }
  }

  /** A number below `nextseqnum` whose frame is no longer buffered. */
  predicate Evicted(s: Sender, k: int)
  {
    k < s.nextSeqNum && k !in s.sndpkt
  }

  /** Under either ACK handling, once a frame has been dropped from the buffer it is never
      sent again: no frame of any later run carries its number. */
  lemma {:induction false} EvictedNeverResent(checked: bool, s: Sender, es: seq<Event>, k: int)
    requires Tagged(s) && Evicted(s, k)
    ensures forall i :: 0 <= i < |Run(checked, s, es).out| ==> Run(checked, s, es).out[i].seqNum != k
    decreases |es|
  {
    if es != [] {
      var st := Handle(checked, s, es[0]);
      assert Evicted(st.next, k);
      EvictedNeverResent(checked, st.next, es[1..], k);
      var t := Run(checked, st.next, es[1..]);
      assert Run(checked, s, es).out == st.out + t.out;
    }
  }

  /** The receiver: the next number it expects, the ACK it resends on anything else, the
      delivered messages and three counters. `lastAck` is `None` only in the corrected
      initial state; the source always holds a frame there. */
  datatype Receiver = Receiver(expected: int, lastAck: Option<Frame>, messages: seq<Bytes>,
                               receivedCount: nat, corruptedCount: nat, outOfOrderCount: nat)

  /** The initial receiver as written: its stored ACK acknowledges packet 0, which under
      0-based numbering means "packet 0 received" before anything has arrived. */
  function InitialReceiver(): Receiver
  {
    Receiver(0, Some(Control(Ack, 0)), [], 0, 0, 0)
  }

  /** The corrected initial receiver: no ACK is stored until the first delivery. */
  function CorrectedInitialReceiver(): Receiver
  {
    Receiver(0, None, [], 0, 0, 0)
  }

  /** The counters agree with the messages and the expected number counts the deliveries. */
  predicate ReceiverValid(r: Receiver)
  {
    && r.receivedCount == |r.messages|
    && r.expected == |r.messages|
  }

  /** The stored ACK acknowledges exactly the last delivered packet, and there is none
      before the first delivery. */
  predicate AckHonest(r: Receiver)
  {
    && r.expected >= 0
    && (r.lastAck.None? <==> r.expected == 0)
    && (r.lastAck.Some? ==> r.lastAck.value == Control(Ack, r.expected - 1))
  }

  lemma InitialReceivers()
    ensures ReceiverValid(InitialReceiver()) && !AckHonest(InitialReceiver())
    ensures ReceiverValid(CorrectedInitialReceiver()) && AckHonest(CorrectedInitialReceiver())
  {
  }

  /** `rdt_rcv`. A frame whose type field is not DATA is ignored before the checksum is
      looked at. */
  function Receive(r: Receiver, d: Decoded): (x: Rcv<Receiver>)
    ensures x.delivered.Some? <==> d.kind == Data && d.valid && d.seqNum == r.expected
    ensures x.delivered.Some? ==> && x.delivered.value == d.payload
                                   && x.next.messages == r.messages + [d.payload]
                                   && x.next.expected == r.expected + 1
                                   && x.out == [Control(Ack, r.expected)]
                                   && x.next.lastAck == Some(Control(Ack, r.expected))
    ensures x.delivered.None? ==> && x.next.messages == r.messages
                                   && x.next.expected == r.expected
                                   && x.next.lastAck == r.lastAck
    ensures d.kind == Data && x.delivered.None? ==>
              x.out == (if r.lastAck.Some? then [r.lastAck.value] else [])
    ensures d.kind != Data ==> x == Rcv(r, [], None)
    ensures ReceiverValid(r) ==> ReceiverValid(x.next)
    ensures AckHonest(r) ==> AckHonest(x.next)
  {
    if d.kind != Data then Rcv(r, [], None)
    else if d.valid && d.seqNum == r.expected then
      var ack := Control(Ack, r.expected);
      Rcv(r.(messages := r.messages + [d.payload], receivedCount := r.receivedCount + 1,
             lastAck := Some(ack), expected := r.expected + 1),
          [ack], Some(d.payload))
    else
      var counted := if !d.valid then r.(corruptedCount := r.corruptedCount + 1)
                     else r.(outOfOrderCount := r.outOfOrderCount + 1);
      Rcv(counted, if r.lastAck.Some? then [r.lastAck.value] else [], None)
  }

  datatype RcvTrace = RcvTrace(last: Receiver, out: seq<Frame>, delivered: seq<Bytes>, seqs: seq<int>)

  function RunReceiver(r: Receiver, ds: seq<Decoded>): RcvTrace
    decreases |ds|
  {
    if ds == [] then RcvTrace(r, [], [], [])
    else
      var x := Receive(r, ds[0]);
      var t := RunReceiver(x.next, ds[1..]);
      if x.delivered.Some? then
        RcvTrace(t.last, x.out + t.out, [x.delivered.value] + t.delivered, [ds[0].seqNum] + t.seqs)
      else
        RcvTrace(t.last, x.out + t.out, t.delivered, t.seqs)
  }

  /** Over any arrivals: delivery is strictly in sequence order with no gap and no repeat,
      starting at the expected number; and from an honest stored ACK, every ACK sent
      acknowledges a packet that has been delivered. */
  lemma {:induction false} ReceiverRunInOrder(r: Receiver, ds: seq<Decoded>)
    ensures var t := RunReceiver(r, ds);
            && t.last.messages == r.messages + t.delivered
            && t.last.expected == r.expected + |t.delivered|
            && |t.seqs| == |t.delivered|
            && (forall i :: 0 <= i < |t.seqs| ==> t.seqs[i] == r.expected + i)
            && (ReceiverValid(r) ==> ReceiverValid(t.last))
            && (AckHonest(r) ==> && AckHonest(t.last)
                                 && forall i :: 0 <= i < |t.out| ==>
                                      t.out[i].kind == Ack && 0 <= t.out[i].seqNum < t.last.expected)
    decreases |ds|
  {
    if ds != [] {
      var x := Receive(r, ds[0]);
      ReceiverRunInOrder(x.next, ds[1..]);
      var t := RunReceiver(x.next, ds[1..]);
      var u := RunReceiver(r, ds);
      assert u.out == x.out + t.out;
      if x.delivered.Some? {
        assert u.seqs == [ds[0].seqNum] + t.seqs;
        forall i | 0 <= i < |u.seqs|
          ensures u.seqs[i] == r.expected + i
        {
          if i > 0 {
            assert u.seqs[i] == t.seqs[i - 1];
          }
        }
      }
    }
  }

  /** The receiver delivers nothing until a valid frame with the expected number arrives. */
  lemma {:induction false} StuckWithoutExpected(r: Receiver, ds: seq<Decoded>)
    requires forall i :: 0 <= i < |ds| ==> !(ds[i].valid && ds[i].seqNum == r.expected)
    ensures RunReceiver(r, ds).delivered == []
    ensures RunReceiver(r, ds).last.expected == r.expected
    decreases |ds|
  {
    if ds != [] {
      var x := Receive(r, ds[0]);
      assert x.delivered.None?;
      StuckWithoutExpected(x.next, ds[1..]);
    }
  }

  /** As written, losing DATA 0 stops delivery for good. DATA 0 is lost and DATA 1 reaches
      the receiver, which answers with its stored ACK 0; the sender takes that as "0
      received", moves `base` to 1 and drops frame 0. Whatever happens afterwards, no
      frame numbered 0 is sent again, so as long as every undamaged arrival is a frame
      the sender sent afterwards, the receiver never delivers anything. */
  lemma LostFirstFrameStallsForever(m0: Bytes, m1: Bytes, checked: bool, es: seq<Event>,
                                    ds: seq<Decoded>)
    requires var s2 := Send(Send(InitialSender(2), m0).next, m1);
             var r1 := Receive(InitialReceiver(), Intact(s2.out[0]));
             var s3 := OnReply(checked, s2.next, Intact(r1.out[0]));
             var later := Run(checked, s3.next, es).out;
             forall i :: 0 <= i < |ds| && ds[i].valid ==>
               exists j :: 0 <= j < |later| && ds[i] == Intact(later[j])
    ensures var s1 := Send(InitialSender(2), m0);
            var s2 := Send(s1.next, m1);
            var r1 := Receive(InitialReceiver(), Intact(s2.out[0]));
            var s3 := OnReply(checked, s2.next, Intact(r1.out[0]));
            && s1.out == [Frame(Data, 0, m0)]
            && r1.out == [Control(Ack, 0)] && r1.delivered == None
            && s3.next.base == 1 && Evicted(s3.next, 0)
            && RunReceiver(r1.next, ds).delivered == []
  {
    var s2 := Send(Send(InitialSender(2), m0).next, m1);
    var r1 := Receive(InitialReceiver(), Intact(s2.out[0]));
    var s3 := OnReply(checked, s2.next, Intact(r1.out[0]));
    assert s3.next.base == 1 && Evicted(s3.next, 0);
    EvictedNeverResent(checked, s3.next, es, 0);
    StuckWithoutExpected(r1.next, ds);
  }

  /** Corrected, the same loss is harmless: DATA 1 arriving first draws no ACK at all, so
      the sender keeps frame 0 and its timer resends it first. */
  lemma LostFirstFrameRecovered(m0: Bytes, m1: Bytes)
    ensures var s1 := Send(InitialSender(2), m0);
            var s2 := Send(s1.next, m1);
            var r1 := Receive(CorrectedInitialReceiver(), Intact(s2.out[0]));
            var s3 := OnTimer(s2.next);
            var r2 := Receive(r1.next, Intact(s3.out[0]));
            var r3 := Receive(r2.next, Intact(s3.out[1]));
            && r1.out == [] && r1.delivered == None
            && s3.out == [Frame(Data, 0, m0), Frame(Data, 1, m1)]
            && r3.next.messages == [m0, m1]
            && r3.out == [Control(Ack, 1)]
  {
    var s2 := Send(Send(InitialSender(2), m0).next, m1);
    assert Window(s2.next);
  }
}
