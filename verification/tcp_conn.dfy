/**
 * The connection management of the simplified TCP endpoint (fase3/tcp_socket.py):
 * `connect`, `listen`, `send`, the dispatch of an arriving segment (`_process_segment`,
 * `_handle_syn`, `_handle_fin`) and the two halves of `close`.
 *
 * The blocking waits of `connect` and `close` are split at the wait: the call's first
 * half is one function, and what the call does once the wait is over is another.
 * Whatever the receive thread does in between is modelled by `ProcessSegment`.
 */
module TcpConn {
  import opened Common
  import opened TcpCore
  import opened TcpSend
  import opened TcpRecv

  /** The state changes an arriving segment can cause. Only four of the transitions of
      the TCP state diagram are implemented; in particular FIN_WAIT_1 has no way out. */
  predicate SegmentEdge(from: ConnState, to: ConnState)
  {
    || from == to
    || (from == ConnState.Listen && to == SynRcvd)
    || (from == SynSent && to == Established)
    || (from == SynRcvd && to == Established)
    || (from == Established && to == CloseWait)
  }

  /** `connect`, up to the wait for the SYN-ACK: refused unless CLOSED, otherwise a SYN
      carrying the initial sequence number and the advertised window. */
  function Connect(c: Conn): (r: Result<TcpStep>)
    ensures r.Ok? <==> c.state == Closed
    ensures r.Ok? ==> && r.value.next == c.(state := SynSent)
                      && r.value.out == [Segment(c.seqNum, 0, SynOnly, c.recvWindow, [])]
  {
    if c.state != Closed then Err("socket already in use")
    else Ok(TcpStep(c.(state := SynSent), [Segment(c.seqNum, 0, SynOnly, c.recvWindow, [])]))
  }

  /** The end of a blocking call: the endpoint afterwards and whether the call raised. */
  datatype Settled = Settled(next: Conn, raised: bool)

  /** What `connect` does once its wait ends: still in SYN_SENT means the ten-second wait
      expired and the endpoint falls back to CLOSED; any state but ESTABLISHED raises. */
  function ConnectSettle(c: Conn): (r: Settled)
    ensures !r.raised <==> c.state == Established
    ensures c.state == SynSent ==> r.next == c.(state := Closed)
    ensures c.state != SynSent ==> r.next == c
  {
    if c.state == SynSent then Settled(c.(state := Closed), true)
    else Settled(c, c.state != Established)
  }

  /** `listen`: refused unless CLOSED. */
  function Listen(c: Conn): (r: Result<Conn>)
    ensures r.Ok? <==> c.state == Closed
    ensures r.Ok? ==> r.value == c.(state := ConnState.Listen)
  {
    if c.state != Closed then Err("socket already in use")
    else Ok(c.(state := ConnState.Listen))
  }

  /** What `send` returns: the step it took and the byte count it reports. */
  datatype Sent = Sent(step: TcpStep, count: nat)

  /** `send(data)`: refused unless ESTABLISHED; otherwise the chunk joins the send buffer,
      is counted in `bytes_sent` at once, and as much of the buffer as the window allows is
      segmented. The reported count is the whole chunk, however little of it went out. */
  function Send(c: Conn, data: Bytes): (r: Result<Sent>)
    ensures r.Ok? <==> c.state == Established
    ensures r.Ok? ==>
              var t := r.value.step;
              && r.value.count == |data|
              && Concat(Payloads(t.out)) + Concat(t.next.sendBuffer) == Concat(c.sendBuffer) + data
              && t.next.bytesSent == c.bytesSent + |data|
              && Consecutive(t.out, c.seqNum)
              && (forall i :: 0 <= i < |t.out| ==> t.out[i].flags == AckOnly)
              && t.next.seqNum == c.seqNum + |Concat(Payloads(t.out))|
              && t.next.state == Established
    ensures r.Ok? && FlowOk(c) ==> FlowOk(r.value.step.next)
  {
    if c.state != Established then Err("socket not connected")
    else
      var c1 := c.(sendBuffer := c.sendBuffer + [data], bytesSent := c.bytesSent + |data|);
      ConcatAppend(c.sendBuffer, [data]);
      ConcatCons(data, []);
      Ok(Sent(SendData(c1), |data|))
  }

  /** `_handle_syn`. In LISTEN the server answers with a SYN-ACK from the fresh initial
      sequence number `isn`; `send_base` keeps the value it had. In SYN_SENT the client
      counts its SYN, ACKs the peer's and is connected. Elsewhere a SYN is ignored. */
  function HandleSyn(c: Conn, seg: Segment, isn: int): (r: TcpStep)
    ensures c.state == ConnState.Listen ==>
              && r.next == c.(state := SynRcvd, seqNum := isn, ackNum := seg.seqNum + 1)
              && r.out == [Segment(isn, seg.seqNum + 1, SynAck, c.recvWindow, [])]
    ensures c.state == SynSent ==>
              && r.next == c.(state := Established, seqNum := c.seqNum + 1, ackNum := seg.seqNum + 1)
              && r.out == [Segment(c.seqNum + 1, seg.seqNum + 1, AckOnly, c.recvWindow, [])]
    ensures c.state !in {ConnState.Listen, SynSent} ==> r == TcpStep(c, [])
  {
    if c.state == ConnState.Listen then
      var n := c.(state := SynRcvd, seqNum := isn, ackNum := seg.seqNum + 1);
      TcpStep(n, [Segment(n.seqNum, n.ackNum, SynAck, n.recvWindow, [])])
    else if c.state == SynSent then
      var n := c.(state := Established, seqNum := c.seqNum + 1, ackNum := seg.seqNum + 1);
      TcpStep(n, [Segment(n.seqNum, n.ackNum, AckOnly, n.recvWindow, [])])
    else TcpStep(c, [])
  }

  /** `_handle_fin`: only an ESTABLISHED endpoint reacts, by ACKing the FIN and moving to
      CLOSE_WAIT. A FIN in any other state, FIN_WAIT_1 included, is ignored. */
  function HandleFin(c: Conn, seg: Segment): (r: TcpStep)
    ensures c.state == Established ==>
              && r.next == c.(state := CloseWait, ackNum := seg.seqNum + 1)
              && r.out == [Segment(c.seqNum, seg.seqNum + 1, AckOnly, c.recvWindow, [])]
    ensures c.state != Established ==> r == TcpStep(c, [])
  {
    if c.state == Established then
      var n := c.(state := CloseWait, ackNum := seg.seqNum + 1);
      TcpStep(n, [Segment(n.seqNum, n.ackNum, AckOnly, n.recvWindow, [])])
    else TcpStep(c, [])
  }

  /** The `ack_num` an endpoint holds once the flags of `seg` are acted on: a SYN is
      taken up in LISTEN and SYN_SENT, a FIN without SYN in ESTABLISHED, and each of
      them is counted as one byte; nothing else moves `ack_num`. */
  function FlagAckNum(c: Conn, seg: Segment): int
  {
    if seg.flags.syn then
      (if c.state in {ConnState.Listen, SynSent} then seg.seqNum + 1 else c.ackNum)
    else if seg.flags.fin then
      (if c.state == Established then seg.seqNum + 1 else c.ackNum)
    else c.ackNum
  }

  /** The flag dispatch of `_process_segment`, after the send window is updated. SYN
      takes priority over FIN, and FIN over ACK: the ACK number of a segment carrying
      SYN or FIN is never looked at. */
  function Dispatch(c: Conn, seg: Segment, isn: int): (r: TcpStep)
    ensures SegmentEdge(c.state, r.next.state)
    ensures r.next.sendWindow == c.sendWindow && r.next.bytesSent == c.bytesSent
    ensures r.next.recvBuffer == c.recvBuffer && r.next.bytesReceived == c.bytesReceived
    ensures r.next.ackNum == FlagAckNum(c, seg)
    ensures !seg.flags.syn && !seg.flags.fin ==> r.next.ackNum == c.ackNum
    ensures c.state != SynRcvd ==> r.next.sendBase >= c.sendBase
    ensures seg.flags.syn ==>
              && r.next.state == (if c.state == ConnState.Listen then SynRcvd
                                  else if c.state == SynSent then Established
                                  else c.state)
              && r.next.sendBase == c.sendBase
              && (c.state in {ConnState.Listen, SynSent} <==> |r.out| == 1)
    ensures !seg.flags.syn && seg.flags.fin ==>
              && r.next.state == (if c.state == Established then CloseWait else c.state)
              && r.next.sendBase == c.sendBase
              && (c.state == Established <==> |r.out| == 1)
    ensures !seg.flags.syn && !seg.flags.fin && seg.flags.ack ==>
              && (CompletesHandshake(c, seg.ackNum) ==>
                    r.next.state == Established && r.next.sendBase == seg.ackNum)
              && (!CompletesHandshake(c, seg.ackNum) ==>
                    r.next.state == c.state && r.next.sendBase == Max(c.sendBase, seg.ackNum))
    ensures !seg.flags.syn && !seg.flags.fin && !seg.flags.ack ==> r == TcpStep(c, [])
  {
    if seg.flags.syn then HandleSyn(c, seg, isn)
    else if seg.flags.fin then HandleFin(c, seg)
    else if seg.flags.ack then HandleAck(c, seg.ackNum)
    else TcpStep(c, [])
  }

  /** `_process_segment`: adopt the peer's window, act on SYN, else FIN, else ACK, then
      hand a non-empty payload to `_handle_data` when the ACK flag is set. `isn` is the
      value a SYN received in LISTEN draws at random. */
  function ProcessSegment(c: Conn, seg: Segment, isn: int): (r: TcpStep)
    ensures r.next.sendWindow == seg.window
    ensures SegmentEdge(c.state, r.next.state)
    ensures |r.next.recvBuffer| >= |c.recvBuffer| && r.next.recvBuffer[..|c.recvBuffer|] == c.recvBuffer
    ensures !seg.flags.syn && !seg.flags.fin ==> StreamOffset(r.next) == StreamOffset(c)
    ensures !seg.flags.ack || seg.payload == [] ==>
              r.next.recvBuffer == c.recvBuffer && r.next.bytesReceived == c.bytesReceived
    ensures !seg.flags.syn && !seg.flags.fin && seg.flags.ack && seg.payload != [] ==>
              && (seg.seqNum == c.ackNum ==> && r.next.recvBuffer == c.recvBuffer + [seg.payload]
                                             && r.next.ackNum == c.ackNum + |seg.payload|)
              && (seg.seqNum != c.ackNum ==> && r.next.recvBuffer == c.recvBuffer
                                             && r.next.ackNum == c.ackNum)
    ensures seg.flags.ack && seg.payload != [] ==>
              (r.next.recvBuffer == c.recvBuffer + [seg.payload] <==> seg.seqNum == FlagAckNum(c, seg))
    ensures c.state != SynRcvd ==> r.next.sendBase >= c.sendBase
    ensures r.next.bytesSent == c.bytesSent
    ensures seg.flags.syn ==>
              r.next.state == (if c.state == ConnState.Listen then SynRcvd
                               else if c.state == SynSent then Established
                               else c.state)
    ensures !seg.flags.syn && seg.flags.fin ==>
              r.next.state == (if c.state == Established then CloseWait else c.state)
    ensures !seg.flags.syn && !seg.flags.fin && seg.flags.ack && !CompletesHandshake(c, seg.ackNum) ==>
              r.next.state == c.state && r.next.sendBase == Max(c.sendBase, seg.ackNum)
    ensures !seg.flags.syn && !seg.flags.fin && !seg.flags.ack ==>
              r.next == c.(sendWindow := seg.window) && r.out == []
  {
    var c0 := c.(sendWindow := seg.window);
    var t := Dispatch(c0, seg, isn);
    if seg.payload != [] && seg.flags.ack then
      var d := HandleData(t.next, seg.seqNum, seg.payload);
      TcpStep(d.next, t.out + d.out)
    else t
  }

  /** The first half of `close`: from ESTABLISHED or CLOSE_WAIT a FIN-ACK goes out and
      the endpoint moves to FIN_WAIT_1 or LAST_ACK; any other state sends nothing. */
  function CloseBegin(c: Conn): (r: TcpStep)
    ensures c.state == Established ==> r.next == c.(state := FinWait1)
    ensures c.state == CloseWait ==> r.next == c.(state := LastAck)
    ensures c.state in {Established, CloseWait} ==>
              r.out == [Segment(c.seqNum, c.ackNum, FinAck, c.recvWindow, [])]
    ensures c.state !in {Established, CloseWait} ==> r == TcpStep(c, [])
  {
    if c.state == Established then
      TcpStep(c.(state := FinWait1), [Segment(c.seqNum, c.ackNum, FinAck, c.recvWindow, [])])
    else if c.state == CloseWait then
      TcpStep(c.(state := LastAck), [Segment(c.seqNum, c.ackNum, FinAck, c.recvWindow, [])])
    else TcpStep(c, [])
  }

  /** The end of `close`, after its waits: unconditionally CLOSED with every timer
      cancelled. A `close` that found the endpoint already CLOSED returned at once. */
  function CloseEnd(c: Conn): (r: Conn)
    ensures r.state == Closed
    ensures c.state != Closed ==> r == c.(state := Closed, timers := {})
    ensures c.state == Closed ==> r == c
  {
    if c.state == Closed then c else c.(state := Closed, timers := {})
  }

  /** The inputs of one endpoint: its API calls, an arriving segment (with the value a
      SYN in LISTEN would draw), a retransmission timer expiring (acted on only while that
      timer is live), and the end of the waits inside `connect` and `close`. */
  datatype Event =
    | CallConnect
    | CallListen
    | CallSend(data: Bytes)
    | CallRecv(bufferSize: int)
    | Arrival(seg: Segment, isn: int)
    | TimerExpiry(at: int)
    | ConnectWaitOver
    | CallClose
    | CloseWaitOver

  /** One event. A timer expires only while it is live: an offset with no live timer,
      because none was started or it was cancelled by an ACK or by `close`, draws nothing. */
  function Handle(c: Conn, e: Event): (r: TcpStep)
    ensures e.TimerExpiry? ==>
              (r.next.retransmissions == c.retransmissions + 1 <==> e.at in c.timers)
    ensures e.TimerExpiry? && e.at !in c.timers ==> r == TcpStep(c, [])
  {
    match e
    case CallConnect => (var r := Connect(c); if r.Ok? then r.value else TcpStep(c, []))
    case CallListen => (var r := Listen(c); TcpStep(if r.Ok? then r.value else c, []))
    case CallSend(data) => (var r := Send(c, data); if r.Ok? then r.value.step else TcpStep(c, []))
    case CallRecv(n) => TcpStep(Recv(c, n).next, [])
    case Arrival(seg, isn) => ProcessSegment(c, seg, isn)
    case TimerExpiry(s) => if s in c.timers then Timeout(c, s) else TcpStep(c, [])
    case ConnectWaitOver => TcpStep(ConnectSettle(c).next, [])
    case CallClose => CloseBegin(c)
    case CloseWaitOver => TcpStep(CloseEnd(c), [])
  }

  /** The bytes a `send` call accepts: its whole chunk when the endpoint is connected. */
  function Accepted(c: Conn, e: Event): nat
  {
    if e.CallSend? && Send(c, e.data).Ok? then |e.data| else 0
  }

  /** The endpoint after a run of events, and the number of bytes accepted by `send`. */
  datatype Trace = Trace(last: Conn, sentBytes: nat)

  function Run(c: Conn, es: seq<Event>): Trace
    decreases |es|
  {
    if es == [] then Trace(c, 0)
    else
      var t := Run(Handle(c, es[0]).next, es[1..]);
      Trace(t.last, t.sentBytes + Accepted(c, es[0]))
  }

  /** The states the source declares but never enters. */
  predicate Unreachable(s: ConnState)
  {
    s in {FinWait2, Closing, TimeWait}
  }

  /** One event never enters an unused state, and only an accepted `send` adds to
      `bytes_sent`. */
  lemma HandleAvoidsUnusedStates(c: Conn, e: Event)
    requires !Unreachable(c.state)
    ensures !Unreachable(Handle(c, e).next.state)
    ensures Handle(c, e).next.bytesSent == c.bytesSent + Accepted(c, e)
  {
    match e
    case Arrival(seg, isn) =>
      assert SegmentEdge(c.state, ProcessSegment(c, seg, isn).next.state);
    case _ =>
  }

  /** No run of events takes an endpoint into FIN_WAIT_2, CLOSING or TIME_WAIT, and
      `bytes_sent` grows by exactly the bytes `send` accepted. */
  lemma {:induction false} RunAvoidsUnusedStates(c: Conn, es: seq<Event>)
    requires !Unreachable(c.state)
    ensures !Unreachable(Run(c, es).last.state)
    ensures Run(c, es).last.bytesSent == c.bytesSent + Run(c, es).sentBytes
    decreases |es|
  {
    if es != [] {
      HandleAvoidsUnusedStates(c, es[0]);
      RunAvoidsUnusedStates(Handle(c, es[0]).next, es[1..]);
    }
  }

  /** The three-way handshake between a fresh client with initial sequence number
      `isnC` and a fresh listening server that draws `isnS`: both end ESTABLISHED with
      matching sequence and acknowledgement numbers, and the server's `send_base` is
      reset from its constructor value to the first data offset. The client's
      `send_base` stays at its initial sequence number, one below its `seq_num`. */
  lemma Handshake(isnC: int, isnS0: int, isnS: int)
    ensures var client0 := Connect(NewConn(isnC)).value;
            var server0 := Listen(NewConn(isnS0)).value;
            var syn := client0.out[0];
            var server1 := ProcessSegment(server0, syn, isnS);
            var client1 := ProcessSegment(client0.next, server1.out[0], 0);
            var server2 := ProcessSegment(server1.next, client1.out[0], 0);
            && server1.next.state == SynRcvd
            && client1.next.state == Established
            && server2.next.state == Established
            && client1.next.seqNum == server2.next.ackNum == isnC + 1
            && server2.next.seqNum == client1.next.ackNum == isnS + 1
            && server2.next.sendBase == isnS + 1
            && client1.next.sendBase == isnC
            && server2.out == []
  {
  }

  /** Segments handed to `_process_segment` one after another; `isn` is what a SYN in
      LISTEN would draw. */
  function Deliver(c: Conn, segs: seq<Segment>, isn: int): Conn
    decreases |segs|
  {
    if segs == [] then c
    else Deliver(ProcessSegment(c, segs[0], isn).next, segs[1..], isn)
  }

  lemma AppendAssoc(a: Bytes, b: Bytes, d: Bytes)
    ensures (a + b) + d == a + (b + d)
  {
  }

  /** The first of a run of in-order data segments: its payload joins the stream, and
      the rest of the run is in order from the new `ack_num`. */
  lemma InOrderSegmentAccepted(c: Conn, segs: seq<Segment>, isn: int) returns (n: Conn)
    requires segs != [] && Consecutive(segs, c.ackNum)
    requires forall i :: 0 <= i < |segs| ==> segs[i].flags == AckOnly
    ensures && Concat(n.recvBuffer) == Concat(c.recvBuffer) + segs[0].payload
            && n.ackNum == c.ackNum + |segs[0].payload|
            && Consecutive(segs[1..], n.ackNum)
            && Deliver(c, segs, isn) == Deliver(n, segs[1..], isn)
            && Concat(Payloads(segs)) == segs[0].payload + Concat(Payloads(segs[1..]))
  {
    n := ProcessSegment(c, segs[0], isn).next;
    ConcatAppend(c.recvBuffer, [segs[0].payload]);
    ConcatCons(segs[0].payload, []);
    assert Payloads(segs) == [segs[0].payload] + Payloads(segs[1..]);
    ConcatCons(segs[0].payload, Payloads(segs[1..]));
  }

  /** Data segments that arrive in order from the expected offset are all accepted,
      whatever else the receiving endpoint does with their ACK fields: `ack_num` moves
      past all of them. An empty payload is skipped and moves nothing. */
  lemma {:induction false} InOrderSegmentsAcked(c: Conn, segs: seq<Segment>, isn: int)
    requires Consecutive(segs, c.ackNum)
    requires forall i :: 0 <= i < |segs| ==> segs[i].flags == AckOnly
    ensures Deliver(c, segs, isn).ackNum == c.ackNum + |Concat(Payloads(segs))|
    decreases |segs|
  {
    if segs != [] {
      var n := InOrderSegmentAccepted(c, segs, isn);
      InOrderSegmentsAcked(n, segs[1..], isn);
    }
  }

  /** The same run of segments leaves the receive buffer with exactly their payloads
      added to the stream, in order. */
  lemma {:induction false} InOrderSegmentsAccepted(c: Conn, segs: seq<Segment>, isn: int)
    requires Consecutive(segs, c.ackNum)
    requires forall i :: 0 <= i < |segs| ==> segs[i].flags == AckOnly
    ensures Concat(Deliver(c, segs, isn).recvBuffer) == Concat(c.recvBuffer) + Concat(Payloads(segs))
    decreases |segs|
  {
    if segs != [] {
      var p, later := segs[0].payload, Concat(Payloads(segs[1..]));
      var n := InOrderSegmentAccepted(c, segs, isn);
      InOrderSegmentsAccepted(n, segs[1..], isn);
      calc {
        Concat(Deliver(c, segs, isn).recvBuffer);
        Concat(Deliver(n, segs[1..], isn).recvBuffer);
        Concat(n.recvBuffer) + later;
        (Concat(c.recvBuffer) + p) + later;
        { AppendAssoc(Concat(c.recvBuffer), p, later); }
        Concat(c.recvBuffer) + (p + later);
        Concat(c.recvBuffer) + Concat(Payloads(segs));
      }
    }
  }

  /** End to end: whatever `send` puts on the wire, delivered in order to a peer whose
      `ack_num` is the sender's `seq_num`, reaches the peer's receive buffer as a
      continuation of the stream; those bytes and the ones still buffered at the sender
      are exactly the bytes queued before the call followed by the chunk. */
  lemma SendReachesPeer(c: Conn, peer: Conn, data: Bytes, isn: int)
    requires c.state == Established && peer.ackNum == c.seqNum
    ensures Send(c, data).Ok?
    ensures var t := Send(c, data).value.step;
            var q := Deliver(peer, t.out, isn);
            && Concat(q.recvBuffer) == Concat(peer.recvBuffer) + Concat(Payloads(t.out))
            && Concat(Payloads(t.out)) + Concat(t.next.sendBuffer) == Concat(c.sendBuffer) + data
            && q.ackNum == t.next.seqNum
  {
    var t := Send(c, data).value.step;
    InOrderSegmentsAcked(peer, t.out, isn);
    InOrderSegmentsAccepted(peer, t.out, isn);
  }
}
