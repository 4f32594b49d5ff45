/**
 * The state of one simplified TCP endpoint (fase3/tcp_socket.py): its connection state,
 * sequence and acknowledgement numbers, the send and receive buffers, the
 * flow-control windows, the tables keyed by byte offset, and the statistics counters.
 *
 * Sequence numbers are unbounded integers (the source never reduces them modulo 2^32).
 * Timers and send timestamps appear only as the set of offsets they are kept for: their
 * durations and clock readings feed the RTT estimator, which is not modelled.
 */
module TcpCore {
  import opened Common

  /** The eleven connection states; the names follow the TCP state diagram of
      section 3.3.2 of RFC 9293, although only some transitions are implemented. */
  datatype ConnState = Closed | Listen | SynSent | SynRcvd | Established
                     | FinWait1 | FinWait2 | CloseWait | Closing | TimeWait | LastAck

  const DefaultRecvWindow: int := 4096
  const MaxSegmentSize: int := 1024

  datatype Flags = Flags(syn: bool, ack: bool, fin: bool)

  const SynOnly := Flags(true, false, false)
  const SynAck := Flags(true, true, false)
  const AckOnly := Flags(false, true, false)
  const FinAck := Flags(false, true, true)

  /** A segment with the port fields left out. */
  datatype Segment = Segment(seqNum: int, ackNum: int, flags: Flags, window: int, payload: Bytes)

  datatype Conn = Conn(
    state: ConnState,
    seqNum: int,            // next byte offset to send
    ackNum: int,            // next byte offset expected from the peer
    sendBase: int,          // oldest unacknowledged offset
    sendBuffer: seq<Bytes>, // chunks accepted by `send` and not yet segmented
    recvBuffer: seq<Bytes>, // in-order payloads not yet read by `recv`
    recvWindow: int,        // window advertised in every outgoing segment
    sendWindow: int,        // window last advertised by the peer
    timers: set<int>,       // offsets with a live retransmission timer
    sendTimes: set<int>,    // offsets with a recorded send time
    unacked: map<int, Bytes>,
    retransmissions: nat,
    bytesSent: nat,
    bytesReceived: nat)

  /** A fresh endpoint; `isn` is the initial sequence number the source draws at random. */
  function NewConn(isn: int): (c: Conn)
    ensures c.state == Closed && c.seqNum == isn && c.sendBase == isn && c.ackNum == 0
    ensures c.recvWindow == DefaultRecvWindow && c.sendWindow == DefaultRecvWindow
    ensures c.sendBuffer == [] && c.recvBuffer == [] && c.unacked == map[] && c.timers == {}
  {
    Conn(Closed, isn, 0, isn, [], [], DefaultRecvWindow, DefaultRecvWindow,
         {}, {}, map[], 0, 0, 0)
  }

  /** The outcome of a handler: the next state and the segments it sent. */
  datatype TcpStep = TcpStep(next: Conn, out: seq<Segment>)

  /** The bytes of a sequence of chunks, in order. */
  function Concat(chunks: seq<Bytes>): Bytes
  {
    if chunks == [] then [] else chunks[0] + Concat(chunks[1..])
  }

  lemma {:induction false} ConcatAppend(a: seq<Bytes>, b: seq<Bytes>)
    ensures Concat(a + b) == Concat(a) + Concat(b)
    decreases |a|
  {
    if a == [] {
      assert a + b == b;
    } else {
      assert (a + b)[1..] == a[1..] + b;
      ConcatAppend(a[1..], b);
    }
  }

  /** The payloads of a sequence of segments, in order. */
  function Payloads(segs: seq<Segment>): (r: seq<Bytes>)
    ensures |r| == |segs|
    ensures forall i :: 0 <= i < |segs| ==> r[i] == segs[i].payload
  {
    if segs == [] then [] else [segs[0].payload] + Payloads(segs[1..])
  }

  /** Each segment starts where the previous one ends, the first at `start`. */
  predicate Consecutive(segs: seq<Segment>, start: int)
  {
    && (|segs| > 0 ==> segs[0].seqNum == start)
    && forall i :: 0 <= i < |segs| - 1 ==> segs[i + 1].seqNum == segs[i].seqNum + |segs[i].payload|
  }
}
