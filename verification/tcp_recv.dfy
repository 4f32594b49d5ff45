/**
 * The receiving half of the simplified TCP endpoint (fase3/tcp_socket.py): in-order
 * acceptance with re-ACK (`_handle_data`) and the drain of the receive buffer (`recv`).
 */
module TcpRecv {
  import opened Common
  import opened TcpCore
  import opened TcpSend

  /** Where the unread part of the byte stream starts, counted from the peer's offsets:
      everything before it has been handed to `recv`. Data handling and draining both
      keep it fixed. */
  function StreamOffset(c: Conn): int
  {
    c.ackNum - |Concat(c.recvBuffer)| - c.bytesReceived
  }

  /** `_handle_data` for a payload at offset `at`: in-order data is appended and
      advances `ack_num`; anything else is dropped. Either way one ACK carrying the
      (possibly new) `ack_num` is sent. */
  function HandleData(c: Conn, at: int, data: Bytes): (r: TcpStep)
    ensures at == c.ackNum ==> && r.next.recvBuffer == c.recvBuffer + [data]
                                && r.next.ackNum == c.ackNum + |data|
                                && r.next == c.(recvBuffer := r.next.recvBuffer, ackNum := r.next.ackNum)
    ensures at != c.ackNum ==> r.next == c
    ensures r.out == [Segment(c.seqNum, r.next.ackNum, AckOnly, c.recvWindow, [])]
    ensures StreamOffset(r.next) == StreamOffset(c)
  {
    if at == c.ackNum then
      var c1 := c.(recvBuffer := c.recvBuffer + [data], ackNum := c.ackNum + |data|);
      ConcatAppend(c.recvBuffer, [data]);
      ConcatCons(data, []);
      TcpStep(c1, [Segment(c1.seqNum, c1.ackNum, AckOnly, c1.recvWindow, [])])
    else
      TcpStep(c, [Segment(c.seqNum, c.ackNum, AckOnly, c.recvWindow, [])])
  }

  /** Data segments handled one after another. */
  function Arrive(c: Conn, segs: seq<Segment>): Conn
    decreases |segs|
  {
    if segs == [] then c
    else Arrive(HandleData(c, segs[0].seqNum, segs[0].payload).next, segs[1..])
  }

  /** Whatever order data arrives in, the receive buffer only grows at its end, and it
      grows by exactly as many bytes as `ack_num` advances: no byte is accepted out of
      offset order. */
  lemma {:induction false} ArrivalsOnlyExtend(c: Conn, segs: seq<Segment>)
    ensures var d := Arrive(c, segs);
            && |d.recvBuffer| >= |c.recvBuffer|
            && d.recvBuffer[..|c.recvBuffer|] == c.recvBuffer
            && StreamOffset(d) == StreamOffset(c)
            && d.bytesReceived == c.bytesReceived
    decreases |segs|
  {
    if segs != [] {
      var c1 := HandleData(c, segs[0].seqNum, segs[0].payload).next;
      ArrivalsOnlyExtend(c1, segs[1..]);
      var d := Arrive(c1, segs[1..]);
      assert d.recvBuffer[..|c.recvBuffer|] == d.recvBuffer[..|c1.recvBuffer|][..|c.recvBuffer|];
    }
  }

  /** Segments that arrive in order, starting at the expected offset, are all accepted:
      the receive buffer gains exactly their payloads. */
  lemma {:induction false} ConsecutiveArrivalsAccepted(c: Conn, segs: seq<Segment>)
    requires Consecutive(segs, c.ackNum)
    ensures Concat(Arrive(c, segs).recvBuffer) == Concat(c.recvBuffer) + Concat(Payloads(segs))
    ensures Arrive(c, segs).ackNum == c.ackNum + |Concat(Payloads(segs))|
    decreases |segs|
  {
    if segs != [] {
      var c1 := HandleData(c, segs[0].seqNum, segs[0].payload).next;
      assert Consecutive(segs[1..], c1.ackNum);
      ConsecutiveArrivalsAccepted(c1, segs[1..]);
      ConcatAppend(c.recvBuffer, [segs[0].payload]);
      ConcatCons(segs[0].payload, []);
      assert Payloads(segs) == [segs[0].payload] + Payloads(segs[1..]);
      ConcatCons(segs[0].payload, Payloads(segs[1..]));
    }
  }

  /** What the drain loop of `recv` takes and what it leaves in the buffer. */
  datatype Drained = Drained(data: Bytes, rest: seq<Bytes>)

  /** The drain loop of `recv`: take whole chunks while they fit in what is still wanted,
      split the first one that does not and push its tail back. */
  function Drain(buf: seq<Bytes>, need: int): (d: Drained)
    ensures d.data + Concat(d.rest) == Concat(buf)
    ensures |d.data| == Min(Max(need, 0), |Concat(buf)|)
    decreases |buf|
  {
    if buf == [] || need <= 0 then Drained([], buf)
    else
      var chunk := buf[0];
      ConcatCons(chunk, buf[1..]);
      assert [chunk] + buf[1..] == buf;
      if |chunk| <= need then
        var d := Drain(buf[1..], need - |chunk|);
        Drained(chunk + d.data, d.rest)
      else
        ConcatCons(chunk[need..], buf[1..]);
        assert chunk == chunk[..need] + chunk[need..];
        Drained(chunk[..need], [chunk[need..]] + buf[1..])
  }

  /** What `recv` returns, with the endpoint after the call. */
  datatype Received = Received(next: Conn, data: Bytes)

  /** `recv(buffer_size)`. Outside ESTABLISHED and CLOSE_WAIT it returns nothing; with an
      empty buffer it returns nothing, as it does once its bounded wait expires. */
  function Recv(c: Conn, bufferSize: int): (r: Received)
    ensures c.state !in {Established, CloseWait} ==> r == Received(c, [])
    ensures |r.data| <= Max(bufferSize, 0)
    ensures r.data + Concat(r.next.recvBuffer) == Concat(c.recvBuffer)
    ensures r.next.bytesReceived == c.bytesReceived + |r.data|
    ensures c.state in {Established, CloseWait} && c.recvBuffer != [] ==>
              |r.data| == Min(Max(bufferSize, 0), |Concat(c.recvBuffer)|)
    ensures r.next == c.(recvBuffer := r.next.recvBuffer, bytesReceived := r.next.bytesReceived)
    ensures StreamOffset(r.next) == StreamOffset(c)
  {
    if c.state != Established && c.state != CloseWait then Received(c, [])
    else if c.recvBuffer == [] then Received(c, [])
    else
      var d := Drain(c.recvBuffer, bufferSize);
      Received(c.(recvBuffer := d.rest, bytesReceived := c.bytesReceived + |d.data|), d.data)
  }
}
