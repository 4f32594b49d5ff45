/**
 * The sending half of the simplified TCP endpoint (fase3/tcp_socket.py): window-bounded
 * segmentation of the send buffer (`_send_data`), cumulative ACK processing
 * (`_handle_ack`) and the Go-Back-N-style timeout (`_timeout_handler`).
 */
module TcpSend {
  import opened Common
  import opened IntSets
  import opened TcpCore

  function Min(a: int, b: int): int
  {
    if a <= b then a else b
  }

  function Max(a: int, b: int): int
  {
    if a >= b then a else b
  }

  /** The outcome of the segmentation loop: the payloads cut, in order, and what is left. */
  datatype Flush = Flush(pieces: seq<Bytes>, rest: seq<Bytes>)

  lemma ConcatCons(x: Bytes, t: seq<Bytes>)
    ensures Concat([x] + t) == x + Concat(t)
  {
    assert ([x] + t)[0] == x;
    assert ([x] + t)[1..] == t;
  }

  /** The send buffer once `size` bytes of its head chunk are taken. */
  function Cut(buf: seq<Bytes>, size: int): seq<Bytes>
    requires buf != [] && 0 <= size <= |buf[0]|
  {
    if |buf[0]| > size then [buf[0][size..]] + buf[1..] else buf[1..]
  }

  lemma CutConserves(buf: seq<Bytes>, size: int)
    requires buf != [] && 0 <= size <= |buf[0]|
    ensures buf[0][..size] + Concat(Cut(buf, size)) == Concat(buf)
  {
    var data, tail := buf[0], buf[1..];
    assert [data] + tail == buf;
    ConcatCons(data, tail);
    var t := Concat(tail);
    if |data| > size {
      ConcatCons(data[size..], tail);
      calc {
        data[..size] + Concat(Cut(buf, size));
        data[..size] + (data[size..] + t);
        (data[..size] + data[size..]) + t;
        { assert data[..size] + data[size..] == data; }
        data + t;
      }
    } else {
      assert data[..size] == data;
    }
  }

  /** Cutting the head piece in front of a split of the rest of the buffer splits the
      whole buffer. */
  lemma CutInFront(buf: seq<Bytes>, size: int, f: Flush)
    requires buf != [] && 0 <= size <= |buf[0]|
    requires Concat(f.pieces) + Concat(f.rest) == Concat(Cut(buf, size))
    ensures Concat([buf[0][..size]] + f.pieces) + Concat(f.rest) == Concat(buf)
    ensures |Concat([buf[0][..size]] + f.pieces)| == size + |Concat(f.pieces)|
  {
    CutConserves(buf, size);
    ConcatCons(buf[0][..size], f.pieces);
  }

  lemma PiecesBounded(piece: Bytes, pieces: seq<Bytes>)
    requires |piece| <= MaxSegmentSize
    requires forall i :: 0 <= i < |pieces| ==> |pieces[i]| <= MaxSegmentSize
    ensures forall i :: 0 <= i < |[piece] + pieces| ==> |([piece] + pieces)[i]| <= MaxSegmentSize
  {
  }

  /** The loop of `_send_data` with `avail` bytes of window: cut the head chunk to at most
      one maximum segment and at most the window left, and push any remainder back in
      front. An empty chunk yields an empty piece. */
  function Segmentize(buf: seq<Bytes>, avail: int): (f: Flush)
    ensures Concat(f.pieces) + Concat(f.rest) == Concat(buf)
    ensures forall i :: 0 <= i < |f.pieces| ==> |f.pieces[i]| <= MaxSegmentSize
    ensures |Concat(f.pieces)| <= Max(avail, 0)
    ensures avail <= 0 ==> f.pieces == [] && f.rest == buf
    ensures f.rest != [] ==> |Concat(f.pieces)| == Max(avail, 0)
    decreases |Concat(buf)|, |buf|
  {
    if buf == [] || avail <= 0 then Flush([], buf)
    else
      var size := Min(Min(|buf[0]|, MaxSegmentSize), avail);
      var piece := buf[0][..size];
      CutConserves(buf, size);
      var f := Segmentize(Cut(buf, size), avail - size);
      CutInFront(buf, size, f);
      PiecesBounded(piece, f.pieces);
      Flush([piece] + f.pieces, f.rest)
  }

  /** The first piece is the head chunk cut to at most one maximum segment and at most
      the window available. */
  lemma SegmentizeHead(buf: seq<Bytes>, avail: int)
    requires buf != [] && avail > 0
    ensures var f := Segmentize(buf, avail);
            |f.pieces| > 0 && f.pieces[0] == buf[0][..Min(Min(|buf[0]|, MaxSegmentSize), avail)]
  {
  }

  /** The offsets of a sequence of segments. */
  function SeqNums(segs: seq<Segment>): set<int>
  {
    set i | 0 <= i < |segs| :: segs[i].seqNum
  }

  lemma SeqNumsCons(seg: Segment, rest: seq<Segment>)
    ensures SeqNums([seg] + rest) == {seg.seqNum} + SeqNums(rest)
  {
    var all := [seg] + rest;
    forall k | k in SeqNums(rest)
      ensures k in SeqNums(all)
    {
      var i :| 0 <= i < |rest| && rest[i].seqNum == k;
      assert all[i + 1] == rest[i];
    }
    assert all[0] == seg;
  }

  /** The data segments for `pieces`, one after another from offset `start`, each
      carrying `ackNum` and the advertised window `window`. */
  function Emit(start: int, ackNum: int, window: int, pieces: seq<Bytes>): (out: seq<Segment>)
    ensures Payloads(out) == pieces
    ensures Consecutive(out, start)
    ensures forall i :: 0 <= i < |out| ==>
              && out[i].ackNum == ackNum && out[i].flags == AckOnly && out[i].window == window
              && start <= out[i].seqNum <= start + |Concat(pieces)|
    decreases |pieces|
  {
    if pieces == [] then []
    else
      var p := pieces[0];
      var rest := Emit(start + |p|, ackNum, window, pieces[1..]);
      ConcatCons(p, pieces[1..]);
      assert [p] + pieces[1..] == pieces;
      var out := [Segment(start, ackNum, AckOnly, window, p)] + rest;
      assert Payloads(out) == [p] + Payloads(rest);
      out
  }

  /** Record each sent segment: its payload is kept for retransmission under its offset,
      and the offset gets a send time and a timer. A later segment at the same offset
      replaces the stored payload. */
  function Record(c: Conn, segs: seq<Segment>): (r: Conn)
    ensures r == c.(unacked := r.unacked, timers := r.timers, sendTimes := r.sendTimes)
    ensures r.timers == c.timers + SeqNums(segs) && r.sendTimes == c.sendTimes + SeqNums(segs)
    ensures r.unacked.Keys == c.unacked.Keys + SeqNums(segs)
    ensures forall k :: k in c.unacked && k !in SeqNums(segs) ==> r.unacked[k] == c.unacked[k]
    decreases |segs|
  {
    if segs == [] then c
    else
      var seg := segs[0];
      SeqNumsCons(seg, segs[1..]);
      assert [seg] + segs[1..] == segs;
      Record(c.(unacked := c.unacked[seg.seqNum := seg.payload],
                timers := c.timers + {seg.seqNum},
                sendTimes := c.sendTimes + {seg.seqNum}),
             segs[1..])
  }

  /** Recording segments whose offsets lie in `[lo, hi]` keeps every entry below `lo`
      and adds keys only inside the range. */
  lemma RecordWithin(c: Conn, segs: seq<Segment>, lo: int, hi: int)
    requires forall k :: k in SeqNums(segs) ==> lo <= k <= hi
    ensures var r := Record(c, segs);
            && (forall k :: k in c.unacked ==> k in r.unacked)
            && (forall k :: k in c.unacked && k < lo ==> r.unacked[k] == c.unacked[k])
            && (forall k :: k in r.unacked ==> k in c.unacked || lo <= k <= hi)
            && (forall k :: k in r.timers ==> k in c.timers || lo <= k <= hi)
  {
  }

  /** No segment after the `i`-th one has the same offset. */
  predicate LastAt(segs: seq<Segment>, i: int)
    requires 0 <= i < |segs|
  {
    forall j :: i < j < |segs| ==> segs[j].seqNum != segs[i].seqNum
  }

  /** In segments that follow one another, the `j`-th starts at or after the end of the
      `i`-th for every `i < j`. */
  lemma {:induction false} ConsecutiveApart(segs: seq<Segment>, start: int, i: int, j: int)
    requires Consecutive(segs, start) && 0 <= i < j < |segs|
    ensures segs[i].seqNum + |segs[i].payload| <= segs[j].seqNum
    decreases j - i
  {
    if j > i + 1 {
      ConsecutiveApart(segs, start, i, j - 1);
      assert segs[j - 1].seqNum <= segs[j].seqNum;
    }
  }

  /** In a consecutive run, a non-empty segment is the last one sent at its offset. */
  lemma NonEmptyIsLast(segs: seq<Segment>, start: int)
    requires Consecutive(segs, start)
    ensures forall i :: 0 <= i < |segs| && segs[i].payload != [] ==> LastAt(segs, i)
  {
    forall i, j | 0 <= i < j < |segs| && segs[i].payload != []
      ensures segs[j].seqNum != segs[i].seqNum
    {
      ConsecutiveApart(segs, start, i, j);
    }
  }

  /** After `Record`, the payload stored at an offset is that of the last segment sent
      there. */
  lemma {:induction false} RecordLastWins(c: Conn, segs: seq<Segment>)
    ensures forall i :: 0 <= i < |segs| && LastAt(segs, i) ==>
              Record(c, segs).unacked[segs[i].seqNum] == segs[i].payload
    decreases |segs|
  {
    if segs != [] {
      var seg := segs[0];
      var c1 := c.(unacked := c.unacked[seg.seqNum := seg.payload],
                   timers := c.timers + {seg.seqNum},
                   sendTimes := c.sendTimes + {seg.seqNum});
      RecordLastWins(c1, segs[1..]);
      assert Record(c, segs) == Record(c1, segs[1..]);
      forall i | 0 <= i < |segs| && LastAt(segs, i)
        ensures Record(c, segs).unacked[segs[i].seqNum] == segs[i].payload
      {
        if i == 0 {
          forall k | k in SeqNums(segs[1..])
            ensures k != seg.seqNum
          {
            var j :| 0 <= j < |segs[1..]| && segs[1..][j].seqNum == k;
            assert segs[j + 1].seqNum == k;
          }
        } else {
          assert LastAt(segs[1..], i - 1);
        }
      }
    }
  }

  /** Each non-empty segment of the step's output is stored for retransmission under its
      offset, with exactly the bytes it carried. */
  predicate StoresPayloads(r: TcpStep)
  {
    forall i :: 0 <= i < |r.out| && r.out[i].payload != [] ==>
      r.out[i].seqNum in r.next.unacked && r.next.unacked[r.out[i].seqNum] == r.out[i].payload
  }

  /** Recording a consecutive run of segments stores each non-empty one under its
      offset. */
  lemma RecordStores(c: Conn, segs: seq<Segment>, start: int, seqNum: int)
    requires Consecutive(segs, start)
    ensures StoresPayloads(TcpStep(Record(c, segs).(seqNum := seqNum), segs))
  {
    NonEmptyIsLast(segs, start);
    RecordLastWins(c, segs);
  }

  /** Send the pieces one after another: each is recorded as unacknowledged at its
      offset, gets a send time and a timer, and advances `seq_num` by its length. */
  function Transmit(c: Conn, pieces: seq<Bytes>): (r: TcpStep)
    ensures Payloads(r.out) == pieces
    ensures Consecutive(r.out, c.seqNum)
    ensures r.next.seqNum == c.seqNum + |Concat(pieces)|
    ensures forall i :: 0 <= i < |r.out| ==>
              && r.out[i].ackNum == c.ackNum && r.out[i].flags == AckOnly
              && r.out[i].window == c.recvWindow
    ensures r.next == c.(seqNum := r.next.seqNum, unacked := r.next.unacked,
                         timers := r.next.timers, sendTimes := r.next.sendTimes)
    ensures forall k :: k in c.unacked ==> k in r.next.unacked
    ensures forall k :: k in c.unacked && k < c.seqNum ==> r.next.unacked[k] == c.unacked[k]
    ensures forall k :: k in r.next.unacked ==> k in c.unacked || c.seqNum <= k <= r.next.seqNum
    ensures forall k :: k in r.next.timers ==> k in c.timers || c.seqNum <= k <= r.next.seqNum
    ensures c.timers <= r.next.timers && c.sendTimes <= r.next.sendTimes
    ensures SeqNums(r.out) <= r.next.unacked.Keys
    ensures SeqNums(r.out) <= r.next.timers && SeqNums(r.out) <= r.next.sendTimes
    ensures StoresPayloads(r)
  {
    var out := Emit(c.seqNum, c.ackNum, c.recvWindow, pieces);
    var next := Record(c, out).(seqNum := c.seqNum + |Concat(pieces)|);
    assert forall k :: k in SeqNums(out) ==> c.seqNum <= k <= next.seqNum;
    RecordWithin(c, out, c.seqNum, next.seqNum);
    RecordStores(c, out, c.seqNum, next.seqNum);
    TcpStep(next, out)
  }

  /** Outstanding bytes do not exceed the window the peer last advertised. */
  predicate FlowOk(c: Conn)
  {
    c.seqNum - c.sendBase <= c.sendWindow
  }

  /** `_send_data`: flush the send buffer into at most `send_window - (seq_num - send_base)`
      bytes of new segments. */
  function SendData(c: Conn): (r: TcpStep)
    ensures Concat(Payloads(r.out)) + Concat(r.next.sendBuffer) == Concat(c.sendBuffer)
    ensures |Concat(Payloads(r.out))| <= Max(c.sendWindow - (c.seqNum - c.sendBase), 0)
    ensures forall i :: 0 <= i < |r.out| ==> |r.out[i].payload| <= MaxSegmentSize
    ensures forall i :: 0 <= i < |r.out| ==> r.out[i].flags == AckOnly
    ensures Consecutive(r.out, c.seqNum)
    ensures r.next.seqNum == c.seqNum + |Concat(Payloads(r.out))|
    ensures r.next.sendBuffer != [] ==> r.next.seqNum - r.next.sendBase >= c.sendWindow
    ensures FlowOk(c) ==> FlowOk(r.next)
    ensures r.next == c.(sendBuffer := r.next.sendBuffer, seqNum := r.next.seqNum,
                         unacked := r.next.unacked, timers := r.next.timers,
                         sendTimes := r.next.sendTimes)
    ensures forall k :: k in c.unacked ==> k in r.next.unacked
    ensures forall k :: k in c.unacked && k < c.seqNum ==> r.next.unacked[k] == c.unacked[k]
    ensures forall k :: k in r.next.unacked ==> k in c.unacked || c.seqNum <= k <= r.next.seqNum
    ensures forall k :: k in r.next.timers ==> k in c.timers || c.seqNum <= k <= r.next.seqNum
    ensures SeqNums(r.out) <= r.next.unacked.Keys && SeqNums(r.out) <= r.next.timers
    ensures StoresPayloads(r)
  {
    var avail := c.sendWindow - (c.seqNum - c.sendBase);
    var f := Segmentize(c.sendBuffer, avail);
    Transmit(c.(sendBuffer := f.rest), f.pieces)
  }

  /** The bookkeeping of an ACK numbered `a` that advances `send_base`: drop the send
      times and timers below `a` and the segments it covers entirely. */
  function Acknowledge(c: Conn, a: int): (r: Conn)
    ensures r.sendBase == a
    ensures forall k :: k in r.timers <==> k in c.timers && k >= a
    ensures forall k :: k in r.sendTimes <==> k in c.sendTimes && k >= a
    ensures forall k :: k in r.unacked <==> k in c.unacked && k + |c.unacked[k]| > a
    ensures forall k :: k in r.unacked ==> r.unacked[k] == c.unacked[k]
    ensures r == c.(sendBase := a, timers := r.timers, sendTimes := r.sendTimes, unacked := r.unacked)
  {
    c.(sendTimes := (set k | k in c.sendTimes && k >= a),
       sendBase := a,
       timers := (set k | k in c.timers && k >= a),
       unacked := (map k | k in c.unacked && k + |c.unacked[k]| > a :: c.unacked[k]))
  }

  /** The SYN_RCVD branch of `_handle_ack`: the handshake ACK. */
  predicate CompletesHandshake(c: Conn, a: int)
  {
    c.state == SynRcvd && a >= c.seqNum + 1
  }

  /** `_handle_ack` for an ACK numbered `a`. */
  function HandleAck(c: Conn, a: int): (r: TcpStep)
    ensures CompletesHandshake(c, a) ==>
              r.out == [] && r.next == c.(state := Established, seqNum := a, sendBase := a)
    ensures !CompletesHandshake(c, a) && a <= c.sendBase ==> r == TcpStep(c, [])
    ensures !CompletesHandshake(c, a) ==> r.next.state == c.state && r.next.sendBase >= c.sendBase
    ensures !CompletesHandshake(c, a) && a > c.sendBase ==>
              && r.next.sendBase == a
              && (forall k :: k in c.unacked && k < c.seqNum && k + |c.unacked[k]| <= a ==>
                    k !in r.next.unacked)
              && (forall k :: k in r.next.unacked && k < c.seqNum ==>
                    k in c.unacked && r.next.unacked[k] == c.unacked[k])
              && (forall k :: k in r.next.timers && k < c.seqNum ==> k in c.timers && k >= a)
              && Consecutive(r.out, c.seqNum)
              && Concat(Payloads(r.out)) + Concat(r.next.sendBuffer) == Concat(c.sendBuffer)
              && |Concat(Payloads(r.out))| <= Max(c.sendWindow - (c.seqNum - a), 0)
    ensures FlowOk(c) && !CompletesHandshake(c, a) ==> FlowOk(r.next)
  {
    if CompletesHandshake(c, a) then
      TcpStep(c.(state := Established, seqNum := a, sendBase := a), [])
    else if a > c.sendBase then
      SendData(Acknowledge(c, a))
    else
      TcpStep(c, [])
  }

  /** Replaying an ACK changes nothing, in every state: after it has been processed once,
      the second copy does not advance `send_base`. A replayed final handshake ACK finds
      the endpoint ESTABLISHED with `send_base` already equal to it. */
  lemma AckReplayIsNoOp(c: Conn, a: int)
    ensures HandleAck(HandleAck(c, a).next, a) == TcpStep(HandleAck(c, a).next, [])
  {
  }

  /** The retransmissions of the segments stored at `keys`, in that order. */
  function ResendSegments(c: Conn, keys: seq<int>): (out: seq<Segment>)
    requires forall i :: 0 <= i < |keys| ==> keys[i] in c.unacked
    ensures |out| == |keys|
    ensures forall i :: 0 <= i < |out| ==> && out[i].seqNum == keys[i]
                                           && out[i].payload == c.unacked[keys[i]]
                                           && out[i].ackNum == c.ackNum && out[i].flags == AckOnly
                                           && out[i].window == c.recvWindow
  {
    seq(|keys|, i requires 0 <= i < |keys| =>
          Segment(keys[i], c.ackNum, AckOnly, c.recvWindow, c.unacked[keys[i]]))
  }

  lemma SeqNumsOf(out: seq<Segment>, keys: seq<int>)
    requires |out| == |keys|
    requires forall i :: 0 <= i < |out| ==> out[i].seqNum == keys[i]
    ensures forall k :: k in SeqNums(out) <==> k in keys
  {
    forall k | k in keys
      ensures k in SeqNums(out)
    {
      var i :| 0 <= i < |keys| && keys[i] == k;
      assert out[i].seqNum == k;
    }
  }

  /** `_timeout_handler` for the timer of offset `s`: count one retransmission and resend
      every unacknowledged segment at or after `s`, in ascending order of offset, each
      with a fresh send time and timer. The timer that fired is spent: it stays live only
      if its own segment is among those resent. */
  function Timeout(c: Conn, s: int): (r: TcpStep)
    ensures r.next.retransmissions == c.retransmissions + 1
    ensures forall i, j :: 0 <= i < j < |r.out| ==> r.out[i].seqNum < r.out[j].seqNum
    ensures forall k :: k in SeqNums(r.out) <==> k in c.unacked && k >= s
    ensures forall i :: 0 <= i < |r.out| ==>
              && r.out[i].seqNum in c.unacked
              && r.out[i].payload == c.unacked[r.out[i].seqNum]
              && r.out[i].ackNum == c.ackNum && r.out[i].flags == AckOnly
              && r.out[i].window == c.recvWindow
    ensures r.next == c.(retransmissions := c.retransmissions + 1,
                         timers := (c.timers - {s}) + SeqNums(r.out),
                         sendTimes := c.sendTimes + SeqNums(r.out))
  {
    var pending := SortedKeys(set k | k in c.unacked && k >= s);
    assert forall i :: 0 <= i < |pending| ==> pending[i] in c.unacked by {
      forall i | 0 <= i < |pending|
        ensures pending[i] in c.unacked
      {
        assert pending[i] in pending;
      }
    }
    var out := ResendSegments(c, pending);
    SeqNumsOf(out, pending);
    TcpStep(c.(retransmissions := c.retransmissions + 1,
               timers := (c.timers - {s}) + SeqNums(out),
               sendTimes := c.sendTimes + SeqNums(out)),
            out)
  }
}
