# Reliable data transfer protocols, modelled in Dafny

This project models the protocol state machines of a teaching repository that builds
reliable transport over UDP in three phases:

- **rdt2.0** (`fase1/rdt20.py`): stop-and-wait over a channel with bit errors. There are
  ACK and NAK replies and no sequence number.
- **rdt2.1** (`fase1/rdt21.py`): adds a one-bit sequence number, so the receiver can
  recognise a duplicate DATA frame.
- **rdt3.0** (`fase1/rdt30.py`): the alternating-bit protocol with a retransmission
  timer and no NAK.
- **Go-Back-N** (`fase2/gbn.py`): a sender with a sliding window of `N` buffered frames
  and one timer, and a cumulative-ACK receiver that accepts only in-order frames.
- **Simplified TCP** (`fase3/tcp_socket.py`):
  - connection set-up with a three-way handshake and shutdown with FIN;
  - byte-stream segmentation bounded by the peer's advertised window and by a
    1024-byte maximum segment size;
  - cumulative ACKs;
  - go-back-N style retransmission from the expired offset;
  - in-order acceptance with re-ACK on the receiving side;
  - draining of the receive buffer by `recv`.

Every handler is a pure function from a state and an input to the next state, plus the
frames or segments it puts on the wire (`Frames.Step`, `Frames.Rcv`, `TcpCore.TcpStep`).
Blocking calls are split at the point where they wait:

- `rdt_send` of rdt2.x/3.0 becomes `Send` plus one event per reply, socket timeout or
  timer expiry that the wait loop handles. The `ok` flag of the step that completes
  the round is the `True` the call returns.
- `connect` and `close` become the part before the wait and the part after it.

Runs of events are folded by `Run` functions. Lemmas about those runs state the
invariants that hold across any interleaving of sends, replies, losses, damage and
timeouts.

The frame codec is abstracted. An arriving frame is seen as it is decoded:

- its type, its sequence field and its payload;
- whether its checksum matched (`Frames.Decoded`).

`Frames.Intact` is the decoding of an undamaged frame. Sequence numbers and offsets
are unbounded integers.

Modules: `Common`, `Frames`, `IntPick`, `IntSets` (helpers); `Rdt20`, `AltBit` (the
part rdt2.1 and rdt3.0 share), `Rdt21`, `Rdt30`, `Gbn`; `TcpCore`, `TcpSend`,
`TcpRecv`, `TcpConn`.

Where the code and its own documentation differ, the model follows the code:

- The rdt2.1 sender completes a round on any valid ACK. Its docstrings promise to
  resend on an ACK for the wrong sequence number, but that branch cannot be reached
  (see Findings).
- The GBN sender sets `base = acknum + 1` for every valid ACK, so `base` can move
  backward (see Findings).
- The GBN receiver starts with a stored ACK numbered 0. The code shifted the textbook's
  numbering to start at 0, so that ACK now means "packet 0 received" (see Findings).
- rdt3.0 adds the length of every `rdt_send` call to `bytes_sent`, including calls it
  refuses.
- TCP:
  - `recv_window` stays at its initial 4096 whatever the receive buffer holds, so the
    advertised window never shrinks.
  - FIN_WAIT_2, CLOSING and TIME_WAIT are declared but never entered. A FIN that
    arrives in FIN_WAIT_1 is ignored, and `close` ends in CLOSED after its waits
    whatever happened.
  - After the handshake the client's `send_base` stays at its initial sequence number
    while `seq_num` is one past it. The server's `send_base` keeps the constructor's
    random value until the final handshake ACK sets it.
  - An empty chunk in the TCP send buffer yields an empty segment.

## Model

| member | source | states |
|---|---|---|
| `Rdt20.Send` | fase1/rdt20.py:177-199 | a call is accepted exactly in "wait for call from above"; a refused call changes nothing; an accepted one stores and emits one DATA frame and moves to "wait for ACK or NAK" |
| `Rdt20.OnReply` | fase1/rdt20.py:210-245 | a NAK (whatever its checksum) or a damaged reply resends the stored frame and counts it; the round completes exactly on an undamaged ACK; any other undamaged reply changes nothing |
| `Rdt20.OnTimeout` | fase1/rdt20.py:247-254 | a socket timeout while waiting resends the stored frame and counts one retransmission |
| `Rdt20.RunAccounting` | fase1/rdt20.py:162-259 | over any run: the sender keeps exactly one stored DATA frame while waiting; every frame sent is a first transmission or a counted retransmission; accepted calls and completed rounds alternate |
| `Rdt20.DeliverData` | fase1/rdt20.py:347-355 | delivery appends the payload, and `received_count` stays equal to the number of messages |
| `Rdt20.Receive` | fase1/rdt20.py:406-443 | a damaged frame is counted and answered with a NAK; an undamaged DATA frame is delivered and ACKed; an undamaged non-DATA frame is ignored |
| `Rdt20.DeliversRepeats` | fase1/rdt20.py:423-441 | the receiver keeps no sequence state: the same DATA frame arriving twice is delivered twice |
| `Rdt20.DamagedAckDuplicatesDelivery` | fase1/rdt20.py:227-235 | end to end: a damaged ACK makes the sender resend, and the receiver delivers the same message a second time |
| `AltBit.Receive` | fase1/rdt21.py:303-377 | the shared rdt2.1/rdt3.0 receiver. A non-DATA frame is ignored before the checksum is read. An undamaged frame carrying the awaited bit is delivered and ACKed, and the awaited bit flips. An undamaged frame carrying the other bit is re-ACKed without delivery; it is counted as a duplicate only while awaiting bit 1. An undamaged frame whose sequence field is neither 0 nor 1 changes nothing and draws no reply. A damaged frame is counted and answered with a NAK (rdt2.1) or an ACK of the other bit (rdt3.0) |
| `AltBit.ReceiverRunAlternates` | fase1/rdt21.py:307-375 | over any arrivals, however damaged, repeated or reordered: exactly the delivered payloads are appended, and the delivered frames carry alternating bits starting with the awaited one |
| `AltBit.DeliverData` | fase1/rdt21.py:283-286 | delivery appends the payload, keeps the count equal to the number of messages, and keeps the awaited bit equal to the parity of that number |
| `Rdt21.Send` | fase1/rdt21.py:108-130 | in "wait for call b" the call sends DATA b and moves to "wait for ACK or NAK b"; in the waiting states it is refused and changes nothing |
| `Rdt21.OnReply` | fase1/rdt21.py:138-174 | as written: a damaged reply or a NAK resends; any valid ACK completes the round and flips the bit, whatever the ACK's sequence field |
| `Rdt21.OnReplyChecked` | fase1/rdt21.py:153-174 | corrected: the round completes only on an ACK carrying the awaited bit; an ACK for the other bit resends, as the duplicate-ACK branch intends |
| `Rdt21.RepliesDifferOnlyOnStaleAck` | fase1/rdt21.py:154-174 | the two wait loops differ exactly on a valid ACK for the bit not awaited |
| `Rdt21.OnTimeout` | fase1/rdt21.py:176-180 | a socket timeout while waiting resends the stored frame and counts it |
| `Rdt21.RunAccounting` | fase1/rdt21.py:97-185 | over any run, with either wait loop: every frame sent is DATA with a 0/1 sequence field and is a first transmission or a counted retransmission; calls and completed rounds alternate |
| `Rdt21.RunFlipsBit` | fase1/rdt21.py:154-167 | over any run the sender's bit has flipped once per completed round |
| `Rdt21.Receive` | fase1/rdt21.py:303-377 | a damaged DATA frame is answered with a NAK; exactly an undamaged DATA frame with the awaited bit is delivered; an undamaged duplicate carrying the other bit is re-ACKed with that bit; only ACKs and NAKs are sent |
| `Rdt21.DamagedAckDoesNotDuplicate` | fase1/rdt21.py:353-362 | the weakness of rdt2.0 is gone: after a damaged ACK the resent DATA 0 is recognised as a duplicate, re-ACKed and not delivered again, and that ACK completes the round |
| `Rdt21.StaleAckLosesMessage` | fase1/rdt21.py:154-168 | a concrete run in which the as-written loop completes the round of DATA 1 on a stale ACK 0 and the message is never delivered, while the corrected loop resends DATA 1 |
| `Rdt30.Send` | fase1/rdt30.py:144-175 | `bytes_sent` grows by the call's length even when the call is refused; an accepted call sends DATA b, stores it, starts the timer and waits for ACK b |
| `Rdt30.OnReply` | fase1/rdt30.py:186-213 | nothing is ever sent from the wait loop; the round completes, the bit flips and the timer stops exactly on an undamaged ACK with the awaited bit; anything else changes nothing |
| `Rdt30.OnTimer` | fase1/rdt30.py:91-104 | an expiry of the running timer resends the stored frame, counts it and restarts the timer; with no timer running nothing happens |
| `Rdt30.RunAccounting` | fase1/rdt30.py:136-224 | over any run: the timer runs exactly while a frame is outstanding; every frame sent is a first transmission or a counted retransmission; `bytes_sent` grows by the bytes of every call, accepted or not |
| `Rdt30.RunFlipsBit` | fase1/rdt30.py:200-213 | over any run the sender's bit has flipped once per completed round |
| `Rdt30.Receive` | fase1/rdt30.py:333-415 | no NAK is ever sent: every reply is the ACK of the bit before the awaited one after the step, including the reply to a damaged frame; an undamaged duplicate carrying the other bit is re-ACKed with that bit and not delivered |
| `Rdt30.LostDataRecovered` | fase1/rdt30.py:91-104 | a lost DATA 0 is resent by the timer, delivered once, and its ACK completes the round |
| `Rdt30.PrematureTimeoutHarmless` | fase1/rdt30.py:193-197 | after a premature timeout the duplicate DATA 0 is not delivered again, and the stale ACK 0 is discarded while DATA 1 is outstanding |
| `Gbn.InitialWindow` | fase2/gbn.py:74-79 | the initial sender satisfies the window invariant: `base <= nextseqnum <= base + N`, the buffer holds exactly the frames in `[base, nextseqnum)`, and the timer runs exactly while that range is not empty |
| `Gbn.Send` | fase2/gbn.py:196-223 | a call is accepted exactly while `nextseqnum < base + N`; it buffers and sends the DATA frame numbered `nextseqnum`, starts the timer exactly when the window was empty, leaves `N` alone, and preserves the window invariant |
| `Gbn.WindowFrames` | fase2/gbn.py:239-241 | the frames resent are the buffered ones numbered `base` up to `nextseqnum - 1`, in that order, skipping none when all are buffered |
| `Gbn.OnTimer` | fase2/gbn.py:225-246 | a timeout resends every buffered frame of the window, counts each one as a retransmission and keeps the timer running |
| `Gbn.OnAck` | fase2/gbn.py:278-296 | as written: `base` becomes the ACK number plus one, frames below it are dropped, and the timer stops exactly when `base` reaches `nextseqnum`; the invariant survives only when `base <= a + 1 <= nextseqnum` |
| `Gbn.OnAckChecked` | fase2/gbn.py:278-296 | corrected: only an ACK inside `[base, nextseqnum)` acts, `base` never decreases, and the window invariant is preserved |
| `Gbn.StaleAckBreaksWindow` | fase2/gbn.py:280-289 | as written, a valid ACK older than `base - 1` moves `base` backward and breaks the window invariant |
| `Gbn.StaleAckOverfillsWindow` | fase2/gbn.py:280-282 | a concrete case: with N = 4 and frames 3..6 outstanding, a delayed ACK 0 leaves `nextseqnum` above `base + N` |
| `Gbn.OnReply` | fase2/gbn.py:262-296 | the ACK loop never sends. A non-ACK frame is skipped before the checksum is read, and a damaged ACK is discarded. With the corrected handling the window invariant holds and `base` never decreases |
| `Gbn.CheckedRunKeepsWindow` | fase2/gbn.py:175-296 | over any run with corrected ACK handling: the window invariant holds; `base` and `nextseqnum` never decrease; every frame sent is a first transmission or a counted retransmission |
| `Gbn.EvictedNeverResent` | fase2/gbn.py:239-242 | once a frame has been dropped from the buffer, no later step sends a frame with its number again |
| `Gbn.InitialReceivers` | fase2/gbn.py:377-380 | the initial receiver as written stores an ACK for a packet it has not received; the corrected one stores none |
| `Gbn.Receive` | fase2/gbn.py:488-523 | exactly an undamaged DATA frame with the expected number is delivered, ACKed and advances the expected number; any other DATA frame changes no delivery state and resends the stored ACK; non-DATA frames are ignored |
| `Gbn.ReceiverRunInOrder` | fase2/gbn.py:494-510 | over any arrivals, delivery is strictly in sequence order with no gap and no repeat; from an honest stored ACK, every ACK sent acknowledges a delivered packet |
| `Gbn.StuckWithoutExpected` | fase2/gbn.py:512-523 | without an undamaged frame carrying the expected number, nothing is delivered and the expected number stays put |
| `Gbn.LostFirstFrameStallsForever` | fase2/gbn.py:380 | as written, losing DATA 0 makes the stored ACK 0 evict frame 0 at the sender, after which the receiver delivers nothing for the rest of any run |
| `Gbn.LostFirstFrameRecovered` | fase2/gbn.py:377-380 | with the corrected initial receiver the same loss draws no ACK, and the timer resends frames 0 and 1, which are delivered in order |
| `TcpCore.NewConn` | fase3/tcp_socket.py:60-75 | a fresh endpoint is CLOSED with `seq_num = send_base = ISN`, `ack_num = 0`, both windows 4096 and empty buffers and tables |
| `TcpSend.Segmentize` | fase3/tcp_socket.py:246-283 | segmentation conserves the buffered bytes in order, cuts no piece above 1024 bytes, takes no more than the available window, and stops early only when the buffer is empty |
| `TcpSend.SegmentizeHead` | fase3/tcp_socket.py:247-250 | with data buffered and window available, the first piece is the head chunk cut to the smallest of its length, 1024 bytes and the window left |
| `TcpSend.Transmit` | fase3/tcp_socket.py:253-280 | the segments sent are consecutive from `seq_num` and carry the pieces in order; each is recorded as unacknowledged with a send time and a timer; `seq_num` advances by the bytes sent; older entries keep their values; every non-empty segment sent is stored under its offset with exactly the bytes it carried |
| `TcpSend.RecordLastWins` | fase3/tcp_socket.py:268-275 | after recording a run of segments, the payload stored at an offset is that of the last segment sent there |
| `TcpSend.SendData` | fase3/tcp_socket.py:242-283 | the bytes sent plus the bytes left equal the send buffer; no more than `send_window - (seq_num - send_base)` bytes go out; data is left only when the window is used up; outstanding bytes stay within the window; every non-empty segment sent is stored under its offset with exactly the bytes it carried, which is what a timeout resends |
| `TcpSend.Acknowledge` | fase3/tcp_socket.py:424-458 | an advancing ACK `a` sets `send_base = a`, drops the send times and timers below `a`, and drops exactly the segments that end at or before `a` |
| `TcpSend.HandleAck` | fase3/tcp_socket.py:412-464 | in SYN_RCVD an ACK of at least ISN + 1 completes the handshake. Otherwise an ACK at or below `send_base` changes nothing. An advancing ACK moves `send_base` forward, drops fully covered segments and sends more of the buffer within the new window |
| `TcpSend.AckReplayIsNoOp` | fase3/tcp_socket.py:412-464 | in every state, processing the same ACK a second time changes nothing and sends nothing; a replayed final handshake ACK is absorbed because `send_base` already equals it |
| `TcpSend.Timeout` | fase3/tcp_socket.py:601-633 | a timeout for offset `s` counts one retransmission and resends, in ascending offset order, exactly the unacknowledged segments at or after `s`, each with its stored payload and a fresh timer; the timer of `s` stays live only if its own segment was resent |
| `TcpRecv.HandleData` | fase3/tcp_socket.py:466-499 | data at the expected offset is appended and advances `ack_num` by its length; other data is dropped; either way one ACK carrying the current `ack_num` is sent; the stream position of the unread bytes is unchanged |
| `TcpRecv.ArrivalsOnlyExtend` | fase3/tcp_socket.py:468-472 | whatever order data arrives in, the receive buffer only grows at its end, by exactly as many bytes as `ack_num` advances |
| `TcpRecv.ConsecutiveArrivalsAccepted` | fase3/tcp_socket.py:466-499 | segments that arrive in order from the expected offset are all accepted, and the buffer gains exactly their payloads |
| `TcpRecv.Drain` | fase3/tcp_socket.py:303-314 | the bytes taken plus the bytes left equal the buffer, and exactly `min(buffer_size, available)` bytes are taken |
| `TcpRecv.Recv` | fase3/tcp_socket.py:285-320 | outside ESTABLISHED and CLOSE_WAIT nothing is returned. Otherwise the result is a prefix of the buffered stream of at most `buffer_size` bytes, as long as possible. `bytes_received` counts it |
| `TcpConn.Connect` | fase3/tcp_socket.py:131-155 | accepted exactly in CLOSED: moves to SYN_SENT and sends a SYN carrying the ISN and the advertised window |
| `TcpConn.ConnectSettle` | fase3/tcp_socket.py:157-166 | after the wait, `connect` succeeds exactly in ESTABLISHED; a wait that expired in SYN_SENT falls back to CLOSED |
| `TcpConn.Listen` | fase3/tcp_socket.py:177-180 | accepted exactly in CLOSED, moving to LISTEN |
| `TcpConn.Send` | fase3/tcp_socket.py:213-240 | accepted exactly in ESTABLISHED; the chunk is appended to the stream, counted in `bytes_sent` in full and reported in full, and the segments sent continue the stream at `seq_num` |
| `TcpConn.HandleSyn` | fase3/tcp_socket.py:368-410 | in LISTEN any SYN is answered with a SYN-ACK from a fresh ISN and moves to SYN_RCVD; in SYN_SENT any SYN (the ACK flag and ACK number unchecked) is ACKed and moves to ESTABLISHED; elsewhere it is ignored |
| `TcpConn.HandleFin` | fase3/tcp_socket.py:501-520 | only in ESTABLISHED is a FIN ACKed, moving to CLOSE_WAIT; in every other state, FIN_WAIT_1 included, it is ignored |
| `TcpConn.Dispatch` | fase3/tcp_socket.py:356-362 | SYN goes first, then FIN, then ACK. A SYN moves LISTEN to SYN_RCVD and SYN_SENT to ESTABLISHED and is answered there, and leaves `send_base` alone. A FIN without SYN moves ESTABLISHED to CLOSE_WAIT, is answered there, and leaves `send_base` alone. A plain ACK completes the handshake in SYN_RCVD; elsewhere it sets `send_base` to the larger of itself and the ACK number. A segment with none of the three changes nothing. `ack_num` moves only when a SYN or FIN is taken up, to one past the segment's offset. The receive side and the byte counters are never touched |
| `TcpConn.ProcessSegment` | fase3/tcp_socket.py:345-366 | the peer's window is adopted. The state follows the SYN, else FIN, else ACK priority, and a plain ACK outside SYN_RCVD sets `send_base` to the larger of itself and the ACK number. The receive buffer only grows at its end. A non-empty payload with the ACK flag is accepted exactly when its offset equals the `ack_num` left by the flag handling, so the payload of a SYN taken up in LISTEN or SYN_SENT is always dropped. `send_base` never decreases outside SYN_RCVD |
| `TcpConn.InOrderSegmentsAcked` | fase3/tcp_socket.py:345-366 | data segments arriving in order from the expected offset move `ack_num` past all of their bytes, whatever their ACK fields make the endpoint do |
| `TcpConn.InOrderSegmentsAccepted` | fase3/tcp_socket.py:345-366 | the same segments add exactly their payloads to the receive buffer, in order; empty payloads add nothing |
| `TcpConn.SendReachesPeer` | fase3/tcp_socket.py:213-283 | end to end: the segments one `send` emits, delivered in order to a peer expecting the sender's `seq_num`, continue the peer's stream exactly, and those bytes plus the ones left queued are the old queue followed by the chunk |
| `TcpConn.CloseBegin` | fase3/tcp_socket.py:522-573 | from ESTABLISHED a FIN-ACK moves to FIN_WAIT_1; from CLOSE_WAIT to LAST_ACK; any other state sends nothing |
| `TcpConn.CloseEnd` | fase3/tcp_socket.py:575-587 | after its waits `close` leaves the endpoint CLOSED with every timer cancelled |
| `TcpConn.Handle` | fase3/tcp_socket.py:582-599 | a timer expiry acts only for an offset whose timer is live, since timers are started per segment and cancelled by advancing ACKs and by `close`: it counts a retransmission exactly when the timer is live, and otherwise changes nothing and sends nothing |
| `TcpConn.RunAvoidsUnusedStates` | fase3/tcp_socket.py:345-589 | no run of API calls, arrivals and timer expiries enters FIN_WAIT_2, CLOSING or TIME_WAIT; `bytes_sent` counts exactly the bytes accepted by `send` |
| `TcpConn.Handshake` | fase3/tcp_socket.py:368-422 | for all ISNs the three-way handshake leaves both ends ESTABLISHED with matching sequence and acknowledgement numbers; the server's `send_base` is reset, and the client's stays one below its `seq_num` |

## Left out

- Sockets, the datagram channel and the unreliable-channel simulator: frames and
  segments are handed over as values. Loss, duplication and reordering are the
  choice of which events a run contains.
- The packet and segment codecs, including checksums and byte layouts, are abstracted.
  `utils/packet.py` and the TCP segment codec are not part of this model.
- Threads, locks and `sleep` are not modelled. Each handler is one atomic step, and
  what a concurrent thread does during a wait is a separate event in the run.
- Wall-clock timeouts are events: the 10-second limit of `connect`, the waits of
  `accept` and `close`, and the 5-second limit of `recv`. `recv` returns empty-handed
  when its buffer is empty, as it does once the wait expires.
- `accept`: it only waits for the state to change and raises otherwise; the state
  change itself is in `HandleSyn` and `HandleAck`.
- The RTT estimator (`_update_rtt`, `_calculate_timeout`) and the timeout values are
  floating point and clock readings. Timers and send times appear only as the sets of
  offsets they are kept for.
- The random initial sequence numbers are parameters (`isn`).
- Converting `str` to UTF-8 bytes is left out: payloads are byte sequences.
- Sequence numbers and offsets are unbounded integers, because the source never wraps
  them. The TCP header field is 32 bits wide, but that field belongs to the codec. The
  rdt/GBN frames carry a sequence field of at most one byte, so a GBN run that numbers
  frames past 255 behaves as the unmodelled codec makes it behave. The model
  follows the handlers, whose counters never wrap.
- Peer address bookkeeping, ports, logging, statistics reports (`get_stats`, rates,
  timestamps) and the `str`/`repr` helpers are left out.
- Exception paths (`except Exception`) that log and return are left out.
- The receiver-side socket timeouts of rdt2.0 and rdt2.1 change nothing and have no
  event. So does the rdt3.0 wait loop's socket timeout, which only continues.
- `TcpConn.ConnectSettle`: the connect wait loop is collapsed into its outcome. The
  model does not say how long the wait lasts or which segments arrive during it.
- `TcpSend.HandleAck`: the RTT sample taken from `send_times` is not stated, only the
  removal of send times below the ACK.
- Runs of TCP events may contain events the program cannot produce: an arrival or a
  timer expiry in CLOSED before `connect` or `listen` has started the receive thread,
  and the end of the `close` wait without a preceding `close`. The run lemmas hold for
  this larger set, so they hold for the program's runs too.
- A timer that fires while an ACK or `close` is cancelling it, a race between threads,
  is not modelled: a cancelled timer never fires.
- `TcpConn.CloseEnd`: closing the UDP socket and stopping the receive thread are not
  modelled.

## Findings

| source | as written | input that shows it | evidently intended | confidence | as-written member | corrected member |
|---|---|---|---|---|---|---|
| fase2/gbn.py:380 | the receiver starts with a stored ACK numbered 0, which after the shift to 0-based numbering means "packet 0 received" | DATA 0 is lost and DATA 1 arrives: the receiver resends ACK 0, the sender sets `base = 1` and drops frame 0, and DATA 0 is never sent again | store no ACK (or one numbered -1) until the first delivery | not executed | `Gbn.LostFirstFrameStallsForever` | `Gbn.LostFirstFrameRecovered` |
| fase2/gbn.py:280-282 | every valid ACK sets `base = acknum + 1`, with no check against the current `base` | N = 4, frames 3..6 outstanding after ACK 2, then a delayed ACK 0: `base` becomes 1 and `nextseqnum = 7 > base + N` | act only on an ACK in `[base, nextseqnum)` | not executed | `Gbn.StaleAckBreaksWindow` | `Gbn.CheckedRunKeepsWindow` |
| fase1/rdt21.py:154-174 | the completion test compares `expected_seq` with the state, which always agree, never with the ACK's own sequence field; the duplicate-ACK branch is dead | DATA 0 is delivered, a socket timeout resends it, and the duplicate ACK 0 is still in flight when DATA 1 arrives damaged: that ACK 0 completes the round of DATA 1, which is never delivered | complete only when the ACK's sequence field equals `expected_seq`, and resend otherwise | not executed | `Rdt21.StaleAckLosesMessage` | `Rdt21.OnReplyChecked` |
