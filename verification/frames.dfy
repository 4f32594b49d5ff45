/**
 * The frame vocabulary shared by the stop-and-wait and Go-Back-N endpoints.
 *
 * The byte layout and checksum of a frame are not modelled: an outgoing frame is a
 * `Frame`, and what a receiving endpoint reads back is a `Decoded` view carrying the
 * type field, the sequence field, the payload and whether the checksum matched.
 * A damaged frame may still show any type or sequence field, so handlers that look at
 * the type before the checksum are modelled exactly as they look.
 */
module Frames {
  import opened Common

  /** The type field of a frame; `Unknown` stands for a type byte that names none of the three. */
  datatype Kind = Data | Ack | Nak | Unknown

  /** A frame as an endpoint builds and sends it. */
  datatype Frame = Frame(kind: Kind, seqNum: int, payload: Bytes)

  /** A frame as the codec reports it on arrival: its fields and whether it passed the checksum. */
  datatype Decoded = Decoded(kind: Kind, seqNum: int, payload: Bytes, valid: bool)

  /** What the codec reports for a frame that crossed the channel undamaged. */
  function Intact(f: Frame): Decoded
  {
    Decoded(f.kind, f.seqNum, f.payload, true)
  }

  /** An acknowledgement or negative acknowledgement: a control frame with an empty payload. */
  function Control(kind: Kind, seqNum: int): Frame
  {
    Frame(kind, seqNum, [])
  }

  /** One step of a sending endpoint: its next state, the frames it put on the channel,
      and the boolean the source call returns at that point. */
  datatype Step<S> = Step(next: S, out: seq<Frame>, ok: bool)

  /** One step of a receiving endpoint: its next state, the frames it sent back,
      and the payload it delivered upward, if any. */
  datatype Rcv<S> = Rcv(next: S, out: seq<Frame>, delivered: Option<Bytes>)
}
