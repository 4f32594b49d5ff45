/** Shared value types: bytes and the optional / fallible wrappers the endpoints return. */
module Common {

  /** One octet of a payload. */
  type Byte = b: int | 0 <= b < 256

  /** A payload: the bytes handed to or delivered by a protocol endpoint. */
  type Bytes = seq<Byte>

  /** A value that may be absent, such as a stored packet that has been cleared. */
  datatype Option<+T> = None | Some(value: T)

  /** The outcome of a socket call that raises on misuse: `Err` carries the message raised. */
  datatype Result<+T> = Ok(value: T) | Err(reason: string)
}
