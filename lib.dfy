/** The crate's error and result types. */
module Lib {

  /** An error from the I/O layer, forwarded without interpretation. */
  datatype IoError = IoError(message: string)

  /** What MessagePack decoding can report: the reader failed while a value
      was being read, or the bytes read do not form a document of the
      expected shape. */
  datatype DecodeError =
    | ReadFailed(cause: IoError)
    | Malformed(message: string)

  /** The crate's `Error`: exactly two kinds, each forwarding its cause. */
  datatype Error =
    | IO(io: IoError)
    | RmpDeserialize(decode: DecodeError)

  /** The crate's `Result<T>`: a complete value or an error, nothing between. */
  datatype Result<T> = Ok(value: T) | Err(error: Error)

  /** What the MessagePack decoder returns: a whole value or its own error. */
  datatype DecodeResult<T> = Decoded(value: T) | DecodeFailed(failure: DecodeError)

  /** `From<io::Error> for Error`. */
  function FromIo(e: IoError): (r: Error)
    ensures r.IO? && r.io == e
  {
    IO(e)
  }

  /** `From<rmp_serde::decode::Error> for Error`, the conversion that `?`
      applies to a decoder failure. */
  function FromDecode(e: DecodeError): (r: Error)
    ensures r.RmpDeserialize? && r.decode == e
  {
    RmpDeserialize(e)
  }

  /** The two conversions never produce the same error. */
  lemma ConversionsDisjoint(io: IoError, d: DecodeError)
    ensures FromIo(io) != FromDecode(d)
  {
  }
}
