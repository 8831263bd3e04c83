/** Types shared by every model of the transport layer. */
module Basics {

  newtype byte = x: int | 0 <= x < 256

  datatype Option<+T> = None | Some(value: T)

  /** The thirteen status codes of the public API. */
  datatype Status =
    | Ok
    | InvalidArgument
    | NotOpen
    | AlreadyOpen
    | OpenFailed
    | ReadFailed
    | WriteFailed
    | Timeout
    | ConnectionClosed
    | WouldBlock
    | OutputBufferTooSmall
    | UnsupportedFeature
    | InternalError

  /** The largest value of the 32-bit `int` that several sizes are cast to. */
  const INT_MAX: int := 0x7FFF_FFFF

  function Min(a: nat, b: nat): nat {
    if a <= b then a else b
  }

  /** A caller-owned input: a null pointer with a claimed size, or the bytes. */
  datatype Input = Null(size: nat) | Bytes(data: seq<byte>)
  {
    /** `input == 0 && inputSize != 0`, which every write rejects. */
    predicate Invalid() {
      Null? && size != 0
    }

    /** What a valid input holds; a null pointer of size zero holds nothing. */
    function Data(): seq<byte> {
      if Null? then [] else data
    }
  }
}
