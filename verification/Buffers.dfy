/** Caller-owned output buffers. */
module Buffers {
  import opened Basics

  /** Writes the bytes to the front of the caller's buffer and nothing else. */
  method CopyOut(output: array?<byte>, bytes: seq<byte>)
    requires bytes != [] ==> output != null && |bytes| <= output.Length
    modifies output
    ensures bytes != [] ==> output[..|bytes|] == bytes
    ensures output != null ==> forall i :: |bytes| <= i < output.Length ==> output[i] == old(output[i])
  {
    if bytes != [] {
      forall i | 0 <= i < |bytes| {
        output[i] := bytes[i];
      }
    }
  }
}
