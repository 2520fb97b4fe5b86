/** Copying a Node buffer into a fresh ArrayBuffer, byte by byte. */
module Buffers {
  import opened Js

  /** A new, zero-filled buffer of the input's length, into which every byte
      of the input is copied in order; the input is left as it was. */
  method ToArrayBuffer(buffer: array<byte>) returns (arrayBuffer: array<byte>)
    ensures fresh(arrayBuffer)
    ensures arrayBuffer.Length == buffer.Length
    ensures arrayBuffer[..] == buffer[..]
  {
    arrayBuffer := new byte[buffer.Length](_ => 0);
    var i := 0;
    while i < buffer.Length
      invariant 0 <= i <= buffer.Length
      invariant arrayBuffer[..i] == buffer[..i]
      invariant forall j :: i <= j < arrayBuffer.Length ==> arrayBuffer[j] == 0
    {
      arrayBuffer[i] := buffer[i];
      i := i + 1;
    }
  }
}
