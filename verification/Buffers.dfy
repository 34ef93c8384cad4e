/** Filling part of a buffer. */
module Buffers {
  /** memcpy into part of a buffer. */
  method Copy<T>(buffer: array<T>, at: nat, source: seq<T>)
    requires at + |source| <= buffer.Length
    modifies buffer
    ensures buffer[..] == old(buffer[..at]) + source + old(buffer[at + |source|..])
  {
    forall i | 0 <= i < |source| {
      buffer[at + i] := source[i];
    }
  }
}
