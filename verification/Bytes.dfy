/** Bytes, results and buffer fills shared by every layer of the stack. */
module Bytes {

  type byte = b: int | 0 <= b < 256
  type bytes = seq<byte>

  /** Std_ReturnType */
  datatype Result = Ok | NotOk

  datatype Option<+T> = None | Some(value: T)

  /** The low eight bits of a length or address, as a C cast to uint8 keeps them. */
  function Low8(n: nat): byte {
    n % 256
  }

  function Fill(n: nat, b: byte): (s: bytes)
    ensures |s| == n && forall i :: 0 <= i < n ==> s[i] == b
  {
    seq(n, _ => b)
  }

  /** Reading past the received length yields an unspecified byte in the source; the model fixes it to zero. */
  function At(s: bytes, i: nat): byte {
    if i < |s| then s[i] else 0
  }

  function Min(a: int, b: int): int {
    if a <= b then a else b
  }

  /** A decrement of an unsigned 32-bit counter. */
  function Dec32(n: nat): nat {
    if n == 0 then 0xFFFF_FFFF else n - 1
  }
}
