/** Bytes as numbers. */
module Bytes {
  type Byte = n: nat | n < 256

  function Min(a: int, b: int): int { if a < b then a else b }

  function Joined(chunks: seq<seq<Byte>>): seq<Byte> { if chunks == [] then [] else chunks[0] + Joined(chunks[1..]) }
}
