/** Bytes, and the few sequence operations every file format here shares. */
module Bytes {
  type byte = x: nat | x < 256

  function Min(a: nat, b: nat): nat {
    if a < b then a else b
  }

  function Zeros(n: nat): (z: seq<byte>)
    ensures |z| == n
  {
    seq(n, _ => 0)
  }

  /** The file cut or zero-extended to `size`. */
  function Resize(file: seq<byte>, size: nat): (r: seq<byte>)
    ensures |r| == size
  {
    if size <= |file| then file[..size] else file + Zeros(size - |file|)
  }
}
