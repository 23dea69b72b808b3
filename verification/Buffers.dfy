/** The operations on byte arrays that the cipher, the hash and the counter mode share. */
module Buffers {
  import opened Bytes

  /** A zero-filled byte array. */
  method NewBuffer(n: nat) returns (a: array<Byte>)
    ensures fresh(a) && a.Length == n && a[..] == ZeroBytes(n)
  {
    a := new Byte[n](i => 0);
  }

  /** A fresh array with the bytes of another. */
  method CopyBuffer(src: array<Byte>) returns (a: array<Byte>)
    ensures fresh(a) && a[..] == src[..]
  {
    a := new Byte[src.Length](i requires 0 <= i < src.Length reads src => src[i]);
  }

  /** dst.set(src), for arrays of the same length. */
  method SetBytes(dst: array<Byte>, src: array<Byte>)
    requires dst.Length == src.Length
    modifies dst
    ensures dst[..] == old(src[..])
  {
    forall k | 0 <= k < src.Length {
      dst[k] := src[k];
    }
  }

  /** acc ^= block, in place. */
  method XorInto(acc: array<Byte>, block: array<Byte>)
    requires acc.Length == 16 && block.Length == 16 && acc != block
    modifies acc
    ensures acc[..] == Xor(old(acc[..]), block[..])
  {
    for i := 0 to 16
      invariant forall k | 0 <= k < i :: acc[k] == old(acc[k]) ^ block[k]
      invariant forall k | i <= k < 16 :: acc[k] == old(acc[k])
    {
      acc[i] := acc[i] ^ block[i];
    }
  }
}
