/**
 The counter mode and the public encryption and decryption of app-mobile/services/aesGcm.ts, on byte
 arrays, proved against `GcmSpec`. A method returns the failure where the program throws.
 */
module Gcm {
  import opened Wrappers
  import opened Bytes
  import opened ByteNumbers
  import opened Buffers
  import opened GhashSpec
  import opened AesSpec
  import opened GcmSpec
  import Aes256
  import Ghash

  // ----- inc32

  /** The carry loop on a value: the last byte that does not wrap stops it. */
  function Carry(s: Bytes): (r: Bytes)
    ensures |r| == |s|
  {
    if s == [] then []
    else if s[|s| - 1] + 1 != 0 then s[..|s| - 1] + [s[|s| - 1] + 1]
    else Carry(s[..|s| - 1]) + [0]
  }

  lemma {:induction false} BigEndianOfValue(s: Bytes)
    ensures BigEndian(BeValue(s), |s|) == s
    decreases |s|
  {
    hide LowByte;
    if s != [] {
      var low := s[|s| - 1];
      BigEndianOfValue(s[..|s| - 1]);
      LowDigit(BeValue(s[..|s| - 1]), low);
    }
  }

  /** The carry loop adds 1 to the big-endian value, modulo 256^n. */
  lemma {:induction false} CarryIsSuccessor(s: Bytes)
    ensures Carry(s) == BigEndian(BeValue(s) + 1, |s|)
    decreases |s|
  {
    hide LowByte;
    if s != [] {
      var high, low := s[..|s| - 1], s[|s| - 1];
      NextDigit(BeValue(high), low);
      if low + 1 != 0 {
        BigEndianOfValue(high);
      } else {
        CarryIsSuccessor(high);
      }
    }
  }

  method Inc32InPlace(counter: array<Byte>)
    requires counter.Length == 16
    modifies counter
    ensures counter[..] == Inc32(old(counter[..]))
  {
    hide BigEndian, BeValue, Carry, ZeroBytes;
    ghost var c0: Block := counter[..];
    CarryIsSuccessor(c0[12..]);
    ghost var sum := Carry(c0[12..]);
    assert c0[12..16] == c0[12..];
    var i := 15;
    while i >= 12
      invariant 11 <= i <= 15
      invariant counter[..] == c0[..i + 1] + ZeroBytes(15 - i)
      invariant sum == Carry(c0[12..i + 1]) + ZeroBytes(15 - i)
    {
      CarryStep(c0, i, sum);
      counter[i] := counter[i] + 1;
      if counter[i] != 0 {
        break;
      }
      i := i - 1;
    }
    assert c0[12..12] == [];
  }

  /** What remains to be carried into byte i. */
  lemma CarryStep(c: Block, i: nat, sum: Bytes)
    requires 12 <= i < 16 && sum == Carry(c[12..i + 1]) + ZeroBytes(15 - i)
    ensures c[i] + 1 != 0 ==> c[..12] + sum == (c[..i + 1] + ZeroBytes(15 - i))[i := c[i] + 1]
    ensures c[i] + 1 == 0 ==> sum == Carry(c[12..i]) + ZeroBytes(16 - i)
    ensures c[i] + 1 == 0 ==> (c[..i + 1] + ZeroBytes(15 - i))[i := 0] == c[..i] + ZeroBytes(16 - i)
  {
    var s := c[12..i + 1];
    assert s[|s| - 1] == c[i] && s[..|s| - 1] == c[12..i];
    assert ZeroBytes(16 - i) == [0] + ZeroBytes(15 - i);
  }

  // ----- counter mode

  /** One block of output: data xor keystream, for the bytes that are there. */
  method XorBlock(out: array<Byte>, data: array<Byte>, keystream: array<Byte>, off: nat, n: nat)
    requires out != data && out != keystream && keystream.Length == 16
    requires n <= 16 && off + n <= out.Length == data.Length
    modifies out
    ensures forall k | off <= k < off + n :: out[k] == data[k] ^ keystream[k - off]
    ensures out[..off] == old(out[..off])
  {
    ghost var before := out[..];
    for i := 0 to n
      invariant forall k | off <= k < off + i :: out[k] == data[k] ^ keystream[k - off]
      invariant forall k | 0 <= k < off :: out[k] == before[k]
    {
      out[off + i] := data[off + i] ^ keystream[i];
    }
    assert out[..off] == before[..off];
  }

  method GctrArray(aes: Aes256.Aes256, icb: array<Byte>, data: array<Byte>) returns (out: array<Byte>)
    requires aes.Valid() && icb.Length == 16
    ensures fresh(out) && out[..] == Gctr(aes.key, icb[..], data[..])
  {
    hide Cipher, Aes256.Expanded, Gctr, Inc32;
    out := NewBuffer(data.Length);
    var counter := CopyBuffer(icb);
    var keystream := NewBuffer(16);
    ghost var stream := Gctr(aes.key, icb[..], data[..]);
    var off := 0;
    while off < data.Length
      invariant off % 16 == 0 && off < data.Length + 16
      invariant fresh(out) && out.Length == data.Length && out != keystream
      invariant fresh(counter) && counter != keystream && counter != out
      invariant counter[..] == CounterBlock(icb[..], off / 16)
      invariant var m := if off < data.Length then off else data.Length; out[..m] == stream[..m]
    {
      var _ := aes.EncryptBlock(counter, keystream);
      var n := if data.Length - off < 16 then data.Length - off else 16;
      XorBlock(out, data, keystream, off, n);
      GctrPrefix(aes.key, icb[..], data[..], out[..], keystream[..], off, n);
      Inc32InPlace(counter);
      off := off + 16;
    }
    assert out[..data.Length] == out[..];
    assert stream[..data.Length] == stream;
  }

  /** One more block of output, given the blocks before it. */
  lemma GctrPrefix(key: Key, icb: Block, data: Bytes, out: Bytes, block: Block, off: nat, n: nat)
    requires off % 16 == 0 && n <= 16 && off + n <= |data| == |out|
    ensures
      && block == Cipher(key, CounterBlock(icb, off / 16))
      && out[..off] == Gctr(key, icb, data)[..off]
      && (forall k | off <= k < off + n :: out[k] == data[k] ^ block[k - off])
      ==> out[..off + n] == Gctr(key, icb, data)[..off + n]
  {
    hide Cipher, CounterBlock;
    var stream := Gctr(key, icb, data);
    if block == Cipher(key, CounterBlock(icb, off / 16)) && out[..off] == stream[..off]
       && forall k | off <= k < off + n :: out[k] == data[k] ^ block[k - off] {
      forall k | 0 <= k < off + n
        ensures out[k] == stream[k]
      {
        if k < off {
          assert out[..off][k] == stream[..off][k];
        } else {
          assert k / 16 == off / 16 && k % 16 == k - off;
        }
      }
    }
  }

  method J0FromIv12(iv: array<Byte>) returns (j0: array<Byte>)
    requires iv.Length == 12
    ensures fresh(j0) && j0[..] == J0(iv[..])
  {
    j0 := NewBuffer(16);
    for i := 0 to 12
      invariant fresh(j0) && j0.Length == 16
      invariant forall k | 0 <= k < i :: j0[k] == iv[k]
      invariant forall k | i <= k < 16 :: j0[k] == 0
    {
      j0[i] := iv[i];
    }
    j0[15] := 1;
  }

  /** H = CIPH_K(0^128) */
  method HashKeyOf(aes: Aes256.Aes256) returns (h: array<Byte>)
    requires aes.Valid()
    ensures fresh(h) && h[..] == HashKey(aes.key)
  {
    hide Cipher, Aes256.Expanded;
    h := NewBuffer(16);
    var zero := NewBuffer(16);
    var _ := aes.EncryptBlock(zero, h);
  }

  lemma OneBlockGctr(key: Key, icb: Block, s: Block)
    ensures Gctr(key, icb, s) == Xor(s, Cipher(key, icb))
  {
    hide Cipher;
    assert CounterBlock(icb, 0) == icb;
  }

  /** GHASH of the data and the ciphertext, masked with the cipher of J0. */
  method ComputeTag(aes: Aes256.Aes256, j0: array<Byte>, iv: array<Byte>, aad: array<Byte>, ciphertext: array<Byte>)
    returns (s: array<Byte>)
    requires aes.Valid() && iv.Length == 12 && j0[..] == J0(iv[..]) && j0.Length == 16
    ensures fresh(s) && s.Length == 16 && s[..] == Tag(aes.key, iv[..], aad[..], ciphertext[..])
  {
    hide Cipher, Aes256.Expanded, GhashOf, Gctr;
    var h := HashKeyOf(aes);
    s := Ghash.Hash(h, aad, ciphertext);
    var ej0 := NewBuffer(16);
    var _ := aes.EncryptBlock(j0, ej0);
    OneBlockGctr(aes.key, j0[..], s[..]);
    XorInto(s, ej0);
  }

  // ----- the public operations

  datatype SealedArrays = SealedArrays(ciphertext: array<Byte>, authTag: array<Byte>)

  method EncryptAes256Gcm(key: array<Byte>, iv: array<Byte>, plaintext: array<Byte>, aad: array<Byte>)
    returns (r: Result<SealedArrays, GcmError>)
    ensures match r
            case Success(sealed) =>
              && fresh(sealed.ciphertext) && fresh(sealed.authTag)
              && Encrypt(key[..], iv[..], plaintext[..], aad[..])
                 == Success(Sealed(sealed.ciphertext[..], sealed.authTag[..]))
            case Failure(error) => Encrypt(key[..], iv[..], plaintext[..], aad[..]) == Failure(error)
  {
    hide Cipher, Aes256.Expanded, Gctr, Tag, Inc32;
    if iv.Length != 12 {
      return Failure(BadIv);
    }
    if key.Length != 32 {
      return Failure(BadKey);
    }
    var aes := new Aes256.Aes256(key);
    var j0 := J0FromIv12(iv);
    var icb := CopyBuffer(j0);
    Inc32InPlace(icb);
    var ciphertext := GctrArray(aes, icb, plaintext);
    var s := ComputeTag(aes, j0, iv, aad, ciphertext);
    return Success(SealedArrays(ciphertext, s));
  }

  lemma OrIsZero(diff: Byte, a: Byte, b: Byte)
    ensures diff | (a ^ b) == 0 <==> diff == 0 && a == b
  {
  }

  /** The comparison that looks at every byte: the result is 0 exactly on equal arrays. */
  method TagDifference(s: array<Byte>, authTag: array<Byte>) returns (diff: Byte)
    requires s.Length == 16 && authTag.Length == 16
    ensures diff == 0 <==> s[..] == authTag[..]
  {
    diff := 0;
    for i := 0 to 16
      invariant diff == 0 <==> s[..i] == authTag[..i]
    {
      OrIsZero(diff, s[i], authTag[i]);
      assert s[..i + 1] == s[..i] + [s[i]] && authTag[..i + 1] == authTag[..i] + [authTag[i]];
      diff := diff | (s[i] ^ authTag[i]);
    }
    assert s[..16] == s[..] && authTag[..16] == authTag[..];
  }

  method DecryptAes256Gcm(key: array<Byte>, iv: array<Byte>, ciphertext: array<Byte>, authTag: array<Byte>, aad: array<Byte>)
    returns (r: Result<array<Byte>, GcmError>)
    ensures match r
            case Success(plain) =>
              fresh(plain) && Decrypt(key[..], iv[..], ciphertext[..], authTag[..], aad[..]) == Success(plain[..])
            case Failure(error) => Decrypt(key[..], iv[..], ciphertext[..], authTag[..], aad[..]) == Failure(error)
  {
    hide Cipher, Aes256.Expanded, Gctr, Tag, Inc32;
    if iv.Length != 12 {
      return Failure(BadIv);
    }
    if authTag.Length != 16 {
      return Failure(BadTag);
    }
    if key.Length != 32 {
      return Failure(BadKey);
    }
    var aes := new Aes256.Aes256(key);
    var j0 := J0FromIv12(iv);
    var s := ComputeTag(aes, j0, iv, aad, ciphertext);
    var diff := TagDifference(s, authTag);
    if diff != 0 {
      return Failure(AuthenticationFailed);
    }
    var icb := CopyBuffer(j0);
    Inc32InPlace(icb);
    var plain := GctrArray(aes, icb, ciphertext);
    return Success(plain);
  }
}
