/**
 AES-256-GCM for 12-byte IVs: the counter mode of section 6.5 and the algorithms of sections 7.1
 and 7.2 of NIST SP 800-38D, and what they guarantee together.
 */
module GcmSpec {
  import opened Wrappers
  import opened ByteNumbers
  import opened Bytes
  import opened GhashSpec
  import opened AesSpec

  datatype GcmError = BadIv | BadTag | BadKey | AuthenticationFailed

  /** What encryption returns. */
  datatype Sealed = Sealed(ciphertext: Bytes, authTag: Bytes)

  /** inc_32 of section 6.2: 1 is added to the last four bytes modulo 2^32. */
  function Inc32(b: Block): Block {
    b[..12] + BigEndian(BeValue(b[12..]) + 1, 4)
  }

  function CounterBlock(icb: Block, n: nat): Block {
    if n == 0 then icb else Inc32(CounterBlock(icb, n - 1))
  }

  /** GCTR of section 6.5, byte by byte. */
  function Gctr(key: Key, icb: Block, data: Bytes): (r: Bytes)
    ensures |r| == |data|
    ensures forall k | 0 <= k < |data| :: r[k] == data[k] ^ Cipher(key, CounterBlock(icb, k / 16))[k % 16]
  {
    seq(|data|, k requires 0 <= k < |data| => data[k] ^ Cipher(key, CounterBlock(icb, k / 16))[k % 16])
  }

  function J0(iv: Bytes): Block
    requires |iv| == 12
  {
    iv + [0, 0, 0, 1]
  }

  function HashKey(key: Key): Block { Cipher(key, ZeroBlock()) }

  /** The tag of section 7.1, steps 4 to 6. */
  function Tag(key: Key, iv: Bytes, aad: Bytes, ciphertext: Bytes): Bytes
    requires |iv| == 12
  {
    Gctr(key, J0(iv), GhashOf(HashKey(key), aad, ciphertext))
  }

  function Encrypt(key: Bytes, iv: Bytes, plaintext: Bytes, aad: Bytes): Result<Sealed, GcmError> {
    if |iv| != 12 then Failure(BadIv)
    else if |key| != 32 then Failure(BadKey)
    else
      var c := Gctr(key, Inc32(J0(iv)), plaintext);
      Success(Sealed(c, Tag(key, iv, aad, c)))
  }

  function Decrypt(key: Bytes, iv: Bytes, ciphertext: Bytes, authTag: Bytes, aad: Bytes): Result<Bytes, GcmError> {
    if |iv| != 12 then Failure(BadIv)
    else if |authTag| != 16 then Failure(BadTag)
    else if |key| != 32 then Failure(BadKey)
    else if authTag != Tag(key, iv, aad, ciphertext) then Failure(AuthenticationFailed)
    else Success(Gctr(key, Inc32(J0(iv)), ciphertext))
  }

  // ----- decryption returns p exactly on the encryptions of p

  lemma GctrInvolution(key: Key, icb: Block, data: Bytes)
    ensures Gctr(key, icb, Gctr(key, icb, data)) == data
  {
    hide Cipher, CounterBlock;
    var once := Gctr(key, icb, data);
    forall k | 0 <= k < |data|
      ensures Gctr(key, icb, once)[k] == data[k]
    {
      XorTwice(data[k], Cipher(key, CounterBlock(icb, k / 16))[k % 16]);
    }
  }

  lemma XorTwice(a: Byte, b: Byte)
    ensures (a ^ b) ^ b == a
  {
  }

  /** For every key, IV, associated data, ciphertext and tag, of any lengths. */
  lemma DecryptInvertsEncrypt(key: Bytes, iv: Bytes, p: Bytes, aad: Bytes, c: Bytes, t: Bytes)
    ensures Decrypt(key, iv, c, t, aad) == Success(p) <==> Encrypt(key, iv, p, aad) == Success(Sealed(c, t))
  {
    hide Cipher, CounterBlock, Gctr, GhashOf;
    if |iv| == 12 && |key| == 32 {
      GctrInvolution(key, Inc32(J0(iv)), c);
      GctrInvolution(key, Inc32(J0(iv)), p);
    }
  }

  /** Decryption fails exactly when nothing encrypts to this ciphertext and tag. */
  lemma DecryptFailsExactly(key: Bytes, iv: Bytes, aad: Bytes, c: Bytes, t: Bytes)
    ensures Decrypt(key, iv, c, t, aad).Failure?
            <==> forall p: Bytes :: Encrypt(key, iv, p, aad) != Success(Sealed(c, t))
  {
    hide Encrypt, Decrypt;
    var r := Decrypt(key, iv, c, t, aad);
    if r.Success? {
      DecryptInvertsEncrypt(key, iv, r.value, aad, c, t);
    } else {
      forall p: Bytes
        ensures Encrypt(key, iv, p, aad) != Success(Sealed(c, t))
      {
        DecryptInvertsEncrypt(key, iv, p, aad, c, t);
      }
    }
  }

  /** Which error, and in which order the program looks for them. */
  lemma ErrorsExactly(key: Bytes, iv: Bytes, aad: Bytes, c: Bytes, t: Bytes, p: Bytes)
    ensures var r := Decrypt(key, iv, c, t, aad);
            && (r == Failure(BadIv) <==> |iv| != 12)
            && (r == Failure(BadTag) <==> |iv| == 12 && |t| != 16)
            && (r == Failure(BadKey) <==> |iv| == 12 && |t| == 16 && |key| != 32)
    ensures var r := Encrypt(key, iv, p, aad);
            && (r == Failure(BadIv) <==> |iv| != 12)
            && (r == Failure(BadKey) <==> |iv| == 12 && |key| != 32)
            && (r.Success? <==> |iv| == 12 && |key| == 32)
  {
    hide Gctr, Tag;
  }

  // ----- counter blocks

  /** n increments add n to the last four bytes modulo 2^32. */
  lemma {:induction false} CounterBlockIsSum(icb: Block, n: nat)
    ensures CounterBlock(icb, n)[..12] == icb[..12]
    ensures BeValue(CounterBlock(icb, n)[12..]) == (BeValue(icb[12..]) + n) % 0x100000000
    decreases n
  {
    hide BeValue, BigEndian;
    BeValueBound(icb[12..]);
    if n > 0 {
      var prev := CounterBlock(icb, n - 1);
      var b := CounterBlock(icb, n);
      CounterBlockIsSum(icb, n - 1);
      FourByteValue(BeValue(prev[12..]) + 1);
      assert b[12..] == BigEndian(BeValue(prev[12..]) + 1, 4);
      AddOneModulo(BeValue(icb[12..]) + n - 1);
    }
  }

  lemma AddOneModulo(v: nat)
    ensures (v % 0x100000000 + 1) % 0x100000000 == (v + 1) % 0x100000000
  {
  }

  lemma {:induction false} BeValueBound(s: Bytes)
    ensures BeValue(s) < Pow256(|s|)
    ensures |s| == 4 ==> BeValue(s) < 0x100000000
    decreases |s|
  {
    if s != [] {
      BeValueBound(s[..|s| - 1]);
    }
    assert Pow256(2) == 0x10000;
    assert Pow256(4) == 0x100000000;
  }

  lemma FourByteValue(v: nat)
    ensures BeValue(BigEndian(v, 4)) == v % 0x100000000
  {
    hide BeValue, BigEndian;
    BigEndianValue(v, 4);
    assert Pow256(2) == 0x10000;
    assert Pow256(4) == 0x100000000;
    var r := BeValue(BigEndian(v, 4));
    var q: nat :| v == q * Pow256(4) + r;
    assert v == 0x100000000 * q + r;
  }

  /** Within 2^32 blocks no counter block repeats. */
  lemma CounterBlocksDistinct(icb: Block, i: nat, j: nat)
    requires i < j < i + 0x100000000
    ensures CounterBlock(icb, i) != CounterBlock(icb, j)
  {
    hide BeValue;
    CounterBlockIsSum(icb, i);
    CounterBlockIsSum(icb, j);
    var v := BeValue(icb[12..]);
    DistinctModulo(v + i, v + j);
  }

  lemma DistinctModulo(a: nat, b: nat)
    requires a < b < a + 0x100000000
    ensures a % 0x100000000 != b % 0x100000000
  {
    assert b - a == 0x100000000 * (b / 0x100000000 - a / 0x100000000) + (b % 0x100000000 - a % 0x100000000);
  }

  lemma {:induction false} CounterBlockShift(icb: Block, n: nat)
    ensures CounterBlock(Inc32(icb), n) == CounterBlock(icb, n + 1)
    decreases n
  {
    hide Inc32;
    if n > 0 {
      CounterBlockShift(icb, n - 1);
    } else {
      assert CounterBlock(icb, 1) == Inc32(CounterBlock(icb, 0));
    }
  }

  /**
   The keystream of a message of at most 2^32 - 2 blocks uses pairwise distinct cipher inputs, all
   different from J0, which masks the tag: the cipher being injective, no keystream block repeats.
   */
  lemma KeystreamBlocksDistinct(key: Key, iv: Bytes, blocks: nat)
    requires |iv| == 12 && blocks <= 0xfffffffe
    ensures var icb := Inc32(J0(iv));
            forall i: nat | i < blocks ::
              CounterBlock(icb, i) != J0(iv) && Cipher(key, CounterBlock(icb, i)) != Cipher(key, J0(iv))
    ensures var icb := Inc32(J0(iv));
            forall i: nat, j: nat | i < j < blocks ::
              CounterBlock(icb, i) != CounterBlock(icb, j) && Cipher(key, CounterBlock(icb, i)) != Cipher(key, CounterBlock(icb, j))
  {
    hide Cipher, Inc32, CounterBlock;
    var icb := Inc32(J0(iv));
    forall i: nat | i < blocks
      ensures CounterBlock(icb, i) != J0(iv) && Cipher(key, CounterBlock(icb, i)) != Cipher(key, J0(iv))
    {
      KeystreamBlockIsNotTheMask(key, iv, i);
    }
    forall i: nat, j: nat | i < j < blocks
      ensures CounterBlock(icb, i) != CounterBlock(icb, j) && Cipher(key, CounterBlock(icb, i)) != Cipher(key, CounterBlock(icb, j))
    {
      CounterBlocksDistinct(icb, i, j);
      NotEqualCiphers(key, CounterBlock(icb, i), CounterBlock(icb, j));
    }
  }

  lemma KeystreamBlockIsNotTheMask(key: Key, iv: Bytes, i: nat)
    requires |iv| == 12 && i < 0xfffffffe
    ensures var block := CounterBlock(Inc32(J0(iv)), i); block != J0(iv) && Cipher(key, block) != Cipher(key, J0(iv))
  {
    hide Cipher, Inc32;
    CounterBlockShift(J0(iv), i);
    CounterBlocksDistinct(J0(iv), 0, i + 1);
    assert CounterBlock(J0(iv), 0) == J0(iv);
    NotEqualCiphers(key, CounterBlock(Inc32(J0(iv)), i), J0(iv));
  }

  lemma NotEqualCiphers(key: Key, a: Block, b: Block)
    requires a != b
    ensures Cipher(key, a) != Cipher(key, b)
  {
    hide Cipher;
    if Cipher(key, a) == Cipher(key, b) {
      CipherInjective(key, a, b);
    }
  }

  // ----- what is sealed, byte by byte

  /** The block of a 12-byte IV and a 32-bit number, modulo 2^32. */
  function Numbered(iv: Bytes, n: nat): Block
    requires |iv| == 12
  {
    iv + [LowByte(n / 0x1000000), LowByte(n / 0x10000), LowByte(n / 0x100), LowByte(n)]
  }

  lemma FourDigits(n: nat)
    ensures BigEndian(n, 4) == [LowByte(n / 0x1000000), LowByte(n / 0x10000), LowByte(n / 0x100), LowByte(n)]
  {
    assert n / 256 / 256 == n / 0x10000 && n / 256 / 256 / 256 == n / 0x1000000;
    assert BigEndian(n / 0x1000000, 1) == [LowByte(n / 0x1000000)];
    assert BigEndian(n / 0x10000, 2) == [LowByte(n / 0x1000000), LowByte(n / 0x10000)];
    assert BigEndian(n / 0x100, 3) == [LowByte(n / 0x1000000), LowByte(n / 0x10000), LowByte(n / 0x100)];
  }

  /** Only the number modulo 2^32 matters. */
  lemma DigitsModulo(m: nat, n: nat)
    requires m % 0x100000000 == n % 0x100000000
    ensures BigEndian(m, 4) == BigEndian(n, 4)
  {
    FourDigits(m);
    FourDigits(n);
    LowDigits(m);
    LowDigits(n);
  }

  lemma LowDigits(n: nat)
    ensures var r := n % 0x100000000;
            && LowByte(n) == LowByte(r) && LowByte(n / 0x100) == LowByte(r / 0x100)
            && LowByte(n / 0x10000) == LowByte(r / 0x10000) && LowByte(n / 0x1000000) == LowByte(r / 0x1000000)
  {
    hide LowByte;
    var q, r := n / 0x100000000, n % 0x100000000;
    LowByteShift(0x1000000 * q, r);
    LowByteShift(0x10000 * q, r / 0x100);
    LowByteShift(0x100 * q, r / 0x10000);
    LowByteShift(q, r / 0x1000000);
  }

  lemma LowByteShift(q: nat, r: nat)
    ensures LowByte(256 * q + r) == LowByte(r)
  {
    assert (256 * q + r) % 256 == r % 256;
  }

  /** The n-th counter block after J0 is the IV followed by n + 1. */
  lemma {:induction false} CounterBlockIsNumbered(iv: Bytes, n: nat)
    requires |iv| == 12
    ensures CounterBlock(J0(iv), n) == Numbered(iv, n + 1)
    decreases n
  {
    hide BigEndian, BeValue;
    FourDigits(n + 1);
    if n == 0 {
      assert Numbered(iv, 1)[12..] == [0, 0, 0, 1];
      assert Numbered(iv, 1) == iv + [0, 0, 0, 1];
    } else {
      CounterBlockIsNumbered(iv, n - 1);
      NumberedNext(iv, n);
    }
  }

  lemma NumberedNext(iv: Bytes, n: nat)
    requires |iv| == 12
    ensures Inc32(Numbered(iv, n)) == Numbered(iv, n + 1)
  {
    hide BigEndian, BeValue, LowByte;
    FourDigits(n);
    FourDigits(n + 1);
    var before := Numbered(iv, n);
    assert before[..12] == iv && before[12..] == BigEndian(n, 4);
    FourByteValue(n);
    AddOneModulo(n);
    DigitsModulo(n % 0x100000000 + 1, n + 1);
  }

  /**
   Byte k of the ciphertext is the plaintext's plus the one of the cipher of the IV and the number 2 + k / 16;
   the tag is the hash plus the cipher of the IV and 1.
   */
  lemma SealedBytes(key: Bytes, iv: Bytes, p: Bytes, aad: Bytes)
    requires |key| == 32 && |iv| == 12
    ensures var r := Encrypt(key, iv, p, aad);
            r.Success? && var s := r.value;
            && |s.ciphertext| == |p| && |s.authTag| == 16
            && (forall k | 0 <= k < |p| :: s.ciphertext[k] == p[k] ^ Cipher(key, Numbered(iv, 2 + k / 16))[k % 16])
            && (forall k | 0 <= k < 16 :: s.authTag[k] == GhashOf(Cipher(key, ZeroBlock()), aad, s.ciphertext)[k] ^ Cipher(key, Numbered(iv, 1))[k])
  {
    hide Cipher, CounterBlock, GhashOf, J0, Numbered;
    var icb := Inc32(J0(iv));
    var c := Gctr(key, icb, p);
    forall k | 0 <= k < |p|
      ensures c[k] == p[k] ^ Cipher(key, Numbered(iv, 2 + k / 16))[k % 16]
    {
      CounterBlockShift(J0(iv), k / 16);
      CounterBlockIsNumbered(iv, k / 16 + 1);
    }
    CounterBlockIsNumbered(iv, 0);
    var tag := Tag(key, iv, aad, c);
    forall k | 0 <= k < 16
      ensures tag[k] == GhashOf(Cipher(key, ZeroBlock()), aad, c)[k] ^ Cipher(key, Numbered(iv, 1))[k]
    {
    }
  }
}
