/**
 Bytes, byte strings, and the GCM reading of a byte string as a bit string:
 within a byte, bit 0 is the most significant one (section 6.3 of NIST SP 800-38D).
 */
module Bytes {
  import opened Gf2Poly
  import opened GcmField
  import opened ByteNumbers

  type Byte = bv8
  type Bytes = seq<Byte>
  type Block = b: Bytes | |b| == 16 witness [0, 0, 0, 0, 0, 0, 0, 0, 0, 0, 0, 0, 0, 0, 0, 0]

  function ZeroBytes(n: nat): (s: Bytes)
    ensures |s| == n && forall i | 0 <= i < n :: s[i] == 0
  {
    seq(n, i => 0)
  }

  function ZeroBlock(): Block { ZeroBytes(16) }

  function Xor(a: Bytes, b: Bytes): (r: Bytes)
    requires |a| <= |b|
    ensures |r| == |a|
  {
    seq(|a|, i requires 0 <= i < |a| => a[i] ^ b[i])
  }

  lemma XorSelf(a: Bytes, b: Bytes)
    requires |a| <= |b|
    ensures Xor(Xor(a, b), b) == a
  {
    forall i | 0 <= i < |a|
      ensures (a[i] ^ b[i]) ^ b[i] == a[i]
    {
    }
  }

  function BitOf(b: Byte, j: int): bool {
    if j == 0 then b & 0x80 != 0 else if j == 1 then b & 0x40 != 0
    else if j == 2 then b & 0x20 != 0 else if j == 3 then b & 0x10 != 0
    else if j == 4 then b & 0x08 != 0 else if j == 5 then b & 0x04 != 0
    else if j == 6 then b & 0x02 != 0 else b & 0x01 != 0
  }

  function Bits(s: Bytes): (p: Poly)
    ensures |p| == 8 * |s|
    ensures forall k | 0 <= k < 8 * |s| :: p[k] == BitOf(s[k / 8], k % 8)
  {
    seq(8 * |s|, k requires 0 <= k < 8 * |s| => BitOf(s[k / 8], k % 8))
  }

  function Elem(b: Block): Element { Bits(b) }

  lemma BitOfXor(a: Byte, b: Byte, j: int)
    ensures BitOf(a ^ b, j) == (BitOf(a, j) != BitOf(b, j))
  {
    if j == 0 {
      assert (a ^ b) & 0x80 == (a & 0x80) ^ (b & 0x80);
    } else if j == 1 {
      assert (a ^ b) & 0x40 == (a & 0x40) ^ (b & 0x40);
    } else if j == 2 {
      assert (a ^ b) & 0x20 == (a & 0x20) ^ (b & 0x20);
    } else if j == 3 {
      assert (a ^ b) & 0x10 == (a & 0x10) ^ (b & 0x10);
    } else if j == 4 {
      assert (a ^ b) & 0x08 == (a & 0x08) ^ (b & 0x08);
    } else if j == 5 {
      assert (a ^ b) & 0x04 == (a & 0x04) ^ (b & 0x04);
    } else if j == 6 {
      assert (a ^ b) & 0x02 == (a & 0x02) ^ (b & 0x02);
    } else {
      assert (a ^ b) & 0x01 == (a & 0x01) ^ (b & 0x01);
    }
  }

  lemma BitsXor(a: Block, b: Block)
    ensures Elem(Xor(a, b)) == Add(Elem(a), Elem(b))
  {
    hide BitOf, Add;
    var sum: Poly := Add(Elem(a), Elem(b));
    forall k | 0 <= k < 128
      ensures Bits(Xor(a, b))[k] == Coef(sum, k)
    {
      BitOfXor(a[k / 8], b[k / 8], k % 8);
    }
  }

  lemma ZeroBits()
    ensures Elem(ZeroBlock()) == Zero()
  {
    forall k | 0 <= k < 128
      ensures !Bits(ZeroBlock())[k]
    {
      assert ZeroBlock()[k / 8] == 0;
    }
  }

  /** Different bytes differ in some bit. */
  lemma SameBitsSameByte(a: Byte, b: Byte)
    requires forall j | 0 <= j < 8 :: BitOf(a, j) == BitOf(b, j)
    ensures a == b
  {
    assert BitOf(a, 0) == BitOf(b, 0) && BitOf(a, 1) == BitOf(b, 1) && BitOf(a, 2) == BitOf(b, 2);
    assert BitOf(a, 3) == BitOf(b, 3) && BitOf(a, 4) == BitOf(b, 4) && BitOf(a, 5) == BitOf(b, 5);
    assert BitOf(a, 6) == BitOf(b, 6) && BitOf(a, 7) == BitOf(b, 7);
  }

  lemma BitsInjective(a: Block, b: Block)
    requires Elem(a) == Elem(b)
    ensures a == b
  {
    forall i | 0 <= i < 16
      ensures a[i] == b[i]
    {
      forall j | 0 <= j < 8
        ensures BitOf(a[i], j) == BitOf(b[i], j)
      {
        assert Bits(a)[8 * i + j] == Bits(b)[8 * i + j];
        assert (8 * i + j) / 8 == i && (8 * i + j) % 8 == j;
      }
      SameBitsSameByte(a[i], b[i]);
    }
  }

  // ----- back from field elements to bytes

  function ByteOf(p: Poly): Byte
    requires |p| == 8
  {
    (if p[0] then 0x80 else 0) | (if p[1] then 0x40 else 0) | (if p[2] then 0x20 else 0) | (if p[3] then 0x10 else 0)
    | (if p[4] then 0x08 else 0) | (if p[5] then 0x04 else 0) | (if p[6] then 0x02 else 0) | (if p[7] then 0x01 else 0)
  }

  function BlockOf(e: Element): (b: Block)
    ensures forall i | 0 <= i < 16 :: b[i] == ByteOf(e[8 * i..8 * i + 8])
  {
    seq(16, i requires 0 <= i < 16 => ByteOf(e[8 * i..8 * i + 8]))
  }

  lemma ByteOfBits(p: Poly, j: int)
    requires |p| == 8 && 0 <= j < 8
    ensures BitOf(ByteOf(p), j) == p[j]
  {
  }

  lemma ElemOfBlock(e: Element)
    ensures Elem(BlockOf(e)) == e
  {
    hide BitOf, ByteOf;
    forall k | 0 <= k < 128
      ensures Elem(BlockOf(e))[k] == e[k]
    {
      ByteOfBits(e[8 * (k / 8)..8 * (k / 8) + 8], k % 8);
    }
  }

  lemma BlockOfElem(b: Block)
    ensures BlockOf(Elem(b)) == b
  {
    ElemOfBlock(Elem(b));
    BitsInjective(BlockOf(Elem(b)), b);
  }

  // ----- numbers as big-endian bytes

  /** The n low-order bytes of v, most significant first. */
  function BigEndian(v: nat, n: nat): (s: Bytes)
    ensures |s| == n
  {
    if n == 0 then [] else BigEndian(v / 256, n - 1) + [LowByte(v)]
  }

  function BeValue(s: Bytes): nat {
    if s == [] then 0 else 256 * BeValue(s[..|s| - 1]) + s[|s| - 1] as nat
  }

  function Pow256(n: nat): nat { if n == 0 then 1 else 256 * Pow256(n - 1) }

  /** The digit of v in base 256 that counts 256^place. */
  function BaseDigit(v: nat, place: nat): Byte { if place == 0 then LowByte(v) else BaseDigit(v / 256, place - 1) }

  /** Decoding gives back the number modulo 256^n. */
  lemma {:induction false} BigEndianValue(v: nat, n: nat)
    ensures BeValue(BigEndian(v, n)) < Pow256(n)
    ensures exists q: nat :: v == q * Pow256(n) + BeValue(BigEndian(v, n))
    decreases n
  {
    if n == 0 {
      assert v == v * Pow256(0) + BeValue(BigEndian(v, 0));
    } else {
      BigEndianValue(v / 256, n - 1);
      var low := BigEndian(v / 256, n - 1);
      assert BigEndian(v, n)[..n - 1] == low;
      var q: nat :| v / 256 == q * Pow256(n - 1) + BeValue(low);
      LowByteValue(v);
      AppendDigit(v, q, Pow256(n - 1), BeValue(low));
      assert v == q * Pow256(n) + BeValue(BigEndian(v, n));
    }
  }

  lemma AppendDigit(v: nat, q: nat, p: nat, low: nat)
    requires v / 256 == q * p + low
    ensures v == q * (256 * p) + (256 * low + v % 256)
  {
    assert q * (256 * p) == 256 * (q * p);
  }
}
