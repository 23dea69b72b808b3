/**
 GHASH (section 6.4 of NIST SP 800-38D) as app-mobile/services/aesGcm.ts computes it:
 byte arrays changed in place, proved against the field of `GcmField`.
 */
module Ghash {
  import opened Gf2Poly
  import opened GcmField
  import opened Bytes
  import opened GhashSpec
  import opened ByteNumbers
  import opened Buffers

  function ShiftedByte(cur: Byte, prev: Byte): Byte {
    (cur >> 1) | ((prev & 1) << 7)
  }

  lemma ShiftedByteBits(cur: Byte, prev: Byte, j: int)
    requires 0 <= j < 8
    ensures BitOf(ShiftedByte(cur, prev), j) == if j == 0 then BitOf(prev, 7) else BitOf(cur, j - 1)
  {
  }

  /** w is v shifted right by one bit, with 0xe1 added when a bit falls out. */
  predicate ShiftedAndReduced(v: Block, w: Block) {
    && (forall k | 1 <= k < 16 :: w[k] == ShiftedByte(v[k], v[k - 1]))
    && w[0] == ShiftedByte(v[0], 0) ^ (if v[15] & 1 == 1 then 0xe1 else 0)
  }

  /** The byte-wise shift and conditional xor of 0xe1 is multiplication by x in the field. */
  lemma ShiftIsMulX(v: Block, w: Block)
    requires ShiftedAndReduced(v, w)
    ensures Elem(w) == MulX(Elem(v))
  {
    hide ShiftedAndReduced, MulX, BitOf;
    forall k | 0 <= k < 128
      ensures Elem(w)[k] == MulX(Elem(v))[k]
    {
      ShiftedBit(v, w, k / 8, k % 8);
    }
  }

  /** The same statement one bit at a time. */
  lemma ShiftedBit(v: Block, w: Block, i: int, j: int)
    requires ShiftedAndReduced(v, w)
    requires 0 <= i < 16 && 0 <= j < 8
    ensures Elem(w)[8 * i + j] == MulX(Elem(v))[8 * i + j]
  {
    hide ShiftedByte, MulX, BitOf, Elem;
    if i == 0 {
      LowBit(v[15]);
      FirstByteBits(v[0], v[15] & 1 == 1, j);
    } else {
      ShiftedByteBits(v[i], v[i - 1], j);
    }
    BitPosition(v, w, i, j);
  }

  /** Multiplication by x, from byte positions to bit positions. */
  lemma BitPosition(v: Block, w: Block, i: int, j: int)
    requires 0 <= i < 16 && 0 <= j < 8
    requires BitOf(w[i], j) == ((if j == 0 then 0 < i && BitOf(v[i - 1], 7) else BitOf(v[i], j - 1))
                                != (i == 0 && (j <= 2 || j == 7) && BitOf(v[15], 7)))
    ensures Elem(w)[8 * i + j] == MulX(Elem(v))[8 * i + j]
  {
    hide BitOf, MulX;
    var k := 8 * i + j;
    MulXCoefs(Elem(v));
    assert k / 8 == i && k % 8 == j;
    if 0 < k {
      assert (k - 1) / 8 == (if j == 0 then i - 1 else i) && (k - 1) % 8 == (if j == 0 then 7 else j - 1);
    }
  }

  lemma LowBit(b: Byte)
    ensures BitOf(b, 7) == (b & 1 == 1)
  {
  }

  lemma FirstByteBits(cur: Byte, lsb: bool, j: int)
    requires 0 <= j < 8
    ensures BitOf(ShiftedByte(cur, 0) ^ (if lsb then 0xe1 else 0), j)
            == ((0 < j && BitOf(cur, j - 1)) != (lsb && (j <= 2 || j == 7)))
  {
    BitOfXor(ShiftedByte(cur, 0), if lsb then 0xe1 else 0, j);
    ShiftedByteBits(cur, 0, j);
  }

  /** v := v * x, in place. */
  method ShiftAndReduce(v: array<Byte>)
    requires v.Length == 16
    modifies v
    ensures Elem(v[..]) == MulX(Elem(old(v[..])))
  {
    hide Elem, MulX, BitOf;
    ghost var v0: Block := v[..];
    var lsb := v[15] & 1;
    ShiftBytes(v);
    v[0] := v[0] >> 1;
    FirstByte(v0[0]);
    if lsb == 1 {
      v[0] := v[0] ^ 0xe1;
    }
    ShiftIsMulX(v0, v[..]);
  }

  lemma FirstByte(b: Byte)
    ensures b >> 1 == ShiftedByte(b, 0) && (b >> 1) ^ 0 == b >> 1
  {
  }

  /** The loop from the last byte down to the second. */
  method ShiftBytes(v: array<Byte>)
    requires v.Length == 16
    modifies v
    ensures forall m | 1 <= m < 16 :: v[m] == ShiftedByte(old(v[m]), old(v[m - 1]))
    ensures v[0] == old(v[0])
  {
    hide ShiftedByte;
    ghost var v0 := v[..];
    var k := 15;
    while k > 0
      invariant 0 <= k <= 15
      invariant forall m | k < m < 16 :: v[m] == ShiftedByte(v0[m], v0[m - 1])
      invariant forall m | 0 <= m <= k :: v[m] == v0[m]
    {
      v[k] := ShiftedByte(v[k], v[k - 1]);
      k := k - 1;
    }
  }

  lemma BitTest(x: Byte, bit: int)
    requires 0 <= bit < 8
    ensures ((x >> (7 - bit)) & 1 == 1) == BitOf(x, bit)
  {
    if bit == 0 { assert x >> (7 - bit) == x >> 7; }
    else if bit == 1 { assert x >> (7 - bit) == x >> 6; }
    else if bit == 2 { assert x >> (7 - bit) == x >> 5; }
    else if bit == 3 { assert x >> (7 - bit) == x >> 4; }
    else if bit == 4 { assert x >> (7 - bit) == x >> 3; }
    else if bit == 5 { assert x >> (7 - bit) == x >> 2; }
    else if bit == 6 { assert x >> (7 - bit) == x >> 1; }
    else { assert x >> (7 - bit) == x; }
  }

  /** One bit of the shift-and-xor loop: what is accumulated plus what is still to add stays the product. */
  lemma MultiplyStep(x: Poly, n: int, z: Element, v: Element)
    requires 0 <= n < |x|
    ensures Add(z, FieldMul(x[n..], v)) == Add(Add(z, Scale(x[n], v)), FieldMul(x[n + 1..], MulX(v)))
  {
    var rest := FieldMul(x[n + 1..], MulX(v));
    assert x[n..][0] == x[n] && x[n..][1..] == x[n + 1..];
    var l, r := Add(z, FieldMul(x[n..], v)), Add(Add(z, Scale(x[n], v)), rest);
    assert FieldMul(x[n..], v) == Add(Scale(x[n], v), rest);
    forall k | 0 <= k < 128
      ensures l[k] == r[k]
    {
      assert Coef(l, k) == Coef(r, k);
    }
  }

  /** The body of the inner loop: z ^= v when the bit is set, then v := v * x. */
  method MultiplyBit(z: array<Byte>, v: array<Byte>, take: bool)
    requires z.Length == 16 && v.Length == 16 && z != v
    modifies z, v
    ensures Elem(z[..]) == Add(Elem(old(z[..])), Scale(take, Elem(old(v[..]))))
    ensures Elem(v[..]) == MulX(Elem(old(v[..])))
  {
    if take {
      BitsXor(z[..], v[..]);
      XorInto(z, v);
    } else {
      AddEmpty(Elem(z[..]));
    }
    ghost var z0 := z[..];
    ShiftAndReduce(v);
    assert z[..] == z0;
  }

  /** The inner loop: the eight bits of one byte of the left factor, most significant first. */
  method MultiplyByte(z: array<Byte>, v: array<Byte>, xi: Byte, ghost bits: Poly, ghost n: nat)
    requires z.Length == 16 && v.Length == 16 && z != v
    requires n + 8 <= |bits| && forall j | 0 <= j < 8 :: bits[n + j] == BitOf(xi, j)
    modifies z, v
    ensures Add(Elem(z[..]), FieldMul(bits[n + 8..], Elem(v[..])))
            == old(Add(Elem(z[..]), FieldMul(bits[n..], Elem(v[..]))))
  {
    hide BitOf, MulX, Add, Scale, FieldMul;
    ghost var sum := Add(Elem(z[..]), FieldMul(bits[n..], Elem(v[..])));
    for bit := 0 to 8
      invariant sum == Add(Elem(z[..]), FieldMul(bits[n + bit..], Elem(v[..])))
    {
      BitTest(xi, bit);
      MultiplyStep(bits, n + bit, Elem(z[..]), Elem(v[..]));
      MultiplyBit(z, v, (xi >> (7 - bit)) & 1 == 1);
    }
  }

  method GcmMultiply(x: array<Byte>, y: array<Byte>) returns (z: array<Byte>)
    requires x.Length == 16 && y.Length == 16
    ensures fresh(z) && z.Length == 16
    ensures Elem(z[..]) == FieldMul(Elem(x[..]), Elem(y[..]))
  {
    hide BitOf, MulX, Add, Scale, FieldMul;
    z := NewBuffer(16);
    var v := CopyBuffer(y);
    ghost var bits, product := Elem(x[..]), FieldMul(Elem(x[..]), Elem(y[..]));
    ZeroBits();
    AddZeroLeft(product);
    assert bits[0..] == bits;
    for i := 0 to 16
      invariant product == Add(Elem(z[..]), FieldMul(bits[8 * i..], Elem(v[..])))
    {
      ByteBits(x[..], i);
      MultiplyByte(z, v, x[i], bits, 8 * i);
    }
    FieldMulEmpty(bits[128..], Elem(v[..]));
    AddZeroRight(Elem(z[..]));
  }

  lemma ByteBits(b: Block, i: nat)
    requires i < 16
    ensures forall j | 0 <= j < 8 :: Elem(b)[8 * i + j] == BitOf(b[i], j)
  {
    hide BitOf;
    forall j | 0 <= j < 8
      ensures Elem(b)[8 * i + j] == BitOf(b[i], j)
    {
      assert (8 * i + j) / 8 == i && (8 * i + j) % 8 == j;
    }
  }

  lemma FieldMulEmpty(x: Poly, v: Element)
    requires |x| == 0
    ensures FieldMul(x, v) == Zero()
  {
  }

  // ----- the length block

  lemma Quotients(v: nat)
    ensures v / 0x100 / 0x100 == v / 0x10000
    ensures v / 0x10000 / 0x100 == v / 0x1000000
    ensures v / 0x1000000 / 0x100 == v / 0x100000000
  {
  }

  lemma FourDigits(v: nat)
    ensures BigEndian(v, 4) == [LowByte(v / 0x1000000), LowByte(v / 0x10000), LowByte(v / 0x100), LowByte(v)]
  {
    hide LowByte;
    BigEndianSplit(v, 0);
    Quotients(v);
    var q1, q2, q3 := v / 0x100, v / 0x10000, v / 0x1000000;
    assert BigEndian(q3, 1) == BigEndian(q3 / 256, 0) + [LowByte(q3)];
    assert BigEndian(q2, 2) == BigEndian(q3, 1) + [LowByte(q2)];
    assert BigEndian(q1, 3) == BigEndian(q2, 2) + [LowByte(q1)];
  }

  /** The four low-order bytes come after the bytes of what is above them. */
  lemma BigEndianSplit(v: nat, n: nat)
    ensures BigEndian(v, n + 4) == BigEndian(v / 0x100000000, n)
            + [LowByte(v / 0x1000000), LowByte(v / 0x10000), LowByte(v / 0x100), LowByte(v)]
  {
    hide LowByte;
    Quotients(v);
    var q1, q2, q3, q4 := v / 0x100, v / 0x10000, v / 0x1000000, v / 0x100000000;
    assert BigEndian(q3, n + 1) == BigEndian(q4, n) + [LowByte(q3)];
    assert BigEndian(q2, n + 2) == BigEndian(q3, n + 1) + [LowByte(q2)];
    assert BigEndian(q1, n + 3) == BigEndian(q2, n + 2) + [LowByte(q1)];
  }

  /** x >>> n on a JavaScript number: the low 32 bits of x, shifted. */
  function U32(x: nat): (r: nat)
    ensures r < 0x100000000
  {
    x % 0x100000000
  }

  /** Cutting a number to 32 bits keeps its four low-order bytes. */
  lemma LowWord(v: nat)
    ensures LowByte(U32(v) / 0x1000000) == LowByte(v / 0x1000000)
    ensures LowByte(U32(v) / 0x10000) == LowByte(v / 0x10000)
    ensures LowByte(U32(v) / 0x100) == LowByte(v / 0x100)
    ensures LowByte(U32(v)) == LowByte(v)
  {
    LowWordDigits(v);
  }

  lemma LowWordDigits(v: nat)
    ensures U32(v) / 0x1000000 % 256 == v / 0x1000000 % 256
    ensures U32(v) / 0x10000 % 256 == v / 0x10000 % 256
    ensures U32(v) / 0x100 % 256 == v / 0x100 % 256
    ensures U32(v) % 256 == v % 256
  {
    var q, r := v / 0x100000000, U32(v);
    HighPart(q, r);
    DropMultiple(q, r / 0x1000000);
    DropMultiple(0x100 * q, r / 0x10000);
    DropMultiple(0x10000 * q, r / 0x100);
    DropMultiple(0x1000000 * q, r);
  }

  lemma HighPart(q: nat, r: nat)
    ensures (0x100000000 * q + r) / 0x1000000 == 256 * q + r / 0x1000000
    ensures (0x100000000 * q + r) / 0x10000 == 256 * (0x100 * q) + r / 0x10000
    ensures (0x100000000 * q + r) / 0x100 == 256 * (0x10000 * q) + r / 0x100
  {
  }

  lemma DropMultiple(k: nat, b: nat)
    ensures (256 * k + b) % 256 == b % 256
  {
  }

  /** The number of bits of byteLen bytes, as 8 big-endian bytes from `offset`. */
  method WriteLen64(out: array<Byte>, offset: nat, byteLen: nat)
    requires offset + 8 <= out.Length
    modifies out
    ensures out[..] == old(out[..offset]) + BigEndian(8 * byteLen, 8) + old(out[offset + 8..])
  {
    hide BigEndian, LowByte, U32;
    var bitLen := byteLen * 8;
    var hi := bitLen / 0x100000000;
    var lo := U32(bitLen);
    out[offset] := LowByte(U32(hi) / 0x1000000);
    out[offset + 1] := LowByte(U32(hi) / 0x10000);
    out[offset + 2] := LowByte(U32(hi) / 0x100);
    out[offset + 3] := LowByte(hi);
    out[offset + 4] := LowByte(lo / 0x1000000);
    out[offset + 5] := LowByte(lo / 0x10000);
    out[offset + 6] := LowByte(lo / 0x100);
    out[offset + 7] := LowByte(lo);
    LowWord(hi);
    LowWord(bitLen);
    BigEndianSplit(bitLen, 4);
    FourDigits(hi);
  }

  // ----- GHASH

  /** The block that the feeding loop copies at offset off is the next block of the padded data. */
  function BlockAt(data: Bytes, off: nat): (b: Block)
    requires off < |data| && off % 16 == 0
    ensures off + 16 <= |Pad16(data)| && b == Pad16(data)[off..off + 16]
  {
    var padded := Pad16(data);
    assert off + 16 <= |padded|;
    padded[off..off + 16]
  }

  /** block := the bytes of data from off, zero-filled to 16. */
  method FillBlock(block: array<Byte>, data: array<Byte>, off: nat)
    requires block.Length == 16 && block != data
    requires off < data.Length && off % 16 == 0
    modifies block
    ensures block[..] == BlockAt(data[..], off)
  {
    for i := 0 to 16
      invariant forall k | 0 <= k < i :: block[k] == 0
    {
      block[i] := 0;
    }
    var n := if data.Length - off < 16 then data.Length - off else 16;
    for i := 0 to n
      invariant forall k | 0 <= k < i :: block[k] == data[off + k]
      invariant forall k | i <= k < 16 :: block[k] == 0
    {
      block[i] := data[off + i];
    }
    FilledBlock(data[..], block[..], off, n);
  }

  lemma FilledBlock(data: Bytes, block: Block, off: nat, n: nat)
    requires off < |data| && off % 16 == 0 && n == if |data| - off < 16 then |data| - off else 16
    requires forall k | 0 <= k < n :: block[k] == data[off + k]
    requires forall k | n <= k < 16 :: block[k] == 0
    ensures block == BlockAt(data, off)
  {
    hide Pad16;
    var padded := Pad16(data);
    forall k | 0 <= k < 16
      ensures block[k] == padded[off + k]
    {
    }
  }

  lemma HornerEmpty(y: Element, h: Element, s: Bytes)
    requires |s| == 0
    ensures Horner(y, h, s) == y
  {
  }

  lemma HornerStep(y: Element, h: Element, s: Bytes, off: nat)
    requires WholeBlocks(s) && off % 16 == 0 && off + 16 <= |s|
    ensures Horner(y, h, s[..off + 16]) == FieldMul(Add(Horner(y, h, s[..off]), Elem(s[off..off + 16])), h)
  {
    var t := s[..off + 16];
    assert t[..|t| - 16] == s[..off] && t[|t| - 16..] == s[off..off + 16];
  }

  /** y := (y + block) * h */
  method Absorb(y: array<Byte>, block: array<Byte>, h: array<Byte>)
    requires y.Length == 16 && block.Length == 16 && h.Length == 16
    requires y != block && y != h
    modifies y
    ensures Elem(y[..]) == FieldMul(Add(Elem(old(y[..])), Elem(block[..])), Elem(h[..]))
  {
    hide FieldMul, Add, BitOf;
    ghost var sum := Add(Elem(y[..]), Elem(block[..]));
    BitsXor(y[..], block[..]);
    XorInto(y, block);
    var prod := GcmMultiply(y, h);
    assert Elem(prod[..]) == FieldMul(sum, Elem(h[..]));
    SetBytes(y, prod);
  }

  method Feed(y: array<Byte>, block: array<Byte>, h: array<Byte>, data: array<Byte>)
    requires y.Length == 16 && block.Length == 16 && h.Length == 16
    requires y != block && y != h && block != h && data != y && data != block
    modifies y, block
    ensures Elem(y[..]) == Horner(Elem(old(y[..])), Elem(h[..]), Pad16(data[..]))
  {
    hide FieldMul, Add, BitOf, Pad16, Horner, Elem, Bits, BlockAt;
    ghost var y0, h0, padded := Elem(y[..]), Elem(h[..]), Pad16(data[..]);
    ghost var bytes := data[..];
    HornerEmpty(y0, h0, padded[..0]);
    var off := 0;
    while off < data.Length
      invariant off % 16 == 0 && off <= |padded|
      invariant h[..] == old(h[..]) && data[..] == bytes
      invariant off < |bytes| + 16
      invariant Elem(y[..]) == Horner(y0, h0, padded[..off])
    {
      FillBlock(block, data, off);
      HornerStep(y0, h0, padded, off);
      Absorb(y, block, h);
      off := off + 16;
    }
    assert padded[..off] == padded;
  }

  method Hash(h: array<Byte>, aad: array<Byte>, ciphertext: array<Byte>) returns (y: array<Byte>)
    requires h.Length == 16
    ensures fresh(y) && y[..] == GhashOf(h[..], aad[..], ciphertext[..])
  {
    hide FieldMul, Add, BitOf, Pad16, BigEndian, BlockOf;
    y := NewBuffer(16);
    var block := NewBuffer(16);
    ghost var h0, a, c := Elem(h[..]), Pad16(aad[..]), Pad16(ciphertext[..]);
    ZeroBits();
    Feed(y, block, h, aad);
    assert h[..] == old(h[..]) && ciphertext[..] == old(ciphertext[..]);
    Feed(y, block, h, ciphertext);
    HornerAppend(Zero(), h0, a, c);
    var lenBlock := NewBuffer(16);
    WriteLen64(lenBlock, 0, aad.Length);
    WriteLen64(lenBlock, 8, ciphertext.Length);
    ghost var lengths := LengthBlock(8 * aad.Length, 8 * ciphertext.Length);
    assert lenBlock[..] == lengths;
    assert h[..] == old(h[..]);
    Absorb(y, lenBlock, h);
    FirstBlock(Horner(Zero(), h0, a + c), h0, lengths);
    HornerAppend(Zero(), h0, a + c, lengths);
    BlockOfElem(y[..]);
  }
}
