/**
 GHASH of section 6.4 of NIST SP 800-38D on byte strings, and what it evaluates:
 a polynomial in the hash key whose coefficients are the blocks of the input.
 */
module GhashSpec {
  import opened Gf2Poly
  import opened GcmField
  import opened ByteNumbers
  import opened Bytes

  predicate WholeBlocks(s: Bytes) { |s| % 16 == 0 }

  function Pad16(s: Bytes): (r: Bytes)
    ensures WholeBlocks(r) && s <= r && |r| < |s| + 16
    ensures forall i | |s| <= i < |r| :: r[i] == 0
  {
    s + ZeroBytes((16 - |s| % 16) % 16)
  }

  /** Two bit lengths as 64-bit big-endian numbers. */
  function LengthBlock(aadBits: nat, cipherBits: nat): (b: Block) {
    BigEndian(aadBits, 8) + BigEndian(cipherBits, 8)
  }

  lemma WholeAppend(s: Bytes, t: Bytes)
    requires WholeBlocks(s) && WholeBlocks(t)
    ensures WholeBlocks(s + t)
  {
  }

  function PaddedData(aad: Bytes, ciphertext: Bytes): (s: Bytes)
    ensures WholeBlocks(s)
  {
    WholeAppend(Pad16(aad), Pad16(ciphertext));
    Pad16(aad) + Pad16(ciphertext)
  }

  lemma PaddedDataLength(aad: Bytes, c: Bytes, aad': Bytes, c': Bytes)
    requires |aad| == |aad'| && |c| == |c'|
    ensures |PaddedData(aad, c)| == |PaddedData(aad', c')|
  {
  }

  /** A || 0^v || C || 0^u || [8 len(A)]_64 || [8 len(C)]_64 */
  function GhashInput(aad: Bytes, ciphertext: Bytes): (s: Bytes)
    ensures WholeBlocks(s)
  {
    WholeAppend(PaddedData(aad, ciphertext), LengthBlock(8 * |aad|, 8 * |ciphertext|));
    PaddedData(aad, ciphertext) + LengthBlock(8 * |aad|, 8 * |ciphertext|)
  }

  /** The GHASH recurrence y_i = (y_(i-1) + x_i) * h over the blocks of s, from y. */
  function Horner(y: Element, h: Element, s: Bytes): Element
    requires WholeBlocks(s)
  {
    if s == [] then y
    else
      assert 16 <= |s| && (|s| - 16) % 16 == 0;
      FieldMul(Add(Horner(y, h, s[..|s| - 16]), Elem(s[|s| - 16..])), h)
  }

  function GhashOf(h: Block, aad: Bytes, ciphertext: Bytes): Block {
    BlockOf(Horner(Zero(), Elem(h), GhashInput(aad, ciphertext)))
  }

  lemma {:induction false} HornerAppend(y: Element, h: Element, s: Bytes, t: Bytes)
    requires WholeBlocks(s) && WholeBlocks(t)
    ensures WholeBlocks(s + t) && Horner(y, h, s + t) == Horner(Horner(y, h, s), h, t)
    decreases |t|
  {
    hide FieldMul, Add, Elem;
    WholeAppend(s, t);
    if t == [] {
      assert s + t == s;
    } else {
      var st := s + t;
      assert st[..|st| - 16] == s + t[..|t| - 16];
      assert st[|st| - 16..] == t[|t| - 16..];
      HornerAppend(y, h, s, t[..|t| - 16]);
    }
  }

  // ----- the polynomial that GHASH evaluates

  function Power(h: Element, n: nat): Element {
    if n == 0 then One() else FieldMul(Power(h, n - 1), h)
  }

  /** x_1 * h^m + x_2 * h^(m-1) + ... + x_m * h, for the m blocks x_1, ..., x_m of s. */
  function PolyValue(h: Element, s: Bytes): Element
    requires WholeBlocks(s)
  {
    if s == [] then Zero()
    else Add(FieldMul(Elem(s[..16]), Power(h, |s| / 16)), PolyValue(h, s[16..]))
  }

  lemma FirstBlock(y: Element, h: Element, x: Block)
    ensures Horner(y, h, x) == FieldMul(Add(y, Elem(x)), h)
  {
    assert x[..0] == [] && x[0..] == x;
  }

  /** Horner's rule: GHASH from y is y * h^m plus the value of the polynomial. */
  lemma {:induction false} HornerIsPolyValue(y: Element, h: Element, s: Bytes)
    requires WholeBlocks(s)
    ensures Horner(y, h, s) == Add(FieldMul(y, Power(h, |s| / 16)), PolyValue(h, s))
    decreases |s|
  {
    hide FieldMul, Add;
    if s == [] {
      FieldMulCommutes(y, One());
      FieldMulOne(y);
      AddZeroRight(y);
    } else {
      var x, t, m := s[..16], s[16..], |s| / 16;
      assert s == x + t;
      FirstBlock(y, h, x);
      HornerAppend(y, h, x, t);
      var y1 := FieldMul(Add(y, Elem(x)), h);
      HornerIsPolyValue(y1, h, t);
      var p := Power(h, m - 1);
      PowerCommutes(h, m - 1);
      FieldMulAssociates(Add(y, Elem(x)), h, p);
      assert FieldMul(y1, p) == FieldMul(Add(y, Elem(x)), Power(h, m));
      FieldMulAddLeft(y, Elem(x), Power(h, m));
      AddAssociates(FieldMul(y, Power(h, m)), FieldMul(Elem(x), Power(h, m)), PolyValue(h, t));
    }
  }

  lemma PowerCommutes(h: Element, n: nat)
    ensures FieldMul(h, Power(h, n)) == Power(h, n + 1)
  {
    FieldMulCommutes(h, Power(h, n));
  }

  /** GHASH is the value at h of the polynomial whose coefficients are the input blocks. */
  lemma GhashIsPolynomialValue(h: Block, aad: Bytes, ciphertext: Bytes)
    ensures Elem(GhashOf(h, aad, ciphertext)) == PolyValue(Elem(h), GhashInput(aad, ciphertext))
  {
    hide FieldMul, Add, Elem, GhashInput, PolyValue, BlockOf;
    var s := GhashInput(aad, ciphertext);
    ElemOfBlock(Horner(Zero(), Elem(h), s));
    HornerIsPolyValue(Zero(), Elem(h), s);
    FieldMulZero(Zero(), Power(Elem(h), |s| / 16));
    AddZeroLeft(PolyValue(Elem(h), s));
  }

  lemma {:induction false} PolyValueLinear(h: Element, s: Bytes, t: Bytes)
    requires WholeBlocks(s) && |s| == |t|
    ensures PolyValue(h, Xor(s, t)) == Add(PolyValue(h, s), PolyValue(h, t))
    decreases |s|
  {
    hide FieldMul, Add;
    if s == [] {
      AddZeroLeft(Zero());
    } else {
      var st := Xor(s, t);
      assert st[..16] == Xor(s[..16], t[..16]);
      assert st[16..] == Xor(s[16..], t[16..]);
      PolyValueLinear(h, s[16..], t[16..]);
      BitsXor(s[..16], t[..16]);
      var p := Power(h, |s| / 16);
      FieldMulAddLeft(Elem(s[..16]), Elem(t[..16]), p);
      AddInterchange(FieldMul(Elem(s[..16]), p), FieldMul(Elem(t[..16]), p),
                     PolyValue(h, s[16..]), PolyValue(h, t[16..]));
    }
  }

  function XorBlocks(s: Bytes, t: Bytes): (r: Bytes)
    requires WholeBlocks(s) && |s| == |t|
    ensures WholeBlocks(r) && |r| == |s|
  {
    Xor(s, t)
  }

  lemma ZeroBlockWhole(s: Bytes)
    requires WholeBlocks(s)
    ensures WholeBlocks(s + ZeroBlock())
  {
  }

  lemma XorSameBlock(b: Block)
    ensures Xor(b, b) == ZeroBlock()
  {
    forall i | 0 <= i < 16
      ensures b[i] ^ b[i] == 0
    {
    }
  }

  /**
   The XOR of two hashes of inputs of equal lengths is the value at h of the XOR of the padded
   inputs: the length blocks cancel.
   */
  lemma GhashXor(h: Block, aad: Bytes, c: Bytes, aad': Bytes, c': Bytes)
    requires |aad| == |aad'| && |c| == |c'|
    ensures |PaddedData(aad, c)| == |PaddedData(aad', c')|
    ensures var difference := XorBlocks(PaddedData(aad, c), PaddedData(aad', c'));
            WholeBlocks(difference + ZeroBlock())
            && Elem(Xor(GhashOf(h, aad, c), GhashOf(h, aad', c'))) == PolyValue(Elem(h), difference + ZeroBlock())
  {
    hide LengthBlock, PolyValue, Add, PaddedData, GhashOf, WholeBlocks;
    PaddedDataLength(aad, c, aad', c');
    GhashIsPolynomialValue(h, aad, c);
    GhashIsPolynomialValue(h, aad', c');
    BitsXor(GhashOf(h, aad, c), GhashOf(h, aad', c'));
    PolyValueLinear(Elem(h), GhashInput(aad, c), GhashInput(aad', c'));
    var lengths := LengthBlock(8 * |aad|, 8 * |c|);
    XorAppend(PaddedData(aad, c), lengths, PaddedData(aad', c'), lengths);
    XorSameBlock(lengths);
    ZeroBlockWhole(XorBlocks(PaddedData(aad, c), PaddedData(aad', c')));
  }

  lemma XorAppend(a: Bytes, b: Bytes, a': Bytes, b': Bytes)
    requires |a| == |a'| && |b| == |b'|
    ensures Xor(a + b, a' + b') == Xor(a, a') + Xor(b, b')
  {
  }

  // ----- the input, byte by byte

  /** The length of n bytes with their padding. */
  function Padded(n: nat): nat { (n + 15) / 16 * 16 }

  lemma PaddedLength(s: Bytes)
    ensures |Pad16(s)| == Padded(|s|)
  {
  }

  lemma {:induction false} BigEndianDigit(v: nat, n: nat, k: nat)
    requires k < n
    ensures BigEndian(v, n)[k] == BaseDigit(v, n - 1 - k)
    decreases n
  {
    if k < n - 1 {
      BigEndianDigit(v / 256, n - 1, k);
    }
  }

  /**
   What is hashed: the data and then the ciphertext, each padded with zeros to whole blocks, and a block
   of their lengths in bits, the data's first, in eight big-endian bytes each.
   */
  lemma GhashInputBytes(aad: Bytes, c: Bytes)
    ensures var s, a, n := GhashInput(aad, c), Padded(|aad|), Padded(|c|);
            && |s| == a + n + 16 && |aad| <= a && |c| <= n
            && (forall k | 0 <= k < a :: s[k] == if k < |aad| then aad[k] else 0)
            && (forall k | a <= k < a + n :: s[k] == if k - a < |c| then c[k - a] else 0)
            && (forall k | a + n <= k < a + n + 8 :: s[k] == BaseDigit(8 * |aad|, a + n + 7 - k))
            && (forall k | a + n + 8 <= k < a + n + 16 :: s[k] == BaseDigit(8 * |c|, a + n + 15 - k))
  {
    hide BigEndian, BaseDigit, Pad16, Padded;
    PaddedLength(aad);
    PaddedLength(c);
    LengthBytes(8 * |aad|, 8 * |c|);
  }

  lemma LengthBytes(m: nat, n: nat)
    ensures forall k | 0 <= k < 8 :: LengthBlock(m, n)[k] == BaseDigit(m, 7 - k)
    ensures forall k | 8 <= k < 16 :: LengthBlock(m, n)[k] == BaseDigit(n, 15 - k)
  {
    hide BigEndian, BaseDigit;
    forall k | 0 <= k < 8
      ensures BigEndian(m, 8)[k] == BaseDigit(m, 7 - k) && BigEndian(n, 8)[k] == BaseDigit(n, 7 - k)
    {
      BigEndianDigit(m, 8, k);
      BigEndianDigit(n, 8, k);
    }
  }
}
