/**
 The byte field of section 4.2 of FIPS 197: polynomials of degree below 8 modulo
 x^8 + x^4 + x^3 + x + 1, bit k of a byte holding the coefficient of x^k.
 */
module AesField {
  import opened Gf2Poly
  import opened Gf2Field
  import opened Bytes

  /** x^8 modulo the modulus: x^4 + x^3 + x + 1, the constant 0x1b. */
  function Rijndael(): (f: Field)
    ensures |f| == 8
  {
    [true, true, false, true, true, false, false, false]
  }

  function BytePoly(b: Byte): (p: Poly)
    ensures |p| == 8
  {
    [b & 0x01 != 0, b & 0x02 != 0, b & 0x04 != 0, b & 0x08 != 0,
     b & 0x10 != 0, b & 0x20 != 0, b & 0x40 != 0, b & 0x80 != 0]
  }

  /** Multiplication by x. */
  function Xtime(a: Byte): Byte {
    (a << 1) ^ (if a & 0x80 != 0 then 0x1b else 0)
  }

  /** Multiplication as the sum of the products of a by the powers of x present in b. */
  function GfMul(a: Byte, b: Byte): Byte {
    var a1 := Xtime(a);
    var a2 := Xtime(a1);
    var a3 := Xtime(a2);
    var a4 := Xtime(a3);
    var a5 := Xtime(a4);
    var a6 := Xtime(a5);
    var a7 := Xtime(a6);
    Sum8(if b & 0x01 != 0 then a else 0, if b & 0x02 != 0 then a1 else 0,
         if b & 0x04 != 0 then a2 else 0, if b & 0x08 != 0 then a3 else 0,
         if b & 0x10 != 0 then a4 else 0, if b & 0x20 != 0 then a5 else 0,
         if b & 0x40 != 0 then a6 else 0, if b & 0x80 != 0 then a7 else 0)
  }

  function Sum8(t0: Byte, t1: Byte, t2: Byte, t3: Byte, t4: Byte, t5: Byte, t6: Byte, t7: Byte): Byte {
    t0 ^ t1 ^ t2 ^ t3 ^ t4 ^ t5 ^ t6 ^ t7
  }

  lemma BytePolyInjective(a: Byte, b: Byte)
    requires BytePoly(a) == BytePoly(b)
    ensures a == b
  {
    var p, q := BytePoly(a), BytePoly(b);
    assert p[0] == q[0] && p[1] == q[1] && p[2] == q[2] && p[3] == q[3];
    assert p[4] == q[4] && p[5] == q[5] && p[6] == q[6] && p[7] == q[7];
  }

  lemma BytePolyXor(a: Byte, b: Byte)
    ensures BytePoly(Sum(a, b)) == Add(BytePoly(a), BytePoly(b))
  {
    hide BytePoly, Has, Sum, Add;
    BitsOf(a);
    BitsOf(b);
    BitsOf(Sum(a, b));
    SumHas(a, b);
    AddEight(BytePoly(a), BytePoly(b));
  }

  predicate Has(b: Byte, mask: Byte) { b & mask != 0 }

  lemma BitsOf(b: Byte)
    ensures BytePoly(b) == [Has(b, 0x01), Has(b, 0x02), Has(b, 0x04), Has(b, 0x08),
                            Has(b, 0x10), Has(b, 0x20), Has(b, 0x40), Has(b, 0x80)]
  {
  }

  lemma SumHas(a: Byte, b: Byte)
    ensures Has(Sum(a, b), 0x01) == (Has(a, 0x01) != Has(b, 0x01))
    ensures Has(Sum(a, b), 0x02) == (Has(a, 0x02) != Has(b, 0x02))
    ensures Has(Sum(a, b), 0x04) == (Has(a, 0x04) != Has(b, 0x04))
    ensures Has(Sum(a, b), 0x08) == (Has(a, 0x08) != Has(b, 0x08))
    ensures Has(Sum(a, b), 0x10) == (Has(a, 0x10) != Has(b, 0x10))
    ensures Has(Sum(a, b), 0x20) == (Has(a, 0x20) != Has(b, 0x20))
    ensures Has(Sum(a, b), 0x40) == (Has(a, 0x40) != Has(b, 0x40))
    ensures Has(Sum(a, b), 0x80) == (Has(a, 0x80) != Has(b, 0x80))
  {
  }

  /** The sum of two polynomials, written out. */
  lemma AddEight(p: Poly, q: Poly)
    requires |p| == |q| == 8
    ensures Add(p, q) == [p[0] != q[0], p[1] != q[1], p[2] != q[2], p[3] != q[3],
                          p[4] != q[4], p[5] != q[5], p[6] != q[6], p[7] != q[7]]
  {
    hide Add;
    AddAt(p, q);
  }

  lemma AddAt(p: Poly, q: Poly)
    requires |p| == |q|
    ensures forall k | 0 <= k < |p| :: Add(p, q)[k] == (p[k] != q[k])
  {
    hide Add;
    forall k | 0 <= k < |p|
      ensures Add(p, q)[k] == (p[k] != q[k])
    {
      assert Add(p, q)[k] == Coef(Add(p, q), k);
    }
  }

  lemma AddNothing(p: Poly)
    ensures Add(p, []) == p
  {
    forall k | 0 <= k < |p|
      ensures Add(p, [])[k] == p[k]
    {
      assert Add(p, [])[k] == Coef(Add(p, []), k);
    }
  }

  lemma XtimeIsMulX(a: Byte)
    ensures BytePoly(Xtime(a)) == MulX(Rijndael(), BytePoly(a))
  {
    hide BytePoly, Xtime;
    XtimeBits(a);
    MulXEight(BytePoly(a));
  }

  lemma MulXEight(p: Poly)
    requires |p| == 8
    ensures MulX(Rijndael(), p) == [p[7], p[0] != p[7], p[1], p[2] != p[7], p[3] != p[7], p[4], p[5], p[6]]
  {
    hide Add;
    if p[7] {
      AddEight(Cons(false, p[..7]), Rijndael());
    } else {
      AddNothing(Cons(false, p[..7]));
    }
  }

  lemma XtimeBits(a: Byte)
    ensures var p := BytePoly(a);
            BytePoly(Xtime(a)) == [p[7], p[0] != p[7], p[1], p[2] != p[7], p[3] != p[7], p[4], p[5], p[6]]
  {
  }

  // ----- the byte product is the product of the field

  /** The sum of two bytes as polynomials. */
  function Sum(a: Byte, b: Byte): Byte { a ^ b }

  function Take(cond: bool, a: Byte): Byte { if cond then a else 0 }

  /** The terms of the product for the low nibble of b. */
  function NibbleMul(a: Byte, b: Byte): Byte {
    var a1 := Xtime(a);
    var a2 := Xtime(a1);
    var a3 := Xtime(a2);
    Sum(Take(b & 0x01 != 0, a), Sum(Take(b & 0x02 != 0, a1), Sum(Take(b & 0x04 != 0, a2), Take(b & 0x08 != 0, a3))))
  }

  function Xtime4(a: Byte): Byte { Xtime(Xtime(Xtime(Xtime(a)))) }

  lemma HighMasks(b: Byte)
    ensures ((b >> 4) & 0x01 != 0) == (b & 0x10 != 0) && ((b >> 4) & 0x02 != 0) == (b & 0x20 != 0)
    ensures ((b >> 4) & 0x04 != 0) == (b & 0x40 != 0) && ((b >> 4) & 0x08 != 0) == (b & 0x80 != 0)
  {
  }

  lemma EightTerms(t0: Byte, t1: Byte, t2: Byte, t3: Byte, t4: Byte, t5: Byte, t6: Byte, t7: Byte)
    ensures Sum8(t0, t1, t2, t3, t4, t5, t6, t7)
            == Sum(Sum(t0, Sum(t1, Sum(t2, t3))), Sum(t4, Sum(t5, Sum(t6, t7))))
  {
  }

  lemma GfMulSplit(a: Byte, b: Byte)
    ensures GfMul(a, b) == Sum(NibbleMul(a, b), NibbleMul(Xtime4(a), b >> 4))
  {
    hide Xtime, Sum, Sum8;
    var a1 := Xtime(a);
    var a2 := Xtime(a1);
    var a3 := Xtime(a2);
    var a4 := Xtime(a3);
    var a5 := Xtime(a4);
    var a6 := Xtime(a5);
    var a7 := Xtime(a6);
    HighMasks(b);
    EightTerms(Take(b & 0x01 != 0, a), Take(b & 0x02 != 0, a1), Take(b & 0x04 != 0, a2), Take(b & 0x08 != 0, a3),
               Take(b & 0x10 != 0, a4), Take(b & 0x20 != 0, a5), Take(b & 0x40 != 0, a6), Take(b & 0x80 != 0, a7));
  }

  /** One more term of the sum. */
  lemma MulStep(a: Byte, p: Poly, k: nat, rest: Byte)
    requires k < |p|
    requires BytePoly(rest) == Mul(Rijndael(), p[k + 1..], BytePoly(Xtime(a)))
    ensures BytePoly(Sum(Take(p[k], a), rest)) == Mul(Rijndael(), p[k..], BytePoly(a))
  {
    hide Sum, BytePoly, Rijndael, Xtime, Take, MulX, Mul, Add, Scale;
    XtimeIsMulX(a);
    BytePolyXor(Take(p[k], a), rest);
    MulPeel(Rijndael(), p, k, BytePoly(a));
    TakeIsScale(p[k], a, BytePoly(rest));
  }

  lemma MulPeel(f: Field, p: Poly, k: nat, v: Poly)
    requires k < |p| && In(f, v)
    ensures Mul(f, p[k..], v) == Add(Scale(p[k], v), Mul(f, p[k + 1..], MulX(f, v)))
  {
    assert p[k..][1..] == p[k + 1..];
  }

  lemma TakeIsScale(cond: bool, a: Byte, rest: Poly)
    requires |rest| == 8
    ensures Add(BytePoly(Take(cond, a)), rest) == Add(Scale(cond, BytePoly(a)), rest)
  {
    if !cond {
      assert BytePoly(0) == [false, false, false, false, false, false, false, false];
      forall k | 0 <= k < 8
        ensures Add(BytePoly(0), rest)[k] == Add([], rest)[k]
      {
        assert Coef(Add(BytePoly(0), rest), k) == Coef(Add([], rest), k);
      }
    }
  }

  lemma NoTerms(a: Byte)
    ensures BytePoly(0) == Mul(Rijndael(), [], BytePoly(a))
  {
    MulZero(Rijndael(), [], BytePoly(a));
  }

  lemma NibbleMulIsMul(a: Byte, b: Byte)
    ensures BytePoly(NibbleMul(a, b)) == Mul(Rijndael(), BytePoly(b)[..4], BytePoly(a))
  {
    hide Sum, BytePoly, Rijndael, Xtime, Take, MulX, Mul, Add, Scale, NibbleMul;
    FourTerms(a, BytePoly(b)[..4]);
    NibbleTerms(a, b);
  }

  lemma NibbleTerms(a: Byte, b: Byte)
    ensures var p := BytePoly(b);
            var a1 := Xtime(a);
            var a2 := Xtime(a1);
            var a3 := Xtime(a2);
            NibbleMul(a, b) == Sum(Take(p[0], a), Sum(Take(p[1], a1), Sum(Take(p[2], a2), Take(p[3], a3))))
  {
    hide Sum, Xtime, Take;
  }

  lemma FourTerms(a: Byte, p: Poly)
    requires |p| == 4
    ensures var a1 := Xtime(a);
            var a2 := Xtime(a1);
            var a3 := Xtime(a2);
            BytePoly(Sum(Take(p[0], a), Sum(Take(p[1], a1), Sum(Take(p[2], a2), Take(p[3], a3)))))
            == Mul(Rijndael(), p, BytePoly(a))
  {
    hide Sum, BytePoly, Rijndael, Xtime, Take, MulX, Mul, Add, Scale;
    var a2 := Xtime(Xtime(a));
    LastTwoTerms(a2, p);
    FirstTwoTerms(a, p, Sum(Take(p[2], a2), Take(p[3], Xtime(a2))));
  }

  lemma FirstTwoTerms(a: Byte, p: Poly, rest: Byte)
    requires |p| == 4
    requires BytePoly(rest) == Mul(Rijndael(), p[2..], BytePoly(Xtime(Xtime(a))))
    ensures BytePoly(Sum(Take(p[0], a), Sum(Take(p[1], Xtime(a)), rest))) == Mul(Rijndael(), p, BytePoly(a))
  {
    hide Sum, BytePoly, Rijndael, Xtime, Take, MulX, Mul, Add, Scale;
    MulStep(Xtime(a), p, 1, rest);
    MulStep(a, p, 0, Sum(Take(p[1], Xtime(a)), rest));
    assert p[0..] == p;
  }

  lemma LastTwoTerms(a: Byte, p: Poly)
    requires |p| == 4
    ensures BytePoly(Sum(Take(p[2], a), Take(p[3], Xtime(a)))) == Mul(Rijndael(), p[2..], BytePoly(a))
  {
    hide Sum, BytePoly, Rijndael, Xtime, Take, MulX, Mul, Add, Scale;
    NoTerms(Xtime(Xtime(a)));
    assert p[4..] == [];
    MulStep(Xtime(a), p, 3, 0);
    XorZero(Take(p[3], Xtime(a)));
    MulStep(a, p, 2, Take(p[3], Xtime(a)));
  }

  lemma XorZero(a: Byte)
    ensures Sum(a, 0) == a
  {
  }

  /** Splitting the left factor after its first n coefficients. */
  lemma {:induction false} MulSplit(f: Field, p: Poly, n: nat, v: Poly)
    requires n <= |p| && In(f, v)
    ensures Mul(f, p, v) == Add(Mul(f, p[..n], v), Mul(f, p[n..], MulXn(f, n, v)))
    decreases n
  {
    hide MulX;
    if n == 0 {
      assert p[..0] == [] && p[0..] == p;
      AddZero(f, Mul(f, p, v));
    } else {
      MulSplit(f, p[1..], n - 1, MulX(f, v));
      assert p[1..][..n - 1] == p[..n][1..];
      assert p[1..][n - 1..] == p[n..];
      AddRegroup(f, Scale(p[0], v), Mul(f, p[..n][1..], MulX(f, v)), Mul(f, p[n..], MulXn(f, n, v)));
    }
  }

  function MulXn(f: Field, n: nat, v: Poly): (r: Poly)
    requires In(f, v)
    ensures In(f, r)
  {
    if n == 0 then v else MulXn(f, n - 1, MulX(f, v))
  }

  lemma AddZero(f: Field, v: Poly)
    requires In(f, v)
    ensures Add(Zero(f), v) == v
  {
    assert forall k | 0 <= k < |f| :: Coef(Add(Zero(f), v), k) == Coef(v, k);
  }

  lemma AddRegroup(f: Field, p: Poly, q: Poly, r: Poly)
    requires |p| <= |f| && In(f, q) && In(f, r)
    ensures Add(p, Add(q, r)) == Add(Add(p, q), r)
  {
    forall k | 0 <= k < |f|
      ensures Add(p, Add(q, r))[k] == Add(Add(p, q), r)[k]
    {
      assert Coef(Add(p, Add(q, r)), k) == Coef(Add(Add(p, q), r), k);
    }
  }

  lemma Xtime4IsMulX4(a: Byte)
    ensures BytePoly(Xtime4(a)) == MulXn(Rijndael(), 4, BytePoly(a))
  {
    hide BytePoly, MulX, Rijndael, Xtime;
    var f, a1 := Rijndael(), Xtime(a);
    var a2 := Xtime(a1);
    var a3 := Xtime(a2);
    XtimeIsMulX(a); XtimeIsMulX(a1); XtimeIsMulX(a2); XtimeIsMulX(a3);
    assert MulXn(f, 1, BytePoly(a3)) == MulXn(f, 0, BytePoly(Xtime(a3)));
    assert MulXn(f, 2, BytePoly(a2)) == MulXn(f, 1, BytePoly(a3));
    assert MulXn(f, 3, BytePoly(a1)) == MulXn(f, 2, BytePoly(a2));
    assert MulXn(f, 4, BytePoly(a)) == MulXn(f, 3, BytePoly(a1));
  }

  lemma HighNibble(b: Byte)
    ensures BytePoly(b >> 4)[..4] == BytePoly(b)[4..]
  {
    assert BytePoly(b >> 4)[..4] == [b & 0x10 != 0, b & 0x20 != 0, b & 0x40 != 0, b & 0x80 != 0];
  }

  /** The byte product is the product of the field: the remainder of the polynomial product. */
  lemma GfMulIsMul(a: Byte, b: Byte)
    ensures BytePoly(GfMul(a, b)) == Mul(Rijndael(), BytePoly(b), BytePoly(a))
  {
    hide Sum, BytePoly, GfMul, NibbleMul, Rijndael, Xtime4, Mul;
    GfMulSplit(a, b);
    NibbleMulIsMul(a, b);
    NibbleMulIsMul(Xtime4(a), b >> 4);
    HighNibble(b);
    Xtime4IsMulX4(a);
    MulSplit(Rijndael(), BytePoly(b), 4, BytePoly(a));
    BytePolyXor(NibbleMul(a, b), NibbleMul(Xtime4(a), b >> 4));
  }

  /** The byte product is the one remainder of the polynomial product modulo x^8 + x^4 + x^3 + x + 1. */
  lemma GfMulIsRemainder(a: Byte, b: Byte, m: Poly, r: Byte)
    requires m == [true, true, false, true, true, false, false, false, true]
    ensures Congruent(m, Product(BytePoly(b), BytePoly(a)), BytePoly(r)) <==> r == GfMul(a, b)
  {
    hide GfMul, BytePoly;
    assert Modulus(Rijndael()) == m;
    GfMulIsMul(a, b);
    MulIsRemainder(Rijndael(), BytePoly(b), BytePoly(a));
    if Congruent(m, Product(BytePoly(b), BytePoly(a)), BytePoly(r)) {
      RemainderIsUnique(Rijndael(), Product(BytePoly(b), BytePoly(a)), BytePoly(r), BytePoly(GfMul(a, b)));
      BytePolyInjective(r, GfMul(a, b));
    }
  }

  // ----- the ring laws, on bytes

  lemma GfMulCommutes(a: Byte, b: Byte)
    ensures GfMul(a, b) == GfMul(b, a)
  {
    GfMulIsMul(a, b);
    GfMulIsMul(b, a);
    MulCommutes(Rijndael(), BytePoly(a), BytePoly(b));
    BytePolyInjective(GfMul(a, b), GfMul(b, a));
  }

  lemma GfMulAdd(a: Byte, b: Byte, c: Byte)
    ensures GfMul(a, Sum(b, c)) == Sum(GfMul(a, b), GfMul(a, c))
  {
    hide Sum, GfMul, BytePoly, Mul, Add;
    GfMulIsMul(a, b);
    GfMulIsMul(a, c);
    GfMulIsMul(a, Sum(b, c));
    BytePolyXor(b, c);
    BytePolyXor(GfMul(a, b), GfMul(a, c));
    MulAddLeft(Rijndael(), BytePoly(b), BytePoly(c), BytePoly(a));
    BytePolyInjective(GfMul(a, Sum(b, c)), Sum(GfMul(a, b), GfMul(a, c)));
  }

  lemma GfMulAssociates(a: Byte, b: Byte, c: Byte)
    ensures GfMul(GfMul(a, b), c) == GfMul(a, GfMul(b, c))
  {
    hide GfMul, BytePoly, Mul;
    var f, p, q, r := Rijndael(), BytePoly(a), BytePoly(b), BytePoly(c);
    GfMulIsMul(a, b);
    GfMulIsMul(GfMul(a, b), c);
    GfMulIsMul(b, c);
    GfMulIsMul(a, GfMul(b, c));
    MulAssociates(f, r, q, p);
    BytePolyInjective(GfMul(GfMul(a, b), c), GfMul(a, GfMul(b, c)));
  }

  lemma GfMulOne(a: Byte)
    ensures GfMul(a, 1) == a
  {
  }

  /** The multiplicative inverse, with 0 mapped to itself. */
  predicate IsInverse(b: Byte, i: Byte) {
    if b == 0 then i == 0 else GfMul(b, i) == 1
  }

  lemma ZeroHasNoInverse(a: Byte)
    ensures GfMul(a, 0) == 0
  {
  }

  /** An inverse belongs to one byte only. */
  lemma InverseInjective(a: Byte, b: Byte, i: Byte)
    requires IsInverse(a, i) && IsInverse(b, i)
    ensures a == b
  {
    hide GfMul;
    ZeroHasNoInverse(a);
    ZeroHasNoInverse(b);
    if a != 0 && b != 0 {
      GfMulCommutes(b, i);
      GfMulAssociates(a, i, b);
      GfMulOne(a);
      GfMulCommutes(1, b);
      GfMulOne(b);
    }
  }

  // ----- MixColumns, on the four bytes of a column

  lemma SmallMultiples(b: Byte)
    ensures GfMul(1, b) == b && GfMul(2, b) == Xtime(b) && GfMul(3, b) == Sum(Xtime(b), b)
  {
  }

  /** One byte of a mixed column: the byte itself doubled, the next one tripled, and the other two. */
  function MixRow(own: Byte, next: Byte, c: Byte, d: Byte): Byte {
    Sum(Sum(Xtime(own), Sum(Xtime(next), next)), Sum(c, d))
  }

  lemma MixKernel(a0: Byte, a1: Byte, a2: Byte, a3: Byte)
    requires MixRow(a0, a1, a2, a3) == 0 && MixRow(a1, a2, a3, a0) == 0
    requires MixRow(a2, a3, a0, a1) == 0 && MixRow(a3, a0, a1, a2) == 0
    ensures a0 == 0 && a1 == 0 && a2 == 0 && a3 == 0
  {
  }

  lemma XtimeAdd(a: Byte, b: Byte)
    ensures Xtime(Sum(a, b)) == Sum(Xtime(a), Xtime(b))
  {
    hide Xtime, Sum, GfMul;
    SmallMultiples(a);
    SmallMultiples(b);
    SmallMultiples(Sum(a, b));
    GfMulAdd(2, a, b);
  }

  lemma SumAssociates(a: Byte, b: Byte, c: Byte)
    ensures Sum(a, Sum(b, c)) == Sum(Sum(a, b), c)
  {
  }

  lemma SumCommutes(a: Byte, b: Byte)
    ensures Sum(a, b) == Sum(b, a)
  {
  }

  lemma SumFour(a: Byte, b: Byte, c: Byte, d: Byte)
    ensures Sum(Sum(a, b), Sum(c, d)) == Sum(Sum(a, c), Sum(b, d))
  {
    hide Sum;
    SumAssociates(Sum(a, b), c, d);
    SumAssociates(a, b, c);
    SumCommutes(b, c);
    SumAssociates(a, c, b);
    SumAssociates(Sum(a, c), b, d);
  }

  lemma SumInterchange(x0: Byte, x1: Byte, x2: Byte, x3: Byte, x4: Byte,
                       y0: Byte, y1: Byte, y2: Byte, y3: Byte, y4: Byte)
    ensures Sum(Sum(Sum(x0, y0), Sum(Sum(x1, y1), Sum(x2, y2))), Sum(Sum(x3, y3), Sum(x4, y4)))
            == Sum(Sum(Sum(x0, Sum(x1, x2)), Sum(x3, x4)), Sum(Sum(y0, Sum(y1, y2)), Sum(y3, y4)))
  {
    hide Sum;
    SumFour(x1, y1, x2, y2);
    SumFour(x0, y0, Sum(x1, x2), Sum(y1, y2));
    SumFour(x3, y3, x4, y4);
    SumFour(Sum(x0, Sum(x1, x2)), Sum(y0, Sum(y1, y2)), Sum(x3, x4), Sum(y3, y4));
  }

  lemma SumSelf(a: Byte)
    ensures Sum(a, a) == 0
  {
  }

  lemma SumZero(a: Byte, b: Byte)
    requires Sum(a, b) == 0
    ensures a == b
  {
  }

  lemma MixRowDifference(a0: Byte, a1: Byte, a2: Byte, a3: Byte, b0: Byte, b1: Byte, b2: Byte, b3: Byte)
    requires MixRow(a0, a1, a2, a3) == MixRow(b0, b1, b2, b3)
    ensures MixRow(Sum(a0, b0), Sum(a1, b1), Sum(a2, b2), Sum(a3, b3)) == 0
  {
    hide Xtime, Sum;
    XtimeAdd(a0, b0);
    XtimeAdd(a1, b1);
    SumInterchange(Xtime(a0), Xtime(a1), a1, a2, a3, Xtime(b0), Xtime(b1), b1, b2, b3);
    SumSelf(MixRow(a0, a1, a2, a3));
  }

  lemma MixInjective(a0: Byte, a1: Byte, a2: Byte, a3: Byte, b0: Byte, b1: Byte, b2: Byte, b3: Byte)
    requires MixRow(a0, a1, a2, a3) == MixRow(b0, b1, b2, b3)
    requires MixRow(a1, a2, a3, a0) == MixRow(b1, b2, b3, b0)
    requires MixRow(a2, a3, a0, a1) == MixRow(b2, b3, b0, b1)
    requires MixRow(a3, a0, a1, a2) == MixRow(b3, b0, b1, b2)
    ensures a0 == b0 && a1 == b1 && a2 == b2 && a3 == b3
  {
    hide MixRow, Sum;
    MixRowDifference(a0, a1, a2, a3, b0, b1, b2, b3);
    MixRowDifference(a1, a2, a3, a0, b1, b2, b3, b0);
    MixRowDifference(a2, a3, a0, a1, b2, b3, b0, b1);
    MixRowDifference(a3, a0, a1, a2, b3, b0, b1, b2);
    MixKernel(Sum(a0, b0), Sum(a1, b1), Sum(a2, b2), Sum(a3, b3));
    SumZero(a0, b0);
    SumZero(a1, b1);
    SumZero(a2, b2);
    SumZero(a3, b3);
  }

  /** The products by 2, 3, 1 and 1 of the matrix, in the order of the row. */
  lemma MixRowProducts(own: Byte, next: Byte, c: Byte, d: Byte)
    ensures MixRow(own, next, c, d) == Sum(Sum(GfMul(2, own), GfMul(3, next)), Sum(GfMul(1, c), GfMul(1, d)))
  {
    hide GfMul, Xtime, Sum;
    SmallMultiples(own);
    SmallMultiples(next);
    SmallMultiples(c);
    SmallMultiples(d);
  }
}
