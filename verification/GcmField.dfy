/**
 The field GF(2^128) of section 6.3 of NIST SP 800-38D: polynomials of degree below 128,
 multiplied modulo x^128 + x^7 + x^2 + x + 1.
 */
module GcmField {
  import opened Gf2Poly
  import Gf2Field

  type Element = p: Poly | |p| == 128 witness seq(128, k => false)

  /** x^7 + x^2 + x + 1: the byte 0xe1 in GCM bit order. */
  const REDUCTION: Poly := [true, true, true, false, false, false, false, true]

  function Gcm(): (f: Gf2Field.Field)
    ensures |f| == 128
    ensures forall k: int :: Coef(f, k) == (k == 0 || k == 1 || k == 2 || k == 7)
  {
    REDUCTION + seq(120, k => false)
  }

  function Zero(): Element { Gf2Field.Zero(Gcm()) }
  function One(): Element { Gf2Field.One(Gcm()) }
  function MulX(v: Element): Element { Gf2Field.MulX(Gcm(), v) }
  function FieldMul(x: Poly, v: Element): Element { Gf2Field.Mul(Gcm(), x, v) }

  lemma MulXCoefs(v: Element)
    ensures forall k | 0 <= k < 128 ::
              MulX(v)[k] == ((0 < k && v[k - 1]) != (v[127] && (k <= 2 || k == 7)))
  {
    var shifted, reduced := Cons(false, v[..127]), Scale(v[127], Gcm());
    forall k | 0 <= k < 128
      ensures MulX(v)[k] == ((0 < k && v[k - 1]) != (v[127] && (k <= 2 || k == 7)))
    {
      assert Coef(Add(shifted, reduced), k) == (Coef(shifted, k) != Coef(reduced, k));
    }
  }

  /** The modulus of the standard. */
  lemma ModulusTerms()
    ensures forall k: int :: Coef(Gf2Field.Modulus(Gcm()), k) == (k == 0 || k == 1 || k == 2 || k == 7 || k == 128)
  {
    forall k: int
      ensures Coef(Gf2Field.Modulus(Gcm()), k) == (k == 0 || k == 1 || k == 2 || k == 7 || k == 128)
    {
      if 0 <= k < 128 {
        assert Gf2Field.Modulus(Gcm())[k] == Gcm()[k];
        assert Coef(Gcm(), k) == Gcm()[k];
      }
    }
  }

  /**
   The field product is the remainder of the polynomial product, and the only one: an element is
   congruent to x * y modulo x^128 + x^7 + x^2 + x + 1 exactly when it is FieldMul(x, y).
   */
  lemma FieldMulIsRemainder(x: Element, y: Element, m: Poly, r: Element)
    requires forall k: int :: Coef(m, k) == (k == 0 || k == 1 || k == 2 || k == 7 || k == 128)
    ensures Gf2Field.Congruent(m, Product(x, y), r) <==> r == FieldMul(x, y)
  {
    var gcm, p := Gf2Field.Modulus(Gcm()), Product(x, y);
    ModulusTerms();
    CongruentModuli(m, gcm, p, r);
    CongruentModuli(gcm, m, p, r);
    Gf2Field.MulIsRemainder(Gcm(), x, y);
    if Gf2Field.Congruent(gcm, p, r) {
      Gf2Field.RemainderIsUnique(Gcm(), p, r, FieldMul(x, y));
    }
  }

  lemma CongruentModuli(m: Poly, m': Poly, p: Poly, r: Poly)
    requires Same(m, m')
    ensures Gf2Field.Congruent(m, p, r) ==> Gf2Field.Congruent(m', p, r)
  {
    if Gf2Field.Congruent(m, p, r) {
      var q: Poly :| Gf2Field.DividesTo(m, p, q, r);
      ProductRespectsSame(q, q, m, m');
      assert Gf2Field.DividesTo(m', p, q, r);
    }
  }

  // ----- the ring laws

  lemma FieldMulCommutes(x: Element, y: Element)
    ensures FieldMul(x, y) == FieldMul(y, x)
  {
    Gf2Field.MulCommutes(Gcm(), x, y);
  }

  lemma FieldMulAssociates(x: Element, y: Element, z: Element)
    ensures FieldMul(FieldMul(x, y), z) == FieldMul(x, FieldMul(y, z))
  {
    Gf2Field.MulAssociates(Gcm(), x, y, z);
  }

  lemma FieldMulAddLeft(x: Element, x': Element, y: Element)
    ensures FieldMul(Add(x, x'), y) == Add(FieldMul(x, y), FieldMul(x', y))
  {
    Gf2Field.MulAddLeft(Gcm(), x, x', y);
  }

  lemma FieldMulAddRight(x: Element, y: Element, y': Element)
    ensures FieldMul(x, Add(y, y')) == Add(FieldMul(x, y), FieldMul(x, y'))
  {
    Gf2Field.MulAddRight(Gcm(), x, y, y');
  }

  lemma FieldMulOne(x: Element)
    ensures FieldMul(One(), x) == x
  {
    Gf2Field.MulOne(Gcm(), x);
  }

  lemma FieldMulZero(x: Poly, v: Element)
    requires forall k | 0 <= k < |x| :: !x[k]
    ensures FieldMul(x, v) == Zero()
  {
    Gf2Field.MulZero(Gcm(), x, v);
  }

  // ----- addition

  lemma AddZeroLeft(p: Element)
    ensures Add(Zero(), p) == p
  {
    assert forall k | 0 <= k < 128 :: Coef(Add(Zero(), p), k) == Coef(p, k);
  }

  lemma AddZeroRight(p: Element)
    ensures Add(p, Zero()) == p
  {
    assert forall k | 0 <= k < 128 :: Coef(Add(p, Zero()), k) == Coef(p, k);
  }

  lemma AddEmpty(p: Element)
    ensures Add(p, []) == p
  {
    assert forall k | 0 <= k < 128 :: Coef(Add(p, []), k) == Coef(p, k);
  }

  lemma AddAssociates(p: Element, q: Element, r: Element)
    ensures Add(p, Add(q, r)) == Add(Add(p, q), r)
  {
    forall k | 0 <= k < 128
      ensures Add(p, Add(q, r))[k] == Add(Add(p, q), r)[k]
    {
      assert Coef(Add(p, Add(q, r)), k) == Coef(Add(Add(p, q), r), k);
    }
  }

  lemma AddInterchange(p: Element, q: Element, r: Element, s: Element)
    ensures Add(Add(p, q), Add(r, s)) == Add(Add(p, r), Add(q, s))
  {
    forall k | 0 <= k < 128
      ensures Add(Add(p, q), Add(r, s))[k] == Add(Add(p, r), Add(q, s))[k]
    {
      assert Coef(Add(Add(p, q), Add(r, s)), k) == Coef(Add(Add(p, r), Add(q, s)), k);
    }
  }
}
