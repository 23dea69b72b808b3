/**
 Polynomials over GF(2), as sequences of coefficients: index k holds the coefficient of x^k.
 Two sequences that differ only by trailing zeros denote the same polynomial (`Same`).
 The product is the convolution of the coefficients, the textbook definition.
 */
module Gf2Poly {
  type Poly = seq<bool>

  function Max(a: int, b: int): int { if a < b then b else a }

  /** The coefficient of x^k; zero outside the stored range. */
  function Coef(p: Poly, k: int): bool { 0 <= k < |p| && p[k] }

  ghost predicate Same(p: Poly, q: Poly) {
    forall k: int :: Coef(p, k) == Coef(q, k)
  }

  function Add(p: Poly, q: Poly): (r: Poly)
    ensures |r| == Max(|p|, |q|)
    ensures forall k: int {:trigger Coef(r, k)} :: Coef(r, k) == (Coef(p, k) != Coef(q, k))
  {
    seq(Max(|p|, |q|), k => Coef(p, k) != Coef(q, k))
  }

  /** Multiplication by x, plus the constant b. */
  function Cons(b: bool, p: Poly): (r: Poly)
    ensures forall k: int {:trigger Coef(r, k)} :: Coef(r, k) == if k == 0 then b else Coef(p, k - 1)
  {
    [b] + p
  }

  function Scale(b: bool, p: Poly): (r: Poly)
    ensures forall k: int {:trigger Coef(r, k)} :: Coef(r, k) == (b && Coef(p, k))
  {
    if b then p else []
  }

  /** The sum over lo <= i < hi of p_i * q_(k-i). */
  function Conv(p: Poly, q: Poly, k: int, lo: int, hi: int): bool
    decreases hi - lo
  {
    if hi <= lo then false
    else Conv(p, q, k, lo, hi - 1) != (Coef(p, hi - 1) && Coef(q, k - hi + 1))
  }

  /** The coefficient of x^k in the product p * q. */
  function ProductCoef(p: Poly, q: Poly, k: int): bool { Conv(p, q, k, 0, k + 1) }

  function Product(p: Poly, q: Poly): Poly {
    seq(|p| + |q|, k => ProductCoef(p, q, k))
  }

  lemma {:induction false} ConvZero(p: Poly, q: Poly, k: int, lo: int, hi: int)
    requires forall i: int :: lo <= i < hi ==> !(Coef(p, i) && Coef(q, k - i))
    ensures !Conv(p, q, k, lo, hi)
    decreases hi - lo
  {
    if lo < hi {
      ConvZero(p, q, k, lo, hi - 1);
    }
  }

  lemma ProductCoefs(p: Poly, q: Poly)
    ensures forall k: int :: Coef(Product(p, q), k) == ProductCoef(p, q, k)
  {
    forall k: int
      ensures Coef(Product(p, q), k) == ProductCoef(p, q, k)
    {
      if !(0 <= k < |p| + |q|) {
        ConvZero(p, q, k, 0, k + 1);
      }
    }
  }

  lemma {:induction false} ConvSame(p: Poly, p': Poly, q: Poly, q': Poly, k: int, lo: int, hi: int)
    requires Same(p, p') && Same(q, q')
    ensures Conv(p, q, k, lo, hi) == Conv(p', q', k, lo, hi)
    decreases hi - lo
  {
    if lo < hi {
      ConvSame(p, p', q, q', k, lo, hi - 1);
    }
  }

  lemma {:induction false} ConvAddLeft(p: Poly, p': Poly, q: Poly, k: int, lo: int, hi: int)
    ensures Conv(Add(p, p'), q, k, lo, hi) == (Conv(p, q, k, lo, hi) != Conv(p', q, k, lo, hi))
    decreases hi - lo
  {
    if lo < hi {
      ConvAddLeft(p, p', q, k, lo, hi - 1);
    }
  }

  lemma {:induction false} ConvPeelLow(p: Poly, q: Poly, k: int, lo: int, hi: int)
    requires lo < hi
    ensures Conv(p, q, k, lo, hi) == ((Coef(p, lo) && Coef(q, k - lo)) != Conv(p, q, k, lo + 1, hi))
    decreases hi - lo
  {
    if lo + 1 < hi {
      ConvPeelLow(p, q, k, lo, hi - 1);
    } else {
      assert !Conv(p, q, k, lo, hi - 1);
    }
  }

  lemma {:induction false} ConvReverse(p: Poly, q: Poly, k: int, lo: int, hi: int)
    ensures Conv(p, q, k, lo, hi) == Conv(q, p, k, k - hi + 1, k - lo + 1)
    decreases hi - lo
  {
    if lo < hi {
      ConvReverse(p, q, k, lo, hi - 1);
      ConvPeelLow(q, p, k, k - hi + 1, k - lo + 1);
    }
  }

  lemma {:induction false} ConvTail(b: bool, p: Poly, q: Poly, k: int, lo: int, hi: int)
    requires 0 < lo
    ensures Conv(Cons(b, p), q, k, lo, hi) == Conv(p, q, k - 1, lo - 1, hi - 1)
    decreases hi - lo
  {
    if lo < hi {
      ConvTail(b, p, q, k, lo, hi - 1);
    }
  }

  // ----- the ring laws, coefficient by coefficient

  lemma ProductCommutes(p: Poly, q: Poly)
    ensures forall k: int :: ProductCoef(p, q, k) == ProductCoef(q, p, k)
  {
    forall k: int
      ensures ProductCoef(p, q, k) == ProductCoef(q, p, k)
    {
      ConvReverse(p, q, k, 0, k + 1);
    }
  }

  lemma ProductRespectsSame(p: Poly, p': Poly, q: Poly, q': Poly)
    requires Same(p, p') && Same(q, q')
    ensures forall k: int :: ProductCoef(p, q, k) == ProductCoef(p', q', k)
  {
    forall k: int
      ensures ProductCoef(p, q, k) == ProductCoef(p', q', k)
    {
      ConvSame(p, p', q, q', k, 0, k + 1);
    }
  }

  lemma ProductAddLeft(p: Poly, p': Poly, q: Poly)
    ensures forall k: int :: ProductCoef(Add(p, p'), q, k) == (ProductCoef(p, q, k) != ProductCoef(p', q, k))
  {
    forall k: int
      ensures ProductCoef(Add(p, p'), q, k) == (ProductCoef(p, q, k) != ProductCoef(p', q, k))
    {
      ConvAddLeft(p, p', q, k, 0, k + 1);
    }
  }

  lemma ProductAddRight(p: Poly, q: Poly, q': Poly)
    ensures forall k: int :: ProductCoef(p, Add(q, q'), k) == (ProductCoef(p, q, k) != ProductCoef(p, q', k))
  {
    ProductAddLeft(q, q', p);
    ProductCommutes(p, Add(q, q'));
    ProductCommutes(p, q);
    ProductCommutes(p, q');
  }

  lemma ProductCons(b: bool, p: Poly, q: Poly)
    ensures forall k: int :: ProductCoef(Cons(b, p), q, k)
                             == ((b && Coef(q, k)) != ProductCoef(p, q, k - 1))
  {
    forall k: int
      ensures ProductCoef(Cons(b, p), q, k) == ((b && Coef(q, k)) != ProductCoef(p, q, k - 1))
    {
      if 0 <= k {
        ConvPeelLow(Cons(b, p), q, k, 0, k + 1);
        ConvTail(b, p, q, k, 1, k + 1);
      }
    }
  }

  lemma ProductEmpty(q: Poly)
    ensures forall k: int :: !ProductCoef([], q, k)
  {
    forall k: int
      ensures !ProductCoef([], q, k)
    {
      ConvZero([], q, k, 0, k + 1);
    }
  }

  lemma ProductScaleLeft(b: bool, p: Poly, q: Poly)
    ensures forall k: int :: ProductCoef(Scale(b, p), q, k) == (b && ProductCoef(p, q, k))
  {
    ProductEmpty(q);
  }

  lemma ProductScaleRight(b: bool, p: Poly, q: Poly)
    ensures forall k: int :: ProductCoef(p, Scale(b, q), k) == (b && ProductCoef(p, q, k))
  {
    ProductScaleLeft(b, q, p);
    ProductCommutes(p, Scale(b, q));
    ProductCommutes(p, q);
  }

  /** Multiplying the right factor by x multiplies the product by x. */
  lemma ProductConsRight(p: Poly, q: Poly)
    ensures forall k: int :: ProductCoef(p, Cons(false, q), k) == ProductCoef(p, q, k - 1)
  {
    ProductCommutes(p, Cons(false, q));
    ProductCons(false, q, p);
    ProductCommutes(p, q);
  }

  lemma {:induction false} ProductAssociates(p: Poly, q: Poly, r: Poly)
    ensures forall k: int :: ProductCoef(Product(p, q), r, k) == ProductCoef(p, Product(q, r), k)
    decreases |p|
  {
    ProductCoefs(p, q);
    ProductCoefs(q, r);
    if p == [] {
      ProductEmpty(q);
      ProductEmpty(Product(q, r));
      ProductEmpty(r);
      assert Same(Product(p, q), []);
      ProductRespectsSame(Product(p, q), [], r, r);
    } else {
      var b, t := p[0], p[1..];
      assert p == Cons(b, t);
      ProductCons(b, t, q);
      ProductCoefs(t, q);
      var split := Add(Scale(b, q), Cons(false, Product(t, q)));
      assert Same(Product(p, q), split);
      ProductRespectsSame(Product(p, q), split, r, r);
      ProductAddLeft(Scale(b, q), Cons(false, Product(t, q)), r);
      ProductScaleLeft(b, q, r);
      ProductCons(false, Product(t, q), r);
      ProductCons(b, t, Product(q, r));
      ProductAssociates(t, q, r);
    }
  }
}
