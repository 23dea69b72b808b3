/**
 Polynomials over GF(2) modulo a monic polynomial of degree n: the residues are the coefficient
 sequences of length n.

 `Mul` follows the shift-and-add schedule of the programs. Its specification is independent of that
 schedule: it is the one remainder of the polynomial product (`MulIsRemainder`, `RemainderIsUnique`),
 from which the ring laws follow.
 */
module Gf2Field {
  import opened Gf2Poly

  /** The coefficients of x^n modulo the modulus. */
  type Field = f: Poly | |f| > 0 witness [true]

  predicate In(f: Field, v: Poly) { |v| == |f| }

  function Zero(f: Field): (v: Poly)
    ensures In(f, v)
  {
    seq(|f|, k => false)
  }

  function One(f: Field): (v: Poly)
    ensures In(f, v)
  {
    seq(|f|, k => k == 0)
  }

  /** x^n plus the lower terms. */
  function Modulus(f: Field): Poly { f + [true] }

  /** Multiplication by x, reduced. */
  function MulX(f: Field, v: Poly): (r: Poly)
    requires In(f, v)
    ensures In(f, r)
  {
    Add(Cons(false, v[..|f| - 1]), Scale(v[|f| - 1], f))
  }

  function Mul(f: Field, x: Poly, v: Poly): (r: Poly)
    requires In(f, v)
    ensures In(f, r)
  {
    if x == [] then Zero(f)
    else Add(Scale(x[0], v), Mul(f, x[1..], MulX(f, v)))
  }

  /** p is a multiple of m, plus r. */
  ghost predicate Congruent(m: Poly, p: Poly, r: Poly) {
    exists q: Poly :: DividesTo(m, p, q, r)
  }

  ghost predicate DividesTo(m: Poly, p: Poly, q: Poly, r: Poly) {
    forall k: int :: Coef(p, k) == (ProductCoef(q, m, k) != Coef(r, k))
  }

  // ----- Mul computes the remainder of the product

  function Quotient(f: Field, x: Poly, v: Poly): Poly
    requires In(f, v)
  {
    if x == [] then []
    else Add(Quotient(f, x[1..], MulX(f, v)), Scale(v[|f| - 1], x[1..]))
  }

  lemma {:induction false} DivisionIdentity(f: Field, x: Poly, v: Poly)
    requires In(f, v)
    ensures forall k: int :: ProductCoef(x, v, k)
                             == (ProductCoef(Quotient(f, x, v), Modulus(f), k) != Coef(Mul(f, x, v), k))
    decreases |x|
  {
    if x == [] {
      ProductEmpty(v);
      ProductEmpty(Modulus(f));
    } else {
      var b, t, c := x[0], x[1..], v[|f| - 1];
      assert x == Cons(b, t);
      ProductCons(b, t, v);
      ProductConsRight(t, v);
      var split := Add(MulX(f, v), Scale(c, Modulus(f)));
      assert Same(Cons(false, v), split);
      ProductRespectsSame(t, t, Cons(false, v), split);
      ProductAddRight(t, MulX(f, v), Scale(c, Modulus(f)));
      ProductScaleRight(c, t, Modulus(f));
      ProductAddLeft(Quotient(f, t, MulX(f, v)), Scale(c, t), Modulus(f));
      ProductScaleLeft(c, t, Modulus(f));
      DivisionIdentity(f, t, MulX(f, v));
    }
  }

  lemma MulIsRemainder(f: Field, x: Poly, y: Poly)
    requires In(f, y)
    ensures Congruent(Modulus(f), Product(x, y), Mul(f, x, y))
  {
    DivisionIdentity(f, x, y);
    ProductCoefs(x, y);
    assert DividesTo(Modulus(f), Product(x, y), Quotient(f, x, y), Mul(f, x, y));
  }

  /** A nonzero multiple of the modulus has a coefficient at or above x^|f|. */
  lemma {:induction false} MultipleReachesDegree(f: Field, d: Poly, e: nat)
    requires Coef(d, e) && forall i: int :: e < i ==> !Coef(d, i)
    ensures ProductCoef(d, Modulus(f), e + |f|)
  {
    var k := e + |f|;
    ConvZero(d, Modulus(f), k, 0, e);
    ConvAbove(f, d, e, k, e + 1, k + 1);
    ConvAppend(d, Modulus(f), k, 0, e + 1, k + 1);
  }

  lemma ConvAbove(f: Field, d: Poly, e: nat, k: int, lo: int, hi: int)
    requires e < lo && forall i: int :: e < i ==> !Coef(d, i)
    ensures !Conv(d, Modulus(f), k, lo, hi)
  {
    ConvZero(d, Modulus(f), k, lo, hi);
  }

  lemma {:induction false} ConvAppend(p: Poly, q: Poly, k: int, lo: int, mid: int, hi: int)
    requires lo <= mid <= hi
    ensures Conv(p, q, k, lo, hi) == (Conv(p, q, k, lo, mid) != Conv(p, q, k, mid, hi))
    decreases hi - mid
  {
    if mid < hi {
      ConvAppend(p, q, k, lo, mid, hi - 1);
    }
  }

  lemma {:induction false} TopCoefficient(d: Poly, n: nat) returns (e: int)
    requires n <= |d| && forall i: int :: n <= i ==> !Coef(d, i)
    ensures -1 <= e && (e < 0 || Coef(d, e)) && forall i: int :: e < i ==> !Coef(d, i)
  {
    if n == 0 {
      e := -1;
    } else if d[n - 1] {
      e := n - 1;
    } else {
      e := TopCoefficient(d, n - 1);
    }
  }

  lemma RemainderIsUnique(f: Field, p: Poly, r: Poly, r': Poly)
    requires In(f, r) && In(f, r')
    requires Congruent(Modulus(f), p, r) && Congruent(Modulus(f), p, r')
    ensures r == r'
  {
    var q: Poly :| DividesTo(Modulus(f), p, q, r);
    var q': Poly :| DividesTo(Modulus(f), p, q', r');
    var d := Add(q, q');
    ProductAddLeft(q, q', Modulus(f));
    forall k: int
      ensures ProductCoef(d, Modulus(f), k) == (Coef(r, k) != Coef(r', k))
    {
      assert Coef(p, k) == (ProductCoef(q, Modulus(f), k) != Coef(r, k));
      assert Coef(p, k) == (ProductCoef(q', Modulus(f), k) != Coef(r', k));
    }
    var e := TopCoefficient(d, |d|);
    if 0 <= e {
      MultipleReachesDegree(f, d, e);
      assert false;
    }
    assert Same(d, []);
    ProductRespectsSame(d, [], Modulus(f), Modulus(f));
    ProductEmpty(Modulus(f));
    forall k | 0 <= k < |f|
      ensures r[k] == r'[k]
    {
      assert Coef(r, k) == Coef(r', k);
    }
  }

  // ----- the ring laws

  lemma CongruentRespectsSame(f: Field, p: Poly, p': Poly, r: Poly)
    requires Congruent(Modulus(f), p, r) && Same(p, p')
    ensures Congruent(Modulus(f), p', r)
  {
    var q: Poly :| DividesTo(Modulus(f), p, q, r);
    assert DividesTo(Modulus(f), p', q, r);
  }

  lemma CongruentAdd(f: Field, p: Poly, r: Poly, p': Poly, r': Poly)
    requires Congruent(Modulus(f), p, r) && Congruent(Modulus(f), p', r')
    ensures Congruent(Modulus(f), Add(p, p'), Add(r, r'))
  {
    var q: Poly :| DividesTo(Modulus(f), p, q, r);
    var q': Poly :| DividesTo(Modulus(f), p', q', r');
    ProductAddLeft(q, q', Modulus(f));
    assert DividesTo(Modulus(f), Add(p, p'), Add(q, q'), Add(r, r'));
  }

  lemma MulCommutes(f: Field, x: Poly, y: Poly)
    requires In(f, x) && In(f, y)
    ensures Mul(f, x, y) == Mul(f, y, x)
  {
    MulIsRemainder(f, x, y);
    MulIsRemainder(f, y, x);
    ProductCoefs(x, y);
    ProductCoefs(y, x);
    ProductCommutes(x, y);
    CongruentRespectsSame(f, Product(y, x), Product(x, y), Mul(f, y, x));
    RemainderIsUnique(f, Product(x, y), Mul(f, x, y), Mul(f, y, x));
  }

  lemma MulAddLeft(f: Field, x: Poly, x': Poly, y: Poly)
    requires In(f, x) && In(f, x') && In(f, y)
    ensures Mul(f, Add(x, x'), y) == Add(Mul(f, x, y), Mul(f, x', y))
  {
    MulIsRemainder(f, x, y);
    MulIsRemainder(f, x', y);
    MulIsRemainder(f, Add(x, x'), y);
    CongruentAdd(f, Product(x, y), Mul(f, x, y), Product(x', y), Mul(f, x', y));
    ProductCoefs(x, y);
    ProductCoefs(x', y);
    ProductCoefs(Add(x, x'), y);
    ProductAddLeft(x, x', y);
    var sum := Add(Product(x, y), Product(x', y));
    CongruentRespectsSame(f, sum, Product(Add(x, x'), y), Add(Mul(f, x, y), Mul(f, x', y)));
    RemainderIsUnique(f, Product(Add(x, x'), y), Mul(f, Add(x, x'), y), Add(Mul(f, x, y), Mul(f, x', y)));
  }

  lemma MulAddRight(f: Field, x: Poly, y: Poly, y': Poly)
    requires In(f, x) && In(f, y) && In(f, y')
    ensures Mul(f, x, Add(y, y')) == Add(Mul(f, x, y), Mul(f, x, y'))
  {
    MulCommutes(f, x, Add(y, y'));
    MulCommutes(f, x, y);
    MulCommutes(f, x, y');
    MulAddLeft(f, y, y', x);
  }

  /** Reducing the left factor first does not change the remainder of a product. */
  lemma CongruentProduct(f: Field, p: Poly, r: Poly, z: Poly)
    requires In(f, r) && In(f, z)
    requires Congruent(Modulus(f), p, r)
    ensures Congruent(Modulus(f), Product(p, z), Mul(f, r, z))
  {
    var q: Poly :| DividesTo(Modulus(f), p, q, r);
    MulIsRemainder(f, r, z);
    var q': Poly :| DividesTo(Modulus(f), Product(r, z), q', Mul(f, r, z));
    var multiple := Product(q, Modulus(f));
    ProductCoefs(q, Modulus(f));
    assert Same(p, Add(multiple, r));
    ProductRespectsSame(p, Add(multiple, r), z, z);
    ProductAddLeft(multiple, r, z);
    MultipleTimes(f, q, z);
    ProductCoefs(p, z);
    ProductCoefs(r, z);
    ProductAddLeft(Product(q, z), q', Modulus(f));
    assert DividesTo(Modulus(f), Product(p, z), Add(Product(q, z), q'), Mul(f, r, z));
  }

  /** (q * M) * z == (q * z) * M */
  lemma MultipleTimes(f: Field, q: Poly, z: Poly)
    ensures forall k: int :: ProductCoef(Product(q, Modulus(f)), z, k) == ProductCoef(Product(q, z), Modulus(f), k)
  {
    ProductAssociates(q, Modulus(f), z);
    ProductAssociates(q, z, Modulus(f));
    ProductCoefs(Modulus(f), z);
    ProductCoefs(z, Modulus(f));
    ProductCommutes(Modulus(f), z);
    ProductRespectsSame(q, q, Product(Modulus(f), z), Product(z, Modulus(f)));
  }

  lemma MulAssociates(f: Field, x: Poly, y: Poly, z: Poly)
    requires In(f, x) && In(f, y) && In(f, z)
    ensures Mul(f, Mul(f, x, y), z) == Mul(f, x, Mul(f, y, z))
  {
    var left, right := Product(Product(x, y), z), Product(Product(y, z), x);
    MulIsRemainder(f, x, y);
    CongruentProduct(f, Product(x, y), Mul(f, x, y), z);
    MulIsRemainder(f, y, z);
    CongruentProduct(f, Product(y, z), Mul(f, y, z), x);
    ProductAssociates(x, y, z);
    ProductCommutes(x, Product(y, z));
    ProductCoefs(Product(x, y), z);
    ProductCoefs(Product(y, z), x);
    CongruentRespectsSame(f, right, left, Mul(f, Mul(f, y, z), x));
    RemainderIsUnique(f, left, Mul(f, Mul(f, x, y), z), Mul(f, Mul(f, y, z), x));
    MulCommutes(f, x, Mul(f, y, z));
  }

  lemma MulOne(f: Field, x: Poly)
    requires In(f, x)
    ensures Mul(f, One(f), x) == x
  {
    var rest: Poly := seq(|f| - 1, k => false);
    assert One(f)[1..] == rest;
    MulZero(f, rest, MulX(f, x));
    assert Mul(f, One(f), x) == Add(Scale(true, x), Zero(f));
    assert forall k | 0 <= k < |f| :: Coef(Mul(f, One(f), x), k) == x[k];
  }

  lemma {:induction false} MulZero(f: Field, x: Poly, v: Poly)
    requires In(f, v)
    requires forall k | 0 <= k < |x| :: !x[k]
    ensures Mul(f, x, v) == Zero(f)
    decreases |x|
  {
    if x != [] {
      MulZero(f, x[1..], MulX(f, v));
      assert forall k | 0 <= k < |f| :: !Coef(Mul(f, x, v), k);
    }
  }
}
