/** Bytes as numbers from 0 to 255. */
module ByteNumbers {
  function LowByte(v: nat): bv8 { (v % 256) as bv8 }

  lemma NatAsByte(b: bv8)
    ensures b as nat < 256 && (b as nat) as bv8 == b
  {
  }

  lemma ByteSuccessor(b: bv8)
    ensures b + 1 != 0 ==> (b + 1) as nat == b as nat + 1
    ensures b + 1 == 0 ==> b as nat == 255
  {
  }

  /** Counting up from 0 reaches the byte of every number below 256. */
  lemma {:induction false} ByteOfNat(x: nat) returns (b: bv8)
    requires x < 256
    ensures b as nat == x
  {
    if x == 0 {
      b := 0;
    } else {
      var before := ByteOfNat(x - 1);
      ByteSuccessor(before);
      b := before + 1;
    }
  }

  lemma ByteAsNat(x: nat)
    requires x < 256
    ensures (x as bv8) as nat == x
  {
    var b := ByteOfNat(x);
    NatAsByte(b);
  }

  lemma LowByteValue(v: nat)
    ensures LowByte(v) as nat == v % 256
  {
    ByteAsNat(v % 256);
  }

  lemma DivideDigit(v: nat, d: nat)
    requires d < 256
    ensures (256 * v + d) / 256 == v && (256 * v + d) % 256 == d
  {
  }

  lemma LowDigit(v: nat, low: bv8)
    ensures (256 * v + low as nat) / 256 == v && LowByte(256 * v + low as nat) == low
  {
    NatAsByte(low);
    DivideDigit(v, low as nat);
  }

  /** Adding 1 to a number, seen from its last digit. */
  lemma NextDigit(v: nat, low: bv8)
    ensures low + 1 != 0 ==> (256 * v + low as nat + 1) / 256 == v && LowByte(256 * v + low as nat + 1) == low + 1
    ensures low + 1 == 0 ==> (256 * v + low as nat + 1) / 256 == v + 1 && LowByte(256 * v + low as nat + 1) == 0
  {
    ByteSuccessor(low);
    if low + 1 != 0 {
      LowDigit(v, low + 1);
    } else {
      DivideDigit(v + 1, 0);
    }
  }

  lemma QuotientIs(v: nat, d: nat, q: nat, r: nat)
    requires d > 0 && v == d * q + r && r < d
    ensures v / d == q
  {
    Multiple(d, q - v / d);
    assert d * (q - v / d) == d * q - d * (v / d);
  }

  lemma Multiple(d: nat, t: int)
    ensures t >= 1 ==> d * t >= d
    ensures t <= -1 ==> d * t + d <= 0
  {
  }
}
