/**
 What the encoder's bytes are, in the terms of RFC 3629: the octets of section 3 for each scalar
 value, and the syntax of section 4, which they match exactly when the string pairs its surrogates.
 */
module Utf8Rfc {
  import opened Bytes
  import opened Utf8

  /** Every surrogate belongs to a pair. */
  predicate WellFormed(s: JsString)
    decreases |s|
  {
    if s == [] then true
    else if PairAt(s) then WellFormed(s[2..])
    else !High(s[0]) && !Low(s[0]) && WellFormed(s[1..])
  }

  /** A Unicode scalar value. */
  predicate Scalar(c: Code) { c < 0xd800 || 0xdfff < c <= 0x10ffff }

  /** The scalar values of a string in UTF-16. */
  function Scalars(s: JsString): seq<Code>
    decreases |s|
  {
    if s == [] then [] else [FirstCode(s)] + Scalars(s[FirstWidth(s)..])
  }

  // ----- section 3: the octets of a character number

  /** The fixed high bits of the octets, and the free bits, which hold the character number. */
  predicate Octets(c: Code, b: Bytes) {
    if c <= 0x7f then
      |b| == 1 && b[0] as Code == c
    else if c <= 0x7ff then
      |b| == 2 && b[0] >> 5 == 6 && b[1] >> 6 == 2
      && Join2(And(b[0], 0x1f), And(b[1], 0x3f)) == c
    else if c <= 0xffff then
      |b| == 3 && b[0] >> 4 == 14 && b[1] >> 6 == 2 && b[2] >> 6 == 2
      && Join3(And(b[0], 0x0f), And(b[1], 0x3f), And(b[2], 0x3f)) == c
    else
      |b| == 4 && b[0] >> 3 == 30 && b[1] >> 6 == 2 && b[2] >> 6 == 2 && b[3] >> 6 == 2
      && Join4(And(b[0], 0x07), And(b[1], 0x3f), And(b[2], 0x3f), And(b[3], 0x3f)) == c
  }

  lemma HighBits(c: Code)
    ensures Tail0(c) >> 6 == 2 && Tail6(c) >> 6 == 2 && Tail12(c) >> 6 == 2
    ensures 0x80 <= c <= 0x7ff ==> Lead2(c) >> 5 == 6
    ensures 0x800 <= c <= 0xffff ==> Lead3(c) >> 4 == 14
    ensures 0x10000 <= c <= 0x10ffff ==> Lead4(c) >> 3 == 30
  {
  }

  lemma EncodedOctets(c: Code)
    requires c <= 0x10ffff
    ensures Octets(c, EncodeCode(c))
  {
    hide Octet, Lead2, Lead3, Lead4, Tail0, Tail6, Tail12, LeadWidth, And, Join2, Join3, Join4, EncodeCode;
    EncodeShape(c);
    HighBits(c);
    TailBits(c);
    LeadBits(c);
    JoinTwo(c);
    JoinThree(c);
    JoinFour(c);
    if c < 0x80 {
      OneByte(c);
    }
  }

  /** The octets of the characters, one after the other. */
  predicate EncodesAll(cs: seq<Code>, b: Bytes) {
    if cs == [] then b == []
    else
      var n := CodeWidth(cs[0]);
      n <= |b| && Octets(cs[0], b[..n]) && EncodesAll(cs[1..], b[n..])
  }

  lemma {:induction false} WellFormedScalars(s: JsString)
    requires WellFormed(s)
    ensures forall k | 0 <= k < |Scalars(s)| :: Scalar(Scalars(s)[k])
    decreases |s|
  {
    hide PairCode, High, Low;
    if s != [] {
      var c := FirstCode(s);
      if PairAt(s) {
        PairUnits(s[0], s[1]);
      } else {
        LoneUnit(s[0]);
      }
      assert Scalar(c);
      WellFormedScalars(s[FirstWidth(s)..]);
    }
  }

  lemma LoneUnit(u: Unit)
    ensures (!High(u) && !Low(u)) == Scalar(Wide(u))
    ensures Wide(u) <= 0xffff
  {
  }

  /** On a well-formed string the bytes are the encoding of its scalar values. */
  lemma {:induction false} EncodeIsRfc3629(s: JsString)
    ensures EncodesAll(Scalars(s), Encode(s))
    ensures WellFormed(s) ==> forall k | 0 <= k < |Scalars(s)| :: Scalar(Scalars(s)[k])
    decreases |s|
  {
    hide EncodeCode, Octets, Scalar, FirstCode, FirstWidth, WellFormed;
    if WellFormed(s) {
      WellFormedScalars(s);
    }
    if s != [] {
      var c, tail := FirstCode(s), s[FirstWidth(s)..];
      FirstCodeUnits(s);
      EncodedOctets(c);
      EncodeIsRfc3629(tail);
      var b := EncodeCode(c) + Encode(tail);
      assert b[..CodeWidth(c)] == EncodeCode(c) && b[CodeWidth(c)..] == Encode(tail);
      assert Scalars(s)[1..] == Scalars(tail);
    }
  }

  // ----- section 4: the syntax of UTF-8 byte sequences

  predicate Tail(b: Bytes, k: nat) { k < |b| && 0x80 <= b[k] <= 0xbf }
  predicate In(b: Bytes, k: nat, lo: Byte, hi: Byte) { k < |b| && lo <= b[k] <= hi }

  /** The length of the UTF8-char at the front, or 0 when there is none. */
  function CharLength(b: Bytes): nat {
    if In(b, 0, 0x00, 0x7f) then 1
    else if In(b, 0, 0xc2, 0xdf) && Tail(b, 1) then 2
    else if In(b, 0, 0xe0, 0xe0) && In(b, 1, 0xa0, 0xbf) && Tail(b, 2) then 3
    else if In(b, 0, 0xe1, 0xec) && Tail(b, 1) && Tail(b, 2) then 3
    else if In(b, 0, 0xed, 0xed) && In(b, 1, 0x80, 0x9f) && Tail(b, 2) then 3
    else if In(b, 0, 0xee, 0xef) && Tail(b, 1) && Tail(b, 2) then 3
    else if In(b, 0, 0xf0, 0xf0) && In(b, 1, 0x90, 0xbf) && Tail(b, 2) && Tail(b, 3) then 4
    else if In(b, 0, 0xf1, 0xf3) && Tail(b, 1) && Tail(b, 2) && Tail(b, 3) then 4
    else if In(b, 0, 0xf4, 0xf4) && In(b, 1, 0x80, 0x8f) && Tail(b, 2) && Tail(b, 3) then 4
    else 0
  }

  /** UTF8-octets = *( UTF8-char ) */
  predicate ValidUtf8(b: Bytes)
    decreases |b|
  {
    b == [] || (0 < CharLength(b) <= |b| && ValidUtf8(b[CharLength(b)..]))
  }

  lemma TailRange(c: Code)
    ensures 0x80 <= Tail0(c) <= 0xbf && 0x80 <= Tail6(c) <= 0xbf && 0x80 <= Tail12(c) <= 0xbf
  {
  }

  lemma TwoByteRange(c: Code)
    requires 0x80 <= c <= 0x7ff
    ensures 0xc2 <= Lead2(c) <= 0xdf
  {
  }

  lemma ThreeByteRange(c: Code)
    requires 0x800 <= c <= 0xffff
    ensures 0xe0 <= Lead3(c) <= 0xef
    ensures Lead3(c) == 0xe0 ==> 0xa0 <= Tail6(c)
    ensures (Lead3(c) == 0xed && Tail6(c) > 0x9f) == (0xd800 <= c <= 0xdfff)
  {
  }

  lemma FourByteRange(c: Code)
    requires 0x10000 <= c <= 0x10ffff
    ensures 0xf0 <= Lead4(c) <= 0xf4
    ensures Lead4(c) == 0xf0 ==> 0x90 <= Tail12(c)
    ensures Lead4(c) == 0xf4 ==> Tail12(c) <= 0x8f
  {
  }

  /** An encoded code is a UTF8-char exactly when it is a scalar value. */
  lemma EncodedChar(c: Code, b: Bytes)
    requires c <= 0x10ffff && EncodeCode(c) <= b
    ensures CharLength(b) == if Scalar(c) then CodeWidth(c) else 0
  {
    hide Octet, Lead2, Lead3, Lead4, Tail0, Tail6, Tail12, EncodeCode;
    EncodeShape(c);
    TailRange(c);
    if c < 0x80 {
      OneByteRange(c);
    } else if c < 0x800 {
      TwoByteRange(c);
    } else if c < 0x10000 {
      ThreeByteRange(c);
    } else {
      FourByteRange(c);
    }
  }

  lemma OneByteRange(c: Code)
    requires c < 0x80
    ensures Octet(c) <= 0x7f
  {
  }

  /** The bytes match the syntax of section 4 exactly when the string is well-formed UTF-16. */
  lemma {:induction false} ValidExactlyWhenWellFormed(s: JsString)
    ensures ValidUtf8(Encode(s)) <==> WellFormed(s)
    decreases |s|
  {
    hide EncodeCode, CharLength, Scalar, PairCode, High, Low;
    if s != [] {
      var c, tail := FirstCode(s), s[FirstWidth(s)..];
      var b := EncodeCode(c) + Encode(tail);
      FirstCodeUnits(s);
      EncodedChar(c, b);
      assert b[CodeWidth(c)..] == Encode(tail);
      ValidExactlyWhenWellFormed(tail);
      if PairAt(s) {
        PairUnits(s[0], s[1]);
        PairIsScalar(c);
      } else {
        LoneUnit(s[0]);
      }
    }
  }

  lemma PairIsScalar(c: Code)
    requires 0x10000 <= c <= 0x10ffff
    ensures Scalar(c)
  {
  }
}
