/**
 The UTF-8 codec of app-mobile/services/aesGcm.ts. A JavaScript string is a sequence of 16-bit code
 units, which need not pair up surrogates.
 */
module Utf8 {
  import opened Bytes

  type Unit = bv16
  type JsString = seq<Unit>

  /** A code point, or any other 32-bit intermediate value. */
  type Code = bv32

  predicate High(u: Unit) { 0xd800 <= u <= 0xdbff }
  predicate Low(u: Unit) { 0xdc00 <= u <= 0xdfff }

  /** A surrogate pair at the front of the string. */
  predicate PairAt(s: JsString) { |s| >= 2 && High(s[0]) && Low(s[1]) }

  function PairCode(hi: Unit, lo: Unit): Code {
    0x10000 + (((hi as Code) - 0xd800) << 10) + ((lo as Code) - 0xdc00)
  }

  function Wide(u: Unit): Code { u as Code }

  /** The code read at the front of a string, and how many units it takes. */
  function FirstCode(s: JsString): Code
    requires s != []
  {
    if PairAt(s) then PairCode(s[0], s[1]) else Wide(s[0])
  }

  function FirstWidth(s: JsString): nat
    requires s != []
    ensures 1 <= FirstWidth(s) <= |s|
  {
    if PairAt(s) then 2 else 1
  }

  // The bytes of the program's four cases: a lead byte and continuation bytes.

  function Octet(c: Code): Byte { (c & 0xff) as Byte }

  function Lead2(c: Code): Byte { Octet(0xc0 | (c >> 6)) }
  function Lead3(c: Code): Byte { Octet(0xe0 | (c >> 12)) }
  function Lead4(c: Code): Byte { Octet(0xf0 | (c >> 18)) }
  function Tail0(c: Code): Byte { Octet(0x80 | (c & 0x3f)) }
  function Tail6(c: Code): Byte { Octet(0x80 | ((c >> 6) & 0x3f)) }
  function Tail12(c: Code): Byte { Octet(0x80 | ((c >> 12) & 0x3f)) }

  function EncodeCode(c: Code): (b: Bytes)
    ensures |b| == CodeWidth(c)
  {
    if c < 0x80 then [Octet(c)]
    else if c < 0x800 then [Lead2(c), Tail0(c)]
    else if c < 0x10000 then [Lead3(c), Tail6(c), Tail0(c)]
    else [Lead4(c), Tail12(c), Tail6(c), Tail0(c)]
  }

  function CodeWidth(c: Code): nat {
    if c < 0x80 then 1 else if c < 0x800 then 2 else if c < 0x10000 then 3 else 4
  }

  function Encode(s: JsString): Bytes
    decreases |s|
  {
    if s == [] then [] else EncodeCode(FirstCode(s)) + Encode(s[FirstWidth(s)..])
  }

  /** The loop over the code units; the output grows by one character at a time. */
  method Utf8Encode(str: JsString) returns (out: Bytes)
    ensures out == Encode(str)
  {
    hide EncodeCode, FirstCode, FirstWidth;
    out := [];
    var i := 0;
    while i < |str|
      invariant 0 <= i <= |str|
      invariant Encode(str) == out + Encode(str[i..])
    {
      ghost var rest := str[i..];
      var code, width := ReadCode(str, i);
      assert str[i + width..] == rest[width..];
      out := out + EncodeCode(code);
      i := i + width;
    }
  }

  /** charCodeAt, with the two units of a surrogate pair taken together. */
  method ReadCode(str: JsString, i: nat) returns (code: Code, width: nat)
    requires i < |str|
    ensures code == FirstCode(str[i..]) && width == FirstWidth(str[i..])
  {
    hide PairCode, High, Low, Wide;
    code, width := Wide(str[i]), 1;
    if High(str[i]) && i + 1 < |str| {
      var lo := str[i + 1];
      if Low(lo) {
        code, width := PairCode(str[i], lo), 2;
      }
    }
  }

  // ----- decoding

  /** bytes[i] & mask, where an index past the end reads undefined and undefined & mask is 0. */
  function Masked(b: Bytes, i: nat, mask: Byte): Code {
    if i < |b| then And(b[i], mask) else 0
  }

  function LeadWidth(b0: Byte): nat {
    if b0 < 0x80 then 1
    else if b0 & 0xe0 == 0xc0 then 2
    else if b0 & 0xf0 == 0xe0 then 3
    else 4
  }

  function Join2(a: Code, b: Code): Code { (a << 6) | b }
  function Join3(a: Code, b: Code, c: Code): Code { (a << 12) | (b << 6) | c }
  function Join4(a: Code, b: Code, c: Code, d: Code): Code { (a << 18) | (b << 12) | (c << 6) | d }

  /** The values pushed for the character at the front of the bytes. */
  function FirstCodes(b: Bytes): seq<Code>
    requires b != []
  {
    var w := LeadWidth(b[0]);
    if w == 1 then [b[0] as Code]
    else if w == 2 then [Join2(Masked(b, 0, 0x1f), Masked(b, 1, 0x3f))]
    else if w == 3 then [Join3(Masked(b, 0, 0x0f), Masked(b, 1, 0x3f), Masked(b, 2, 0x3f))]
    else SplitPair(Join4(Masked(b, 0, 0x07), Masked(b, 1, 0x3f), Masked(b, 2, 0x3f), Masked(b, 3, 0x3f)) - 0x10000)
  }

  function SplitPair(v: Code): seq<Code> { [0xd800 + (v >> 10), 0xdc00 + (v & 0x3ff)] }

  function Drop(b: Bytes, n: nat): Bytes { if n <= |b| then b[n..] else [] }

  function DecodeCodes(b: Bytes): seq<Code>
    decreases |b|
  {
    if b == [] then [] else FirstCodes(b) + DecodeCodes(Drop(b, LeadWidth(b[0])))
  }

  /** String.fromCharCode keeps the low 16 bits of each value. */
  function CharCode(c: Code): Unit { (c & 0xffff) as Unit }

  function FromCharCodes(codes: seq<Code>): (s: JsString)
    ensures |s| == |codes| && forall k | 0 <= k < |codes| :: s[k] == CharCode(codes[k])
  {
    seq(|codes|, k requires 0 <= k < |codes| => CharCode(codes[k]))
  }

  function Decode(b: Bytes): JsString { FromCharCodes(DecodeCodes(b)) }

  method Utf8Decode(bytes: array<Byte>) returns (out: JsString)
    ensures out == Decode(bytes[..])
  {
    var codes := ReadAll(bytes);
    out := JoinBatches(codes);
  }

  method ReadAll(bytes: array<Byte>) returns (codes: seq<Code>)
    ensures codes == DecodeCodes(bytes[..])
  {
    hide FirstCodes, LeadWidth, CharCode;
    codes := [];
    var i := 0;
    ghost var all := bytes[..];
    assert Drop(all, 0) == all;
    while i < bytes.Length
      invariant DecodeCodes(all) == codes + DecodeCodes(Drop(all, i))
    {
      LeadWidthPositive(bytes[i]);
      DropTwice(all, i, LeadWidth(bytes[i]));
      var more := ReadCodes(bytes, i);
      codes := codes + more;
      i := i + LeadWidth(bytes[i]);
    }
    assert Drop(all, i) == [];
  }

  /** fromCharCode in batches of 8192 arguments, concatenated. */
  method JoinBatches(codes: seq<Code>) returns (out: JsString)
    ensures out == FromCharCodes(codes)
  {
    hide CharCode;
    out := [];
    var off := 0;
    while off < |codes|
      invariant out == FromCharCodes(codes[..if off < |codes| then off else |codes|])
    {
      var end := if off + 8192 < |codes| then off + 8192 else |codes|;
      assert codes[..end] == codes[..off] + codes[off..end];
      FromCharCodesAppend(codes[..off], codes[off..end]);
      out := out + FromCharCodes(codes[off..end]);
      off := off + 8192;
    }
    assert codes[..|codes|] == codes;
  }

  lemma LeadWidthPositive(b0: Byte)
    ensures 1 <= LeadWidth(b0) <= 4
  {
  }

  lemma DropTwice(b: Bytes, i: nat, w: nat)
    requires i < |b|
    ensures Drop(b, i) == b[i..] && Drop(b[i..], w) == Drop(b, i + w)
  {
  }

  function And(b: Byte, mask: Byte): Code { (b & mask) as Code }

  /** The branches of the loop body, reading the array in place. */
  method ReadCodes(bytes: array<Byte>, i: nat) returns (more: seq<Code>)
    requires i < bytes.Length
    ensures more == FirstCodes(bytes[i..])
  {
    hide SplitPair, Join2, Join3, Join4, LeadWidth, Masked;
    var b0 := bytes[i];
    var w := LeadWidth(b0);
    if w == 1 {
      return [b0 as Code];
    } else if w == 2 {
      var c0 := Read(bytes, i, 0, 0x1f);
      var c1 := Read(bytes, i, 1, 0x3f);
      return [Join2(c0, c1)];
    } else if w == 3 {
      var c0 := Read(bytes, i, 0, 0x0f);
      var c1 := Read(bytes, i, 1, 0x3f);
      var c2 := Read(bytes, i, 2, 0x3f);
      return [Join3(c0, c1, c2)];
    } else {
      var c0 := Read(bytes, i, 0, 0x07);
      var c1 := Read(bytes, i, 1, 0x3f);
      var c2 := Read(bytes, i, 2, 0x3f);
      var c3 := Read(bytes, i, 3, 0x3f);
      return SplitPair(Join4(c0, c1, c2, c3) - 0x10000);
    }
  }

  method Read(bytes: array<Byte>, i: nat, k: nat, mask: Byte) returns (c: Code)
    requires i < bytes.Length
    ensures c == Masked(bytes[i..], k, mask)
  {
    c := if i + k < bytes.Length then And(bytes[i + k], mask) else 0;
  }

  // ----- the round trip

  /** The code units of a code. */
  function Units(c: Code): JsString {
    if c < 0x10000 then [CharCode(c)] else FromCharCodes(SplitPair(c - 0x10000))
  }

  lemma PairUnits(hi: Unit, lo: Unit)
    requires High(hi) && Low(lo)
    ensures 0x10000 <= PairCode(hi, lo) <= 0x10ffff
    ensures CharCode(0xd800 + ((PairCode(hi, lo) - 0x10000) >> 10)) == hi
    ensures CharCode(0xdc00 + ((PairCode(hi, lo) - 0x10000) & 0x3ff)) == lo
  {
  }

  lemma FirstCodeUnits(s: JsString)
    requires s != []
    ensures FirstCode(s) <= 0x10ffff && Units(FirstCode(s)) == s[..FirstWidth(s)]
  {
    hide PairCode, High, Low;
    if PairAt(s) {
      PairUnits(s[0], s[1]);
      PairSplit(PairCode(s[0], s[1]), s[0], s[1]);
    } else {
      SingleUnit(s[0]);
    }
  }

  lemma PairSplit(c: Code, hi: Unit, lo: Unit)
    requires 0x10000 <= c
    requires CharCode(0xd800 + ((c - 0x10000) >> 10)) == hi && CharCode(0xdc00 + ((c - 0x10000) & 0x3ff)) == lo
    ensures Units(c) == [hi, lo]
  {
    hide CharCode;
  }

  lemma SingleUnit(u: Unit)
    ensures Wide(u) < 0x10000 && Units(Wide(u)) == [u]
  {
    assert CharCode(Wide(u)) == u;
  }

  /** What the decoder sees in each byte that the encoder writes. */
  lemma OneByte(c: Code)
    requires c < 0x80
    ensures LeadWidth(Octet(c)) == 1 && Octet(c) as Code == c
  {
  }

  lemma TailBits(c: Code)
    ensures And(Tail0(c), 0x3f) == c & 0x3f
    ensures And(Tail6(c), 0x3f) == (c >> 6) & 0x3f
    ensures And(Tail12(c), 0x3f) == (c >> 12) & 0x3f
  {
  }

  lemma LeadBits(c: Code)
    ensures 0x80 <= c < 0x800 ==> LeadWidth(Lead2(c)) == 2 && And(Lead2(c), 0x1f) == c >> 6
    ensures 0x800 <= c < 0x10000 ==> LeadWidth(Lead3(c)) == 3 && And(Lead3(c), 0x0f) == c >> 12
    ensures 0x10000 <= c <= 0x10ffff ==> LeadWidth(Lead4(c)) == 4 && And(Lead4(c), 0x07) == c >> 18
  {
  }

  lemma JoinTwo(c: Code)
    ensures Join2(c >> 6, c & 0x3f) == c
  {
  }

  lemma JoinThree(c: Code)
    ensures Join3(c >> 12, (c >> 6) & 0x3f, c & 0x3f) == c
  {
  }

  lemma JoinFour(c: Code)
    ensures Join4(c >> 18, (c >> 12) & 0x3f, (c >> 6) & 0x3f, c & 0x3f) == c
  {
  }

  lemma DecodeTwo(c: Code, b: Bytes)
    requires 0x80 <= c < 0x800 && EncodeCode(c) <= b
    ensures LeadWidth(b[0]) == 2 && FirstCodes(b) == [c]
  {
    hide Octet, Lead2, Tail0, LeadWidth, SplitPair, And, Join2, EncodeCode;
    EncodeShape(c);
    TailBits(c);
    LeadBits(c);
    JoinTwo(c);
  }

  lemma DecodeThree(c: Code, b: Bytes)
    requires 0x800 <= c < 0x10000 && EncodeCode(c) <= b
    ensures LeadWidth(b[0]) == 3 && FirstCodes(b) == [c]
  {
    hide Octet, Lead3, Tail0, Tail6, LeadWidth, SplitPair, And, Join3, EncodeCode;
    EncodeShape(c);
    TailBits(c);
    LeadBits(c);
    JoinThree(c);
  }

  lemma DecodeFour(c: Code, b: Bytes)
    requires 0x10000 <= c <= 0x10ffff && EncodeCode(c) <= b
    ensures LeadWidth(b[0]) == 4 && FirstCodes(b) == SplitPair(c - 0x10000)
  {
    hide Octet, Lead4, Tail0, Tail6, Tail12, LeadWidth, SplitPair, And, Join4, EncodeCode;
    EncodeShape(c);
    TailBits(c);
    LeadBits(c);
    JoinFour(c);
  }

  lemma EncodeShape(c: Code)
    ensures c < 0x80 ==> EncodeCode(c) == [Octet(c)]
    ensures 0x80 <= c < 0x800 ==> EncodeCode(c) == [Lead2(c), Tail0(c)]
    ensures 0x800 <= c < 0x10000 ==> EncodeCode(c) == [Lead3(c), Tail6(c), Tail0(c)]
    ensures 0x10000 <= c ==> EncodeCode(c) == [Lead4(c), Tail12(c), Tail6(c), Tail0(c)]
  {
  }

  /** Decoding one encoded character in front of anything gives back its code. */
  lemma DecodeFirst(c: Code, rest: Bytes)
    requires c <= 0x10ffff
    ensures var b := EncodeCode(c) + rest;
            && LeadWidth(b[0]) == CodeWidth(c)
            && FirstCodes(b) == if c < 0x10000 then [c] else SplitPair(c - 0x10000)
  {
    hide Octet, LeadWidth, SplitPair, EncodeCode;
    var b := EncodeCode(c) + rest;
    if c < 0x80 {
      EncodeShape(c);
      OneByte(c);
    } else if c < 0x800 {
      DecodeTwo(c, b);
    } else if c < 0x10000 {
      DecodeThree(c, b);
    } else {
      DecodeFour(c, b);
    }
  }

  lemma FromCharCodesAppend(a: seq<Code>, b: seq<Code>)
    ensures FromCharCodes(a + b) == FromCharCodes(a) + FromCharCodes(b)
  {
  }

  /** One step of the round trip, with the code of the first character. */
  lemma DecodeStep(c: Code, rest: Bytes)
    requires c <= 0x10ffff
    ensures Decode(EncodeCode(c) + rest) == Units(c) + Decode(rest)
  {
    hide EncodeCode, LeadWidth, SplitPair, FirstCodes, CharCode;
    var b := EncodeCode(c) + rest;
    DecodeFirst(c, rest);
    assert Drop(b, CodeWidth(c)) == rest;
    FromCharCodesAppend(FirstCodes(b), DecodeCodes(rest));
  }

  /** For every sequence of code units, lone surrogates included. */
  lemma {:induction false} DecodeInvertsEncode(s: JsString)
    ensures Decode(Encode(s)) == s
    decreases |s|
  {
    hide EncodeCode, Decode, FirstCode, FirstWidth, Units;
    if s == [] {
      DecodeEmpty();
    } else {
      FirstCodeUnits(s);
      DecodeStep(FirstCode(s), Encode(s[FirstWidth(s)..]));
      DecodeInvertsEncode(s[FirstWidth(s)..]);
    }
  }

  lemma DecodeEmpty()
    ensures Decode([]) == []
  {
  }
}
