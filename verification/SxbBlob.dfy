/**
 Hexadecimal text and the blob "gcm:<iv>:<cipher>:<tag>" of app-mobile/services/aesGcm.ts, and the
 end-to-end property of the file: what was encrypted into a blob comes back as the same string.
 */
module SxbBlob {
  import opened Wrappers
  import opened Bytes
  import opened Utf8
  import opened GcmSpec
  import Buffers
  import Gcm

  datatype BlobError = UnsupportedFormat | WrongSegments | OddHex | BadConfigKey | Sealing(error: GcmError)

  // ----- hexadecimal

  predicate HexDigit(u: Unit) { 0x30 <= u <= 0x39 || 0x41 <= u <= 0x46 || 0x61 <= u <= 0x66 }

  function HexValue(u: Unit): Byte
    requires HexDigit(u)
  {
    if u <= 0x39 then (u - 0x30) as Byte else if u <= 0x46 then (u - 0x37) as Byte else (u - 0x57) as Byte
  }

  /** The white space that parseInt skips. */
  predicate WhiteSpace(u: Unit) {
    0x09 <= u <= 0x0d || u == 0x20 || u == 0xa0 || u == 0x1680 || 0x2000 <= u <= 0x200a
    || u == 0x2028 || u == 0x2029 || u == 0x202f || u == 0x205f || u == 0x3000 || u == 0xfeff
  }

  /** parseInt of two characters in base 16, stored in a byte; what is not a number is stored as 0. */
  function ParseByte(a: Unit, b: Unit): Byte {
    if HexDigit(a) then
      if HexDigit(b) then (HexValue(a) << 4) | HexValue(b) else HexValue(a)
    else if !HexDigit(b) then 0
    else if WhiteSpace(a) || a == 0x2b then HexValue(b)
    else if a == 0x2d then 0 - HexValue(b)
    else 0
  }

  /** parseInt with radix 16, modulo 256: white space, a sign, an 0x, then as many digits as there are; None without any. */
  function ParseInt16(s: JsString): Option<Byte>
    decreases |s|
  {
    if s == [] then None
    else if WhiteSpace(s[0]) then ParseInt16(s[1..])
    else if s[0] == 0x2d then (match Digits(WithoutPrefix(s[1..]), 0, false) case Some(v) => Some(0 - v) case None => None)
    else Digits(WithoutPrefix(if s[0] == 0x2b then s[1..] else s), 0, false)
  }

  function WithoutPrefix(s: JsString): JsString {
    if |s| >= 2 && s[0] == 0x30 && (s[1] == 0x78 || s[1] == 0x58) then s[2..] else s
  }

  function Digits(s: JsString, value: Byte, any: bool): Option<Byte> {
    if s != [] && HexDigit(s[0]) then Digits(s[1..], 16 * value + DigitOf(s[0]), true)
    else if any then Some(value) else None
  }

  /** The low four bits of the character, and nine more for a letter. */
  function DigitOf(u: Unit): Byte { ((u & 0x0f) as Byte) + (if u & 0x40 != 0 then 9 else 0) }

  lemma DigitOfIs(u: Unit)
    requires HexDigit(u)
    ensures DigitOf(u) == HexValue(u) && HexValue(u) < 16
  {
  }

  lemma TwoDigits(h: Byte, l: Byte)
    requires h < 16 && l < 16
    ensures (h << 4) | l == 16 * (16 * 0 + h) + l && 16 * 0 + l == l
  {
  }

  lemma OneOrTwo(a: Unit, b: Unit)
    ensures Digits([], 0, false) == None
    ensures Digits([b], 0, false) == if HexDigit(b) then Some(HexValue(b)) else None
    ensures Digits([a, b], 0, false)
            == if !HexDigit(a) then None else if HexDigit(b) then Some((HexValue(a) << 4) | HexValue(b)) else Some(HexValue(a))
  {
    hide HexValue, DigitOf;
    assert [a, b][1..] == [b] && [b][1..] == [];
    if HexDigit(a) {
      DigitOfIs(a);
      TwoDigits(HexValue(a), HexValue(a));
    }
    if HexDigit(b) {
      DigitOfIs(b);
      TwoDigits(HexValue(b), HexValue(b));
    }
    if HexDigit(a) && HexDigit(b) {
      var v := 16 * 0 + DigitOf(a);
      TwoDigits(HexValue(a), HexValue(b));
      assert Digits([a, b], 0, false) == Digits([b], v, true);
      assert Digits([b], v, true) == Digits([b][1..], 16 * v + DigitOf(b), true) == Digits([], 16 * v + DigitOf(b), true);
    }
  }

  lemma SecondAlone(b: Unit)
    ensures ParseInt16([b]) == if HexDigit(b) then Digits([b], 0, false) else None
    ensures WithoutPrefix([b]) == [b] && WithoutPrefix([]) == []
  {
    hide HexValue, DigitOf;
    assert [b][1..] == [];
    OneOrTwo(b, b);
  }

  /** The cases of two characters are what parseInt makes of them; not a number is stored as 0. */
  lemma ParseByteIsParseInt(a: Unit, b: Unit)
    ensures ParseByte(a, b) == match ParseInt16([a, b]) case Some(v) => v case None => 0
  {
    hide DigitOf, Digits;
    OneOrTwo(a, b);
    SecondAlone(b);
    assert [a, b][1..] == [b] && [a, b][2..] == [];
    if a == 0x30 && (b == 0x78 || b == 0x58) {
      assert WithoutPrefix([a, b]) == [];
    } else {
      assert WithoutPrefix([a, b]) == [a, b];
    }
  }

  function HexToBytes(hex: JsString): Result<Bytes, BlobError> {
    if |hex| % 2 != 0 then Failure(OddHex)
    else Success(ParsePairs(hex))
  }

  function ParsePairs(hex: JsString): (b: Bytes)
    requires |hex| % 2 == 0
    ensures |b| == |hex| / 2
    ensures forall i | 0 <= i < |b| :: b[i] == ParseByte(hex[2 * i], hex[2 * i + 1])
  {
    seq(|hex| / 2, i requires 0 <= i < |hex| / 2 => ParseByte(hex[2 * i], hex[2 * i + 1]))
  }

  method HexToArray(hex: JsString) returns (r: Result<array<Byte>, BlobError>)
    ensures match r
            case Success(out) => fresh(out) && HexToBytes(hex) == Success(out[..])
            case Failure(error) => HexToBytes(hex) == Failure(error)
  {
    hide ParseByte;
    if |hex| % 2 != 0 {
      return Failure(OddHex);
    }
    var out := Buffers.NewBuffer(|hex| / 2);
    for i := 0 to out.Length
      invariant forall k | 0 <= k < i :: out[k] == ParseByte(hex[2 * k], hex[2 * k + 1])
    {
      out[i] := ParseByte(hex[2 * i], hex[2 * i + 1]);
    }
    assert out[..] == ParsePairs(hex);
    return Success(out);
  }

  /** A nibble as a lower-case digit. */
  function Digit(n: Byte): Unit
    requires n < 16
  {
    if n < 10 then 0x30 + (n as Unit) else 0x57 + (n as Unit)
  }

  function BytesToHex(bytes: Bytes): (hex: JsString)
    ensures |hex| == 2 * |bytes|
  {
    if bytes == [] then [] else BytesToHex(bytes[..|bytes| - 1]) + ByteToHex(bytes[|bytes| - 1])
  }

  /** toString(16), padded to two digits. */
  function ByteToHex(b: Byte): (h: JsString)
    ensures |h| == 2
  {
    [Digit(b >> 4), Digit(b & 0x0f)]
  }

  method ArrayToHex(bytes: array<Byte>) returns (out: JsString)
    ensures out == BytesToHex(bytes[..])
  {
    hide ByteToHex;
    out := [];
    for i := 0 to bytes.Length
      invariant out == BytesToHex(bytes[..i])
    {
      assert bytes[..i + 1][..i] == bytes[..i];
      out := out + ByteToHex(bytes[i]);
    }
    assert bytes[..bytes.Length] == bytes[..];
  }

  lemma {:induction false} HexPairs(bytes: Bytes, i: nat)
    requires i < |bytes|
    ensures BytesToHex(bytes)[2 * i..2 * i + 2] == ByteToHex(bytes[i])
    decreases |bytes|
  {
    hide ByteToHex;
    var n := |bytes| - 1;
    var head := BytesToHex(bytes[..n]);
    assert BytesToHex(bytes) == head + ByteToHex(bytes[n]);
    if i < n {
      HexPairs(bytes[..n], i);
      assert BytesToHex(bytes)[2 * i..2 * i + 2] == head[2 * i..2 * i + 2];
    }
  }

  lemma ParseDigits(b: Byte)
    ensures ParseByte(Digit(b >> 4), Digit(b & 0x0f)) == b
    ensures Digit(b >> 4) != COLON && Digit(b & 0x0f) != COLON
  {
    DigitValue(b >> 4);
    DigitValue(b & 0x0f);
  }

  /** A digit in upper case reads as in lower case. */
  lemma CaseIsNoMatter(a: Unit, b: Unit)
    requires 0x61 <= a <= 0x66
    ensures ParseByte(a - 0x20, b) == ParseByte(a, b)
    ensures HexDigit(b) ==> ParseByte(b, a - 0x20) == ParseByte(b, a)
  {
  }

  lemma DigitValue(n: Byte)
    requires n < 16
    ensures HexDigit(Digit(n)) && HexValue(Digit(n)) == n && Digit(n) != COLON
  {
  }

  lemma HexRoundTrip(bytes: Bytes)
    ensures HexToBytes(BytesToHex(bytes)) == Success(bytes)
  {
    hide ByteToHex, ParseByte;
    var hex := BytesToHex(bytes);
    forall i | 0 <= i < |bytes|
      ensures ParseByte(hex[2 * i], hex[2 * i + 1]) == bytes[i]
    {
      HexPairs(bytes, i);
      assert hex[2 * i] == ByteToHex(bytes[i])[0] && hex[2 * i + 1] == ByteToHex(bytes[i])[1];
      ParseHexByte(bytes[i]);
    }
    assert ParsePairs(hex) == bytes;
  }

  lemma ParseHexByte(b: Byte)
    ensures ParseByte(ByteToHex(b)[0], ByteToHex(b)[1]) == b
    ensures ByteToHex(b)[0] != COLON && ByteToHex(b)[1] != COLON
  {
    ParseDigits(b);
  }

  lemma {:induction false} HexHasNoColon(bytes: Bytes)
    ensures COLON !in BytesToHex(bytes)
    decreases |bytes|
  {
    hide ByteToHex;
    if bytes != [] {
      HexHasNoColon(bytes[..|bytes| - 1]);
      ParseHexByte(bytes[|bytes| - 1]);
    }
  }

  // ----- segments

  const COLON: Unit := 0x3a

  /** "gcm:" */
  const PREFIX: JsString := [0x67, 0x63, 0x6d, 0x3a]

  /** split(':') */
  function Split(s: JsString): (parts: seq<JsString>)
    ensures |parts| > 0
  {
    if s == [] then [[]]
    else if s[0] == COLON then [[]] + Split(s[1..])
    else
      var rest := Split(s[1..]);
      [[s[0]] + rest[0]] + rest[1..]
  }

  lemma {:induction false} SplitOne(p: JsString)
    requires COLON !in p
    ensures Split(p) == [p]
    decreases |p|
  {
    if p != [] {
      SplitOne(p[1..]);
      assert [p[0]] + p[1..] == p;
    }
  }

  lemma {:induction false} SplitHead(p: JsString, rest: JsString)
    requires COLON !in p
    ensures Split(p + [COLON] + rest) == [p] + Split(rest)
    decreases |p|
  {
    var s := p + [COLON] + rest;
    if p == [] {
      assert s[1..] == rest;
    } else {
      assert s[1..] == p[1..] + [COLON] + rest;
      SplitHead(p[1..], rest);
      assert [p[0]] + p[1..] == p;
    }
  }

  // ----- the blob

  function Blob(iv: Bytes, c: Bytes, t: Bytes): JsString {
    PREFIX + (BytesToHex(iv) + [COLON] + (BytesToHex(c) + [COLON] + BytesToHex(t)))
  }

  function Slice64(s: JsString): JsString { if |s| <= 64 then s else s[..64] }

  function OpenParts(key: Bytes, iv: Bytes, c: Bytes, t: Bytes): Result<JsString, BlobError> {
    match Decrypt(key, iv, c, t, [])
    case Success(plain) => Success(Decode(plain))
    case Failure(error) => Failure(Sealing(error))
  }

  /** The checks in the order in which the program makes them. */
  function DecryptBlob(blob: JsString, configKeyHex: JsString): Result<JsString, BlobError> {
    if !(PREFIX <= blob) then Failure(UnsupportedFormat)
    else
      var parts := Split(blob[4..]);
      if |parts| != 3 then Failure(WrongSegments)
      else
        var key := HexToBytes(Slice64(configKeyHex));
        if key.Failure? then Failure(key.error)
        else if |key.value| != 32 then Failure(BadConfigKey)
        else
          var iv, c, t := HexToBytes(parts[0]), HexToBytes(parts[1]), HexToBytes(parts[2]);
          if iv.Failure? then Failure(iv.error)
          else if c.Failure? then Failure(c.error)
          else if t.Failure? then Failure(t.error)
          else OpenParts(key.value, iv.value, c.value, t.value)
  }

  method DecryptSxbBlob(blob: JsString, configKeyHex: JsString) returns (r: Result<JsString, BlobError>)
    ensures r == DecryptBlob(blob, configKeyHex)
  {
    hide HexToBytes, Decrypt, Decode, Split;
    if !(PREFIX <= blob) {
      return Failure(UnsupportedFormat);
    }
    var parts := Split(blob[4..]);
    if |parts| != 3 {
      return Failure(WrongSegments);
    }
    var key := HexToArray(Slice64(configKeyHex));
    if key.Failure? {
      return Failure(key.error);
    }
    if key.value.Length != 32 {
      return Failure(BadConfigKey);
    }
    var iv := HexToArray(parts[0]);
    if iv.Failure? {
      return Failure(iv.error);
    }
    var c := HexToArray(parts[1]);
    if c.Failure? {
      return Failure(c.error);
    }
    var t := HexToArray(parts[2]);
    if t.Failure? {
      return Failure(t.error);
    }
    var aad := Buffers.NewBuffer(0);
    assert aad[..] == [];
    var plain := Gcm.DecryptAes256Gcm(key.value, iv.value, c.value, t.value, aad);
    if plain.Failure? {
      return Failure(Sealing(plain.error));
    }
    var text := Utf8Decode(plain.value);
    return Success(text);
  }

  /** A blob of any three byte strings is taken apart into exactly these three. */
  lemma OpenBlob(key: Bytes, suffix: JsString, iv: Bytes, c: Bytes, t: Bytes)
    requires |key| == 32
    ensures DecryptBlob(Blob(iv, c, t), BytesToHex(key) + suffix) == OpenParts(key, iv, c, t)
  {
    hide HexToBytes, BytesToHex, OpenParts, Split;
    var blob := Blob(iv, c, t);
    var h0, h1, h2 := BytesToHex(iv), BytesToHex(c), BytesToHex(t);
    assert PREFIX <= blob && blob[4..] == h0 + [COLON] + (h1 + [COLON] + h2);
    HexHasNoColon(iv);
    HexHasNoColon(c);
    HexHasNoColon(t);
    SplitHead(h0, h1 + [COLON] + h2);
    SplitHead(h1, h2);
    SplitOne(h2);
    assert Slice64(BytesToHex(key) + suffix) == BytesToHex(key);
    HexRoundTrip(key);
    HexRoundTrip(iv);
    HexRoundTrip(c);
    HexRoundTrip(t);
  }

  /**
   End to end: for every string, key and IV, the blob of the encrypted UTF-8 bytes opens to the same
   string under the hexadecimal key, whatever follows its 64 digits.
   */
  lemma SealedBlobOpens(s: JsString, key: Bytes, iv: Bytes, suffix: JsString)
    requires |key| == 32 && |iv| == 12
    ensures var sealed := Encrypt(key, iv, Encode(s), []);
            && sealed.Success?
            && DecryptBlob(Blob(iv, sealed.value.ciphertext, sealed.value.authTag), BytesToHex(key) + suffix)
               == Success(s)
  {
    hide DecryptBlob, Blob, Decode, Encode, Decrypt, BytesToHex;
    var sealed := Encrypt(key, iv, Encode(s), []);
    DecryptInvertsEncrypt(key, iv, Encode(s), [], sealed.value.ciphertext, sealed.value.authTag);
    OpenBlob(key, suffix, iv, sealed.value.ciphertext, sealed.value.authTag);
    DecodeInvertsEncode(s);
  }

  // ----- the format of a blob

  function Colons(s: JsString): nat { if s == [] then 0 else (if s[0] == 0x3a then 1 else 0) + Colons(s[1..]) }

  lemma {:induction false} SplitCounts(s: JsString)
    ensures |Split(s)| == Colons(s) + 1
  {
    if s != [] {
      SplitCounts(s[1..]);
    }
  }

  /** A blob that does not begin with "gcm:", or does not have three segments after it, is refused before anything else is looked at. */
  lemma FormatIsCheckedFirst(blob: JsString, k: JsString)
    ensures var r := DecryptBlob(blob, k); var prefixed := |blob| >= 4 && blob[0] == 0x67 && blob[1] == 0x63 && blob[2] == 0x6d && blob[3] == 0x3a;
            && (r == Failure(UnsupportedFormat) <==> !prefixed)
            && (r == Failure(WrongSegments) <==> prefixed && Colons(blob[4..]) != 2)
  {
    hide HexToBytes, OpenParts, Split, Slice64;
    var prefixed := |blob| >= 4 && blob[0] == 0x67 && blob[1] == 0x63 && blob[2] == 0x6d && blob[3] == 0x3a;
    assert prefixed <==> PREFIX <= blob;
    if prefixed {
      SplitCounts(blob[4..]);
      ErrorsApart();
    }
  }

  lemma ErrorsApart()
    ensures forall s: JsString :: HexErrors(HexToBytes(s))
    ensures forall key, iv, c, t :: OpenParts(key, iv, c, t).Failure? ==> OpenParts(key, iv, c, t).error.Sealing?
  {
    hide Decrypt, Decode;
  }

  predicate HexErrors(r: Result<Bytes, BlobError>) { r.Failure? ==> r.error == OddHex }

  /**
   Three segments after "gcm:" are the initial vector, the ciphertext and the tag in this order, in hexadecimal;
   the key is the first 64 digits given, and must have them all.
   */
  lemma SegmentsAreIvCipherTag(a: JsString, b: JsString, c: JsString, k: JsString)
    requires 0x3a !in a && 0x3a !in b && 0x3a !in c && |a| % 2 == |b| % 2 == |c| % 2 == 0 && |k| >= 64
    ensures DecryptBlob([0x67, 0x63, 0x6d, 0x3a] + a + [0x3a] + b + [0x3a] + c, k)
            == match Decrypt(ParsePairs(k[..64]), ParsePairs(a), ParsePairs(b), ParsePairs(c), [])
               case Success(plain) => Success(Decode(plain))
               case Failure(error) => Failure(Sealing(error))
  {
    hide ParsePairs, Decrypt, Decode, Split;
    var blob := [0x67, 0x63, 0x6d, 0x3a] + a + [0x3a] + b + [0x3a] + c;
    assert PREFIX <= blob && blob[4..] == a + [COLON] + (b + [COLON] + c);
    SplitHead(a, b + [COLON] + c);
    SplitHead(b, c);
    SplitOne(c);
    var parts := Split(blob[4..]);
    assert parts == [a, b, c] by { assert [a] + ([b] + [c]) == [a, b, c]; }
    assert Slice64(k) == k[..64];
  }
}
