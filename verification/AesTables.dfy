/**
 The S-box of section 5.1.1 of FIPS 197. It is a literal table, as in the program, cut into the rows
 of the program's text: one row for each high nibble of the input. `SboxIsAffineInverse` ties every
 entry to the standard's definition, a multiplicative inverse followed by an affine map.
 */
module AesTables {
  import opened Bytes
  import opened AesField

  const ROW_0: Bytes :=
    [0x63, 0x7c, 0x77, 0x7b, 0xf2, 0x6b, 0x6f, 0xc5, 0x30, 0x01, 0x67, 0x2b, 0xfe, 0xd7, 0xab, 0x76]
  const ROW_1: Bytes :=
    [0xca, 0x82, 0xc9, 0x7d, 0xfa, 0x59, 0x47, 0xf0, 0xad, 0xd4, 0xa2, 0xaf, 0x9c, 0xa4, 0x72, 0xc0]
  const ROW_2: Bytes :=
    [0xb7, 0xfd, 0x93, 0x26, 0x36, 0x3f, 0xf7, 0xcc, 0x34, 0xa5, 0xe5, 0xf1, 0x71, 0xd8, 0x31, 0x15]
  const ROW_3: Bytes :=
    [0x04, 0xc7, 0x23, 0xc3, 0x18, 0x96, 0x05, 0x9a, 0x07, 0x12, 0x80, 0xe2, 0xeb, 0x27, 0xb2, 0x75]
  const ROW_4: Bytes :=
    [0x09, 0x83, 0x2c, 0x1a, 0x1b, 0x6e, 0x5a, 0xa0, 0x52, 0x3b, 0xd6, 0xb3, 0x29, 0xe3, 0x2f, 0x84]
  const ROW_5: Bytes :=
    [0x53, 0xd1, 0x00, 0xed, 0x20, 0xfc, 0xb1, 0x5b, 0x6a, 0xcb, 0xbe, 0x39, 0x4a, 0x4c, 0x58, 0xcf]
  const ROW_6: Bytes :=
    [0xd0, 0xef, 0xaa, 0xfb, 0x43, 0x4d, 0x33, 0x85, 0x45, 0xf9, 0x02, 0x7f, 0x50, 0x3c, 0x9f, 0xa8]
  const ROW_7: Bytes :=
    [0x51, 0xa3, 0x40, 0x8f, 0x92, 0x9d, 0x38, 0xf5, 0xbc, 0xb6, 0xda, 0x21, 0x10, 0xff, 0xf3, 0xd2]
  const ROW_8: Bytes :=
    [0xcd, 0x0c, 0x13, 0xec, 0x5f, 0x97, 0x44, 0x17, 0xc4, 0xa7, 0x7e, 0x3d, 0x64, 0x5d, 0x19, 0x73]
  const ROW_9: Bytes :=
    [0x60, 0x81, 0x4f, 0xdc, 0x22, 0x2a, 0x90, 0x88, 0x46, 0xee, 0xb8, 0x14, 0xde, 0x5e, 0x0b, 0xdb]
  const ROW_A: Bytes :=
    [0xe0, 0x32, 0x3a, 0x0a, 0x49, 0x06, 0x24, 0x5c, 0xc2, 0xd3, 0xac, 0x62, 0x91, 0x95, 0xe4, 0x79]
  const ROW_B: Bytes :=
    [0xe7, 0xc8, 0x37, 0x6d, 0x8d, 0xd5, 0x4e, 0xa9, 0x6c, 0x56, 0xf4, 0xea, 0x65, 0x7a, 0xae, 0x08]
  const ROW_C: Bytes :=
    [0xba, 0x78, 0x25, 0x2e, 0x1c, 0xa6, 0xb4, 0xc6, 0xe8, 0xdd, 0x74, 0x1f, 0x4b, 0xbd, 0x8b, 0x8a]
  const ROW_D: Bytes :=
    [0x70, 0x3e, 0xb5, 0x66, 0x48, 0x03, 0xf6, 0x0e, 0x61, 0x35, 0x57, 0xb9, 0x86, 0xc1, 0x1d, 0x9e]
  const ROW_E: Bytes :=
    [0xe1, 0xf8, 0x98, 0x11, 0x69, 0xd9, 0x8e, 0x94, 0x9b, 0x1e, 0x87, 0xe9, 0xce, 0x55, 0x28, 0xdf]
  const ROW_F: Bytes :=
    [0x8c, 0xa1, 0x89, 0x0d, 0xbf, 0xe6, 0x42, 0x68, 0x41, 0x99, 0x2d, 0x0f, 0xb0, 0x54, 0xbb, 0x16]

  const SBOX: seq<Bytes> := [
    ROW_0, ROW_1, ROW_2, ROW_3, ROW_4, ROW_5, ROW_6, ROW_7,
    ROW_8, ROW_9, ROW_A, ROW_B, ROW_C, ROW_D, ROW_E, ROW_F
  ]

  function Nibble(b: Byte): (n: nat)
    requires b < 16
    ensures n < 16
  {
    b as nat
  }

  lemma SboxShape()
    ensures |SBOX| == 16 && forall r | 0 <= r < 16 :: |SBOX[r]| == 16
  {
  }

  function Sbox(b: Byte): Byte {
    SboxShape();
    SBOX[Nibble(b >> 4)][Nibble(b & 15)]
  }

  /** The affine map of section 5.1.1: each bit is the sum of five input bits and a bit of 0x63. */
  function Affine(b: Byte): Byte {
    b ^ ((b << 1) | (b >> 7)) ^ ((b << 2) | (b >> 6)) ^ ((b << 3) | (b >> 5)) ^ ((b << 4) | (b >> 4)) ^ 0x63
  }

  function InvAffine(s: Byte): Byte {
    ((s << 1) | (s >> 7)) ^ ((s << 3) | (s >> 5)) ^ ((s << 6) | (s >> 2)) ^ 0x05
  }

  lemma AffineInverts(s: Byte)
    ensures Affine(InvAffine(s)) == s
  {
  }

  // ----- every entry of the table, row by row

  predicate Entry(b: Byte, s: Byte) { IsInverse(b, InvAffine(s)) }

  predicate RowHolds(row: Bytes, high: Byte) {
    && |row| == 16
    && Entry(high, row[0]) && Entry(high | 1, row[1]) && Entry(high | 2, row[2]) && Entry(high | 3, row[3])
    && Entry(high | 4, row[4]) && Entry(high | 5, row[5]) && Entry(high | 6, row[6]) && Entry(high | 7, row[7])
    && Entry(high | 8, row[8]) && Entry(high | 9, row[9]) && Entry(high | 10, row[10]) && Entry(high | 11, row[11])
    && Entry(high | 12, row[12]) && Entry(high | 13, row[13]) && Entry(high | 14, row[14]) && Entry(high | 15, row[15])
  }

  lemma Row0() ensures RowHolds(ROW_0, 0x00) {}
  lemma Row1() ensures RowHolds(ROW_1, 0x10) {}
  lemma Row2() ensures RowHolds(ROW_2, 0x20) {}
  lemma Row3() ensures RowHolds(ROW_3, 0x30) {}
  lemma Row4() ensures RowHolds(ROW_4, 0x40) {}
  lemma Row5() ensures RowHolds(ROW_5, 0x50) {}
  lemma Row6() ensures RowHolds(ROW_6, 0x60) {}
  lemma Row7() ensures RowHolds(ROW_7, 0x70) {}
  lemma Row8() ensures RowHolds(ROW_8, 0x80) {}
  lemma Row9() ensures RowHolds(ROW_9, 0x90) {}
  lemma RowA() ensures RowHolds(ROW_A, 0xa0) {}
  lemma RowB() ensures RowHolds(ROW_B, 0xb0) {}
  lemma RowC() ensures RowHolds(ROW_C, 0xc0) {}
  lemma RowD() ensures RowHolds(ROW_D, 0xd0) {}
  lemma RowE() ensures RowHolds(ROW_E, 0xe0) {}
  lemma RowF() ensures RowHolds(ROW_F, 0xf0) {}

  lemma AllRows(b: Byte)
    ensures RowHolds(SBOX[Nibble(b >> 4)], b & 0xf0)
  {
    hide RowHolds;
    Row0(); Row1(); Row2(); Row3(); Row4(); Row5(); Row6(); Row7();
    Row8(); Row9(); RowA(); RowB(); RowC(); RowD(); RowE(); RowF();
    var high := b >> 4;
    assert b & 0xf0 == high << 4;
    assert high == 0 || high == 1 || high == 2 || high == 3 || high == 4 || high == 5 || high == 6 || high == 7
           || high == 8 || high == 9 || high == 10 || high == 11 || high == 12 || high == 13 || high == 14 || high == 15;
  }

  lemma RowEntry(b: Byte, row: Bytes)
    ensures RowHolds(row, b & 0xf0) ==> Entry(b, row[Nibble(b & 15)])
  {
    hide Entry;
    var low := b & 15;
    assert b == (b & 0xf0) | low && (b & 0xf0) | 0 == b & 0xf0;
    assert low == 0 || low == 1 || low == 2 || low == 3 || low == 4 || low == 5 || low == 6 || low == 7
           || low == 8 || low == 9 || low == 10 || low == 11 || low == 12 || low == 13 || low == 14 || low == 15;
  }

  lemma SboxEntry(b: Byte)
    ensures Entry(b, Sbox(b))
  {
    hide Entry, RowHolds;
    SboxShape();
    AllRows(b);
    RowEntry(b, SBOX[Nibble(b >> 4)]);
  }

  /** SubBytes of section 5.1.1: the affine image of the multiplicative inverse. */
  lemma SboxIsAffineInverse(b: Byte)
    ensures exists i: Byte :: IsInverse(b, i) && Sbox(b) == Affine(i)
  {
    hide IsInverse, Affine, InvAffine, Sbox;
    SboxEntry(b);
    AffineInverts(Sbox(b));
  }

  lemma SboxInjective(a: Byte, b: Byte)
    ensures Sbox(a) == Sbox(b) <==> a == b
  {
    hide IsInverse, InvAffine, Sbox;
    SboxEntry(a);
    SboxEntry(b);
    if Sbox(a) == Sbox(b) {
      InverseInjective(a, b, InvAffine(Sbox(a)));
    }
  }
}
