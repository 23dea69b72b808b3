/**
 AES-256 evaluated on known bytes, and two published examples: the worked example of Appendix C.3 of
 FIPS 197, round by round, and test case 13 of the GCM specification of McGrew and Viega.
 */
module AesVectors {
  import opened Wrappers
  import opened Bytes
  import opened Gf2Poly
  import opened GcmField
  import opened AesField
  import opened AesTables
  import opened AesSpec
  import opened GhashSpec
  import opened GcmSpec

  // ----- a state and a round key by columns

  datatype Col = Col(a: Byte, b: Byte, c: Byte, d: Byte)
  datatype State = State(a: Col, b: Col, c: Col, d: Col)

  function WordOf(w: Col): Word { [w.a, w.b, w.c, w.d] }

  function BlockOf4(s: State): Block { WordOf(s.a) + WordOf(s.b) + WordOf(s.c) + WordOf(s.d) }

  function Plus(v: Col, w: Col): Col { Col(Sum(v.a, w.a), Sum(v.b, w.b), Sum(v.c, w.c), Sum(v.d, w.d)) }

  function Subst(a: Byte, b: Byte, c: Byte, d: Byte): Col { Col(Sbox(a), Sbox(b), Sbox(c), Sbox(d)) }

  function Mix(v: Col): Col {
    Col(MixRow(v.a, v.b, v.c, v.d), MixRow(v.b, v.c, v.d, v.a), MixRow(v.c, v.d, v.a, v.b), MixRow(v.d, v.a, v.b, v.c))
  }

  /** The columns after substitution and shift. */
  function Shifted(s: State): State {
    State(Subst(s.a.a, s.b.b, s.c.c, s.d.d), Subst(s.b.a, s.c.b, s.d.c, s.a.d),
          Subst(s.c.a, s.d.b, s.a.c, s.b.d), Subst(s.d.a, s.a.b, s.b.c, s.c.d))
  }

  function MixedPlus(s: State, k: State): State {
    State(Plus(Mix(s.a), k.a), Plus(Mix(s.b), k.b), Plus(Mix(s.c), k.c), Plus(Mix(s.d), k.d))
  }

  function PlusKey(s: State, k: State): State { State(Plus(s.a, k.a), Plus(s.b, k.b), Plus(s.c, k.c), Plus(s.d, k.d)) }

  /** The word that the schedule adds, from the last word of the key before. */
  function Addend(w: Col, round: nat): Col
    requires 2 <= round
  {
    if round % 2 == 0 then var t := Subst(w.b, w.c, w.d, w.a); Col(Sum(t.a, PowerOfX(round / 2 - 1)), t.b, t.c, t.d)
    else Subst(w.a, w.b, w.c, w.d)
  }

  /** A round key from the key two rounds back: each word adds the word before it. */
  function Chained(o: State, t: Col): State {
    var a := Plus(o.a, t);
    var b := Plus(o.b, a);
    var c := Plus(o.c, b);
    State(a, b, c, Plus(o.d, c))
  }

  lemma Bytes16(s: State)
    ensures var b := BlockOf4(s);
            && b[0] == s.a.a && b[1] == s.a.b && b[2] == s.a.c && b[3] == s.a.d
            && b[4] == s.b.a && b[5] == s.b.b && b[6] == s.b.c && b[7] == s.b.d
            && b[8] == s.c.a && b[9] == s.c.b && b[10] == s.c.c && b[11] == s.c.d
            && b[12] == s.d.a && b[13] == s.d.b && b[14] == s.d.c && b[15] == s.d.d
  {
  }

  lemma SameBytes16(s: State, b: Block)
    requires b[0] == s.a.a && b[1] == s.a.b && b[2] == s.a.c && b[3] == s.a.d
    requires b[4] == s.b.a && b[5] == s.b.b && b[6] == s.b.c && b[7] == s.b.d
    requires b[8] == s.c.a && b[9] == s.c.b && b[10] == s.c.c && b[11] == s.c.d
    requires b[12] == s.d.a && b[13] == s.d.b && b[14] == s.d.c && b[15] == s.d.d
    ensures b == BlockOf4(s)
  {
    hide BlockOf4;
    Bytes16(s);
    var c := BlockOf4(s);
    assert b[0] == c[0] && b[1] == c[1] && b[2] == c[2] && b[3] == c[3] && b[4] == c[4] && b[5] == c[5] && b[6] == c[6] && b[7] == c[7];
    assert b[8] == c[8] && b[9] == c[9] && b[10] == c[10] && b[11] == c[11] && b[12] == c[12] && b[13] == c[13] && b[14] == c[14] && b[15] == c[15];
  }

  lemma ShiftedIs(s: State)
    ensures ShiftRows(SubBytes(BlockOf4(s))) == BlockOf4(Shifted(s))
  {
    hide Sbox, SubBytes, ShiftRows, BlockOf4;
    Bytes16(s);
    var b := BlockOf4(s);
    SubstitutedShifted(b);
    SameBytes16(Shifted(s), ShiftRows(SubBytes(b)));
  }

  lemma SubstitutedShifted(s: Block)
    ensures var t := ShiftRows(SubBytes(s));
            && t[0] == Sbox(s[0]) && t[1] == Sbox(s[5]) && t[2] == Sbox(s[10]) && t[3] == Sbox(s[15])
            && t[4] == Sbox(s[4]) && t[5] == Sbox(s[9]) && t[6] == Sbox(s[14]) && t[7] == Sbox(s[3])
            && t[8] == Sbox(s[8]) && t[9] == Sbox(s[13]) && t[10] == Sbox(s[2]) && t[11] == Sbox(s[7])
            && t[12] == Sbox(s[12]) && t[13] == Sbox(s[1]) && t[14] == Sbox(s[6]) && t[15] == Sbox(s[11])
  {
    hide Sbox, SubBytes, ShiftRows;
  }

  lemma SumOf(a: Block, b: Block, i: nat)
    requires i < 16
    ensures AddRoundKey(a, b)[i] == Sum(a[i], b[i])
  {
  }

  lemma PlusKeyIs(s: State, k: State)
    ensures AddRoundKey(BlockOf4(s), BlockOf4(k)) == BlockOf4(PlusKey(s, k))
  {
    hide BlockOf4, AddRoundKey, Sum;
    Bytes16(s);
    Bytes16(k);
    var x, y := BlockOf4(s), BlockOf4(k);
    SumOf(x, y, 0); SumOf(x, y, 1); SumOf(x, y, 2); SumOf(x, y, 3);
    SumOf(x, y, 4); SumOf(x, y, 5); SumOf(x, y, 6); SumOf(x, y, 7);
    SumOf(x, y, 8); SumOf(x, y, 9); SumOf(x, y, 10); SumOf(x, y, 11);
    SumOf(x, y, 12); SumOf(x, y, 13); SumOf(x, y, 14); SumOf(x, y, 15);
    SameBytes16(PlusKey(s, k), AddRoundKey(x, y));
  }

  lemma MixIs(s: State)
    ensures MixColumns(BlockOf4(s)) == BlockOf4(State(Mix(s.a), Mix(s.b), Mix(s.c), Mix(s.d)))
  {
    hide BlockOf4, MixColumns, MixRow, MixByte;
    Bytes16(s);
    var b := BlockOf4(s);
    MixByteIsMixRow(b, 0);
    MixByteIsMixRow(b, 4);
    MixByteIsMixRow(b, 8);
    MixByteIsMixRow(b, 12);
    MixedBytes(b);
    SameBytes16(State(Mix(s.a), Mix(s.b), Mix(s.c), Mix(s.d)), MixColumns(b));
  }

  lemma MixedBytes(b: Block)
    ensures var m := MixColumns(b);
            && m[0] == MixByte(b, 0, 0) && m[1] == MixByte(b, 0, 1) && m[2] == MixByte(b, 0, 2) && m[3] == MixByte(b, 0, 3)
            && m[4] == MixByte(b, 4, 0) && m[5] == MixByte(b, 4, 1) && m[6] == MixByte(b, 4, 2) && m[7] == MixByte(b, 4, 3)
            && m[8] == MixByte(b, 8, 0) && m[9] == MixByte(b, 8, 1) && m[10] == MixByte(b, 8, 2) && m[11] == MixByte(b, 8, 3)
            && m[12] == MixByte(b, 12, 0) && m[13] == MixByte(b, 12, 1) && m[14] == MixByte(b, 12, 2) && m[15] == MixByte(b, 12, 3)
  {
    hide MixByte, MixColumns;
  }

  lemma RoundIs(s: State, k: State)
    ensures RoundOf(BlockOf4(s), BlockOf4(k), false) == BlockOf4(MixedPlus(Shifted(s), k))
    ensures RoundOf(BlockOf4(s), BlockOf4(k), true) == BlockOf4(PlusKey(Shifted(s), k))
  {
    hide BlockOf4, ShiftRows, SubBytes, MixColumns, AddRoundKey, Plus, Mix, Shifted;
    var t := Shifted(s);
    ShiftedIs(s);
    MixIs(t);
    PlusKeyIs(t, k);
    PlusKeyIs(State(Mix(t.a), Mix(t.b), Mix(t.c), Mix(t.d)), k);
  }

  lemma PlusIs(v: Col, w: Col)
    ensures XorWord(WordOf(v), WordOf(w)) == WordOf(Plus(v, w))
  {
    hide XorWord, Sum;
    XorWordIs(WordOf(v), WordOf(w));
  }

  lemma XorWordIs(v: Word, w: Word)
    ensures XorWord(v, w) == [Sum(v[0], w[0]), Sum(v[1], w[1]), Sum(v[2], w[2]), Sum(v[3], w[3])]
  {
  }

  lemma AddendIs(w: Col, round: nat)
    requires 2 <= round
    ensures Schedule(WordOf(w), 4 * round) == WordOf(Addend(w, round))
  {
    hide Sbox, PowerOfX, XorWord, Sum;
    SchedulePhase(round);
    if round % 2 == 0 {
      RconAdds(SubWord(RotWord(WordOf(w))), round / 2);
    }
  }

  lemma SchedulePhase(round: nat)
    ensures 4 * round % 8 == 4 * (round % 2) && 4 * round / 8 == round / 2
  {
  }

  lemma RconAdds(w: Word, j: nat)
    requires 0 < j
    ensures XorWord(w, Rcon(j)) == [Sum(w[0], PowerOfX(j - 1)), w[1], w[2], w[3]]
  {
    hide PowerOfX, XorWord, Sum;
    XorWordIs(w, Rcon(j));
    SumZero8(w[1]);
    SumZero8(w[2]);
    SumZero8(w[3]);
  }

  lemma SumZero8(b: Byte)
    ensures Sum(b, 0) == b
  {
  }

  lemma KeyIs(key: Key, round: nat, o: State, n: State)
    requires 2 <= round && RoundKey(key, round - 2) == BlockOf4(o) && RoundKey(key, round - 1) == BlockOf4(n)
    ensures RoundKey(key, round) == BlockOf4(Chained(o, Addend(n.d, round)))
  {
    hide XorWord, Schedule, ExpandedWord, Plus, Addend, WordOf;
    var i := 4 * round;
    WordStep(key, i);
    WordStep(key, i + 1);
    WordStep(key, i + 2);
    WordStep(key, i + 3);
    KeyWords(key, round - 2, o);
    KeyWords(key, round - 1, n);
    var t := Addend(n.d, round);
    AddendIs(n.d, round);
    var a := Plus(o.a, t);
    var b := Plus(o.b, a);
    var c := Plus(o.c, b);
    PlusIs(o.a, t);
    PlusIs(o.b, a);
    PlusIs(o.c, b);
    PlusIs(o.d, c);
  }

  lemma KeyWords(key: Key, round: nat, k: State)
    requires RoundKey(key, round) == BlockOf4(k)
    ensures ExpandedWord(key, 4 * round) == WordOf(k.a) && ExpandedWord(key, 4 * round + 1) == WordOf(k.b)
    ensures ExpandedWord(key, 4 * round + 2) == WordOf(k.c) && ExpandedWord(key, 4 * round + 3) == WordOf(k.d)
  {
    hide ExpandedWord, WordOf;
    FourWords(ExpandedWord(key, 4 * round), ExpandedWord(key, 4 * round + 1), ExpandedWord(key, 4 * round + 2), ExpandedWord(key, 4 * round + 3));
    FourWords(WordOf(k.a), WordOf(k.b), WordOf(k.c), WordOf(k.d));
  }

  lemma FourWords(a: Word, b: Word, c: Word, d: Word)
    ensures var s := a + b + c + d; s[0..4] == a && s[4..8] == b && s[8..12] == c && s[12..16] == d
  {
  }

  lemma WordStep(key: Key, i: nat)
    requires 8 <= i
    ensures ExpandedWord(key, i) == XorWord(ExpandedWord(key, i - 8), Schedule(ExpandedWord(key, i - 1), i))
    ensures i % 4 != 0 ==> Schedule(ExpandedWord(key, i - 1), i) == ExpandedWord(key, i - 1)
  {
    hide XorWord, Schedule;
    if i % 4 != 0 {
      PlainStep(ExpandedWord(key, i - 1), i);
    }
  }

  lemma PlainStep(temp: Word, i: nat)
    requires 8 <= i && i % 4 != 0
    ensures Schedule(temp, i) == temp
  {
    hide XorWord, SubWord, RotWord, Rcon;
    NoPhase(i);
  }

  lemma NoPhase(i: nat)
    requires i % 4 != 0
    ensures i % 8 != 0 && i % 8 != 4
  {
    assert i == 4 * (2 * (i / 8)) + i % 8;
  }

  lemma FirstKeys(key: Key, k0: State, k1: State)
    requires key == BlockOf4(k0) + BlockOf4(k1)
    ensures RoundKey(key, 0) == BlockOf4(k0) && RoundKey(key, 1) == BlockOf4(k1)
  {
    hide BlockOf4;
    assert ExpandedWord(key, 0) == key[0..4] && ExpandedWord(key, 1) == key[4..8];
    assert ExpandedWord(key, 2) == key[8..12] && ExpandedWord(key, 3) == key[12..16];
    assert ExpandedWord(key, 4) == key[16..20] && ExpandedWord(key, 5) == key[20..24];
    assert ExpandedWord(key, 6) == key[24..28] && ExpandedWord(key, 7) == key[28..32];
    assert key[..16] == BlockOf4(k0) && key[16..] == BlockOf4(k1);
  }

  /** The keys and the state are known up to a round. */
  predicate Known(key: Key, input: Block, round: nat, o: State, n: State, s: State)
    requires 1 <= round <= 14
  {
    RoundKey(key, round - 1) == BlockOf4(o) && RoundKey(key, round) == BlockOf4(n) && RoundState(key, input, round) == BlockOf4(s)
  }

  lemma FirstRound(input: State, k0: State, k1: State, s: State, t: State)
    requires PlusKey(input, k0) == s && MixedPlus(Shifted(s), k1) == t
    ensures Known(BlockOf4(k0) + BlockOf4(k1), BlockOf4(input), 1, k0, k1, t)
  {
    hide RoundKey, RoundOf, BlockOf4, PlusKey, MixedPlus, Shifted, AddRoundKey;
    var key := BlockOf4(k0) + BlockOf4(k1);
    FirstKeys(key, k0, k1);
    PlusKeyIs(input, k0);
    RoundIs(s, k1);
    assert RoundState(key, BlockOf4(input), 0) == BlockOf4(s);
  }

  /** One more round, and the last one, which mixes nothing. */
  lemma NextRound(key: Key, input: Block, round: nat, o: State, n: State, k: State, s: State, t: State)
    requires 2 <= round <= 14 && Known(key, input, round - 1, o, n, s)
    requires Chained(o, Addend(n.d, round)) == k
    requires (if round < 14 then MixedPlus(Shifted(s), k) else PlusKey(Shifted(s), k)) == t
    ensures Known(key, input, round, n, k, t)
  {
    hide RoundKey, RoundOf, BlockOf4, Chained, Addend, PlusKey, MixedPlus, Shifted;
    KeyIs(key, round, o, n);
    RoundIs(s, k);
  }

  // ----- the entries of the S-box

  lemma Row0Low()
    ensures Sbox(0x00) == 0x63 && Sbox(0x01) == 0x7c && Sbox(0x02) == 0x77 && Sbox(0x03) == 0x7b
    ensures Sbox(0x04) == 0xf2 && Sbox(0x05) == 0x6b && Sbox(0x06) == 0x6f && Sbox(0x07) == 0xc5
  {
  }

  lemma Row0High()
    ensures Sbox(0x08) == 0x30 && Sbox(0x09) == 0x01 && Sbox(0x0a) == 0x67 && Sbox(0x0b) == 0x2b
    ensures Sbox(0x0c) == 0xfe && Sbox(0x0d) == 0xd7 && Sbox(0x0e) == 0xab && Sbox(0x0f) == 0x76
  {
  }

  lemma Row1Low()
    ensures Sbox(0x10) == 0xca && Sbox(0x11) == 0x82 && Sbox(0x12) == 0xc9 && Sbox(0x13) == 0x7d
    ensures Sbox(0x14) == 0xfa && Sbox(0x15) == 0x59 && Sbox(0x16) == 0x47 && Sbox(0x17) == 0xf0
  {
  }

  lemma Row1High()
    ensures Sbox(0x18) == 0xad && Sbox(0x19) == 0xd4 && Sbox(0x1a) == 0xa2 && Sbox(0x1b) == 0xaf
    ensures Sbox(0x1c) == 0x9c && Sbox(0x1d) == 0xa4 && Sbox(0x1e) == 0x72 && Sbox(0x1f) == 0xc0
  {
  }

  lemma Row2Low()
    ensures Sbox(0x20) == 0xb7 && Sbox(0x21) == 0xfd && Sbox(0x22) == 0x93 && Sbox(0x23) == 0x26
    ensures Sbox(0x24) == 0x36 && Sbox(0x25) == 0x3f && Sbox(0x26) == 0xf7 && Sbox(0x27) == 0xcc
  {
  }

  lemma Row2High()
    ensures Sbox(0x28) == 0x34 && Sbox(0x29) == 0xa5 && Sbox(0x2a) == 0xe5 && Sbox(0x2b) == 0xf1
    ensures Sbox(0x2c) == 0x71 && Sbox(0x2d) == 0xd8 && Sbox(0x2e) == 0x31 && Sbox(0x2f) == 0x15
  {
  }

  lemma Row3Low()
    ensures Sbox(0x30) == 0x04 && Sbox(0x31) == 0xc7 && Sbox(0x32) == 0x23 && Sbox(0x33) == 0xc3
    ensures Sbox(0x34) == 0x18 && Sbox(0x35) == 0x96 && Sbox(0x36) == 0x05 && Sbox(0x37) == 0x9a
  {
  }

  lemma Row3High()
    ensures Sbox(0x38) == 0x07 && Sbox(0x39) == 0x12 && Sbox(0x3a) == 0x80 && Sbox(0x3b) == 0xe2
    ensures Sbox(0x3c) == 0xeb && Sbox(0x3d) == 0x27 && Sbox(0x3e) == 0xb2 && Sbox(0x3f) == 0x75
  {
  }

  lemma Row4Low()
    ensures Sbox(0x40) == 0x09 && Sbox(0x41) == 0x83 && Sbox(0x42) == 0x2c && Sbox(0x43) == 0x1a
    ensures Sbox(0x44) == 0x1b && Sbox(0x45) == 0x6e && Sbox(0x46) == 0x5a && Sbox(0x47) == 0xa0
  {
  }

  lemma Row4High()
    ensures Sbox(0x48) == 0x52 && Sbox(0x49) == 0x3b && Sbox(0x4a) == 0xd6 && Sbox(0x4b) == 0xb3
    ensures Sbox(0x4c) == 0x29 && Sbox(0x4d) == 0xe3 && Sbox(0x4e) == 0x2f && Sbox(0x4f) == 0x84
  {
  }

  lemma Row5Low()
    ensures Sbox(0x50) == 0x53 && Sbox(0x51) == 0xd1 && Sbox(0x52) == 0x00 && Sbox(0x53) == 0xed
    ensures Sbox(0x54) == 0x20 && Sbox(0x55) == 0xfc && Sbox(0x56) == 0xb1 && Sbox(0x57) == 0x5b
  {
  }

  lemma Row5High()
    ensures Sbox(0x58) == 0x6a && Sbox(0x59) == 0xcb && Sbox(0x5a) == 0xbe && Sbox(0x5b) == 0x39
    ensures Sbox(0x5c) == 0x4a && Sbox(0x5d) == 0x4c && Sbox(0x5e) == 0x58 && Sbox(0x5f) == 0xcf
  {
  }

  lemma Row6Low()
    ensures Sbox(0x60) == 0xd0 && Sbox(0x61) == 0xef && Sbox(0x62) == 0xaa && Sbox(0x63) == 0xfb
    ensures Sbox(0x64) == 0x43 && Sbox(0x65) == 0x4d && Sbox(0x66) == 0x33 && Sbox(0x67) == 0x85
  {
  }

  lemma Row6High()
    ensures Sbox(0x68) == 0x45 && Sbox(0x69) == 0xf9 && Sbox(0x6a) == 0x02 && Sbox(0x6b) == 0x7f
    ensures Sbox(0x6c) == 0x50 && Sbox(0x6d) == 0x3c && Sbox(0x6e) == 0x9f && Sbox(0x6f) == 0xa8
  {
  }

  lemma Row7Low()
    ensures Sbox(0x70) == 0x51 && Sbox(0x71) == 0xa3 && Sbox(0x72) == 0x40 && Sbox(0x73) == 0x8f
    ensures Sbox(0x74) == 0x92 && Sbox(0x75) == 0x9d && Sbox(0x76) == 0x38 && Sbox(0x77) == 0xf5
  {
  }

  lemma Row7High()
    ensures Sbox(0x78) == 0xbc && Sbox(0x79) == 0xb6 && Sbox(0x7a) == 0xda && Sbox(0x7b) == 0x21
    ensures Sbox(0x7c) == 0x10 && Sbox(0x7d) == 0xff && Sbox(0x7e) == 0xf3 && Sbox(0x7f) == 0xd2
  {
  }

  lemma Row8Low()
    ensures Sbox(0x80) == 0xcd && Sbox(0x81) == 0x0c && Sbox(0x82) == 0x13 && Sbox(0x83) == 0xec
    ensures Sbox(0x84) == 0x5f && Sbox(0x85) == 0x97 && Sbox(0x86) == 0x44 && Sbox(0x87) == 0x17
  {
  }

  lemma Row8High()
    ensures Sbox(0x88) == 0xc4 && Sbox(0x89) == 0xa7 && Sbox(0x8a) == 0x7e && Sbox(0x8b) == 0x3d
    ensures Sbox(0x8c) == 0x64 && Sbox(0x8d) == 0x5d && Sbox(0x8e) == 0x19 && Sbox(0x8f) == 0x73
  {
  }

  lemma Row9Low()
    ensures Sbox(0x90) == 0x60 && Sbox(0x91) == 0x81 && Sbox(0x92) == 0x4f && Sbox(0x93) == 0xdc
    ensures Sbox(0x94) == 0x22 && Sbox(0x95) == 0x2a && Sbox(0x96) == 0x90 && Sbox(0x97) == 0x88
  {
  }

  lemma Row9High()
    ensures Sbox(0x98) == 0x46 && Sbox(0x99) == 0xee && Sbox(0x9a) == 0xb8 && Sbox(0x9b) == 0x14
    ensures Sbox(0x9c) == 0xde && Sbox(0x9d) == 0x5e && Sbox(0x9e) == 0x0b && Sbox(0x9f) == 0xdb
  {
  }

  lemma RowALow()
    ensures Sbox(0xa0) == 0xe0 && Sbox(0xa1) == 0x32 && Sbox(0xa2) == 0x3a && Sbox(0xa3) == 0x0a
    ensures Sbox(0xa4) == 0x49 && Sbox(0xa5) == 0x06 && Sbox(0xa6) == 0x24 && Sbox(0xa7) == 0x5c
  {
  }

  lemma RowAHigh()
    ensures Sbox(0xa8) == 0xc2 && Sbox(0xa9) == 0xd3 && Sbox(0xaa) == 0xac && Sbox(0xab) == 0x62
    ensures Sbox(0xac) == 0x91 && Sbox(0xad) == 0x95 && Sbox(0xae) == 0xe4 && Sbox(0xaf) == 0x79
  {
  }

  lemma RowBLow()
    ensures Sbox(0xb0) == 0xe7 && Sbox(0xb1) == 0xc8 && Sbox(0xb2) == 0x37 && Sbox(0xb3) == 0x6d
    ensures Sbox(0xb4) == 0x8d && Sbox(0xb5) == 0xd5 && Sbox(0xb6) == 0x4e && Sbox(0xb7) == 0xa9
  {
  }

  lemma RowBHigh()
    ensures Sbox(0xb8) == 0x6c && Sbox(0xb9) == 0x56 && Sbox(0xba) == 0xf4 && Sbox(0xbb) == 0xea
    ensures Sbox(0xbc) == 0x65 && Sbox(0xbd) == 0x7a && Sbox(0xbe) == 0xae && Sbox(0xbf) == 0x08
  {
  }

  lemma RowCLow()
    ensures Sbox(0xc0) == 0xba && Sbox(0xc1) == 0x78 && Sbox(0xc2) == 0x25 && Sbox(0xc3) == 0x2e
    ensures Sbox(0xc4) == 0x1c && Sbox(0xc5) == 0xa6 && Sbox(0xc6) == 0xb4 && Sbox(0xc7) == 0xc6
  {
  }

  lemma RowCHigh()
    ensures Sbox(0xc8) == 0xe8 && Sbox(0xc9) == 0xdd && Sbox(0xca) == 0x74 && Sbox(0xcb) == 0x1f
    ensures Sbox(0xcc) == 0x4b && Sbox(0xcd) == 0xbd && Sbox(0xce) == 0x8b && Sbox(0xcf) == 0x8a
  {
  }

  lemma RowDLow()
    ensures Sbox(0xd0) == 0x70 && Sbox(0xd1) == 0x3e && Sbox(0xd2) == 0xb5 && Sbox(0xd3) == 0x66
    ensures Sbox(0xd4) == 0x48 && Sbox(0xd5) == 0x03 && Sbox(0xd6) == 0xf6 && Sbox(0xd7) == 0x0e
  {
  }

  lemma RowDHigh()
    ensures Sbox(0xd8) == 0x61 && Sbox(0xd9) == 0x35 && Sbox(0xda) == 0x57 && Sbox(0xdb) == 0xb9
    ensures Sbox(0xdc) == 0x86 && Sbox(0xdd) == 0xc1 && Sbox(0xde) == 0x1d && Sbox(0xdf) == 0x9e
  {
  }

  lemma RowELow()
    ensures Sbox(0xe0) == 0xe1 && Sbox(0xe1) == 0xf8 && Sbox(0xe2) == 0x98 && Sbox(0xe3) == 0x11
    ensures Sbox(0xe4) == 0x69 && Sbox(0xe5) == 0xd9 && Sbox(0xe6) == 0x8e && Sbox(0xe7) == 0x94
  {
  }

  lemma RowEHigh()
    ensures Sbox(0xe8) == 0x9b && Sbox(0xe9) == 0x1e && Sbox(0xea) == 0x87 && Sbox(0xeb) == 0xe9
    ensures Sbox(0xec) == 0xce && Sbox(0xed) == 0x55 && Sbox(0xee) == 0x28 && Sbox(0xef) == 0xdf
  {
  }

  lemma RowFLow()
    ensures Sbox(0xf0) == 0x8c && Sbox(0xf1) == 0xa1 && Sbox(0xf2) == 0x89 && Sbox(0xf3) == 0x0d
    ensures Sbox(0xf4) == 0xbf && Sbox(0xf5) == 0xe6 && Sbox(0xf6) == 0x42 && Sbox(0xf7) == 0x68
  {
  }

  lemma RowFHigh()
    ensures Sbox(0xf8) == 0x41 && Sbox(0xf9) == 0x99 && Sbox(0xfa) == 0x2d && Sbox(0xfb) == 0x0f
    ensures Sbox(0xfc) == 0xb0 && Sbox(0xfd) == 0x54 && Sbox(0xfe) == 0xbb && Sbox(0xff) == 0x16
  {
  }

  // ----- Appendix C.3 of FIPS 197

  const FIPS_INPUT := State(Col(0x00, 0x11, 0x22, 0x33), Col(0x44, 0x55, 0x66, 0x77), Col(0x88, 0x99, 0xaa, 0xbb), Col(0xcc, 0xdd, 0xee, 0xff))
  const FIPS_K0 := State(Col(0x00, 0x01, 0x02, 0x03), Col(0x04, 0x05, 0x06, 0x07), Col(0x08, 0x09, 0x0a, 0x0b), Col(0x0c, 0x0d, 0x0e, 0x0f))
  const FIPS_K1 := State(Col(0x10, 0x11, 0x12, 0x13), Col(0x14, 0x15, 0x16, 0x17), Col(0x18, 0x19, 0x1a, 0x1b), Col(0x1c, 0x1d, 0x1e, 0x1f))
  const FIPS_K2 := State(Col(0xa5, 0x73, 0xc2, 0x9f), Col(0xa1, 0x76, 0xc4, 0x98), Col(0xa9, 0x7f, 0xce, 0x93), Col(0xa5, 0x72, 0xc0, 0x9c))
  const FIPS_K3 := State(Col(0x16, 0x51, 0xa8, 0xcd), Col(0x02, 0x44, 0xbe, 0xda), Col(0x1a, 0x5d, 0xa4, 0xc1), Col(0x06, 0x40, 0xba, 0xde))
  const FIPS_K4 := State(Col(0xae, 0x87, 0xdf, 0xf0), Col(0x0f, 0xf1, 0x1b, 0x68), Col(0xa6, 0x8e, 0xd5, 0xfb), Col(0x03, 0xfc, 0x15, 0x67))
  const FIPS_K5 := State(Col(0x6d, 0xe1, 0xf1, 0x48), Col(0x6f, 0xa5, 0x4f, 0x92), Col(0x75, 0xf8, 0xeb, 0x53), Col(0x73, 0xb8, 0x51, 0x8d))
  const FIPS_K6 := State(Col(0xc6, 0x56, 0x82, 0x7f), Col(0xc9, 0xa7, 0x99, 0x17), Col(0x6f, 0x29, 0x4c, 0xec), Col(0x6c, 0xd5, 0x59, 0x8b))
  const FIPS_K7 := State(Col(0x3d, 0xe2, 0x3a, 0x75), Col(0x52, 0x47, 0x75, 0xe7), Col(0x27, 0xbf, 0x9e, 0xb4), Col(0x54, 0x07, 0xcf, 0x39))
  const FIPS_K8 := State(Col(0x0b, 0xdc, 0x90, 0x5f), Col(0xc2, 0x7b, 0x09, 0x48), Col(0xad, 0x52, 0x45, 0xa4), Col(0xc1, 0x87, 0x1c, 0x2f))
  const FIPS_K9 := State(Col(0x45, 0xf5, 0xa6, 0x60), Col(0x17, 0xb2, 0xd3, 0x87), Col(0x30, 0x0d, 0x4d, 0x33), Col(0x64, 0x0a, 0x82, 0x0a))
  const FIPS_K10 := State(Col(0x7c, 0xcf, 0xf7, 0x1c), Col(0xbe, 0xb4, 0xfe, 0x54), Col(0x13, 0xe6, 0xbb, 0xf0), Col(0xd2, 0x61, 0xa7, 0xdf))
  const FIPS_K11 := State(Col(0xf0, 0x1a, 0xfa, 0xfe), Col(0xe7, 0xa8, 0x29, 0x79), Col(0xd7, 0xa5, 0x64, 0x4a), Col(0xb3, 0xaf, 0xe6, 0x40))
  const FIPS_K12 := State(Col(0x25, 0x41, 0xfe, 0x71), Col(0x9b, 0xf5, 0x00, 0x25), Col(0x88, 0x13, 0xbb, 0xd5), Col(0x5a, 0x72, 0x1c, 0x0a))
  const FIPS_K13 := State(Col(0x4e, 0x5a, 0x66, 0x99), Col(0xa9, 0xf2, 0x4f, 0xe0), Col(0x7e, 0x57, 0x2b, 0xaa), Col(0xcd, 0xf8, 0xcd, 0xea))
  const FIPS_K14 := State(Col(0x24, 0xfc, 0x79, 0xcc), Col(0xbf, 0x09, 0x79, 0xe9), Col(0x37, 0x1a, 0xc2, 0x3c), Col(0x6d, 0x68, 0xde, 0x36))
  const FIPS_S0 := State(Col(0x00, 0x10, 0x20, 0x30), Col(0x40, 0x50, 0x60, 0x70), Col(0x80, 0x90, 0xa0, 0xb0), Col(0xc0, 0xd0, 0xe0, 0xf0))
  const FIPS_S1 := State(Col(0x4f, 0x63, 0x76, 0x06), Col(0x43, 0xe0, 0xaa, 0x85), Col(0xef, 0xa7, 0x21, 0x32), Col(0x01, 0xa4, 0xe7, 0x05))
  const FIPS_S2 := State(Col(0x18, 0x59, 0xfb, 0xc2), Col(0x8a, 0x1c, 0x00, 0xa0), Col(0x78, 0xed, 0x8a, 0xad), Col(0xc4, 0x2f, 0x61, 0x09))
  const FIPS_S3 := State(Col(0x97, 0x5c, 0x66, 0xc1), Col(0xcb, 0x9f, 0x3f, 0xa8), Col(0xa9, 0x3a, 0x28, 0xdf), Col(0x8e, 0xe1, 0x0f, 0x63))
  const FIPS_S4 := State(Col(0x1c, 0x05, 0xf2, 0x71), Col(0xa4, 0x17, 0xe0, 0x4f), Col(0xf9, 0x21, 0xc5, 0xc1), Col(0x04, 0x70, 0x15, 0x54))
  const FIPS_S5 := State(Col(0xc3, 0x57, 0xaa, 0xe1), Col(0x1b, 0x45, 0xb7, 0xb0), Col(0xa2, 0xc7, 0xbd, 0x28), Col(0xa8, 0xdc, 0x99, 0xfa))
  const FIPS_S6 := State(Col(0x7f, 0x07, 0x41, 0x43), Col(0xcb, 0x4e, 0x24, 0x3e), Col(0xc1, 0x0c, 0x81, 0x5d), Col(0x83, 0x75, 0xd5, 0x4c))
  const FIPS_S7 := State(Col(0xd6, 0x53, 0xa4, 0x69), Col(0x6c, 0xa0, 0xbc, 0x0f), Col(0x5a, 0xca, 0xab, 0x5d), Col(0xb9, 0x6c, 0x5e, 0x7d))
  const FIPS_S8 := State(Col(0x5a, 0xa8, 0x58, 0x39), Col(0x5f, 0xd2, 0x8d, 0x7d), Col(0x05, 0xe1, 0xa3, 0x88), Col(0x68, 0xf3, 0xb9, 0xc5))
  const FIPS_S9 := State(Col(0x4a, 0x82, 0x48, 0x51), Col(0xc5, 0x7e, 0x7e, 0x47), Col(0x64, 0x3d, 0xe5, 0x0c), Col(0x2a, 0xf3, 0xe8, 0xc9))
  const FIPS_S10 := State(Col(0xc1, 0x49, 0x07, 0xf6), Col(0xca, 0x3b, 0x3a, 0xa0), Col(0x70, 0xe9, 0xaa, 0x31), Col(0x3b, 0x52, 0xb5, 0xec))
  const FIPS_S11 := State(Col(0x5f, 0x9c, 0x6a, 0xbf), Col(0xba, 0xc6, 0x34, 0xaa), Col(0x50, 0x40, 0x9f, 0xa7), Col(0x66, 0x67, 0x76, 0x53))
  const FIPS_S12 := State(Col(0x51, 0x66, 0x04, 0x95), Col(0x43, 0x53, 0x95, 0x03), Col(0x14, 0xfb, 0x86, 0xe4), Col(0x01, 0x92, 0x25, 0x21))
  const FIPS_S13 := State(Col(0x62, 0x7b, 0xce, 0xb9), Col(0x99, 0x9d, 0x5a, 0xaa), Col(0xc9, 0x45, 0xec, 0xf4), Col(0x23, 0xf5, 0x6d, 0xa5))
  const FIPS_S14 := State(Col(0x8e, 0xa2, 0xb7, 0xca), Col(0x51, 0x67, 0x45, 0xbf), Col(0xea, 0xfc, 0x49, 0x90), Col(0x4b, 0x49, 0x60, 0x89))
  const FIPS_T1 := State(Col(0x63, 0x53, 0xe0, 0x8c), Col(0x09, 0x60, 0xe1, 0x04), Col(0xcd, 0x70, 0xb7, 0x51), Col(0xba, 0xca, 0xd0, 0xe7))
  const FIPS_T2 := State(Col(0x84, 0xe1, 0xfd, 0x6b), Col(0x1a, 0x5c, 0x94, 0x6f), Col(0xdf, 0x49, 0x38, 0x97), Col(0x7c, 0xfb, 0xac, 0x23))
  const FIPS_T3 := State(Col(0xad, 0x9c, 0x7e, 0x01), Col(0x7e, 0x55, 0xef, 0x25), Col(0xbc, 0x15, 0x0f, 0xe0), Col(0x1c, 0xcb, 0x63, 0x95))
  const FIPS_T4 := State(Col(0x88, 0xdb, 0x34, 0xfb), Col(0x1f, 0x80, 0x76, 0x78), Col(0xd3, 0xf8, 0x33, 0xc2), Col(0x19, 0x4a, 0x75, 0x9e))
  const FIPS_T5 := State(Col(0x9c, 0xf0, 0xa6, 0x20), Col(0x49, 0xfd, 0x59, 0xa3), Col(0x99, 0x51, 0x89, 0x84), Col(0xf2, 0x6b, 0xe1, 0x78))
  const FIPS_T6 := State(Col(0x2e, 0x6e, 0x7a, 0x2d), Col(0xaf, 0xc6, 0xee, 0xf8), Col(0x3a, 0x86, 0xac, 0xe7), Col(0xc2, 0x5b, 0xa9, 0x34))
  const FIPS_T7 := State(Col(0xd2, 0x2f, 0x0c, 0x29), Col(0x1f, 0xfe, 0x03, 0x1a), Col(0x78, 0x9d, 0x83, 0xb2), Col(0xec, 0xc5, 0x36, 0x4c))
  const FIPS_T8 := State(Col(0xf6, 0xe0, 0x62, 0xff), Col(0x50, 0x74, 0x58, 0xf9), Col(0xbe, 0x50, 0x49, 0x76), Col(0x56, 0xed, 0x65, 0x4c))
  const FIPS_T9 := State(Col(0xbe, 0xb5, 0x0a, 0xa6), Col(0xcf, 0xf8, 0x56, 0x12), Col(0x6b, 0x0d, 0x6a, 0xff), Col(0x45, 0xc2, 0x5d, 0xc4))
  const FIPS_T10 := State(Col(0xd6, 0xf3, 0xd9, 0xdd), Col(0xa6, 0x27, 0x9b, 0xd1), Col(0x43, 0x0d, 0x52, 0xa0), Col(0xe5, 0x13, 0xf3, 0xfe))
  const FIPS_T11 := State(Col(0x78, 0xe2, 0xac, 0xce), Col(0x74, 0x1e, 0xd5, 0x42), Col(0x51, 0x00, 0xc5, 0xe0), Col(0xe2, 0x3b, 0x80, 0xc7))
  const FIPS_T12 := State(Col(0xcf, 0xb4, 0xdb, 0xed), Col(0xf4, 0x09, 0x38, 0x08), Col(0x53, 0x85, 0x02, 0xac), Col(0x33, 0xde, 0x18, 0x5c))
  const FIPS_T13 := State(Col(0xd1, 0xed, 0x44, 0xfd), Col(0x1a, 0x0f, 0x3f, 0x2a), Col(0xfa, 0x4f, 0xf2, 0x7b), Col(0x7c, 0x33, 0x2a, 0x69))
  const FIPS_T14 := State(Col(0xaa, 0x5e, 0xce, 0x06), Col(0xee, 0x6e, 0x3c, 0x56), Col(0xdd, 0xe6, 0x8b, 0xac), Col(0x26, 0x21, 0xbe, 0xbf))

  lemma FipsWord2() ensures Addend(FIPS_K1.d, 2) == Col(0xa5, 0x72, 0xc0, 0x9c) { hide Sbox; Row1High(); }
  lemma FipsKey2() ensures Chained(FIPS_K0, Col(0xa5, 0x72, 0xc0, 0x9c)) == FIPS_K2 {}
  lemma FipsWord3() ensures Addend(FIPS_K2.d, 3) == Col(0x06, 0x40, 0xba, 0xde) { hide Sbox; Row7Low(); Row9High(); RowALow(); RowCLow(); }
  lemma FipsKey3() ensures Chained(FIPS_K1, Col(0x06, 0x40, 0xba, 0xde)) == FIPS_K3 {}
  lemma FipsWord4() ensures Addend(FIPS_K3.d, 4) == Col(0x0b, 0xf4, 0x1d, 0x6f) { hide Sbox; Row0Low(); Row4Low(); RowBHigh(); RowDHigh(); }
  lemma FipsKey4() ensures Chained(FIPS_K2, Col(0x0b, 0xf4, 0x1d, 0x6f)) == FIPS_K4 {}
  lemma FipsWord5() ensures Addend(FIPS_K4.d, 5) == Col(0x7b, 0xb0, 0x59, 0x85) { hide Sbox; Row0Low(); Row1Low(); Row6Low(); RowFHigh(); }
  lemma FipsKey5() ensures Chained(FIPS_K3, Col(0x7b, 0xb0, 0x59, 0x85)) == FIPS_K5 {}
  lemma FipsWord6() ensures Addend(FIPS_K5.d, 6) == Col(0x68, 0xd1, 0x5d, 0x8f) { hide Sbox; Row5Low(); Row7Low(); Row8High(); RowBHigh(); }
  lemma FipsKey6() ensures Chained(FIPS_K4, Col(0x68, 0xd1, 0x5d, 0x8f)) == FIPS_K6 {}
  lemma FipsWord7() ensures Addend(FIPS_K6.d, 7) == Col(0x50, 0x03, 0xcb, 0x3d) { hide Sbox; Row5High(); Row6High(); Row8High(); RowDLow(); }
  lemma FipsKey7() ensures Chained(FIPS_K5, Col(0x50, 0x03, 0xcb, 0x3d)) == FIPS_K7 {}
  lemma FipsWord8() ensures Addend(FIPS_K7.d, 8) == Col(0xcd, 0x8a, 0x12, 0x20) { hide Sbox; Row0Low(); Row3High(); Row5Low(); RowCHigh(); }
  lemma FipsKey8() ensures Chained(FIPS_K6, Col(0xcd, 0x8a, 0x12, 0x20)) == FIPS_K8 {}
  lemma FipsWord9() ensures Addend(FIPS_K8.d, 9) == Col(0x78, 0x17, 0x9c, 0x15) { hide Sbox; Row1High(); Row2High(); Row8Low(); RowCLow(); }
  lemma FipsKey9() ensures Chained(FIPS_K7, Col(0x78, 0x17, 0x9c, 0x15)) == FIPS_K9 {}
  lemma FipsWord10() ensures Addend(FIPS_K9.d, 10) == Col(0x77, 0x13, 0x67, 0x43) { hide Sbox; Row0High(); Row6Low(); Row8Low(); }
  lemma FipsKey10() ensures Chained(FIPS_K8, Col(0x77, 0x13, 0x67, 0x43)) == FIPS_K10 {}
  lemma FipsWord11() ensures Addend(FIPS_K10.d, 11) == Col(0xb5, 0xef, 0x5c, 0x9e) { hide Sbox; Row6Low(); RowALow(); RowDLow(); RowDHigh(); }
  lemma FipsKey11() ensures Chained(FIPS_K9, Col(0xb5, 0xef, 0x5c, 0x9e)) == FIPS_K11 {}
  lemma FipsWord12() ensures Addend(FIPS_K11.d, 12) == Col(0x59, 0x8e, 0x09, 0x6d) { hide Sbox; Row4Low(); RowAHigh(); RowBLow(); RowELow(); }
  lemma FipsKey12() ensures Chained(FIPS_K10, Col(0x59, 0x8e, 0x09, 0x6d)) == FIPS_K12 {}
  lemma FipsWord13() ensures Addend(FIPS_K12.d, 13) == Col(0xbe, 0x40, 0x9c, 0x67) { hide Sbox; Row0High(); Row1High(); Row5High(); Row7Low(); }
  lemma FipsKey13() ensures Chained(FIPS_K11, Col(0xbe, 0x40, 0x9c, 0x67)) == FIPS_K13 {}
  lemma FipsWord14() ensures Addend(FIPS_K13.d, 14) == Col(0x01, 0xbd, 0x87, 0xbd) { hide Sbox; RowCHigh(); RowEHigh(); RowFHigh(); }
  lemma FipsKey14() ensures Chained(FIPS_K12, Col(0x01, 0xbd, 0x87, 0xbd)) == FIPS_K14 {}

  lemma FipsShift1() ensures Shifted(FIPS_S0) == FIPS_T1 { hide Sbox; Row0Low(); Row1Low(); Row2Low(); Row3Low(); Row4Low(); Row5Low(); Row6Low(); Row7Low(); Row8Low(); Row9Low(); RowALow(); RowBLow(); RowCLow(); RowDLow(); RowELow(); RowFLow(); }
  lemma FipsRound1() ensures MixedPlus(FIPS_T1, FIPS_K1) == FIPS_S1 {}
  lemma FipsShift2() ensures Shifted(FIPS_S1) == FIPS_T2 { hide Sbox; Row0Low(); Row2Low(); Row3Low(); Row4Low(); Row4High(); Row6Low(); Row7Low(); Row8Low(); RowALow(); RowAHigh(); RowELow(); RowEHigh(); }
  lemma FipsRound2() ensures MixedPlus(FIPS_T2, FIPS_K2) == FIPS_S2 {}
  lemma FipsShift3() ensures Shifted(FIPS_S2) == FIPS_T3 { hide Sbox; Row0Low(); Row0High(); Row1High(); Row2High(); Row5High(); Row6Low(); Row7High(); Row8High(); RowALow(); RowAHigh(); RowCLow(); RowEHigh(); RowFHigh(); }
  lemma FipsRound3() ensures MixedPlus(FIPS_T3, FIPS_K3) == FIPS_S3 {}
  lemma FipsShift4() ensures Shifted(FIPS_S3) == FIPS_T4 { hide Sbox; Row0High(); Row2High(); Row3High(); Row5High(); Row6Low(); Row8High(); Row9Low(); Row9High(); RowAHigh(); RowCLow(); RowCHigh(); RowDHigh(); RowELow(); }
  lemma FipsRound4() ensures MixedPlus(FIPS_T4, FIPS_K4) == FIPS_S4 {}
  lemma FipsShift5() ensures Shifted(FIPS_S4) == FIPS_T5 { hide Sbox; Row0Low(); Row1Low(); Row1High(); Row2Low(); Row4High(); Row5Low(); Row7Low(); RowALow(); RowCLow(); RowELow(); RowFLow(); RowFHigh(); }
  lemma FipsRound5() ensures MixedPlus(FIPS_T5, FIPS_K5) == FIPS_S5 {}
  lemma FipsShift6() ensures Shifted(FIPS_S5) == FIPS_T6 { hide Sbox; Row1High(); Row2High(); Row4Low(); Row5Low(); Row9High(); RowALow(); RowAHigh(); RowBLow(); RowBHigh(); RowCLow(); RowDHigh(); RowELow(); RowFHigh(); }
  lemma FipsRound6() ensures MixedPlus(FIPS_T6, FIPS_K6) == FIPS_S6 {}
  lemma FipsShift7() ensures Shifted(FIPS_S6) == FIPS_T7 { hide Sbox; Row0Low(); Row0High(); Row2Low(); Row3High(); Row4Low(); Row4High(); Row5High(); Row7Low(); Row7High(); Row8Low(); RowCLow(); RowCHigh(); RowDLow(); }
  lemma FipsRound7() ensures MixedPlus(FIPS_T7, FIPS_K7) == FIPS_S7 {}
  lemma FipsShift8() ensures Shifted(FIPS_S7) == FIPS_T8 { hide Sbox; Row0High(); Row5Low(); Row5High(); Row6High(); Row7High(); RowALow(); RowAHigh(); RowBHigh(); RowCHigh(); RowDLow(); }
  lemma FipsRound8() ensures MixedPlus(FIPS_T8, FIPS_K8) == FIPS_S8 {}
  lemma FipsShift9() ensures Shifted(FIPS_S8) == FIPS_T9 { hide Sbox; Row0Low(); Row3High(); Row5High(); Row6High(); Row7High(); Row8High(); RowALow(); RowAHigh(); RowBHigh(); RowCLow(); RowDLow(); RowELow(); RowFLow(); }
  lemma FipsRound9() ensures MixedPlus(FIPS_T9, FIPS_K9) == FIPS_S9 {}
  lemma FipsShift10() ensures Shifted(FIPS_S9) == FIPS_T10 { hide Sbox; Row0High(); Row2High(); Row3High(); Row4Low(); Row4High(); Row5Low(); Row6Low(); Row7High(); Row8Low(); RowCLow(); RowCHigh(); RowELow(); RowEHigh(); RowFLow(); }
  lemma FipsRound10() ensures MixedPlus(FIPS_T10, FIPS_K10) == FIPS_S10 {}
  lemma FipsShift11() ensures Shifted(FIPS_S10) == FIPS_T11 { hide Sbox; Row0Low(); Row3Low(); Row3High(); Row4High(); Row5Low(); Row7Low(); RowALow(); RowAHigh(); RowBLow(); RowCLow(); RowCHigh(); RowEHigh(); RowFLow(); }
  lemma FipsRound11() ensures MixedPlus(FIPS_T11, FIPS_K11) == FIPS_S11 {}
  lemma FipsShift12() ensures Shifted(FIPS_S11) == FIPS_T12 { hide Sbox; Row3Low(); Row4Low(); Row5Low(); Row5High(); Row6Low(); Row6High(); Row7Low(); Row9High(); RowALow(); RowAHigh(); RowBHigh(); RowCLow(); }
  lemma FipsRound12() ensures MixedPlus(FIPS_T12, FIPS_K12) == FIPS_S12 {}
  lemma FipsShift13() ensures Shifted(FIPS_S12) == FIPS_T13 { hide Sbox; Row0Low(); Row1Low(); Row2Low(); Row4Low(); Row5Low(); Row6Low(); Row8Low(); Row9Low(); RowELow(); RowFHigh(); }
  lemma FipsRound13() ensures MixedPlus(FIPS_T13, FIPS_K13) == FIPS_S13 {}
  lemma FipsShift14() ensures Shifted(FIPS_S13) == FIPS_T14 { hide Sbox; Row2Low(); Row4Low(); Row5High(); Row6Low(); Row6High(); Row7High(); Row9High(); RowALow(); RowAHigh(); RowBHigh(); RowCHigh(); RowEHigh(); RowFLow(); }
  lemma FipsRound14() ensures PlusKey(FIPS_T14, FIPS_K14) == FIPS_S14 {}

  lemma FipsStart() ensures PlusKey(FIPS_INPUT, FIPS_K0) == FIPS_S0 {}

  lemma FipsFirstRounds()
    ensures Known(BlockOf4(FIPS_K0) + BlockOf4(FIPS_K1), BlockOf4(FIPS_INPUT), 7, FIPS_K6, FIPS_K7, FIPS_S7)
  {
    hide Known, BlockOf4, Chained, Addend, PlusKey, MixedPlus, Shifted;
    var key, input := BlockOf4(FIPS_K0) + BlockOf4(FIPS_K1), BlockOf4(FIPS_INPUT);
    FipsStart(); FipsShift1(); FipsRound1();
    FirstRound(FIPS_INPUT, FIPS_K0, FIPS_K1, FIPS_S0, FIPS_S1);
    FipsWord2(); FipsKey2(); FipsShift2(); FipsRound2();
    NextRound(key, input, 2, FIPS_K0, FIPS_K1, FIPS_K2, FIPS_S1, FIPS_S2);
    FipsWord3(); FipsKey3(); FipsShift3(); FipsRound3();
    NextRound(key, input, 3, FIPS_K1, FIPS_K2, FIPS_K3, FIPS_S2, FIPS_S3);
    FipsWord4(); FipsKey4(); FipsShift4(); FipsRound4();
    NextRound(key, input, 4, FIPS_K2, FIPS_K3, FIPS_K4, FIPS_S3, FIPS_S4);
    FipsWord5(); FipsKey5(); FipsShift5(); FipsRound5();
    NextRound(key, input, 5, FIPS_K3, FIPS_K4, FIPS_K5, FIPS_S4, FIPS_S5);
    FipsWord6(); FipsKey6(); FipsShift6(); FipsRound6();
    NextRound(key, input, 6, FIPS_K4, FIPS_K5, FIPS_K6, FIPS_S5, FIPS_S6);
    FipsWord7(); FipsKey7(); FipsShift7(); FipsRound7();
    NextRound(key, input, 7, FIPS_K5, FIPS_K6, FIPS_K7, FIPS_S6, FIPS_S7);
  }

  lemma FipsLastRounds()
    ensures Known(BlockOf4(FIPS_K0) + BlockOf4(FIPS_K1), BlockOf4(FIPS_INPUT), 14, FIPS_K13, FIPS_K14, FIPS_S14)
  {
    hide Known, BlockOf4, Chained, Addend, PlusKey, MixedPlus, Shifted;
    var key, input := BlockOf4(FIPS_K0) + BlockOf4(FIPS_K1), BlockOf4(FIPS_INPUT);
    FipsFirstRounds();
    FipsWord8(); FipsKey8(); FipsShift8(); FipsRound8();
    NextRound(key, input, 8, FIPS_K6, FIPS_K7, FIPS_K8, FIPS_S7, FIPS_S8);
    FipsWord9(); FipsKey9(); FipsShift9(); FipsRound9();
    NextRound(key, input, 9, FIPS_K7, FIPS_K8, FIPS_K9, FIPS_S8, FIPS_S9);
    FipsWord10(); FipsKey10(); FipsShift10(); FipsRound10();
    NextRound(key, input, 10, FIPS_K8, FIPS_K9, FIPS_K10, FIPS_S9, FIPS_S10);
    FipsWord11(); FipsKey11(); FipsShift11(); FipsRound11();
    NextRound(key, input, 11, FIPS_K9, FIPS_K10, FIPS_K11, FIPS_S10, FIPS_S11);
    FipsWord12(); FipsKey12(); FipsShift12(); FipsRound12();
    NextRound(key, input, 12, FIPS_K10, FIPS_K11, FIPS_K12, FIPS_S11, FIPS_S12);
    FipsWord13(); FipsKey13(); FipsShift13(); FipsRound13();
    NextRound(key, input, 13, FIPS_K11, FIPS_K12, FIPS_K13, FIPS_S12, FIPS_S13);
    FipsWord14(); FipsKey14(); FipsShift14(); FipsRound14();
    NextRound(key, input, 14, FIPS_K12, FIPS_K13, FIPS_K14, FIPS_S13, FIPS_S14);
  }

  lemma FipsBytes()
    ensures BlockOf4(FIPS_K0) == [0x00, 0x01, 0x02, 0x03, 0x04, 0x05, 0x06, 0x07, 0x08, 0x09, 0x0a, 0x0b, 0x0c, 0x0d, 0x0e, 0x0f]
    ensures BlockOf4(FIPS_K1) == [0x10, 0x11, 0x12, 0x13, 0x14, 0x15, 0x16, 0x17, 0x18, 0x19, 0x1a, 0x1b, 0x1c, 0x1d, 0x1e, 0x1f]
    ensures BlockOf4(FIPS_INPUT) == [0x00, 0x11, 0x22, 0x33, 0x44, 0x55, 0x66, 0x77, 0x88, 0x99, 0xaa, 0xbb, 0xcc, 0xdd, 0xee, 0xff]
    ensures BlockOf4(FIPS_S14) == [0x8e, 0xa2, 0xb7, 0xca, 0x51, 0x67, 0x45, 0xbf, 0xea, 0xfc, 0x49, 0x90, 0x4b, 0x49, 0x60, 0x89]
  {
  }

  /** The ciphertext of Appendix C.3. */
  lemma FipsVector()
    ensures Cipher(BlockOf4(FIPS_K0) + BlockOf4(FIPS_K1), BlockOf4(FIPS_INPUT)) == BlockOf4(FIPS_S14)
  {
    hide Cipher, Known, BlockOf4;
    FipsLastRounds();
    CipherKnown(BlockOf4(FIPS_K0) + BlockOf4(FIPS_K1), BlockOf4(FIPS_INPUT), FIPS_K13, FIPS_K14, FIPS_S14);
  }

  // ----- test case 13: the key and the initial vector are zero, so the input is J0

  const GCM_INPUT := State(Col(0x00, 0x00, 0x00, 0x00), Col(0x00, 0x00, 0x00, 0x00), Col(0x00, 0x00, 0x00, 0x00), Col(0x00, 0x00, 0x00, 0x01))
  const GCM_K0 := State(Col(0x00, 0x00, 0x00, 0x00), Col(0x00, 0x00, 0x00, 0x00), Col(0x00, 0x00, 0x00, 0x00), Col(0x00, 0x00, 0x00, 0x00))
  const GCM_K1 := State(Col(0x00, 0x00, 0x00, 0x00), Col(0x00, 0x00, 0x00, 0x00), Col(0x00, 0x00, 0x00, 0x00), Col(0x00, 0x00, 0x00, 0x00))
  const GCM_K2 := State(Col(0x62, 0x63, 0x63, 0x63), Col(0x62, 0x63, 0x63, 0x63), Col(0x62, 0x63, 0x63, 0x63), Col(0x62, 0x63, 0x63, 0x63))
  const GCM_K3 := State(Col(0xaa, 0xfb, 0xfb, 0xfb), Col(0xaa, 0xfb, 0xfb, 0xfb), Col(0xaa, 0xfb, 0xfb, 0xfb), Col(0xaa, 0xfb, 0xfb, 0xfb))
  const GCM_K4 := State(Col(0x6f, 0x6c, 0x6c, 0xcf), Col(0x0d, 0x0f, 0x0f, 0xac), Col(0x6f, 0x6c, 0x6c, 0xcf), Col(0x0d, 0x0f, 0x0f, 0xac))
  const GCM_K5 := State(Col(0x7d, 0x8d, 0x8d, 0x6a), Col(0xd7, 0x76, 0x76, 0x91), Col(0x7d, 0x8d, 0x8d, 0x6a), Col(0xd7, 0x76, 0x76, 0x91))
  const GCM_K6 := State(Col(0x53, 0x54, 0xed, 0xc1), Col(0x5e, 0x5b, 0xe2, 0x6d), Col(0x31, 0x37, 0x8e, 0xa2), Col(0x3c, 0x38, 0x81, 0x0e))
  const GCM_K7 := State(Col(0x96, 0x8a, 0x81, 0xc1), Col(0x41, 0xfc, 0xf7, 0x50), Col(0x3c, 0x71, 0x7a, 0x3a), Col(0xeb, 0x07, 0x0c, 0xab))
  const GCM_K8 := State(Col(0x9e, 0xaa, 0x8f, 0x28), Col(0xc0, 0xf1, 0x6d, 0x45), Col(0xf1, 0xc6, 0xe3, 0xe7), Col(0xcd, 0xfe, 0x62, 0xe9))
  const GCM_K9 := State(Col(0x2b, 0x31, 0x2b, 0xdf), Col(0x6a, 0xcd, 0xdc, 0x8f), Col(0x56, 0xbc, 0xa6, 0xb5), Col(0xbd, 0xbb, 0xaa, 0x1e))
  const GCM_K10 := State(Col(0x64, 0x06, 0xfd, 0x52), Col(0xa4, 0xf7, 0x90, 0x17), Col(0x55, 0x31, 0x73, 0xf0), Col(0x98, 0xcf, 0x11, 0x19))
  const GCM_K11 := State(Col(0x6d, 0xbb, 0xa9, 0x0b), Col(0x07, 0x76, 0x75, 0x84), Col(0x51, 0xca, 0xd3, 0x31), Col(0xec, 0x71, 0x79, 0x2f))
  const GCM_K12 := State(Col(0xe7, 0xb0, 0xe8, 0x9c), Col(0x43, 0x47, 0x78, 0x8b), Col(0x16, 0x76, 0x0b, 0x7b), Col(0x8e, 0xb9, 0x1a, 0x62))
  const GCM_K13 := State(Col(0x74, 0xed, 0x0b, 0xa1), Col(0x73, 0x9b, 0x7e, 0x25), Col(0x22, 0x51, 0xad, 0x14), Col(0xce, 0x20, 0xd4, 0x3b))
  const GCM_K14 := State(Col(0x10, 0xf8, 0x0a, 0x17), Col(0x53, 0xbf, 0x72, 0x9c), Col(0x45, 0xc9, 0x79, 0xe7), Col(0xcb, 0x70, 0x63, 0x85))
  const GCM_S0 := State(Col(0x00, 0x00, 0x00, 0x00), Col(0x00, 0x00, 0x00, 0x00), Col(0x00, 0x00, 0x00, 0x00), Col(0x00, 0x00, 0x00, 0x01))
  const GCM_S1 := State(Col(0x7c, 0x7c, 0x42, 0x5d), Col(0x63, 0x63, 0x63, 0x63), Col(0x63, 0x63, 0x63, 0x63), Col(0x63, 0x63, 0x63, 0x63))
  const GCM_S2 := State(Col(0x54, 0x73, 0x73, 0xbe), Col(0x2e, 0x2f, 0x5a, 0xed), Col(0x4e, 0xfa, 0x2d, 0x4f), Col(0xbf, 0x55, 0x73, 0x73))
  const GCM_S3 := State(Col(0x82, 0x0d, 0xef, 0x53), Col(0x9e, 0xb4, 0x0b, 0x4d), Col(0x31, 0xe8, 0xd2, 0x53), Col(0x0a, 0xab, 0x8c, 0xc1))
  const GCM_S4 := State(Col(0x08, 0xc2, 0x0b, 0x32), Col(0x24, 0x68, 0x7b, 0x8f), Col(0x60, 0xf6, 0x52, 0xfd), Col(0x67, 0x4d, 0xc5, 0x38))
  const GCM_S5 := State(Col(0xd5, 0x30, 0xf1, 0x71), Col(0xf8, 0x16, 0x30, 0x69), Col(0xa0, 0x8e, 0x7d, 0x2f), Col(0xdc, 0x8e, 0x68, 0xa9))
  const GCM_S6 := State(Col(0xb0, 0x10, 0x22, 0xc1), Col(0x11, 0x44, 0xce, 0xaf), Col(0x99, 0xe4, 0x3e, 0xc8), Col(0x36, 0xaf, 0x34, 0xb5))
  const GCM_S7 := State(Col(0x09, 0x43, 0x66, 0xeb), Col(0x85, 0xfc, 0xa4, 0x4c), Col(0x9a, 0xba, 0x5b, 0x0b), Col(0xc7, 0xe3, 0xed, 0x2e))
  const GCM_S8 := State(Col(0x5f, 0xaa, 0x1f, 0xc0), Col(0x4e, 0x83, 0x84, 0x8f), Col(0xb3, 0x20, 0x57, 0x44), Col(0x16, 0xfc, 0x51, 0xbd))
  const GCM_S9 := State(Col(0xa0, 0xaa, 0x30, 0xd6), Col(0x9d, 0x45, 0x28, 0xf7), Col(0xf4, 0x82, 0x75, 0x94), Col(0x98, 0x45, 0xd2, 0x12))
  const GCM_S10 := State(Col(0x59, 0x4f, 0x12, 0x13), Col(0x6e, 0xbd, 0xad, 0xa4), Col(0xee, 0x36, 0x12, 0x90), Col(0xed, 0xb4, 0xf5, 0x0f))
  const GCM_S11 := State(Col(0xd1, 0xb2, 0x0b, 0x12), Col(0xb6, 0xaf, 0xbf, 0x27), Col(0x0d, 0xea, 0x24, 0x9f), Col(0x24, 0xf3, 0x39, 0x01))
  const GCM_S12 := State(Col(0x5a, 0x5a, 0x47, 0x69), Col(0x96, 0xe3, 0xd5, 0x45), Col(0x53, 0x0a, 0xc8, 0xbc), Col(0x68, 0x22, 0x7d, 0xaa))
  const GCM_S13 := State(Col(0x64, 0xfe, 0x80, 0xc2), Col(0xe7, 0x26, 0x7c, 0xff), Col(0x83, 0x14, 0x3a, 0xd7), Col(0xfb, 0x62, 0x86, 0x83))
  const GCM_S14 := State(Col(0x53, 0x0f, 0x8a, 0xfb), Col(0xc7, 0x45, 0x36, 0xb9), Col(0xa9, 0x63, 0xb4, 0xf1), Col(0xc4, 0xcb, 0x73, 0x8b))
  const GCM_T1 := State(Col(0x63, 0x63, 0x63, 0x7c), Col(0x63, 0x63, 0x63, 0x63), Col(0x63, 0x63, 0x63, 0x63), Col(0x63, 0x63, 0x63, 0x63))
  const GCM_T2 := State(Col(0x10, 0xfb, 0xfb, 0xfb), Col(0xfb, 0xfb, 0xfb, 0x4c), Col(0xfb, 0xfb, 0x2c, 0xfb), Col(0xfb, 0x10, 0xfb, 0xfb))
  const GCM_T3 := State(Col(0x20, 0x15, 0xd8, 0x8f), Col(0x31, 0x2d, 0x8f, 0xae), Col(0x2f, 0xfc, 0x8f, 0x55), Col(0x08, 0x8f, 0xbe, 0x84))
  const GCM_T4 := State(Col(0x13, 0x8d, 0xb5, 0x78), Col(0x0b, 0x9b, 0x64, 0xed), Col(0xc7, 0x62, 0xdf, 0xe3), Col(0x67, 0xd7, 0x2b, 0xed))
  const GCM_T5 := State(Col(0x30, 0x45, 0x00, 0x07), Col(0x36, 0x42, 0xa6, 0x23), Col(0xd0, 0xe3, 0x2b, 0x73), Col(0x85, 0x25, 0x21, 0x54))
  const GCM_T6 := State(Col(0x03, 0x47, 0xff, 0xd3), Col(0x41, 0x19, 0x45, 0xa3), Col(0xe0, 0x19, 0xa1, 0xf9), Col(0x86, 0x04, 0x04, 0x15))
  const GCM_T7 := State(Col(0xe7, 0x1b, 0xb2, 0xd5), Col(0x82, 0x69, 0x18, 0x78), Col(0xee, 0x79, 0x93, 0x79), Col(0x05, 0xca, 0x8b, 0xe8))
  const GCM_T8 := State(Col(0x01, 0xb0, 0x39, 0x31), Col(0x97, 0xf4, 0x55, 0xe9), Col(0xb8, 0x11, 0x33, 0x29), Col(0xc6, 0x1a, 0x49, 0x2b))
  const GCM_T9 := State(Col(0xcf, 0xec, 0x5b, 0x7a), Col(0x2f, 0xb7, 0xd1, 0xba), Col(0x6d, 0xb0, 0xc0, 0x73), Col(0x47, 0xac, 0x5f, 0x1b))
  const GCM_T10 := State(Col(0xe0, 0x6e, 0x9d, 0xc9), Col(0x5e, 0x13, 0xb5, 0xf6), Col(0xbf, 0x6e, 0x04, 0x68), Col(0x46, 0xac, 0x34, 0x22))
  const GCM_T11 := State(Col(0xcb, 0x7a, 0xc9, 0x76), Col(0x9f, 0x05, 0xe6, 0x7d), Col(0x28, 0x8d, 0xc9, 0x49), Col(0x55, 0x84, 0x95, 0x60))
  const GCM_T12 := State(Col(0x3e, 0x79, 0x36, 0x7c), Col(0x4e, 0x87, 0x12, 0xc9), Col(0xd7, 0x0d, 0x2b, 0xcc), Col(0x36, 0x37, 0x08, 0xdb))
  const GCM_T13 := State(Col(0xbe, 0x11, 0xe8, 0xac), Col(0x90, 0x67, 0xff, 0xf9), Col(0xed, 0x93, 0xa0, 0x6e), Col(0x45, 0xbe, 0x03, 0x65))
  const GCM_T14 := State(Col(0x43, 0xf7, 0x80, 0xec), Col(0x94, 0xfa, 0x44, 0x25), Col(0xec, 0xaa, 0xcd, 0x16), Col(0x0f, 0xbb, 0x10, 0x0e))

  lemma GcmWord2() ensures Addend(GCM_K1.d, 2) == Col(0x62, 0x63, 0x63, 0x63) { hide Sbox; Row0Low(); }
  lemma GcmKey2() ensures Chained(GCM_K0, Col(0x62, 0x63, 0x63, 0x63)) == GCM_K2 {}
  lemma GcmWord3() ensures Addend(GCM_K2.d, 3) == Col(0xaa, 0xfb, 0xfb, 0xfb) { hide Sbox; Row6Low(); }
  lemma GcmKey3() ensures Chained(GCM_K1, Col(0xaa, 0xfb, 0xfb, 0xfb)) == GCM_K3 {}
  lemma GcmWord4() ensures Addend(GCM_K3.d, 4) == Col(0x0d, 0x0f, 0x0f, 0xac) { hide Sbox; RowAHigh(); RowFHigh(); }
  lemma GcmKey4() ensures Chained(GCM_K2, Col(0x0d, 0x0f, 0x0f, 0xac)) == GCM_K4 {}
  lemma GcmWord5() ensures Addend(GCM_K4.d, 5) == Col(0xd7, 0x76, 0x76, 0x91) { hide Sbox; Row0High(); RowAHigh(); }
  lemma GcmKey5() ensures Chained(GCM_K3, Col(0xd7, 0x76, 0x76, 0x91)) == GCM_K5 {}
  lemma GcmWord6() ensures Addend(GCM_K5.d, 6) == Col(0x3c, 0x38, 0x81, 0x0e) { hide Sbox; Row7Low(); Row9Low(); RowDLow(); }
  lemma GcmKey6() ensures Chained(GCM_K4, Col(0x3c, 0x38, 0x81, 0x0e)) == GCM_K6 {}
  lemma GcmWord7() ensures Addend(GCM_K6.d, 7) == Col(0xeb, 0x07, 0x0c, 0xab) { hide Sbox; Row0High(); Row3High(); Row8Low(); }
  lemma GcmKey7() ensures Chained(GCM_K5, Col(0xeb, 0x07, 0x0c, 0xab)) == GCM_K7 {}
  lemma GcmWord8() ensures Addend(GCM_K7.d, 8) == Col(0xcd, 0xfe, 0x62, 0xe9) { hide Sbox; Row0Low(); Row0High(); RowAHigh(); RowEHigh(); }
  lemma GcmKey8() ensures Chained(GCM_K6, Col(0xcd, 0xfe, 0x62, 0xe9)) == GCM_K8 {}
  lemma GcmWord9() ensures Addend(GCM_K8.d, 9) == Col(0xbd, 0xbb, 0xaa, 0x1e) { hide Sbox; Row6Low(); RowCHigh(); RowEHigh(); RowFHigh(); }
  lemma GcmKey9() ensures Chained(GCM_K7, Col(0xbd, 0xbb, 0xaa, 0x1e)) == GCM_K9 {}
  lemma GcmWord10() ensures Addend(GCM_K9.d, 10) == Col(0xfa, 0xac, 0x72, 0x7a) { hide Sbox; Row1High(); RowAHigh(); RowBHigh(); }
  lemma GcmKey10() ensures Chained(GCM_K8, Col(0xfa, 0xac, 0x72, 0x7a)) == GCM_K10 {}
  lemma GcmWord11() ensures Addend(GCM_K10.d, 11) == Col(0x46, 0x8a, 0x82, 0xd4) { hide Sbox; Row1Low(); Row1High(); Row9High(); RowCHigh(); }
  lemma GcmKey11() ensures Chained(GCM_K9, Col(0x46, 0x8a, 0x82, 0xd4)) == GCM_K11 {}
  lemma GcmWord12() ensures Addend(GCM_K11.d, 12) == Col(0x83, 0xb6, 0x15, 0xce) { hide Sbox; Row2High(); Row7Low(); Row7High(); RowEHigh(); }
  lemma GcmKey12() ensures Chained(GCM_K10, Col(0x83, 0xb6, 0x15, 0xce)) == GCM_K12 {}
  lemma GcmWord13() ensures Addend(GCM_K12.d, 13) == Col(0x19, 0x56, 0xa2, 0xaa) { hide Sbox; Row1High(); Row6Low(); Row8High(); RowBHigh(); }
  lemma GcmKey13() ensures Chained(GCM_K11, Col(0x19, 0x56, 0xa2, 0xaa)) == GCM_K13 {}
  lemma GcmWord14() ensures Addend(GCM_K13.d, 14) == Col(0xf7, 0x48, 0xe2, 0x8b) { hide Sbox; Row2Low(); Row3High(); RowCHigh(); RowDLow(); }
  lemma GcmKey14() ensures Chained(GCM_K12, Col(0xf7, 0x48, 0xe2, 0x8b)) == GCM_K14 {}

  lemma GcmShift1() ensures Shifted(GCM_S0) == GCM_T1 { hide Sbox; Row0Low(); }
  lemma GcmRound1() ensures MixedPlus(GCM_T1, GCM_K1) == GCM_S1 {}
  lemma GcmShift2() ensures Shifted(GCM_S1) == GCM_T2 { hide Sbox; Row4Low(); Row5High(); Row6Low(); Row7High(); }
  lemma GcmRound2() ensures MixedPlus(GCM_T2, GCM_K2) == GCM_S2 {}
  lemma GcmShift3() ensures Shifted(GCM_S2) == GCM_T3 { hide Sbox; Row2High(); Row4High(); Row5Low(); Row5High(); Row7Low(); RowBHigh(); RowEHigh(); RowFHigh(); }
  lemma GcmRound3() ensures MixedPlus(GCM_T3, GCM_K3) == GCM_S3 {}
  lemma GcmShift4() ensures Shifted(GCM_S3) == GCM_T4 { hide Sbox; Row0High(); Row3Low(); Row4High(); Row5Low(); Row8Low(); Row8High(); Row9High(); RowAHigh(); RowBLow(); RowCLow(); RowDLow(); RowEHigh(); }
  lemma GcmRound4() ensures MixedPlus(GCM_T4, GCM_K4) == GCM_S4 {}
  lemma GcmShift5() ensures Shifted(GCM_S4) == GCM_T5 { hide Sbox; Row0High(); Row2Low(); Row3Low(); Row3High(); Row4High(); Row5Low(); Row6Low(); Row6High(); Row7High(); Row8High(); RowCLow(); RowFLow(); RowFHigh(); }
  lemma GcmRound5() ensures MixedPlus(GCM_T5, GCM_K5) == GCM_S5 {}
  lemma GcmShift6() ensures Shifted(GCM_S5) == GCM_T6 { hide Sbox; Row1Low(); Row2High(); Row3Low(); Row6High(); Row7Low(); Row7High(); Row8High(); RowALow(); RowAHigh(); RowDLow(); RowDHigh(); RowFLow(); RowFHigh(); }
  lemma GcmRound6() ensures MixedPlus(GCM_T6, GCM_K6) == GCM_S6 {}
  lemma GcmShift7() ensures Shifted(GCM_S6) == GCM_T7 { hide Sbox; Row1Low(); Row2Low(); Row3Low(); Row3High(); Row4Low(); Row9High(); RowAHigh(); RowBLow(); RowCLow(); RowCHigh(); RowELow(); }
  lemma GcmRound7() ensures MixedPlus(GCM_T7, GCM_K7) == GCM_S7 {}
  lemma GcmShift8() ensures Shifted(GCM_S7) == GCM_T8 { hide Sbox; Row0High(); Row2High(); Row4Low(); Row4High(); Row5High(); Row6Low(); Row8Low(); Row9High(); RowALow(); RowBHigh(); RowCLow(); RowELow(); RowEHigh(); RowFHigh(); }
  lemma GcmRound8() ensures MixedPlus(GCM_T8, GCM_K8) == GCM_S8 {}
  lemma GcmShift9() ensures Shifted(GCM_S8) == GCM_T9 { hide Sbox; Row1Low(); Row1High(); Row2Low(); Row4Low(); Row4High(); Row5Low(); Row5High(); Row8Low(); Row8High(); RowAHigh(); RowBLow(); RowBHigh(); RowCLow(); RowFHigh(); }
  lemma GcmRound9() ensures MixedPlus(GCM_T9, GCM_K9) == GCM_S9 {}
  lemma GcmShift10() ensures Shifted(GCM_S9) == GCM_T10 { hide Sbox; Row1Low(); Row2High(); Row3Low(); Row4Low(); Row7Low(); Row8Low(); Row9Low(); Row9High(); RowALow(); RowAHigh(); RowDLow(); RowFLow(); }
  lemma GcmRound10() ensures MixedPlus(GCM_T10, GCM_K10) == GCM_S10 {}
  lemma GcmShift11() ensures Shifted(GCM_S10) == GCM_T11 { hide Sbox; Row0High(); Row1Low(); Row3Low(); Row4High(); Row5High(); Row6High(); Row9Low(); RowALow(); RowAHigh(); RowBLow(); RowBHigh(); RowEHigh(); RowFLow(); }
  lemma GcmRound11() ensures MixedPlus(GCM_T11, GCM_K11) == GCM_S11 {}
  lemma GcmShift12() ensures Shifted(GCM_S11) == GCM_T12 { hide Sbox; Row0Low(); Row0High(); Row1Low(); Row2Low(); Row3High(); Row9High(); RowAHigh(); RowBLow(); RowBHigh(); RowDLow(); RowEHigh(); RowFLow(); }
  lemma GcmRound12() ensures MixedPlus(GCM_T12, GCM_K12) == GCM_S12 {}
  lemma GcmShift13() ensures Shifted(GCM_S12) == GCM_T13 { hide Sbox; Row0High(); Row2Low(); Row4Low(); Row5Low(); Row5High(); Row6High(); Row7High(); Row9Low(); RowAHigh(); RowBHigh(); RowCHigh(); RowDLow(); RowELow(); }
  lemma GcmRound13() ensures MixedPlus(GCM_T13, GCM_K13) == GCM_S13 {}
  lemma GcmShift14() ensures Shifted(GCM_S13) == GCM_T14 { hide Sbox; Row1Low(); Row2Low(); Row3High(); Row6Low(); Row7High(); Row8Low(); RowCLow(); RowDLow(); RowELow(); RowFHigh(); }
  lemma GcmRound14() ensures PlusKey(GCM_T14, GCM_K14) == GCM_S14 {}

  lemma GcmStart() ensures PlusKey(GCM_INPUT, GCM_K0) == GCM_S0 {}

  lemma GcmFirstRounds()
    ensures Known(BlockOf4(GCM_K0) + BlockOf4(GCM_K1), BlockOf4(GCM_INPUT), 7, GCM_K6, GCM_K7, GCM_S7)
  {
    hide Known, BlockOf4, Chained, Addend, PlusKey, MixedPlus, Shifted;
    var key, input := BlockOf4(GCM_K0) + BlockOf4(GCM_K1), BlockOf4(GCM_INPUT);
    GcmStart(); GcmShift1(); GcmRound1();
    FirstRound(GCM_INPUT, GCM_K0, GCM_K1, GCM_S0, GCM_S1);
    GcmWord2(); GcmKey2(); GcmShift2(); GcmRound2();
    NextRound(key, input, 2, GCM_K0, GCM_K1, GCM_K2, GCM_S1, GCM_S2);
    GcmWord3(); GcmKey3(); GcmShift3(); GcmRound3();
    NextRound(key, input, 3, GCM_K1, GCM_K2, GCM_K3, GCM_S2, GCM_S3);
    GcmWord4(); GcmKey4(); GcmShift4(); GcmRound4();
    NextRound(key, input, 4, GCM_K2, GCM_K3, GCM_K4, GCM_S3, GCM_S4);
    GcmWord5(); GcmKey5(); GcmShift5(); GcmRound5();
    NextRound(key, input, 5, GCM_K3, GCM_K4, GCM_K5, GCM_S4, GCM_S5);
    GcmWord6(); GcmKey6(); GcmShift6(); GcmRound6();
    NextRound(key, input, 6, GCM_K4, GCM_K5, GCM_K6, GCM_S5, GCM_S6);
    GcmWord7(); GcmKey7(); GcmShift7(); GcmRound7();
    NextRound(key, input, 7, GCM_K5, GCM_K6, GCM_K7, GCM_S6, GCM_S7);
  }

  lemma GcmLastRounds()
    ensures Known(BlockOf4(GCM_K0) + BlockOf4(GCM_K1), BlockOf4(GCM_INPUT), 14, GCM_K13, GCM_K14, GCM_S14)
  {
    hide Known, BlockOf4, Chained, Addend, PlusKey, MixedPlus, Shifted;
    var key, input := BlockOf4(GCM_K0) + BlockOf4(GCM_K1), BlockOf4(GCM_INPUT);
    GcmFirstRounds();
    GcmWord8(); GcmKey8(); GcmShift8(); GcmRound8();
    NextRound(key, input, 8, GCM_K6, GCM_K7, GCM_K8, GCM_S7, GCM_S8);
    GcmWord9(); GcmKey9(); GcmShift9(); GcmRound9();
    NextRound(key, input, 9, GCM_K7, GCM_K8, GCM_K9, GCM_S8, GCM_S9);
    GcmWord10(); GcmKey10(); GcmShift10(); GcmRound10();
    NextRound(key, input, 10, GCM_K8, GCM_K9, GCM_K10, GCM_S9, GCM_S10);
    GcmWord11(); GcmKey11(); GcmShift11(); GcmRound11();
    NextRound(key, input, 11, GCM_K9, GCM_K10, GCM_K11, GCM_S10, GCM_S11);
    GcmWord12(); GcmKey12(); GcmShift12(); GcmRound12();
    NextRound(key, input, 12, GCM_K10, GCM_K11, GCM_K12, GCM_S11, GCM_S12);
    GcmWord13(); GcmKey13(); GcmShift13(); GcmRound13();
    NextRound(key, input, 13, GCM_K11, GCM_K12, GCM_K13, GCM_S12, GCM_S13);
    GcmWord14(); GcmKey14(); GcmShift14(); GcmRound14();
    NextRound(key, input, 14, GCM_K12, GCM_K13, GCM_K14, GCM_S13, GCM_S14);
  }

  // ----- a sealed message

  const TAG: Bytes :=
    [0x53, 0x0f, 0x8a, 0xfb, 0xc7, 0x45, 0x36, 0xb9, 0xa9, 0x63, 0xb4, 0xf1, 0xc4, 0xcb, 0x73, 0x8b]

  lemma GcmKeyIsZero()
    ensures BlockOf4(GCM_K0) + BlockOf4(GCM_K1) == ZeroBytes(32) && J0(ZeroBytes(12)) == BlockOf4(GCM_INPUT) && TAG == BlockOf4(GCM_S14)
  {
  }

  /** With nothing to hash, the hash is zero. */
  lemma NothingHashed(h: Block)
    ensures GhashOf(h, [], []) == ZeroBlock()
  {
    hide FieldMul, Elem, BlockOf;
    NoLengths();
    FirstBlock(Zero(), Elem(h), ZeroBlock());
    ZeroBits();
    AddZeroLeft(Zero());
    FieldMulZero(Zero(), Elem(h));
    BlockOfElem(ZeroBlock());
  }

  lemma NoLengths()
    ensures GhashInput([], []) == ZeroBlock()
  {
    assert Pad16([]) == [];
    assert LengthBlock(0, 0) == ZeroBlock();
  }

  /** Test case 13: nothing is sealed under the zero key and initial vector, with this tag. */
  lemma GcmTestCase13()
    ensures Encrypt(ZeroBytes(32), ZeroBytes(12), [], []) == Success(Sealed([], TAG))
  {
    hide Cipher, GhashOf, J0, CounterBlock, BlockOf4, Known;
    GcmLastRounds();
    CipherKnown(BlockOf4(GCM_K0) + BlockOf4(GCM_K1), BlockOf4(GCM_INPUT), GCM_K13, GCM_K14, GCM_S14);
    GcmKeyIsZero();
    var key, h := ZeroBytes(32), HashKey(ZeroBytes(32));
    NothingHashed(h);
    MaskOnly(key, BlockOf4(GCM_INPUT));
    assert Gctr(key, Inc32(J0(ZeroBytes(12))), []) == [];
  }

  lemma CipherKnown(key: Key, input: Block, o: State, n: State, s: State)
    requires Known(key, input, 14, o, n, s)
    ensures Cipher(key, input) == BlockOf4(s)
  {
  }

  lemma MaskOnly(key: Key, icb: Block)
    ensures Gctr(key, icb, ZeroBlock()) == Cipher(key, icb)
  {
    hide Cipher;
    var mask := Gctr(key, icb, ZeroBlock());
    forall k | 0 <= k < 16
      ensures mask[k] == Cipher(key, icb)[k]
    {
      assert CounterBlock(icb, k / 16) == icb;
      ZeroXor(Cipher(key, icb)[k]);
    }
  }

  lemma ZeroXor(b: Byte)
    ensures 0 ^ b == b
  {
  }
}
