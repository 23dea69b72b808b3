/**
 The class Aes256 of app-mobile/services/aesGcm.ts: the expanded key in a byte array, and a block
 cipher that works in place on a 16-byte state. Proved against `AesSpec`.
 */
module Aes256 {
  import opened Bytes
  import opened AesField
  import opened AesTables
  import opened AesSpec
  import opened Buffers

  const RCON: Bytes := [0x01, 0x02, 0x04, 0x08, 0x10, 0x20, 0x40]

  lemma RconTable(j: nat)
    requires 0 < j <= 7
    ensures RCON[j - 1] == PowerOfX(j - 1)
  {
    assert PowerOfX(1) == 0x02 && PowerOfX(2) == 0x04;
    assert PowerOfX(3) == 0x08 && PowerOfX(4) == 0x10;
    assert PowerOfX(5) == 0x20 && PowerOfX(6) == 0x40;
  }

  function WordAt(w: Bytes, i: nat): Word
    requires 4 * i + 4 <= |w|
  {
    w[4 * i..4 * i + 4]
  }

  /** The words of the schedule that have been written so far. */
  ghost predicate Expanded(w: Bytes, key: Key, words: nat)
    requires 4 * words <= |w|
  {
    forall i | 0 <= i < words :: WordAt(w, i) == ExpandedWord(key, i)
  }

  lemma XorRcon(w: Word, j: nat)
    requires 0 < j <= 7
    ensures XorWord(w, Rcon(j)) == [AddByte(w[0], RCON[j - 1]), w[1], w[2], w[3]]
  {
    hide PowerOfX;
    RconTable(j);
    XorNothing(w[1]);
    XorNothing(w[2]);
    XorNothing(w[3]);
  }

  lemma XorNothing(b: Byte)
    ensures b ^ 0 == b
  {
  }

  function AddByte(a: Byte, b: Byte): Byte { a ^ b }

  /** RotWord, SubWord and the round constant on a four-byte buffer. */
  method RotSubRcon(temp: array<Byte>, rconIdx: nat)
    requires temp.Length == 4 && rconIdx < 7
    modifies temp
    ensures temp[..] == XorWord(SubWord(RotWord(old(temp[..]))), Rcon(rconIdx + 1))
  {
    hide Sbox, XorWord, Rcon, AddByte;
    XorRcon(SubWord(RotWord(temp[..])), rconIdx + 1);
    var t := temp[0];
    temp[0] := AddByte(Sbox(temp[1]), RCON[rconIdx]);
    temp[1] := Sbox(temp[2]);
    temp[2] := Sbox(temp[3]);
    temp[3] := Sbox(t);
  }

  method SubTemp(temp: array<Byte>)
    requires temp.Length == 4
    modifies temp
    ensures temp[..] == SubWord(old(temp[..]))
  {
    hide Sbox;
    for i := 0 to 4
      invariant forall k | 0 <= k < i :: temp[k] == Sbox(old(temp[k]))
      invariant forall k | i <= k < 4 :: temp[k] == old(temp[k])
    {
      temp[i] := Sbox(temp[i]);
    }
  }

  /** The branches of the expansion loop, on the last word written. */
  method ScheduleTemp(temp: array<Byte>, bytesGenerated: nat, rconIdx: nat) returns (nextIdx: nat)
    requires temp.Length == 4 && 32 <= bytesGenerated < 240 && bytesGenerated % 4 == 0
    requires rconIdx == (bytesGenerated / 4 - 1) / 8
    modifies temp
    ensures temp[..] == Schedule(old(temp[..]), bytesGenerated / 4)
    ensures nextIdx == (bytesGenerated / 4) / 8
  {
    hide XorWord, SubWord, RotWord, Rcon;
    nextIdx := rconIdx;
    WordPhase(bytesGenerated / 4);
    if bytesGenerated % 32 == 0 {
      RotSubRcon(temp, rconIdx);
      nextIdx := rconIdx + 1;
    } else if bytesGenerated % 32 == 16 {
      SubTemp(temp);
    }
  }

  /** w.set(key, 0) on a fresh buffer. */
  method CopyKey(key: array<Byte>) returns (w: array<Byte>)
    requires key.Length == 32
    ensures fresh(w) && w.Length == 240 && w[..32] == key[..]
  {
    w := NewBuffer(240);
    for i := 0 to 32
      invariant forall k | 0 <= k < i :: w[k] == key[k]
    {
      w[i] := key[i];
    }
  }

  method ExpandKey(key: array<Byte>) returns (w: array<Byte>)
    requires key.Length == 32
    ensures fresh(w) && w.Length == 240 && Expanded(w[..], key[..], 60)
  {
    hide ExpandedWord, Schedule, XorWord, Expanded, WordAt;
    ghost var k0: Key := key[..];
    w := CopyKey(key);
    var bytesGenerated := 32;
    var rconIdx := 0;
    var temp := NewBuffer(4);
    FirstWords(w[..], k0);
    while bytesGenerated < 240
      invariant bytesGenerated % 4 == 0 && 32 <= bytesGenerated <= 240
      invariant rconIdx == (bytesGenerated / 4 - 1) / 8
      invariant Expanded(w[..], k0, bytesGenerated / 4)
      decreases 240 - bytesGenerated
    {
      ghost var words, before := bytesGenerated / 4, w[..];
      ExpandedNext(before, k0, words);
      NextWord(k0, words);
      LoadWord(temp, w, bytesGenerated - 4);
      rconIdx := ScheduleTemp(temp, bytesGenerated, rconIdx);
      AppendWord(w, temp, bytesGenerated);
      ExpandedStep(before, w[..], k0, words);
      bytesGenerated := bytesGenerated + 4;
    }
  }

  /** The first loop of the expansion: temp := four bytes of w. */
  method LoadWord(temp: array<Byte>, w: array<Byte>, at: nat)
    requires temp.Length == 4 && temp != w && at + 4 <= w.Length
    modifies temp
    ensures temp[..] == w[at..at + 4]
  {
    for i := 0 to 4
      invariant forall k | 0 <= k < i :: temp[k] == w[at + k]
    {
      temp[i] := w[at + i];
    }
  }

  lemma ExpandedNext(w: Bytes, key: Key, words: nat)
    requires 8 <= words && 4 * words <= |w| && Expanded(w, key, words)
    ensures w[4 * words - 4..4 * words] == ExpandedWord(key, words - 1)
    ensures w[4 * words - 32..4 * words - 28] == ExpandedWord(key, words - 8)
  {
    hide ExpandedWord;
    assert WordAt(w, words - 1) == ExpandedWord(key, words - 1);
    assert WordAt(w, words - 8) == ExpandedWord(key, words - 8);
  }

  lemma NextWord(key: Key, i: nat)
    requires 8 <= i
    ensures ExpandedWord(key, i) == XorWord(ExpandedWord(key, i - 8), Schedule(ExpandedWord(key, i - 1), i))
  {
  }

  lemma ExpandedStep(w: Bytes, w': Bytes, key: Key, words: nat)
    requires 4 * words + 4 <= |w| == |w'| && Expanded(w, key, words)
    requires w'[..4 * words] == w[..4 * words]
    requires w'[4 * words..4 * words + 4] == ExpandedWord(key, words)
    ensures Expanded(w', key, words + 1)
  {
    hide ExpandedWord;
    forall i | 0 <= i < words + 1
      ensures WordAt(w', i) == ExpandedWord(key, i)
    {
      if i < words {
        assert WordAt(w', i) == w'[..4 * words][4 * i..4 * i + 4] == WordAt(w, i);
      }
    }
  }

  lemma FirstWords(w: Bytes, key: Key)
    requires |w| == 240 && w[..32] == key
    ensures Expanded(w, key, 8)
  {
    forall i | 0 <= i < 8
      ensures WordAt(w, i) == ExpandedWord(key, i)
    {
      assert WordAt(w, i) == w[..32][4 * i..4 * i + 4];
    }
  }

  /** Byte positions and word numbers agree on where the key length and its half are reached. */
  lemma WordPhase(words: nat)
    requires 8 <= words < 60
    ensures (4 * words) % 32 == 0 <==> words % 8 == 0
    ensures (4 * words) % 32 == 16 <==> words % 8 == 4
    ensures words % 8 == 0 ==> (words - 1) / 8 + 1 == words / 8 <= 7
    ensures words / 8 == if words % 8 == 0 then (words - 1) / 8 + 1 else (words - 1) / 8
  {
  }

  // ----- the expanded key, byte by byte

  /** What byte n adds to the one 32 places back. */
  function Addend(w: Bytes, n: nat): Byte
    requires 32 <= n < 240 == |w|
  {
    if n % 32 < 4 then AddByte(Sbox(w[n - n % 4 - 4 + (n + 1) % 4]), if n % 4 == 0 then RCON[n / 32 - 1] else 0)
    else if 16 <= n % 32 < 20 then Sbox(w[n - 4])
    else w[n - 4]
  }

  predicate FollowsFips197(w: Bytes, key: Key)
    requires |w| == 240
  {
    w[..32] == key && forall n | 32 <= n < 240 :: w[n] == AddByte(w[n - 32], Addend(w, n))
  }

  lemma WordOfByte(n: nat)
    requires 32 <= n < 240
    ensures n / 4 / 8 == n / 32 && (n / 4 % 8 == 0 <==> n % 32 < 4) && (n / 4 % 8 == 4 <==> 16 <= n % 32 < 20)
  {
  }

  lemma ScheduleByte(w: Bytes, n: nat)
    requires 32 <= n < 240 == |w|
    ensures Schedule(WordAt(w, n / 4 - 1), n / 4)[n % 4] == Addend(w, n)
  {
    hide Sbox, XorWord, Rcon;
    var temp := WordAt(w, n / 4 - 1);
    WordOfByte(n);
    if n % 32 < 4 {
      XorRcon(SubWord(RotWord(temp)), n / 32);
      RotatedByte(w, n);
    }
  }

  lemma RotatedByte(w: Bytes, n: nat)
    requires 32 <= n < 240 == |w| && n % 32 < 4
    ensures var r := SubWord(RotWord(WordAt(w, n / 4 - 1)));
            [AddByte(r[0], RCON[n / 32 - 1]), r[1], r[2], r[3]][n % 4] == Addend(w, n)
  {
    hide Sbox;
    XorNothing(Sbox(w[n - n % 4 - 4 + (n + 1) % 4]));
  }

  lemma WordIsByte(w: Bytes, n: nat)
    requires n < |w| == 240
    ensures WordAt(w, n / 4)[n % 4] == w[n]
  {
  }

  /** The bytes of the expanded key are the only ones that follow the standard's equations. */
  lemma ExpandedExactly(w: Bytes, key: Key)
    requires |w| == 240
    ensures Expanded(w, key, 60) <==> FollowsFips197(w, key)
  {
    hide Expanded, Addend;
    if Expanded(w, key, 60) {
      KeyComesFirst(w, key);
      forall n | 32 <= n < 240
        ensures w[n] == AddByte(w[n - 32], Addend(w, n))
      {
        ExpandedByte(w, key, n);
      }
    }
    if FollowsFips197(w, key) {
      FollowingExpands(w, key, 60);
    }
  }

  lemma XorAt(a: Word, b: Word, k: nat)
    requires k < 4
    ensures XorWord(a, b)[k] == AddByte(a[k], b[k])
  {
    hide XorWord, AddByte;
    XorParts(a, b);
  }

  lemma XorParts(a: Word, b: Word)
    ensures var x := XorWord(a, b);
            && x[0] == AddByte(a[0], b[0]) && x[1] == AddByte(a[1], b[1])
            && x[2] == AddByte(a[2], b[2]) && x[3] == AddByte(a[3], b[3])
  {
  }

  lemma ExpandedByte(w: Bytes, key: Key, n: nat)
    requires |w| == 240 && Expanded(w, key, 60) && 32 <= n < 240
    ensures w[n] == AddByte(w[n - 32], Addend(w, n))
  {
    hide Schedule, ExpandedWord, Addend, WordAt, XorWord, AddByte;
    var i := n / 4;
    NextWord(key, i);
    XorAt(ExpandedWord(key, i - 8), Schedule(ExpandedWord(key, i - 1), i), n % 4);
    assert WordAt(w, i) == ExpandedWord(key, i) && WordAt(w, i - 1) == ExpandedWord(key, i - 1);
    assert WordAt(w, i - 8) == ExpandedWord(key, i - 8);
    ScheduleByte(w, n);
    WordIsByte(w, n);
    WordIsByte(w, n - 32);
  }

  lemma KeyComesFirst(w: Bytes, key: Key)
    requires |w| == 240 && Expanded(w, key, 60)
    ensures w[..32] == key
  {
    forall n | 0 <= n < 32
      ensures w[n] == key[n]
    {
      assert WordAt(w, n / 4) == ExpandedWord(key, n / 4);
      WordIsByte(w, n);
    }
  }

  lemma {:induction false} FollowingExpands(w: Bytes, key: Key, words: nat)
    requires |w| == 240 && FollowsFips197(w, key) && 8 <= words <= 60
    ensures Expanded(w, key, words)
    decreases words
  {
    hide ExpandedWord, Addend, WordAt;
    if words == 8 {
      FirstWords(w, key);
    } else {
      var i := words - 1;
      FollowingExpands(w, key, i);
      FollowingWord(w, key, i);
    }
  }

  lemma FollowingWord(w: Bytes, key: Key, i: nat)
    requires |w| == 240 && FollowsFips197(w, key) && 8 <= i < 60
    requires WordAt(w, i - 1) == ExpandedWord(key, i - 1) && WordAt(w, i - 8) == ExpandedWord(key, i - 8)
    ensures WordAt(w, i) == ExpandedWord(key, i)
  {
    hide ExpandedWord, Schedule, Addend;
    NextWord(key, i);
    forall k | 0 <= k < 4
      ensures WordAt(w, i)[k] == AddByte(WordAt(w, i - 8)[k], Schedule(WordAt(w, i - 1), i)[k])
    {
      var n := 4 * i + k;
      assert n / 4 == i && n % 4 == k;
      ScheduleByte(w, n);
    }
    var word := WordAt(w, i);
    assert word == [word[0], word[1], word[2], word[3]];
  }

  /** The last loop of the expansion: four bytes, each the one 32 places back plus a byte of temp. */
  method AppendWord(w: array<Byte>, temp: array<Byte>, at: nat)
    requires w.Length == 240 && temp.Length == 4 && w != temp && 32 <= at && at + 4 <= 240
    modifies w
    ensures w[at..at + 4] == XorWord(old(w[at - 32..at - 28]), old(temp[..]))
    ensures w[..at] == old(w[..at])
  {
    ghost var before, t := w[..], temp[..];
    for i := 0 to 4
      invariant forall k | 0 <= k < at :: w[k] == before[k]
      invariant forall k | 0 <= k < i :: w[at + k] == before[at + k - 32] ^ t[k]
    {
      w[at + i] := w[at + i - 32] ^ temp[i];
    }
  }

  // ----- the steps of a round, in place

  method SubBytesInPlace(s: array<Byte>)
    requires s.Length == 16
    modifies s
    ensures s[..] == SubBytes(old(s[..]))
  {
    hide Sbox;
    for i := 0 to 16
      invariant forall k | 0 <= k < i :: s[k] == Sbox(old(s[k]))
      invariant forall k | i <= k < 16 :: s[k] == old(s[k])
    {
      s[i] := Sbox(s[i]);
    }
  }

  method ShiftRowsInPlace(s: array<Byte>)
    requires s.Length == 16
    modifies s
    ensures s[..] == ShiftRows(old(s[..]))
  {
    ghost var s0: Block := s[..];
    ShiftRow1(s);
    ShiftRow2(s);
    ShiftRow3(s);
    assert s[..] == [s0[0], s0[5], s0[10], s0[15], s0[4], s0[9], s0[14], s0[3],
                     s0[8], s0[13], s0[2], s0[7], s0[12], s0[1], s0[6], s0[11]];
    ShiftedPositions(s0);
  }

  method ShiftRow1(s: array<Byte>)
    requires s.Length == 16
    modifies s
    ensures var p := old(s[..]); s[..] == p[1 := p[5]][5 := p[9]][9 := p[13]][13 := p[1]]
  {
    var t := s[1];
    s[1] := s[5];
    s[5] := s[9];
    s[9] := s[13];
    s[13] := t;
  }

  method ShiftRow2(s: array<Byte>)
    requires s.Length == 16
    modifies s
    ensures var p := old(s[..]); s[..] == p[2 := p[10]][10 := p[2]][6 := p[14]][14 := p[6]]
  {
    var t := s[2];
    s[2] := s[10];
    s[10] := t;
    t := s[6];
    s[6] := s[14];
    s[14] := t;
  }

  method ShiftRow3(s: array<Byte>)
    requires s.Length == 16
    modifies s
    ensures var p := old(s[..]); s[..] == p[3 := p[15]][15 := p[11]][11 := p[7]][7 := p[3]]
  {
    var t := s[3];
    s[3] := s[15];
    s[15] := s[11];
    s[11] := s[7];
    s[7] := t;
  }

  lemma ShiftedPositions(s: Block)
    ensures ShiftRows(s) == [s[0], s[5], s[10], s[15], s[4], s[9], s[14], s[3],
                             s[8], s[13], s[2], s[7], s[12], s[1], s[6], s[11]]
  {
  }

  method MixColumnsInPlace(s: array<Byte>)
    requires s.Length == 16
    modifies s
    ensures s[..] == MixColumns(old(s[..]))
  {
    hide MixByte, MixRow, Sum, Xtime, MixCoefficient;
    ghost var s0: Block := s[..];
    for c := 0 to 4
      invariant forall k | 0 <= k < 4 * c :: s[k] == MixByte(s0, k / 4 * 4, k % 4)
      invariant forall k | 4 * c <= k < 16 :: s[k] == s0[k]
    {
      var i := 4 * c;
      var a0, a1, a2, a3 := s[i], s[i + 1], s[i + 2], s[i + 3];
      s[i] := MixRow(a0, a1, a2, a3);
      s[i + 1] := MixRow(a1, a2, a3, a0);
      s[i + 2] := MixRow(a2, a3, a0, a1);
      s[i + 3] := MixRow(a3, a0, a1, a2);
      MixByteIsMixRow(s0, i);
      ColumnIndices(c);
    }
  }

  method AddRoundKeyInPlace(s: array<Byte>, w: array<Byte>, off: nat)
    requires s.Length == 16 && s != w && off + 16 <= w.Length
    modifies s
    ensures s[..] == AddRoundKey(old(s[..]), w[off..off + 16])
  {
    for i := 0 to 16
      invariant forall k | 0 <= k < i :: s[k] == old(s[k]) ^ w[off + k]
      invariant forall k | i <= k < 16 :: s[k] == old(s[k])
    {
      s[i] := s[i] ^ w[off + i];
    }
  }

  /** The body of the round loop. */
  method Round(s: array<Byte>, w: array<Byte>, round: nat)
    requires s.Length == 16 && s != w && w.Length == 240 && 1 <= round <= 14
    modifies s
    ensures s[..] == RoundOf(old(s[..]), w[16 * round..16 * round + 16], round == 14)
  {
    hide SubBytes, ShiftRows, MixColumns, AddRoundKey;
    SubBytesInPlace(s);
    ShiftRowsInPlace(s);
    if round < 14 {
      MixColumnsInPlace(s);
    }
    AddRoundKeyInPlace(s, w, 16 * round);
  }

  lemma RoundKeyBytes(w: Bytes, key: Key, round: nat)
    requires |w| == 240 && Expanded(w, key, 60) && round <= 14
    ensures w[16 * round..16 * round + 16] == RoundKey(key, round)
  {
    hide ExpandedWord;
    var i := 4 * round;
    assert WordAt(w, i) == ExpandedWord(key, i);
    assert WordAt(w, i + 1) == ExpandedWord(key, i + 1);
    assert WordAt(w, i + 2) == ExpandedWord(key, i + 2);
    assert WordAt(w, i + 3) == ExpandedWord(key, i + 3);
    SplitFour(w, 4 * i);
  }

  lemma SplitFour(w: Bytes, at: nat)
    requires at + 16 <= |w|
    ensures w[at..at + 16] == w[at..at + 4] + w[at + 4..at + 8] + w[at + 8..at + 12] + w[at + 12..at + 16]
  {
  }

  lemma FirstRound(key: Key, input: Block)
    ensures RoundState(key, input, 0) == AddRoundKey(input, RoundKey(key, 0))
  {
  }

  lemma RoundStep(key: Key, input: Block, round: nat)
    requires 1 <= round <= 14
    ensures RoundState(key, input, round)
            == RoundOf(RoundState(key, input, round - 1), RoundKey(key, round), round == 14)
  {
  }

  class Aes256 {
    const w: array<Byte>
    ghost const key: Key

    ghost predicate Valid()
      reads w
    {
      w.Length == 240 && Expanded(w[..], key, 60)
    }

    constructor (keyBytes: array<Byte>)
      requires keyBytes.Length == 32
      ensures Valid() && key == keyBytes[..] && fresh(w)
    {
      key := keyBytes[..];
      var expanded := ExpandKey(keyBytes);
      w := expanded;
    }

    /** Encrypts one block; anything but 16 bytes is refused and nothing is written. */
    method EncryptBlock(input: array<Byte>, output: array<Byte>) returns (ok: bool)
      requires Valid() && output.Length == 16 && output != w
      modifies output
      ensures ok <==> input.Length == 16
      ensures ok ==> output[..] == Cipher(key, old(input[..]))
      ensures !ok ==> output[..] == old(output[..])
    {
      hide RoundOf, AddRoundKey, RoundKey, Expanded, RoundState;
      if input.Length != 16 {
        return false;
      }
      ghost var in0: Block := input[..];
      var s := CopyBuffer(input);
      RoundKeyBytes(w[..], key, 0);
      AddRoundKeyInPlace(s, w, 0);
      FirstRound(key, in0);
      for round := 1 to 15
        invariant s[..] == RoundState(key, in0, round - 1)
      {
        RoundKeyBytes(w[..], key, round);
        RoundStep(key, in0, round);
        Round(s, w, round);
      }
      SetBytes(output, s);
      return true;
    }
  }
}
