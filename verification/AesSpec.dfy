/**
 AES-256 as FIPS 197 states it: key expansion (section 5.2) and the cipher (section 5.1) as
 functions, and the fact that for every key the cipher is injective on blocks.
 */
module AesSpec {
  import opened Bytes
  import opened AesField
  import opened AesTables

  type Word = w: Bytes | |w| == 4 witness [0, 0, 0, 0]
  type Key = k: Bytes | |k| == 32 witness ZeroBytes(32)

  // ----- key expansion, section 5.2

  function SubWord(w: Word): Word { [Sbox(w[0]), Sbox(w[1]), Sbox(w[2]), Sbox(w[3])] }

  function RotWord(w: Word): Word { [w[1], w[2], w[3], w[0]] }

  function XorWord(a: Word, b: Word): Word { [a[0] ^ b[0], a[1] ^ b[1], a[2] ^ b[2], a[3] ^ b[3]] }

  /** x^n in the byte field. */
  function PowerOfX(n: nat): Byte { if n == 0 then 1 else Xtime(PowerOfX(n - 1)) }

  function Rcon(j: nat): Word
    requires 0 < j
  {
    [PowerOfX(j - 1), 0, 0, 0]
  }

  function ExpandedWord(key: Key, i: nat): Word {
    if i < 8 then key[4 * i..4 * i + 4]
    else XorWord(ExpandedWord(key, i - 8), Schedule(ExpandedWord(key, i - 1), i))
  }

  /** What is added to the word eight places back. */
  function Schedule(temp: Word, i: nat): Word
    requires 8 <= i
  {
    if i % 8 == 0 then XorWord(SubWord(RotWord(temp)), Rcon(i / 8))
    else if i % 8 == 4 then SubWord(temp)
    else temp
  }

  function RoundKey(key: Key, round: nat): Block {
    ExpandedWord(key, 4 * round) + ExpandedWord(key, 4 * round + 1)
    + ExpandedWord(key, 4 * round + 2) + ExpandedWord(key, 4 * round + 3)
  }

  // ----- the rounds, section 5.1: byte r + 4c of a block is the state byte in row r and column c

  function SubBytes(s: Block): (t: Block)
    ensures forall k | 0 <= k < 16 :: t[k] == Sbox(s[k])
  {
    seq(16, k requires 0 <= k < 16 => Sbox(s[k]))
  }

  /** Row r is rotated left by r columns. */
  function ShiftRows(s: Block): (t: Block)
    ensures forall k | 0 <= k < 16 :: t[k] == s[4 * ((k / 4 + k % 4) % 4) + k % 4]
  {
    seq(16, k requires 0 <= k < 16 => s[4 * ((k / 4 + k % 4) % 4) + k % 4])
  }

  /** The matrix of the polynomial {03}x^3 + {01}x^2 + {01}x + {02}: row r, column j. */
  function MixCoefficient(r: nat, j: nat): Byte {
    var d := (j - r) % 4;
    if d == 0 then 2 else if d == 1 then 3 else 1
  }

  /** Row r of the matrix times the column that starts at byte i. */
  function MixByte(s: Block, i: nat, r: nat): Byte
    requires i + 4 <= 16
  {
    Sum(Sum(GfMul(MixCoefficient(r, 0), s[i]), GfMul(MixCoefficient(r, 1), s[i + 1])),
        Sum(GfMul(MixCoefficient(r, 2), s[i + 2]), GfMul(MixCoefficient(r, 3), s[i + 3])))
  }

  function MixColumns(s: Block): (t: Block)
    ensures forall k | 0 <= k < 16 :: t[k] == MixByte(s, k / 4 * 4, k % 4)
  {
    seq(16, k requires 0 <= k < 16 => MixByte(s, k / 4 * 4, k % 4))
  }

  function AddRoundKey(s: Block, k: Block): Block { Xor(s, k) }

  /** One round; the last one does not mix the columns. */
  function RoundOf(s: Block, k: Block, last: bool): Block {
    var shifted := ShiftRows(SubBytes(s));
    AddRoundKey(if last then shifted else MixColumns(shifted), k)
  }

  /** The state after the first `round` rounds. */
  function RoundState(key: Key, input: Block, round: nat): Block
    requires round <= 14
  {
    if round == 0 then AddRoundKey(input, RoundKey(key, 0))
    else RoundOf(RoundState(key, input, round - 1), RoundKey(key, round), round == 14)
  }

  function Cipher(key: Key, input: Block): Block { RoundState(key, input, 14) }

  // ----- the cipher is injective

  /** Each row of the matrix is the first one rotated. */
  lemma MixByteIsMixRow(s: Block, i: nat)
    requires i + 4 <= 16
    ensures MixByte(s, i, 0) == MixRow(s[i], s[i + 1], s[i + 2], s[i + 3])
    ensures MixByte(s, i, 1) == MixRow(s[i + 1], s[i + 2], s[i + 3], s[i])
    ensures MixByte(s, i, 2) == MixRow(s[i + 2], s[i + 3], s[i], s[i + 1])
    ensures MixByte(s, i, 3) == MixRow(s[i + 3], s[i], s[i + 1], s[i + 2])
  {
    hide GfMul, Sum, MixRow;
    var a, b, c, d := s[i], s[i + 1], s[i + 2], s[i + 3];
    MixRowProducts(a, b, c, d);
    MixRowProducts(b, c, d, a);
    MixRowProducts(c, d, a, b);
    MixRowProducts(d, a, b, c);
    RotateSum(GfMul(1, a), GfMul(2, b), GfMul(3, c), GfMul(1, d));
    RotateSum(GfMul(1, a), GfMul(1, b), GfMul(2, c), GfMul(3, d));
    RotateSum(GfMul(3, a), GfMul(1, b), GfMul(1, c), GfMul(2, d));
  }

  lemma RotateSum(a: Byte, b: Byte, c: Byte, d: Byte)
    ensures Sum(Sum(a, b), Sum(c, d)) == Sum(Sum(b, c), Sum(d, a))
    ensures Sum(Sum(a, b), Sum(c, d)) == Sum(Sum(c, d), Sum(a, b))
    ensures Sum(Sum(a, b), Sum(c, d)) == Sum(Sum(d, a), Sum(b, c))
  {
  }

  lemma MixColumnsInjective(a: Block, b: Block)
    requires MixColumns(a) == MixColumns(b)
    ensures a == b
  {
    hide MixByte;
    var p, q := MixColumns(a), MixColumns(b);
    forall c | 0 <= c < 4
      ensures a[4 * c] == b[4 * c] && a[4 * c + 1] == b[4 * c + 1]
      ensures a[4 * c + 2] == b[4 * c + 2] && a[4 * c + 3] == b[4 * c + 3]
    {
      MixColumnInjective(a, b, c);
    }
    forall k | 0 <= k < 16
      ensures a[k] == b[k]
    {
      assert k == 4 * (k / 4) + k % 4;
    }
  }

  lemma MixColumnInjective(a: Block, b: Block, c: nat)
    requires c < 4 && MixColumns(a) == MixColumns(b)
    ensures a[4 * c] == b[4 * c] && a[4 * c + 1] == b[4 * c + 1]
    ensures a[4 * c + 2] == b[4 * c + 2] && a[4 * c + 3] == b[4 * c + 3]
  {
    hide MixByte, MixRow;
    var i, p, q := 4 * c, MixColumns(a), MixColumns(b);
    ColumnIndices(c);
    assert p[i] == q[i] && p[i + 1] == q[i + 1] && p[i + 2] == q[i + 2] && p[i + 3] == q[i + 3];
    MixByteIsMixRow(a, i);
    MixByteIsMixRow(b, i);
    MixInjective(a[i], a[i + 1], a[i + 2], a[i + 3], b[i], b[i + 1], b[i + 2], b[i + 3]);
  }

  lemma ColumnIndices(c: nat)
    ensures (4 * c) / 4 * 4 == 4 * c && (4 * c) % 4 == 0
    ensures (4 * c + 1) / 4 * 4 == 4 * c && (4 * c + 1) % 4 == 1
    ensures (4 * c + 2) / 4 * 4 == 4 * c && (4 * c + 2) % 4 == 2
    ensures (4 * c + 3) / 4 * 4 == 4 * c && (4 * c + 3) % 4 == 3
  {
  }

  lemma SubBytesInjective(a: Block, b: Block)
    requires SubBytes(a) == SubBytes(b)
    ensures a == b
  {
    hide Sbox;
    forall k | 0 <= k < 16
      ensures a[k] == b[k]
    {
      assert SubBytes(a)[k] == SubBytes(b)[k];
      SboxInjective(a[k], b[k]);
    }
  }

  /** ShiftRows moves the byte in row r and column c - r to column c, so every byte is kept. */
  lemma ShiftRowsInjective(a: Block, b: Block)
    requires ShiftRows(a) == ShiftRows(b)
    ensures a == b
  {
    forall k | 0 <= k < 16
      ensures a[k] == b[k]
    {
      var r, c := k % 4, k / 4;
      var m := 4 * ((c - r) % 4) + r;
      assert m % 4 == r && m / 4 == (c - r) % 4;
      assert ((c - r) % 4 + r) % 4 == c;
      assert ShiftRows(a)[m] == ShiftRows(b)[m];
    }
  }

  lemma AddRoundKeyInjective(a: Block, b: Block, k: Block)
    requires AddRoundKey(a, k) == AddRoundKey(b, k)
    ensures a == b
  {
    XorSelf(a, k);
    XorSelf(b, k);
  }

  lemma RoundInjective(a: Block, b: Block, k: Block, last: bool)
    requires RoundOf(a, k, last) == RoundOf(b, k, last)
    ensures a == b
  {
    hide AddRoundKey, MixColumns, ShiftRows, SubBytes;
    var s, t := ShiftRows(SubBytes(a)), ShiftRows(SubBytes(b));
    if last {
      AddRoundKeyInjective(s, t, k);
    } else {
      AddRoundKeyInjective(MixColumns(s), MixColumns(t), k);
      MixColumnsInjective(s, t);
    }
    ShiftRowsInjective(SubBytes(a), SubBytes(b));
    SubBytesInjective(a, b);
  }

  lemma {:induction false} RoundStateInjective(key: Key, a: Block, b: Block, round: nat)
    requires round <= 14
    ensures RoundState(key, a, round) == RoundState(key, b, round) <==> a == b
    decreases round
  {
    hide AddRoundKey, RoundOf, RoundKey;
    if RoundState(key, a, round) != RoundState(key, b, round) {
    } else if round == 0 {
      AddRoundKeyInjective(a, b, RoundKey(key, 0));
    } else {
      RoundInjective(RoundState(key, a, round - 1), RoundState(key, b, round - 1), RoundKey(key, round), round == 14);
      RoundStateInjective(key, a, b, round - 1);
    }
  }

  /** For each key, different blocks have different ciphertexts. */
  lemma CipherInjective(key: Key, a: Block, b: Block)
    ensures Cipher(key, a) == Cipher(key, b) <==> a == b
  {
    hide RoundState;
    RoundStateInjective(key, a, b, 14);
  }
}
