/** The tables of the cipher: FIPS 46-3, "Enciphering" and Appendix 1, counted from 0. A table of indices has the
    number of bits it selects from in its type. */
module DesTables {
  type Index64 = x: nat | x < 64
  type Index56 = x: nat | x < 56
  type Index32 = x: nat | x < 32
  type Nibble = x: nat | x < 16
  type Row = r: seq<Nibble> | |r| == 16 witness seq(16, i => 0)

  const PC1: seq<Index64> :=
    [56, 48, 40, 32, 24, 16,  8] +
    [ 0, 57, 49, 41, 33, 25, 17] +
    [ 9,  1, 58, 50, 42, 34, 26] +
    [18, 10,  2, 59, 51, 43, 35] +
    [62, 54, 46, 38, 30, 22, 14] +
    [ 6, 61, 53, 45, 37, 29, 21] +
    [13,  5, 60, 52, 44, 36, 28] +
    [20, 12,  4, 27, 19, 11,  3]

  /** How far both halves of the key turn before each of the 16 subkeys is selected. */
  const LEFT_ROTATIONS: seq<nat> :=
    [ 1,  1,  2,  2,  2,  2,  2,  2] +
    [ 1,  2,  2,  2,  2,  2,  2,  1]

  const PC2: seq<Index56> :=
    [13, 16, 10, 23,  0,  4] +
    [ 2, 27, 14,  5, 20,  9] +
    [22, 18, 11,  3, 25,  7] +
    [15,  6, 26, 19, 12,  1] +
    [40, 51, 30, 36, 46, 54] +
    [29, 39, 50, 44, 32, 47] +
    [43, 48, 38, 55, 33, 52] +
    [45, 41, 49, 35, 28, 31]

  const IP: seq<Index64> :=
    [57, 49, 41, 33, 25, 17,  9,  1] +
    [59, 51, 43, 35, 27, 19, 11,  3] +
    [61, 53, 45, 37, 29, 21, 13,  5] +
    [63, 55, 47, 39, 31, 23, 15,  7] +
    [56, 48, 40, 32, 24, 16,  8,  0] +
    [58, 50, 42, 34, 26, 18, 10,  2] +
    [60, 52, 44, 36, 28, 20, 12,  4] +
    [62, 54, 46, 38, 30, 22, 14,  6]

  const FP: seq<Index64> :=
    [39,  7, 47, 15, 55, 23, 63, 31] +
    [38,  6, 46, 14, 54, 22, 62, 30] +
    [37,  5, 45, 13, 53, 21, 61, 29] +
    [36,  4, 44, 12, 52, 20, 60, 28] +
    [35,  3, 43, 11, 51, 19, 59, 27] +
    [34,  2, 42, 10, 50, 18, 58, 26] +
    [33,  1, 41,  9, 49, 17, 57, 25] +
    [32,  0, 40,  8, 48, 16, 56, 24]

  const E: seq<Index32> :=
    [31,  0,  1,  2,  3,  4] +
    [ 3,  4,  5,  6,  7,  8] +
    [ 7,  8,  9, 10, 11, 12] +
    [11, 12, 13, 14, 15, 16] +
    [15, 16, 17, 18, 19, 20] +
    [19, 20, 21, 22, 23, 24] +
    [23, 24, 25, 26, 27, 28] +
    [27, 28, 29, 30, 31,  0]

  const P: seq<Index32> :=
    [15,  6, 19, 20, 28, 11, 27, 16] +
    [ 0, 14, 22, 25,  4, 17, 30,  9] +
    [ 1,  7, 23, 13, 31, 26,  2,  8] +
    [18, 12, 29,  5, 21, 10,  3, 24]

  const S1A: Row := [14,  4, 13,  1,  2, 15, 11,  8,  3, 10,  6, 12,  5,  9,  0,  7]
  const S1B: Row := [ 0, 15,  7,  4, 14,  2, 13,  1, 10,  6, 12, 11,  9,  5,  3,  8]
  const S1C: Row := [ 4,  1, 14,  8, 13,  6,  2, 11, 15, 12,  9,  7,  3, 10,  5,  0]
  const S1D: Row := [15, 12,  8,  2,  4,  9,  1,  7,  5, 11,  3, 14, 10,  0,  6, 13]
  const S1 := S1A + S1B + S1C + S1D

  const S2A: Row := [15,  1,  8, 14,  6, 11,  3,  4,  9,  7,  2, 13, 12,  0,  5, 10]
  const S2B: Row := [ 3, 13,  4,  7, 15,  2,  8, 14, 12,  0,  1, 10,  6,  9, 11,  5]
  const S2C: Row := [ 0, 14,  7, 11, 10,  4, 13,  1,  5,  8, 12,  6,  9,  3,  2, 15]
  const S2D: Row := [13,  8, 10,  1,  3, 15,  4,  2, 11,  6,  7, 12,  0,  5, 14,  9]
  const S2 := S2A + S2B + S2C + S2D

  const S3A: Row := [10,  0,  9, 14,  6,  3, 15,  5,  1, 13, 12,  7, 11,  4,  2,  8]
  const S3B: Row := [13,  7,  0,  9,  3,  4,  6, 10,  2,  8,  5, 14, 12, 11, 15,  1]
  const S3C: Row := [13,  6,  4,  9,  8, 15,  3,  0, 11,  1,  2, 12,  5, 10, 14,  7]
  const S3D: Row := [ 1, 10, 13,  0,  6,  9,  8,  7,  4, 15, 14,  3, 11,  5,  2, 12]
  const S3 := S3A + S3B + S3C + S3D

  const S4A: Row := [ 7, 13, 14,  3,  0,  6,  9, 10,  1,  2,  8,  5, 11, 12,  4, 15]
  const S4B: Row := [13,  8, 11,  5,  6, 15,  0,  3,  4,  7,  2, 12,  1, 10, 14,  9]
  const S4C: Row := [10,  6,  9,  0, 12, 11,  7, 13, 15,  1,  3, 14,  5,  2,  8,  4]
  const S4D: Row := [ 3, 15,  0,  6, 10,  1, 13,  8,  9,  4,  5, 11, 12,  7,  2, 14]
  const S4 := S4A + S4B + S4C + S4D

  const S5A: Row := [ 2, 12,  4,  1,  7, 10, 11,  6,  8,  5,  3, 15, 13,  0, 14,  9]
  const S5B: Row := [14, 11,  2, 12,  4,  7, 13,  1,  5,  0, 15, 10,  3,  9,  8,  6]
  const S5C: Row := [ 4,  2,  1, 11, 10, 13,  7,  8, 15,  9, 12,  5,  6,  3,  0, 14]
  const S5D: Row := [11,  8, 12,  7,  1, 14,  2, 13,  6, 15,  0,  9, 10,  4,  5,  3]
  const S5 := S5A + S5B + S5C + S5D

  const S6A: Row := [12,  1, 10, 15,  9,  2,  6,  8,  0, 13,  3,  4, 14,  7,  5, 11]
  const S6B: Row := [10, 15,  4,  2,  7, 12,  9,  5,  6,  1, 13, 14,  0, 11,  3,  8]
  const S6C: Row := [ 9, 14, 15,  5,  2,  8, 12,  3,  7,  0,  4, 10,  1, 13, 11,  6]
  const S6D: Row := [ 4,  3,  2, 12,  9,  5, 15, 10, 11, 14,  1,  7,  6,  0,  8, 13]
  const S6 := S6A + S6B + S6C + S6D

  const S7A: Row := [ 4, 11,  2, 14, 15,  0,  8, 13,  3, 12,  9,  7,  5, 10,  6,  1]
  const S7B: Row := [13,  0, 11,  7,  4,  9,  1, 10, 14,  3,  5, 12,  2, 15,  8,  6]
  const S7C: Row := [ 1,  4, 11, 13, 12,  3,  7, 14, 10, 15,  6,  8,  0,  5,  9,  2]
  const S7D: Row := [ 6, 11, 13,  8,  1,  4, 10,  7,  9,  5,  0, 15, 14,  2,  3, 12]
  const S7 := S7A + S7B + S7C + S7D

  const S8A: Row := [13,  2,  8,  4,  6, 15, 11,  1, 10,  9,  3, 14,  5,  0, 12,  7]
  const S8B: Row := [ 1, 15, 13,  8, 10,  3,  7,  4, 12,  5,  6, 11,  0, 14,  9,  2]
  const S8C: Row := [ 7, 11,  4,  1,  9, 12, 14,  2,  0,  6, 10, 13, 15,  3,  5,  8]
  const S8D: Row := [ 2,  1, 14,  7,  4, 10,  8, 13, 15, 12,  9,  0,  3,  5,  6, 11]
  const S8 := S8A + S8B + S8C + S8D

  const SBOX: seq<seq<Nibble>> := [S1, S2, S3, S4, S5, S6, S7, S8]

  lemma SboxShape()
    ensures |SBOX| == 8 && forall j | 0 <= j < 8 :: |SBOX[j]| == 64
  {
  }

  lemma FinalInvertsInitial0()
    ensures forall i | 0 <= i < 16 :: IP[FP[i]] == i
  {
  }

  lemma FinalInvertsInitial1()
    ensures forall i | 16 <= i < 32 :: IP[FP[i]] == i
  {
  }

  lemma FinalInvertsInitial2()
    ensures forall i | 32 <= i < 48 :: IP[FP[i]] == i
  {
  }

  lemma FinalInvertsInitial3()
    ensures forall i | 48 <= i < 64 :: IP[FP[i]] == i
  {
  }

  lemma InitialInvertsFinal0()
    ensures forall i | 0 <= i < 16 :: FP[IP[i]] == i
  {
  }

  lemma InitialInvertsFinal1()
    ensures forall i | 16 <= i < 32 :: FP[IP[i]] == i
  {
  }

  lemma InitialInvertsFinal2()
    ensures forall i | 32 <= i < 48 :: FP[IP[i]] == i
  {
  }

  lemma InitialInvertsFinal3()
    ensures forall i | 48 <= i < 64 :: FP[IP[i]] == i
  {
  }

  /** The final permutation and the initial one are inverse to each other. */
  lemma PermutationsInvert()
    ensures forall i | 0 <= i < 64 :: IP[FP[i]] == i
    ensures forall i | 0 <= i < 64 :: FP[IP[i]] == i
  {
    FinalInvertsInitial0();
    FinalInvertsInitial1();
    FinalInvertsInitial2();
    FinalInvertsInitial3();
    InitialInvertsFinal0();
    InitialInvertsFinal1();
    InitialInvertsFinal2();
    InitialInvertsFinal3();
  }

  /** No parity bit of the key is selected. */
  lemma ParityNotSelected()
    ensures forall i | 0 <= i < 56 :: PC1[i] % 8 != 7
  {
    assert forall i | 0 <= i < 28 :: PC1[i] % 8 != 7;
    assert forall i | 28 <= i < 56 :: PC1[i] % 8 != 7;
  }

  /** Each group of six bits is a group of four with its two neighbours, around the half block. */
  lemma ExpansionOverlaps()
    ensures forall i | 0 <= i < 48 :: E[i] == (4 * (i / 6) + i % 6 + 31) % 32
  {
    forall i | 0 <= i < 48 ensures E[i] == (4 * (i / 6) + i % 6 + 31) % 32 {
      if i < 16 {
        ExpansionFirst(i);
      } else if i < 32 {
        ExpansionMiddle(i);
      } else {
        ExpansionLast(i);
      }
    }
  }

  lemma ExpansionFirst(i: nat)
    requires i < 16
    ensures E[i] == (4 * (i / 6) + i % 6 + 31) % 32
  {
  }

  lemma ExpansionMiddle(i: nat)
    requires 16 <= i < 32
    ensures E[i] == (4 * (i / 6) + i % 6 + 31) % 32
  {
  }

  lemma ExpansionLast(i: nat)
    requires 32 <= i < 48
    ensures E[i] == (4 * (i / 6) + i % 6 + 31) % 32
  {
  }

  lemma InitialOdd0()
    ensures forall i | 0 <= i < 16 :: IP[i] == 57 + i / 8 * 2 - 8 * (i % 8)
  {
  }

  lemma InitialOdd1()
    ensures forall i | 16 <= i < 32 :: IP[i] == 57 + i / 8 * 2 - 8 * (i % 8)
  {
  }

  lemma InitialEven0()
    ensures forall i | 0 <= i < 16 :: IP[32 + i] == 56 + i / 8 * 2 - 8 * (i % 8)
  {
  }

  lemma InitialEven1()
    ensures forall i | 16 <= i < 32 :: IP[32 + i] == 56 + i / 8 * 2 - 8 * (i % 8)
  {
  }

  /** Row after row, the initial permutation reads a column of the block from the last byte up: first the columns
      1, 3, 5 and 7, then 0, 2, 4 and 6. */
  lemma InitialByColumns()
    ensures forall i | 0 <= i < 32 :: IP[i] == 57 + i / 8 * 2 - 8 * (i % 8)
    ensures forall i | 0 <= i < 32 :: IP[32 + i] == 56 + i / 8 * 2 - 8 * (i % 8)
  {
    InitialOdd0();
    InitialOdd1();
    InitialEven0();
    InitialEven1();
  }

  lemma KeyLeft0()
    ensures forall i | 0 <= i < 16 :: PC1[i] == 56 + i / 8 - 8 * (i % 8)
  {
  }

  lemma KeyLeft1()
    ensures forall i | 16 <= i < 28 :: PC1[i] == 56 + i / 8 - 8 * (i % 8)
  {
  }

  lemma KeyRight0()
    ensures forall i | 0 <= i < 16 :: PC1[28 + i] == 62 - i / 8 - 8 * (i % 8)
  {
  }

  lemma KeyRight1()
    ensures forall i | 16 <= i < 28 :: PC1[28 + i] == if i < 24 then 62 - i / 8 - 8 * (i % 8) else 27 - 8 * (i - 24)
  {
  }

  /** The first selection of the key reads columns, too: 0, 1, 2 and half of 3 for the left half, and 6, 5, 4 and
      the other half of 3 for the right one. */
  lemma KeyByColumns()
    ensures forall i | 0 <= i < 28 :: PC1[i] == 56 + i / 8 - 8 * (i % 8)
    ensures forall i | 0 <= i < 28 :: PC1[28 + i] == if i < 24 then 62 - i / 8 - 8 * (i % 8) else 27 - 8 * (i - 24)
  {
    KeyLeft0();
    KeyLeft1();
    KeyRight0();
    KeyRight1();
  }
}
