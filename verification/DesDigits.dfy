/** The cipher on hexadecimal digits: the same steps with the tables wired in. It is the cipher on lists of bits. */
module DesDigits {
  import opened BitStrings
  import opened DesTables
  import opened Des

  // ----- digits and words -----

  /** A hexadecimal digit, the highest bit first. */
  datatype Digit = Digit(a: Bit, b: Bit, c: Bit, d: Bit) {
    function At(t: nat): Bit {
      if t == 0 then a else if t == 1 then b else if t == 2 then c else d
    }
  }

  const H0 := Digit(0, 0, 0, 0)
  const H1 := Digit(0, 0, 0, 1)
  const H2 := Digit(0, 0, 1, 0)
  const H3 := Digit(0, 0, 1, 1)
  const H4 := Digit(0, 1, 0, 0)
  const H5 := Digit(0, 1, 0, 1)
  const H6 := Digit(0, 1, 1, 0)
  const H7 := Digit(0, 1, 1, 1)
  const H8 := Digit(1, 0, 0, 0)
  const H9 := Digit(1, 0, 0, 1)
  const HA := Digit(1, 0, 1, 0)
  const HB := Digit(1, 0, 1, 1)
  const HC := Digit(1, 1, 0, 0)
  const HD := Digit(1, 1, 0, 1)
  const HE := Digit(1, 1, 1, 0)
  const HF := Digit(1, 1, 1, 1)

  /** 32 bits. */
  datatype Word = Word(d0: Digit, d1: Digit, d2: Digit, d3: Digit, d4: Digit, d5: Digit, d6: Digit, d7: Digit) {
    function Nth(m: nat): Digit {
      if m == 0 then d0 else if m == 1 then d1 else if m == 2 then d2 else if m == 3 then d3
      else if m == 4 then d4 else if m == 5 then d5 else if m == 6 then d6 else d7
    }

    function Bits(): (r: Bits)
      ensures |r| == 32
    {
      seq(32, i requires 0 <= i < 32 => Nth(i / 4).At(i % 4))
    }
  }

  /** 28 bits of the key. */
  datatype KeyHalf = KeyHalf(d0: Digit, d1: Digit, d2: Digit, d3: Digit, d4: Digit, d5: Digit, d6: Digit) {
    function Nth(m: nat): Digit {
      if m == 0 then d0 else if m == 1 then d1 else if m == 2 then d2 else if m == 3 then d3
      else if m == 4 then d4 else if m == 5 then d5 else d6
    }

    function Bits(): (r: Bits)
      ensures |r| == 28
    {
      seq(28, i requires 0 <= i < 28 => Nth(i / 4).At(i % 4))
    }

    /** The first bit goes to the end. */
    function Turn(): KeyHalf {
      KeyHalf(
        Digit(d0.b, d0.c, d0.d, d1.a), Digit(d1.b, d1.c, d1.d, d2.a), Digit(d2.b, d2.c, d2.d, d3.a),
        Digit(d3.b, d3.c, d3.d, d4.a), Digit(d4.b, d4.c, d4.d, d5.a), Digit(d5.b, d5.c, d5.d, d6.a),
        Digit(d6.b, d6.c, d6.d, d0.a))
    }
  }

  datatype Six = Six(a: Bit, b: Bit, c: Bit, d: Bit, e: Bit, f: Bit) {
    function At(t: nat): Bit {
      if t == 0 then a else if t == 1 then b else if t == 2 then c else if t == 3 then d else if t == 4 then e else f
    }
  }

  /** The 48 bits of a subkey. */
  datatype Key = Key(g0: Six, g1: Six, g2: Six, g3: Six, g4: Six, g5: Six, g6: Six, g7: Six) {
    function Nth(m: nat): Six {
      if m == 0 then g0 else if m == 1 then g1 else if m == 2 then g2 else if m == 3 then g3
      else if m == 4 then g4 else if m == 5 then g5 else if m == 6 then g6 else g7
    }

    function Bits(): (r: Bits)
      ensures |r| == 48
    {
      seq(48, i requires 0 <= i < 48 => Nth(i / 6).At(i % 6))
    }
  }

  // ----- the round -----

  function DigitOf(v: nat): Digit {
    if v == 0 then H0 else if v == 1 then H1 else if v == 2 then H2
    else if v == 3 then H3 else if v == 4 then H4 else if v == 5 then H5
    else if v == 6 then H6 else if v == 7 then H7 else if v == 8 then H8
    else if v == 9 then H9 else if v == 10 then HA else if v == 11 then HB
    else if v == 12 then HC else if v == 13 then HD else if v == 14 then HE
    else HF
  }

  type Box = s: seq<Nibble> | |s| == 64 witness S1

  function Entry(box: Box, a: Bit, b: Bit, c: Bit, d: Bit, e: Bit, f: Bit): Digit {
    var row := if a == 0 then if f == 0 then 0 else 16 else if f == 0 then 32 else 48;
    var eights := if b == 0 then row else row + 8;
    var fours := if c == 0 then eights else eights + 4;
    var twos := if d == 0 then fours else fours + 2;
    DigitOf(box[if e == 0 then twos else twos + 1])
  }

  /** A digit with its two neighbours, mixed with six bits of the key. */
  function Look(box: Box, before: Digit, digit: Digit, after: Digit, k: Six): Digit {
    Entry(box, Xor(before.d, k.a), Xor(digit.a, k.b), Xor(digit.b, k.c), Xor(digit.c, k.d), Xor(digit.d, k.e),
          Xor(after.a, k.f))
  }

  function XorDigits(x: Digit, y: Digit): Digit {
    Digit(Xor(x.a, y.a), Xor(x.b, y.b), Xor(x.c, y.c), Xor(x.d, y.d))
  }

  /** The digits found go through the permutation and are mixed with the left half. */
  function Wired(l: Word, s0: Digit, s1: Digit, s2: Digit, s3: Digit, s4: Digit, s5: Digit, s6: Digit, s7: Digit): Word
  {
    Word(
      XorDigits(Digit(s3.d, s1.c, s4.d, s5.a), l.d0), XorDigits(Digit(s7.a, s2.d, s6.d, s4.a), l.d1),
      XorDigits(Digit(s0.a, s3.c, s5.c, s6.b), l.d2), XorDigits(Digit(s1.a, s4.b, s7.c, s2.b), l.d3),
      XorDigits(Digit(s0.b, s1.d, s5.d, s3.b), l.d4), XorDigits(Digit(s7.d, s6.c, s0.c, s2.a), l.d5),
      XorDigits(Digit(s4.c, s3.a, s7.b, s1.b), l.d6), XorDigits(Digit(s5.b, s2.c, s0.d, s6.a), l.d7))
  }

  function Next(l: Word, r: Word, k: Key): Word {
    Wired(l, Look(S1, r.d7, r.d0, r.d1, k.g0), Look(S2, r.d0, r.d1, r.d2, k.g1),
          Look(S3, r.d1, r.d2, r.d3, k.g2), Look(S4, r.d2, r.d3, r.d4, k.g3),
          Look(S5, r.d3, r.d4, r.d5, k.g4), Look(S6, r.d4, r.d5, r.d6, k.g5),
          Look(S7, r.d5, r.d6, r.d7, k.g6), Look(S8, r.d6, r.d7, r.d0, k.g7))
  }

  function Picked(c: KeyHalf, d: KeyHalf): Key {
    Key(
      Six(c.d3.b, c.d4.a, c.d2.c, c.d5.d, c.d0.a, c.d1.a), Six(c.d0.c, c.d6.d, c.d3.c, c.d1.b, c.d5.a, c.d2.b),
      Six(c.d5.c, c.d4.c, c.d2.d, c.d0.d, c.d6.b, c.d1.d), Six(c.d3.d, c.d1.c, c.d6.c, c.d4.d, c.d3.a, c.d0.b),
      Six(d.d3.a, d.d5.d, d.d0.c, d.d2.a, d.d4.c, d.d6.c), Six(d.d0.b, d.d2.d, d.d5.c, d.d4.a, d.d1.a, d.d4.d),
      Six(d.d3.d, d.d5.a, d.d2.c, d.d6.d, d.d1.b, d.d6.a), Six(d.d4.b, d.d3.b, d.d5.b, d.d1.d, d.d0.a, d.d0.d))
  }

  // ----- the round is the round -----

  lemma DigitOfBits(v: nat, t: nat)
    requires v < 16 && t < 4
    ensures DigitOf(v).At(t) == BitOf(v, t)
  {
  }

  lemma EntryAt(box: Box, b: Bits)
    requires |b| == 6
    ensures var m, n := 2 * (b[0] as nat) + b[5], 8 * (b[1] as nat) + 4 * (b[2] as nat) + 2 * (b[3] as nat) + b[4];
            Entry(box, b[0], b[1], b[2], b[3], b[4], b[5]) == DigitOf(box[16 * m + n])
  {
  }

  lemma EntryIsSbox(j: nat, b: Bits)
    requires j < 8 && |b| == 6
    ensures |SBOX[j]| == 64
    ensures Entry(SBOX[j], b[0], b[1], b[2], b[3], b[4], b[5]) == DigitOf(SboxEntry(j, b))
  {
    SboxShape();
    EntryAt(SBOX[j], b);
  }

  lemma ExpandedBit(r: Bits, j: nat, u: nat)
    requires |r| == 32 && j < 8 && u < 6
    ensures Select(E, r)[6 * j + u] == r[(4 * j + u + 31) % 32]
  {
    ExpansionOverlaps();
    assert (6 * j + u) / 6 == j && (6 * j + u) % 6 == u;
  }

  lemma MixedBit(r: Word, k: Key, j: nat, u: nat)
    requires j < 8 && u < 6
    ensures Group(XorBits(Select(E, r.Bits()), k.Bits()), j)[u] ==
            Xor(r.Bits()[(4 * j + u + 31) % 32], k.Bits()[6 * j + u])
  {
    ExpandedBit(r.Bits(), j, u);
  }

  lemma WordBit(w: Word, m: nat, t: nat)
    requires m < 8 && t < 4
    ensures w.Bits()[4 * m + t] == w.Nth(m).At(t)
  {
    assert (4 * m + t) / 4 == m && (4 * m + t) % 4 == t;
  }

  lemma NeighbourIndex(j: nat, u: nat)
    requires j < 8 && u < 6
    ensures (4 * j + u + 31) % 32 == if u == 0 then 4 * ((j + 7) % 8) + 3 else if u < 5 then 4 * j + u - 1
                                     else 4 * ((j + 1) % 8)
  {
  }

  /** Bit `u` of a digit with its neighbours. */
  function Around(before: Digit, digit: Digit, after: Digit, u: nat): Bit {
    if u == 0 then before.d else if u < 5 then digit.At(u - 1) else after.a
  }

  lemma NeighbourBit(r: Word, j: nat, u: nat)
    requires j < 8 && u < 6
    ensures r.Bits()[(4 * j + u + 31) % 32] == Around(r.Nth((j + 7) % 8), r.Nth(j), r.Nth((j + 1) % 8), u)
  {
    NeighbourIndex(j, u);
    WordBit(r, (j + 7) % 8, 3);
    WordBit(r, (j + 1) % 8, 0);
    if 0 < u < 5 {
      WordBit(r, j, u - 1);
    }
  }

  lemma SixBits(k: Key, j: nat, u: nat)
    requires j < 8 && u < 6
    ensures k.Bits()[6 * j + u] == k.Nth(j).At(u)
  {
    assert (6 * j + u) / 6 == j && (6 * j + u) % 6 == u;
  }

  lemma GroupBit(r: Word, k: Key, j: nat, u: nat)
    requires j < 8 && u < 6
    ensures Group(XorBits(Select(E, r.Bits()), k.Bits()), j)[u] ==
            Xor(Around(r.Nth((j + 7) % 8), r.Nth(j), r.Nth((j + 1) % 8), u), k.Nth(j).At(u))
  {
    MixedBit(r, k, j, u);
    SixBits(k, j, u);
    NeighbourBit(r, j, u);
  }

  lemma LookAt(box: Box, before: Digit, digit: Digit, after: Digit, k: Six, g: Bits)
    requires |g| == 6
    requires forall u | 0 <= u < 6 :: g[u] == Xor(Around(before, digit, after, u), k.At(u))
    ensures Look(box, before, digit, after, k) == Entry(box, g[0], g[1], g[2], g[3], g[4], g[5])
  {
  }

  function Choose(s1: Box, s2: Box, s3: Box, s4: Box, s5: Box, s6: Box, s7: Box, s8: Box, j: nat): Box {
    if j == 0 then s1 else if j == 1 then s2 else if j == 2 then s3 else if j == 3 then s4
    else if j == 4 then s5 else if j == 5 then s6 else if j == 6 then s7 else s8
  }

  lemma BoxIsSbox(j: nat)
    requires j < 8
    ensures SBOX[j] == Choose(S1, S2, S3, S4, S5, S6, S7, S8, j)
  {
  }

  function FoundIn(s1: Box, s2: Box, s3: Box, s4: Box, s5: Box, s6: Box, s7: Box, s8: Box, r: Word, k: Key): Word {
    Word(Look(s1, r.d7, r.d0, r.d1, k.g0), Look(s2, r.d0, r.d1, r.d2, k.g1),
         Look(s3, r.d1, r.d2, r.d3, k.g2), Look(s4, r.d2, r.d3, r.d4, k.g3),
         Look(s5, r.d3, r.d4, r.d5, k.g4), Look(s6, r.d4, r.d5, r.d6, k.g5),
         Look(s7, r.d5, r.d6, r.d7, k.g6), Look(s8, r.d6, r.d7, r.d0, k.g7))
  }

  /** The digits that the S-boxes give. */
  function Found(r: Word, k: Key): Word {
    FoundIn(S1, S2, S3, S4, S5, S6, S7, S8, r, k)
  }

  lemma FoundNth(s1: Box, s2: Box, s3: Box, s4: Box, s5: Box, s6: Box, s7: Box, s8: Box, r: Word, k: Key, j: nat)
    requires j < 8
    ensures FoundIn(s1, s2, s3, s4, s5, s6, s7, s8, r, k).Nth(j) ==
            Look(Choose(s1, s2, s3, s4, s5, s6, s7, s8, j), r.Nth((j + 7) % 8), r.Nth(j), r.Nth((j + 1) % 8), k.Nth(j))
  {
    var w := FoundIn(s1, s2, s3, s4, s5, s6, s7, s8, r, k);
    var before, after := (j + 7) % 8, (j + 1) % 8;
    assert before == if j == 0 then 7 else j - 1;
    assert after == if j == 7 then 0 else j + 1;
  }

  lemma FoundDigit(r: Word, k: Key, j: nat)
    requires j < 8
    ensures Found(r, k).Nth(j) == DigitOf(SboxEntry(j, Group(XorBits(Select(E, r.Bits()), k.Bits()), j)))
  {
    var g := Group(XorBits(Select(E, r.Bits()), k.Bits()), j);
    BoxIsSbox(j);
    forall u | 0 <= u < 6
      ensures g[u] == Xor(Around(r.Nth((j + 7) % 8), r.Nth(j), r.Nth((j + 1) % 8), u), k.Nth(j).At(u))
    {
      GroupBit(r, k, j, u);
    }
    FoundNth(S1, S2, S3, S4, S5, S6, S7, S8, r, k, j);
    LookAt(SBOX[j], r.Nth((j + 7) % 8), r.Nth(j), r.Nth((j + 1) % 8), k.Nth(j), g);
    EntryIsSbox(j, g);
  }

  lemma FoundIsSubstitute(r: Word, k: Key)
    ensures Found(r, k).Bits() == Substitute(XorBits(Select(E, r.Bits()), k.Bits()))
  {
    var x := XorBits(Select(E, r.Bits()), k.Bits());
    forall i | 0 <= i < 32 ensures Found(r, k).Bits()[i] == Substitute(x)[i] {
      FoundDigit(r, k, i / 4);
      DigitOfBits(SboxEntry(i / 4, Group(x, i / 4)), i % 4);
    }
  }

  function Permuted(s: Word): Word {
    Word(
      Digit(s.d3.d, s.d1.c, s.d4.d, s.d5.a), Digit(s.d7.a, s.d2.d, s.d6.d, s.d4.a),
      Digit(s.d0.a, s.d3.c, s.d5.c, s.d6.b), Digit(s.d1.a, s.d4.b, s.d7.c, s.d2.b),
      Digit(s.d0.b, s.d1.d, s.d5.d, s.d3.b), Digit(s.d7.d, s.d6.c, s.d0.c, s.d2.a),
      Digit(s.d4.c, s.d3.a, s.d7.b, s.d1.b), Digit(s.d5.b, s.d2.c, s.d0.d, s.d6.a))
  }

  lemma PermutedIsSelect(s: Word)
    ensures Permuted(s).Bits() == Select(P, s.Bits())
  {
  }

  lemma WiredNth(l: Word, s: Word, m: nat)
    requires m < 8
    ensures Wired(l, s.d0, s.d1, s.d2, s.d3, s.d4, s.d5, s.d6, s.d7).Nth(m) == XorDigits(Permuted(s).Nth(m), l.Nth(m))
  {
  }

  lemma XorDigitsAt(x: Digit, y: Digit, t: nat)
    requires t < 4
    ensures XorDigits(x, y).At(t) == Xor(x.At(t), y.At(t))
  {
  }

  lemma WiredIsSelect(l: Word, s: Word)
    ensures Wired(l, s.d0, s.d1, s.d2, s.d3, s.d4, s.d5, s.d6, s.d7).Bits() == XorBits(Select(P, s.Bits()), l.Bits())
  {
    PermutedIsSelect(s);
    forall i | 0 <= i < 32
      ensures Wired(l, s.d0, s.d1, s.d2, s.d3, s.d4, s.d5, s.d6, s.d7).Bits()[i] ==
              Xor(Permuted(s).Bits()[i], l.Bits()[i])
    {
      WiredNth(l, s, i / 4);
      XorDigitsAt(Permuted(s).Nth(i / 4), l.Nth(i / 4), i % 4);
    }
  }

  lemma TurnIsTurn(h: KeyHalf)
    ensures h.Turn().Bits() == TurnOnce(h.Bits())
  {
  }

  lemma PickedIsSelect(c: KeyHalf, d: KeyHalf)
    ensures Picked(c, d).Bits() == Select(PC2, c.Bits() + d.Bits())
  {
  }

  /** The round on digits is the round on bits. */
  lemma NextIsRound(l: Word, r: Word, k: Key)
    ensures Round(Halves(l.Bits(), r.Bits()), k.Bits()) == Halves(r.Bits(), Next(l, r, k).Bits())
  {
    FoundIsSubstitute(r, k);
    WiredIsSelect(l, Found(r, k));
  }

  // ----- blocks -----

  /** 64 bits. */
  datatype Block = Block(high: Word, low: Word) {
    function Bits(): (r: Bits)
      ensures |r| == 64
    {
      high.Bits() + low.Bits()
    }
  }

  /** Bit `p` of each byte of a word, the last byte first. */
  function Column(w: Word, p: nat): Digit {
    if p < 4 then Digit(w.d6.At(p), w.d4.At(p), w.d2.At(p), w.d0.At(p))
    else Digit(w.d7.At(p - 4), w.d5.At(p - 4), w.d3.At(p - 4), w.d1.At(p - 4))
  }

  function Columns(b: Block, p: nat): Word {
    Word(Column(b.low, p), Column(b.high, p), Column(b.low, p + 2), Column(b.high, p + 2),
         Column(b.low, p + 4), Column(b.high, p + 4), Column(b.low, p + 6), Column(b.high, p + 6))
  }

  lemma ColumnBit(w: Word, p: nat, t: nat)
    requires p < 8 && t < 4
    ensures Column(w, p).At(t) == w.Bits()[8 * (3 - t) + p]
  {
    WordBit(w, 2 * (3 - t) + p / 4, p % 4);
    assert 4 * (2 * (3 - t) + p / 4) + p % 4 == 8 * (3 - t) + p;
  }

  lemma BlockBit(b: Block, p: nat, u: nat)
    requires p < 8 && u < 8
    ensures b.Bits()[56 + p - 8 * u] == Column(if u < 4 then b.low else b.high, p).At(u % 4)
  {
    ColumnBit(if u < 4 then b.low else b.high, p, u % 4);
  }

  lemma RowOfDigits(q: nat, u: nat)
    requires u < 8
    ensures (8 * q + u) / 4 == 2 * q + u / 4 && (8 * q + u) % 4 == u % 4
  {
  }

  lemma WordRow(w: Word, q: nat, u: nat)
    requires q < 4 && u < 8
    ensures w.Bits()[8 * q + u] == w.Nth(2 * q + u / 4).At(u % 4)
  {
    RowOfDigits(q, u);
  }

  lemma ColumnsRow(b: Block, p: nat, q: nat)
    requires q < 4
    ensures Columns(b, p).Nth(2 * q) == Column(b.low, p + 2 * q)
    ensures Columns(b, p).Nth(2 * q + 1) == Column(b.high, p + 2 * q)
  {
  }

  lemma ColumnsBit(b: Block, p: nat, q: nat, u: nat)
    requires p < 2 && q < 4 && u < 8
    ensures Columns(b, p).Bits()[8 * q + u] == b.Bits()[56 + p + 2 * q - 8 * u]
  {
    var w, m := Columns(b, p), 2 * q + u / 4;
    assert m == if u < 4 then 2 * q else 2 * q + 1;
    WordRow(w, q, u);
    ColumnsRow(b, p, q);
    assert w.Nth(m) == Column(if u < 4 then b.low else b.high, p + 2 * q);
    BlockBit(b, p + 2 * q, u);
  }

  /** The initial permutation reads the odd columns of a block, then the even ones. */
  lemma InitialColumns(b: Block)
    ensures Initial(b.Bits()) == Halves(Columns(b, 1).Bits(), Columns(b, 0).Bits())
  {
    InitialByColumns();
    var block := Select(IP, b.Bits());
    forall i | 0 <= i < 32 ensures block[i] == Columns(b, 1).Bits()[i] && block[32 + i] == Columns(b, 0).Bits()[i] {
      ColumnsBit(b, 1, i / 8, i % 8);
      ColumnsBit(b, 0, i / 8, i % 8);
    }
  }

  function KeyLeft(b: Block): KeyHalf {
    KeyHalf(Column(b.low, 0), Column(b.high, 0), Column(b.low, 1), Column(b.high, 1), Column(b.low, 2),
            Column(b.high, 2), Column(b.low, 3))
  }

  function KeyRight(b: Block): KeyHalf {
    KeyHalf(Column(b.low, 6), Column(b.high, 6), Column(b.low, 5), Column(b.high, 5), Column(b.low, 4),
            Column(b.high, 4), Column(b.high, 3))
  }

  lemma KeyLeftBit(b: Block, q: nat, u: nat)
    requires u < 8 && 8 * q + u < 28
    ensures KeyLeft(b).Bits()[8 * q + u] == b.Bits()[56 + q - 8 * u]
  {
    RowOfDigits(q, u);
    BlockBit(b, q, u);
  }

  lemma KeyRightBit(b: Block, q: nat, u: nat)
    requires u < 8 && q < 3
    ensures KeyRight(b).Bits()[8 * q + u] == b.Bits()[62 - q - 8 * u]
  {
    RowOfDigits(q, u);
    BlockBit(b, 6 - q, u);
  }

  lemma KeyRightEnd(b: Block, t: nat)
    requires t < 4
    ensures KeyRight(b).Bits()[24 + t] == b.Bits()[27 - 8 * t]
  {
    BlockBit(b, 3, 4 + t);
  }

  lemma KeyLeftColumns(b: Block, i: nat)
    requires i < 28
    ensures KeyLeft(b).Bits()[i] == b.Bits()[56 + i / 8 - 8 * (i % 8)]
  {
    var q, u := i / 8, i % 8;
    assert i == 8 * q + u;
    KeyLeftBit(b, q, u);
  }

  lemma KeyRightColumns(b: Block, i: nat)
    requires i < 28
    ensures KeyRight(b).Bits()[i] == b.Bits()[if i < 24 then 62 - i / 8 - 8 * (i % 8) else 27 - 8 * (i - 24)]
  {
    var q, u := i / 8, i % 8;
    assert i == 8 * q + u;
    if q < 3 {
      KeyRightBit(b, q, u);
    } else {
      KeyRightEnd(b, u);
    }
  }

  /** The first selection reads columns of the key as well: the left half from the first column, the right half
      from the last column but one. */
  lemma KeyColumns(b: Block)
    ensures KeyHalves(b.Bits()) == (KeyLeft(b).Bits(), KeyRight(b).Bits())
  {
    KeyByColumns();
    var c := Select(PC1, b.Bits());
    forall i | 0 <= i < 28 ensures c[..28][i] == KeyLeft(b).Bits()[i] && c[28..][i] == KeyRight(b).Bits()[i] {
      KeyLeftColumns(b, i);
      KeyRightColumns(b, i);
    }
    assert c[..28] == KeyLeft(b).Bits() && c[28..] == KeyRight(b).Bits();
  }

  // ----- sixteen rounds -----

  function TurnedBy(h: KeyHalf, n: nat): KeyHalf {
    if n == 1 then h.Turn() else h.Turn().Turn()
  }

  lemma HalfTurns(h: KeyHalf, c: Bits, m: nat, n: nat)
    requires |c| == 28 && 1 <= n <= 2 && m + n <= 28 && h.Bits() == Rotate(c, m)
    ensures TurnedBy(h, n).Bits() == Rotate(c, m + n)
  {
    TurnIsTurn(h);
    RotateOneMore(c, m);
    if n == 2 {
      TurnIsTurn(h.Turn());
      RotateOneMore(c, m + 1);
    }
  }

  /** Where the halves of the key have got to after `i` subkeys; the last subkey is picked from there. */
  ghost predicate KeyAt(key: Block, i: nat, c: KeyHalf, d: KeyHalf) {
    var (c0, d0) := KeyHalves(key.Bits());
    && i <= 16 && c.Bits() == Rotate(c0, Turned(i)) && d.Bits() == Rotate(d0, Turned(i))
    && (i > 0 ==> Subkeys(key.Bits())[i - 1] == Picked(c, d).Bits())
  }

  lemma SubkeyPicked(key: Block, i: nat, c: KeyHalf, d: KeyHalf)
    requires i < 16
    requires c.Bits() == Rotate(KeyHalves(key.Bits()).0, Turned(i + 1))
    requires d.Bits() == Rotate(KeyHalves(key.Bits()).1, Turned(i + 1))
    ensures Picked(c, d).Bits() == Subkeys(key.Bits())[i]
  {
    PickedIsSelect(c, d);
    SubkeySelected(key.Bits(), KeyHalves(key.Bits()).0, KeyHalves(key.Bits()).1, i, Picked(c, d).Bits());
  }

  lemma KeyStarts(key: Block)
    ensures KeyAt(key, 0, KeyLeft(key), KeyRight(key))
  {
    KeyColumns(key);
    RotateNothing(KeyLeft(key).Bits());
    RotateNothing(KeyRight(key).Bits());
  }

  /** Turning digits follows the key schedule. */
  lemma KeyTurnsBy(key: Block, i: nat, c: KeyHalf, d: KeyHalf, n: nat)
    requires i < 16 && 1 <= n <= 2 && Turned(i) + n == Turned(i + 1) && KeyAt(key, i, c, d)
    ensures KeyAt(key, i + 1, TurnedBy(c, n), TurnedBy(d, n))
  {
    var (c0, d0) := KeyHalves(key.Bits());
    var (c', d') := (TurnedBy(c, n), TurnedBy(d, n));
    HalfTurns(c, c0, Turned(i), n);
    HalfTurns(d, d0, Turned(i), n);
    SubkeyPicked(key, i, c', d');
  }

  /** The halves of the block before round `i`. */
  ghost predicate Reaches(key: Block, data: Block, i: nat, l: Word, r: Word) {
    var keys := Subkeys(key.Bits());
    Remaining(Halves(l.Bits(), r.Bits()), keys, i, Rounds(Initial(data.Bits()), keys))
  }

  lemma Starts(key: Block, data: Block)
    ensures Reaches(key, data, 0, Columns(data, 1), Columns(data, 0))
  {
    InitialColumns(data);
    RoundsStart(Initial(data.Bits()), Subkeys(key.Bits()));
  }

  lemma Proceeds(key: Block, data: Block, i: nat, l: Word, r: Word, k: Key)
    requires i < 16 && Subkeys(key.Bits())[i] == k.Bits() && Reaches(key, data, i, l, r)
    ensures Reaches(key, data, i + 1, r, Next(l, r, k))
  {
    var keys := Subkeys(key.Bits());
    NextIsRound(l, r, k);
    RoundsStep(Halves(l.Bits(), r.Bits()), keys, i, Rounds(Initial(data.Bits()), keys));
  }

  /** After 16 rounds the columns of the answer are the halves swapped. */
  lemma Answers(key: Block, data: Block, l: Word, r: Word, out: Block)
    requires Reaches(key, data, 16, l, r) && Columns(out, 1) == r && Columns(out, 0) == l
    ensures Crypt(Subkeys(key.Bits()), data.Bits()) == out.Bits()
  {
    var keys, h := Subkeys(key.Bits()), Halves(l.Bits(), r.Bits());
    RoundsEnd(h, keys, Rounds(Initial(data.Bits()), keys));
    InitialColumns(out);
    FinalOfInitial(out.Bits());
    assert Swap(Initial(out.Bits())) == h;
  }
}
