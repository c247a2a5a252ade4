/** What the design of the cipher asks of its S-boxes, for all inputs and all eight boxes. */
module SboxDesign {
  import opened BitStrings
  import opened DesTables
  import opened Des

  function Differ(u: nat, v: nat, t: nat): nat
    requires t < 4
  {
    if BitOf(u, t) == BitOf(v, t) then 0 else 1
  }

  /** In how many of their four bits two entries differ. */
  function Distance(u: nat, v: nat): nat {
    Differ(u, v, 0) + Differ(u, v, 1) + Differ(u, v, 2) + Differ(u, v, 3)
  }

  // ----- entry by entry -----

  /** They differ, and not by one bit only: such entries are 1, 2, 4 or 8 apart, in the same pair, four or eight. */
  predicate Far(u: nat, v: nat) {
    var apart := if u < v then v - u else u - v;
    && apart != 0 && apart != 8
    && (apart == 4 ==> (u < 8 <==> v >= 8))
    && (apart == 2 ==> ((u < 4 <==> v >= 4) || (u < 8 <==> v >= 8) || (u < 12 <==> v >= 12)))
    && (apart == 1 ==> (if u < v then u else v) % 2 == 1)
  }

  lemma SumOfBits(v: nat)
    requires v < 16
    ensures v == 8 * (BitOf(v, 0) as nat) + 4 * (BitOf(v, 1) as nat) + 2 * (BitOf(v, 2) as nat) + BitOf(v, 3)
  {
  }

  lemma FarIsDistance(u: nat, v: nat)
    requires u < 16 && v < 16 && Far(u, v)
    ensures Distance(u, v) >= 2
  {
    SumOfBits(u);
    SumOfBits(v);
  }

  predicate FarEights(r: Row) {
    && Far(r[0], r[8]) && Far(r[1], r[9]) && Far(r[2], r[10]) && Far(r[3], r[11])
    && Far(r[4], r[12]) && Far(r[5], r[13]) && Far(r[6], r[14]) && Far(r[7], r[15])
  }

  predicate FarFours(r: Row) {
    && Far(r[0], r[4]) && Far(r[1], r[5]) && Far(r[2], r[6]) && Far(r[3], r[7])
    && Far(r[8], r[12]) && Far(r[9], r[13]) && Far(r[10], r[14]) && Far(r[11], r[15])
  }

  predicate FarTwos(r: Row) {
    && Far(r[0], r[2]) && Far(r[1], r[3]) && Far(r[4], r[6]) && Far(r[5], r[7])
    && Far(r[8], r[10]) && Far(r[9], r[11]) && Far(r[12], r[14]) && Far(r[13], r[15])
  }

  predicate FarOnes(r: Row) {
    && Far(r[0], r[1]) && Far(r[2], r[3]) && Far(r[4], r[5]) && Far(r[6], r[7])
    && Far(r[8], r[9]) && Far(r[10], r[11]) && Far(r[12], r[13]) && Far(r[14], r[15])
  }

  predicate FarSixes(r: Row) {
    && Far(r[0], r[6]) && Far(r[1], r[7]) && Far(r[2], r[4]) && Far(r[3], r[5])
    && Far(r[8], r[14]) && Far(r[9], r[15]) && Far(r[10], r[12]) && Far(r[11], r[13])
  }

  predicate FarRows(r: Row, q: Row) {
    && Far(r[0], q[0]) && Far(r[1], q[1]) && Far(r[2], q[2]) && Far(r[3], q[3])
    && Far(r[4], q[4]) && Far(r[5], q[5]) && Far(r[6], q[6]) && Far(r[7], q[7])
    && Far(r[8], q[8]) && Far(r[9], q[9]) && Far(r[10], q[10]) && Far(r[11], q[11])
    && Far(r[12], q[12]) && Far(r[13], q[13]) && Far(r[14], q[14]) && Far(r[15], q[15])
  }

  /** Columns that differ in their first bit, and not in their last, have different entries. */
  predicate NoClash(r: Row, q: Row) {
    && r[0] != q[8] && r[1] != q[9] && r[2] != q[10] && r[3] != q[11] && r[4] != q[12] && r[5] != q[13]
    && r[6] != q[14] && r[7] != q[15] && r[8] != q[0] && r[9] != q[1] && r[10] != q[2] && r[11] != q[3]
    && r[12] != q[4] && r[13] != q[5] && r[14] != q[6] && r[15] != q[7] && r[0] != q[10] && r[1] != q[11]
    && r[2] != q[8] && r[3] != q[9] && r[4] != q[14] && r[5] != q[15] && r[6] != q[12] && r[7] != q[13]
    && r[8] != q[2] && r[9] != q[3] && r[10] != q[0] && r[11] != q[1] && r[12] != q[6] && r[13] != q[7]
    && r[14] != q[4] && r[15] != q[5] && r[0] != q[12] && r[1] != q[13] && r[2] != q[14] && r[3] != q[15]
    && r[4] != q[8] && r[5] != q[9] && r[6] != q[10] && r[7] != q[11] && r[8] != q[4] && r[9] != q[5]
    && r[10] != q[6] && r[11] != q[7] && r[12] != q[0] && r[13] != q[1] && r[14] != q[2] && r[15] != q[3]
    && r[0] != q[14] && r[1] != q[15] && r[2] != q[12] && r[3] != q[13] && r[4] != q[10] && r[5] != q[11]
    && r[6] != q[8] && r[7] != q[9] && r[8] != q[6] && r[9] != q[7] && r[10] != q[4] && r[11] != q[5]
    && r[12] != q[2] && r[13] != q[3] && r[14] != q[0] && r[15] != q[1]
  }

  predicate Full(r: Row) {
    && 0 in r && 1 in r && 2 in r && 3 in r && 4 in r && 5 in r && 6 in r && 7 in r
    && 8 in r && 9 in r && 10 in r && 11 in r && 12 in r && 13 in r && 14 in r && 15 in r
  }

  predicate RowChecked(r: Row) {
    FarEights(r) && FarFours(r) && FarTwos(r) && FarOnes(r) && FarSixes(r) && Full(r)
  }

  predicate BoxChecked(a: Row, b: Row, c: Row, d: Row) {
    FarRows(a, b) && FarRows(c, d) && FarRows(a, c) && FarRows(b, d) && NoClash(a, c) && NoClash(b, d)
  }

  // ----- said of all columns -----

  /** A column, given by its four bits. */
  function Column(a: Bit, b: Bit, c: Bit, d: Bit): (n: nat)
    ensures n < 16
  {
    (if a == 0 then 0 else 8) + (if b == 0 then 0 else 4) + (if c == 0 then 0 else 2) + if d == 0 then 0 else 1
  }

  predicate Apart(r: Row, n: nat, q: Row, m: nat) {
    n < 16 && m < 16 && Distance(r[n], q[m]) >= 2
  }

  lemma FarApart(r: Row, n: nat, q: Row, m: nat)
    requires n < 16 && m < 16 && Far(r[n], q[m])
    ensures Apart(r, n, q, m)
  {
    FarIsDistance(r[n], q[m]);
  }

  lemma EightsApart(r: Row, a: Bit, b: Bit, c: Bit)
    requires FarEights(r)
    ensures Apart(r, Column(0, a, b, c), r, Column(1, a, b, c))
  {
    FarApart(r, Column(0, a, b, c), r, Column(1, a, b, c));
  }

  lemma FoursApart(r: Row, a: Bit, b: Bit, c: Bit)
    requires FarFours(r)
    ensures Apart(r, Column(a, 0, b, c), r, Column(a, 1, b, c))
  {
    FarApart(r, Column(a, 0, b, c), r, Column(a, 1, b, c));
  }

  lemma TwosApart(r: Row, a: Bit, b: Bit, c: Bit)
    requires FarTwos(r)
    ensures Apart(r, Column(a, b, 0, c), r, Column(a, b, 1, c))
  {
    FarApart(r, Column(a, b, 0, c), r, Column(a, b, 1, c));
  }

  lemma OnesApart(r: Row, a: Bit, b: Bit, c: Bit)
    requires FarOnes(r)
    ensures Apart(r, Column(a, b, c, 0), r, Column(a, b, c, 1))
  {
    FarApart(r, Column(a, b, c, 0), r, Column(a, b, c, 1));
  }

  lemma SixesApart(r: Row, a: Bit, b: Bit, c: Bit)
    requires FarSixes(r)
    ensures Apart(r, Column(a, 0, b, c), r, Column(a, 1, 1 - b, c))
  {
    FarApart(r, Column(a, 0, b, c), r, Column(a, 1, 1 - b, c));
  }

  predicate Separated(r: Row, a: Bit, b: Bit, c: Bit) {
    && Apart(r, Column(0, a, b, c), r, Column(1, a, b, c))
    && Apart(r, Column(a, 0, b, c), r, Column(a, 1, b, c))
    && Apart(r, Column(a, b, 0, c), r, Column(a, b, 1, c))
    && Apart(r, Column(a, b, c, 0), r, Column(a, b, c, 1))
    && Apart(r, Column(a, 0, b, c), r, Column(a, 1, 1 - b, c))
  }

  /** Columns that differ in one bit, or in the second and the third, have entries that differ in two bits at least. */
  ghost predicate Separates(r: Row) {
    forall a: Bit, b: Bit, c: Bit :: Separated(r, a, b, c)
  }

  /** The row holds every value; it has no place for one twice. */
  ghost predicate Complete(r: Row) {
    forall v: Nibble :: v in r
  }

  lemma RowSeparates(r: Row)
    requires FarEights(r) && FarFours(r) && FarTwos(r) && FarOnes(r) && FarSixes(r)
    ensures Separates(r)
  {
    forall a: Bit, b: Bit, c: Bit ensures Separated(r, a, b, c) {
      EightsApart(r, a, b, c);
      FoursApart(r, a, b, c);
      TwosApart(r, a, b, c);
      OnesApart(r, a, b, c);
      SixesApart(r, a, b, c);
    }
  }

  lemma RowComplete(r: Row)
    requires Full(r)
    ensures Complete(r)
  {
    forall v: Nibble ensures v in r {
      assert v in [0, 1, 2, 3, 4, 5, 6, 7] || v in [8, 9, 10, 11, 12, 13, 14, 15];
    }
  }

  ghost predicate Designed(r: Row) {
    Separates(r) && Complete(r)
  }

  lemma RowDesign(r: Row)
    requires RowChecked(r)
    ensures Designed(r)
  {
    RowSeparates(r);
    RowComplete(r);
  }

  ghost predicate Beside(r: Row, q: Row) {
    forall n: nat | n < 16 :: Apart(r, n, q, n)
  }

  lemma RowsBeside(r: Row, q: Row)
    requires FarRows(r, q)
    ensures Beside(r, q)
  {
    forall n: nat | n < 16 ensures Apart(r, n, q, n) {
      FarApart(r, n, q, n);
    }
  }

  predicate Differs(r: Row, n: nat, q: Row, m: nat) {
    n < 16 && m < 16 && r[n] != q[m]
  }

  predicate Parted(r: Row, q: Row, b: Bit, c: Bit, d: Bit, e: Bit, f: Bit) {
    Differs(r, Column(0, b, c, d), q, Column(1, e, f, d)) && Differs(r, Column(1, b, c, d), q, Column(0, e, f, d))
  }

  ghost predicate Distinguishes(r: Row, q: Row) {
    forall b: Bit, c: Bit, d: Bit, e: Bit, f: Bit :: Parted(r, q, b, c, d, e, f)
  }

  lemma RowsDistinguish(r: Row, q: Row)
    requires NoClash(r, q)
    ensures Distinguishes(r, q)
  {
  }

  ghost predicate Matched(a: Row, b: Row, c: Row, d: Row) {
    Beside(a, b) && Beside(c, d) && Beside(a, c) && Beside(b, d) && Distinguishes(a, c) && Distinguishes(b, d)
  }

  lemma BoxDesign(a: Row, b: Row, c: Row, d: Row)
    requires BoxChecked(a, b, c, d)
    ensures Matched(a, b, c, d)
  {
    RowsBeside(a, b);
    RowsBeside(c, d);
    RowsBeside(a, c);
    RowsBeside(b, d);
    RowsDistinguish(a, c);
    RowsDistinguish(b, d);
  }

  // ----- said of groups of six bits -----

  ghost predicate WellDesigned(a: Row, b: Row, c: Row, d: Row) {
    Designed(a) && Designed(b) && Designed(c) && Designed(d) && Matched(a, b, c, d)
  }

  function Choice(a: Row, b: Row, c: Row, d: Row, m: nat): Row {
    if m == 0 then a else if m == 1 then b else if m == 2 then c else d
  }

  /** The row that the outer two bits choose. */
  function Outer(g: Bits): (m: nat)
    requires |g| == 6
    ensures m < 4
  {
    if g[0] == 0 then if g[5] == 0 then 0 else 1 else if g[5] == 0 then 2 else 3
  }

  function ColumnOf(g: Bits): (n: nat)
    requires |g| == 6
    ensures n < 16
  {
    Column(g[1], g[2], g[3], g[4])
  }

  function EntryIn(a: Row, b: Row, c: Row, d: Row, g: Bits): Nibble
    requires |g| == 6
  {
    Choice(a, b, c, d, Outer(g))[ColumnOf(g)]
  }

  function Flipped(g: Bits, i: nat): (r: Bits)
    requires i < |g|
    ensures |r| == |g|
  {
    g[i := 1 - g[i]]
  }

  lemma InnerBitSpreads(r: Row, g: Bits, i: nat)
    requires Separates(r) && |g| == 6 && 1 <= i <= 4
    ensures Distance(r[ColumnOf(g)], r[ColumnOf(Flipped(g, i))]) >= 2
  {
    var h := Flipped(g, i);
    assert Separated(r, if i == 1 then g[2] else g[1], if i <= 2 then g[3] else g[2], if i <= 3 then g[4] else g[3]);
    assert Apart(r, ColumnOf(if g[i] == 0 then g else h), r, ColumnOf(if g[i] == 0 then h else g));
    DistanceSymmetric(r[ColumnOf(g)], r[ColumnOf(h)]);
  }

  lemma OuterBitSpreads(r: Row, q: Row, n: nat)
    requires Beside(r, q) && n < 16
    ensures Distance(r[n], q[n]) >= 2 && Distance(q[n], r[n]) >= 2
  {
    assert Apart(r, n, q, n);
    DistanceSymmetric(r[n], q[n]);
  }

  lemma FlippedPlace(g: Bits, i: nat)
    requires |g| == 6 && i < 6
    ensures 1 <= i <= 4 ==> Outer(Flipped(g, i)) == Outer(g)
    ensures i == 0 || i == 5 ==> ColumnOf(Flipped(g, i)) == ColumnOf(g)
    ensures i == 0 ==> Outer(Flipped(g, i)) == if Outer(g) < 2 then Outer(g) + 2 else Outer(g) - 2
    ensures i == 5 ==> Outer(Flipped(g, i)) == if Outer(g) % 2 == 0 then Outer(g) + 1 else Outer(g) - 1
  {
  }

  lemma OneBitSpreadsIn(a: Row, b: Row, c: Row, d: Row, g: Bits, i: nat)
    requires WellDesigned(a, b, c, d) && |g| == 6 && i < 6
    ensures Distance(EntryIn(a, b, c, d, g), EntryIn(a, b, c, d, Flipped(g, i))) >= 2
  {
    FlippedPlace(g, i);
    if 1 <= i <= 4 {
      InnerBitSpreads(Choice(a, b, c, d, Outer(g)), g, i);
    } else if i == 0 {
      OuterBitSpreads(a, c, ColumnOf(g));
      OuterBitSpreads(b, d, ColumnOf(g));
    } else {
      OuterBitSpreads(a, b, ColumnOf(g));
      OuterBitSpreads(c, d, ColumnOf(g));
    }
  }

  lemma DistanceSymmetric(u: nat, v: nat)
    ensures Distance(u, v) == Distance(v, u)
  {
  }

  lemma MiddleBitsSpreadIn(r: Row, g: Bits)
    requires Separates(r) && |g| == 6
    ensures Distance(r[ColumnOf(g)], r[ColumnOf(Flipped(Flipped(g, 2), 3))]) >= 2
  {
    var h := Flipped(Flipped(g, 2), 3);
    assert Separated(r, g[1], if g[2] == 0 then g[3] else h[3], g[4]);
    assert Apart(r, ColumnOf(if g[2] == 0 then g else h), r, ColumnOf(if g[2] == 0 then h else g));
    DistanceSymmetric(r[ColumnOf(g)], r[ColumnOf(h)]);
  }

  lemma RowsDistinguished(r: Row, q: Row, g: Bits, h: Bits)
    requires Distinguishes(r, q) && |g| == |h| == 6 && h[1] == 1 - g[1] && h[4] == g[4]
    ensures r[ColumnOf(g)] != q[ColumnOf(h)]
  {
    assert Parted(r, q, g[2], g[3], g[4], h[2], h[3]);
    assert Differs(r, ColumnOf(g), q, ColumnOf(h));
  }

  lemma FirstBitsDistinguishIn(a: Row, b: Row, c: Row, d: Row, g: Bits, h: Bits)
    requires WellDesigned(a, b, c, d) && |g| == |h| == 6
    requires h[0] == 1 - g[0] && h[1] == 1 - g[1] && h[4] == g[4] && h[5] == g[5]
    ensures EntryIn(a, b, c, d, g) != EntryIn(a, b, c, d, h)
  {
    if g[0] == 0 {
      RowsDistinguished(a, c, g, h);
      RowsDistinguished(b, d, g, h);
    } else {
      RowsDistinguished(a, c, h, g);
      RowsDistinguished(b, d, h, g);
    }
  }

  lemma RowsCompleteIn(a: Row, b: Row, c: Row, d: Row, m: nat, v: Nibble)
    requires WellDesigned(a, b, c, d) && m < 4
    ensures v in (a + b + c + d)[16 * m..16 * m + 16]
  {
    assert (a + b + c + d)[16 * m..16 * m + 16] == Choice(a, b, c, d, m);
  }

  // ----- the boxes -----

  lemma Row1A()
    ensures Designed(S1A)
  {
    RowDesign(S1A);
  }

  lemma Row1B()
    ensures Designed(S1B)
  {
    RowDesign(S1B);
  }

  lemma Row1C()
    ensures Designed(S1C)
  {
    RowDesign(S1C);
  }

  lemma Row1D()
    ensures Designed(S1D)
  {
    RowDesign(S1D);
  }

  lemma Rows1()
    ensures Matched(S1A, S1B, S1C, S1D)
  {
    BoxDesign(S1A, S1B, S1C, S1D);
  }

  lemma Row2A()
    ensures Designed(S2A)
  {
    RowDesign(S2A);
  }

  lemma Row2B()
    ensures Designed(S2B)
  {
    RowDesign(S2B);
  }

  lemma Row2C()
    ensures Designed(S2C)
  {
    RowDesign(S2C);
  }

  lemma Row2D()
    ensures Designed(S2D)
  {
    RowDesign(S2D);
  }

  lemma Rows2()
    ensures Matched(S2A, S2B, S2C, S2D)
  {
    BoxDesign(S2A, S2B, S2C, S2D);
  }

  lemma Row3A()
    ensures Designed(S3A)
  {
    RowDesign(S3A);
  }

  lemma Row3B()
    ensures Designed(S3B)
  {
    RowDesign(S3B);
  }

  lemma Row3C()
    ensures Designed(S3C)
  {
    RowDesign(S3C);
  }

  lemma Row3D()
    ensures Designed(S3D)
  {
    RowDesign(S3D);
  }

  lemma Rows3()
    ensures Matched(S3A, S3B, S3C, S3D)
  {
    BoxDesign(S3A, S3B, S3C, S3D);
  }

  lemma Row4A()
    ensures Designed(S4A)
  {
    RowDesign(S4A);
  }

  lemma Row4B()
    ensures Designed(S4B)
  {
    RowDesign(S4B);
  }

  lemma Row4C()
    ensures Designed(S4C)
  {
    RowDesign(S4C);
  }

  lemma Row4D()
    ensures Designed(S4D)
  {
    RowDesign(S4D);
  }

  lemma Rows4()
    ensures Matched(S4A, S4B, S4C, S4D)
  {
    BoxDesign(S4A, S4B, S4C, S4D);
  }

  lemma Row5A()
    ensures Designed(S5A)
  {
    RowDesign(S5A);
  }

  lemma Row5B()
    ensures Designed(S5B)
  {
    RowDesign(S5B);
  }

  lemma Row5C()
    ensures Designed(S5C)
  {
    RowDesign(S5C);
  }

  lemma Row5D()
    ensures Designed(S5D)
  {
    RowDesign(S5D);
  }

  lemma Rows5()
    ensures Matched(S5A, S5B, S5C, S5D)
  {
    BoxDesign(S5A, S5B, S5C, S5D);
  }

  lemma Row6A()
    ensures Designed(S6A)
  {
    RowDesign(S6A);
  }

  lemma Row6B()
    ensures Designed(S6B)
  {
    RowDesign(S6B);
  }

  lemma Row6C()
    ensures Designed(S6C)
  {
    RowDesign(S6C);
  }

  lemma Row6D()
    ensures Designed(S6D)
  {
    RowDesign(S6D);
  }

  lemma Rows6()
    ensures Matched(S6A, S6B, S6C, S6D)
  {
    BoxDesign(S6A, S6B, S6C, S6D);
  }

  lemma Row7A()
    ensures Designed(S7A)
  {
    RowDesign(S7A);
  }

  lemma Row7B()
    ensures Designed(S7B)
  {
    RowDesign(S7B);
  }

  lemma Row7C()
    ensures Designed(S7C)
  {
    RowDesign(S7C);
  }

  lemma Row7D()
    ensures Designed(S7D)
  {
    RowDesign(S7D);
  }

  lemma Rows7()
    ensures Matched(S7A, S7B, S7C, S7D)
  {
    BoxDesign(S7A, S7B, S7C, S7D);
  }

  lemma Row8A()
    ensures Designed(S8A)
  {
    RowDesign(S8A);
  }

  lemma Row8B()
    ensures Designed(S8B)
  {
    RowDesign(S8B);
  }

  lemma Row8C()
    ensures Designed(S8C)
  {
    RowDesign(S8C);
  }

  lemma Row8D()
    ensures Designed(S8D)
  {
    RowDesign(S8D);
  }

  lemma Rows8()
    ensures Matched(S8A, S8B, S8C, S8D)
  {
    BoxDesign(S8A, S8B, S8C, S8D);
  }

  // ----- for all inputs -----

  function RowOf(j: nat, m: nat): Row {
    if j == 0 then Choice(S1A, S1B, S1C, S1D, m) else if j == 1 then Choice(S2A, S2B, S2C, S2D, m)
    else if j == 2 then Choice(S3A, S3B, S3C, S3D, m) else if j == 3 then Choice(S4A, S4B, S4C, S4D, m)
    else if j == 4 then Choice(S5A, S5B, S5C, S5D, m) else if j == 5 then Choice(S6A, S6B, S6C, S6D, m)
    else if j == 6 then Choice(S7A, S7B, S7C, S7D, m) else Choice(S8A, S8B, S8C, S8D, m)
  }

  lemma EachBox(j: nat)
    requires j < 8
    ensures WellDesigned(RowOf(j, 0), RowOf(j, 1), RowOf(j, 2), RowOf(j, 3))
  {
    if j == 0 {
      Row1A();
      Row1B();
      Row1C();
      Row1D();
      Rows1();
    } else if j == 1 {
      Row2A();
      Row2B();
      Row2C();
      Row2D();
      Rows2();
    } else if j == 2 {
      Row3A();
      Row3B();
      Row3C();
      Row3D();
      Rows3();
    } else if j == 3 {
      Row4A();
      Row4B();
      Row4C();
      Row4D();
      Rows4();
    } else if j == 4 {
      Row5A();
      Row5B();
      Row5C();
      Row5D();
      Rows5();
    } else if j == 5 {
      Row6A();
      Row6B();
      Row6C();
      Row6D();
      Rows6();
    } else if j == 6 {
      Row7A();
      Row7B();
      Row7C();
      Row7D();
      Rows7();
    } else {
      Row8A();
      Row8B();
      Row8C();
      Row8D();
      Rows8();
    }
  }

  lemma RowInBox(a: Row, b: Row, c: Row, d: Row, m: nat, n: nat)
    requires m < 4 && n < 16
    ensures (a + b + c + d)[16 * m + n] == Choice(a, b, c, d, m)[n]
  {
  }

  lemma BoxOfRows(j: nat)
    requires j < 8
    ensures SBOX[j] == RowOf(j, 0) + RowOf(j, 1) + RowOf(j, 2) + RowOf(j, 3)
  {
  }

  lemma EntryInBox(box: seq<Nibble>, a: Row, b: Row, c: Row, d: Row, g: Bits)
    requires |g| == 6 && box == a + b + c + d
    ensures var m, n := 2 * (g[0] as nat) + g[5], 8 * (g[1] as nat) + 4 * (g[2] as nat) + 2 * (g[3] as nat) + g[4];
            box[16 * m + n] == EntryIn(a, b, c, d, g)
  {
    RowInBox(a, b, c, d, Outer(g), ColumnOf(g));
  }

  lemma EntryInRow(j: nat, g: Bits)
    requires j < 8 && |g| == 6
    ensures SboxEntry(j, g) == EntryIn(RowOf(j, 0), RowOf(j, 1), RowOf(j, 2), RowOf(j, 3), g)
  {
    BoxOfRows(j);
    EntryInBox(SBOX[j], RowOf(j, 0), RowOf(j, 1), RowOf(j, 2), RowOf(j, 3), g);
  }

  /** Groups of six bits that differ in one bit give entries that differ in two bits at least. */
  lemma OneBitSpreads(j: nat, g: Bits, i: nat)
    requires j < 8 && |g| == 6 && i < 6
    ensures Distance(SboxEntry(j, g), SboxEntry(j, Flipped(g, i))) >= 2
  {
    EntryInRow(j, g);
    EntryInRow(j, Flipped(g, i));
    EachBox(j);
    OneBitSpreadsIn(RowOf(j, 0), RowOf(j, 1), RowOf(j, 2), RowOf(j, 3), g, i);
  }

  /** So do groups that differ in the two middle bits. */
  lemma MiddleBitsSpread(j: nat, g: Bits)
    requires j < 8 && |g| == 6
    ensures Distance(SboxEntry(j, g), SboxEntry(j, Flipped(Flipped(g, 2), 3))) >= 2
  {
    EntryInRow(j, g);
    EntryInRow(j, Flipped(Flipped(g, 2), 3));
    EachBox(j);
    MiddleBitsSpreadIn(Choice(RowOf(j, 0), RowOf(j, 1), RowOf(j, 2), RowOf(j, 3), Outer(g)), g);
  }

  /** Groups that differ in the first two bits, and not in the last two, give different entries. */
  lemma FirstBitsDistinguish(j: nat, g: Bits, c: Bit, d: Bit)
    requires j < 8 && |g| == 6
    ensures SboxEntry(j, g) != SboxEntry(j, [1 - g[0], 1 - g[1], c, d, g[4], g[5]])
  {
    var h: Bits := [1 - g[0], 1 - g[1], c, d, g[4], g[5]];
    EntryInRow(j, g);
    EntryInRow(j, h);
    EachBox(j);
    FirstBitsDistinguishIn(RowOf(j, 0), RowOf(j, 1), RowOf(j, 2), RowOf(j, 3), g, h);
  }

  /** Each row of a box is a permutation of the values below 16: none is missing. */
  lemma RowsComplete(j: nat, m: nat, v: Nibble)
    requires j < 8 && m < 4
    ensures |SBOX[j]| == 64 && v in SBOX[j][16 * m..16 * m + 16]
  {
    EachBox(j);
    BoxOfRows(j);
    RowsCompleteIn(RowOf(j, 0), RowOf(j, 1), RowOf(j, 2), RowOf(j, 3), m, v);
  }
}
