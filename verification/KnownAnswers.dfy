/** Known answers of the cipher, one round after the other: the example of FIPS 81 (appendix B) and two blocks with a
    single bit under the key of zeros. They look into every row of every S-box and into both selections of the key. */
module KnownAnswers {
  import opened Des
  import opened DesDigits

  /** What is known of the two halves before a round. */
  type Property = (nat, Word, Word) -> bool

  /** Round `i` is made with the subkey `k`. */
  ghost predicate Takes(holds: Property, i: nat, k: Key) {
    forall l, r {:trigger holds(i, l, r), Next(l, r, k)} | holds(i, l, r) :: holds(i + 1, r, Next(l, r, k))
  }

  ghost function Reached(key: Block, data: Block): Property {
    (i: nat, l: Word, r: Word) => Reaches(key, data, i, l, r)
  }

  lemma SubkeyTaken(key: Block, data: Block, i: nat, c: KeyHalf, d: KeyHalf)
    requires 0 < i <= 16 && KeyAt(key, i, c, d)
    ensures Takes(Reached(key, data), i - 1, Picked(c, d))
  {
    var k := Picked(c, d);
    forall l, r | Reaches(key, data, i - 1, l, r) ensures Reaches(key, data, i, r, Next(l, r, k)) {
      Proceeds(key, data, i - 1, l, r, k);
    }
  }

  lemma Starting(key: Block, data: Block, l: Word, r: Word)
    requires Columns(data, 1) == l && Columns(data, 0) == r
    ensures Reached(key, data)(0, l, r)
  {
    Starts(key, data);
  }

  lemma Ending(key: Block, data: Block, l: Word, r: Word, out: Block)
    requires Reached(key, data)(16, l, r) && Columns(out, 1) == r && Columns(out, 0) == l
    ensures Crypt(Subkeys(key.Bits()), data.Bits()) == out.Bits()
  {
    Answers(key, data, l, r, out);
  }

  // ----- "Now is t" -----

  const KEY := Block(Word(H0, H1, H2, H3, H4, H5, H6, H7),
                     Word(H8, H9, HA, HB, HC, HD, HE, HF))
  const TEXT := Block(Word(H4, HE, H6, HF, H7, H7, H2, H0),
                     Word(H6, H9, H7, H3, H2, H0, H7, H4))
  const TEXT_ANSWER := Block(Word(H3, HF, HA, H4, H0, HE, H8, HA),
                            Word(H9, H8, H4, HD, H4, H8, H1, H5))

  const C0 := KeyHalf(HF, H0, HC, HC, HA, HA, H0)
  const C1 := KeyHalf(HE, H1, H9, H9, H5, H4, H1)
  const C2 := KeyHalf(HC, H3, H3, H2, HA, H8, H3)
  const C3 := KeyHalf(H0, HC, HC, HA, HA, H0, HF)
  const C4 := KeyHalf(H3, H3, H2, HA, H8, H3, HC)
  const C5 := KeyHalf(HC, HC, HA, HA, H0, HF, H0)
  const C6 := KeyHalf(H3, H2, HA, H8, H3, HC, H3)
  const C7 := KeyHalf(HC, HA, HA, H0, HF, H0, HC)
  const C8 := KeyHalf(H2, HA, H8, H3, HC, H3, H3)
  const C9 := KeyHalf(H5, H5, H0, H7, H8, H6, H6)
  const C10 := KeyHalf(H5, H4, H1, HE, H1, H9, H9)
  const C11 := KeyHalf(H5, H0, H7, H8, H6, H6, H5)
  const C12 := KeyHalf(H4, H1, HE, H1, H9, H9, H5)
  const C13 := KeyHalf(H0, H7, H8, H6, H6, H5, H5)
  const C14 := KeyHalf(H1, HE, H1, H9, H9, H5, H4)
  const C15 := KeyHalf(H7, H8, H6, H6, H5, H5, H0)
  const C16 := KeyHalf(HF, H0, HC, HC, HA, HA, H0)

  const D0 := KeyHalf(HA, HA, HC, HC, HF, H0, H0)
  const D1 := KeyHalf(H5, H5, H9, H9, HE, H0, H1)
  const D2 := KeyHalf(HA, HB, H3, H3, HC, H0, H2)
  const D3 := KeyHalf(HA, HC, HC, HF, H0, H0, HA)
  const D4 := KeyHalf(HB, H3, H3, HC, H0, H2, HA)
  const D5 := KeyHalf(HC, HC, HF, H0, H0, HA, HA)
  const D6 := KeyHalf(H3, H3, HC, H0, H2, HA, HB)
  const D7 := KeyHalf(HC, HF, H0, H0, HA, HA, HC)
  const D8 := KeyHalf(H3, HC, H0, H2, HA, HB, H3)
  const D9 := KeyHalf(H7, H8, H0, H5, H5, H6, H6)
  const D10 := KeyHalf(HE, H0, H1, H5, H5, H9, H9)
  const D11 := KeyHalf(H8, H0, H5, H5, H6, H6, H7)
  const D12 := KeyHalf(H0, H1, H5, H5, H9, H9, HE)
  const D13 := KeyHalf(H0, H5, H5, H6, H6, H7, H8)
  const D14 := KeyHalf(H1, H5, H5, H9, H9, HE, H0)
  const D15 := KeyHalf(H5, H5, H6, H6, H7, H8, H0)
  const D16 := KeyHalf(HA, HA, HC, HC, HF, H0, H0)

  const T0 := Word(HB, H7, HA, H4, H8, H7, H3, H6)
  const T1 := Word(H0, H0, HF, HE, H1, H3, H2, H7)
  const T2 := Word(HC, H9, HE, HF, HE, H3, H7, H9)
  const T3 := Word(HC, H2, H2, H5, HD, H7, H1, H7)
  const T4 := Word(H1, HE, HF, HC, H7, H3, H8, H4)
  const T5 := Word(H7, H6, HF, H2, HB, H3, HD, HE)
  const T6 := Word(H1, H0, HD, H5, H5, H3, H8, H0)
  const T7 := Word(HE, H9, H0, H7, H3, H9, HF, HD)
  const T8 := Word(H5, H7, H2, H3, H3, H7, HF, H0)
  const T9 := Word(HC, HD, H9, H9, H6, H8, HE, H4)
  const T10 := Word(H2, H5, H6, HA, H9, H6, HB, H9)
  const T11 := Word(H8, H0, H4, H9, HC, H2, H4, HC)
  const T12 := Word(HA, H1, H6, H6, H3, HA, HA, H6)
  const T13 := Word(HB, H7, H1, H4, HE, H0, H9, H9)
  const T14 := Word(HA, H3, HE, HB, H2, HC, H4, H6)
  const T15 := Word(HB, H9, H4, HD, HA, H9, H6, H5)
  const T16 := Word(H1, HA, H0, H3, H7, HD, H0, HD)
  const T17 := Word(H6, H0, H9, H1, HA, H7, HA, H1)

  lemma KeyTurns(i: nat, c: KeyHalf, d: KeyHalf, n: nat, c': KeyHalf, d': KeyHalf)
    requires i < 16 && 1 <= n <= 2 && Turned(i) + n == Turned(i + 1) && KeyAt(KEY, i, c, d)
    requires TurnedBy(c, n) == c' && TurnedBy(d, n) == d'
    ensures KeyAt(KEY, i + 1, c', d') && Takes(Reached(KEY, TEXT), i, Picked(c', d'))
  {
    KeyTurnsBy(KEY, i, c, d, n);
    SubkeyTaken(KEY, TEXT, i + 1, c', d');
  }

  lemma Keys0()
    ensures KeyAt(KEY, 0, C0, D0)
  {
    KeyStarts(KEY);
    assert KeyLeft(KEY) == C0 && KeyRight(KEY) == D0;
  }

  lemma Keys4()
    ensures KeyAt(KEY, 4, C4, D4)
    ensures Takes(Reached(KEY, TEXT), 0, Picked(C1, D1)) && Takes(Reached(KEY, TEXT), 1, Picked(C2, D2))
    ensures Takes(Reached(KEY, TEXT), 2, Picked(C3, D3)) && Takes(Reached(KEY, TEXT), 3, Picked(C4, D4))
  {
    Keys0();
    KeyTurns(0, C0, D0, 1, C1, D1);
    KeyTurns(1, C1, D1, 1, C2, D2);
    KeyTurns(2, C2, D2, 2, C3, D3);
    KeyTurns(3, C3, D3, 2, C4, D4);
  }

  lemma Keys8()
    ensures KeyAt(KEY, 8, C8, D8)
    ensures Takes(Reached(KEY, TEXT), 4, Picked(C5, D5)) && Takes(Reached(KEY, TEXT), 5, Picked(C6, D6))
    ensures Takes(Reached(KEY, TEXT), 6, Picked(C7, D7)) && Takes(Reached(KEY, TEXT), 7, Picked(C8, D8))
  {
    Keys4();
    KeyTurns(4, C4, D4, 2, C5, D5);
    KeyTurns(5, C5, D5, 2, C6, D6);
    KeyTurns(6, C6, D6, 2, C7, D7);
    KeyTurns(7, C7, D7, 2, C8, D8);
  }

  lemma Keys12()
    ensures KeyAt(KEY, 12, C12, D12)
    ensures Takes(Reached(KEY, TEXT), 8, Picked(C9, D9)) && Takes(Reached(KEY, TEXT), 9, Picked(C10, D10))
    ensures Takes(Reached(KEY, TEXT), 10, Picked(C11, D11)) && Takes(Reached(KEY, TEXT), 11, Picked(C12, D12))
  {
    Keys8();
    KeyTurns(8, C8, D8, 1, C9, D9);
    KeyTurns(9, C9, D9, 2, C10, D10);
    KeyTurns(10, C10, D10, 2, C11, D11);
    KeyTurns(11, C11, D11, 2, C12, D12);
  }

  lemma Keys16()
    ensures KeyAt(KEY, 16, C16, D16)
    ensures Takes(Reached(KEY, TEXT), 12, Picked(C13, D13)) && Takes(Reached(KEY, TEXT), 13, Picked(C14, D14))
    ensures Takes(Reached(KEY, TEXT), 14, Picked(C15, D15)) && Takes(Reached(KEY, TEXT), 15, Picked(C16, D16))
  {
    Keys12();
    KeyTurns(12, C12, D12, 2, C13, D13);
    KeyTurns(13, C13, D13, 2, C14, D14);
    KeyTurns(14, C14, D14, 2, C15, D15);
    KeyTurns(15, C15, D15, 1, C16, D16);
  }

  lemma Text1(holds: Property)
    requires holds(0, T0, T1) && Takes(holds, 0, Picked(C1, D1))
    ensures holds(1, T1, T2)
  {
    assert Next(T0, T1, Picked(C1, D1)) == T2;
  }

  lemma Text2(holds: Property)
    requires holds(1, T1, T2) && Takes(holds, 1, Picked(C2, D2))
    ensures holds(2, T2, T3)
  {
    assert Next(T1, T2, Picked(C2, D2)) == T3;
  }

  lemma Text3(holds: Property)
    requires holds(2, T2, T3) && Takes(holds, 2, Picked(C3, D3))
    ensures holds(3, T3, T4)
  {
    assert Next(T2, T3, Picked(C3, D3)) == T4;
  }

  lemma Text4(holds: Property)
    requires holds(3, T3, T4) && Takes(holds, 3, Picked(C4, D4))
    ensures holds(4, T4, T5)
  {
    assert Next(T3, T4, Picked(C4, D4)) == T5;
  }

  lemma Text5(holds: Property)
    requires holds(4, T4, T5) && Takes(holds, 4, Picked(C5, D5))
    ensures holds(5, T5, T6)
  {
    assert Next(T4, T5, Picked(C5, D5)) == T6;
  }

  lemma Text6(holds: Property)
    requires holds(5, T5, T6) && Takes(holds, 5, Picked(C6, D6))
    ensures holds(6, T6, T7)
  {
    assert Next(T5, T6, Picked(C6, D6)) == T7;
  }

  lemma Text7(holds: Property)
    requires holds(6, T6, T7) && Takes(holds, 6, Picked(C7, D7))
    ensures holds(7, T7, T8)
  {
    assert Next(T6, T7, Picked(C7, D7)) == T8;
  }

  lemma Text8(holds: Property)
    requires holds(7, T7, T8) && Takes(holds, 7, Picked(C8, D8))
    ensures holds(8, T8, T9)
  {
    assert Next(T7, T8, Picked(C8, D8)) == T9;
  }

  lemma Text9(holds: Property)
    requires holds(8, T8, T9) && Takes(holds, 8, Picked(C9, D9))
    ensures holds(9, T9, T10)
  {
    assert Next(T8, T9, Picked(C9, D9)) == T10;
  }

  lemma Text10(holds: Property)
    requires holds(9, T9, T10) && Takes(holds, 9, Picked(C10, D10))
    ensures holds(10, T10, T11)
  {
    assert Next(T9, T10, Picked(C10, D10)) == T11;
  }

  lemma Text11(holds: Property)
    requires holds(10, T10, T11) && Takes(holds, 10, Picked(C11, D11))
    ensures holds(11, T11, T12)
  {
    assert Next(T10, T11, Picked(C11, D11)) == T12;
  }

  lemma Text12(holds: Property)
    requires holds(11, T11, T12) && Takes(holds, 11, Picked(C12, D12))
    ensures holds(12, T12, T13)
  {
    assert Next(T11, T12, Picked(C12, D12)) == T13;
  }

  lemma Text13(holds: Property)
    requires holds(12, T12, T13) && Takes(holds, 12, Picked(C13, D13))
    ensures holds(13, T13, T14)
  {
    assert Next(T12, T13, Picked(C13, D13)) == T14;
  }

  lemma Text14(holds: Property)
    requires holds(13, T13, T14) && Takes(holds, 13, Picked(C14, D14))
    ensures holds(14, T14, T15)
  {
    assert Next(T13, T14, Picked(C14, D14)) == T15;
  }

  lemma Text15(holds: Property)
    requires holds(14, T14, T15) && Takes(holds, 14, Picked(C15, D15))
    ensures holds(15, T15, T16)
  {
    assert Next(T14, T15, Picked(C15, D15)) == T16;
  }

  lemma Text16(holds: Property)
    requires holds(15, T15, T16) && Takes(holds, 15, Picked(C16, D16))
    ensures holds(16, T16, T17)
  {
    assert Next(T15, T16, Picked(C16, D16)) == T17;
  }

  lemma TextRounds(holds: Property)
    requires holds(0, T0, T1)
    requires Takes(holds, 0, Picked(C1, D1)) && Takes(holds, 1, Picked(C2, D2))
    requires Takes(holds, 2, Picked(C3, D3)) && Takes(holds, 3, Picked(C4, D4))
    requires Takes(holds, 4, Picked(C5, D5)) && Takes(holds, 5, Picked(C6, D6))
    requires Takes(holds, 6, Picked(C7, D7)) && Takes(holds, 7, Picked(C8, D8))
    requires Takes(holds, 8, Picked(C9, D9)) && Takes(holds, 9, Picked(C10, D10))
    requires Takes(holds, 10, Picked(C11, D11)) && Takes(holds, 11, Picked(C12, D12))
    requires Takes(holds, 12, Picked(C13, D13)) && Takes(holds, 13, Picked(C14, D14))
    requires Takes(holds, 14, Picked(C15, D15)) && Takes(holds, 15, Picked(C16, D16))
    ensures holds(16, T16, T17)
  {
    Text1(holds);
    Text2(holds);
    Text3(holds);
    Text4(holds);
    Text5(holds);
    Text6(holds);
    Text7(holds);
    Text8(holds);
    Text9(holds);
    Text10(holds);
    Text11(holds);
    Text12(holds);
    Text13(holds);
    Text14(holds);
    Text15(holds);
    Text16(holds);
  }

  /** The text `Now is t` under the key 0123456789ABCDEF gives 3FA40E8A984D4815. */
  lemma TextAnswer()
    ensures Crypt(Subkeys(KEY.Bits()), TEXT.Bits()) == TEXT_ANSWER.Bits()
  {
    var holds := Reached(KEY, TEXT);
    Starting(KEY, TEXT, T0, T1);
    Keys4();
    Keys8();
    Keys12();
    Keys16();
    TextRounds(holds);
    Ending(KEY, TEXT, T16, T17, TEXT_ANSWER);
  }

  // ----- the key of zeros -----

  const ZEROS := Block(Word(H0, H0, H0, H0, H0, H0, H0, H0), Word(H0, H0, H0, H0, H0, H0, H0, H0))
  const Z := KeyHalf(H0, H0, H0, H0, H0, H0, H0)

  lemma {:induction false} ZerosTurn(i: nat)
    requires i <= 16
    ensures KeyAt(ZEROS, i, Z, Z)
  {
    if i == 0 {
      KeyStarts(ZEROS);
      assert KeyLeft(ZEROS) == Z && KeyRight(ZEROS) == Z;
    } else {
      ZerosTurn(i - 1);
      var n := Turned(i) - Turned(i - 1);
      assert TurnedBy(Z, n) == Z;
      KeyTurnsBy(ZEROS, i - 1, Z, Z, n);
    }
  }

  lemma ZerosTaken(data: Block, i: nat)
    requires i < 16
    ensures Takes(Reached(ZEROS, data), i, Picked(Z, Z))
  {
    ZerosTurn(i + 1);
    SubkeyTaken(ZEROS, data, i + 1, Z, Z);
  }

  // ----- bit 17 of the block -----

  const BIT17 := Block(Word(H0, H0, H0, H0, H8, H0, H0, H0),
                      Word(H0, H0, H0, H0, H0, H0, H0, H0))
  const BIT17_ANSWER := Block(Word(H2, HB, H9, HF, H9, H8, H2, HF),
                             Word(H2, H0, H0, H3, H7, HF, HA, H9))

  const U0 := Word(H0, H0, H0, H0, H0, H0, H0, H0)
  const U1 := Word(H0, H4, H0, H0, H0, H0, H0, H0)
  const U2 := Word(HD, H8, HD, H0, H9, HB, HB, HC)
  const U3 := Word(HC, H6, H7, HB, HE, HC, H0, HB)
  const U4 := Word(H2, H2, HA, H6, HD, H0, HF, H3)
  const U5 := Word(HC, H4, HF, HA, H6, H7, H1, H3)
  const U6 := Word(HD, H7, HF, HC, H9, HA, H4, H1)
  const U7 := Word(H8, HE, H6, H9, H7, H8, H7, HA)
  const U8 := Word(HF, HE, H1, H9, HF, H4, H5, HC)
  const U9 := Word(HC, H9, HC, HE, H6, H0, HF, HF)
  const U10 := Word(HC, H3, HA, HB, HE, HB, HD, H8)
  const U11 := Word(HB, H1, HE, H9, HB, HD, H8, H1)
  const U12 := Word(H6, HA, HE, H1, H7, H5, HF, HF)
  const U13 := Word(H3, H8, HF, H9, HC, HD, HC, HE)
  const U14 := Word(H3, H7, HD, H9, H8, H1, H5, HE)
  const U15 := Word(H5, HD, HE, HC, HF, H5, H6, HC)
  const U16 := Word(H8, H6, HD, H9, HC, HF, H6, HB)
  const U17 := Word(H4, H0, H4, H6, H4, HA, HE, HB)

  lemma Seventeen1(holds: Property)
    requires holds(0, U0, U1) && Takes(holds, 0, Picked(Z, Z))
    ensures holds(1, U1, U2)
  {
    assert Next(U0, U1, Picked(Z, Z)) == U2;
  }

  lemma Seventeen2(holds: Property)
    requires holds(1, U1, U2) && Takes(holds, 1, Picked(Z, Z))
    ensures holds(2, U2, U3)
  {
    assert Next(U1, U2, Picked(Z, Z)) == U3;
  }

  lemma Seventeen3(holds: Property)
    requires holds(2, U2, U3) && Takes(holds, 2, Picked(Z, Z))
    ensures holds(3, U3, U4)
  {
    assert Next(U2, U3, Picked(Z, Z)) == U4;
  }

  lemma Seventeen4(holds: Property)
    requires holds(3, U3, U4) && Takes(holds, 3, Picked(Z, Z))
    ensures holds(4, U4, U5)
  {
    assert Next(U3, U4, Picked(Z, Z)) == U5;
  }

  lemma Seventeen5(holds: Property)
    requires holds(4, U4, U5) && Takes(holds, 4, Picked(Z, Z))
    ensures holds(5, U5, U6)
  {
    assert Next(U4, U5, Picked(Z, Z)) == U6;
  }

  lemma Seventeen6(holds: Property)
    requires holds(5, U5, U6) && Takes(holds, 5, Picked(Z, Z))
    ensures holds(6, U6, U7)
  {
    assert Next(U5, U6, Picked(Z, Z)) == U7;
  }

  lemma Seventeen7(holds: Property)
    requires holds(6, U6, U7) && Takes(holds, 6, Picked(Z, Z))
    ensures holds(7, U7, U8)
  {
    assert Next(U6, U7, Picked(Z, Z)) == U8;
  }

  lemma Seventeen8(holds: Property)
    requires holds(7, U7, U8) && Takes(holds, 7, Picked(Z, Z))
    ensures holds(8, U8, U9)
  {
    assert Next(U7, U8, Picked(Z, Z)) == U9;
  }

  lemma Seventeen9(holds: Property)
    requires holds(8, U8, U9) && Takes(holds, 8, Picked(Z, Z))
    ensures holds(9, U9, U10)
  {
    assert Next(U8, U9, Picked(Z, Z)) == U10;
  }

  lemma Seventeen10(holds: Property)
    requires holds(9, U9, U10) && Takes(holds, 9, Picked(Z, Z))
    ensures holds(10, U10, U11)
  {
    assert Next(U9, U10, Picked(Z, Z)) == U11;
  }

  lemma Seventeen11(holds: Property)
    requires holds(10, U10, U11) && Takes(holds, 10, Picked(Z, Z))
    ensures holds(11, U11, U12)
  {
    assert Next(U10, U11, Picked(Z, Z)) == U12;
  }

  lemma Seventeen12(holds: Property)
    requires holds(11, U11, U12) && Takes(holds, 11, Picked(Z, Z))
    ensures holds(12, U12, U13)
  {
    assert Next(U11, U12, Picked(Z, Z)) == U13;
  }

  lemma Seventeen13(holds: Property)
    requires holds(12, U12, U13) && Takes(holds, 12, Picked(Z, Z))
    ensures holds(13, U13, U14)
  {
    assert Next(U12, U13, Picked(Z, Z)) == U14;
  }

  lemma Seventeen14(holds: Property)
    requires holds(13, U13, U14) && Takes(holds, 13, Picked(Z, Z))
    ensures holds(14, U14, U15)
  {
    assert Next(U13, U14, Picked(Z, Z)) == U15;
  }

  lemma Seventeen15(holds: Property)
    requires holds(14, U14, U15) && Takes(holds, 14, Picked(Z, Z))
    ensures holds(15, U15, U16)
  {
    assert Next(U14, U15, Picked(Z, Z)) == U16;
  }

  lemma Seventeen16(holds: Property)
    requires holds(15, U15, U16) && Takes(holds, 15, Picked(Z, Z))
    ensures holds(16, U16, U17)
  {
    assert Next(U15, U16, Picked(Z, Z)) == U17;
  }

  lemma SeventeenRounds(holds: Property)
    requires holds(0, U0, U1)
    requires forall i | 0 <= i < 16 :: Takes(holds, i, Picked(Z, Z))
    ensures holds(16, U16, U17)
  {
    Seventeen1(holds);
    Seventeen2(holds);
    Seventeen3(holds);
    Seventeen4(holds);
    Seventeen5(holds);
    Seventeen6(holds);
    Seventeen7(holds);
    Seventeen8(holds);
    Seventeen9(holds);
    Seventeen10(holds);
    Seventeen11(holds);
    Seventeen12(holds);
    Seventeen13(holds);
    Seventeen14(holds);
    Seventeen15(holds);
    Seventeen16(holds);
  }

  /** The block 0000800000000000 under the key of zeros gives 2B9F982F20037FA9. */
  lemma SeventeenAnswer()
    ensures Crypt(Subkeys(ZEROS.Bits()), BIT17.Bits()) == BIT17_ANSWER.Bits()
  {
    var holds := Reached(ZEROS, BIT17);
    Starting(ZEROS, BIT17, U0, U1);
    forall i | 0 <= i < 16 ensures Takes(holds, i, Picked(Z, Z)) {
      ZerosTaken(BIT17, i);
    }
    SeventeenRounds(holds);
    Ending(ZEROS, BIT17, U16, U17, BIT17_ANSWER);
  }

  // ----- bit 8 of the block -----

  const BIT8 := Block(Word(H0, H1, H0, H0, H0, H0, H0, H0),
                     Word(H0, H0, H0, H0, H0, H0, H0, H0))
  const BIT8_ANSWER := Block(Word(H0, HD, H9, HF, H2, H7, H9, HB),
                            Word(HA, H5, HD, H8, H7, H2, H6, H0))

  const V0 := Word(H0, H0, H0, H0, H0, H0, H0, H1)
  const V1 := Word(H0, H0, H0, H0, H0, H0, H0, H0)
  const V2 := Word(HD, H8, HD, H8, HD, HB, HB, HD)
  const V3 := Word(HE, H7, H3, H8, H6, HD, H6, HD)
  const V4 := Word(H7, H1, HB, HE, H6, HF, HC, H6)
  const V5 := Word(HD, HA, HB, H6, H6, H5, H2, H9)
  const V6 := Word(H9, H6, HC, HF, H3, H7, H7, H3)
  const V7 := Word(H7, HB, H4, H5, HD, H8, HD, H8)
  const V8 := Word(H4, H4, HB, HB, H0, H2, H2, H0)
  const V9 := Word(H2, H3, H2, H8, H8, H7, HA, HC)
  const V10 := Word(H0, H1, H3, H2, HB, HB, H1, HA)
  const V11 := Word(H3, HC, H8, HA, H4, H0, H2, HD)
  const V12 := Word(H3, H3, H3, H6, HB, HD, HD, H7)
  const V13 := Word(HF, HB, H1, H0, H1, H1, HE, HD)
  const V14 := Word(H7, H8, HD, H1, H1, H9, HA, H1)
  const V15 := Word(HA, HA, H6, HB, HC, H7, HE, H7)
  const V16 := Word(H3, HA, HD, H4, H2, HB, H4, HE)
  const V17 := Word(HE, H0, H6, HA, H1, H7, H1, HF)

  lemma Eight1(holds: Property)
    requires holds(0, V0, V1) && Takes(holds, 0, Picked(Z, Z))
    ensures holds(1, V1, V2)
  {
    assert Next(V0, V1, Picked(Z, Z)) == V2;
  }

  lemma Eight2(holds: Property)
    requires holds(1, V1, V2) && Takes(holds, 1, Picked(Z, Z))
    ensures holds(2, V2, V3)
  {
    assert Next(V1, V2, Picked(Z, Z)) == V3;
  }

  lemma Eight3(holds: Property)
    requires holds(2, V2, V3) && Takes(holds, 2, Picked(Z, Z))
    ensures holds(3, V3, V4)
  {
    assert Next(V2, V3, Picked(Z, Z)) == V4;
  }

  lemma Eight4(holds: Property)
    requires holds(3, V3, V4) && Takes(holds, 3, Picked(Z, Z))
    ensures holds(4, V4, V5)
  {
    assert Next(V3, V4, Picked(Z, Z)) == V5;
  }

  lemma Eight5(holds: Property)
    requires holds(4, V4, V5) && Takes(holds, 4, Picked(Z, Z))
    ensures holds(5, V5, V6)
  {
    assert Next(V4, V5, Picked(Z, Z)) == V6;
  }

  lemma Eight6(holds: Property)
    requires holds(5, V5, V6) && Takes(holds, 5, Picked(Z, Z))
    ensures holds(6, V6, V7)
  {
    assert Next(V5, V6, Picked(Z, Z)) == V7;
  }

  lemma Eight7(holds: Property)
    requires holds(6, V6, V7) && Takes(holds, 6, Picked(Z, Z))
    ensures holds(7, V7, V8)
  {
    assert Next(V6, V7, Picked(Z, Z)) == V8;
  }

  lemma Eight8(holds: Property)
    requires holds(7, V7, V8) && Takes(holds, 7, Picked(Z, Z))
    ensures holds(8, V8, V9)
  {
    assert Next(V7, V8, Picked(Z, Z)) == V9;
  }

  lemma Eight9(holds: Property)
    requires holds(8, V8, V9) && Takes(holds, 8, Picked(Z, Z))
    ensures holds(9, V9, V10)
  {
    assert Next(V8, V9, Picked(Z, Z)) == V10;
  }

  lemma Eight10(holds: Property)
    requires holds(9, V9, V10) && Takes(holds, 9, Picked(Z, Z))
    ensures holds(10, V10, V11)
  {
    assert Next(V9, V10, Picked(Z, Z)) == V11;
  }

  lemma Eight11(holds: Property)
    requires holds(10, V10, V11) && Takes(holds, 10, Picked(Z, Z))
    ensures holds(11, V11, V12)
  {
    assert Next(V10, V11, Picked(Z, Z)) == V12;
  }

  lemma Eight12(holds: Property)
    requires holds(11, V11, V12) && Takes(holds, 11, Picked(Z, Z))
    ensures holds(12, V12, V13)
  {
    assert Next(V11, V12, Picked(Z, Z)) == V13;
  }

  lemma Eight13(holds: Property)
    requires holds(12, V12, V13) && Takes(holds, 12, Picked(Z, Z))
    ensures holds(13, V13, V14)
  {
    assert Next(V12, V13, Picked(Z, Z)) == V14;
  }

  lemma Eight14(holds: Property)
    requires holds(13, V13, V14) && Takes(holds, 13, Picked(Z, Z))
    ensures holds(14, V14, V15)
  {
    assert Next(V13, V14, Picked(Z, Z)) == V15;
  }

  lemma Eight15(holds: Property)
    requires holds(14, V14, V15) && Takes(holds, 14, Picked(Z, Z))
    ensures holds(15, V15, V16)
  {
    assert Next(V14, V15, Picked(Z, Z)) == V16;
  }

  lemma Eight16(holds: Property)
    requires holds(15, V15, V16) && Takes(holds, 15, Picked(Z, Z))
    ensures holds(16, V16, V17)
  {
    assert Next(V15, V16, Picked(Z, Z)) == V17;
  }

  lemma EightRounds(holds: Property)
    requires holds(0, V0, V1)
    requires forall i | 0 <= i < 16 :: Takes(holds, i, Picked(Z, Z))
    ensures holds(16, V16, V17)
  {
    Eight1(holds);
    Eight2(holds);
    Eight3(holds);
    Eight4(holds);
    Eight5(holds);
    Eight6(holds);
    Eight7(holds);
    Eight8(holds);
    Eight9(holds);
    Eight10(holds);
    Eight11(holds);
    Eight12(holds);
    Eight13(holds);
    Eight14(holds);
    Eight15(holds);
    Eight16(holds);
  }

  /** The block 0100000000000000 under the key of zeros gives 0D9F279BA5D87260. */
  lemma EightAnswer()
    ensures Crypt(Subkeys(ZEROS.Bits()), BIT8.Bits()) == BIT8_ANSWER.Bits()
  {
    var holds := Reached(ZEROS, BIT8);
    Starting(ZEROS, BIT8, V0, V1);
    forall i | 0 <= i < 16 ensures Takes(holds, i, Picked(Z, Z)) {
      ZerosTaken(BIT8, i);
    }
    EightRounds(holds);
    Ending(ZEROS, BIT8, V16, V17, BIT8_ANSWER);
  }
}
