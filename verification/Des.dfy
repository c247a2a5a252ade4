/** DES on lists of bits and on texts (FIPS 46-3): the key schedule, the 16 rounds, and what they are for. */
module Des {
  import opened Options
  import opened Sequences
  import opened BitStrings
  import opened DesTables

  function Xor(a: Bit, b: Bit): Bit {
    if a == b then 0 else 1
  }

  function XorBits(a: Bits, b: Bits): (r: Bits)
    requires |a| == |b|
    ensures |r| == |a| && forall i | 0 <= i < |a| :: r[i] == Xor(a[i], b[i])
  {
    seq(|a|, i requires 0 <= i < |a| => Xor(a[i], b[i]))
  }

  function Complement(a: Bits): (r: Bits)
    ensures |r| == |a| && forall i | 0 <= i < |a| :: r[i] == 1 - a[i]
  {
    seq(|a|, i requires 0 <= i < |a| => 1 - a[i])
  }

  /** The bits of `block` that a table names, in the order of the table. */
  function Select(table: seq<nat>, block: Bits): (r: Bits)
    requires forall i | 0 <= i < |table| :: table[i] < |block|
    ensures |r| == |table| && forall i | 0 <= i < |table| :: r[i] == block[table[i]]
  {
    seq(|table|, i requires 0 <= i < |table| => block[table[i]])
  }

  // ----- the round function -----

  /** The entry of the `j`-th S-box for six bits: the outer two choose the row, the inner four the column. */
  function SboxEntry(j: nat, b: Bits): (v: nat)
    requires j < 8 && |b| == 6
    ensures v < 16
  {
    SboxShape();
    var m: nat := 2 * (b[0] as nat) + b[5];
    var n: nat := 8 * (b[1] as nat) + 4 * (b[2] as nat) + 2 * (b[3] as nat) + b[4];
    SBOX[j][16 * m + n]
  }

  /** Bit `t` of a four-bit value, the most significant first. */
  function BitOf(v: nat, t: nat): Bit
    requires t < 4
  {
    if t == 0 then v / 8 % 2 else if t == 1 then v / 4 % 2 else if t == 2 then v / 2 % 2 else v % 2
  }

  function Group(x: Bits, j: nat): (g: Bits)
    requires |x| == 48 && j < 8
    ensures |g| == 6
  {
    x[6 * j..6 * j + 6]
  }

  /** The row is spelled by the outer two bits and the column by the inner four (FIPS 46-3, "Enciphering"). */
  lemma SboxRowAndColumn(j: nat, b: Bits)
    requires j < 8 && |b| == 6
    ensures Value([b[0], b[5]]) < 4 && Value(b[1..5]) < 16 && |SBOX[j]| == 64
    ensures SboxEntry(j, b) == SBOX[j][16 * Value([b[0], b[5]]) + Value(b[1..5])]
  {
    SboxShape();
    ValueOfTwo(b[0], b[5]);
    ValueOfFour(b[1], b[2], b[3], b[4]);
    assert b[1..5] == [b[1], b[2], b[3], b[4]];
  }

  lemma ValueOfTwo(a: Bit, b: Bit)
    ensures Value([a, b]) == 2 * (a as nat) + b
  {
    assert [a, b][..1] == [a];
  }

  lemma ValueOfFour(a: Bit, b: Bit, c: Bit, d: Bit)
    ensures Value([a, b, c, d]) == 8 * (a as nat) + 4 * (b as nat) + 2 * (c as nat) + d
  {
    assert [a, b, c, d][..3] == [a, b, c] && [a, b, c][..2] == [a, b];
    ValueOfTwo(a, b);
  }

  /** The four bits written for an entry spell the entry. */
  lemma BitsSpellEntry(v: nat)
    requires v < 16
    ensures Value([BitOf(v, 0), BitOf(v, 1), BitOf(v, 2), BitOf(v, 3)]) == v
  {
    ValueOfFour(BitOf(v, 0), BitOf(v, 1), BitOf(v, 2), BitOf(v, 3));
  }

  /** 48 bits in eight groups of six, each replaced by the four bits of its S-box entry. */
  function Substitute(x: Bits): (r: Bits)
    requires |x| == 48
    ensures |r| == 32
  {
    seq(32, p requires 0 <= p < 32 => BitOf(SboxEntry(p / 4, Group(x, p / 4)), p % 4))
  }

  function F(r: Bits, k: Bits): (out: Bits)
    requires |r| == 32 && |k| == 48
    ensures |out| == 32
  {
    Select(P, Substitute(XorBits(Select(E, r), k)))
  }

  // ----- sixteen rounds -----

  datatype Halves = Halves(l: Bits, r: Bits) {
    predicate Valid() {
      |l| == 32 && |r| == 32
    }
  }

  predicate ValidKeys(keys: seq<Bits>) {
    forall i | 0 <= i < |keys| :: |keys[i]| == 48
  }

  function Round(h: Halves, k: Bits): (h': Halves)
    requires h.Valid() && |k| == 48
    ensures h'.Valid()
  {
    Halves(h.r, XorBits(F(h.r, k), h.l))
  }

  function Rounds(h: Halves, keys: seq<Bits>): (h': Halves)
    requires h.Valid() && ValidKeys(keys)
    ensures h'.Valid()
    decreases |keys|
  {
    if keys == [] then h else Rounds(Round(h, keys[0]), keys[1..])
  }

  function Initial(data: Bits): (h: Halves)
    requires |data| == 64
    ensures h.Valid()
  {
    var block := Select(IP, data);
    Halves(block[..32], block[32..])
  }

  function Final(h: Halves): (out: Bits)
    requires h.Valid()
    ensures |out| == 64
  {
    Select(FP, h.r + h.l)
  }

  /** One block under the subkeys in the given order. */
  function Crypt(keys: seq<Bits>, data: Bits): (out: Bits)
    requires ValidKeys(keys) && |data| == 64
    ensures |out| == 64
  {
    Final(Rounds(Initial(data), keys))
  }

  function InOrder(keys: seq<Bits>, decrypt: bool): (r: seq<Bits>)
    ensures |r| == |keys|
    ensures ValidKeys(keys) ==> ValidKeys(r)
  {
    if decrypt then Reversed(keys) else keys
  }

  // ----- the key schedule -----

  function Rotate(s: Bits, n: nat): (r: Bits)
    requires n <= |s|
    ensures |r| == |s|
  {
    s[n..] + s[..n]
  }

  /** The first bit goes to the end. */
  function TurnOnce(s: Bits): (r: Bits)
    requires s != []
    ensures |r| == |s|
  {
    s[1..] + [s[0]]
  }

  /** How far the halves of the key have turned after `i` subkeys: the prefix sums of the rotations. */
  function Turned(i: nat): (n: nat)
    requires i <= 16
    ensures n == if i <= 1 then i else if i <= 8 then 2 * i - 2 else if i <= 15 then 2 * i - 3 else 28
  {
    if i == 0 then 0 else Turned(i - 1) + LEFT_ROTATIONS[i - 1]
  }

  function KeyHalves(key: Bits): (h: (Bits, Bits))
    requires |key| == 64
    ensures |h.0| == |h.1| == 28
  {
    var c := Select(PC1, key);
    (c[..28], c[28..])
  }

  function Subkey(key: Bits, i: nat): (k: Bits)
    requires |key| == 64 && i < 16
    ensures |k| == 48
  {
    var (c, d) := KeyHalves(key);
    Select(PC2, Rotate(c, Turned(i + 1)) + Rotate(d, Turned(i + 1)))
  }

  function Subkeys(key: Bits): (keys: seq<Bits>)
    requires |key| == 64
    ensures |keys| == 16 && ValidKeys(keys)
  {
    seq(16, i requires 0 <= i < 16 => Subkey(key, i))
  }

  // ----- passwords as keys -----

  /** A key of another length is filled up with zeros or cut to eight characters. */
  function Padded(key: string): (r: string)
    ensures |r| == 8
    ensures forall i | 0 <= i < 8 :: r[i] == if i < |key| then key[i] else 0 as char
  {
    if |key| == 8 then key else (key + seq(8, i => 0 as char))[..8]
  }

  /** The bits of a key: of each character the lowest bit comes first (section 7.2.2 of RFC 6143). */
  function KeyBits(key: string): (b: Bits)
    ensures |b| == 8 * |key|
  {
    if key == "" then [] else Reversed(CharBits(key[0])) + KeyBits(key[1..])
  }

  /** The text, block by block. */
  function CryptText(keys: seq<Bits>, data: string): (r: string)
    requires ValidKeys(keys) && |data| % 8 == 0
    ensures |r| == |data|
    decreases |data|
  {
    if data == "" then ""
    else BitsToString(Crypt(keys, StringToBits(data[..8]))) + CryptText(keys, data[8..])
  }

  // ----- the class -----

  class Cipher {
    var key: string
    var L: Bits
    var R: Bits
    var Kn: seq<Bits>

    ghost predicate Valid()
      reads this
    {
      |Kn| == 16 && ValidKeys(Kn)
    }

    constructor (key: string)
      ensures Valid() && Kn == Subkeys(KeyBits(Padded(key)))
    {
      var padded := key;
      if |key| != 8 {
        padded := (key + seq(8, i => 0 as char))[..8];
      }
      L, R, this.key := [], [], "";
      Kn := seq(16, i => seq(48, j => 0));
      new;
      var ok := SetKey(padded);
      assert KeyBits(padded)[..64] == KeyBits(padded);
    }

    /** The bits of each character are reversed. A key of less than eight characters raises an index error, and the
        subkeys stay those of the key before; of a longer one only eight characters matter. */
    method SetKey(key: string) returns (ok: bool)
      requires Valid()
      modifies this
      ensures Valid() && StringToBits(this.key) == KeyBits(key) && (ok <==> |key| >= 8)
      ensures if ok then Kn == Subkeys(KeyBits(key)[..64]) else (L, R, Kn) == old((L, R, Kn))
    {
      var newKey := "";
      for ki := 0 to |key|
        invariant |newKey| == ki && StringToBits(newKey) + KeyBits(key[ki..]) == KeyBits(key)
        invariant Valid() && (L, R, Kn) == old((L, R, Kn))
      {
        var btgt := ReverseByte(key[ki]);
        KeyCharacter(newKey, key, ki, btgt);
        newKey := newKey + [btgt];
      }
      assert key[|key|..] == "" && StringToBits(newKey) + [] == StringToBits(newKey);
      this.key := newKey;
      ok := CreateKn();
    }

    method GetSubList(table: seq<nat>, block: Bits) returns (list: Bits)
      requires forall i | 0 <= i < |table| :: table[i] < |block|
      ensures list == Select(table, block)
    {
      list := [];
      for i := 0 to |table|
        invariant |list| == i && forall j | 0 <= j < i :: list[j] == block[table[j]]
      {
        list := list + [block[table[i]]];
      }
    }

    /** `count` circular left shifts of both halves. */
    method Turn(count: nat)
      requires |L| == |R| == 28 && count <= 28
      modifies this`L, this`R
      ensures L == Rotate(old(L), count) && R == Rotate(old(R), count)
    {
      ghost var c, d := L, R;
      RotateNothing(c);
      RotateNothing(d);
      for j := 0 to count
        invariant L == Rotate(c, j) && R == Rotate(d, j)
      {
        RotateOneMore(c, j);
        RotateOneMore(d, j);
        L := TurnOnce(L);
        R := TurnOnce(R);
      }
    }

    /** The halves turn in place; each subkey is selected from where they have got to. Afterwards they are back
        where they started. */
    method CreateKn() returns (ok: bool)
      requires Valid()
      modifies this`L, this`R, this`Kn
      ensures Valid() && (ok <==> |key| >= 8)
      ensures if ok then Kn == Subkeys(StringToBits(key)[..64]) && (L, R) == KeyHalves(StringToBits(key)[..64])
              else (L, R, Kn) == old((L, R, Kn))
    {
      var bits := StringToBitlist(key);
      if |bits| < 64 {
        return false;
      }
      var block := GetSubList(PC1, bits);
      assert block == Select(PC1, bits[..64]);
      L, R := block[..28], block[28..];
      TurnThrough(bits[..64]);
      ok := true;
    }

    method TurnThrough(ghost bits: Bits)
      requires |bits| == 64 && Valid() && (L, R) == KeyHalves(bits)
      modifies this`L, this`R, this`Kn
      ensures Valid() && Kn == Subkeys(bits) && (L, R) == KeyHalves(bits)
    {
      ghost var c, d := L, R;
      ghost var keys := Subkeys(bits);
      RotateNothing(c);
      RotateNothing(d);
      for i := 0 to 16
        invariant |Kn| == 16 && ValidKeys(Kn) && Kn[..i] == keys[..i]
        invariant L == Rotate(c, Turned(i)) && R == Rotate(d, Turned(i))
      {
        KeyTurns(c, d, i);
        Turn(LEFT_ROTATIONS[i]);
        var k := GetSubList(PC2, L + R);
        SubkeySelected(bits, c, d, i, k);
        PrefixGrows(Kn, keys, i);
        Kn := Kn[i := k];
      }
      assert Kn[..16] == Kn && keys[..16] == keys;
      assert L == c && R == d;
    }

    /** The round function, on the right half in place. */
    method FInPlace(k: Bits)
      requires |R| == 32 && |k| == 48
      modifies this`R
      ensures R == F(old(R), k)
    {
      R := GetSubList(E, R);
      R := XorBits(R, k);
      var bn := SubstituteGroups(R);
      R := GetSubList(P, bn);
    }

    /** The eight groups one after the other, each writing its four bits. */
    method SubstituteGroups(x: Bits) returns (bn: Bits)
      requires |x| == 48
      ensures bn == Substitute(x)
    {
      bn := seq(32, i => 0);
      ghost var goal := Substitute(x);
      var pos := 0;
      for j := 0 to 8
        invariant pos == 4 * j && |bn| == 32 && bn[..pos] == goal[..pos]
      {
        var v := SboxEntry(j, Group(x, j));
        SubstituteGroup(x, j, v);
        PrefixGrows(bn, goal, pos);
        bn := bn[pos := BitOf(v, 0)];
        PrefixGrows(bn, goal, pos + 1);
        bn := bn[pos + 1 := BitOf(v, 1)];
        PrefixGrows(bn, goal, pos + 2);
        bn := bn[pos + 2 := BitOf(v, 2)];
        PrefixGrows(bn, goal, pos + 3);
        bn := bn[pos + 3 := BitOf(v, 3)];
        pos := pos + 4;
      }
      assert bn[..32] == bn && goal[..32] == goal;
    }

    method RoundInPlace(k: Bits)
      requires |L| == |R| == 32 && |k| == 48
      modifies this`L, this`R
      ensures Halves(L, R) == Round(Halves(old(L), old(R)), k)
    {
      var tempR := R;
      FInPlace(k);
      R := XorBits(R, L);
      L := tempR;
    }

    method NextRound(desI: int, ghost keys: seq<Bits>, ghost i: nat, ghost total: Halves)
      requires |L| == |R| == 32 && 0 <= desI < |Kn| && i < |keys| && keys[i] == Kn[desI]
      requires Remaining(Halves(L, R), keys, i, total)
      modifies this`L, this`R
      ensures |L| == |R| == 32 && Remaining(Halves(L, R), keys, i + 1, total)
    {
      RoundsStep(Halves(L, R), keys, i, total);
      RoundInPlace(Kn[desI]);
    }

    /** The 16 rounds, through the subkeys forwards or backwards. */
    method SixteenRounds(decrypt: bool)
      requires |L| == |R| == 32 && Valid()
      modifies this`L, this`R
      ensures Halves(L, R) == Rounds(Halves(old(L), old(R)), InOrder(Kn, decrypt))
    {
      ghost var keys := InOrder(Kn, decrypt);
      ghost var total := Rounds(Halves(L, R), keys);
      RoundsStart(Halves(L, R), keys);
      var desI, desAdj := 0, 1;
      if decrypt {
        desI, desAdj := 15, -1;
      }
      var i := 0;
      while i < 16
        invariant 0 <= i <= 16 && |L| == |R| == 32
        invariant desI == if decrypt then 15 - i else i
        invariant Remaining(Halves(L, R), keys, i, total)
      {
        KeyInOrder(Kn, decrypt, i);
        NextRound(desI, keys, i, total);
        i := i + 1;
        desI := desI + desAdj;
      }
      RoundsEnd(Halves(L, R), keys, total);
    }

    method DesCrypt(data: Bits, decrypt: bool) returns (out: Bits)
      requires |data| == 64 && Valid()
      modifies this`L, this`R
      ensures out == Crypt(InOrder(Kn, decrypt), data)
    {
      var block := GetSubList(IP, data);
      L, R := block[..32], block[32..];
      SixteenRounds(decrypt);
      out := GetSubList(FP, R + L);
    }

    method CryptEight(data: string, decrypt: bool) returns (text: string)
      requires |data| == 8 && Valid()
      modifies this`L, this`R
      ensures text == BitsToString(Crypt(InOrder(Kn, decrypt), StringToBits(data)))
    {
      var block := StringToBitlist(data);
      var proBlock := DesCrypt(block, decrypt);
      text := BitlistToString(proBlock);
    }

    /** A text whose last block is not complete raises an index error. */
    method CryptData(data: string, decrypt: bool) returns (out: Option<string>)
      requires Valid()
      modifies this`L, this`R
      ensures out == if |data| % 8 == 0 then Some(CryptText(InOrder(Kn, decrypt), data)) else None
    {
      ghost var keys := InOrder(Kn, decrypt);
      var i := 0;
      var result := "";
      while i < |data|
        invariant 0 <= i <= |data| && BlocksDone(keys, data, i, result)
      {
        if i + 8 > |data| {
          PartialBlock(keys, data, i, result);
          return None;
        }
        var text := CryptEight(data[i..i + 8], decrypt);
        NextBlock(keys, data, i, result, text);
        result := result + text;
        i := i + 8;
      }
      AllBlocks(keys, data, result);
      return Some(result);
    }
  }

  /** `result` is the text of the blocks up to `i`. */
  ghost predicate BlocksDone(keys: seq<Bits>, data: string, i: nat, result: string)
    requires ValidKeys(keys)
  {
    && i % 8 == 0 && i <= |data|
    && (|data| % 8 == 0 ==> |data[i..]| % 8 == 0 && result + CryptText(keys, data[i..]) == CryptText(keys, data))
  }

  lemma PartialBlock(keys: seq<Bits>, data: string, i: nat, result: string)
    requires ValidKeys(keys) && BlocksDone(keys, data, i, result) && i < |data| < i + 8
    ensures |data| % 8 != 0
  {
  }

  lemma AllBlocks(keys: seq<Bits>, data: string, result: string)
    requires ValidKeys(keys) && BlocksDone(keys, data, |data|, result)
    ensures |data| % 8 == 0 && result == CryptText(keys, data)
  {
    assert data[|data|..] == "" && result + "" == result;
  }

  lemma NextBlock(keys: seq<Bits>, data: string, i: nat, result: string, text: string)
    requires ValidKeys(keys) && BlocksDone(keys, data, i, result) && i + 8 <= |data|
    requires text == BitsToString(Crypt(keys, StringToBits(data[i..i + 8])))
    ensures BlocksDone(keys, data, i + 8, result + text)
  {
    var rest := data[i..];
    assert rest[..8] == data[i..i + 8] && rest[8..] == data[i + 8..];
    if |data| % 8 == 0 {
      Associates(result, text, CryptText(keys, rest[8..]));
    }
  }

  lemma KeyCharacter(newKey: string, key: string, ki: nat, btgt: char)
    requires ki < |key| && CharBits(btgt) == Reversed(CharBits(key[ki]))
    requires StringToBits(newKey) + KeyBits(key[ki..]) == KeyBits(key)
    ensures StringToBits(newKey + [btgt]) + KeyBits(key[ki + 1..]) == KeyBits(key)
  {
    KeyBitsFrom(key, ki);
    BitsOfAppend(newKey, btgt);
    Associates(StringToBits(newKey), CharBits(btgt), KeyBits(key[ki + 1..]));
  }

  lemma KeyBitsFrom(key: string, ki: nat)
    requires ki < |key|
    ensures KeyBits(key[ki..]) == Reversed(CharBits(key[ki])) + KeyBits(key[ki + 1..])
  {
    assert key[ki..][1..] == key[ki + 1..];
  }

  lemma {:induction false} BitsOfAppend(s: string, c: char)
    ensures StringToBits(s + [c]) == StringToBits(s) + CharBits(c)
  {
    if s == "" {
      assert s + [c] == [c] && [c][1..] == "";
    } else {
      assert (s + [c])[1..] == s[1..] + [c];
      BitsOfAppend(s[1..], c);
    }
  }

  /** What is left of the rounds gives the total. */
  ghost predicate Remaining(h: Halves, keys: seq<Bits>, i: nat, total: Halves) {
    h.Valid() && ValidKeys(keys) && i <= |keys| && Rounds(h, keys[i..]) == total
  }

  lemma KeyTurns(c: Bits, d: Bits, i: nat)
    requires i < 16 && |c| == |d| == 28
    ensures LEFT_ROTATIONS[i] <= 28
    ensures Rotate(Rotate(c, Turned(i)), LEFT_ROTATIONS[i]) == Rotate(c, Turned(i + 1))
    ensures Rotate(Rotate(d, Turned(i)), LEFT_ROTATIONS[i]) == Rotate(d, Turned(i + 1))
  {
    assert Turned(i + 1) == Turned(i) + LEFT_ROTATIONS[i];
    RotateFurther(c, Turned(i), LEFT_ROTATIONS[i]);
    RotateFurther(d, Turned(i), LEFT_ROTATIONS[i]);
  }

  lemma SubkeySelected(key: Bits, c: Bits, d: Bits, i: nat, k: Bits)
    requires |key| == 64 && (c, d) == KeyHalves(key) && i < 16
    requires k == Select(PC2, Rotate(c, Turned(i + 1)) + Rotate(d, Turned(i + 1)))
    ensures k == Subkeys(key)[i] && |k| == 48
  {
  }

  lemma PrefixGrows<T>(s: seq<T>, goal: seq<T>, i: nat)
    requires i < |s| == |goal| && s[..i] == goal[..i]
    ensures s[i := goal[i]][..i + 1] == goal[..i + 1]
  {
  }

  lemma KeyInOrder(keys: seq<Bits>, decrypt: bool, i: nat)
    requires i < |keys|
    ensures InOrder(keys, decrypt)[i] == keys[if decrypt then |keys| - 1 - i else i]
  {
  }

  lemma RoundsStart(h: Halves, keys: seq<Bits>)
    requires h.Valid() && ValidKeys(keys)
    ensures Remaining(h, keys, 0, Rounds(h, keys))
  {
    assert keys[0..] == keys;
  }

  lemma RoundsEnd(h: Halves, keys: seq<Bits>, total: Halves)
    requires Remaining(h, keys, |keys|, total)
    ensures h == total
  {
    assert keys[|keys|..] == [];
  }

  lemma RoundsStep(h: Halves, keys: seq<Bits>, i: nat, total: Halves)
    requires i < |keys| && Remaining(h, keys, i, total)
    ensures |keys[i]| == 48 && Remaining(Round(h, keys[i]), keys, i + 1, total)
  {
    assert keys[i..][1..] == keys[i + 1..];
  }

  lemma RotateFurther(s: Bits, n: nat, m: nat)
    requires n + m <= |s|
    ensures Rotate(Rotate(s, n), m) == Rotate(s, n + m)
  {
    var r := Rotate(s, n);
    assert r[m..] == s[n + m..] + s[..n] && r[..m] == s[n..n + m];
    assert s[..n] + s[n..n + m] == s[..n + m];
  }

  lemma SubstituteGroup(x: Bits, j: nat, v: nat)
    requires |x| == 48 && j < 8 && v == SboxEntry(j, Group(x, j))
    ensures var s := Substitute(x);
            && s[4 * j] == BitOf(v, 0) && s[4 * j + 1] == BitOf(v, 1)
            && s[4 * j + 2] == BitOf(v, 2) && s[4 * j + 3] == BitOf(v, 3)
  {
    SubstituteBit(x, j, 0);
    SubstituteBit(x, j, 1);
    SubstituteBit(x, j, 2);
    SubstituteBit(x, j, 3);
  }

  lemma SubstituteBit(x: Bits, j: nat, t: nat)
    requires |x| == 48 && j < 8 && t < 4
    ensures Substitute(x)[4 * j + t] == BitOf(SboxEntry(j, Group(x, j)), t)
  {
    QuotientOfFour(j, t);
  }

  lemma QuotientOfFour(j: nat, t: nat)
    requires t < 4
    ensures (4 * j + t) / 4 == j && (4 * j + t) % 4 == t
  {
  }

  lemma RotateNothing(s: Bits)
    ensures Rotate(s, 0) == s && Rotate(s, |s|) == s
  {
  }

  lemma RotateOneMore(s: Bits, n: nat)
    requires n < |s|
    ensures TurnOnce(Rotate(s, n)) == Rotate(s, n + 1)
  {
    var r := Rotate(s, n);
    assert s[n..][1..] == s[n + 1..];
    assert r[1..] == s[n + 1..] + s[..n] && r[0] == s[n];
    assert s[..n] + [s[n]] == s[..n + 1];
  }

  // ----- inversion -----

  function Swap(h: Halves): Halves {
    Halves(h.r, h.l)
  }

  lemma XorTwice(a: Bits, b: Bits)
    requires |a| == |b|
    ensures XorBits(a, XorBits(a, b)) == b
  {
  }

  /** A round after swapping the halves undoes the round. */
  lemma RoundUndone(h: Halves, k: Bits)
    requires h.Valid() && |k| == 48
    ensures Round(Swap(Round(h, k)), k) == Swap(h)
  {
    XorTwice(F(h.r, k), h.l);
  }

  lemma {:induction false} RoundsAppend(h: Halves, a: seq<Bits>, b: seq<Bits>)
    requires h.Valid() && ValidKeys(a) && ValidKeys(b)
    ensures Rounds(h, a + b) == Rounds(Rounds(h, a), b)
    decreases |a|
  {
    if a == [] {
      assert a + b == b;
    } else {
      assert (a + b)[1..] == a[1..] + b;
      RoundsAppend(Round(h, a[0]), a[1..], b);
    }
  }

  lemma {:induction false} RoundsUndone(h: Halves, keys: seq<Bits>)
    requires h.Valid() && ValidKeys(keys)
    ensures Rounds(Swap(Rounds(h, keys)), Reversed(keys)) == Swap(h)
    decreases |keys|
  {
    if keys != [] {
      var h', rest := Round(h, keys[0]), keys[1..];
      RoundsUndone(h', rest);
      assert Reversed(keys) == Reversed(rest) + [keys[0]];
      RoundsAppend(Swap(Rounds(h', rest)), Reversed(rest), [keys[0]]);
      RoundsOne(Swap(h'), keys[0]);
      RoundUndone(h, keys[0]);
    }
  }

  lemma RoundsOne(h: Halves, k: Bits)
    requires h.Valid() && |k| == 48
    ensures Rounds(h, [k]) == Round(h, k)
  {
    assert [k][1..] == [];
  }

  /** The initial permutation takes back the final one, and the halves come out swapped. */
  lemma InitialOfFinal(h: Halves)
    requires h.Valid()
    ensures Initial(Final(h)) == Swap(h)
  {
    var x := h.r + h.l;
    PermutationsInvert();
    assert Select(IP, Select(FP, x)) == x;
  }

  lemma FinalOfInitial(data: Bits)
    requires |data| == 64
    ensures Final(Swap(Initial(data))) == data
  {
    PermutationsInvert();
    var block := Select(IP, data);
    assert block[..32] + block[32..] == block;
  }

  /** Decryption undoes encryption, for every list of subkeys. */
  lemma DecryptUndoesEncrypt(keys: seq<Bits>, data: Bits)
    requires ValidKeys(keys) && |data| == 64
    ensures Crypt(Reversed(keys), Crypt(keys, data)) == data
  {
    var h := Rounds(Initial(data), keys);
    InitialOfFinal(h);
    RoundsUndone(Initial(data), keys);
    FinalOfInitial(data);
  }

  // ----- complementation -----

  lemma SelectOfComplement(table: seq<nat>, block: Bits)
    requires forall i | 0 <= i < |table| :: table[i] < |block|
    ensures Select(table, Complement(block)) == Complement(Select(table, block))
  {
  }

  /** The round function sees the exclusive or of its arguments only. */
  lemma FOfComplements(r: Bits, k: Bits)
    requires |r| == 32 && |k| == 48
    ensures F(Complement(r), Complement(k)) == F(r, k)
  {
    SelectOfComplement(E, r);
    assert XorBits(Select(E, Complement(r)), Complement(k)) == XorBits(Select(E, r), k);
  }

  function ComplementHalves(h: Halves): Halves {
    Halves(Complement(h.l), Complement(h.r))
  }

  function ComplementKeys(keys: seq<Bits>): (r: seq<Bits>)
    ensures |r| == |keys| && forall i | 0 <= i < |keys| :: r[i] == Complement(keys[i])
  {
    seq(|keys|, i requires 0 <= i < |keys| => Complement(keys[i]))
  }

  lemma RoundOfComplements(h: Halves, k: Bits)
    requires h.Valid() && |k| == 48
    ensures Round(ComplementHalves(h), Complement(k)) == ComplementHalves(Round(h, k))
  {
    FOfComplements(h.r, k);
    XorOfComplement(F(h.r, k), h.l);
  }

  lemma XorOfComplement(a: Bits, b: Bits)
    requires |a| == |b|
    ensures XorBits(a, Complement(b)) == Complement(XorBits(a, b))
  {
  }

  lemma {:induction false} RoundsOfComplements(h: Halves, keys: seq<Bits>)
    requires h.Valid() && ValidKeys(keys)
    ensures Rounds(ComplementHalves(h), ComplementKeys(keys)) == ComplementHalves(Rounds(h, keys))
    decreases |keys|
  {
    if keys != [] {
      RoundOfComplements(h, keys[0]);
      assert ComplementKeys(keys)[1..] == ComplementKeys(keys[1..]);
      RoundsOfComplements(Round(h, keys[0]), keys[1..]);
    }
  }

  lemma ComplementMoves(c: Bits, d: Bits, n: nat)
    requires n <= |c| && n <= |d|
    ensures Rotate(Complement(c), n) + Rotate(Complement(d), n) == Complement(Rotate(c, n) + Rotate(d, n))
  {
  }

  lemma KeyHalvesOfComplement(key: Bits)
    requires |key| == 64
    ensures var (c, d) := KeyHalves(key); KeyHalves(Complement(key)) == (Complement(c), Complement(d))
  {
    SelectOfComplement(PC1, key);
    var x := Select(PC1, key);
    assert Complement(x)[..28] == Complement(x[..28]) && Complement(x)[28..] == Complement(x[28..]);
  }

  lemma SubkeysOfComplement(key: Bits)
    requires |key| == 64
    ensures Subkeys(Complement(key)) == ComplementKeys(Subkeys(key))
  {
    KeyHalvesOfComplement(key);
    var (c, d) := KeyHalves(key);
    forall i | 0 <= i < 16 ensures Subkey(Complement(key), i) == Complement(Subkey(key, i)) {
      var n := Turned(i + 1);
      ComplementMoves(c, d, n);
      SelectOfComplement(PC2, Rotate(c, n) + Rotate(d, n));
    }
  }

  lemma InitialOfComplement(data: Bits)
    requires |data| == 64
    ensures Initial(Complement(data)) == ComplementHalves(Initial(data))
  {
    SelectOfComplement(IP, data);
    var block := Select(IP, data);
    assert Complement(block)[..32] == Complement(block[..32]) && Complement(block)[32..] == Complement(block[32..]);
  }

  lemma FinalOfComplement(h: Halves)
    requires h.Valid()
    ensures Final(ComplementHalves(h)) == Complement(Final(h))
  {
    assert Complement(h.r) + Complement(h.l) == Complement(h.r + h.l);
    SelectOfComplement(FP, h.r + h.l);
  }

  /** The complemented block under the complemented key gives the complemented result. */
  lemma Complementation(key: Bits, data: Bits)
    requires |key| == |data| == 64
    ensures Crypt(Subkeys(Complement(key)), Complement(data)) == Complement(Crypt(Subkeys(key), data))
  {
    SubkeysOfComplement(key);
    InitialOfComplement(data);
    RoundsOfComplements(Initial(data), Subkeys(key));
    FinalOfComplement(Rounds(Initial(data), Subkeys(key)));
  }

  // ----- weak keys -----

  predicate Constant(s: Bits) {
    forall i, j | 0 <= i < |s| && 0 <= j < |s| :: s[i] == s[j]
  }

  lemma RotateConstant(s: Bits, n: nat)
    requires Constant(s) && n <= |s|
    ensures Rotate(s, n) == s
  {
  }

  /** When each half of the selected key is constant, all subkeys are equal. */
  lemma WeakKeySchedule(key: Bits, i: nat, j: nat)
    requires |key| == 64 && i < 16 && j < 16
    requires Constant(KeyHalves(key).0) && Constant(KeyHalves(key).1)
    ensures Subkey(key, i) == Subkey(key, j)
  {
    var (c, d) := KeyHalves(key);
    RotateConstant(c, Turned(i + 1));
    RotateConstant(c, Turned(j + 1));
    RotateConstant(d, Turned(i + 1));
    RotateConstant(d, Turned(j + 1));
  }

  /** Encrypting twice under a weak key gives the block back. */
  lemma WeakKeyInvolution(key: Bits, data: Bits)
    requires |key| == |data| == 64
    requires Constant(KeyHalves(key).0) && Constant(KeyHalves(key).1)
    ensures Crypt(Subkeys(key), Crypt(Subkeys(key), data)) == data
  {
    var keys := Subkeys(key);
    forall i | 0 <= i < 16 ensures Reversed(keys)[i] == keys[i] {
      WeakKeySchedule(key, 15 - i, i);
    }
    assert Reversed(keys) == keys;
    DecryptUndoesEncrypt(keys, data);
  }

  // ----- parity bits -----

  /** The two keys agree but for the last bit of each byte. */
  predicate SameButParity(key: Bits, other: Bits)
    requires |key| == |other| == 64
  {
    forall i | 0 <= i < 64 && i % 8 != 7 :: key[i] == other[i]
  }

  /** The last bit of each byte of the key does not matter. */
  lemma ParityIgnored(key: Bits, other: Bits)
    requires |key| == |other| == 64 && SameButParity(key, other)
    ensures Subkeys(key) == Subkeys(other)
  {
    ParityNotSelected();
    assert Select(PC1, key) == Select(PC1, other);
  }

  // ----- texts and passwords -----

  lemma BlockRoundTrip(keys: seq<Bits>, block: string)
    requires ValidKeys(keys) && |block| == 8
    ensures var sent := BitsToString(Crypt(keys, StringToBits(block)));
            |sent| == 8 && BitsToString(Crypt(Reversed(keys), StringToBits(sent))) == LowBytes(block)
  {
    TextKeepsBits(Crypt(keys, StringToBits(block)));
    DecryptUndoesEncrypt(keys, StringToBits(block));
    BitsKeepText(block);
  }

  lemma FirstBlock(keys: seq<Bits>, block: string, more: string)
    requires ValidKeys(keys) && |block| == 8 && |more| % 8 == 0
    ensures CryptText(keys, block + more) == BitsToString(Crypt(keys, StringToBits(block))) + CryptText(keys, more)
  {
    assert (block + more)[..8] == block && (block + more)[8..] == more;
  }

  /** A text in complete blocks comes back, each character cut to eight bits; so it comes back whole exactly when
      all its characters are bytes. */
  lemma {:induction false} TextRoundTrip(keys: seq<Bits>, data: string)
    requires ValidKeys(keys) && |data| % 8 == 0
    ensures CryptText(Reversed(keys), CryptText(keys, data)) == LowBytes(data)
    ensures CryptText(Reversed(keys), CryptText(keys, data)) == data <==> AllBytes(data)
    decreases |data|
  {
    if data == "" {
      assert LowBytes(data) == "";
    } else {
      TextRoundTrip(keys, data[8..]);
      RoundTripGrows(keys, data[..8], data[8..]);
      assert data[..8] + data[8..] == data;
    }
  }

  lemma RoundTripGrows(keys: seq<Bits>, block: string, more: string)
    requires ValidKeys(keys) && |block| == 8 && |more| % 8 == 0
    requires CryptText(Reversed(keys), CryptText(keys, more)) == LowBytes(more)
    ensures CryptText(Reversed(keys), CryptText(keys, block + more)) == LowBytes(block + more)
  {
    var sent, rest := BitsToString(Crypt(keys, StringToBits(block))), CryptText(keys, more);
    FirstBlock(keys, block, more);
    SentBack(keys, block, sent, rest);
    LowBytesAppend(block, more);
  }

  lemma SentBack(keys: seq<Bits>, block: string, sent: string, rest: string)
    requires ValidKeys(keys) && |block| == 8 && |sent| == 8 && |rest| % 8 == 0
    requires sent == BitsToString(Crypt(keys, StringToBits(block)))
    ensures CryptText(Reversed(keys), sent + rest) == LowBytes(block) + CryptText(Reversed(keys), rest)
  {
    BlockRoundTrip(keys, block);
    FirstBlock(Reversed(keys), sent, rest);
  }

  lemma LowBytesAppend(a: string, b: string)
    ensures LowBytes(a + b) == LowBytes(a) + LowBytes(b)
  {
  }

  /** Bit `j` of character `i`, the lowest counted first, is bit `8 * i + j` of the key. */
  lemma {:induction false} KeyBit(key: string, i: nat, j: nat)
    requires i < |key| && j < 8
    ensures KeyBits(key)[8 * i + j] == BitAt(key[i] as nat, j)
  {
    if i == 0 {
      BitOfBits(key[0] as nat, 8, 7 - j);
    } else {
      KeyBit(key[1..], i - 1, j);
    }
  }

  /** Two passwords are the same but for the highest bits of their characters. */
  predicate SameLowBits(key: string, other: string) {
    |key| == |other| && forall i | 0 <= i < |key| :: key[i] as nat % 128 == other[i] as nat % 128
  }

  lemma LowBitsDecide(v: nat, w: nat, n: nat, j: nat)
    requires v % PowerOfTwo(n) == w % PowerOfTwo(n) && j < n
    ensures BitAt(v, j) == BitAt(w, j)
  {
    ValueOfBits(v, n);
    ValueOfBits(w, n);
    BitsOfValue(BitsOf(v, n));
    BitsOfValue(BitsOf(w, n));
    BitOfBits(v, n, n - 1 - j);
    BitOfBits(w, n, n - 1 - j);
  }

  /** The highest bit of each character of a password does not matter, nor does anything after the eighth. */
  lemma HighBitsIgnored(key: string, other: string)
    requires SameLowBits(Padded(key), Padded(other))
    ensures Subkeys(KeyBits(Padded(key))) == Subkeys(KeyBits(Padded(other)))
  {
    var a, b := Padded(key), Padded(other);
    forall p | 0 <= p < 64 && p % 8 != 7 ensures KeyBits(a)[p] == KeyBits(b)[p] {
      KeyBit(a, p / 8, p % 8);
      KeyBit(b, p / 8, p % 8);
      assert PowerOfTwo(7) == 128 by {
        assert PowerOfTwo(4) == 16;
      }
      LowBitsDecide(a[p / 8] as nat, b[p / 8] as nat, 7, p % 8);
    }
    ParityIgnored(KeyBits(a), KeyBits(b));
  }
}
