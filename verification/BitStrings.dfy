/** Texts as lists of bits, eight to a character, the most significant first. */
module BitStrings {
  import opened Sequences

  type Bit = b: nat | b < 2
  type Bits = seq<Bit>

  /** `v & (1 << i) != 0` */
  function BitAt(v: nat, i: nat): Bit {
    if i == 0 then v % 2 else BitAt(v / 2, i - 1)
  }

  /** `1 << i` */
  function PowerOfTwo(i: nat): (p: nat)
    ensures p > 0
  {
    if i == 0 then 1 else 2 * PowerOfTwo(i - 1)
  }

  /** The lowest `n` bits of a number. */
  function BitsOf(v: nat, n: nat): (b: Bits)
    ensures |b| == n
  {
    if n == 0 then [] else BitsOf(v / 2, n - 1) + [v % 2]
  }

  /** The number that bits spell. */
  function Value(b: Bits): (v: nat)
    ensures |b| == 1 ==> v == b[0]
  {
    if b == [] then 0 else 2 * Value(b[..|b| - 1]) + b[|b| - 1]
  }

  lemma {:induction false} BitOfBits(v: nat, n: nat, j: nat)
    requires j < n
    ensures BitsOf(v, n)[j] == BitAt(v, n - 1 - j)
    decreases n
  {
    if j < n - 1 {
      BitOfBits(v / 2, n - 1, j);
    }
  }

  lemma {:induction false} ValueBound(b: Bits)
    ensures Value(b) < PowerOfTwo(|b|)
    decreases |b|
  {
    if b != [] {
      ValueBound(b[..|b| - 1]);
    }
  }

  lemma {:induction false} BitsOfValue(b: Bits)
    ensures BitsOf(Value(b), |b|) == b
    decreases |b|
  {
    if b != [] {
      var front := b[..|b| - 1];
      BitsOfValue(front);
      assert Value(b) / 2 == Value(front) && Value(b) % 2 == b[|b| - 1];
      assert front + [b[|b| - 1]] == b;
    }
  }

  lemma {:induction false} ValueOfBits(v: nat, n: nat)
    ensures Value(BitsOf(v, n)) == v % PowerOfTwo(n)
    decreases n
  {
    if n > 0 {
      ValueOfBits(v / 2, n - 1);
      var b := BitsOf(v, n);
      assert b[..n - 1] == BitsOf(v / 2, n - 1);
      HalfModulo(v, PowerOfTwo(n - 1));
    }
  }

  lemma HalfModulo(v: nat, p: nat)
    requires p > 0
    ensures v % (2 * p) == 2 * (v / 2 % p) + v % 2
  {
    var q, r := v / 2 / p, v / 2 % p;
    assert v == 2 * (q * p + r) + v % 2;
    RemainderIs(v, 2 * p, q, 2 * r + v % 2);
  }

  lemma RemainderIs(v: nat, m: nat, q: nat, r: nat)
    requires m > 0 && r < m && v == q * m + r
    ensures v % m == r
  {
    var d := v / m;
    if d > q {
      MultipleAbove(q, d, m);
    } else if d < q {
      MultipleAbove(d, q, m);
    }
  }

  lemma {:induction false} MultipleAbove(a: nat, b: nat, m: nat)
    requires a < b
    ensures b * m >= a * m + m
  {
    assert b * m == (b - 1) * m + m;
    if a < b - 1 {
      MultipleAbove(a, b - 1, m);
    }
  }

  lemma Byte()
    ensures PowerOfTwo(8) == 256
  {
    assert PowerOfTwo(4) == 16;
    assert PowerOfTwo(6) == 64;
  }

  function CharBits(c: char): (b: Bits)
    ensures |b| == 8
  {
    BitsOf(c as nat, 8)
  }

  /** The bits of a text. Of a character beyond 255 only the lowest eight are taken. */
  function StringToBits(s: string): (b: Bits)
    ensures |b| == 8 * |s|
  {
    if s == "" then [] else CharBits(s[0]) + StringToBits(s[1..])
  }

  /** The value of the first `n` bits of a byte, those not counted taken as 0. */
  function Spelled(b: Bits, n: nat): nat
    requires n <= |b| && n <= 8
  {
    if n == 0 then 0 else Spelled(b, n - 1) + b[n - 1] * PowerOfTwo(8 - n)
  }

  lemma Shifted(before: nat, bit: nat, p: nat)
    ensures (2 * before + bit) * p == before * (2 * p) + bit * p
  {
  }

  lemma {:induction false} SpelledIs(b: Bits, n: nat)
    requires n <= |b| && n <= 8
    ensures Spelled(b, n) == Value(b[..n]) * PowerOfTwo(8 - n)
  {
    if n > 0 {
      SpelledIs(b, n - 1);
      assert b[..n][..n - 1] == b[..n - 1];
      Shifted(Value(b[..n - 1]), b[n - 1], PowerOfTwo(8 - n));
    }
  }

  lemma SpelledInFull(b: Bits)
    requires |b| >= 8
    ensures Spelled(b, 8) == Value(b[..8]) < 256
  {
    SpelledIs(b, 8);
    ValueBound(b[..8]);
    Byte();
  }

  /** The characters of complete groups of eight bits; what is left over is dropped. */
  function BitsToString(b: Bits): (s: string)
    ensures |s| == |b| / 8
    ensures forall i | 0 <= i < |s| :: s[i] < 256 as char
  {
    if |b| < 8 then ""
    else
      SpelledInFull(b);
      [Spelled(b, 8) as char] + BitsToString(b[8..])
  }

  /** The text of the unit test. */
  lemma BitsOfFoo()
    ensures StringToBits("foo") == [0, 1, 1, 0, 0, 1, 1, 0] + [0, 1, 1, 0, 1, 1, 1, 1] + [0, 1, 1, 0, 1, 1, 1, 1]
  {
    var f: Bits, o: Bits := [0, 1, 1, 0, 0, 1, 1, 0], [0, 1, 1, 0, 1, 1, 1, 1];
    ValueOfEight(0, 1, 1, 0, 0, 1, 1, 0);
    ValueOfEight(0, 1, 1, 0, 1, 1, 1, 1);
    BitsOfValue(f);
    BitsOfValue(o);
    assert CharBits('f') == f && CharBits('o') == o;
    assert "foo"[1..] == "oo" && "oo"[1..] == "o" && "o"[1..] == "";
    assert f + (o + (o + [])) == f + o + o;
  }

  lemma ValueOfEight(a: Bit, b: Bit, c: Bit, d: Bit, e: Bit, f: Bit, g: Bit, h: Bit)
    ensures Value([a, b, c, d, e, f, g, h]) ==
            128 * (a as nat) + 64 * (b as nat) + 32 * (c as nat) + 16 * (d as nat)
            + 8 * (e as nat) + 4 * (f as nat) + 2 * (g as nat) + h
  {
    ValueGrows([a], b, [a, b]);
    ValueGrows([a, b], c, [a, b, c]);
    ValueGrows([a, b, c], d, [a, b, c, d]);
    ValueGrows([a, b, c, d], e, [a, b, c, d, e]);
    ValueGrows([a, b, c, d, e], f, [a, b, c, d, e, f]);
    ValueGrows([a, b, c, d, e, f], g, [a, b, c, d, e, f, g]);
    ValueGrows([a, b, c, d, e, f, g], h, [a, b, c, d, e, f, g, h]);
  }

  lemma ValueGrows(front: Bits, last: Bit, whole: Bits)
    requires whole == front + [last]
    ensures Value(whole) == 2 * Value(front) + last
  {
    assert whole[..|front|] == front;
  }

  // ----- the loops -----

  method StringToBitlist(data: string) returns (result: Bits)
    ensures result == StringToBits(data)
  {
    result := [];
    for k := 0 to |data|
      invariant result + StringToBits(data[k..]) == StringToBits(data)
    {
      ghost var before, goal := result, CharBits(data[k]);
      var i := 7;
      while i >= 0
        invariant -1 <= i <= 7 && result == before + goal[..7 - i]
      {
        BitOfBits(data[k] as nat, 8, 7 - i);
        assert goal[..7 - i] + [goal[7 - i]] == goal[..8 - i];
        result := result + [BitAt(data[k] as nat, i)];
        i := i - 1;
      }
      assert goal[..8] == goal && data[k..][1..] == data[k + 1..];
      assert before + (goal + StringToBits(data[k + 1..])) == before + goal + StringToBits(data[k + 1..]);
    }
    assert data[|data|..] == "" && result + [] == result;
  }

  /** The bits from `start` to `pos` belong to the character under way, and `c` is what they add up to. */
  ghost predicate Grouping(data: Bits, start: nat, pos: nat, c: nat) {
    start <= pos <= |data| && start % 8 == 0 && pos - start == pos % 8 && c == Spelled(data[start..], pos - start)
  }

  lemma GroupingGrows(data: Bits, start: nat, pos: nat, c: nat)
    requires Grouping(data, start, pos, c) && pos < |data|
    ensures var c' := c + data[pos] * PowerOfTwo(7 - pos % 8);
            if pos % 8 == 7 then pos + 1 == start + 8 && c' == Spelled(data[start..], 8)
            else Grouping(data, start, pos + 1, c')
  {
    assert data[start..][pos - start] == data[pos];
  }

  method BitlistToString(data: Bits) returns (result: string)
    ensures result == BitsToString(data)
  {
    result := "";
    var pos := 0;
    var c: nat := 0;
    ghost var start := 0;
    while pos < |data|
      invariant Grouping(data, start, pos, c)
      invariant result + BitsToString(data[start..]) == BitsToString(data)
    {
      GroupingGrows(data, start, pos, c);
      c := c + data[pos] * PowerOfTwo(7 - pos % 8);
      if pos % 8 == 7 {
        NextCharacter(result, data, start, c);
        result := result + [c as char];
        c := 0;
        start := start + 8;
      }
      pos := pos + 1;
    }
    assert result + "" == result;
  }

  lemma NextCharacter(result: string, data: Bits, start: nat, c: nat)
    requires start + 8 <= |data| && c == Spelled(data[start..], 8)
    ensures start % 8 == 0 ==> Grouping(data, start + 8, start + 8, 0)
    ensures c < 256 && result + BitsToString(data[start..]) == result + [c as char] + BitsToString(data[start + 8..])
  {
    var b := data[start..];
    SpelledInFull(b);
    assert b[8..] == data[start + 8..];
    assert result + ([c as char] + BitsToString(b[8..])) == result + [c as char] + BitsToString(b[8..]);
  }

  // ----- there and back -----

  predicate AllBytes(s: string) {
    forall i | 0 <= i < |s| :: s[i] < 256 as char
  }

  /** Each character cut to eight bits. */
  function LowBytes(s: string): (r: string)
    ensures |r| == |s| && forall i | 0 <= i < |s| :: r[i] as nat == s[i] as nat % 256
    ensures r == s <==> AllBytes(s)
  {
    seq(|s|, i requires 0 <= i < |s| => (s[i] as nat % 256) as char)
  }

  lemma CharSpelled(c: char, more: Bits)
    ensures Spelled(CharBits(c) + more, 8) == c as nat % 256
  {
    SpelledInFull(CharBits(c) + more);
    assert (CharBits(c) + more)[..8] == CharBits(c);
    ValueOfBits(c as nat, 8);
    Byte();
  }

  /** A text comes back from its bits, each character cut to eight of them. */
  lemma {:induction false} BitsKeepText(s: string)
    ensures BitsToString(StringToBits(s)) == LowBytes(s)
  {
    if s != "" {
      var more := StringToBits(s[1..]);
      CharSpelled(s[0], more);
      assert (CharBits(s[0]) + more)[8..] == more;
      BitsKeepText(s[1..]);
      assert LowBytes(s) == [(s[0] as nat % 256) as char] + LowBytes(s[1..]);
    } else {
      assert LowBytes("") == "";
    }
  }

  lemma SpelledBits(b: Bits)
    requires |b| >= 8
    ensures Spelled(b, 8) < 256 && CharBits(Spelled(b, 8) as char) == b[..8]
  {
    SpelledInFull(b);
    BitsOfValue(b[..8]);
  }

  /** Bits in complete groups of eight come back from their text. */
  lemma {:induction false} TextKeepsBits(b: Bits)
    requires |b| % 8 == 0
    ensures StringToBits(BitsToString(b)) == b
    decreases |b|
  {
    if b != [] {
      SpelledBits(b);
      TextKeepsBits(b[8..]);
      var s := BitsToString(b);
      assert s[1..] == BitsToString(b[8..]) && b[..8] + b[8..] == b;
    }
  }

  // ----- the order of the bits -----

  /** `btgt`: the lowest eight bits in reverse order. */
  method ReverseByte(bsrc: char) returns (btgt: char)
    ensures CharBits(btgt) == Reversed(CharBits(bsrc)) && btgt < 256 as char
  {
    ghost var goal := Reversed(CharBits(bsrc));
    var v: nat := 0;
    for i := 0 to 8
      invariant v == Spelled(goal, i)
    {
      BitOfBits(bsrc as nat, 8, 7 - i);
      if BitAt(bsrc as nat, i) != 0 {
        v := v + PowerOfTwo(7 - i);
      }
    }
    SpelledBits(goal);
    assert goal[..8] == goal;
    btgt := v as char;
  }
}
