/** Splitting text at a character, and joining texts. */
module Text {
  /** The pieces of `s` between the occurrences of `c`. */
  function Split(s: string, c: char): (r: seq<string>)
    ensures r != []
    ensures c !in s ==> r == [s]
  {
    if s == "" then [""]
    else if s[0] == c then [""] + Split(s[1..], c)
    else
      var r := Split(s[1..], c);
      assert [s[0]] + s[1..] == s;
      [[s[0]] + r[0]] + r[1..]
  }

  function Last(r: seq<string>): string
    requires r != []
  {
    r[|r| - 1]
  }

  lemma SplitHas(s: string, c: char)
    ensures c in s <==> |Split(s, c)| > 1
  {
    if s != "" && s[0] != c {
      SplitHas(s[1..], c);
    }
  }

  function Concat(chunks: seq<string>): string {
    if chunks == [] then "" else chunks[0] + Concat(chunks[1..])
  }

  lemma {:induction false} ConcatAppend(a: seq<string>, b: seq<string>)
    ensures Concat(a + b) == Concat(a) + Concat(b)
  {
    if a == [] {
      assert a + b == b;
    } else {
      assert (a + b)[1..] == a[1..] + b;
      ConcatAppend(a[1..], b);
    }
  }

  lemma ConcatOne(s: string)
    ensures Concat([s]) == s
  {
    assert [s][1..] == [];
  }
}
