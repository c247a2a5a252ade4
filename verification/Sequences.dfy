/** Functions and facts about sequences used throughout. */
module Sequences {
  lemma Split<T>(s: seq<T>, i: nat)
    requires i <= |s|
    ensures s[..i] + s[i..] == s
  {
  }

  lemma SplitAround<T>(s: seq<T>, i: nat)
    requires i < |s|
    ensures s[..i] + [s[i]] + s[i + 1..] == s
  {
  }

  lemma MovedToFront<T>(s: seq<T>, i: nat)
    requires i < |s|
    ensures var moved := [s[i]] + (s[..i] + s[i + 1..]);
            |moved| == |s| && multiset(moved) == multiset(s) && forall x :: x in moved <==> x in s
  {
    SplitAround(s, i);
    var moved := [s[i]] + (s[..i] + s[i + 1..]);
    assert multiset(s) == multiset(s[..i] + [s[i]] + s[i + 1..]) == multiset(moved);
    assert forall x :: x in moved <==> x in multiset(moved);
  }

  lemma HeadAndTail<T>(a: seq<T>, s: seq<T>)
    requires s != []
    ensures [s[0]] + s[1..] == s
    ensures a + [s[0]] + s[1..] == a + s
    ensures |s| == 1 ==> s == [s[0]]
  {
  }

  lemma AppendAssoc<T>(a: seq<T>, b: seq<T>, c: seq<T>, d: seq<T>)
    ensures a + b + c + d == a + (b + (c + d))
  {
  }

  lemma HeadOfAppend<T>(a: seq<T>, b: seq<T>)
    requires a != []
    ensures a == [a[0]] + a[1..] && a + b == [a[0]] + (a[1..] + b)
  {
  }

  lemma Associates<T>(a: seq<T>, b: seq<T>, c: seq<T>)
    ensures a + (b + c) == a + b + c
  {
  }

  function Reversed<T>(s: seq<T>): (r: seq<T>)
    ensures |r| == |s| && forall i | 0 <= i < |s| :: r[i] == s[|s| - 1 - i]
  {
    seq(|s|, i requires 0 <= i < |s| => s[|s| - 1 - i])
  }
}
