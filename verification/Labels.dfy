/** Variant labels, their asymmetric comparison, and the label sets that index them.

    A label is either a bare name or a `(variable=name)` pair. The comparison `item == wanted`
    looks at the variable only when the wanted label has one, so it is not symmetric. */
module Labels {
  import opened Options

  /** The long name and the hash are computed once, when the label is made. */
  datatype RawLabel = RawLabel(varName: Option<string>, name: string, longName: string, hashVal: int)

  function LongName(varName: Option<string>, name: string): (s: string)
    ensures varName.Some? ==> s != "" && s[0] == '('
  {
    match varName
    case None => name
    case Some(v) => "(" + v + "=" + name + ")"
  }

  function NameHash(name: string): int {
    if name == "" then 0
    else NameHash(name[..|name| - 1]) + (|name| - 1) + name[|name| - 1] as int
  }

  function MakeLabel(varName: Option<string>, name: string): RawLabel {
    RawLabel(varName, name, LongName(varName, name), NameHash(name))
  }

  /** What the lexer guarantees: a variable is a nonempty identifier, and a bare name is one too. */
  predicate Identifiers(varName: Option<string>, name: string) {
    match varName
    case None => name != "" && name[0] != '('
    case Some(v) => v != "" && '=' !in v
  }

  predicate WellNamed(l: RawLabel) {
    Identifiers(l.varName, l.name) && l == MakeLabel(l.varName, l.name)
  }

  type Label = l: RawLabel | WellNamed(l) witness MakeLabel(None, "x")

  /** `item == wanted` in the source: long names when the wanted label names a variable, else names. */
  predicate Matches(item: RawLabel, wanted: RawLabel) {
    if wanted.varName.Some? && wanted.varName.value != ""
    then item.longName == wanted.longName
    else item.name == wanted.name
  }

  lemma LongNameInjective(a: Label, b: Label)
    requires a.longName == b.longName
    ensures a == b
  {
    var x, y := a.longName, b.longName;
    if a.varName.Some? && b.varName.Some? {
      var v, w := a.varName.value, b.varName.value;
      assert forall i | 0 <= i < |v| :: x[1 + i] == v[i];
      assert forall i | 0 <= i < |w| :: y[1 + i] == w[i];
      assert x[1 + |v|] == '=' && y[1 + |w|] == '=';
      assert |v| == |w|;
      assert x[1..1 + |v|] == v && y[1..1 + |w|] == w;
      assert x[2 + |v|..|x| - 1] == a.name && y[2 + |w|..|y| - 1] == b.name;
    } else {
      // a pair starts with a parenthesis and a bare name does not
    }
  }

  /** Labels that match have the same name, hence the same hash: a hash lookup cannot miss. */
  lemma MatchingLabelsHashAlike(item: Label, wanted: Label)
    requires Matches(item, wanted)
    ensures item.name == wanted.name
    ensures item.hashVal == wanted.hashVal
    ensures wanted.varName.Some? ==> item == wanted
  {
    if wanted.varName.Some? {
      LongNameInjective(item, wanted);
    }
  }

  /** A wanted pair matches only itself; a bare wanted label matches every label with its name, whatever variable
      that has. */
  lemma MatchesExactly(item: Label, wanted: Label)
    ensures Matches(item, wanted) <==> if wanted.varName.Some? then item == wanted else item.name == wanted.name
  {
    if wanted.varName.Some? && item.longName == wanted.longName {
      LongNameInjective(item, wanted);
    }
  }

  /** `a` matches `a` and every `(v=a)`; `(v=a)` matches neither `a` nor `(w=a)`. */
  lemma BareMatchesPairs(v: string, w: string, name: string)
    requires Identifiers(None, name) && Identifiers(Some(v), name) && Identifiers(Some(w), name) && v != w
    ensures var bare, pair, other := MakeLabel(None, name), MakeLabel(Some(v), name), MakeLabel(Some(w), name);
      && Matches(bare, bare) && Matches(pair, bare) && Matches(pair, pair)
      && !Matches(bare, pair) && !Matches(other, pair)
    ensures MakeLabel(None, name).longName == name && MakeLabel(Some(v), name).longName == "(" + v + "=" + name + ")"
  {
    var bare := MakeLabel(None, name);
    var pair, other := MakeLabel(Some(v), name), MakeLabel(Some(w), name);
    MatchesExactly(bare, pair);
    MatchesExactly(other, pair);
  }

  function Codes(s: string): int {
    if s == "" then 0 else s[0] as int + Codes(s[1..])
  }

  lemma {:induction false} CodesAppend(s: string, c: char)
    ensures Codes(s + [c]) == Codes(s) + c as int
  {
    if s == "" {
      assert s + [c] == [c] && [c][1..] == "";
    } else {
      assert (s + [c])[1..] == s[1..] + [c];
      CodesAppend(s[1..], c);
    }
  }

  /** The hash of a label: the codes of its name and the numbers of their positions. */
  lemma {:induction false} HashIsSum(name: string)
    ensures 2 * NameHash(name) == 2 * Codes(name) + |name| * (|name| - 1)
  {
    if name != "" {
      var front, last := name[..|name| - 1], name[|name| - 1];
      HashIsSum(front);
      CodesAppend(front, last);
      assert name == front + [last];
      var n := |name|;
      assert n * (n - 1) == (n - 1) * (n - 2) + 2 * (n - 1);
    }
  }

  // ----- Python sets of labels -----

  /** `wanted in s`: an entry is a hit when the hashes agree and `entry == wanted`. */
  predicate Lookup(s: set<Label>, wanted: RawLabel) {
    exists e | e in s :: e.hashVal == wanted.hashVal && Matches(e, wanted)
  }

  /** `s.add(l)`: nothing happens when an entry already compares equal to the new label. */
  function Insert(s: set<Label>, l: Label): set<Label> {
    if Lookup(s, l) then s else s + {l}
  }

  predicate AnyMatches(labels: set<Label>, wanted: RawLabel) {
    exists l | l in labels :: Matches(l, wanted)
  }

  /** `s` answers every lookup as a scan over all of `labels` would. */
  ghost predicate Indexes(s: set<Label>, labels: set<Label>) {
    forall wanted: Label :: Lookup(s, wanted) <==> AnyMatches(labels, wanted)
  }

  lemma LookupIsScan(s: set<Label>, wanted: Label)
    ensures Lookup(s, wanted) <==> AnyMatches(s, wanted)
  {
    if AnyMatches(s, wanted) {
      var e :| e in s && Matches(e, wanted);
      MatchingLabelsHashAlike(e, wanted);
    }
  }

  /** Dropping a label on insertion never changes the answer to a later lookup. */
  lemma InsertKeepsIndex(s: set<Label>, labels: set<Label>, l: Label)
    requires Indexes(s, labels)
    ensures Indexes(Insert(s, l), labels + {l})
  {
    forall wanted: Label
      ensures Lookup(Insert(s, l), wanted) <==> AnyMatches(labels + {l}, wanted)
    {
      LookupIsScan(Insert(s, l), wanted);
      LookupIsScan(s, wanted);
      LookupIsScan(s, l);
      assert Lookup(s, wanted) <==> AnyMatches(labels, wanted);
      if Lookup(s, l) && Matches(l, wanted) {
        var e :| e in s && Matches(e, l);
        MatchingLabelsHashAlike(e, l);
        MatchingLabelsHashAlike(l, wanted);
        assert Matches(e, wanted);
      }
      assert AnyMatches(labels + {l}, wanted) <==> AnyMatches(labels, wanted) || Matches(l, wanted);
    }
  }

  function Elements(labels: seq<Label>): set<Label> {
    set l | l in labels
  }

  /** `s.update(labels)` for a list: one insertion after the other. */
  method UpdateFromList(s: set<Label>, ghost known: set<Label>, labels: seq<Label>) returns (r: set<Label>)
    requires Indexes(s, known)
    ensures Indexes(r, known + Elements(labels))
  {
    r := s;
    assert known + Elements(labels[..0]) == known;
    for i := 0 to |labels|
      invariant Indexes(r, known + Elements(labels[..i]))
    {
      InsertKeepsIndex(r, known + Elements(labels[..i]), labels[i]);
      assert known + Elements(labels[..i]) + {labels[i]} == known + Elements(labels[..i + 1]);
      r := Insert(r, labels[i]);
    }
    assert labels[..|labels|] == labels;
  }

  /** `s.update(other)` for a set: the order of the insertions is unspecified. */
  method UpdateFromSet(s: set<Label>, ghost known: set<Label>, other: set<Label>, ghost otherKnown: set<Label>)
    returns (r: set<Label>)
    requires Indexes(s, known) && Indexes(other, otherKnown)
    ensures Indexes(r, known + otherKnown)
  {
    r := s;
    var rest := other;
    ghost var done: set<Label> := {};
    assert known + done == known;
    while rest != {}
      invariant done + rest == other
      invariant Indexes(r, known + done)
      decreases rest
    {
      var l :| l in rest;
      InsertKeepsIndex(r, known + done, l);
      assert known + done + {l} == known + (done + {l});
      r := Insert(r, l);
      rest, done := rest - {l}, done + {l};
    }
    assert done == other;
    forall wanted: Label ensures Lookup(r, wanted) <==> AnyMatches(known + otherKnown, wanted) {
      LookupIsScan(other, wanted);
      assert Lookup(r, wanted) <==> AnyMatches(known + done, wanted);
      assert Lookup(other, wanted) <==> AnyMatches(otherKnown, wanted);
    }
  }

  /** `set(labels)`. */
  method SetOf(labels: seq<Label>) returns (r: set<Label>)
    ensures Indexes(r, Elements(labels))
  {
    r := UpdateFromList({}, {}, labels);
    assert {} + Elements(labels) == Elements(labels);
  }
}
