/** What a filter text is, independently of the loop that reads it, and that the parser reads exactly these texts. */
module FilterGrammar {
  import opened Options
  import opened Sequences
  import opened Labels
  import opened FilterParser

  // ----- texts -----

  datatype ValueText = Word(word: Identifier) | Quoted(str: string)

  /** `name`, `( name )` or `( variable = value )`; the numbers count white space. */
  datatype LabelText =
    | Bare(name: Identifier)
    | InParens(w1: nat, name: Identifier, w2: nat)
    | Pair(w1: nat, variable: Identifier, w2: nat, w3: nat, val: ValueText, w4: nat)

  /** A comma or white space, and more white space. */
  datatype Separator = Separator(comma: bool, white: nat)

  /** What may follow a label: the end, after any dots; a label of the same block (one dot) or of a new one (two);
      a word, perhaps with a dot in front; or a last separator. */
  datatype Rest =
    | End(dots: nat)
    | SameBlock(next: LabelText, rest: Rest)
    | NewBlock(next: LabelText, rest: Rest)
    | NewWord(sep: Separator, dotted: bool, next: LabelText, rest: Rest)
    | LastSeparator(sep: Separator, dots: nat)

  datatype FilterText = Empty | Text(first: LabelText, rest: Rest)

  // ----- how they are spelled -----

  function Times(t: Token, n: nat): (ts: seq<Token>)
    ensures |ts| == n && forall i | 0 <= i < n :: ts[i] == t
  {
    if n == 0 then [] else [t] + Times(t, n - 1)
  }

  function SpellValue(v: ValueText): Token {
    match v
    case Word(w) => Ident(w)
    case Quoted(s) => Str(s)
  }

  function SpellLabel(t: LabelText): (ts: seq<Token>)
    ensures ts != [] && StartsLabel(ts[0])
  {
    match t
    case Bare(name) => [Ident(name)]
    case InParens(w1, name, w2) => [LeftParen] + Times(White, w1) + [Ident(name)] + Times(White, w2) + [RightParen]
    case Pair(w1, v, w2, w3, val, w4) =>
      [LeftParen] + Times(White, w1) + [Ident(v)] + Times(White, w2) + [Equals] + Times(White, w3) + [SpellValue(val)]
      + Times(White, w4) + [RightParen]
  }

  function SpellSeparator(sep: Separator): seq<Token> {
    [if sep.comma then Comma else White] + Times(White, sep.white)
  }

  function DotIf(dotted: bool): seq<Token> {
    if dotted then [Dot] else []
  }

  function SpellRest(r: Rest): seq<Token> {
    match r
    case End(dots) => Times(Dot, dots)
    case SameBlock(next, rest) => [Dot] + SpellLabel(next) + SpellRest(rest)
    case NewBlock(next, rest) => [Dot, Dot] + SpellLabel(next) + SpellRest(rest)
    case NewWord(sep, dotted, next, rest) =>
      SpellSeparator(sep) + DotIf(dotted) + SpellLabel(next) + SpellRest(rest)
    case LastSeparator(sep, dots) => SpellSeparator(sep) + Times(Dot, dots)
  }

  function Spell(t: FilterText): seq<Token> {
    match t
    case Empty => []
    case Text(first, rest) => SpellLabel(first) + SpellRest(rest)
  }

  /** The text is the tokens up to the end of the line. */
  predicate Spells(t: FilterText, tokens: seq<Token>) {
    Spell(t) <= tokens && (|tokens| == |Spell(t)| || tokens[|Spell(t)|].EndLine?)
  }

  // ----- what they mean -----

  function LabelOf(t: LabelText): Label {
    match t
    case Bare(name) => BareLabel(name)
    case InParens(_, name, _) => BareLabel(name)
    case Pair(_, v, _, _, val, _) => PairLabel(v, if val.Word? then val.word else val.str)
  }

  /** A filter whose first word has a first block. */
  predicate Begun(f: RawFilter) {
    f != [] && f[0] != []
  }

  /** The label goes in front of the first block. */
  function WithLabel(l: Label, f: RawFilter): (r: RawFilter)
    requires Begun(f)
    ensures Begun(r)
  {
    [[[l] + f[0][0]] + f[0][1..]] + f[1..]
  }

  /** The block goes in front of the first word. */
  function WithBlock(block: seq<Label>, f: RawFilter): (r: RawFilter)
    requires f != []
    ensures Begun(r)
  {
    [[block] + f[0]] + f[1..]
  }

  /** The filter of a label and what follows it. */
  function Read(l: Label, r: Rest): (f: RawFilter)
    ensures Begun(f)
    decreases r
  {
    match r
    case End(_) => [[[l]]]
    case LastSeparator(_, _) => [[[l]]]
    case SameBlock(next, rest) => WithLabel(l, Read(LabelOf(next), rest))
    case NewBlock(next, rest) => WithBlock([l], Read(LabelOf(next), rest))
    case NewWord(_, dotted, next, rest) =>
      var f := Read(LabelOf(next), rest);
      [[[l]]] + if dotted then WithBlock([], f) else f
  }

  function Meaning(t: FilterText): RawFilter {
    match t
    case Empty => []
    case Text(first, rest) => Read(LabelOf(first), rest)
  }

  // ----- labels -----

  lemma {:induction false} WhiteSkipped(n: nat, ts: seq<Token>)
    requires ts != [] && !ts[0].White?
    ensures SkipWhite(Times(White, n) + ts) == ts
    decreases n
  {
    if n == 0 {
      assert Times(White, 0) + ts == ts;
    } else {
      assert (Times(White, n) + ts)[1..] == Times(White, n - 1) + ts;
      WhiteSkipped(n - 1, ts);
    }
  }

  lemma {:induction false} WhiteCounted(ts: seq<Token>) returns (n: nat)
    ensures ts == Times(White, n) + SkipWhite(ts)
    decreases |ts|
  {
    n := 0;
    if ts != [] && ts[0].White? {
      var m := WhiteCounted(ts[1..]);
      n := m + 1;
      assert ts == [White] + ts[1..];
      assert [White] + (Times(White, m) + SkipWhite(ts[1..])) == Times(White, n) + SkipWhite(ts);
    } else {
      assert Times(White, 0) + ts == ts;
    }
  }

  /** What `ParseLabel` makes of the tokens after the parenthesis. */
  function InParensFrom(ts: seq<Token>): Option<Parsed> {
    var a := SkipWhite(ts);
    if a == [] || !a[0].Ident? then None else AfterName(a[0].text, a[1..])
  }

  function AfterName(name: Identifier, ts: seq<Token>): Option<Parsed> {
    var b := SkipWhite(ts);
    if b == [] then None
    else if b[0].RightParen? then Some(Parsed(BareLabel(name), b[1..]))
    else if !b[0].Equals? then None
    else AfterEquals(name, b[1..])
  }

  function AfterEquals(name: Identifier, ts: seq<Token>): Option<Parsed> {
    var c := SkipWhite(ts);
    if c == [] || !(c[0].Ident? || c[0].Str?) then None
    else
      var d := SkipWhite(c[1..]);
      if d == [] || !d[0].RightParen? then None
      else Some(Parsed(PairLabel(name, if c[0].Ident? then c[0].text else c[0].str), d[1..]))
  }

  lemma ParseLabelIs(ts: seq<Token>)
    requires ts != [] && StartsLabel(ts[0])
    ensures ParseLabel(ts) ==
            if ts[0].Ident? then Some(Parsed(BareLabel(ts[0].text), ts[1..])) else InParensFrom(ts[1..])
  {
  }

  lemma Skipped(n: nat, t: Token, more: seq<Token>)
    requires !t.White?
    ensures SkipWhite(Times(White, n) + ([t] + more)) == [t] + more && ([t] + more)[1..] == more
  {
    WhiteSkipped(n, [t] + more);
  }

  lemma AfterEqualsReads(name: Identifier, w3: nat, val: ValueText, w4: nat, rest: seq<Token>)
    ensures AfterEquals(name, Times(White, w3) + ([SpellValue(val)] + (Times(White, w4) + ([RightParen] + rest))))
         == Some(Parsed(PairLabel(name, if val.Word? then val.word else val.str), rest))
  {
    Skipped(w3, SpellValue(val), Times(White, w4) + ([RightParen] + rest));
    Skipped(w4, RightParen, rest);
  }

  lemma InParensReads(w1: nat, name: Identifier, w2: nat, rest: seq<Token>)
    ensures InParensFrom(Times(White, w1) + ([Ident(name)] + (Times(White, w2) + ([RightParen] + rest))))
         == Some(Parsed(BareLabel(name), rest))
  {
    Skipped(w1, Ident(name), Times(White, w2) + ([RightParen] + rest));
    Skipped(w2, RightParen, rest);
  }

  lemma PairReads(w1: nat, v: Identifier, w2: nat, w3: nat, val: ValueText, w4: nat, rest: seq<Token>)
    ensures InParensFrom(Times(White, w1) + ([Ident(v)] + (Times(White, w2) + ([Equals] + (Times(White, w3)
              + ([SpellValue(val)] + (Times(White, w4) + ([RightParen] + rest))))))))
         == Some(Parsed(PairLabel(v, if val.Word? then val.word else val.str), rest))
  {
    var c := Times(White, w3) + ([SpellValue(val)] + (Times(White, w4) + ([RightParen] + rest)));
    AfterEqualsReads(v, w3, val, w4, rest);
    AfterNameReads(v, w2, c);
    NameReads(w1, v, Times(White, w2) + ([Equals] + c));
  }

  lemma AfterNameReads(v: Identifier, w2: nat, c: seq<Token>)
    ensures AfterName(v, Times(White, w2) + ([Equals] + c)) == AfterEquals(v, c)
  {
    Skipped(w2, Equals, c);
  }

  lemma NameReads(w1: nat, v: Identifier, b: seq<Token>)
    ensures InParensFrom(Times(White, w1) + ([Ident(v)] + b)) == AfterName(v, b)
  {
    Skipped(w1, Ident(v), b);
  }

  lemma InParensSpelled(w1: nat, name: Identifier, w2: nat, rest: seq<Token>)
    ensures SpellLabel(InParens(w1, name, w2)) + rest ==
      [LeftParen] + (Times(White, w1) + ([Ident(name)] + (Times(White, w2) + ([RightParen] + rest))))
  {
  }

  lemma HeadRead(t: Token, ts: seq<Token>)
    ensures ([t] + ts)[0] == t && ([t] + ts)[1..] == ts
  {
  }

  /** The parser reads a label text as what it means. */
  lemma LabelReads(t: LabelText, rest: seq<Token>)
    ensures ParseLabel(SpellLabel(t) + rest) == Some(Parsed(LabelOf(t), rest))
  {
    ParseLabelIs(SpellLabel(t) + rest);
    match t {
      case Bare(name) =>
        HeadRead(Ident(name), rest);
      case InParens(w1, name, w2) =>
        InParensSpelled(w1, name, w2, rest);
        HeadRead(LeftParen, Times(White, w1) + ([Ident(name)] + (Times(White, w2) + ([RightParen] + rest))));
        InParensReads(w1, name, w2, rest);
      case Pair(w1, v, w2, w3, val, w4) =>
        PairSpelled(w1, v, w2, w3, val, w4, rest);
        HeadRead(LeftParen, Times(White, w1) + ([Ident(v)] + (Times(White, w2) + ([Equals] + (Times(White, w3)
              + ([SpellValue(val)] + (Times(White, w4) + ([RightParen] + rest))))))));
        PairReads(w1, v, w2, w3, val, w4, rest);
    }
  }

  lemma HeadAndRest(ts: seq<Token>)
    requires ts != []
    ensures ts == [ts[0]] + ts[1..]
  {
  }

  /** A label that the parser reads is spelled by some text. */
  lemma LabelDerived(ts: seq<Token>) returns (t: LabelText)
    requires ts != [] && StartsLabel(ts[0]) && ParseLabel(ts).Some?
    ensures ts == SpellLabel(t) + ParseLabel(ts).value.rest && LabelOf(t) == ParseLabel(ts).value.parsed
  {
    ParseLabelIs(ts);
    if ts[0].Ident? {
      t := Bare(ts[0].text);
    } else {
      var w1 := WhiteCounted(ts[1..]);
      var a := SkipWhite(ts[1..]);
      var w2 := WhiteCounted(a[1..]);
      var b := SkipWhite(a[1..]);
      if b[0].RightParen? {
        t := InParensDerived(ts, w1, a, w2, b);
      } else {
        t := PairDerived(ts, w1, a, w2, b);
      }
    }
  }

  lemma InParensDerived(ts: seq<Token>, w1: nat, a: seq<Token>, w2: nat, b: seq<Token>) returns (t: LabelText)
    requires ts != [] && ts[0].LeftParen? && ts[1..] == Times(White, w1) + a && a != [] && a[0].Ident?
    requires a[1..] == Times(White, w2) + b && b != [] && b[0].RightParen?
    ensures ts == SpellLabel(t) + b[1..] && LabelOf(t) == BareLabel(a[0].text)
  {
    t := InParens(w1, a[0].text, w2);
    HeadAndRest(ts);
    HeadAndRest(a);
    HeadAndRest(b);
    InParensSpelled(w1, a[0].text, w2, b[1..]);
  }

  lemma PairDerived(ts: seq<Token>, w1: nat, a: seq<Token>, w2: nat, b: seq<Token>) returns (t: LabelText)
    requires ts != [] && ts[0].LeftParen? && ts[1..] == Times(White, w1) + a && a != [] && a[0].Ident?
    requires a[1..] == Times(White, w2) + b && b != [] && b[0].Equals? && AfterEquals(a[0].text, b[1..]).Some?
    ensures var p := AfterEquals(a[0].text, b[1..]).value; ts == SpellLabel(t) + p.rest && LabelOf(t) == p.parsed
  {
    var w3 := WhiteCounted(b[1..]);
    var c := SkipWhite(b[1..]);
    var w4 := WhiteCounted(c[1..]);
    var d := SkipWhite(c[1..]);
    var val := if c[0].Ident? then Word(c[0].text) else Quoted(c[0].str);
    t := Pair(w1, a[0].text, w2, w3, val, w4);
    HeadAndRest(ts);
    HeadAndRest(a);
    HeadAndRest(b);
    HeadAndRest(c);
    HeadAndRest(d);
    PairSpelled(w1, a[0].text, w2, w3, val, w4, d[1..]);
  }

  lemma PairSpelled(w1: nat, v: Identifier, w2: nat, w3: nat, val: ValueText, w4: nat, rest: seq<Token>)
    ensures SpellLabel(Pair(w1, v, w2, w3, val, w4)) + rest ==
      [LeftParen] + (Times(White, w1) + ([Ident(v)] + (Times(White, w2) + ([Equals] + (Times(White, w3)
      + ([SpellValue(val)] + (Times(White, w4) + ([RightParen] + rest))))))))
  {
  }

  // ----- texts are read as what they mean -----

  /** The words read so far, the blocks of the word under way, and the filter of what is still to come, whose first
      block continues `front`. */
  function Glue(words: RawFilter, blocks: seq<seq<Label>>, front: seq<Label>, f: RawFilter): RawFilter
    requires Begun(f)
  {
    words + ([blocks + ([front + f[0][0]] + f[0][1..])] + f[1..])
  }

  /** The state after a label: `front` and the label are the block under way. */
  function AfterLabel(words: RawFilter, blocks: seq<seq<Label>>, front: seq<Label>, l: Label): State {
    State(words, blocks, front + [l], 0)
  }

  lemma {:induction false} DotsCounted(n: nat, ts: seq<Token>, st: State)
    ensures ParseFrom(Times(Dot, n) + ts, st) == ParseFrom(ts, st.(dots := st.dots + n))
    decreases n
  {
    if n == 0 {
      assert Times(Dot, 0) + ts == ts;
    } else {
      assert (Times(Dot, n) + ts)[1..] == Times(Dot, n - 1) + ts;
      DotsCounted(n - 1, ts, st.(dots := st.dots + 1));
    }
  }

  lemma DotsEnd(n: nat, tail: seq<Token>, st: State)
    requires tail != [] && tail[0].EndLine?
    ensures ParseFrom(Times(Dot, n) + tail, st) == Some(CloseWord(st).orFilters)
  {
    DotsCounted(n, tail, st);
  }

  lemma LabelStep(t: LabelText, more: seq<Token>, st: State)
    requires Place(st, LabelOf(t)).Some?
    ensures ParseFrom(SpellLabel(t) + more, st) == ParseFrom(more, Place(st, LabelOf(t)).value)
  {
    LabelReads(t, more);
  }

  lemma SeparatorStep(sep: Separator, more: seq<Token>, st: State)
    requires st.dots == 0 && more != [] && !more[0].White?
    ensures ParseFrom(SpellSeparator(sep) + more, st) == ParseFrom(more, CloseWord(st))
  {
    var ts := SpellSeparator(sep) + more;
    assert ts[1..] == Times(White, sep.white) + more;
    WhiteSkipped(sep.white, more);
  }

  lemma CloseAfterLabel(words: RawFilter, blocks: seq<seq<Label>>, front: seq<Label>, l: Label)
    ensures CloseWord(AfterLabel(words, blocks, front, l)) == State(words + [blocks + [front + [l]]], [], [], 1)
    ensures Glue(words, blocks, front, [[[l]]]) == words + [blocks + [front + [l]]]
  {
    assert [front + [l]] + [[l]][1..] == [front + [l]];
  }

  /** `more` is read as `f` after a label that continues the block. */
  lemma SameBlockReads(next: LabelText, more: seq<Token>, words: RawFilter, blocks: seq<seq<Label>>, front: seq<Label>,
                       l: Label, f: RawFilter)
    requires Begun(f)
    requires ParseFrom(more, AfterLabel(words, blocks, front + [l], LabelOf(next)))
          == Some(Glue(words, blocks, front + [l], f))
    ensures ParseFrom([Dot] + (SpellLabel(next) + more), AfterLabel(words, blocks, front, l))
         == Some(Glue(words, blocks, front, WithLabel(l, f)))
  {
    var st := AfterLabel(words, blocks, front, l);
    ParseDot(SpellLabel(next) + more, st);
    LabelStep(next, more, st.(dots := 1));
    GlueLabel(words, blocks, front, l, f);
  }

  lemma NewBlockReads(next: LabelText, more: seq<Token>, words: RawFilter, blocks: seq<seq<Label>>, front: seq<Label>,
                      l: Label, f: RawFilter)
    requires Begun(f)
    requires ParseFrom(more, AfterLabel(words, blocks + [front + [l]], [], LabelOf(next)))
          == Some(Glue(words, blocks + [front + [l]], [], f))
    ensures ParseFrom([Dot, Dot] + (SpellLabel(next) + more), AfterLabel(words, blocks, front, l))
         == Some(Glue(words, blocks, front, WithBlock([l], f)))
  {
    var st := AfterLabel(words, blocks, front, l);
    ParseTwoDots(SpellLabel(next) + more, st);
    LabelStep(next, more, st.(dots := 2));
    assert [] + [LabelOf(next)] == [LabelOf(next)];
    GlueBlock(words, blocks, front, l, f);
  }

  lemma WordReads(sep: Separator, dotted: bool, next: LabelText, more: seq<Token>, words: RawFilter,
                  blocks: seq<seq<Label>>, front: seq<Label>, l: Label, f: RawFilter)
    requires Begun(f)
    requires var words', blocks' := words + [blocks + [front + [l]]], if dotted then [[]] else [];
             ParseFrom(more, AfterLabel(words', blocks', [], LabelOf(next))) == Some(Glue(words', blocks', [], f))
    ensures ParseFrom(SpellSeparator(sep) + (DotIf(dotted) + (SpellLabel(next) + more)),
                      AfterLabel(words, blocks, front, l))
         == Some(Glue(words, blocks, front, [[[l]]] + if dotted then WithBlock([], f) else f))
  {
    CloseAfterLabel(words, blocks, front, l);
    NewWordReads(sep, dotted, next, more, AfterLabel(words, blocks, front, l));
    assert [] + [LabelOf(next)] == [LabelOf(next)];
    GlueWord(words, blocks, front, l, dotted, f);
  }

  lemma RestSpelled(r: Rest, tail: seq<Token>)
    ensures match r
      case End(dots) => SpellRest(r) + tail == Times(Dot, dots) + tail
      case LastSeparator(sep, dots) => SpellRest(r) + tail == SpellSeparator(sep) + (Times(Dot, dots) + tail)
      case SameBlock(next, rest) => SpellRest(r) + tail == [Dot] + (SpellLabel(next) + (SpellRest(rest) + tail))
      case NewBlock(next, rest) => SpellRest(r) + tail == [Dot, Dot] + (SpellLabel(next) + (SpellRest(rest) + tail))
      case NewWord(sep, dotted, next, rest) =>
        SpellRest(r) + tail == SpellSeparator(sep) + (DotIf(dotted) + (SpellLabel(next) + (SpellRest(rest) + tail)))
  {
    match r {
      case End(dots) =>
      case LastSeparator(sep, dots) => Associates(SpellSeparator(sep), Times(Dot, dots), tail);
      case SameBlock(next, rest) => AppendAssoc([Dot], SpellLabel(next), SpellRest(rest), tail);
      case NewBlock(next, rest) => AppendAssoc([Dot, Dot], SpellLabel(next), SpellRest(rest), tail);
      case NewWord(sep, dotted, next, rest) =>
        AppendAssoc(SpellSeparator(sep) + DotIf(dotted), SpellLabel(next), SpellRest(rest), tail);
        Associates(SpellSeparator(sep), DotIf(dotted), SpellLabel(next) + (SpellRest(rest) + tail));
    }
  }

  /** From the state after a label, what follows is read as the grammar means it. */
  lemma {:induction false} RestReads(r: Rest, tail: seq<Token>, words: RawFilter, blocks: seq<seq<Label>>,
                                     front: seq<Label>, l: Label)
    requires tail != [] && tail[0].EndLine?
    ensures ParseFrom(SpellRest(r) + tail, AfterLabel(words, blocks, front, l))
         == Some(Glue(words, blocks, front, Read(l, r)))
    decreases r
  {
    RestSpelled(r, tail);
    match r {
      case End(dots) =>
        CloseAfterLabel(words, blocks, front, l);
        DotsEnd(dots, tail, AfterLabel(words, blocks, front, l));
      case LastSeparator(sep, dots) =>
        CloseAfterLabel(words, blocks, front, l);
        SeparatorThenDots(sep, dots, tail, AfterLabel(words, blocks, front, l));
      case SameBlock(next, rest) =>
        RestReads(rest, tail, words, blocks, front + [l], LabelOf(next));
        SameBlockReads(next, SpellRest(rest) + tail, words, blocks, front, l, Read(LabelOf(next), rest));
      case NewBlock(next, rest) =>
        RestReads(rest, tail, words, blocks + [front + [l]], [], LabelOf(next));
        NewBlockReads(next, SpellRest(rest) + tail, words, blocks, front, l, Read(LabelOf(next), rest));
      case NewWord(sep, dotted, next, rest) =>
        RestReads(rest, tail, words + [blocks + [front + [l]]], if dotted then [[]] else [], [], LabelOf(next));
        WordReads(sep, dotted, next, SpellRest(rest) + tail, words, blocks, front, l, Read(LabelOf(next), rest));
    }
  }

  lemma SeparatorThenDots(sep: Separator, dots: nat, tail: seq<Token>, st: State)
    requires tail != [] && tail[0].EndLine?
    requires st.dots == 0 && CloseWord(st) == State(CloseWord(st).orFilters, [], [], 1)
    ensures ParseFrom(SpellSeparator(sep) + (Times(Dot, dots) + tail), st) == Some(CloseWord(st).orFilters)
  {
    SeparatorStep(sep, Times(Dot, dots) + tail, st);
    DotsEnd(dots, tail, CloseWord(st));
  }

  lemma NewWordReads(sep: Separator, dotted: bool, next: LabelText, more: seq<Token>, st: State)
    requires st.dots == 0 && CloseWord(st) == State(CloseWord(st).orFilters, [], [], 1)
    ensures ParseFrom(SpellSeparator(sep) + (DotIf(dotted) + (SpellLabel(next) + more)), st)
         == ParseFrom(more, State(CloseWord(st).orFilters, if dotted then [[]] else [], [LabelOf(next)], 0))
  {
    var st', word := CloseWord(st), SpellLabel(next) + more;
    SeparatorStep(sep, DotIf(dotted) + word, st);
    var none: seq<Label> := [];
    var nothing: seq<seq<Label>> := [];
    assert none + [LabelOf(next)] == [LabelOf(next)] && nothing + [none] == [none];
    if dotted {
      ParseDot(word, st');
      LabelStep(next, more, st'.(dots := 2));
      assert Place(st'.(dots := 2), LabelOf(next)).value == State(st'.orFilters, [none], [LabelOf(next)], 0);
    } else {
      assert DotIf(dotted) + word == word;
      LabelStep(next, more, st');
    }
  }

  lemma GlueLabel(words: RawFilter, blocks: seq<seq<Label>>, front: seq<Label>, l: Label, f: RawFilter)
    requires Begun(f)
    ensures Glue(words, blocks, front, WithLabel(l, f)) == Glue(words, blocks, front + [l], f)
  {
    var g := WithLabel(l, f);
    assert front + [l] + f[0][0] == front + ([l] + f[0][0]);
    assert g[0][1..] == f[0][1..] && g[1..] == f[1..];
  }

  lemma GlueBlock(words: RawFilter, blocks: seq<seq<Label>>, front: seq<Label>, l: Label, f: RawFilter)
    requires Begun(f)
    ensures Glue(words, blocks, front, WithBlock([l], f)) == Glue(words, blocks + [front + [l]], [], f)
  {
    var g := WithBlock([l], f);
    assert g[0][1..] == f[0] && g[1..] == f[1..];
    assert [] + f[0][0] == f[0][0] && [f[0][0]] + f[0][1..] == f[0];
    assert blocks + ([front + [l]] + f[0]) == blocks + [front + [l]] + f[0];
  }

  lemma GlueWord(words: RawFilter, blocks: seq<seq<Label>>, front: seq<Label>, l: Label, dotted: bool, f: RawFilter)
    requires Begun(f)
    ensures Glue(words, blocks, front, [[[l]]] + if dotted then WithBlock([], f) else f)
         == Glue(words + [blocks + [front + [l]]], if dotted then [[]] else [], [], f)
  {
    var before: seq<seq<Label>> := if dotted then [[]] else [];
    var next := if dotted then WithBlock([], f) else f;
    var g := [[[l]]] + next;
    assert g[0] == [[l]] && g[1..] == next && [front + [l]] + g[0][1..] == [front + [l]];
    assert [] + f[0][0] == f[0][0] && [f[0][0]] + f[0][1..] == f[0];
    assert [before + f[0]] + f[1..] == next by {
      assert !dotted ==> before + f[0] == f[0] && [f[0]] + f[1..] == f;
    }
    assert words + ([blocks + [front + [l]]] + next) == words + [blocks + [front + [l]]] + next;
  }

  // ----- whatever is read is a text -----

  function Dots(ts: seq<Token>): (n: nat)
    ensures n <= |ts| && forall i | 0 <= i < n :: ts[i] == Dot
    ensures n < |ts| ==> !ts[n].Dot?
  {
    if ts == [] || !ts[0].Dot? then 0 else 1 + Dots(ts[1..])
  }

  lemma DotsFirst(ts: seq<Token>)
    ensures ts == Times(Dot, Dots(ts)) + ts[Dots(ts)..]
  {
  }

  lemma DotsParsed(ts: seq<Token>, st: State)
    ensures ts == Times(Dot, Dots(ts)) + ts[Dots(ts)..]
    ensures ParseFrom(ts, st) == ParseFrom(ts[Dots(ts)..], st.(dots := st.dots + Dots(ts)))
  {
    DotsFirst(ts);
    DotsCounted(Dots(ts), ts[Dots(ts)..], st);
  }

  /** After the dots, a label is read and placed. */
  ghost predicate LabelAhead(after: seq<Token>, st: State) {
    && after != [] && StartsLabel(after[0]) && ParseLabel(after).Some?
    && var p := ParseLabel(after).value;
       && Place(st, p.parsed).Some? && ParseFrom(p.rest, Place(st, p.parsed).value).Some?
  }

  lemma AcceptedAhead(ts: seq<Token>, st: State)
    requires ParseFrom(ts, st).Some?
    ensures ts != []
    ensures !ts[0].EndLine? && !ts[0].Dot? ==> LabelAhead(ts, st) || (st.dots == 0 && IsSeparator(ts[0]))
  {
  }

  /** After a label, tokens that the parser accepts spell something that may follow. */
  lemma {:induction false} RestDerived(ts: seq<Token>, st: State) returns (r: Rest, tail: seq<Token>)
    requires st.dots == 0 && ParseFrom(ts, st).Some?
    ensures ts == SpellRest(r) + tail && tail != [] && tail[0].EndLine?
    decreases |ts|, 2
  {
    var n := Dots(ts);
    var after := ts[n..];
    DotsParsed(ts, st);
    AcceptedAhead(after, st.(dots := n));
    if after[0].EndLine? {
      return End(n), after;
    }
    if StartsLabel(after[0]) {
      r, tail := LabelAndRest(ts, st, n, after);
    } else {
      r, tail := WordDerived(ts, st);
    }
  }

  lemma {:induction false} LabelAndRest(ts: seq<Token>, st: State, n: nat, after: seq<Token>)
    returns (r: Rest, tail: seq<Token>)
    requires st.dots == 0 && ts == Times(Dot, n) + after && LabelAhead(after, st.(dots := n))
    ensures ts == SpellRest(r) + tail && tail != [] && tail[0].EndLine?
    decreases |ts|, 0
  {
    var next := LabelDerived(after);
    var p := ParseLabel(after).value;
    var rest: Rest;
    rest, tail := RestDerived(p.rest, Place(st.(dots := n), p.parsed).value);
    r := if n == 1 then SameBlock(next, rest) else NewBlock(next, rest);
    LabelSpelled(ts, n, after, next, p.rest, rest, tail);
  }

  lemma LabelSpelled(ts: seq<Token>, n: nat, after: seq<Token>, next: LabelText, more: seq<Token>, rest: Rest,
                     tail: seq<Token>)
    requires ts == Times(Dot, n) + after && 1 <= n <= 2
    requires after == SpellLabel(next) + more && more == SpellRest(rest) + tail
    ensures ts == SpellRest(if n == 1 then SameBlock(next, rest) else NewBlock(next, rest)) + tail
  {
    assert Times(Dot, n) == if n == 1 then [Dot] else [Dot, Dot];
    RestSpelled(if n == 1 then SameBlock(next, rest) else NewBlock(next, rest), tail);
  }

  lemma WordSpelled(ts: seq<Token>, sep: Separator, n: nat, word: seq<Token>, after: seq<Token>, next: LabelText,
                    more: seq<Token>, rest: Rest, tail: seq<Token>)
    requires ts == SpellSeparator(sep) + word && word == Times(Dot, n) + after && n <= 1
    requires after == SpellLabel(next) + more && more == SpellRest(rest) + tail
    ensures ts == SpellRest(NewWord(sep, n == 1, next, rest)) + tail
  {
    assert Times(Dot, n) == DotIf(n == 1);
    RestSpelled(NewWord(sep, n == 1, next, rest), tail);
  }

  lemma SeparatorDerived(ts: seq<Token>) returns (sep: Separator)
    requires ts != [] && IsSeparator(ts[0])
    ensures ts == SpellSeparator(sep) + SkipWhite(ts[1..])
  {
    var white := WhiteCounted(ts[1..]);
    sep := Separator(ts[0].Comma?, white);
    HeadAndRest(ts);
    Associates([ts[0]], Times(White, white), SkipWhite(ts[1..]));
  }

  lemma SeparatorParsed(ts: seq<Token>, st: State)
    requires st.dots == 0 && ts != [] && IsSeparator(ts[0])
    ensures ParseFrom(ts, st) == ParseFrom(SkipWhite(ts[1..]), CloseWord(st)) && CloseWord(st).dots == 1
  {
  }

  lemma {:induction false} WordDerived(ts: seq<Token>, st: State) returns (r: Rest, tail: seq<Token>)
    requires st.dots == 0 && ParseFrom(ts, st).Some? && IsSeparator(ts[0])
    ensures ts == SpellRest(r) + tail && tail != [] && tail[0].EndLine?
    decreases |ts|, 1
  {
    var sep := SeparatorDerived(ts);
    var word := SkipWhite(ts[1..]);
    var n := Dots(word);
    var after := word[n..];
    SeparatorParsed(ts, st);
    var dotted := CloseWord(st).(dots := n + 1);
    DotsParsed(word, CloseWord(st));
    AcceptedAhead(after, dotted);
    if after[0].EndLine? {
      r, tail := LastSeparator(sep, n), after;
      RestSpelled(r, tail);
    } else {
      r, tail := WordAndRest(ts, sep, word, n, after, dotted);
    }
  }

  lemma {:induction false} WordAndRest(ts: seq<Token>, sep: Separator, word: seq<Token>, n: nat, after: seq<Token>,
                                       st: State)
    returns (r: Rest, tail: seq<Token>)
    requires ts == SpellSeparator(sep) + word && word == Times(Dot, n) + after
    requires st.dots == n + 1 && LabelAhead(after, st)
    ensures ts == SpellRest(r) + tail && tail != [] && tail[0].EndLine?
    decreases |after|, 0
  {
    var next := LabelDerived(after);
    var p := ParseLabel(after).value;
    var rest: Rest;
    rest, tail := RestDerived(p.rest, Place(st, p.parsed).value);
    r := NewWord(sep, n == 1, next, rest);
    WordSpelled(ts, sep, n, word, after, next, p.rest, rest, tail);
  }

  // ----- the parser and the grammar -----

  ghost predicate Derives(tokens: seq<Token>, f: RawFilter) {
    exists t :: Spells(t, tokens) && Meaning(t) == f
  }

  lemma SpellsBefore(t: FilterText, tokens: seq<Token>) returns (tail: seq<Token>)
    requires Spells(t, tokens)
    ensures tokens + [EndLine] == Spell(t) + tail && tail != [] && tail[0].EndLine?
  {
    var spelled, more := Spell(t), tokens[|Spell(t)|..];
    tail := more + [EndLine];
    PrefixAndRest(spelled, tokens);
    Associates(spelled, more, [EndLine]);
  }

  lemma PrefixAndRest<T>(a: seq<T>, s: seq<T>)
    requires a <= s
    ensures s == a + s[|a|..]
  {
  }

  lemma SpellsFrom(t: FilterText, tokens: seq<Token>, tail: seq<Token>)
    requires tokens + [EndLine] == Spell(t) + tail && tail != [] && tail[0].EndLine?
    ensures Spells(t, tokens)
  {
    var n, whole := |Spell(t)|, tokens + [EndLine];
    assert whole[n] == tail[0] && whole[..n] == Spell(t);
    assert tokens[..n] == whole[..n];
  }

  lemma TextReads(t: FilterText, tokens: seq<Token>)
    requires Spells(t, tokens)
    ensures Parse(tokens) == Some(Meaning(t))
  {
    var tail := SpellsBefore(t, tokens);
    match t {
      case Empty =>
        assert tokens + [EndLine] == tail;
      case Text(first, rest) =>
        var l := LabelOf(first);
        Associates(SpellLabel(first), SpellRest(rest), tail);
        assert (tokens + [EndLine])[0] == SpellLabel(first)[0];
        LabelStep(first, SpellRest(rest) + tail, START);
        assert START.conFilter + [l] == [l] && [] + [l] == [l];
        RestReads(rest, tail, [], [], [], l);
        GlueNothing(Read(l, rest));
    }
  }

  lemma GlueNothing(f: RawFilter)
    requires Begun(f)
    ensures Glue([], [], [], f) == f
  {
    var none: seq<Label> := [];
    var nothing: seq<seq<Label>> := [];
    var words: RawFilter := [];
    assert none + f[0][0] == f[0][0] && [f[0][0]] + f[0][1..] == f[0] && nothing + f[0] == f[0];
    assert [f[0]] + f[1..] == f && words + f == f;
  }

  lemma TextDerived(tokens: seq<Token>) returns (t: FilterText)
    requires Parse(tokens).Some?
    ensures Spells(t, tokens)
  {
    var ts := tokens + [EndLine];
    if ts[0].EndLine? {
      t := Empty;
    } else {
      var first := LabelDerived(ts);
      var p := ParseLabel(ts).value;
      var rest, tail := RestDerived(p.rest, Place(START, p.parsed).value);
      t := Text(first, rest);
      Associates(SpellLabel(first), SpellRest(rest), tail);
      SpellsFrom(t, tokens, tail);
    }
  }

  /** The parser accepts exactly the texts of the grammar, each as what it means; anything else is an error. */
  lemma ParsesTheGrammar(tokens: seq<Token>, f: RawFilter)
    ensures Parse(tokens) == Some(f) <==> Derives(tokens, f)
  {
    if Parse(tokens).Some? {
      var t := TextDerived(tokens);
      TextReads(t, tokens);
    }
    if t :| Spells(t, tokens) && Meaning(t) == f {
      TextReads(t, tokens);
    }
  }

  // ----- the loop that reads -----

  /** The tokens are consumed one by one while the three lists and the number of dots are kept up. */
  method ParseFilter(tokens: seq<Token>) returns (r: Option<RawFilter>)
    ensures r == Parse(tokens)
    ensures forall f :: r == Some(f) <==> Derives(tokens, f)
  {
    forall f ensures Parse(tokens) == Some(f) <==> Derives(tokens, f) {
      ParsesTheGrammar(tokens, f);
    }
    var ts := tokens + [EndLine];
    if !(StartsLabel(ts[0]) || ts[0].EndLine? || ts[0].White?) {
      return None;
    }
    var orFilters: RawFilter := [];
    var andFilter: seq<seq<Label>> := [];
    var conFilter: seq<Label> := [];
    var dots: nat := 1;
    while ts != [] && !ts[0].EndLine?
      invariant Sound(State(orFilters, andFilter, conFilter, dots))
      invariant ParseFrom(ts, State(orFilters, andFilter, conFilter, dots)) == Parse(tokens)
      decreases |ts|
    {
      if StartsLabel(ts[0]) {
        var parsed := ParseLabel(ts);
        if parsed == None {
          return None;
        }
        var l := parsed.value.parsed;
        if dots == 1 {
          conFilter := conFilter + [l];
        } else if dots == 2 {
          andFilter := andFilter + [conFilter];
          conFilter := [l];
        } else {
          return None;
        }
        dots := 0;
        ts := parsed.value.rest;
      } else if ts[0].Dot? {
        dots := dots + 1;
        ts := ts[1..];
      } else if IsSeparator(ts[0]) {
        if dots > 0 {
          return None;
        }
        CloseWordBlocks(State(orFilters, andFilter, conFilter, dots));
        orFilters, andFilter, conFilter := Close(orFilters, andFilter, conFilter);
        dots := 1;
        ts := SkipWhite(ts[1..]);
      } else {
        return None;
      }
    }
    if ts == [] {
      return None;
    }
    orFilters, andFilter, conFilter := Close(orFilters, andFilter, conFilter);
    return Some(orFilters);
  }

  method Close(orFilters: RawFilter, andFilter: seq<seq<Label>>, conFilter: seq<Label>)
    returns (orFilters': RawFilter, andFilter': seq<seq<Label>>, conFilter': seq<Label>)
    ensures forall dots ::
              CloseWord(State(orFilters, andFilter, conFilter, dots)) == State(orFilters', andFilter', conFilter', 1)
  {
    orFilters', andFilter', conFilter' := orFilters, andFilter, conFilter;
    if andFilter' != [] {
      if conFilter' != [] {
        andFilter' := andFilter' + [conFilter'];
        conFilter' := [];
      }
      orFilters' := orFilters' + [andFilter'];
      andFilter' := [];
    } else if conFilter' != [] {
      assert andFilter + [conFilter] == [conFilter'];
      orFilters' := orFilters' + [[conFilter']];
      conFilter' := [];
    }
  }
}
