/** Parsing the tokens of a filter: `,` or white space separates words, `..` blocks and `.` the labels of a block. */
module FilterParser {
  import opened Options
  import opened Sequences
  import opened Labels
  import opened Adjacent
  import opened Filters

  /** What ends an identifier: white space and the signs of the filter language. */
  predicate IsSign(c: char) {
    c == ' ' || c == '\t' || c == '(' || c == ')' || c == '=' || c == '.' || c == ',' || c == '"'
  }

  predicate IsIdentifier(s: string) {
    s != "" && forall c | c in s :: !IsSign(c)
  }

  type Identifier = s: string | IsIdentifier(s) witness "x"

  datatype Token =
    | Ident(text: Identifier)
    | Str(str: string)
    | LeftParen
    | RightParen
    | Equals
    | Dot
    | Comma
    | White
    | EndLine
    | OtherToken

  /** What the parser produces; blocks may turn out empty. */
  type RawFilter = seq<seq<seq<Label>>>

  predicate IsSeparator(t: Token) {
    t.Comma? || t.White?
  }

  predicate StartsLabel(t: Token) {
    t.Ident? || t.LeftParen?
  }

  function SkipWhite(ts: seq<Token>): (r: seq<Token>)
    ensures |r| <= |ts|
    ensures r != [] ==> !r[0].White?
  {
    if ts != [] && ts[0].White? then SkipWhite(ts[1..]) else ts
  }

  function BareLabel(name: Identifier): Label {
    assert name[0] in name;
    MakeLabel(None, name)
  }

  function PairLabel(varName: Identifier, name: string): Label {
    MakeLabel(Some(varName), name)
  }

  datatype Parsed = Parsed(parsed: Label, rest: seq<Token>)

  /** A label: an identifier, `(name)` or `(variable=name)`, white space allowed inside the parentheses. */
  function ParseLabel(ts: seq<Token>): (r: Option<Parsed>)
    requires ts != [] && StartsLabel(ts[0])
    ensures r.Some? ==> |r.value.rest| < |ts|
  {
    if ts[0].Ident? then Some(Parsed(BareLabel(ts[0].text), ts[1..]))
    else
      var a := SkipWhite(ts[1..]);
      if a == [] || !a[0].Ident? then None
      else
        var b := SkipWhite(a[1..]);
        if b == [] then None
        else if b[0].RightParen? then Some(Parsed(BareLabel(a[0].text), b[1..]))
        else if !b[0].Equals? then None
        else
          var c := SkipWhite(b[1..]);
          if c == [] || !(c[0].Ident? || c[0].Str?) then None
          else
            var d := SkipWhite(c[1..]);
            if d == [] || !d[0].RightParen? then None
            else Some(Parsed(PairLabel(a[0].text, if c[0].Ident? then c[0].text else c[0].str), d[1..]))
  }

  datatype State = State(orFilters: RawFilter, andFilter: seq<seq<Label>>, conFilter: seq<Label>, dots: nat)

  const START := State([], [], [], 1)

  /** Where a label goes depends on the dots before it; None is a syntax error. */
  function Place(st: State, l: Label): Option<State> {
    if st.dots == 1 then Some(st.(conFilter := st.conFilter + [l], dots := 0))
    else if st.dots == 2 then Some(st.(andFilter := st.andFilter + [st.conFilter], conFilter := [l], dots := 0))
    else None
  }

  /** The word under construction is complete. */
  function CloseWord(st: State): State {
    var word := if st.andFilter != [] && st.conFilter == [] then st.andFilter
                else if st.andFilter != [] || st.conFilter != [] then st.andFilter + [st.conFilter]
                else [];
    State(if word == [] then st.orFilters else st.orFilters + [word], [], [], 1)
  }

  /** The rest of the parse from a token list that ends with EndLine; None is a syntax error. */
  function ParseFrom(ts: seq<Token>, st: State): Option<RawFilter>
    decreases |ts|
  {
    if ts == [] then None
    else if ts[0].EndLine? then Some(CloseWord(st).orFilters)
    else if StartsLabel(ts[0]) then
      match ParseLabel(ts)
      case None => None
      case Some(Parsed(l, rest)) =>
        match Place(st, l)
        case None => None
        case Some(st') => ParseFrom(rest, st')
    else if ts[0].Dot? then ParseFrom(ts[1..], st.(dots := st.dots + 1))
    else if IsSeparator(ts[0]) then
      if st.dots > 0 then None else ParseFrom(SkipWhite(ts[1..]), CloseWord(st))
    else None
  }

  function Parse(tokens: seq<Token>): Option<RawFilter> {
    var ts := tokens + [EndLine];
    if StartsLabel(ts[0]) || ts[0].EndLine? || ts[0].White? then ParseFrom(ts, START) else None
  }

  // ----- what is accepted -----

  ghost predicate HasEmptyBlock(f: RawFilter) {
    exists word | word in f :: [] in word
  }

  /** Before the end of the line, a separator is followed by a single dot and a label: `a, .b`. */
  predicate DotAfterSeparator(ts: seq<Token>) {
    ts != [] && !ts[0].EndLine? &&
    ((|ts| >= 3 && IsSeparator(ts[0]) && ts[1].Dot? && StartsLabel(ts[2])) || DotAfterSeparator(ts[1..]))
  }

  /** The next label will complete an empty block. */
  predicate EmptyAhead(ts: seq<Token>, st: State) {
    st.conFilter == [] &&
    (|| (st.dots == 1 && |ts| >= 2 && ts[0].Dot? && StartsLabel(ts[1]))
     || (st.dots == 2 && ts != [] && StartsLabel(ts[0])))
  }

  predicate Sound(st: State) {
    && (st.dots == 0 ==> st.conFilter != [])
    && (st.conFilter == [] ==> st.andFilter == [])
    && [] !in st.orFilters
  }

  lemma SkipWhiteKeepsPattern(ts: seq<Token>)
    requires SkipWhite(ts) != [] && !SkipWhite(ts)[0].Dot?
    ensures DotAfterSeparator(ts) == DotAfterSeparator(SkipWhite(ts))
  {
    if ts[0].White? {
      SkipWhiteKeepsPattern(ts[1..]);
    }
  }

  lemma LabelKeepsPattern(ts: seq<Token>)
    requires ts != [] && StartsLabel(ts[0]) && ParseLabel(ts).Some?
    ensures DotAfterSeparator(ts) == DotAfterSeparator(ParseLabel(ts).value.rest)
  {
    if ts[0].LeftParen? {
      var a := SkipWhite(ts[1..]);
      SkipWhiteKeepsPattern(ts[1..]);
      var b := SkipWhite(a[1..]);
      SkipWhiteKeepsPattern(a[1..]);
      if !b[0].RightParen? {
        var c := SkipWhite(b[1..]);
        SkipWhiteKeepsPattern(b[1..]);
        SkipWhiteKeepsPattern(c[1..]);
      }
    }
  }

  /** After a separator, the pattern shows in what follows the white space. */
  lemma SeparatorShowsPattern(ts: seq<Token>, st: State)
    requires ts != [] && IsSeparator(ts[0]) && st.conFilter == [] && st.dots == 1
    ensures var rest := SkipWhite(ts[1..]);
            DotAfterSeparator(ts) == (DotAfterSeparator(rest) || EmptyAhead(rest, st))
    decreases |ts|
  {
    if |ts| > 1 && ts[1].White? {
      SeparatorShowsPattern(ts[1..], st);
      assert ts[1..][1..] == ts[2..];
    }
  }

  lemma CloseWordBlocks(st: State)
    requires Sound(st)
    ensures Sound(CloseWord(st))
    ensures HasEmptyBlock(CloseWord(st).orFilters) == (HasEmptyBlock(st.orFilters) || [] in st.andFilter)
  {
    var c := CloseWord(st);
    if st.conFilter != [] {
      var word := st.andFilter + [st.conFilter];
      assert c.orFilters == st.orFilters + [word];
      assert [] in word <==> [] in st.andFilter;
      assert HasEmptyBlock(c.orFilters) <==> HasEmptyBlock(st.orFilters) || [] in word by {
        assert word in c.orFilters;
        assert forall w | w in st.orFilters :: w in c.orFilters;
      }
    }
  }

  lemma {:induction false} EmptyBlocksFrom(ts: seq<Token>, st: State)
    requires Sound(st) && ParseFrom(ts, st).Some?
    ensures [] !in ParseFrom(ts, st).value
    ensures HasEmptyBlock(ParseFrom(ts, st).value) ==
            (HasEmptyBlock(st.orFilters) || [] in st.andFilter || EmptyAhead(ts, st) || DotAfterSeparator(ts))
    decreases |ts|
  {
    if ts[0].EndLine? {
      CloseWordBlocks(st);
    } else if StartsLabel(ts[0]) {
      var Parsed(l, rest) := ParseLabel(ts).value;
      var st' := Place(st, l).value;
      LabelKeepsPattern(ts);
      EmptyBlocksFrom(rest, st');
    } else if ts[0].Dot? {
      EmptyBlocksFrom(ts[1..], st.(dots := st.dots + 1));
    } else {
      var st' := CloseWord(st);
      CloseWordBlocks(st);
      SeparatorShowsPattern(ts, st');
      EmptyBlocksFrom(SkipWhite(ts[1..]), st');
    }
  }

  /** An accepted filter has no empty word, and it has an empty block exactly when in the tokens a separator is
      followed by a dot and a label. */
  lemma AcceptedBlocks(tokens: seq<Token>)
    requires Parse(tokens).Some?
    ensures [] !in Parse(tokens).value
    ensures HasEmptyBlock(Parse(tokens).value) <==> DotAfterSeparator(tokens + [EndLine])
  {
    EmptyBlocksFrom(tokens + [EndLine], START);
  }

  // ----- printing, and the round trip -----

  /** A label that a filter can spell. */
  predicate Spellable(l: Label) {
    match l.varName
    case None => IsIdentifier(l.name)
    case Some(v) => IsIdentifier(v)
  }

  predicate SpellableBlock(block: seq<Label>) {
    block != [] && forall i | 0 <= i < |block| :: Spellable(block[i])
  }

  predicate SpellableWord(word: seq<Block>) {
    word != [] && forall i | 0 <= i < |word| :: SpellableBlock(word[i])
  }

  predicate SpellableFilter(f: Filter) {
    forall i | 0 <= i < |f| :: SpellableWord(f[i])
  }

  function PrintLabel(l: Label): (ts: seq<Token>)
    requires Spellable(l)
    ensures ts != [] && StartsLabel(ts[0])
  {
    match l.varName
    case None => [Ident(l.name)]
    case Some(v) =>
      [LeftParen, Ident(v), Equals, if IsIdentifier(l.name) then Ident(l.name) else Str(l.name), RightParen]
  }

  function PrintBlock(block: seq<Label>): seq<Token>
    requires SpellableBlock(block)
  {
    if |block| == 1 then PrintLabel(block[0]) else PrintLabel(block[0]) + [Dot] + PrintBlock(block[1..])
  }

  function PrintWord(word: seq<Block>): seq<Token>
    requires SpellableWord(word)
  {
    if |word| == 1 then PrintBlock(word[0]) else PrintBlock(word[0]) + [Dot, Dot] + PrintWord(word[1..])
  }

  function PrintFilter(f: Filter): seq<Token>
    requires SpellableFilter(f)
  {
    if f == [] then []
    else if |f| == 1 then PrintWord(f[0])
    else PrintWord(f[0]) + [Comma] + PrintFilter(f[1..])
  }

  lemma LabelRoundTrip(l: Label, rest: seq<Token>)
    requires Spellable(l)
    ensures ParseLabel(PrintLabel(l) + rest) == Some(Parsed(l, rest))
  {
    var ts := PrintLabel(l) + rest;
    if l.varName.Some? {
      assert ts[1..][1..][1..][1..][1..] == rest;
    } else {
      assert ts[1..] == rest;
    }
  }

  lemma ParseLabelStep(l: Label, rest: seq<Token>, st: State)
    requires Spellable(l) && Place(st, l).Some?
    ensures ParseFrom(PrintLabel(l) + rest, st) == ParseFrom(rest, Place(st, l).value)
  {
    LabelRoundTrip(l, rest);
  }

  lemma ParseDot(rest: seq<Token>, st: State)
    ensures ParseFrom([Dot] + rest, st) == ParseFrom(rest, st.(dots := st.dots + 1))
  {
    assert ([Dot] + rest)[1..] == rest;
  }

  lemma ParseLabelDot(l: Label, more: seq<Token>, st: State)
    requires Spellable(l) && Place(st, l).Some?
    ensures ParseFrom(PrintLabel(l) + ([Dot] + more), st) == ParseFrom(more, Place(st, l).value.(dots := 1))
  {
    ParseLabelStep(l, [Dot] + more, st);
    ParseDot(more, Place(st, l).value);
  }

  function Collected(st: State, block: seq<Label>): State {
    st.(conFilter := st.conFilter + block, dots := 0)
  }

  /** The labels of a printed block are collected one by one. */
  lemma {:induction false} ParseMore(block: seq<Label>, rest: seq<Token>, st: State)
    requires SpellableBlock(block) && st.dots == 1
    ensures ParseFrom(PrintBlock(block) + rest, st) == ParseFrom(rest, Collected(st, block))
    decreases |block|
  {
    var st' := Collected(st, [block[0]]);
    HeadAndTail(st.conFilter, block);
    if |block| == 1 {
      ParseLabelStep(block[0], rest, st);
    } else {
      var tail := block[1..];
      AppendAssoc(PrintLabel(block[0]), [Dot], PrintBlock(tail), rest);
      ParseLabelDot(block[0], PrintBlock(tail) + rest, st);
      ParseMore(tail, rest, st'.(dots := 1));
    }
  }

  /** After `..` a printed block starts afresh, and the block before it is put away. */
  lemma ParseNext(block: seq<Label>, rest: seq<Token>, st: State)
    requires SpellableBlock(block) && st.dots == 2
    ensures ParseFrom(PrintBlock(block) + rest, st)
         == ParseFrom(rest, State(st.orFilters, st.andFilter + [st.conFilter], block, 0))
  {
    var st' := Place(st, block[0]).value;
    HeadAndTail([], block);
    if |block| == 1 {
      ParseLabelStep(block[0], rest, st);
    } else {
      var tail := block[1..];
      AppendAssoc(PrintLabel(block[0]), [Dot], PrintBlock(tail), rest);
      ParseLabelDot(block[0], PrintBlock(tail) + rest, st);
      ParseMore(tail, rest, st'.(dots := 1));
    }
  }

  lemma ParseTwoDots(more: seq<Token>, st: State)
    requires st.dots == 0
    ensures ParseFrom([Dot, Dot] + more, st) == ParseFrom(more, st.(dots := 2))
  {
    assert [Dot, Dot] + more == [Dot] + ([Dot] + more);
    ParseDot([Dot] + more, st);
    ParseDot(more, st.(dots := 1));
  }

  /** `blocks` are the blocks of the word so far, the last of them still open. */
  function Open(orFilters: RawFilter, blocks: seq<seq<Label>>): State
    requires blocks != []
  {
    State(orFilters, blocks[..|blocks| - 1], blocks[|blocks| - 1], 0)
  }

  lemma OpenNext(orFilters: RawFilter, blocks: seq<seq<Label>>, block: seq<Label>)
    requires blocks != []
    ensures var st := Open(orFilters, blocks);
            Open(orFilters, blocks + [block]) == State(orFilters, st.andFilter + [st.conFilter], block, 0)
  {
    assert (blocks + [block])[..|blocks|] == blocks == blocks[..|blocks| - 1] + [blocks[|blocks| - 1]];
  }

  lemma {:induction false} ParseBlocks(word: seq<Block>, rest: seq<Token>, orFilters: RawFilter,
                                       blocks: seq<seq<Label>>)
    requires SpellableWord(word) && blocks != []
    ensures ParseFrom(PrintWord(word) + rest, Open(orFilters, blocks).(dots := 2))
         == ParseFrom(rest, Open(orFilters, blocks + word))
    decreases |word|
  {
    var block: seq<Label> := word[0];
    var st := Open(orFilters, blocks).(dots := 2);
    OpenNext(orFilters, blocks, block);
    HeadAndTail<seq<Label>>(blocks, word);
    if |word| == 1 {
      ParseNext(block, rest, st);
    } else {
      var tail := word[1..];
      var more := PrintWord(tail) + rest;
      AppendAssoc(PrintBlock(block), [Dot, Dot], PrintWord(tail), rest);
      ParseNext(block, [Dot, Dot] + more, st);
      ParseTwoDots(more, Open(orFilters, blocks + [block]));
      ParseBlocks(tail, rest, orFilters, blocks + [block]);
    }
  }

  /** A printed word is collected in full, its last block still open. */
  lemma ParseWord(word: seq<Block>, rest: seq<Token>, orFilters: RawFilter)
    requires SpellableWord(word)
    ensures ParseFrom(PrintWord(word) + rest, State(orFilters, [], [], 1)) == ParseFrom(rest, Open(orFilters, word))
  {
    var block: seq<Label> := word[0];
    var st := State(orFilters, [], [], 1);
    assert [] + block == block;
    HeadAndTail<seq<Label>>([], word);
    if |word| == 1 {
      ParseMore(block, rest, st);
    } else {
      var tail := word[1..];
      var more := PrintWord(tail) + rest;
      AppendAssoc(PrintBlock(block), [Dot, Dot], PrintWord(tail), rest);
      ParseMore(block, [Dot, Dot] + more, st);
      ParseTwoDots(more, Open(orFilters, [block]));
      ParseBlocks(tail, rest, orFilters, [block]);
    }
  }

  lemma WordCloses(orFilters: RawFilter, word: seq<Block>)
    requires word != []
    ensures CloseWord(Open(orFilters, word)) == State(orFilters + [word], [], [], 1)
  {
    assert word[..|word| - 1] + [word[|word| - 1]] == word;
  }

  lemma PrintStartsLabel(f: Filter, rest: seq<Token>)
    requires SpellableFilter(f) && f != []
    ensures PrintFilter(f) != [] && StartsLabel(PrintFilter(f)[0])
    ensures SkipWhite(PrintFilter(f) + rest) == PrintFilter(f) + rest
  {
    PrintWordStartsLabel(f[0]);
  }

  lemma PrintWordStartsLabel(word: seq<Block>)
    requires SpellableWord(word)
    ensures PrintWord(word) != [] && StartsLabel(PrintWord(word)[0])
  {
    var block := word[0];
    assert PrintBlock(block) != [] && StartsLabel(PrintBlock(block)[0]);
  }

  lemma {:induction false} ParsePrinted(f: Filter, orFilters: RawFilter)
    requires SpellableFilter(f)
    ensures ParseFrom(PrintFilter(f) + [EndLine], State(orFilters, [], [], 1)) == Some(orFilters + f)
    decreases |f|
  {
    if f == [] {
      assert orFilters + f == orFilters;
    } else {
      var word := f[0];
      WordCloses(orFilters, word);
      HeadAndTail<seq<seq<Label>>>(orFilters, f);
      if |f| == 1 {
        ParseWord(word, [EndLine], orFilters);
      } else {
        var tail := f[1..];
        var more := PrintFilter(tail) + [EndLine];
        AppendAssoc(PrintWord(word), [Comma], PrintFilter(tail), [EndLine]);
        ParseWord(word, [Comma] + more, orFilters);
        ParseComma(tail, Open(orFilters, word));
        ParsePrinted(tail, orFilters + [word]);
      }
    }
  }

  lemma ParseComma(f: Filter, st: State)
    requires SpellableFilter(f) && f != [] && st.dots == 0
    ensures var more := PrintFilter(f) + [EndLine];
            ParseFrom([Comma] + more, st) == ParseFrom(more, CloseWord(st))
  {
    PrintStartsLabel(f, [EndLine]);
    assert ([Comma] + (PrintFilter(f) + [EndLine]))[1..] == PrintFilter(f) + [EndLine];
  }

  /** Printing a filter and parsing the tokens gives the filter back. */
  lemma RoundTrip(f: Filter)
    requires SpellableFilter(f)
    ensures Parse(PrintFilter(f)) == Some(f)
  {
    if f != [] {
      PrintStartsLabel(f, []);
    }
    ParsePrinted(f, []);
    var none: RawFilter := [];
    assert none + f == f;
  }

  lemma ParseSeparators(more: seq<Token>, st: State)
    requires st.dots == 0 && more != [] && !more[0].White?
    ensures ParseFrom([Comma] + ([White] + more), st) == ParseFrom(more, CloseWord(st))
  {
    var white := [White] + more;
    assert white[1..] == more && SkipWhite(more) == more;
    assert ([Comma] + white)[1..] == white;
  }

  /** `a, .b` is accepted, with an empty block in its second word. */
  lemma EmptyBlockAccepted()
    ensures Parse([Ident("a"), Comma, White, Dot, Ident("b")]) == Some([[[BareLabel("a")]], [[], [BareLabel("b")]]])
  {
    var a, b := BareLabel("a"), BareLabel("b");
    var afterDot := PrintLabel(b) + [EndLine];
    var afterComma := [Dot] + afterDot;
    var afterLabel := [Comma] + ([White] + afterComma);
    var s1, s2 := State([], [], [a], 0), State([[[a]]], [], [], 1);
    assert [Ident("a"), Comma, White, Dot, Ident("b")] + [EndLine] == PrintLabel(a) + afterLabel;
    assert Place(START, a).value == s1 by { assert START.conFilter + [a] == [a]; }
    ParseLabelStep(a, afterLabel, START);
    assert CloseWord(s1) == s2 by { assert s1.andFilter + [[a]] == [[a]] && s1.orFilters + [[[a]]] == [[[a]]]; }
    ParseSeparators(afterComma, s1);
    ParseDot(afterDot, s2);
    ParseLabelStep(b, [EndLine], s2.(dots := 2));
    var s3 := State([[[a]]], [[]], [b], 0);
    assert Place(s2.(dots := 2), b).value == s3 by { assert s2.andFilter + [[]] == [[]]; }
    assert CloseWord(s3).orFilters == [[[a]], [[], [b]]] by { assert s3.andFilter + [[b]] == [[], [b]]; }
  }
}
