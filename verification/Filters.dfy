/** Filters: an OR of words, a word an AND of blocks, a block a list of adjacent labels. */
module Filters {
  import opened Labels
  import opened Adjacent

  type Filter = seq<seq<Block>>

  predicate Match(f: Filter, ctx: seq<Label>) {
    exists word | word in f :: forall block | block in word :: Matched(block, ctx) == |block|
  }

  /** The labels the search did not find might still come from the subtree. */
  predicate MightMatchBlock(block: Block, ctx: seq<Label>, labels: set<Label>) {
    forall j | Matched(block, ctx) <= j < |block| :: Lookup(labels, block[j])
  }

  predicate MightMatch(f: Filter, ctx: seq<Label>, labels: set<Label>) {
    exists word | word in f :: forall block | block in word :: MightMatchBlock(block, ctx, labels)
  }

  /** Some block got further in `ctx` than in `other`. */
  predicate Advances(f: Filter, ctx: seq<Label>, other: seq<Label>) {
    exists word | word in f :: exists block | block in word :: Matched(block, ctx) > Matched(block, other)
  }

  predicate OnlyMightPass(f: Filter, failedCtx: seq<Label>, ctx: seq<Label>, labels: set<Label>) {
    Advances(f, ctx, failedCtx) && MightMatch(f, ctx, labels)
  }

  predicate NoMightPass(f: Filter, failedCtx: seq<Label>, ctx: seq<Label>) {
    Advances(f, failedCtx, ctx) && !Match(f, ctx)
  }

  /** Every label of `ext` is known to the label set: what the labels on a path below a node satisfy. */
  ghost predicate Covered(ext: seq<Label>, labels: set<Label>) {
    forall l, wanted: Label :: l in ext && Matches(l, wanted) ==> Lookup(labels, wanted)
  }

  /** The filter matches, said by occurrences of its blocks. */
  predicate Satisfied(f: Filter, ctx: seq<Label>) {
    exists word | word in f :: forall block | block in word :: Occurs(block, ctx)
  }

  lemma MatchIsSatisfied(f: Filter, ctx: seq<Label>)
    ensures Match(f, ctx) <==> Satisfied(f, ctx)
  {
    forall block: Block ensures Matched(block, ctx) == |block| <==> Occurs(block, ctx) {
      MatchedAllIffOccurs(block, ctx);
    }
  }

  lemma OccursGrows(block: seq<Label>, ctx: seq<Label>, ext: seq<Label>)
    requires Occurs(block, ctx)
    ensures Occurs(block, ctx + ext)
  {
    var start: nat :| start <= |ctx| && PrefixAt(block, |block|, ctx, start);
    assert PrefixAt(block, |block|, ctx + ext, start);
  }

  /** A match survives every extension of the context. */
  lemma MatchGrows(f: Filter, ctx: seq<Label>, ext: seq<Label>)
    requires Match(f, ctx)
    ensures Match(f, ctx + ext)
  {
    MatchIsSatisfied(f, ctx);
    MatchIsSatisfied(f, ctx + ext);
    var word :| word in f && forall block | block in word :: Occurs(block, ctx);
    forall block | block in word ensures Occurs(block, ctx + ext) {
      OccursGrows(block, ctx, ext);
    }
  }

  lemma MightMatchBlockSound(block: Block, ctx: seq<Label>, ext: seq<Label>, labels: set<Label>)
    requires Covered(ext, labels) && Occurs(block, ctx + ext)
    ensures MightMatchBlock(block, ctx, labels)
  {
    var start: nat :| start <= |ctx + ext| && PrefixAt(block, |block|, ctx + ext, start);
    if start + |block| <= |ctx| {
      assert PrefixAt(block, |block|, ctx, start);
      MatchedAllIffOccurs(block, ctx);
    } else {
      // the first `k` labels of the block end the context, the others lie in the extension
      var k := if start < |ctx| then |ctx| - start else 0;
      assert PrefixEnds(block, k, ctx);
      MatchedBoundsEnds(block, ctx, k);
      forall j | Matched(block, ctx) <= j < |block| ensures Lookup(labels, block[j]) {
        assert (ctx + ext)[start + j] == ext[start + j - |ctx|];
      }
    }
  }

  /** Pruning is sound: a filter that some extension by labels of the subtree matches might match. */
  lemma MightMatchSound(f: Filter, ctx: seq<Label>, ext: seq<Label>, labels: set<Label>)
    requires Covered(ext, labels) && Match(f, ctx + ext)
    ensures MightMatch(f, ctx, labels)
  {
    MatchIsSatisfied(f, ctx + ext);
    var word :| word in f && forall block | block in word :: Occurs(block, ctx + ext);
    forall block | block in word ensures MightMatchBlock(block, ctx, labels) {
      MightMatchBlockSound(block, ctx, ext, labels);
    }
  }

  /** `outer` finds every label that `labels` finds. */
  ghost predicate FindsAll(outer: set<Label>, labels: set<Label>) {
    forall wanted: Label :: Lookup(labels, wanted) ==> Lookup(outer, wanted)
  }

  /** The prefix found runs from the context into the name: the search in the context got to where it ends. */
  lemma FoundAcross(block: Block, ctx: seq<Label>, name: seq<Label>, start: nat, m: nat)
    requires PrefixAt(block, m, ctx + name, start) && start <= |ctx| < start + m
    ensures |ctx| - start <= Matched(block, ctx)
  {
    var k := |ctx| - start;
    forall i | 0 <= i < k ensures Matches(ctx[start + i], block[i]) {
      assert Matches((ctx + name)[start + i], block[i]);
    }
    assert PrefixEnds(block, k, ctx);
    MatchedBoundsEnds(block, ctx, k);
  }

  lemma PresentGrows(block: Block, ctx: seq<Label>, name: seq<Label>)
    ensures Present(block, ctx) <= Present(block, ctx + name)
  {
    var p := Present(block, ctx);
    forall j | 0 <= j < p ensures Among(ctx + name, block[j]) {
      var i :| 0 <= i < |ctx| && Matches(ctx[i], block[j]);
      assert (ctx + name)[i] == ctx[i];
    }
  }

  /** `m` labels of the block are found at `start`: they end the context, or they are all that is present. */
  predicate FoundAt(block: Block, m: nat, ctx: seq<Label>, start: nat) {
    && PrefixAt(block, m, ctx, start)
    && (start + m == |ctx| || (m == Present(block, ctx) && (m != 1 || |block| == 1)))
  }

  lemma FoundAtEnd(block: Block, p: nat, ctx: seq<Label>)
    requires p <= |block|
    ensures var m := LongestEnd(block, p, ctx); m <= |ctx| && FoundAt(block, m, ctx, |ctx| - m)
  {
  }

  lemma FoundSomewhere(block: Block, ctx: seq<Label>) returns (start: nat)
    requires var p := Present(block, ctx); PrefixOccurs(block, p, ctx) && (p != 1 || |block| == 1)
    ensures FoundAt(block, Present(block, ctx), ctx, start)
  {
    start :| start <= |ctx| && PrefixAt(block, Present(block, ctx), ctx, start);
  }

  /** What the search reports lies somewhere. */
  lemma WhereFound(block: Block, ctx: seq<Label>) returns (start: nat)
    ensures FoundAt(block, Matched(block, ctx), ctx, start)
  {
    var p := Present(block, ctx);
    if PrefixOccurs(block, p, ctx) && (p != 1 || |block| == 1) {
      start := FoundSomewhere(block, ctx);
    } else {
      FoundAtEnd(block, p, ctx);
      start := |ctx| - LongestEnd(block, p, ctx);
    }
  }

  lemma FoundAll(block: Block, ctx: seq<Label>, start: nat)
    requires var p := Present(block, ctx); PrefixAt(block, p, ctx, start) && (p != 1 || |block| == 1)
    ensures Matched(block, ctx) == Present(block, ctx)
  {
    assert start <= |ctx|;
    assert PrefixOccurs(block, Present(block, ctx), ctx);
  }

  lemma PrefixShortens(block: Block, m: nat, ctx: seq<Label>, name: seq<Label>, start: nat)
    requires PrefixAt(block, m, ctx + name, start) && start + m <= |ctx|
    ensures PrefixAt(block, m, ctx, start) && m <= Present(block, ctx)
  {
    forall i | 0 <= i < m ensures Matches(ctx[start + i], block[i]) {
      assert Matches((ctx + name)[start + i], block[i]);
    }
    assert forall i | 0 <= i < m :: Among(ctx, block[i]);
  }

  /** The prefix found lies in the context: the search found as much there. */
  lemma FoundWithin(block: Block, ctx: seq<Label>, name: seq<Label>, start: nat)
    requires var m := Matched(block, ctx + name);
      && start + m <= |ctx| && PrefixAt(block, m, ctx + name, start)
      && (start + m == |ctx + name| || (m == Present(block, ctx + name) && (m != 1 || |block| == 1)))
    ensures Matched(block, ctx) == Matched(block, ctx + name)
  {
    var m := Matched(block, ctx + name);
    if start + m == |ctx + name| {
      assert ctx + name == ctx;
    } else {
      PrefixShortens(block, m, ctx, name, start);
      PresentGrows(block, ctx, name);
      FoundAll(block, ctx, start);
    }
  }

  /** A label that the search had not found is known to the outer set, if the inner one knows what is missing. */
  lemma MissingIsKnown(block: Block, ctx: seq<Label>, name: seq<Label>, outer: set<Label>, labels: set<Label>, j: nat)
    requires Covered(name, outer) && FindsAll(outer, labels) && MightMatchBlock(block, ctx + name, labels)
    requires Matched(block, ctx) <= j < |block|
    ensures Lookup(outer, block[j])
  {
    var m := Matched(block, ctx + name);
    if j < m {
      var start := WhereFound(block, ctx + name);
      FoundBeyond(block, ctx, name, start, j);
      assert name[start + j - |ctx|] in name;
    }
  }

  lemma FoundBeyond(block: Block, ctx: seq<Label>, name: seq<Label>, start: nat, j: nat)
    requires var m := Matched(block, ctx + name);
      && PrefixAt(block, m, ctx + name, start)
      && (start + m == |ctx + name| || (m == Present(block, ctx + name) && (m != 1 || |block| == 1)))
    requires Matched(block, ctx) <= j < Matched(block, ctx + name)
    ensures |ctx| <= start + j < |ctx + name| && Matches(name[start + j - |ctx|], block[j])
  {
    var m := Matched(block, ctx + name);
    if start + m <= |ctx| {
      FoundWithin(block, ctx, name, start);
    } else if start <= |ctx| {
      FoundAcross(block, ctx, name, start, m);
    }
    assert Matches((ctx + name)[start + j], block[j]);
  }

  /** Pruning works: a block with a label that is neither in the context nor known below is ruled out. */
  lemma UnknownRulesOut(block: Block, j: nat, ctx: seq<Label>, labels: set<Label>)
    requires j < |block| && !Among(ctx, block[j]) && !Lookup(labels, block[j])
    ensures !MightMatchBlock(block, ctx, labels)
  {
    var m := Matched(block, ctx);
    assert m <= Present(block, ctx) <= j;
  }

  /** A filter is ruled out when each of its words has such a label. */
  lemma UnknownWordsRuleOut(f: Filter, ctx: seq<Label>, labels: set<Label>)
    requires forall word | word in f :: exists block, j | block in word && 0 <= j < |block| ::
               !Among(ctx, block[j]) && !Lookup(labels, block[j])
    ensures !MightMatch(f, ctx, labels)
  {
    forall word | word in f ensures exists block | block in word :: !MightMatchBlock(block, ctx, labels) {
      var block, j :| block in word && 0 <= j < |block| && !Among(ctx, block[j]) && !Lookup(labels, block[j]);
      UnknownRulesOut(block, j, ctx, labels);
    }
  }

  /** Decisions are never taken back: a filter ruled out at a node is ruled out at every node below. */
  lemma MightMatchShrinks(f: Filter, ctx: seq<Label>, name: seq<Label>, outer: set<Label>, labels: set<Label>)
    requires Covered(name, outer) && FindsAll(outer, labels) && MightMatch(f, ctx + name, labels)
    ensures MightMatch(f, ctx, outer)
  {
    var word :| word in f && forall block | block in word :: MightMatchBlock(block, ctx + name, labels);
    forall block | block in word ensures MightMatchBlock(block, ctx, outer) {
      forall j | Matched(block, ctx) <= j < |block| ensures Lookup(outer, block[j]) {
        MissingIsKnown(block, ctx, name, outer, labels, j);
      }
    }
  }

  /** Pruning is exact at a leaf, where there is nothing below. */
  lemma MightMatchAtLeaf(f: Filter, ctx: seq<Label>)
    ensures MightMatch(f, ctx, {}) <==> Match(f, ctx)
  {
    forall block: Block ensures MightMatchBlock(block, ctx, {}) <==> Matched(block, ctx) == |block| {
      MatchedAllIffOccurs(block, ctx);
      var m := Matched(block, ctx);
      if m < |block| {
        assert !Lookup({}, block[m]);
      }
    }
  }

  /** An `only` filter that failed at a node still fails there unless some block got further. */
  lemma OnlyStillFails(f: Filter, failedCtx: seq<Label>, ctx: seq<Label>, labels: set<Label>)
    requires !MightMatch(f, failedCtx, labels)
    requires !OnlyMightPass(f, failedCtx, ctx, labels)
    ensures !MightMatch(f, ctx, labels)
  {
    if !Advances(f, ctx, failedCtx) {
      forall word | word in f ensures exists block | block in word :: !MightMatchBlock(block, ctx, labels) {
        var block :| block in word && !MightMatchBlock(block, failedCtx, labels);
        assert Matched(block, ctx) <= Matched(block, failedCtx);
      }
    }
  }

  /** A `no` filter that failed at a node still fails there unless some block fell back. */
  lemma NoStillFails(f: Filter, failedCtx: seq<Label>, ctx: seq<Label>)
    requires Match(f, failedCtx)
    requires !NoMightPass(f, failedCtx, ctx)
    ensures Match(f, ctx)
  {
    if !Advances(f, failedCtx, ctx) {
      var word :| word in f && forall block | block in word :: Matched(block, failedCtx) == |block|;
      forall block | block in word ensures Matched(block, ctx) == |block| {
        MatchedAllIffOccurs(block, ctx);
        assert Matched(block, failedCtx) <= Matched(block, ctx);
      }
    }
  }
}
