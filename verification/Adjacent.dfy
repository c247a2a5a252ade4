/** Matching a block of adjacent labels against a context (a list of labels). */
module Adjacent {
  import opened Options
  import opened Labels

  type Block = b: seq<Label> | b != [] witness [MakeLabel(None, "x")]

  predicate Among(ctx: seq<Label>, wanted: RawLabel) {
    exists i | 0 <= i < |ctx| :: Matches(ctx[i], wanted)
  }

  /** The first `k` labels of `block` match the context contiguously from position `start` on. */
  predicate PrefixAt(block: seq<Label>, k: nat, ctx: seq<Label>, start: nat) {
    k <= |block| && start + k <= |ctx| && forall j | 0 <= j < k :: Matches(ctx[start + j], block[j])
  }

  predicate PrefixOccurs(block: seq<Label>, k: nat, ctx: seq<Label>) {
    exists start: nat | start <= |ctx| :: PrefixAt(block, k, ctx, start)
  }

  predicate Occurs(block: seq<Label>, ctx: seq<Label>) {
    PrefixOccurs(block, |block|, ctx)
  }

  predicate PrefixEnds(block: seq<Label>, k: nat, ctx: seq<Label>) {
    k <= |ctx| && PrefixAt(block, k, ctx, |ctx| - k)
  }

  /** How many leading labels of the block occur somewhere in the context. */
  function Present(block: seq<Label>, ctx: seq<Label>): (p: nat)
    ensures p <= |block|
    ensures forall j | 0 <= j < p :: Among(ctx, block[j])
    ensures p < |block| ==> !Among(ctx, block[p])
  {
    if block == [] || !Among(ctx, block[0]) then 0 else 1 + Present(block[1..], ctx)
  }

  /** The longest prefix of the block, of length at most `k`, that ends the context. */
  function LongestEnd(block: seq<Label>, k: nat, ctx: seq<Label>): (r: nat)
    requires k <= |block|
    ensures r <= k && PrefixEnds(block, r, ctx)
    ensures forall p | r < p <= k :: !PrefixEnds(block, p, ctx)
  {
    if k == 0 || PrefixEnds(block, k, ctx) then k else LongestEnd(block, k - 1, ctx)
  }

  /** What the search below finds, said without a search. */
  function Matched(block: Block, ctx: seq<Label>): nat {
    var p := Present(block, ctx);
    if PrefixOccurs(block, p, ctx) && (p != 1 || |block| == 1) then p else LongestEnd(block, p, ctx)
  }

  method IndexOf(ctx: seq<Label>, wanted: Label) returns (i: nat)
    requires Among(ctx, wanted)
    ensures i < |ctx| && Matches(ctx[i], wanted)
    ensures forall j | 0 <= j < i :: !Matches(ctx[j], wanted)
  {
    i := 0;
    while !Matches(ctx[i], wanted)
      invariant i < |ctx|
      invariant forall j | 0 <= j < i :: !Matches(ctx[j], wanted)
      decreases |ctx| - i
    {
      i := i + 1;
    }
  }

  /** Among the first `p` labels of `block` one disagrees with the context when the block is laid at `start`. */
  ghost predicate Clash(block: seq<Label>, p: nat, ctx: seq<Label>, start: nat) {
    exists j | 0 <= j < p <= |block| && start + j < |ctx| :: !Matches(ctx[start + j], block[j])
  }

  /** The block clashes at every start below `n`. */
  ghost predicate ClashBelow(block: seq<Label>, p: nat, ctx: seq<Label>, n: nat) {
    forall s: nat | s < n :: Clash(block, p, ctx, s)
  }

  lemma ClashNext(block: seq<Label>, p: nat, ctx: seq<Label>, start: nat, j: nat)
    requires j < p <= |block| && start + j < |ctx| && !Matches(ctx[start + j], block[j])
    requires ClashBelow(block, p, ctx, start)
    ensures ClashBelow(block, p, ctx, start + 1)
  {
    assert Clash(block, p, ctx, start);
  }

  lemma PrefixGrows(block: seq<Label>, k: nat, ctx: seq<Label>, start: nat)
    requires PrefixAt(block, k, ctx, start)
    requires k < |block| && start + k < |ctx| && Matches(ctx[start + k], block[k])
    ensures PrefixAt(block, k + 1, ctx, start)
  {
  }

  /** At the end of the context: the start tried last is the only one left. */
  lemma ScanEnds(block: Block, p: nat, ctx: seq<Label>, k: nat, start: nat)
    requires k < p <= |block| && start + k == |ctx|
    requires ClashBelow(block, p, ctx, start) && PrefixAt(block, k, ctx, start)
    ensures !PrefixOccurs(block, p, ctx)
    ensures LongestEnd(block, p, ctx) == k
  {
    assert PrefixEnds(block, k, ctx);
    forall s: nat | s <= |ctx| ensures !PrefixAt(block, p, ctx, s) {
      assert s < start ==> Clash(block, p, ctx, s);
    }
    forall r: nat | k < r <= p && r <= |ctx| ensures !PrefixEnds(block, r, ctx) {
      assert Clash(block, p, ctx, |ctx| - r);
    }
  }

  /** The scan of the context: `i` is the position, `k` the labels matched so far, `i - k` the start tried. */
  method Scan(block: Block, ctx: seq<Label>, ctxSet: set<Label>, first: nat, ghost p: nat) returns (k: nat)
    requires 2 <= p <= |block|
    requires forall j | 0 <= j < |block| && j <= p :: Lookup(ctxSet, block[j]) <==> j < p
    requires first <= |ctx| && ClashBelow(block, p, ctx, first)
    ensures k == if PrefixOccurs(block, p, ctx) then p else LongestEnd(block, p, ctx)
  {
    k := 0;
    var i := first;
    ghost var start := first;
    while i < |ctx|
      invariant i <= |ctx| && k < p && start + k == i
      invariant PrefixAt(block, k, ctx, start)
      invariant ClashBelow(block, p, ctx, start)
      decreases |ctx| - start, |ctx| - i
    {
      if k > 0 && !Matches(ctx[i], block[k]) {
        ClashNext(block, p, ctx, start, k);
        i := i - (k - 1);
        k := 0;
        start := i;
      }
      if Matches(ctx[i], block[k]) {
        PrefixGrows(block, k, ctx, start);
        k := k + 1;
        if k >= |block| {
          break;
        }
        if !Lookup(ctxSet, block[k]) {
          break;
        }
      } else {
        ClashNext(block, p, ctx, start, 0);
        start := start + 1;
      }
      i := i + 1;
    }
    if k < p {
      ScanEnds(block, p, ctx, k, start);
    }
  }

  method MatchAdjacent(block: Block, ctx: seq<Label>, ctxSet: set<Label>) returns (k: nat)
    requires Indexes(ctxSet, Elements(ctx))
    ensures k == Matched(block, ctx)
  {
    LookupIsAmong(ctxSet, ctx);
    if !Lookup(ctxSet, block[0]) {
      assert PrefixAt(block, 0, ctx, 0);
      return 0;
    }
    if |block| == 1 {
      var i := IndexOf(ctx, block[0]);
      assert PrefixAt(block, 1, ctx, i);
      return 1;
    }
    if !Lookup(ctxSet, block[1]) {
      assert PrefixEnds(block, 1, ctx) <==> Matches(ctx[|ctx| - 1], block[0]);
      return if Matches(ctx[|ctx| - 1], block[0]) then 1 else 0;
    }
    ghost var p := Present(block, ctx);
    var i := IndexOf(ctx, block[0]);
    forall s: nat | s < i ensures Clash(block, p, ctx, s) {
      assert !Matches(ctx[s + 0], block[0]);
    }
    k := Scan(block, ctx, ctxSet, i, p);
  }

  lemma LookupIsAmong(ctxSet: set<Label>, ctx: seq<Label>)
    requires Indexes(ctxSet, Elements(ctx))
    ensures forall wanted: Label :: Lookup(ctxSet, wanted) <==> Among(ctx, wanted)
  {
    forall wanted: Label ensures AnyMatches(Elements(ctx), wanted) <==> Among(ctx, wanted) {
      if AnyMatches(Elements(ctx), wanted) {
        var l :| l in Elements(ctx) && Matches(l, wanted);
        var i :| 0 <= i < |ctx| && ctx[i] == l;
      }
    }
  }

  /** The search reports the whole block exactly when the block occurs contiguously. */
  lemma MatchedAllIffOccurs(block: Block, ctx: seq<Label>)
    ensures Matched(block, ctx) <= |block|
    ensures Matched(block, ctx) == |block| <==> Occurs(block, ctx)
  {
    var p := Present(block, ctx);
    if start: nat :| start <= |ctx| && PrefixAt(block, |block|, ctx, start) {
      forall j | 0 <= j < |block| ensures Among(ctx, block[j]) { assert Matches(ctx[start + j], block[j]); }
    }
    assert Matched(block, ctx) == |block| ==> p == |block|;
  }

  /** No prefix of the block that ends the context is longer than what the search reports. */
  lemma MatchedBoundsEnds(block: Block, ctx: seq<Label>, k: nat)
    requires PrefixEnds(block, k, ctx)
    ensures k <= Matched(block, ctx)
  {
    forall j | 0 <= j < k ensures Among(ctx, block[j]) {
      assert Matches(ctx[|ctx| - k + j], block[j]);
    }
    assert k <= Present(block, ctx);
  }

  /** When every label of the block occurs but the block does not, the result is the longest such prefix. */
  lemma MatchedIsLongestEnd(block: Block, ctx: seq<Label>)
    requires forall j | 0 <= j < |block| :: Among(ctx, block[j])
    requires !Occurs(block, ctx)
    ensures PrefixEnds(block, Matched(block, ctx), ctx)
    ensures forall k | Matched(block, ctx) < k <= |block| :: !PrefixEnds(block, k, ctx)
  {
    assert Present(block, ctx) == |block|;
  }
}
