/** Two graphs on which the cache of failures goes wrong, run from beginning to end: entries that are not clear. */
module Witnesses {
  import opened Options
  import opened Labels
  import opened Adjacent
  import opened Filters
  import opened Content
  import opened Graph
  import opened Expansion
  import opened Meaning

  // ----- a node that is reached in two ways -----

  /** Two variants above a block of one variant, `below`, which is visited once under each of them. */
  datatype Ways = Ways(root: Node, first: Node, second: Node, between: Node, below: Node, leaf: Node)

  ghost predicate TwoWays(g: Ways) {
    && WellFormed(g.root) && g.root.name == [] && g.root.children == [g.first, g.second]
    && !g.first.isDefault && !g.second.isDefault
    && g.first.children == [g.between] && g.second.children == [g.between]
    && g.between.name == [] && g.between.content == [] && g.between.children == [g.below]
    && g.below.children == [g.leaf] && g.leaf.name == [] && g.leaf.content == [] && g.leaf.children == []
  }

  ghost function Nodes(g: Ways): set<Node> {
    {g.root, g.first, g.second, g.between, g.below, g.leaf}
  }

  method Build(onRoot: seq<Entry>, first: Label, onFirst: seq<Entry>, second: Label, onSecond: seq<Entry>,
               below: Label, onBelow: seq<Entry>) returns (g: Ways)
    ensures TwoWays(g) && fresh(Nodes(g)) && forall m | m in Nodes(g) :: m.failedCases == []
    ensures g.root.content == onRoot && g.first.content == onFirst && g.second.content == onSecond
    ensures g.below.content == onBelow
    ensures g.first.name == [first] && g.second.name == [second] && g.below.name == [below]
  {
    var n0 := new Node.Start([]);
    var n1 := new Node.Variant(None, [below], onBelow, false, n0);
    var n2 := new Node.Variants(None, [], [], false, [n1]);
    var n3 := new Node.Variant(None, [first], onFirst, false, n2);
    var n4 := new Node.Variant(None, [second], onSecond, false, n2);
    var n5 := new Node.Variants(None, [], onRoot, false, [n3, n4]);
    g := Ways(n5, n3, n4, n2, n1, n0);
  }

  lemma WaysAreWellFormed(g: Ways)
    requires TwoWays(g)
    ensures WellFormed(g.first) && WellFormed(g.second) && WellFormed(g.between)
    ensures WellFormed(g.below) && WellFormed(g.leaf)
  {
    assert g.root.children[0] == g.first && g.root.children[1] == g.second;
    assert g.first.children[0] == g.between && g.between.children[0] == g.below && g.below.children[0] == g.leaf;
  }

  lemma ReachOfOne(n: Node, c: Node)
    requires Ranked(n) && n.children == [c]
    ensures Ranked(c) && Reach(n) == {n} + Reach(c)
  {
    assert n.children[0] == c;
  }

  lemma ReachOfWays(g: Ways)
    requires TwoWays(g)
    ensures Reach(g.root) == Nodes(g)
  {
    WaysAreWellFormed(g);
    ReachOfOne(g.first, g.between);
    ReachOfOne(g.second, g.between);
    ReachOfOne(g.between, g.below);
    ReachOfOne(g.below, g.leaf);
    assert Reach(g.leaf) == {g.leaf};
    forall m: Node ensures m in Reach(g.root) <==> m == g.root || m in Reach(g.first) || m in Reach(g.second) {
      assert g.root.children[0] == g.first && g.root.children[1] == g.second;
    }
  }

  /** A node with one child and nothing recorded hands down what it keeps. */
  lemma OnlyChild(s: Settings, n: Node, c: Node, inherited: seq<Label>, content: seq<Entry>, kept: seq<Entry>,
                  caches: Caches)
    requires WellFormed(n) && n.children == [c] && Reach(n) <= caches.Keys && caches[n] == []
    requires Entered(n, inherited + n.name, content, []).kept == Some(kept)
    ensures WellFormed(c) && Reach(c) <= caches.Keys
    ensures Traverse(s, n, inherited, content, caches) == Traverse(s, c, inherited + n.name, kept, caches)
  {
    ReachOfChild(n, 0);
    assert n.children[0] == c;
    var ctx := inherited + n.name;
    var e := Entered(n, ctx, content, []);
    assert caches[n := e.cases] == caches;
    var t := Traverse(s, c, ctx, kept, caches);
    var last := TraverseFrom(s, n, 1, ctx, kept, t.caches, t.leaves != []);
    assert last == Traversed([], t.caches) && t.leaves + [] == t.leaves;
  }

  /** What reaches `below` under one of the two variants, when nothing is recorded above it. */
  ghost predicate HandsDown(g: Ways, p: Node, kept: seq<Entry>) {
    exists atRoot, atVariant ::
      && Entered(g.root, [], [], []).kept == Some(atRoot)
      && Entered(p, p.name, atRoot, []).kept == Some(atVariant)
      && Entered(g.between, p.name, atVariant, []).kept == Some(kept)
  }

  lemma OneWay(s: Settings, g: Ways, p: Node, kept: seq<Entry>, atRoot: seq<Entry>, caches: Caches)
    requires TwoWays(g) && p.children == [g.between] && WellFormed(p) && HandsDown(g, p, kept)
    requires Entered(g.root, [], [], []).kept == Some(atRoot)
    requires Reach(p) <= caches.Keys && caches[p] == []
    requires g.between in caches && caches[g.between] == []
    ensures WellFormed(g.below) && Reach(g.below) <= caches.Keys
    ensures Traverse(s, p, [], atRoot, caches) == Traverse(s, g.below, p.name, kept, caches)
  {
    var atRoot', atVariant :| && Entered(g.root, [], [], []).kept == Some(atRoot')
      && Entered(p, p.name, atRoot', []).kept == Some(atVariant)
      && Entered(g.between, p.name, atVariant, []).kept == Some(kept);
    assert [] + p.name == p.name && p.name + [] == p.name;
    OnlyChild(s, p, g.between, [], atRoot, atVariant, caches);
    OnlyChild(s, g.between, g.below, p.name, atVariant, kept, caches);
  }

  lemma WaysDiffer(g: Ways)
    requires TwoWays(g)
    ensures g.below !in {g.first, g.second, g.between}
  {
    WaysAreWellFormed(g);
    assert g.first.children[0] == g.between && g.second.children[0] == g.between && g.between.children[0] == g.below;
    assert g.first.height > g.between.height > g.below.height && g.second.height > g.between.height;
  }

  lemma FirstVisit(s: Settings, g: Ways, kept: seq<Entry>, atRoot: seq<Entry>, c: Case, caches: Caches)
    requires TwoWays(g) && HandsDown(g, g.first, kept) && Entered(g.root, [], [], []).kept == Some(atRoot)
    requires caches == NoFailures(Nodes(g))
    requires Entered(g.below, g.first.name + g.below.name, kept, []) == Entrance(None, [c])
    ensures WellFormed(g.first) && Reach(g.first) <= caches.Keys
    ensures Traverse(s, g.first, [], atRoot, caches) == Traversed([], caches[g.below := [c]])
  {
    WaysAreWellFormed(g);
    ReachOfWays(g);
    ReachOfChild(g.root, 0);
    assert g.root.children[0] == g.first;
    OneWay(s, g, g.first, kept, atRoot, caches);
  }

  lemma SecondVisit(s: Settings, g: Ways, kept: seq<Entry>, atRoot: seq<Entry>, c: Case, caches: Caches)
    requires TwoWays(g) && HandsDown(g, g.second, kept) && Entered(g.root, [], [], []).kept == Some(atRoot)
    requires caches == NoFailures(Nodes(g))[g.below := [c]]
    requires !CaseMightPass(g.below, c, g.second.name + g.below.name, kept)
    ensures WellFormed(g.second) && Reach(g.second) <= caches.Keys
    ensures Traverse(s, g.second, [], atRoot, caches).leaves == []
  {
    WaysAreWellFormed(g);
    WaysDiffer(g);
    ReachOfWays(g);
    ReachOfChild(g.root, 1);
    assert g.root.children[1] == g.second;
    OneWay(s, g, g.second, kept, atRoot, caches);
    FirstAnswerIs(g.below, [c], g.second.name + g.below.name, kept, 0);
  }

  /** The first visit of `below` fails and is recorded; the second is given up because of it: no leaf at all. */
  lemma SecondVisitSkipped(s: Settings, g: Ways, kept1: seq<Entry>, kept2: seq<Entry>, c: Case)
    requires TwoWays(g) && HandsDown(g, g.first, kept1) && HandsDown(g, g.second, kept2)
    requires Entered(g.below, g.first.name + g.below.name, kept1, []) == Entrance(None, [c])
    requires !CaseMightPass(g.below, c, g.second.name + g.below.name, kept2)
    ensures Traverse(s, g.root, [], [], NoFailures(Reach(g.root))).leaves == []
  {
    ReachOfWays(g);
    var caches := NoFailures(Nodes(g));
    var atRoot := Entered(g.root, [], [], []).kept.value;
    FirstVisit(s, g, kept1, atRoot, c, caches);
    SecondVisit(s, g, kept2, atRoot, c, caches[g.below := [c]]);
    RootVisit(s, g, atRoot, caches);
  }

  lemma RootVisit(s: Settings, g: Ways, atRoot: seq<Entry>, caches: Caches)
    requires TwoWays(g) && WellFormed(g.first) && WellFormed(g.second)
    requires Entered(g.root, [], [], []).kept == Some(atRoot)
    requires Reach(g.root) <= caches.Keys && Reach(g.first) <= caches.Keys && Reach(g.second) <= caches.Keys
    requires caches[g.root] == []
    requires var t := Traverse(s, g.first, [], atRoot, caches);
             t.leaves == [] && Traverse(s, g.second, [], atRoot, t.caches).leaves == []
    ensures Traverse(s, g.root, [], [], caches).leaves == []
  {
    assert g.root.children[0] == g.first && g.root.children[1] == g.second;
    var none: seq<Label> := [];
    assert none + g.root.name == none;
    var e := Entered(g.root, [], [], []);
    assert caches[g.root := e.cases] == caches;
    var t1 := Traverse(s, g.first, [], atRoot, caches);
    var t2 := Traverse(s, g.second, [], atRoot, t1.caches);
    assert TraverseFrom(s, g.root, 2, [], atRoot, t2.caches, false) == Traversed([], t2.caches);
    assert TraverseFrom(s, g.root, 1, [], atRoot, t1.caches, false).leaves == [];
    assert TraverseFrom(s, g.root, 0, [], atRoot, caches, false).leaves == [];
  }

  // ----- what the simple meaning says of the second way -----

  lemma SingleChildEnumerates(s: Settings, n: Node, c: Node, ctx: seq<Label>, content: seq<Entry>)
    requires Ranked(n) && n.children == [c]
    ensures Ranked(c) && Enumerate(s, n, ctx, content) == Enumerate(s, c, ctx + n.name, n.content + content)
  {
    assert n.children[0] == c;
    var leaves := Enumerate(s, c, ctx + n.name, n.content + content);
    assert EnumerateFrom(s, n, 1, ctx + n.name, n.content + content, leaves != []) == [];
    assert leaves + [] == leaves;
  }

  /** The leaf of the second way, when its content accepts. */
  lemma SecondLeaf(s: Settings, g: Ways, ctx: seq<Label>)
    requires TwoWays(g) && ctx == g.second.name + g.below.name
    requires Evaluate(g.below.content + (g.second.content + g.root.content), ctx) == Accepted([])
    ensures Leaf(ctx, []) in Enumerate(s, g.root, [], [])
  {
    WaysAreWellFormed(g);
    var p, onRoot := g.second.name, g.root.content;
    var none: seq<Label> := [];
    var nothing: seq<Entry> := [];
    assert none + p == p && p + none == p && nothing + (g.second.content + onRoot) == g.second.content + onRoot;
    SingleChildEnumerates(s, g.second, g.between, none, onRoot);
    SingleChildEnumerates(s, g.between, g.below, p, g.second.content + onRoot);
    SingleChildEnumerates(s, g.below, g.leaf, p, g.second.content + onRoot);
    var path := g.below.content + (g.second.content + onRoot);
    assert ctx + none == ctx && nothing + path == path;
    assert Enumerate(s, g.second, none, onRoot) == [Leaf(ctx, [])];
    RootHasSecond(s, g, Leaf(ctx, []));
  }

  lemma RootHasSecond(s: Settings, g: Ways, leaf: Leaf)
    requires TwoWays(g) && Ranked(g.second) && leaf in Enumerate(s, g.second, [], g.root.content)
    ensures leaf in Enumerate(s, g.root, [], [])
  {
    var none: seq<Label> := [];
    var nothing: seq<Entry> := [];
    assert g.root.children[0] == g.first && g.root.children[1] == g.second;
    assert none + g.root.name == none && g.root.content + nothing == g.root.content;
    var first := Enumerate(s, g.first, none, g.root.content);
    assert leaf in EnumerateFrom(s, g.root, 1, none, g.root.content, first != []);
  }

  // ----- entries that stay undecided -----

  predicate Undecided(e: Entry, ctx: seq<Label>, labels: set<Label>) {
    !e.Operator? && !RequiresAction(e, ctx, labels) && !IsIrrelevant(e, ctx, labels)
  }

  predicate AllUndecided(content: seq<Entry>, ctx: seq<Label>, labels: set<Label>) {
    forall i | 0 <= i < |content| :: Undecided(content[i], ctx, labels)
  }

  lemma {:induction false} UndecidedStays(content: seq<Entry>, ctx: seq<Label>, labels: set<Label>)
    requires AllUndecided(content, ctx, labels)
    ensures Process(content, ctx, labels) == Passed(content)
  {
    if content != [] {
      UndecidedStays(content[1..], ctx, labels);
      assert [content[0]] + content[1..] == content;
    }
  }

  lemma EntersWhole(n: Node, ctx: seq<Label>, content: seq<Entry>)
    requires AllUndecided(n.content, ctx, n.labels) && AllUndecided(content, ctx, n.labels)
    ensures Entered(n, ctx, content, []).kept == Some(n.content + content)
  {
    UndecidedStays(n.content, ctx, n.labels);
    UndecidedStays(content, ctx, n.labels);
  }

  /** The two variants and the nodes on the way hand everything down when nothing is decided there. */
  lemma HandsDownAll(g: Ways, p: Node)
    requires TwoWays(g)
    requires AllUndecided(g.root.content, [], g.root.labels)
    requires AllUndecided(p.content, p.name, p.labels) && AllUndecided(g.root.content, p.name, p.labels)
    requires AllUndecided(p.content + g.root.content, p.name, g.between.labels)
    ensures HandsDown(g, p, p.content + g.root.content)
  {
    var nothing: seq<Entry> := [];
    var atVariant := p.content + g.root.content;
    EntersWhole(g.root, [], nothing);
    assert g.root.content + nothing == g.root.content && nothing + atVariant == atVariant;
    EntersWhole(p, p.name, g.root.content);
    EntersWhole(g.between, p.name, atVariant);
  }

  lemma KnownAbove(g: Ways, l: Label, wanted: Label)
    requires TwoWays(g) && l in g.below.name && Matches(l, wanted)
    ensures Lookup(g.root.labels, wanted) && Lookup(g.first.labels, wanted)
    ensures Lookup(g.second.labels, wanted) && Lookup(g.between.labels, wanted)
  {
    WaysAreWellFormed(g);
    assert g.root.children[0] == g.first && g.between.children[0] == g.below;
    assert g.first.children[0] == g.between && g.second.children[0] == g.between;
    BelowFromChild(g.between, 0, l);
    BelowFromChild(g.first, 0, l);
    BelowFromChild(g.second, 0, l);
    BelowFromChild(g.root, 0, l);
    assert AnyMatches(Below(g.between), wanted) && AnyMatches(Below(g.first), wanted);
    assert AnyMatches(Below(g.second), wanted) && AnyMatches(Below(g.root), wanted);
  }

  lemma NothingBelow(g: Ways)
    requires TwoWays(g)
    ensures g.below.labels == {}
  {
    WaysAreWellFormed(g);
    var n := g.below;
    LeafHasNoLabels(g.leaf);
    assert BelowFirst(n.children, 1, n.height) == BelowFirst(n.children, 0, n.height) + {} + Elements(g.leaf.name);
    NoLabelsBelow(n);
  }

  // ----- filters of one block -----

  function OneBlock(block: Block): Filter {
    [[block]]
  }

  lemma OneBlockMatches(block: Block, ctx: seq<Label>, labels: set<Label>)
    ensures Match(OneBlock(block), ctx) <==> Occurs(block, ctx)
    ensures MightMatch(OneBlock(block), ctx, labels) <==> MightMatchBlock(block, ctx, labels)
  {
    MatchIsSatisfied(OneBlock(block), ctx);
    assert OneBlock(block)[0] == [block] && [block][0] == block;
    assert [block] in OneBlock(block) && block in [block];
  }

  lemma SingleMatched(wanted: Label, ctx: seq<Label>)
    ensures Matched([wanted], ctx) == if Among(ctx, wanted) then 1 else 0
    ensures Occurs([wanted], ctx) <==> Among(ctx, wanted)
  {
    MatchedAllIffOccurs([wanted], ctx);
    if i :| 0 <= i < |ctx| && Matches(ctx[i], wanted) {
      assert PrefixAt([wanted], 1, ctx, i);
    }
    if start: nat :| PrefixAt([wanted], 1, ctx, start) {
      assert Matches(ctx[start + 0], wanted);
    }
  }

  /** A label that is not there yet but known below. */
  lemma SinglePending(wanted: Label, ctx: seq<Label>, labels: set<Label>)
    requires !Among(ctx, wanted) && Lookup(labels, wanted)
    ensures !Match(OneBlock([wanted]), ctx) && MightMatch(OneBlock([wanted]), ctx, labels)
  {
    OneBlockMatches([wanted], ctx, labels);
    SingleMatched(wanted, ctx);
  }

  /** Two labels of which the first ends the context and the second is known below. */
  lemma PairPending(a: Label, b: Label, labels: set<Label>)
    requires Matches(a, a) && Lookup(labels, b)
    ensures !Match(OneBlock([a, b]), [a]) && MightMatch(OneBlock([a, b]), [a], labels)
  {
    OneBlockMatches([a, b], [a], labels);
    assert Matches([a][0], [a, b][0]);
    assert PrefixEnds([a, b], 1, [a]);
    MatchedBoundsEnds([a, b], [a], 1);
  }

  lemma NoAdvance(wanted: Label, ctx: seq<Label>, other: seq<Label>)
    requires Among(ctx, wanted) && Among(other, wanted)
    ensures !Advances(OneBlock([wanted]), ctx, other)
  {
    SingleMatched(wanted, ctx);
    SingleMatched(wanted, other);
  }

  lemma ProcessOne(e: Entry, ctx: seq<Label>, labels: set<Label>)
    ensures Process([e], ctx, labels) == ProcessEntry(e, ctx, labels)
  {
    assert [e][1..] == [] && Process([e][1..], ctx, labels) == Passed([]);
    var first := ProcessEntry(e, ctx, labels);
    assert first.Passed? ==> first.kept + [] == first.kept;
  }

  // ----- a filter in a conditional and a copy of it beside the conditional -----

  /** Where the filter stands, and the line after its block, at which the conditional is stored. */
  datatype Lines = Lines(filter: Position, end: Position)

  /** `only good.when` */
  function OnlyGood(pos: Lines, good: Label, when: Label): Entry {
    Only(pos.filter, OneBlock([good, when]))
  }

  /** `when:` with that filter inside. */
  function WhenOnlyGood(pos: Lines, good: Label, when: Label): Entry {
    Condition(pos.end, OneBlock([when]), [OnlyGood(pos, good, when)])
  }

  /** The conditional stands above both variants, the copy in the second. */
  ghost predicate CopyBeside(g: Ways, pos: Lines, bad: Label, good: Label, when: Label) {
    && TwoWays(g) && pos.filter != pos.end && g.root.content == [WhenOnlyGood(pos, good, when)]
    && g.first.name == [bad] && g.first.content == []
    && g.second.name == [good] && g.second.content == [OnlyGood(pos, good, when)]
    && g.below.name == [when] && g.below.content == []
    && !Matches(bad, good) && !Matches(bad, when) && !Matches(good, when)
  }

  lemma ConditionalPending(pos: Lines, good: Label, when: Label, ctx: seq<Label>, labels: set<Label>)
    requires !Among(ctx, when) && Lookup(labels, when)
    ensures AllUndecided([WhenOnlyGood(pos, good, when)], ctx, labels)
  {
    SinglePending(when, ctx, labels);
  }

  lemma BothPending(pos: Lines, good: Label, when: Label, labels: set<Label>)
    requires !Among([good], when) && Lookup(labels, when)
    ensures AllUndecided([OnlyGood(pos, good, when)], [good], labels)
    ensures AllUndecided([OnlyGood(pos, good, when), WhenOnlyGood(pos, good, when)], [good], labels)
  {
    SinglePending(when, [good], labels);
    PairPending(good, when, labels);
  }

  lemma CopyHandedDown(g: Ways, pos: Lines, bad: Label, good: Label, when: Label)
    requires CopyBeside(g, pos, bad, good, when)
    ensures HandsDown(g, g.first, [WhenOnlyGood(pos, good, when)])
    ensures HandsDown(g, g.second, [OnlyGood(pos, good, when), WhenOnlyGood(pos, good, when)])
  {
    assert g.below.name[0] == when;
    KnownAbove(g, when, when);
    ConditionalPending(pos, good, when, [], g.root.labels);
    ConditionalPending(pos, good, when, [bad], g.first.labels);
    ConditionalPending(pos, good, when, [bad], g.between.labels);
    ConditionalPending(pos, good, when, [good], g.second.labels);
    BothPending(pos, good, when, g.second.labels);
    BothPending(pos, good, when, g.between.labels);
    assert g.first.content + g.root.content == [WhenOnlyGood(pos, good, when)];
    assert g.second.content + g.root.content == [OnlyGood(pos, good, when), WhenOnlyGood(pos, good, when)];
    HandsDownAll(g, g.first);
    HandsDownAll(g, g.second);
  }

  lemma OnlyGoodDecided(good: Label, when: Label, first: Label)
    ensures Match(OneBlock([good, when]), [first, when]) <==> Matches(first, good)
    ensures Match(OneBlock([when]), [first, when]) && Among([first, when], when)
  {
    var block, ctx := [good, when], [first, when];
    OneBlockMatches(block, ctx, {});
    assert PrefixAt(block, 2, ctx, 0) <==> Matches(ctx[0 + 0], block[0]) && Matches(ctx[0 + 1], block[1]);
    assert forall start: nat | PrefixAt(block, 2, ctx, start) :: start == 0;
    assert Matches(ctx[1], when);
    SingleMatched(when, ctx);
    OneBlockMatches([when], ctx, {});
  }

  function CopyCase(pos: Lines, bad: Label, good: Label, when: Label): Case {
    Case([bad, when], [WhenOnlyGood(pos, good, when)], [OnlyGood(pos, good, when)])
  }

  lemma CopyFailsFirst(g: Ways, pos: Lines, bad: Label, good: Label, when: Label)
    requires CopyBeside(g, pos, bad, good, when)
    ensures Entered(g.below, [bad, when], [WhenOnlyGood(pos, good, when)], [])
         == Entrance(None, [CopyCase(pos, bad, good, when)])
  {
    var ctx, t, x := [bad, when], WhenOnlyGood(pos, good, when), OnlyGood(pos, good, when);
    NothingBelow(g);
    OnlyGoodDecided(good, when, bad);
    MightMatchAtLeaf(x.filter, ctx);
    ProcessOne(x, ctx, {});
    ProcessOne(t, ctx, {});
    assert Process([t], ctx, {}) == Failed([t], [x]);
  }

  lemma CopyAnswers(g: Ways, pos: Lines, bad: Label, good: Label, when: Label)
    requires CopyBeside(g, pos, bad, good, when)
    ensures var t, x := WhenOnlyGood(pos, good, when), OnlyGood(pos, good, when);
            !CaseMightPass(g.below, CopyCase(pos, bad, good, when), [good, when], [x, t])
  {
    var t, x := WhenOnlyGood(pos, good, when), OnlyGood(pos, good, when);
    var c := CopyCase(pos, bad, good, when);
    OnlyGoodDecided(good, when, bad);
    OnlyGoodDecided(good, when, good);
    NoAdvance(when, c.ctx, [good, when]);
    SameAsItself(t);
    SameAsItself(x);
    assert [x, t] + g.below.content == [x, t] && c.external + c.internal == [t, x];
    assert AllPresent([t, x], [x, t]);
    assert t in c.external && !EntryMightPass(t, c.ctx, [good, when], g.below.labels);
  }

  lemma OnlyAccepts(pos: Lines, good: Label, when: Label)
    ensures EvaluateEntry(OnlyGood(pos, good, when), [good, when]) == Accepted([])
  {
    OnlyGoodDecided(good, when, good);
  }

  lemma CopyAccepts(pos: Lines, good: Label, when: Label, ctx: seq<Label>)
    requires EvaluateEntry(OnlyGood(pos, good, when), ctx) == Accepted([])
    ensures Evaluate([OnlyGood(pos, good, when)] + [WhenOnlyGood(pos, good, when)], ctx) == Accepted([])
  {
    var t, x := WhenOnlyGood(pos, good, when), OnlyGood(pos, good, when);
    EvaluateOne(x, ctx);
    EvaluateOne(t, ctx);
    assert t.content == [x];
    assert EvaluateEntry(t, ctx) == Accepted([]);
    EvaluateAppend([x], [t], ctx);
  }

  /** Run from the beginning, the traversal has no leaf, though the second way has one: the failure recorded on
      the first way is taken to be present on the second, because the copy is. */
  lemma RepeatedEntryMisleads(s: Settings, g: Ways, pos: Lines, bad: Label, good: Label, when: Label)
    requires CopyBeside(g, pos, bad, good, when)
    ensures Traverse(s, g.root, [], [], NoFailures(Reach(g.root))).leaves == []
    ensures Leaf([good, when], []) in Enumerate(s, g.root, [], [])
  {
    CopySkipped(s, g, pos, bad, good, when);
    CopyHasLeaf(s, g, pos, bad, good, when);
  }

  lemma CopySkipped(s: Settings, g: Ways, pos: Lines, bad: Label, good: Label, when: Label)
    requires CopyBeside(g, pos, bad, good, when)
    ensures Traverse(s, g.root, [], [], NoFailures(Reach(g.root))).leaves == []
  {
    var t, x := WhenOnlyGood(pos, good, when), OnlyGood(pos, good, when);
    CopyHandedDown(g, pos, bad, good, when);
    CopyFailsFirst(g, pos, bad, good, when);
    CopyAnswers(g, pos, bad, good, when);
    assert g.first.name + g.below.name == [bad, when] && g.second.name + g.below.name == [good, when];
    SecondVisitSkipped(s, g, [t], [x, t], CopyCase(pos, bad, good, when));
  }

  lemma CopyHasLeaf(s: Settings, g: Ways, pos: Lines, bad: Label, good: Label, when: Label)
    requires CopyBeside(g, pos, bad, good, when)
    ensures Leaf([good, when], []) in Enumerate(s, g.root, [], [])
  {
    OnlyAccepts(pos, good, when);
    CopyAccepts(pos, good, when, [good, when]);
    assert g.second.name + g.below.name == [good, when];
    assert g.below.content + (g.second.content + g.root.content) == g.second.content + g.root.content;
    SecondLeaf(s, g, [good, when]);
  }

  /** `ide:` with `only fedora.ide` inside, and that filter once more under `fedora`. */
  method RunWithCopy(s: Settings, pos: Lines) returns (g: Ways, leaves: seq<Leaf>)
    requires pos.filter != pos.end
    ensures leaves == [] && TwoWays(g)
    ensures Leaf([MakeLabel(None, "fedora"), MakeLabel(None, "ide")], []) in Enumerate(s, g.root, [], [])
  {
    var bad, good, when := MakeLabel(None, "rhel"), MakeLabel(None, "fedora"), MakeLabel(None, "ide");
    var x := OnlyGood(pos, good, when);
    g := Build([WhenOnlyGood(pos, good, when)], bad, [], good, [x], when, []);
    ReachOfWays(g);
    RepeatedEntryMisleads(s, g, pos, bad, good, when);
    leaves := Expand(s, g.root);
  }

  // ----- the same within one node -----

  /** The conditional and the copy of its filter both stand in the node that is visited twice. */
  ghost predicate CopyInNode(g: Ways, pos: Lines, bad: Label, good: Label, when: Label) {
    && TwoWays(g) && pos.filter != pos.end && g.root.content == [] && g.first.content == [] && g.second.content == []
    && g.first.name == [bad] && g.second.name == [good] && !Matches(bad, good)
    && g.below.name == [when] && g.below.content == [WhenOnlyGood(pos, good, when), OnlyGood(pos, good, when)]
  }

  function InNodeCase(pos: Lines, bad: Label, good: Label, when: Label): Case {
    Case([bad, when], [], [OnlyGood(pos, good, when), WhenOnlyGood(pos, good, when)])
  }

  lemma InNodeFailsFirst(g: Ways, pos: Lines, bad: Label, good: Label, when: Label)
    requires CopyInNode(g, pos, bad, good, when)
    ensures Entered(g.below, [bad, when], [], []) == Entrance(None, [InNodeCase(pos, bad, good, when)])
  {
    var ctx, t, x := [bad, when], WhenOnlyGood(pos, good, when), OnlyGood(pos, good, when);
    NothingBelow(g);
    OnlyGoodDecided(good, when, bad);
    MightMatchAtLeaf(x.filter, ctx);
    ProcessOne(x, ctx, {});
    assert ProcessEntry(t, ctx, {}) == Failed([t], [x]);
    assert Process([t, x], ctx, {}) == Failed([t], [x]);
    assert [x] + [t] == [x, t];
  }

  lemma InNodeAnswers(g: Ways, pos: Lines, bad: Label, good: Label, when: Label)
    requires CopyInNode(g, pos, bad, good, when)
    ensures !CaseMightPass(g.below, InNodeCase(pos, bad, good, when), [good, when], [])
  {
    var t, x := WhenOnlyGood(pos, good, when), OnlyGood(pos, good, when);
    var c := InNodeCase(pos, bad, good, when);
    OnlyGoodDecided(good, when, bad);
    OnlyGoodDecided(good, when, good);
    NoAdvance(when, c.ctx, [good, when]);
    SameAsItself(t);
    SameAsItself(x);
    var nothing: seq<Entry> := [];
    assert nothing + g.below.content == [t, x] && c.external + c.internal == [x, t];
    assert AllPresent([x, t], [t, x]);
    assert t in c.internal && !EntryMightPass(t, c.ctx, [good, when], g.below.labels);
  }

  /** Run from the beginning, the traversal has no leaf, though the second way has one. */
  lemma CopyInNodeMisleads(s: Settings, g: Ways, pos: Lines, bad: Label, good: Label, when: Label)
    requires CopyInNode(g, pos, bad, good, when)
    ensures Traverse(s, g.root, [], [], NoFailures(Reach(g.root))).leaves == []
    ensures Leaf([good, when], []) in Enumerate(s, g.root, [], [])
  {
    InNodeSkipped(s, g, pos, bad, good, when);
    InNodeHasLeaf(s, g, pos, bad, good, when);
  }

  lemma InNodeSkipped(s: Settings, g: Ways, pos: Lines, bad: Label, good: Label, when: Label)
    requires CopyInNode(g, pos, bad, good, when)
    ensures Traverse(s, g.root, [], [], NoFailures(Reach(g.root))).leaves == []
  {
    var nothing: seq<Entry> := [];
    assert nothing + nothing == nothing;
    HandsDownAll(g, g.first);
    HandsDownAll(g, g.second);
    InNodeFailsFirst(g, pos, bad, good, when);
    InNodeAnswers(g, pos, bad, good, when);
    assert g.first.name + g.below.name == [bad, when] && g.second.name + g.below.name == [good, when];
    SecondVisitSkipped(s, g, [], [], InNodeCase(pos, bad, good, when));
  }

  lemma InNodeHasLeaf(s: Settings, g: Ways, pos: Lines, bad: Label, good: Label, when: Label)
    requires CopyInNode(g, pos, bad, good, when)
    ensures Leaf([good, when], []) in Enumerate(s, g.root, [], [])
  {
    OnlyAccepts(pos, good, when);
    InNodeAccepts(pos, good, when, [good, when]);
    assert g.second.name + g.below.name == [good, when];
    assert g.below.content + (g.second.content + g.root.content)
        == [WhenOnlyGood(pos, good, when)] + [OnlyGood(pos, good, when)];
    SecondLeaf(s, g, [good, when]);
  }

  lemma InNodeAccepts(pos: Lines, good: Label, when: Label, ctx: seq<Label>)
    requires EvaluateEntry(OnlyGood(pos, good, when), ctx) == Accepted([])
    ensures Evaluate([WhenOnlyGood(pos, good, when)] + [OnlyGood(pos, good, when)], ctx) == Accepted([])
  {
    var t, x := WhenOnlyGood(pos, good, when), OnlyGood(pos, good, when);
    CopyAccepts(pos, good, when, ctx);
    EvaluateAppend([x], [t], ctx);
    EvaluateAppend([t], [x], ctx);
  }

  /** `ide:` with `only fedora.ide` inside, and that filter once more, both under `ide`. */
  method RunWithCopyInNode(s: Settings, pos: Lines) returns (g: Ways, leaves: seq<Leaf>)
    requires pos.filter != pos.end
    ensures leaves == [] && TwoWays(g)
    ensures Leaf([MakeLabel(None, "fedora"), MakeLabel(None, "ide")], []) in Enumerate(s, g.root, [], [])
  {
    var bad, good, when := MakeLabel(None, "rhel"), MakeLabel(None, "fedora"), MakeLabel(None, "ide");
    g := Build([], bad, [], good, [], when, [WhenOnlyGood(pos, good, when), OnlyGood(pos, good, when)]);
    ReachOfWays(g);
    CopyInNodeMisleads(s, g, pos, bad, good, when);
    leaves := Expand(s, g.root);
  }

  // ----- two conditionals with the same filter in different nodes -----

  /** `bare:` with `only good.below` inside, and `bare:` with nothing inside, stored at the same line. */
  function WhenBare(pos: Lines, bare: Label, content: seq<Entry>): Entry {
    Condition(pos.end, OneBlock([bare]), content)
  }

  /** The full one stands above both variants, the empty one further down. The second variant and the one further
      down satisfy their filter, the first does not. */
  ghost predicate TwinBelow(g: Ways, pos: Lines, first: Label, second: Label, below: Label, bare: Label) {
    && TwoWays(g) && pos.filter != pos.end
    && g.root.content == [WhenBare(pos, bare, [OnlyGood(pos, second, below)])]
    && g.first.name == [first] && g.first.content == [] && g.second.name == [second] && g.second.content == []
    && g.below.name == [below] && g.below.content == [WhenBare(pos, bare, [])]
    && Matches(second, bare) && Matches(below, bare) && !Matches(first, bare) && !Matches(first, second)
  }

  lemma TwinPending(pos: Lines, bare: Label, content: seq<Entry>, ctx: seq<Label>, labels: set<Label>)
    requires !Among(ctx, bare) && Lookup(labels, bare)
    ensures AllUndecided([WhenBare(pos, bare, content)], ctx, labels)
  {
    SinglePending(bare, ctx, labels);
  }

  lemma TwinFires(pos: Lines, bare: Label, content: seq<Entry>, ctx: seq<Label>, labels: set<Label>)
    requires Among(ctx, bare)
    ensures Match(OneBlock([bare]), ctx)
    ensures EvaluateEntry(WhenBare(pos, bare, content), ctx) == Evaluate(content, ctx)
    ensures Process([WhenBare(pos, bare, content)], ctx, labels) ==
            match Process(content, ctx, labels)
            case Passed(kept) => Passed(kept)
            case Failed(failed, nested) => Failed([WhenBare(pos, bare, content)], nested + failed)
  {
    SingleMatched(bare, ctx);
    OneBlockMatches([bare], ctx, labels);
    ProcessOne(WhenBare(pos, bare, content), ctx, labels);
  }

  lemma TwinHandedDownFirst(g: Ways, pos: Lines, first: Label, second: Label, below: Label, bare: Label)
    requires TwinBelow(g, pos, first, second, below, bare)
    ensures HandsDown(g, g.first, g.root.content)
  {
    var full := [OnlyGood(pos, second, below)];
    var nothing: seq<Entry> := [];
    assert g.below.name[0] == below;
    KnownAbove(g, below, bare);
    TwinPending(pos, bare, full, [], g.root.labels);
    TwinPending(pos, bare, full, [first], g.first.labels);
    TwinPending(pos, bare, full, [first], g.between.labels);
    assert nothing + g.root.content == g.root.content;
    HandsDownAll(g, g.first);
  }

  lemma TwinHandedDownSecond(g: Ways, pos: Lines, first: Label, second: Label, below: Label, bare: Label)
    requires TwinBelow(g, pos, first, second, below, bare)
    ensures HandsDown(g, g.second, [OnlyGood(pos, second, below)])
  {
    var x := OnlyGood(pos, second, below);
    assert g.below.name[0] == below;
    KnownAbove(g, below, bare);
    KnownAbove(g, below, below);
    TwinAtRoot(g.root, pos, bare, x);
    TwinUnpacks(g.second, pos, second, below, bare);
    PairPending(second, below, g.between.labels);
    PendingPasses(g.between, [second], x);
  }

  lemma TwinAtRoot(n: Node, pos: Lines, bare: Label, x: Entry)
    requires n.content == [WhenBare(pos, bare, [x])] && Lookup(n.labels, bare)
    ensures Entered(n, [], [], []).kept == Some(n.content)
  {
    var nothing: seq<Entry> := [];
    TwinPending(pos, bare, [x], [], n.labels);
    EntersWhole(n, [], nothing);
    assert n.content + nothing == n.content;
  }

  lemma PendingPasses(n: Node, ctx: seq<Label>, x: Entry)
    requires n.content == [] && AllUndecided([x], ctx, n.labels)
    ensures Entered(n, ctx, [x], []).kept == Some([x])
  {
    EntersWhole(n, ctx, [x]);
    assert [] + [x] == [x];
  }

  lemma TwinUnpacks(n: Node, pos: Lines, second: Label, below: Label, bare: Label)
    requires n.content == [] && Matches(second, bare) && Lookup(n.labels, below)
    ensures var x := OnlyGood(pos, second, below);
            Entered(n, [second], [WhenBare(pos, bare, [x])], []).kept == Some([x])
  {
    var x := OnlyGood(pos, second, below);
    assert Matches([second][0], bare);
    PairPending(second, below, n.labels);
    UndecidedStays([x], [second], n.labels);
    TwinFires(pos, bare, [x], [second], n.labels);
    assert [] + [x] == [x];
  }

  function TwinCase(pos: Lines, first: Label, second: Label, below: Label, bare: Label): Case {
    var x := OnlyGood(pos, second, below);
    Case([first, below], [WhenBare(pos, bare, [x])], [x])
  }

  lemma TwinFailsFirst(g: Ways, pos: Lines, first: Label, second: Label, below: Label, bare: Label)
    requires TwinBelow(g, pos, first, second, below, bare)
    ensures Entered(g.below, [first, below], g.root.content, [])
         == Entrance(None, [TwinCase(pos, first, second, below, bare)])
  {
    var ctx, x := [first, below], OnlyGood(pos, second, below);
    NothingBelow(g);
    PairAmong(first, below, bare);
    OnlyGoodDecided(second, below, first);
    MightMatchAtLeaf(x.filter, ctx);
    ProcessOne(x, ctx, {});
    TwinFires(pos, bare, [], ctx, {});
    TwinFires(pos, bare, [x], ctx, {});
    assert [] + [x] == [x];
  }

  lemma TwinAnswers(g: Ways, pos: Lines, first: Label, second: Label, below: Label, bare: Label)
    requires TwinBelow(g, pos, first, second, below, bare)
    ensures !CaseMightPass(g.below, TwinCase(pos, first, second, below, bare), [second, below],
                           [OnlyGood(pos, second, below)])
  {
    var x := OnlyGood(pos, second, below);
    var t, item := WhenBare(pos, bare, [x]), WhenBare(pos, bare, []);
    var c := TwinCase(pos, first, second, below, bare);
    PairAmong(first, below, bare);
    PairAmong(second, below, bare);
    NoAdvance(bare, c.ctx, [second, below]);
    SameAsItself(t);
    SameAsItself(x);
    assert SameEntry(item, t);
    assert [x] + g.below.content == [x, item] && c.external + c.internal == [t, x];
    assert Contains([x, item], t) && Contains([x, item], x);
    assert t in c.external && !EntryMightPass(t, c.ctx, [second, below], g.below.labels);
  }

  lemma TwinAccepts(pos: Lines, second: Label, below: Label, bare: Label)
    requires Matches(second, bare)
    ensures var x := OnlyGood(pos, second, below);
            Evaluate([WhenBare(pos, bare, [])] + [WhenBare(pos, bare, [x])], [second, below]) == Accepted([])
  {
    var x := OnlyGood(pos, second, below);
    var t, item := WhenBare(pos, bare, [x]), WhenBare(pos, bare, []);
    var ctx := [second, below];
    PairAmong(second, below, bare);
    OnlyAccepts(pos, second, below);
    TwinFires(pos, bare, [x], ctx, {});
    TwinFires(pos, bare, [], ctx, {});
    EvaluateOne(x, ctx);
    EvaluateOne(t, ctx);
    EvaluateOne(item, ctx);
    EvaluateAppend([item], [t], ctx);
  }

  /** Run from the beginning, the traversal has no leaf, though the second way has one: there the full conditional
      was unpacked higher up, and the empty one is taken for it. */
  lemma TwinConditionalsMislead(s: Settings, g: Ways, pos: Lines, first: Label, second: Label, below: Label,
                                bare: Label)
    requires TwinBelow(g, pos, first, second, below, bare)
    ensures Traverse(s, g.root, [], [], NoFailures(Reach(g.root))).leaves == []
    ensures Leaf([second, below], []) in Enumerate(s, g.root, [], [])
  {
    var x := OnlyGood(pos, second, below);
    TwinHandedDownFirst(g, pos, first, second, below, bare);
    TwinHandedDownSecond(g, pos, first, second, below, bare);
    TwinFailsFirst(g, pos, first, second, below, bare);
    TwinAnswers(g, pos, first, second, below, bare);
    assert g.first.name + g.below.name == [first, below] && g.second.name + g.below.name == [second, below];
    SecondVisitSkipped(s, g, g.root.content, [x], TwinCase(pos, first, second, below, bare));
    TwinAccepts(pos, second, below, bare);
    assert g.below.content + (g.second.content + g.root.content)
        == [WhenBare(pos, bare, [])] + [WhenBare(pos, bare, [x])];
    SecondLeaf(s, g, [second, below]);
  }

  /** `virtio:` with `only (nic=virtio).(disk=virtio)` inside above the variants, and an empty `virtio:` under
      `(disk=virtio)`. */
  method RunWithTwinConditionals(s: Settings, pos: Lines) returns (g: Ways, leaves: seq<Leaf>)
    requires pos.filter != pos.end
    ensures leaves == [] && TwoWays(g)
    ensures Leaf([MakeLabel(Some("nic"), "virtio"), MakeLabel(Some("disk"), "virtio")], [])
         in Enumerate(s, g.root, [], [])
  {
    var first, bare := MakeLabel(None, "rhel"), MakeLabel(None, "virtio");
    var second, below := MakeLabel(Some("nic"), "virtio"), MakeLabel(Some("disk"), "virtio");
    assert first.longName[0] == 'r' && second.longName[0] == '(';
    var full := WhenBare(pos, bare, [OnlyGood(pos, second, below)]);
    g := Build([full], first, [], second, [], below, [WhenBare(pos, bare, [])]);
    ReachOfWays(g);
    TwinConditionalsMislead(s, g, pos, first, second, below, bare);
    leaves := Expand(s, g.root);
  }

  // ----- two filters that compare equal one way -----

  function NoLabel(pos: Position, l: Label): Entry {
    No(pos, OneBlock([l]))
  }

  /** `no bare` in the first variant, `no pair` further down, at the same file and line. The variant down there
      has the name of both, and the variable of neither. */
  ghost predicate EqualOneWay(g: Ways, pos: Position, first: Label, second: Label, bare: Label, pair: Label,
                              other: Label) {
    && TwoWays(g) && g.root.content == []
    && g.first.name == [first] && g.first.content == [NoLabel(pos, bare)]
    && g.second.name == [second] && g.second.content == []
    && g.below.name == [other] && g.below.content == [NoLabel(pos, pair)]
    && Matches(pair, bare) && Matches(other, bare) && !Matches(other, pair)
    && !Matches(first, bare) && !Matches(first, pair) && !Matches(second, pair)
  }

  lemma EqualHandedDown(g: Ways, pos: Position, first: Label, second: Label, bare: Label, pair: Label, other: Label)
    requires EqualOneWay(g, pos, first, second, bare, pair, other)
    ensures HandsDown(g, g.first, [NoLabel(pos, bare)])
    ensures HandsDown(g, g.second, [])
  {
    assert g.below.name[0] == other;
    KnownAbove(g, other, bare);
    SinglePending(bare, [first], g.first.labels);
    SinglePending(bare, [first], g.between.labels);
    assert g.first.content + g.root.content == [NoLabel(pos, bare)];
    HandsDownAll(g, g.first);
    HandsDownAll(g, g.second);
  }

  lemma NoLabelDecided(pos: Position, l: Label, ctx: seq<Label>)
    ensures Process([NoLabel(pos, l)], ctx, {}) == if Among(ctx, l) then Failed([NoLabel(pos, l)], []) else Passed([])
    ensures Evaluate([NoLabel(pos, l)], ctx) == if Among(ctx, l) then Rejected else Accepted([])
  {
    var e := NoLabel(pos, l);
    SingleMatched(l, ctx);
    OneBlockMatches([l], ctx, {});
    MightMatchAtLeaf(e.filter, ctx);
    ProcessOne(e, ctx, {});
    EvaluateOne(e, ctx);
  }

  lemma PairAmong(first: Label, other: Label, wanted: Label)
    ensures Among([first, other], wanted) <==> Matches(first, wanted) || Matches(other, wanted)
  {
    assert [first, other][0] == first && [first, other][1] == other;
  }

  function EqualCase(pos: Position, first: Label, bare: Label, other: Label): Case {
    Case([first, other], [NoLabel(pos, bare)], [])
  }

  lemma EqualFailsFirst(g: Ways, pos: Position, first: Label, second: Label, bare: Label, pair: Label, other: Label)
    requires EqualOneWay(g, pos, first, second, bare, pair, other)
    ensures Entered(g.below, [first, other], [NoLabel(pos, bare)], [])
         == Entrance(None, [EqualCase(pos, first, bare, other)])
  {
    NothingBelow(g);
    PairAmong(first, other, bare);
    PairAmong(first, other, pair);
    NoLabelDecided(pos, bare, [first, other]);
    NoLabelDecided(pos, pair, [first, other]);
  }

  lemma SameNoLabel(pos: Position, bare: Label, pair: Label)
    requires Matches(pair, bare)
    ensures SameEntry(NoLabel(pos, pair), NoLabel(pos, bare))
  {
    var item, wanted: Block := [pair], [bare];
    assert SameBlock(item, wanted) && SameWord([item], [wanted]);
  }

  lemma EqualAnswers(g: Ways, pos: Position, first: Label, second: Label, bare: Label, pair: Label, other: Label)
    requires EqualOneWay(g, pos, first, second, bare, pair, other)
    ensures !CaseMightPass(g.below, EqualCase(pos, first, bare, other), [second, other], [])
  {
    var recorded, present := NoLabel(pos, bare), NoLabel(pos, pair);
    var c := EqualCase(pos, first, bare, other);
    PairAmong(first, other, bare);
    PairAmong(second, other, bare);
    NoAdvance(bare, c.ctx, [second, other]);
    SameNoLabel(pos, bare, pair);
    var nothing: seq<Entry> := [];
    assert nothing + g.below.content == [present] && c.external + c.internal == [recorded];
    assert present in [present] && Contains([present], recorded);
    assert recorded in c.external && !EntryMightPass(recorded, c.ctx, [second, other], g.below.labels);
  }

  /** Run from the beginning, the traversal has no leaf, though the second way has one: `no pair` is taken for the
      recorded `no bare`. */
  lemma EqualEntriesMislead(s: Settings, g: Ways, pos: Position, first: Label, second: Label,
                            bare: Label, pair: Label, other: Label)
    requires EqualOneWay(g, pos, first, second, bare, pair, other)
    ensures Traverse(s, g.root, [], [], NoFailures(Reach(g.root))).leaves == []
    ensures Leaf([second, other], []) in Enumerate(s, g.root, [], [])
  {
    EqualHandedDown(g, pos, first, second, bare, pair, other);
    EqualFailsFirst(g, pos, first, second, bare, pair, other);
    EqualAnswers(g, pos, first, second, bare, pair, other);
    PairAmong(second, other, pair);
    NoLabelDecided(pos, pair, [second, other]);
    assert g.first.name + g.below.name == [first, other] && g.second.name + g.below.name == [second, other];
    assert g.below.content + (g.second.content + g.root.content) == [NoLabel(pos, pair)];
    SecondVisitSkipped(s, g, [NoLabel(pos, bare)], [], EqualCase(pos, first, bare, other));
    SecondLeaf(s, g, [second, other]);
  }

  /** `no virtio` under `rhel` and `no (disk=virtio)` under `(nic=virtio)`, on equally numbered lines. */
  method RunWithEqualEntries(s: Settings, pos: Position) returns (g: Ways, leaves: seq<Leaf>)
    ensures leaves == [] && TwoWays(g)
    ensures Leaf([MakeLabel(None, "fedora"), MakeLabel(Some("nic"), "virtio")], []) in Enumerate(s, g.root, [], [])
  {
    var first, second, bare := MakeLabel(None, "rhel"), MakeLabel(None, "fedora"), MakeLabel(None, "virtio");
    var pair, other := MakeLabel(Some("disk"), "virtio"), MakeLabel(Some("nic"), "virtio");
    assert pair.longName[1] == 'd' && other.longName[1] == 'n';
    assert pair.longName[0] == '(' && first.longName[0] == 'r' && second.longName[0] == 'f';
    g := Build([], first, [NoLabel(pos, bare)], second, [], other, [NoLabel(pos, pair)]);
    ReachOfWays(g);
    EqualEntriesMislead(s, g, pos, first, second, bare, pair, other);
    leaves := Expand(s, g.root);
  }
}
