/** The graph of nodes the parser builds, and the simple meaning of expanding it. */
module Graph {
  import opened Options
  import opened Labels
  import opened Filters
  import opened Operators
  import opened Content

  /** A visit of a node that failed: the context and the entries that failed, from outside and from the node. */
  datatype Case = Case(ctx: seq<Label>, external: seq<Entry>, internal: seq<Entry>)

  datatype Settings = Settings(defaults: bool, expandDefaults: seq<string>)

  datatype Leaf = Leaf(ctx: seq<Label>, ops: seq<Op>)

  class Node {
    const varName: Option<string>
    const name: seq<Label>
    const content: seq<Entry>
    const children: seq<Node>
    const labels: set<Label>
    const isDefault: bool
    ghost const height: nat
    var failedCases: seq<Case>

    /** The node a parser starts with, and with it the leaf of every path. */
    constructor Start(content: seq<Entry>)
      ensures WellFormed(this)
      ensures this.children == [] && this.name == [] && this.content == content && !this.isDefault
      ensures failedCases == []
    {
      this.varName, this.name, this.content, this.children := None, [], content, [];
      this.labels, this.isDefault, this.height, failedCases := {}, false, 0, [];
    }

    /** A variant without variants of its own: one unnamed child, whose label set it shares. */
    constructor Variant(varName: Option<string>, name: seq<Label>, content: seq<Entry>, isDefault: bool, child: Node)
      requires WellFormed(child) && child.name == []
      ensures WellFormed(this) && this.children == [child] && this.labels == child.labels
      ensures this.varName == varName && this.name == name && this.content == content && this.isDefault == isDefault
      ensures failedCases == []
    {
      this.varName, this.name, this.content, this.children := varName, name, content, [child];
      this.labels, this.isDefault, this.height, failedCases := child.labels, isDefault, child.height + 1, [];
      new;
      assert Below(this) == BelowFirst([child], 0, height) + Below(child) + Elements([]);
    }

    /** A block of variants: the label set is merged from the children and their names. */
    constructor Variants(varName: Option<string>, name: seq<Label>, content: seq<Entry>, isDefault: bool,
                         children: seq<Node>)
      requires AllWellFormed(children)
      ensures WellFormed(this) && this.children == children
      ensures this.varName == varName && this.name == name && this.content == content && this.isDefault == isDefault
      ensures failedCases == []
    {
      var merged := MergeLabels(children, Height(children));
      this.varName, this.name, this.content, this.children := varName, name, content, children;
      this.labels, this.isDefault, this.height, failedCases := merged, isDefault, Height(children), [];
    }
  }

  ghost function Height(nodes: seq<Node>): (h: nat)
    ensures forall i | 0 <= i < |nodes| :: nodes[i].height < h
  {
    if nodes == [] then 0
    else
      var h := Height(nodes[1..]);
      if h <= nodes[0].height then nodes[0].height + 1 else h
  }

  // ----- well-formed graphs -----

  /** The graph below a node is acyclic. */
  ghost predicate Ranked(n: Node)
    decreases n.height
  {
    forall i | 0 <= i < |n.children| :: n.children[i].height < n.height && Ranked(n.children[i])
  }

  /** The names on the strict descendants of a node. */
  ghost function Below(n: Node): set<Label>
    requires Ranked(n)
    decreases n.height
  {
    BelowFirst(n.children, |n.children|, n.height)
  }

  ghost predicate AllLower(nodes: seq<Node>, bound: nat) {
    forall i | 0 <= i < |nodes| :: nodes[i].height < bound && Ranked(nodes[i])
  }

  /** The names on the first `k` nodes and on what lies below them. */
  ghost function BelowFirst(nodes: seq<Node>, k: nat, bound: nat): set<Label>
    requires k <= |nodes| && AllLower(nodes, bound)
    decreases bound, k
  {
    if k == 0 then {} else BelowFirst(nodes, k - 1, bound) + Below(nodes[k - 1]) + Elements(nodes[k - 1].name)
  }

  lemma {:induction false} BelowFirstHas(nodes: seq<Node>, k: nat, bound: nat, i: nat)
    requires i < k <= |nodes| && AllLower(nodes, bound)
    ensures Elements(nodes[i].name) + Below(nodes[i]) <= BelowFirst(nodes, k, bound)
  {
    if i < k - 1 {
      BelowFirstHas(nodes, k - 1, bound, i);
    }
  }

  /** The label set of each node indexes the names on its strict descendants. */
  ghost predicate Indexed(n: Node)
    requires Ranked(n)
    decreases n.height
  {
    Indexes(n.labels, Below(n)) && forall i | 0 <= i < |n.children| :: Indexed(n.children[i])
  }

  ghost predicate WellFormed(n: Node) {
    Ranked(n) && Indexed(n)
  }

  ghost predicate AllWellFormed(nodes: seq<Node>) {
    forall i | 0 <= i < |nodes| :: WellFormed(nodes[i])
  }

  ghost function Reach(n: Node): set<Node>
    requires Ranked(n)
    decreases n.height
  {
    {n} + set i, m | 0 <= i < |n.children| && m in Reach(n.children[i]) :: m
  }

  method MergeLabels(children: seq<Node>, ghost bound: nat) returns (merged: set<Label>)
    requires AllWellFormed(children) && AllLower(children, bound)
    ensures Indexes(merged, BelowFirst(children, |children|, bound))
  {
    merged := {};
    for i := 0 to |children|
      invariant Indexes(merged, BelowFirst(children, i, bound))
    {
      var c := children[i];
      ghost var known := BelowFirst(children, i, bound);
      merged := UpdateFromSet(merged, known, c.labels, Below(c));
      merged := UpdateFromList(merged, known + Below(c), c.name);
      assert BelowFirst(children, i + 1, bound) == known + Below(c) + Elements(c.name);
    }
  }

  // ----- the simple meaning: every path, everything evaluated once on the full list of labels -----

  ghost function LeavesOf(ctx: seq<Label>, outcome: Outcome): seq<Leaf> {
    if outcome.Accepted? then [Leaf(ctx, outcome.ops)] else []
  }

  predicate StopsAfter(s: Settings, n: Node, child: Node) {
    s.defaults && (n.varName.None? || n.varName.value !in s.expandDefaults) && child.isDefault
  }

  /** `content` is what the ancestors hold, nearest first, nothing of it evaluated yet. */
  ghost function Enumerate(s: Settings, n: Node, ctx: seq<Label>, content: seq<Entry>): seq<Leaf>
    requires Ranked(n)
    decreases n.height, |n.children| + 1
  {
    if n.children == [] then LeavesOf(ctx + n.name, Evaluate(n.content + content, ctx + n.name))
    else EnumerateFrom(s, n, 0, ctx + n.name, n.content + content, false)
  }

  /** The children from the `k`-th on; `found` says whether an earlier one gave a leaf. */
  ghost function EnumerateFrom(s: Settings, n: Node, k: nat, ctx: seq<Label>, content: seq<Entry>,
                               found: bool): seq<Leaf>
    requires Ranked(n) && k <= |n.children|
    decreases n.height, |n.children| - k
  {
    if k == |n.children| then []
    else
      var leaves := Enumerate(s, n.children[k], ctx, content);
      var found' := found || leaves != [];
      if StopsAfter(s, n, n.children[k]) && found' then leaves
      else leaves + EnumerateFrom(s, n, k + 1, ctx, content, found')
  }

  // ----- pruned content has the same meaning -----

  lemma BelowFromChild(n: Node, i: nat, l: Label)
    requires Ranked(n) && i < |n.children|
    requires l in n.children[i].name || l in Below(n.children[i])
    ensures l in Below(n)
  {
    BelowFirstHas(n.children, |n.children|, n.height, i);
  }

  lemma CoveredFromChild(n: Node, i: nat, ext: seq<Label>)
    requires WellFormed(n) && i < |n.children| && Covered(ext, n.children[i].labels)
    ensures Covered(n.children[i].name + ext, n.labels)
  {
    var c := n.children[i];
    forall l, wanted: Label | l in c.name + ext && Matches(l, wanted) ensures Lookup(n.labels, wanted) {
      if l in ext {
        assert Indexed(c) && Lookup(c.labels, wanted);
        var below :| below in Below(c) && Matches(below, wanted);
        BelowFromChild(n, i, below);
      } else {
        BelowFromChild(n, i, l);
      }
      assert AnyMatches(Below(n), wanted);
    }
  }

  /** What a node knows covers the names of its children and what they know. */
  lemma ChildEnclosed(n: Node, i: nat)
    requires WellFormed(n) && i < |n.children|
    ensures Encloses(n.labels, n.children[i].name, n.children[i].labels)
  {
    var c := n.children[i];
    CoveredFromChild(n, i, []);
    assert c.name + [] == c.name;
    forall wanted: Label | Lookup(c.labels, wanted) ensures Lookup(n.labels, wanted) {
      assert Indexed(c);
      var below :| below in Below(c) && Matches(below, wanted);
      BelowFromChild(n, i, below);
      assert AnyMatches(Below(n), wanted);
    }
  }

  lemma RefinesAtChild(n: Node, i: nat, kept: seq<Entry>, content: seq<Entry>, ctx: seq<Label>)
    requires WellFormed(n) && i < |n.children| && Refines(kept, content, ctx, n.labels)
    ensures var c := n.children[i]; Refines(c.content + kept, c.content + content, ctx + c.name, c.labels)
  {
    var c := n.children[i];
    forall ext: seq<Label> | Covered(ext, c.labels)
      ensures Evaluate(c.content + kept, ctx + c.name + ext) == Evaluate(c.content + content, ctx + c.name + ext)
    {
      CoveredFromChild(n, i, ext);
      assert ctx + (c.name + ext) == ctx + c.name + ext;
      EvaluateAppend(c.content, kept, ctx + c.name + ext);
      EvaluateAppend(c.content, content, ctx + c.name + ext);
    }
  }

  lemma RefutedAtChild(n: Node, i: nat, content: seq<Entry>, ctx: seq<Label>)
    requires WellFormed(n) && i < |n.children| && Refuted(content, ctx, n.labels)
    ensures var c := n.children[i]; Refuted(c.content + content, ctx + c.name, c.labels)
  {
    var c := n.children[i];
    forall ext: seq<Label> | Covered(ext, c.labels)
      ensures Evaluate(c.content + content, ctx + c.name + ext) == Rejected
    {
      CoveredFromChild(n, i, ext);
      assert ctx + (c.name + ext) == ctx + c.name + ext;
      EvaluateAppend(c.content, content, ctx + c.name + ext);
    }
  }

  lemma CoveredNothing(labels: set<Label>, ctx: seq<Label>)
    ensures Covered([], labels) && ctx + [] == ctx
  {
  }

  /** Carrying down the pruned content enumerates the same leaves as carrying down everything. */
  lemma {:induction false} EnumerateFromRefines(s: Settings, n: Node, k: nat, ctx: seq<Label>,
                                                kept: seq<Entry>, content: seq<Entry>, found: bool)
    requires WellFormed(n) && k <= |n.children| && Refines(kept, content, ctx, n.labels)
    ensures EnumerateFrom(s, n, k, ctx, kept, found) == EnumerateFrom(s, n, k, ctx, content, found)
    decreases n.height, |n.children| - k
  {
    if k < |n.children| {
      var c := n.children[k];
      RefinesAtChild(n, k, kept, content, ctx);
      if c.children == [] {
        CoveredNothing(c.labels, ctx + c.name);
      } else {
        EnumerateFromRefines(s, c, 0, ctx + c.name, c.content + kept, c.content + content, false);
      }
      var leaves := Enumerate(s, c, ctx, content);
      assert leaves == Enumerate(s, c, ctx, kept);
      EnumerateFromRefines(s, n, k + 1, ctx, kept, content, found || leaves != []);
    }
  }

  /** A refuted content has no leaf. */
  lemma {:induction false} RefutedHasNoLeaf(s: Settings, n: Node, ctx: seq<Label>, content: seq<Entry>)
    requires WellFormed(n) && Refuted(n.content + content, ctx + n.name, n.labels)
    ensures Enumerate(s, n, ctx, content) == []
    decreases n.height, |n.children| + 1
  {
    if n.children == [] {
      CoveredNothing(n.labels, ctx + n.name);
    } else {
      RefutedHasNoLeafFrom(s, n, 0, ctx + n.name, n.content + content);
    }
  }

  lemma {:induction false} RefutedHasNoLeafFrom(s: Settings, n: Node, k: nat, ctx: seq<Label>, content: seq<Entry>)
    requires WellFormed(n) && k <= |n.children| && Refuted(content, ctx, n.labels)
    ensures EnumerateFrom(s, n, k, ctx, content, false) == []
    decreases n.height, |n.children| - k
  {
    if k < |n.children| {
      var c := n.children[k];
      RefutedAtChild(n, k, content, ctx);
      RefutedHasNoLeaf(s, c, ctx, content);
      RefutedHasNoLeafFrom(s, n, k + 1, ctx, content);
    }
  }
}
