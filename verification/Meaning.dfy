/** The main results about expansion: the traversal lists exactly the accepted paths, and on a compiled
    configuration it gives the dictionaries that carrying out the statements path by path would give. */
module Meaning {
  import opened Options
  import opened Sequences
  import opened Labels
  import opened Operators
  import opened Content
  import opened Graph
  import opened Expansion
  import opened Assignments

  // ----- a whole expansion -----

  /** No visit has been recorded yet. */
  ghost function NoFailures(nodes: set<Node>): Caches {
    map m | m in nodes :: []
  }

  /** In the whole graph no entry is harmfully taken for another. The root is visited once, so nothing is asked of
      what it holds by itself. */
  ghost predicate AllClear(root: Node) {
    WellFormed(root) && ClearBelow(root, root.content, root)
  }

  /** Expanding a whole graph, with no visit recorded yet. Where the entries are clear, the leaves are those of the
      simple meaning. */
  method Expand(s: Settings, root: Node) returns (leaves: seq<Leaf>)
    requires WellFormed(root) && forall m | m in Reach(root) :: m.failedCases == []
    modifies Reach(root)
    ensures leaves == Traverse(s, root, [], [], NoFailures(Reach(root))).leaves
    ensures AllClear(root) ==> leaves == Enumerate(s, root, [], [])
    ensures forall m | m in Reach(root) :: |m.failedCases| <= 5
  {
    ghost var nodes := Reach(root);
    assert CachesOf(nodes) == NoFailures(nodes);
    leaves := GetDicts(s, root, [], [], nodes);
    TraverseBounded(s, root, [], [], NoFailures(nodes));
    assert forall m | m in nodes :: m.failedCases == CachesOf(nodes)[m];
    if AllClear(root) {
      TraverseWhole(s, root);
    }
  }

  lemma TraverseWhole(s: Settings, root: Node)
    requires AllClear(root)
    ensures Traverse(s, root, [], [], NoFailures(Reach(root))).leaves == Enumerate(s, root, [], [])
  {
    var outer := root.labels + Elements(root.name);
    var nothing: seq<Entry> := [];
    assert root.content + nothing == root.content;
    NameEnclosed(root.name, root.labels);
    assert KeptFrom(nothing, nothing, [], outer);
    TraverseIsEnumerate(s, root, [], nothing, nothing, outer, NoFailures(Reach(root)), root);
  }

  lemma NameEnclosed(name: seq<Label>, labels: set<Label>)
    ensures Encloses(labels + Elements(name), name, labels)
  {
    var outer := labels + Elements(name);
    forall l: Label, wanted: Label | l in name && Matches(l, wanted) ensures Lookup(outer, wanted) {
      MatchingLabelsHashAlike(l, wanted);
      assert l in outer;
    }
  }

  // ----- the simple meaning is about paths -----

  /** A path from a node to a leaf, as the choices of a child. */
  ghost predicate ValidRoute(n: Node, route: seq<nat>)
    requires Ranked(n)
    decreases n.height
  {
    if n.children == [] then route == []
    else route != [] && route[0] < |n.children| && ValidRoute(n.children[route[0]], route[1..])
  }

  ghost function RouteLabels(n: Node, route: seq<nat>): seq<Label>
    requires Ranked(n) && ValidRoute(n, route)
    decreases n.height
  {
    n.name + if route == [] then [] else RouteLabels(n.children[route[0]], route[1..])
  }

  /** Everything the nodes of the path hold, the leaf first. */
  ghost function RouteContent(n: Node, route: seq<nat>): seq<Entry>
    requires Ranked(n) && ValidRoute(n, route)
    decreases n.height
  {
    (if route == [] then [] else RouteContent(n.children[route[0]], route[1..])) + n.content
  }

  ghost function Routes(n: Node): (routes: seq<seq<nat>>)
    requires Ranked(n)
    ensures forall r :: r in routes <==> ValidRoute(n, r)
    decreases n.height
  {
    if n.children == [] then [[]] else
      var routes := RoutesFrom(n, 0);
      assert forall r :: ValidRoute(n, r) ==> r == [r[0]] + r[1..];
      routes
  }

  ghost function RoutesFrom(n: Node, k: nat): (routes: seq<seq<nat>>)
    requires Ranked(n) && k <= |n.children|
    ensures forall r :: r in routes <==> r != [] && k <= r[0] < |n.children| && ValidRoute(n.children[r[0]], r[1..])
    decreases n.height, |n.children| - k
  {
    if k == |n.children| then []
    else Prepended(k, Routes(n.children[k])) + RoutesFrom(n, k + 1)
  }

  ghost function Prepended(k: nat, routes: seq<seq<nat>>): (r: seq<seq<nat>>)
    ensures |r| == |routes| && forall i | 0 <= i < |r| :: r[i] == [k] + routes[i]
    ensures forall x :: x in r <==> x != [] && x[0] == k && x[1..] in routes
  {
    if routes == [] then []
    else
      var r := [[k] + routes[0]] + Prepended(k, routes[1..]);
      assert forall x: seq<nat> :: x != [] && x[0] == k && x[1..] == routes[0] ==> x == [k] + routes[0];
      r
  }

  ghost function LeafAt(n: Node, route: seq<nat>, ctx: seq<Label>, content: seq<Entry>): seq<Leaf>
    requires Ranked(n) && ValidRoute(n, route)
  {
    var labels := ctx + RouteLabels(n, route);
    LeavesOf(labels, Evaluate(RouteContent(n, route) + content, labels))
  }

  ghost predicate RoutesValid(n: Node, routes: seq<seq<nat>>)
    requires Ranked(n)
  {
    forall i | 0 <= i < |routes| :: ValidRoute(n, routes[i])
  }

  ghost function LeavesAlong(n: Node, routes: seq<seq<nat>>, ctx: seq<Label>, content: seq<Entry>): seq<Leaf>
    requires Ranked(n) && RoutesValid(n, routes)
  {
    if routes == [] then [] else LeafAt(n, routes[0], ctx, content) + LeavesAlong(n, routes[1..], ctx, content)
  }

  lemma {:induction false} LeavesAlongAppend(n: Node, a: seq<seq<nat>>, b: seq<seq<nat>>, ctx: seq<Label>,
                                             content: seq<Entry>)
    requires Ranked(n) && RoutesValid(n, a) && RoutesValid(n, b)
    ensures RoutesValid(n, a + b)
    ensures LeavesAlong(n, a + b, ctx, content) == LeavesAlong(n, a, ctx, content) + LeavesAlong(n, b, ctx, content)
  {
    if a == [] {
      assert a + b == b;
    } else {
      LeavesAlongAppend(n, a[1..], b, ctx, content);
      LeavesAlongHead(n, a[0], a[1..], ctx, content);
      LeavesAlongHead(n, a[0], a[1..] + b, ctx, content);
      HeadOfAppend(a, b);
      Associates(LeafAt(n, a[0], ctx, content), LeavesAlong(n, a[1..], ctx, content), LeavesAlong(n, b, ctx, content));
    }
  }

  lemma LeavesAlongHead(n: Node, route: seq<nat>, rest: seq<seq<nat>>, ctx: seq<Label>, content: seq<Entry>)
    requires Ranked(n) && ValidRoute(n, route) && RoutesValid(n, rest)
    ensures RoutesValid(n, [route] + rest)
    ensures LeavesAlong(n, [route] + rest, ctx, content)
         == LeafAt(n, route, ctx, content) + LeavesAlong(n, rest, ctx, content)
  {
    var routes := [route] + rest;
    assert routes[0] == route && routes[1..] == rest;
  }

  lemma LeafOfChild(n: Node, k: nat, route: seq<nat>, ctx: seq<Label>, content: seq<Entry>)
    requires Ranked(n) && k < |n.children| && ValidRoute(n.children[k], route)
    ensures ValidRoute(n, [k] + route)
    ensures LeafAt(n, [k] + route, ctx, content) == LeafAt(n.children[k], route, ctx + n.name, n.content + content)
  {
    var r, child := [k] + route, n.children[k];
    assert r[1..] == route;
    assert ctx + RouteLabels(n, r) == ctx + n.name + RouteLabels(child, route);
    assert RouteContent(n, r) + content == RouteContent(child, route) + (n.content + content);
  }

  lemma {:induction false} LeavesOfChild(n: Node, k: nat, routes: seq<seq<nat>>, ctx: seq<Label>, content: seq<Entry>)
    requires Ranked(n) && k < |n.children| && RoutesValid(n.children[k], routes)
    ensures RoutesValid(n, Prepended(k, routes))
    ensures LeavesAlong(n, Prepended(k, routes), ctx, content)
         == LeavesAlong(n.children[k], routes, ctx + n.name, n.content + content)
  {
    if routes != [] {
      LeafOfChild(n, k, routes[0], ctx, content);
      LeavesOfChild(n, k, routes[1..], ctx, content);
      assert Prepended(k, routes)[1..] == Prepended(k, routes[1..]);
    }
  }

  /** Without default variants, the expansion is: for each path in order, the leaf if its content accepts. */
  lemma {:induction false} EnumerateIsAllRoutes(s: Settings, n: Node, ctx: seq<Label>, content: seq<Entry>)
    requires Ranked(n) && !s.defaults
    ensures RoutesValid(n, Routes(n))
    ensures Enumerate(s, n, ctx, content) == LeavesAlong(n, Routes(n), ctx, content)
    decreases n.height, |n.children| + 1
  {
    if n.children == [] {
      assert [] + n.content == n.content && n.name + [] == n.name;
      assert LeavesAlong(n, [[]], ctx, content) == LeafAt(n, [], ctx, content) + [];
    } else {
      EnumerateFromIsRoutes(s, n, 0, ctx, content, false);
    }
  }

  lemma {:induction false} EnumerateFromIsRoutes(s: Settings, n: Node, k: nat, ctx: seq<Label>, content: seq<Entry>,
                                                 found: bool)
    requires Ranked(n) && !s.defaults && n.children != [] && k <= |n.children|
    ensures RoutesValid(n, RoutesFrom(n, k))
    ensures EnumerateFrom(s, n, k, ctx + n.name, n.content + content, found)
         == LeavesAlong(n, RoutesFrom(n, k), ctx, content)
    decreases n.height, |n.children| - k
  {
    if k < |n.children| {
      var child := n.children[k];
      var ctx', content' := ctx + n.name, n.content + content;
      EnumerateIsAllRoutes(s, child, ctx', content');
      LeavesOfChild(n, k, Routes(child), ctx, content);
      var leaves := Enumerate(s, child, ctx', content');
      EnumerateFromIsRoutes(s, n, k + 1, ctx, content, found || leaves != []);
      LeavesAlongAppend(n, Prepended(k, Routes(child)), RoutesFrom(n, k + 1), ctx, content);
    }
  }

  // ----- dictionaries -----

  /** A configuration before parsing: variants with the statements of their blocks. */
  datatype Tree = Tree(varName: Option<string>, name: seq<Label>, body: seq<Statement>, isDefault: bool,
                       children: seq<Tree>)

  /** The graph below `n` is what the parser builds for `t`, in whatever way it shares nodes. */
  ghost predicate Represents(n: Node, t: Tree)
    requires Ranked(n)
    decreases n.height
  {
    && n.varName == t.varName && n.name == t.name && n.isDefault == t.isDefault
    && Implements(n.content, t.body)
    && |n.children| == |t.children|
    && forall i | 0 <= i < |n.children| :: Represents(n.children[i], t.children[i])
  }

  /** The dictionary a leaf starts from, as a function of its labels. */
  type Start = seq<Label> -> Dict

  function DictOf(subst: Substitution, start: Start, leaf: Leaf): Dict {
    ApplyAll(subst, leaf.ops, start(leaf.ctx))
  }

  function DictsOf(subst: Substitution, start: Start, leaves: seq<Leaf>): (ds: seq<Dict>)
    ensures |ds| == |leaves|
  {
    if leaves == [] then [] else [DictOf(subst, start, leaves[0])] + DictsOf(subst, start, leaves[1..])
  }

  lemma {:induction false} DictsOfAppend(subst: Substitution, start: Start, a: seq<Leaf>, b: seq<Leaf>)
    ensures DictsOf(subst, start, a + b) == DictsOf(subst, start, a) + DictsOf(subst, start, b)
  {
    if a == [] {
      assert a + b == b;
    } else {
      assert (a + b)[1..] == a[1..] + b;
      DictsOfAppend(subst, start, a[1..], b);
    }
  }

  /** The meaning of a configuration: walk every path and carry out the statements of its blocks, the leaf's
      first, one by one; a path one of whose filters rejects it gives nothing. */
  function Dictionaries(s: Settings, subst: Substitution, start: Start, t: Tree, ctx: seq<Label>,
                        stmts: seq<Statement>): seq<Dict>
    decreases t, |t.children| + 1
  {
    if t.children == [] then
      match Execute(subst, t.body + stmts, ctx + t.name, start(ctx + t.name))
      case None => []
      case Some(d) => [d]
    else DictionariesFrom(s, subst, start, t, 0, ctx + t.name, t.body + stmts, false)
  }

  function DictionariesFrom(s: Settings, subst: Substitution, start: Start, t: Tree, k: nat,
                            ctx: seq<Label>, stmts: seq<Statement>, found: bool): seq<Dict>
    requires k <= |t.children|
    decreases t, |t.children| - k
  {
    if k == |t.children| then []
    else
      var child := t.children[k];
      var ds := Dictionaries(s, subst, start, child, ctx, stmts);
      var found' := found || ds != [];
      var stops := s.defaults && (t.varName.None? || t.varName.value !in s.expandDefaults) && child.isDefault;
      if stops && found' then ds else ds + DictionariesFrom(s, subst, start, t, k + 1, ctx, stmts, found')
  }

  lemma {:induction false} EnumerateMeansDictionaries(s: Settings, subst: Substitution, start: Start, n: Node, t: Tree,
                                                      ctx: seq<Label>, content: seq<Entry>, stmts: seq<Statement>)
    requires Ranked(n) && Represents(n, t) && Implements(content, stmts)
    ensures DictsOf(subst, start, Enumerate(s, n, ctx, content)) == Dictionaries(s, subst, start, t, ctx, stmts)
    decreases n.height, |n.children| + 1
  {
    ImplementsAppend(n.content, t.body, content, stmts);
    var labels := ctx + n.name;
    if n.children == [] {
      assert Run(subst, n.content + content, labels, start(labels))
          == Execute(subst, t.body + stmts, labels, start(labels));
    } else {
      EnumerateFromMeansDictionaries(s, subst, start, n, t, 0, labels, n.content + content, t.body + stmts, false);
    }
  }

  lemma {:induction false} EnumerateFromMeansDictionaries(s: Settings, subst: Substitution, start: Start, n: Node,
                                                          t: Tree, k: nat, ctx: seq<Label>, content: seq<Entry>,
                                                          stmts: seq<Statement>, found: bool)
    requires Ranked(n) && Represents(n, t) && Implements(content, stmts) && k <= |n.children|
    ensures DictsOf(subst, start, EnumerateFrom(s, n, k, ctx, content, found))
         == DictionariesFrom(s, subst, start, t, k, ctx, stmts, found)
    decreases n.height, |n.children| - k
  {
    if k < |n.children| {
      var leaves := Enumerate(s, n.children[k], ctx, content);
      var found' := found || leaves != [];
      EnumerateMeansDictionaries(s, subst, start, n.children[k], t.children[k], ctx, content, stmts);
      EnumerateFromMeansDictionaries(s, subst, start, n, t, k + 1, ctx, content, stmts, found');
      DictsOfAppend(subst, start, leaves, EnumerateFrom(s, n, k + 1, ctx, content, found'));
    }
  }

  /** Batched assignments, pruned filters and remembered failures together: the dictionaries of an expansion
      are those of the configuration's meaning, in order. */
  method ExpandToDicts(s: Settings, subst: Substitution, start: Start, root: Node,
                       ghost t: Tree) returns (dicts: seq<Dict>)
    requires AllClear(root) && Represents(root, t)
    requires forall m | m in Reach(root) :: m.failedCases == []
    modifies Reach(root)
    ensures dicts == Dictionaries(s, subst, start, t, [], [])
  {
    var leaves := Expand(s, root);
    EnumerateMeansDictionaries(s, subst, start, root, t, [], [], []);
    dicts := LeavesToDicts(subst, start, leaves);
  }

  method LeavesToDicts(subst: Substitution, start: Start, leaves: seq<Leaf>) returns (dicts: seq<Dict>)
    ensures dicts == DictsOf(subst, start, leaves)
  {
    dicts := [];
    for i := 0 to |leaves|
      invariant dicts == DictsOf(subst, start, leaves[..i])
    {
      var d := LeafToDict(subst, start, leaves[i]);
      assert leaves[..i + 1] == leaves[..i] + [leaves[i]];
      DictsOfAppend(subst, start, leaves[..i], [leaves[i]]);
      dicts := dicts + [d];
    }
    assert leaves[..|leaves|] == leaves;
  }

  method LeafToDict(subst: Substitution, start: Start, leaf: Leaf) returns (d: Dict)
    ensures d == DictOf(subst, start, leaf)
  {
    d := start(leaf.ctx);
    for j := 0 to |leaf.ops|
      invariant ApplyAll(subst, leaf.ops[j..], d) == DictOf(subst, start, leaf)
    {
      assert leaf.ops[j..][1..] == leaf.ops[j + 1..];
      d := Apply(subst, leaf.ops[j], d);
    }
  }
}
