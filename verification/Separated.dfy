/** Graphs whose entries are told apart, and whose nested filters occur nowhere else, are clear. */
module Separated {
  import opened Content
  import opened Graph
  import opened Expansion
  import opened Meaning

  /** Some node of the graph holds the entry. */
  ghost predicate Held(root: Node, e: Entry)
    requires Ranked(root)
  {
    exists m | m in Reach(root) :: e in Spread(m.content)
  }

  /** In every node, `x` occurs only inside `t`. */
  ghost predicate InsideEverywhere(root: Node, t: Entry, x: Entry)
    requires Ranked(root)
  {
    forall k | k in Reach(root) :: OnlyInside(k.content, t, x)
  }

  /** Entries that compare equal are equal, and a filter inside a conditional occurs nowhere else. */
  ghost predicate WellSeparated(root: Node)
    requires Ranked(root)
  {
    && (forall item, wanted | Held(root, item) && Held(root, wanted) && SameEntry(item, wanted) :: item == wanted)
    && (forall t, x | Held(root, t) && t.IsConditional() && x in Spread(t.content) && x.IsFilter() ::
          InsideEverywhere(root, t, x))
  }

  /** What holds of the entries of each node holds of a path. */
  ghost predicate OnRoute(root: Node, path: seq<Entry>)
    requires Ranked(root)
  {
    && (forall e | e in Spread(path) :: Held(root, e))
    && (forall t: Entry, x: Entry | InsideEverywhere(root, t, x) :: OnlyInside(path, t, x))
  }

  lemma OnRouteGrows(root: Node, n: Node, above: seq<Entry>)
    requires Ranked(root) && n in Reach(root) && OnRoute(root, above)
    ensures OnRoute(root, n.content + above)
  {
    SpreadAppend(n.content, above);
    forall t: Entry, x: Entry | InsideEverywhere(root, t, x) ensures OnlyInside(n.content + above, t, x) {
      OnlyInsideAppend(n.content, above, t, x);
    }
  }

  lemma InsideEntry(t: Entry, x: Entry)
    requires t.IsConditional() && x in Spread(t.content)
    ensures x in SpreadEntry(t)
  {
  }

  lemma NestedIsHeld(root: Node, t: Entry, x: Entry)
    requires Ranked(root) && Held(root, t) && t.IsConditional() && x in Spread(t.content)
    ensures Held(root, x)
  {
    var m :| m in Reach(root) && t in Spread(m.content);
    InsideEntry(t, x);
    SpreadDeep(m.content, t, x);
    assert x in Spread(m.content);
  }

  lemma AboveIsHeld(root: Node, n: Node, e: Entry)
    requires Ranked(root) && e in Above(root, n)
    ensures Held(root, e)
  {
  }

  lemma MemberIsHeld(root: Node, n: Node, e: Entry)
    requires Ranked(root) && n in Reach(root) && e in n.content && !e.Operator?
    ensures Held(root, e)
  {
    SpreadInside(n.content, e, e);
  }

  lemma SeparatedPlain(root: Node, n: Node, path: seq<Entry>)
    requires Ranked(root) && OnRoute(root, path) && WellSeparated(root)
    ensures PlainTold(path, Above(root, n))
  {
    forall item, wanted | item in Spread(path) && wanted in Above(root, n) && SameEntry(item, wanted)
      ensures item == wanted
    {
      AboveIsHeld(root, n, wanted);
    }
  }

  lemma SeparatedPair(root: Node, own: seq<Entry>, path: seq<Entry>, t: Entry, x: Entry)
    requires Ranked(root) && OnRoute(root, path) && WellSeparated(root)
    requires Held(root, t) && t.IsConditional() && x in Spread(t.content) && x.IsFilter()
    ensures PairTold(own, path, t, x)
  {
    NestedIsHeld(root, t, x);
    assert InsideEverywhere(root, t, x);
  }

  lemma SeparatedOwn(root: Node, n: Node)
    requires Ranked(root) && n in Reach(root) && WellSeparated(root)
    ensures OwnTold(n.content)
  {
    forall t, x, item
      | t in n.content && t.IsConditional() && x in Spread(t.content) && x.IsFilter() && item in n.content
      ensures !SameEntry(item, x)
    {
      MemberIsHeld(root, n, t);
      NestedIsHeld(root, t, x);
      assert InsideEverywhere(root, t, x);
      NotBeside(n.content, t, x);
      if !item.Operator? {
        MemberIsHeld(root, n, item);
      }
    }
  }

  lemma {:induction false} SeparatedIsClear(root: Node, n: Node, above: seq<Entry>)
    requires Ranked(root) && Ranked(n) && n in Reach(root) && OnRoute(root, above) && WellSeparated(root)
    ensures Clear(n, above, root)
    decreases n.height
  {
    var path := n.content + above;
    OnRouteGrows(root, n, above);
    SeparatedPlain(root, n, path);
    forall t, x | t in Above(root, n) && t.IsConditional() && x in Spread(t.content) && x.IsFilter()
      ensures PairTold(n.content, path, t, x)
    {
      AboveIsHeld(root, n, t);
      SeparatedPair(root, n.content, path, t, x);
    }
    SeparatedOwn(root, n);
    forall i | 0 <= i < |n.children| ensures Clear(n.children[i], path, root) {
      ReachOfChild(n, i);
      ReachTransitive(root, n, n.children[i]);
      SeparatedIsClear(root, n.children[i], path);
    }
  }

  /** A graph whose entries are well separated is clear, so its expansion is right. */
  lemma SeparatedGraphsAreClear(root: Node)
    requires WellFormed(root) && WellSeparated(root)
    ensures AllClear(root)
  {
    var nothing: seq<Entry> := [];
    assert OnRoute(root, nothing);
    assert root.content + nothing == root.content;
    SeparatedIsClear(root, root, nothing);
  }
}
