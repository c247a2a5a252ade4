/** The traversal that expands a graph: content is pruned on the way down, and each node remembers its
    last failed visits to skip subtrees that would fail again. */
module Expansion {
  import opened Options
  import opened Sequences
  import opened Labels
  import opened Adjacent
  import opened Filters
  import opened Operators
  import opened Content
  import opened Graph

  const NUM_FAILED_CASES := 5

  // ----- when entries compare equal -----

  predicate SameBlock(item: Block, wanted: Block) {
    |item| == |wanted| && forall k | 0 <= k < |item| :: Matches(item[k], wanted[k])
  }

  predicate SameWord(item: seq<Block>, wanted: seq<Block>) {
    |item| == |wanted| && forall b | 0 <= b < |item| :: SameBlock(item[b], wanted[b])
  }

  predicate SameFilter(item: Filter, wanted: Filter) {
    |item| == |wanted| && forall w | 0 <= w < |item| :: SameWord(item[w], wanted[w])
  }

  /** `item == wanted` on (file, line, object) triples: filters and conditionals are compared by class and
      filter, the content of a conditional is not looked at; operators are compared as objects. */
  predicate SameEntry(item: Entry, wanted: Entry) {
    if item.Operator? || wanted.Operator? then item == wanted
    else
      && item.pos == wanted.pos
      && (item.Only? <==> wanted.Only?) && (item.No? <==> wanted.No?) && (item.Condition? <==> wanted.Condition?)
      && SameFilter(item.filter, wanted.filter)
  }

  lemma SameAsItself(e: Entry)
    ensures SameEntry(e, e)
  {
    if !e.Operator? {
      assert SameFilter(e.filter, e.filter);
    }
  }

  /** Entries at different lines or in different files, and entries of different kinds, are told apart. */
  lemma ToldByPlaceOrKind(item: Entry, wanted: Entry)
    requires SameEntry(item, wanted)
    ensures item.pos == wanted.pos && (item.Operator? <==> wanted.Operator?)
    ensures (item.Only? <==> wanted.Only?) && (item.No? <==> wanted.No?)
    ensures (item.Condition? <==> wanted.Condition?) && (item.NegativeCondition? <==> wanted.NegativeCondition?)
  {
  }

  /** At the same place, filters are compared label by label, with the recorded one on the right; what a conditional
      holds is not looked at. */
  lemma ComparedByLabels(pos: Position, item: Label, wanted: Label, inside: seq<Entry>, other: seq<Entry>)
    ensures var same := if wanted.varName.Some? then item == wanted else item.name == wanted.name;
      && (SameEntry(Only(pos, [[[item]]]), Only(pos, [[[wanted]]])) <==> same)
      && (SameEntry(No(pos, [[[item]]]), No(pos, [[[wanted]]])) <==> same)
      && (SameEntry(Condition(pos, [[[item]]], inside), Condition(pos, [[[wanted]]], other)) <==> same)
      && (SameEntry(NegativeCondition(pos, [[[item]]], inside), NegativeCondition(pos, [[[wanted]]], other)) <==> same)
  {
    MatchesExactly(item, wanted);
    var a: Block, b: Block := [item], [wanted];
    assert SameBlock(a, b) <==> Matches(a[0], b[0]);
    assert SameWord([a], [b]) <==> SameBlock([a][0], [b][0]);
    assert SameFilter([[a]], [[b]]) <==> SameWord([[a]][0], [[b]][0]);
  }

  predicate Contains(content: seq<Entry>, wanted: Entry) {
    exists item | item in content :: SameEntry(item, wanted)
  }

  ghost predicate EntriesIn(content: seq<Entry>, all: set<Entry>) {
    forall e | e in Spread(content) :: e in all
  }

  /** Every filter and conditional that the nodes above `n` hold, on whatever path: what `n` may be handed down. */
  ghost function Above(top: Node, n: Node): set<Entry>
    requires Ranked(top)
  {
    set m, e | m in Reach(top) && m != n && Ranked(m) && n in Reach(m) && e in Spread(m.content) :: e
  }

  /** Where an entry of the path is taken for a plain filter, they are the same, or the filter is an `only`, or it
      stands on the path as well. */
  ghost predicate PlainTold(path: seq<Entry>, given: set<Entry>) {
    forall item, wanted | item in Spread(path) && wanted in given && wanted.IsFilter() && SameEntry(item, wanted) ::
      item == wanted || wanted.Only? || wanted in path
  }

  /** Where entries of the path are taken for a conditional and for a filter inside it, the filter is the same and
      occurs on the path only inside the conditional, the two conditionals have the same filter, and they stand in
      the node together if one does. */
  ghost predicate PairTold(own: seq<Entry>, path: seq<Entry>, t: Entry, x: Entry)
    requires t.IsConditional()
  {
    forall item, inner | item in Spread(path) && inner in Spread(path) && SameEntry(item, t) && SameEntry(inner, x) ::
      inner == x && item.filter == t.filter && OnlyInside(path, t, x) && (item in own ==> t in own)
  }

  ghost predicate NestedTold(own: seq<Entry>, path: seq<Entry>, given: set<Entry>) {
    forall t, x | t in given && t.IsConditional() && x in Spread(t.content) && x.IsFilter() :: PairTold(own, path, t, x)
  }

  /** No entry of the node is taken for a filter inside a conditional beside it. */
  ghost predicate OwnTold(own: seq<Entry>) {
    forall t, x, item | t in own && t.IsConditional() && x in Spread(t.content) && x.IsFilter() && item in own ::
      !SameEntry(item, x)
  }

  ghost predicate Told(n: Node, path: seq<Entry>, given: set<Entry>) {
    PlainTold(path, given) && NestedTold(n.content, path, given) && OwnTold(n.content)
  }

  /** On every path through `n`, below what `above` holds, no entry is harmfully taken for another. Nothing is asked
      of operators, nor of conditionals that hold no filter, and entries of any kind may be repeated. */
  ghost predicate Clear(n: Node, above: seq<Entry>, top: Node)
    requires Ranked(top) && Ranked(n)
    decreases n.height
  {
    && Told(n, n.content + above, Above(top, n))
    && forall i | 0 <= i < |n.children| :: Clear(n.children[i], n.content + above, top)
  }

  /** The same for the nodes below one that is visited only once. */
  ghost predicate ClearBelow(n: Node, path: seq<Entry>, top: Node)
    requires Ranked(top) && Ranked(n)
  {
    forall i | 0 <= i < |n.children| :: Clear(n.children[i], path, top)
  }

  /** A conditional that holds no filter cannot fail, so nothing depends on telling it from another. */
  lemma ConditionalsWithoutFilters(own: seq<Entry>, path: seq<Entry>, given: set<Entry>)
    requires forall t, x | (t in own || t in given) && t.IsConditional() && x in Spread(t.content) :: !x.IsFilter()
    ensures NestedTold(own, path, given) && OwnTold(own)
  {
  }

  // ----- the cache of failed visits -----

  predicate EntryMightPass(e: Entry, failedCtx: seq<Label>, ctx: seq<Label>, labels: set<Label>) {
    if e.Operator? then true
    else if e.Only? || e.NegativeCondition? then OnlyMightPass(e.filter, failedCtx, ctx, labels)
    else NoMightPass(e.filter, failedCtx, ctx)
  }

  lemma StillRequiresAction(e: Entry, failedCtx: seq<Label>, ctx: seq<Label>, labels: set<Label>)
    requires !e.Operator? && RequiresAction(e, failedCtx, labels) && !EntryMightPass(e, failedCtx, ctx, labels)
    ensures RequiresAction(e, ctx, labels)
  {
    if e.Only? || e.NegativeCondition? {
      OnlyStillFails(e.filter, failedCtx, ctx, labels);
    } else {
      NoStillFails(e.filter, failedCtx, ctx);
    }
  }

  /** A recorded failure of `t`, an entry of the node or one handed down: of a plain filter alone, or of a
      conditional together with a filter `x` inside it. */
  ghost predicate Culprit(n: Node, c: Case, t: Entry, x: Entry, given: set<Entry>) {
    && !t.Operator? && RequiresAction(t, c.ctx, n.labels)
    && t in c.external + c.internal && x in c.external + c.internal
    && (t.IsFilter() ==> c.external + c.internal == [t])
    && (t.IsConditional() ==> x in Spread(t.content) && x.IsFilter())
    && if c.external == [] then t in n.content
       else t in given && c.external == [t] && (t.IsConditional() ==> t !in n.content)
  }

  ghost predicate ValidCase(n: Node, c: Case, given: set<Entry>) {
    exists t, x :: Culprit(n, c, t, x, given)
  }

  ghost predicate ValidCases(n: Node, cases: seq<Case>, given: set<Entry>) {
    forall c | c in cases :: ValidCase(n, c, given)
  }

  predicate AllPresent(recorded: seq<Entry>, content: seq<Entry>) {
    forall t | t in recorded :: Contains(content, t)
  }

  predicate AllMightPass(recorded: seq<Entry>, failedCtx: seq<Label>, ctx: seq<Label>, labels: set<Label>) {
    forall t | t in recorded :: EntryMightPass(t, failedCtx, ctx, labels)
  }

  /** Might a visit with this context and content get further than the failed one? */
  predicate CaseMightPass(n: Node, c: Case, ctx: seq<Label>, content: seq<Entry>) {
    if !AllPresent(c.external + c.internal, content + n.content) then true
    else if !AllMightPass(c.external, c.ctx, ctx, n.labels) then false
    else if !AllPresent(c.internal, n.content) then true
    else AllMightPass(c.internal, c.ctx, ctx, n.labels)
  }

  /** What was kept of `above`: nothing decided, and what occurred only inside an undecided conditional still does. */
  ghost predicate KeptFrom(content: seq<Entry>, above: seq<Entry>, inherited: seq<Label>, outer: set<Label>) {
    && (forall e | e in content :: e.Operator? || !RequiresAction(e, inherited, outer))
    && (forall t: Entry, x: Entry |
          t.IsConditional() && !RequiresAction(t, inherited, outer) && OnlyInside(above, t, x) ::
          OnlyInside(content, t, x))
  }

  /** What a visit of `n` has in its hands: the inherited content stands for what the path above holds. */
  ghost predicate Holds(n: Node, content: seq<Entry>, above: seq<Entry>, inherited: seq<Label>, outer: set<Label>,
                        given: set<Entry>) {
    && Refines(n.content + content, n.content + above, inherited + n.name, n.labels)
    && Spread(content) <= Spread(above) && EntriesIn(above, given)
    && KeptFrom(content, above, inherited, outer) && Encloses(outer, n.name, n.labels)
  }

  /** A negative answer is right: nothing below the node can be accepted. */
  lemma CaseStillFails(n: Node, c: Case, content: seq<Entry>, above: seq<Entry>, inherited: seq<Label>,
                       outer: set<Label>, given: set<Entry>)
    requires ValidCase(n, c, given)
    ensures !CaseMightPass(n, c, inherited + n.name, content) &&
            Holds(n, content, above, inherited, outer, given) && Told(n, n.content + above, given) ==>
            Refuted(n.content + above, inherited + n.name, n.labels)
  {
    var ctx, path := inherited + n.name, n.content + above;
    if !CaseMightPass(n, c, ctx, content) && Holds(n, content, above, inherited, outer, given) && Told(n, path, given) {
      var t, x :| Culprit(n, c, t, x, given);
      if t.IsFilter() {
        LoneRecordedFails(n, c, t, ctx, content);
        StillRequiresAction(t, c.ctx, ctx, n.labels);
        if c.external == [] {
          FilterRefuted(t, ctx, n.labels);
          MemberRefutes(path, t, ctx, n.labels);
        } else {
          var item := RecordedIsPresent(n, c, t, ctx, content, above);
          TwinRefutes(n, item, t, n.content + content, path, ctx);
        }
      } else if c.external == [] {
        OwnCaseIsSilent(n, c, t, x, ctx, content, given);
      } else {
        GivenCaseIsSilent(n, c, t, x, content, above, inherited, outer, given);
      }
    }
  }

  /** A recorded conditional of the node itself never says no: the filter inside it is not in the node. */
  lemma OwnCaseIsSilent(n: Node, c: Case, t: Entry, x: Entry, ctx: seq<Label>, content: seq<Entry>, given: set<Entry>)
    requires Culprit(n, c, t, x, given) && t.IsConditional() && c.external == [] && OwnTold(n.content)
    ensures CaseMightPass(n, c, ctx, content)
  {
    assert x in c.internal && !Contains(n.content, x);
  }

  /** A recorded conditional that was handed down never says no: while it is there, the filter is inside it. */
  lemma GivenCaseIsSilent(n: Node, c: Case, t: Entry, x: Entry, content: seq<Entry>, above: seq<Entry>,
                          inherited: seq<Label>, outer: set<Label>, given: set<Entry>)
    requires Culprit(n, c, t, x, given) && t.IsConditional() && c.external != []
    requires Holds(n, content, above, inherited, outer, given) && NestedTold(n.content, n.content + above, given)
    ensures CaseMightPass(n, c, inherited + n.name, content)
  {
    var ctx := inherited + n.name;
    if !CaseMightPass(n, c, ctx, content) {
      var item := RecordedIsPresent(n, c, t, ctx, content, above);
      InsideOnly(n.content, content, above, inherited, outer, t, x, item);
      var inner := RecordedIsPresent(n, c, x, ctx, content, above);
    }
  }

  /** While something is taken for a conditional that was handed down, nothing outside is taken for its filter. */
  lemma InsideOnly(own: seq<Entry>, content: seq<Entry>, above: seq<Entry>, inherited: seq<Label>, outer: set<Label>,
                   t: Entry, x: Entry, item: Entry)
    requires t.IsConditional() && x.IsFilter() && t !in own && PairTold(own, own + above, t, x)
    requires KeptFrom(content, above, inherited, outer)
    requires item in own + content && item in Spread(own + above) && SameEntry(item, t)
    ensures forall inner | inner in own + content && inner in Spread(own + above) :: !SameEntry(inner, x)
  {
    forall inner | inner in own + content && inner in Spread(own + above) ensures !SameEntry(inner, x) {
      if SameEntry(inner, x) {
        TwinUndecided(content, above, inherited, outer, item, t);
        OnlyInsideAppend(own, above, t, x);
        NotBeside(own, t, x);
        NotBeside(content, t, x);
      }
    }
  }

  lemma TwinUndecided(content: seq<Entry>, above: seq<Entry>, inherited: seq<Label>, outer: set<Label>, item: Entry,
                      t: Entry)
    requires KeptFrom(content, above, inherited, outer) && item in content
    requires t.IsConditional() && SameEntry(item, t) && item.filter == t.filter
    ensures !RequiresAction(t, inherited, outer)
  {
  }

  /** `item` was taken for the plain filter `t`, which requires action: the path is rejected in each harmless case. */
  lemma TwinRefutes(n: Node, item: Entry, t: Entry, here: seq<Entry>, path: seq<Entry>, ctx: seq<Label>)
    requires t.IsFilter() && SameEntry(item, t) && item in here && (item == t || t.Only? || t in path)
    ensures RequiresAction(t, ctx, n.labels) && Refines(here, path, ctx, n.labels) ==> Refuted(path, ctx, n.labels)
  {
    if RequiresAction(t, ctx, n.labels) && Refines(here, path, ctx, n.labels) {
      FilterRefuted(t, ctx, n.labels);
      if item != t && t.Only? {
        OnlyTwinRefuted(item, t, ctx, n.labels);
      }
      if item == t || t.Only? {
        MemberRefutes(here, item, ctx, n.labels);
      } else {
        MemberRefutes(path, t, ctx, n.labels);
      }
    }
  }

  lemma MemberRefutes(content: seq<Entry>, t: Entry, ctx: seq<Label>, labels: set<Label>)
    requires t in content && Refuted([t], ctx, labels)
    ensures Refuted(content, ctx, labels)
  {
    var i :| 0 <= i < |content| && content[i] == t;
    RefutedAt(content, i, ctx, labels);
  }

  /** A context that satisfies a filter satisfies every filter it is taken for. */
  lemma TwinMatches(item: Filter, wanted: Filter, ctx: seq<Label>)
    requires SameFilter(item, wanted)
    ensures Match(item, ctx) ==> Match(wanted, ctx)
  {
    MatchIsSatisfied(item, ctx);
    MatchIsSatisfied(wanted, ctx);
    if w :| 0 <= w < |item| && forall block | block in item[w] :: Occurs(block, ctx) {
      TwinWord(item[w], wanted[w], ctx);
      assert wanted[w] in wanted;
    }
  }

  lemma TwinWord(item: seq<Block>, wanted: seq<Block>, ctx: seq<Label>)
    requires SameWord(item, wanted) && forall block | block in item :: Occurs(block, ctx)
    ensures forall block | block in wanted :: Occurs(block, ctx)
  {
    forall block | block in wanted ensures Occurs(block, ctx) {
      var b :| 0 <= b < |wanted| && wanted[b] == block;
      TwinOccurs(item[b], block, ctx);
    }
  }

  lemma TwinOccurs(item: Block, wanted: Block, ctx: seq<Label>)
    requires SameBlock(item, wanted) && Occurs(item, ctx)
    ensures Occurs(wanted, ctx)
  {
    var start: nat :| start <= |ctx| && PrefixAt(item, |item|, ctx, start);
    forall j | 0 <= j < |wanted| ensures Matches(ctx[start + j], wanted[j]) {
      MatchingLabelsHashAlike(ctx[start + j], item[j]);
      MatchingLabelsHashAlike(item[j], wanted[j]);
    }
    assert PrefixAt(wanted, |wanted|, ctx, start);
  }

  lemma OnlyTwinRefuted(item: Entry, t: Entry, ctx: seq<Label>, labels: set<Label>)
    requires t.Only? && SameEntry(item, t) && !MightMatch(t.filter, ctx, labels)
    ensures Refuted([item], ctx, labels)
  {
    forall ext: seq<Label> | Covered(ext, labels) ensures Evaluate([item], ctx + ext) == Rejected {
      if Match(item.filter, ctx + ext) {
        TwinMatches(item.filter, t.filter, ctx + ext);
        MightMatchSound(t.filter, ctx, ext, labels);
      }
      EvaluateOne(item, ctx + ext);
    }
  }

  lemma LoneRecordedFails(n: Node, c: Case, t: Entry, ctx: seq<Label>, content: seq<Entry>)
    requires c.external + c.internal == [t] && !CaseMightPass(n, c, ctx, content)
    ensures !EntryMightPass(t, c.ctx, ctx, n.labels)
  {
    forall e | e in c.external || e in c.internal ensures e == t {
      assert e in c.external + c.internal;
    }
  }

  /** A recorded entry is found, or one that is taken for it. */
  lemma RecordedIsPresent(n: Node, c: Case, t: Entry, ctx: seq<Label>, content: seq<Entry>, above: seq<Entry>)
    returns (item: Entry)
    requires !CaseMightPass(n, c, ctx, content) && t in c.external + c.internal && !t.Operator?
    requires Spread(content) <= Spread(above)
    ensures item in n.content + content && SameEntry(item, t) && item in Spread(n.content + above)
  {
    item :| item in content + n.content && SameEntry(item, t);
    SpreadInside(n.content + content, item, item);
    SpreadAppend(n.content, content);
    SpreadAppend(n.content, above);
  }

  /** The first case that says no; their number when there is none. */
  function FirstAnswer(n: Node, cases: seq<Case>, ctx: seq<Label>, content: seq<Entry>): (i: nat)
    ensures i <= |cases|
    ensures i < |cases| ==> !CaseMightPass(n, cases[i], ctx, content)
    ensures forall j | 0 <= j < i :: CaseMightPass(n, cases[j], ctx, content)
  {
    if cases == [] || !CaseMightPass(n, cases[0], ctx, content) then 0
    else 1 + FirstAnswer(n, cases[1..], ctx, content)
  }

  lemma FirstAnswerIs(n: Node, cases: seq<Case>, ctx: seq<Label>, content: seq<Entry>, i: nat)
    requires i <= |cases| && forall j | 0 <= j < i :: CaseMightPass(n, cases[j], ctx, content)
    requires i < |cases| ==> !CaseMightPass(n, cases[i], ctx, content)
    ensures FirstAnswer(n, cases, ctx, content) == i
  {
  }

  function ToFront(cases: seq<Case>, i: nat): seq<Case>
    requires i < |cases|
  {
    [cases[i]] + (cases[..i] + cases[i + 1..])
  }

  /** Ask every recorded case; on a hit the case moves to the front. */
  method SkipsSubtree(n: Node, ctx: seq<Label>, content: seq<Entry>) returns (skip: bool)
    modifies n`failedCases
    ensures var i := FirstAnswer(n, old(n.failedCases), ctx, content);
      && (skip <==> i < |old(n.failedCases)|)
      && n.failedCases == if skip then ToFront(old(n.failedCases), i) else old(n.failedCases)
  {
    for i := 0 to |n.failedCases|
      invariant n.failedCases == old(n.failedCases)
      invariant forall j | 0 <= j < i :: CaseMightPass(n, n.failedCases[j], ctx, content)
    {
      var c := n.failedCases[i];
      if !CaseMightPass(n, c, ctx, content) {
        FirstAnswerIs(n, n.failedCases, ctx, content, i);
        n.failedCases := [c] + (n.failedCases[..i] + n.failedCases[i + 1..]);
        return true;
      }
    }
    return false;
  }

  /** The new case comes first; beyond five the last is forgotten. */
  function Remembered(c: Case, cases: seq<Case>): (r: seq<Case>)
    ensures |cases| <= NUM_FAILED_CASES ==> |r| <= NUM_FAILED_CASES
    ensures 0 < |r| <= |cases| + 1 && r[0] == c && r[1..] == cases[..|r| - 1]
  {
    if |cases| < NUM_FAILED_CASES then [c] + cases[..|cases|] else [c] + cases[..|cases| - 1]
  }

  method AddFailedCase(n: Node, c: Case)
    modifies n`failedCases
    ensures n.failedCases == Remembered(c, old(n.failedCases))
  {
    n.failedCases := [c] + n.failedCases;
    if |n.failedCases| > NUM_FAILED_CASES {
      n.failedCases := n.failedCases[..|n.failedCases| - 1];
    }
  }

  lemma OwnRecordIsValid(n: Node, ctx: seq<Label>, failed: seq<Entry>, nested: seq<Entry>, given: set<Entry>)
    requires FailureRecord(failed, nested, n.content, ctx, n.labels)
    ensures ValidCase(n, Case(ctx, [], nested + failed), given)
  {
    var t, c := failed[0], Case(ctx, [], nested + failed);
    var x := SomeFilterFailed(failed, nested, n.content, ctx, n.labels);
    assert failed == [t] && c.external + c.internal == nested + [t];
    FailedPair(t, nested, failed, x);
    assert Culprit(n, c, t, x, given);
  }

  lemma GivenRecordIsValid(n: Node, ctx: seq<Label>, content: seq<Entry>, failed: seq<Entry>, nested: seq<Entry>,
                           given: set<Entry>)
    requires FailureRecord(failed, nested, content, ctx, n.labels) && EntriesIn(content, given)
    requires failed[0] !in n.content
    ensures ValidCase(n, Case(ctx, failed, nested), given)
  {
    var t, c := failed[0], Case(ctx, failed, nested);
    var x := SomeFilterFailed(failed, nested, content, ctx, n.labels);
    assert failed == [t] && c.external + c.internal == [t] + nested;
    FailedPair(t, nested, failed, x);
    SpreadInside(content, t, t);
    assert Culprit(n, c, t, x, given);
  }

  lemma FailedPair(t: Entry, nested: seq<Entry>, failed: seq<Entry>, x: Entry)
    requires failed == [t] && x in nested + failed && x.IsFilter()
    ensures x in [t] + nested && t in [t] + nested && t in nested + [t] && (t.IsConditional() ==> x in nested)
  {
  }

  lemma {:induction false} ReachIsLower(n: Node, m: Node)
    requires Ranked(n) && m in Reach(n)
    ensures m.height <= n.height && (m != n ==> m.height < n.height)
    decreases n.height
  {
    if m != n {
      var i :| 0 <= i < |n.children| && m in Reach(n.children[i]);
      ReachIsLower(n.children[i], m);
    }
  }

  lemma {:induction false} ReachTransitive(n: Node, m: Node, k: Node)
    requires Ranked(n) && m in Reach(n) && Ranked(m) && k in Reach(m)
    ensures k in Reach(n)
    decreases n.height
  {
    if m != n {
      var i :| 0 <= i < |n.children| && m in Reach(n.children[i]);
      ReachTransitive(n.children[i], m, k);
    }
  }

  lemma ReachOfChild(n: Node, i: nat)
    requires Ranked(n) && i < |n.children|
    ensures Reach(n.children[i]) <= Reach(n) && n !in Reach(n.children[i])
  {
    if n in Reach(n.children[i]) {
      ReachIsLower(n.children[i], n);
    }
  }

  /** What is left at a leaf is operators only, and they are what the whole content evaluates to. */
  lemma LeafIsOperators(kept: seq<Entry>, content: seq<Entry>, ctx: seq<Label>)
    requires Pruned(kept, content, ctx, {})
    ensures forall e | e in kept :: e.Operator?
    ensures Evaluate(content, ctx) == Accepted(OperatorsOf(kept))
  {
    forall e | e in kept ensures e.Operator? {
      if !e.Operator? {
        MightMatchAtLeaf(e.filter, ctx);
      }
    }
    CoveredNothing({}, ctx);
    EvaluateOperators(kept, ctx);
  }

  function OperatorsOf(content: seq<Entry>): (ops: seq<Op>)
    requires forall e | e in content :: e.Operator?
    ensures |ops| == |content| && forall i | 0 <= i < |ops| :: ops[i] == content[i].op
  {
    if content == [] then [] else [content[0].op] + OperatorsOf(content[1..])
  }

  lemma {:induction false} EvaluateOperators(content: seq<Entry>, ctx: seq<Label>)
    requires forall e | e in content :: e.Operator?
    ensures Evaluate(content, ctx) == Accepted(OperatorsOf(content))
  {
    if content != [] {
      assert content[0] in content;
      EvaluateOperators(content[1..], ctx);
    }
  }

  // ----- a visit -----

  /** How a visit begins: what is kept of the content, or None where the subtree is given up; and the cache. */
  datatype Entrance = Entrance(kept: Option<seq<Entry>>, cases: seq<Case>)

  function Entered(n: Node, ctx: seq<Label>, content: seq<Entry>, cases: seq<Case>): Entrance {
    var i := FirstAnswer(n, cases, ctx, content);
    if i < |cases| then Entrance(None, ToFront(cases, i))
    else
      match Process(n.content, ctx, n.labels)
      case Failed(failed, nested) => Entrance(None, Remembered(Case(ctx, [], nested + failed), cases))
      case Passed(internal) =>
        match Process(content, ctx, n.labels)
        case Failed(failed, nested) => Entrance(None, Remembered(Case(ctx, failed, nested), cases))
        case Passed(external) => Entrance(Some(internal + external), cases)
  }

  /** The first half of a visit: ask the cache, then process the node's own content and the inherited one.
      A failure is recorded. */
  method Enter(n: Node, ctx: seq<Label>, content: seq<Entry>) returns (ok: bool, kept: seq<Entry>)
    modifies n`failedCases
    ensures Entrance(if ok then Some(kept) else None, n.failedCases) == Entered(n, ctx, content, old(n.failedCases))
  {
    var skip := SkipsSubtree(n, ctx, content);
    if skip {
      return false, [];
    }
    var ok1, internal, failedInternal, nestedInternal := ProcessContent(n.content, ctx, n.labels);
    if !ok1 {
      AddFailedCase(n, Case(ctx, [], nestedInternal + failedInternal));
      return false, [];
    }
    var ok2, external, failedExternal, nestedExternal := ProcessContent(content, ctx, n.labels);
    if !ok2 {
      AddFailedCase(n, Case(ctx, failedExternal, nestedExternal));
      return false, [];
    }
    return true, internal + external;
  }

  lemma EnteredBounded(n: Node, ctx: seq<Label>, content: seq<Entry>, cases: seq<Case>)
    requires |cases| <= NUM_FAILED_CASES
    ensures |Entered(n, ctx, content, cases).cases| <= NUM_FAILED_CASES
  {
  }

  /** What stays is kept of the whole path, and giving up is right. */
  ghost predicate RightEntrance(e: Entrance, n: Node, path: seq<Entry>, ctx: seq<Label>, given: set<Entry>) {
    && ValidCases(n, e.cases, given)
    && (e.kept.Some? ==>
          && Refines(e.kept.value, path, ctx, n.labels) && Spread(e.kept.value) <= Spread(path)
          && KeptFrom(e.kept.value, path, ctx, n.labels))
    && (e.kept.None? ==> Refuted(path, ctx, n.labels))
  }

  lemma EnteredIsRight(n: Node, content: seq<Entry>, above: seq<Entry>, inherited: seq<Label>, outer: set<Label>,
                       cases: seq<Case>, given: set<Entry>)
    requires ValidCases(n, cases, given) && Holds(n, content, above, inherited, outer, given)
    requires cases != [] ==> Told(n, n.content + above, given)
    ensures var ctx := inherited + n.name;
            RightEntrance(Entered(n, ctx, content, cases), n, n.content + above, ctx, given)
  {
    var i := FirstAnswer(n, cases, inherited + n.name, content);
    if i < |cases| {
      CaseStillFails(n, cases[i], content, above, inherited, outer, given);
      MovedToFront(cases, i);
    } else {
      ProcessedIsRight(n, content, above, inherited, outer, cases, given);
    }
  }

  lemma ProcessedIsRight(n: Node, content: seq<Entry>, above: seq<Entry>, inherited: seq<Label>, outer: set<Label>,
                         cases: seq<Case>, given: set<Entry>)
    requires ValidCases(n, cases, given) && Holds(n, content, above, inherited, outer, given)
    requires FirstAnswer(n, cases, inherited + n.name, content) == |cases|
    ensures var ctx := inherited + n.name;
            RightEntrance(Entered(n, ctx, content, cases), n, n.content + above, ctx, given)
  {
    var ctx := inherited + n.name;
    var own, other := Process(n.content, ctx, n.labels), Process(content, ctx, n.labels);
    ProcessIsSound(n.content, ctx, n.labels);
    ProcessIsSound(content, ctx, n.labels);
    if own.Failed? {
      OwnRecordIsValid(n, ctx, own.failed, own.nested, given);
      RememberedValid(n, Case(ctx, [], own.nested + own.failed), cases, given);
      RefutedEither(n.content, content, ctx, n.labels);
    } else if other.Failed? {
      FailsOutside(n, ctx, content);
      KeptIn(content, above, given);
      GivenRecordIsValid(n, ctx, content, other.failed, other.nested, given);
      RememberedValid(n, Case(ctx, other.failed, other.nested), cases, given);
      RefutedEither(n.content, content, ctx, n.labels);
    } else {
      KeptIsRight(n, content, above, inherited, outer, given);
    }
  }

  /** What fails of the inherited content is not in the node as well: the node's own content comes first. */
  lemma FailsOutside(n: Node, ctx: seq<Label>, content: seq<Entry>)
    requires Process(n.content, ctx, n.labels).Passed? && Process(content, ctx, n.labels).Failed?
    ensures Process(content, ctx, n.labels).failed != [] && Process(content, ctx, n.labels).failed[0] !in n.content
  {
    var t := FailsSomewhere(content, ctx, n.labels);
    if t in n.content {
      PassesEverywhere(n.content, ctx, n.labels, t);
    }
  }

  lemma KeptIn(content: seq<Entry>, above: seq<Entry>, given: set<Entry>)
    requires Spread(content) <= Spread(above) && EntriesIn(above, given)
    ensures EntriesIn(content, given)
  {
    forall e | e in Spread(content) ensures e in given {
      assert e in Spread(above);
    }
  }

  lemma KeptIsRight(n: Node, content: seq<Entry>, above: seq<Entry>, inherited: seq<Label>, outer: set<Label>,
                    given: set<Entry>)
    requires Holds(n, content, above, inherited, outer, given)
    requires Process(n.content, inherited + n.name, n.labels).Passed?
    requires Process(content, inherited + n.name, n.labels).Passed?
    ensures var ctx, path := inherited + n.name, n.content + above;
            var kept := Process(n.content, ctx, n.labels).kept + Process(content, ctx, n.labels).kept;
            Refines(kept, path, ctx, n.labels) && Spread(kept) <= Spread(path) && KeptFrom(kept, path, ctx, n.labels)
  {
    var ctx := inherited + n.name;
    var own, other := Process(n.content, ctx, n.labels).kept, Process(content, ctx, n.labels).kept;
    ProcessIsSound(n.content, ctx, n.labels);
    ProcessIsSound(content, ctx, n.labels);
    PrunedAppend(own, n.content, other, content, ctx, n.labels);
    SpreadAppend(n.content, content);
    SpreadAppend(n.content, above);
    forall t: Entry, x: Entry |
      t.IsConditional() && !RequiresAction(t, ctx, n.labels) && OnlyInside(n.content + above, t, x)
      ensures OnlyInside(own + other, t, x)
    {
      StaysInside(n, content, above, inherited, outer, t, x);
    }
  }

  lemma StaysInside(n: Node, content: seq<Entry>, above: seq<Entry>, inherited: seq<Label>, outer: set<Label>,
                    t: Entry, x: Entry)
    requires KeptFrom(content, above, inherited, outer) && Encloses(outer, n.name, n.labels)
    requires Process(n.content, inherited + n.name, n.labels).Passed?
    requires Process(content, inherited + n.name, n.labels).Passed?
    requires t.IsConditional() && !RequiresAction(t, inherited + n.name, n.labels)
    requires OnlyInside(n.content + above, t, x)
    ensures var ctx := inherited + n.name;
            OnlyInside(Process(n.content, ctx, n.labels).kept + Process(content, ctx, n.labels).kept, t, x)
  {
    var ctx := inherited + n.name;
    OnlyInsideAppend(n.content, above, t, x);
    if RequiresAction(t, inherited, outer) {
      ActionStays(t, inherited, n.name, outer, n.labels);
    }
    ProcessKeepsInside(n.content, ctx, n.labels, t, x);
    ProcessKeepsInside(content, ctx, n.labels, t, x);
    OnlyInsideAppend(Process(n.content, ctx, n.labels).kept, Process(content, ctx, n.labels).kept, t, x);
  }

  lemma RememberedValid(n: Node, c: Case, cases: seq<Case>, given: set<Entry>)
    requires ValidCases(n, cases, given) && ValidCase(n, c, given)
    ensures ValidCases(n, Remembered(c, cases), given)
  {
  }

  /** The cache works: a visit that a plain filter failed is given up at once when it is made again. */
  lemma FailureIsRemembered(n: Node, ctx: seq<Label>, content: seq<Entry>, cases: seq<Case>)
    requires FirstAnswer(n, cases, ctx, content) == |cases|
    requires var own, other := Process(n.content, ctx, n.labels), Process(content, ctx, n.labels);
             if own.Failed? then own.failed != [] && own.failed[0].IsFilter()
             else other.Failed? && other.failed != [] && other.failed[0].IsFilter()
    ensures FirstAnswer(n, Entered(n, ctx, content, cases).cases, ctx, content) == 0
  {
    var own := Process(n.content, ctx, n.labels);
    if own.Failed? {
      var t := FailsSomewhere(n.content, ctx, n.labels);
      assert own == Failed([t], []) && [] + [t] == [t];
      RepeatedFails(n, Case(ctx, [], [t]), t, ctx, content);
    } else {
      var t := FailsSomewhere(content, ctx, n.labels);
      RepeatedFails(n, Case(ctx, [t], []), t, ctx, content);
    }
  }

  lemma RepeatedFails(n: Node, c: Case, t: Entry, ctx: seq<Label>, content: seq<Entry>)
    requires t.IsFilter() && c.ctx == ctx
    requires || (c.external == [] && c.internal == [t] && t in n.content)
             || (c.external == [t] && c.internal == [] && t in content)
    ensures !CaseMightPass(n, c, ctx, content)
  {
    SameAsItself(t);
    assert c.external + c.internal == [t];
    assert t in content + n.content;
    assert !EntryMightPass(t, ctx, ctx, n.labels);
    assert t in c.external || t in c.internal;
  }

  /** Five failures are remembered, the last ones. */
  lemma FiveAreRemembered(c: Case, cases: seq<Case>)
    requires |cases| <= 5
    ensures Remembered(c, cases) == if |cases| < 5 then [c] + cases else [c] + cases[..4]
  {
    assert cases[..|cases|] == cases;
  }

  // ----- the traversal as a function of the graph and of the caches -----

  type Caches = map<Node, seq<Case>>

  datatype Traversed = Traversed(leaves: seq<Leaf>, caches: Caches)

  ghost predicate Bounded(caches: Caches) {
    forall m | m in caches :: |caches[m]| <= NUM_FAILED_CASES
  }

  ghost function Traverse(s: Settings, n: Node, inherited: seq<Label>, content: seq<Entry>, caches: Caches)
    : (t: Traversed)
    requires WellFormed(n) && Reach(n) <= caches.Keys
    ensures t.caches.Keys == caches.Keys
    decreases n.height, |n.children| + 1
  {
    var ctx := inherited + n.name;
    var e := Entered(n, ctx, content, caches[n]);
    var caches' := caches[n := e.cases];
    if e.kept.None? then Traversed([], caches')
    else if n.children == [] then
      LeafKeepsOperators(n, ctx, content, caches[n]);
      Traversed([Leaf(ctx, OperatorsOf(e.kept.value))], caches')
    else TraverseFrom(s, n, 0, ctx, e.kept.value, caches', false)
  }

  ghost function TraverseFrom(s: Settings, n: Node, k: nat, ctx: seq<Label>, content: seq<Entry>, caches: Caches,
                              found: bool): (t: Traversed)
    requires WellFormed(n) && Reach(n) <= caches.Keys && k <= |n.children|
    ensures t.caches.Keys == caches.Keys
    decreases n.height, |n.children| - k
  {
    if k == |n.children| then Traversed([], caches)
    else
      ReachOfChild(n, k);
      var t := Traverse(s, n.children[k], ctx, content, caches);
      var found' := found || t.leaves != [];
      if StopsAfter(s, n, n.children[k]) && found' then t
      else
        var rest := TraverseFrom(s, n, k + 1, ctx, content, t.caches, found');
        Traversed(t.leaves + rest.leaves, rest.caches)
  }

  lemma NoLabelsBelow(n: Node)
    requires WellFormed(n) && Below(n) == {}
    ensures n.labels == {}
  {
    forall l: Label ensures l !in n.labels {
      assert l in n.labels ==> Lookup(n.labels, l);
    }
  }

  lemma LeafHasNoLabels(n: Node)
    requires WellFormed(n) && n.children == []
    ensures Below(n) == {} && n.labels == {}
  {
    NoLabelsBelow(n);
  }

  lemma LeafKeepsOperators(n: Node, ctx: seq<Label>, content: seq<Entry>, cases: seq<Case>)
    requires WellFormed(n) && n.children == [] && Entered(n, ctx, content, cases).kept.Some?
    ensures forall e | e in Entered(n, ctx, content, cases).kept.value :: e.Operator?
  {
    LeafHasNoLabels(n);
    ProcessIsSound(n.content, ctx, {});
    ProcessIsSound(content, ctx, {});
    var own, other := Process(n.content, ctx, {}).kept, Process(content, ctx, {}).kept;
    PrunedAppend(own, n.content, other, content, ctx, {});
    LeafIsOperators(own + other, n.content + content, ctx);
  }

  ghost function CachesOf(nodes: set<Node>): Caches
    reads nodes
  {
    map m | m in nodes :: m.failedCases
  }

  /** The expansion of a node under a context and an inherited content, for any state of the caches. */
  method GetDicts(s: Settings, n: Node, inheritedCtx: seq<Label>, content: seq<Entry>, ghost nodes: set<Node>)
    returns (leaves: seq<Leaf>)
    requires WellFormed(n) && Reach(n) <= nodes
    modifies nodes
    ensures Traversed(leaves, CachesOf(nodes)) == Traverse(s, n, inheritedCtx, content, old(CachesOf(nodes)))
    decreases n.height, 1
  {
    var ctx := inheritedCtx + n.name;
    ghost var before := CachesOf(nodes);
    var ok, kept := Enter(n, ctx, content);
    assert CachesOf(nodes) == before[n := n.failedCases];
    if !ok {
      return [];
    }
    if n.children == [] {
      LeafKeepsOperators(n, ctx, content, before[n]);
      return [Leaf(ctx, OperatorsOf(kept))];
    }
    leaves := GetDictsOfChildren(s, n, ctx, kept, nodes);
  }

  /** The second half of a visit: the children one after the other, up to a default one when that stops it. */
  method GetDictsOfChildren(s: Settings, n: Node, ctx: seq<Label>, kept: seq<Entry>, ghost nodes: set<Node>)
    returns (leaves: seq<Leaf>)
    requires WellFormed(n) && Reach(n) <= nodes
    modifies nodes
    ensures Traversed(leaves, CachesOf(nodes)) == TraverseFrom(s, n, 0, ctx, kept, old(CachesOf(nodes)), false)
    decreases n.height, 0
  {
    leaves := [];
    ghost var total := TraverseFrom(s, n, 0, ctx, kept, CachesOf(nodes), false);
    var k := 0;
    assert [] + total.leaves == total.leaves;
    while k < |n.children|
      invariant k <= |n.children|
      invariant Rest(s, n, k, ctx, kept, CachesOf(nodes), leaves, total)
    {
      ReachOfChild(n, k);
      ghost var caches, soFar := CachesOf(nodes), leaves;
      var more := GetDicts(s, n.children[k], ctx, kept, nodes);
      leaves := leaves + more;
      NextChild(s, n, k, ctx, kept, caches, soFar, more, CachesOf(nodes), total);
      if StopsAfter(s, n, n.children[k]) && leaves != [] {
        return;
      }
      k := k + 1;
    }
    assert leaves + [] == leaves;
  }

  ghost function After(leaves: seq<Leaf>, t: Traversed): Traversed {
    Traversed(leaves + t.leaves, t.caches)
  }

  /** After `leaves` from the first `k` children, the others complete the total. */
  ghost predicate Rest(s: Settings, n: Node, k: nat, ctx: seq<Label>, kept: seq<Entry>, caches: Caches,
                       leaves: seq<Leaf>, total: Traversed)
    requires WellFormed(n) && k <= |n.children|
  {
    Reach(n) <= caches.Keys && After(leaves, TraverseFrom(s, n, k, ctx, kept, caches, leaves != [])) == total
  }

  lemma NextChild(s: Settings, n: Node, k: nat, ctx: seq<Label>, kept: seq<Entry>, caches: Caches,
                  leaves: seq<Leaf>, more: seq<Leaf>, caches': Caches, total: Traversed)
    requires WellFormed(n) && k < |n.children| && Rest(s, n, k, ctx, kept, caches, leaves, total)
    requires Reach(n.children[k]) <= caches.Keys
    requires Traversed(more, caches') == Traverse(s, n.children[k], ctx, kept, caches)
    ensures if StopsAfter(s, n, n.children[k]) && leaves + more != [] then total == Traversed(leaves + more, caches')
            else Rest(s, n, k + 1, ctx, kept, caches', leaves + more, total)
  {
    var found := leaves + more != [];
    if !(StopsAfter(s, n, n.children[k]) && found) {
      var rest := TraverseFrom(s, n, k + 1, ctx, kept, caches', found);
      assert leaves + (more + rest.leaves) == leaves + more + rest.leaves;
    }
  }

  // ----- the traversal gives the leaves of the simple meaning -----

  lemma {:induction false} TraverseBounded(s: Settings, n: Node, inherited: seq<Label>, content: seq<Entry>,
                                           caches: Caches)
    requires WellFormed(n) && Reach(n) <= caches.Keys && Bounded(caches)
    ensures Bounded(Traverse(s, n, inherited, content, caches).caches)
    decreases n.height, |n.children| + 1
  {
    var ctx := inherited + n.name;
    EnteredBounded(n, ctx, content, caches[n]);
    var e := Entered(n, ctx, content, caches[n]);
    if e.kept.Some? && n.children != [] {
      TraverseFromBounded(s, n, 0, ctx, e.kept.value, caches[n := e.cases], false);
    }
  }

  lemma {:induction false} TraverseFromBounded(s: Settings, n: Node, k: nat, ctx: seq<Label>, content: seq<Entry>,
                                               caches: Caches, found: bool)
    requires WellFormed(n) && Reach(n) <= caches.Keys && k <= |n.children| && Bounded(caches)
    ensures Bounded(TraverseFrom(s, n, k, ctx, content, caches, found).caches)
    decreases n.height, |n.children| - k
  {
    if k < |n.children| {
      ReachOfChild(n, k);
      TraverseBounded(s, n.children[k], ctx, content, caches);
      var t := Traverse(s, n.children[k], ctx, content, caches);
      TraverseFromBounded(s, n, k + 1, ctx, content, t.caches, found || t.leaves != []);
    }
  }

  ghost predicate AllValid(caches: Caches, top: Node)
    requires Ranked(top)
  {
    forall m | m in caches :: ValidCases(m, caches[m], Above(top, m))
  }

  /** What a node holds and what is above it is above its children. */
  lemma AboveFlows(top: Node, n: Node, k: nat, above: seq<Entry>)
    requires Ranked(top) && n in Reach(top) && Ranked(n) && k < |n.children| && EntriesIn(above, Above(top, n))
    ensures n.children[k] in Reach(top) && EntriesIn(n.content + above, Above(top, n.children[k]))
  {
    var c := n.children[k];
    ReachOfChild(n, k);
    assert c in Reach(n);
    ReachTransitive(top, n, c);
    SpreadAppend(n.content, above);
    forall e | e in Spread(n.content + above) ensures e in Above(top, c) {
      if e !in Spread(n.content) {
        var m :| m in Reach(top) && m != n && Ranked(m) && n in Reach(m) && e in Spread(m.content);
        ReachTransitive(m, n, c);
        ReachIsLower(m, n);
      }
    }
  }

  /** The graph below `n`, with what the path holds down to `n`. */
  ghost predicate Ready(n: Node, above: seq<Entry>, top: Node) {
    && Ranked(top) && n in Reach(top) && WellFormed(n) && EntriesIn(above, Above(top, n))
    && ClearBelow(n, n.content + above, top)
  }

  lemma ChildHolds(n: Node, k: nat, kept: seq<Entry>, above: seq<Entry>, ctx: seq<Label>, top: Node)
    requires Ready(n, above, top) && k < |n.children|
    requires var path := n.content + above;
             Refines(kept, path, ctx, n.labels) && Spread(kept) <= Spread(path) && KeptFrom(kept, path, ctx, n.labels)
    ensures var c, path := n.children[k], n.content + above;
      && Ready(c, path, top) && Told(c, c.content + path, Above(top, c))
      && Holds(c, kept, path, ctx, n.labels, Above(top, c))
  {
    RefinesAtChild(n, k, kept, n.content + above, ctx);
    AboveFlows(top, n, k, above);
    ChildEnclosed(n, k);
    assert Clear(n.children[k], n.content + above, top);
  }

  /** With any valid caches, the leaves are those of walking every path and evaluating everything it holds. */
  lemma {:induction false} TraverseIsEnumerate(s: Settings, n: Node, inherited: seq<Label>, content: seq<Entry>,
                                               above: seq<Entry>, outer: set<Label>, caches: Caches, top: Node)
    requires Ready(n, above, top) && Holds(n, content, above, inherited, outer, Above(top, n))
    requires Reach(n) <= caches.Keys && AllValid(caches, top)
    requires caches[n] != [] ==> Told(n, n.content + above, Above(top, n))
    ensures var t := Traverse(s, n, inherited, content, caches);
            t.leaves == Enumerate(s, n, inherited, above) && AllValid(t.caches, top)
    decreases n.height, |n.children| + 1
  {
    var ctx, path := inherited + n.name, n.content + above;
    EnteredIsRight(n, content, above, inherited, outer, caches[n], Above(top, n));
    var e := Entered(n, ctx, content, caches[n]);
    var caches' := caches[n := e.cases];
    assert AllValid(caches', top);
    if e.kept.None? {
      RefutedHasNoLeaf(s, n, inherited, above);
    } else if n.children == [] {
      LeafKeepsOperators(n, ctx, content, caches[n]);
      EvaluateOperators(e.kept.value, ctx);
      CoveredNothing(n.labels, ctx);
    } else {
      TraverseFromIsEnumerate(s, n, 0, ctx, e.kept.value, above, caches', top, false);
    }
  }

  lemma {:induction false} TraverseFromIsEnumerate(s: Settings, n: Node, k: nat, ctx: seq<Label>, kept: seq<Entry>,
                                                   above: seq<Entry>, caches: Caches, top: Node, found: bool)
    requires Ready(n, above, top) && k <= |n.children|
    requires var path := n.content + above;
             Refines(kept, path, ctx, n.labels) && Spread(kept) <= Spread(path) && KeptFrom(kept, path, ctx, n.labels)
    requires Reach(n) <= caches.Keys && AllValid(caches, top)
    ensures var t := TraverseFrom(s, n, k, ctx, kept, caches, found);
            t.leaves == EnumerateFrom(s, n, k, ctx, n.content + above, found) && AllValid(t.caches, top)
    decreases n.height, |n.children| - k
  {
    if k < |n.children| {
      ReachOfChild(n, k);
      ChildHolds(n, k, kept, above, ctx, top);
      TraverseIsEnumerate(s, n.children[k], ctx, kept, n.content + above, n.labels, caches, top);
      var t := Traverse(s, n.children[k], ctx, kept, caches);
      TraverseFromIsEnumerate(s, n, k + 1, ctx, kept, above, t.caches, top, found || t.leaves != []);
    }
  }
}
