/** The content of a node: operators, filters and conditional blocks, and how it is pruned on the way down. */
module Content {
  import opened Sequences
  import opened Labels
  import opened Filters
  import opened Operators

  datatype Position = Position(file: string, line: int)

  datatype Entry =
    | Operator(pos: Position, op: Op)
    | Only(pos: Position, filter: Filter)
    | No(pos: Position, filter: Filter)
    | Condition(pos: Position, filter: Filter, content: seq<Entry>)
    | NegativeCondition(pos: Position, filter: Filter, content: seq<Entry>)
  {
    predicate IsFilter() {
      Only? || No?
    }

    predicate IsConditional() {
      Condition? || NegativeCondition?
    }
  }

  // ----- the simple meaning: evaluate everything once, on the full list of labels -----

  datatype Outcome = Rejected | Accepted(ops: seq<Op>)

  function Both(a: Outcome, b: Outcome): Outcome {
    if a.Accepted? && b.Accepted? then Accepted(a.ops + b.ops) else Rejected
  }

  function Evaluate(content: seq<Entry>, ctx: seq<Label>): Outcome {
    if content == [] then Accepted([]) else Both(EvaluateEntry(content[0], ctx), Evaluate(content[1..], ctx))
  }

  function EvaluateEntry(e: Entry, ctx: seq<Label>): Outcome {
    match e
    case Operator(_, op) => Accepted([op])
    case Only(_, f) => if Match(f, ctx) then Accepted([]) else Rejected
    case No(_, f) => if Match(f, ctx) then Rejected else Accepted([])
    case Condition(_, f, inner) => if Match(f, ctx) then Evaluate(inner, ctx) else Accepted([])
    case NegativeCondition(_, f, inner) => if Match(f, ctx) then Accepted([]) else Evaluate(inner, ctx)
  }

  lemma {:induction false} EvaluateAppend(a: seq<Entry>, b: seq<Entry>, ctx: seq<Label>)
    ensures Evaluate(a + b, ctx) == Both(Evaluate(a, ctx), Evaluate(b, ctx))
  {
    if a == [] {
      assert a + b == b;
    } else {
      assert (a + b)[1..] == a[1..] + b;
      EvaluateAppend(a[1..], b, ctx);
    }
  }

  lemma EvaluateOne(e: Entry, ctx: seq<Label>)
    ensures Evaluate([e], ctx) == EvaluateEntry(e, ctx)
  {
    assert Evaluate([e][1..], ctx) == Accepted([]);
  }

  // ----- partial evaluation at an interior node -----

  predicate RequiresAction(e: Entry, ctx: seq<Label>, labels: set<Label>)
    requires !e.Operator?
  {
    if e.Only? || e.NegativeCondition? then !MightMatch(e.filter, ctx, labels) else Match(e.filter, ctx)
  }

  predicate IsIrrelevant(e: Entry, ctx: seq<Label>, labels: set<Label>)
    requires !e.Operator?
  {
    if e.Only? || e.NegativeCondition? then Match(e.filter, ctx) else !MightMatch(e.filter, ctx, labels)
  }

  /** `kept` means the same as `content` on every context that reaches below a node with these labels. */
  ghost predicate Refines(kept: seq<Entry>, content: seq<Entry>, ctx: seq<Label>, labels: set<Label>) {
    forall ext: seq<Label> | Covered(ext, labels) :: Evaluate(kept, ctx + ext) == Evaluate(content, ctx + ext)
  }

  ghost predicate Refuted(content: seq<Entry>, ctx: seq<Label>, labels: set<Label>) {
    forall ext: seq<Label> | Covered(ext, labels) :: Evaluate(content, ctx + ext) == Rejected
  }

  lemma RefinesAppend(k1: seq<Entry>, c1: seq<Entry>, k2: seq<Entry>, c2: seq<Entry>, ctx: seq<Label>,
                      labels: set<Label>)
    requires Refines(k1, c1, ctx, labels) && Refines(k2, c2, ctx, labels)
    ensures Refines(k1 + k2, c1 + c2, ctx, labels)
  {
    forall ext: seq<Label> | Covered(ext, labels)
      ensures Evaluate(k1 + k2, ctx + ext) == Evaluate(c1 + c2, ctx + ext)
    {
      EvaluateAppend(k1, k2, ctx + ext);
      EvaluateAppend(c1, c2, ctx + ext);
    }
  }

  lemma RefutedEither(a: seq<Entry>, b: seq<Entry>, ctx: seq<Label>, labels: set<Label>)
    requires Refuted(a, ctx, labels) || Refuted(b, ctx, labels)
    ensures Refuted(a + b, ctx, labels)
  {
    forall ext: seq<Label> | Covered(ext, labels) ensures Evaluate(a + b, ctx + ext) == Rejected {
      EvaluateAppend(a, b, ctx + ext);
    }
  }

  /** An entry that requires action is decided the same way on every path below. */
  lemma ActionIsFinal(e: Entry, ctx: seq<Label>, labels: set<Label>, ext: seq<Label>)
    requires !e.Operator? && RequiresAction(e, ctx, labels) && Covered(ext, labels)
    ensures EvaluateEntry(e, ctx + ext) == if e.IsFilter() then Rejected else Evaluate(e.content, ctx + ext)
  {
    if Match(e.filter, ctx) {
      MatchGrows(e.filter, ctx, ext);
    } else if Match(e.filter, ctx + ext) {
      MightMatchSound(e.filter, ctx, ext, labels);
    }
  }

  /** An irrelevant entry contributes nothing on any path below. */
  lemma IrrelevanceIsFinal(e: Entry, ctx: seq<Label>, labels: set<Label>, ext: seq<Label>)
    requires !e.Operator? && IsIrrelevant(e, ctx, labels) && Covered(ext, labels)
    ensures EvaluateEntry(e, ctx + ext) == Accepted([])
  {
    if Match(e.filter, ctx) {
      MatchGrows(e.filter, ctx, ext);
    } else if Match(e.filter, ctx + ext) {
      MightMatchSound(e.filter, ctx, ext, labels);
    }
  }

  lemma FilterRefuted(e: Entry, ctx: seq<Label>, labels: set<Label>)
    requires e.IsFilter() && RequiresAction(e, ctx, labels)
    ensures Refuted([e], ctx, labels)
  {
    forall ext: seq<Label> | Covered(ext, labels) ensures Evaluate([e], ctx + ext) == Rejected {
      ActionIsFinal(e, ctx, labels, ext);
      EvaluateOne(e, ctx + ext);
    }
  }

  lemma ConditionalUnpacks(e: Entry, kept: seq<Entry>, ctx: seq<Label>, labels: set<Label>)
    requires e.IsConditional() && RequiresAction(e, ctx, labels)
    ensures Refines(kept, e.content, ctx, labels) ==> Refines(kept, [e], ctx, labels)
    ensures Refuted(e.content, ctx, labels) ==> Refuted([e], ctx, labels)
  {
    forall ext: seq<Label> | Covered(ext, labels)
      ensures Evaluate([e], ctx + ext) == Evaluate(e.content, ctx + ext)
    {
      ActionIsFinal(e, ctx, labels, ext);
      EvaluateOne(e, ctx + ext);
    }
  }

  lemma IrrelevantDrops(e: Entry, ctx: seq<Label>, labels: set<Label>)
    requires !e.Operator? && IsIrrelevant(e, ctx, labels)
    ensures Refines([], [e], ctx, labels)
  {
    forall ext: seq<Label> | Covered(ext, labels) ensures Evaluate([e], ctx + ext) == Evaluate([], ctx + ext) {
      IrrelevanceIsFinal(e, ctx, labels, ext);
      EvaluateOne(e, ctx + ext);
    }
  }

  // ----- identity of entries -----

  /** Every filter and conditional of a content, nested ones included, with its number of occurrences. */
  ghost function Spread(content: seq<Entry>): multiset<Entry> {
    if content == [] then multiset{} else SpreadEntry(content[0]) + Spread(content[1..])
  }

  ghost function SpreadEntry(e: Entry): multiset<Entry> {
    match e
    case Operator(_, _) => multiset{}
    case Condition(_, _, inner) => multiset{e} + Spread(inner)
    case NegativeCondition(_, _, inner) => multiset{e} + Spread(inner)
    case _ => multiset{e}
  }

  lemma {:induction false} SpreadNoOperator(content: seq<Entry>, x: Entry)
    requires x in Spread(content)
    ensures !x.Operator?
  {
    var e := content[0];
    if x in SpreadEntry(e) {
      if e.IsConditional() && x != e {
        SpreadNoOperator(e.content, x);
      }
    } else {
      SpreadNoOperator(content[1..], x);
    }
  }

  lemma {:induction false} SpreadAppend(a: seq<Entry>, b: seq<Entry>)
    ensures Spread(a + b) == Spread(a) + Spread(b)
  {
    if a == [] {
      assert a + b == b;
    } else {
      assert (a + b)[1..] == a[1..] + b;
      SpreadAppend(a[1..], b);
    }
  }

  lemma SpreadOne(e: Entry)
    ensures Spread([e]) == SpreadEntry(e)
  {
    assert Spread([e][1..]) == multiset{};
  }

  lemma SpreadMember(content: seq<Entry>, i: nat)
    requires i < |content|
    ensures SpreadEntry(content[i]) <= Spread(content)
  {
    SplitAround(content, i);
    SpreadAppend(content[..i] + [content[i]], content[i + 1..]);
    SpreadAppend(content[..i], [content[i]]);
    SpreadOne(content[i]);
  }

  lemma SpreadInside(content: seq<Entry>, t: Entry, x: Entry)
    requires t in content && x in SpreadEntry(t)
    ensures x in Spread(content)
  {
    var i :| 0 <= i < |content| && content[i] == t;
    SpreadMember(content, i);
  }

  /** What is nested in something nested is nested. */
  lemma {:induction false} SpreadDeep(content: seq<Entry>, t: Entry, x: Entry)
    requires t in Spread(content) && x in SpreadEntry(t)
    ensures x in Spread(content)
  {
    var e := content[0];
    if t in SpreadEntry(e) {
      if t != e {
        SpreadDeep(e.content, t, x);
      }
    } else {
      SpreadDeep(content[1..], t, x);
    }
  }

  // ----- what occurs only inside a conditional -----

  /** Wherever `x` occurs in the content, it is inside `t`. */
  predicate OnlyInside(content: seq<Entry>, t: Entry, x: Entry) {
    forall i | 0 <= i < |content| :: EntryOnlyInside(content[i], t, x)
  }

  predicate EntryOnlyInside(e: Entry, t: Entry, x: Entry) {
    e == t || (e != x && (e.IsConditional() ==> OnlyInside(e.content, t, x)))
  }

  lemma OnlyInsideAppend(a: seq<Entry>, b: seq<Entry>, t: Entry, x: Entry)
    ensures OnlyInside(a + b, t, x) <==> OnlyInside(a, t, x) && OnlyInside(b, t, x)
  {
    assert forall i | 0 <= i < |a| :: (a + b)[i] == a[i];
    assert forall i | 0 <= i < |b| :: (a + b)[|a| + i] == b[i];
  }

  /** What occurs only inside a conditional does not stand beside it. */
  lemma NotBeside(content: seq<Entry>, t: Entry, x: Entry)
    requires OnlyInside(content, t, x) && x != t
    ensures x !in content
  {
  }

  // ----- processing a content -----

  /** `kept` stands for `content`, holds nothing that is already decided and nothing that was not there. */
  ghost predicate Pruned(kept: seq<Entry>, content: seq<Entry>, ctx: seq<Label>, labels: set<Label>) {
    && Refines(kept, content, ctx, labels)
    && (forall e | e in kept :: e.Operator? || (MightMatch(e.filter, ctx, labels) && !Match(e.filter, ctx)))
    && Spread(kept) <= Spread(content)
  }

  lemma PrunedAppend(k1: seq<Entry>, c1: seq<Entry>, k2: seq<Entry>, c2: seq<Entry>, ctx: seq<Label>,
                     labels: set<Label>)
    requires Pruned(k1, c1, ctx, labels) && Pruned(k2, c2, ctx, labels)
    ensures Pruned(k1 + k2, c1 + c2, ctx, labels)
  {
    RefinesAppend(k1, c1, k2, c2, ctx, labels);
    SpreadAppend(k1, k2);
    SpreadAppend(c1, c2);
  }

  lemma UndecidedKept(t: Entry, ctx: seq<Label>, labels: set<Label>)
    requires t.Operator? || (!RequiresAction(t, ctx, labels) && !IsIrrelevant(t, ctx, labels))
    ensures Pruned([t], [t], ctx, labels)
  {
  }

  lemma IrrelevantPruned(t: Entry, ctx: seq<Label>, labels: set<Label>)
    requires !t.Operator? && IsIrrelevant(t, ctx, labels)
    ensures Pruned([], [t], ctx, labels)
  {
    IrrelevantDrops(t, ctx, labels);
    SpreadOne(t);
  }

  lemma UnpackedPruned(t: Entry, kept: seq<Entry>, ctx: seq<Label>, labels: set<Label>)
    requires t.IsConditional() && RequiresAction(t, ctx, labels)
    requires Pruned(kept, t.content, ctx, labels)
    ensures Pruned(kept, [t], ctx, labels)
  {
    ConditionalUnpacks(t, kept, ctx, labels);
    SpreadOne(t);
  }

  datatype Processed = Passed(kept: seq<Entry>) | Failed(failed: seq<Entry>, nested: seq<Entry>)

  function Then(first: Processed, rest: Processed): Processed {
    if first.Failed? then first else if rest.Failed? then rest else Passed(first.kept + rest.kept)
  }

  /** The entries of `content` that still matter below, with the conditionals that are decided unpacked; or the
      entry that failed, and for a conditional the failures inside it. */
  function Process(content: seq<Entry>, ctx: seq<Label>, labels: set<Label>): Processed {
    if content == [] then Passed([])
    else Then(ProcessEntry(content[0], ctx, labels), Process(content[1..], ctx, labels))
  }

  function ProcessEntry(t: Entry, ctx: seq<Label>, labels: set<Label>): Processed {
    if t.Operator? then Passed([t])
    else if RequiresAction(t, ctx, labels) then
      if t.IsFilter() then Failed([t], [])
      else
        match Process(t.content, ctx, labels)
        case Passed(kept) => Passed(kept)
        case Failed(failed, nested) => Failed([t], nested + failed)
    else if IsIrrelevant(t, ctx, labels) then Passed([])
    else Passed([t])
  }

  /** What is kept stands for the content on every path below; a failed content rejects every path below. */
  ghost predicate Sound(p: Processed, content: seq<Entry>, ctx: seq<Label>, labels: set<Label>) {
    match p
    case Passed(kept) => Pruned(kept, content, ctx, labels)
    case Failed(failed, nested) =>
      Refuted(content, ctx, labels) && FailureRecord(failed, nested, content, ctx, labels)
  }

  lemma {:induction false} ProcessIsSound(content: seq<Entry>, ctx: seq<Label>, labels: set<Label>)
    ensures Sound(Process(content, ctx, labels), content, ctx, labels)
    decreases content
  {
    if content == [] {
      assert Pruned([], [], ctx, labels);
    } else {
      ProcessEntryIsSound(content[0], ctx, labels);
      ProcessIsSound(content[1..], ctx, labels);
      ThenIsSound(content, ProcessEntry(content[0], ctx, labels), Process(content[1..], ctx, labels), ctx, labels);
    }
  }

  lemma ThenIsSound(content: seq<Entry>, first: Processed, rest: Processed, ctx: seq<Label>, labels: set<Label>)
    requires content != []
    requires Sound(first, [content[0]], ctx, labels) && Sound(rest, content[1..], ctx, labels)
    ensures Sound(Then(first, rest), content, ctx, labels)
  {
    assert content == [content[0]] + content[1..];
    if first.Failed? || rest.Failed? {
      RefutedEither([content[0]], content[1..], ctx, labels);
    } else {
      PrunedAppend(first.kept, [content[0]], rest.kept, content[1..], ctx, labels);
    }
  }

  lemma {:induction false} ProcessEntryIsSound(t: Entry, ctx: seq<Label>, labels: set<Label>)
    ensures Sound(ProcessEntry(t, ctx, labels), [t], ctx, labels)
    decreases t
  {
    if t.Operator? {
      UndecidedKept(t, ctx, labels);
    } else if RequiresAction(t, ctx, labels) {
      if t.IsFilter() {
        FilterRefuted(t, ctx, labels);
      } else {
        ProcessIsSound(t.content, ctx, labels);
        match Process(t.content, ctx, labels) {
          case Passed(kept) =>
            UnpackedPruned(t, kept, ctx, labels);
          case Failed(failed, nested) =>
            ConditionalUnpacks(t, [], ctx, labels);
            FailureIsNested(t, failed, nested, ctx, labels);
        }
      }
    } else if IsIrrelevant(t, ctx, labels) {
      IrrelevantPruned(t, ctx, labels);
    } else {
      UndecidedKept(t, ctx, labels);
    }
  }

  /** While a conditional is undecided, what occurs only inside it still does. */
  lemma {:induction false} ProcessKeepsInside(content: seq<Entry>, ctx: seq<Label>, labels: set<Label>, t: Entry,
                                              x: Entry)
    requires t.IsConditional() && !RequiresAction(t, ctx, labels) && OnlyInside(content, t, x)
    requires Process(content, ctx, labels).Passed?
    ensures OnlyInside(Process(content, ctx, labels).kept, t, x)
    decreases content
  {
    if content != [] {
      var first, rest := ProcessEntry(content[0], ctx, labels), Process(content[1..], ctx, labels);
      assert EntryOnlyInside(content[0], t, x);
      ProcessEntryKeepsInside(content[0], ctx, labels, t, x);
      ProcessKeepsInside(content[1..], ctx, labels, t, x);
      OnlyInsideAppend(first.kept, rest.kept, t, x);
    }
  }

  lemma {:induction false} ProcessEntryKeepsInside(e: Entry, ctx: seq<Label>, labels: set<Label>, t: Entry, x: Entry)
    requires t.IsConditional() && !RequiresAction(t, ctx, labels) && EntryOnlyInside(e, t, x)
    requires ProcessEntry(e, ctx, labels).Passed?
    ensures OnlyInside(ProcessEntry(e, ctx, labels).kept, t, x)
    decreases e
  {
    if e.IsConditional() && RequiresAction(e, ctx, labels) {
      ProcessKeepsInside(e.content, ctx, labels, t, x);
    }
  }

  /** A content fails at one of its entries. */
  lemma {:induction false} FailsSomewhere(content: seq<Entry>, ctx: seq<Label>, labels: set<Label>) returns (t: Entry)
    requires Process(content, ctx, labels).Failed?
    ensures t in content && ProcessEntry(t, ctx, labels) == Process(content, ctx, labels)
    ensures Process(content, ctx, labels).failed == [t]
  {
    if ProcessEntry(content[0], ctx, labels).Failed? {
      t := content[0];
    } else {
      t := FailsSomewhere(content[1..], ctx, labels);
    }
  }

  /** A content that passes passes at each of its entries. */
  lemma {:induction false} PassesEverywhere(content: seq<Entry>, ctx: seq<Label>, labels: set<Label>, t: Entry)
    requires Process(content, ctx, labels).Passed? && t in content
    ensures ProcessEntry(t, ctx, labels).Passed?
  {
    if content[0] != t {
      assert t in content[1..];
      PassesEverywhere(content[1..], ctx, labels, t);
    }
  }

  lemma ProcessStep(content: seq<Entry>, i: nat, kept: seq<Entry>, ctx: seq<Label>, labels: set<Label>)
    requires i < |content|
    ensures var first := ProcessEntry(content[i], ctx, labels); var rest := Process(content[i + 1..], ctx, labels);
      Then(Passed(kept), Process(content[i..], ctx, labels)) ==
        if first.Failed? then first else Then(Passed(kept + first.kept), rest)
  {
    assert content[i..][1..] == content[i + 1..];
    var first, rest := ProcessEntry(content[i], ctx, labels), Process(content[i + 1..], ctx, labels);
    if first.Passed? && rest.Passed? {
      assert kept + (first.kept + rest.kept) == kept + first.kept + rest.kept;
    }
  }

  /** The loop over a content. `failed` and `nested` are what is added to the two lists of failed filters. */
  method ProcessContent(content: seq<Entry>, ctx: seq<Label>, labels: set<Label>)
    returns (ok: bool, kept: seq<Entry>, failed: seq<Entry>, nested: seq<Entry>)
    ensures Process(content, ctx, labels) == if ok then Passed(kept) else Failed(failed, nested)
    ensures ok ==> Pruned(kept, content, ctx, labels) && failed == nested == []
    ensures !ok ==> Refuted(content, ctx, labels) && FailureRecord(failed, nested, content, ctx, labels)
    decreases content
  {
    ProcessIsSound(content, ctx, labels);
    kept, failed, nested := [], [], [];
    for i := 0 to |content|
      invariant failed == nested == []
      invariant Process(content, ctx, labels) == Then(Passed(kept), Process(content[i..], ctx, labels))
    {
      var t := content[i];
      ProcessStep(content, i, kept, ctx, labels);
      if t.Operator? {
        kept := kept + [t];
      } else if RequiresAction(t, ctx, labels) {
        if t.IsFilter() {
          return false, kept, [t], [];
        }
        var ok', kept', failed', nested' := ProcessContent(t.content, ctx, labels);
        if !ok' {
          return false, kept, [t], nested' + failed';
        }
        kept := kept + kept';
      } else if IsIrrelevant(t, ctx, labels) {
        assert kept + [] == kept;
      } else {
        kept := kept + [t];
      }
    }
    assert Process(content[|content|..], ctx, labels) == Passed([]) && kept + [] == kept;
    ok := true;
  }

  lemma RefutedAt(content: seq<Entry>, i: nat, ctx: seq<Label>, labels: set<Label>)
    requires i < |content| && Refuted([content[i]], ctx, labels)
    ensures Refuted(content, ctx, labels)
  {
    SplitAround(content, i);
    RefutedEither(content[..i], [content[i]], ctx, labels);
    RefutedEither(content[..i] + [content[i]], content[i + 1..], ctx, labels);
  }

  /** What is recorded of a failure: the entry that failed and, for a conditional, the failures inside it, a filter
      among them. */
  ghost predicate FailureRecord(failed: seq<Entry>, nested: seq<Entry>, content: seq<Entry>, ctx: seq<Label>,
                                labels: set<Label>) {
    && |failed| == 1 && failed[0] in content
    && !failed[0].Operator? && RequiresAction(failed[0], ctx, labels)
    && (failed[0].IsFilter() ==> nested == [])
    && (failed[0].IsConditional() ==>
          && (exists x | x in nested :: x.IsFilter())
          && forall x | x in nested :: x in Spread(failed[0].content))
  }

  lemma SomeFilterFailed(failed: seq<Entry>, nested: seq<Entry>, content: seq<Entry>, ctx: seq<Label>,
                         labels: set<Label>)
    returns (x: Entry)
    requires FailureRecord(failed, nested, content, ctx, labels)
    ensures x in nested + failed && x.IsFilter()
  {
    if failed[0].IsFilter() {
      x := failed[0];
    } else {
      x :| x in nested && x.IsFilter();
    }
  }

  lemma FailureIsNested(t: Entry, failed: seq<Entry>, nested: seq<Entry>, ctx: seq<Label>, labels: set<Label>)
    requires t.IsConditional() && RequiresAction(t, ctx, labels)
    requires FailureRecord(failed, nested, t.content, ctx, labels)
    ensures FailureRecord([t], nested + failed, [t], ctx, labels)
  {
    var f := failed[0];
    var x := SomeFilterFailed(failed, nested, t.content, ctx, labels);
    SpreadInside(t.content, f, f);
    forall y | y in nested ensures y in Spread(t.content) {
      SpreadInside(t.content, f, y);
    }
    assert failed == [f] && forall y | y in nested + [f] :: y in nested || y == f;
  }

  // ----- decisions are final -----

  /** What the nodes above know covers the name of a node and everything below it. */
  ghost predicate Encloses(outer: set<Label>, name: seq<Label>, labels: set<Label>) {
    Covered(name, outer) && FindsAll(outer, labels)
  }

  /** An entry that requires action at a node requires it at every node below. */
  lemma ActionStays(e: Entry, ctx: seq<Label>, name: seq<Label>, outer: set<Label>, labels: set<Label>)
    requires !e.Operator? && RequiresAction(e, ctx, outer) && Encloses(outer, name, labels)
    ensures RequiresAction(e, ctx + name, labels)
  {
    if e.Only? || e.NegativeCondition? {
      if MightMatch(e.filter, ctx + name, labels) {
        MightMatchShrinks(e.filter, ctx, name, outer, labels);
      }
    } else {
      MatchGrows(e.filter, ctx, name);
    }
  }
}
