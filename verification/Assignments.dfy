/** Compiling the statements of a block into content: plain assignments are collected in a dictionary that is
    applied as one operator. Applying the compiled content equals carrying out the statements one by one. */
module Assignments {
  import opened Options
  import opened Labels
  import opened Filters
  import opened Operators
  import opened Content

  type Assignment = op: Op | !op.ApplyPreDict? witness Set("", "")

  datatype Statement =
    | Assign(pos: Position, op: Assignment)
    | OnlyLine(pos: Position, filter: Filter)
    | NoLine(pos: Position, filter: Filter)
    | When(pos: Position, filter: Filter, body: seq<Statement>)
    | Unless(pos: Position, filter: Filter, body: seq<Statement>)

  // ----- the simple meaning: one statement after the other -----

  /** The dictionary after the statements, or None when a filter rejects the context. */
  function Execute(subst: Substitution, stmts: seq<Statement>, ctx: seq<Label>, d: Dict): Option<Dict> {
    if stmts == [] then Some(d)
    else
      match ExecuteOne(subst, stmts[0], ctx, d)
      case None => None
      case Some(d') => Execute(subst, stmts[1..], ctx, d')
  }

  function ExecuteOne(subst: Substitution, stmt: Statement, ctx: seq<Label>, d: Dict): Option<Dict> {
    match stmt
    case Assign(_, op) => Some(Apply(subst, op, d))
    case OnlyLine(_, f) => if Match(f, ctx) then Some(d) else None
    case NoLine(_, f) => if Match(f, ctx) then None else Some(d)
    case When(_, f, body) => if Match(f, ctx) then Execute(subst, body, ctx, d) else Some(d)
    case Unless(_, f, body) => if Match(f, ctx) then Some(d) else Execute(subst, body, ctx, d)
  }

  lemma ExecuteSingle(subst: Substitution, stmt: Statement, ctx: seq<Label>, d: Dict)
    ensures Execute(subst, [stmt], ctx, d) == ExecuteOne(subst, stmt, ctx, d)
  {
    assert [stmt][1..] == [];
  }

  // ----- what the statements do to a dictionary -----

  /** Names that no statement sets. */
  predicate Reserved(name: string) {
    name == "name" || name == "shortname" || name == "dep" || name == "_short_name_map_file" || name == "_name_map_file"
  }

  /** The value written, with its references filled in from the dictionary. */
  function Filled(subst: Substitution, value: string, d: Dict): string {
    if exists i | 0 <= i < |value| :: value[i] == '$' then subst(value, d) else value
  }

  /** One assignment: `=` replaces, `+=` writes behind and `<=` before what is there, `~=` only where nothing is. Only
      the named key changes, and a reserved one does not. */
  lemma AssignmentMeans(subst: Substitution, pos: Position, op: Assignment, ctx: seq<Label>, d: Dict)
    ensures var n, v := op.name, Filled(subst, op.value, d);
      Execute(subst, [Assign(pos, op)], ctx, d) == Some(
        if Reserved(n) || (op.LazySet? && n in d) then d
        else if n in d && op.Append? then d[n := d[n] + v]
        else if n in d && op.Prepend? then d[n := v + d[n]]
        else d[n := v])
  {
    ExecuteSingle(subst, Assign(pos, op), ctx, d);
    var v := Filled(subst, op.value, d);
    assert "" + v == v && v + "" == v;
    assert HasReference(op.value) <==> exists i | 0 <= i < |op.value| :: op.value[i] == '$';
  }

  lemma ExecuteTwo(subst: Substitution, first: Statement, second: Statement, ctx: seq<Label>, d: Dict, d': Dict)
    requires Execute(subst, [first], ctx, d) == Some(d')
    ensures Execute(subst, [first, second], ctx, d) == Execute(subst, [second], ctx, d')
  {
    assert [first, second] == [first] + [second];
    ExecuteAppend(subst, [first], [second], ctx, d);
  }

  /** Setting and then adding: behind with `+=`, before with `<=`, and not at all with `~=`. */
  lemma SetThenAdd(subst: Substitution, pos: Position, n: string, v: string, w: string, ctx: seq<Label>, d: Dict)
    requires !Reserved(n) && '$' !in v && '$' !in w
    ensures Execute(subst, [Assign(pos, Set(n, v)), Assign(pos, Append(n, w))], ctx, d) == Some(d[n := v + w])
    ensures Execute(subst, [Assign(pos, Set(n, v)), Assign(pos, Prepend(n, w))], ctx, d) == Some(d[n := w + v])
    ensures Execute(subst, [Assign(pos, Set(n, v)), Assign(pos, LazySet(n, w))], ctx, d) == Some(d[n := v])
  {
    SetThen(subst, pos, n, v, Append(n, w), ctx, d);
    SetThen(subst, pos, n, v, Prepend(n, w), ctx, d);
    SetThen(subst, pos, n, v, LazySet(n, w), ctx, d);
  }

  lemma SetThen(subst: Substitution, pos: Position, n: string, v: string, op: Assignment, ctx: seq<Label>, d: Dict)
    requires !Reserved(n) && '$' !in v && '$' !in op.value && op.name == n && !op.Set?
    ensures Execute(subst, [Assign(pos, Set(n, v)), Assign(pos, op)], ctx, d) ==
            Some(d[n := if op.Append? then v + op.value else if op.Prepend? then op.value + v else v])
  {
    AssignmentMeans(subst, pos, Set(n, v), ctx, d);
    AssignmentMeans(subst, pos, op, ctx, d[n := v]);
    ExecuteTwo(subst, Assign(pos, Set(n, v)), Assign(pos, op), ctx, d, d[n := v]);
    assert d[n := v][n := v + op.value] == d[n := v + op.value];
    assert d[n := v][n := op.value + v] == d[n := op.value + v];
  }

  // ----- content against statements -----

  function Run(subst: Substitution, content: seq<Entry>, ctx: seq<Label>, d: Dict): Option<Dict> {
    match Evaluate(content, ctx)
    case Rejected => None
    case Accepted(ops) => Some(ApplyAll(subst, ops, d))
  }

  ghost predicate Implements(content: seq<Entry>, stmts: seq<Statement>) {
    forall subst: Substitution, ctx: seq<Label>, d: Dict :: Run(subst, content, ctx, d) == Execute(subst, stmts, ctx, d)
  }

  lemma {:induction false} ExecuteAppend(subst: Substitution, a: seq<Statement>, b: seq<Statement>, ctx: seq<Label>,
                                         d: Dict)
    ensures Execute(subst, a + b, ctx, d) ==
            match Execute(subst, a, ctx, d) case None => None case Some(d') => Execute(subst, b, ctx, d')
  {
    if a == [] {
      assert a + b == b;
    } else {
      assert (a + b)[1..] == a[1..] + b;
      if d': Dict :| ExecuteOne(subst, a[0], ctx, d) == Some(d') {
        ExecuteAppend(subst, a[1..], b, ctx, d');
      }
    }
  }

  lemma RunAppend(subst: Substitution, a: seq<Entry>, b: seq<Entry>, ctx: seq<Label>, d: Dict)
    ensures Run(subst, a + b, ctx, d) ==
            match Run(subst, a, ctx, d) case None => None case Some(d') => Run(subst, b, ctx, d')
  {
    EvaluateAppend(a, b, ctx);
    var x, y := Evaluate(a, ctx), Evaluate(b, ctx);
    if x.Accepted? && y.Accepted? {
      ApplyAllAppend(subst, x.ops, y.ops, d);
    }
  }

  lemma ImplementsAppend(c1: seq<Entry>, s1: seq<Statement>, c2: seq<Entry>, s2: seq<Statement>)
    requires Implements(c1, s1) && Implements(c2, s2)
    ensures Implements(c1 + c2, s1 + s2)
  {
    forall subst: Substitution, ctx: seq<Label>, d: Dict
      ensures Run(subst, c1 + c2, ctx, d) == Execute(subst, s1 + s2, ctx, d)
    {
      RunAppend(subst, c1, c2, ctx, d);
      ExecuteAppend(subst, s1, s2, ctx, d);
    }
  }

  /** One entry stands for one statement. */
  lemma ImplementsOne(e: Entry, stmt: Statement)
    requires match stmt
             case Assign(_, op) => e.Operator? && e.op == op
             case OnlyLine(_, f) => e.Only? && e.filter == f
             case NoLine(_, f) => e.No? && e.filter == f
             case When(_, f, body) => e.Condition? && e.filter == f && Implements(e.content, body)
             case Unless(_, f, body) => e.NegativeCondition? && e.filter == f && Implements(e.content, body)
    ensures Implements([e], [stmt])
  {
    forall subst: Substitution, ctx: seq<Label>, d: Dict
      ensures Run(subst, [e], ctx, d) == Execute(subst, [stmt], ctx, d)
    {
      EvaluateOne(e, ctx);
      ExecuteSingle(subst, stmt, ctx, d);
      if stmt.Assign? {
        ApplyAllOne(subst, stmt.op, d);
      }
      if stmt.When? || stmt.Unless? {
        assert Run(subst, e.content, ctx, d) == Execute(subst, stmt.body, ctx, d);
      }
    }
  }

  // ----- the batch of pending assignments -----

  function Flush(pos: Position, pre: Dict): Entry {
    Operator(pos, ApplyPreDict(pre))
  }

  lemma RunFlush(subst: Substitution, content: seq<Entry>, pos: Position, pre: Dict, ctx: seq<Label>, d: Dict)
    ensures Run(subst, content + [Flush(pos, pre)], ctx, d) ==
            match Run(subst, content, ctx, d) case None => None case Some(d') => Some(d' + pre)
  {
    RunAppend(subst, content, [Flush(pos, pre)], ctx, d);
    EvaluateOne(Flush(pos, pre), ctx);
    forall d': Dict ensures ApplyAll(subst, [ApplyPreDict(pre)], d') == d' + pre {
      ApplyAllOne(subst, ApplyPreDict(pre), d');
    }
  }

  /** The content so far and the pending assignments together stand for the statements so far. */
  ghost predicate Pending(content: seq<Entry>, pre: Dict, stmts: seq<Statement>) {
    forall subst: Substitution, ctx: seq<Label>, d: Dict ::
      Execute(subst, stmts, ctx, d) ==
      match Run(subst, content, ctx, d) case None => None case Some(d') => Some(d' + pre)
  }

  lemma Flushed(content: seq<Entry>, pos: Position, pre: Dict, stmts: seq<Statement>)
    requires Pending(content, pre, stmts)
    ensures Implements(content + [Flush(pos, pre)], stmts)
  {
    forall subst: Substitution, ctx: seq<Label>, d: Dict
      ensures Run(subst, content + [Flush(pos, pre)], ctx, d) == Execute(subst, stmts, ctx, d)
    {
      RunFlush(subst, content, pos, pre, ctx, d);
    }
  }

  lemma NothingPending(content: seq<Entry>, stmts: seq<Statement>)
    ensures Implements(content, stmts) <==> Pending(content, map[], stmts)
  {
    forall d: Dict ensures d + map[] == d {}
  }

  /** A `=` without references, or another operator on a name already pending, can be carried out on the batch. */
  predicate Absorbable(op: Assignment, pre: Dict) {
    !HasReference(op.value) && (op.Set? || op.name in pre)
  }

  lemma AbsorbedApply(subst: Substitution, any: Substitution, op: Assignment, pre: Dict, d: Dict)
    requires Absorbable(op, pre)
    ensures Apply(subst, op, d + pre) == d + Apply(any, op, pre)
  {
  }

  lemma Absorbed(content: seq<Entry>, any: Substitution, pre: Dict, stmts: seq<Statement>, stmt: Statement)
    requires Pending(content, pre, stmts) && stmt.Assign? && Absorbable(stmt.op, pre)
    ensures Pending(content, Apply(any, stmt.op, pre), stmts + [stmt])
  {
    forall subst: Substitution, ctx: seq<Label>, d: Dict
      ensures Execute(subst, stmts + [stmt], ctx, d) ==
              match Run(subst, content, ctx, d) case None => None case Some(d') => Some(d' + Apply(any, stmt.op, pre))
    {
      ExecuteAppend(subst, stmts, [stmt], ctx, d);
      if d': Dict :| Run(subst, content, ctx, d) == Some(d') {
        ExecuteSingle(subst, stmt, ctx, d' + pre);
        AbsorbedApply(subst, any, stmt.op, pre, d');
      }
    }
  }

  /** What an unreferenced value is replaced by: itself, whatever the substitution. */
  function Verbatim(): Substitution {
    (value: string, d: Dict) => value
  }

  /** The content the parser builds for a block; `end` is where the reader stands when the block ends. */
  method Compile(stmts: seq<Statement>, end: Position) returns (content: seq<Entry>)
    ensures Implements(content, stmts)
    decreases stmts
  {
    content := [];
    var pre: Dict := map[];
    NothingPending(content, []);
    for i := 0 to |stmts|
      invariant Pending(content, pre, stmts[..i])
    {
      var stmt := stmts[i];
      assert stmts[..i + 1] == stmts[..i] + [stmt];
      if stmt.Assign? && Absorbable(stmt.op, pre) {
        Absorbed(content, Verbatim(), pre, stmts[..i], stmt);
        pre := Apply(Verbatim(), stmt.op, pre);
      } else {
        if stmt.Assign? && pre == map[] {
          NothingPending(content, stmts[..i]);
        } else {
          Flushed(content, stmt.pos, pre, stmts[..i]);
          content := content + [Flush(stmt.pos, pre)];
          pre := map[];
        }
        var e := CompileOne(stmt);
        ImplementsAppend(content, stmts[..i], [e], [stmt]);
        content := content + [e];
        NothingPending(content, stmts[..i + 1]);
      }
    }
    assert stmts[..|stmts|] == stmts;
    if pre != map[] {
      Flushed(content, end, pre, stmts);
      content := content + [Flush(end, pre)];
    } else {
      NothingPending(content, stmts);
    }
  }

  method CompileOne(stmt: Statement) returns (e: Entry)
    ensures Implements([e], [stmt])
    decreases stmt
  {
    match stmt {
      case Assign(pos, op) => e := Operator(pos, op);
      case OnlyLine(pos, f) => e := Only(pos, f);
      case NoLine(pos, f) => e := No(pos, f);
      case When(pos, f, body) =>
        var inner := Compile(body, pos);
        e := Condition(pos, f, inner);
      case Unless(pos, f, body) =>
        var inner := Compile(body, pos);
        e := NegativeCondition(pos, f, inner);
    }
    ImplementsOne(e, stmt);
  }
}
