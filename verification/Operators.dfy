/** The assignment operators and what they do to a dictionary. */
module Operators {
  type Dict = map<string, string>

  /** How `${key}` references in a value are filled in from the dictionary; any function will do. */
  type Substitution = (string, Dict) -> string

  datatype Op =
    | Set(name: string, value: string)
    | Append(name: string, value: string)
    | Prepend(name: string, value: string)
    | LazySet(name: string, value: string)
    | ApplyPreDict(dict: Dict)

  const RESERVED_KEYS: set<string> := {"name", "shortname", "dep", "_short_name_map_file", "_name_map_file"}

  predicate HasReference(value: string) {
    '$' in value
  }

  function Substitute(subst: Substitution, value: string, d: Dict): string {
    if HasReference(value) then subst(value, d) else value
  }

  function Get(d: Dict, key: string): string {
    if key in d then d[key] else ""
  }

  function Apply(subst: Substitution, op: Op, d: Dict): Dict {
    match op
    case ApplyPreDict(pre) => d + pre
    case _ =>
      if op.name in RESERVED_KEYS then d
      else
        var v := Substitute(subst, op.value, d);
        match op
        case Set(name, _) => d[name := v]
        case Append(name, _) => d[name := Get(d, name) + v]
        case Prepend(name, _) => d[name := v + Get(d, name)]
        case LazySet(name, _) => if name in d then d else d[name := v]
  }

  function ApplyAll(subst: Substitution, ops: seq<Op>, d: Dict): Dict {
    if ops == [] then d else ApplyAll(subst, ops[1..], Apply(subst, ops[0], d))
  }

  lemma {:induction false} ApplyAllAppend(subst: Substitution, a: seq<Op>, b: seq<Op>, d: Dict)
    ensures ApplyAll(subst, a + b, d) == ApplyAll(subst, b, ApplyAll(subst, a, d))
  {
    if a == [] {
      assert a + b == b;
    } else {
      assert (a + b)[1..] == a[1..] + b;
      ApplyAllAppend(subst, a[1..], b, Apply(subst, a[0], d));
    }
  }

  lemma ApplyAllOne(subst: Substitution, op: Op, d: Dict)
    ensures ApplyAll(subst, [op], d) == Apply(subst, op, d)
  {
    assert [op][1..] == [];
  }
}
