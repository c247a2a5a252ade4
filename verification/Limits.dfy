/** The last step on a finished dictionary: keys ending in `_max`, `_min` and `_fixed` bound or set another key. */
module Limits {
  import opened Options

  // ----- sizes -----

  datatype Unit = B | K | M | G | T

  /** An integer with an optional unit. */
  datatype Size = Size(amount: int, unit: Option<Unit>)

  function Order(u: Unit): nat {
    match u
    case B => 1
    case K => 1024
    case M => 1024 * 1024
    case G => 1024 * 1024 * 1024
    case T => 1024 * 1024 * 1024 * 1024
  }

  function ConvertDataSize(s: Size, defaultUnit: Unit): int {
    s.amount * Order(if s.unit.Some? then s.unit.value else defaultUnit)
  }

  function CompareInts(a: int, b: int): int {
    if a < b then -1 else if a == b then 0 else 1
  }

  /** With a unit on either side both are converted; otherwise the bare numbers are compared. */
  function CompareString(a: Size, b: Size): int {
    if a.unit.Some? || b.unit.Some? then CompareInts(ConvertDataSize(a, M), ConvertDataSize(b, M))
    else CompareInts(a.amount, b.amount)
  }

  /** Size in bytes; a bare number counts megabytes. */
  function Bytes(s: Size): int {
    match s.unit
    case Some(B) => s.amount
    case Some(K) => s.amount * 1_024
    case None => s.amount * 1_048_576
    case Some(M) => s.amount * 1_048_576
    case Some(G) => s.amount * 1_073_741_824
    case Some(T) => s.amount * 1_099_511_627_776
  }

  lemma CompareIsByBytes(a: Size, b: Size)
    ensures CompareString(a, b) < 0 <==> Bytes(a) < Bytes(b)
    ensures CompareString(a, b) == 0 <==> Bytes(a) == Bytes(b)
    ensures CompareString(a, b) > 0 <==> Bytes(a) > Bytes(b)
  {
  }

  /** 1024 of a unit are one of the next. */
  lemma UnitsStep(n: int)
    ensures CompareString(Size(1024 * n, Some(B)), Size(n, Some(K))) == 0
    ensures CompareString(Size(1024 * n, Some(K)), Size(n, Some(M))) == 0
    ensures CompareString(Size(1024 * n, Some(M)), Size(n, Some(G))) == 0
    ensures CompareString(Size(1024 * n, Some(G)), Size(n, Some(T))) == 0
  {
  }

  /** In one unit, and without any, sizes are ordered as their amounts. */
  lemma AmountsOrder(a: int, b: int, unit: Option<Unit>)
    ensures CompareString(Size(a, unit), Size(b, unit)) == if a < b then -1 else if a == b then 0 else 1
  {
    CompareIsByBytes(Size(a, unit), Size(b, unit));
  }

  /** A bare number is that many megabytes, on whichever side it stands. */
  lemma BareIsMegabytes(n: int)
    ensures CompareString(Size(n, None), Size(n, Some(M))) == 0 && CompareString(Size(n, Some(M)), Size(n, None)) == 0
  {
  }

  // ----- which key acts on which -----

  predicate EndsWith(s: string, suffix: string) {
    |suffix| <= |s| && s[|s| - |suffix|..] == suffix
  }

  /** The text before the first occurrence of `mark`; all of it when there is none. */
  function Before(s: string, mark: string): (r: string)
    ensures |r| <= |s|
    ensures |mark| > 0 && EndsWith(s, mark) ==> |r| < |s|
  {
    if mark <= s then ""
    else if s == "" then ""
    else
      var r := Before(s[1..], mark);
      assert EndsWith(s, mark) ==> |mark| < |s| && s[1..][|s[1..]| - |mark|..] == mark;
      [s[0]] + r
  }

  predicate StartsAt(s: string, mark: string, i: nat)
    requires i <= |s|
  {
    mark <= s[i..]
  }

  lemma StartsLater(s: string, mark: string, i: nat)
    requires i < |s|
    ensures StartsAt(s[1..], mark, i) <==> StartsAt(s, mark, i + 1)
  {
    assert s[1..][i..] == s[i + 1..];
  }

  /** Nothing is lost, and no occurrence of the mark is earlier. */
  lemma {:induction false} BeforeIsFirst(s: string, mark: string, i: nat)
    requires mark != "" && i <= |s| && StartsAt(s, mark, i) && forall j | 0 <= j < i :: !StartsAt(s, mark, j)
    ensures Before(s, mark) == s[..i]
    decreases |s|
  {
    assert s[0..] == s;
    if i > 0 {
      assert !StartsAt(s, mark, 0);
      StartsLater(s, mark, i - 1);
      forall j | 0 <= j < i - 1 ensures !StartsAt(s[1..], mark, j) {
        StartsLater(s, mark, j);
      }
      BeforeIsFirst(s[1..], mark, i - 1);
      assert [s[0]] + s[1..][..i - 1] == s[..i];
    }
  }

  datatype Action = Max(target: string) | Min(target: string) | Fixed(target: string) | Nothing

  function ActionOf(key: string): Action {
    if EndsWith(key, "_max") then Max(Before(key, "_max"))
    else if EndsWith(key, "_min") then Min(Before(key, "_min"))
    else if EndsWith(key, "_fixed") then Fixed(Before(key, "_fixed"))
    else Nothing
  }

  /** The mark put behind the name is the first one in the key. */
  predicate Unmarked(target: string, mark: string) {
    forall j | 0 <= j < |target| :: !StartsAt(target + mark, mark, j)
  }

  /** A key acts on the name before its mark, when that is the first. */
  lemma MarkedKeys(target: string)
    ensures Unmarked(target, "_max") ==> ActionOf(target + "_max") == Max(target)
    ensures Unmarked(target, "_min") ==> ActionOf(target + "_min") == Min(target)
    ensures Unmarked(target, "_fixed") ==> ActionOf(target + "_fixed") == Fixed(target)
  {
    MarkEnds(target, "_max");
    MarkEnds(target, "_min");
    MarkEnds(target, "_fixed");
    MarksDiffer(target);
    assert "_max" == (target + "_max")[|target|..] && "_min" == (target + "_min")[|target|..];
    assert "_fixed" == (target + "_fixed")[|target|..];
  }

  lemma MarkEnds(target: string, mark: string)
    requires mark != ""
    ensures EndsWith(target + mark, mark)
    ensures Unmarked(target, mark) ==> Before(target + mark, mark) == target
  {
    var s := target + mark;
    assert s[|target|..] == mark && s[..|target|] == target;
    if Unmarked(target, mark) {
      BeforeIsFirst(s, mark, |target|);
    }
  }

  lemma MarksDiffer(target: string)
    ensures !EndsWith(target + "_min", "_max")
    ensures !EndsWith(target + "_fixed", "_max") && !EndsWith(target + "_fixed", "_min")
  {
    var a, b := target + "_min", target + "_fixed";
    assert a[|a| - 4..] == "_min" && b[|b| - 4..] == "ixed";
  }

  /** A key that acts on a name begins with it and a mark. */
  predicate MightConcern(key: string, target: string) {
    target + "_max" <= key || target + "_min" <= key || target + "_fixed" <= key
  }

  lemma {:induction false} FirstMark(s: string, mark: string, from: nat) returns (i: nat)
    requires mark != "" && EndsWith(s, mark) && from + |mark| <= |s|
    requires forall j | 0 <= j < from :: !StartsAt(s, mark, j)
    ensures i <= |s| && StartsAt(s, mark, i) && forall j | 0 <= j < i :: !StartsAt(s, mark, j)
    decreases |s| - from
  {
    if from + |mark| == |s| || StartsAt(s, mark, from) {
      i := from;
    } else {
      i := FirstMark(s, mark, from + 1);
    }
  }

  lemma BeforeThenMark(s: string, mark: string)
    requires mark != "" && EndsWith(s, mark)
    ensures Before(s, mark) + mark <= s
  {
    var i := FirstMark(s, mark, 0);
    BeforeIsFirst(s, mark, i);
    assert s == s[..i] + s[i..];
  }

  lemma ActingConcerns(key: string, target: string)
    requires ActsOn(key, target)
    ensures MightConcern(key, target)
  {
    if EndsWith(key, "_max") {
      BeforeThenMark(key, "_max");
    } else if EndsWith(key, "_min") {
      BeforeThenMark(key, "_min");
    } else {
      BeforeThenMark(key, "_fixed");
    }
  }

  predicate ActsOn(key: string, target: string) {
    !ActionOf(key).Nothing? && ActionOf(key).target == target
  }

  lemma ActsOnShorter(key: string, target: string)
    requires ActsOn(key, target)
    ensures key != target
  {
  }

  type Dict = map<string, Size>

  /** The key sets its target: a bound does so when there is no value yet or the value is beyond it. */
  predicate Triggers(dic: Dict, key: string)
    requires key in dic
  {
    match ActionOf(key)
    case Max(t) => t !in dic || CompareString(dic[t], dic[key]) > 0
    case Min(t) => t !in dic || CompareString(dic[t], dic[key]) < 0
    case Fixed(_) => true
    case Nothing => false
  }

  /** The new value of `target`: that of the last key that sets it. */
  function Decided(dic: Dict, keys: seq<string>, target: string): Option<Size>
    requires forall i | 0 <= i < |keys| :: keys[i] in dic
  {
    if keys == [] then None
    else
      var last := keys[|keys| - 1];
      if ActsOn(last, target) && Triggers(dic, last) then Some(dic[last]) else Decided(dic, keys[..|keys| - 1], target)
  }

  function After(dic: Dict, keys: seq<string>, target: string): Option<Size>
    requires forall i | 0 <= i < |keys| :: keys[i] in dic
  {
    var d := Decided(dic, keys, target);
    if d.Some? then d else if target in dic then Some(dic[target]) else None
  }

  function Get(d: Dict, k: string): Option<Size> {
    if k in d then Some(d[k]) else None
  }

  ghost predicate Decisions(tmp: Dict, dic: Dict, keys: seq<string>)
    requires forall i | 0 <= i < |keys| :: keys[i] in dic
  {
    forall k :: Get(tmp, k) == Decided(dic, keys, k)
  }

  lemma NextDecisions(tmp: Dict, dic: Dict, keys: seq<string>, key: string)
    requires (forall i | 0 <= i < |keys| :: keys[i] in dic) && key in dic && Decisions(tmp, dic, keys)
    ensures forall i | 0 <= i < |keys + [key]| :: (keys + [key])[i] in dic
    ensures Decisions(if Triggers(dic, key) then tmp[ActionOf(key).target := dic[key]] else tmp, dic, keys + [key])
  {
    var tmp' := if Triggers(dic, key) then tmp[ActionOf(key).target := dic[key]] else tmp;
    assert (keys + [key])[..|keys|] == keys;
    forall k ensures Get(tmp', k) == Decided(dic, keys + [key], k) {
      assert Get(tmp, k) == Decided(dic, keys, k);
    }
  }

  /** `keys` is the order of the dictionary. */
  method PostfixParse(dic: Dict, keys: seq<string>) returns (r: Dict)
    requires forall i | 0 <= i < |keys| :: keys[i] in dic
    ensures forall k :: Get(r, k) == After(dic, keys, k)
  {
    var tmp: Dict := map[];
    for i := 0 to |keys|
      invariant Decisions(tmp, dic, keys[..i])
    {
      var key := keys[i];
      NextDecisions(tmp, dic, keys[..i], key);
      assert keys[..i + 1] == keys[..i] + [key];
      match ActionOf(key) {
        case Max(t) =>
          if t !in dic || CompareString(dic[t], dic[key]) > 0 {
            tmp := tmp[t := dic[key]];
          }
        case Min(t) =>
          if t !in dic || CompareString(dic[t], dic[key]) < 0 {
            tmp := tmp[t := dic[key]];
          }
        case Fixed(t) =>
          tmp := tmp[t := dic[key]];
        case Nothing =>
      }
    }
    assert keys[..|keys|] == keys;
    r := Update(dic, tmp);
    forall k ensures Get(r, k) == After(dic, keys, k) {
      assert Get(tmp, k) == Decided(dic, keys, k);
    }
  }

  method Update(dic: Dict, tmp: Dict) returns (r: Dict)
    ensures r == dic + tmp
  {
    r := dic;
    var rest := tmp.Keys;
    while rest != {}
      invariant rest <= tmp.Keys && r.Keys == dic.Keys + (tmp.Keys - rest)
      invariant forall k | k in r :: r[k] == if k in tmp && k !in rest then tmp[k] else dic[k]
      decreases rest
    {
      var k :| k in rest;
      r := r[k := tmp[k]];
      rest := rest - {k};
    }
  }

  // ----- clamping -----

  predicate Within(value: Size, lo: Size, hi: Size) {
    Bytes(lo) <= Bytes(value) <= Bytes(hi)
  }

  predicate HasKeys(keys: seq<string>, target: string) {
    target + "_max" in keys && target + "_min" in keys
  }

  ghost predicate Over(dic: Dict, keys: seq<string>) {
    forall k :: k in dic <==> k in keys
  }

  /** The keys that act on `target` are its `_max` and its `_min` key, and these do. */
  predicate OnlyItsBounds(keys: seq<string>, target: string) {
    && ActionOf(target + "_max") == Max(target) && ActionOf(target + "_min") == Min(target)
    && forall i | 0 <= i < |keys| && ActsOn(keys[i], target) :: keys[i] == target + "_max" || keys[i] == target + "_min"
  }

  /** In a dictionary with these keys in this order, the value ends within the bounds, and stays if it was. */
  ghost predicate Clamps(dic: Dict, keys: seq<string>, target: string)
    requires Over(dic, keys) && HasKeys(keys, target)
  {
    var lo, hi := dic[target + "_min"], dic[target + "_max"];
    var after := After(dic, keys, target);
    && after.Some? && Within(after.value, lo, hi)
    && (target in dic && Within(dic[target], lo, hi) ==> after == Some(dic[target]))
  }

  ghost predicate Ordered(dic: Dict, target: string)
    requires target + "_min" in dic && target + "_max" in dic
  {
    Bytes(dic[target + "_min"]) <= Bytes(dic[target + "_max"])
  }

  lemma {:induction false} DecidedByBounds(dic: Dict, keys: seq<string>, target: string)
    requires (forall i | 0 <= i < |keys| :: keys[i] in dic) && OnlyItsBounds(keys, target)
    requires target + "_min" in dic && target + "_max" in dic && Ordered(dic, target)
    ensures var lo, hi := dic[target + "_min"], dic[target + "_max"]; var d := Decided(dic, keys, target);
            && (d.Some? ==> (d.value == lo || d.value == hi) && (target in dic ==> !Within(dic[target], lo, hi)))
            && (d.Some? && target in dic ==> d.value == if Bytes(dic[target]) < Bytes(lo) then lo else hi)
            && (d.None? && (target + "_max" in keys && target + "_min" in keys) ==>
                 target in dic && Within(dic[target], lo, hi))
            && (d.None? && target in dic && target + "_max" in keys ==> Bytes(dic[target]) <= Bytes(hi))
            && (d.None? && target in dic && target + "_min" in keys ==> Bytes(dic[target]) >= Bytes(lo))
            && (d.None? && (target + "_max" in keys || target + "_min" in keys) ==> target in dic)
  {
    if keys != [] {
      var front, last := keys[..|keys| - 1], keys[|keys| - 1];
      assert keys == front + [last];
      DecidedByBounds(dic, front, target);
      if target in dic {
        CompareIsByBytes(dic[target], dic[last]);
      }
    }
  }

  /** With only its bounds acting on it, a value is clamped, whatever the dictionary holds and in whatever order. */
  lemma BoundsClamp(dic: Dict, keys: seq<string>, target: string)
    requires Over(dic, keys) && HasKeys(keys, target) && Ordered(dic, target) && OnlyItsBounds(keys, target)
    ensures Clamps(dic, keys, target)
  {
    DecidedByBounds(dic, keys, target);
  }

  /** A `_fixed` key that no later key of the same name follows gives the name its value. */
  lemma FixedGivesValue(dic: Dict, keys: seq<string>, target: string, i: nat)
    requires forall k | 0 <= k < |keys| :: keys[k] in dic
    requires i < |keys| && keys[i] == target + "_fixed" && Unmarked(target, "_fixed")
    requires forall j | i < j < |keys| :: !MightConcern(keys[j], target)
    ensures After(dic, keys, target) == Some(dic[target + "_fixed"])
  {
    MarkedKeys(target);
    forall j | i < j < |keys| ensures !ActsOn(keys[j], target) {
      if ActsOn(keys[j], target) {
        ActingConcerns(keys[j], target);
      }
    }
    FixedDecides(dic, keys, target, i);
  }

  lemma {:induction false} FixedDecides(dic: Dict, keys: seq<string>, target: string, i: nat)
    requires forall k | 0 <= k < |keys| :: keys[k] in dic
    requires i < |keys| && ActionOf(keys[i]) == Fixed(target) && forall j | i < j < |keys| :: !ActsOn(keys[j], target)
    ensures Decided(dic, keys, target) == Some(dic[keys[i]])
    decreases |keys|
  {
    if i < |keys| - 1 {
      FixedDecides(dic, keys[..|keys| - 1], target, i);
    }
  }

  // ----- and only then -----

  /** A dictionary over the keys with chosen values for the target, its bounds and one more key. */
  function Chosen(keys: seq<string>, target: string, v: int, lo: int, hi: int, other: string, x: int): Dict {
    map k | k in keys :: Size(if k == target + "_max" then hi else if k == target + "_min" then lo
                              else if k == other then x else v, None)
  }

  predicate IsItsBound(key: string, target: string) {
    key == target + "_max" || key == target + "_min"
  }

  /** The names of the bounds differ from each other and from the name they bound. */
  lemma BoundNames(target: string)
    ensures target + "_max" != target + "_min" && target != target + "_max" && target != target + "_min"
    ensures EndsWith(target + "_max", "_max") && EndsWith(target + "_min", "_min") && !EndsWith(target + "_min", "_max")
  {
    var a, b := target + "_max", target + "_min";
    assert a[|target| + 2] == 'a' && b[|target| + 2] == 'i';
    assert a[|target|..] == "_max" && b[|target|..] == "_min";
  }

  lemma ChosenValues(keys: seq<string>, target: string, v: int, lo: int, hi: int, other: string, x: int)
    requires HasKeys(keys, target) && target in keys && other != target
    ensures var dic := Chosen(keys, target, v, lo, hi, other, x);
      && Over(dic, keys) && dic[target] == Size(v, None)
      && dic[target + "_min"] == Size(lo, None) && dic[target + "_max"] == Size(hi, None)
      && (other in keys && !IsItsBound(other, target) ==> dic[other] == Size(x, None))
      && (lo <= hi ==> Ordered(dic, target))
  {
    BoundNames(target);
  }

  /** A bound that the value keeps does not trigger. */
  lemma BoundIdle(dic: Dict, key: string, target: string)
    requires key in dic && target in dic && ActsOn(key, target) && IsItsBound(key, target)
    requires key == target + "_max" ==> Bytes(dic[target]) <= Bytes(dic[key])
    requires key == target + "_min" ==> Bytes(dic[key]) <= Bytes(dic[target])
    ensures !Triggers(dic, key)
  {
    BoundNames(target);
    CompareIsByBytes(dic[target], dic[key]);
  }

  /** Keys that do not trigger leave the decision to those before them. */
  lemma {:induction false} NoneDecides(dic: Dict, keys: seq<string>, from: nat, target: string)
    requires forall i | 0 <= i < |keys| :: keys[i] in dic
    requires from <= |keys| && forall i | from <= i < |keys| && ActsOn(keys[i], target) :: !Triggers(dic, keys[i])
    ensures Decided(dic, keys, target) == Decided(dic, keys[..from], target)
    decreases |keys|
  {
    if from == |keys| {
      assert keys[..from] == keys;
    } else {
      var front := keys[..|keys| - 1];
      NoneDecides(dic, front, from, target);
      assert front[..from] == keys[..from];
    }
  }

  /** From `i` on, only the bounds of the target act on it. */
  ghost predicate OnlyBoundsFrom(keys: seq<string>, target: string, i: nat) {
    forall j | i <= j < |keys| && ActsOn(keys[j], target) :: IsItsBound(keys[j], target)
  }

  lemma IdleFrom(dic: Dict, keys: seq<string>, target: string, from: nat)
    requires Over(dic, keys) && HasKeys(keys, target) && target in keys && from <= |keys|
    requires OnlyBoundsFrom(keys, target, from)
    requires ActsOn(target + "_max", target) ==> Bytes(dic[target]) <= Bytes(dic[target + "_max"])
    requires ActsOn(target + "_min", target) ==> Bytes(dic[target + "_min"]) <= Bytes(dic[target])
    ensures Decided(dic, keys, target) == Decided(dic, keys[..from], target)
  {
    forall j | from <= j < |keys| && ActsOn(keys[j], target) ensures !Triggers(dic, keys[j]) {
      BoundIdle(dic, keys[j], target);
    }
    NoneDecides(dic, keys, from, target);
  }

  lemma OtherTriggers(dic: Dict, other: string, target: string)
    requires other in dic && target in dic && ActsOn(other, target) && dic[target] == Size(6, None)
    requires dic[other] == Size(if ActionOf(other).Max? then 1 else 10, None)
    ensures Triggers(dic, other)
  {
  }

  /** Another key acts: give it a value out of bounds; it is the last to set the target. */
  lemma OtherKeyBreaks(keys: seq<string>, target: string, i: nat) returns (dic: Dict)
    requires HasKeys(keys, target) && target in keys
    requires i < |keys| && ActsOn(keys[i], target) && !IsItsBound(keys[i], target)
    requires OnlyBoundsFrom(keys, target, i + 1)
    ensures Over(dic, keys) && Ordered(dic, target) && !Clamps(dic, keys, target)
  {
    var other := keys[i];
    ActsOnShorter(other, target);
    var x := if ActionOf(other).Max? then 1 else 10;
    dic := Chosen(keys, target, 6, 5, 8, other, x);
    ChosenValues(keys, target, 6, 5, 8, other, x);
    IdleFrom(dic, keys, target, i + 1);
    assert keys[..i + 1][..i] == keys[..i];
    OtherTriggers(dic, other, target);
    assert Decided(dic, keys[..i + 1], target) == Some(dic[other]);
  }

  /** A bound does not act on the target: give the target a value beyond it. */
  lemma IdleBoundBreaks(keys: seq<string>, target: string) returns (dic: Dict)
    requires HasKeys(keys, target) && target in keys && OnlyBoundsFrom(keys, target, 0)
    requires !ActsOn(target + "_max", target) || !ActsOn(target + "_min", target)
    ensures Over(dic, keys) && Ordered(dic, target) && !Clamps(dic, keys, target)
  {
    var v := if ActsOn(target + "_max", target) then 1 else 10;
    dic := Chosen(keys, target, v, 5, 8, target + "_max", 8);
    BoundNames(target);
    ChosenValues(keys, target, v, 5, 8, target + "_max", 8);
    IdleFrom(dic, keys, target, 0);
    assert keys[..0] == [];
  }

  lemma OnlyBoundsEarlier(keys: seq<string>, target: string, n: nat)
    requires n < |keys| && OnlyBoundsFrom(keys, target, n + 1)
    requires ActsOn(keys[n], target) ==> IsItsBound(keys[n], target)
    ensures OnlyBoundsFrom(keys, target, n)
  {
    forall j | n <= j < |keys| && ActsOn(keys[j], target) ensures IsItsBound(keys[j], target) {
      assert j == n || n + 1 <= j;
    }
  }

  lemma {:induction false} LastOther(keys: seq<string>, target: string, n: nat) returns (i: nat)
    requires n <= |keys| && OnlyBoundsFrom(keys, target, n) && !OnlyBoundsFrom(keys, target, 0)
    ensures i < |keys| && ActsOn(keys[i], target) && !IsItsBound(keys[i], target) && OnlyBoundsFrom(keys, target, i + 1)
  {
    assert n > 0;
    if ActsOn(keys[n - 1], target) && !IsItsBound(keys[n - 1], target) {
      i := n - 1;
    } else {
      OnlyBoundsEarlier(keys, target, n - 1);
      i := LastOther(keys, target, n - 1);
    }
  }

  ghost predicate AlwaysClamps(keys: seq<string>, target: string)
    requires HasKeys(keys, target)
  {
    forall dic: Dict | Over(dic, keys) && Ordered(dic, target) :: Clamps(dic, keys, target)
  }

  /** For a list of keys with a value and both its bounds: the value is clamped in every dictionary over these keys
      exactly when the keys that act on it are its own two bounds. */
  lemma ClampsIffOnlyItsBounds(keys: seq<string>, target: string)
    requires HasKeys(keys, target) && target in keys
    ensures AlwaysClamps(keys, target) <==> OnlyItsBounds(keys, target)
  {
    BoundNames(target);
    if OnlyItsBounds(keys, target) {
      forall dic: Dict | Over(dic, keys) && Ordered(dic, target) ensures Clamps(dic, keys, target) {
        BoundsClamp(dic, keys, target);
      }
    } else if OnlyBoundsFrom(keys, target, 0) {
      var dic := IdleBoundBreaks(keys, target);
    } else {
      var i := LastOther(keys, target, |keys|);
      var dic := OtherKeyBreaks(keys, target, i);
    }
  }

  /** A name that itself contains the mark: `a_max_b_max` bounds `a`, not `a_max_b`. */
  lemma MarkInsideName()
    ensures ActionOf("a_max_b_max") == Max("a") && !OnlyItsBounds(["a_max_b", "a_max_b_max", "a_max_b_min"], "a_max_b")
  {
    var key := "a_max_b_max";
    assert "a_max_b" + "_max" == key && key[7..] == "_max" && key[1..][..4] == "_max";
    assert !("_max" <= key) && "_max" <= key[1..];
    assert Before(key[1..], "_max") == "" && Before(key, "_max") == [key[0]] + "" == "a";
    assert EndsWith(key, "_max") && !ActsOn(key, "a_max_b");
  }

  // ----- a key without a value of its own -----

  /** The last key that acts on the target is one of its own bounds. */
  predicate LastIsBound(keys: seq<string>, target: string) {
    exists i | 0 <= i < |keys| ::
      ActsOn(keys[i], target) && IsItsBound(keys[i], target) && forall j | i < j < |keys| :: !ActsOn(keys[j], target)
  }

  lemma {:induction false} UnsetIsLast(dic: Dict, keys: seq<string>, target: string, i: nat)
    requires (forall k | 0 <= k < |keys| :: keys[k] in dic) && target !in dic
    requires i < |keys| && ActsOn(keys[i], target) && forall j | i < j < |keys| :: !ActsOn(keys[j], target)
    ensures Decided(dic, keys, target) == Some(dic[keys[i]])
    decreases |keys|
  {
    if i < |keys| - 1 {
      UnsetIsLast(dic, keys[..|keys| - 1], target, i);
    }
  }

  lemma {:induction false} UnsetIsNone(dic: Dict, keys: seq<string>, target: string)
    requires forall k | 0 <= k < |keys| :: keys[k] in dic
    requires forall j | 0 <= j < |keys| :: !ActsOn(keys[j], target)
    ensures Decided(dic, keys, target) == None
  {
    if keys != [] {
      UnsetIsNone(dic, keys[..|keys| - 1], target);
    }
  }

  lemma {:induction false} LastActing(keys: seq<string>, target: string) returns (i: nat)
    ensures i <= |keys| && (i < |keys| ==> ActsOn(keys[i], target))
    ensures forall j | (if i < |keys| then i + 1 else 0) <= j < |keys| :: !ActsOn(keys[j], target)
  {
    i := |keys|;
    if keys != [] {
      var front := keys[..|keys| - 1];
      if ActsOn(keys[|keys| - 1], target) {
        i := |keys| - 1;
      } else {
        var k := LastActing(front, target);
        i := if k < |front| then k else |keys|;
        assert forall j | 0 <= j < |front| :: front[j] == keys[j];
      }
    }
  }

  /** A dictionary over the keys with chosen values for the bounds, and one for all other keys. */
  function Around(keys: seq<string>, target: string, x: int): Dict {
    map k | k in keys :: Size(if k == target + "_max" then 8 else if k == target + "_min" then 5 else x, None)
  }

  /** Another key comes last: its value out of bounds is what the target gets. Or nothing acts on it. */
  lemma UnsetBreaks(keys: seq<string>, target: string) returns (dic: Dict)
    requires HasKeys(keys, target) && target !in keys && !LastIsBound(keys, target)
    ensures Over(dic, keys) && Ordered(dic, target) && !Clamps(dic, keys, target)
  {
    BoundNames(target);
    dic := Around(keys, target, 1);
    var i := LastActing(keys, target);
    if i < |keys| {
      UnsetIsLast(dic, keys, target, i);
    } else {
      UnsetIsNone(dic, keys, target);
    }
  }

  /** For a list of keys with both bounds of a name but no value for it: the value it gets is within the bounds in
      every dictionary over these keys exactly when the last key that acts on it is one of the two. */
  lemma UnsetClampsIffLastIsBound(keys: seq<string>, target: string)
    requires HasKeys(keys, target) && target !in keys
    ensures AlwaysClamps(keys, target) <==> LastIsBound(keys, target)
  {
    if LastIsBound(keys, target) {
      var i :| && 0 <= i < |keys| && ActsOn(keys[i], target) && IsItsBound(keys[i], target)
        && forall j | i < j < |keys| :: !ActsOn(keys[j], target);
      forall dic: Dict | Over(dic, keys) && Ordered(dic, target) ensures Clamps(dic, keys, target) {
        UnsetIsLast(dic, keys, target, i);
      }
    } else {
      var dic := UnsetBreaks(keys, target);
    }
  }
}
