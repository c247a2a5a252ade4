/** Flattening the keys of a finished dictionary: a key with suffixes becomes a plain name, its base alone where
    that tells no value apart, else its base followed by the suffixes in reverse order. */
module Suffixes {
  import opened Options
  import opened Sequences
  import opened Text

  datatype Key = Plain(base: string) | Suffixed(base: string, suffixes: seq<string>)

  type Dict = map<Key, string>

  function JoinReversed(suffixes: seq<string>): string {
    if suffixes == [] then "" else JoinReversed(suffixes[1..]) + suffixes[0]
  }

  function FlatName(k: Key): string {
    match k
    case Plain(n) => n
    case Suffixed(b, ss) => b + JoinReversed(ss)
  }

  lemma {:induction false} JoinIsConcat(suffixes: seq<string>)
    ensures JoinReversed(suffixes) == Concat(Reversed(suffixes))
    decreases |suffixes|
  {
    if suffixes == [] {
      assert Reversed(suffixes) == [];
    } else {
      var front := Reversed(suffixes[1..]);
      JoinIsConcat(suffixes[1..]);
      assert Reversed(suffixes) == front + [suffixes[0]];
      ConcatAppend(front, [suffixes[0]]);
      ConcatOne(suffixes[0]);
    }
  }

  /** The general key holds the same value already. */
  predicate Covered(d: Dict, k: Key)
    requires k in d
  {
    k.Suffixed? && Plain(k.base) in d && d[Plain(k.base)] == d[k]
  }

  /** All keys on the same base hold the same value. */
  predicate Uniform(d: Dict, k: Key)
    requires k in d
  {
    forall j | j in d && j.base == k.base :: d[j] == d[k]
  }

  /** The name under which the value of `k` is kept. */
  function Home(d: Dict, k: Key): string
    requires k in d
  {
    if k.Plain? || Covered(d, k) || Uniform(d, k) then k.base else FlatName(k)
  }

  predicate Over(d: Dict, keys: seq<Key>) {
    && (forall i | 0 <= i < |keys| :: keys[i] in d)
    && (forall k | k in d :: k in keys)
  }

  /** The keys of the dictionary in some order. */
  predicate Lists(d: Dict, keys: seq<Key>) {
    Over(d, keys) && forall i, j | 0 <= i < j < |keys| :: keys[i] != keys[j]
  }

  ghost predicate Writes(d: Dict, k: Key, name: string) {
    k in d && k.Suffixed? && !Covered(d, k) && Home(d, k) == name
  }

  /** The last key whose value is moved to the name. */
  ghost function Writer(d: Dict, keys: seq<Key>, name: string): Option<Key> {
    if keys == [] then None
    else if Writes(d, keys[|keys| - 1], name) then Some(keys[|keys| - 1])
    else Writer(d, keys[..|keys| - 1], name)
  }

  function Get(d: Dict, k: Key): Option<string> {
    if k in d then Some(d[k]) else None
  }

  ghost function Flattened(d: Dict, keys: seq<Key>, name: string): Option<string> {
    match Writer(d, keys, name)
    case Some(k) => Get(d, k)
    case None => Get(d, Plain(name))
  }

  /** The state after the first keys: those with suffixes among them are gone, the others still there. */
  ghost predicate Progress(d: Dict, done: seq<Key>, flat: Dict) {
    && (forall name: string :: Get(flat, Plain(name)) == Flattened(d, done, name))
    && (forall k: Key | k.Suffixed? :: Get(flat, k) == if k in done then None else Get(d, k))
  }

  lemma WriterGrows(d: Dict, keys: seq<Key>, k: Key, name: string)
    ensures Writer(d, keys + [k], name) == if Writes(d, k, name) then Some(k) else Writer(d, keys, name)
  {
    assert (keys + [k])[..|keys|] == keys;
  }

  lemma ProgressPlain(d: Dict, done: seq<Key>, flat: Dict, k: Key)
    requires Progress(d, done, flat) && k.Plain?
    ensures Progress(d, done + [k], flat)
  {
    forall name ensures Get(flat, Plain(name)) == Flattened(d, done + [k], name) {
      WriterGrows(d, done, k, name);
    }
  }

  lemma ProgressCovered(d: Dict, done: seq<Key>, flat: Dict, k: Key)
    requires Progress(d, done, flat) && k in d && Covered(d, k)
    ensures Progress(d, done + [k], flat - {k})
  {
    forall name ensures Get(flat - {k}, Plain(name)) == Flattened(d, done + [k], name) {
      WriterGrows(d, done, k, name);
    }
  }

  lemma ProgressMoved(d: Dict, done: seq<Key>, flat: Dict, k: Key, home: string)
    requires Progress(d, done, flat) && k in d && k.Suffixed? && !Covered(d, k) && home == Home(d, k)
    ensures Progress(d, done + [k], (flat - {k})[Plain(home) := d[k]])
  {
    forall name ensures Get((flat - {k})[Plain(home) := d[k]], Plain(name)) == Flattened(d, done + [k], name) {
      WriterGrows(d, done, k, name);
    }
  }

  lemma ProgressAtStart(d: Dict)
    ensures Progress(d, [], d)
  {
  }

  /** Duplicates are dropped. `keys` is the order of the dictionary. */
  method DropSuffixes(d: Dict, keys: seq<Key>) returns (flat: Dict)
    requires Lists(d, keys)
    ensures forall name :: Get(flat, Plain(name)) == Flattened(d, keys, name)
    ensures forall k | k in flat :: k.Plain?
  {
    flat := d;
    ProgressAtStart(d);
    for i := 0 to |keys|
      invariant Progress(d, keys[..i], flat)
    {
      var key := keys[i];
      assert keys[..i + 1] == keys[..i] + [key] && key !in keys[..i];
      if key.Suffixed? {
        flat := DropSuffix(d, keys, key, flat, keys[..i]);
      } else {
        ProgressPlain(d, keys[..i], flat, key);
      }
    }
    assert keys[..|keys|] == keys;
    forall k | k in flat ensures k.Plain? {
      assert k.Suffixed? ==> Get(flat, k) == None || k in d;
    }
  }

  /** One key with suffixes: gone when the general key holds its value, else moved. */
  method DropSuffix(d: Dict, keys: seq<Key>, key: Key, flat: Dict, ghost done: seq<Key>) returns (flat': Dict)
    requires Over(d, keys) && key in d && key.Suffixed? && key !in done && Progress(d, done, flat)
    ensures Progress(d, done + [key], flat')
  {
    assert Get(flat, key) == Get(d, key);
    if Plain(key.base) in d && d[Plain(key.base)] == d[key] {
      ProgressCovered(d, done, flat, key);
      return flat - {key};
    }
    var canDropAll := AllEqual(d, keys, key);
    var newKey := if canDropAll then key.base else FlatName(key);
    ProgressMoved(d, done, flat, key, newKey);
    return (flat - {key})[Plain(newKey) := flat[key]];
  }

  method AllEqual(d: Dict, keys: seq<Key>, key: Key) returns (r: bool)
    requires Over(d, keys) && key in d
    ensures r <==> Uniform(d, key)
  {
    for i := 0 to |keys|
      invariant forall j | 0 <= j < i && keys[j].base == key.base :: d[keys[j]] == d[key]
    {
      if keys[i].base == key.base && d[key] != d[keys[i]] {
        return false;
      }
    }
    return true;
  }

  // ----- where a value goes -----

  /** A value that its base does not tell stands, when no later key is moved there, under the base followed by the
      suffixes in reverse order. */
  lemma MovedToReversed(d: Dict, keys: seq<Key>, i: nat)
    requires Over(d, keys) && i < |keys| && keys[i].Suffixed? && !Covered(d, keys[i]) && !Uniform(d, keys[i])
    requires forall j | i < j < |keys| ::
               !Writes(d, keys[j], keys[i].base + Concat(Reversed(keys[i].suffixes)))
    ensures Flattened(d, keys, keys[i].base + Concat(Reversed(keys[i].suffixes))) == Some(d[keys[i]])
  {
    JoinIsConcat(keys[i].suffixes);
    LastWriter(d, keys, keys[i].base + Concat(Reversed(keys[i].suffixes)), i);
  }

  lemma {:induction false} LastWriter(d: Dict, keys: seq<Key>, name: string, i: nat)
    requires i < |keys| && Writes(d, keys[i], name) && forall j | i < j < |keys| :: !Writes(d, keys[j], name)
    ensures Writer(d, keys, name) == Some(keys[i])
    decreases |keys|
  {
    if i < |keys| - 1 {
      LastWriter(d, keys[..|keys| - 1], name, i);
    }
  }

  /** The suffix added last comes directly after the base. */
  lemma LastSuffixFirst(base: string, suffixes: seq<string>, last: string)
    ensures Concat(Reversed(suffixes + [last])) == last + Concat(Reversed(suffixes))
    ensures FlatName(Suffixed(base, suffixes + [last])) == base + (last + Concat(Reversed(suffixes)))
  {
    assert Reversed(suffixes + [last]) == [last] + Reversed(suffixes);
    ConcatAppend([last], Reversed(suffixes));
    ConcatOne(last);
    JoinIsConcat(suffixes + [last]);
  }

  // ----- what is kept -----

  /** Every value is found under the name it was moved to. */
  ghost predicate KeepsAll(d: Dict, keys: seq<Key>) {
    forall k | k in d :: Flattened(d, keys, Home(d, k)) == Some(d[k])
  }

  /** Two keys that go to the same name hold the same value. */
  predicate NoClash(d: Dict) {
    forall j, k | j in d && k in d && Home(d, j) == Home(d, k) :: d[j] == d[k]
  }

  lemma {:induction false} WriterIsOne(d: Dict, keys: seq<Key>, name: string)
    ensures var w := Writer(d, keys, name);
            && (w.Some? ==> w.value in keys && Writes(d, w.value, name))
            && (w.None? ==> forall k | k in keys :: !Writes(d, k, name))
  {
    if keys != [] {
      var front, last := keys[..|keys| - 1], keys[|keys| - 1];
      WriterIsOne(d, front, name);
      assert keys == front + [last];
    }
  }

  /** What is kept under the home of a key comes from some key with that home. */
  lemma FlattenedHasHome(d: Dict, keys: seq<Key>, k: Key) returns (j: Key)
    requires Over(d, keys) && k in d
    ensures j in d && Home(d, j) == Home(d, k) && Flattened(d, keys, Home(d, k)) == Some(d[j])
  {
    var name := Home(d, k);
    WriterIsOne(d, keys, name);
    match Writer(d, keys, name) {
      case Some(w) => j := w;
      case None =>
        assert !Writes(d, k, name);
        j := Plain(name);
    }
  }

  /** No value is lost exactly when no two keys with different values go to the same name. */
  lemma KeepsAllIffNoClash(d: Dict, keys: seq<Key>)
    requires Over(d, keys)
    ensures KeepsAll(d, keys) <==> NoClash(d)
  {
    if NoClash(d) {
      forall k | k in d ensures Flattened(d, keys, Home(d, k)) == Some(d[k]) {
        var j := FlattenedHasHome(d, keys, k);
      }
    }
  }

  /** How a value is looked up afterwards: by the full name, or if that is absent by the base. */
  ghost function Lookup(d: Dict, keys: seq<Key>, k: Key): Option<string> {
    var full := Flattened(d, keys, FlatName(k));
    if full.Some? then full else Flattened(d, keys, k.base)
  }

  predicate FlatNamesDiffer(d: Dict) {
    forall j, k | j in d && k in d && FlatName(j) == FlatName(k) :: j == k
  }

  /** The full name of one key is the base that another is reduced to, and their values differ. */
  predicate Shadows(d: Dict, j: Key, k: Key) {
    j in d && k in d && j.base == FlatName(k) && Home(d, j) == j.base && d[j] != d[k]
  }

  /** With different full names and no shadowing, every value is found by its full name or its base. */
  lemma LookupFinds(d: Dict, keys: seq<Key>, k: Key)
    requires Over(d, keys) && FlatNamesDiffer(d) && k in d
    requires forall j, l | j in d && l in d :: !Shadows(d, j, l)
    ensures Lookup(d, keys, k) == Some(d[k])
  {
    ShadowFreeIsClashFree(d);
    var full := FlatName(k);
    WriterIsOne(d, keys, full);
    if Home(d, k) == full {
      KeepsAllIffNoClash(d, keys);
    } else if Flattened(d, keys, full).Some? {
      // whatever is there under the full name of `k` is another key reduced to its base
      var w := Writer(d, keys, full);
      assert Plain(full) in d ==> FlatName(Plain(full)) == FlatName(k);
      if w.Some? {
        assert !Shadows(d, w.value, k);
      }
    } else {
      KeepsAllIffNoClash(d, keys);
    }
  }

  lemma ShadowFreeIsClashFree(d: Dict)
    requires FlatNamesDiffer(d) && forall j, l | j in d && l in d :: !Shadows(d, j, l)
    ensures NoClash(d)
  {
    forall j, k | j in d && k in d && Home(d, j) == Home(d, k) ensures d[j] == d[k] {
      if Home(d, j) == FlatName(j) && Home(d, k) == FlatName(k) {
        assert j == k;
      } else if Home(d, j) == FlatName(j) {
        assert !Shadows(d, k, j);
      } else if Home(d, k) == FlatName(k) {
        assert !Shadows(d, j, k);
      } else if Covered(d, j) && Covered(d, k) {
        assert d[j] == d[Plain(j.base)] == d[k];
      }
    }
  }

  // ----- and only then -----

  ghost predicate AlwaysFound(d: Dict) {
    forall keys, k | Lists(d, keys) && k in d :: Lookup(d, keys, k) == Some(d[k])
  }

  predicate NoShadow(d: Dict) {
    forall j, k | j in d && k in d :: !Shadows(d, j, k)
  }

  lemma {:induction false} InSomeOrder(s: set<Key>) returns (keys: seq<Key>)
    ensures (forall k :: k in keys <==> k in s) && forall i, j | 0 <= i < j < |keys| :: keys[i] != keys[j]
    decreases s
  {
    keys := [];
    if k :| k in s {
      var others := InSomeOrder(s - {k});
      keys := others + [k];
    }
  }

  /** An order of the dictionary in which the key comes last. */
  lemma WithLast(d: Dict, j: Key) returns (keys: seq<Key>)
    requires j in d
    ensures Lists(d, keys) && keys != [] && keys[|keys| - 1] == j
  {
    var others := InSomeOrder(d.Keys - {j});
    keys := others + [j];
    forall i | 0 <= i < |keys| ensures keys[i] in d {
      assert keys[i] == j || keys[i] in others;
    }
    forall k | k in d ensures k in keys {
      assert k == j || k in others;
    }
  }

  /** A key that shadows another moves its own value to the other's full name. */
  lemma ShadowWrites(d: Dict, j: Key, k: Key)
    requires FlatNamesDiffer(d) && Shadows(d, j, k)
    ensures Writes(d, j, FlatName(k))
  {
    assert FlatName(Plain(j.base)) == FlatName(k);
    assert Plain(j.base) in d ==> Plain(j.base) == k;
  }

  /** With different full names: every value is found by its full name or its base in every order of the keys
      exactly when no key shadows another. */
  lemma FoundIffNoShadow(d: Dict)
    requires FlatNamesDiffer(d)
    ensures AlwaysFound(d) <==> NoShadow(d)
  {
    if j, k :| j in d && k in d && Shadows(d, j, k) {
      var keys := WithLast(d, j);
      ShadowWrites(d, j, k);
      assert Writer(d, keys, FlatName(k)) == Some(j);
      assert Lookup(d, keys, k) == Some(d[j]);
    }
    if NoShadow(d) {
      forall keys, k | Lists(d, keys) && k in d ensures Lookup(d, keys, k) == Some(d[k]) {
        LookupFinds(d, keys, k);
      }
    }
  }

  /** Different full names are not enough: the value of `a` with suffix `_x` is lost to the base `a_x`. */
  lemma BaseTakesFullName()
    ensures var k, j := Suffixed("a", ["_x"]), Suffixed("a_x", ["_y"]);
            var keys := [k, Plain("a"), j];
            var d: Dict := map[k := "1", Plain("a") := "2", j := "3"];
            FlatNamesDiffer(d) && Lookup(d, keys, k) == Some("3")
  {
    var k, j := Suffixed("a", ["_x"]), Suffixed("a_x", ["_y"]);
    var keys := [k, Plain("a"), j];
    var d: Dict := map[k := "1", Plain("a") := "2", j := "3"];
    assert ["_x"][1..] == [] && ["_y"][1..] == [];
    assert JoinReversed([]) == "" && JoinReversed(["_x"]) == "_x" && JoinReversed(["_y"]) == "_y";
    assert FlatName(k) == "a_x" && FlatName(j) == "a_x_y" && |FlatName(j)| == 5;
    assert Uniform(d, j) && !Covered(d, j) && Home(d, j) == "a_x";
    assert Writes(d, j, "a_x") && keys[|keys| - 1] == j;
  }
}
