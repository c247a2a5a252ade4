/** Two readers of CPU lists such as `0-3,^2,7`: one marks positions in a list as it goes, the other collects
    included and excluded numbers in sets. */
module CpuLists {
  import opened Options
  import opened Text

  // ----- text -----

  predicate OnlyDigits(s: string) {
    forall i | 0 <= i < |s| :: '0' <= s[i] <= '9'
  }

  predicate IsDigits(s: string) {
    s != "" && OnlyDigits(s)
  }

  function DigitsValue(s: string): nat
    requires OnlyDigits(s)
  {
    if s == "" then 0 else 10 * DigitsValue(s[..|s| - 1]) + (s[|s| - 1] as nat - '0' as nat)
  }

  // ----- numbers in decimal -----

  /** A number as it is written. */
  function Decimal(n: nat): (s: string)
    ensures s != ""
  {
    if n < 10 then ["0123456789"[n]] else Decimal(n / 10) + ["0123456789"[n % 10]]
  }

  /** Appending a digit multiplies by ten and adds it. */
  lemma DigitAppended(s: string, n: nat)
    requires OnlyDigits(s) && n < 10
    ensures OnlyDigits(s + ["0123456789"[n]])
    ensures DigitsValue(s + ["0123456789"[n]]) == 10 * DigitsValue(s) + n
  {
    var more := s + ["0123456789"[n]];
    assert more[..|s|] == s;
    assert "0123456789"[n] as nat == '0' as nat + n;
  }

  /** A number that is written is read back. */
  lemma {:induction false} WrittenIsRead(n: nat)
    ensures ToNumber(Decimal(n)) == Some(n)
    decreases n
  {
    if n < 10 {
      DigitAppended("", n);
      assert "" + ["0123456789"[n]] == Decimal(n);
    } else {
      WrittenIsRead(n / 10);
      DigitAppended(Decimal(n / 10), n % 10);
    }
  }

  /** None where the conversion to a number raises an error. */
  function ToNumber(s: string): Option<nat> {
    if IsDigits(s) then Some(DigitsValue(s)) else None
  }

  function StripLeft(s: string, c: char): string {
    if s != "" && s[0] == c then StripLeft(s[1..], c) else s
  }

  function StripRight(s: string, c: char): string {
    if s != "" && s[|s| - 1] == c then StripRight(s[..|s| - 1], c) else s
  }

  /** `s` without the `c`s at either end. */
  function Strip(s: string, c: char): string {
    StripRight(StripLeft(s, c), c)
  }

  // ----- what an item of a list says -----

  datatype Item = Single(n: nat) | Range(lo: nat, hi: nat) | Exclude(n: nat)

  predicate Includes(item: Item, k: nat) {
    match item
    case Single(n) => k == n
    case Range(lo, hi) => lo <= k <= hi
    case Exclude(_) => false
  }

  predicate Excludes(item: Item, k: nat) {
    item == Exclude(k)
  }

  /** The three forms of an item: a number, two numbers with a dash, a caret and a number. */
  function ParseItem(s: string): Option<Item> {
    if IsDigits(s) then Some(Single(DigitsValue(s)))
    else if s != "" && s[0] == '^' then
      if IsDigits(s[1..]) then Some(Exclude(DigitsValue(s[1..]))) else None
    else
      var parts := Split(s, '-');
      if |parts| == 2 && IsDigits(parts[0]) && IsDigits(parts[1])
      then Some(Range(DigitsValue(parts[0]), DigitsValue(parts[1]))) else None
  }

  predicate WellFormed(pieces: seq<string>) {
    forall i | 0 <= i < |pieces| :: ParseItem(pieces[i]).Some?
  }

  function Items(pieces: seq<string>): (items: seq<Item>)
    requires WellFormed(pieces)
    ensures |items| == |pieces| && forall i | 0 <= i < |items| :: items[i] == ParseItem(pieces[i]).value
  {
    seq(|pieces|, i requires 0 <= i < |pieces| => ParseItem(pieces[i]).value)
  }

  lemma DigitsHaveNo(s: string, c: char)
    requires IsDigits(s) && !('0' <= c <= '9')
    ensures c !in s
  {
  }

  lemma StripRightDigits(s: string)
    requires OnlyDigits(s)
    ensures StripRight(s, '^') == s && StripLeft(s, '^') == s
  {
  }

  /** A caret and digits: stripping the carets and splitting at the caret both leave the digits. */
  lemma CaretForms(s: string)
    requires s != "" && s[0] == '^' && IsDigits(s[1..])
    ensures '-' !in s && '^' in s
    ensures Strip(s, '^') == s[1..] && Last(Split(s, '^')) == s[1..]
  {
    DigitsHaveNo(s[1..], '-');
    DigitsHaveNo(s[1..], '^');
    StripRightDigits(s[1..]);
    assert s == ['^'] + s[1..];
  }

  /** The checks on the text and the pieces they lead to tell the three forms apart. */
  lemma ItemForms(s: string)
    requires ParseItem(s).Some?
    ensures var item := ParseItem(s).value;
      && ('-' in s <==> item.Range?) && ('^' in s && '-' !in s <==> item.Exclude?)
      && (item.Single? ==> ToNumber(s) == Some(item.n))
      && (item.Range? ==> var parts := Split(s, '-');
            ToNumber(parts[0]) == Some(item.lo) && ToNumber(Last(parts)) == Some(item.hi))
      && (item.Exclude? ==> ToNumber(Strip(s, '^')) == Some(item.n) && ToNumber(Last(Split(s, '^'))) == Some(item.n))
  {
    SplitHas(s, '-');
    if IsDigits(s) {
      DigitsHaveNo(s, '-');
      DigitsHaveNo(s, '^');
    } else if s != "" && s[0] == '^' {
      CaretForms(s);
    }
  }

  // ----- marking positions -----

  /** Is `k` marked after the items? The last item that mentions it decides. */
  predicate Marked(items: seq<Item>, k: nat) {
    if items == [] then false
    else
      var last := items[|items| - 1];
      if Includes(last, k) then true
      else if Excludes(last, k) then false
      else Marked(items[..|items| - 1], k)
  }

  /** Every number an item writes to is a position of the list. */
  predicate Fits(item: Item, numCpus: nat) {
    match item
    case Single(n) => n < numCpus
    case Range(lo, hi) => hi < lo || hi < numCpus
    case Exclude(n) => n < numCpus
  }

  function Mark(marked: bool): char {
    if marked then 'y' else '-'
  }

  /** The list has a `y` at the marked positions and a `-` at the others. */
  ghost predicate Shows(affinity: seq<char>, items: seq<Item>) {
    forall k | 0 <= k < |affinity| :: affinity[k] == Mark(Marked(items, k))
  }

  lemma MarkedGrows(items: seq<Item>, item: Item)
    ensures forall k: nat ::
              Marked(items + [item], k) ==
                if Includes(item, k) then true else if Excludes(item, k) then false else Marked(items, k)
  {
    assert (items + [item])[..|items|] == items;
  }

  /** The list of marks; None where an index is out of range. */
  method CpusStringToAffinityList(cpusString: string, numCpus: nat) returns (r: Option<seq<char>>)
    requires cpusString == "r" || WellFormed(Split(cpusString, ','))
    ensures cpusString == "r" ==> r.Some? && |r.value| == numCpus && forall k | 0 <= k < numCpus :: r.value[k] == 'y'
    ensures cpusString != "r" ==> var items := Items(Split(cpusString, ','));
      && (r.Some? <==> forall i | 0 <= i < |items| :: Fits(items[i], numCpus))
      && (r.Some? ==> |r.value| == numCpus && Shows(r.value, items))
  {
    var affinity := new char[numCpus](i => '-');
    if cpusString == "r" {
      for i := 0 to numCpus
        invariant forall k | 0 <= k < i :: affinity[k] == 'y'
      {
        affinity[i] := 'y';
      }
      return Some(affinity[..]);
    }
    var ok := MarkAll(affinity, Split(cpusString, ','));
    return if ok then Some(affinity[..]) else None;
  }

  method MarkAll(affinity: array<char>, subCpus: seq<string>) returns (ok: bool)
    requires WellFormed(subCpus) && forall k | 0 <= k < affinity.Length :: affinity[k] == '-'
    modifies affinity
    ensures ok <==> forall i | 0 <= i < |subCpus| :: Fits(Items(subCpus)[i], affinity.Length)
    ensures ok ==> Shows(affinity[..], Items(subCpus))
  {
    ghost var items := Items(subCpus);
    for j := 0 to |subCpus|
      invariant forall i | 0 <= i < j :: Fits(items[i], affinity.Length)
      invariant Shows(affinity[..], items[..j])
    {
      var fits := MarkOne(affinity, subCpus[j]);
      if !fits {
        return false;
      }
      MarkedGrows(items[..j], items[j]);
      assert items[..j + 1] == items[..j] + [items[j]];
    }
    assert items[..|items|] == items;
    return true;
  }

  method MarkOne(affinity: array<char>, cpus: string) returns (ok: bool)
    requires ParseItem(cpus).Some?
    modifies affinity
    ensures ok <==> Fits(ParseItem(cpus).value, affinity.Length)
    ensures ok ==> var item := ParseItem(cpus).value; forall k | 0 <= k < affinity.Length ::
                     affinity[k] ==
                       if Includes(item, k) then 'y' else if Excludes(item, k) then '-' else old(affinity[k])
  {
    ItemForms(cpus);
    ghost var item := ParseItem(cpus).value;
    if '-' in cpus {
      var minimum := ToNumber(Split(cpus, '-')[0]).value;
      var maximum := ToNumber(Last(Split(cpus, '-'))).value;
      var i := minimum;
      while i < maximum + 1
        invariant minimum <= i && (minimum < i ==> i <= affinity.Length && i <= maximum + 1)
        invariant forall k | 0 <= k < affinity.Length ::
                    affinity[k] == if minimum <= k < i then 'y' else old(affinity[k])
      {
        if i >= affinity.Length {
          return false;
        }
        affinity[i] := 'y';
        i := i + 1;
      }
      return true;
    } else if '^' in cpus {
      var n := ToNumber(Strip(cpus, '^')).value;
      if n >= affinity.Length {
        return false;
      }
      affinity[n] := '-';
      return true;
    } else {
      var n := ToNumber(cpus).value;
      if n >= affinity.Length {
        return false;
      }
      affinity[n] := 'y';
      return true;
    }
  }

  // ----- collecting numbers -----

  ghost predicate Included(items: seq<Item>, k: nat) {
    exists i | 0 <= i < |items| :: Includes(items[i], k)
  }

  ghost predicate Excluded(items: seq<Item>, k: nat) {
    exists i | 0 <= i < |items| :: Excludes(items[i], k)
  }

  predicate Increasing(s: seq<nat>) {
    forall i, j | 0 <= i < j < |s| :: s[i] < s[j]
  }

  method Minimum(s: set<nat>) returns (m: nat)
    requires s != {}
    ensures m in s && forall x: nat :: x in s ==> m <= x
  {
    m :| m in s;
    var rest := s - {m};
    while rest != {}
      invariant m in s && rest <= s && forall x: nat :: x in s && x !in rest ==> m <= x
      decreases rest
    {
      var x :| x in rest;
      if x < m {
        m := x;
      }
      rest := rest - {x};
    }
  }

  /** The members of a set in increasing order. */
  method Sorted(s: set<nat>) returns (r: seq<nat>)
    ensures Increasing(r) && forall k: nat :: k in r <==> k in s
  {
    r := [];
    var rest := s;
    while rest != {}
      invariant Increasing(r) && rest <= s
      invariant forall k: nat :: k in r <==> k in s && k !in rest
      invariant forall i, x | 0 <= i < |r| && x in rest :: r[i] < x
      decreases rest
    {
      var m := Minimum(rest);
      r := r + [m];
      rest := rest - {m};
    }
  }

  method Numbers(lo: nat, hi: nat) returns (r: seq<nat>)
    ensures forall k: nat :: k in r <==> lo <= k <= hi
  {
    r := [];
    var i := lo;
    while i < hi + 1
      invariant lo <= i && (lo < i ==> i <= hi + 1)
      invariant forall k: nat :: k in r <==> lo <= k < i
    {
      r := r + [i];
      i := i + 1;
    }
  }

  /** The three lists hold what the items include and exclude. */
  ghost predicate Collected(hyphens: seq<nat>, commas: seq<nat>, carets: seq<nat>, items: seq<Item>) {
    && (forall k: nat :: k in hyphens || k in commas <==> Included(items, k))
    && (forall k: nat :: k in carets <==> Excluded(items, k))
  }

  method CollectOne(cpus: string, hyphens: seq<nat>, commas: seq<nat>, carets: seq<nat>, ghost items: seq<Item>)
    returns (hyphens': seq<nat>, commas': seq<nat>, carets': seq<nat>)
    requires ParseItem(cpus).Some? && Collected(hyphens, commas, carets, items)
    ensures Collected(hyphens', commas', carets', items + [ParseItem(cpus).value])
  {
    hyphens', commas', carets' := hyphens, commas, carets;
    ItemForms(cpus);
    CollectedGrows(items, ParseItem(cpus).value);
    if '-' in cpus {
      var tmp := Split(cpus, '-');
      var numbers := Numbers(ToNumber(tmp[0]).value, ToNumber(Last(tmp)).value);
      hyphens' := hyphens + numbers;
    } else if '^' in cpus {
      carets' := carets + [ToNumber(Last(Split(cpus, '^'))).value];
    } else {
      commas' := commas + [ToNumber(cpus).value];
    }
  }

  /** The numbers of a list in increasing order; None where the conversion to a number raises an error. */
  method CpusParser(cpulist: string) returns (r: Option<seq<nat>>)
    requires WellFormed(Split(cpulist, ','))
    ensures var items := Items(Split(cpulist, ','));
      && (r.None? <==> |items| == 1 && items[0].Exclude?)
      && (r.Some? ==> Increasing(r.value))
      && (r.Some? ==> forall k: nat :: k in r.value <==> Included(items, k) && !Excluded(items, k))
  {
    var hyphens: seq<nat>, carets: seq<nat>, commas: seq<nat> := [], [], [];
    SplitHas(cpulist, ',');
    var pieces := Split(cpulist, ',');
    ghost var items := Items(pieces);
    if ',' in cpulist {
      for j := 0 to |pieces|
        invariant Collected(hyphens, commas, carets, items[..j])
      {
        hyphens, commas, carets := CollectOne(pieces[j], hyphens, commas, carets, items[..j]);
        assert items[..j + 1] == items[..j] + [items[j]];
      }
      assert items[..|items|] == items;
    } else {
      assert pieces == [cpulist] && ParseItem(pieces[0]).Some?;
      ItemForms(cpulist);
      CollectedGrows([], items[0]);
      assert items == [] + [items[0]];
      if '-' in cpulist {
        var tmp := Split(cpulist, '-');
        hyphens := Numbers(ToNumber(tmp[0]).value, ToNumber(Last(tmp)).value);
      } else if '^' in cpulist {
        // the pattern here is the anchor, which leaves the caret in place
        return None;
      } else {
        return Some([ToNumber(cpulist).value]);
      }
    }
    var cpusSet := (set k | k in hyphens) + (set k | k in commas) - (set k | k in carets);
    var sorted := Sorted(cpusSet);
    return Some(sorted);
  }

  lemma CollectedGrows(items: seq<Item>, item: Item)
    ensures forall k: nat :: Included(items + [item], k) <==> Included(items, k) || Includes(item, k)
    ensures forall k: nat :: Excluded(items + [item], k) <==> Excluded(items, k) || Excludes(item, k)
  {
    var more := items + [item];
    assert more[|items|] == item && forall i | 0 <= i < |items| :: more[i] == items[i];
  }

  // ----- agreement -----

  /** `k` is excluded, and later included again for good. */
  ghost predicate IncludedAgain(items: seq<Item>, k: nat) {
    exists i: nat, j: nat | i < j < |items| :: Excludes(items[i], k) && IncludedLast(items, k, j)
  }

  /** The item at `j` includes `k`, and none after it excludes `k`. */
  ghost predicate IncludedLast(items: seq<Item>, k: nat, j: nat) {
    j < |items| && Includes(items[j], k) && forall m | j < m < |items| :: !Excludes(items[m], k)
  }

  lemma {:induction false} MarkedMeans(items: seq<Item>, k: nat)
    ensures Marked(items, k) <==> exists j: nat :: IncludedLast(items, k, j)
  {
    if items != [] {
      var front, last := items[..|items| - 1], items[|items| - 1];
      MarkedMeans(front, k);
      forall j: nat ensures IncludedLast(items, k, j) <==>
          (j == |front| && Includes(last, k)) || (IncludedLast(front, k, j) && !Excludes(last, k))
      {
        assert j < |front| ==> front[j] == items[j];
        assert forall m | j < m < |front| :: front[m] == items[m];
      }
      assert IncludedLast(items, k, |front|) <==> Includes(last, k);
    }
  }

  /** The two readers agree on a number exactly when it is not included again after having been excluded. */
  lemma AgreeUnlessIncludedAgain(items: seq<Item>, k: nat)
    ensures (Marked(items, k) <==> Included(items, k) && !Excluded(items, k)) <==> !IncludedAgain(items, k)
  {
    MarkedMeans(items, k);
    if Marked(items, k) {
      var j: nat :| IncludedLast(items, k, j);
      if i :| 0 <= i < |items| && Excludes(items[i], k) {
        assert IncludedAgain(items, k);
      }
    } else if !Excluded(items, k) {
      assert forall j: nat | j < |items| && Includes(items[j], k) :: IncludedLast(items, k, j);
    }
  }

  /** For a list whose numbers are all positions: the marked positions are exactly the numbers read, unless some
      number is included again after having been excluded. */
  lemma ReadersAgree(items: seq<Item>, affinity: seq<char>, numbers: seq<nat>)
    requires forall i | 0 <= i < |items| :: Fits(items[i], |affinity|)
    requires Shows(affinity, items)
    requires forall k: nat :: k in numbers <==> Included(items, k) && !Excluded(items, k)
    ensures (forall k: nat :: k in numbers <==> k < |affinity| && affinity[k] == 'y') <==>
            (forall k: nat :: !IncludedAgain(items, k))
  {
    forall k: nat
      ensures (k in numbers <==> k < |affinity| && affinity[k] == 'y') <==> !IncludedAgain(items, k)
    {
      AgreeUnlessIncludedAgain(items, k);
      MarkedMeans(items, k);
      if j: nat :| IncludedLast(items, k, j) {
        assert Fits(items[j], |affinity|);
      }
    }
  }
}
