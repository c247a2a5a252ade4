# Verified models of avocado-vt's configuration engine, cipher and scheduler

This project models the parts of avocado-vt whose correctness is hardest to see from the code, and proves what they
are for. Each module follows one part of the repository:

| modules | part of the repository |
|---|---|
| `Labels`, `Adjacent`, `Filters`, `Operators`, `Content`, `Graph`, `Expansion`, `Assignments`, `Meaning`, `Separated`, `Witnesses` | the Cartesian configuration engine, `virttest/cartesian_config.py` |
| `FilterParser`, `FilterGrammar`, `Suffixes`, `Limits` | the filter parser of that engine, and what it does to a finished dictionary |
| `BitStrings`, `DesTables`, `Des`, `SboxDesign`, `DesDigits`, `KnownAnswers` | DES as used for VNC passwords, `virttest/RFBDes.py`, and the conversion of texts to bits, `virttest/utils_misc.py` |
| `Schedule`, `Scheduler` | the dependency scheduler, `scripts/parallel.py` |
| `LogWriter` | the line-buffering log writer, `virttest/logging_manager.py` |
| `CpuLists` | the two readers of CPU lists, `virttest/cpu.py` |
| `Options`, `Sequences`, `Text` | optional values, small facts about sequences, and splitting a text at a character |

`dafny verify dfyconfig.toml` checks everything.

## The main results

**Expansion.** A configuration is a graph of variants; expanding it gives one dictionary for each path from the root
to a leaf whose filters accept the path. The code does not walk every path. It evaluates filters part of the way
down (`Content.ProcessContent`), skips subtrees that failed before under similar circumstances, using a cache of five
failures in each node (`Expansion.SkipsSubtree`), and batches plain assignments (`Assignments.Compile`).
`Meaning.ExpandToDicts` proves that the three together change nothing: the dictionaries, and their order, are those
of walking every path and carrying out the statements of its blocks one by one, with `defaults` on or off. The
specification (`Meaning.Dictionaries`) knows nothing of label sets, caches, batches or pruning.
`Meaning.EnumerateIsAllRoutes` says the same of the leaves as a list over all paths. The traversal itself is proved,
on every well-formed graph and for every state of the caches, to compute a function of the graph and the caches
(`Expansion.Traverse`); the theorem about that function asks of the entries what `Expansion.Clear` says, and
`Witnesses` has graphs without it on which the traversal, from beginning to end, loses a leaf. A graph is clear when
entries that compare equal are equal and each filter inside a conditional occurs nowhere else
(`Separated.SeparatedGraphsAreClear`). On the way:

* the backtracking search for adjacent labels equals a description without a search, and that description says
  exactly when a block occurs (`Adjacent`);
* pruning is sound for every extension of the context by labels of the subtree and exact at a leaf, and a decision
  once taken at a node is never taken back at a node below, although the search's report may shrink (`Filters`);
* a label set that drops labels on insertion, because the comparison of labels is asymmetric, still answers every
  lookup as a scan would (`Labels`).

**DES.** Decryption undoes encryption, complementing key and block complements the result, keys with constant halves
give involutions, parity bits do not matter, and the key schedule that turns both halves in place has its closed
form. All are for every key and every block, and the class that works in place is proved to compute the functions
these theorems are about. From passwords to texts: the key bits are those of the characters with the lowest bit
first, the highest bit of a character and everything after the eighth character do not matter, and a text of complete
blocks comes back exactly when its characters are bytes. The tables are held to what they are for: both block
permutations and the first selection of the key in closed form, and what the design asks of the S-boxes for all inputs
and all eight boxes (`SboxDesign`). `DesDigits` proves that a form of the cipher on hexadecimal digits, with the tables
wired in, makes the rounds and the subkeys of the cipher on bits; on it `KnownAnswers` works out three known answers
round by round.

**Filters.** The parser accepts exactly the texts of a grammar (`FilterGrammar`) that is defined without its loop, and
reads each as what it means.

**Scheduling.** `Scheduler.ParallelExecute.RunUntilCompletion` is proved for every graph of dependencies, every limit,
and every order and status in which processes may end. It terminates; the log of starts and ends is allowed at every
moment; whenever a process ends, as many were running as may, or nothing more could have been started; the functions
never started are exactly those from which a failed one or a cycle is reachable; a deadlock is
reported exactly when nothing failed and the graph is cyclic.

## Where the code falls short of its promise

Each of these is a result with a concrete input and a condition that a caller can check.

* *The cache of failures.* Content entries are compared by file, line, class and filter, and filters by their labels,
  whose comparison is asymmetric. A recorded failure may then be taken to be present when it is not, and a subtree
  that accepts is skipped. `Clear` excludes this, node by node and path by path, for what the nodes above may hand
  down. It has three parts. `PlainTold`: where an entry of the path is taken for another plain filter, that one is an
  `only` or stands on the path as well. `NestedTold`: where entries of the path are taken for a conditional and for a
  filter inside it, the filter is the same and occurs on the path only inside that conditional, and the two
  conditionals have the same filter and do not come into the path at different nodes. `OwnTold`: no entry of a node is
  taken for a filter inside a conditional beside it. So nothing is asked of operators, of conditionals that hold no
  filter (`ConditionalsWithoutFilters`), or of the root by itself; a file that is included again, with plain filters
  and conditionals alike, is covered, and so are the filters given from outside (`only_filter`, `no_filter`), which
  all stand on line 1 of a string at the root. `EqualEntriesMislead` violates the first part,
  `RepeatedEntryMisleads` and `TwinConditionalsMislead` the second, `CopyInNodeMisleads` the third: the whole
  traversal has no leaf where there is one. Such entries need the same file and line: when several strings are parsed
  (each counts its lines from 1), when a file is included both in a conditional and beside it, or, for conditionals,
  when they end together, since a conditional is stored with the line read after its block (-1 at the end of the
  input).
* *Filters.* A word may get an empty block: `a, .b` is accepted, and when such a filter is matched, looking at the
  first label of the empty block raises an index error. `AcceptedBlocks` gives the exact condition on the tokens.
* *Suffixes.* Different full names are not enough to find every value again, since the base of one key may be the full
  name of another (`BaseTakesFullName`). `FoundIffNoShadow` is exact over all orders of the keys, and
  `KeepsAllIffNoClash` for one order and the name each value goes to.
* *Limits.* The code cuts a key at the first `_max`, `_min` or `_fixed`, wherever it stands, so `a_max_b_max` bounds
  `a`. `ClampsIffOnlyItsBounds` says exactly for which keys a value always ends up within its bounds, and
  `UnsetClampsIffLastIsBound` the same for a name that has no value yet.
* *Texts.* Characters beyond 255 lose their higher bits, so a text with such characters does not come back
  (`TextRoundTrip` is exact); a text whose last block is not complete, and a key set with less than eight characters,
  raise an index error (`CryptData`, `SetKey`).
* *CPU lists.* The two readers agree exactly when no number is included again after it was excluded
  (`ReadersAgree`). The second reader raises an error on a lone exclusion such as `^3`, because its pattern there is an
  anchor and not a caret (`CpusParser`).

## Model

| member | source | states |
|---|---|---|
| `Labels.LongNameInjective` | virttest/cartesian_config.py:456-475 | two labels with the same long name are the same label, bare or with a variable |
| `Labels.MatchingLabelsHashAlike` | virttest/cartesian_config.py:480-511 | labels that compare equal have equal hashes, so a hash lookup cannot miss one; a wanted pair matches only itself |
| `Labels.MatchesExactly` | virttest/cartesian_config.py:480-511 | a wanted pair matches only itself, a bare wanted label every label with its name, with or without a variable |
| `Labels.BareMatchesPairs` | virttest/cartesian_config.py:480-511 | `a` matches `a` and every `(v=a)`, while `(v=a)` matches neither `a` nor `(w=a)`; the long names spelled out |
| `Labels.HashIsSum` | virttest/cartesian_config.py:456-475 | the hash is the sum of the character codes and their positions |
| `Labels.LookupIsScan` | virttest/cartesian_config.py:480-511 | looking up in a set by hash finds a label exactly when some member matches |
| `Labels.InsertKeepsIndex` | virttest/cartesian_config.py:480-511 | an insertion that drops the new label, because a member compares equal, never changes the answer to a later lookup |
| `Labels.UpdateFromList` | virttest/cartesian_config.py:1814 | after `update` with a list the set answers as a scan of the old labels and the list would |
| `Labels.UpdateFromSet` | virttest/cartesian_config.py:1813 | the same for `update` with a set, for every order of insertion |
| `Labels.SetOf` | virttest/cartesian_config.py:2218 | `set(ctx)` finds a label exactly when some label of the context matches it |
| `Adjacent.Scan` | virttest/cartesian_config.py:208-222 | the scan with backtracking stays in bounds, ends, and finds either the block's present prefix or the longest prefix that ends the context |
| `Adjacent.MatchAdjacent` | virttest/cartesian_config.py:197-222 | the search returns the number that `Matched` describes without searching |
| `Adjacent.MatchedAllIffOccurs` | virttest/cartesian_config.py:197-222 | the whole block is reported exactly when it occurs contiguously in the context |
| `Adjacent.MatchedBoundsEnds` | virttest/cartesian_config.py:197-222 | the result is at least the length of every prefix of the block that ends the context |
| `Adjacent.MatchedIsLongestEnd` | virttest/cartesian_config.py:197-222 | when every label occurs but the block does not, the result is the longest prefix that ends the context |
| `Filters.MatchIsSatisfied` | virttest/cartesian_config.py:242-250 | a filter matches exactly when all blocks of some word occur |
| `Filters.MatchGrows` | virttest/cartesian_config.py:242-250 | a match survives every extension of the context |
| `Filters.MightMatchBlockSound` | virttest/cartesian_config.py:225-232 | a block that occurs in some extension by labels of the subtree is not ruled out now |
| `Filters.MightMatchSound` | virttest/cartesian_config.py:252-261 | a filter matched by some extension by labels of the subtree might match now |
| `Filters.MightMatchShrinks` | virttest/cartesian_config.py:197-261 | a filter ruled out at a node is ruled out at every node below, whatever the search reports there |
| `Filters.UnknownRulesOut` | virttest/cartesian_config.py:225-232 | a block with a label that is neither in the context nor known below is ruled out |
| `Filters.UnknownWordsRuleOut` | virttest/cartesian_config.py:252-261 | a filter each of whose words has such a label is ruled out |
| `Filters.MightMatchAtLeaf` | virttest/cartesian_config.py:252-261 | with nothing below, might-match and match coincide |
| `Filters.OnlyStillFails` | virttest/cartesian_config.py:290-297 | an `only` filter that failed at a node, and whose `might_pass` says no, fails again in the new context |
| `Filters.NoStillFails` | virttest/cartesian_config.py:315-322 | the same for a `no` filter |
| `Operators.ApplyAllAppend` | virttest/cartesian_config.py:2277-2279 | applying a list of operators composes: the first part, then the second on its result |
| `Content.EvaluateAppend` | virttest/cartesian_config.py:2120-2175 | a content made of two parts accepts exactly when both do, with the operators of both in order |
| `Content.ActionIsFinal` | virttest/cartesian_config.py:282-312 | an entry that requires action is decided the same way on every path below: a filter rejects, a conditional means its content |
| `Content.IrrelevanceIsFinal` | virttest/cartesian_config.py:282-312 | an irrelevant entry contributes nothing on any path below |
| `Content.ProcessKeepsInside` | virttest/cartesian_config.py:2120-2175 | while a conditional is undecided, what occurs only inside it still does after processing, so its presence elsewhere tells that the conditional was unpacked |
| `Content.ActionStays` | virttest/cartesian_config.py:282-312 | an entry that requires action at a node requires it at every node below |
| `Content.ProcessIsSound` | virttest/cartesian_config.py:2120-2175 | what is kept of a content means the same as the whole on every path below and holds nothing decided; a content that fails rejects every path below |
| `Content.ProcessContent` | virttest/cartesian_config.py:2120-2175 | the loop with its lists computes `Process`; what it keeps is sound, and what it records of a failure is the entry that failed with the failures inside it |
| `Content.FailureIsNested` | virttest/cartesian_config.py:2151-2166 | the failures recorded for a conditional lie inside it, a filter among them |
| `Content.FailsSomewhere` | virttest/cartesian_config.py:2135-2167 | what a failed content records is one entry, and that entry fails by itself |
| `Content.PassesEverywhere` | virttest/cartesian_config.py:2135-2167 | a content that passes passes at each of its entries |
| `Graph.Node.Start` | virttest/cartesian_config.py:514-539 | a new node is a well-formed leaf |
| `Graph.Node.Variant` | virttest/cartesian_config.py:1752-1771 | a variant shares the label set of its one unnamed child and is well formed |
| `Graph.Node.Variants` | virttest/cartesian_config.py:1806-1814 | a block of variants gets a label set that indexes the names on its strict descendants |
| `Graph.MergeLabels` | virttest/cartesian_config.py:1806-1814 | merging the children's label sets and names gives a faithful index of all of them |
| `Graph.CoveredFromChild` | virttest/cartesian_config.py:1806-1814 | the labels on a path below a node are known to the node's label set |
| `Graph.ChildEnclosed` | virttest/cartesian_config.py:1806-1814 | the label set of a node answers for the names of its children and for all that their label sets know |
| `Graph.EnumerateFromRefines` | virttest/cartesian_config.py:2248-2266 | carrying down pruned content gives the same leaves as carrying down everything |
| `Graph.RefutedHasNoLeaf` | virttest/cartesian_config.py:2231-2239 | a node whose content rejects every path below has no leaf |
| `Expansion.StillRequiresAction` | virttest/cartesian_config.py:2177-2200 | an entry that required action in the failed visit, and whose `might_pass` says no, requires action again |
| `Expansion.TwinMatches` | virttest/cartesian_config.py:271-276 | a context that satisfies a filter satisfies every filter it is taken for |
| `Expansion.ToldByPlaceOrKind` | virttest/cartesian_config.py:271-276 | entries that compare equal stand at the same place and are of the same kind |
| `Expansion.ComparedByLabels` | virttest/cartesian_config.py:271-276 | at the same place filters are compared by their labels, the recorded one on the right, and what a conditional holds is not looked at |
| `Expansion.TwinRefutes` | virttest/cartesian_config.py:2177-2200 | when a plain filter still requires action, the path is rejected in each harmless case of mistaken identity |
| `Expansion.ConditionalsWithoutFilters` | virttest/cartesian_config.py:2151-2167 | conditionals that hold no filter need not be told apart from anything |
| `Expansion.OwnCaseIsSilent` | virttest/cartesian_config.py:2177-2200 | a recorded conditional of the node itself never says no |
| `Expansion.GivenCaseIsSilent` | virttest/cartesian_config.py:2177-2200 | a recorded conditional that was handed down never says no: while it is there, its filter is inside it |
| `Expansion.CaseStillFails` | virttest/cartesian_config.py:2177-2200 | if a recorded failure says no, everything on the path down to the node rejects every path below |
| `Expansion.SkipsSubtree` | virttest/cartesian_config.py:2223-2239 | skips exactly when some recorded failure says no; the first that does moves to the front and the others stay |
| `Expansion.AddFailedCase` | virttest/cartesian_config.py:2202-2207 | the new case comes first, and beyond five the last is forgotten |
| `Expansion.FiveAreRemembered` | virttest/cartesian_config.py:2202-2207 | up to five cases are kept, the newest first; then the oldest is forgotten |
| `Expansion.FailureIsRemembered` | virttest/cartesian_config.py:2177-2207 | a visit that a plain filter failed is given up at once, by the first case, when it is made again |
| `Expansion.OwnRecordIsValid` | virttest/cartesian_config.py:2228-2240 | a failure of the node's own content is recorded as a case the cache may rely on |
| `Expansion.GivenRecordIsValid` | virttest/cartesian_config.py:2228-2240 | the same for a failure of the inherited content, whose entry is then not in the node |
| `Expansion.FailsOutside` | virttest/cartesian_config.py:2228-2240 | what fails of the inherited content is not in the node as well, since the node's own content comes first |
| `Expansion.KeptIsRight` | virttest/cartesian_config.py:2120-2175 | what is handed down means what the path holds, and what occurred only inside an undecided conditional still does |
| `Expansion.AboveFlows` | virttest/cartesian_config.py:2247-2266 | what a node holds and what is above it is above its children |
| `Expansion.Enter` | virttest/cartesian_config.py:2216-2241 | a visit begins as `Entered` says: which case answers, which failure is recorded and where, what is kept |
| `Expansion.EnteredIsRight` | virttest/cartesian_config.py:2216-2241 | what a visit keeps is faithful, giving up is right, and the cache stays valid |
| `Expansion.LeafIsOperators` | virttest/cartesian_config.py:2267-2281 | at a leaf only operators are left, and they are what the whole content evaluates to on the full list of labels |
| `Expansion.GetDicts` | virttest/cartesian_config.py:2112-2281 | on every well-formed graph and from every state of the caches, the leaves and the new caches are those of `Traverse` |
| `Expansion.GetDictsOfChildren` | virttest/cartesian_config.py:2247-2266 | the children one after the other, the caches of each visit passed to the next, with the stop after a default variant |
| `Expansion.TraverseBounded` | virttest/cartesian_config.py:2202-2207 | no cache ever exceeds five cases, whatever the entries |
| `Expansion.TraverseIsEnumerate` | virttest/cartesian_config.py:2112-2281 | with any valid caches the leaves of a node are those of the naive enumeration of everything the path holds, in order, and the caches stay valid |
| `Meaning.TraverseWhole` | virttest/cartesian_config.py:2112-2281 | from empty caches, where the entries are clear below the root, the traversal's leaves are those of the naive enumeration |
| `Meaning.Expand` | virttest/cartesian_config.py:2112-2281 | a whole expansion from empty caches; where the entries are clear its leaves are those of the naive enumeration, and no cache exceeds five |
| `Meaning.EnumerateIsAllRoutes` | virttest/cartesian_config.py:2247-2281 | without defaults the leaves are, over all paths from root to leaf in order, those whose content accepts the full list of labels |
| `Meaning.EnumerateMeansDictionaries` | virttest/cartesian_config.py:2112-2281 | the leaves of the compiled graph give the dictionaries of the configuration's meaning, for every sharing of nodes |
| `Meaning.LeafToDict` | virttest/cartesian_config.py:2267-2281 | at a leaf the operators are applied in order to its start dictionary; what each does is in `Assignments.AssignmentMeans` |
| `Meaning.ExpandToDicts` | virttest/cartesian_config.py:2112-2281 | pruning, cache and batching together: the dictionaries are those of walking every path and carrying out its statements one by one |
| `Separated.SeparatedGraphsAreClear` | virttest/cartesian_config.py:2177-2200 | a well-formed graph in which entries that compare equal are equal, and a filter inside a conditional occurs nowhere else, is clear |
| `Witnesses.SecondVisitSkipped` | virttest/cartesian_config.py:2216-2241 | for a node reached in two ways: if the first visit records a case and the case says no to what the second way hands down, the whole traversal has no leaf |
| `Witnesses.RepeatedEntryMisleads` | virttest/cartesian_config.py:2177-2200 | the whole traversal of a graph whose nested filter is repeated beside its conditional has no leaf, though one path is accepted |
| `Witnesses.EqualEntriesMislead` | virttest/cartesian_config.py:2177-2200 | the whole traversal of a graph with two filters that compare equal one way only has no leaf, though one path is accepted |
| `Witnesses.CopyInNodeMisleads` | virttest/cartesian_config.py:2177-2200 | the same with the conditional and the copy in one node |
| `Witnesses.TwinConditionalsMislead` | virttest/cartesian_config.py:2177-2200 | the same for two conditionals with the same filter that come into the path at different nodes |
| `Witnesses.RunWithCopy` | virttest/cartesian_config.py:2112-2281 | the first of these on a graph built with the constructors, with concrete labels, through `Expand` |
| `Witnesses.RunWithEqualEntries` | virttest/cartesian_config.py:2112-2281 | the same for the two filters that compare equal |
| `Witnesses.RunWithCopyInNode` | virttest/cartesian_config.py:2112-2281 | the same for the copy in one node |
| `Witnesses.RunWithTwinConditionals` | virttest/cartesian_config.py:2112-2281 | the same for the two conditionals |
| `Assignments.ExecuteAppend` | virttest/cartesian_config.py:1618-1686 | carrying out statements composes: a rejection anywhere rejects, else the second part works on the first's dictionary |
| `Assignments.AssignmentMeans` | virttest/cartesian_config.py:881-917 | one assignment: `=` replaces, `+=` writes behind and `<=` before what is there, `~=` only where nothing is; a value with `$` is filled in first, each reserved name leaves the dictionary as it is, and no other key changes |
| `Assignments.SetThenAdd` | virttest/cartesian_config.py:881-917 | `n = v` and then `n += w`, `n <= w` or `n ~= w` give `vw`, `wv` and `v` |
| `Assignments.Flushed` | virttest/cartesian_config.py:1382-1385 | flushing the batch as one operator keeps the meaning of the statements so far |
| `Assignments.AbsorbedApply` | virttest/cartesian_config.py:1651-1668 | a statement carried out on the batch has the same effect as one carried out after the batch |
| `Assignments.Absorbed` | virttest/cartesian_config.py:1651-1668 | the batch goes on standing for the pending statements when one more is absorbed |
| `Assignments.Compile` | virttest/cartesian_config.py:1600-1686 | the content built for a block means its statements one by one, for every substitution, context and dictionary |
| `FilterGrammar.ParseFilter` | virttest/cartesian_config.py:1388-1477 | the loop with three lists and a count of dots returns a filter exactly when the tokens spell a text of the grammar that means it, and an error otherwise |
| `FilterGrammar.ParsesTheGrammar` | virttest/cartesian_config.py:1388-1477 | for all tokens: accepted with a filter exactly when some text of the grammar is spelled by them and means that filter |
| `FilterGrammar.LabelReads` | virttest/cartesian_config.py:1401-1415 | `name`, `( name )` and `( variable = value )` with any white space are read as the labels they mean |
| `FilterGrammar.RestReads` | virttest/cartesian_config.py:1416-1477 | from any state after a label, what may follow is read as the grammar means it |
| `FilterGrammar.RestDerived` | virttest/cartesian_config.py:1416-1477 | whatever is accepted after a label is spelled by something the grammar allows there |
| `FilterParser.AcceptedBlocks` | virttest/cartesian_config.py:1388-1477 | an accepted filter has no empty word, and an empty block exactly when a separator is followed by a dot and a label |
| `FilterParser.EmptyBlockAccepted` | virttest/cartesian_config.py:1388-1477 | `a, .b` is accepted with an empty block |
| `FilterParser.RoundTrip` | virttest/cartesian_config.py:1388-1477 | printing any filter with nonempty words and blocks and parsing the tokens gives the filter back |
| `FilterParser.ParseWord` | virttest/cartesian_config.py:1395-1431 | the tokens of a printed word are collected into exactly its blocks |
| `Suffixes.DropSuffix` | virttest/cartesian_config.py:572-600 | one key with suffixes is gone where the general key holds its value, else its value stands under its new name |
| `Suffixes.DropSuffixes` | virttest/cartesian_config.py:555-602 | only plain keys are left, and under each name stands the value of the last key moved there, or else the one it had; where a key is moved to is in `Suffixes.MovedToReversed` |
| `Suffixes.AllEqual` | virttest/cartesian_config.py:585-592 | the suffixes are dropped exactly when all keys on the base hold the same value |
| `Suffixes.MovedToReversed` | virttest/cartesian_config.py:597-600 | a value that is neither told by its base nor the same for all keys on it stands, when no later key goes there, under the base followed by the suffixes in reverse order |
| `Suffixes.LastSuffixFirst` | virttest/cartesian_config.py:597-600 | the suffix added last comes directly after the base |
| `Suffixes.KeepsAllIffNoClash` | virttest/cartesian_config.py:555-602 | every value is kept under the name it goes to exactly when no two keys with different values go to the same name |
| `Suffixes.FoundIffNoShadow` | virttest/cartesian_config.py:555-602 | with different full names, every value is found by its full name or else its base, in every order of the keys, exactly when no base that a key is reduced to is the full name of a key with another value |
| `Suffixes.LookupFinds` | virttest/cartesian_config.py:555-602 | with different full names and no base shadowing a full name, every value is found by its full name or else its base |
| `Suffixes.BaseTakesFullName` | virttest/cartesian_config.py:555-602 | a concrete dictionary with different full names that loses a value |
| `Limits.CompareIsByBytes` | virttest/cartesian_config.py:2315-2364 | sizes are ordered by their bytes, with the number of bytes in each unit spelled out and megabytes by default, whether or not they carry units |
| `Limits.UnitsStep` | virttest/cartesian_config.py:2315-2364 | 1024 of a unit compare equal to one of the next, through B, K, M, G and T |
| `Limits.AmountsOrder` | virttest/cartesian_config.py:2352-2364 | in one unit, and without any, sizes are ordered as their amounts |
| `Limits.BareIsMegabytes` | virttest/cartesian_config.py:2352-2364 | a bare number compares equal to as many megabytes, on either side |
| `Limits.PostfixParse` | virttest/cartesian_config.py:2367-2385 | each key ends with the value of the last key that sets it, judged on the dictionary before the call, or else keeps its own |
| `Limits.BeforeIsFirst` | virttest/cartesian_config.py:2371-2374 | a key is cut at the first occurrence of the mark |
| `Limits.MarkedKeys` | virttest/cartesian_config.py:2369-2383 | a name with `_max`, `_min` or `_fixed` behind it acts on that name in that way, when the mark does not begin earlier |
| `Limits.FixedGivesValue` | virttest/cartesian_config.py:2381-2383 | when the `_fixed` key of a name is the last that begins with the name and a mark, the name gets its value |
| `Limits.BoundsClamp` | virttest/cartesian_config.py:2367-2385 | with only its two bounds acting on it a value ends within them and stays if it was, in every order of the keys |
| `Limits.ClampsIffOnlyItsBounds` | virttest/cartesian_config.py:2367-2385 | a value is clamped in every dictionary over the keys exactly when its own two bounds are what acts on it |
| `Limits.UnsetClampsIffLastIsBound` | virttest/cartesian_config.py:2367-2385 | a name without a value gets one within its bounds in every dictionary over the keys exactly when the last key that acts on it is one of its two bounds |
| `Limits.MarkInsideName` | virttest/cartesian_config.py:2371-2374 | `a_max_b_max` bounds `a` and not `a_max_b` |
| `DesTables.PermutationsInvert` | virttest/RFBDes.py:127-888 | the initial and the final permutation are inverse to each other |
| `DesTables.ParityNotSelected` | virttest/RFBDes.py:12-70 | no parity bit of the key is selected |
| `DesTables.ExpansionOverlaps` | virttest/RFBDes.py:195-245 | each group of six bits is a group of four with its two neighbours |
| `DesTables.InitialByColumns` | virttest/RFBDes.py:127-193 | the initial permutation reads the odd columns of the block and then the even ones, each from the last byte up |
| `DesTables.KeyByColumns` | virttest/RFBDes.py:12-70 | the first selection of the key reads columns 0 to 3 for the left half, and 6 to 4 and the rest of 3 for the right |
| `SboxDesign.OneBitSpreads` | virttest/RFBDes.py:247-786 | in every box, groups of six bits that differ in one bit have entries that differ in two bits at least |
| `SboxDesign.MiddleBitsSpread` | virttest/RFBDes.py:247-786 | so have groups that differ in the two middle bits |
| `SboxDesign.FirstBitsDistinguish` | virttest/RFBDes.py:247-786 | groups that differ in the first two bits and agree in the last two have different entries, whatever the middle bits |
| `SboxDesign.RowsComplete` | virttest/RFBDes.py:247-786 | each row of each box holds every value below 16 |
| `DesDigits.NextIsRound` | virttest/RFBDes.py:963-1047 | the round on hexadecimal digits, with the tables wired in, is the round on bits, for all halves and subkeys |
| `DesDigits.KeyTurnsBy` | virttest/RFBDes.py:946-961 | turning the halves of the key on digits follows the key schedule, and the digits picked are its subkey |
| `DesDigits.Answers` | virttest/RFBDes.py:1017-1051 | where sixteen rounds on digits have come, the block whose columns are the two halves swapped is the result of the cipher |
| `KnownAnswers.TextAnswer` | virttest/RFBDes.py:946-1051 | `Now is t` under the key 0123456789ABCDEF gives 3FA40E8A984D4815 |
| `KnownAnswers.SeventeenAnswer` | virttest/RFBDes.py:946-1051 | 0000800000000000 under the key of zeros gives 2B9F982F20037FA9 |
| `KnownAnswers.EightAnswer` | virttest/RFBDes.py:946-1051 | 0100000000000000 under the key of zeros gives 0D9F279BA5D87260 |
| `Des.SboxRowAndColumn` | virttest/RFBDes.py:963-1005 | the outer two bits of a group spell the row of its S-box and the inner four the column |
| `Des.BitsSpellEntry` | virttest/RFBDes.py:963-1005 | the four bits written for an S-box entry spell it |
| `BitStrings.StringToBitlist` | virttest/utils_misc.py:1137-1153 | the loops list the lowest eight bits of each character, the most significant first |
| `BitStrings.BitsOfFoo` | selftests/unit/test_utils_misc.py:249-277 | the bits of `foo` are those the unit test lists |
| `BitStrings.BitlistToString` | virttest/utils_misc.py:1119-1134 | each complete group of eight bits is the character they spell, the rest is dropped |
| `BitStrings.BitsKeepText` | virttest/utils_misc.py:1119-1153 | a text comes back from its bits, each character cut to eight of them |
| `BitStrings.TextKeepsBits` | virttest/utils_misc.py:1119-1153 | bits in complete groups of eight come back from their text |
| `BitStrings.ReverseByte` | virttest/RFBDes.py:923-929 | the bits of a character in reverse order |
| `Des.Cipher.constructor` | virttest/RFBDes.py:891-904 | a cipher holds the 16 subkeys of its password, filled up with zeros or cut to eight characters |
| `Des.Cipher.SetKey` | virttest/RFBDes.py:912-932 | the subkeys are those of the password's bits, each character with its lowest bit first; with less than eight characters an error, and the subkeys stay |
| `Des.KeyBit` | virttest/RFBDes.py:912-932 | bit `j` of character `i` is bit `8 * i + j` of the key |
| `Des.Cipher.GetSubList` | virttest/RFBDes.py:934-944 | the bits a table names, in its order |
| `Des.Cipher.Turn` | virttest/RFBDes.py:950-957 | single shifts of both halves in place add up to a rotation by their number |
| `Des.Cipher.CreateKn` | virttest/RFBDes.py:946-961 | the `i`-th subkey is selected from the halves turned by the prefix sum of the rotations, and both halves end where they started |
| `Des.Turned` | virttest/RFBDes.py:72 | the prefix sums of the rotations in closed form; all of them make a full turn of 28 |
| `Des.Cipher.FInPlace` | virttest/RFBDes.py:963-1015 | the round function worked out on the right half in place is `F` |
| `Des.Cipher.SixteenRounds` | virttest/RFBDes.py:1029-1047 | the loop applies the rounds with the subkeys forwards, or backwards for decryption |
| `Des.Cipher.DesCrypt` | virttest/RFBDes.py:1017-1051 | a block comes out as `Crypt` of it under the subkeys in the order of the direction; known values of `Crypt` are in `KnownAnswers` |
| `Des.Cipher.CryptData` | virttest/RFBDes.py:1053-1074 | a text comes out block by block; an error exactly when the last block is not complete |
| `Des.RoundsUndone` | virttest/RFBDes.py:1029-1047 | the rounds with the subkeys reversed, after swapping the halves, undo the rounds |
| `Des.InitialOfFinal` | virttest/RFBDes.py:1017-1051 | the initial permutation takes back the final one and finds the halves swapped |
| `Des.DecryptUndoesEncrypt` | virttest/RFBDes.py:1017-1051 | decrypting what was encrypted gives the block back, for every list of subkeys |
| `Des.FOfComplements` | virttest/RFBDes.py:963-1015 | the round function does not change when both its arguments are complemented |
| `Des.SubkeysOfComplement` | virttest/RFBDes.py:946-961 | the subkeys of the complemented key are the complemented subkeys |
| `Des.Complementation` | virttest/RFBDes.py:946-1051 | the complemented block under the complemented key gives the complemented result |
| `Des.WeakKeySchedule` | virttest/RFBDes.py:946-961 | when each half of the selected key is constant all subkeys are equal |
| `Des.WeakKeyInvolution` | virttest/RFBDes.py:946-1051 | encrypting twice under such a key gives the block back |
| `Des.ParityIgnored` | virttest/RFBDes.py:946-961 | keys that differ only in the last bit of each byte have the same subkeys |
| `Des.HighBitsIgnored` | virttest/RFBDes.py:912-961 | passwords that differ only in the highest bits of their first eight characters have the same subkeys |
| `Des.TextRoundTrip` | virttest/RFBDes.py:1053-1074 | decrypting an encrypted text of complete blocks gives each character cut to eight bits, so the text itself exactly when all are bytes |
| `Schedule.SafeFacts` | scripts/parallel.py:50-81 | in every reachable state what runs is what was started and has not ended, and every started function had all its dependencies finished with success |
| `Schedule.SafeAtEveryMoment` | scripts/parallel.py:65-70 | at every moment of a run at most the limit run together |
| `Schedule.EagerAtEveryEnd` | scripts/parallel.py:64-81 | in an eager log, at every end of a function as many were running as may, or every unstarted one still waited for a dependency |
| `Schedule.StartedIsFree` | scripts/parallel.py:59-81 | below a started function everything has succeeded and no chain of dependencies comes back |
| `Schedule.UnstartedIffBlocked` | scripts/parallel.py:59-89 | at the end the functions never started are exactly those from which a failed one or a cycle is reachable |
| `Schedule.DeadlockIffCyclic` | scripts/parallel.py:83-84 | without failures something is left unstarted exactly when the dependencies are cyclic |
| `Scheduler.BuildDependents` | scripts/parallel.py:37-42 | the dependents are the dependencies inverted, each once |
| `Scheduler.StartStep` | scripts/parallel.py:50-57 | starting a function with nothing left to wait for keeps the state consistent with the log |
| `Scheduler.SuccessReleases` | scripts/parallel.py:78-81 | when a function succeeds, those that still wait for it are exactly its dependents, all unstarted |
| `Scheduler.DependentReleased` | scripts/parallel.py:78-81 | taking the function off one dependent keeps the ready list exact |
| `Scheduler.RoundIsEager` | scripts/parallel.py:64-81 | starting as many as may be started, and then one end, keep the log eager, and report the end when it was a failure |
| `Scheduler.ParallelExecute.constructor` | scripts/parallel.py:16-48 | nothing has been started, and the dependents are wired to the dependencies |
| `Scheduler.ParallelExecute.RunLastReady` | scripts/parallel.py:50-57 | the last ready function is started, once, below the limit and after its dependencies |
| `Scheduler.ParallelExecute.StartReady` | scripts/parallel.py:65-70 | as many ready functions as the limit allows are started, so that afterwards the limit is reached or nothing is ready |
| `Scheduler.ParallelExecute.Succeed` | scripts/parallel.py:71-81 | after a success the rest wait for exactly the dependencies that have not succeeded, and the ready list is exact |
| `Scheduler.ParallelExecute.Fail` | scripts/parallel.py:71-76 | after a failure nothing is released |
| `Scheduler.ParallelExecute.RunAll` | scripts/parallel.py:64-81 | the loop ends for every order and status of endings, with nothing running and nothing ready, and names exactly the failed |
| `Scheduler.ParallelExecute.RunUntilCompletion` | scripts/parallel.py:59-89 | the outcome is right: see `Right` for what each outcome says of the run; whenever a function ended, as many were running as may or nothing more could have been started, and the errors are in the order of the failures |
| `LogWriter.WriteInParts` | virttest/logging_manager.py:37-61 | how a text is cut into pieces does not matter |
| `LogWriter.WriteKeepsText` | virttest/logging_manager.py:37-51 | the logged lines with their ends and the buffer are exactly what was written |
| `LogWriter.WriteLogsLines` | virttest/logging_manager.py:37-51 | each logged line is one line and the buffer less than one |
| `LogWriter.WriteIsAbsorb` | virttest/logging_manager.py:37-51 | working on the pieces between line ends is writing character by character |
| `LogWriter.LoggingFile.WriteData` | virttest/logging_manager.py:37-51 | a call logs the lines it completes, prefixed, and buffers the rest, whatever was buffered |
| `LogWriter.LoggingFile.WriteLines` | virttest/logging_manager.py:54-61 | writing chunks is writing their concatenation |
| `LogWriter.LoggingFile.Flush` | virttest/logging_manager.py:71-78 | the buffer is logged as a line, unless there is nothing in it |
| `CpuLists.ItemForms` | virttest/cpu.py:1329-1341 | the checks on an item's text and the pieces it is cut into tell the three forms apart and give their numbers |
| `CpuLists.WrittenIsRead` | virttest/cpu.py:1333-1341 | writing any number in decimal digits and reading it gives the number back |
| `CpuLists.DigitAppended` | virttest/cpu.py:1333-1341 | a digit written behind a number makes it ten times as much and the digit |
| `CpuLists.CpusStringToAffinityList` | virttest/cpu.py:1298-1342 | the marks say for each position whether the last item that mentions it includes it; an error exactly when some number is no position |
| `CpuLists.MarkOne` | virttest/cpu.py:1329-1341 | one item changes the marks of the positions it mentions and no others |
| `CpuLists.CpusParser` | virttest/cpu.py:1435-1479 | the numbers included and not excluded, strictly increasing; an error exactly for a lone exclusion |
| `CpuLists.MarkedMeans` | virttest/cpu.py:1326-1342 | a position is marked exactly when some item includes it and none after that excludes it |
| `CpuLists.AgreeUnlessIncludedAgain` | virttest/cpu.py:1298-1342 | the two readings of a number agree exactly when it is not included again after an exclusion |
| `CpuLists.ReadersAgree` | virttest/cpu.py:1435-1479 | the marked positions are exactly the numbers read, unless some number is included again after an exclusion |

## Left out

Contracts stated weaker than the full promise:

- Meaning.Expand: one way only; that the leaves are right is proved where `Clear` holds, and the witnesses show that none of its three parts can be dropped, but entries that are not clear need not mislead (whether they do depends on the order of the visits and on which cases were forgotten), so the converse does not hold graph by graph.
- Suffixes.LookupFinds: says one way what `Suffixes.FoundIffNoShadow` says both ways over all orders of the keys.
- Filters.Match: calls the description `Matched` where the code calls the search; `Adjacent.MatchAdjacent` proves that they are equal.
- Scheduler.ParallelExecute.constructor: dependencies are closed over the function map, and the form that takes a plain list of functions is not modelled.
- CpuLists.CpusStringToAffinityList: items other than a number, a range and an exclusion are outside the model (the code logs them and goes on to a conversion that may raise an error); `r` is for this reader only.

Not modelled:

- `join` (`multiply_join`, `mk_name`), which rewrites shared contents while generators are suspended.
- The regular-expression operators and `del`, the `suffix` operator, file-name maps, `dep`, and the `name` and `shortname` entries of a dictionary, which a start dictionary stands for.
- The lexer, `include`, files and error messages: parsing a filter starts from tokens, batching from parsed statements, and the graph from nodes.
- `${key}` substitution is any function of the value and the dictionary.
- Generators: methods return sequences, so laziness and the sharing of caches between interleaved traversals are not captured.
- The order of the keys in a dictionary; a dictionary whose order matters comes with its list of keys.
- Python identity of entries: entries are values, and two of them with the same content are one; `Clear` says where that must not happen.
- The set of labels stored with a recorded failure, which is computed from its context.
- Aliasing of dependency sets: the code removes a finished function from its dependents' sets in place, so two functions given the same set object raise a key error at the second removal; here each function has a set of its own.
- Processes, exit codes beyond zero and nonzero, and `redirect_io`: waiting picks any running process and any status.
- The text of sizes and the rounding of floating point in their conversion: a size is an integer with an optional unit.
- The logger and its level; a logged line is appended to a list.
- Some methods of the source are several here (`Scan` in `MatchAdjacent`, `Enter` and `GetDictsOfChildren` in `GetDicts`, `DropSuffix` in `DropSuffixes`, `TurnThrough` in `CreateKn`, `SubstituteGroups`, `RoundInPlace` and `NextRound` in `DesCrypt`, `CryptEight` in `CryptData`, `RunAll` and its steps in `RunUntilCompletion`), so that each proof stays short.
- The rest of the repository: test-bed management, guest tools, monitors, storage and network drivers, which are shell commands and external services.
