/** The order the benchmark matrix gives its test files, and which of them its groups run. */
module TestOrder {
  import opened Options
  import opened Sequences

  /** A workload group: the names of its tests. */
  type Groups = seq<seq<string>>

  const SUFFIX := ".test.ts"

  /** `getTestName`: the file name without the first `.test.ts` in it. */
  function TestName(file: string): string {
    if file == "" then ""
    else if SUFFIX <= file then file[|SUFFIX|..]
    else [file[0]] + TestName(file[1..])
  }

  predicate SuffixAt(file: string, i: int) {
    0 <= i <= |file| && SUFFIX <= file[i..]
  }

  ghost predicate FirstSuffix(file: string, i: int) {
    SuffixAt(file, i) && forall j :: 0 <= j < i ==> !SuffixAt(file, j)
  }

  lemma SuffixShift(file: string, i: nat)
    requires i < |file|
    ensures SuffixAt(file, i + 1) == SuffixAt(file[1..], i)
  {
    assert file[1..][i..] == file[i + 1..];
  }

  lemma FirstSuffixShift(file: string, i: nat)
    requires FirstSuffix(file, i)
    ensures i + |SUFFIX| <= |file|
    ensures SUFFIX <= file <==> i == 0
    ensures i > 0 ==> FirstSuffix(file[1..], i - 1)
  {
    assert file[0..] == file;
    if i > 0 {
      assert !SuffixAt(file, 0);
      forall j | 0 <= j < i ensures SuffixAt(file[1..], j) == SuffixAt(file, j + 1) { SuffixShift(file, j); }
    }
  }

  /** `String.replace` with a text: the first occurrence goes, and nothing else. */
  lemma {:induction false} TestNameDropsFirst(file: string, i: nat)
    requires FirstSuffix(file, i)
    ensures i + |SUFFIX| <= |file| && TestName(file) == file[..i] + file[i + |SUFFIX|..]
  {
    hide FirstSuffix;
    FirstSuffixShift(file, i);
    if i > 0 {
      TestNameDropsFirst(file[1..], i - 1);
      assert file[1..][i - 1 + |SUFFIX|..] == file[i + |SUFFIX|..];
      assert file[..i] == [file[0]] + file[1..][..i - 1];
    }
  }

  /** `name.test.ts` is the file of the test `name`. */
  lemma TestNameOf(name: string)
    requires '.' !in name
    ensures TestName(name + ".test.ts") == name
  {
    var file := name + ".test.ts";
    assert file[|name|..] == ".test.ts" && file[..|name|] == name;
    forall j | 0 <= j < |name| ensures !SuffixAt(file, j) { assert file[j..][0] == name[j] && name[j] in name; }
    TestNameDropsFirst(file, |name|);
    assert file[|name| + |SUFFIX|..] == "";
  }

  lemma {:induction false} TestNameWithoutSuffix(file: string)
    requires forall i :: 0 <= i <= |file| ==> !SuffixAt(file, i)
    ensures TestName(file) == file
  {
    if file != "" {
      assert !SuffixAt(file, 0) && file[0..] == file;
      forall j | 0 <= j <= |file[1..]| ensures !SuffixAt(file[1..], j) { SuffixShift(file, j); }
      TestNameWithoutSuffix(file[1..]);
    }
  }

  /** `testFiles.find((f) => getTestName(f) === name)` */
  function Find(files: seq<string>, name: string): Option<string> {
    if files == [] then None
    else if TestName(files[0]) == name then Some(files[0])
    else Find(files[1..], name)
  }

  /** `GROUPS.flatMap((g) => g.tests)` */
  function Names(groups: Groups): seq<string> {
    if groups == [] then [] else groups[0] + Names(groups[1..])
  }

  /** The files named by `names`: each once, where its name comes first. */
  function Picked(files: seq<string>, names: seq<string>): seq<string> {
    if names == [] then []
    else
      var before := Picked(files, names[..|names| - 1]);
      var file := Find(files, names[|names| - 1]);
      if file.Some? && file.value != "" && file.value !in before then before + [file.value] else before
  }

  function Ordered(groups: Groups, files: seq<string>): seq<string> {
    Picked(files, Names(groups)) + Filter(file => TestName(file) !in Names(groups), files)
  }

  /** The loops of `run` that build `orderedTests`. */
  method OrderTests(groups: Groups, files: seq<string>) returns (ordered: seq<string>)
    ensures ordered == Ordered(groups, files)
  {
    hide Names, Picked, Filter, TestName;
    PickedNone(files);
    NamesNone();
    FilterNone((file: string) => TestName(file) !in Names(groups));
    var names := Names(groups);
    ordered := [];
    var g := 0;
    assert Names(groups[..0]) == [];
    while g < |groups|
      invariant g <= |groups|
      invariant ordered == Picked(files, Names(groups[..g]))
    {
      ordered := OrderGroup(files, groups[g], ordered, Names(groups[..g]));
      NamesStep(groups, g);
      g := g + 1;
    }
    assert groups[..g] == groups;
    var f := 0;
    var keep := (file: string) => TestName(file) !in names;
    ghost var grouped := ordered;
    while f < |files|
      invariant f <= |files|
      invariant ordered == grouped + Filter(keep, files[..f])
    {
      FilterStep(keep, files, f);
      if TestName(files[f]) !in names {
        ordered := ordered + [files[f]];
      }
      f := f + 1;
    }
    assert files[..f] == files;
  }

  method OrderGroup(files: seq<string>, tests: seq<string>, start: seq<string>, ghost before: seq<string>)
    returns (ordered: seq<string>)
    requires start == Picked(files, before)
    ensures ordered == Picked(files, before + tests)
  {
    hide Picked, Find, TestName;
    ordered := start;
    var t := 0;
    assert before + tests[..0] == before;
    while t < |tests|
      invariant t <= |tests|
      invariant ordered == Picked(files, before + tests[..t])
    {
      var file := Find(files, tests[t]);
      PickedStep(files, before + tests[..t], tests[t]);
      assert before + tests[..t] + [tests[t]] == before + tests[..t + 1];
      if file.Some? && file.value != "" && file.value !in ordered {
        ordered := ordered + [file.value];
      }
      t := t + 1;
    }
    assert tests[..t] == tests;
  }

  lemma PickedNone(files: seq<string>)
    ensures Picked(files, []) == []
  {
  }

  lemma NamesNone()
    ensures Names([]) == []
  {
  }

  lemma PickedStep(files: seq<string>, names: seq<string>, name: string)
    ensures Picked(files, names + [name]) ==
            var file := Find(files, name);
            var picked := Picked(files, names);
            if file.Some? && file.value != "" && file.value !in picked then picked + [file.value] else picked
  {
    assert (names + [name])[..|names|] == names;
  }

  lemma NamesCons(tests: seq<string>, groups: Groups)
    ensures Names([tests] + groups) == tests + Names(groups)
  {
    assert ([tests] + groups)[1..] == groups;
  }

  lemma {:induction false} NamesConcat(a: Groups, b: Groups)
    ensures Names(a + b) == Names(a) + Names(b)
    decreases |a|, 1
  {
    if a == [] {
      assert a + b == b;
    } else {
      var head, tail := a[0], a[1..];
      assert a == [head] + tail;
      NamesTail(head, tail, b);
    }
  }

  lemma {:induction false} NamesTail(head: seq<string>, tail: Groups, b: Groups)
    ensures Names([head] + tail + b) == Names([head] + tail) + Names(b)
    decreases |tail| + 1, 0
  {
    hide Names;
    NamesConcat(tail, b);
    NamesCons(head, tail);
    NamesCons(head, tail + b);
    Associative([head], tail, b);
    Associative(head, Names(tail), Names(b));
  }

  lemma NamesStep(groups: Groups, g: nat)
    requires g < |groups|
    ensures Names(groups[..g + 1]) == Names(groups[..g]) + groups[g]
  {
    assert groups[..g + 1] == groups[..g] + [groups[g]];
    NamesConcat(groups[..g], [groups[g]]);
  }

  // ------------------------------------------------------------------
  // What the order keeps
  // ------------------------------------------------------------------

  /** How discovery leaves `testFiles`: directory entries ending in `.test.ts`. */
  ghost predicate Discovered(files: seq<string>) {
    Distinct(files) && "" !in files
  }

  lemma {:induction false} FindIsFirst(files: seq<string>, name: string) returns (i: nat)
    requires Find(files, name).Some?
    ensures i < |files| && files[i] == Find(files, name).value && TestName(files[i]) == name
    ensures forall j :: 0 <= j < i ==> TestName(files[j]) != name
  {
    hide TestName;
    if TestName(files[0]) == name {
      i := 0;
    } else {
      var j := FindIsFirst(files[1..], name);
      i := j + 1;
    }
  }

  lemma {:induction false} FindExists(files: seq<string>, i: nat)
    requires i < |files|
    ensures Find(files, TestName(files[i])).Some?
  {
    hide TestName;
    if i > 0 { FindExists(files[1..], i - 1); }
  }

  lemma {:induction false} PickedDistinct(files: seq<string>, names: seq<string>)
    ensures Distinct(Picked(files, names))
  {
    hide Distinct, Find;
    if names == [] {
      DistinctNil<string>();
    } else {
      var before := Picked(files, names[..|names| - 1]);
      PickedDistinct(files, names[..|names| - 1]);
      var file := Find(files, names[|names| - 1]);
      if file.Some? && file.value !in before { DistinctSnoc(before, file.value); }
    }
  }

  lemma {:induction false} PickedMember(files: seq<string>, names: seq<string>, x: string)
    requires x != ""
    ensures x in Picked(files, names) <==> TestName(x) in names && Find(files, TestName(x)) == Some(x)
  {
    hide Find, TestName;
    if names != [] {
      var before, last := names[..|names| - 1], names[|names| - 1];
      assert names == before + [last];
      PickedMember(files, before, x);
      FoundName(files, last);
    }
  }

  lemma FoundName(files: seq<string>, name: string)
    ensures Find(files, name).Some? ==> TestName(Find(files, name).value) == name
  {
    if Find(files, name).Some? { var _ := FindIsFirst(files, name); }
  }

  lemma FindMember(files: seq<string>, name: string)
    ensures Find(files, name).Some? ==> Find(files, name).value in files
  {
    if Find(files, name).Some? { var _ := FindIsFirst(files, name); }
  }

  /** A file is ordered when no group names it, or when it is the first file of its name. */
  lemma OrderedMember(groups: Groups, files: seq<string>, x: string)
    requires Discovered(files)
    ensures x in Ordered(groups, files) <==>
            x in files && (TestName(x) !in Names(groups) || Find(files, TestName(x)) == Some(x))
  {
    hide Names, TestName, Find, Picked;
    var keep := (file: string) => TestName(file) !in Names(groups);
    FilterMember(keep, files, x);
    PickedNonempty(files, Names(groups));
    if x != "" {
      PickedMember(files, Names(groups), x);
      FindMember(files, TestName(x));
    }
  }

  lemma {:induction false} PickedNonempty(files: seq<string>, names: seq<string>)
    ensures "" !in Picked(files, names)
  {
    if names != [] { PickedNonempty(files, names[..|names| - 1]); }
  }

  lemma OrderedDistinct(groups: Groups, files: seq<string>)
    requires Discovered(files)
    ensures Distinct(Ordered(groups, files))
  {
    hide Distinct, Names, TestName, Find, Picked;
    var keep := (file: string) => TestName(file) !in Names(groups);
    assert Distinct(files) by { DiscoveredDistinct(files); }
    PickedDistinct(files, Names(groups));
    FilterDistinct(keep, files);
    forall x | x in Picked(files, Names(groups)) ensures x !in Filter(keep, files) {
      PickedNonempty(files, Names(groups));
      PickedMember(files, Names(groups), x);
      FilterMember(keep, files, x);
    }
    DistinctConcat(Picked(files, Names(groups)), Filter(keep, files));
  }

  lemma DiscoveredDistinct(files: seq<string>)
    requires Discovered(files)
    ensures Distinct(files) && "" !in files
  {
  }

  /** No two files share a name that a group uses. */
  ghost predicate NamesApart(groups: Groups, files: seq<string>) {
    forall i, j :: 0 <= i < j < |files| && TestName(files[i]) == TestName(files[j]) ==>
        TestName(files[i]) !in Names(groups)
  }

  lemma FirstOfItsName(groups: Groups, files: seq<string>, i: nat)
    requires NamesApart(groups, files) && i < |files| && TestName(files[i]) in Names(groups)
    ensures Find(files, TestName(files[i])) == Some(files[i])
  {
    hide TestName, Names;
    FindExists(files, i);
    var j := FindIsFirst(files, TestName(files[i]));
  }

  lemma ShadowedByEarlier(files: seq<string>, i: nat, j: nat)
    requires Distinct(files) && i < j < |files| && TestName(files[i]) == TestName(files[j])
    ensures Find(files, TestName(files[j])) != Some(files[j])
  {
    hide TestName;
    FindExists(files, j);
    var k := FindIsFirst(files, TestName(files[j]));
  }

  lemma NotOrdered(groups: Groups, files: seq<string>, i: nat, j: nat)
    requires Discovered(files) && i < j < |files|
    requires TestName(files[i]) == TestName(files[j]) && TestName(files[i]) in Names(groups)
    ensures multiset(Ordered(groups, files)) != multiset(files)
  {
    hide Names, TestName, Find, Ordered;
    ShadowedByEarlier(files, i, j);
    OrderedMember(groups, files, files[j]);
    assert files[j] in multiset(files) && files[j] !in multiset(Ordered(groups, files));
  }

  /** `orderedTests` is a permutation of the discovered files exactly when grouped names are unambiguous. */
  lemma OrderedIsPermutation(groups: Groups, files: seq<string>)
    requires Discovered(files)
    ensures multiset(Ordered(groups, files)) == multiset(files) <==> NamesApart(groups, files)
  {
    hide Names, TestName, Find, Ordered, Distinct;
    if NamesApart(groups, files) {
      forall x ensures x in Ordered(groups, files) <==> x in files {
        OrderedMember(groups, files, x);
        if x in files {
          var i :| 0 <= i < |files| && files[i] == x;
          if TestName(x) in Names(groups) { FirstOfItsName(groups, files, i); }
        }
      }
      OrderedDistinct(groups, files);
      DiscoveredDistinct(files);
      SameMembersSameMultiset(Ordered(groups, files), files);
    } else {
      var i, j :| 0 <= i < j < |files| && TestName(files[i]) == TestName(files[j]) &&
          TestName(files[i]) in Names(groups);
      NotOrdered(groups, files, i, j);
    }
  }

  // ------------------------------------------------------------------
  // Grouped files come in the order of their names
  // ------------------------------------------------------------------

  function FirstAt(names: seq<string>, name: string): nat
    requires name in names
  {
    if names[0] == name then 0 else 1 + FirstAt(names[1..], name)
  }

  lemma {:induction false} FirstAtSnoc(names: seq<string>, last: string, name: string)
    requires name in names + [last]
    ensures FirstAt(names + [last], name) == if name in names then FirstAt(names, name) else |names|
    ensures name in names ==> FirstAt(names, name) < |names|
  {
    if names != [] && names[0] != name {
      assert (names + [last])[1..] == names[1..] + [last];
      FirstAtSnoc(names[1..], last, name);
    }
  }

  ghost predicate InNameOrder(names: seq<string>, files: seq<string>) {
    && (forall i :: 0 <= i < |files| ==> TestName(files[i]) in names)
    && (forall i, j :: 0 <= i < j < |files| ==> FirstAt(names, TestName(files[i])) < FirstAt(names, TestName(files[j])))
  }

  lemma InNameOrderWiden(names: seq<string>, last: string, files: seq<string>)
    requires InNameOrder(names, files)
    ensures InNameOrder(names + [last], files)
  {
    hide TestName, FirstAt;
    forall i | 0 <= i < |files|
      ensures TestName(files[i]) in names + [last]
      ensures FirstAt(names + [last], TestName(files[i])) == FirstAt(names, TestName(files[i]))
    {
      FirstAtSnoc(names, last, TestName(files[i]));
    }
  }

  lemma InNameOrderAdd(names: seq<string>, files: seq<string>, file: string)
    requires InNameOrder(names, files) && TestName(file) !in names
    ensures InNameOrder(names + [TestName(file)], files + [file])
  {
    hide TestName, FirstAt;
    var name := TestName(file);
    InNameOrderWiden(names, name, files);
    FirstAtSnoc(names, name, name);
    forall i | 0 <= i < |files| ensures FirstAt(names + [name], TestName(files[i])) < |names| {
      FirstAtSnoc(names, name, TestName(files[i]));
    }
  }

  lemma {:induction false} PickedInNameOrder(files: seq<string>, names: seq<string>)
    ensures InNameOrder(names, Picked(files, names))
  {
    hide TestName, FirstAt, InNameOrder, Find;
    if names == [] {
      NoNamesInOrder();
    } else {
      var before, last := names[..|names| - 1], names[|names| - 1];
      assert names == before + [last];
      PickedInNameOrder(files, before);
      FoundName(files, last);
      var file := Find(files, last);
      if file.Some? && file.value != "" && file.value !in Picked(files, before) {
        PickedMember(files, before, file.value);
        InNameOrderAdd(before, Picked(files, before), file.value);
      } else {
        InNameOrderWiden(before, last, Picked(files, before));
      }
    }
  }

  lemma NoNamesInOrder()
    ensures InNameOrder([], [])
  {
  }

  // ------------------------------------------------------------------
  // Which tests the groups run
  // ------------------------------------------------------------------

  predicate Runs(skip: set<string>, tests: seq<string>, file: string) {
    TestName(file) in tests && TestName(file) !in skip
  }

  /** `groupFiles` */
  function GroupFiles(ordered: seq<string>, skip: set<string>, tests: seq<string>): seq<string> {
    Filter(file => Runs(skip, tests, file), ordered)
  }

  /** Everything the groups run, group after group. */
  function RunList(ordered: seq<string>, skip: set<string>, groups: Groups): seq<string> {
    if groups == [] then [] else GroupFiles(ordered, skip, groups[0]) + RunList(ordered, skip, groups[1..])
  }

  /** The files that the progress display counts as its total. */
  function NotSkipped(ordered: seq<string>, skip: set<string>): seq<string> {
    Filter(file => TestName(file) !in skip, ordered)
  }

  function Mentions(groups: Groups, name: string): nat {
    if groups == [] then 0 else (if name in groups[0] then 1 else 0) + Mentions(groups[1..], name)
  }

  lemma {:induction false} RunCount(ordered: seq<string>, skip: set<string>, groups: Groups, file: string)
    requires Distinct(ordered)
    ensures multiset(RunList(ordered, skip, groups))[file] ==
            if file in ordered && TestName(file) !in skip then Mentions(groups, TestName(file)) else 0
  {
    hide TestName, Distinct;
    if groups != [] {
      var keep := (f: string) => Runs(skip, groups[0], f);
      RunCount(ordered, skip, groups[1..], file);
      FilterDistinct(keep, ordered);
      FilterMember(keep, ordered, file);
      DistinctMultiset(GroupFiles(ordered, skip, groups[0]), file);
    }
  }

  lemma NotSkippedCount(ordered: seq<string>, skip: set<string>, file: string)
    requires Distinct(ordered)
    ensures multiset(NotSkipped(ordered, skip))[file] == if file in ordered && TestName(file) !in skip then 1 else 0
  {
    hide TestName, Distinct;
    var keep := (f: string) => TestName(f) !in skip;
    FilterDistinct(keep, ordered);
    FilterMember(keep, ordered, file);
    DistinctMultiset(NotSkipped(ordered, skip), file);
  }

  /** Every counted test runs exactly once if and only if exactly one group names it: a test in no group never runs. */
  lemma RunsEachOnce(ordered: seq<string>, skip: set<string>, groups: Groups)
    requires Distinct(ordered)
    ensures multiset(RunList(ordered, skip, groups)) == multiset(NotSkipped(ordered, skip)) <==>
            forall file :: file in ordered && TestName(file) !in skip ==> Mentions(groups, TestName(file)) == 1
  {
    hide TestName, Distinct, Mentions, RunList, NotSkipped;
    var run, counted := multiset(RunList(ordered, skip, groups)), multiset(NotSkipped(ordered, skip));
    forall file
      ensures run[file] == if file in ordered && TestName(file) !in skip then Mentions(groups, TestName(file)) else 0
      ensures counted[file] == if file in ordered && TestName(file) !in skip then 1 else 0
    {
      RunCount(ordered, skip, groups, file);
      NotSkippedCount(ordered, skip, file);
    }
  }

  /** An ordered test that no group names is counted in the total and never run. */
  lemma UngroupedNeverRuns(files: seq<string>, skip: set<string>, groups: Groups, file: string)
    requires Discovered(files) && file in files && TestName(file) !in Names(groups) && TestName(file) !in skip
    ensures file in NotSkipped(Ordered(groups, files), skip)
    ensures file !in RunList(Ordered(groups, files), skip, groups)
  {
    hide TestName, Distinct, Ordered, Names;
    var ordered := Ordered(groups, files);
    OrderedMember(groups, files, file);
    OrderedDistinct(groups, files);
    FilterMember((f: string) => TestName(f) !in skip, ordered, file);
    RunCount(ordered, skip, groups, file);
    NoMention(groups, TestName(file));
    assert file !in multiset(RunList(ordered, skip, groups));
  }

  lemma {:induction false} NoMention(groups: Groups, name: string)
    ensures Mentions(groups, name) == 0 <==> name !in Names(groups)
  {
    if groups != [] { NoMention(groups[1..], name); }
  }

  /** A group runs exactly its tests that are not skipped, in the order of the files. */
  lemma GroupRunsInOrder(ordered: seq<string>, skip: set<string>, tests: seq<string>) returns (at: seq<nat>)
    ensures Picks(ordered, GroupFiles(ordered, skip, tests), at)
    ensures forall i: nat :: i in at <==>
              i < |ordered| && TestName(ordered[i]) in tests && TestName(ordered[i]) !in skip
  {
    hide TestName, Filter;
    at := FilterPicks(file => Runs(skip, tests, file), ordered);
  }

  /** Groups run one after the other, in their order. */
  lemma {:induction false} GroupsInOrder(ordered: seq<string>, skip: set<string>, before: Groups, after: Groups)
    ensures RunList(ordered, skip, before + after) == RunList(ordered, skip, before) + RunList(ordered, skip, after)
  {
    hide GroupFiles;
    if before == [] {
      assert before + after == after;
    } else {
      assert (before + after)[0] == before[0] && (before + after)[1..] == before[1..] + after;
      GroupsInOrder(ordered, skip, before[1..], after);
    }
  }
}
