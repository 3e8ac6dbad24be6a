/** `selectSuites` of scripts/test-smart.ts and its use on the expanded change set. */
module SuiteSelection {
  import opened Options
  import opened TestSelection
  import S = Sequences
  import G = Glob

  datatype SuiteRule = SuiteRule(patterns: seq<string>, command: string, name: string, gate: int)

  datatype SelectedSuite = SelectedSuite(rule: SuiteRule, matchingFiles: seq<string>)

  function MatchingFiles(matches: Matcher, rule: SuiteRule, files: seq<string>): (r: seq<string>)
    ensures forall f :: f in r <==> f in files && MatchesAny(matches, f, rule.patterns)
  {
    if files == [] then []
    else
      var rest := MatchingFiles(matches, rule, files[1..]);
      if MatchesAny(matches, files[0], rule.patterns) then [files[0]] + rest else rest
  }

  /** The matching files are the changed files that match, each as often as it was given, in their order. */
  lemma MatchingInOrder(matches: Matcher, rule: SuiteRule, files: seq<string>) returns (at: seq<nat>)
    ensures S.Picks(files, MatchingFiles(matches, rule, files), at)
    ensures forall i: nat :: i in at <==> i < |files| && MatchesAny(matches, files[i], rule.patterns)
  {
    MatchingIsFilter(matches, rule, files);
    at := S.FilterPicks(f => MatchesAny(matches, f, rule.patterns), files);
  }

  lemma {:induction false} MatchingIsFilter(matches: Matcher, rule: SuiteRule, files: seq<string>)
    ensures MatchingFiles(matches, rule, files) == S.Filter(f => MatchesAny(matches, f, rule.patterns), files)
  {
    if files != [] { MatchingIsFilter(matches, rule, files[1..]); }
  }

  /** The rule asks for its suite. */
  ghost predicate Wanted(matches: Matcher, rule: SuiteRule, files: set<string>) {
    exists f :: f in files && MatchesAny(matches, f, rule.patterns)
  }

  function Labels(s: seq<SelectedSuite>): set<string> { set x | x in s :: x.rule.name }

  /** A selection by the first `k` rules: every wanted label once, by the first rule that wants it, with
      all the files that rule matches. */
  ghost predicate Selects(matches: Matcher, rules: seq<SuiteRule>, k: nat, files: seq<string>, s: seq<SelectedSuite>)
    requires k <= |rules|
  {
    && (forall i :: 0 <= i < |s| ==>
       s[i].matchingFiles != [] && s[i].matchingFiles == MatchingFiles(matches, s[i].rule, files))
    && (forall i, j :: 0 <= i < j < |s| ==> s[i].rule.name != s[j].rule.name)
    && (forall i :: 0 <= i < |s| ==> FirstWanted(matches, rules, k, files, s[i].rule))
    && (forall r :: r in rules[..k] && Wanted(matches, r, ToSet(files)) ==> r.name in Labels(s))
  }

  /** Some rule of the list wants this suite, and no earlier rule wants one of the same label. */
  ghost predicate FirstWanted(matches: Matcher, rules: seq<SuiteRule>, k: nat, files: seq<string>, rule: SuiteRule)
    requires k <= |rules|
  {
    exists i :: 0 <= i < k && rules[i] == rule &&
      forall j :: 0 <= j < i && rules[j].name == rule.name ==> !Wanted(matches, rules[j], ToSet(files))
  }

  lemma WantedIsMatched(matches: Matcher, rule: SuiteRule, files: seq<string>)
    ensures Wanted(matches, rule, ToSet(files)) <==> MatchingFiles(matches, rule, files) != []
  {
  }

  lemma SelectsSkip(matches: Matcher, rules: seq<SuiteRule>, k: nat, files: seq<string>, s: seq<SelectedSuite>)
    requires k < |rules| && Selects(matches, rules, k, files, s)
    requires !Wanted(matches, rules[k], ToSet(files)) || rules[k].name in Labels(s)
    ensures Selects(matches, rules, k + 1, files, s)
  {
  }

  lemma LabelsSnoc(s: seq<SelectedSuite>, x: SelectedSuite)
    ensures Labels(s + [x]) == Labels(s) + {x.rule.name}
  {
    assert forall y :: y in s + [x] <==> y in s || y == x;
  }

  lemma FirstWantedGrows(matches: Matcher, rules: seq<SuiteRule>, k: nat, files: seq<string>, rule: SuiteRule)
    requires k < |rules| && FirstWanted(matches, rules, k, files, rule)
    ensures FirstWanted(matches, rules, k + 1, files, rule)
  {
    hide Wanted;
  }

  lemma FirstWantedHere(matches: Matcher, rules: seq<SuiteRule>, k: nat, files: seq<string>, s: seq<SelectedSuite>)
    requires k < |rules| && Selects(matches, rules, k, files, s) && rules[k].name !in Labels(s)
    ensures FirstWanted(matches, rules, k + 1, files, rules[k])
  {
  }

  lemma SelectsTake(matches: Matcher, rules: seq<SuiteRule>, k: nat, files: seq<string>, s: seq<SelectedSuite>)
    requires k < |rules| && Selects(matches, rules, k, files, s)
    requires Wanted(matches, rules[k], ToSet(files)) && rules[k].name !in Labels(s)
    ensures var taken := SelectedSuite(rules[k], MatchingFiles(matches, rules[k], files));
            Selects(matches, rules, k + 1, files, s + [taken]) && Labels(s + [taken]) == Labels(s) + {rules[k].name}
  {
    hide Wanted, MatchingFiles, Labels, FirstWanted, ToSet, MatchesAny;
    var taken := SelectedSuite(rules[k], MatchingFiles(matches, rules[k], files));
    WantedIsMatched(matches, rules[k], files);
    LabelsSnoc(s, taken);
    FirstWantedHere(matches, rules, k, files, s);
    forall i | 0 <= i < |s|
      ensures FirstWanted(matches, rules, k + 1, files, s[i].rule) && s[i].rule.name in Labels(s)
    {
      FirstWantedGrows(matches, rules, k, files, s[i].rule);
      LabelOf(s, i);
    }
    assert rules[..k + 1] == rules[..k] + [rules[k]];
  }

  lemma LabelOf(s: seq<SelectedSuite>, i: nat)
    requires i < |s|
    ensures s[i].rule.name in Labels(s)
  {
  }

  /** Fails closed: with changed files and no wanted suite the full core suite is selected. */
  method SelectSuites(matches: Matcher, rules: seq<SuiteRule>, fullCore: SuiteRule, changedFiles: seq<string>)
    returns (selected: seq<SelectedSuite>)
    ensures changedFiles != [] ==> selected != []
    ensures (exists r :: r in rules && Wanted(matches, r, ToSet(changedFiles))) || changedFiles == [] ==>
              Selects(matches, rules, |rules|, changedFiles, selected)
    ensures (forall r :: r in rules ==> !Wanted(matches, r, ToSet(changedFiles))) && changedFiles != [] ==>
              selected == [SelectedSuite(fullCore, changedFiles)]
  {
    hide Selects, Wanted, Labels;
    selected := [];
    var seen: set<string> := {};
    NothingSelected(matches, rules, changedFiles);
    for k := 0 to |rules|
      invariant Selects(matches, rules, k, changedFiles, selected) && seen == Labels(selected)
    {
      var rule := rules[k];
      var matchingFiles := MatchingFiles(matches, rule, changedFiles);
      WantedIsMatched(matches, rule, changedFiles);
      if |matchingFiles| > 0 && rule.name !in seen {
        SelectsTake(matches, rules, k, changedFiles, selected);
        seen := seen + {rule.name};
        selected := selected + [SelectedSuite(rule, matchingFiles)];
      } else {
        SelectsSkip(matches, rules, k, changedFiles, selected);
      }
    }
    SomeSelected(matches, rules, changedFiles, selected);
    if |selected| == 0 && |changedFiles| > 0 {
      selected := selected + [SelectedSuite(fullCore, changedFiles)];
    }
  }

  lemma NothingSelected(matches: Matcher, rules: seq<SuiteRule>, files: seq<string>)
    ensures Selects(matches, rules, 0, files, []) && Labels([]) == {}
  {
  }

  lemma SomeSelected(matches: Matcher, rules: seq<SuiteRule>, files: seq<string>, s: seq<SelectedSuite>)
    requires Selects(matches, rules, |rules|, files, s)
    ensures s != [] <==> exists r :: r in rules && Wanted(matches, r, ToSet(files))
  {
    assert rules[..|rules|] == rules;
    if s != [] {
      var r := s[0].rule;
      WantedIsMatched(matches, r, files);
      assert r in rules;
    }
  }

  // ------------------------------------------------------------------
  // Both signals
  // ------------------------------------------------------------------

  const CONFIG_FILES := {"package.json", "bun.lock", "vite.config.ts", "svelte.config.js", "tsconfig.json",
                         "playwright.config.ts"}

  predicate IsConfig(file: string) { file in CONFIG_FILES || ".github/" <= file }

  predicate EndsWith(file: string, suffix: string) {
    |suffix| <= |file| && file[|file| - |suffix|..] == suffix
  }

  predicate IsTest(file: string) {
    "tests/" <= file && (EndsWith(file, ".test.ts") || EndsWith(file, ".spec.ts"))
  }

  /** The three kinds of test files the dependency graph can add, with the suite for each. */
  datatype Area = Area(folder: string, name: string, gate: int)

  const UNIT := Area("tests/unit/", "Affected Unit Tests (graph)", 1)
  const INTEGRATION := Area("tests/integration/", "Affected Integration Tests (graph)", 2)
  const E2E := Area("tests/e2e/", "Affected E2E Tests (graph)", 4)

  predicate InArea(area: Area, file: string) { IsTest(file) && area.folder <= file }

  /** The command line for a folder and its files. */
  type Runner = (string, seq<string>) -> string

  /** The affected test files of one area, in some order. */
  method AreaFiles(area: Area, affected: set<string>) returns (files: seq<string>)
    ensures forall f :: f in files <==> f in affected && InArea(area, f)
  {
    files := [];
    var rest := affected;
    while rest != {}
      invariant rest <= affected
      invariant forall f :: f in files <==> f in affected && f !in rest && InArea(area, f)
      decreases |rest|
    {
      var f :| f in rest;
      rest := rest - {f};
      if InArea(area, f) { files := files + [f]; }
    }
  }

  /** A suite whose label is not there yet is appended. */
  function AddSuite(suites: seq<SelectedSuite>, s: SelectedSuite): seq<SelectedSuite> {
    if s.rule.name in Labels(suites) then suites else suites + [s]
  }

  /** Some suite runs the file. */
  ghost predicate Covers(suites: seq<SelectedSuite>, file: string) {
    exists s :: s in suites && file in s.matchingFiles
  }

  /** The suites after the first `n` run none but affected tests. */
  predicate AddsOnly(suites: seq<SelectedSuite>, n: nat, affected: set<string>) {
    forall k, f :: n <= k < |suites| && f in suites[k].matchingFiles ==> f in affected && IsTest(f)
  }

  /** No label stands twice. */
  predicate DistinctLabels(suites: seq<SelectedSuite>) {
    forall i, j :: 0 <= i < j < |suites| ==> suites[i].rule.name != suites[j].rule.name
  }

  /** The graph's suite for one area: nothing earlier is lost, none but affected tests are added, and unless its label
      is taken every affected file of the area is covered. */
  method AddArea(runner: Runner, area: Area, affected: set<string>, suites: seq<SelectedSuite>)
    returns (more: seq<SelectedSuite>)
    ensures suites <= more && Labels(more) <= Labels(suites) + {area.name}
    ensures AddsOnly(more, |suites|, affected)
    ensures |more| <= |suites| + 1 && (DistinctLabels(suites) ==> DistinctLabels(more))
    ensures |more| > |suites| ==> more[|suites|].rule.name == area.name && more[|suites|].rule.gate == area.gate
    ensures area.name !in Labels(suites) ==> forall f :: f in affected && InArea(area, f) ==> Covers(more, f)
  {
    hide IsTest;
    var files := AreaFiles(area, affected);
    more := suites;
    if |files| > 0 {
      var s := SelectedSuite(SuiteRule([], runner(area.folder, files), area.name, area.gate), files);
      more := AddSuite(suites, s);
      LabelsSnoc(suites, s);
      if area.name !in Labels(suites) {
        assert s in more;
      }
    }
  }

  lemma StillCovers(suites: seq<SelectedSuite>, more: seq<SelectedSuite>, file: string)
    requires suites <= more && Covers(suites, file)
    ensures Covers(more, file)
  {
    var s :| s in suites && file in s.matchingFiles;
    var i :| 0 <= i < |suites| && suites[i] == s;
    assert more[i] == s;
  }

  /** Which files the second signal looks at, and when it is asked. */
  predicate AsksGraph(runAll: bool, changedFiles: seq<string>, fullCore: SuiteRule, selected: seq<SelectedSuite>) {
    !runAll && (forall f <- changedFiles :: !IsConfig(f)) && fullCore.name !in Labels(selected)
  }

  /** The added suites run none but tests that depend on the change. */
  ghost predicate DependentsOnly(importedBy: Adjacency, changed: set<string>, suites: seq<SelectedSuite>, n: nat) {
    forall s | LeastClosed(importedBy, changed, s) :: AddsOnly(suites, n, s)
  }

  /** Every test of the three areas that depends on the change runs. */
  ghost predicate DependentsCovered(importedBy: Adjacency, changed: set<string>, suites: seq<SelectedSuite>) {
    forall s, f, area | LeastClosed(importedBy, changed, s) && area in {UNIT, INTEGRATION, E2E} && f in s ::
      InArea(area, f) ==> Covers(suites, f)
  }

  /** The suites after the first `n` are the graph's, each for its gate. */
  predicate GraphSuites(suites: seq<SelectedSuite>, n: nat) {
    forall k :: n <= k < |suites| ==>
      (suites[k].rule.name, suites[k].rule.gate) in
        {("Affected Unit Tests (graph)", 1), ("Affected Integration Tests (graph)", 2),
         ("Affected E2E Tests (graph)", 4)}
  }

  /** The three areas one after the other. */
  method AddAreas(runner: Runner, affected: set<string>, suites: seq<SelectedSuite>) returns (more: seq<SelectedSuite>)
    ensures suites <= more && AddsOnly(more, |suites|, affected)
    ensures GraphSuites(more, |suites|) && (DistinctLabels(suites) ==> DistinctLabels(more))
    ensures {UNIT.name, INTEGRATION.name, E2E.name} !! Labels(suites) ==>
              forall f, area :: area in {UNIT, INTEGRATION, E2E} && f in affected && InArea(area, f) ==> Covers(more, f)
  {
    hide InArea, Covers, Labels;
    var unit := AddArea(runner, UNIT, affected, suites);
    var integration := AddArea(runner, INTEGRATION, affected, unit);
    more := AddArea(runner, E2E, affected, integration);
    NamesDiffer();
    if {UNIT.name, INTEGRATION.name, E2E.name} !! Labels(suites) {
      forall f, area | area in {UNIT, INTEGRATION, E2E} && f in affected && InArea(area, f) ensures Covers(more, f) {
        if area == UNIT { StillCovers(unit, integration, f); StillCovers(integration, more, f); }
        else if area == INTEGRATION { StillCovers(integration, more, f); }
      }
    }
  }

  lemma NamesDiffer()
    ensures UNIT.name != INTEGRATION.name && INTEGRATION.name != E2E.name && UNIT.name != E2E.name
  {
    assert |UNIT.name| == 27 && |INTEGRATION.name| == 34 && |E2E.name| == 26;
  }

  /** What the selector runs for a change.  Synthetic edges first, then the rules, and then, unless everything runs
      anyway, the tests that depend on the change: none of them in the three areas is missed. */
  method SelectForChange(matches: Matcher, edges: seq<SyntheticEdge>, rules: seq<SuiteRule>, fullCore: SuiteRule,
                         runner: Runner, importedBy: Adjacency, runAll: bool, changedFiles: seq<string>)
    returns (ghost expanded: set<string>, ghost selected: seq<SelectedSuite>, suites: seq<SelectedSuite>)
    ensures if runAll then expanded == ToSet(changedFiles)
            else LeastExpansion(matches, edges, ToSet(changedFiles), expanded)
    ensures (changedFiles != [] ==> suites != []) && DistinctLabels(suites)
    ensures selected <= suites && forall r :: r in rules && Wanted(matches, r, expanded) ==> r.name in Labels(selected)
    ensures !runAll && (forall f <- changedFiles :: !IsConfig(f)) && fullCore.name !in Labels(selected) &&
            {UNIT.name, INTEGRATION.name, E2E.name} !! Labels(selected) ==>
              DependentsCovered(importedBy, expanded, suites)
    ensures DependentsOnly(importedBy, expanded, suites, |selected|) && GraphSuites(suites, |selected|)
    ensures runAll || (exists f <- changedFiles :: IsConfig(f)) || fullCore.name in Labels(selected) ==>
              suites == selected
  {
    hide InArea, Covers, Wanted, Selects, LeastExpansion, LeastClosed;
    var expandedFiles := changedFiles;
    if !runAll { expandedFiles := ExpandSyntheticEdges(matches, edges, changedFiles); }
    expanded := ToSet(expandedFiles);
    suites := SelectSuites(matches, rules, fullCore, expandedFiles);
    selected := suites;
    SelectedDistinct(matches, rules, expandedFiles, selected);
    SelectedWanted(matches, rules, expandedFiles, selected);
    if !runAll && changedFiles != [] { ExpandedNotEmpty(matches, edges, changedFiles, expandedFiles); }
    if AsksGraph(runAll, changedFiles, fullCore, suites) {
      var affected := FindTransitiveDependents(expandedFiles, importedBy);
      suites := AddAreas(runner, affected, suites);
      forall s | LeastClosed(importedBy, expanded, s)
        ensures s == affected
      {
        LeastUnique(importedBy, expanded, s, affected);
      }
    }
  }

  lemma SelectedDistinct(matches: Matcher, rules: seq<SuiteRule>, files: seq<string>, s: seq<SelectedSuite>)
    ensures Selects(matches, rules, |rules|, files, s) || |s| <= 1 ==> DistinctLabels(s)
  {
  }

  lemma SelectedWanted(matches: Matcher, rules: seq<SuiteRule>, files: seq<string>, s: seq<SelectedSuite>)
    ensures Selects(matches, rules, |rules|, files, s) ==>
              forall r :: r in rules && Wanted(matches, r, ToSet(files)) ==> r.name in Labels(s)
  {
    assert rules[..|rules|] == rules;
  }

  lemma ExpandedNotEmpty(matches: Matcher, edges: seq<SyntheticEdge>, changedFiles: seq<string>, expanded: seq<string>)
    requires changedFiles != [] && LeastExpansion(matches, edges, ToSet(changedFiles), ToSet(expanded))
    ensures expanded != []
  {
    assert changedFiles[0] in ToSet(changedFiles);
  }

  // ------------------------------------------------------------------
  // With the program's own matcher
  // ------------------------------------------------------------------

  ghost function GlobMatcher(): Matcher {
    (file, pattern) => G.MatchesPattern(file, pattern) == Some(true)
  }

  /** Patterns on which the translation to a regular expression is the documented glob. */
  ghost predicate Documented(rule: SuiteRule) {
    forall p <- rule.patterns :: G.Plain(p) && !G.Clash(p)
  }

  /** With the translated patterns a rule wants its suite exactly when one of its globs matches a changed file. */
  lemma WantedIsGlob(rule: SuiteRule, files: set<string>)
    requires Documented(rule) && forall f <- files :: G.All(f, G.NotTerminator())
    ensures Wanted(GlobMatcher(), rule, files) <==> exists f, p :: f in files && p in rule.patterns && G.GlobMatch(p, f)
  {
    hide G.MatchesPattern, G.GlobMatch, G.Plain, G.Clash;
    forall f, p | f in files && p in rule.patterns ensures GlobMatcher()(f, p) == G.GlobMatch(p, f) {
      G.OneLineFilesMatchGlob(f, p);
    }
  }

  /** A larger change selects every rule-based suite a smaller one does. */
  lemma SelectionMonotone(matches: Matcher, edges: seq<SyntheticEdge>, rule: SuiteRule,
                          start1: set<string>, s1: set<string>, start2: set<string>, s2: set<string>)
    requires LeastExpansion(matches, edges, start1, s1) && LeastExpansion(matches, edges, start2, s2) &&
             start1 <= start2
    requires Wanted(matches, rule, s1)
    ensures Wanted(matches, rule, s2)
  {
    ExpansionMonotone(matches, edges, start1, s1, start2, s2);
  }
}
