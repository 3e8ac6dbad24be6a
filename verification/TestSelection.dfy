/** Test selection of scripts/test-smart.ts: the two-way dependency index, transitive dependents,
    synthetic edges and the choice of suites. */
module TestSelection {
  import opened Options
  import opened Sequences

  // ------------------------------------------------------------------
  // The dependency index
  // ------------------------------------------------------------------

  /** A scanned file with its imports after resolution; unresolved imports are `None`. */
  datatype ScannedFile = ScannedFile(path: string, imports: seq<Option<string>>)

  type Adjacency = map<string, set<string>>

  ghost predicate Linked(m: Adjacency, from: string, to: string) {
    from in m && to in m[from]
  }

  /** Each map is the converse of the other, and neither has an entry without a neighbour. */
  ghost predicate Converse(imports: Adjacency, importedBy: Adjacency) {
    && (forall a, b :: Linked(imports, a, b) <==> Linked(importedBy, b, a))
    && (forall a :: a in imports ==> imports[a] != {})
    && (forall a :: a in importedBy ==> importedBy[a] != {})
  }

  /** Some scan of file `a` resolved an import to `b`. */
  ghost predicate Imports(files: seq<ScannedFile>, a: string, b: string) {
    exists f :: f in files && f.path == a && Some(b) in f.imports && b != ""
  }

  function AddTo(m: Adjacency, from: string, to: string): Adjacency {
    m[from := (if from in m then m[from] else {}) + {to}]
  }

  lemma AddConverse(imports: Adjacency, importedBy: Adjacency, a: string, b: string)
    requires Converse(imports, importedBy)
    ensures Converse(AddTo(imports, a, b), AddTo(importedBy, b, a))
    ensures forall x, y :: Linked(AddTo(imports, a, b), x, y) <==> Linked(imports, x, y) || (x == a && y == b)
  {
    AddLinks(imports, a, b);
    AddLinks(importedBy, b, a);
    hide AddTo, Linked;
  }

  lemma AddLinks(m: Adjacency, a: string, b: string)
    ensures forall x, y :: Linked(AddTo(m, a, b), x, y) <==> Linked(m, x, y) || (x == a && y == b)
    ensures (forall x :: x in m ==> m[x] != {}) ==> forall x :: x in AddTo(m, a, b) ==> AddTo(m, a, b)[x] != {}
  {
    assert b in AddTo(m, a, b)[a];
  }

  class DependencyGraph {
    var imports: Adjacency
    var importedBy: Adjacency

    constructor ()
      ensures imports == map[] && importedBy == map[]
    {
      imports := map[];
      importedBy := map[];
    }

    /** One resolved import, entered in both maps. */
    method AddImport(relFile: string, resolved: string)
      requires Converse(imports, importedBy)
      modifies this
      ensures Converse(imports, importedBy)
      ensures forall x, y :: Linked(imports, x, y) <==> old(Linked(imports, x, y)) || (x == relFile && y == resolved)
    {
      hide Converse, Linked;
      AddConverse(imports, importedBy, relFile, resolved);
      imports := AddTo(imports, relFile, resolved);
      importedBy := AddTo(importedBy, resolved, relFile);
    }

    /** All imports of one file. */
    method AddFile(file: ScannedFile)
      requires Converse(imports, importedBy)
      modifies this
      ensures Converse(imports, importedBy)
      ensures forall x, y :: Linked(imports, x, y) <==>
                old(Linked(imports, x, y)) || (x == file.path && Some(y) in file.imports && y != "")
    {
      hide Converse, Linked;
      for i := 0 to |file.imports|
        invariant Converse(imports, importedBy)
        invariant forall x, y :: Linked(imports, x, y) <==>
                    old(Linked(imports, x, y)) || (x == file.path && Some(y) in file.imports[..i] && y != "")
      {
        var resolved := file.imports[i];
        assert file.imports[..i + 1] == file.imports[..i] + [resolved];
        if resolved.Some? && resolved.value != "" {
          AddImport(file.path, resolved.value);
        }
      }
      assert file.imports[..|file.imports|] == file.imports;
    }
  }

  /** `imports` holds exactly the resolved imports and `importedBy` is its converse. */
  method BuildDependencyGraph(files: seq<ScannedFile>) returns (graph: DependencyGraph)
    ensures fresh(graph) && Converse(graph.imports, graph.importedBy)
    ensures forall x, y :: Linked(graph.imports, x, y) <==> Imports(files, x, y)
    ensures forall x, y :: Linked(graph.importedBy, y, x) <==> Imports(files, x, y)
  {
    graph := new DependencyGraph();
    assert forall x, y :: !Linked(map[], x, y);
    for i := 0 to |files|
      invariant Converse(graph.imports, graph.importedBy)
      invariant forall x, y :: Linked(graph.imports, x, y) <==> Imports(files[..i], x, y)
    {
      ImportsSnoc(files[..i], files[i]);
      assert files[..i + 1] == files[..i] + [files[i]];
      graph.AddFile(files[i]);
    }
    assert files[..|files|] == files;
  }

  lemma ImportsSnoc(files: seq<ScannedFile>, file: ScannedFile)
    ensures forall x, y :: Imports(files + [file], x, y) <==>
              Imports(files, x, y) || (x == file.path && Some(y) in file.imports && y != "")
  {
    assert forall f :: f in files + [file] <==> f in files || f == file;
  }

  // ------------------------------------------------------------------
  // Transitive dependents
  // ------------------------------------------------------------------

  function ToSet(s: seq<string>): set<string> { set x | x in s }

  lemma ToSetConcat(s: seq<string>, t: seq<string>)
    ensures ToSet(s + t) == ToSet(s) + ToSet(t)
  {
    assert forall x :: x in s + t <==> x in s || x in t;
  }

  ghost predicate ClosedUnder(m: Adjacency, s: set<string>) {
    forall a, b :: a in s && Linked(m, a, b) ==> b in s
  }

  /** The least set that holds `start` and is closed under `m`. */
  ghost predicate LeastClosed(m: Adjacency, start: set<string>, s: set<string>) {
    && start <= s && ClosedUnder(m, s)
    && forall t :: start <= t && ClosedUnder(m, t) ==> s <= t
  }

  function Neighbours(m: Adjacency, a: string): set<string> { if a in m then m[a] else {} }

  function AllFiles(m: Adjacency): set<string> { set a, b | a in m && b in m[a] :: b }

  /** Everything the search has met is in every closed set, and what is marked has its neighbours met. */
  ghost predicate Searching(m: Adjacency, start: set<string>, queue: seq<string>, affected: set<string>) {
    && start <= affected + ToSet(queue)
    && (forall a, b :: a in affected && Linked(m, a, b) ==> b in affected + ToSet(queue))
    && (forall t :: start <= t && ClosedUnder(m, t) ==> affected + ToSet(queue) <= t)
    && affected + ToSet(queue) <= start + AllFiles(m)
  }

  lemma SearchSkip(m: Adjacency, start: set<string>, queue: seq<string>, affected: set<string>)
    requires queue != [] && Searching(m, start, queue, affected) && queue[0] in affected
    ensures Searching(m, start, queue[1..], affected)
  {
    assert affected + ToSet(queue) == affected + ToSet(queue[1..]) by { assert queue == [queue[0]] + queue[1..]; }
  }

  /** Any order of the neighbours that are not marked yet goes to the end of the queue. */
  lemma SearchVisit(m: Adjacency, start: set<string>, queue: seq<string>, affected: set<string>, more: seq<string>)
    requires queue != [] && Searching(m, start, queue, affected)
    requires ToSet(more) == Neighbours(m, queue[0]) - (affected + {queue[0]})
    ensures Searching(m, start, queue[1..] + more, affected + {queue[0]})
  {
    var seen := affected + ToSet(queue);
    var seen' := affected + {queue[0]} + ToSet(queue[1..] + more);
    assert seen' == seen + Neighbours(m, queue[0]) by {
      assert queue == [queue[0]] + queue[1..];
      assert forall x :: x in ToSet(queue[1..] + more) <==> x in queue[1..] || x in ToSet(more);
    }
    hide ToSet;
    forall t | start <= t && ClosedUnder(m, t) ensures seen' <= t {
      assert queue[0] in t by { assert queue[0] in seen by { QueuedIsMet(queue, affected); } }
      assert forall b :: b in Neighbours(m, queue[0]) ==> Linked(m, queue[0], b);
    }
    assert forall b :: b in Neighbours(m, queue[0]) ==> b in AllFiles(m);
  }

  lemma QueuedIsMet(queue: seq<string>, affected: set<string>)
    requires queue != []
    ensures queue[0] in affected + ToSet(queue)
  {
  }

  /** The least set of files that holds the changed ones and every importer of a member. */
  method FindTransitiveDependents(changedFiles: seq<string>, importedBy: Adjacency) returns (affected: set<string>)
    ensures LeastClosed(importedBy, ToSet(changedFiles), affected)
  {
    hide Searching, LeastClosed, Neighbours, AllFiles;
    affected := {};
    var queue := changedFiles;
    ghost var start := ToSet(changedFiles);
    SearchStarts(importedBy, changedFiles);
    ghost var universe := start + AllFiles(importedBy);
    while |queue| > 0
      invariant Searching(importedBy, start, queue, affected)
      decreases |universe - affected|, |queue|
    {
      var current := queue[0];
      if current in affected {
        SearchSkip(importedBy, start, queue, affected);
        queue := queue[1..];
        continue;
      }
      var more := Unmarked(Neighbours(importedBy, current), affected + {current});
      SearchVisit(importedBy, start, queue, affected, more);
      SearchBound(importedBy, start, queue, affected);
      assert universe - affected == (universe - (affected + {current})) + {current};
      affected := affected + {current};
      queue := queue[1..] + more;
    }
    SearchEnds(importedBy, start, affected);
  }

  lemma SearchStarts(m: Adjacency, queue: seq<string>)
    ensures Searching(m, ToSet(queue), queue, {})
  {
  }

  lemma SearchBound(m: Adjacency, start: set<string>, queue: seq<string>, affected: set<string>)
    requires queue != [] && Searching(m, start, queue, affected)
    ensures queue[0] in start + AllFiles(m)
  {
    hide AllFiles;
    QueuedIsMet(queue, affected);
  }

  /** An empty queue: what was met is closed, and least. */
  lemma SearchEnds(m: Adjacency, start: set<string>, affected: set<string>)
    requires Searching(m, start, [], affected)
    ensures LeastClosed(m, start, affected)
  {
    assert affected + ToSet([]) == affected;
    assert ClosedUnder(m, affected);
  }

  /** The loop over a set's members that pushes those not marked yet. */
  method Unmarked(dependents: set<string>, marked: set<string>) returns (more: seq<string>)
    ensures ToSet(more) == dependents - marked
  {
    more := [];
    var rest := dependents;
    while rest != {}
      invariant rest <= dependents && ToSet(more) == (dependents - rest) - marked
      decreases |rest|
    {
      var dep :| dep in rest;
      rest := rest - {dep};
      if dep !in marked {
        ToSetConcat(more, [dep]);
        more := more + [dep];
      }
    }
  }

  lemma LeastUnique(m: Adjacency, start: set<string>, s: set<string>, t: set<string>)
    requires LeastClosed(m, start, s) && LeastClosed(m, start, t)
    ensures s == t
  {
  }

  /** Dependents of a union are the union of the dependents, so changes can be analysed one by one. */
  lemma DependentsDistribute(m: Adjacency, start1: set<string>, start2: set<string>,
                             s1: set<string>, s2: set<string>, s: set<string>)
    requires LeastClosed(m, start1, s1) && LeastClosed(m, start2, s2) && LeastClosed(m, start1 + start2, s)
    ensures s == s1 + s2
  {
    assert ClosedUnder(m, s1 + s2);
    assert start1 <= s && start2 <= s;
  }

  // ------------------------------------------------------------------
  // Synthetic edges
  // ------------------------------------------------------------------

  datatype SyntheticEdge = SyntheticEdge(trigger: seq<string>, alsoTouched: seq<string>)

  /** `matchesPattern(file, pattern)` */
  type Matcher = (string, string) -> bool

  predicate MatchesAny(matches: Matcher, file: string, patterns: seq<string>) {
    exists p :: p in patterns && matches(file, p)
  }

  predicate Triggered(matches: Matcher, edge: SyntheticEdge, files: set<string>) {
    exists f :: f in files && MatchesAny(matches, f, edge.trigger)
  }

  ghost predicate ClosedUnderEdges(matches: Matcher, edges: seq<SyntheticEdge>, s: set<string>) {
    forall e :: e in edges && Triggered(matches, e, s) ==> ToSet(e.alsoTouched) <= s
  }

  /** The least superset of `start` that every triggered edge leaves alone. */
  ghost predicate LeastExpansion(matches: Matcher, edges: seq<SyntheticEdge>, start: set<string>, s: set<string>) {
    && start <= s && ClosedUnderEdges(matches, edges, s)
    && forall t :: start <= t && ClosedUnderEdges(matches, edges, t) ==> s <= t
  }

  /** Insert into an insertion-ordered set, kept as a list without repetitions. */
  function Add(s: seq<string>, x: string): seq<string> {
    if x in s then s else s + [x]
  }

  function AddAll(s: seq<string>, xs: seq<string>): seq<string>
    decreases xs
  {
    if xs == [] then s else AddAll(Add(s, xs[0]), xs[1..])
  }

  lemma AddAdds(s: seq<string>, x: string)
    requires Distinct(s)
    ensures Distinct(Add(s, x)) && s <= Add(s, x)
    ensures ToSet(Add(s, x)) == ToSet(s) + {x}
  {
    ToSetConcat(s, [x]);
  }

  lemma {:induction false} AddAllAdds(s: seq<string>, xs: seq<string>)
    requires Distinct(s)
    ensures Distinct(AddAll(s, xs)) && s <= AddAll(s, xs)
    ensures ToSet(AddAll(s, xs)) == ToSet(s) + ToSet(xs)
    decreases xs
  {
    if xs != [] {
      hide Distinct, ToSet, Add;
      AddAdds(s, xs[0]);
      AddAllAdds(Add(s, xs[0]), xs[1..]);
      ToSetConcat([xs[0]], xs[1..]);
      assert xs == [xs[0]] + xs[1..];
      assert ToSet([xs[0]]) == {xs[0]} by { SingleSet(xs[0]); }
    }
  }

  lemma SingleSet(x: string)
    ensures ToSet([x]) == {x}
  {
  }

  lemma {:induction false} DistinctSize(s: seq<string>)
    requires Distinct(s)
    ensures |ToSet(s)| == |s|
  {
    if s != [] {
      DistinctSize(s[1..]);
      assert s == [s[0]] + s[1..];
      ToSetConcat([s[0]], s[1..]);
      SingleSet(s[0]);
      assert s[0] !in ToSet(s[1..]);
    }
  }

  lemma SizeBound(s: seq<string>, all: set<string>)
    requires Distinct(s) && ToSet(s) <= all
    ensures |s| <= |all|
  {
    DistinctSize(s);
    assert all == ToSet(s) + (all - ToSet(s));
  }

  /** One round: every edge triggered by the files at the start of the round adds its files. */
  method ExpandRound(matches: Matcher, edges: seq<SyntheticEdge>, current: seq<string>) returns (expanded: seq<string>)
    requires Distinct(current)
    ensures Distinct(expanded) && current <= expanded
    ensures forall e :: e in edges && Triggered(matches, e, ToSet(current)) ==> ToSet(e.alsoTouched) <= ToSet(expanded)
    ensures forall t :: ToSet(current) <= t && ClosedUnderEdges(matches, edges, t) ==> ToSet(expanded) <= t
  {
    expanded := current;
    for i := 0 to |edges|
      invariant Distinct(expanded) && current <= expanded
      invariant forall e :: e in edges[..i] && Triggered(matches, e, ToSet(current)) ==>
                ToSet(e.alsoTouched) <= ToSet(expanded)
      invariant forall t :: ToSet(current) <= t && ClosedUnderEdges(matches, edges, t) ==> ToSet(expanded) <= t
    {
      var edge := edges[i];
      assert edges[..i + 1] == edges[..i] + [edge];
      if Triggered(matches, edge, ToSet(current)) {
        AddAllAdds(expanded, edge.alsoTouched);
        forall t | ToSet(current) <= t && ClosedUnderEdges(matches, edges, t) ensures ToSet(edge.alsoTouched) <= t {
          TriggeredGrows(matches, edge, ToSet(current), t);
        }
        expanded := AddAll(expanded, edge.alsoTouched);
      }
    }
    assert edges[..|edges|] == edges;
  }

  lemma TriggeredGrows(matches: Matcher, edge: SyntheticEdge, s: set<string>, t: set<string>)
    requires s <= t && Triggered(matches, edge, s)
    ensures Triggered(matches, edge, t)
  {
  }

  function AllTouched(edges: seq<SyntheticEdge>): set<string> {
    set e, f | e in edges && f in e.alsoTouched :: f
  }

  /** The fixed point: the least superset closed under the trigger rules, without repetitions, the
      changed files first and in their order. */
  method ExpandSyntheticEdges(matches: Matcher, edges: seq<SyntheticEdge>, changedFiles: seq<string>)
    returns (result: seq<string>)
    ensures LeastExpansion(matches, edges, ToSet(changedFiles), ToSet(result))
    ensures Distinct(result) && AddAll([], changedFiles) <= result
  {
    hide Distinct, ToSet, ClosedUnderEdges, AllTouched;
    ghost var start := ToSet(changedFiles);
    ghost var all := start + AllTouched(edges);
    AllTouchedClosed(matches, edges, start);
    StartExpansion(changedFiles);
    var expanded := AddAll([], changedFiles);
    SizeBound(expanded, all);
    var sizeBefore := -1;
    while |expanded| > sizeBefore
      invariant Distinct(expanded) && AddAll([], changedFiles) <= expanded
      invariant start <= ToSet(expanded)
      invariant forall t :: start <= t && ClosedUnderEdges(matches, edges, t) ==> ToSet(expanded) <= t
      invariant |expanded| <= sizeBefore ==> ClosedUnderEdges(matches, edges, ToSet(expanded))
      invariant |expanded| <= |all|
      decreases |all| - |expanded|, |expanded| - sizeBefore
    {
      sizeBefore := |expanded|;
      var current := expanded;
      expanded := ExpandRound(matches, edges, current);
      SizeBound(expanded, all);
      PrefixGrows(current, expanded);
      if |expanded| == |current| { RoundIsClosed(matches, edges, expanded); }
    }
    result := expanded;
  }

  lemma AllTouchedClosed(matches: Matcher, edges: seq<SyntheticEdge>, start: set<string>)
    ensures ClosedUnderEdges(matches, edges, start + AllTouched(edges))
  {
  }

  lemma StartExpansion(changedFiles: seq<string>)
    ensures Distinct(AddAll([], changedFiles)) && ToSet(AddAll([], changedFiles)) == ToSet(changedFiles)
  {
    AddAllAdds([], changedFiles);
  }

  lemma PrefixGrows(s: seq<string>, t: seq<string>)
    requires s <= t
    ensures ToSet(s) <= ToSet(t)
    ensures |s| == |t| ==> s == t
  {
  }

  lemma RoundIsClosed(matches: Matcher, edges: seq<SyntheticEdge>, s: seq<string>)
    requires forall e :: e in edges && Triggered(matches, e, ToSet(s)) ==> ToSet(e.alsoTouched) <= ToSet(s)
    ensures ClosedUnderEdges(matches, edges, ToSet(s))
  {
  }

  lemma ExpansionUnique(matches: Matcher, edges: seq<SyntheticEdge>, start: set<string>, s: set<string>, t: set<string>)
    requires LeastExpansion(matches, edges, start, s) && LeastExpansion(matches, edges, start, t)
    ensures s == t
  {
  }

  /** More changes never expand to less. */
  lemma ExpansionMonotone(matches: Matcher, edges: seq<SyntheticEdge>,
                          start1: set<string>, s1: set<string>, start2: set<string>, s2: set<string>)
    requires LeastExpansion(matches, edges, start1, s1) && LeastExpansion(matches, edges, start2, s2) &&
             start1 <= start2
    ensures s1 <= s2
  {
  }

  /** Expanding an expansion changes nothing. */
  lemma ExpansionIdempotent(matches: Matcher, edges: seq<SyntheticEdge>, start: set<string>, s: set<string>,
                            t: set<string>)
    requires LeastExpansion(matches, edges, start, s) && LeastExpansion(matches, edges, s, t)
    ensures t == s
  {
  }
}
