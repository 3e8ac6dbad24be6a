/** What the depth-limited navigation tree shows, and when it agrees with the full tree. */
module NavigationLaws {
  import opened Options
  import opened StableSort
  import opened ContentTree
  import opened NavigationTree

  // ------------------------------------------------------------------
  // Ids of a forest
  // ------------------------------------------------------------------

  /** Every id of a forest, with the number of times it occurs. */
  ghost function ShapeIds(f: seq<Shape>): multiset<string> {
    if f == [] then multiset{} else IdsInside(f[0]) + ShapeIds(f[1..])
  }

  ghost function IdsInside(s: Shape): multiset<string> {
    multiset{s.id} + ShapeIds(s.children)
  }

  ghost function NavIds(f: seq<NavNode>): multiset<string> { ShapeIds(Shapes(f)) }

  lemma {:induction false} InsertIds(names: NameOrder, s: Shape, f: seq<Shape>)
    ensures ShapeIds(Insert(names, ShapeKey, s, f)) == IdsInside(s) + ShapeIds(f)
  {
    hide IdsInside;
    if f == [] || Leq(names, ShapeKey(s), ShapeKey(f[0])) {
      assert ([s] + f)[1..] == f;
    } else {
      InsertIds(names, s, f[1..]);
      var rest := Insert(names, ShapeKey, s, f[1..]);
      assert ([f[0]] + rest)[1..] == rest;
    }
  }

  lemma {:induction false} SortIds(names: NameOrder, f: seq<Shape>)
    ensures ShapeIds(Sort(names, ShapeKey, f)) == ShapeIds(f)
  {
    hide IdsInside;
    if f != [] {
      SortIds(names, f[1..]);
      InsertIds(names, f[0], Sort(names, ShapeKey, f[1..]));
    }
  }

  lemma SortShapesIds(names: NameOrder, f: seq<Shape>)
    ensures ShapeIds(SortShapes(names, f)) == ShapeIds(f)
    decreases f, 1
  {
    SortBelowIds(names, f);
    SortIds(names, SortBelow(names, f));
  }

  lemma SortBelowIds(names: NameOrder, f: seq<Shape>)
    ensures ShapeIds(SortBelow(names, f)) == ShapeIds(f)
    decreases f, 0
  {
    if f != [] {
      SortShapesIds(names, f[0].children);
      SortBelowIds(names, f[1..]);
      assert SortBelow(names, f)[1..] == SortBelow(names, f[1..]);
    }
  }

  ghost predicate Stored(nodes: seq<Node>, f: seq<Tree>) {
    forall m :: m in Occurrences(f) ==> m in nodes
  }

  lemma StoredParts(nodes: seq<Node>, f: seq<Tree>)
    requires f != [] && Stored(nodes, f)
    ensures f[0].node in nodes && Stored(nodes, f[0].children) && Stored(nodes, f[1..])
  {
    assert Occurrences(f) == multiset{f[0].node} + Occurrences(f[0].children) + Occurrences(f[1..]);
  }

  lemma TreeShapesStep(f: seq<Tree>)
    requires f != []
    ensures ShapeIds(TreeShapes(f)) ==
            multiset{f[0].node.id} + ShapeIds(TreeShapes(f[0].children)) + ShapeIds(TreeShapes(f[1..]))
  {
    assert TreeShapes(f)[1..] == TreeShapes(f[1..]);
  }

  lemma OccurrencesStep(f: seq<Tree>)
    requires f != []
    ensures Occurrences(f) == multiset{f[0].node} + Occurrences(f[0].children) + Occurrences(f[1..])
  {
  }

  lemma NoIds()
    ensures ShapeIds(TreeShapes([])) == multiset{} && Occurrences([]) == multiset{}
  {
  }

  /** Ids of the shapes are ids of the nodes, occurrence by occurrence. */
  lemma {:induction false} TreeIds(nodes: seq<Node>, f: seq<Tree>, n: Node)
    requires UniqueIds(nodes) && n in nodes && Stored(nodes, f)
    ensures ShapeIds(TreeShapes(f))[n.id] == Occurrences(f)[n]
  {
    hide *;
    if f == [] {
      NoIds();
    } else {
      StoredParts(nodes, f);
      TreeIds(nodes, f[0].children, n);
      TreeIds(nodes, f[1..], n);
      if f[0].node.id == n.id { SameNode(nodes, f[0].node, n); }
      TreeShapesStep(f);
      OccurrencesStep(f);
    }
  }

  lemma EmptyChain(rule: Rule, nodes: seq<Node>)
    ensures Chain(rule, nodes, [])
  {
  }

  lemma UnfoldStored(rule: Rule, nodes: seq<Node>, m: Node)
    requires UniqueIds(nodes)
    ensures m in Occurrences(Unfold(rule, nodes, [])) <==> Shown(rule, nodes, m)
    ensures Shown(rule, nodes, m) ==> m in nodes
  {
    OccurrencesUnfold(rule, nodes, [], m);
    if Shown(rule, nodes, m) { ShownIsStored(rule, nodes, m); }
  }

  /** The navigation tree shows a node, and then once, exactly when walking up from it reaches a root
      and every ancestor is above the depth limit or expanded. */
  lemma ProgressiveShows(names: NameOrder, rule: Rule, nodes: seq<Node>, index: Index, n: Node)
    requires rule.Progressive? && UniqueIds(nodes) && IsIndex(rule, nodes, index) && n in nodes
    ensures NavIds(ProgressiveTree(names, rule, nodes, index))[n.id] == Bit(Shown(rule, nodes, n))
  {
    hide UniqueIds, IsIndex, Chain, BuildTree, Unfold, Shapes, SortShapes, TreeShapes, ShapeIds, Occurrences, Leads;
    EmptyChain(rule, nodes);
    BuildTreeShape(names, rule, index, nodes, []);
    SortShapesIds(names, TreeShapes(Unfold(rule, nodes, [])));
    forall m | m in Occurrences(Unfold(rule, nodes, [])) ensures m in nodes { UnfoldStored(rule, nodes, m); }
    TreeIds(nodes, Unfold(rule, nodes, []), n);
    OccurrencesUnfold(rule, nodes, [], n);
  }

  // ------------------------------------------------------------------
  // hasChildren
  // ------------------------------------------------------------------

  ghost predicate HasKids(rule: Rule, nodes: seq<Node>, id: string) {
    exists m :: m in nodes && Parent(rule, nodes, m) == Some(id)
  }

  /** At every level: children are loaded by the rule of the level, and `hasChildren` says that there
      are some which were not loaded. */
  ghost predicate ExactLevels(rule: Rule, nodes: seq<Node>, depth: nat, f: seq<NavNode>)
    decreases f
  {
    forall n :: n in f ==> ExactNode(rule, nodes, depth, n)
  }

  ghost predicate ExactNode(rule: Rule, nodes: seq<Node>, depth: nat, n: NavNode)
    decreases n
  {
    && (n.children.Present? <==> Loads(rule, depth, n.id))
    && n.hasChildren == Some(HasKids(rule, nodes, n.id) && n.children.Absent?)
    && (n.children.Present? ==> ExactLevels(rule, nodes, depth + 1, n.children.list))
  }

  lemma SortMembers<T>(names: NameOrder, key: T -> Key, s: seq<T>, x: T)
    ensures x in Sort(names, key, s) <==> x in s
  {
    if s != [] {
      SortMembers(names, key, s[1..], x);
      InsertMembers(names, key, s[0], Sort(names, key, s[1..]), x);
      assert s == [s[0]] + s[1..];
    }
  }

  lemma InsertMembers<T>(names: NameOrder, key: T -> Key, y: T, s: seq<T>, x: T)
    ensures x in Insert(names, key, y, s) <==> x == y || x in s
  {
  }

  lemma BuildTreeExact(names: NameOrder, rule: Rule, index: Index, nodes: seq<Node>, chain: seq<Node>)
    requires rule.Progressive? && UniqueIds(nodes) && IsIndex(rule, nodes, index) && Chain(rule, nodes, chain)
    ensures ExactLevels(rule, nodes, |chain| + 1, BuildTree(names, rule, index, Tip(chain), |chain|, nodes, chain))
    decreases |nodes| - |chain|, 1, 0
  {
    hide Chain, UniqueIds, IsIndex, BuildEach, ExactNode, Sort;
    var ks := Kids(rule, nodes, nodes, Tip(chain));
    IndexedKids(rule, nodes, index, Tip(chain));
    var f := BuildEach(names, rule, index, Tip(chain), |chain|, ks, nodes, chain);
    BuildEachExact(names, rule, index, nodes, chain, ks);
    forall n | n in Sort(names, NavKey, f) ensures ExactNode(rule, nodes, |chain| + 1, n) {
      SortMembers(names, NavKey, f, n);
    }
  }

  lemma BuildEachExact(names: NameOrder, rule: Rule, index: Index, nodes: seq<Node>, chain: seq<Node>, ks: seq<Node>)
    requires rule.Progressive? && UniqueIds(nodes) && IsIndex(rule, nodes, index)
    requires Chain(rule, nodes, chain) && AreKids(rule, nodes, chain, ks)
    ensures ExactLevels(rule, nodes, |chain| + 1, BuildEach(names, rule, index, Tip(chain), |chain|, ks, nodes, chain))
    decreases |nodes| - |chain|, 0, |ks|
  {
    hide Chain, UniqueIds, IsIndex, BuildOne, ExactNode;
    if ks != [] {
      BuildOneExact(names, rule, index, nodes, chain, ks[0]);
      BuildEachExact(names, rule, index, nodes, chain, ks[1..]);
    }
  }

  lemma BuildOneExact(names: NameOrder, rule: Rule, index: Index, nodes: seq<Node>, chain: seq<Node>, k: Node)
    requires rule.Progressive? && UniqueIds(nodes) && IsIndex(rule, nodes, index)
    requires Chain(rule, nodes, chain) && k in nodes && Parent(rule, nodes, k) == Tip(chain)
    ensures ExactNode(rule, nodes, |chain| + 1, BuildOne(names, rule, index, Tip(chain), |chain|, k, nodes, chain))
    decreases |nodes| - |chain|, 0, 0
  {
    hide Chain, UniqueIds, IsIndex, BuildTree, ExactLevels, Parent, Loads, HasKids, Kids, AreKids;
    var longer := chain + [k];
    ChainExtend(rule, nodes, chain, k);
    ChainBounded(rule, nodes, longer);
    IndexedKids(rule, nodes, index, Some(k.id));
    HasKidsIndexed(rule, nodes, k.id);
    if Loads(rule, |chain| + 1, k.id) { BuildTreeExact(names, rule, index, nodes, longer); }
  }

  lemma HasKidsIndexed(rule: Rule, nodes: seq<Node>, id: string)
    ensures HasKids(rule, nodes, id) <==> Kids(rule, nodes, nodes, Some(id)) != []
  {
    var ks := Kids(rule, nodes, nodes, Some(id));
    if ks != [] { assert ks[0] in ks; }
  }

  /** Every node of the navigation tree loads its children by depth and expansion, and its
      `hasChildren` is set exactly when it has children that were not loaded. */
  lemma ProgressiveHasChildren(names: NameOrder, rule: Rule, nodes: seq<Node>, index: Index)
    requires rule.Progressive? && UniqueIds(nodes) && IsIndex(rule, nodes, index)
    ensures ExactLevels(rule, nodes, 1, ProgressiveTree(names, rule, nodes, index))
  {
    BuildTreeExact(names, rule, index, nodes, []);
  }

  // ------------------------------------------------------------------
  // Agreement with the full tree
  // ------------------------------------------------------------------

  /** Every parent the store names is in the store, except that "null" names no parent and no node. */
  ghost predicate ParentsResolve(nodes: seq<Node>) {
    forall n :: n in nodes && n.parentId.Some? && n.parentId.value != "" ==>
      if n.parentId.value == "null" then "null" !in Ids(nodes) else n.parentId.value in Ids(nodes)
  }

  /** Depth limit and expansion stop short of no children. */
  ghost predicate Covers(rule: Rule, nodes: seq<Node>) {
    forall q: seq<Node> :: Chain(rule, nodes, q) && q != [] ==>
      Loads(rule, |q|, q[|q| - 1].id) || Kids(rule, nodes, nodes, Tip(q)) == []
  }

  /** A depth limit no smaller than the height of the tree covers it. */
  lemma HeightCovers(rule: Rule, nodes: seq<Node>)
    requires rule.Progressive? && forall q :: Chain(rule, nodes, q) ==> |q| <= rule.maxDepth
    ensures Covers(rule, nodes)
  {
    forall q: seq<Node> | Chain(rule, nodes, q) && q != []
      ensures Loads(rule, |q|, q[|q| - 1].id) || Kids(rule, nodes, nodes, Tip(q)) == []
    {
      var ks := Kids(rule, nodes, nodes, Tip(q));
      if ks != [] {
        assert ks[0] in ks;
        ChainExtend(rule, nodes, q, ks[0]);
        assert |q + [ks[0]]| == |q| + 1;
      }
    }
  }

  /** So does expanding every id. */
  lemma ExpandedCovers(rule: Rule, nodes: seq<Node>)
    requires rule.Progressive? && Ids(nodes) <= rule.expanded
    ensures Covers(rule, nodes)
  {
  }

  ghost predicate SameParents(rule: Rule, nodes: seq<Node>) {
    forall n :: n in nodes ==> Parent(rule, nodes, n) == Parent(Full, nodes, n)
  }

  lemma ResolvedParents(rule: Rule, nodes: seq<Node>)
    requires rule.Progressive?
    ensures ParentsResolve(nodes) <==>
            forall n :: n in nodes ==> (Parent(rule, nodes, n).None? <==> Parent(Full, nodes, n).None?)
    ensures ParentsResolve(nodes) ==> SameParents(rule, nodes)
  {
  }

  lemma {:induction false} SameKids(rule: Rule, nodes: seq<Node>, from: seq<Node>, p: Option<string>)
    requires SameParents(rule, nodes) && forall k :: k in from ==> k in nodes
    ensures Kids(rule, nodes, from, p) == Kids(Full, nodes, from, p)
  {
    hide Parent;
    if from != [] { SameKids(rule, nodes, from[1..], p); }
  }

  lemma SameUnfold(rule: Rule, nodes: seq<Node>, chain: seq<Node>)
    requires SameParents(rule, nodes) && Covers(rule, nodes)
    requires UniqueIds(nodes) && Chain(rule, nodes, chain) && Chain(Full, nodes, chain)
    ensures Unfold(rule, nodes, chain) == Unfold(Full, nodes, chain)
    decreases |nodes| - |chain|, 1, 0
  {
    hide UniqueIds, Chain, Parent, Covers, UnfoldEach;
    SameKids(rule, nodes, nodes, Tip(chain));
    SameUnfoldEach(rule, nodes, chain, Kids(rule, nodes, nodes, Tip(chain)));
  }

  lemma SameUnfoldEach(rule: Rule, nodes: seq<Node>, chain: seq<Node>, ks: seq<Node>)
    requires SameParents(rule, nodes) && Covers(rule, nodes)
    requires UniqueIds(nodes) && Chain(rule, nodes, chain) && Chain(Full, nodes, chain)
    requires AreKids(rule, nodes, chain, ks) && AreKids(Full, nodes, chain, ks)
    ensures UnfoldEach(rule, nodes, chain, ks) == UnfoldEach(Full, nodes, chain, ks)
    decreases |nodes| - |chain|, 0, |ks|
  {
    hide UniqueIds, Chain, Parent, Covers, Below, SameParents;
    if ks != [] {
      SameBelow(rule, nodes, chain, ks[0]);
      SameUnfoldEach(rule, nodes, chain, ks[1..]);
    }
  }

  lemma SameBelow(rule: Rule, nodes: seq<Node>, chain: seq<Node>, k: Node)
    requires SameParents(rule, nodes) && Covers(rule, nodes)
    requires UniqueIds(nodes) && Chain(rule, nodes, chain) && Chain(Full, nodes, chain) && k in nodes
    requires Parent(rule, nodes, k) == Tip(chain) && Parent(Full, nodes, k) == Tip(chain)
    ensures Below(rule, nodes, chain, k) == Below(Full, nodes, chain, k)
    decreases |nodes| - |chain|, 0, 0
  {
    hide UniqueIds, Chain, Parent, SameParents;
    var longer := chain + [k];
    ChainExtend(rule, nodes, chain, k);
    ChainExtend(Full, nodes, chain, k);
    ChainBounded(rule, nodes, longer);
    SameUnfold(rule, nodes, longer);
    assert Loads(rule, |longer|, k.id) || Kids(rule, nodes, nodes, Tip(longer)) == [];
  }

  // ------------------------------------------------------------------
  // Roots
  // ------------------------------------------------------------------

  ghost predicate RootId(f: seq<Shape>, id: string) {
    exists s :: s in f && s.id == id
  }

  lemma SortRootIds(names: NameOrder, f: seq<Shape>, id: string)
    ensures RootId(SortShapes(names, f), id) <==> RootId(f, id)
  {
    SortBelowRootIds(names, f, id);
    forall s ensures s in SortShapes(names, f) <==> s in SortBelow(names, f) {
      SortMembers(names, ShapeKey, SortBelow(names, f), s);
    }
  }

  lemma {:induction false} SortBelowRootIds(names: NameOrder, f: seq<Shape>, id: string)
    ensures RootId(SortBelow(names, f), id) <==> RootId(f, id)
  {
    hide SortShapes;
    if f != [] {
      SortBelowRootIds(names, f[1..], id);
      RootIdCons(f[0], f[1..], id);
      RootIdCons(SortInside(names, f[0]), SortBelow(names, f[1..]), id);
      assert f == [f[0]] + f[1..];
    }
  }

  lemma RootIdCons(s: Shape, f: seq<Shape>, id: string)
    ensures RootId([s] + f, id) <==> s.id == id || RootId(f, id)
  {
  }

  lemma UnfoldRootIds(rule: Rule, nodes: seq<Node>, chain: seq<Node>, ks: seq<Node>, id: string)
    requires UniqueIds(nodes) && Chain(rule, nodes, chain) && AreKids(rule, nodes, chain, ks)
    ensures RootId(TreeShapes(UnfoldEach(rule, nodes, chain, ks)), id) <==> exists k :: k in ks && k.id == id
    decreases |ks|
  {
    hide UniqueIds, Chain, Below, RootId;
    if ks == [] {
      assert !RootId([], id) by { NoRootId(id); }
    } else {
      UnfoldRootIds(rule, nodes, chain, ks[1..], id);
      var f := UnfoldEach(rule, nodes, chain, ks);
      assert f[1..] == UnfoldEach(rule, nodes, chain, ks[1..]);
      RootIdCons(TreeShape(f[0]), TreeShapes(f[1..]), id);
      assert ks == [ks[0]] + ks[1..];
    }
  }

  lemma NoRootId(id: string)
    ensures !RootId([], id)
  {
  }

  /** The roots of a tree are the nodes without a parent under its rule. */
  lemma RootsOf(names: NameOrder, rule: Rule, nodes: seq<Node>, n: Node)
    requires UniqueIds(nodes) && n in nodes
    ensures RootId(SortShapes(names, TreeShapes(Unfold(rule, nodes, []))), n.id) <==> Parent(rule, nodes, n).None?
  {
    hide Chain, UniqueIds, RootId, TreeShapes, SortShapes, Parent, UnfoldEach;
    EmptyChain(rule, nodes);
    var ks := Kids(rule, nodes, nodes, None);
    SortRootIds(names, TreeShapes(Unfold(rule, nodes, [])), n.id);
    UnfoldRootIds(rule, nodes, [], ks, n.id);
    if k :| k in ks && k.id == n.id { SameNode(nodes, k, n); }
    assert Tip([]) == None;
  }

  /** The navigation tree, when it stops short of nothing, is the stripped full tree with every sibling
      list stably sorted, if and only if every named parent resolves. */
  lemma ProgressiveAgreesWithFull(names: NameOrder, rule: Rule, nodes: seq<Node>, index: Index)
    requires rule.Progressive? && UniqueIds(nodes) && IsIndex(rule, nodes, index) && Covers(rule, nodes)
    ensures Shapes(ProgressiveTree(names, rule, nodes, index)) == SortShapes(names, Shapes(Strip(FullForest(nodes))))
            <==> ParentsResolve(nodes)
  {
    hide UniqueIds, IsIndex, Chain, Covers, BuildTree, Unfold, Shapes, SortShapes, TreeShapes, Strip,
         ParentsResolve, SameParents, Parent, RootId;
    EmptyChain(rule, nodes);
    EmptyChain(Full, nodes);
    BuildTreeShape(names, rule, index, nodes, []);
    StripShapes(FullForest(nodes));
    ResolvedParents(rule, nodes);
    if ParentsResolve(nodes) {
      SameUnfold(rule, nodes, []);
    } else {
      var n :| n in nodes && !(Parent(rule, nodes, n).None? <==> Parent(Full, nodes, n).None?);
      RootsOf(names, rule, nodes, n);
      RootsOf(names, Full, nodes, n);
    }
  }

  /** A node whose parent is not stored is the root of the full tree and missing from the navigation tree. */
  lemma OrphanDisagrees(names: NameOrder, index: Index, display: Display)
    requires IsIndex(FIVE_DEEP, Orphan(display), index)
    ensures UniqueIds(Orphan(display)) && Covers(FIVE_DEEP, Orphan(display))
    ensures Disagree(names, FIVE_DEEP, Orphan(display), index)
  {
    hide IsIndex, Chain, Covers;
    FiveCover(Orphan(display));
    var n := Orphan(display)[0];
    assert n in Orphan(display) && n.parentId.value !in Ids(Orphan(display));
    ProgressiveAgreesWithFull(names, FIVE_DEEP, Orphan(display), index);
  }

  /** A node under a node with the id `null` is below it in the full tree and a root of the navigation tree. */
  lemma NullParentDisagrees(names: NameOrder, index: Index, display: Display)
    requires IsIndex(FIVE_DEEP, UnderNull(display), index)
    ensures UniqueIds(UnderNull(display)) && Covers(FIVE_DEEP, UnderNull(display))
    ensures Disagree(names, FIVE_DEEP, UnderNull(display), index)
  {
    hide IsIndex, Chain, Covers;
    assert "null"[0] != "a"[0];
    FiveCover(UnderNull(display));
    var n := UnderNull(display)[1];
    assert n in UnderNull(display) && UnderNull(display)[0] in UnderNull(display);
    ProgressiveAgreesWithFull(names, FIVE_DEEP, UnderNull(display), index);
  }

  const FIVE_DEEP := Progressive(5, {})

  function Orphan(display: Display): seq<Node> {
    [Node("a", "a", None, Some("b"), None, display)]
  }

  function UnderNull(display: Display): seq<Node> {
    [Node("null", "null", None, None, None, display), Node("a", "a", None, Some("null"), None, display)]
  }

  ghost predicate Disagree(names: NameOrder, rule: Rule, nodes: seq<Node>, index: Index)
    requires rule.Progressive? && UniqueIds(nodes) && IsIndex(rule, nodes, index)
  {
    Shapes(ProgressiveTree(names, rule, nodes, index)) != SortShapes(names, Shapes(Strip(FullForest(nodes))))
  }

  /** A depth limit of five covers a store of at most five nodes. */
  lemma FiveCover(nodes: seq<Node>)
    requires UniqueIds(nodes) && |nodes| <= 5
    ensures Covers(FIVE_DEEP, nodes)
  {
    hide Chain;
    forall q | Chain(FIVE_DEEP, nodes, q) ensures |q| <= 5 { ChainBounded(FIVE_DEEP, nodes, q); }
    HeightCovers(FIVE_DEEP, nodes);
  }
}
