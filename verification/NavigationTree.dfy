/** The navigation functions of src/content/content-utils.ts on top of the content tree. */
module NavigationTree {
  import opened Options
  import opened StableSort
  import opened ContentTree

  type Index = map<Option<string>, seq<Node>>

  // ------------------------------------------------------------------
  // The parent-to-children index
  // ------------------------------------------------------------------

  /** Under each key that some node of `from` hangs under, those nodes in order. */
  ghost predicate Indexed(rule: Rule, nodes: seq<Node>, from: seq<Node>, index: Index) {
    forall p :: (p in index <==> Kids(rule, nodes, from, p) != [])
             && (p in index ==> index[p] == Kids(rule, nodes, from, p))
  }

  ghost predicate IsIndex(rule: Rule, nodes: seq<Node>, index: Index) {
    Indexed(rule, nodes, nodes, index)
  }

  function OneKid(rule: Rule, nodes: seq<Node>, n: Node, p: Option<string>): seq<Node> {
    if Parent(rule, nodes, n) == p then [n] else []
  }

  lemma KidsCons(rule: Rule, nodes: seq<Node>, n: Node, from: seq<Node>, p: Option<string>)
    ensures Kids(rule, nodes, [n] + from, p) == OneKid(rule, nodes, n, p) + Kids(rule, nodes, from, p)
    ensures Kids(rule, nodes, [], p) == []
  {
    assert ([n] + from)[1..] == from;
  }

  lemma {:induction false} KidsSnoc(rule: Rule, nodes: seq<Node>, from: seq<Node>, n: Node, p: Option<string>)
    ensures Kids(rule, nodes, from + [n], p) == Kids(rule, nodes, from, p) + OneKid(rule, nodes, n, p)
  {
    hide *;
    if from == [] {
      KidsCons(rule, nodes, n, [], p);
      assert [] + [n] == [n] + [];
    } else {
      var k, rest := from[0], from[1..];
      KidsSnoc(rule, nodes, rest, n, p);
      KidsCons(rule, nodes, k, rest, p);
      KidsCons(rule, nodes, k, rest + [n], p);
      assert from == [k] + rest && from + [n] == [k] + (rest + [n]);
    }
  }

  /** Not skipped by `targetTenantId && nTenantId !== targetTenantId`. */
  predicate Keeps(n: Node, tenant: Option<string>) {
    tenant.None? || tenant.value == "" || n.tenantId == tenant
  }

  lemma {:induction false} OfTenantSnoc(from: seq<Node>, n: Node, tenant: Option<string>)
    ensures OfTenant(from + [n], tenant) == OfTenant(from, tenant) + (if Keeps(n, tenant) then [n] else [])
  {
    if from == [] {
      assert ([] + [n])[1..] == [];
    } else if tenant.Some? && tenant.value != "" {
      OfTenantSnoc(from[1..], n, tenant);
      assert (from + [n])[0] == from[0] && (from + [n])[1..] == from[1..] + [n];
    }
  }

  /** For the navigation tree the key of a node does not depend on the other nodes. */
  function NavParent(n: Node): Option<string> {
    if n.parentId.None? || n.parentId.value == "" || n.parentId.value == "null" then None else n.parentId
  }

  function AddUnder(index: Index, p: Option<string>, n: Node): Index {
    index[p := (if p in index then index[p] else []) + [n]]
  }

  /** One turn of the loop adds one node under its key. */
  lemma IndexGrows(rule: Rule, nodes: seq<Node>, from: seq<Node>, n: Node, index: Index)
    requires Indexed(rule, nodes, from, index)
    ensures Indexed(rule, nodes, from + [n], AddUnder(index, Parent(rule, nodes, n), n))
  {
    hide Kids, Parent;
    forall q ensures Kids(rule, nodes, from + [n], q) == Kids(rule, nodes, from, q) + OneKid(rule, nodes, n, q) {
      KidsSnoc(rule, nodes, from, n, q);
    }
  }

  ghost function IndexFrom(rule: Rule, nodes: seq<Node>, from: seq<Node>): Index {
    if from == [] then map[]
    else
      var n := from[|from| - 1];
      AddUnder(IndexFrom(rule, nodes, from[..|from| - 1]), Parent(rule, nodes, n), n)
  }

  lemma {:induction false} IndexFromIndexes(rule: Rule, nodes: seq<Node>, from: seq<Node>)
    ensures Indexed(rule, nodes, from, IndexFrom(rule, nodes, from))
  {
    hide Indexed, Kids, Parent, AddUnder;
    if from == [] {
      NothingIndexed(rule, nodes);
    } else {
      var init, n := from[..|from| - 1], from[|from| - 1];
      IndexFromIndexes(rule, nodes, init);
      IndexGrows(rule, nodes, init, n, IndexFrom(rule, nodes, init));
      assert from == init + [n];
    }
  }

  /** The index of all nodes. */
  ghost function IndexOf(rule: Rule, nodes: seq<Node>): (index: Index)
    ensures IsIndex(rule, nodes, index)
  {
    IndexFromIndexes(rule, nodes, nodes);
    IndexFrom(rule, nodes, nodes)
  }

  lemma IndexFromStep(rule: Rule, nodes: seq<Node>, from: seq<Node>, n: Node)
    ensures IndexFrom(rule, nodes, from + [n]) == AddUnder(IndexFrom(rule, nodes, from), Parent(rule, nodes, n), n)
  {
    assert (from + [n])[..|from|] == from;
  }

  lemma IndexOfIs(rule: Rule, nodes: seq<Node>)
    ensures IndexOf(rule, nodes) == IndexFrom(rule, nodes, nodes)
    ensures IndexFrom(rule, nodes, []) == map[]
  {
  }

  /** Single pass over all nodes, skipping those of other tenants. */
  method BuildIndex(all: seq<Node>, tenant: Option<string>, ghost rule: Rule) returns (index: Index)
    requires rule.Progressive?
    ensures index == IndexOf(rule, OfTenant(all, tenant))
  {
    hide IndexFrom, OfTenant, AddUnder, Indexed;
    index := map[];
    ghost var nodes := OfTenant(all, tenant);
    NothingOfTenant(tenant);
    IndexOfIs(rule, nodes);
    for i := 0 to |all|
      invariant index == IndexFrom(rule, nodes, OfTenant(all[..i], tenant))
    {
      var node := all[i];
      assert all[..i + 1] == all[..i] + [node];
      OfTenantSnoc(all[..i], node, tenant);
      if !Keeps(node, tenant) {
        assert OfTenant(all[..i], tenant) + [] == OfTenant(all[..i], tenant);
        continue;
      }
      IndexFromStep(rule, nodes, OfTenant(all[..i], tenant), node);
      index := AddUnder(index, NavParent(node), node);
    }
    assert all[..|all|] == all;
  }

  lemma NothingOfTenant(tenant: Option<string>)
    ensures OfTenant([], tenant) == []
  {
  }

  lemma NothingIndexed(rule: Rule, nodes: seq<Node>)
    ensures Indexed(rule, nodes, [], map[])
  {
  }

  // ------------------------------------------------------------------
  // getNavigationStructureProgressive
  // ------------------------------------------------------------------

  /** The recursion of `buildTree`; `chain` is the way down to `parentId`. */
  function BuildTree(names: NameOrder, rule: Rule, index: Index, parentId: Option<string>, depth: nat,
                     ghost nodes: seq<Node>, ghost chain: seq<Node>): seq<NavNode>
    requires rule.Progressive? && UniqueIds(nodes) && IsIndex(rule, nodes, index)
    requires Chain(rule, nodes, chain) && parentId == Tip(chain) && depth == |chain|
    decreases |nodes| - |chain|, 1, 0
  {
    Sort(names, NavKey, BuildEach(names, rule, index, parentId, depth,
                                  if parentId in index then index[parentId] else [], nodes, chain))
  }

  function BuildEach(names: NameOrder, rule: Rule, index: Index, parentId: Option<string>, depth: nat, ks: seq<Node>,
                     ghost nodes: seq<Node>, ghost chain: seq<Node>): seq<NavNode>
    requires rule.Progressive? && UniqueIds(nodes) && IsIndex(rule, nodes, index)
    requires Chain(rule, nodes, chain) && parentId == Tip(chain) && depth == |chain| && AreKids(rule, nodes, chain, ks)
    decreases |nodes| - |chain|, 0, |ks|
  {
    if ks == [] then []
    else [BuildOne(names, rule, index, parentId, depth, ks[0], nodes, chain)]
         + BuildEach(names, rule, index, parentId, depth, ks[1..], nodes, chain)
  }

  function BuildOne(names: NameOrder, rule: Rule, index: Index, parentId: Option<string>, depth: nat, node: Node,
                    ghost nodes: seq<Node>, ghost chain: seq<Node>): NavNode
    requires rule.Progressive? && UniqueIds(nodes) && IsIndex(rule, nodes, index)
    requires Chain(rule, nodes, chain) && parentId == Tip(chain) && depth == |chain|
    requires node in nodes && Parent(rule, nodes, node) == Tip(chain)
    decreases |nodes| - |chain|, 0, 0
  {
    ChainExtend(rule, nodes, chain, node);
    ChainBounded(rule, nodes, chain + [node]);
    var nodeDepth := depth + 1;
    var shouldLoadChildren := Loads(rule, nodeDepth, node.id);
    var children := if shouldLoadChildren
                    then Present(BuildTree(names, rule, index, Some(node.id), nodeDepth, nodes, chain + [node]))
                    else Absent;
    var hasChildren := Some(node.id) in index;
    NavNode(node.id, node.name, node.order, parentId, node.display, children, Some(hasChildren && !shouldLoadChildren))
  }

  /** The navigation tree of a tenant. */
  ghost function ProgressiveTree(names: NameOrder, rule: Rule, nodes: seq<Node>, index: Index): seq<NavNode>
    requires rule.Progressive? && UniqueIds(nodes) && IsIndex(rule, nodes, index)
  {
    BuildTree(names, rule, index, None, 0, nodes, [])
  }

  method GetNavigationStructureProgressive(names: NameOrder, all: seq<Node>, maxDepth: int, expandedIds: set<string>,
                                           tenant: Option<string>) returns (tree: seq<NavNode>)
    requires UniqueIds(OfTenant(all, tenant))
    ensures var rule, nodes := Progressive(maxDepth, expandedIds), OfTenant(all, tenant);
            tree == ProgressiveTree(names, rule, nodes, IndexOf(rule, nodes))
  {
    var rule := Progressive(maxDepth, expandedIds);
    var index := BuildIndex(all, tenant, rule);
    tree := BuildTree(names, rule, index, None, 0, OfTenant(all, tenant), []);
  }

  // ------------------------------------------------------------------
  // stripToNavigation
  // ------------------------------------------------------------------

  function Strip(f: seq<Tree>): seq<NavNode> {
    if f == [] then []
    else
      var n, cs := f[0].node, f[0].children;
      [NavNode(n.id, n.name, n.order, n.parentId, n.display, if cs == [] then Absent else Present(Strip(cs)), None)] +
          Strip(f[1..])
  }

  // ------------------------------------------------------------------
  // What the two trees have in common
  // ------------------------------------------------------------------

  /** A navigation node without `hasChildren`, absent children read as no children, and the three
      spellings of "no parent" read alike. */
  datatype Shape = Shape(id: string, name: string, order: Option<real>, parentId: Option<string>, display: Display,
                         children: seq<Shape>)

  function ShapeKey(s: Shape): Key { OrderKey(s.order, s.name) }

  function SameParent(p: Option<string>): Option<string> {
    if p == Some("") || p == Some("null") then None else p
  }

  function Shapes(f: seq<NavNode>): seq<Shape> {
    if f == [] then [] else [ShapeOf(f[0])] + Shapes(f[1..])
  }

  function ShapeOf(n: NavNode): Shape {
    Shape(n.id, n.name, n.order, SameParent(n.parentId), n.display,
          if n.children.Absent? then [] else Shapes(n.children.list))
  }

  ghost function TreeShapes(f: seq<Tree>): seq<Shape> {
    if f == [] then [] else [TreeShape(f[0])] + TreeShapes(f[1..])
  }

  ghost function TreeShape(t: Tree): Shape {
    var n := t.node;
    Shape(n.id, n.name, n.order, NavParent(n), n.display, TreeShapes(t.children))
  }

  /** Every sibling list replaced by its stable sort. */
  ghost function SortShapes(names: NameOrder, f: seq<Shape>): seq<Shape>
    decreases f, 1
  {
    Sort(names, ShapeKey, SortBelow(names, f))
  }

  ghost function SortBelow(names: NameOrder, f: seq<Shape>): seq<Shape>
    decreases f, 0
  {
    if f == [] then [] else [SortInside(names, f[0])] + SortBelow(names, f[1..])
  }

  ghost function SortInside(names: NameOrder, s: Shape): Shape {
    s.(children := SortShapes(names, s.children))
  }

  // ------------------------------------------------------------------
  // Sorting and shapes commute
  // ------------------------------------------------------------------

  lemma {:induction false} InsertShape(names: NameOrder, n: NavNode, f: seq<NavNode>)
    ensures Shapes(Insert(names, NavKey, n, f)) == Insert(names, ShapeKey, ShapeOf(n), Shapes(f))
  {
    if f == [] || Leq(names, NavKey(n), NavKey(f[0])) {
      assert ([n] + f)[1..] == f;
    } else {
      InsertShape(names, n, f[1..]);
      var rest := Insert(names, NavKey, n, f[1..]);
      assert ([f[0]] + rest)[1..] == rest;
      assert Shapes(f)[1..] == Shapes(f[1..]);
    }
  }

  lemma {:induction false} SortShape(names: NameOrder, f: seq<NavNode>)
    ensures Shapes(Sort(names, NavKey, f)) == Sort(names, ShapeKey, Shapes(f))
  {
    if f != [] {
      SortShape(names, f[1..]);
      InsertShape(names, f[0], Sort(names, NavKey, f[1..]));
      assert Shapes(f)[1..] == Shapes(f[1..]);
    }
  }

  lemma {:induction false} StripShapes(f: seq<Tree>)
    ensures Shapes(Strip(f)) == TreeShapes(f)
  {
    if f != [] {
      StripShapes(f[0].children);
      StripShapes(f[1..]);
      assert Strip(f)[1..] == Strip(f[1..]);
    }
  }

  // ------------------------------------------------------------------
  // buildTree builds the unfolding
  // ------------------------------------------------------------------

  lemma IndexedKids(rule: Rule, nodes: seq<Node>, index: Index, p: Option<string>)
    requires IsIndex(rule, nodes, index)
    ensures (if p in index then index[p] else []) == Kids(rule, nodes, nodes, p)
    ensures p in index <==> Kids(rule, nodes, nodes, p) != []
  {
  }

  lemma BuildTreeShape(names: NameOrder, rule: Rule, index: Index, nodes: seq<Node>, chain: seq<Node>)
    requires rule.Progressive? && UniqueIds(nodes) && IsIndex(rule, nodes, index) && Chain(rule, nodes, chain)
    ensures Shapes(BuildTree(names, rule, index, Tip(chain), |chain|, nodes, chain))
         == SortShapes(names, TreeShapes(Unfold(rule, nodes, chain)))
    decreases |nodes| - |chain|, 1, 0
  {
    hide Chain, UniqueIds, IsIndex, Shapes, BuildEach, UnfoldEach, Sort, TreeShapes, SortBelow;
    var ks := Kids(rule, nodes, nodes, Tip(chain));
    IndexedKids(rule, nodes, index, Tip(chain));
    BuildEachShape(names, rule, index, nodes, chain, ks);
    SortShape(names, BuildEach(names, rule, index, Tip(chain), |chain|, ks, nodes, chain));
  }

  lemma BuildEachShape(names: NameOrder, rule: Rule, index: Index, nodes: seq<Node>, chain: seq<Node>, ks: seq<Node>)
    requires rule.Progressive? && UniqueIds(nodes) && IsIndex(rule, nodes, index)
    requires Chain(rule, nodes, chain) && AreKids(rule, nodes, chain, ks)
    ensures Shapes(BuildEach(names, rule, index, Tip(chain), |chain|, ks, nodes, chain))
         == SortBelow(names, TreeShapes(UnfoldEach(rule, nodes, chain, ks)))
    decreases |nodes| - |chain|, 0, |ks|
  {
    hide Chain, UniqueIds, IsIndex, BuildOne, SortInside, TreeShape, ShapeOf, Below;
    if ks != [] {
      BuildEachShape(names, rule, index, nodes, chain, ks[1..]);
      BuildOneShape(names, rule, index, nodes, chain, ks[0]);
      var f, g := BuildEach(names, rule, index, Tip(chain), |chain|, ks, nodes, chain),
          UnfoldEach(rule, nodes, chain, ks);
      assert f[1..] == BuildEach(names, rule, index, Tip(chain), |chain|, ks[1..], nodes, chain);
      assert g[1..] == UnfoldEach(rule, nodes, chain, ks[1..]);
      assert TreeShapes(g)[1..] == TreeShapes(g[1..]);
    }
  }

  lemma BuildOneShape(names: NameOrder, rule: Rule, index: Index, nodes: seq<Node>, chain: seq<Node>, k: Node)
    requires rule.Progressive? && UniqueIds(nodes) && IsIndex(rule, nodes, index)
    requires Chain(rule, nodes, chain) && k in nodes && Parent(rule, nodes, k) == Tip(chain)
    ensures ShapeOf(BuildOne(names, rule, index, Tip(chain), |chain|, k, nodes, chain))
         == SortInside(names, TreeShape(Tree(k, Below(rule, nodes, chain, k))))
    decreases |nodes| - |chain|, 0, 0
  {
    hide Chain, UniqueIds, IsIndex, BuildTree, Unfold;
    var longer := chain + [k];
    ChainExtend(rule, nodes, chain, k);
    ChainBounded(rule, nodes, longer);
    assert Parent(rule, nodes, k) == NavParent(k) == SameParent(Tip(chain));
    if Loads(rule, |chain| + 1, k.id) {
      BuildTreeShape(names, rule, index, nodes, longer);
    } else {
      assert SortShapes(names, []) == [];
    }
  }
}
