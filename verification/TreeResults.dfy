/** What the two content trees show, in terms of the stored nodes, the tenant, the depth limit and the expanded ids. */
module TreeResults {
  import opened Options
  import opened Sequences
  import opened StableSort
  import opened ContentTree
  import opened NavigationTree
  import opened NavigationLaws

  // ------------------------------------------------------------------
  // One tenant
  // ------------------------------------------------------------------

  /** A stored node that the tenant may see; without a tenant, any. */
  predicate Visible(all: seq<Node>, tenant: Option<string>, n: Node) {
    n in all && (tenant in {None, Some("")} || n.tenantId == tenant)
  }

  lemma {:induction false} OfTenantMember(all: seq<Node>, tenant: Option<string>, n: Node)
    ensures n in OfTenant(all, tenant) <==> Visible(all, tenant, n)
  {
    if all != [] && tenant !in {None, Some("")} {
      OfTenantMember(all[1..], tenant, n);
      assert all == [all[0]] + all[1..];
    }
  }

  lemma {:induction false} OfTenantFilter(all: seq<Node>, tenant: Option<string>)
    ensures OfTenant(all, tenant) == Filter((n: Node) => tenant in {None, Some("")} || n.tenantId == tenant, all)
  {
    if tenant in {None, Some("")} {
      FilterAll((n: Node) => tenant in {None, Some("")} || n.tenantId == tenant, all);
    } else if all != [] {
      OfTenantFilter(all[1..], tenant);
    }
  }

  lemma {:induction false} FilterAll<T>(keep: T -> bool, s: seq<T>)
    requires forall x :: x in s ==> keep(x)
    ensures Filter(keep, s) == s
  {
    if s != [] { FilterAll(keep, s[1..]); }
  }

  /** Some visible node has this id. */
  predicate Known(all: seq<Node>, tenant: Option<string>, id: string) {
    exists n <- all :: Visible(all, tenant, n) && n.id == id
  }

  lemma KnownIs(all: seq<Node>, tenant: Option<string>, id: string)
    ensures id in Ids(OfTenant(all, tenant)) <==> Known(all, tenant, id)
  {
    hide OfTenant;
    forall n ensures n in OfTenant(all, tenant) <==> Visible(all, tenant, n) { OfTenantMember(all, tenant, n); }
  }

  // ------------------------------------------------------------------
  // The navigation tree: what is loaded
  // ------------------------------------------------------------------

  /** At each level children are present above the depth limit and under expanded ids, and nowhere else. */
  ghost predicate Loaded(f: seq<NavNode>, level: nat, maxDepth: int, expanded: set<string>)
    decreases f
  {
    forall n :: n in f ==> LoadedNode(n, level, maxDepth, expanded)
  }

  ghost predicate LoadedNode(n: NavNode, level: nat, maxDepth: int, expanded: set<string>)
    decreases n
  {
    && (n.children.Present? <==> level < maxDepth || n.id in expanded)
    && (n.children.Present? ==> Loaded(n.children.list, level + 1, maxDepth, expanded))
  }

  lemma ExactIsLoaded(nodes: seq<Node>, maxDepth: int, expanded: set<string>, level: nat, f: seq<NavNode>)
    requires ExactLevels(Progressive(maxDepth, expanded), nodes, level, f)
    ensures Loaded(f, level, maxDepth, expanded)
    decreases f
  {
    forall n | n in f ensures LoadedNode(n, level, maxDepth, expanded) {
      assert ExactNode(Progressive(maxDepth, expanded), nodes, level, n);
      if n.children.Present? { ExactIsLoaded(nodes, maxDepth, expanded, level + 1, n.children.list); }
    }
  }

  /** The number of levels. */
  ghost function Height(f: seq<NavNode>): nat
    decreases f
  {
    if f == [] then 0
    else
      var below, rest := if f[0].children.Present? then Height(f[0].children.list) else 0, Height(f[1..]);
      if 1 + below > rest then 1 + below else rest
  }

  lemma LoadedHeight(f: seq<NavNode>, level: nat, maxDepth: int)
    requires Loaded(f, level, maxDepth, {})
    ensures Height(f) <= if level < maxDepth then maxDepth - level + 1 else 1
    decreases f
  {
    if f != [] {
      assert LoadedNode(f[0], level, maxDepth, {});
      if f[0].children.Present? { LoadedHeight(f[0].children.list, level + 1, maxDepth); }
      assert forall n :: n in f[1..] ==> n in f;
      LoadedHeight(f[1..], level, maxDepth);
    }
  }

  // ------------------------------------------------------------------
  // The navigation tree: where nodes come from and in what order
  // ------------------------------------------------------------------

  /** What a node under `parent` says of its parent. */
  predicate NamesParent(parentId: Option<string>, parent: Option<string>) {
    if parent.None? then parentId in {None, Some(""), Some("null")} else parentId == parent
  }

  ghost predicate HasStoredKid(all: seq<Node>, tenant: Option<string>, id: string) {
    id !in {"", "null"} && exists m :: Visible(all, tenant, m) && m.parentId == Some(id)
  }

  /** Every node is a visible stored node with its own fields, under the parent it names; `hasChildren` says that it has
      children which are not shown. */
  ghost predicate Faithful(all: seq<Node>, tenant: Option<string>, parent: Option<string>, f: seq<NavNode>)
    decreases f
  {
    forall n :: n in f ==> FaithfulNode(all, tenant, parent, n)
  }

  ghost predicate FaithfulNode(all: seq<Node>, tenant: Option<string>, parent: Option<string>, n: NavNode)
    decreases n
  {
    && n.parentId == parent && Stands(all, tenant, parent, n)
    && n.hasChildren == Some(n.children.Absent? && HasStoredKid(all, tenant, n.id))
    && (n.children.Present? ==> Faithful(all, tenant, Some(n.id), n.children.list))
  }

  ghost predicate Stands(all: seq<Node>, tenant: Option<string>, parent: Option<string>, n: NavNode) {
    exists m :: Visible(all, tenant, m) && m.id == n.id && m.name == n.name && m.order == n.order
                && m.display == n.display && NamesParent(m.parentId, parent)
  }

  function OrderOf(order: Option<real>): real { if order.Some? then order.value else 999.0 }

  /** Siblings by order, a missing order counting as 999, and then by name, at every level. */
  ghost predicate InOrder(names: NameOrder, f: seq<NavNode>)
    decreases f
  {
    && (forall i, j :: 0 <= i < j < |f| ==> Before(names, f[i], f[j]))
    && (forall n :: n in f && n.children.Present? ==> InOrder(names, n.children.list))
  }

  predicate Before(names: NameOrder, a: NavNode, b: NavNode) {
    OrderOf(a.order) < OrderOf(b.order) || (OrderOf(a.order) == OrderOf(b.order) && names(a.name, b.name))
  }

  lemma ParentNamed(rule: Rule, nodes: seq<Node>, m: Node, parent: Option<string>)
    requires rule.Progressive? && Parent(rule, nodes, m) == parent
    ensures NamesParent(m.parentId, parent)
  {
    if m.parentId.Some? { assert m.parentId == Some(m.parentId.value); }
  }

  lemma StoredKids(all: seq<Node>, tenant: Option<string>, rule: Rule, id: string)
    requires rule.Progressive?
    ensures HasKids(rule, OfTenant(all, tenant), id) <==> HasStoredKid(all, tenant, id)
  {
    hide OfTenant, Visible;
    var nodes := OfTenant(all, tenant);
    forall n ensures n in nodes <==> Visible(all, tenant, n) { OfTenantMember(all, tenant, n); }
    if HasKids(rule, nodes, id) {
      var m :| m in nodes && Parent(rule, nodes, m) == Some(id);
      assert Visible(all, tenant, m) && m.parentId == Some(id);
    }
    if HasStoredKid(all, tenant, id) {
      var m :| Visible(all, tenant, m) && m.parentId == Some(id);
      assert m in nodes && Parent(rule, nodes, m) == Some(id);
    }
  }

  lemma TreeFaithful(names: NameOrder, rule: Rule, index: Index, all: seq<Node>, tenant: Option<string>,
                     chain: seq<Node>)
    requires var nodes := OfTenant(all, tenant);
             rule.Progressive? && UniqueIds(nodes) && IsIndex(rule, nodes, index) && Chain(rule, nodes, chain)
    ensures var f := BuildTree(names, rule, index, Tip(chain), |chain|, OfTenant(all, tenant), chain);
            Faithful(all, tenant, Tip(chain), f) && (TotalPreorder(names) ==> InOrder(names, f))
    decreases |OfTenant(all, tenant)| - |chain|, 1, 0
  {
    hide Chain, UniqueIds, IsIndex, BuildEach, Faithful, Sort, OfTenant, TotalPreorder, InOrder, Kids;
    var nodes := OfTenant(all, tenant);
    var ks := Kids(rule, nodes, nodes, Tip(chain));
    IndexedKids(rule, nodes, index, Tip(chain));
    var f := BuildEach(names, rule, index, Tip(chain), |chain|, ks, nodes, chain);
    EachFaithful(names, rule, index, all, tenant, chain, ks);
    FaithfulSorted(names, all, tenant, Tip(chain), f);
    if TotalPreorder(names) { SortedInOrder(names, f); }
  }

  lemma FaithfulSorted(names: NameOrder, all: seq<Node>, tenant: Option<string>, parent: Option<string>,
                       f: seq<NavNode>)
    requires Faithful(all, tenant, parent, f)
    ensures Faithful(all, tenant, parent, Sort(names, NavKey, f))
  {
    hide Sort, FaithfulNode;
    forall n | n in Sort(names, NavKey, f) ensures FaithfulNode(all, tenant, parent, n) {
      SortMembers(names, NavKey, f, n);
    }
  }

  lemma SortedInOrder(names: NameOrder, f: seq<NavNode>)
    requires TotalPreorder(names) && forall n :: n in f && n.children.Present? ==> InOrder(names, n.children.list)
    ensures InOrder(names, Sort(names, NavKey, f))
  {
    hide Sort, TotalPreorder, Before;
    var s := Sort(names, NavKey, f);
    SortedBefore(names, f);
    forall n | n in s && n.children.Present? ensures InOrder(names, n.children.list) {
      SortMembers(names, NavKey, f, n);
    }
  }

  lemma SortedBefore(names: NameOrder, f: seq<NavNode>)
    requires TotalPreorder(names)
    ensures var s := Sort(names, NavKey, f); forall i, j :: 0 <= i < j < |s| ==> Before(names, s[i], s[j])
  {
    hide Sort, TotalPreorder;
    SortSorts(names, NavKey, f);
  }

  lemma EachFaithful(names: NameOrder, rule: Rule, index: Index, all: seq<Node>, tenant: Option<string>,
                     chain: seq<Node>, ks: seq<Node>)
    requires var nodes := OfTenant(all, tenant);
             && rule.Progressive? && UniqueIds(nodes) && IsIndex(rule, nodes, index)
             && Chain(rule, nodes, chain) && AreKids(rule, nodes, chain, ks)
    ensures var f := BuildEach(names, rule, index, Tip(chain), |chain|, ks, OfTenant(all, tenant), chain);
            && Faithful(all, tenant, Tip(chain), f)
            && (TotalPreorder(names) ==> forall n :: n in f && n.children.Present? ==> InOrder(names, n.children.list))
    decreases |OfTenant(all, tenant)| - |chain|, 0, |ks|
  {
    hide Chain, UniqueIds, IsIndex, BuildOne, FaithfulNode, OfTenant, TotalPreorder, InOrder;
    if ks != [] {
      OneFaithful(names, rule, index, all, tenant, chain, ks[0]);
      EachFaithful(names, rule, index, all, tenant, chain, ks[1..]);
    }
  }

  lemma OneFaithful(names: NameOrder, rule: Rule, index: Index, all: seq<Node>, tenant: Option<string>,
                    chain: seq<Node>, k: Node)
    requires var nodes := OfTenant(all, tenant);
             && rule.Progressive? && UniqueIds(nodes) && IsIndex(rule, nodes, index)
             && Chain(rule, nodes, chain) && k in nodes && Parent(rule, nodes, k) == Tip(chain)
    ensures var n := BuildOne(names, rule, index, Tip(chain), |chain|, k, OfTenant(all, tenant), chain);
            && FaithfulNode(all, tenant, Tip(chain), n)
            && (TotalPreorder(names) ==> n.children.Present? ==> InOrder(names, n.children.list))
    decreases |OfTenant(all, tenant)| - |chain|, 0, 0
  {
    hide Chain, UniqueIds, IsIndex, BuildTree, Faithful, Parent, Loads, HasKids, Kids, AreKids, OfTenant, InOrder,
         TotalPreorder, Visible, NamesParent, HasStoredKid;
    var nodes, longer := OfTenant(all, tenant), chain + [k];
    ChainExtend(rule, nodes, chain, k);
    ChainBounded(rule, nodes, longer);
    IndexedKids(rule, nodes, index, Some(k.id));
    HasKidsIndexed(rule, nodes, k.id);
    StoredKids(all, tenant, rule, k.id);
    OfTenantMember(all, tenant, k);
    ParentNamed(rule, nodes, k, Tip(chain));
    if Loads(rule, |chain| + 1, k.id) { TreeFaithful(names, rule, index, all, tenant, longer); }
  }

  // ------------------------------------------------------------------
  // The navigation tree: which nodes
  // ------------------------------------------------------------------

  /** Each node of the way names the one before it as its parent. */
  predicate Descends(q: seq<Node>, i: int)
    requires 0 < i < |q|
  {
    q[i].parentId == Some(q[i - 1].id) && q[i - 1].id != ""
  }

  predicate NavDescends(q: seq<Node>, i: int)
    requires 0 < i < |q|
  {
    Descends(q, i) && q[i - 1].id != "null"
  }

  predicate AllVisible(all: seq<Node>, tenant: Option<string>, q: seq<Node>) {
    forall n <- q :: Visible(all, tenant, n)
  }

  predicate EndsAt(q: seq<Node>, n: Node) { q != [] && q[|q| - 1] == n }

  /** A way down through visible nodes from one without a parent, on which each but the last loads its children. */
  ghost predicate Way(all: seq<Node>, tenant: Option<string>, maxDepth: int, expanded: set<string>, q: seq<Node>) {
    && q != [] && AllVisible(all, tenant, q) && NamesParent(q[0].parentId, None)
    && (forall i :: 0 < i < |q| ==> NavDescends(q, i))
    && (forall i :: 0 <= i < |q| - 1 ==> i + 1 < maxDepth || q[i].id in expanded)
  }

  predicate Hangs(rule: Rule, nodes: seq<Node>, q: seq<Node>, i: int)
    requires 0 < i < |q|
  {
    Parent(rule, nodes, q[i]) == Some(q[i - 1].id)
  }

  predicate AllIn(nodes: seq<Node>, q: seq<Node>) { forall n <- q :: n in nodes }

  lemma AllInIsVisible(all: seq<Node>, tenant: Option<string>, q: seq<Node>)
    ensures AllIn(OfTenant(all, tenant), q) <==> AllVisible(all, tenant, q)
  {
    hide OfTenant, Visible;
    forall n ensures n in OfTenant(all, tenant) <==> Visible(all, tenant, n) { OfTenantMember(all, tenant, n); }
  }

  /** A chain, link by link. */
  lemma ChainIs(rule: Rule, nodes: seq<Node>, q: seq<Node>)
    requires q != []
    ensures Chain(rule, nodes, q) <==>
            && AllIn(nodes, q) && Parent(rule, nodes, q[0]) == None
            && forall i :: 0 < i < |q| ==> Hangs(rule, nodes, q, i)
  {
    hide Parent;
    assert q[..0] == [];
    forall i | 0 < i < |q| ensures Tip(q[..i]) == Some(q[i - 1].id) { assert q[..i][|q[..i]| - 1] == q[i - 1]; }
    if Chain(rule, nodes, q) {
      assert Parent(rule, nodes, q[0]) == Tip(q[..0]);
      forall i | 0 < i < |q| ensures Hangs(rule, nodes, q, i) { assert Parent(rule, nodes, q[i]) == Tip(q[..i]); }
    } else {
      var i :| 0 <= i < |q| && !(q[i] in nodes && Parent(rule, nodes, q[i]) == Tip(q[..i]));
      assert q[i] in q;
      assert i > 0 ==> (Hangs(rule, nodes, q, i) <==> Parent(rule, nodes, q[i]) == Tip(q[..i]));
    }
  }

  lemma ProgressiveChain(all: seq<Node>, tenant: Option<string>, rule: Rule, q: seq<Node>)
    requires rule.Progressive? && q != []
    ensures Chain(rule, OfTenant(all, tenant), q) <==>
            && AllVisible(all, tenant, q) && NamesParent(q[0].parentId, None)
            && (forall i :: 0 < i < |q| ==> NavDescends(q, i))
  {
    hide OfTenant, Visible, Parent, NamesParent, NavDescends, Hangs, Chain, AllIn, AllVisible;
    var nodes := OfTenant(all, tenant);
    AllInIsVisible(all, tenant, q);
    ChainIs(rule, nodes, q);
    NavParents(rule, nodes, q[0], None);
    if forall i :: 0 < i < |q| ==> Hangs(rule, nodes, q, i) {
      forall i | 0 < i < |q| ensures NavDescends(q, i) { NavStep(rule, nodes, q, i); }
    } else {
      var i :| 0 < i < |q| && !Hangs(rule, nodes, q, i);
      NavStep(rule, nodes, q, i);
    }
  }

  lemma NavParents(rule: Rule, nodes: seq<Node>, m: Node, parent: Option<string>)
    requires rule.Progressive? && parent.None?
    ensures Parent(rule, nodes, m) == parent <==> NamesParent(m.parentId, parent)
  {
    if m.parentId.Some? { assert m.parentId == Some(m.parentId.value); }
  }

  lemma NavStep(rule: Rule, nodes: seq<Node>, q: seq<Node>, i: int)
    requires rule.Progressive? && 0 < i < |q|
    ensures Hangs(rule, nodes, q, i) <==> NavDescends(q, i)
  {
    if q[i].parentId.Some? { assert q[i].parentId == Some(q[i].parentId.value); }
  }

  lemma LeadsIsWay(all: seq<Node>, tenant: Option<string>, maxDepth: int, expanded: set<string>, q: seq<Node>, n: Node)
    ensures Leads(Progressive(maxDepth, expanded), OfTenant(all, tenant), [], q, n) <==>
            Way(all, tenant, maxDepth, expanded, q) && EndsAt(q, n)
  {
    hide OfTenant, Visible, Chain, NamesParent, NavDescends;
    if q != [] {
      ProgressiveChain(all, tenant, Progressive(maxDepth, expanded), q);
      assert q[..0] == [];
    }
  }

  lemma ShownIsWay(all: seq<Node>, tenant: Option<string>, maxDepth: int, expanded: set<string>, n: Node)
    ensures Shown(Progressive(maxDepth, expanded), OfTenant(all, tenant), n) <==>
            exists q :: Way(all, tenant, maxDepth, expanded, q) && EndsAt(q, n)
  {
    hide OfTenant, Way, Leads, EndsAt;
    forall q
      ensures Leads(Progressive(maxDepth, expanded), OfTenant(all, tenant), [], q, n) <==>
              Way(all, tenant, maxDepth, expanded, q) && EndsAt(q, n)
    {
      LeadsIsWay(all, tenant, maxDepth, expanded, q, n);
    }
  }

  /** The navigation tree, in full: what it shows, under what, in which order, and which children are loaded. */
  lemma NavigationShows(names: NameOrder, all: seq<Node>, maxDepth: int, expanded: set<string>, tenant: Option<string>)
    requires UniqueIds(OfTenant(all, tenant))
    ensures var (rule, nodes) := (Progressive(maxDepth, expanded), OfTenant(all, tenant));
            var tree := ProgressiveTree(names, rule, nodes, IndexOf(rule, nodes));
            && Loaded(tree, 1, maxDepth, expanded)
            && Faithful(all, tenant, None, tree)
            && (TotalPreorder(names) ==> InOrder(names, tree))
            && (expanded == {} ==> Height(tree) <= if maxDepth > 1 then maxDepth else 1)
            && forall n :: Visible(all, tenant, n) ==>
                 (if exists q :: Way(all, tenant, maxDepth, expanded, q) && EndsAt(q, n)
                  then NavIds(tree)[n.id] == 1 else NavIds(tree)[n.id] == 0)
  {
    hide OfTenant, UniqueIds, IsIndex, BuildTree, Loaded, Faithful, InOrder, TotalPreorder, Chain, Shown, Way, Visible,
         NavIds, ExactLevels;
    var rule, nodes := Progressive(maxDepth, expanded), OfTenant(all, tenant);
    var index := IndexOf(rule, nodes);
    EmptyChain(rule, nodes);
    ProgressiveHasChildren(names, rule, nodes, index);
    ExactIsLoaded(nodes, maxDepth, expanded, 1, ProgressiveTree(names, rule, nodes, index));
    TreeFaithful(names, rule, index, all, tenant, []);
    if expanded == {} { LoadedHeight(ProgressiveTree(names, rule, nodes, index), 1, maxDepth); }
    forall n | Visible(all, tenant, n)
      ensures if exists q :: Way(all, tenant, maxDepth, expanded, q) && EndsAt(q, n)
              then NavIds(ProgressiveTree(names, rule, nodes, index))[n.id] == 1
              else NavIds(ProgressiveTree(names, rule, nodes, index))[n.id] == 0
    {
      OfTenantMember(all, tenant, n);
      ProgressiveShows(names, rule, nodes, index, n);
      ShownIsWay(all, tenant, maxDepth, expanded, n);
    }
  }

  /** By default, with depth limit 1 and nothing expanded, the tree is the roots, none with its children. */
  lemma DefaultIsRoots(names: NameOrder, all: seq<Node>, tenant: Option<string>)
    requires UniqueIds(OfTenant(all, tenant))
    ensures var (rule, nodes) := (Progressive(1, {}), OfTenant(all, tenant));
            forall n :: n in ProgressiveTree(names, rule, nodes, IndexOf(rule, nodes)) ==> n.children.Absent?
  {
    hide OfTenant, UniqueIds, IsIndex, BuildTree, Faithful, InOrder, TotalPreorder, Way, Visible, NavIds;
    NavigationShows(names, all, 1, {}, tenant);
  }

  // ------------------------------------------------------------------
  // The full tree
  // ------------------------------------------------------------------

  /** The node has no parent among the visible ones. */
  predicate IsTop(all: seq<Node>, tenant: Option<string>, n: Node) {
    n.parentId in {None, Some("")} || !Known(all, tenant, n.parentId.value)
  }

  predicate BelongsUnder(all: seq<Node>, tenant: Option<string>, n: Node, parent: Option<string>) {
    if parent.None? then IsTop(all, tenant, n) else n.parentId == parent && parent != Some("")
  }

  /** Every node is visible and stands under the parent it names, or on top when it names none that is visible. */
  ghost predicate Stored(all: seq<Node>, tenant: Option<string>, parent: Option<string>, f: seq<Tree>)
    decreases f
  {
    forall t :: t in f ==> StoredTree(all, tenant, parent, t)
  }

  ghost predicate StoredTree(all: seq<Node>, tenant: Option<string>, parent: Option<string>, t: Tree)
    decreases t
  {
    && Visible(all, tenant, t.node) && BelongsUnder(all, tenant, t.node, parent)
    && Stored(all, tenant, Some(t.node.id), t.children)
  }

  function NodesOf(f: seq<Tree>): seq<Node> { Map((t: Tree) => t.node, f) }

  /** Siblings keep the order of the store, at every level. */
  ghost predicate StoreOrder(all: seq<Node>, f: seq<Tree>)
    decreases f
  {
    && (exists at: seq<nat> :: Picks(all, NodesOf(f), at))
    && forall t :: t in f ==> StoreOrder(all, t.children)
  }

  /** A way down from a top node. */
  ghost predicate FullWay(all: seq<Node>, tenant: Option<string>, q: seq<Node>) {
    && q != [] && AllVisible(all, tenant, q) && IsTop(all, tenant, q[0])
    && forall i :: 0 < i < |q| ==> Descends(q, i)
  }

  lemma FullParent(all: seq<Node>, tenant: Option<string>, n: Node, parent: Option<string>)
    requires parent.Some? ==> Known(all, tenant, parent.value)
    ensures Parent(Full, OfTenant(all, tenant), n) == parent <==> BelongsUnder(all, tenant, n, parent)
  {
    hide OfTenant, Ids, Known;
    if n.parentId.Some? { KnownIs(all, tenant, n.parentId.value); }
    if parent.Some? { KnownIs(all, tenant, parent.value); }
  }

  lemma FullChain(all: seq<Node>, tenant: Option<string>, q: seq<Node>)
    requires q != []
    ensures Chain(Full, OfTenant(all, tenant), q) <==> FullWay(all, tenant, q)
  {
    hide OfTenant, Visible, Known, Parent, Chain, Hangs, Descends, IsTop, AllIn;
    var nodes := OfTenant(all, tenant);
    AllInIsVisible(all, tenant, q);
    ChainIs(Full, nodes, q);
    TopIs(all, tenant, q[0]);
    if AllVisible(all, tenant, q) {
      if forall i :: 0 < i < |q| ==> Hangs(Full, nodes, q, i) {
        forall i | 0 < i < |q| ensures Descends(q, i) {
          assert q[i - 1] in q;
          FullStep(all, tenant, q, i);
        }
      } else {
        var i :| 0 < i < |q| && !Hangs(Full, nodes, q, i);
        assert q[i - 1] in q;
        FullStep(all, tenant, q, i);
      }
    }
  }

  lemma TopIs(all: seq<Node>, tenant: Option<string>, n: Node)
    ensures Parent(Full, OfTenant(all, tenant), n) == None <==> IsTop(all, tenant, n)
  {
    hide OfTenant, Parent, Known;
    FullParent(all, tenant, n, None);
  }

  lemma FullStep(all: seq<Node>, tenant: Option<string>, q: seq<Node>, i: int)
    requires 0 < i < |q| && Visible(all, tenant, q[i - 1])
    ensures Hangs(Full, OfTenant(all, tenant), q, i) <==> Descends(q, i)
  {
    hide OfTenant, Parent, Known, Visible;
    VisibleIsKnown(all, tenant, q[i - 1]);
    FullParent(all, tenant, q[i], Some(q[i - 1].id));
  }

  lemma VisibleIsKnown(all: seq<Node>, tenant: Option<string>, n: Node)
    requires Visible(all, tenant, n)
    ensures Known(all, tenant, n.id)
  {
  }

  lemma {:induction false} KidsAreFilter(rule: Rule, nodes: seq<Node>, from: seq<Node>, p: Option<string>)
    ensures Kids(rule, nodes, from, p) == Filter((k: Node) => Parent(rule, nodes, k) == p, from)
  {
    hide Parent;
    if from != [] { KidsAreFilter(rule, nodes, from[1..], p); }
  }

  lemma PicksCompose<T>(s: seq<T>, r: seq<T>, t: seq<T>, a: seq<nat>, b: seq<nat>) returns (c: seq<nat>)
    requires Picks(s, r, a) && Picks(r, t, b)
    ensures Picks(s, t, c)
  {
    c := seq(|b|, i requires 0 <= i < |b| => a[b[i]]);
  }

  lemma KidsInStoreOrder(all: seq<Node>, tenant: Option<string>, p: Option<string>) returns (at: seq<nat>)
    ensures var nodes := OfTenant(all, tenant); Picks(all, Kids(Full, nodes, nodes, p), at)
  {
    hide *;
    var nodes := OfTenant(all, tenant);
    OfTenantFilter(all, tenant);
    KidsAreFilter(Full, nodes, nodes, p);
    var a := FilterPicks((n: Node) => tenant in {None, Some("")} || n.tenantId == tenant, all);
    var b := FilterPicks((k: Node) => Parent(Full, nodes, k) == p, nodes);
    at := PicksCompose(all, nodes, Kids(Full, nodes, nodes, p), a, b);
  }

  lemma ForestStored(all: seq<Node>, tenant: Option<string>, chain: seq<Node>)
    requires UniqueIds(OfTenant(all, tenant)) && Chain(Full, OfTenant(all, tenant), chain)
    ensures var f := Unfold(Full, OfTenant(all, tenant), chain);
            Stored(all, tenant, Tip(chain), f) && StoreOrder(all, f)
    decreases |OfTenant(all, tenant)| - |chain|, 1, 0
  {
    hide OfTenant, UniqueIds, Chain, UnfoldEach, StoredTree, Picks, NodesOf;
    var nodes := OfTenant(all, tenant);
    var ks := Kids(Full, nodes, nodes, Tip(chain));
    EachStored(all, tenant, chain, ks);
    UnfoldedNodes(Full, nodes, chain, ks);
    var at := KidsInStoreOrder(all, tenant, Tip(chain));
    assert Picks(all, NodesOf(Unfold(Full, nodes, chain)), at);
  }

  lemma UnfoldedNodes(rule: Rule, nodes: seq<Node>, chain: seq<Node>, ks: seq<Node>)
    requires UniqueIds(nodes) && Chain(rule, nodes, chain) && AreKids(rule, nodes, chain, ks)
    ensures NodesOf(UnfoldEach(rule, nodes, chain, ks)) == ks
    decreases |ks|
  {
    hide UniqueIds, Chain, Below;
    if ks != [] {
      UnfoldedNodes(rule, nodes, chain, ks[1..]);
      var f := UnfoldEach(rule, nodes, chain, ks);
      assert f[1..] == UnfoldEach(rule, nodes, chain, ks[1..]);
      assert NodesOf(f) == [f[0].node] + NodesOf(f[1..]);
    }
  }

  lemma EachStored(all: seq<Node>, tenant: Option<string>, chain: seq<Node>, ks: seq<Node>)
    requires var nodes := OfTenant(all, tenant);
             UniqueIds(nodes) && Chain(Full, nodes, chain) && AreKids(Full, nodes, chain, ks)
    ensures var f := UnfoldEach(Full, OfTenant(all, tenant), chain, ks);
            Stored(all, tenant, Tip(chain), f) && forall t :: t in f ==> StoreOrder(all, t.children)
    decreases |OfTenant(all, tenant)| - |chain|, 0, |ks|
  {
    hide OfTenant, UniqueIds, Chain, StoredTree, StoreOrder, Below;
    if ks != [] {
      OneStored(all, tenant, chain, ks[0]);
      EachStored(all, tenant, chain, ks[1..]);
    }
  }

  lemma OneStored(all: seq<Node>, tenant: Option<string>, chain: seq<Node>, k: Node)
    requires var nodes := OfTenant(all, tenant);
             UniqueIds(nodes) && Chain(Full, nodes, chain) && k in nodes && Parent(Full, nodes, k) == Tip(chain)
    ensures var below := Below(Full, OfTenant(all, tenant), chain, k);
            StoredTree(all, tenant, Tip(chain), Tree(k, below)) && StoreOrder(all, below)
    decreases |OfTenant(all, tenant)| - |chain|, 0, 0
  {
    hide OfTenant, UniqueIds, Chain, Stored, StoreOrder, Unfold, Visible, BelongsUnder, Parent;
    var nodes, longer := OfTenant(all, tenant), chain + [k];
    ChainExtend(Full, nodes, chain, k);
    ChainBounded(Full, nodes, longer);
    ForestStored(all, tenant, longer);
    OfTenantMember(all, tenant, k);
    TipKnown(all, tenant, chain);
    FullParent(all, tenant, k, Tip(chain));
  }

  lemma TipKnown(all: seq<Node>, tenant: Option<string>, chain: seq<Node>)
    requires Chain(Full, OfTenant(all, tenant), chain)
    ensures Tip(chain).Some? ==> Known(all, tenant, Tip(chain).value)
  {
    hide OfTenant, Parent;
    if chain != [] {
      var last := chain[|chain| - 1];
      OfTenantMember(all, tenant, last);
      VisibleIsKnown(all, tenant, last);
    }
  }

  lemma RootedIsWay(all: seq<Node>, tenant: Option<string>, n: Node)
    requires UniqueIds(OfTenant(all, tenant)) && Visible(all, tenant, n)
    ensures Rooted(Full, OfTenant(all, tenant), n) <==> exists q :: FullWay(all, tenant, q) && EndsAt(q, n)
  {
    hide OfTenant, Chain, FullWay, Visible;
    var nodes := OfTenant(all, tenant);
    OfTenantMember(all, tenant, n);
    RootedEnds(nodes, n);
    forall q: seq<Node> | q != [] ensures Chain(Full, nodes, q) <==> FullWay(all, tenant, q) {
      FullChain(all, tenant, q);
    }
    forall q | FullWay(all, tenant, q) ensures q != [] { WayNotEmpty(all, tenant, q); }
  }

  lemma WayNotEmpty(all: seq<Node>, tenant: Option<string>, q: seq<Node>)
    requires FullWay(all, tenant, q)
    ensures q != []
  {
  }

  lemma RootedEnds(nodes: seq<Node>, n: Node)
    requires UniqueIds(nodes) && n in nodes
    ensures Rooted(Full, nodes, n) <==> exists q :: Chain(Full, nodes, q) && q != [] && q[|q| - 1] == n
  {
    if q :| Chain(Full, nodes, q) && Tip(q) == Some(n.id) { SameNode(nodes, q[|q| - 1], n); }
    if q :| Chain(Full, nodes, q) && q != [] && q[|q| - 1] == n { assert Tip(q) == Some(n.id); }
  }

  lemma OccurrencesVisible(all: seq<Node>, tenant: Option<string>, parent: Option<string>, f: seq<Tree>)
    requires Stored(all, tenant, parent, f)
    ensures forall n :: n in Occurrences(f) ==> Visible(all, tenant, n)
    decreases f
  {
    if f != [] {
      assert StoredTree(all, tenant, parent, f[0]);
      OccurrencesVisible(all, tenant, Some(f[0].node.id), f[0].children);
      assert forall t :: t in f[1..] ==> t in f;
      OccurrencesVisible(all, tenant, parent, f[1..]);
      forall n | n in Occurrences(f) ensures Visible(all, tenant, n) {}
    }
  }

  /** The full tree, in full: what it shows, under what, in which order; a visible node is shown once when a way leads
      to it from the top, and otherwise not at all. */
  lemma FullTreeShows(all: seq<Node>, tenant: Option<string>)
    requires UniqueIds(OfTenant(all, tenant))
    ensures var f := FullForest(OfTenant(all, tenant));
            && Stored(all, tenant, None, f) && StoreOrder(all, f)
            && forall n :: Occurrences(f)[n] ==
                 if Visible(all, tenant, n) && exists q :: FullWay(all, tenant, q) && EndsAt(q, n) then 1 else 0
  {
    hide OfTenant, UniqueIds, Chain, Stored, StoreOrder, Visible, FullWay, Unfold, Occurrences, Rooted;
    var f := FullForest(OfTenant(all, tenant));
    EmptyChain(Full, OfTenant(all, tenant));
    ForestStored(all, tenant, []);
    OccurrencesVisible(all, tenant, None, f);
    forall n | Visible(all, tenant, n)
      ensures Occurrences(f)[n] ==
              if exists q :: FullWay(all, tenant, q) && EndsAt(q, n) then 1 else 0
    {
      OfTenantMember(all, tenant, n);
      FullTreeOccurrences(OfTenant(all, tenant), n);
      RootedIsWay(all, tenant, n);
    }
  }

  // ------------------------------------------------------------------
  // The stripped tree
  // ------------------------------------------------------------------

  /** The same tree with each node's own fields, no empty lists of children, and no `hasChildren`. */
  ghost predicate Stripped(f: seq<Tree>, r: seq<NavNode>)
    decreases f
  {
    && |r| == |f|
    && forall i :: 0 <= i < |f| ==> StrippedNode(f[i], r[i])
  }

  ghost predicate StrippedNode(t: Tree, n: NavNode)
    decreases t
  {
    && n.id == t.node.id && n.name == t.node.name && n.order == t.node.order && n.parentId == t.node.parentId
    && n.display == t.node.display && n.hasChildren == None
    && (n.children.Absent? <==> t.children == [])
    && (n.children.Present? ==> Stripped(t.children, n.children.list))
  }

  lemma StripIs(f: seq<Tree>)
    ensures Stripped(f, Strip(f))
    decreases f
  {
    if f != [] {
      StripIs(f[0].children);
      StripIs(f[1..]);
      assert StrippedNode(f[0], Strip(f)[0]);
      assert Strip(f)[1..] == Strip(f[1..]);
      forall i | 1 <= i < |f| ensures StrippedNode(f[i], Strip(f)[i]) {
        assert f[i] == f[1..][i - 1] && Strip(f)[i] == Strip(f[1..])[i - 1];
      }
    }
  }
}
