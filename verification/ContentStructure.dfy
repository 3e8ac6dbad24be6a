/** `getContentStructure` of src/content/content-utils.ts in its own form: shallow copies of the nodes,
    linked through their `children` arrays in place. */
module ContentStructure {
  import opened Options
  import opened ContentTree
  import opened NavigationTree

  /** A shallow copy of a node with its own `children` array. */
  class Branch {
    const node: Node
    var children: seq<Branch>

    constructor (node: Node)
      ensures this.node == node && children == []
    {
      this.node := node;
      children := [];
    }
  }

  /** The linked copies in `objs` reachable from `bs` spell out the forest `f`. */
  ghost predicate ShowsAll(objs: set<Branch>, bs: seq<Branch>, f: seq<Tree>)
    reads objs
    decreases f
  {
    && |bs| == |f|
    && (f == [] ||
        (&& bs[0] in objs
         && bs[0].node == f[0].node
         && ShowsAll(objs, bs[0].children, f[0].children)
         && ShowsAll(objs, bs[1..], f[1..])))
  }

  /** The copies of a list of nodes. */
  ghost function Copies(copies: map<string, Branch>, ks: seq<Node>): seq<Branch>
    requires forall k :: k in ks ==> k.id in copies
  {
    seq(|ks|, i requires 0 <= i < |ks| => copies[ks[i].id])
  }

  /** Each stored node has its own copy. */
  ghost predicate Copied(nodes: seq<Node>, copies: map<string, Branch>, objs: set<Branch>) {
    && (forall n :: n in nodes ==> n.id in copies && copies[n.id] in objs && copies[n.id].node == n)
    && (forall id :: id in copies ==> id in Ids(nodes))
  }

  /** The copies are linked for the first `from` nodes of the store. */
  ghost predicate Linked(nodes: seq<Node>, from: seq<Node>, copies: map<string, Branch>, objs: set<Branch>)
    requires Copied(nodes, copies, objs) && forall k :: k in from ==> k in nodes
    reads objs
  {
    forall n :: n in nodes ==> copies[n.id].children == Copies(copies, Kids(Full, nodes, from, Some(n.id)))
  }

  lemma LinkedShows(nodes: seq<Node>, copies: map<string, Branch>, objs: set<Branch>, chain: seq<Node>)
    requires UniqueIds(nodes) && Copied(nodes, copies, objs) && Linked(nodes, nodes, copies, objs)
    requires Chain(Full, nodes, chain)
    ensures ShowsAll(objs, Copies(copies, Kids(Full, nodes, nodes, Tip(chain))), Unfold(Full, nodes, chain))
    decreases |nodes| - |chain|, 1, 0
  {
    hide UniqueIds, Chain, Linked, Copied, UnfoldEach, ShowsAll;
    LinkedShowsEach(nodes, copies, objs, chain, Kids(Full, nodes, nodes, Tip(chain)));
  }

  lemma LinkedShowsEach(nodes: seq<Node>, copies: map<string, Branch>, objs: set<Branch>, chain: seq<Node>,
                        ks: seq<Node>)
    requires UniqueIds(nodes) && Copied(nodes, copies, objs) && Linked(nodes, nodes, copies, objs)
    requires Chain(Full, nodes, chain) && AreKids(Full, nodes, chain, ks)
    ensures ShowsAll(objs, Copies(copies, ks), UnfoldEach(Full, nodes, chain, ks))
    decreases |nodes| - |chain|, 0, |ks|
  {
    hide UniqueIds, Chain, Linked, Copied, Below;
    CopiedStore(nodes, copies, objs);
    if ks != [] {
      LinkedShowsOne(nodes, copies, objs, chain, ks[0]);
      LinkedShowsEach(nodes, copies, objs, chain, ks[1..]);
      assert Copies(copies, ks)[1..] == Copies(copies, ks[1..]);
      assert UnfoldEach(Full, nodes, chain, ks)[1..] == UnfoldEach(Full, nodes, chain, ks[1..]);
    }
  }

  lemma CopiedStore(nodes: seq<Node>, copies: map<string, Branch>, objs: set<Branch>)
    requires Copied(nodes, copies, objs)
    ensures forall n :: n in nodes ==> n.id in copies
  {
  }

  lemma LinkedShowsOne(nodes: seq<Node>, copies: map<string, Branch>, objs: set<Branch>, chain: seq<Node>, k: Node)
    requires UniqueIds(nodes) && Copied(nodes, copies, objs) && Linked(nodes, nodes, copies, objs)
    requires Chain(Full, nodes, chain) && k in nodes && Parent(Full, nodes, k) == Tip(chain)
    ensures k.id in copies && copies[k.id] in objs && copies[k.id].node == k
    ensures ShowsAll(objs, copies[k.id].children, Below(Full, nodes, chain, k))
    decreases |nodes| - |chain|, 0, 0
  {
    hide UniqueIds, Chain, Unfold, Parent, Kids, ShowsAll, AreKids;
    ChainExtend(Full, nodes, chain, k);
    ChainBounded(Full, nodes, chain + [k]);
    LinkedShows(nodes, copies, objs, chain + [k]);
  }

  /** One shallow copy of every node, in store order. */
  method CopyNodes(nodes: seq<Node>)
    returns (nodesMap: map<string, Branch>, values: seq<Branch>, ghost objs: set<Branch>)
    requires UniqueIds(nodes)
    ensures fresh(objs) && Copied(nodes, nodesMap, objs)
    ensures values == Copies(nodesMap, nodes)
    ensures forall b :: b in objs ==> b.children == []
  {
    nodesMap, values, objs := map[], [], {};
    for i := 0 to |nodes|
      invariant fresh(objs)
      invariant Copied(nodes[..i], nodesMap, objs)
      invariant |values| == i && forall j :: 0 <= j < i ==> values[j] == nodesMap[nodes[j].id]
      invariant forall b :: b in objs ==> b.children == []
    {
      var copy := new Branch(nodes[i]);
      assert nodes[..i + 1] == nodes[..i] + [nodes[i]];
      nodesMap := nodesMap[nodes[i].id := copy];
      values := values + [copy];
      objs := objs + {copy};
    }
    assert nodes[..|nodes|] == nodes;
  }

  /** Where one more node is linked. */
  ghost function Grown(copies: map<string, Branch>, nodes: seq<Node>, from: seq<Node>, n: Node,
                       p: Option<string>): seq<Branch>
    requires n in nodes && (forall k :: k in from ==> k in nodes) && forall k :: k in nodes ==> k.id in copies
  {
    Copies(copies, Kids(Full, nodes, from, p)) + (if Parent(Full, nodes, n) == p then [copies[n.id]] else [])
  }

  lemma LinkGrows(nodes: seq<Node>, from: seq<Node>, n: Node, copies: map<string, Branch>, p: Option<string>)
    requires n in nodes && (forall k :: k in from ==> k in nodes) && forall k :: k in nodes ==> k.id in copies
    ensures forall k :: k in from + [n] ==> k in nodes
    ensures Copies(copies, Kids(Full, nodes, from + [n], p)) == Grown(copies, nodes, from, n, p)
  {
    hide Kids, Parent;
    KidsSnoc(Full, nodes, from, n, p);
  }

  /** Push one copy to its parent's children, or return it as a root. */
  method LinkOne(ghost nodes: seq<Node>, ghost from: seq<Node>, n: Node, node: Branch, nodesMap: map<string, Branch>,
                 tree: seq<Branch>, ghost objs: set<Branch>) returns (tree': seq<Branch>)
    requires UniqueIds(nodes) && Copied(nodes, nodesMap, objs) && n in nodes && node == nodesMap[n.id]
    requires (forall k :: k in from ==> k in nodes) && Linked(nodes, from, nodesMap, objs)
    requires tree == Copies(nodesMap, Kids(Full, nodes, from, None))
    modifies objs
    ensures forall k :: k in from + [n] ==> k in nodes
    ensures Linked(nodes, from + [n], nodesMap, objs)
    ensures tree' == Copies(nodesMap, Kids(Full, nodes, from + [n], None))
  {
    hide UniqueIds, Kids;
    forall p ensures Copies(nodesMap, Kids(Full, nodes, from + [n], p)) == Grown(nodesMap, nodes, from, n, p) {
      LinkGrows(nodes, from, n, nodesMap, p);
    }
    var pId := node.node.parentId;
    if pId.Some? && pId.value != "" && pId.value in nodesMap {
      var parent := nodesMap[pId.value];
      parent.children := parent.children + [node];
      tree' := tree;
    } else {
      tree' := tree + [node];
    }
  }

  method LinkCopies(nodes: seq<Node>, nodesMap: map<string, Branch>, values: seq<Branch>, ghost objs: set<Branch>)
    returns (tree: seq<Branch>)
    requires UniqueIds(nodes) && Copied(nodes, nodesMap, objs) && values == Copies(nodesMap, nodes)
    requires forall b :: b in objs ==> b.children == []
    modifies objs
    ensures Linked(nodes, nodes, nodesMap, objs)
    ensures tree == Copies(nodesMap, Kids(Full, nodes, nodes, None))
  {
    hide UniqueIds, Copied, Linked, Kids;
    CopiedStore(nodes, nodesMap, objs);
    tree := [];
    NothingLinked(nodes, nodesMap, objs);
    for i := 0 to |nodes|
      invariant Linked(nodes, nodes[..i], nodesMap, objs)
      invariant tree == Copies(nodesMap, Kids(Full, nodes, nodes[..i], None))
    {
      assert nodes[..i + 1] == nodes[..i] + [nodes[i]];
      tree := LinkOne(nodes, nodes[..i], nodes[i], values[i], nodesMap, tree, objs);
    }
    assert nodes[..|nodes|] == nodes;
  }

  lemma NothingLinked(nodes: seq<Node>, copies: map<string, Branch>, objs: set<Branch>)
    requires Copied(nodes, copies, objs) && forall b :: b in objs ==> b.children == []
    ensures Linked(nodes, [], copies, objs) && Kids(Full, nodes, [], None) == []
  {
  }

  /** Filter by tenant, copy every node, then push each copy to its parent's children or to the roots. */
  method GetContentStructure(initializing: bool, allNodes: seq<Node>, tenant: Option<string>)
    returns (tree: seq<Branch>, ghost objs: set<Branch>)
    requires UniqueIds(OfTenant(allNodes, tenant))
    ensures fresh(objs)
    ensures initializing ==> tree == []
    ensures !initializing ==> ShowsAll(objs, tree, FullForest(OfTenant(allNodes, tenant)))
  {
    if initializing { return [], {}; }
    hide UniqueIds, Copied, Linked, OfTenant, ShowsAll, Unfold;
    var nodes := OfTenant(allNodes, tenant);
    var nodesMap, values, copies := CopyNodes(nodes);
    objs := copies;
    tree := LinkCopies(nodes, nodesMap, values, objs);
    LinkedShows(nodes, nodesMap, objs, []);
  }
}
