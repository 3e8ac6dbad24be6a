/** The content tree of src/content/content-utils.ts: the nested structure built from parent
    links (`getContentStructure`), its stripped form, and the depth-limited navigation tree
    (`getNavigationStructureProgressive`). */
module ContentTree {
  import opened Options
  import opened Sequences
  import opened StableSort

  datatype Display = Display(path: Option<string>, icon: Option<string>, nodeType: string, translations: seq<string>)

  datatype Node = Node(id: string, name: string, order: Option<real>, parentId: Option<string>,
                       tenantId: Option<string>, display: Display)

  /** Output of both navigation functions; the stripped tree leaves `hasChildren` out. */
  datatype NavNode = NavNode(id: string, name: string, order: Option<real>, parentId: Option<string>,
                             display: Display, children: Children, hasChildren: Option<bool>)

  datatype Children = Absent | Present(list: seq<NavNode>)

  function OrderKey(order: Option<real>, name: string): Key {
    Key(if order.Some? then order.value else 999.0, name)
  }

  function NavKey(n: NavNode): Key { OrderKey(n.order, n.name) }

  // ------------------------------------------------------------------
  // Stores and parents
  // ------------------------------------------------------------------

  ghost predicate UniqueIds(nodes: seq<Node>) {
    forall i, j :: 0 <= i < j < |nodes| ==> nodes[i].id != nodes[j].id
  }

  function Ids(nodes: seq<Node>): set<string> { set n | n in nodes :: n.id }

  /** The nodes of one tenant; all of them when no tenant is named. */
  function OfTenant(nodes: seq<Node>, tenant: Option<string>): seq<Node> {
    if tenant.None? || tenant.value == "" then nodes
    else if nodes == [] then []
    else (if nodes[0].tenantId == tenant then [nodes[0]] else []) + OfTenant(nodes[1..], tenant)
  }

  /** Which of the two trees is being built. */
  datatype Rule = Full | Progressive(maxDepth: int, expanded: set<string>)

  /** The key a node hangs under; `None` for a root.  The full tree treats an unresolved parent as
      no parent; the navigation tree treats the text "null" as no parent. */
  function Parent(rule: Rule, nodes: seq<Node>, n: Node): Option<string> {
    if n.parentId.None? || n.parentId.value == "" then None
    else match rule
      case Full => if n.parentId.value in Ids(nodes) then n.parentId else None
      case Progressive(_, _) => if n.parentId.value == "null" then None else n.parentId
  }

  /** Whether the children of a node at this depth are loaded (`shouldLoadChildren`). */
  predicate Loads(rule: Rule, depth: nat, id: string) {
    match rule
    case Full => true
    case Progressive(maxDepth, expanded) => depth < maxDepth || id in expanded
  }

  /** The nodes hanging under `parent`, in store order. */
  function Kids(rule: Rule, nodes: seq<Node>, from: seq<Node>, parent: Option<string>): (r: seq<Node>)
    ensures forall k :: k in r <==> k in from && Parent(rule, nodes, k) == parent
  {
    if from == [] then []
    else (if Parent(rule, nodes, from[0]) == parent then [from[0]] else []) + Kids(rule, nodes, from[1..], parent)
  }

  // ------------------------------------------------------------------
  // Chains of parents
  // ------------------------------------------------------------------

  /** The key the children of the last node of a chain hang under. */
  function Tip(chain: seq<Node>): Option<string> {
    if chain == [] then None else Some(chain[|chain| - 1].id)
  }

  /** A path of the store from a root downwards. */
  ghost predicate Chain(rule: Rule, nodes: seq<Node>, chain: seq<Node>) {
    forall i :: 0 <= i < |chain| ==> chain[i] in nodes && Parent(rule, nodes, chain[i]) == Tip(chain[..i])
  }

  lemma ChainPrefix(rule: Rule, nodes: seq<Node>, chain: seq<Node>, k: nat)
    requires Chain(rule, nodes, chain) && k <= |chain|
    ensures Chain(rule, nodes, chain[..k])
  {
  }

  lemma ChainExtend(rule: Rule, nodes: seq<Node>, chain: seq<Node>, n: Node)
    requires Chain(rule, nodes, chain) && n in nodes && Parent(rule, nodes, n) == Tip(chain)
    ensures Chain(rule, nodes, chain + [n])
  {
  }

  /** Two chains with the same last id are the same chain: walking up leaves no choice. */
  lemma {:induction false} ChainUnique(rule: Rule, nodes: seq<Node>, a: seq<Node>, b: seq<Node>)
    requires UniqueIds(nodes) && Chain(rule, nodes, a) && Chain(rule, nodes, b) && Tip(a) == Tip(b)
    ensures a == b
    decreases |a|
  {
    if a == [] {
      assert b == [];
    } else {
      var i, j := |a| - 1, |b| - 1;
      SameNode(nodes, a[i], b[j]);
      ChainPrefix(rule, nodes, a, i);
      ChainPrefix(rule, nodes, b, j);
      ChainUnique(rule, nodes, a[..i], b[..j]);
      assert a == a[..i] + [a[i]] && b == b[..j] + [b[j]];
    }
  }

  lemma SameNode(nodes: seq<Node>, m: Node, n: Node)
    requires UniqueIds(nodes) && m in nodes && n in nodes && m.id == n.id
    ensures m == n
  {
  }

  /** No node occurs twice on a chain, so parent links that form a cycle are never followed. */
  lemma ChainDistinct(rule: Rule, nodes: seq<Node>, chain: seq<Node>, i: nat, j: nat)
    requires UniqueIds(nodes) && Chain(rule, nodes, chain) && i < j < |chain|
    ensures chain[i] != chain[j]
  {
    hide Chain, UniqueIds;
    var a, b := chain[..i + 1], chain[..j + 1];
    ChainPrefix(rule, nodes, chain, i + 1);
    ChainPrefix(rule, nodes, chain, j + 1);
    assert a[i] == chain[i] && b[j] == chain[j];
    if chain[i] == chain[j] { ChainUnique(rule, nodes, a, b); }
  }

  lemma {:induction false} DistinctSize(s: seq<Node>)
    requires Distinct(s)
    ensures |set n | n in s| == |s|
  {
    if s != [] {
      var last, init := s[|s| - 1], s[..|s| - 1];
      DistinctSize(init);
      assert (set n | n in s) == (set n | n in init) + {last};
    }
  }

  lemma {:induction false} SeqSetSize(s: seq<Node>)
    ensures |set n | n in s| <= |s|
  {
    if s != [] {
      SeqSetSize(s[1..]);
      assert (set n | n in s) == {s[0]} + (set n | n in s[1..]);
    }
  }

  lemma SubsetSize<T>(a: set<T>, b: set<T>)
    requires a <= b
    ensures |a| <= |b|
  {
    assert b == a + (b - a);
  }

  /** A chain is no longer than the store: the recursion of `buildTree` terminates on every store,
      cyclic or not. */
  lemma ChainBounded(rule: Rule, nodes: seq<Node>, chain: seq<Node>)
    requires UniqueIds(nodes) && Chain(rule, nodes, chain)
    ensures |chain| <= |nodes|
  {
    forall i, j | 0 <= i < j < |chain| ensures chain[i] != chain[j] {
      ChainDistinct(rule, nodes, chain, i, j);
    }
    DistinctSize(chain);
    SeqSetSize(nodes);
    SubsetSize(set n | n in chain, set n | n in nodes);
  }

  // ------------------------------------------------------------------
  // The unsorted tree
  // ------------------------------------------------------------------

  datatype Tree = Tree(node: Node, children: seq<Tree>)

  ghost predicate AreKids(rule: Rule, nodes: seq<Node>, chain: seq<Node>, ks: seq<Node>) {
    forall k :: k in ks ==> k in nodes && Parent(rule, nodes, k) == Tip(chain)
  }

  /** What hangs under the last node of a chain, as far as it is loaded. */
  ghost function Unfold(rule: Rule, nodes: seq<Node>, chain: seq<Node>): seq<Tree>
    requires UniqueIds(nodes) && Chain(rule, nodes, chain)
    decreases |nodes| - |chain|, 1, 0
  {
    UnfoldEach(rule, nodes, chain, Kids(rule, nodes, nodes, Tip(chain)))
  }

  ghost function UnfoldEach(rule: Rule, nodes: seq<Node>, chain: seq<Node>, ks: seq<Node>): seq<Tree>
    requires UniqueIds(nodes) && Chain(rule, nodes, chain) && AreKids(rule, nodes, chain, ks)
    decreases |nodes| - |chain|, 0, |ks|
  {
    if ks == [] then []
    else [Tree(ks[0], Below(rule, nodes, chain, ks[0]))] + UnfoldEach(rule, nodes, chain, ks[1..])
  }

  ghost function Below(rule: Rule, nodes: seq<Node>, chain: seq<Node>, k: Node): seq<Tree>
    requires UniqueIds(nodes) && Chain(rule, nodes, chain) && k in nodes && Parent(rule, nodes, k) == Tip(chain)
    decreases |nodes| - |chain|, 0, 0
  {
    ChainExtend(rule, nodes, chain, k);
    ChainBounded(rule, nodes, chain + [k]);
    if Loads(rule, |chain| + 1, k.id) then Unfold(rule, nodes, chain + [k]) else []
  }

  /** The tree `getContentStructure` returns. */
  ghost function FullForest(nodes: seq<Node>): seq<Tree>
    requires UniqueIds(nodes)
  {
    Unfold(Full, nodes, [])
  }

  /** Every node of a forest, with the number of times it occurs. */
  ghost function Occurrences(f: seq<Tree>): multiset<Node> {
    if f == [] then multiset{}
    else multiset{f[0].node} + Occurrences(f[0].children) + Occurrences(f[1..])
  }

  /** Each node hangs under its own parent. */
  ghost predicate Placed(rule: Rule, nodes: seq<Node>, f: seq<Tree>, parent: Option<string>) {
    f == [] ||
    (&& Parent(rule, nodes, f[0].node) == parent
     && Placed(rule, nodes, f[0].children, Some(f[0].node.id))
     && Placed(rule, nodes, f[1..], parent))
  }

  /** `q` continues `chain` down to `n`, and every node passed on the way is loaded. */
  ghost predicate Leads(rule: Rule, nodes: seq<Node>, chain: seq<Node>, q: seq<Node>, n: Node) {
    && Chain(rule, nodes, q)
    && |chain| < |q| && q[..|chain|] == chain && q[|q| - 1] == n
    && forall i :: |chain| <= i < |q| - 1 ==> Loads(rule, i + 1, q[i].id)
  }

  /** Walking up from `n` reaches a root. */
  ghost predicate Rooted(rule: Rule, nodes: seq<Node>, n: Node) {
    exists q :: Chain(rule, nodes, q) && Tip(q) == Some(n.id)
  }

  /** Walking up from `n` reaches a root, and every ancestor on the way is loaded. */
  ghost predicate Shown(rule: Rule, nodes: seq<Node>, n: Node) {
    exists q :: Leads(rule, nodes, [], q, n)
  }

  ghost function Bit(b: bool): nat { if b then 1 else 0 }

  lemma LeadsUnique(rule: Rule, nodes: seq<Node>, c1: seq<Node>, q1: seq<Node>, c2: seq<Node>, q2: seq<Node>, n: Node)
    requires UniqueIds(nodes) && Leads(rule, nodes, c1, q1, n) && Leads(rule, nodes, c2, q2, n)
    ensures q1 == q2
  {
    ChainUnique(rule, nodes, q1, q2);
  }

  /** A way down through the kid `k` is `k` itself, or goes on below a loaded `k`. */
  lemma LeadsVia(rule: Rule, nodes: seq<Node>, chain: seq<Node>, k: Node, q: seq<Node>, n: Node)
    requires |q| > |chain| + 1
    ensures Leads(rule, nodes, chain, q, n) && q[|chain|] == k <==>
            Loads(rule, |chain| + 1, k.id) && Leads(rule, nodes, chain + [k], q, n)
  {
    assert q[..|chain| + 1] == q[..|chain|] + [q[|chain|]];
    if q[..|chain| + 1] == chain + [k] {
      assert q[..|chain| + 1][..|chain|] == chain && q[..|chain| + 1][|chain|] == k;
    }
  }

  /** A kid is reached from its parent directly, and from below itself never. */
  lemma LeadsToKid(rule: Rule, nodes: seq<Node>, chain: seq<Node>, k: Node)
    requires UniqueIds(nodes) && Chain(rule, nodes, chain) && k in nodes && Parent(rule, nodes, k) == Tip(chain)
    ensures Leads(rule, nodes, chain, chain + [k], k)
    ensures forall q :: !Leads(rule, nodes, chain + [k], q, k)
  {
    var longer := chain + [k];
    ChainExtend(rule, nodes, chain, k);
    assert longer[..|chain|] == chain;
    hide Chain, UniqueIds;
    forall q ensures !Leads(rule, nodes, longer, q, k) {
      if Leads(rule, nodes, longer, q, k) { ChainUnique(rule, nodes, q, longer); }
    }
  }

  lemma LeadsPastKid(rule: Rule, nodes: seq<Node>, chain: seq<Node>, k: Node, n: Node)
    requires k != n
    ensures (exists q :: Leads(rule, nodes, chain, q, n) && q[|chain|] == k) <==>
            (Loads(rule, |chain| + 1, k.id) && exists q :: Leads(rule, nodes, chain + [k], q, n))
  {
    forall q ensures Leads(rule, nodes, chain, q, n) && q[|chain|] == k <==>
                     Loads(rule, |chain| + 1, k.id) && Leads(rule, nodes, chain + [k], q, n) {
      if |q| > |chain| + 1 { LeadsVia(rule, nodes, chain, k, q, n); }
    }
  }

  /** How often `n` occurs at or below one kid. */
  lemma OccurrencesBelow(rule: Rule, nodes: seq<Node>, chain: seq<Node>, k: Node, n: Node)
    requires UniqueIds(nodes) && Chain(rule, nodes, chain) && k in nodes && Parent(rule, nodes, k) == Tip(chain)
    ensures Bit(k == n) + Occurrences(Below(rule, nodes, chain, k))[n]
         == Bit(exists q :: Leads(rule, nodes, chain, q, n) && q[|chain|] == k)
    decreases |nodes| - |chain|, 0, 0
  {
    hide Chain, UniqueIds, Leads, Unfold;
    var longer := chain + [k];
    ChainExtend(rule, nodes, chain, k);
    ChainBounded(rule, nodes, longer);
    if Loads(rule, |chain| + 1, k.id) { OccurrencesUnfold(rule, nodes, longer, n); }
    if k == n {
      LeadsToKid(rule, nodes, chain, k);
      assert longer[|chain|] == k;
    } else {
      LeadsPastKid(rule, nodes, chain, k, n);
    }
  }

  lemma OccurrencesEach(rule: Rule, nodes: seq<Node>, chain: seq<Node>, ks: seq<Node>, n: Node)
    requires UniqueIds(nodes) && Chain(rule, nodes, chain) && AreKids(rule, nodes, chain, ks)
    requires Distinct(ks)
    ensures Occurrences(UnfoldEach(rule, nodes, chain, ks))[n]
         == Bit(exists q :: Leads(rule, nodes, chain, q, n) && q[|chain|] in ks)
    decreases |nodes| - |chain|, 0, |ks|
  {
    hide UniqueIds, Chain, Leads, Occurrences, UnfoldEach, Below;
    if ks == [] {
      NoOccurrences(rule, nodes, chain, n);
    } else {
      OccurrencesBelow(rule, nodes, chain, ks[0], n);
      OccurrencesEach(rule, nodes, chain, ks[1..], n);
      OneWay(rule, nodes, chain, ks, n);
      OccurrencesCons(rule, nodes, chain, ks, n);
    }
  }

  lemma NoOccurrences(rule: Rule, nodes: seq<Node>, chain: seq<Node>, n: Node)
    requires UniqueIds(nodes) && Chain(rule, nodes, chain)
    ensures Occurrences(UnfoldEach(rule, nodes, chain, []))[n] == 0
  {
    hide UniqueIds, Chain;
  }

  lemma OccurrencesCons(rule: Rule, nodes: seq<Node>, chain: seq<Node>, ks: seq<Node>, n: Node)
    requires UniqueIds(nodes) && Chain(rule, nodes, chain) && AreKids(rule, nodes, chain, ks) && ks != []
    ensures Occurrences(UnfoldEach(rule, nodes, chain, ks))[n]
         == Bit(ks[0] == n) + Occurrences(Below(rule, nodes, chain, ks[0]))[n]
            + Occurrences(UnfoldEach(rule, nodes, chain, ks[1..]))[n]
  {
    hide UniqueIds, Chain, Below;
  }

  /** The way down goes through one kid only. */
  lemma OneWay(rule: Rule, nodes: seq<Node>, chain: seq<Node>, ks: seq<Node>, n: Node)
    requires UniqueIds(nodes) && ks != [] && Distinct(ks)
    ensures Bit(exists q :: Leads(rule, nodes, chain, q, n) && q[|chain|] in ks)
         == Bit(exists q :: Leads(rule, nodes, chain, q, n) && q[|chain|] == ks[0])
            + Bit(exists q :: Leads(rule, nodes, chain, q, n) && q[|chain|] in ks[1..])
  {
    hide UniqueIds, Chain;
    forall p, q | Leads(rule, nodes, chain, p, n) && Leads(rule, nodes, chain, q, n) ensures p == q {
      LeadsUnique(rule, nodes, chain, p, chain, q, n);
    }
    assert ks == [ks[0]] + ks[1..];
  }

  lemma {:induction false} KidsDistinct(rule: Rule, nodes: seq<Node>, from: seq<Node>, parent: Option<string>)
    requires Distinct(from)
    ensures Distinct(Kids(rule, nodes, from, parent))
  {
    if from != [] {
      KidsDistinct(rule, nodes, from[1..], parent);
      assert from[0] !in from[1..];
    }
  }

  /** Each node is under the end of a chain at most once, and exactly when a loaded way leads to it. */
  lemma OccurrencesUnfold(rule: Rule, nodes: seq<Node>, chain: seq<Node>, n: Node)
    requires UniqueIds(nodes) && Chain(rule, nodes, chain)
    ensures Occurrences(Unfold(rule, nodes, chain))[n] == Bit(exists q :: Leads(rule, nodes, chain, q, n))
    decreases |nodes| - |chain|, 1, 0
  {
    var ks := Kids(rule, nodes, nodes, Tip(chain));
    KidsDistinct(rule, nodes, nodes, Tip(chain));
    OccurrencesEach(rule, nodes, chain, ks, n);
    forall q | Leads(rule, nodes, chain, q, n) ensures q[|chain|] in ks {
      assert q[|chain|] in nodes && Parent(rule, nodes, q[|chain|]) == Tip(q[..|chain|]);
    }
  }

  // ------------------------------------------------------------------
  // Main results on the full tree
  // ------------------------------------------------------------------

  lemma PlacedUnfold(rule: Rule, nodes: seq<Node>, chain: seq<Node>)
    requires UniqueIds(nodes) && Chain(rule, nodes, chain)
    ensures Placed(rule, nodes, Unfold(rule, nodes, chain), Tip(chain))
    decreases |nodes| - |chain|, 1, 0
  {
    PlacedEach(rule, nodes, chain, Kids(rule, nodes, nodes, Tip(chain)));
  }

  lemma PlacedEach(rule: Rule, nodes: seq<Node>, chain: seq<Node>, ks: seq<Node>)
    requires UniqueIds(nodes) && Chain(rule, nodes, chain) && AreKids(rule, nodes, chain, ks)
    ensures Placed(rule, nodes, UnfoldEach(rule, nodes, chain, ks), Tip(chain))
    decreases |nodes| - |chain|, 0, |ks|
  {
    hide Chain, UniqueIds, Unfold;
    if ks != [] {
      var k := ks[0];
      ChainExtend(rule, nodes, chain, k);
      ChainBounded(rule, nodes, chain + [k]);
      if Loads(rule, |chain| + 1, k.id) { PlacedUnfold(rule, nodes, chain + [k]); }
      PlacedEach(rule, nodes, chain, ks[1..]);
      var f := UnfoldEach(rule, nodes, chain, ks);
      assert f[0] == Tree(k, Below(rule, nodes, chain, k)) && f[1..] == UnfoldEach(rule, nodes, chain, ks[1..]);
    }
  }

  /** Every node of the full tree hangs under its own parent when that parent is present, and is a
      root otherwise. */
  lemma FullTreePlaced(nodes: seq<Node>)
    requires UniqueIds(nodes)
    ensures Placed(Full, nodes, FullForest(nodes), None)
  {
    PlacedUnfold(Full, nodes, []);
  }

  lemma RootedIsShown(nodes: seq<Node>, n: Node)
    requires UniqueIds(nodes) && n in nodes
    ensures Rooted(Full, nodes, n) <==> Shown(Full, nodes, n)
  {
    if q :| Chain(Full, nodes, q) && Tip(q) == Some(n.id) {
      SameNode(nodes, q[|q| - 1], n);
      assert q[..0] == [];
      assert Leads(Full, nodes, [], q, n);
    }
  }

  /** A node occurs in the full tree exactly once when walking up from it reaches a root, and not at
      all when its ancestors form a cycle. */
  lemma FullTreeOccurrences(nodes: seq<Node>, n: Node)
    requires UniqueIds(nodes) && n in nodes
    ensures Occurrences(FullForest(nodes))[n] == Bit(Rooted(Full, nodes, n))
  {
    hide UniqueIds, Chain, Leads;
    RootedIsShown(nodes, n);
    OccurrencesUnfold(Full, nodes, [], n);
  }

  lemma ShownIsStored(rule: Rule, nodes: seq<Node>, n: Node)
    requires Shown(rule, nodes, n)
    ensures n in nodes
  {
  }

  lemma {:induction false} CountOnce(nodes: seq<Node>, n: Node)
    requires Distinct(nodes)
    ensures multiset(nodes)[n] == Bit(n in nodes)
  {
    if nodes != [] {
      CountOnce(nodes[1..], n);
      assert nodes == [nodes[0]] + nodes[1..];
      assert nodes[0] !in nodes[1..];
    }
  }

  lemma StoreCounts(nodes: seq<Node>, n: Node)
    requires UniqueIds(nodes)
    ensures multiset(nodes)[n] == Bit(n in nodes)
    ensures Occurrences(FullForest(nodes))[n] == Bit(n in nodes && Rooted(Full, nodes, n))
  {
    assert Distinct(nodes);
    hide UniqueIds, Chain, Leads, Rooted;
    CountOnce(nodes, n);
    if n in nodes {
      FullTreeOccurrences(nodes, n);
    } else {
      OccurrencesUnfold(Full, nodes, [], n);
      if Shown(Full, nodes, n) { ShownIsStored(Full, nodes, n); }
    }
  }

  /** The full tree holds every node of the store, each once, exactly when every node's ancestors
      lead up to a root. */
  lemma FullTreeConserves(nodes: seq<Node>)
    requires UniqueIds(nodes)
    ensures Occurrences(FullForest(nodes)) == multiset(nodes) <==> forall n :: n in nodes ==> Rooted(Full, nodes, n)
  {
    hide *;
    forall n ensures multiset(nodes)[n] == Bit(n in nodes)
                  && Occurrences(FullForest(nodes))[n] == Bit(n in nodes && Rooted(Full, nodes, n)) {
      StoreCounts(nodes, n);
    }
    BitValues();
    if Occurrences(FullForest(nodes)) == multiset(nodes) {
      forall n | n in nodes ensures Rooted(Full, nodes, n) {
        assert Occurrences(FullForest(nodes))[n] == multiset(nodes)[n];
      }
    }
  }

  lemma BitValues()
    ensures Bit(true) == 1 && Bit(false) == 0
  {
  }

  // ------------------------------------------------------------------
  // Cycles
  // ------------------------------------------------------------------

  /** Parent links that run in a circle. */
  ghost predicate Cycle(rule: Rule, nodes: seq<Node>, c: seq<Node>) {
    && c != [] && (forall i :: 0 <= i < |c| ==> c[i] in nodes)
    && Parent(rule, nodes, c[0]) == Some(c[|c| - 1].id)
    && forall i :: 0 < i < |c| ==> Parent(rule, nodes, c[i]) == Some(c[i - 1].id)
  }

  /** No chain from a root enters a cycle. */
  lemma {:induction false} CycleUnrooted(rule: Rule, nodes: seq<Node>, c: seq<Node>, i: nat, q: seq<Node>)
    requires UniqueIds(nodes) && Cycle(rule, nodes, c) && i < |c| && Chain(rule, nodes, q)
    ensures Tip(q) != Some(c[i].id)
    decreases |q|
  {
    if Tip(q) == Some(c[i].id) {
      var k := |q| - 1;
      SameNode(nodes, q[k], c[i]);
      ChainPrefix(rule, nodes, q, k);
      CycleUnrooted(rule, nodes, c, if i == 0 then |c| - 1 else i - 1, q[..k]);
    }
  }

  /** An unrooted node of the full tree has a parent in the store, unrooted too. */
  lemma UnrootedParent(nodes: seq<Node>, n: Node) returns (m: Node)
    requires UniqueIds(nodes) && n in nodes && !Rooted(Full, nodes, n)
    ensures m in nodes && Parent(Full, nodes, n) == Some(m.id) && !Rooted(Full, nodes, m)
  {
    if Parent(Full, nodes, n).None? { RootedBelow(Full, nodes, [], n); }
    m :| m in nodes && m.id == n.parentId.value;
    if q :| Chain(Full, nodes, q) && Tip(q) == Some(m.id) { RootedBelow(Full, nodes, q, n); }
  }

  lemma RootedBelow(rule: Rule, nodes: seq<Node>, q: seq<Node>, n: Node)
    requires Chain(rule, nodes, q) && n in nodes && Parent(rule, nodes, n) == Tip(q)
    ensures Rooted(rule, nodes, n)
  {
    ChainExtend(rule, nodes, q, n);
    assert Tip(q + [n]) == Some(n.id);
  }

  /** A stretch of parent links, downwards. */
  ghost predicate Descent(nodes: seq<Node>, w: seq<Node>) {
    && (forall i :: 0 <= i < |w| ==> w[i] in nodes)
    && forall i :: 0 < i < |w| ==> Parent(Full, nodes, w[i]) == Some(w[i - 1].id)
  }

  /** Above an unrooted node the parent links never end. */
  lemma {:induction false} EndlessDescent(nodes: seq<Node>, n: Node, k: nat) returns (w: seq<Node>)
    requires UniqueIds(nodes) && n in nodes && !Rooted(Full, nodes, n)
    ensures |w| == k + 1 && Descent(nodes, w) && !Rooted(Full, nodes, w[0])
  {
    hide UniqueIds, Rooted;
    if k == 0 {
      w := [n];
    } else {
      var below := EndlessDescent(nodes, n, k - 1);
      var m := UnrootedParent(nodes, below[0]);
      w := [m] + below;
      assert forall i :: 0 < i < |w| ==> w[i] == below[i - 1];
    }
  }

  lemma RepeatedIsCycle(nodes: seq<Node>, w: seq<Node>, i: nat, j: nat)
    requires Descent(nodes, w) && i < j < |w| && w[i] == w[j]
    ensures Cycle(Full, nodes, w[i + 1..j + 1])
  {
  }

  /** Every node is rooted exactly when the parent links of the store have no cycle. */
  lemma RootedIffAcyclic(nodes: seq<Node>)
    requires UniqueIds(nodes)
    ensures (forall n :: n in nodes ==> Rooted(Full, nodes, n)) <==> !exists c :: Cycle(Full, nodes, c)
  {
    if n :| n in nodes && !Rooted(Full, nodes, n) {
      var w := EndlessDescent(nodes, n, |nodes|);
      if Distinct(w) {
        DistinctSize(w);
        SeqSetSize(nodes);
        SubsetSize(set m | m in w, set m | m in nodes);
      }
      var i, j :| 0 <= i < j < |w| && w[i] == w[j];
      RepeatedIsCycle(nodes, w, i, j);
    }
    if c: seq<Node> :| Cycle(Full, nodes, c) {
      forall q | Chain(Full, nodes, q) ensures Tip(q) != Some(c[0].id) {
        CycleUnrooted(Full, nodes, c, 0, q);
      }
    }
  }

  /** Conservation: the full tree holds every node of the store, each once, exactly when the parent
      links have no cycle. */
  lemma FullTreeConservesIffAcyclic(nodes: seq<Node>)
    requires UniqueIds(nodes)
    ensures Occurrences(FullForest(nodes)) == multiset(nodes) <==> !exists c :: Cycle(Full, nodes, c)
  {
    hide *;
    FullTreeConserves(nodes);
    RootedIffAcyclic(nodes);
  }
}
