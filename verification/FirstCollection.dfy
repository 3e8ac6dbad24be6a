/** Which collection a visitor is sent to first: drop system collections, sort stably, take the head. */
module FirstCollection {
  import opened Options
  import opened Sequences
  import opened StableSort

  /** A missing string and the empty string are both falsy, so one value stands for both. */
  datatype Definition = Definition(id: string, slug: string)

  datatype Node = Node(id: string, slug: string, name: string, order: Option<real>, isCollection: bool,
                       def: Option<Definition>)

  /** What the platform supplies: `toLowerCase` and `localeCompare`. */
  datatype Platform = Platform(lower: string -> string, collate: (string, string) -> int)

  const SYSTEM_COLLECTION_NAMES := {"menu", "navigation", "form", "widgettest", "relation"}

  const SYSTEM_COLLECTION_PREFIXES := ["redirects", "404_logs", "plugin_", "workflow_", "system_",
                                       "system_content_structure", "system_settings", "system_themes"]

  /** `a || b` on strings */
  function Or(a: string, b: string): string {
    if a != "" then a else b
  }

  function NodeCollectionKey(os: Platform, node: Node): string {
    var own := Or(node.id, Or(node.slug, node.name));
    os.lower(if node.def.Some? then Or(node.def.value.id, Or(node.def.value.slug, own)) else own)
  }

  predicate IsUserFacingId(id: string) {
    id != "" && id !in SYSTEM_COLLECTION_NAMES && forall prefix <- SYSTEM_COLLECTION_PREFIXES :: !(prefix <= id)
  }

  predicate IsUserFacing(os: Platform, node: Node) {
    node.isCollection && node.def.Some? && IsUserFacingId(os.lower(NodeCollectionKey(os, node)))
  }

  /** The order that decides: an override for the id, one for the key, the node's own, 999. */
  function EffectiveOrder(os: Platform, order: map<string, real>, node: Node): real {
    var key := NodeCollectionKey(os, node);
    if node.id in order then order[node.id]
    else if key in order then order[key]
    else if node.order.Some? then node.order.value
    else 999.0
  }

  function EffectiveName(os: Platform, node: Node): string {
    Or(node.name, NodeCollectionKey(os, node))
  }

  /** `compareCollectionNodes(order)(a, b)` */
  function Compare(os: Platform, order: map<string, real>, a: Node, b: Node): real {
    var orderDiff := EffectiveOrder(os, order, a) - EffectiveOrder(os, order, b);
    if orderDiff != 0.0 then orderDiff else os.collate(EffectiveName(os, a), EffectiveName(os, b)) as real
  }

  function First<T>(names: NameOrder, key: T -> Key, keep: T -> bool, s: seq<T>): Option<T> {
    var sorted := Sort(names, key, Filter(keep, s));
    if sorted == [] then None else Some(sorted[0])
  }

  function Names(os: Platform): NameOrder {
    (a, b) => os.collate(a, b) <= 0
  }

  function KeyOf(os: Platform, order: map<string, real>): Node -> Key {
    node => Key(EffectiveOrder(os, order, node), EffectiveName(os, node))
  }

  function FirstCollectionNode(os: Platform, order: map<string, real>, nodes: seq<Node>): Option<Node> {
    First(Names(os), KeyOf(os, order), (node: Node) => IsUserFacing(os, node), nodes)
  }

  // ------------------------------------------------------------------
  // The comparator is a total preorder for every order map
  // ------------------------------------------------------------------

  /** What `localeCompare` guarantees. */
  ghost predicate Collates(os: Platform) {
    && (forall a, b :: os.collate(a, b) > 0 <==> os.collate(b, a) < 0)
    && (forall a, b, c :: os.collate(a, b) <= 0 && os.collate(b, c) <= 0 ==> os.collate(a, c) <= 0)
  }

  lemma NamesTotalPreorder(os: Platform)
    requires Collates(os)
    ensures TotalPreorder(Names(os))
  {
  }

  lemma CompareIsKeyOrder(os: Platform, order: map<string, real>, a: Node, b: Node)
    ensures Compare(os, order, a, b) <= 0.0 <==> Leq(Names(os), KeyOf(os, order)(a), KeyOf(os, order)(b))
  {
    hide EffectiveOrder, EffectiveName;
  }

  lemma CompareIsTotalPreorder(os: Platform, order: map<string, real>, a: Node, b: Node, c: Node)
    requires Collates(os)
    ensures Compare(os, order, a, b) > 0.0 <==> Compare(os, order, b, a) < 0.0
    ensures Compare(os, order, a, b) <= 0.0 && Compare(os, order, b, c) <= 0.0 ==> Compare(os, order, a, c) <= 0.0
  {
    hide EffectiveOrder, EffectiveName;
  }

  // ------------------------------------------------------------------
  // Filter, stable sort, head: the earliest of the least
  // ------------------------------------------------------------------

  /** Position `i` holds a kept element that no kept element beats and that beats every kept element before it. */
  ghost predicate EarliestLeast<T>(names: NameOrder, key: T -> Key, keep: T -> bool, s: seq<T>, i: nat) {
    && i < |s| && keep(s[i])
    && (forall j :: 0 <= j < |s| && keep(s[j]) ==> Leq(names, key(s[i]), key(s[j])))
    && (forall j :: 0 <= j < i && keep(s[j]) ==> !Leq(names, key(s[j]), key(s[i])))
  }

  lemma EarliestLeastUnique<T>(names: NameOrder, key: T -> Key, keep: T -> bool, s: seq<T>, i: nat, j: nat)
    requires EarliestLeast(names, key, keep, s, i) && EarliestLeast(names, key, keep, s, j)
    ensures i == j
  {
    hide Leq;
  }

  lemma HeadOfInsert<T>(names: NameOrder, key: T -> Key, x: T, s: seq<T>)
    ensures Insert(names, key, x, s) != []
    ensures Insert(names, key, x, s)[0] == if s == [] || Leq(names, key(x), key(s[0])) then x else s[0]
  {
    hide Leq;
  }

  lemma FirstStep<T>(names: NameOrder, key: T -> Key, keep: T -> bool, s: seq<T>)
    requires s != []
    ensures First(names, key, keep, s) ==
            var rest := First(names, key, keep, s[1..]);
            if keep(s[0]) && (rest.None? || Leq(names, key(s[0]), key(rest.value))) then Some(s[0]) else rest
  {
    hide Leq, Insert;
    var kept := Filter(keep, s[1..]);
    if keep(s[0]) {
      HeadOfInsert(names, key, s[0], Sort(names, key, kept));
      assert Filter(keep, s) == [s[0]] + kept;
      assert ([s[0]] + kept)[1..] == kept;
    } else {
      assert Filter(keep, s) == kept;
    }
  }

  lemma LeastOfRest<T>(names: NameOrder, key: T -> Key, keep: T -> bool, s: seq<T>, i: nat)
    requires TotalPreorder(names) && s != [] && EarliestLeast(names, key, keep, s[1..], i)
    ensures if keep(s[0]) && Leq(names, key(s[0]), key(s[1..][i])) then EarliestLeast(names, key, keep, s, 0)
            else EarliestLeast(names, key, keep, s, i + 1)
  {
  }

  ghost predicate AnyKept<T>(keep: T -> bool, s: seq<T>) {
    exists j :: 0 <= j < |s| && keep(s[j])
  }

  lemma AnyKeptStep<T>(keep: T -> bool, s: seq<T>)
    requires s != []
    ensures AnyKept(keep, s) <==> keep(s[0]) || AnyKept(keep, s[1..])
  {
  }

  lemma {:induction false} FirstExists<T>(names: NameOrder, key: T -> Key, keep: T -> bool, s: seq<T>)
    ensures First(names, key, keep, s).Some? <==> AnyKept(keep, s)
  {
    hide Leq, First, AnyKept;
    if s == [] {
      FirstOfNone(names, key, keep);
    } else {
      FirstExists(names, key, keep, s[1..]);
      FirstStep(names, key, keep, s);
      AnyKeptStep(keep, s);
    }
  }

  lemma FirstOfNone<T>(names: NameOrder, key: T -> Key, keep: T -> bool)
    ensures First(names, key, keep, []).None? && !AnyKept(keep, [])
  {
  }

  lemma OnlyHeadKept<T>(names: NameOrder, key: T -> Key, keep: T -> bool, s: seq<T>)
    requires TotalPreorder(names) && s != [] && keep(s[0]) && !AnyKept(keep, s[1..])
    ensures EarliestLeast(names, key, keep, s, 0)
  {
  }

  lemma {:induction false} FirstIsEarliestLeast<T>(names: NameOrder, key: T -> Key, keep: T -> bool, s: seq<T>)
    returns (i: nat)
    requires TotalPreorder(names) && First(names, key, keep, s).Some?
    ensures EarliestLeast(names, key, keep, s, i) && s[i] == First(names, key, keep, s).value
  {
    hide Leq, First, AnyKept;
    if s == [] {
      FirstOfNone(names, key, keep);
      assert false;
    } else {
      FirstStep(names, key, keep, s);
      FirstExists(names, key, keep, s[1..]);
      var rest := First(names, key, keep, s[1..]);
      if rest.None? {
        i := 0;
        OnlyHeadKept(names, key, keep, s);
      } else {
        var j := FirstIsEarliestLeast(names, key, keep, s[1..]);
        LeastOfRest(names, key, keep, s, j);
        i := if keep(s[0]) && Leq(names, key(s[0]), key(rest.value)) then 0 else j + 1;
      }
    }
  }

  /** `getFirstCollectionNode` by its comparator: null exactly when nothing is user-facing, else the earliest
      minimum. */
  lemma FirstCollectionIsEarliestLeast(os: Platform, order: map<string, real>, nodes: seq<Node>)
    requires Collates(os)
    ensures FirstCollectionNode(os, order, nodes).None? <==>
            forall j :: 0 <= j < |nodes| ==> !IsUserFacing(os, nodes[j])
    ensures FirstCollectionNode(os, order, nodes).Some? ==>
              exists i :: Wins(os, order, nodes, i) && nodes[i] == FirstCollectionNode(os, order, nodes).value
  {
    hide Compare, Leq, First, IsUserFacing, KeyOf, Wins, EarliestLeast;
    var names, key, keep := Names(os), KeyOf(os, order), (node: Node) => IsUserFacing(os, node);
    NamesTotalPreorder(os);
    FirstExists(names, key, keep, nodes);
    if First(names, key, keep, nodes).Some? {
      var i := FirstIsEarliestLeast(names, key, keep, nodes);
      LeastWins(os, order, nodes, i);
    }
  }

  /** Stated with the comparator alone, as a linear scan for a minimum would be. */
  ghost predicate Wins(os: Platform, order: map<string, real>, nodes: seq<Node>, i: int) {
    && 0 <= i < |nodes| && IsUserFacing(os, nodes[i])
    && (forall j :: 0 <= j < |nodes| && IsUserFacing(os, nodes[j]) ==> Compare(os, order, nodes[i], nodes[j]) <= 0.0)
    && (forall j :: 0 <= j < i && IsUserFacing(os, nodes[j]) ==> Compare(os, order, nodes[j], nodes[i]) > 0.0)
  }

  lemma LeastWins(os: Platform, order: map<string, real>, nodes: seq<Node>, i: nat)
    requires EarliestLeast(Names(os), KeyOf(os, order), (node: Node) => IsUserFacing(os, node), nodes, i)
    ensures Wins(os, order, nodes, i)
  {
  }

  // ------------------------------------------------------------------
  // Any stable sort gives this answer; only ties depend on the input order
  // ------------------------------------------------------------------

  lemma HeadOfAnyStableSort<T>(names: NameOrder, key: T -> Key, keep: T -> bool, s: seq<T>, t: seq<T>)
    requires TotalPreorder(names) && StablySorts(names, key, Filter(keep, s), t)
    ensures First(names, key, keep, s) == if t == [] then None else Some(t[0])
  {
    SortIsStable(names, key, Filter(keep, s));
    StableSortUnique(names, key, Sort(names, key, Filter(keep, s)), t);
  }

  /** With no two kept elements tied, every permutation of the input gives the same answer. */
  lemma FirstIgnoresOrder<T>(names: NameOrder, key: T -> Key, keep: T -> bool, s: seq<T>, t: seq<T>)
    requires TotalPreorder(names) && multiset(s) == multiset(t)
    requires forall a, b :: a in s && b in s && keep(a) && keep(b) && Same(names, key(a), key(b)) ==> a == b
    ensures First(names, key, keep, s) == First(names, key, keep, t)
  {
    hide Leq, First, Same, AnyKept, EarliestLeast;
    FirstExists(names, key, keep, s);
    FirstExists(names, key, keep, t);
    SameKept(keep, s, t);
    if First(names, key, keep, s).Some? {
      var i := FirstIsEarliestLeast(names, key, keep, s);
      var j := FirstIsEarliestLeast(names, key, keep, t);
      LeastTie(names, key, keep, s, i, t, j);
    }
  }

  lemma LeastTie<T>(names: NameOrder, key: T -> Key, keep: T -> bool, s: seq<T>, i: nat, t: seq<T>, j: nat)
    requires multiset(s) == multiset(t)
    requires EarliestLeast(names, key, keep, s, i) && EarliestLeast(names, key, keep, t, j)
    ensures s[i] in s && t[j] in s && keep(s[i]) && keep(t[j]) && Same(names, key(s[i]), key(t[j]))
  {
    hide Leq;
    SameMembers(s, t);
    assert t[j] in s && s[i] in t;
  }

  lemma SameKept<T>(keep: T -> bool, s: seq<T>, t: seq<T>)
    requires multiset(s) == multiset(t)
    ensures AnyKept(keep, s) <==> AnyKept(keep, t)
  {
    SameMembers(s, t);
    assert AnyKept(keep, s) <==> exists x :: x in s && keep(x);
    assert AnyKept(keep, t) <==> exists x :: x in t && keep(x);
  }

  lemma SameMembers<T>(s: seq<T>, t: seq<T>)
    requires multiset(s) == multiset(t)
    ensures forall x :: x in s <==> x in t
  {
    forall x ensures x in s <==> x in t {
      assert x in s <==> x in multiset(s);
      assert x in t <==> x in multiset(t);
    }
  }

  // ------------------------------------------------------------------
  // Keys and orders, in terms of the node
  // ------------------------------------------------------------------

  /** The first text of the list that is not empty. */
  ghost predicate FirstText(candidates: seq<string>, text: string) {
    || (text == "" && forall i :: 0 <= i < |candidates| ==> candidates[i] == "")
    || exists k :: 0 <= k < |candidates| && candidates[k] == text && text != ""
                   && forall i :: 0 <= i < k ==> candidates[i] == ""
  }

  function Candidates(node: Node): seq<string> {
    (if node.def.Some? then [node.def.value.id, node.def.value.slug] else []) + [node.id, node.slug, node.name]
  }

  lemma OrIsFirst(a: string, rest: seq<string>, text: string)
    requires FirstText(rest, text)
    ensures FirstText([a] + rest, Or(a, text))
  {
    var all := [a] + rest;
    assert forall i :: 0 <= i < |rest| ==> all[i + 1] == rest[i];
    if a != "" { assert all[0] == a; }
    else if text != "" {
      var k :| 0 <= k < |rest| && rest[k] == text && forall i :: 0 <= i < k ==> rest[i] == "";
      assert all[k + 1] == text && forall i :: 0 <= i < k + 1 ==> all[i] == "";
    }
  }

  lemma LastText(a: string)
    ensures FirstText([a], a)
  {
    if a == "" { assert [a][0] == ""; } else { assert [a][0] == a; }
  }

  /** The key is the lower-cased first of: the definition's id, its slug, the node's id, its slug, its name. */
  lemma KeyIsFirstText(os: Platform, node: Node) returns (text: string)
    ensures FirstText(Candidates(node), text) && NodeCollectionKey(os, node) == os.lower(text)
  {
    hide FirstText, Or;
    var own := Or(node.id, Or(node.slug, node.name));
    LastText(node.name);
    OrIsFirst(node.slug, [node.name], node.name);
    assert [node.slug] + [node.name] == [node.slug, node.name];
    OrIsFirst(node.id, [node.slug, node.name], Or(node.slug, node.name));
    var three := [node.id, node.slug, node.name];
    assert [node.id] + [node.slug, node.name] == three;
    text := own;
    if node.def.Some? {
      OrIsFirst(node.def.value.slug, three, own);
      OrIsFirst(node.def.value.id, [node.def.value.slug] + three, Or(node.def.value.slug, own));
      text := Or(node.def.value.id, Or(node.def.value.slug, own));
      assert FirstText([node.def.value.id] + ([node.def.value.slug] + three), text);
      assert [node.def.value.id] + ([node.def.value.slug] + three) == Candidates(node);
    } else {
      assert FirstText(three, text);
      assert three == Candidates(node);
    }
  }

  /** Keys that are never chosen: none, the five system names, and everything under five prefixes. */
  predicate Reserved(key: string) {
    || key in {"", "menu", "navigation", "form", "widgettest", "relation"}
    || "redirects" <= key || "404_logs" <= key || "plugin_" <= key || "workflow_" <= key || "system_" <= key
  }

  lemma SystemPrefixes(key: string)
    requires "system_content_structure" <= key || "system_settings" <= key || "system_themes" <= key
    ensures "system_" <= key
  {
  }

  lemma ReservedIff(id: string)
    ensures IsUserFacingId(id) <==> !Reserved(id)
  {
    PrefixesAre(id);
  }

  lemma PrefixesAre(id: string)
    ensures (exists prefix <- SYSTEM_COLLECTION_PREFIXES :: prefix <= id) <==>
            || "redirects" <= id || "404_logs" <= id || "plugin_" <= id || "workflow_" <= id || "system_" <= id
  {
    hide SYSTEM_COLLECTION_PREFIXES;
    if prefix :| prefix in SYSTEM_COLLECTION_PREFIXES && prefix <= id {
      PrefixMember(prefix);
      if prefix !in {"redirects", "404_logs", "plugin_", "workflow_", "system_"} { SystemPrefixes(id); }
    }
    PrefixMember("redirects");
    PrefixMember("404_logs");
    PrefixMember("plugin_");
    PrefixMember("workflow_");
    PrefixMember("system_");
  }

  lemma PrefixMember(prefix: string)
    ensures prefix in SYSTEM_COLLECTION_PREFIXES <==>
            prefix in {"redirects", "404_logs", "plugin_", "workflow_", "system_", "system_content_structure",
                       "system_settings", "system_themes"}
  {
    var ps := SYSTEM_COLLECTION_PREFIXES;
    assert ps[0] == "redirects" && ps[1] == "404_logs" && ps[2] == "plugin_" && ps[3] == "workflow_";
    assert ps[4] == "system_" && ps[5] == "system_content_structure" && ps[6] == "system_settings";
    assert ps[7] == "system_themes" && |ps| == 8;
  }

  /** Only collections with a definition and an unreserved key are shown, whatever the order says. */
  lemma ChosenIsUserFacing(os: Platform, order: map<string, real>, nodes: seq<Node>)
    requires Collates(os)
    ensures var first := FirstCollectionNode(os, order, nodes);
            first.Some? ==>
              && first.value in nodes && first.value.isCollection && first.value.def.Some?
              && !Reserved(os.lower(NodeCollectionKey(os, first.value)))
  {
    hide Collates, FirstCollectionNode, NodeCollectionKey, IsUserFacingId, Compare;
    FirstCollectionIsEarliestLeast(os, order, nodes);
    if FirstCollectionNode(os, order, nodes).Some? {
      var i :| Wins(os, order, nodes, i) && nodes[i] == FirstCollectionNode(os, order, nodes).value;
      WinnerFaces(os, order, nodes, i);
      ReservedIff(os.lower(NodeCollectionKey(os, nodes[i])));
    }
  }

  lemma WinnerFaces(os: Platform, order: map<string, real>, nodes: seq<Node>, i: int)
    requires Wins(os, order, nodes, i)
    ensures nodes[i] in nodes && IsUserFacing(os, nodes[i])
  {
  }

  /** A collection that is shown although another has a smaller order would be wrong: an order given for the node's id
      counts first, then one given for its key, then its own, and 999 without any. */
  lemma OrderPrecedence(os: Platform, order: map<string, real>, node: Node)
    ensures var (key, counts) := (NodeCollectionKey(os, node), EffectiveOrder(os, order, node));
            && (node.id in order ==> counts == order[node.id])
            && (node.id !in order && key in order ==> counts == order[key])
            && (node.id !in order && key !in order && node.order.Some? ==> Some(counts) == node.order)
            && (node.id !in order && key !in order && node.order.None? ==> counts == 999.0)
  {
  }

  /** Equal orders are told apart by name, or by key where there is no name. */
  lemma NamePrecedence(os: Platform, node: Node)
    ensures EffectiveName(os, node) == if node.name != "" then node.name else NodeCollectionKey(os, node)
  {
  }
}
