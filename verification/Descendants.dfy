/** `getDescendants` of src/content/content-utils.ts: a queue with a head index and a visited set. */
module Descendants {
  import opened Options
  import opened Sequences
  import opened ContentTree

  /** `contentStore.getChildren(id)`: the stored nodes whose parent link is `id`. */
  function GetChildren(nodes: seq<Node>, id: string): seq<Node> {
    if nodes == [] then []
    else (if nodes[0].parentId == Some(id) then [nodes[0]] else []) + GetChildren(nodes[1..], id)
  }

  /** A walk down child links. */
  ghost predicate Walk(nodes: seq<Node>, walk: seq<string>) {
    forall i :: 0 < i < |walk| ==> Step(nodes, walk[i - 1], walk[i])
  }

  ghost predicate Step(nodes: seq<Node>, from: string, to: string) {
    exists n :: n in nodes && n.parentId == Some(from) && n.id == to
  }

  /** `to` is `from` or lies below it. */
  ghost predicate Reaches(nodes: seq<Node>, from: string, to: string) {
    exists walk: seq<string> :: walk != [] && Walk(nodes, walk) && walk[0] == from && walk[|walk| - 1] == to
  }

  /** `n` hangs somewhere below `from`: one or more child links lead to it. */
  ghost predicate IsDescendant(nodes: seq<Node>, from: string, n: Node) {
    n.parentId.Some? && Reaches(nodes, from, n.parentId.value)
  }

  lemma ReachesSelf(nodes: seq<Node>, from: string)
    ensures Reaches(nodes, from, from)
  {
    assert Walk(nodes, [from]) && [from][0] == from;
  }

  lemma ReachesNext(nodes: seq<Node>, from: string, mid: string, to: string)
    requires Reaches(nodes, from, mid) && Step(nodes, mid, to)
    ensures Reaches(nodes, from, to)
  {
    var walk: seq<string> :| walk != [] && Walk(nodes, walk) && walk[0] == from && walk[|walk| - 1] == mid;
    var longer := walk + [to];
    hide Step;
    forall i | 0 < i < |longer| ensures Step(nodes, longer[i - 1], longer[i]) {
      if i < |walk| { assert Step(nodes, walk[i - 1], walk[i]); }
    }
    assert longer[0] == from && longer[|longer| - 1] == to;
  }

  /** A set with the start in it and closed under child links holds everything below the start. */
  lemma ClosedHoldsReached(nodes: seq<Node>, from: string, visited: set<string>, to: string)
    requires from in visited && Reaches(nodes, from, to)
    requires forall id, c :: id in visited && Step(nodes, id, c) ==> c in visited
    ensures to in visited
  {
    var walk: seq<string> :| walk != [] && Walk(nodes, walk) && walk[0] == from && walk[|walk| - 1] == to;
    hide Step;
    for i := 1 to |walk|
      invariant forall j :: 0 <= j < i ==> walk[j] in visited
    {
      assert Step(nodes, walk[i - 1], walk[i]);
    }
  }

  lemma {:induction false} ChildrenCount(nodes: seq<Node>, id: string, n: Node)
    ensures multiset(GetChildren(nodes, id))[n] == if n.parentId == Some(id) then multiset(nodes)[n] else 0
  {
    if nodes != [] {
      ChildrenCount(nodes[1..], id, n);
      assert nodes == [nodes[0]] + nodes[1..];
    }
  }

  lemma ChildrenSteps(nodes: seq<Node>, id: string, n: Node)
    ensures n in GetChildren(nodes, id) <==> n in nodes && n.parentId == Some(id)
  {
  }

  /** What a set of visited ids contributes to the result. */
  ghost predicate Collected(nodes: seq<Node>, visited: set<string>, descendants: seq<Node>) {
    forall n :: multiset(descendants)[n] ==
      if n.parentId.Some? && n.parentId.value in visited then multiset(nodes)[n] else 0
  }

  lemma CollectMore(nodes: seq<Node>, visited: set<string>, descendants: seq<Node>, id: string)
    requires Collected(nodes, visited, descendants) && id !in visited
    ensures Collected(nodes, visited + {id}, descendants + GetChildren(nodes, id))
  {
    hide GetChildren;
    forall n { ChildrenCount(nodes, id, n); }
  }

  function IdsOf(ks: seq<Node>): seq<string> { seq(|ks|, i requires 0 <= i < |ks| => ks[i].id) }

  /** What the queue guarantees: everything in it lies below the start, everything taken out is visited,
      and the children of visited ids have been put in. */
  ghost predicate Sound(nodes: seq<Node>, from: string, queue: seq<string>, head: nat, visited: set<string>)
    requires head <= |queue|
  {
    && (forall q :: q in queue ==> Reaches(nodes, from, q))
    && (forall v :: v in visited ==> v in queue)
    && (forall i :: 0 <= i < head ==> queue[i] in visited)
    && (forall v, c :: v in visited && Step(nodes, v, c) ==> c in queue)
    && from in queue
  }

  lemma ReachesChildren(nodes: seq<Node>, from: string, id: string)
    requires Reaches(nodes, from, id)
    ensures forall c :: c in IdsOf(GetChildren(nodes, id)) ==> Reaches(nodes, from, c)
    ensures forall c :: Step(nodes, id, c) ==> c in IdsOf(GetChildren(nodes, id))
    ensures forall c :: c in IdsOf(GetChildren(nodes, id)) ==> c in Ids(nodes)
  {
    var ks := GetChildren(nodes, id);
    hide GetChildren, Reaches;
    forall n ensures n in ks <==> n in nodes && n.parentId == Some(id) { ChildrenSteps(nodes, id, n); }
    forall i | 0 <= i < |ks| ensures Reaches(nodes, from, IdsOf(ks)[i]) && IdsOf(ks)[i] in Ids(nodes) {
      assert ks[i] in ks;
      ReachesNext(nodes, from, id, ks[i].id);
    }
    forall c | Step(nodes, id, c) ensures c in IdsOf(ks) {
      var n :| n in nodes && n.parentId == Some(id) && n.id == c;
      var i :| 0 <= i < |ks| && ks[i] == n;
      assert IdsOf(ks)[i] == c;
    }
  }

  lemma EnqueueChildren(nodes: seq<Node>, from: string, queue: seq<string>, head: nat, visited: set<string>)
    requires head < |queue| && Sound(nodes, from, queue, head, visited)
    ensures Sound(nodes, from, queue + IdsOf(GetChildren(nodes, queue[head])), head + 1, visited + {queue[head]})
  {
    hide GetChildren, Reaches, Step, IdsOf;
    ReachesChildren(nodes, from, queue[head]);
  }

  lemma SkipVisited(nodes: seq<Node>, from: string, queue: seq<string>, head: nat, visited: set<string>)
    requires head < |queue| && Sound(nodes, from, queue, head, visited) && queue[head] in visited
    ensures Sound(nodes, from, queue, head + 1, visited)
  {
    hide Reaches, Step;
  }

  /** Ids the search can meet. */
  ghost predicate Within(ids: set<string>, queue: seq<string>, visited: set<string>) {
    visited <= ids && forall q :: q in queue ==> q in ids
  }

  lemma WithinMore(nodes: seq<Node>, from: string, queue: seq<string>, head: nat, visited: set<string>,
                   ids: set<string>)
    requires head < |queue| && Sound(nodes, from, queue, head, visited) && Within(ids, queue, visited) &&
             Ids(nodes) <= ids
    requires queue[head] !in visited
    ensures Within(ids, queue + IdsOf(GetChildren(nodes, queue[head])), visited + {queue[head]})
    ensures |ids - (visited + {queue[head]})| < |ids - visited|
  {
    hide GetChildren, Reaches, Step, IdsOf;
    ReachesChildren(nodes, from, queue[head]);
    assert ids - visited == (ids - (visited + {queue[head]})) + {queue[head]};
  }

  lemma Start(nodes: seq<Node>, from: string, ids: set<string>)
    requires from in ids
    ensures Sound(nodes, from, [from], 0, {}) && Collected(nodes, {}, []) && Within(ids, [from], {})
  {
    ReachesSelf(nodes, from);
  }

  lemma Finished(nodes: seq<Node>, from: string, queue: seq<string>, visited: set<string>, descendants: seq<Node>)
    requires Sound(nodes, from, queue, |queue|, visited) && Collected(nodes, visited, descendants)
    ensures forall n :: multiset(descendants)[n] == if IsDescendant(nodes, from, n) then multiset(nodes)[n] else 0
  {
    hide Reaches, Step;
    forall n: Node | n.parentId.Some? ensures n.parentId.value in visited <==> IsDescendant(nodes, from, n) {
      if IsDescendant(nodes, from, n) { ClosedHoldsReached(nodes, from, visited, n.parentId.value); }
    }
  }

  /** Everything below `nodeId` and nothing else, each stored node as often as it is stored: once. */
  method GetDescendants(nodes: seq<Node>, nodeId: string) returns (descendants: seq<Node>)
    ensures forall n :: multiset(descendants)[n] == if IsDescendant(nodes, nodeId, n) then multiset(nodes)[n] else 0
  {
    hide *;
    descendants := [];
    var queue := [nodeId];
    var visited: set<string> := {};
    var head := 0;
    ghost var ids := Ids(nodes) + {nodeId};
    Start(nodes, nodeId, ids);
    while head < |queue|
      invariant head <= |queue| && Sound(nodes, nodeId, queue, head, visited)
      invariant Collected(nodes, visited, descendants)
      invariant Within(ids, queue, visited)
      decreases |ids - visited|, |queue| - head
    {
      var currentId := queue[head];
      if currentId in visited {
        SkipVisited(nodes, nodeId, queue, head, visited);
        head := head + 1;
        continue;
      }
      var children := GetChildren(nodes, currentId);
      EnqueueChildren(nodes, nodeId, queue, head, visited);
      CollectMore(nodes, visited, descendants, currentId);
      WithinMore(nodes, nodeId, queue, head, visited, ids);
      head := head + 1;
      visited := visited + {currentId};
      descendants := descendants + children;
      queue := queue + IdsOf(children);
    }
    Finished(nodes, nodeId, queue, visited, descendants);
  }

  lemma {:induction false} StoredOnce(nodes: seq<Node>, n: Node)
    requires UniqueIds(nodes)
    ensures multiset(nodes)[n] == if n in nodes then 1 else 0
  {
    assert Distinct(nodes);
    CountOnce(nodes, n);
  }

  /** With unique ids: exactly the stored nodes one or more links below, each exactly once. */
  lemma DescendantsOnce(nodes: seq<Node>, nodeId: string, descendants: seq<Node>)
    requires UniqueIds(nodes)
    requires forall n :: multiset(descendants)[n] == if IsDescendant(nodes, nodeId, n) then multiset(nodes)[n] else 0
    ensures Distinct(descendants)
    ensures forall n :: n in descendants <==> n in nodes && IsDescendant(nodes, nodeId, n)
  {
    hide IsDescendant, UniqueIds;
    forall n ensures multiset(descendants)[n] == (if n in nodes && IsDescendant(nodes, nodeId, n) then 1 else 0) {
      StoredOnce(nodes, n);
    }
    forall n ensures n in descendants <==> n in nodes && IsDescendant(nodes, nodeId, n) {
      assert n in descendants <==> n in multiset(descendants);
    }
    forall i, j | 0 <= i < j < |descendants| ensures descendants[i] != descendants[j] {
      RepeatCounts(descendants, i, j);
    }
  }

  lemma RepeatCounts<T>(s: seq<T>, i: nat, j: nat)
    requires i < j < |s| && multiset(s)[s[i]] <= 1
    ensures s[i] != s[j]
  {
    assert s == s[..j] + [s[j]] + s[j + 1..];
    assert s[i] in s[..j];
  }
}
