/** Filtering, distinctness and a few facts about sequences that the other modules share. */
module Sequences {
  import opened Options

  ghost predicate Distinct<T>(s: seq<T>) {
    forall i, j :: 0 <= i < j < |s| ==> s[i] != s[j]
  }

  function Filter<T>(keep: T -> bool, s: seq<T>): seq<T> {
    if s == [] then [] else (if keep(s[0]) then [s[0]] else []) + Filter(keep, s[1..])
  }

  lemma Associative<T>(a: seq<T>, b: seq<T>, c: seq<T>)
    ensures (a + b) + c == a + (b + c)
  {
  }

  lemma {:induction false} FilterMember<T>(keep: T -> bool, s: seq<T>, x: T)
    ensures x in Filter(keep, s) <==> x in s && keep(x)
  {
    if s != [] {
      FilterMember(keep, s[1..], x);
      assert x in s <==> x == s[0] || x in s[1..];
    }
  }

  lemma DistinctCons<T>(x: T, s: seq<T>)
    ensures Distinct([x] + s) <==> x !in s && Distinct(s)
  {
    var all := [x] + s;
    if Distinct(all) {
      forall j | 0 <= j < |s| ensures s[j] != x { assert all[0] == x && all[j + 1] == s[j]; }
      forall i, j | 0 <= i < j < |s| ensures s[i] != s[j] { assert all[i + 1] == s[i] && all[j + 1] == s[j]; }
    }
  }

  lemma DistinctConcat<T>(a: seq<T>, b: seq<T>)
    requires Distinct(a) && Distinct(b) && forall x :: x in a ==> x !in b
    ensures Distinct(a + b)
  {
    var all := a + b;
    forall i, j | 0 <= i < j < |all| ensures all[i] != all[j] {
      if i < |a| <= j { assert a[i] in a && b[j - |a|] in b; }
    }
  }

  lemma {:induction false} FilterDistinct<T>(keep: T -> bool, s: seq<T>)
    requires Distinct(s)
    ensures Distinct(Filter(keep, s))
  {
    hide Distinct;
    if s == [] {
      DistinctNil<T>();
    } else {
      assert s == [s[0]] + s[1..];
      DistinctCons(s[0], s[1..]);
      FilterDistinct(keep, s[1..]);
      FilterMember(keep, s[1..], s[0]);
      DistinctCons(s[0], Filter(keep, s[1..]));
      assert [] + Filter(keep, s[1..]) == Filter(keep, s[1..]);
    }
  }

  lemma DistinctNil<T>()
    ensures Distinct<T>([])
  {
  }

  lemma DistinctSnoc<T>(s: seq<T>, x: T)
    requires Distinct(s) && x !in s
    ensures Distinct(s + [x])
  {
  }

  lemma {:induction false} DistinctMultiset<T>(s: seq<T>, x: T)
    requires Distinct(s)
    ensures multiset(s)[x] == if x in s then 1 else 0
  {
    if s != [] {
      assert s == [s[0]] + s[1..];
      DistinctCons(s[0], s[1..]);
      DistinctMultiset(s[1..], x);
    }
  }

  lemma SameMembersSameMultiset<T(!new)>(s: seq<T>, t: seq<T>)
    requires Distinct(s) && Distinct(t) && forall x :: x in s <==> x in t
    ensures multiset(s) == multiset(t)
  {
    hide Distinct;
    forall x ensures multiset(s)[x] == multiset(t)[x] {
      DistinctMultiset(s, x);
      DistinctMultiset(t, x);
    }
  }

  lemma FilterNone<T>(keep: T -> bool)
    ensures Filter(keep, []) == []
  {
  }

  lemma FilterCons<T>(keep: T -> bool, x: T, s: seq<T>)
    ensures Filter(keep, [x] + s) == (if keep(x) then [x] else []) + Filter(keep, s)
  {
    assert ([x] + s)[1..] == s;
  }

  lemma {:induction false} FilterConcat<T>(keep: T -> bool, a: seq<T>, b: seq<T>)
    ensures Filter(keep, a + b) == Filter(keep, a) + Filter(keep, b)
    decreases |a|, 1
  {
    if a == [] {
      assert a + b == b;
    } else {
      assert a == [a[0]] + a[1..];
      FilterTail(keep, a[0], a[1..], b);
    }
  }

  lemma {:induction false} FilterTail<T>(keep: T -> bool, x: T, tail: seq<T>, b: seq<T>)
    ensures Filter(keep, [x] + tail + b) == Filter(keep, [x] + tail) + Filter(keep, b)
    decreases |tail| + 1, 0
  {
    hide Filter;
    FilterConcat(keep, tail, b);
    FilterCons(keep, x, tail);
    FilterCons(keep, x, tail + b);
    Associative([x], tail, b);
    Associative(if keep(x) then [x] else [], Filter(keep, tail), Filter(keep, b));
  }

  lemma FilterStep<T>(keep: T -> bool, s: seq<T>, i: nat)
    requires i < |s|
    ensures Filter(keep, s[..i + 1]) == Filter(keep, s[..i]) + if keep(s[i]) then [s[i]] else []
  {
    assert s[..i + 1] == s[..i] + [s[i]];
    FilterConcat(keep, s[..i], [s[i]]);
  }

  lemma {:induction false} FilterAll<T>(keep: T -> bool, s: seq<T>)
    requires forall x :: x in s ==> keep(x)
    ensures Filter(keep, s) == s
  {
    if s != [] { FilterAll(keep, s[1..]); }
  }

  lemma {:induction false} FilterSame<T>(p: T -> bool, q: T -> bool, s: seq<T>)
    requires forall x :: x in s ==> p(x) == q(x)
    ensures Filter(p, s) == Filter(q, s)
  {
    if s != [] { FilterSame(p, q, s[1..]); }
  }

  lemma {:induction false} FilterTwice<T>(p: T -> bool, q: T -> bool, both: T -> bool, s: seq<T>)
    requires forall x :: x in s ==> both(x) == (p(x) && q(x))
    ensures Filter(q, Filter(p, s)) == Filter(both, s)
  {
    if s != [] {
      FilterTwice(p, q, both, s[1..]);
      if p(s[0]) {
        FilterCons(q, s[0], Filter(p, s[1..]));
        assert Filter(p, s) == [s[0]] + Filter(p, s[1..]);
      } else {
        assert Filter(p, s) == Filter(p, s[1..]);
        assert Filter(both, s) == Filter(both, s[1..]);
      }
    }
  }

  function Map<A, B>(f: A -> B, s: seq<A>): seq<B> {
    seq(|s|, i requires 0 <= i < |s| => f(s[i]))
  }

  /** The results of `f` that are there, in order. */
  function Collect<A, B>(f: A -> Option<B>, s: seq<A>): seq<B> {
    if s == [] then []
    else
      var last := f(s[|s| - 1]);
      Collect(f, s[..|s| - 1]) + if last.Some? then [last.value] else []
  }

  lemma CollectStep<A, B>(f: A -> Option<B>, s: seq<A>, i: nat)
    requires i < |s|
    ensures Collect(f, s[..i + 1]) == Collect(f, s[..i]) + if f(s[i]).Some? then [f(s[i]).value] else []
  {
    assert s[..i + 1][..i] == s[..i];
  }

  lemma {:induction false} CollectMember<A, B>(f: A -> Option<B>, s: seq<A>, y: B)
    ensures y in Collect(f, s) <==> exists x :: x in s && f(x) == Some(y)
  {
    if s != [] {
      var n := |s| - 1;
      CollectMember(f, s[..n], y);
      assert s == s[..n] + [s[n]];
      assert forall x :: x in s <==> x in s[..n] || x == s[n];
    }
  }

  // ------------------------------------------------------------------
  // At most one, and which ones in order
  // ------------------------------------------------------------------

  /** At most one position holds an element that satisfies `p`. */
  ghost predicate Once<T>(s: seq<T>, p: T -> bool) {
    forall i, j :: 0 <= i < j < |s| ==> !(p(s[i]) && p(s[j]))
  }

  lemma OnceConcat<T>(a: seq<T>, b: seq<T>, p: T -> bool)
    requires Once(a, p) && Once(b, p)
    requires (forall x :: x in a ==> !p(x)) || (forall x :: x in b ==> !p(x))
    ensures Once(a + b, p)
  {
    var s := a + b;
    forall i, j | 0 <= i < j < |s| ensures !(p(s[i]) && p(s[j])) {
      assert i < |a| ==> s[i] in a;
      assert j >= |a| ==> s[j] == b[j - |a|] && s[j] in b;
      if i >= |a| { assert s[i] == b[i - |a|]; }
    }
  }

  lemma CollectedAt<A, B>(f: A -> Option<B>, s: seq<A>, n: nat, z: B) returns (i: nat)
    requires n < |s| && z in Collect(f, s[..n])
    ensures i < n && f(s[i]) == Some(z) && s[i] in s && s[n] in s
  {
    hide Collect;
    CollectMember(f, s[..n], z);
    var x :| x in s[..n] && f(x) == Some(z);
    i :| 0 <= i < n && s[..n][i] == x;
  }

  lemma {:induction false} CollectOnce<A, B>(f: A -> Option<B>, s: seq<A>, p: A -> bool, q: B -> bool)
    requires Once(s, p) && forall x :: x in s && f(x).Some? && q(f(x).value) ==> p(x)
    ensures Once(Collect(f, s), q)
  {
    if s != [] {
      var n := |s| - 1;
      assert forall i :: 0 <= i < n ==> s[..n][i] == s[i];
      CollectOnce(f, s[..n], p, q);
      if f(s[n]).Some? {
        var y := f(s[n]).value;
        forall z | z in Collect(f, s[..n]) && q(z) ensures !q(y) { var i := CollectedAt(f, s, n, z); }
        OnceConcat(Collect(f, s[..n]), [y], q);
      }
    }
  }

  lemma MapOnce<A, B>(f: A -> B, s: seq<A>, p: A -> bool, q: B -> bool)
    requires Once(s, p) && forall x :: x in s && q(f(x)) ==> p(x)
    ensures Once(Map(f, s), q)
  {
    forall i, j | 0 <= i < j < |s| ensures !(q(Map(f, s)[i]) && q(Map(f, s)[j])) {
      assert s[i] in s && s[j] in s;
    }
  }

  /** `r` holds the elements of `s` at the increasing positions `at`. */
  ghost predicate Picks<T>(s: seq<T>, r: seq<T>, at: seq<nat>) {
    && |at| == |r| && (forall j :: 0 <= j < |r| ==> at[j] < |s| && r[j] == s[at[j]])
    && forall i, j :: 0 <= i < j < |at| ==> at[i] < at[j]
  }

  /** Filtering keeps exactly the elements asked for, each as often as it occurs, in their order. */
  lemma {:induction false} FilterPicks<T>(keep: T -> bool, s: seq<T>) returns (at: seq<nat>)
    ensures Picks(s, Filter(keep, s), at)
    ensures forall i: nat :: i in at <==> i < |s| && keep(s[i])
  {
    if s == [] {
      at := [];
    } else {
      hide Picks, Filter;
      var n := |s| - 1;
      var init := FilterPicks(keep, s[..n]);
      assert s == s[..n] + [s[n]];
      FilterSnoc(keep, s[..n], s[n]);
      PicksGrow(s[..n], Filter(keep, s[..n]), init, s[n]);
      at := if keep(s[n]) then init + [n] else init;
      KeptPositions(keep, s, n, init);
    }
  }

  lemma FilterSnoc<T>(keep: T -> bool, s: seq<T>, x: T)
    ensures Filter(keep, s + [x]) == if keep(x) then Filter(keep, s) + [x] else Filter(keep, s)
  {
    FilterConcat(keep, s, [x]);
    FilterOne(keep, x);
  }

  lemma KeptPositions<T>(keep: T -> bool, s: seq<T>, n: nat, init: seq<nat>)
    requires |s| == n + 1 && forall i: nat :: i in init <==> i < n && keep(s[..n][i])
    ensures forall i: nat :: i in (if keep(s[n]) then init + [n] else init) <==> i < |s| && keep(s[i])
  {
    forall i: nat ensures i in init + [n] <==> i in init || i == n { AppendMember(init, n, i); }
    forall i: nat | i < n ensures s[..n][i] == s[i] {}
  }

  lemma AppendMember<T>(s: seq<T>, y: T, x: T)
    ensures x in s + [y] <==> x in s || x == y
  {
  }

  lemma FilterOne<T>(keep: T -> bool, x: T)
    ensures Filter(keep, [x]) == if keep(x) then [x] else []
  {
    assert [x][1..] == [];
  }

  lemma PicksGrow<T>(s: seq<T>, r: seq<T>, at: seq<nat>, x: T)
    requires Picks(s, r, at)
    ensures Picks(s + [x], r, at) && Picks(s + [x], r + [x], at + [|s|])
  {
  }
}
