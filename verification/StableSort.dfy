/** `Array.prototype.sort` with the content comparators: order number first, name second.

    The comparison of names (`localeCompare`) is a parameter: any total preorder. */
module StableSort {

  /** What the comparators look at: `order ?? 999`, then the name. */
  datatype Key = Key(order: real, name: string)

  /** `a.localeCompare(b) <= 0` */
  type NameOrder = (string, string) -> bool

  ghost predicate TotalPreorder(names: NameOrder) {
    && (forall a, b :: names(a, b) || names(b, a))
    && (forall a, b, c :: names(a, b) && names(b, c) ==> names(a, c))
  }

  /** `sortContentNodes(a, b) <= 0` */
  predicate Leq(names: NameOrder, a: Key, b: Key) {
    if a.order != b.order then a.order < b.order else names(a.name, b.name)
  }

  lemma LeqTotal(names: NameOrder, a: Key, b: Key)
    requires TotalPreorder(names)
    ensures Leq(names, a, b) || Leq(names, b, a)
  {
  }

  lemma LeqTransitive(names: NameOrder, a: Key, b: Key, c: Key)
    requires TotalPreorder(names) && Leq(names, a, b) && Leq(names, b, c)
    ensures Leq(names, a, c)
  {
  }

  function Insert<T>(names: NameOrder, key: T -> Key, x: T, s: seq<T>): seq<T> {
    if s == [] || Leq(names, key(x), key(s[0])) then [x] + s
    else [s[0]] + Insert(names, key, x, s[1..])
  }

  function Sort<T>(names: NameOrder, key: T -> Key, s: seq<T>): seq<T> {
    if s == [] then [] else Insert(names, key, s[0], Sort(names, key, s[1..]))
  }

  // ------------------------------------------------------------------
  // What a stable sort is
  // ------------------------------------------------------------------

  ghost predicate Sorted<T>(names: NameOrder, key: T -> Key, s: seq<T>) {
    forall i, j :: 0 <= i < j < |s| ==> Leq(names, key(s[i]), key(s[j]))
  }

  predicate Same(names: NameOrder, a: Key, b: Key) {
    Leq(names, a, b) && Leq(names, b, a)
  }

  /** The elements that compare equal to `k`, in order. */
  function Ties<T>(names: NameOrder, key: T -> Key, s: seq<T>, k: Key): seq<T> {
    if s == [] then []
    else (if Same(names, key(s[0]), k) then [s[0]] else []) + Ties(names, key, s[1..], k)
  }

  /** `t` is sorted and keeps the order of elements that compare equal. */
  ghost predicate StablySorts<T>(names: NameOrder, key: T -> Key, s: seq<T>, t: seq<T>) {
    && Sorted(names, key, t)
    && forall k :: Ties(names, key, t, k) == Ties(names, key, s, k)
  }

  /** `Sorted`, one element at a time. */
  ghost predicate Ahead<T>(names: NameOrder, key: T -> Key, x: T, s: seq<T>) {
    forall i :: 0 <= i < |s| ==> Leq(names, key(x), key(s[i]))
  }

  lemma SortedStep<T>(names: NameOrder, key: T -> Key, x: T, s: seq<T>)
    requires Sorted(names, key, s) && Ahead(names, key, x, s)
    ensures Sorted(names, key, [x] + s)
  {
    hide Leq;
  }

  lemma SortedParts<T>(names: NameOrder, key: T -> Key, s: seq<T>)
    requires Sorted(names, key, s) && s != []
    ensures Sorted(names, key, s[1..]) && Ahead(names, key, s[0], s[1..])
  {
    hide Leq;
  }

  lemma AheadOfHead<T>(names: NameOrder, key: T -> Key, x: T, s: seq<T>)
    requires TotalPreorder(names) && Sorted(names, key, s)
    requires s != [] && Leq(names, key(x), key(s[0]))
    ensures Ahead(names, key, x, s)
  {
  }

  lemma {:induction false} InsertAhead<T>(names: NameOrder, key: T -> Key, y: T, x: T, s: seq<T>)
    requires Ahead(names, key, y, s) && Leq(names, key(y), key(x))
    ensures Ahead(names, key, y, Insert(names, key, x, s))
  {
    hide Leq;
    if s != [] && !Leq(names, key(x), key(s[0])) {
      InsertAhead(names, key, y, x, s[1..]);
    }
  }

  lemma {:induction false} InsertKeepsAll<T>(names: NameOrder, key: T -> Key, x: T, s: seq<T>)
    ensures multiset(Insert(names, key, x, s)) == multiset{x} + multiset(s)
  {
    hide Leq;
    if s != [] && !Leq(names, key(x), key(s[0])) {
      InsertKeepsAll(names, key, x, s[1..]);
      assert s == [s[0]] + s[1..];
    }
  }

  lemma {:induction false} InsertSorted<T>(names: NameOrder, key: T -> Key, x: T, s: seq<T>)
    requires TotalPreorder(names) && Sorted(names, key, s)
    ensures Sorted(names, key, Insert(names, key, x, s))
  {
    hide Leq, Sorted, Ahead;
    if s == [] {
      SortedSingle(names, key, x);
    } else if Leq(names, key(x), key(s[0])) {
      AheadOfHead(names, key, x, s);
      SortedStep(names, key, x, s);
    } else {
      LeqTotal(names, key(x), key(s[0]));
      SortedParts(names, key, s);
      InsertSorted(names, key, x, s[1..]);
      InsertAhead(names, key, s[0], x, s[1..]);
      SortedStep(names, key, s[0], Insert(names, key, x, s[1..]));
    }
  }

  lemma SortedSingle<T>(names: NameOrder, key: T -> Key, x: T)
    ensures Sorted(names, key, [x] + [])
  {
  }

  lemma TiesCons<T>(names: NameOrder, key: T -> Key, x: T, s: seq<T>, k: Key)
    ensures Ties(names, key, [x] + s, k) == (if Same(names, key(x), k) then [x] else []) + Ties(names, key, s, k)
  {
    hide Same;
    assert ([x] + s)[1..] == s;
  }

  lemma NotBothTied(names: NameOrder, a: Key, b: Key, k: Key)
    requires TotalPreorder(names) && !Leq(names, a, b)
    ensures !(Same(names, a, k) && Same(names, b, k))
  {
    hide Leq, TotalPreorder;
    if Same(names, a, k) && Same(names, b, k) { LeqTransitive(names, a, k, b); }
  }

  lemma {:induction false} InsertTies<T>(names: NameOrder, key: T -> Key, x: T, s: seq<T>, k: Key)
    requires TotalPreorder(names)
    ensures Ties(names, key, Insert(names, key, x, s), k) ==
            (if Same(names, key(x), k) then [x] else []) + Ties(names, key, s, k)
  {
    hide Leq, Same, Ties, TotalPreorder;
    if s == [] || Leq(names, key(x), key(s[0])) {
      TiesCons(names, key, x, s, k);
    } else {
      InsertTies(names, key, x, s[1..], k);
      TiesCons(names, key, s[0], Insert(names, key, x, s[1..]), k);
      TiesCons(names, key, s[0], s[1..], k);
      assert [s[0]] + s[1..] == s;
      NotBothTied(names, key(x), key(s[0]), k);
    }
  }

  lemma {:induction false} SortSorts<T>(names: NameOrder, key: T -> Key, s: seq<T>)
    requires TotalPreorder(names)
    ensures Sorted(names, key, Sort(names, key, s))
    ensures multiset(Sort(names, key, s)) == multiset(s)
  {
    if s != [] {
      SortSorts(names, key, s[1..]);
      InsertSorted(names, key, s[0], Sort(names, key, s[1..]));
      InsertKeepsAll(names, key, s[0], Sort(names, key, s[1..]));
      assert s == [s[0]] + s[1..];
    }
  }

  lemma {:induction false} SortTies<T>(names: NameOrder, key: T -> Key, s: seq<T>, k: Key)
    requires TotalPreorder(names)
    ensures Ties(names, key, Sort(names, key, s), k) == Ties(names, key, s, k)
  {
    if s != [] {
      SortTies(names, key, s[1..], k);
      InsertTies(names, key, s[0], Sort(names, key, s[1..]), k);
    }
  }

  lemma SortIsStable<T>(names: NameOrder, key: T -> Key, s: seq<T>)
    requires TotalPreorder(names)
    ensures StablySorts(names, key, s, Sort(names, key, s))
  {
    SortSorts(names, key, s);
    forall k ensures Ties(names, key, Sort(names, key, s), k) == Ties(names, key, s, k) {
      SortTies(names, key, s, k);
    }
  }

  lemma {:induction false} TieMember<T>(names: NameOrder, key: T -> Key, s: seq<T>, k: Key, i: nat)
    requires TotalPreorder(names) && i < |s| && Same(names, key(s[i]), k)
    ensures Ties(names, key, s, k) != []
    ensures i == 0 ==> Ties(names, key, s, k)[0] == s[0]
  {
    if i > 0 { TieMember(names, key, s[1..], k, i - 1); }
  }

  lemma {:induction false} TieSource<T>(names: NameOrder, key: T -> Key, s: seq<T>, k: Key) returns (i: nat)
    requires Ties(names, key, s, k) != []
    ensures i < |s| && Same(names, key(s[i]), k)
  {
    if Same(names, key(s[0]), k) { i := 0; } else { var j := TieSource(names, key, s[1..], k); i := j + 1; }
  }

  /** The head of a sorted sequence compares no greater than any tie-group it contains. */
  lemma HeadsTie<T>(names: NameOrder, key: T -> Key, s: seq<T>, t: seq<T>)
    requires TotalPreorder(names) && Sorted(names, key, s) && Sorted(names, key, t) && s != []
    requires forall k :: Ties(names, key, s, k) == Ties(names, key, t, k)
    ensures t != [] && Leq(names, key(t[0]), key(s[0]))
  {
    var k := key(s[0]);
    LeqTotal(names, k, k);
    TieMember(names, key, s, k, 0);
    var j := TieSource(names, key, t, k);
    LeqTotal(names, key(t[0]), key(t[0]));
    LeqTransitive(names, key(t[0]), key(t[j]), k);
  }

  /** There is only one stable sort of a sequence, so `Sort` stands for any implementation. */
  lemma {:induction false} StableSortUnique<T>(names: NameOrder, key: T -> Key, s: seq<T>, t: seq<T>)
    requires TotalPreorder(names) && Sorted(names, key, s) && Sorted(names, key, t)
    requires forall k :: Ties(names, key, s, k) == Ties(names, key, t, k)
    ensures s == t
  {
    if s == [] {
      if t != [] { HeadsTie(names, key, t, s); }
    } else {
      HeadsTie(names, key, s, t);
      HeadsTie(names, key, t, s);
      TieMember(names, key, s, key(s[0]), 0);
      TieMember(names, key, t, key(s[0]), 0);
      assert s[0] == t[0];
      forall k ensures Ties(names, key, s[1..], k) == Ties(names, key, t[1..], k) {
        var h := if Same(names, key(s[0]), k) then [s[0]] else [];
        assert Ties(names, key, s, k) == h + Ties(names, key, s[1..], k);
        assert Ties(names, key, t, k) == h + Ties(names, key, t[1..], k);
        assert Ties(names, key, s, k)[|h|..] == Ties(names, key, s[1..], k);
        assert Ties(names, key, t, k)[|h|..] == Ties(names, key, t[1..], k);
      }
      StableSortUnique(names, key, s[1..], t[1..]);
    }
  }
}
