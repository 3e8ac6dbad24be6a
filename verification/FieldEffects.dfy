/** When two lists of preparation steps do the same to every record under every sanitizer: the steps of one field,
    read as a word, and what decides its effect. */
module FieldEffects {
  import opened Options
  import opened Sequences
  import opened FieldPrep
  import opened FieldPrepLaws

  predicate Sanitizes(s: Step) { s.Rich? || s.Plain? }

  function Richly(w: seq<Step>): seq<Step> { Filter((s: Step) => s.Rich?, w) }
  function Plainly(w: seq<Step>): seq<Step> { Filter((s: Step) => s.Plain?, w) }
  function Dropping(w: seq<Step>): seq<Step> { Filter((s: Step) => s.DropNulls?, w) }
  function Cutting(w: seq<Step>): seq<Step> { Filter((s: Step) => s.Cut?, w) }

  /** The word pass by pass: rich text, plain text, null rows, lengths. */
  function Sorted(w: seq<Step>): seq<Step> {
    Richly(w) + Plainly(w) + Dropping(w) + Cutting(w)
  }

  /** Under every sanitizer and on every value the two words do the same. */
  ghost predicate SameAlways(u: seq<Step>, v: seq<Step>) {
    forall c: Cleaners, x: Value :: ChangeAll(c, u, x) == ChangeAll(c, v, x)
  }

  // ------------------------------------------------------------------
  // What a run of cuts does to a text
  // ------------------------------------------------------------------

  /** `drop` characters go from the end, and no more than `cap` stay. */
  datatype Shrink = Shrink(drop: nat, cap: Option<nat>)

  const WHOLE := Shrink(0, None)

  function Narrow(s: Shrink, k: int): Shrink {
    if k >= 0 then Shrink(s.drop, Some(if s.cap.Some? && s.cap.value < k then s.cap.value else k))
    else Shrink(s.drop - k, if s.cap.None? then None else Some(if s.cap.value + k > 0 then s.cap.value + k else 0))
  }

  /** How many of `n` characters stay. */
  function Room(s: Shrink, n: nat): nat {
    var left := if n > s.drop then n - s.drop else 0;
    if s.cap.Some? && s.cap.value < left then s.cap.value else left
  }

  /** Nothing stays of any text. */
  predicate Blank(s: Shrink) { s.cap == Some(0) }

  /** The cuts of a word together. */
  function ShrinkOf(w: seq<Step>): Shrink {
    if w == [] then WHOLE
    else
      var last, s := w[|w| - 1], ShrinkOf(w[..|w| - 1]);
      if last.Cut? then Narrow(s, last.maxLen) else s
  }

  /** The cuts after the last sanitizer together. */
  function Trail(w: seq<Step>): Shrink {
    if w == [] then WHOLE
    else
      var last, s := w[|w| - 1], Trail(w[..|w| - 1]);
      if Sanitizes(last) then WHOLE else if last.Cut? then Narrow(s, last.maxLen) else s
  }

  lemma RoomNarrows(s: Shrink, k: int, n: nat)
    ensures Room(Narrow(s, k), n) <= Room(s, n) <= n
    ensures k >= 0 ==> Room(Narrow(s, k), n) == if Room(s, n) > k then k else Room(s, n)
    ensures k < 0 ==> Room(Narrow(s, k), n) == if Room(s, n) + k > 0 then Room(s, n) + k else 0
  {
  }

  lemma CutShrinks(c: Cleaners, name: string, k: int, s: Shrink, text: string)
    ensures Room(s, |text|) <= |text| && Room(Narrow(s, k), |text|) <= |text|
    ensures ChangeAll(c, [Cut(name, k)], Text(text[..Room(s, |text|)])) == Text(text[..Room(Narrow(s, k), |text|)])
  {
    RoomNarrows(s, k, |text|);
    hide Room, Narrow;
    var r := Room(s, |text|);
    assert [Cut(name, k)][1..] == [];
    assert text[..r][..Room(Narrow(s, k), |text|)] == text[..Room(Narrow(s, k), |text|)];
  }

  lemma {:induction false} ChangeConcat(c: Cleaners, a: seq<Step>, b: seq<Step>, v: Value)
    ensures ChangeAll(c, a + b, v) == ChangeAll(c, b, ChangeAll(c, a, v))
  {
    hide Change, Writes;
    if a == [] {
      assert a + b == b;
    } else {
      assert (a + b)[0] == a[0] && (a + b)[1..] == a[1..] + b;
      ChangeConcat(c, a[1..], b, if Writes(a[0], v) then Change(c, a[0], v) else v);
    }
  }

  lemma ChangeOne(c: Cleaners, s: Step, v: Value)
    ensures ChangeAll(c, [s], v) == if Writes(s, v) then Change(c, s, v) else v
    ensures ChangeAll(c, [], v) == v
  {
    assert [s][1..] == [];
  }

  lemma ChangeSnoc(c: Cleaners, w: seq<Step>, v: Value)
    requires w != []
    ensures ChangeAll(c, w, v) == ChangeAll(c, [w[|w| - 1]], ChangeAll(c, w[..|w| - 1], v))
  {
    assert w == w[..|w| - 1] + [w[|w| - 1]];
    ChangeConcat(c, w[..|w| - 1], [w[|w| - 1]], v);
  }

  /** After any word a text is what its last sanitizer left, or the text itself, shrunk by the trailing cuts. */
  lemma {:induction false} TrailText(c: Cleaners, w: seq<Step>, text: string) returns (u: string)
    ensures Room(Trail(w), |u|) <= |u| && ChangeAll(c, w, Text(text)) == Text(u[..Room(Trail(w), |u|)])
    ensures (forall s :: s in w ==> !Sanitizes(s)) ==> u == text && Trail(w) == ShrinkOf(w)
  {
    hide ChangeAll, Narrow;
    if w == [] {
      u := text;
      ChangeOne(c, DropNulls(""), Text(text));
      assert text[..|text|] == text;
    } else {
      var init, last := w[..|w| - 1], w[|w| - 1];
      u := TrailText(c, init, text);
      ChangeSnoc(c, w, Text(text));
      assert last in w && forall s :: s in init ==> s in w;
      if last.Cut? {
        CutShrinks(c, last.name, last.maxLen, Trail(init), u);
      } else {
        ChangeOne(c, last, Text(u[..Room(Trail(init), |u|)]));
        if Sanitizes(last) {
          u := ChangeAll(c, [last], Text(u[..Room(Trail(init), |u|)])).text;
          assert u[..|u|] == u;
        }
      }
    }
  }

  /** On an array only the null rows matter; other values are never changed. */
  lemma {:induction false} ChangeOthers(c: Cleaners, w: seq<Step>, v: Value)
    requires !v.Text?
    ensures ChangeAll(c, w, v) ==
            if v.Array? && (exists s :: s in w && s.DropNulls?) then Array(WithoutNulls(v.items)) else v
  {
    hide WithoutNulls;
    if w != [] {
      var next := if Writes(w[0], v) then Change(c, w[0], v) else v;
      ChangeOthers(c, w[1..], next);
      assert w == [w[0]] + w[1..];
      if v.Array? && w[0].DropNulls? {
        NullsGone(v.items);
        FewerWithoutNulls(v.items);
        DropsAll(v.items);
      }
    }
  }

  lemma {:induction false} DropsAll(items: seq<Value>)
    ensures |WithoutNulls(items)| == |items| ==> WithoutNulls(items) == items
  {
    if items != [] {
      FewerWithoutNulls(items[1..]);
      DropsAll(items[1..]);
    }
  }

  // ------------------------------------------------------------------
  // A word and its passes
  // ------------------------------------------------------------------

  /** No plain-text step before a rich-text one, and no cut before either. */
  ghost predicate PassOrder(w: seq<Step>) {
    forall i, j :: 0 <= i < j < |w| ==> !Clashes(w[i], w[j])
  }

  predicate Clashes(first: Step, later: Step) {
    (first.Plain? && later.Rich?) || (first.Cut? && Sanitizes(later))
  }

  lemma PassOrderCons(x: Step, w: seq<Step>)
    requires PassOrder([x] + w)
    ensures PassOrder(w) && forall s :: s in w ==> !Clashes(x, s)
  {
    hide Clashes;
    var all := [x] + w;
    forall i, j | 0 <= i < j < |w| ensures !Clashes(w[i], w[j]) { assert all[i + 1] == w[i] && all[j + 1] == w[j]; }
    forall i | 0 <= i < |w| ensures !Clashes(x, w[i]) { assert all[0] == x && all[i + 1] == w[i]; }
  }

  lemma PassOrderSnoc(w: seq<Step>, x: Step)
    ensures PassOrder(w + [x]) <==> PassOrder(w) && forall s :: s in w ==> !Clashes(s, x)
  {
    hide Clashes;
    var all := w + [x];
    if PassOrder(all) {
      forall i, j | 0 <= i < j < |w| ensures !Clashes(w[i], w[j]) { assert all[i] == w[i] && all[j] == w[j]; }
      forall i | 0 <= i < |w| ensures !Clashes(w[i], x) { assert all[i] == w[i] && all[|w|] == x; }
    }
  }

  /** Null rows apart. */
  function TextSteps(w: seq<Step>): seq<Step> { Filter((s: Step) => !s.DropNulls?, w) }

  lemma KindCons(x: Step, w: seq<Step>)
    ensures Richly([x] + w) == (if x.Rich? then [x] else []) + Richly(w)
    ensures Plainly([x] + w) == (if x.Plain? then [x] else []) + Plainly(w)
    ensures Dropping([x] + w) == (if x.DropNulls? then [x] else []) + Dropping(w)
    ensures Cutting([x] + w) == (if x.Cut? then [x] else []) + Cutting(w)
    ensures TextSteps([x] + w) == (if x.DropNulls? then [] else [x]) + TextSteps(w)
  {
    hide Filter;
    FilterCons((s: Step) => s.Rich?, x, w);
    FilterCons((s: Step) => s.Plain?, x, w);
    FilterCons((s: Step) => s.DropNulls?, x, w);
    FilterCons((s: Step) => s.Cut?, x, w);
    FilterCons((s: Step) => !s.DropNulls?, x, w);
  }

  lemma KindNone()
    ensures Richly([]) == [] && Plainly([]) == [] && Dropping([]) == [] && Cutting([]) == [] && TextSteps([]) == []
  {
  }

  lemma {:induction false} KindAbsent(w: seq<Step>)
    ensures (forall s :: s in w ==> !s.Rich?) ==> Richly(w) == []
    ensures (forall s :: s in w ==> !s.Plain?) ==> Plainly(w) == []
    ensures (forall s :: s in w ==> !s.DropNulls?) ==> Dropping(w) == []
    ensures (forall s :: s in w ==> !s.Cut?) ==> Cutting(w) == []
  {
    hide Richly, Plainly, Dropping, Cutting, TextSteps;
    if w == [] {
      KindNone();
    } else {
      assert w == [w[0]] + w[1..];
      KindAbsent(w[1..]);
      KindCons(w[0], w[1..]);
    }
  }

  lemma {:induction false} OrderedText(w: seq<Step>)
    requires PassOrder(w)
    ensures TextSteps(w) == Richly(w) + Plainly(w) + Cutting(w)
  {
    hide Richly, Plainly, Dropping, Cutting, TextSteps, PassOrder;
    if w == [] {
      KindNone();
    } else {
      var x, rest := w[0], w[1..];
      assert w == [x] + rest;
      PassOrderCons(x, rest);
      KindCons(x, rest);
      KindAbsent(rest);
      OrderedText(rest);
    }
  }

  lemma {:induction false} DropsOnTexts(c: Cleaners, w: seq<Step>, text: string)
    ensures ChangeAll(c, w, Text(text)) == ChangeAll(c, TextSteps(w), Text(text))
  {
    hide TextSteps;
    if w == [] {
      KindNone();
    } else {
      var x, rest := w[0], w[1..];
      assert w == [x] + rest;
      KindCons(x, rest);
      var next := if Writes(x, Text(text)) then Change(c, x, Text(text)) else Text(text);
      DropsOnTexts(c, rest, next.text);
      if !x.DropNulls? {
        assert ([x] + TextSteps(rest))[1..] == TextSteps(rest);
      } else {
        assert [] + TextSteps(rest) == TextSteps(rest);
      }
    }
  }

  lemma KindMembers(w: seq<Step>, s: Step)
    ensures s in Richly(w) <==> s in w && s.Rich?
    ensures s in Plainly(w) <==> s in w && s.Plain?
    ensures s in Dropping(w) <==> s in w && s.DropNulls?
    ensures s in Cutting(w) <==> s in w && s.Cut?
  {
    FilterMember((s: Step) => s.Rich?, w, s);
    FilterMember((s: Step) => s.Plain?, w, s);
    FilterMember((s: Step) => s.DropNulls?, w, s);
    FilterMember((s: Step) => s.Cut?, w, s);
  }

  lemma SortedMembers(w: seq<Step>, s: Step)
    ensures s in Sorted(w) <==> s in w
  {
    hide Richly, Plainly, Dropping, Cutting;
    KindMembers(w, s);
  }

  /** Four runs, one of each kind. */
  ghost predicate Runs(r: seq<Step>, p: seq<Step>, d: seq<Step>, k: seq<Step>) {
    && (forall s :: s in r ==> s.Rich?) && (forall s :: s in p ==> s.Plain?)
    && (forall s :: s in d ==> s.DropNulls?) && (forall s :: s in k ==> s.Cut?)
  }

  function Pass(s: Step): nat {
    match s
    case Rich(_) => 0
    case Plain(_) => 1
    case DropNulls(_) => 2
    case Cut(_, _) => 3
  }

  lemma RunAt(r: seq<Step>, p: seq<Step>, d: seq<Step>, k: seq<Step>, i: nat)
    requires Runs(r, p, d, k) && i < |r + p + d + k|
    ensures Pass((r + p + d + k)[i]) ==
            if i < |r| then 0 else if i < |r + p| then 1 else if i < |r + p + d| then 2 else 3
  {
    var s := (r + p + d + k)[i];
    if i < |r| { assert s == r[i] && s in r; }
    else if i < |r + p| { assert s == p[i - |r|] && s in p; }
    else if i < |r + p + d| { assert s == d[i - |r + p|] && s in d; }
    else { assert s == k[i - |r + p + d|] && s in k; }
  }

  lemma RunsInOrder(r: seq<Step>, p: seq<Step>, d: seq<Step>, k: seq<Step>)
    requires Runs(r, p, d, k)
    ensures PassOrder(r + p + d + k)
  {
    hide Runs;
    var w := r + p + d + k;
    forall i, j | 0 <= i < j < |w| ensures !Clashes(w[i], w[j]) {
      RunAt(r, p, d, k, i);
      RunAt(r, p, d, k, j);
      assert Pass(w[i]) <= Pass(w[j]);
    }
  }

  lemma SortedRuns(w: seq<Step>)
    ensures Runs(Richly(w), Plainly(w), Dropping(w), Cutting(w)) && PassOrder(Sorted(w))
  {
    hide Richly, Plainly, Dropping, Cutting, PassOrder;
    forall s ensures (s in Richly(w) ==> s.Rich?) && (s in Plainly(w) ==> s.Plain?)
                     && (s in Dropping(w) ==> s.DropNulls?) && (s in Cutting(w) ==> s.Cut?) {
      KindMembers(w, s);
    }
    RunsInOrder(Richly(w), Plainly(w), Dropping(w), Cutting(w));
  }

  /** Filtering four runs gives them back. */
  lemma RunsApart(r: seq<Step>, p: seq<Step>, d: seq<Step>, k: seq<Step>)
    requires Runs(r, p, d, k)
    ensures Richly(r + p + d + k) == r && Plainly(r + p + d + k) == p
    ensures Dropping(r + p + d + k) == d && Cutting(r + p + d + k) == k
  {
    hide Filter;
    RunsApartFor((s: Step) => s.Rich?, r, p, d, k);
    RunsApartFor((s: Step) => s.Plain?, r, p, d, k);
    RunsApartFor((s: Step) => s.DropNulls?, r, p, d, k);
    RunsApartFor((s: Step) => s.Cut?, r, p, d, k);
    FilterAll((s: Step) => s.Rich?, r);
    FilterAll((s: Step) => s.Plain?, p);
    FilterAll((s: Step) => s.DropNulls?, d);
    FilterAll((s: Step) => s.Cut?, k);
    KindAbsent(r);
    KindAbsent(p);
    KindAbsent(d);
    KindAbsent(k);
  }

  lemma RunsApartFor(keep: Step -> bool, r: seq<Step>, p: seq<Step>, d: seq<Step>, k: seq<Step>)
    ensures Filter(keep, r + p + d + k) == Filter(keep, r) + Filter(keep, p) + Filter(keep, d) + Filter(keep, k)
  {
    hide Filter;
    FilterConcat(keep, r + p + d, k);
    FilterConcat(keep, r + p, d);
    FilterConcat(keep, r, p);
  }

  /** A word in pass order does what its passes do. */
  lemma OrderedAgrees(w: seq<Step>)
    requires PassOrder(w)
    ensures SameAlways(w, Sorted(w))
  {
    hide ChangeAll, PassOrder, Runs, TextSteps, Richly, Plainly, Dropping, Cutting;
    SortedRuns(w);
    RunsApart(Richly(w), Plainly(w), Dropping(w), Cutting(w));
    OrderedText(w);
    OrderedText(Sorted(w));
    forall c: Cleaners, x: Value ensures ChangeAll(c, w, x) == ChangeAll(c, Sorted(w), x) {
      if x.Text? {
        DropsOnTexts(c, w, x.text);
        DropsOnTexts(c, Sorted(w), x.text);
      } else {
        OthersAgree(c, w, x);
      }
    }
  }

  lemma OthersAgree(c: Cleaners, w: seq<Step>, x: Value)
    requires !x.Text?
    ensures ChangeAll(c, w, x) == ChangeAll(c, Sorted(w), x)
  {
    hide ChangeAll, Sorted;
    ChangeOthers(c, w, x);
    ChangeOthers(c, Sorted(w), x);
    forall s ensures s in Sorted(w) <==> s in w { SortedMembers(w, s); }
  }

  // ------------------------------------------------------------------
  // Blank trails
  // ------------------------------------------------------------------

  lemma {:induction false} SortedTrail(r: seq<Step>, rest: seq<Step>)
    requires forall s :: s in rest ==> !Sanitizes(s)
    requires Trail(r) == WHOLE
    ensures Trail(r + rest) == ShrinkOf(rest)
  {
    if rest == [] {
      assert r + rest == r;
    } else {
      var init := rest[..|rest| - 1];
      assert (r + rest)[..|r + rest| - 1] == r + init && (r + rest)[|r + rest| - 1] == rest[|rest| - 1];
      assert rest[|rest| - 1] in rest && forall s :: s in init ==> s in rest;
      SortedTrail(r, init);
    }
  }

  lemma TrailOfSanitizers(r: seq<Step>)
    requires forall s :: s in r ==> Sanitizes(s)
    ensures Trail(r) == WHOLE
  {
    if r != [] { assert r[|r| - 1] in r; }
  }

  lemma {:induction false} ShrinkOfCuts(w: seq<Step>)
    ensures ShrinkOf(Cutting(w)) == ShrinkOf(w)
  {
    hide Cutting;
    if w == [] {
      KindNone();
    } else {
      var init, last := w[..|w| - 1], w[|w| - 1];
      assert w == init + [last];
      ShrinkOfCuts(init);
      CuttingSnoc(init, last);
      if last.Cut? { assert (Cutting(init) + [last])[..|Cutting(init)|] == Cutting(init); }
    }
  }

  lemma CuttingSnoc(w: seq<Step>, x: Step)
    ensures Cutting(w + [x]) == if x.Cut? then Cutting(w) + [x] else Cutting(w)
  {
    hide Filter;
    FilterConcat((s: Step) => s.Cut?, w, [x]);
    FilterCons((s: Step) => s.Cut?, x, []);
    FilterNone((s: Step) => s.Cut?);
    assert [x] == [x] + [];
  }

  lemma {:induction false} ShrinkAfterDrops(d: seq<Step>, k: seq<Step>)
    requires forall s :: s in d ==> !s.Cut?
    ensures ShrinkOf(d + k) == ShrinkOf(k)
  {
    if k == [] {
      assert d + k == d;
      ShrinkOfNone(d);
    } else {
      var init := k[..|k| - 1];
      assert (d + k)[..|d + k| - 1] == d + init && (d + k)[|d + k| - 1] == k[|k| - 1];
      ShrinkAfterDrops(d, init);
    }
  }

  lemma {:induction false} ShrinkOfNone(d: seq<Step>)
    requires forall s :: s in d ==> !s.Cut?
    ensures ShrinkOf(d) == WHOLE
  {
    if d != [] {
      assert d[|d| - 1] in d;
      ShrinkOfNone(d[..|d| - 1]);
    }
  }

  /** The trailing cuts of the passes are all cuts. */
  lemma PassesTrail(w: seq<Step>)
    ensures Trail(Sorted(w)) == ShrinkOf(w)
  {
    hide Richly, Plainly, Dropping, Cutting, Trail, ShrinkOf;
    var r, rest := Richly(w) + Plainly(w), Dropping(w) + Cutting(w);
    forall s ensures (s in r ==> Sanitizes(s)) && (s in rest ==> !Sanitizes(s)) && (s in Dropping(w) ==> !s.Cut?) {
      KindMembers(w, s);
    }
    assert Sorted(w) == r + rest;
    TrailOfSanitizers(r);
    SortedTrail(r, rest);
    ShrinkAfterDrops(Dropping(w), Cutting(w));
    ShrinkOfCuts(w);
  }

  predicate NoLooser(s: Shrink, t: Shrink) { t.cap.Some? ==> s.cap.Some? && s.cap.value <= t.cap.value }

  /** All cuts leave no more than the trailing ones. */
  lemma {:induction false} TrailIsLooser(w: seq<Step>)
    ensures NoLooser(ShrinkOf(w), Trail(w))
  {
    if w != [] { TrailIsLooser(w[..|w| - 1]); }
  }

  lemma BlankAgrees(w: seq<Step>)
    requires Blank(Trail(w))
    ensures SameAlways(w, Sorted(w))
  {
    hide ChangeAll, Trail, ShrinkOf, Sorted;
    TrailIsLooser(w);
    PassesTrail(w);
    forall c: Cleaners, x: Value ensures ChangeAll(c, w, x) == ChangeAll(c, Sorted(w), x) {
      if x.Text? {
        var u := TrailText(c, w, x.text);
        var v := TrailText(c, Sorted(w), x.text);
        assert u[..0] == v[..0];
      } else {
        OthersAgree(c, w, x);
      }
    }
  }

  // ------------------------------------------------------------------
  // Sanitizers that notice every other order
  // ------------------------------------------------------------------

  function Line(n: nat, ch: char): string { seq(n, i => ch) }

  predicate Intact(n: nat, t: string, marks: set<char>) { |t| == n > 0 && t[0] in marks }

  /** They keep a mark that says which of them has run, and lose it for good when a plain pass comes before a rich
      one or when a cut has made the text shorter. */
  function Watching(n: nat): Cleaners {
    Cleaners(t => Line(n, if Intact(n, t, {'A'}) then 'A' else 'X'),
        t => Line(n, if Intact(n, t, {'A', 'B'}) then 'B' else 'X'))
  }

  /** A cut since the last sanitizer. */
  predicate CutSince(w: seq<Step>) {
    w != [] && var last := w[|w| - 1];
    last.Cut? || (last.DropNulls? && CutSince(w[..|w| - 1]))
  }

  function Mark(w: seq<Step>): char {
    if w == [] then 'A'
    else
      var last, init := w[|w| - 1], w[..|w| - 1];
      if last.Rich? then if Mark(init) == 'A' && !CutSince(init) then 'A' else 'X'
      else if last.Plain? then if Mark(init) != 'X' && !CutSince(init) then 'B' else 'X'
      else Mark(init)
  }

  lemma {:induction false} Marks(w: seq<Step>)
    ensures Mark(w) in {'A', 'B', 'X'}
    ensures Mark(w) == 'A' ==> forall s :: s in w ==> !s.Plain?
    ensures Mark(w) == 'B' ==> exists s :: s in w && s.Plain?
    ensures CutSince(w) ==> exists s :: s in w && s.Cut?
    ensures PassOrder(w) && (exists s :: s in w && s.Cut?) ==> CutSince(w)
  {
    if w != [] {
      hide PassOrder;
      var init, last := w[..|w| - 1], w[|w| - 1];
      assert w == init + [last];
      assert forall s :: s in w <==> s in init || s == last;
      Marks(init);
      PassOrderSnoc(init, last);
    }
  }

  /** The mark is lost exactly when some step comes out of order. */
  lemma {:induction false} MarkLost(w: seq<Step>)
    ensures Mark(w) == 'X' <==> !PassOrder(w)
  {
    if w != [] {
      hide PassOrder, CutSince;
      var init, last := w[..|w| - 1], w[|w| - 1];
      assert w == init + [last];
      MarkLost(init);
      Marks(init);
      PassOrderSnoc(init, last);
    }
  }

  ghost predicate Fits(w: seq<Step>, n: nat) {
    n > 0 && forall s :: s in w && s.Cut? ==> s.maxLen < n
  }

  lemma LineIntact(n: nat, m: nat, ch: char, marks: set<char>)
    requires n > 0
    ensures Intact(n, Line(m, ch), marks) <==> m == n && ch in marks
  {
  }

  lemma LineCut(n: nat, m: nat, ch: char)
    requires m <= n
    ensures Line(n, ch)[..m] == Line(m, ch)
  {
  }

  lemma WatchCut(n: nat, name: string, k: int, s: Shrink, ch: char)
    ensures ChangeAll(Watching(n), [Cut(name, k)], Text(Line(Room(s, n), ch))) == Text(Line(Room(Narrow(s, k), n), ch))
  {
    RoomNarrows(s, k, n);
    CutShrinks(Watching(n), name, k, s, Line(n, ch));
    hide ChangeAll, Room, Narrow;
    LineCut(n, Room(s, n), ch);
    LineCut(n, Room(Narrow(s, k), n), ch);
  }

  lemma WatchSanitizer(n: nat, s: Step, m: nat, ch: char)
    requires n > 0 && Sanitizes(s)
    ensures ChangeAll(Watching(n), [s], Text(Line(m, ch))) ==
            Text(Line(n, if m != n then 'X'
                         else if s.Rich? then (if ch == 'A' then 'A' else 'X')
                         else if ch in {'A', 'B'} then 'B' else 'X'))
  {
    hide Line, Intact;
    ChangeOne(Watching(n), s, Text(Line(m, ch)));
    LineIntact(n, m, ch, {'A'});
    LineIntact(n, m, ch, {'A', 'B'});
  }

  /** The watching sanitizers on a long enough line: its length tells the trailing cuts, its letter the mark. */
  lemma {:induction false} Watched(w: seq<Step>, n: nat)
    requires Fits(w, n)
    ensures ChangeAll(Watching(n), w, Text(Line(n, 'A'))) == Text(Line(Room(Trail(w), n), Mark(w)))
    ensures if CutSince(w) then Room(Trail(w), n) < n else Trail(w) == WHOLE
  {
    hide ChangeAll, Line, Narrow, Watching;
    if w == [] {
      ChangeOne(Watching(n), DropNulls(""), Text(Line(n, 'A')));
    } else {
      var init, last := w[..|w| - 1], w[|w| - 1];
      assert last in w && forall s :: s in init ==> s in w;
      Watched(init, n);
      Marks(init);
      ChangeSnoc(Watching(n), w, Text(Line(n, 'A')));
      if Sanitizes(last) {
        WatchSanitizer(n, last, Room(Trail(init), n), Mark(init));
      } else if last.Cut? {
        WatchCut(n, last.name, last.maxLen, Trail(init), Mark(init));
        RoomNarrows(Trail(init), last.maxLen, n);
      } else {
        ChangeOne(Watching(n), last, Text(Line(Room(Trail(init), n), Mark(init))));
      }
    }
  }

  /** Long enough for every cut of the word to show and for something to be left. */
  function Enough(w: seq<Step>): (n: nat)
    ensures n > Trail(w).drop
  {
    if w == [] then 1
    else
      var last := w[|w| - 1];
      Enough(w[..|w| - 1]) + if !last.Cut? then 0 else if last.maxLen < 0 then -last.maxLen else last.maxLen
  }

  lemma {:induction false} EnoughFits(w: seq<Step>)
    ensures Fits(w, Enough(w))
  {
    if w != [] {
      EnoughFits(w[..|w| - 1]);
      assert forall s :: s in w <==> s in w[..|w| - 1] || s == w[|w| - 1];
    }
  }

  lemma RoomLeft(s: Shrink, n: nat)
    requires n > s.drop && !Blank(s)
    ensures Room(s, n) > 0
  {
  }

  lemma LinesDiffer(m: nat, a: char, n: nat, b: char)
    requires m > 0 && a != b
    ensures Line(m, a) != Line(n, b)
  {
    if m == n { assert Line(m, a)[0] != Line(n, b)[0]; }
  }

  /** A word out of pass order that leaves anything of a text differs from its passes. */
  lemma DisorderShows(w: seq<Step>)
    requires !PassOrder(w) && !Blank(Trail(w))
    ensures !SameAlways(w, Sorted(w))
  {
    hide ChangeAll, PassOrder, Line, Trail, Sorted, Room, Fits;
    var n := Enough(w);
    EnoughFits(w);
    FitsSorted(w, n);
    Watched(w, n);
    Watched(Sorted(w), n);
    MarkLost(w);
    SortedRuns(w);
    MarkLost(Sorted(w));
    RoomLeft(Trail(w), n);
    LinesDiffer(Room(Trail(w), n), 'X', Room(Trail(Sorted(w)), n), Mark(Sorted(w)));
    assert ChangeAll(Watching(n), w, Text(Line(n, 'A'))) != ChangeAll(Watching(n), Sorted(w), Text(Line(n, 'A')));
  }

  lemma FitsSorted(w: seq<Step>, n: nat)
    requires Fits(w, n)
    ensures Fits(Sorted(w), n)
  {
    hide Sorted;
    forall s ensures s in Sorted(w) <==> s in w { SortedMembers(w, s); }
  }

  /** Exactly when a word does what its passes do, whatever the sanitizers and the value. */
  lemma WordAgreesIff(w: seq<Step>)
    ensures SameAlways(w, Sorted(w)) <==> PassOrder(w) || Blank(Trail(w))
  {
    hide SameAlways, PassOrder, Trail, Sorted;
    if PassOrder(w) { OrderedAgrees(w); }
    else if Blank(Trail(w)) { BlankAgrees(w); }
    else { DisorderShows(w); }
  }
}
