/** What field preparation leaves in a record, in terms of the schema's types and the record's values. */
module FieldResults {
  import opened Options
  import opened Sequences
  import opened FieldPrep
  import opened FieldPrepLaws
  import opened FieldEffects
  import opened PlanLaws

  // ------------------------------------------------------------------
  // What is promised
  // ------------------------------------------------------------------

  predicate IsGap(v: Value) { v.Null? || v.Undefined? }

  /** Every row that is neither null nor undefined stays, once for each time it occurs and in its place; no other row
      does. */
  ghost predicate RowsKept(items: seq<Value>, rows: seq<Value>) {
    && (forall x :: multiset(rows)[x] == if IsGap(x) then 0 else multiset(items)[x])
    && exists at: seq<nat> :: Picks(items, rows, at) && forall i: nat :: i in at <==> i < |items| && !IsGap(items[i])
  }

  predicate ArrayTyped(f: PrepField) {
    || f.fieldType in {Some("array"), Some("blocks"), Some("group"), Some("repeater")}
    || f.widgetName in {Some("array"), Some("blocks"), Some("group"), Some("repeater")}
  }

  predicate LengthTyped(f: PrepField) {
    f.fieldType in {Some("string"), Some("text"), Some("textarea"), Some("slug"), Some("email"), Some("url"),
                    Some("password")}
  }

  function Cleaned(c: Cleaners, f: PrepField, text: string): string {
    if f.fieldType in {Some("richtext"), Some("markdown")} then c.html(text)
    else if f.fieldType in {Some("text"), Some("textarea")} then c.strip(text)
    else text
  }

  /** `u` is the start of `t`, as much of it as the length allows; a negative length counts from the end. */
  predicate CutTo(u: string, t: string, limit: int) {
    && u <= t
    && |u| == if limit >= |t| then |t| else if limit >= 0 then limit else if |t| + limit > 0 then |t| + limit else 0
  }

  predicate PreparedText(c: Cleaners, f: PrepField, mode: Mode, text: string, u: string) {
    var t := if mode.sanitize then Cleaned(c, f, text) else text;
    if mode.truncate && LengthTyped(f) then CutTo(u, t, if f.maxLength.Some? then f.maxLength.value else 255)
    else u == t
  }

  /** The only named field of this name. */
  ghost predicate Only(fields: Fields, i: nat, name: string) {
    i < |fields| && Of(fields[i], name) && forall j :: 0 <= j < |fields| && Of(fields[j], name) ==> j == i
  }

  ghost predicate Unmentioned(fields: Fields, name: string) {
    forall j :: 0 <= j < |fields| ==> !Of(fields[j], name)
  }

  ghost predicate SomeArray(fields: Fields, name: string) {
    exists j :: 0 <= j < |fields| && Of(fields[j], name) && ArrayTyped(fields[j].value)
  }

  /** What becomes of a value: rows and texts as the types of its fields ask, nothing of anything else.  No field bears
      the empty name. */
  ghost predicate PreparedValue(c: Cleaners, fields: Fields, mode: Mode, name: string, v: Value, w: Value) {
    match v
    case Array(items) =>
      if mode.stripNulls && SomeArray(fields, name) then w.Array? && RowsKept(items, w.items) else w == v
    case Text(text) =>
      && w.Text? && (Unmentioned(fields, name) ==> w == v)
      && forall i: nat :: Only(fields, i, name) ==> PreparedText(c, fields[i].value, mode, text, w.text)
    case _ => w == v
  }

  ghost predicate PreparedRecord(c: Cleaners, fields: Fields, mode: Mode, m: Record, r: Record) {
    && r.Keys == m.Keys && Get(r, "") == Get(m, "")
    && forall name :: PreparedValue(c, fields, mode, name, Get(m, name), Get(r, name))
  }

  /** A field that has something to do to this value. */
  predicate Pending(f: PrepField, mode: Mode, v: Value) {
    || (mode.sanitize && v.Text? &&
        f.fieldType in {Some("richtext"), Some("markdown"), Some("text"), Some("textarea")})
    || (mode.stripNulls && v.Array? && ArrayTyped(f) && exists x :: x in v.items && IsGap(x))
    || (mode.truncate && v.Text? && LengthTyped(f) &&
        |v.text| > if f.maxLength.Some? then f.maxLength.value else 255)
  }

  ghost predicate AnyPending(fields: Fields, mode: Mode, m: Record) {
    exists i :: 0 <= i < |fields| && fields[i].Some? && fields[i].value.dbFieldName != ""
                && Pending(fields[i].value, mode, Get(m, fields[i].value.dbFieldName))
  }

  // ------------------------------------------------------------------
  // Rows
  // ------------------------------------------------------------------

  function IsRow(): Value -> bool { v => !IsGap(v) }

  lemma {:induction false} RowsAreFilter(items: seq<Value>)
    ensures WithoutNulls(items) == Filter(IsRow(), items)
  {
    if items != [] { RowsAreFilter(items[1..]); }
  }

  lemma {:induction false} FilterCount<T>(keep: T -> bool, s: seq<T>, x: T)
    ensures multiset(Filter(keep, s))[x] == if keep(x) then multiset(s)[x] else 0
  {
    if s != [] {
      FilterCount(keep, s[1..], x);
      assert s == [s[0]] + s[1..];
    }
  }

  lemma RowsStay(items: seq<Value>)
    ensures RowsKept(items, WithoutNulls(items))
  {
    hide Filter, WithoutNulls, Picks;
    RowsAreFilter(items);
    forall x ensures multiset(WithoutNulls(items))[x] == if IsGap(x) then 0 else multiset(items)[x] {
      FilterCount(IsRow(), items, x);
    }
    var at := FilterPicks(IsRow(), items);
  }

  lemma GapIff(items: seq<Value>)
    ensures |WithoutNulls(items)| < |items| <==> exists x :: x in items && IsGap(x)
  {
    FewerWithoutNulls(items);
    if |WithoutNulls(items)| == |items| { NoNullLeft(items); } else { SomeGap(items); }
  }

  lemma {:induction false} SomeGap(items: seq<Value>)
    requires |WithoutNulls(items)| != |items|
    ensures exists x :: x in items && IsGap(x)
  {
    if IsGap(items[0]) { assert items[0] in items; }
    else {
      SomeGap(items[1..]);
      var x :| x in items[1..] && IsGap(x);
      assert x in items;
    }
  }

  // ------------------------------------------------------------------
  // Types
  // ------------------------------------------------------------------

  lemma TypesAre(f: PrepField)
    ensures IsArray(f) <==> ArrayTyped(f)
    ensures IsString(f) <==> LengthTyped(f)
    ensures IsRich(f) <==> f.fieldType in {Some("richtext"), Some("markdown")}
    ensures IsText(f) <==> f.fieldType in {Some("text"), Some("textarea")}
  {
    if f.fieldType.Some? { TypeNames(f.fieldType.value); }
  }

  lemma TypeNames(t: string)
    ensures !(t in {"richtext", "markdown"} && t in {"text", "textarea"})
  {
    assert |"richtext"| == 8 && |"markdown"| == 8 && |"text"| == 4 && |"textarea"| == 8;
    assert "textarea"[0] == 't' && "richtext"[0] == 'r' && "markdown"[0] == 'm';
  }

  // ------------------------------------------------------------------
  // The parts of a plan for one name
  // ------------------------------------------------------------------

  lemma OtherName(f: Option<PrepField>, mode: Mode, name: string)
    requires !Of(f, name)
    ensures var o := Enter(EMPTY_PLAN, f);
            && RichFor(o, mode, name) == [] && PlainFor(o, mode, name) == []
            && DropFor(o, mode, name) == [] && CutFor(o, mode, name) == []
  {
    hide ForName, Enter, Richs, Plains, Cuts, Drops, IsRich, IsText, IsArray, IsString;
    NoNames(name);
    OwnLists(f);
    OwnDrops(f, name);
    if Named(f) {
      var x := f.value.dbFieldName;
      OneName(Rich(x), name);
      OneName(Plain(x), name);
      OneName(Cut(x, MaxLen(f.value)), name);
    }
  }

  lemma OwnDrops(f: Option<PrepField>, name: string)
    ensures ForName(Drops(Enter(EMPTY_PLAN, f).arrayFields), name) ==
            if Of(f, name) && IsArray(f.value) then [DropNulls(name)] else []
  {
    hide IsArray, IsRich, IsText, IsString, ForName;
    NoNames(name);
    assert Drops([]) == [];
    if Named(f) {
      OneName(DropNulls(f.value.dbFieldName), name);
      assert Enter(EMPTY_PLAN, f).arrayFields == if IsArray(f.value) then [f.value.dbFieldName] else [];
      assert Drops([f.value.dbFieldName]) == [DropNulls(f.value.dbFieldName)];
    }
  }

  lemma {:induction false} AbsentParts(fields: Fields, mode: Mode, name: string)
    requires Unmentioned(fields, name)
    ensures var p := PlanOf(fields);
            && RichFor(p, mode, name) == [] && PlainFor(p, mode, name) == []
            && DropFor(p, mode, name) == [] && CutFor(p, mode, name) == []
  {
    hide Of, Enter, RichFor, PlainFor, DropFor, CutFor;
    if fields == [] {
      NoWord(mode, name);
    } else {
      var n := |fields| - 1;
      assert forall j :: 0 <= j < n ==> fields[..n][j] == fields[j];
      AbsentParts(fields[..n], mode, name);
      PartsGrow(PlanOf(fields[..n]), fields[n], mode, name);
      OtherName(fields[n], mode, name);
    }
  }

  ghost predicate SameParts(p: Plan, o: Plan, mode: Mode, name: string) {
    && RichFor(p, mode, name) == RichFor(o, mode, name) && PlainFor(p, mode, name) == PlainFor(o, mode, name)
    && DropFor(p, mode, name) == DropFor(o, mode, name) && CutFor(p, mode, name) == CutFor(o, mode, name)
  }

  /** The plan does for a name what its only field asks for. */
  lemma {:induction false} OnlyParts(fields: Fields, i: nat, mode: Mode, name: string)
    requires Only(fields, i, name)
    ensures SameParts(PlanOf(fields), Enter(EMPTY_PLAN, fields[i]), mode, name)
  {
    hide Of, Enter, RichFor, PlainFor, DropFor, CutFor;
    var n := |fields| - 1;
    assert forall j :: 0 <= j < n ==> fields[..n][j] == fields[j];
    PartsGrow(PlanOf(fields[..n]), fields[n], mode, name);
    if i == n {
      AbsentParts(fields[..n], mode, name);
    } else {
      OnlyParts(fields[..n], i, mode, name);
      OtherName(fields[n], mode, name);
    }
  }

  // ------------------------------------------------------------------
  // Texts
  // ------------------------------------------------------------------

  function When<T>(b: bool, x: T): seq<T> { if b then [x] else [] }

  /** The steps for a name with one field. */
  lemma OnlySteps(fields: Fields, i: nat, mode: Mode, name: string)
    requires Only(fields, i, name)
    ensures var f := fields[i].value;
            ForName(StepsOf(PlanOf(fields), mode), name) ==
            When(mode.sanitize && IsRich(f), Rich(name)) + When(mode.sanitize && IsText(f), Plain(name))
            + When(mode.stripNulls && IsArray(f), DropNulls(name))
            + When(mode.truncate && IsString(f), Cut(name, MaxLen(f)))
  {
    hide ForName, Enter, Richs, Plains, Cuts, Drops, StepsOf, IsRich, IsText, IsArray, IsString, PlanOf;
    var f, o := fields[i], Enter(EMPTY_PLAN, fields[i]);
    OnlyParts(fields, i, mode, name);
    PartsAreRuns(PlanOf(fields), mode, name);
    OwnLists(f);
    OwnDrops(f, name);
    NoNames(name);
    OneName(Rich(name), name);
    OneName(Plain(name), name);
    OneName(Cut(name, MaxLen(f.value)), name);
  }

  lemma ChangeOne(c: Cleaners, b: bool, s: Step, rest: seq<Step>, v: Value)
    ensures ChangeAll(c, When(b, s) + rest, v) ==
            ChangeAll(c, rest, if b && Writes(s, v) then Change(c, s, v) else v)
  {
    if b { assert ([s] + rest)[1..] == rest; } else { assert [] + rest == rest; }
  }

  lemma FourChanges(c: Cleaners, a: bool, b: bool, d: bool, k: bool, name: string, limit: int, text: string)
    ensures var t := if a then c.html(text) else text;
            var u := if b then c.strip(t) else t;
            ChangeAll(c, When(a, Rich(name)) + When(b, Plain(name)) + When(d, DropNulls(name)) +
                      When(k, Cut(name, limit)), Text(text)) ==
            Text(if k && |u| > limit then Slice(u, limit) else u)
  {
    hide ChangeAll, Slice;
    var w1, w2, w3, w4 := When(a, Rich(name)), When(b, Plain(name)), When(d, DropNulls(name)),
                          When(k, Cut(name, limit));
    assert w1 + w2 + w3 + w4 == w1 + (w2 + (w3 + (w4 + [])));
    var t := if a then c.html(text) else text;
    var u := if b then c.strip(t) else t;
    hide When;
    ChangeOne(c, a, Rich(name), w2 + (w3 + (w4 + [])), Text(text));
    ChangeOne(c, b, Plain(name), w3 + (w4 + []), Text(t));
    ChangeOne(c, d, DropNulls(name), w4 + [], Text(u));
    ChangeOne(c, k, Cut(name, limit), [], Text(u));
    ChangeNone(c, Text(if k && |u| > limit then Slice(u, limit) else u));
  }

  lemma ChangeNone(c: Cleaners, v: Value)
    ensures ChangeAll(c, [], v) == v
  {
  }

  lemma SliceCuts(t: string, limit: int)
    ensures CutTo(if |t| > limit then Slice(t, limit) else t, t, limit)
  {
  }

  lemma OnlyText(c: Cleaners, fields: Fields, i: nat, mode: Mode, name: string, text: string)
    requires Only(fields, i, name)
    ensures var w := ChangeAll(c, ForName(StepsOf(PlanOf(fields), mode), name), Text(text));
            w.Text? && PreparedText(c, fields[i].value, mode, text, w.text)
  {
    hide ForName, StepsOf, PlanOf, ChangeAll, IsRich, IsText, IsArray, IsString, CutTo, Slice, When, LengthTyped;
    var f := fields[i].value;
    OnlySteps(fields, i, mode, name);
    TypesAre(f);
    var a, b := mode.sanitize && IsRich(f), mode.sanitize && IsText(f);
    var t := if a then c.html(text) else text;
    var u := if b then c.strip(t) else t;
    FourChanges(c, a, b, mode.stripNulls && IsArray(f), mode.truncate && IsString(f), name, MaxLen(f), text);
    SliceCuts(u, MaxLen(f));
  }

  lemma {:induction false} StaysText(c: Cleaners, w: seq<Step>, text: string)
    ensures ChangeAll(c, w, Text(text)).Text?
  {
    if w != [] {
      var next := if Writes(w[0], Text(text)) then Change(c, w[0], Text(text)) else Text(text);
      StaysText(c, w[1..], next.text);
    }
  }

  // ------------------------------------------------------------------
  // Rows and other values
  // ------------------------------------------------------------------

  lemma {:induction false} ArrayNames(fields: Fields, name: string)
    ensures name in PlanOf(fields).arrayFields <==>
            exists j :: 0 <= j < |fields| && Of(fields[j], name) && IsArray(fields[j].value)
  {
    hide IsArray, IsRich, IsText, IsString;
    if fields != [] {
      var n := |fields| - 1;
      ArrayNames(fields[..n], name);
      assert forall j :: 0 <= j < n ==> fields[..n][j] == fields[j];
    }
  }

  lemma DropsNamed(fields: Fields, mode: Mode, name: string)
    ensures DropNulls(name) in ForName(StepsOf(PlanOf(fields), mode), name) <==>
            mode.stripNulls && SomeArray(fields, name)
  {
    hide ForName, PlanOf, IsArray, ArrayTyped;
    var plan := PlanOf(fields);
    ForNameMembers(StepsOf(plan, mode), name, DropNulls(name));
    ArrayNames(fields, name);
    forall j | 0 <= j < |fields| && Of(fields[j], name)
      ensures IsArray(fields[j].value) <==> ArrayTyped(fields[j].value)
    {
      TypesAre(fields[j].value);
    }
    DropsMember(plan.arrayFields, name);
    assert forall s :: s in Richs(plan.sanitizeRich) + Plains(plan.sanitizeText) ==> !s.DropNulls?;
    assert forall s :: s in Cuts(plan.truncateFields) ==> !s.DropNulls?;
  }

  lemma DropsMember(names: seq<string>, name: string)
    ensures DropNulls(name) in Drops(names) <==> name in names
  {
    if name in names {
      var i :| 0 <= i < |names| && names[i] == name;
      assert Drops(names)[i] == DropNulls(name);
    }
  }

  lemma {:induction false} ArrayChange(c: Cleaners, w: seq<Step>, name: string, items: seq<Value>)
    requires forall s :: s in w ==> s.name == name
    ensures ChangeAll(c, w, Array(items)) == Array(if DropNulls(name) in w then WithoutNulls(items) else items)
  {
    if w != [] {
      hide WithoutNulls;
      assert w == [w[0]] + w[1..];
      NullsGone(items);
      FewerWithoutNulls(items);
      if w[0].DropNulls? {
        if |WithoutNulls(items)| == |items| { NothingDropped(items); }
        ArrayChange(c, w[1..], name, WithoutNulls(items));
      } else {
        ArrayChange(c, w[1..], name, items);
      }
    }
  }

  lemma {:induction false} NothingDropped(items: seq<Value>)
    requires |WithoutNulls(items)| == |items|
    ensures WithoutNulls(items) == items
  {
    if items != [] {
      FewerWithoutNulls(items[1..]);
      NothingDropped(items[1..]);
    }
  }

  lemma {:induction false} OtherChange(c: Cleaners, w: seq<Step>, v: Value)
    requires !v.Text? && !v.Array?
    ensures ChangeAll(c, w, v) == v
  {
    if w != [] { OtherChange(c, w[1..], v); }
  }

  // ------------------------------------------------------------------
  // The record
  // ------------------------------------------------------------------

  lemma NamesOnly(steps: seq<Step>, name: string)
    ensures forall s :: s in ForName(steps, name) ==> s.name == name
  {
    hide ForName;
    forall s | s in ForName(steps, name) ensures s.name == name { ForNameMembers(steps, name, s); }
  }

  lemma ValueIsPrepared(c: Cleaners, fields: Fields, mode: Mode, name: string, v: Value)
    ensures PreparedValue(c, fields, mode, name, v, ChangeAll(c, ForName(StepsOf(PlanOf(fields), mode), name), v))
  {
    hide ForName, StepsOf, PlanOf, ChangeAll, WithoutNulls, SomeArray, RowsKept, PreparedText, Unmentioned;
    var w := ForName(StepsOf(PlanOf(fields), mode), name);
    match v
    case Array(items) =>
      NamesOnly(StepsOf(PlanOf(fields), mode), name);
      ArrayChange(c, w, name, items);
      DropsNamed(fields, mode, name);
      RowsStay(items);
    case Text(text) =>
      StaysText(c, w, text);
      forall i: nat | Only(fields, i, name)
        ensures PreparedText(c, fields[i].value, mode, text, ChangeAll(c, w, v).text)
      {
        OnlyText(c, fields, i, mode, name, text);
      }
      if Unmentioned(fields, name) {
        NoStepsLeft(fields, mode, name);
        ChangeNone(c, v);
      }
    case _ => OtherChange(c, w, v);
  }

  lemma NoStepsLeft(fields: Fields, mode: Mode, name: string)
    requires Unmentioned(fields, name)
    ensures ForName(StepsOf(PlanOf(fields), mode), name) == []
  {
    hide ForName, StepsOf, PlanOf, Unmentioned, RichFor, PlainFor, DropFor, CutFor;
    AbsentParts(fields, mode, name);
    PartsAreRuns(PlanOf(fields), mode, name);
  }

  /** The plan of a schema does to every record what its types ask for. */
  lemma RecordIsPrepared(c: Cleaners, fields: Fields, mode: Mode, m: Record)
    ensures PreparedRecord(c, fields, mode, m, ApplyAll(c, StepsOf(PlanOf(fields), mode), m))
  {
    hide ApplyAll, StepsOf, PlanOf, PreparedValue, Get;
    var steps := StepsOf(PlanOf(fields), mode);
    FieldByField(c, steps, m, "");
    NoStepsLeft(fields, mode, "");
    ChangeNone(c, Get(m, ""));
    forall name ensures PreparedValue(c, fields, mode, name, Get(m, name), Get(ApplyAll(c, steps, m), name)) {
      FieldByField(c, steps, m, name);
      ValueIsPrepared(c, fields, mode, name, Get(m, name));
    }
  }

  // ------------------------------------------------------------------
  // When nothing is written
  // ------------------------------------------------------------------

  /** Some step writes exactly when some step would write the record as it is. */
  lemma {:induction false} TouchesFirst(c: Cleaners, steps: seq<Step>, m: Record)
    ensures Touches(c, steps, m) <==> exists s :: s in steps && Writes(s, Get(m, s.name))
  {
    if steps != [] {
      hide Writes, Change;
      assert steps == [steps[0]] + steps[1..];
      TouchesFirst(c, steps[1..], m);
      if !Writes(steps[0], Get(m, steps[0].name)) { assert Apply(c, steps[0], m) == m; }
    }
  }

  lemma {:induction false} PlanNames(fields: Fields, s: Step)
    ensures s in StepsOf(PlanOf(fields), Mode(true, true, true)) <==>
            exists i :: 0 <= i < |fields| && Named(fields[i]) && Asks(fields[i].value, s)
  {
    hide IsArray, IsRich, IsText, IsString, PlanOf, Enter;
    if fields == [] {
      EmptyPlanSteps();
    } else {
      var n := |fields| - 1;
      PlanNames(fields[..n], s);
      assert forall i :: 0 <= i < n ==> fields[..n][i] == fields[i];
      PlanSnoc(fields);
      EnterSteps(PlanOf(fields[..n]), fields[n]);
      OwnAsks(fields[n], s);
    }
  }

  lemma PlanSnoc(fields: Fields)
    requires fields != []
    ensures PlanOf(fields) == Enter(PlanOf(fields[..|fields| - 1]), fields[|fields| - 1])
  {
  }

  lemma EmptyPlanSteps()
    ensures StepsOf(PlanOf([]), Mode(true, true, true)) == []
  {
  }

  /** The steps a field asks for. */
  predicate Asks(f: PrepField, s: Step) {
    match s
    case Rich(x) => x == f.dbFieldName && IsRich(f)
    case Plain(x) => x == f.dbFieldName && IsText(f)
    case DropNulls(x) => x == f.dbFieldName && IsArray(f)
    case Cut(x, k) => x == f.dbFieldName && IsString(f) && k == MaxLen(f)
  }

  lemma OwnAsks(f: Option<PrepField>, s: Step)
    ensures var o := Enter(EMPTY_PLAN, f);
            s in Richs(o.sanitizeRich) + Plains(o.sanitizeText) + Drops(o.arrayFields) + Cuts(o.truncateFields) <==>
            Named(f) && Asks(f.value, s)
  {
    hide IsArray, IsRich, IsText, IsString, Enter, Richs, Plains, Drops, Cuts;
    OwnLists(f);
    OwnDropList(f);
  }

  lemma OwnDropList(f: Option<PrepField>)
    ensures Drops(Enter(EMPTY_PLAN, f).arrayFields) ==
            if Named(f) && IsArray(f.value) then [DropNulls(f.value.dbFieldName)] else []
  {
    hide IsArray, IsRich, IsText, IsString;
    if Named(f) {
      assert Enter(EMPTY_PLAN, f).arrayFields == if IsArray(f.value) then [f.value.dbFieldName] else [];
      assert Drops([f.value.dbFieldName]) == [DropNulls(f.value.dbFieldName)];
    }
  }

  lemma InMode(plan: Plan, mode: Mode, s: Step)
    ensures s in StepsOf(plan, mode) <==>
            && s in StepsOf(plan, Mode(true, true, true))
            && (s.Rich? || s.Plain? ==> mode.sanitize) && (s.DropNulls? ==> mode.stripNulls)
            && (s.Cut? ==> mode.truncate)
  {
  }

  lemma PendingIs(f: PrepField, mode: Mode, v: Value)
    ensures Pending(f, mode, v) <==>
            exists s :: Asks(f, s) && Writes(s, v)
                        && (s.Rich? || s.Plain? ==> mode.sanitize) && (s.DropNulls? ==> mode.stripNulls)
                        && (s.Cut? ==> mode.truncate)
  {
    hide IsRich, IsText, IsArray, IsString, ArrayTyped, LengthTyped, WithoutNulls;
    TypesAre(f);
    if v.Array? { GapIff(v.items); }
    var x := f.dbFieldName;
    if Pending(f, mode, v) {
      assert Asks(f, Rich(x)) <==> IsRich(f);
      assert Asks(f, Plain(x)) <==> IsText(f);
      assert Asks(f, DropNulls(x)) <==> IsArray(f);
      assert Asks(f, Cut(x, MaxLen(f))) <==> IsString(f);
    }
  }

  /** Preparation writes nothing, and returns its input, exactly when no field has anything to do. */
  lemma TouchesIff(c: Cleaners, fields: Fields, mode: Mode, m: Record)
    ensures Touches(c, StepsOf(PlanOf(fields), mode), m) <==> AnyPending(fields, mode, m)
  {
    hide Touches, StepsOf, PlanOf, Writes, Pending, Get, Asks;
    var steps := StepsOf(PlanOf(fields), mode);
    TouchesFirst(c, steps, m);
    forall s ensures s in steps <==>
      && (exists i :: 0 <= i < |fields| && Named(fields[i]) && Asks(fields[i].value, s))
      && (s.Rich? || s.Plain? ==> mode.sanitize) && (s.DropNulls? ==> mode.stripNulls) && (s.Cut? ==> mode.truncate)
    {
      InMode(PlanOf(fields), mode, s);
      PlanNames(fields, s);
    }
    forall i | 0 <= i < |fields| && Named(fields[i]) ensures PendingFor(fields[i].value, mode, m) {
      PendingIs(fields[i].value, mode, Get(m, fields[i].value.dbFieldName));
    }
    forall f, s | Asks(f, s) ensures s.name == f.dbFieldName { AskedName(f, s); }
  }

  ghost predicate PendingFor(f: PrepField, mode: Mode, m: Record) {
    var v := Get(m, f.dbFieldName);
    Pending(f, mode, v) <==>
      exists s :: Asks(f, s) && Writes(s, v)
                  && (s.Rich? || s.Plain? ==> mode.sanitize) && (s.DropNulls? ==> mode.stripNulls)
                  && (s.Cut? ==> mode.truncate)
  }

  lemma AskedName(f: PrepField, s: Step)
    requires Asks(f, s)
    ensures s.name == f.dbFieldName
  {
  }
}
