/** Compiled plans against loops over the schema, old plans against new ones, and plans against themselves. */
module PlanLaws {
  import opened Options
  import opened Sequences
  import opened FieldPrep
  import opened FieldPrepLaws
  import opened FieldEffects

  /** Under every sanitizer and on every record the two lists do the same. */
  ghost predicate SameRecords(a: seq<Step>, b: seq<Step>) {
    forall c: Cleaners, m: Record :: ApplyAll(c, a, m) == ApplyAll(c, b, m)
  }

  /** They do the same to the field of this name. */
  ghost predicate AgreeOn(a: seq<Step>, b: seq<Step>, name: string) {
    SameAlways(ForName(a, name), ForName(b, name))
  }

  lemma AgreeOnValue(a: seq<Step>, b: seq<Step>, name: string, c: Cleaners, x: Value)
    requires AgreeOn(a, b, name)
    ensures ChangeAll(c, ForName(a, name), x) == ChangeAll(c, ForName(b, name), x)
  {
    hide ForName, ChangeAll;
  }

  lemma RecordsAgreeByName(a: seq<Step>, b: seq<Step>, c: Cleaners, m: Record)
    requires forall name :: AgreeOn(a, b, name)
    ensures ApplyAll(c, a, m) == ApplyAll(c, b, m)
  {
    hide ApplyAll, ForName, ChangeAll, AgreeOn;
    var r, t := ApplyAll(c, a, m), ApplyAll(c, b, m);
    FieldByField(c, a, m, "");
    FieldByField(c, b, m, "");
    forall name | name in r ensures r[name] == t[name] {
      FieldByField(c, a, m, name);
      FieldByField(c, b, m, name);
      AgreeOnValue(a, b, name, c, Get(m, name));
    }
  }

  lemma NamesAgreeByRecord(a: seq<Step>, b: seq<Step>, name: string)
    requires SameRecords(a, b)
    ensures AgreeOn(a, b, name)
  {
    hide ApplyAll, ForName, ChangeAll;
    forall c: Cleaners, x: Value ensures ChangeAll(c, ForName(a, name), x) == ChangeAll(c, ForName(b, name), x) {
      var m: Record := map[name := x];
      FieldByField(c, a, m, name);
      FieldByField(c, b, m, name);
      assert ApplyAll(c, a, m) == ApplyAll(c, b, m);
    }
  }

  lemma RecordsAgreeIff(a: seq<Step>, b: seq<Step>)
    ensures SameRecords(a, b) <==> forall name :: AgreeOn(a, b, name)
  {
    hide ApplyAll, AgreeOn;
    if SameRecords(a, b) {
      forall name ensures AgreeOn(a, b, name) { NamesAgreeByRecord(a, b, name); }
    }
    if forall name :: AgreeOn(a, b, name) {
      forall c: Cleaners, m: Record ensures ApplyAll(c, a, m) == ApplyAll(c, b, m) { RecordsAgreeByName(a, b, c, m); }
    }
  }

  // ------------------------------------------------------------------
  // The steps of one field name, in a plan and in a loop over the schema
  // ------------------------------------------------------------------

  function RichFor(plan: Plan, mode: Mode, name: string): seq<Step> {
    if mode.sanitize then ForName(Richs(plan.sanitizeRich), name) else []
  }

  function PlainFor(plan: Plan, mode: Mode, name: string): seq<Step> {
    if mode.sanitize then ForName(Plains(plan.sanitizeText), name) else []
  }

  function DropFor(plan: Plan, mode: Mode, name: string): seq<Step> {
    if mode.stripNulls then ForName(Drops(plan.arrayFields), name) else []
  }

  function CutFor(plan: Plan, mode: Mode, name: string): seq<Step> {
    if mode.truncate then ForName(Cuts(plan.truncateFields), name) else []
  }

  lemma {:induction false} ForNameMembers(steps: seq<Step>, name: string, s: Step)
    ensures s in ForName(steps, name) <==> s in steps && s.name == name
  {
    if steps != [] {
      ForNameMembers(steps[1..], name, s);
      assert steps == [steps[0]] + steps[1..];
    }
  }

  lemma PartsAreRuns(plan: Plan, mode: Mode, name: string)
    ensures Runs(RichFor(plan, mode, name), PlainFor(plan, mode, name), DropFor(plan, mode, name),
            CutFor(plan, mode, name))
    ensures ForName(StepsOf(plan, mode), name) ==
            RichFor(plan, mode, name) + PlainFor(plan, mode, name) + DropFor(plan, mode, name) +
                CutFor(plan, mode, name)
  {
    hide ForName, StepsOf;
    PlanStepsFor(plan, mode, name);
    forall s ensures (s in ForName(Richs(plan.sanitizeRich), name) ==> s.Rich?)
                     && (s in ForName(Plains(plan.sanitizeText), name) ==> s.Plain?)
                     && (s in ForName(Drops(plan.arrayFields), name) ==> s.DropNulls?)
                     && (s in ForName(Cuts(plan.truncateFields), name) ==> s.Cut?) {
      ForNameMembers(Richs(plan.sanitizeRich), name, s);
      ForNameMembers(Plains(plan.sanitizeText), name, s);
      ForNameMembers(Drops(plan.arrayFields), name, s);
      ForNameMembers(Cuts(plan.truncateFields), name, s);
    }
  }

  lemma PartsGrow(plan: Plan, f: Option<PrepField>, mode: Mode, name: string)
    ensures var (e, o) := (Enter(plan, f), Enter(EMPTY_PLAN, f));
            && RichFor(e, mode, name) == RichFor(plan, mode, name) + RichFor(o, mode, name)
            && PlainFor(e, mode, name) == PlainFor(plan, mode, name) + PlainFor(o, mode, name)
            && DropFor(e, mode, name) == DropFor(plan, mode, name) + DropFor(o, mode, name)
            && CutFor(e, mode, name) == CutFor(plan, mode, name) + CutFor(o, mode, name)
  {
    hide ForName, Enter;
    EnterLists(plan, f, name);
  }

  /** What the loop over the schema does to one field, in schema order. */
  function Word(fields: Fields, mode: Mode, name: string): seq<Step> {
    ForName(FieldLoop(fields, mode), name)
  }

  lemma KindConcat(a: seq<Step>, b: seq<Step>)
    ensures Richly(a + b) == Richly(a) + Richly(b) && Plainly(a + b) == Plainly(a) + Plainly(b)
    ensures Dropping(a + b) == Dropping(a) + Dropping(b) && Cutting(a + b) == Cutting(a) + Cutting(b)
  {
    hide Filter;
    FilterConcat((s: Step) => s.Rich?, a, b);
    FilterConcat((s: Step) => s.Plain?, a, b);
    FilterConcat((s: Step) => s.DropNulls?, a, b);
    FilterConcat((s: Step) => s.Cut?, a, b);
  }

  lemma OwnWord(f: Option<PrepField>, mode: Mode, name: string)
    ensures var (o, w) := (Enter(EMPTY_PLAN, f), ForName(OwnSteps(f, mode), name));
            && w == RichFor(o, mode, name) + PlainFor(o, mode, name) + DropFor(o, mode, name) + CutFor(o, mode, name)
            && Richly(w) == RichFor(o, mode, name) && Plainly(w) == PlainFor(o, mode, name)
            && Dropping(w) == DropFor(o, mode, name) && Cutting(w) == CutFor(o, mode, name)
            && PassOrder(w)
  {
    hide ForName, Enter, OwnSteps, StepsOf, RichFor, PlainFor, DropFor, CutFor, Runs, Richly, Plainly, Dropping,
         Cutting, PassOrder;
    var o := Enter(EMPTY_PLAN, f);
    OwnStepsOf(f, mode);
    PartsAreRuns(o, mode, name);
    RunsApart(RichFor(o, mode, name), PlainFor(o, mode, name), DropFor(o, mode, name), CutFor(o, mode, name));
    RunsInOrder(RichFor(o, mode, name), PlainFor(o, mode, name), DropFor(o, mode, name), CutFor(o, mode, name));
  }

  lemma WordSnoc(fields: Fields, mode: Mode, name: string)
    requires fields != []
    ensures var n := |fields| - 1;
            Word(fields, mode, name) == Word(fields[..n], mode, name) + ForName(OwnSteps(fields[n], mode), name)
  {
    hide ForName, OwnSteps;
    var n := |fields| - 1;
    ForNameConcat(FieldLoop(fields[..n], mode), OwnSteps(fields[n], mode), name);
  }

  lemma NoWord(mode: Mode, name: string)
    ensures Word([], mode, name) == []
    ensures RichFor(PlanOf([]), mode, name) == [] && PlainFor(PlanOf([]), mode, name) == []
    ensures DropFor(PlanOf([]), mode, name) == [] && CutFor(PlanOf([]), mode, name) == []
  {
  }

  lemma {:induction false} WordParts(fields: Fields, mode: Mode, name: string)
    ensures Richly(Word(fields, mode, name)) == RichFor(PlanOf(fields), mode, name)
    ensures Plainly(Word(fields, mode, name)) == PlainFor(PlanOf(fields), mode, name)
    ensures Dropping(Word(fields, mode, name)) == DropFor(PlanOf(fields), mode, name)
    ensures Cutting(Word(fields, mode, name)) == CutFor(PlanOf(fields), mode, name)
  {
    hide ForName, Word, Enter, OwnSteps, RichFor, PlainFor, DropFor, CutFor, Richly, Plainly, Dropping, Cutting,
         PassOrder;
    if fields == [] {
      NoWord(mode, name);
      KindNone();
    } else {
      var n := |fields| - 1;
      WordParts(fields[..n], mode, name);
      WordSnoc(fields, mode, name);
      OwnWord(fields[n], mode, name);
      KindConcat(Word(fields[..n], mode, name), ForName(OwnSteps(fields[n], mode), name));
      PartsGrow(PlanOf(fields[..n]), fields[n], mode, name);
    }
  }

  /** For each field the compiled plan runs the passes of the word that a loop over the schema would run. */
  lemma PlanSortsWord(fields: Fields, mode: Mode, name: string)
    ensures ForName(StepsOf(PlanOf(fields), mode), name) == Sorted(Word(fields, mode, name))
  {
    hide ForName, Word, StepsOf, PlanOf, RichFor, PlainFor, DropFor, CutFor, Richly, Plainly, Dropping, Cutting, Runs;
    PartsAreRuns(PlanOf(fields), mode, name);
    WordParts(fields, mode, name);
  }

  lemma SameIsSymmetric(u: seq<Step>, v: seq<Step>)
    ensures SameAlways(u, v) <==> SameAlways(v, u)
  {
    hide ChangeAll;
  }

  // ------------------------------------------------------------------
  // The condition on the schema
  // ------------------------------------------------------------------

  predicate Of(f: Option<PrepField>, name: string) { Named(f) && f.value.dbFieldName == name }

  /** In this mode the first field's steps must not come before the second's. */
  predicate Conflict(f: Option<PrepField>, g: Option<PrepField>, mode: Mode)
    requires Named(f) && Named(g)
  {
    && mode.sanitize
    && ((IsText(f.value) && IsRich(g.value)) ||
       (mode.truncate && IsString(f.value) && (IsRich(g.value) || IsText(g.value))))
  }

  /** What kinds of steps one field asks for. */
  lemma OwnKinds(f: Option<PrepField>, mode: Mode, name: string)
    ensures var o := Enter(EMPTY_PLAN, f);
            && (RichFor(o, mode, name) != [] <==> mode.sanitize && Of(f, name) && IsRich(f.value))
            && (PlainFor(o, mode, name) != [] <==> mode.sanitize && Of(f, name) && IsText(f.value))
            && (CutFor(o, mode, name) != [] <==> mode.truncate && Of(f, name) && IsString(f.value))
  {
    hide IsRich, IsText, IsArray, IsString, ForName, Enter, Richs, Plains, Cuts;
    NoNames(name);
    OwnLists(f);
    if Named(f) {
      var x := f.value.dbFieldName;
      OneName(Rich(x), name);
      OneName(Plain(x), name);
      OneName(Cut(x, MaxLen(f.value)), name);
    }
  }

  lemma OwnLists(f: Option<PrepField>)
    ensures var o := Enter(EMPTY_PLAN, f);
            if Named(f) then
              var (g, x) := (f.value, f.value.dbFieldName);
              && Richs(o.sanitizeRich) == (if IsRich(g) then [Rich(x)] else [])
              && Plains(o.sanitizeText) == (if IsText(g) then [Plain(x)] else [])
              && Cuts(o.truncateFields) == (if IsString(g) then [Cut(x, MaxLen(g))] else [])
            else Richs(o.sanitizeRich) == [] && Plains(o.sanitizeText) == [] && Cuts(o.truncateFields) == []
  {
    hide IsRich, IsText, IsArray, IsString;
    if Named(f) {
      var x := f.value.dbFieldName;
      assert Richs([x]) == [Rich(x)] && Plains([x]) == [Plain(x)];
      assert Cuts([Truncation(x, MaxLen(f.value))]) == [Cut(x, MaxLen(f.value))];
    }
  }

  lemma OneName(s: Step, name: string)
    ensures ForName([s], name) == if s.name == name then [s] else []
  {
    assert [s][1..] == [];
  }

  lemma NoNames(name: string)
    ensures ForName([], name) == [] && Richs([]) == [] && Plains([]) == [] && Cuts([]) == []
  {
  }

  ghost predicate AnyField(fields: Fields, name: string, wants: PrepField -> bool) {
    exists i :: 0 <= i < |fields| && Of(fields[i], name) && wants(fields[i].value)
  }

  lemma AnyFieldSnoc(fields: Fields, name: string, wants: PrepField -> bool)
    requires fields != []
    ensures var n := |fields| - 1;
            AnyField(fields, name, wants) <==>
            AnyField(fields[..n], name, wants) || (Of(fields[n], name) && wants(fields[n].value))
  {
    var n := |fields| - 1;
    if AnyField(fields[..n], name, wants) {
      var i :| 0 <= i < n && Of(fields[..n][i], name) && wants(fields[..n][i].value);
      assert fields[i] == fields[..n][i];
    }
    if AnyField(fields, name, wants) {
      var i :| 0 <= i < |fields| && Of(fields[i], name) && wants(fields[i].value);
      if i < n { assert fields[..n][i] == fields[i]; }
    }
  }

  function RichField(): PrepField -> bool { f => IsRich(f) }
  function TextField(): PrepField -> bool { f => IsText(f) }
  function StringField(): PrepField -> bool { f => IsString(f) }

  /** What kinds of steps a plan holds for a name. */
  lemma {:induction false} PlanKinds(fields: Fields, mode: Mode, name: string)
    ensures RichFor(PlanOf(fields), mode, name) != [] <==> mode.sanitize && AnyField(fields, name, RichField())
    ensures PlainFor(PlanOf(fields), mode, name) != [] <==> mode.sanitize && AnyField(fields, name, TextField())
    ensures CutFor(PlanOf(fields), mode, name) != [] <==> mode.truncate && AnyField(fields, name, StringField())
  {
    hide RichFor, PlainFor, DropFor, CutFor, Enter, IsRich, IsText, IsString, AnyField, Of;
    if fields == [] {
      NoWord(mode, name);
      NoFields(name);
    } else {
      var n := |fields| - 1;
      PlanKinds(fields[..n], mode, name);
      PartsGrow(PlanOf(fields[..n]), fields[n], mode, name);
      OwnKinds(fields[n], mode, name);
      AnyFieldSnoc(fields, name, RichField());
      AnyFieldSnoc(fields, name, TextField());
      AnyFieldSnoc(fields, name, StringField());
    }
  }

  lemma NoFields(name: string)
    ensures !AnyField([], name, RichField()) && !AnyField([], name, TextField()) && !AnyField([], name, StringField())
  {
  }

  lemma PassOrderConcat(a: seq<Step>, b: seq<Step>)
    ensures PassOrder(a + b) <==> PassOrder(a) && PassOrder(b) && forall x, y :: x in a && y in b ==> !Clashes(x, y)
  {
    hide Clashes;
    var w := a + b;
    if PassOrder(w) {
      forall i, j | 0 <= i < j < |a| ensures !Clashes(a[i], a[j]) { assert w[i] == a[i] && w[j] == a[j]; }
      forall i, j | 0 <= i < j < |b| ensures !Clashes(b[i], b[j]) { assert w[|a| + i] == b[i] && w[|a| + j] == b[j]; }
      forall i, j | 0 <= i < |a| && 0 <= j < |b|
        ensures !Clashes(a[i], b[j])
      {
        assert w[i] == a[i] && w[|a| + j] == b[j];
      }
    } else {
      var i, j :| 0 <= i < j < |w| && Clashes(w[i], w[j]);
      if j < |a| { assert a[i] == w[i] && a[j] == w[j]; }
      else if i < |a| { assert a[i] in a && b[j - |a|] in b; }
      else { assert b[i - |a|] == w[i] && b[j - |a|] == w[j]; }
    }
  }

  predicate CrossFree(a: seq<Step>, b: seq<Step>) {
    && !(Plainly(a) != [] && Richly(b) != [])
    && !(Cutting(a) != [] && (Richly(b) != [] || Plainly(b) != []))
  }

  lemma CrossFreeIs(a: seq<Step>, b: seq<Step>)
    ensures CrossFree(a, b) <==> forall x, y :: x in a && y in b ==> !Clashes(x, y)
  {
    hide Richly, Plainly, Dropping, Cutting;
    forall s
      ensures (s in Plainly(a) <==> s in a && s.Plain?) && (s in Cutting(a) <==> s in a && s.Cut?)
    {
      KindMembers(a, s);
    }
    forall s
      ensures (s in Richly(b) <==> s in b && s.Rich?) && (s in Plainly(b) <==> s in b && s.Plain?)
    {
      KindMembers(b, s);
    }
    if Plainly(a) != [] { assert Plainly(a)[0] in Plainly(a); }
    if Cutting(a) != [] { assert Cutting(a)[0] in Cutting(a); }
    if Richly(b) != [] { assert Richly(b)[0] in Richly(b); }
    if Plainly(b) != [] { assert Plainly(b)[0] in Plainly(b); }
  }

  /** No two fields of this name come in the wrong order. */
  ghost predicate NoConflict(fields: Fields, mode: Mode, name: string) {
    forall i, j :: 0 <= i < j < |fields| && Of(fields[i], name) && Of(fields[j], name) ==>
        !Conflict(fields[i], fields[j], mode)
  }

  /** Some earlier field of the name conflicts with `g`, by the kinds of fields there are. */
  predicate Late(g: Option<PrepField>, mode: Mode, name: string, anyText: bool, anyString: bool) {
    && mode.sanitize && Of(g, name)
    && ((anyText && IsRich(g.value)) || (mode.truncate && anyString && (IsRich(g.value) || IsText(g.value))))
  }

  lemma LateIs(fields: Fields, g: Option<PrepField>, mode: Mode, name: string)
    ensures Late(g, mode, name, AnyField(fields, name, TextField()), AnyField(fields, name, StringField())) <==>
            exists i :: 0 <= i < |fields| && Of(fields[i], name) && Of(g, name) && Conflict(fields[i], g, mode)
  {
    hide IsRich, IsText, IsString;
  }

  lemma NoConflictSnoc(fields: Fields, mode: Mode, name: string)
    requires fields != []
    ensures var n := |fields| - 1;
            NoConflict(fields, mode, name) <==>
            NoConflict(fields[..n], mode, name)
            && (forall i :: 0 <= i < n && Of(fields[..n][i], name) && Of(fields[n], name) ==>
                  !Conflict(fields[..n][i], fields[n], mode))
  {
    hide Of, Conflict;
    var n := |fields| - 1;
    assert forall i :: 0 <= i < n ==> fields[..n][i] == fields[i];
  }

  lemma {:induction false} WordOrder(fields: Fields, mode: Mode, name: string)
    ensures PassOrder(Word(fields, mode, name)) <==> NoConflict(fields, mode, name)
  {
    hide Word, PassOrder, NoConflict, OwnSteps, ForName, RichFor, PlainFor, CutFor, DropFor, PlanOf, AnyField,
         Conflict, Enter;
    hide Clashes, Of, IsRich, IsText, IsString, Richly, Plainly, Dropping, Cutting;
    if fields == [] {
      NoWord(mode, name);
      NothingOrdered(mode, name);
    } else {
      var n := |fields| - 1;
      var init, g, own := fields[..n], fields[n], ForName(OwnSteps(fields[n], mode), name);
      WordOrder(init, mode, name);
      WordSnoc(fields, mode, name);
      PassOrderConcat(Word(init, mode, name), own);
      CrossFreeIs(Word(init, mode, name), own);
      OwnWord(g, mode, name);
      OwnKinds(g, mode, name);
      WordParts(init, mode, name);
      PlanKinds(init, mode, name);
      NoConflictSnoc(fields, mode, name);
      LateIs(init, g, mode, name);
    }
  }

  lemma NothingOrdered(mode: Mode, name: string)
    ensures PassOrder([]) && NoConflict([], mode, name)
  {
  }

  // ------------------------------------------------------------------
  // One loop or several
  // ------------------------------------------------------------------

  /** No two fields of this name come in the wrong order, or the lengths after the last sanitizer leave nothing of
      any text. */
  ghost predicate Passable(fields: Fields, mode: Mode, name: string) {
    NoConflict(fields, mode, name) || Blank(Trail(Word(fields, mode, name)))
  }

  lemma NameAgreesIff(fields: Fields, mode: Mode, name: string)
    ensures AgreeOn(StepsOf(PlanOf(fields), mode), FieldLoop(fields, mode), name) <==> Passable(fields, mode, name)
  {
    hide SameAlways, StepsOf, PlanOf, FieldLoop, Sorted, PassOrder, Trail, ForName, Blank, NoConflict;
    PlanSortsWord(fields, mode, name);
    WordOrder(fields, mode, name);
    WordAgreesIff(Word(fields, mode, name));
    SameIsSymmetric(Word(fields, mode, name), Sorted(Word(fields, mode, name)));
  }

  /** The exact condition for the promise of one loop over the schema, in every mode. */
  lemma PassesAreOneLoopIff(fields: Fields, mode: Mode)
    ensures SameRecords(StepsOf(PlanOf(fields), mode), FieldLoop(fields, mode)) <==>
            forall name :: Passable(fields, mode, name)
  {
    hide SameRecords, AgreeOn, StepsOf, PlanOf, FieldLoop, Passable;
    var p, l := StepsOf(PlanOf(fields), mode), FieldLoop(fields, mode);
    RecordsAgreeIff(p, l);
    forall name ensures AgreeOn(p, l, name) <==> Passable(fields, mode, name) {
      NameAgreesIff(fields, mode, name);
    }
  }

  /** A text field comes before a rich-text field of the same name. */
  ghost predicate TextBeforeRich(fields: Fields) {
    exists i, j :: 0 <= i < j < |fields| && OutOfPlace(fields[i], fields[j])
  }

  predicate OutOfPlace(f: Option<PrepField>, g: Option<PrepField>) {
    Named(f) && Named(g) && f.value.dbFieldName == g.value.dbFieldName && IsText(f.value) && IsRich(g.value)
  }

  lemma {:induction false} TrailWithoutCuts(w: seq<Step>)
    requires Cutting(w) == []
    ensures Trail(w) == WHOLE
  {
    if w != [] {
      var init, last := w[..|w| - 1], w[|w| - 1];
      assert w == init + [last];
      CuttingSnoc(init, last);
      TrailWithoutCuts(init);
    }
  }

  /** Sanitizing alone is one loop over the schema exactly when no text field comes before a rich-text field of the
      same name. */
  lemma SanitizeIsOneLoopIff(fields: Fields)
    ensures SameRecords(StepsOf(PlanOf(fields), SANITIZE), FieldLoop(fields, SANITIZE)) <==> !TextBeforeRich(fields)
  {
    hide SameRecords, StepsOf, PlanOf, FieldLoop, NoConflict, Word, IsRich, IsText, IsString;
    PassesAreOneLoopIff(fields, SANITIZE);
    forall name ensures Passable(fields, SANITIZE, name) <==> NoConflict(fields, SANITIZE, name) {
      WordParts(fields, SANITIZE, name);
      TrailWithoutCuts(Word(fields, SANITIZE, name));
    }
    ConflictsByName(fields);
  }

  lemma ConflictsByName(fields: Fields)
    ensures (forall name :: NoConflict(fields, SANITIZE, name)) <==> !TextBeforeRich(fields)
  {
    hide IsRich, IsText, IsString;
    if i, j :| 0 <= i < j < |fields| && OutOfPlace(fields[i], fields[j]) {
      assert !NoConflict(fields, SANITIZE, fields[i].value.dbFieldName);
    }
  }

  /** The constraints are one loop over the schema, whatever names the fields have. */
  lemma ConstraintsAreOneLoop(fields: Fields, mode: Mode)
    requires !mode.sanitize
    ensures SameRecords(StepsOf(PlanOf(fields), mode), FieldLoop(fields, mode))
  {
    hide SameRecords, StepsOf, PlanOf, FieldLoop, Word;
    PassesAreOneLoopIff(fields, mode);
  }

  /** With distinct field names every mode is one loop over the schema. */
  lemma PlanIsFieldLoop(fields: Fields, mode: Mode)
    requires DistinctNames(fields)
    ensures SameRecords(StepsOf(PlanOf(fields), mode), FieldLoop(fields, mode))
  {
    hide SameRecords, StepsOf, PlanOf, FieldLoop, Word, Conflict;
    PassesAreOneLoopIff(fields, mode);
  }

  // ------------------------------------------------------------------
  // Two plans
  // ------------------------------------------------------------------

  /** `html` so many times, then `strip`. */
  function Cleaned(c: Cleaners, rich: nat, plain: nat, text: string): string {
    if plain > 0 then c.strip(Cleaned(c, rich, plain - 1, text))
    else if rich > 0 then c.html(Cleaned(c, rich - 1, 0, text))
    else text
  }

  lemma {:induction false} RichTexts(c: Cleaners, r: seq<Step>, text: string)
    requires forall s :: s in r ==> s.Rich?
    ensures ChangeAll(c, r, Text(text)) == Text(Cleaned(c, |r|, 0, text))
  {
    hide ChangeAll;
    if r == [] {
      ChangeOne(c, DropNulls(""), Text(text));
    } else {
      var n := |r| - 1;
      assert r[n] in r && forall s :: s in r[..n] ==> s in r;
      RichTexts(c, r[..n], text);
      ChangeSnoc(c, r, Text(text));
      ChangeOne(c, r[n], Text(Cleaned(c, n, 0, text)));
    }
  }

  lemma {:induction false} CleanTexts(c: Cleaners, r: seq<Step>, p: seq<Step>, text: string)
    requires (forall s :: s in r ==> s.Rich?) && (forall s :: s in p ==> s.Plain?)
    ensures ChangeAll(c, r + p, Text(text)) == Text(Cleaned(c, |r|, |p|, text))
  {
    hide ChangeAll;
    if p == [] {
      assert r + p == r;
      RichTexts(c, r, text);
    } else {
      var n := |p| - 1;
      assert p[n] in p && forall s :: s in p[..n] ==> s in p;
      assert (r + p)[..|r + p| - 1] == r + p[..n] && (r + p)[|r + p| - 1] == p[n];
      CleanTexts(c, r, p[..n], text);
      ChangeSnoc(c, r + p, Text(text));
      ChangeOne(c, p[n], Text(Cleaned(c, |r|, n, text)));
    }
  }

  /** What four runs make of a text. */
  lemma RunsText(c: Cleaners, r: seq<Step>, p: seq<Step>, d: seq<Step>, k: seq<Step>, text: string)
    requires Runs(r, p, d, k)
    ensures var z := Cleaned(c, |r|, |p|, text);
            Room(ShrinkOf(k), |z|) <= |z| &&
                ChangeAll(c, r + p + d + k, Text(text)) == Text(z[..Room(ShrinkOf(k), |z|)])
  {
    hide ChangeAll, Room, ShrinkOf, Trail, Cleaned;
    Associative(r + p, d, k);
    ChangeConcat(c, r + p, d + k, Text(text));
    CleanTexts(c, r, p, text);
    assert forall s :: s in d + k ==> s in d || s in k;
    var z := TrailText(c, d + k, Cleaned(c, |r|, |p|, text));
    ShrinkAfterDrops(d, k);
  }

  lemma RunsOthers(c: Cleaners, r: seq<Step>, p: seq<Step>, d: seq<Step>, k: seq<Step>, x: Value)
    requires Runs(r, p, d, k) && !x.Text?
    ensures ChangeAll(c, r + p + d + k, x) == if x.Array? && d != [] then Array(WithoutNulls(x.items)) else x
  {
    hide ChangeAll, WithoutNulls;
    var w := r + p + d + k;
    ChangeOthers(c, w, x);
    assert forall s :: s in w <==> s in r || s in p || s in d || s in k;
    if d != [] { assert d[0] in d; }
  }

  /** How many sanitizers of each kind, whether null rows go, and what is left of lengths. */
  ghost predicate SameEffect(r: seq<Step>, p: seq<Step>, d: seq<Step>, k: seq<Step>,
                             r': seq<Step>, p': seq<Step>, d': seq<Step>, k': seq<Step>) {
    && (d != [] <==> d' != [])
    && ((Blank(ShrinkOf(k)) && Blank(ShrinkOf(k')))
        || (|r| == |r'| && |p| == |p'| && ShrinkOf(k) == ShrinkOf(k')))
  }

  lemma SameEffectAgrees(r: seq<Step>, p: seq<Step>, d: seq<Step>, k: seq<Step>,
                         r': seq<Step>, p': seq<Step>, d': seq<Step>, k': seq<Step>)
    requires Runs(r, p, d, k) && Runs(r', p', d', k') && SameEffect(r, p, d, k, r', p', d', k')
    ensures SameAlways(r + p + d + k, r' + p' + d' + k')
  {
    hide ChangeAll, Cleaned, ShrinkOf, Runs, WithoutNulls;
    forall c: Cleaners, x: Value ensures ChangeAll(c, r + p + d + k, x) == ChangeAll(c, r' + p' + d' + k', x) {
      if x.Text? {
        RunsText(c, r, p, d, k, x.text);
        RunsText(c, r', p', d', k', x.text);
        assert Cleaned(c, |r|, |p|, x.text)[..0] == Cleaned(c, |r'|, |p'|, x.text)[..0];
      } else {
        RunsOthers(c, r, p, d, k, x);
        RunsOthers(c, r', p', d', k', x);
      }
    }
  }

  /** Shrinks that leave as much of every text are the same, unless they leave nothing. */
  lemma RoomTells(s: Shrink, t: Shrink)
    requires forall n: nat :: Room(s, n) == Room(t, n)
    ensures (Blank(s) && Blank(t)) || s == t
  {
    assert Room(s, s.drop + 1) == Room(t, s.drop + 1) && Room(s, t.drop + 1) == Room(t, t.drop + 1);
    if s.cap.Some? { assert Room(s, s.drop + t.drop + s.cap.value + 1) == Room(t, s.drop + t.drop + s.cap.value + 1); }
    if t.cap.Some? { assert Room(s, s.drop + t.drop + t.cap.value + 1) == Room(t, s.drop + t.drop + t.cap.value + 1); }
  }

  const IDLE := Cleaners(t => t, t => t)

  lemma {:induction false} IdleCleans(rich: nat, plain: nat, text: string)
    ensures Cleaned(IDLE, rich, plain, text) == text
  {
    if plain > 0 { IdleCleans(rich, plain - 1, text); }
    else if rich > 0 { IdleCleans(rich - 1, 0, text); }
  }

  /** A text that tells its length: flagged when it has the length to watch for. */
  function Tally(n: nat, target: nat): string
    requires n > 0
  {
    [if n == target then 'Y' else 'N'] + Line(n - 1, 'c')
  }

  /** One sanitizer adds a character, the other does nothing. */
  function CountRich(target: nat): Cleaners { Cleaners(t => Tally(|t| + 1, target), t => t) }
  function CountPlain(target: nat): Cleaners { Cleaners(t => t, t => Tally(|t| + 1, target)) }

  lemma {:induction false} CountsRich(target: nat, rich: nat, plain: nat, n: nat)
    requires n > 0
    ensures Cleaned(CountRich(target), rich, plain, Tally(n, target)) == Tally(n + rich, target)
  {
    if plain > 0 { CountsRich(target, rich, plain - 1, n); }
    else if rich > 0 { CountsRich(target, rich - 1, 0, n); }
  }

  lemma {:induction false} CountsPlain(target: nat, rich: nat, plain: nat, n: nat)
    requires n > 0
    ensures Cleaned(CountPlain(target), rich, plain, Tally(n, target)) == Tally(n + plain, target)
  {
    if plain > 0 { CountsPlain(target, rich, plain - 1, n); }
    else if rich > 0 { CountsPlain(target, rich - 1, 0, n); }
  }

  lemma TalliesDiffer(n: nat, m: nat, room: nat, room': nat)
    requires 0 < room <= n && 0 < room' <= m && n != m
    ensures Tally(n, n)[..room] != Tally(m, n)[..room']
  {
    assert Tally(n, n)[..room][0] == 'Y' && Tally(m, n)[..room'][0] == 'N';
  }

  lemma CutsTell(r: seq<Step>, p: seq<Step>, d: seq<Step>, k: seq<Step>,
                 r': seq<Step>, p': seq<Step>, d': seq<Step>, k': seq<Step>, n: nat)
    requires Runs(r, p, d, k) && Runs(r', p', d', k') && SameAlways(r + p + d + k, r' + p' + d' + k')
    ensures Room(ShrinkOf(k), n) == Room(ShrinkOf(k'), n)
  {
    hide ChangeAll, Cleaned, ShrinkOf, Runs, Room;
    var text := Line(n, 'a');
    RunsText(IDLE, r, p, d, k, text);
    RunsText(IDLE, r', p', d', k', text);
    IdleCleans(|r|, |p|, text);
    IdleCleans(|r'|, |p'|, text);
    assert ChangeAll(IDLE, r + p + d + k, Text(text)) == ChangeAll(IDLE, r' + p' + d' + k', Text(text));
    assert |text[..Room(ShrinkOf(k), n)]| == |text[..Room(ShrinkOf(k'), n)]|;
  }

  lemma DropsTell(r: seq<Step>, p: seq<Step>, d: seq<Step>, k: seq<Step>,
                  r': seq<Step>, p': seq<Step>, d': seq<Step>, k': seq<Step>)
    requires Runs(r, p, d, k) && Runs(r', p', d', k') && SameAlways(r + p + d + k, r' + p' + d' + k')
    ensures d != [] <==> d' != []
  {
    hide ChangeAll, Runs;
    var x := Array([Null]);
    RunsOthers(IDLE, r, p, d, k, x);
    RunsOthers(IDLE, r', p', d', k', x);
    assert ChangeAll(IDLE, r + p + d + k, x) == ChangeAll(IDLE, r' + p' + d' + k', x);
    assert WithoutNulls(x.items) == [];
  }

  lemma SanitizersTell(r: seq<Step>, p: seq<Step>, d: seq<Step>, k: seq<Step>,
                       r': seq<Step>, p': seq<Step>, d': seq<Step>, k': seq<Step>)
    requires Runs(r, p, d, k) && Runs(r', p', d', k') && SameAlways(r + p + d + k, r' + p' + d' + k')
    requires ShrinkOf(k) == ShrinkOf(k') && !Blank(ShrinkOf(k))
    ensures |r| == |r'| && |p| == |p'|
  {
    hide ChangeAll, Cleaned, ShrinkOf, Runs, Room, Tally;
    var s := ShrinkOf(k);
    var n := s.drop + 1;
    if |r| != |r'| {
      var c := CountRich(n + |r|);
      RunsText(c, r, p, d, k, Tally(n, n + |r|));
      RunsText(c, r', p', d', k', Tally(n, n + |r|));
      CountsRich(n + |r|, |r|, |p|, n);
      CountsRich(n + |r|, |r'|, |p'|, n);
      TallyRoom(s, n + |r|, n + |r'|, n + |r|);
    }
    if |p| != |p'| {
      var c := CountPlain(n + |p|);
      RunsText(c, r, p, d, k, Tally(n, n + |p|));
      RunsText(c, r', p', d', k', Tally(n, n + |p|));
      CountsPlain(n + |p|, |r|, |p|, n);
      CountsPlain(n + |p|, |r'|, |p'|, n);
      TallyRoom(s, n + |p|, n + |p'|, n + |p|);
    }
  }

  lemma TallyRoom(s: Shrink, n: nat, m: nat, target: nat)
    requires n > s.drop && m > s.drop && !Blank(s) && n != m && target == n
    ensures |Tally(n, target)| == n && |Tally(m, target)| == m
    ensures Room(s, n) <= n && Room(s, m) <= m
    ensures Tally(n, target)[..Room(s, n)] != Tally(m, target)[..Room(s, m)]
  {
    RoomLeft(s, n);
    RoomLeft(s, m);
    TalliesDiffer(n, m, Room(s, n), Room(s, m));
  }

  /** What one field's runs in two plans must share, no more and no less, to have the same effect always. */
  lemma RunsAgreeIff(r: seq<Step>, p: seq<Step>, d: seq<Step>, k: seq<Step>,
                     r': seq<Step>, p': seq<Step>, d': seq<Step>, k': seq<Step>)
    requires Runs(r, p, d, k) && Runs(r', p', d', k')
    ensures SameAlways(r + p + d + k, r' + p' + d' + k') <==> SameEffect(r, p, d, k, r', p', d', k')
  {
    hide SameAlways, Runs, ShrinkOf, Room;
    if SameEffect(r, p, d, k, r', p', d', k') {
      SameEffectAgrees(r, p, d, k, r', p', d', k');
    }
    if SameAlways(r + p + d + k, r' + p' + d' + k') {
      DropsTell(r, p, d, k, r', p', d', k');
      forall n: nat ensures Room(ShrinkOf(k), n) == Room(ShrinkOf(k'), n) { CutsTell(r, p, d, k, r', p', d', k', n); }
      RoomTells(ShrinkOf(k), ShrinkOf(k'));
      if !Blank(ShrinkOf(k)) { SanitizersTell(r, p, d, k, r', p', d', k'); }
    }
  }

  /** The two plans ask the same of the field of this name. */
  ghost predicate SamePlanFor(p: Plan, q: Plan, mode: Mode, name: string) {
    SameEffect(RichFor(p, mode, name), PlainFor(p, mode, name), DropFor(p, mode, name), CutFor(p, mode, name),
               RichFor(q, mode, name), PlainFor(q, mode, name), DropFor(q, mode, name), CutFor(q, mode, name))
  }

  lemma PlanNameIff(p: Plan, q: Plan, mode: Mode, name: string)
    ensures AgreeOn(StepsOf(p, mode), StepsOf(q, mode), name) <==> SamePlanFor(p, q, mode, name)
  {
    hide SameAlways, StepsOf, ForName, RichFor, PlainFor, DropFor, CutFor, Runs, SameEffect;
    PartsAreRuns(p, mode, name);
    PartsAreRuns(q, mode, name);
    RunsAgreeIff(RichFor(p, mode, name), PlainFor(p, mode, name), DropFor(p, mode, name), CutFor(p, mode, name),
                 RichFor(q, mode, name), PlainFor(q, mode, name), DropFor(q, mode, name), CutFor(q, mode, name));
  }

  /** Two plans do the same to every record under every sanitizer exactly when they ask the same of every field. */
  lemma PlansAgreeIff(p: Plan, q: Plan, mode: Mode)
    ensures SameRecords(StepsOf(p, mode), StepsOf(q, mode)) <==> forall name :: SamePlanFor(p, q, mode, name)
  {
    hide SameRecords, AgreeOn, StepsOf, SamePlanFor;
    RecordsAgreeIff(StepsOf(p, mode), StepsOf(q, mode));
    forall name ensures AgreeOn(StepsOf(p, mode), StepsOf(q, mode), name) <==> SamePlanFor(p, q, mode, name) {
      PlanNameIff(p, q, mode, name);
    }
  }

  // ------------------------------------------------------------------
  // A plan after itself
  // ------------------------------------------------------------------

  /** Shrinking again takes nothing more away. */
  predicate Settles(s: Shrink) { s.drop == 0 || Blank(s) }

  lemma RoomTwice(s: Shrink, n: nat)
    ensures Settles(s) ==> Room(s, Room(s, n)) == Room(s, n)
    ensures !Settles(s) ==> Room(s, Room(s, s.drop + 1)) != Room(s, s.drop + 1)
  {
  }

  lemma ConstraintsText(c: Cleaners, plan: Plan, name: string, text: string)
    ensures var s := ShrinkOf(CutFor(plan, CONSTRAINTS, name));
            Room(s, |text|) <= |text|
            && ChangeAll(c, ForName(StepsOf(plan, CONSTRAINTS), name), Text(text)) == Text(text[..Room(s, |text|)])
  {
    hide ChangeAll, Room, ShrinkOf, StepsOf, ForName, Runs;
    PartsAreRuns(plan, CONSTRAINTS, name);
    RunsText(c, [], [], DropFor(plan, CONSTRAINTS, name), CutFor(plan, CONSTRAINTS, name), text);
  }

  lemma ConstraintsTwice(c: Cleaners, plan: Plan, name: string, x: Value)
    requires Settles(ShrinkOf(CutFor(plan, CONSTRAINTS, name)))
    ensures var u := ForName(StepsOf(plan, CONSTRAINTS), name);
            ChangeAll(c, u, ChangeAll(c, u, x)) == ChangeAll(c, u, x)
  {
    hide ChangeAll, ShrinkOf, StepsOf, ForName, CutFor, DropFor, Room;
    var s, u := ShrinkOf(CutFor(plan, CONSTRAINTS, name)), ForName(StepsOf(plan, CONSTRAINTS), name);
    if x.Text? {
      ConstraintsText(c, plan, name, x.text);
      ConstraintsText(c, plan, name, x.text[..Room(s, |x.text|)]);
      RoomTwice(s, |x.text|);
    } else {
      ChangeOthers(c, u, x);
      ChangeOthers(c, u, ChangeAll(c, u, x));
      if x.Array? { NullsGone(x.items); }
    }
  }

  lemma RecordTwice(c: Cleaners, steps: seq<Step>, m: Record)
    requires forall name, x :: var u := ForName(steps, name);
                               ChangeAll(c, u, ChangeAll(c, u, x)) == ChangeAll(c, u, x)
    ensures ApplyAll(c, steps, ApplyAll(c, steps, m)) == ApplyAll(c, steps, m)
  {
    hide ApplyAll, ForName, ChangeAll;
    var once := ApplyAll(c, steps, m);
    FieldByField(c, steps, m, "");
    FieldByField(c, steps, once, "");
    forall name | name in once ensures ApplyAll(c, steps, once)[name] == once[name] {
      FieldByField(c, steps, m, name);
      FieldByField(c, steps, once, name);
    }
  }

  lemma UnsettledShows(c: Cleaners, plan: Plan, name: string)
    requires !Settles(ShrinkOf(CutFor(plan, CONSTRAINTS, name)))
    ensures var steps := StepsOf(plan, CONSTRAINTS);
            exists m :: ApplyAll(c, steps, ApplyAll(c, steps, m)) != ApplyAll(c, steps, m)
  {
    hide ChangeAll, ShrinkOf, StepsOf, ForName, CutFor, ApplyAll, Room;
    var s, steps := ShrinkOf(CutFor(plan, CONSTRAINTS, name)), StepsOf(plan, CONSTRAINTS);
    var text := Line(s.drop + 1, 'a');
    var m: Record := map[name := Text(text)];
    FieldByField(c, steps, m, name);
    FieldByField(c, steps, ApplyAll(c, steps, m), name);
    ConstraintsText(c, plan, name, text);
    ConstraintsText(c, plan, name, text[..Room(s, |text|)]);
    RoomTwice(s, 0);
    assert |text[..Room(s, |text|)]| == Room(s, |text|);
  }

  /** A length of -1 takes one character on every call. */
  lemma NegativeLengthTwice(c: Cleaners)
    ensures var steps := StepsOf(EMPTY_PLAN.(truncateFields := [Truncation("title", -1)]), CONSTRAINTS);
            && ApplyAll(c, steps, map["title" := Text("abc")]) == map["title" := Text("ab")]
            && ApplyAll(c, steps, map["title" := Text("ab")]) == map["title" := Text("a")]
  {
    var plan := EMPTY_PLAN.(truncateFields := [Truncation("title", -1)]);
    assert Cuts([Truncation("title", -1)]) == [Cut("title", -1)];
    assert StepsOf(plan, CONSTRAINTS) == [Cut("title", -1)] && [Cut("title", -1)][1..] == [];
    assert "abc"[..2] == "ab" && "ab"[..1] == "a";
  }

  /** The constraints pass is idempotent on every record exactly when, for each field, the negative lengths take
      nothing in all or the lengths leave nothing in the end. */
  lemma ConstraintsIdempotentIff(c: Cleaners, plan: Plan)
    ensures var steps := StepsOf(plan, CONSTRAINTS);
            (forall m :: ApplyAll(c, steps, ApplyAll(c, steps, m)) == ApplyAll(c, steps, m))
            <==> forall name :: Settles(ShrinkOf(CutFor(plan, CONSTRAINTS, name)))
  {
    hide ApplyAll, StepsOf, ChangeAll, ForName, Settles, ShrinkOf, CutFor;
    if forall name :: Settles(ShrinkOf(CutFor(plan, CONSTRAINTS, name))) {
      var steps := StepsOf(plan, CONSTRAINTS);
      forall name, x
        ensures ChangeAll(c, ForName(steps, name), ChangeAll(c, ForName(steps, name), x)) ==
                ChangeAll(c, ForName(steps, name), x)
      {
        ConstraintsTwice(c, plan, name, x);
      }
      forall m ensures ApplyAll(c, steps, ApplyAll(c, steps, m)) == ApplyAll(c, steps, m) { RecordTwice(c, steps, m); }
    } else {
      var name :| !Settles(ShrinkOf(CutFor(plan, CONSTRAINTS, name)));
      UnsettledShows(c, plan, name);
    }
  }
}
