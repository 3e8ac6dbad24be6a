/** What field preparation does to each field. */
module FieldPrepLaws {
  import opened Options
  import opened FieldPrep

  // ------------------------------------------------------------------
  // One field at a time
  // ------------------------------------------------------------------

  function ForName(steps: seq<Step>, name: string): seq<Step> {
    if steps == [] then []
    else (if steps[0].name == name then [steps[0]] else []) + ForName(steps[1..], name)
  }

  function ChangeAll(c: Cleaners, steps: seq<Step>, v: Value): Value {
    if steps == [] then v else ChangeAll(c, steps[1..], if Writes(steps[0], v) then Change(c, steps[0], v) else v)
  }

  lemma ApplyGet(c: Cleaners, step: Step, m: Record, name: string)
    ensures Apply(c, step, m).Keys == m.Keys
    ensures Get(Apply(c, step, m), name) == ChangeAll(c, if step.name == name then [step] else [], Get(m, name))
  {
  }

  lemma ChangeCons(c: Cleaners, step: Step, rest: seq<Step>, v: Value)
    ensures ChangeAll(c, [step] + rest, v) == ChangeAll(c, rest, ChangeAll(c, [step], v))
    ensures ChangeAll(c, [], v) == v
  {
    assert ([step] + rest)[1..] == rest && [step][1..] == [];
  }

  /** The steps neither add nor remove a field, and the value of a field depends on its own steps only. */
  lemma {:induction false} FieldByField(c: Cleaners, steps: seq<Step>, m: Record, name: string)
    ensures ApplyAll(c, steps, m).Keys == m.Keys
    ensures Get(ApplyAll(c, steps, m), name) == ChangeAll(c, ForName(steps, name), Get(m, name))
  {
    if steps != [] {
      hide Apply, ChangeAll;
      FieldByField(c, steps[1..], Apply(c, steps[0], m), name);
      ApplyGet(c, steps[0], m, name);
      ChangeCons(c, steps[0], ForName(steps[1..], name), Get(m, name));
      assert [] + ForName(steps[1..], name) == ForName(steps[1..], name);
    }
  }

  /** A field the plan does not mention is untouched. */
  lemma UntargetedUnchanged(c: Cleaners, steps: seq<Step>, m: Record, name: string)
    requires forall s :: s in steps ==> s.name != name
    ensures Get(ApplyAll(c, steps, m), name) == Get(m, name)
  {
  }

  lemma ForNameCons(step: Step, rest: seq<Step>, name: string)
    ensures ForName([step] + rest, name) == (if step.name == name then [step] else []) + ForName(rest, name)
    ensures ForName([], name) == []
  {
    assert ([step] + rest)[1..] == rest;
  }

  lemma {:induction false} ForNameConcat(a: seq<Step>, b: seq<Step>, name: string)
    ensures ForName(a + b, name) == ForName(a, name) + ForName(b, name)
  {
    hide *;
    if a == [] {
      ForNameCons(Rich(""), [], name);
      assert a + b == b;
    } else {
      ForNameConcat(a[1..], b, name);
      ForNameCons(a[0], a[1..], name);
      ForNameCons(a[0], a[1..] + b, name);
      assert a == [a[0]] + a[1..] && a + b == [a[0]] + (a[1..] + b);
    }
  }

  // ------------------------------------------------------------------
  // One loop over the schema
  // ------------------------------------------------------------------

  /** The steps one field asks for, in the order of the passes. */
  function OwnSteps(f: Option<PrepField>, mode: Mode): seq<Step> {
    if !Named(f) then [] else StepsOf(Enter(EMPTY_PLAN, f), mode)
  }

  /** A single loop over the schema's fields, each field fully prepared in its turn. */
  function FieldLoop(fields: Fields, mode: Mode): seq<Step> {
    if fields == [] then [] else FieldLoop(fields[..|fields| - 1], mode) + OwnSteps(fields[|fields| - 1], mode)
  }

  ghost predicate DistinctNames(fields: Fields) {
    forall i, j :: 0 <= i < j < |fields| && Named(fields[i]) && Named(fields[j]) ==>
      fields[i].value.dbFieldName != fields[j].value.dbFieldName
  }

  /** The steps of a plan for one name, pass by pass. */
  lemma PlanStepsFor(plan: Plan, mode: Mode, name: string)
    ensures ForName(StepsOf(plan, mode), name) ==
            (if mode.sanitize then ForName(Richs(plan.sanitizeRich), name) + ForName(Plains(plan.sanitizeText), name)
                else [])
            + (if mode.stripNulls then ForName(Drops(plan.arrayFields), name) else [])
            + (if mode.truncate then ForName(Cuts(plan.truncateFields), name) else [])
  {
    var s := if mode.sanitize then Richs(plan.sanitizeRich) + Plains(plan.sanitizeText) else [];
    var d := if mode.stripNulls then Drops(plan.arrayFields) else [];
    var t := if mode.truncate then Cuts(plan.truncateFields) else [];
    ForNameConcat(s + d, t, name);
    ForNameConcat(s, d, name);
    ForNameConcat(Richs(plan.sanitizeRich), Plains(plan.sanitizeText), name);
  }

  /** Entering a field appends its own steps to each list. */
  lemma EnterSteps(plan: Plan, f: Option<PrepField>)
    ensures var (e, o) := (Enter(plan, f), Enter(EMPTY_PLAN, f));
            && Richs(e.sanitizeRich) == Richs(plan.sanitizeRich) + Richs(o.sanitizeRich)
            && Plains(e.sanitizeText) == Plains(plan.sanitizeText) + Plains(o.sanitizeText)
            && Drops(e.arrayFields) == Drops(plan.arrayFields) + Drops(o.arrayFields)
            && Cuts(e.truncateFields) == Cuts(plan.truncateFields) + Cuts(o.truncateFields)
  {
  }

  lemma EnterLists(plan: Plan, f: Option<PrepField>, name: string)
    ensures var (e, o) := (Enter(plan, f), Enter(EMPTY_PLAN, f));
            && ForName(Richs(e.sanitizeRich), name) ==
               ForName(Richs(plan.sanitizeRich), name) + ForName(Richs(o.sanitizeRich), name)
            && ForName(Plains(e.sanitizeText), name) ==
               ForName(Plains(plan.sanitizeText), name) + ForName(Plains(o.sanitizeText), name)
            && ForName(Drops(e.arrayFields), name) ==
               ForName(Drops(plan.arrayFields), name) + ForName(Drops(o.arrayFields), name)
            && ForName(Cuts(e.truncateFields), name) ==
               ForName(Cuts(plan.truncateFields), name) + ForName(Cuts(o.truncateFields), name)
  {
    hide Enter, ForName, Richs, Plains, Drops, Cuts;
    var o := Enter(EMPTY_PLAN, f);
    EnterSteps(plan, f);
    ForNameConcat(Richs(plan.sanitizeRich), Richs(o.sanitizeRich), name);
    ForNameConcat(Plains(plan.sanitizeText), Plains(o.sanitizeText), name);
    ForNameConcat(Drops(plan.arrayFields), Drops(o.arrayFields), name);
    ForNameConcat(Cuts(plan.truncateFields), Cuts(o.truncateFields), name);
  }

  lemma OwnStepsOf(f: Option<PrepField>, mode: Mode)
    ensures OwnSteps(f, mode) == StepsOf(Enter(EMPTY_PLAN, f), mode)
    ensures StepsOf(EMPTY_PLAN, mode) == []
  {
  }

  /** Cleaners under which the order of the two sanitizers shows. */
  const MARKING := Cleaners(s => s + "h", s => s + "t")

  const TEXT_X := Some(PrepField("x", Some("text"), None, None))
  const RICH_X := Some(PrepField("x", Some("richtext"), None, None))

  lemma DuplicatePlan()
    ensures StepsOf(PlanOf([TEXT_X, RICH_X]), SANITIZE) == [Rich("x"), Plain("x")]
  {
    assert [TEXT_X, RICH_X][..1] == [TEXT_X] && [TEXT_X][..0] == [];
    assert PlanOf([TEXT_X]) == Enter(EMPTY_PLAN, TEXT_X);
    var plan := Enter(PlanOf([TEXT_X]), RICH_X);
    assert plan.sanitizeRich == ["x"] && plan.sanitizeText == ["x"];
  }

  lemma DuplicateLoop()
    ensures FieldLoop([TEXT_X, RICH_X], SANITIZE) == [Plain("x"), Rich("x")]
  {
    assert [TEXT_X, RICH_X][..1] == [TEXT_X] && [TEXT_X][..0] == [];
    assert OwnSteps(TEXT_X, SANITIZE) == [Plain("x")] && OwnSteps(RICH_X, SANITIZE) == [Rich("x")];
    assert FieldLoop([TEXT_X], SANITIZE) == [] + [Plain("x")];
  }

  /** Two fields of one name: the plan sanitizes rich text first, a loop over the schema would not. */
  lemma DuplicateNamesDiffer()
    ensures ApplyAll(MARKING, StepsOf(PlanOf([TEXT_X, RICH_X]), SANITIZE), map["x" := Text("")])
         != ApplyAll(MARKING, FieldLoop([TEXT_X, RICH_X], SANITIZE), map["x" := Text("")])
  {
    hide StepsOf, PlanOf, FieldLoop;
    DuplicatePlan();
    DuplicateLoop();
    var m: Record := map["x" := Text("")];
    TwoSteps(MARKING, Rich("x"), Plain("x"), m);
    TwoSteps(MARKING, Plain("x"), Rich("x"), m);
    var p, q := "" + "h" + "t", "" + "t" + "h";
    assert p[0] == 'h' && q[0] == 't';
    var grouped: Record := map["x" := Text(p)];
    var looped: Record := map["x" := Text(q)];
    assert Apply(MARKING, Plain("x"), Apply(MARKING, Rich("x"), m)) == grouped;
    assert Apply(MARKING, Rich("x"), Apply(MARKING, Plain("x"), m)) == looped;
    assert grouped["x"] != looped["x"];
  }

  lemma TwoSteps(c: Cleaners, a: Step, b: Step, m: Record)
    ensures ApplyAll(c, [a, b], m) == Apply(c, b, Apply(c, a, m))
  {
    assert [a, b][1..] == [b] && [b][1..] == [];
    assert ApplyAll(c, [b], Apply(c, a, m)) == ApplyAll(c, [], Apply(c, b, Apply(c, a, m)));
  }

  // ------------------------------------------------------------------
  // Idempotence of the constraints pass
  // ------------------------------------------------------------------

  const CONSTRAINTS := Mode(false, true, true)

  /** Neither removing nulls nor cutting would change the value again. */
  predicate Settled(step: Step, v: Value) { !Writes(step, v) }

  ghost predicate Constraints(steps: seq<Step>) {
    forall s :: s in steps ==> s.DropNulls? || (s.Cut? && s.maxLen >= 0)
  }

  lemma {:induction false} NullsGone(items: seq<Value>)
    ensures WithoutNulls(WithoutNulls(items)) == WithoutNulls(items)
  {
    if items != [] {
      NullsGone(items[1..]);
      var rest := WithoutNulls(items[1..]);
      if items[0].Null? || items[0].Undefined? {
        assert WithoutNulls(items) == rest;
      } else {
        assert WithoutNulls(items) == [items[0]] + rest;
        assert ([items[0]] + rest)[1..] == rest;
      }
    }
  }

  lemma StepSettles(c: Cleaners, step: Step, v: Value)
    requires step.DropNulls? || (step.Cut? && step.maxLen >= 0)
    ensures Settled(step, if Writes(step, v) then Change(c, step, v) else v)
  {
    if v.Array? { NullsGone(v.items); }
  }

  /** A later constraint leaves an earlier one settled: texts only shrink. */
  lemma StaysSettled(c: Cleaners, first: Step, later: Step, v: Value)
    requires first.DropNulls? || (first.Cut? && first.maxLen >= 0)
    requires later.DropNulls? || (later.Cut? && later.maxLen >= 0)
    requires Settled(first, v)
    ensures Settled(first, if Writes(later, v) then Change(c, later, v) else v)
  {
    if v.Array? { NullsGone(v.items); }
  }

  lemma {:induction false} SettledThrough(c: Cleaners, first: Step, steps: seq<Step>, m: Record)
    requires Constraints(steps) && (first.DropNulls? || (first.Cut? && first.maxLen >= 0))
    requires Settled(first, Get(m, first.name))
    ensures Settled(first, Get(ApplyAll(c, steps, m), first.name))
  {
    if steps != [] {
      if steps[0].name == first.name { StaysSettled(c, first, steps[0], Get(m, first.name)); }
      SettledThrough(c, first, steps[1..], Apply(c, steps[0], m));
    }
  }

  /** After a pass of constraints every one of them is settled. */
  lemma {:induction false} AllSettled(c: Cleaners, steps: seq<Step>, m: Record, i: nat)
    requires Constraints(steps) && i < |steps|
    ensures Settled(steps[i], Get(ApplyAll(c, steps, m), steps[i].name))
  {
    if i == 0 {
      StepSettles(c, steps[0], Get(m, steps[0].name));
      SettledThrough(c, steps[0], steps[1..], Apply(c, steps[0], m));
    } else {
      AllSettled(c, steps[1..], Apply(c, steps[0], m), i - 1);
    }
  }

  lemma {:induction false} SettledUntouched(c: Cleaners, steps: seq<Step>, m: Record)
    requires forall i :: 0 <= i < |steps| ==> Settled(steps[i], Get(m, steps[i].name))
    ensures !Touches(c, steps, m) && ApplyAll(c, steps, m) == m
  {
    if steps != [] {
      assert forall i :: 0 <= i < |steps[1..]| ==> steps[1..][i] == steps[i + 1];
      SettledUntouched(c, steps[1..], m);
    }
  }

  /** With no negative length the constraints pass is idempotent: the second pass writes nothing and
      returns its input by reference. */
  lemma ConstraintsIdempotent(c: Cleaners, plan: Plan, m: Record)
    requires forall t :: t in plan.truncateFields ==> t.maxLen >= 0
    ensures var steps := StepsOf(plan, CONSTRAINTS);
            !Touches(c, steps, ApplyAll(c, steps, m)) &&
                ApplyAll(c, steps, ApplyAll(c, steps, m)) == ApplyAll(c, steps, m)
  {
    var steps := StepsOf(plan, CONSTRAINTS);
    assert Constraints(steps);
    var once := ApplyAll(c, steps, m);
    forall i | 0 <= i < |steps| ensures Settled(steps[i], Get(once, steps[i].name)) { AllSettled(c, steps, m, i); }
    SettledUntouched(c, steps, once);
  }

  lemma {:induction false} NoNullLeft(items: seq<Value>)
    requires |WithoutNulls(items)| == |items|
    ensures Null !in items && Undefined !in items
  {
    if items != [] {
      FewerWithoutNulls(items[1..]);
      NoNullLeft(items[1..]);
      assert items == [items[0]] + items[1..];
    }
  }

  lemma {:induction false} FewerWithoutNulls(items: seq<Value>)
    ensures |WithoutNulls(items)| <= |items|
  {
    if items != [] { FewerWithoutNulls(items[1..]); }
  }

  /** What the constraints promise the database: no null row in an array field, no text over its limit. */
  lemma ConstraintsHold(c: Cleaners, plan: Plan, m: Record)
    requires forall t :: t in plan.truncateFields ==> t.maxLen >= 0
    ensures var r := ApplyAll(c, StepsOf(plan, CONSTRAINTS), m);
            && (forall name :: name in plan.arrayFields && Get(r, name).Array? ==>
                  Null !in Get(r, name).items && Undefined !in Get(r, name).items)
            && (forall t :: t in plan.truncateFields && Get(r, t.name).Text? ==> |Get(r, t.name).text| <= t.maxLen)
  {
    hide ApplyAll, Get, WithoutNulls;
    var steps := StepsOf(plan, CONSTRAINTS);
    var r := ApplyAll(c, steps, m);
    assert steps == Drops(plan.arrayFields) + Cuts(plan.truncateFields);
    forall name | name in plan.arrayFields && Get(r, name).Array?
      ensures Null !in Get(r, name).items && Undefined !in Get(r, name).items
    {
      var i :| 0 <= i < |plan.arrayFields| && plan.arrayFields[i] == name;
      assert steps[i] == DropNulls(name);
      AllSettled(c, steps, m, i);
      FewerWithoutNulls(Get(r, name).items);
      NoNullLeft(Get(r, name).items);
    }
    forall t | t in plan.truncateFields && Get(r, t.name).Text? ensures |Get(r, t.name).text| <= t.maxLen {
      var i :| 0 <= i < |plan.truncateFields| && plan.truncateFields[i] == t;
      assert steps[|plan.arrayFields| + i] == Cut(t.name, t.maxLen);
      AllSettled(c, steps, m, |plan.arrayFields| + i);
    }
  }
}
