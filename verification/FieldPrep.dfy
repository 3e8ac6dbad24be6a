/** Write-path field preparation of src/content/content-utils.ts: a plan compiled from the schema,
    kept in a cache by schema identity, and run with at most one shallow clone of the data. */
module FieldPrep {
  import opened Options

  datatype Value = Undefined | Null | Text(text: string) | Array(items: seq<Value>) | Other(tag: int)

  type Record = map<string, Value>

  /** `sanitizeHtml` and `stripHtml`. */
  datatype Cleaners = Cleaners(html: string -> string, strip: string -> string)

  datatype PrepField = PrepField(dbFieldName: string, fieldType: Option<string>, maxLength: Option<int>,
                                 widgetName: Option<string>)

  /** Entries of the list may be missing. */
  type Fields = seq<Option<PrepField>>

  datatype Truncation = Truncation(name: string, maxLen: int)

  datatype Plan = Plan(sanitizeRich: seq<string>, sanitizeText: seq<string>, arrayFields: seq<string>,
                       truncateFields: seq<Truncation>)

  datatype Mode = Mode(sanitize: bool, stripNulls: bool, truncate: bool)

  const STRING_FIELD_TYPES := {"string", "text", "textarea", "slug", "email", "url", "password"}
  const ARRAY_WIDGET_TYPES := {"array", "blocks", "group", "repeater"}

  // ------------------------------------------------------------------
  // What a field asks for
  // ------------------------------------------------------------------

  predicate Named(f: Option<PrepField>) { f.Some? && f.value.dbFieldName != "" }

  predicate IsRich(f: PrepField) { f.fieldType == Some("richtext") || f.fieldType == Some("markdown") }

  predicate IsText(f: PrepField) { !IsRich(f) && (f.fieldType == Some("text") || f.fieldType == Some("textarea")) }

  predicate IsArray(f: PrepField) {
    || (f.fieldType.Some? && f.fieldType.value in ARRAY_WIDGET_TYPES)
    || (f.widgetName.Some? && f.widgetName.value in ARRAY_WIDGET_TYPES)
  }

  predicate IsString(f: PrepField) { f.fieldType.Some? && f.fieldType.value in STRING_FIELD_TYPES }

  function MaxLen(f: PrepField): int { if f.maxLength.Some? then f.maxLength.value else 255 }

  // ------------------------------------------------------------------
  // One change to one field
  // ------------------------------------------------------------------

  datatype Step = Rich(name: string) | Plain(name: string) | DropNulls(name: string) | Cut(name: string, maxLen: int)

  /** `value.slice(0, k)`; a negative end counts from the end. */
  function Slice(s: string, k: int): string {
    if k >= |s| then s else if k >= 0 then s[..k] else if |s| + k > 0 then s[..|s| + k] else ""
  }

  function WithoutNulls(items: seq<Value>): seq<Value> {
    if items == [] then []
    else (if items[0].Null? || items[0].Undefined? then [] else [items[0]]) + WithoutNulls(items[1..])
  }

  /** What a step makes of the value of its field. */
  function Change(c: Cleaners, step: Step, v: Value): Value {
    match step
    case Rich(_) => if v.Text? then Text(c.html(v.text)) else v
    case Plain(_) => if v.Text? then Text(c.strip(v.text)) else v
    case DropNulls(_) => if v.Array? then Array(WithoutNulls(v.items)) else v
    case Cut(_, k) => if v.Text? && |v.text| > k then Text(Slice(v.text, k)) else v
  }

  /** Whether a step writes: the sanitizers write every string, the others only what they change. */
  predicate Writes(step: Step, v: Value) {
    match step
    case Rich(_) => v.Text?
    case Plain(_) => v.Text?
    case DropNulls(_) => v.Array? && |WithoutNulls(v.items)| < |v.items|
    case Cut(_, k) => v.Text? && |v.text| > k
  }

  function Get(m: Record, name: string): Value { if name in m then m[name] else Undefined }

  function Apply(c: Cleaners, step: Step, m: Record): Record {
    if Writes(step, Get(m, step.name)) then m[step.name := Change(c, step, Get(m, step.name))] else m
  }

  function ApplyAll(c: Cleaners, steps: seq<Step>, m: Record): Record {
    if steps == [] then m else ApplyAll(c, steps[1..], Apply(c, steps[0], m))
  }

  /** Some step of the list writes. */
  predicate Touches(c: Cleaners, steps: seq<Step>, m: Record) {
    steps != [] && (Writes(steps[0], Get(m, steps[0].name)) || Touches(c, steps[1..], Apply(c, steps[0], m)))
  }

  // ------------------------------------------------------------------
  // Plans
  // ------------------------------------------------------------------

  function Richs(names: seq<string>): seq<Step> { seq(|names|, i requires 0 <= i < |names| => Rich(names[i])) }
  function Plains(names: seq<string>): seq<Step> { seq(|names|, i requires 0 <= i < |names| => Plain(names[i])) }
  function Drops(names: seq<string>): seq<Step> { seq(|names|, i requires 0 <= i < |names| => DropNulls(names[i])) }
  function Cuts(ts: seq<Truncation>): seq<Step> { seq(|ts|, i requires 0 <= i < |ts| => Cut(ts[i].name, ts[i].maxLen)) }

  /** The steps a plan runs, list by list. */
  function StepsOf(plan: Plan, mode: Mode): seq<Step> {
    (if mode.sanitize then Richs(plan.sanitizeRich) + Plains(plan.sanitizeText) else [])
    + (if mode.stripNulls then Drops(plan.arrayFields) else [])
    + (if mode.truncate then Cuts(plan.truncateFields) else [])
  }

  const EMPTY_PLAN := Plan([], [], [], [])

  /** One field entered in the lists. */
  function Enter(plan: Plan, f: Option<PrepField>): Plan {
    if !Named(f) then plan else
    var (name, g) := (f.value.dbFieldName, f.value);
    Plan(plan.sanitizeRich + (if IsRich(g) then [name] else []),
         plan.sanitizeText + (if IsText(g) then [name] else []),
         plan.arrayFields + (if IsArray(g) then [name] else []),
         plan.truncateFields + (if IsString(g) then [Truncation(name, MaxLen(g))] else []))
  }

  function PlanOf(fields: Fields): Plan {
    if fields == [] then EMPTY_PLAN else Enter(PlanOf(fields[..|fields| - 1]), fields[|fields| - 1])
  }

  class Schema {
    var fields: Option<Fields>

    constructor (fields: Option<Fields>)
      ensures this.fields == fields
    {
      this.fields := fields;
    }
  }

  /** The loop of `getOrCompilePrepPlan` over the schema's fields. */
  method CompilePlan(fields: Fields) returns (plan: Plan)
    ensures plan == PlanOf(fields)
  {
    var sanitizeRich, sanitizeText, arrayFields: seq<string> := [], [], [];
    var truncateFields: seq<Truncation> := [];
    for i := 0 to |fields|
      invariant Plan(sanitizeRich, sanitizeText, arrayFields, truncateFields) == PlanOf(fields[..i])
    {
      var field := fields[i];
      assert fields[..i + 1][..i] == fields[..i];
      if !Named(field) { continue; }
      var name := field.value.dbFieldName;
      if IsRich(field.value) {
        sanitizeRich := sanitizeRich + [name];
      } else if field.value.fieldType == Some("text") || field.value.fieldType == Some("textarea") {
        sanitizeText := sanitizeText + [name];
      }
      if IsArray(field.value) {
        arrayFields := arrayFields + [name];
      }
      if IsString(field.value) {
        truncateFields := truncateFields + [Truncation(name, MaxLen(field.value))];
      }
    }
    assert fields[..|fields|] == fields;
    plan := Plan(sanitizeRich, sanitizeText, arrayFields, truncateFields);
  }

  class PrepPlanCache {
    var plans: map<Schema, Plan>

    constructor ()
      ensures plans == map[]
    {
      plans := map[];
    }

    /** The plan a call uses: the cached one whatever the schema says now, else a fresh one. */
    ghost function PlanUsed(schema: Schema): Plan
      reads this, schema
    {
      if schema in plans then plans[schema]
      else if schema.fields.Some? then PlanOf(schema.fields.value)
      else EMPTY_PLAN
    }

    /** No cached plan is older than a change of its schema's fields. */
    ghost predicate Current(schema: Schema)
      reads this, schema
    {
      schema in plans ==> plans[schema] == if schema.fields.Some? then PlanOf(schema.fields.value) else EMPTY_PLAN
    }

    method GetOrCompilePrepPlan(schema: Schema) returns (plan: Plan)
      modifies this
      ensures plan == old(PlanUsed(schema))
      ensures plans == old(plans)[schema := plan]
      ensures old(Current(schema)) ==> Current(schema)
    {
      if schema in plans {
        plan := plans[schema];
        assert plans == plans[schema := plan];
        return;
      }
      if schema.fields.Some? {
        plan := CompilePlan(schema.fields.value);
      } else {
        plan := EMPTY_PLAN;
      }
      plans := plans[schema := plan];
    }
  }

  // ------------------------------------------------------------------
  // Running a plan
  // ------------------------------------------------------------------

  class JsObject {
    var props: Record

    constructor (props: Record)
      ensures this.props == props
    {
      this.props := props;
    }
  }

  /** One loop over a list of steps; `result` is the clone once there is one. */
  method RunSteps(c: Cleaners, steps: seq<Step>, data: JsObject, result: JsObject?) returns (result': JsObject?)
    requires result != data
    modifies result
    ensures result != null ==> result' == result && result'.props == old(ApplyAll(c, steps, result.props))
    ensures result == null && result' != null ==>
              fresh(result') && result'.props == old(ApplyAll(c, steps, data.props)) &&
                  old(Touches(c, steps, data.props))
    ensures result == null && result' == null ==>
              old(ApplyAll(c, steps, data.props)) == data.props && !old(Touches(c, steps, data.props))
  {
    result' := result;
    ghost var start := if result != null then result.props else data.props;
    for i := 0 to |steps|
      invariant result != null ==> result' == result
      invariant result == null && result' != null ==> fresh(result')
      invariant result' != data && data.props == old(data.props)
      invariant ApplyAll(c, steps, start) ==
                ApplyAll(c, steps[i..], if result' != null then result'.props else data.props)
      invariant result == null ==>
                  (Touches(c, steps, start) <==> result' != null || Touches(c, steps[i..], data.props))
    {
      var step := steps[i];
      var current := if result' != null then result' else data;
      var value := Get(current.props, step.name);
      assert steps[i..][1..] == steps[i + 1..];
      if Writes(step, value) {
        if result' == null { result' := new JsObject(data.props); }
        result'.props := result'.props[step.name := Change(c, step, value)];
      }
    }
    assert steps[|steps|..] == [];
  }

  lemma {:induction false} ApplyConcat(c: Cleaners, a: seq<Step>, b: seq<Step>, m: Record)
    ensures ApplyAll(c, a + b, m) == ApplyAll(c, b, ApplyAll(c, a, m))
    ensures Touches(c, a + b, m) <==> Touches(c, a, m) || Touches(c, b, ApplyAll(c, a, m))
  {
    if a == [] {
      assert a + b == b;
    } else {
      ApplyConcat(c, a[1..], b, Apply(c, a[0], m));
      assert (a + b)[0] == a[0] && (a + b)[1..] == a[1..] + b;
    }
  }

  /** No step writes: nothing changes. */
  lemma {:induction false} UntouchedSame(c: Cleaners, steps: seq<Step>, m: Record)
    requires !Touches(c, steps, m)
    ensures ApplyAll(c, steps, m) == m
  {
    if steps != [] { UntouchedSame(c, steps[1..], m); }
  }

  /** The next loop takes up the clone of the previous ones. */
  method Continue(c: Cleaners, ghost done: seq<Step>, steps: seq<Step>, data: JsObject, clone: JsObject?)
    returns (clone': JsObject?)
    requires clone != data
    requires if clone == null then !Touches(c, done, data.props)
             else Touches(c, done, data.props) && clone.props == ApplyAll(c, done, data.props)
    modifies clone
    ensures clone' != data && (clone' == clone || fresh(clone')) && data.props == old(data.props)
    ensures if clone' == null then !Touches(c, done + steps, data.props)
            else Touches(c, done + steps, data.props) && clone'.props == ApplyAll(c, done + steps, data.props)
  {
    hide ApplyAll, Touches;
    ApplyConcat(c, done, steps, data.props);
    if clone == null { UntouchedSame(c, done, data.props); }
    clone' := RunSteps(c, steps, data, clone);
  }

  /** The four loops, each when its pass is asked for; null when no step writes. */
  method RunPlan(c: Cleaners, plan: Plan, data: JsObject, mode: Mode) returns (clone: JsObject?)
    ensures data.props == old(data.props)
    ensures if clone == null then !Touches(c, StepsOf(plan, mode), data.props)
            else fresh(clone) && Touches(c, StepsOf(plan, mode), data.props)
                 && clone.props == ApplyAll(c, StepsOf(plan, mode), data.props)
  {
    hide ApplyAll, Richs, Plains, Drops, Cuts;
    clone := null;
    ghost var s, d, t: seq<Step> := [], [], [];
    NoSteps(c, data.props);
    if mode.sanitize {
      clone := Continue(c, [], Richs(plan.sanitizeRich), data, clone);
      assert [] + Richs(plan.sanitizeRich) == Richs(plan.sanitizeRich);
      clone := Continue(c, Richs(plan.sanitizeRich), Plains(plan.sanitizeText), data, clone);
      s := Richs(plan.sanitizeRich) + Plains(plan.sanitizeText);
    }
    assert s + [] == s;
    if mode.stripNulls {
      d := Drops(plan.arrayFields);
      clone := Continue(c, s, Drops(plan.arrayFields), data, clone);
    }
    assert s + d + [] == s + d;
    if mode.truncate {
      t := Cuts(plan.truncateFields);
      clone := Continue(c, s + d, Cuts(plan.truncateFields), data, clone);
    }
    assert StepsOf(plan, mode) == s + d + t;
  }

  lemma NoSteps(c: Cleaners, m: Record)
    ensures !Touches(c, [], m) && ApplyAll(c, [], m) == m
  {
  }

  /** The four loops of `prepareFieldsCore`.  The data object is never written; it is returned itself
      when no step writes, and otherwise a fresh clone with the steps of the plan applied in order. */
  method PrepareFieldsCore(c: Cleaners, cache: PrepPlanCache, data: JsObject?, schema: Schema, mode: Mode)
    returns (result: JsObject?)
    modifies cache
    ensures data == null || schema.fields.None? ==> result == data && cache.plans == old(cache.plans)
    ensures data != null && schema.fields.Some? ==>
              var steps := StepsOf(old(cache.PlanUsed(schema)), mode);
              && result != null && result.props == ApplyAll(c, steps, data.props)
              && (if Touches(c, steps, data.props) then fresh(result) else result == data)
              && cache.plans == old(cache.plans)[schema := old(cache.PlanUsed(schema))]
    ensures old(cache.Current(schema)) ==> cache.Current(schema)
  {
    if data == null || schema.fields.None? { return data; }
    hide StepsOf, ApplyAll, Touches, PlanOf;
    var plan := cache.GetOrCompilePrepPlan(schema);
    var clone := RunPlan(c, plan, data, mode);
    if clone == null { UntouchedSame(c, StepsOf(plan, mode), data.props); }
    result := if clone != null then clone else data;
  }

  const SANITIZE := Mode(true, false, false)
  const STRIP := Mode(false, true, false)
  const TRUNCATE := Mode(false, false, true)

  /** `flags.sanitize` and `flags.constraints`; neither returns the input without looking at it. */
  method PrepareCollectionFields(c: Cleaners, cache: PrepPlanCache, data: JsObject?, schema: Schema, sanitize: bool,
                                 constraints: bool)
    returns (result: JsObject?)
    modifies cache
    ensures (!sanitize && !constraints) || data == null || schema.fields.None? ==>
            result == data && cache.plans == old(cache.plans)
    ensures (sanitize || constraints) && data != null && schema.fields.Some? ==>
              var steps := StepsOf(old(cache.PlanUsed(schema)), Mode(sanitize, constraints, constraints));
              && result != null && result.props == ApplyAll(c, steps, data.props)
              && (if Touches(c, steps, data.props) then fresh(result) else result == data)
              && cache.plans == old(cache.plans)[schema := old(cache.PlanUsed(schema))]
    ensures old(cache.Current(schema)) ==> cache.Current(schema)
  {
    if !sanitize && !constraints { return data; }
    result := PrepareFieldsCore(c, cache, data, schema, Mode(sanitize, constraints, constraints));
  }

  /** The legacy chain `sanitizeCollectionFields`, `stripNullRows`, `validateFieldConstraints`, each a pass
      of its own over the result of the one before, gives the same data as one call with both flags. */
  method LegacyChain(c: Cleaners, cache: PrepPlanCache, data: JsObject?, schema: Schema) returns (result: JsObject?)
    modifies cache
    ensures data == null || schema.fields.None? ==> result == data && cache.plans == old(cache.plans)
    ensures data != null && schema.fields.Some? ==>
              var steps := StepsOf(old(cache.PlanUsed(schema)), Mode(true, true, true));
              && result != null && result.props == ApplyAll(c, steps, data.props)
              && (if Touches(c, steps, data.props) then fresh(result) else result == data)
              && cache.plans == old(cache.plans)[schema := old(cache.PlanUsed(schema))]
  {
    hide StepsOf, ApplyAll, Touches, PlanOf;
    if data != null { ChainIsOnePass(c, cache.PlanUsed(schema), data.props); }
    var sanitized := PrepareFieldsCore(c, cache, data, schema, SANITIZE);
    var stripped := PrepareFieldsCore(c, cache, sanitized, schema, STRIP);
    result := PrepareFieldsCore(c, cache, stripped, schema, TRUNCATE);
  }

  lemma ChainIsOnePass(c: Cleaners, plan: Plan, m: Record)
    ensures ApplyAll(c, StepsOf(plan, TRUNCATE),
            ApplyAll(c, StepsOf(plan, STRIP), ApplyAll(c, StepsOf(plan, SANITIZE), m)))
         == ApplyAll(c, StepsOf(plan, Mode(true, true, true)), m)
    ensures Touches(c, StepsOf(plan, Mode(true, true, true)), m) <==>
            var sanitized := ApplyAll(c, StepsOf(plan, SANITIZE), m);
            || Touches(c, StepsOf(plan, SANITIZE), m)
            || Touches(c, StepsOf(plan, STRIP), sanitized)
            || Touches(c, StepsOf(plan, TRUNCATE), ApplyAll(c, StepsOf(plan, STRIP), sanitized))
  {
    hide ApplyAll, Touches, Richs, Plains, Drops, Cuts;
    var a, b, d := StepsOf(plan, SANITIZE), StepsOf(plan, STRIP), StepsOf(plan, TRUNCATE);
    assert StepsOf(plan, Mode(true, true, true)) == (a + b) + d;
    ApplyConcat(c, a + b, d, m);
    ApplyConcat(c, a, b, m);
  }
}
