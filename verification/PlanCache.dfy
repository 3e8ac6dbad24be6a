/** The cache of compiled plans over sequences of calls: invisible while schemas keep their fields, and stale after
    an edit. */
module PlanCache {
  import opened Options
  import opened FieldPrep
  import opened FieldPrepLaws
  import opened PlanLaws
  import opened FieldResults

  /** A call of `prepareCollectionFields`. */
  datatype Call = Call(data: JsObject?, schema: Schema, sanitize: bool, constraints: bool)

  /** The result the call has without a cache. */
  ghost predicate Uncached(c: Cleaners, call: Call, result: JsObject?)
    reads call.schema, call.data, result
  {
    if (!call.sanitize && !call.constraints) || call.data == null || call.schema.fields.None? then result == call.data
    else
      var steps := StepsOf(PlanOf(call.schema.fields.value), Mode(call.sanitize, call.constraints, call.constraints));
      && result != null && result.props == ApplyAll(c, steps, call.data.props)
      && (result == call.data <==> !Touches(c, steps, call.data.props))
  }

  /** The result in terms of the schema's types and the record's values: the data itself when no field has anything to
      do, else a record in which every field has had done to it what its type asks. */
  ghost predicate Prepared(c: Cleaners, call: Call, result: JsObject?)
    reads call.schema, call.data, result
  {
    if (!call.sanitize && !call.constraints) || call.data == null || call.schema.fields.None? then result == call.data
    else
      var (fields, mode) := (call.schema.fields.value, Mode(call.sanitize, call.constraints, call.constraints));
      && result != null && PreparedRecord(c, fields, mode, call.data.props, result.props)
      && (result == call.data <==> !AnyPending(fields, mode, call.data.props))
  }

  lemma UncachedIsPrepared(c: Cleaners, call: Call, result: JsObject?)
    requires Uncached(c, call, result)
    ensures Prepared(c, call, result)
  {
    hide ApplyAll, StepsOf, PlanOf, Touches, PreparedRecord, AnyPending;
    if call.data != null && call.schema.fields.Some? {
      var (fields, mode) := (call.schema.fields.value, Mode(call.sanitize, call.constraints, call.constraints));
      RecordIsPrepared(c, fields, mode, call.data.props);
      TouchesIff(c, fields, mode, call.data.props);
    }
  }

  /** The cache changes no result: over any sequence of calls on any schemas whose cached plans are current, every
      call gives what it gives without a cache, and the plans stay current. */
  method PrepareEach(c: Cleaners, cache: PrepPlanCache, calls: seq<Call>) returns (results: seq<JsObject?>)
    requires forall call <- calls :: cache.Current(call.schema)
    modifies cache
    ensures |results| == |calls| && forall i :: 0 <= i < |calls| ==> Uncached(c, calls[i], results[i])
    ensures forall i :: 0 <= i < |calls| ==> Prepared(c, calls[i], results[i])
    ensures forall call <- calls :: cache.Current(call.schema)
  {
    hide StepsOf, ApplyAll, Touches, PlanOf, Prepared;
    results := [];
    for i := 0 to |calls|
      invariant |results| == i
      invariant forall call <- calls :: cache.Current(call.schema)
      invariant forall j :: 0 <= j < i ==> Uncached(c, calls[j], results[j])
    {
      var call := calls[i];
      var result := PrepareCollectionFields(c, cache, call.data, call.schema, call.sanitize, call.constraints);
      results := results + [result];
    }
    forall i | 0 <= i < |calls| ensures Prepared(c, calls[i], results[i]) {
      UncachedIsPrepared(c, calls[i], results[i]);
    }
  }

  /** An edit of the fields between two calls: the second call still runs the plan of the old fields. */
  method PrepareAfterEdit(c: Cleaners, cache: PrepPlanCache, schema: Schema, fields: Fields, first: JsObject,
                          second: JsObject,
                          sanitize: bool, constraints: bool) returns (result: JsObject?)
    requires cache.Current(schema) && schema.fields.Some? && (sanitize || constraints)
    modifies cache, schema
    ensures schema.fields == Some(fields) && result != null
    ensures result.props ==
            ApplyAll(c, StepsOf(PlanOf(old(schema.fields.value)), Mode(sanitize, constraints, constraints)),
                second.props)
  {
    hide StepsOf, ApplyAll, Touches, PlanOf;
    var _ := PrepareCollectionFields(c, cache, first, schema, sanitize, constraints);
    schema.fields := Some(fields);
    result := PrepareCollectionFields(c, cache, second, schema, sanitize, constraints);
  }

  /** Exactly when such an edit goes unnoticed: when old and new fields ask, for each name, for as many sanitizers of
      each kind, for the removal of null rows or not, and for lengths that leave as much. */
  lemma StaleAgreesIff(before: Fields, after: Fields, mode: Mode)
    ensures SameRecords(StepsOf(PlanOf(before), mode), StepsOf(PlanOf(after), mode)) <==>
            forall name :: SamePlanFor(PlanOf(before), PlanOf(after), mode, name)
  {
    PlansAgreeIff(PlanOf(before), PlanOf(after), mode);
  }

  function SlugField(maxLength: int): Option<PrepField> {
    Some(PrepField("title", Some("slug"), Some(maxLength), None))
  }

  lemma SlugSteps(maxLength: int)
    ensures StepsOf(PlanOf([SlugField(maxLength)]), CONSTRAINTS) == [Cut("title", maxLength)]
  {
    var f := SlugField(maxLength);
    assert [f][..0] == [];
    assert PlanOf([f]) == Enter(EMPTY_PLAN, f);
    assert Cuts([Truncation("title", maxLength)]) == [Cut("title", maxLength)];
  }

  /** A length raised from 1 to 3 after the first call: titles are still cut to one character. */
  lemma StalePlanDiffers(c: Cleaners)
    ensures ApplyAll(c, StepsOf(PlanOf([SlugField(1)]), CONSTRAINTS), map["title" := Text("abc")])
         != ApplyAll(c, StepsOf(PlanOf([SlugField(3)]), CONSTRAINTS), map["title" := Text("abc")])
  {
    hide PlanOf, StepsOf;
    SlugSteps(1);
    SlugSteps(3);
    var m: Record := map["title" := Text("abc")];
    assert [Cut("title", 1)][1..] == [] && [Cut("title", 3)][1..] == [];
    assert Get(ApplyAll(c, [Cut("title", 1)], m), "title") == Text("abc"[..1]);
    assert Get(ApplyAll(c, [Cut("title", 3)], m), "title") == Text("abc");
  }
}
