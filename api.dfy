/** The public entry point (python/omni_api/api.py): a guard restricting target schemas to
    the supported subset, then plan, apply and validate in sequence. */
module Api {
  import opened Wrappers
  import opened Json
  import opened LexOrder
  import opened Text
  import opened PlanTypes
  import opened Planner
  import opened Executor
  import opened Validator

  /** `REQUIRED_SCHEMA_KEYS`: the only top-level keys a target schema may have. */
  const SupportedSchemaKeys: set<string> := {"type", "properties", "required"}

  /** `target_schema.get("type") == "object"`. */
  predicate ObjectRoot(entries: map<string, Value>)
  {
    "type" in entries && entries["type"] == Str("object")
  }

  /** `isinstance(target_schema.get("properties"), dict)`. */
  predicate PropertiesDict(entries: map<string, Value>)
  {
    "properties" in entries && entries["properties"].Object?
  }

  /** `_validate_schema_subset`: the root type, then the properties dict, then the set of
      top-level keys, each failure naming what it found. */
  function ValidateSchemaSubset(entries: map<string, Value>): (r: Outcome<SchemaProblem>)
    ensures r.Pass? <==> ObjectRoot(entries) && PropertiesDict(entries) && entries.Keys <= SupportedSchemaKeys
    ensures !ObjectRoot(entries) ==> r == Fail(NotObjectRoot)
    ensures ObjectRoot(entries) && !PropertiesDict(entries) ==> r == Fail(PropertiesNotDict)
    ensures ObjectRoot(entries) && PropertiesDict(entries) && r.Fail? ==>
      && r.error.UnsupportedKeys?
      && StrictlySorted(r.error.keys)
      && forall k :: k in r.error.keys <==> k in entries && k !in SupportedSchemaKeys
  {
    if !ObjectRoot(entries) then Fail(NotObjectRoot)
    else if !PropertiesDict(entries) then Fail(PropertiesNotDict)
    else
      var unknown := entries.Keys - SupportedSchemaKeys;
      if unknown != {} then
        var names := SortSet(unknown);
        assert names != [] by { var k :| k in unknown; assert k in names; }
        Fail(UnsupportedKeys(names))
      else Pass
  }

  /** What `transform` returns or raises. */
  function Pipeline(source: map<string, Value>, schema: TargetSchema): Result<TransformResult, TransformError>
  {
    match ValidateSchemaSubset(schema.entries)
    case Fail(problem) => Err(SchemaError(problem))
    case Pass =>
      match PlanOf(source, schema)
      case Err(e) => Err(e)
      case Ok(plan) =>
        var (payload, report) := Execution(source, schema, plan);
        match ValidatePayload(payload, schema, plan.required)
        case Err(problem) => Err(ValidationError(problem))
        case Ok(missing) =>
          Ok(TransformResult(payload, plan, TransformReport(report.mapped, report.dropped, missing, report.warnings)))
  }

  /** `transform`: guard, plan, apply, validate; the final report takes mapped, dropped and
      warnings from the executor and the missing list from the validator. */
  method Transform(source: map<string, Value>, schema: TargetSchema) returns (r: Result<TransformResult, TransformError>)
    requires schema.Valid()
    ensures r == Pipeline(source, schema)
  {
    var guard := ValidateSchemaSubset(schema.entries);
    if guard.Fail? {
      return Err(SchemaError(guard.error));
    }
    var plan := BuildPlan(source, schema);
    if plan.Err? {
      return Err(plan.error);
    }
    var payload, report := ApplyPlan(source, schema, plan.value);
    var missing := ValidatePayload(payload, schema, plan.value.required);
    if missing.Err? {
      return Err(ValidationError(missing.error));
    }
    r := Ok(TransformResult(payload, plan.value,
      TransformReport(report.mapped, report.dropped, missing.value, report.warnings)));
  }

  /** `s` is a string entry of the schema's `required` list. */
  predicate RequiredString(entries: map<string, Value>, s: string)
  {
    "required" in entries && entries["required"].Array? && Str(s) in entries["required"].items
  }

  /** The pieces of a successful result: the plan, the executor's output and report, and
      the validator's empty missing list. */
  lemma SuccessPieces(source: map<string, Value>, schema: TargetSchema)
    requires Pipeline(source, schema).Ok?
    ensures ValidateSchemaSubset(schema.entries).Pass? && PlanOf(source, schema).Ok?
    ensures var plan := PlanOf(source, schema).value;
      var (payload, report) := Execution(source, schema, plan);
      && ValidatePayload(payload, schema, plan.required) == Ok([])
      && Pipeline(source, schema).value == TransformResult(payload, plan,
           TransformReport(report.mapped, report.dropped, [], report.warnings))
  {
  }

  /** Every successful result: the schema is in the supported subset; the output holds only
      schema properties and every required name, and nothing is reported missing. */
  lemma TransformSuccess(source: map<string, Value>, schema: TargetSchema)
    requires Pipeline(source, schema).Ok?
    ensures var res := Pipeline(source, schema).value;
      && ObjectRoot(schema.entries) && PropertiesDict(schema.entries) && schema.entries.Keys <= SupportedSchemaKeys
      && res.payload.Keys <= schema.Properties().Keys
      && (forall k :: k in res.plan.required ==> k in res.payload)
      && (forall s :: RequiredString(schema.entries, s) ==> s in res.payload)
      && res.report.missingRequired == []
  {
    SuccessPieces(source, schema);
  }

  /** The report of a successful result: the mapped keys are exactly the output keys, and
      the planner's warnings lead the report's. */
  lemma TransformReportShape(source: map<string, Value>, schema: TargetSchema)
    requires Pipeline(source, schema).Ok?
    ensures var res := Pipeline(source, schema).value;
      && (forall k :: k in res.report.mapped <==> k in res.payload)
      && |res.plan.warnings| <= |res.report.warnings|
      && res.report.warnings[..|res.plan.warnings|] == res.plan.warnings
  {
    SuccessPieces(source, schema);
    ReportShape(source, schema, PlanOf(source, schema).value);
  }

  /** A required name that no mapping of the plan writes into the output makes `transform`
      fail, once the schema passed the guard: the output cannot hold it. */
  lemma UnmappedRequiredFails(source: map<string, Value>, schema: TargetSchema, k: string)
    requires ValidateSchemaSubset(schema.entries).Pass? && PlanOf(source, schema).Ok?
    requires k in PlanOf(source, schema).value.required
    requires !Landed(source, schema.Properties().Keys, PlanOf(source, schema).value.mappings, k)
    ensures Pipeline(source, schema).Err?
    ensures Pipeline(source, schema).error.ValidationError?
    ensures Pipeline(source, schema).error.validationProblem.MissingRequiredFields?
    ensures k in Pipeline(source, schema).error.validationProblem.keys
  {
    var plan := PlanOf(source, schema).value;
    var allowed := schema.Properties().Keys;
    AppliedKeysLanded(source, allowed, plan.mappings);
    AppliedKeys(source, allowed, plan.mappings);
  }
}
