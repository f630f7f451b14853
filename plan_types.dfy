/** The records of the schema-alignment pipeline (python/omni_api/plan_types.py), its two
    error kinds (python/omni_api/errors.py) and the target schema it is given. */
module PlanTypes {
  import opened Json

  /** The only transfer a mapping performs: the value is copied verbatim. */
  const CopyOp: string := "copy"

  /** The version every plan carries. */
  const PlanVersion: string := "1"

  /** Copy the source leaf at dotted path `fromPath` into output key `toKey`. */
  datatype Mapping = Mapping(fromPath: string, toKey: string, op: string)

  /** The warnings the planner and the executor append, kept as their fields rather than as
      the rendered message text. */
  datatype PlanWarning =
    | AmbiguousMapping(target: string, candidates: seq<string>, chosen: string)
    | MissingSourcePath(path: string, target: string)

  datatype TransformPlan = TransformPlan(
    version: string,
    mappings: seq<Mapping>,
    defaults: seq<Value>,
    drops: seq<string>,
    required: seq<string>,
    warnings: seq<PlanWarning>)

  datatype TransformReport = TransformReport(
    mapped: seq<string>,
    dropped: seq<string>,
    missingRequired: seq<string>,
    warnings: seq<PlanWarning>)

  datatype TransformResult = TransformResult(
    payload: map<string, Value>,
    plan: TransformPlan,
    report: TransformReport)

  /** Why the schema guard rejects a schema (TransformSchemaError). */
  datatype SchemaProblem =
    | NotObjectRoot
    | PropertiesNotDict
    | UnsupportedKeys(keys: seq<string>)

  /** Why the validator rejects an output (TransformValidationError). */
  datatype ValidationProblem =
    | UnknownKeys(keys: seq<string>)
    | MissingRequiredFields(keys: seq<string>)

  /** Everything `transform` can raise: the package's two error classes, and the TypeError
      Python raises when the schema's `required` entry cannot be iterated. */
  datatype TransformError =
    | SchemaError(schemaProblem: SchemaProblem)
    | ValidationError(validationProblem: ValidationProblem)
    | RequiredNotIterable

  /** A target schema: its top-level entries, and the order in which its `properties` object
      lists the property names (a Python dict iterates in insertion order, a map does not
      record one). */
  datatype TargetSchema = TargetSchema(entries: map<string, Value>, propertyOrder: seq<string>)
  {
    /** `target_schema.get("properties", {})` when that is a dict. */
    function Properties(): map<string, Value>
    {
      if "properties" in entries && entries["properties"].Object? then entries["properties"].fields
      else map[]
    }

    /** The `properties` entry is absent or a dict: every stage but the guard calls `.keys()`
        on it and would raise otherwise. */
    predicate PropertiesUsable()
    {
      "properties" !in entries || entries["properties"].Object?
    }

    /** `propertyOrder` lists each property name exactly once. */
    ghost predicate Valid()
    {
      && (forall i, j :: 0 <= i < j < |propertyOrder| ==> propertyOrder[i] != propertyOrder[j])
      && (forall k :: k in propertyOrder <==> k in Properties())
    }
  }
}
