/** The validator (python/omni_api/validator.py): the output may hold only schema
    properties, and must hold every required key. */
module Validator {
  import opened Wrappers
  import opened Json
  import opened LexOrder
  import opened PlanTypes

  /** `[key for key in required if key not in payload]`, repetitions kept. */
  function Absent(required: seq<string>, payload: map<string, Value>): (r: seq<string>)
    ensures forall k :: k in r <==> k in required && k !in payload
  {
    if required == [] then []
    else (if required[0] in payload then [] else [required[0]]) + Absent(required[1..], payload)
  }

  /** Each absent required key is reported as often as it is required, a present one never. */
  lemma {:induction false} AbsentCounts(required: seq<string>, payload: map<string, Value>)
    ensures forall k ::
      multiset(Absent(required, payload))[k] == if k in payload then 0 else multiset(required)[k]
  {
    if required != [] {
      assert required == [required[0]] + required[1..];
      AbsentCounts(required[1..], payload);
    }
  }

  /** `validate_payload`: unknown output keys are reported first, sorted; then the required
      keys the output lacks, sorted; on success the (empty) list of missing keys. */
  function ValidatePayload(payload: map<string, Value>, schema: TargetSchema, required: seq<string>)
    : (r: Result<seq<string>, ValidationProblem>)
    requires schema.PropertiesUsable()
    ensures r.Ok? <==> payload.Keys <= schema.Properties().Keys && forall k :: k in required ==> k in payload
    ensures r.Ok? ==> r.value == []
    ensures !(payload.Keys <= schema.Properties().Keys) ==>
      && r.Err? && r.error.UnknownKeys?
      && StrictlySorted(r.error.keys)
      && forall k :: k in r.error.keys <==> k in payload && k !in schema.Properties()
    ensures payload.Keys <= schema.Properties().Keys && r.Err? ==>
      && r.error.MissingRequiredFields?
      && Sorted(r.error.keys)
      && (forall k :: k in r.error.keys <==> k in required && k !in payload)
      && multiset(r.error.keys) == multiset(Absent(required, payload))
  {
    var allowed := schema.Properties().Keys;
    var unknown := SortSet(payload.Keys - allowed);
    if unknown != [] then Err(UnknownKeys(unknown))
    else
      var missing := Sort(Absent(required, payload));
      MembersOfSort(Absent(required, payload));
      if missing != [] then
        assert missing[0] in missing;
        Err(MissingRequiredFields(missing))
      else
        Ok(missing)
  }
}
