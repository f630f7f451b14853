# omni_api in Dafny

This project models the two deterministic engines of the omni_api repository and proves
what they promise.

- **The schema-alignment pipeline** (Python, `python/omni_api/`). `transform(source, schema)`
  runs four stages:
  - A guard admits only object-rooted schemas with a `properties` dict and no top-level key
    beyond `type`, `properties` and `required`.
  - The planner flattens the source payload into dotted leaf paths, keys in sorted order. It
    picks a source path for every target property by three match tiers (exact, dot-free
    normalized, nested-leaf normalized). Ties go to the shortest path, then the alphabetically
    first. It warns about ambiguous nested-leaf matches and records the unused paths as drops.
  - The executor copies each planned path into the output.
  - The validator rejects unknown output keys and missing required keys.

  The Ollama payload shaper (`to_ollama_payload`) is modelled as well.
- **The provider routing and transform engine** (Rust, `src/`). `TransformEngine::transform`
  runs four steps:
  - It validates a canonical chat envelope and collects every violation in check order.
  - It routes availability-first over the preferred providers, recording a reason for each
    provider it skips.
  - It tries the selected provider and then the fallbacks, each through the adapter
    registered for it (OpenAI, Gemini, Ollama).
  - It returns the first payload built, or a `NoProviderAvailable` failure that keeps every
    reason.

Modules, one per source file:

| module | file |
|---|---|
| `Wrappers` | Option, Result, Outcome |
| `Json` | JSON values |
| `LexOrder` | code-point string order, `sorted` |
| `Text` | split, join, lower, trim, decimal digits |
| `PlanTypes` | plan_types.py, errors.py |
| `Planner` | planner.py |
| `Executor` | executor.py |
| `Validator` | validator.py |
| `Api` | api.py |
| `OllamaPayload` | adapters/ollama.py |
| `Types` | src/types.rs |
| `Canonical` | src/canonical.rs |
| `Routing` | src/routing.rs |
| `Adapters` | src/adapters.rs |
| `Engine` | src/engine.rs |

Code that works step by step is modelled as methods with loops. These are `FlattenPaths`,
`BuildPlan`, `GetByPath`, `ApplyPlan`, `AddPassthrough`, `ValidateEnvelope`,
`RouteAvailabilityFirst`, `FlattenTextContent` and `TransformEngine.Transform`. Each is
proved equal to a specification function, and the lemmas state the properties of that
function. `ToOllamaPayload` and `AdapterRegistry.Register` have no loop and state their
results directly: the payload key by key, and the registry's new map in full.
`AdapterRegistry` and `TransformEngine` are classes, because the source mutates them in
place.

`validate_envelope` nests a loop over parts inside a loop over messages. The model puts each
loop in its own method (`PushMessageViolations`, `PushPartViolations`). Each appends to the
violation list it is given.

**Where the code and the documented example disagree, the model follows the code.** The
end-to-end example (`python/tests/test_transform_end_to_end.py:4-23`) expects `full_name` to
land in property `name`. `_normalize("full_name")` is `fullname`, so no tier matches `name`
(`Planner.FullNameIsNotName`). The example flattens to `age`, `contact.email`, `extra_data`
and `full_name`, and none of these is a candidate for `name`
(`Planner.ExamplePathsAreNotName`). `name` is required, so `transform` raises a validation
error naming `name` (`Api.UnmappedRequiredFails`). The required-field test
(`python/tests/test_required_field_failure.py:6-15`) relies on exactly this non-match. Only
the end-to-end expectation contradicts the code.

## Model

| member | source | states |
|---|---|---|
| Planner.Normalize | python/omni_api/planner.py:8-9 | the normalized name holds no underscore and no upper-case letter |
| Planner.NormalizeIdempotent | python/omni_api/planner.py:8-9 | normalizing twice is normalizing once |
| Planner.NormalizeKeeps | python/omni_api/planner.py:8-9 | every character that is neither `_` nor upper case survives normalization |
| Planner.FlattenPaths | python/omni_api/planner.py:12-21 | the recursive loop returns exactly the leaves of the payload: keys in sorted order at every level, a dict value expanded in place under `prefix.key`, any other value one leaf |
| Planner.FlattenLeavesOnly | python/omni_api/planner.py:12-21 | no flattened value is a dict |
| Planner.FlattenOneKey | python/omni_api/planner.py:12-21 | a key contributes its nested leaves or itself; a key holding an empty dict contributes no path |
| Planner.Filter | python/omni_api/planner.py:25-40 | a tier's candidate list holds exactly the source paths that match in that tier |
| Planner.BestCandidatesTiers | python/omni_api/planner.py:24-44 | there are no candidates iff no tier matches; otherwise the candidates are exactly the matches of the first tier that has any; the ambiguity group is non-empty iff that tier is the nested-leaf tier |
| Planner.ExactMatchFirst | python/omni_api/planner.py:25-27 | when the target is itself a path, it is the only candidate and there is no ambiguity group |
| Planner.NoSharedNormal | python/omni_api/planner.py:29-40 | a dot-free path keeping a character that the target's normal form lacks matches in no tier |
| Planner.FullNameIsNotName | python/omni_api/planner.py:29-40 | `full_name` is no candidate for `name` in any tier |
| Planner.NoSharedLeaf | python/omni_api/planner.py:36-40 | a dotted path whose last segment keeps a character that the target's normal form lacks matches in no tier |
| Planner.ExamplePathsAreNotName | python/omni_api/planner.py:24-44 | none of `age`, `contact.email`, `extra_data` and `full_name` is a candidate for `name` in any tier |
| Planner.TieBreak | python/omni_api/planner.py:47-48 | the chosen path is a candidate and no candidate is shorter, or as long and alphabetically earlier |
| Planner.TieBreakUnique | python/omni_api/planner.py:47-48 | any candidate minimal by (length, text) is the one chosen |
| Planner.BuildPlan | python/omni_api/planner.py:51-85 | the loop over the properties builds the plan `PlanOf` describes, or the error for a non-iterable `required` |
| Planner.MappingsFollowTargets | python/omni_api/planner.py:59-67 | the mappings' target keys are the properties that have a candidate, in property order |
| Planner.MappingsArePlanned | python/omni_api/planner.py:59-67 | every mapping copies the tie-break winner among its property's candidates |
| Planner.AtMostOnePerTarget | python/omni_api/planner.py:59-67 | no two mappings share a target key |
| Planner.MatchedDistinct | python/omni_api/planner.py:59-67 | the mapped properties are properties of the schema, each listed once |
| Planner.SharedSourcePath | python/omni_api/planner.py:59-67 | two properties (`name`, `Name`) may both read the same source path |
| Planner.ExactMatchMapping | python/omni_api/planner.py:25-27 | a property that is itself a source path copies that path and gets no ambiguity warning |
| Planner.NoWarningWithoutGroup | python/omni_api/planner.py:69-72 | a property without an ambiguity group gets no warning |
| Planner.AmbiguityWarnings | python/omni_api/planner.py:69-72 | every warning is for a property matched only in the nested-leaf tier by more than one path, lists those paths sorted and names the chosen one; every such property gets a warning |
| Planner.ChosenAreSourcePaths | python/omni_api/planner.py:65-67 | every chosen path is a flattened source path |
| Planner.Unconsumed | python/omni_api/planner.py:74 | the unconsumed paths are exactly the source paths no mapping reads |
| Planner.UnconsumedCounts | python/omni_api/planner.py:74 | each path no mapping reads is kept as often as it occurs; a chosen path never |
| Planner.DropsPartitionPaths | python/omni_api/planner.py:74 | drops are sorted, disjoint from the chosen paths, together with them cover exactly the source paths, and are a permutation of the unconsumed paths |
| Planner.DropCounts | python/omni_api/planner.py:74 | a path no mapping reads is dropped exactly as often as it occurs among the flattened paths; a chosen path is never dropped |
| Planner.StringEntries | python/omni_api/planner.py:76-77 | `required` keeps exactly the string entries of the schema's list |
| Planner.StringEntriesCounts | python/omni_api/planner.py:76-77 | each string is kept as often as it occurs in the schema's list |
| Planner.StringEntriesConcat | python/omni_api/planner.py:76-77 | the entries of a concatenation are the entries of each part, in order, so the kept strings follow the list order |
| Planner.StringEntriesOne | python/omni_api/planner.py:76-77 | a single entry is kept, as its string, exactly when it is a string |
| Executor.GetByPath | python/omni_api/executor.py:8-14 | the loop over the dot-separated segments returns what `Resolve` gives |
| Executor.ResolveFailsIffStuck | python/omni_api/executor.py:8-14 | resolution fails iff at some segment the value reached is not a dict or lacks that key |
| Executor.ApplyPlan | python/omni_api/executor.py:17-50 | the loop returns the payload and report `Execution` describes |
| Executor.AppliedKeys | python/omni_api/executor.py:22-40 | output keys are schema properties, and a key is reported mapped iff it is in the output |
| Executor.AppliedKeysLanded | python/omni_api/executor.py:29-40 | a key is in the output iff some mapping to an allowed key resolves its path |
| Executor.AppliedLastWins | python/omni_api/executor.py:39-40 | an output key holds the value of the last mapping that landed on it, copied verbatim |
| Executor.AppliedWarnings | python/omni_api/executor.py:32-38 | a missing-path warning is added exactly for each allowed mapping whose path does not resolve; with every path resolving there is none |
| Executor.ReportShape | python/omni_api/executor.py:22-48 | output keys are properties; the plan's warnings come first; `mapped` is sorted without duplicates and lists exactly the output keys; `dropped` is the plan's drops sorted; `missing_required` is empty |
| Executor.LeafResolves | python/omni_api/executor.py:8-14 | with non-empty, dot-free keys, every flattened path resolves to its own leaf value |
| Executor.PlannedPathsResolve | python/omni_api/executor.py:8-14 | with non-empty, dot-free keys, every planned path resolves in the source |
| Executor.NoMissingPathWarnings | python/omni_api/executor.py:32-38 | with non-empty, dot-free keys, executing a plan adds no missing-path warning |
| LexOrder.SortSetIsSort | python/omni_api/executor.py:44 | `sorted(set(xs))` is `sorted` of any duplicate-free list with the same members, so modelling the mapped keys as a set before sorting loses nothing |
| LexOrder.SortOfSorted | python/omni_api/executor.py:45 | sorting a list that is already ascending, such as the planner's drops, gives it back unchanged |
| Text.JoinSplit | python/omni_api/executor.py:10 | joining the pieces of `path.split(".")` with dots gives the path back, so splitting loses no character |
| Executor.DottedKeyUnresolvable | python/omni_api/executor.py:8-14 | for example, `{"a.b": 1}` flattens to the path `a.b`, which `_get_by_path` cannot resolve, so the mapping warns instead of copying |
| Executor.DottedKeyCollision | python/omni_api/executor.py:8-14 | with `{"a.b": 1, "a": {"b": 2}}`, copying path `a.b` lands the nested `2` instead of the dotted key's `1`, and no warning is raised |
| Validator.Absent | python/omni_api/validator.py:18 | the missing keys are exactly the required keys absent from the output |
| Validator.AbsentCounts | python/omni_api/validator.py:18 | each absent required key is listed as often as it is required; a present key never |
| Validator.ValidatePayload | python/omni_api/validator.py:8-22 | success iff output keys are properties and every required key is present, returning `[]`; unknown keys are reported first, sorted; otherwise the missing required keys, sorted, as a rearrangement of the absent required keys (repetitions kept) |
| Api.ValidateSchemaSubset | python/omni_api/api.py:10-23 | the guard passes iff the root type is `object`, `properties` is a dict and no other top-level key is present; it checks in that order and names the sorted extra keys |
| Api.Transform | python/omni_api/api.py:26-38 | guard, plan, apply and validate run in sequence and give `Pipeline`'s result |
| Api.SuccessPieces | python/omni_api/api.py:26-38 | a success passed the guard, planned, validated with nothing missing, and its report takes mapped, dropped and warnings from the executor |
| Api.TransformSuccess | python/omni_api/api.py:26-38 | on success the schema is in the subset, the payload keys are properties, every required string is present and `missing_required` is empty |
| Api.TransformReportShape | python/omni_api/api.py:31-37 | on success `mapped` lists exactly the payload keys and the plan's warnings prefix the report's |
| Api.UnmappedRequiredFails | python/omni_api/api.py:26-38 | a required property that no mapping fills makes `transform` raise a validation error naming it |
| OllamaPayload.AddPassthrough | python/omni_api/adapters/ollama.py:14-16 | the loop adds exactly the present passthrough keys with their source values and keeps the base entries |
| OllamaPayload.ToOllamaPayload | python/omni_api/adapters/ollama.py:5-29 | `model` is always set (null if absent); `messages` wins over `prompt`; with neither the output is only `model`; no other key ever appears, and every copied value is the source's |
| Types.Success | src/types.rs:137-153 | `ok`, a selected provider, a payload and no error, with the given fallbacks, warnings and diagnostics |
| Types.Failure | src/types.rs:155-170 | not `ok`, no provider, no payload and the given error |
| Canonical.ValidateEnvelope | src/canonical.rs:151-208 | the checks give `EnvelopeCheck`: Ok iff no violation, otherwise `InvalidCanonicalRequest`, not retryable, with the rendered violations |
| Canonical.PushMessageViolations | src/canonical.rs:166-184 | the message loop appends exactly the violations of every message, in order |
| Canonical.PushPartViolations | src/canonical.rs:173-183 | the part loop appends exactly the violations of every part, in order |
| Canonical.RenderAll | src/canonical.rs:201-206 | every violation is rendered, one message each, in order |
| Text.NatToStringRoundTrip | src/canonical.rs:166-184 | the decimal index written into a violation message reads back as that index |
| Canonical.HeaderChecksIff | src/canonical.rs:154-164 | a violation for the preferred list, the model and the message list is present iff that list is empty or the model is blank |
| Canonical.MessageChecksIff | src/canonical.rs:166-184 | an empty-content violation for message i, and a blank-text or blank-url violation for part j of message i, are present iff that message or part is empty or blank |
| Canonical.EmptyContentIff | src/canonical.rs:167-171 | an empty-content violation carries exactly the indices of the messages without parts |
| Canonical.BlankTextIff | src/canonical.rs:175-177 | a blank-text violation carries exactly the indices of the blank text parts |
| Canonical.BlankUrlIff | src/canonical.rs:178-180 | a blank-url violation carries exactly the indices of the blank image urls |
| Canonical.PartViolationsIff | src/canonical.rs:173-183 | within one message, part j is reported iff it is a blank text or a blank url |
| Canonical.PartViolationsKinds | src/canonical.rs:173-183 | part violations are blank-text or blank-url ones for existing parts of that message |
| Canonical.MessageViolationsKinds | src/canonical.rs:166-184 | message violations are content violations of existing messages |
| Canonical.GenerationChecksIff | src/canonical.rs:186-196 | a temperature, top-p or max-tokens violation is present iff the value is outside [0, 2], outside [0, 1], or zero |
| Canonical.ViolationsInCheckOrder | src/canonical.rs:151-197 | violations appear in check order: header, then messages by index and parts by index, then generation |
| Canonical.MessageViolationsInOrder | src/canonical.rs:166-184 | message violations are ordered by message index, then part index |
| Canonical.PartViolationsInOrder | src/canonical.rs:173-183 | part violations are ordered by part index |
| Routing.RouteAvailabilityFirst | src/routing.rs:16-67 | the loop returns the decision `Route` describes |
| Routing.UsableListIff | src/routing.rs:20-53 | a provider is collected as usable iff it is preferred and neither marked unavailable nor incompatible |
| Routing.ReasonsForIff | src/routing.rs:20-53 | a provider gets a reason iff it is preferred and not usable, and the reason is its verdict |
| Routing.PreferredPartitioned | src/routing.rs:20-53 | every preferred provider is either usable or has a reason, never both; reasons are only for preferred providers |
| Routing.ReasonValues | src/routing.rs:22-50 | an unavailable provider gets Unavailable/HostMarkedUnavailable, retryable; an available one with `compatible == Some(false)` gets Incompatible/UnsupportedParam, not retryable |
| Routing.SelectedIsFirstUsable | src/routing.rs:55 | the selected provider is the first usable one in preferred order, and none is selected iff none is usable |
| Routing.CandidatesAreUsable | src/routing.rs:55-60 | the selected provider followed by the fallbacks is the whole usable list in order; with no selection there are no fallbacks |
| Routing.UsablePositionsPickOut | src/routing.rs:20-53 | the usable providers sit in the preferred list at strictly increasing positions |
| Routing.CandidatesSubsequence | src/routing.rs:20-60 | the selected provider followed by the fallbacks is a subsequence of the preferred list |
| Routing.SelectsFirstUsable | src/routing.rs:78-88 | with no snapshot, OpenAI is selected and Gemini is the fallback |
| Routing.SkipsUnavailable | src/routing.rs:90-112 | an unavailable OpenAI is skipped with a reason and Gemini is selected |
| Routing.SkipsIncompatible | src/routing.rs:114-135 | an incompatible OpenAI is skipped with a reason and Gemini is selected |
| Routing.FullExhaustion | src/routing.rs:137-167 | with every provider down, nothing is selected and there are no fallbacks |
| Adapters.Unsupported | src/adapters.rs:34-39 | an unsupported report carries its reason |
| Adapters.SupportsCharacterized | src/adapters.rs:92-227 | OpenAI supports everything; Gemini refuses exactly a JSON-schema response format; Ollama refuses tools, then a JSON-schema format, then any image part, reporting the first; every refusal is Incompatible, not retryable, with a reason |
| Adapters.RoleNameInjective | src/adapters.rs:319-326 | the four roles map to four different names |
| Adapters.GeminiRoleIff | src/adapters.rs:273-277 | Gemini sends `model` exactly for the assistant and `user` for every other role |
| Adapters.FlattenTextContent | src/adapters.rs:301-317 | the loop returns what `Flattened` describes |
| Adapters.FlattenedRoundTrip | src/adapters.rs:301-317 | flattening fails iff some part is an image, with ProviderPayloadBuildFailed, retryable; otherwise splitting the result at newlines gives back the newline-free texts |
| Adapters.TextsOfTextOnly | src/adapters.rs:303-305 | without images, the collected texts are the parts' texts in order |
| Adapters.OllamaMessagesShape | src/adapters.rs:229-234 | Ollama message mapping succeeds iff no message has an image, then maps each message in order, and otherwise fails with the flattening error |
| Adapters.OpenAiMessagesFollowRequest | src/adapters.rs:96-110 | the OpenAI `messages` follow the request messages one to one, with the mapped role and one content entry per part |
| Adapters.GeminiContentsFollowRequest | src/adapters.rs:156-171 | the Gemini `contents` follow the request messages one to one, with the Gemini role and one part per content part |
| Adapters.OllamaMessagesFollowRequest | src/adapters.rs:229-245 | the Ollama payload fails iff some message has an image; otherwise its `messages` follow the request messages one to one with the mapped role |
| Adapters.OptionalPayloadEntries | src/adapters.rs:112-119 | OpenAI adds `response_format` exactly for a JSON-schema format; Gemini never does; Ollama adds `tool_choice` exactly for a named tool choice |
| Adapters.SupportedBuilds | src/adapters.rs:96-252 | when an adapter supports a request, building its payload succeeds |
| Adapters.AdapterRegistry.constructor | src/adapters.rs:50-53 | a new registry is empty |
| Adapters.AdapterRegistry.Register | src/adapters.rs:56-63 | the adapter is stored under its own key and found there afterwards; any previous entry under that key is replaced and every other key is unchanged |
| Adapters.AdapterRegistry.Get | src/adapters.rs:65-67 | lookup finds an adapter iff one is registered under the key, and the adapter found carries that key |
| Adapters.OpenAiBuildsSample | src/adapters.rs:359-365 | OpenAI builds the sample request with its model and a messages array |
| Adapters.GeminiRejectsJsonSchema | src/adapters.rs:367-381 | Gemini refuses a JSON-schema response format as Incompatible/UnsupportedResponseFormat |
| Adapters.OllamaRejectsImage | src/adapters.rs:383-395 | Ollama refuses an image part as UnsupportedMultimodalContent |
| Engine.TransformEngine.Default | src/engine.rs:20-32 | the default engine registers the three adapters under their keys and uses version `v1` |
| Engine.TransformEngine.Transform | src/engine.rs:35-134 | the method returns what `EngineOutcome` describes |
| Engine.FailureHasReason | src/engine.rs:67-119 | every failed candidate records a reason: a missing registration, the adapter's refusal or a build failure |
| Engine.FirstWorking | src/engine.rs:58-121 | finds the first candidate from position i that is registered, supported and builds, or reports that none does |
| Engine.AttemptSucceeds | src/engine.rs:58-105 | when some candidate works, the first one is selected with its payload; its fallbacks are exactly the candidates after it; the attempted providers are the candidates up to it |
| Engine.AttemptExhausts | src/engine.rs:58-133 | when no candidate works, every candidate is attempted and the result is the NoProviderAvailable failure without fallbacks |
| Engine.AttemptReasons | src/engine.rs:67-119 | the reasons after the loop are the earlier ones plus one per failed candidate, each the reason that candidate's attempt gave |
| Engine.InvalidEnvelopeFails | src/engine.rs:36-43 | an invalid envelope fails with its validation error, no payload, no fallbacks and empty diagnostics |
| Engine.ValidEnvelopeOutcome | src/engine.rs:45-133 | for a valid envelope the result is consistent; it succeeds iff some usable candidate works; then it selects the first and falls back to the rest; otherwise it fails retryably with NoProviderAvailable after trying every candidate |
| Engine.RoutingReasonsKept | src/engine.rs:46-119 | the routing reasons survive in the diagnostics; each failed candidate adds its own reason; no other provider gets one |
| Engine.DefaultEngineTries | src/engine.rs:20-32 | in the default engine a candidate works iff its adapter supports the request, and a failure carries the adapter's reason |
| Engine.BaseEnvelopeValid | src/engine.rs:155-200 | the tests' base envelope has no violation |
| Engine.NormalPathSucceeds | src/engine.rs:202-209 | with both providers healthy, OpenAI is selected and a payload is built |
| Engine.FallbackSelectsNext | src/engine.rs:211-234 | with OpenAI down, Gemini is selected and OpenAI's reason is kept |
| Engine.NoProviderFails | src/engine.rs:236-263 | with both providers down, the result is a NoProviderAvailable failure |

## Left out

- Process and network I/O are not part of this model: the CLI client (`client.py`), the stdin/stdout binary and the integration scripts. Neither is the LLM-assisted alignment path the tests mention, which `api.py` does not contain.
- `Arc`, `Send + Sync` and trait objects serve only sharing. Adapters are plain values of one datatype, and a registry entry stores that value.
- serde attributes and the exact JSON text are not modelled. Violations, warnings, reasons and error details are datatypes holding the same fields. Only `Canonical.RenderAll` renders the violation messages, as text.
- Planner.Normalize: lower-cases ASCII letters only, where Python's `str.lower` covers all of Unicode.
- Canonical.HeaderChecksIff, Canonical.MessageChecksIff, Canonical.BlankTextIff, Canonical.BlankUrlIff and Canonical.PartViolationsIff: "blank" means ASCII whitespace only (space, tab, LF, VT, FF, CR), where Rust's `trim` strips all Unicode white space.
- Canonical.GenerationChecksIff: `temperature` and `top_p` are exact reals. f32 rounding and NaN, which fails both range checks in Rust, are not modelled.
- `max_tokens` is a natural number, and no 32-bit bound is modelled. Payloads copy it as a number.
- Executor.PlannedPathsResolve: holds only when no source key is empty or contains a dot. A key containing a dot can flatten to a path that `_get_by_path` cannot follow: `{"a.b": 1}` gives `a.b`, which does not resolve (`Executor.DottedKeyUnresolvable`). Likewise `{"": {"a": 1}}` flattens to `a`, because the empty key adds no prefix, and `a` does not resolve.
- Dotted keys that collide with nested ones: the value copied is the one `_get_by_path` finds, which need not be the value that produced the path. When a dotted key collides with a nested one, as in `{"a.b": 1, "a": {"b": 2}}`, the nested value is copied silently (`Executor.DottedKeyCollision`). The model follows the code here.
- Executor.LeafResolves and Executor.NoMissingPathWarnings: assume no source key is empty or contains a dot, for the same reason.
- Planner.BuildPlan: a `required` that is a dict contributes its keys in sorted order, not in insertion order. Property order is carried explicitly (`TargetSchema.propertyOrder`), because a map records no insertion order.
- Planner.BuildPlan, Executor.ApplyPlan and Validator.ValidatePayload: take a schema whose `properties` is absent or a dict. Otherwise Python raises an AttributeError on `.keys()`, which only an unguarded caller can reach.
- The executor's promise that the source is never modified holds by construction: the model is functional, so there is no mutation to rule out.
- Defaults and constructors that only store their arguments are constants or datatype constructors, not members with contracts. These are `AdapterVersion::default` (`"v1"`), `Diagnostics::default`, `OmniError::new` and `GenerationConfig::default`.
