/** The transform engine (src/engine.rs): validate the envelope, route, then try the
    candidates in order, recording why each one failed, and return the first payload an
    adapter builds. */
module Engine {
  import opened Wrappers
  import opened Json
  import opened Types
  import opened Canonical
  import opened Routing
  import opened Adapters

  /** The reason recorded for a candidate with no registered adapter. */
  function MissingRegistration(p: ProviderId): ProviderReason
  {
    ProviderReason(ConfigError, MissingAdapterRegistration, false, UnregisteredProvider(p))
  }

  /** The reason recorded for a candidate whose adapter failed to build a payload. */
  function BuildFailed(err: OmniError): ProviderReason
  {
    ProviderReason(AdapterFailure, PayloadBuildError, true, BuildFailure(err.code, err.message))
  }

  /** The error returned once every candidate has failed. */
  function NoProviderError(diag: Diagnostics): OmniError
  {
    OmniError(NoProviderAvailable, "No configured providers are currently available",
      Exhausted(diag.attemptedProviders, diag.providerReasons), true)
  }

  /** What trying one candidate gives: a payload, or a failure with the reason to record. */
  datatype Try = Built(payload: Value) | Failed(reason: Option<ProviderReason>)

  /** One iteration of the candidate loop, on the registry's entries. */
  function TryCandidate(entries: map<AdapterKey, Adapter>, version: AdapterVersion, req: ChatRequest, p: ProviderId): Try
  {
    var key := AdapterKey(p, Chat, version);
    if key !in entries then Failed(Some(MissingRegistration(p)))
    else
      var adapter := entries[key];
      var support := Supports(adapter, req);
      if !support.supported then Failed(support.reason)
      else
        match BuildPayload(adapter, req)
        case Ok(payload) => Built(payload)
        case Err(err) => Failed(Some(BuildFailed(err)))
  }

  /** A failing candidate always has a reason to record: an adapter that refuses a request
      always says why. */
  lemma FailureHasReason(entries: map<AdapterKey, Adapter>, version: AdapterVersion, req: ChatRequest, p: ProviderId)
    ensures TryCandidate(entries, version, req, p).Failed? ==> TryCandidate(entries, version, req, p).reason.Some?
  {
    var key := AdapterKey(p, Chat, version);
    if key in entries {
      SupportsCharacterized(entries[key], req);
    }
  }

  function Record(diag: Diagnostics, p: ProviderId, reason: Option<ProviderReason>): Diagnostics
  {
    match reason
    case None => diag
    case Some(r) => diag.(providerReasons := diag.providerReasons[p := r])
  }

  /** The candidate loop from candidate `i` on, with the diagnostics gathered so far. */
  function Attempt(entries: map<AdapterKey, Adapter>, version: AdapterVersion, req: ChatRequest,
                   cands: seq<ProviderId>, i: nat, diag: Diagnostics): TransformResult
    requires i <= |cands|
    decreases |cands| - i
  {
    if i == |cands| then Failure(NoProviderError(diag), [], [], diag)
    else
      var p := cands[i];
      var tried := diag.(attemptedProviders := diag.attemptedProviders + [p]);
      match TryCandidate(entries, version, req, p)
      case Built(payload) => Success(p, payload, cands[i + 1..], [], tried)
      case Failed(reason) => Attempt(entries, version, req, cands, i + 1, Record(tried, p, reason))
  }

  /** The diagnostics the loop starts from: the routing's reasons and nothing else. */
  function InitialDiagnostics(routing: RoutingDecision): Diagnostics
  {
    EmptyDiagnostics.(providerReasons := routing.providerReasons)
  }

  /** What `TransformEngine::transform` returns. */
  function EngineOutcome(entries: map<AdapterKey, Adapter>, version: AdapterVersion, env: CanonicalEnvelope)
    : TransformResult
  {
    match EnvelopeCheck(env)
    case Fail(e) => Failure(e, [], [], EmptyDiagnostics)
    case Pass =>
      var routing := Route(env.provider);
      Attempt(entries, version, env.request, Candidates(routing), 0, InitialDiagnostics(routing))
  }

  /** The registry `TransformEngine::default` builds: the three adapters, each under its own
      key. */
  const DefaultEntries: map<AdapterKey, Adapter> := map[
    KeyOf(OpenAiChatAdapter) := OpenAiChatAdapter,
    KeyOf(GeminiChatAdapter) := GeminiChatAdapter,
    KeyOf(OllamaChatAdapter) := OllamaChatAdapter]

  class TransformEngine {
    var registry: AdapterRegistry
    var defaultAdapterVersion: AdapterVersion

    ghost predicate Valid()
      reads this, registry
    {
      registry.Valid()
    }

    /** `TransformEngine::default`: register the three adapters at the default version. */
    constructor Default()
      ensures Valid() && fresh(registry)
      ensures registry.entries == DefaultEntries && defaultAdapterVersion == DefaultAdapterVersion
    {
      var r := new AdapterRegistry();
      r.Register(OpenAiChatAdapter);
      r.Register(GeminiChatAdapter);
      r.Register(OllamaChatAdapter);
      registry := r;
      defaultAdapterVersion := DefaultAdapterVersion;
    }

    /** `TransformEngine::transform`: reject an invalid envelope outright; otherwise try the
        routing's candidates in order, returning the first payload built, with the
        candidates after it as fallbacks. */
    method Transform(envelope: CanonicalEnvelope) returns (r: TransformResult)
      requires Valid()
      ensures r == EngineOutcome(registry.entries, defaultAdapterVersion, envelope)
    {
      var check := ValidateEnvelope(envelope);
      if check.Fail? {
        return Failure(check.error, [], [], EmptyDiagnostics);
      }
      var routing := RouteAvailabilityFirst(envelope.provider);
      var diagnostics := EmptyDiagnostics.(providerReasons := routing.providerReasons);
      var warnings: seq<Warning> := [];
      var candidates: seq<ProviderId> := [];
      if routing.selectedProvider.Some? {
        candidates := [routing.selectedProvider.value] + routing.fallbackCandidates;
      }
      ghost var entries := registry.entries;
      ghost var req := envelope.request;
      for idx := 0 to |candidates|
        invariant Attempt(entries, defaultAdapterVersion, req, candidates, 0, InitialDiagnostics(routing)) ==
          Attempt(entries, defaultAdapterVersion, req, candidates, idx, diagnostics)
      {
        var provider := candidates[idx];
        diagnostics := diagnostics.(attemptedProviders := diagnostics.attemptedProviders + [provider]);
        var key := AdapterKey(provider, Chat, defaultAdapterVersion);
        var adapter := registry.Get(key);
        if adapter.None? {
          diagnostics := diagnostics.(providerReasons := diagnostics.providerReasons[provider := MissingRegistration(provider)]);
          continue;
        }
        var support := Supports(adapter.value, envelope.request);
        if !support.supported {
          if support.reason.Some? {
            diagnostics := diagnostics.(providerReasons := diagnostics.providerReasons[provider := support.reason.value]);
          }
          continue;
        }
        match BuildPayload(adapter.value, envelope.request) {
          case Ok(payload) =>
            var fallbacks := if idx + 1 < |candidates| then candidates[idx + 1..] else [];
            return Success(provider, payload, fallbacks, warnings, diagnostics);
          case Err(err) =>
            diagnostics := diagnostics.(providerReasons := diagnostics.providerReasons[provider := BuildFailed(err)]);
        }
      }
      return Failure(NoProviderError(diagnostics), [], warnings, diagnostics);
    }
  }

  // ---------------------------------------------------------------------------------------
  // Properties of the candidate loop

  predicate Works(entries: map<AdapterKey, Adapter>, version: AdapterVersion, req: ChatRequest, p: ProviderId)
  {
    TryCandidate(entries, version, req, p).Built?
  }

  /** The index of the first candidate from `i` on that builds a payload, if any. */
  function FirstWorking(entries: map<AdapterKey, Adapter>, version: AdapterVersion, req: ChatRequest,
                        cands: seq<ProviderId>, i: nat): (r: Option<nat>)
    requires i <= |cands|
    decreases |cands| - i
    ensures r.Some? ==> i <= r.value < |cands| && Works(entries, version, req, cands[r.value])
    ensures r.Some? ==> forall j :: i <= j < r.value ==> !Works(entries, version, req, cands[j])
    ensures r.None? ==> forall j :: i <= j < |cands| ==> !Works(entries, version, req, cands[j])
  {
    if i == |cands| then None
    else if Works(entries, version, req, cands[i]) then Some(i)
    else FirstWorking(entries, version, req, cands, i + 1)
  }

  /** When some remaining candidate works the loop succeeds with the first such candidate,
      its payload and the candidates after it as fallbacks; the attempted providers grow by
      exactly the candidates tried, in order. */
  lemma {:induction false} AttemptSucceeds(entries: map<AdapterKey, Adapter>, version: AdapterVersion,
                                           req: ChatRequest, cands: seq<ProviderId>, i: nat, diag: Diagnostics)
    requires i <= |cands|
    requires FirstWorking(entries, version, req, cands, i).Some?
    decreases |cands| - i
    ensures var r := Attempt(entries, version, req, cands, i, diag);
      var k := FirstWorking(entries, version, req, cands, i).value;
      && r.ok && Consistent(r) && r.warnings == []
      && r.selectedProvider == Some(cands[k])
      && r.providerPayload == Some(TryCandidate(entries, version, req, cands[k]).payload)
      && r.fallbackCandidates == cands[k + 1..]
      && r.diagnostics.attemptedProviders == diag.attemptedProviders + cands[i..k + 1]
  {
    var p := cands[i];
    var tried := diag.(attemptedProviders := diag.attemptedProviders + [p]);
    match TryCandidate(entries, version, req, p)
    case Built(_) =>
      assert cands[i..i + 1] == [p];
    case Failed(reason) =>
      AttemptSucceeds(entries, version, req, cands, i + 1, Record(tried, p, reason));
      var k := FirstWorking(entries, version, req, cands, i).value;
      assert cands[i..k + 1] == [p] + cands[i + 1..k + 1];
  }

  /** When no remaining candidate works the loop fails with `NoProviderAvailable`,
      retryable, no fallbacks, and every remaining candidate reported as attempted. */
  lemma {:induction false} AttemptExhausts(entries: map<AdapterKey, Adapter>, version: AdapterVersion,
                                           req: ChatRequest, cands: seq<ProviderId>, i: nat, diag: Diagnostics)
    requires i <= |cands|
    requires FirstWorking(entries, version, req, cands, i).None?
    decreases |cands| - i
    ensures var r := Attempt(entries, version, req, cands, i, diag);
      && !r.ok && Consistent(r) && r.warnings == [] && r.fallbackCandidates == []
      && r.diagnostics.attemptedProviders == diag.attemptedProviders + cands[i..]
      && r.error == Some(NoProviderError(r.diagnostics))
  {
    if i < |cands| {
      var p := cands[i];
      var tried := diag.(attemptedProviders := diag.attemptedProviders + [p]);
      var reason := TryCandidate(entries, version, req, p).reason;
      AttemptExhausts(entries, version, req, cands, i + 1, Record(tried, p, reason));
      assert cands[i..] == [p] + cands[i + 1..];
    }
  }

  /** The candidates the loop gives up on from `i` on: all of them when none works, else
      those before the first that works. */
  function FailedCandidates(entries: map<AdapterKey, Adapter>, version: AdapterVersion, req: ChatRequest,
                            cands: seq<ProviderId>, i: nat): seq<ProviderId>
    requires i <= |cands|
  {
    match FirstWorking(entries, version, req, cands, i)
    case None => cands[i..]
    case Some(k) => cands[i..k]
  }

  /** The reasons the loop leaves behind: a reason already present stays unless its provider
      is tried again and fails; each failed candidate gets the reason its failure calls for;
      nothing else is added. */
  lemma {:induction false} AttemptReasons(entries: map<AdapterKey, Adapter>, version: AdapterVersion,
                                          req: ChatRequest, cands: seq<ProviderId>, i: nat, diag: Diagnostics)
    requires i <= |cands|
    decreases |cands| - i
    ensures var reasons := Attempt(entries, version, req, cands, i, diag).diagnostics.providerReasons;
      var failed := FailedCandidates(entries, version, req, cands, i);
      && (forall p :: p in reasons <==> p in diag.providerReasons || p in failed)
      && (forall p :: p in diag.providerReasons && p !in failed ==> reasons[p] == diag.providerReasons[p])
      && (forall p :: p in failed ==> Some(reasons[p]) == TryCandidate(entries, version, req, p).reason)
  {
    if i < |cands| {
      var p := cands[i];
      var tried := diag.(attemptedProviders := diag.attemptedProviders + [p]);
      match TryCandidate(entries, version, req, p)
      case Built(_) =>
        assert FailedCandidates(entries, version, req, cands, i) == [];
      case Failed(reason) =>
        FailureHasReason(entries, version, req, p);
        AttemptReasons(entries, version, req, cands, i + 1, Record(tried, p, reason));
        var f := FirstWorking(entries, version, req, cands, i);
        if f.Some? {
          assert cands[i..f.value] == [p] + cands[i + 1..f.value];
        } else {
          assert cands[i..] == [p] + cands[i + 1..];
        }
    }
  }

  // ---------------------------------------------------------------------------------------
  // Properties of the whole transform

  /** An invalid envelope fails with the validation error, before any provider is tried:
      no payload, no fallbacks, empty diagnostics. */
  lemma InvalidEnvelopeFails(entries: map<AdapterKey, Adapter>, version: AdapterVersion, env: CanonicalEnvelope)
    requires Violations(env) != []
    ensures var r := EngineOutcome(entries, version, env);
      && !r.ok && r.providerPayload.None? && r.fallbackCandidates == []
      && r.diagnostics == EmptyDiagnostics
      && r.error == Some(InvalidEnvelopeError(Violations(env)))
  {
  }

  /** For a valid envelope: the candidates are the usable preferred providers in order; the
      result is a success exactly when one of them works, selecting the first that does,
      with the later candidates as fallbacks; the attempted providers are the candidates
      up to and including it, or all of them on failure. */
  lemma ValidEnvelopeOutcome(entries: map<AdapterKey, Adapter>, version: AdapterVersion, env: CanonicalEnvelope)
    requires Violations(env) == []
    ensures var r := EngineOutcome(entries, version, env);
      var cands := UsableList(env.provider, env.provider.preferred);
      var f := FirstWorking(entries, version, env.request, cands, 0);
      && Consistent(r)
      && (r.ok <==> exists k :: 0 <= k < |cands| && Works(entries, version, env.request, cands[k]))
      && (f.Some? ==>
            && r.selectedProvider == Some(cands[f.value])
            && r.fallbackCandidates == cands[f.value + 1..]
            && r.diagnostics.attemptedProviders == cands[..f.value + 1])
      && (f.None? ==>
            && r.diagnostics.attemptedProviders == cands
            && r.error.value.code == NoProviderAvailable && r.error.value.retryable)
  {
    var routing := Route(env.provider);
    CandidatesAreUsable(env.provider);
    var cands := Candidates(routing);
    var diag := InitialDiagnostics(routing);
    var r := EngineOutcome(entries, version, env);
    assert r == Attempt(entries, version, env.request, cands, 0, diag);
    var f := FirstWorking(entries, version, env.request, cands, 0);
    if f.Some? {
      AttemptSucceeds(entries, version, env.request, cands, 0, diag);
      assert Works(entries, version, env.request, cands[f.value]);
    } else {
      AttemptExhausts(entries, version, env.request, cands, 0, diag);
      assert cands[0..] == cands;
    }
  }

  /** For a valid envelope the routing's reasons survive the loop unchanged, since a
      provider with a routing reason is never a candidate; every failed candidate carries the
      reason its failure calls for, and no other provider has a reason. */
  lemma RoutingReasonsKept(entries: map<AdapterKey, Adapter>, version: AdapterVersion, env: CanonicalEnvelope)
    requires Violations(env) == []
    ensures var r := EngineOutcome(entries, version, env);
      var routing := Route(env.provider);
      var failed := FailedCandidates(entries, version, env.request, Candidates(routing), 0);
      && (forall p :: p in routing.providerReasons ==>
            p in r.diagnostics.providerReasons && r.diagnostics.providerReasons[p] == routing.providerReasons[p])
      && (forall p :: p in failed ==>
            p in r.diagnostics.providerReasons &&
            Some(r.diagnostics.providerReasons[p]) == TryCandidate(entries, version, env.request, p).reason)
      && (forall p :: p in r.diagnostics.providerReasons <==> p in routing.providerReasons || p in failed)
  {
    var routing := Route(env.provider);
    var cands := Candidates(routing);
    CandidatesAreUsable(env.provider);
    PreferredPartitioned(env.provider);
    ReasonsForIff(env.provider, env.provider.preferred);
    AttemptReasons(entries, version, env.request, cands, 0, InitialDiagnostics(routing));
    var failed := FailedCandidates(entries, version, env.request, cands, 0);
    assert forall p :: p in failed ==> p in cands;
  }

  // ---------------------------------------------------------------------------------------
  // The default engine

  function AdapterFor(p: ProviderId): Adapter
  {
    match p
    case OpenAi => OpenAiChatAdapter
    case Gemini => GeminiChatAdapter
    case Ollama => OllamaChatAdapter
  }

  /** In the default engine every provider has its adapter, and a candidate works exactly
      when its adapter supports the request; a failure is therefore always the adapter's
      refusal, never a missing registration or a build error. */
  lemma DefaultEngineTries(req: ChatRequest, p: ProviderId)
    ensures var t := TryCandidate(DefaultEntries, DefaultAdapterVersion, req, p);
      && (t.Built? <==> Supports(AdapterFor(p), req).supported)
      && (t.Failed? ==> t.reason == Supports(AdapterFor(p), req).reason)
  {
    assert AdapterKey(p, Chat, DefaultAdapterVersion) == KeyOf(AdapterFor(p));
    if Supports(AdapterFor(p), req).supported {
      SupportedBuilds(AdapterFor(p), req);
    }
  }

  // ---------------------------------------------------------------------------------------
  // The unit tests of src/engine.rs as lemmas

  const Healthy: ProviderAvailability := ProviderAvailability(true, Some(true), None, Some("2026-02-15T00:00:00Z"))
  const DownNow: ProviderAvailability := ProviderAvailability(false, Some(true), Some("down"), None)

  function BaseEnvelope(availability: map<ProviderId, ProviderAvailability>): CanonicalEnvelope
  {
    CanonicalEnvelope(Chat, ProviderSelection([OpenAi, Gemini], availability),
      ChatRequest("gpt-4o-mini", [ChatMessage(User, [Text("hello")], None, None)], [], None, None,
        DefaultGeneration, false),
      Object(map[]))
  }

  lemma BaseEnvelopeValid(availability: map<ProviderId, ProviderAvailability>)
    ensures Violations(BaseEnvelope(availability)) == []
  {
    var env := BaseEnvelope(availability);
    var m := env.request.messages;
    assert m[..0] == [];
    assert m[0].content[..0] == [];
    assert MessageViolations(m) == OneMessageViolations(0, m[0]);
    assert PartViolations(0, m[0].content) == PartViolation(0, 0, Text("hello"));
  }

  /** With both providers healthy, OpenAI is selected. */
  lemma NormalPathSucceeds()
    ensures var r := EngineOutcome(DefaultEntries, DefaultAdapterVersion, BaseEnvelope(map[OpenAi := Healthy, Gemini := Healthy]));
      r.ok && r.selectedProvider == Some(OpenAi) && r.providerPayload.Some?
  {
    var env := BaseEnvelope(map[OpenAi := Healthy, Gemini := Healthy]);
    BaseEnvelopeValid(env.provider.availability);
    assert [OpenAi, Gemini][..1] == [OpenAi];
    assert UsableList(env.provider, [OpenAi]) == [OpenAi] by {
      assert [OpenAi][..0] == [];
    }
    assert UsableList(env.provider, [OpenAi, Gemini]) == [OpenAi, Gemini];
    DefaultEngineTries(env.request, OpenAi);
  }

  /** With OpenAI down, Gemini is selected and OpenAI's reason is kept. */
  lemma FallbackSelectsNext()
    ensures var r := EngineOutcome(DefaultEntries, DefaultAdapterVersion, BaseEnvelope(map[OpenAi := DownNow, Gemini := Healthy]));
      r.ok && r.selectedProvider == Some(Gemini) && OpenAi in r.diagnostics.providerReasons
  {
    var env := BaseEnvelope(map[OpenAi := DownNow, Gemini := Healthy]);
    BaseEnvelopeValid(env.provider.availability);
    assert [OpenAi, Gemini][..1] == [OpenAi];
    assert UsableList(env.provider, [OpenAi]) == [] by {
      assert [OpenAi][..0] == [];
    }
    assert UsableList(env.provider, [OpenAi, Gemini]) == [Gemini];
    assert ReasonsFor(env.provider, [OpenAi]) == map[OpenAi := Verdict(env.provider, OpenAi).value] by {
      assert [OpenAi][..0] == [];
    }
    DefaultEngineTries(env.request, Gemini);
    RoutingReasonsKept(DefaultEntries, DefaultAdapterVersion, env);
    assert OpenAi in Route(env.provider).providerReasons;
  }

  /** With both providers down, the result is `NoProviderAvailable`. */
  lemma NoProviderFails()
    ensures var r := EngineOutcome(DefaultEntries, DefaultAdapterVersion, BaseEnvelope(map[OpenAi := DownNow, Gemini := DownNow]));
      !r.ok && r.error.Some? && r.error.value.code == NoProviderAvailable
  {
    var env := BaseEnvelope(map[OpenAi := DownNow, Gemini := DownNow]);
    BaseEnvelopeValid(env.provider.availability);
    assert [OpenAi, Gemini][..1] == [OpenAi];
    assert UsableList(env.provider, [OpenAi]) == [] by {
      assert [OpenAi][..0] == [];
    }
    assert UsableList(env.provider, [OpenAi, Gemini]) == [];
  }
}
