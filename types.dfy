/** The shared vocabulary of the provider engine (src/types.rs): providers, reasons a
    provider was passed over, errors, diagnostics and the engine's result. JSON `detail`
    objects are kept as datatypes holding the fields the engine puts in them. */
module Types {
  import opened Wrappers
  import opened Json

  datatype Capability = Chat

  datatype ProviderId = OpenAi | Gemini | Ollama

  datatype AdapterVersion = AdapterVersion(name: string)

  /** `AdapterVersion::default()`. */
  const DefaultAdapterVersion: AdapterVersion := AdapterVersion("v1")

  datatype ReasonClass = Unavailable | Incompatible | AdapterFailure | ConfigError | PolicyBlocked

  datatype ReasonCode =
    | HealthcheckDown | HostMarkedUnavailable | CircuitOpen | RateLimitCooldown | TimeoutRecent
    | UnsupportedModel | UnsupportedToolCalling | UnsupportedResponseFormat
    | UnsupportedMultimodalContent | UnsupportedParam
    | PayloadBuildError | CanonicalToProviderMappingFailed | SerializationError
    | AdapterVersionMismatch | InternalAdapterError
    | MissingProviderConfig | InvalidProviderConfig | MissingAdapterRegistration
    | InvalidRoutingConfig | InvalidApiVersionTarget
    | ProviderNotAllowed | ModelNotAllowed | FeatureNotAllowed | DataClassificationBlocked | RegionRestricted

  datatype ErrorCode =
    | InvalidCanonicalRequest | MissingRequiredField | UnsupportedFeatureForProvider
    | ProviderPayloadBuildFailed | NoProviderAvailable | RoutingConfigInvalid | InternalMappingError

  /** The `detail` object of a provider reason, one variant per shape the engine builds. */
  datatype ReasonDetail =
    | HostSnapshotDown(reason: Option<string>, lastSeenHealthyAt: Option<string>)
    | HostSnapshotIncompatible(reason: Option<string>)
    | UnsupportedFeature(feature: string)
    | UnregisteredProvider(provider: ProviderId)
    | BuildFailure(errorCode: ErrorCode, message: string)

  datatype ProviderReason = ProviderReason(reasonClass: ReasonClass, code: ReasonCode, retryable: bool, detail: ReasonDetail)

  /** The `details` object of an error, one variant per shape the engine builds. */
  datatype ErrorDetail =
    | ViolationList(violations: seq<string>)
    | FlattenFailure(reason: string)
    | Exhausted(attemptedProviders: seq<ProviderId>, reasons: map<ProviderId, ProviderReason>)

  /** `OmniError`; `OmniError::new` is its constructor, storing each field unchanged. */
  datatype OmniError = OmniError(code: ErrorCode, message: string, details: ErrorDetail, retryable: bool)

  datatype Warning = Warning(code: string, message: string, detail: Value)

  datatype Diagnostics = Diagnostics(
    droppedFields: seq<string>,
    coercions: seq<string>,
    mappingTrace: seq<string>,
    providerReasons: map<ProviderId, ProviderReason>,
    attemptedProviders: seq<ProviderId>)

  /** `Diagnostics::default()`: every list and map empty. */
  const EmptyDiagnostics: Diagnostics := Diagnostics([], [], [], map[], [])

  datatype TransformResult = TransformResult(
    ok: bool,
    selectedProvider: Option<ProviderId>,
    providerPayload: Option<Value>,
    fallbackCandidates: seq<ProviderId>,
    warnings: seq<Warning>,
    diagnostics: Diagnostics,
    error: Option<OmniError>)

  /** The invariant every constructed result keeps: `ok` exactly when there is no error,
      exactly when there is a payload, exactly when a provider was selected. */
  predicate Consistent(r: TransformResult)
  {
    && (r.ok <==> r.error.None?)
    && (r.ok <==> r.providerPayload.Some?)
    && (r.ok <==> r.selectedProvider.Some?)
  }

  /** `TransformResult::success`. */
  function Success(selected: ProviderId, payload: Value, fallbacks: seq<ProviderId>, warnings: seq<Warning>,
                   diagnostics: Diagnostics): (r: TransformResult)
    ensures Consistent(r) && r.ok
    ensures r.selectedProvider == Some(selected) && r.providerPayload == Some(payload)
    ensures r.fallbackCandidates == fallbacks && r.warnings == warnings && r.diagnostics == diagnostics
  {
    TransformResult(true, Some(selected), Some(payload), fallbacks, warnings, diagnostics, None)
  }

  /** `TransformResult::failure`. */
  function Failure(error: OmniError, fallbacks: seq<ProviderId>, warnings: seq<Warning>, diagnostics: Diagnostics)
    : (r: TransformResult)
    ensures Consistent(r) && !r.ok
    ensures r.error == Some(error)
    ensures r.fallbackCandidates == fallbacks && r.warnings == warnings && r.diagnostics == diagnostics
  {
    TransformResult(false, None, None, fallbacks, warnings, diagnostics, Some(error))
  }
}
