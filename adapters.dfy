/** Provider adapters (src/adapters.rs): what each provider supports, how a canonical chat
    request becomes each provider's JSON payload, and the registry the engine looks
    adapters up in. The three unit structs implementing the adapter trait become the three
    constructors of `Adapter`. */
module Adapters {
  import opened Wrappers
  import opened Json
  import opened Text
  import opened Types
  import opened Canonical

  datatype AdapterKey = AdapterKey(providerId: ProviderId, capability: Capability, adapterVersion: AdapterVersion)

  datatype SupportReport = SupportReport(supported: bool, reason: Option<ProviderReason>)

  /** `SupportReport::supported()`. */
  const Supported: SupportReport := SupportReport(true, None)

  /** `SupportReport::unsupported(reason)`. */
  function Unsupported(reason: ProviderReason): (r: SupportReport)
    ensures !r.supported && r.reason == Some(reason)
  {
    SupportReport(false, Some(reason))
  }

  datatype Adapter = OpenAiChatAdapter | GeminiChatAdapter | OllamaChatAdapter

  function ProviderIdOf(a: Adapter): ProviderId
  {
    match a
    case OpenAiChatAdapter => OpenAi
    case GeminiChatAdapter => Gemini
    case OllamaChatAdapter => Ollama
  }

  /** Every adapter serves chat at the default version. */
  function KeyOf(a: Adapter): AdapterKey
  {
    AdapterKey(ProviderIdOf(a), Chat, DefaultAdapterVersion)
  }

  // ---------------------------------------------------------------------------------------
  // Support

  /** The request asks for a JSON-schema response format. */
  predicate WantsJsonSchema(req: ChatRequest)
  {
    req.responseFormat.Some? && req.responseFormat.value.formatType == JsonSchema
  }

  /** Some part of some message is an image. */
  predicate HasImage(req: ChatRequest)
  {
    exists i, j :: 0 <= i < |req.messages| && 0 <= j < |req.messages[i].content| &&
      req.messages[i].content[j].ImageUrl?
  }

  function FeatureReason(code: ReasonCode, feature: string): ProviderReason
  {
    ProviderReason(Incompatible, code, false, UnsupportedFeature(feature))
  }

  /** `supports`: OpenAI takes everything; Gemini refuses a JSON-schema response format;
      Ollama refuses tools, then a JSON-schema response format, then image content,
      reporting the first refusal. */
  function Supports(a: Adapter, req: ChatRequest): SupportReport
  {
    match a
    case OpenAiChatAdapter => Supported
    case GeminiChatAdapter =>
      if WantsJsonSchema(req) then Unsupported(FeatureReason(UnsupportedResponseFormat, "response_format.json_schema"))
      else Supported
    case OllamaChatAdapter =>
      if |req.tools| > 0 then Unsupported(FeatureReason(UnsupportedToolCalling, "tools"))
      else if WantsJsonSchema(req) then Unsupported(FeatureReason(UnsupportedResponseFormat, "response_format.json_schema"))
      else if HasImage(req) then Unsupported(FeatureReason(UnsupportedMultimodalContent, "image_url"))
      else Supported
  }

  /** The support report of every adapter: a refusal always carries a reason, and that
      reason is an incompatibility that is not retryable. OpenAI refuses nothing; Gemini
      refuses exactly a JSON-schema response format; Ollama refuses exactly tools, a
      JSON-schema format or an image, naming the first of these in that order. */
  lemma SupportsCharacterized(a: Adapter, req: ChatRequest)
    ensures var s := Supports(a, req);
      && (s.supported <==> s.reason.None?)
      && (!s.supported ==> s.reason.value.reasonClass == Incompatible && !s.reason.value.retryable)
      && (a == OpenAiChatAdapter ==> s.supported)
      && (a == GeminiChatAdapter ==>
            (s.supported <==> !WantsJsonSchema(req)) &&
            (!s.supported ==> s.reason.value.code == UnsupportedResponseFormat))
      && (a == OllamaChatAdapter ==>
            && (s.supported <==> |req.tools| == 0 && !WantsJsonSchema(req) && !HasImage(req))
            && (|req.tools| > 0 ==> s.reason == Some(FeatureReason(UnsupportedToolCalling, "tools")))
            && (|req.tools| == 0 && WantsJsonSchema(req) ==>
                  s.reason == Some(FeatureReason(UnsupportedResponseFormat, "response_format.json_schema")))
            && (|req.tools| == 0 && !WantsJsonSchema(req) && HasImage(req) ==>
                  s.reason == Some(FeatureReason(UnsupportedMultimodalContent, "image_url"))))
  {
  }

  // ---------------------------------------------------------------------------------------
  // Message mapping

  /** `map_role`. */
  function RoleName(role: MessageRole): string
  {
    match role
    case System => "system"
    case User => "user"
    case Assistant => "assistant"
    case Tool => "tool"
  }

  /** Distinct roles get distinct names. */
  lemma RoleNameInjective(r1: MessageRole, r2: MessageRole)
    ensures RoleName(r1) == RoleName(r2) <==> r1 == r2
  {
    if r1 != r2 {
      assert RoleName(r1)[0] != RoleName(r2)[0] || |RoleName(r1)| != |RoleName(r2)|;
    }
  }

  /** The role a message takes in a Gemini `contents` entry. */
  function GeminiRole(role: MessageRole): string
  {
    if role == Assistant then "model" else "user"
  }

  /** Only an assistant message becomes a "model" turn; everything else is a "user" turn. */
  lemma GeminiRoleIff(role: MessageRole)
    ensures GeminiRole(role) == "model" <==> role == Assistant
    ensures GeminiRole(role) == "model" || GeminiRole(role) == "user"
  {
  }

  function OpenAiPart(part: ContentPart): Value
  {
    match part
    case Text(text) => Object(map["type" := Str("text"), "text" := Str(text)])
    case ImageUrl(url) => Object(map["type" := Str("image_url"), "image_url" := Object(map["url" := Str(url)])])
  }

  /** `map_openai_message`. */
  function MapOpenAiMessage(m: ChatMessage): Value
  {
    Object(map["role" := Str(RoleName(m.role)),
               "content" := Array(seq(|m.content|, j requires 0 <= j < |m.content| => OpenAiPart(m.content[j])))])
  }

  function GeminiPart(part: ContentPart): Value
  {
    match part
    case Text(text) => Object(map["text" := Str(text)])
    case ImageUrl(url) => Object(map["file_data" := Object(map["mime_type" := Str("image/*"), "file_uri" := Str(url)])])
  }

  /** `map_gemini_content`. */
  function MapGeminiContent(m: ChatMessage): Value
  {
    Object(map["role" := Str(GeminiRole(m.role)),
               "parts" := Array(seq(|m.content|, j requires 0 <= j < |m.content| => GeminiPart(m.content[j])))])
  }

  /** The texts of the text parts, in order. */
  function Texts(parts: seq<ContentPart>): seq<string>
  {
    if parts == [] then []
    else Texts(parts[..|parts| - 1]) + (if parts[|parts| - 1].Text? then [parts[|parts| - 1].text] else [])
  }

  predicate HasImagePart(parts: seq<ContentPart>)
  {
    exists j :: 0 <= j < |parts| && parts[j].ImageUrl?
  }

  /** The error a text-only flattening raises on image content. */
  const FlattenError: OmniError :=
    OmniError(ProviderPayloadBuildFailed, "Ollama text-only payload build failed",
      FlattenFailure("image content is not supported for text flattening"), true)

  /** What `flatten_text_content` returns. */
  function Flattened(parts: seq<ContentPart>): Result<string, OmniError>
  {
    if HasImagePart(parts) then Err(FlattenError) else Ok(Join(Texts(parts), '\n'))
  }

  lemma TextsStep(parts: seq<ContentPart>, j: nat)
    requires j < |parts|
    ensures Texts(parts[..j + 1]) == Texts(parts[..j]) + (if parts[j].Text? then [parts[j].text] else [])
  {
    assert parts[..j + 1][..j] == parts[..j];
  }

  /** `flatten_text_content`: collect the texts, giving up at the first image part, then
      join them with line feeds. */
  method FlattenTextContent(parts: seq<ContentPart>) returns (r: Result<string, OmniError>)
    ensures r == Flattened(parts)
  {
    var texts: seq<string> := [];
    for j := 0 to |parts|
      invariant texts == Texts(parts[..j])
      invariant forall k :: 0 <= k < j ==> parts[k].Text?
    {
      TextsStep(parts, j);
      match parts[j] {
        case Text(text) =>
          texts := texts + [text];
        case ImageUrl(_) =>
          return Err(FlattenError);
      }
    }
    assert parts[..|parts|] == parts;
    return Ok(Join(texts, '\n'));
  }

  /** Without images every part is text, so flattening keeps every text in order: splitting
      the result on line feeds gives the texts back when none of them holds a line feed. */
  lemma {:induction false} TextsOfTextOnly(parts: seq<ContentPart>)
    requires !HasImagePart(parts)
    ensures |Texts(parts)| == |parts|
    ensures forall j :: 0 <= j < |parts| ==> Texts(parts)[j] == parts[j].text
  {
    if parts != [] {
      var n := |parts| - 1;
      assert !HasImagePart(parts[..n]) by {
        forall j | 0 <= j < n ensures !parts[..n][j].ImageUrl? {
          assert parts[..n][j] == parts[j];
        }
      }
      TextsOfTextOnly(parts[..n]);
      assert parts[n].Text?;
    }
  }

  /** Flattening fails exactly on image content, with a retryable build failure; otherwise
      the pieces of the result, split on line feeds, are the texts of the parts in order,
      provided there is at least one part and no text holds a line feed. */
  lemma FlattenedRoundTrip(parts: seq<ContentPart>)
    ensures Flattened(parts).Err? <==> HasImagePart(parts)
    ensures Flattened(parts).Err? ==>
      Flattened(parts).error.code == ProviderPayloadBuildFailed && Flattened(parts).error.retryable
    ensures (Flattened(parts).Ok? && parts != [] &&
             forall j :: 0 <= j < |parts| ==> '\n' !in parts[j].text) ==>
      var pieces := Split(Flattened(parts).value, '\n');
      |pieces| == |parts| && forall j :: 0 <= j < |parts| ==> pieces[j] == parts[j].text
  {
    if !HasImagePart(parts) && parts != [] && (forall j :: 0 <= j < |parts| ==> '\n' !in parts[j].text) {
      TextsOfTextOnly(parts);
      SplitJoin(Texts(parts), '\n');
    }
  }

  /** `map_ollama_message`. */
  function MapOllamaMessage(m: ChatMessage): Result<Value, OmniError>
  {
    match Flattened(m.content)
    case Err(e) => Err(e)
    case Ok(content) => Ok(Object(map["role" := Str(RoleName(m.role)), "content" := Str(content)]))
  }

  /** Collecting the mapped messages: the first failure wins. */
  function MapOllamaMessages(ms: seq<ChatMessage>): Result<seq<Value>, OmniError>
  {
    if ms == [] then Ok([])
    else
      match MapOllamaMessage(ms[0])
      case Err(e) => Err(e)
      case Ok(v) =>
        match MapOllamaMessages(ms[1..])
        case Err(e) => Err(e)
        case Ok(vs) => Ok([v] + vs)
  }

  /** The Ollama messages are built exactly when no message holds an image; they then map
      the request's messages one to one and in order. */
  lemma {:induction false} OllamaMessagesShape(ms: seq<ChatMessage>)
    ensures MapOllamaMessages(ms).Ok? <==> forall i :: 0 <= i < |ms| ==> !HasImagePart(ms[i].content)
    ensures MapOllamaMessages(ms).Ok? ==>
      |MapOllamaMessages(ms).value| == |ms| &&
      forall i :: 0 <= i < |ms| ==> MapOllamaMessages(ms).value[i] == MapOllamaMessage(ms[i]).value
    ensures MapOllamaMessages(ms).Err? ==> MapOllamaMessages(ms).error == FlattenError
  {
    if ms != [] {
      OllamaMessagesShape(ms[1..]);
      assert forall i :: 1 <= i < |ms| ==> ms[i] == ms[1..][i - 1];
    }
  }

  // ---------------------------------------------------------------------------------------
  // Payloads

  function Num(n: nat): Value
  {
    Number(n as real)
  }

  function OptionalValue(v: Option<Value>): Value
  {
    match v
    case None => Null
    case Some(x) => x
  }

  function OpenAiPayload(req: ChatRequest): Value
  {
    var g := req.generation;
    var base := map[
      "model" := Str(req.model),
      "messages" := Array(seq(|req.messages|, i requires 0 <= i < |req.messages| => MapOpenAiMessage(req.messages[i]))),
      "temperature" := Number(g.temperature),
      "top_p" := Number(g.topP),
      "max_tokens" := Num(g.maxTokens),
      "stream" := Bool(req.stream)];
    if WantsJsonSchema(req) then
      Object(base["response_format" := Object(map["type" := Str("json_schema"),
        "json_schema" := OptionalValue(req.responseFormat.value.jsonSchema)])])
    else Object(base)
  }

  function GeminiPayload(req: ChatRequest): Value
  {
    var g := req.generation;
    Object(map[
      "model" := Str(req.model),
      "contents" := Array(seq(|req.messages|, i requires 0 <= i < |req.messages| => MapGeminiContent(req.messages[i]))),
      "generationConfig" := Object(map[
        "temperature" := Number(g.temperature),
        "topP" := Number(g.topP),
        "maxOutputTokens" := Num(g.maxTokens)])])
  }

  function OllamaPayload(req: ChatRequest): Result<Value, OmniError>
  {
    var g := req.generation;
    match MapOllamaMessages(req.messages)
    case Err(e) => Err(e)
    case Ok(messages) =>
      var base := map[
        "model" := Str(req.model),
        "messages" := Array(messages),
        "stream" := Bool(req.stream),
        "options" := Object(map[
          "temperature" := Number(g.temperature),
          "top_p" := Number(g.topP),
          "num_predict" := Num(g.maxTokens)])];
      if req.toolChoice.Some? && req.toolChoice.value.Named? then
        Ok(Object(base["tool_choice" := Str(req.toolChoice.value.name)]))
      else Ok(Object(base))
  }

  /** `build_payload`. */
  function BuildPayload(a: Adapter, req: ChatRequest): Result<Value, OmniError>
  {
    match a
    case OpenAiChatAdapter => Ok(OpenAiPayload(req))
    case GeminiChatAdapter => Ok(GeminiPayload(req))
    case OllamaChatAdapter => OllamaPayload(req)
  }

  /** OpenAI's `messages` has one entry per request message, in order, each with that
      message's role and one content entry per part. */
  lemma OpenAiMessagesFollowRequest(req: ChatRequest)
    ensures var p := OpenAiPayload(req).fields["messages"].items;
      && |p| == |req.messages|
      && forall i :: 0 <= i < |p| ==>
           && p[i].fields["role"] == Str(RoleName(req.messages[i].role))
           && |p[i].fields["content"].items| == |req.messages[i].content|
  {
  }

  /** Gemini's `contents` has one entry per request message, in order, each with that
      message's Gemini role and one part per content part. */
  lemma GeminiContentsFollowRequest(req: ChatRequest)
    ensures var p := GeminiPayload(req).fields["contents"].items;
      && |p| == |req.messages|
      && forall i :: 0 <= i < |p| ==>
           && p[i].fields["role"] == Str(GeminiRole(req.messages[i].role))
           && |p[i].fields["parts"].items| == |req.messages[i].content|
  {
  }

  /** Ollama's payload fails exactly when some message holds an image; otherwise its
      `messages` has one entry per request message, in order, each with that message's
      role. */
  lemma OllamaMessagesFollowRequest(req: ChatRequest)
    ensures OllamaPayload(req).Err? <==> exists i :: 0 <= i < |req.messages| && HasImagePart(req.messages[i].content)
    ensures OllamaPayload(req).Ok? ==>
      var p := OllamaPayload(req).value.fields["messages"].items;
      && |p| == |req.messages|
      && forall i :: 0 <= i < |p| ==>
           p[i].Object? && "role" in p[i].fields && p[i].fields["role"] == Str(RoleName(req.messages[i].role))
  {
    OllamaMessagesShape(req.messages);
  }

  /** OpenAI's payload has a `response_format` entry exactly for a JSON-schema format;
      Ollama's has a `tool_choice` entry exactly for a named tool choice. */
  lemma OptionalPayloadEntries(req: ChatRequest)
    ensures "response_format" in OpenAiPayload(req).fields <==> WantsJsonSchema(req)
    ensures "response_format" !in GeminiPayload(req).fields
    ensures OllamaPayload(req).Ok? ==>
      ("tool_choice" in OllamaPayload(req).value.fields <==> req.toolChoice.Some? && req.toolChoice.value.Named?)
  {
  }

  /** An adapter that supports a request can always build its payload: Ollama's only build
      failure, image content, is one its support check already refuses. */
  lemma SupportedBuilds(a: Adapter, req: ChatRequest)
    requires Supports(a, req).supported
    ensures BuildPayload(a, req).Ok?
  {
    if a == OllamaChatAdapter {
      OllamaMessagesShape(req.messages);
    }
  }

  // ---------------------------------------------------------------------------------------
  // Registry

  /** `AdapterRegistry`: adapters keyed by (provider, capability, version). */
  class AdapterRegistry {
    var entries: map<AdapterKey, Adapter>

    /** Every adapter is filed under its own key. */
    ghost predicate Valid()
      reads this
    {
      forall k :: k in entries ==> KeyOf(entries[k]) == k
    }

    /** `AdapterRegistry::default()`. */
    constructor ()
      ensures entries == map[] && Valid()
    {
      entries := map[];
    }

    /** `register`: file the adapter under its key, replacing any adapter already there. */
    method Register(adapter: Adapter)
      requires Valid()
      modifies this
      ensures entries == old(entries)[KeyOf(adapter) := adapter]
      ensures Valid()
      ensures Get(KeyOf(adapter)) == Some(adapter)
      ensures forall k :: k != KeyOf(adapter) ==> Get(k) == old(Get(k))
    {
      entries := entries[KeyOf(adapter) := adapter];
    }

    /** `get`: the adapter filed under `key`, which serves exactly that key. */
    function Get(key: AdapterKey): (r: Option<Adapter>)
      reads this
      requires Valid()
      ensures r.Some? <==> key in entries
      ensures r.Some? ==> KeyOf(r.value) == key
    {
      if key in entries then Some(entries[key]) else None
    }
  }

  // ---------------------------------------------------------------------------------------
  // The unit tests of src/adapters.rs as lemmas

  const SampleRequest: ChatRequest :=
    ChatRequest("model-x", [ChatMessage(User, [Text("hello")], None, None)], [], None, None, DefaultGeneration, false)

  /** OpenAI builds a payload with the request's model and an array of messages. */
  lemma OpenAiBuildsSample()
    ensures BuildPayload(OpenAiChatAdapter, SampleRequest).Ok?
    ensures BuildPayload(OpenAiChatAdapter, SampleRequest).value.fields["model"] == Str("model-x")
    ensures BuildPayload(OpenAiChatAdapter, SampleRequest).value.fields["messages"].Array?
  {
  }

  /** Gemini refuses a JSON-schema response format as an incompatibility. */
  lemma GeminiRejectsJsonSchema()
    ensures var req := SampleRequest.(responseFormat := Some(ResponseFormat(JsonSchema, Some(Object(map["type" := Str("object")])))));
      var s := Supports(GeminiChatAdapter, req);
      !s.supported && s.reason.value.reasonClass == Incompatible && s.reason.value.code == UnsupportedResponseFormat
  {
  }

  /** Ollama refuses image content. */
  lemma OllamaRejectsImage()
    ensures var req := SampleRequest.(messages := [ChatMessage(User, [ImageUrl("https://example.com/image.png")], None, None)]);
      var s := Supports(OllamaChatAdapter, req);
      !s.supported && s.reason.value.code == UnsupportedMultimodalContent
  {
    var req := SampleRequest.(messages := [ChatMessage(User, [ImageUrl("https://example.com/image.png")], None, None)]);
    assert req.messages[0].content[0].ImageUrl?;
  }
}
