/** The canonical chat request (src/canonical.rs) and `validate_envelope`, which collects
    every violation of the request's basic shape before any provider is considered. */
module Canonical {
  import opened Wrappers
  import opened Json
  import opened Text
  import opened Types

  // ---------------------------------------------------------------------------------------
  // The envelope

  datatype ProviderAvailability = ProviderAvailability(
    available: bool,
    compatible: Option<bool>,
    reason: Option<string>,
    lastSeenHealthyAt: Option<string>)

  datatype ProviderSelection = ProviderSelection(
    preferred: seq<ProviderId>,
    availability: map<ProviderId, ProviderAvailability>)

  datatype MessageRole = System | User | Assistant | Tool

  datatype ContentPart = Text(text: string) | ImageUrl(url: string)

  datatype ChatMessage = ChatMessage(
    role: MessageRole,
    content: seq<ContentPart>,
    name: Option<string>,
    toolCallId: Option<string>)

  datatype ToolDefinition = ToolDefinition(name: string, description: Option<string>, inputSchema: Value)

  /** `ToolChoiceMode::{Auto, None, Required}`. */
  datatype ToolChoiceMode = AutoMode | NoneMode | RequiredMode

  datatype ToolChoice = Mode(mode: ToolChoiceMode) | Named(name: string)

  /** `ResponseFormatType::{Text, JsonSchema}`. */
  datatype ResponseFormatType = PlainText | JsonSchema

  datatype ResponseFormat = ResponseFormat(formatType: ResponseFormatType, jsonSchema: Option<Value>)

  /** Sampling settings; the two `f32` fields are kept as exact reals and `max_tokens` as a
      natural number. */
  datatype GenerationConfig = GenerationConfig(temperature: real, topP: real, maxTokens: nat, stop: seq<string>)

  /** `GenerationConfig::default()`. */
  const DefaultGeneration: GenerationConfig := GenerationConfig(0.7, 1.0, 1024, [])

  datatype ChatRequest = ChatRequest(
    model: string,
    messages: seq<ChatMessage>,
    tools: seq<ToolDefinition>,
    toolChoice: Option<ToolChoice>,
    responseFormat: Option<ResponseFormat>,
    generation: GenerationConfig,
    stream: bool)

  datatype CanonicalEnvelope = CanonicalEnvelope(
    capability: Capability,
    provider: ProviderSelection,
    request: ChatRequest,
    metadata: Value)

  // ---------------------------------------------------------------------------------------
  // Violations

  /** One violation `validate_envelope` records; message and part indices are zero-based. */
  datatype Violation =
    | EmptyPreferred
    | BlankModel
    | NoMessages
    | EmptyContent(message: nat)
    | BlankText(message: nat, part: nat)
    | BlankUrl(message: nat, part: nat)
    | TemperatureOutOfRange
    | TopPOutOfRange
    | ZeroMaxTokens

  /** The message text recorded for a violation. */
  function Render(v: Violation): string
  {
    match v
    case EmptyPreferred => "provider.preferred must contain at least one provider"
    case BlankModel => "request.model must not be empty"
    case NoMessages => "request.messages must contain at least one message"
    case EmptyContent(i) => "request.messages[" + NatToString(i) + "].content must contain at least one part"
    case BlankText(i, j) =>
      "request.messages[" + NatToString(i) + "].content[" + NatToString(j) + "] text must not be empty"
    case BlankUrl(i, j) =>
      "request.messages[" + NatToString(i) + "].content[" + NatToString(j) + "] url must not be empty"
    case TemperatureOutOfRange => "request.generation.temperature must be between 0.0 and 2.0"
    case TopPOutOfRange => "request.generation.top_p must be between 0.0 and 1.0"
    case ZeroMaxTokens => "request.generation.max_tokens must be greater than 0"
  }

  function RenderAll(vs: seq<Violation>): (r: seq<string>)
    ensures |r| == |vs| && forall i :: 0 <= i < |vs| ==> r[i] == Render(vs[i])
  {
    seq(|vs|, i requires 0 <= i < |vs| => Render(vs[i]))
  }

  /** The violations of the selection, the model and the message list as a whole. */
  function HeaderViolations(env: CanonicalEnvelope): seq<Violation>
  {
    (if env.provider.preferred == [] then [EmptyPreferred] else []) +
    (if Trim(env.request.model) == "" then [BlankModel] else []) +
    (if env.request.messages == [] then [NoMessages] else [])
  }

  /** The violation of part `j` of message `i`, if any. */
  function PartViolation(i: nat, j: nat, part: ContentPart): seq<Violation>
  {
    match part
    case Text(text) => if Trim(text) == "" then [BlankText(i, j)] else []
    case ImageUrl(url) => if Trim(url) == "" then [BlankUrl(i, j)] else []
  }

  /** The violations of the given parts of message `i`, in part order. */
  function PartViolations(i: nat, parts: seq<ContentPart>): seq<Violation>
  {
    if parts == [] then []
    else PartViolations(i, parts[..|parts| - 1]) + PartViolation(i, |parts| - 1, parts[|parts| - 1])
  }

  /** The violations of message `i` on its own. */
  function OneMessageViolations(i: nat, message: ChatMessage): seq<Violation>
  {
    (if message.content == [] then [EmptyContent(i)] else []) + PartViolations(i, message.content)
  }

  /** The violations of the given messages, in message order. */
  function MessageViolations(messages: seq<ChatMessage>): seq<Violation>
  {
    if messages == [] then []
    else MessageViolations(messages[..|messages| - 1]) + OneMessageViolations(|messages| - 1, messages[|messages| - 1])
  }

  /** `(0.0..=2.0).contains(t)` and `(0.0..=1.0).contains(p)`. */
  function GenerationViolations(g: GenerationConfig): seq<Violation>
  {
    (if !(0.0 <= g.temperature <= 2.0) then [TemperatureOutOfRange] else []) +
    (if !(0.0 <= g.topP <= 1.0) then [TopPOutOfRange] else []) +
    (if g.maxTokens == 0 then [ZeroMaxTokens] else [])
  }

  /** Every violation of the envelope, in the order the checks run. */
  function Violations(env: CanonicalEnvelope): seq<Violation>
  {
    HeaderViolations(env) + MessageViolations(env.request.messages) + GenerationViolations(env.request.generation)
  }

  /** The error `validate_envelope` returns for a non-empty list of violations. */
  function InvalidEnvelopeError(vs: seq<Violation>): OmniError
  {
    OmniError(InvalidCanonicalRequest, "Canonical request validation failed", ViolationList(RenderAll(vs)), false)
  }

  /** What `validate_envelope` returns. */
  function EnvelopeCheck(env: CanonicalEnvelope): Outcome<OmniError>
  {
    var vs := Violations(env);
    if vs == [] then Pass else Fail(InvalidEnvelopeError(vs))
  }

  /** One more message extends a list that already holds `earlier` by that message's
      violations. */
  lemma MessageStep(earlier: seq<Violation>, messages: seq<ChatMessage>, i: nat)
    requires i < |messages|
    ensures MessageViolations(messages[..i + 1]) == MessageViolations(messages[..i]) + OneMessageViolations(i, messages[i])
    ensures earlier + MessageViolations(messages[..i + 1]) ==
      earlier + MessageViolations(messages[..i]) + OneMessageViolations(i, messages[i])
  {
    assert messages[..i + 1][..i] == messages[..i];
  }

  lemma PartStep(i: nat, parts: seq<ContentPart>, j: nat)
    requires j < |parts|
    ensures PartViolations(i, parts[..j + 1]) == PartViolations(i, parts[..j]) + PartViolation(i, j, parts[j])
  {
    assert parts[..j + 1][..j] == parts[..j];
  }

  /** The inner loop of `validate_envelope`: push a violation for each blank part of message
      `i`, in part order. */
  method PushPartViolations(violations: seq<Violation>, i: nat, parts: seq<ContentPart>) returns (out: seq<Violation>)
    ensures out == violations + PartViolations(i, parts)
  {
    out := violations;
    for j := 0 to |parts|
      invariant out == violations + PartViolations(i, parts[..j])
    {
      var part := parts[j];
      PartStep(i, parts, j);
      ghost var before := out;
      match part {
        case Text(text) =>
          if Trim(text) == "" {
            out := out + [BlankText(i, j)];
          }
        case ImageUrl(url) =>
          if Trim(url) == "" {
            out := out + [BlankUrl(i, j)];
          }
      }
      assert out == before + PartViolation(i, j, part);
    }
    assert parts[..|parts|] == parts;
  }

  /** The message loop of `validate_envelope`: for each message in order, push an
      empty-content violation if it has no parts, then the violations of its parts. */
  method PushMessageViolations(violations: seq<Violation>, messages: seq<ChatMessage>) returns (out: seq<Violation>)
    ensures out == violations + MessageViolations(messages)
  {
    out := violations;
    for i := 0 to |messages|
      invariant out == violations + MessageViolations(messages[..i])
    {
      var message := messages[i];
      MessageStep(violations, messages, i);
      if message.content == [] {
        out := out + [EmptyContent(i)];
      }
      out := PushPartViolations(out, i, message.content);
    }
    assert messages[..|messages|] == messages;
  }

  /** `validate_envelope`: push a message for each failed check, in check order, and succeed
      exactly when nothing was pushed. */
  method ValidateEnvelope(env: CanonicalEnvelope) returns (r: Outcome<OmniError>)
    ensures r == EnvelopeCheck(env)
  {
    var violations: seq<Violation> := [];
    if env.provider.preferred == [] {
      violations := violations + [EmptyPreferred];
    }
    if Trim(env.request.model) == "" {
      violations := violations + [BlankModel];
    }
    if env.request.messages == [] {
      violations := violations + [NoMessages];
    }
    assert violations == HeaderViolations(env);
    violations := PushMessageViolations(violations, env.request.messages);
    ghost var body := violations;
    var g := env.request.generation;
    if !(0.0 <= g.temperature <= 2.0) {
      violations := violations + [TemperatureOutOfRange];
    }
    if !(0.0 <= g.topP <= 1.0) {
      violations := violations + [TopPOutOfRange];
    }
    if g.maxTokens == 0 {
      violations := violations + [ZeroMaxTokens];
    }
    assert violations == body + GenerationViolations(g);
    assert violations == Violations(env);
    if violations == [] {
      return Pass;
    }
    return Fail(OmniError(InvalidCanonicalRequest, "Canonical request validation failed",
      ViolationList(RenderAll(violations)), false));
  }

  // ---------------------------------------------------------------------------------------
  // Properties of the violations

  /** A part violation of message `i` is a blank-text or blank-url violation of one of the
      given parts. */
  lemma {:induction false} PartViolationsKinds(i: nat, parts: seq<ContentPart>)
    ensures forall v :: v in PartViolations(i, parts) ==>
      (v.BlankText? || v.BlankUrl?) && v.message == i && v.part < |parts|
  {
    if parts != [] {
      PartViolationsKinds(i, parts[..|parts| - 1]);
    }
  }

  /** Part `j` of message `i` has a violation exactly when it is blank after trimming: a
      blank-text violation for a text part, a blank-url violation for an image part. */
  lemma {:induction false} PartViolationsIff(i: nat, parts: seq<ContentPart>)
    ensures forall j: nat :: BlankText(i, j) in PartViolations(i, parts) <==>
      j < |parts| && parts[j].Text? && Blank(parts[j].text)
    ensures forall j: nat :: BlankUrl(i, j) in PartViolations(i, parts) <==>
      j < |parts| && parts[j].ImageUrl? && Blank(parts[j].url)
  {
    if parts != [] {
      var n := |parts| - 1;
      var earlier := PartViolations(i, parts[..n]);
      var last := PartViolation(i, n, parts[n]);
      assert PartViolations(i, parts) == earlier + last;
      PartViolationsIff(i, parts[..n]);
      PartViolationsKinds(i, parts[..n]);
      match parts[n] {
        case Text(t) => TrimEmptyIffBlank(t);
        case ImageUrl(u) => TrimEmptyIffBlank(u);
      }
      assert forall j: nat :: BlankText(i, j) in last <==> j == n && parts[n].Text? && Blank(parts[n].text);
      assert forall j: nat :: BlankUrl(i, j) in last <==> j == n && parts[n].ImageUrl? && Blank(parts[n].url);
    }
  }

  /** Every message violation is an empty-content, blank-text or blank-url violation of one
      of the given messages. */
  lemma {:induction false} MessageViolationsKinds(messages: seq<ChatMessage>)
    ensures forall v :: v in MessageViolations(messages) ==>
      (v.EmptyContent? || v.BlankText? || v.BlankUrl?) && v.message < |messages|
  {
    if messages != [] {
      var n := |messages| - 1;
      MessageViolationsKinds(messages[..n]);
      PartViolationsKinds(n, messages[n].content);
    }
  }

  /** A header or generation violation is in the envelope's list exactly when its own check
      section records it: the message checks never produce one. */
  lemma OutsideMessages(env: CanonicalEnvelope, v: Violation)
    requires !(v.EmptyContent? || v.BlankText? || v.BlankUrl?)
    ensures v in Violations(env) <==>
      v in HeaderViolations(env) || v in GenerationViolations(env.request.generation)
  {
    MessageViolationsKinds(env.request.messages);
  }

  /** Message `i` has an empty-content violation exactly when it has no parts. */
  lemma {:induction false} EmptyContentIff(messages: seq<ChatMessage>)
    ensures forall i: nat :: EmptyContent(i) in MessageViolations(messages) <==>
      i < |messages| && messages[i].content == []
  {
    if messages != [] {
      var n := |messages| - 1;
      EmptyContentIff(messages[..n]);
      MessageViolationsKinds(messages[..n]);
      PartViolationsKinds(n, messages[n].content);
    }
  }

  /** Part `j` of message `i` has a blank-text violation exactly when it is a text part that
      is blank after trimming. */
  lemma {:induction false} BlankTextIff(messages: seq<ChatMessage>)
    ensures forall i: nat, j: nat :: BlankText(i, j) in MessageViolations(messages) <==>
      i < |messages| && j < |messages[i].content| && messages[i].content[j].Text? && Blank(messages[i].content[j].text)
  {
    if messages != [] {
      var n := |messages| - 1;
      BlankTextIff(messages[..n]);
      MessageViolationsKinds(messages[..n]);
      PartViolationsKinds(n, messages[n].content);
      PartViolationsIff(n, messages[n].content);
    }
  }

  /** Part `j` of message `i` has a blank-url violation exactly when it is an image part
      whose url is blank after trimming. */
  lemma {:induction false} BlankUrlIff(messages: seq<ChatMessage>)
    ensures forall i: nat, j: nat :: BlankUrl(i, j) in MessageViolations(messages) <==>
      i < |messages| && j < |messages[i].content| && messages[i].content[j].ImageUrl? && Blank(messages[i].content[j].url)
  {
    if messages != [] {
      var n := |messages| - 1;
      BlankUrlIff(messages[..n]);
      MessageViolationsKinds(messages[..n]);
      PartViolationsKinds(n, messages[n].content);
      PartViolationsIff(n, messages[n].content);
    }
  }

  /** The header section records each of its violations exactly when its check fails, and
      never a generation violation. */
  lemma HeaderMembers(env: CanonicalEnvelope)
    ensures EmptyPreferred in HeaderViolations(env) <==> env.provider.preferred == []
    ensures BlankModel in HeaderViolations(env) <==> Trim(env.request.model) == ""
    ensures NoMessages in HeaderViolations(env) <==> env.request.messages == []
    ensures TemperatureOutOfRange !in HeaderViolations(env) && TopPOutOfRange !in HeaderViolations(env)
    ensures ZeroMaxTokens !in HeaderViolations(env)
  {
    var a := if env.provider.preferred == [] then [EmptyPreferred] else [];
    var b := if Trim(env.request.model) == "" then [BlankModel] else [];
    var c := if env.request.messages == [] then [NoMessages] else [];
    assert HeaderViolations(env) == a + b + c;
  }

  /** The generation section records each of its violations exactly when its check fails,
      and never a header violation. */
  lemma GenerationMembers(g: GenerationConfig)
    ensures TemperatureOutOfRange in GenerationViolations(g) <==> !(0.0 <= g.temperature <= 2.0)
    ensures TopPOutOfRange in GenerationViolations(g) <==> !(0.0 <= g.topP <= 1.0)
    ensures ZeroMaxTokens in GenerationViolations(g) <==> g.maxTokens == 0
    ensures EmptyPreferred !in GenerationViolations(g) && BlankModel !in GenerationViolations(g)
    ensures NoMessages !in GenerationViolations(g)
  {
    var a := if !(0.0 <= g.temperature <= 2.0) then [TemperatureOutOfRange] else [];
    var b := if !(0.0 <= g.topP <= 1.0) then [TopPOutOfRange] else [];
    var c := if g.maxTokens == 0 then [ZeroMaxTokens] else [];
    assert GenerationViolations(g) == a + b + c;
  }

  /** A message violation is in the envelope's list exactly when the message checks record
      it: the header and generation checks never produce one. */
  lemma InsideMessages(env: CanonicalEnvelope, v: Violation)
    requires v.EmptyContent? || v.BlankText? || v.BlankUrl?
    ensures v in Violations(env) <==> v in MessageViolations(env.request.messages)
  {
    HeaderInOrder(env);
    GenerationInOrder(env.request.generation);
  }

  /** The three header checks each record their violation exactly when they fail. */
  lemma HeaderChecksIff(env: CanonicalEnvelope)
    ensures EmptyPreferred in Violations(env) <==> env.provider.preferred == []
    ensures BlankModel in Violations(env) <==> Blank(env.request.model)
    ensures NoMessages in Violations(env) <==> env.request.messages == []
  {
    OutsideMessages(env, EmptyPreferred);
    OutsideMessages(env, BlankModel);
    OutsideMessages(env, NoMessages);
    HeaderMembers(env);
    GenerationMembers(env.request.generation);
    TrimEmptyIffBlank(env.request.model);
  }

  /** The three generation checks each record their violation exactly when they fail. */
  lemma GenerationChecksIff(env: CanonicalEnvelope)
    ensures TemperatureOutOfRange in Violations(env) <==> !(0.0 <= env.request.generation.temperature <= 2.0)
    ensures TopPOutOfRange in Violations(env) <==> !(0.0 <= env.request.generation.topP <= 1.0)
    ensures ZeroMaxTokens in Violations(env) <==> env.request.generation.maxTokens == 0
  {
    OutsideMessages(env, TemperatureOutOfRange);
    OutsideMessages(env, TopPOutOfRange);
    OutsideMessages(env, ZeroMaxTokens);
    HeaderMembers(env);
    GenerationMembers(env.request.generation);
  }

  /** Each per-message check records its violation exactly when it fails. */
  lemma MessageChecksIff(env: CanonicalEnvelope)
    ensures var vs := Violations(env);
      var msgs := env.request.messages;
      && (forall i: nat :: EmptyContent(i) in vs <==> i < |msgs| && msgs[i].content == [])
      && (forall i: nat, j: nat :: BlankText(i, j) in vs <==>
            i < |msgs| && j < |msgs[i].content| && msgs[i].content[j].Text? && Blank(msgs[i].content[j].text))
      && (forall i: nat, j: nat :: BlankUrl(i, j) in vs <==>
            i < |msgs| && j < |msgs[i].content| && msgs[i].content[j].ImageUrl? && Blank(msgs[i].content[j].url))
  {
    var vs := Violations(env);
    var msgs := env.request.messages;
    assert forall i: nat :: EmptyContent(i) in vs <==> i < |msgs| && msgs[i].content == [] by {
      EmptyContentIff(msgs);
      forall i: nat ensures EmptyContent(i) in vs <==> EmptyContent(i) in MessageViolations(msgs) {
        InsideMessages(env, EmptyContent(i));
      }
    }
    assert forall i: nat, j: nat :: BlankText(i, j) in vs <==>
        i < |msgs| && j < |msgs[i].content| && msgs[i].content[j].Text? && Blank(msgs[i].content[j].text) by {
      BlankTextIff(msgs);
      forall i: nat, j: nat ensures BlankText(i, j) in vs <==> BlankText(i, j) in MessageViolations(msgs) {
        InsideMessages(env, BlankText(i, j));
      }
    }
    assert forall i: nat, j: nat :: BlankUrl(i, j) in vs <==>
        i < |msgs| && j < |msgs[i].content| && msgs[i].content[j].ImageUrl? && Blank(msgs[i].content[j].url) by {
      BlankUrlIff(msgs);
      forall i: nat, j: nat ensures BlankUrl(i, j) in vs <==> BlankUrl(i, j) in MessageViolations(msgs) {
        InsideMessages(env, BlankUrl(i, j));
      }
    }
  }

  /** The position of a check in the order `validate_envelope` runs them: the three header
      checks, then message by message (its empty-content check, then its parts in order),
      then the three generation checks. */
  function Rank(v: Violation): (int, int, int)
  {
    match v
    case EmptyPreferred => (0, 0, 0)
    case BlankModel => (1, 0, 0)
    case NoMessages => (2, 0, 0)
    case EmptyContent(i) => (3, i, 0)
    case BlankText(i, j) => (3, i, j + 1)
    case BlankUrl(i, j) => (3, i, j + 1)
    case TemperatureOutOfRange => (4, 0, 0)
    case TopPOutOfRange => (5, 0, 0)
    case ZeroMaxTokens => (6, 0, 0)
  }

  predicate RankLt(a: (int, int, int), b: (int, int, int))
  {
    a.0 < b.0 || (a.0 == b.0 && (a.1 < b.1 || (a.1 == b.1 && a.2 < b.2)))
  }

  /** The violations appear in strictly increasing check order. */
  predicate InCheckOrder(vs: seq<Violation>)
  {
    forall i, j :: 0 <= i < j < |vs| ==> RankLt(Rank(vs[i]), Rank(vs[j]))
  }

  lemma ConcatInOrder(a: seq<Violation>, b: seq<Violation>)
    requires InCheckOrder(a) && InCheckOrder(b)
    requires forall x, y :: x in a && y in b ==> RankLt(Rank(x), Rank(y))
    ensures InCheckOrder(a + b)
  {
    forall i, j | 0 <= i < j < |a + b| ensures RankLt(Rank((a + b)[i]), Rank((a + b)[j])) {
      if i < |a| && j >= |a| {
        assert (a + b)[i] in a && (a + b)[j] in b;
      }
    }
  }

  lemma {:induction false} PartViolationsInOrder(i: nat, parts: seq<ContentPart>)
    ensures InCheckOrder(PartViolations(i, parts))
  {
    if parts != [] {
      var n := |parts| - 1;
      PartViolationsInOrder(i, parts[..n]);
      PartViolationsKinds(i, parts[..n]);
      ConcatInOrder(PartViolations(i, parts[..n]), PartViolation(i, n, parts[n]));
    }
  }

  lemma {:induction false} MessageViolationsInOrder(messages: seq<ChatMessage>)
    ensures InCheckOrder(MessageViolations(messages))
  {
    if messages != [] {
      var n := |messages| - 1;
      var m := messages[n];
      MessageViolationsInOrder(messages[..n]);
      MessageViolationsKinds(messages[..n]);
      PartViolationsInOrder(n, m.content);
      PartViolationsKinds(n, m.content);
      var head := if m.content == [] then [EmptyContent(n)] else [];
      ConcatInOrder(head, PartViolations(n, m.content));
      ConcatInOrder(MessageViolations(messages[..n]), OneMessageViolations(n, m));
    }
  }

  lemma HeaderInOrder(env: CanonicalEnvelope)
    ensures InCheckOrder(HeaderViolations(env))
    ensures forall v :: v in HeaderViolations(env) ==> Rank(v).0 <= 2
  {
  }

  lemma GenerationInOrder(g: GenerationConfig)
    ensures InCheckOrder(GenerationViolations(g))
    ensures forall v :: v in GenerationViolations(g) ==> Rank(v).0 >= 4
  {
  }

  /** The header violations followed by the message violations are in check order, and all
      come before the generation checks. */
  lemma HeaderThenMessagesInOrder(env: CanonicalEnvelope)
    ensures var early := HeaderViolations(env) + MessageViolations(env.request.messages);
      InCheckOrder(early) && forall v :: v in early ==> Rank(v).0 <= 3
  {
    var h := HeaderViolations(env);
    var ms := MessageViolations(env.request.messages);
    HeaderInOrder(env);
    MessageViolationsInOrder(env.request.messages);
    MessageViolationsKinds(env.request.messages);
    assert forall v :: v in ms ==> Rank(v).0 == 3;
    ConcatInOrder(h, ms);
  }

  /** The violations are listed in the order the checks run, each at most once. */
  lemma ViolationsInCheckOrder(env: CanonicalEnvelope)
    ensures InCheckOrder(Violations(env))
  {
    var early := HeaderViolations(env) + MessageViolations(env.request.messages);
    HeaderThenMessagesInOrder(env);
    GenerationInOrder(env.request.generation);
    ConcatInOrder(early, GenerationViolations(env.request.generation));
  }
}
