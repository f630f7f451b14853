/** The Ollama request shaper (python/omni_api/adapters/ollama.py): keep the model, the chat
    messages or else the prompt, and a fixed set of pass-through options; drop everything
    else. */
module OllamaPayload {
  import opened Json

  /** `PASSTHROUGH_KEYS`, in the order the loop visits them. */
  const PassthroughKeys: seq<string> := ["stream", "format", "options"]

  /** Every key the shaped payload may hold. */
  const OutputKeys: set<string> := {"model", "messages", "prompt", "stream", "format", "options"}

  /** `source_payload.get("model")`: `None` when absent. */
  function ModelOf(source: map<string, Value>): Value
  {
    if "model" in source then source["model"] else Null
  }

  /** The pass-through keys the source has. */
  function PresentPassthrough(source: map<string, Value>): set<string>
  {
    set k | k in PassthroughKeys && k in source
  }

  /** The pass-through loop: copy each of `PASSTHROUGH_KEYS` the source has into `payload`. */
  method AddPassthrough(source: map<string, Value>, base: map<string, Value>) returns (payload: map<string, Value>)
    requires forall k :: k in base ==> k !in PassthroughKeys
    ensures payload.Keys == base.Keys + PresentPassthrough(source)
    ensures forall k :: k in base ==> payload[k] == base[k]
    ensures forall k :: k in PresentPassthrough(source) ==> payload[k] == source[k]
  {
    payload := base;
    for i := 0 to |PassthroughKeys|
      invariant payload.Keys == base.Keys + set k | k in PassthroughKeys[..i] && k in source
      invariant forall k :: k in base ==> payload[k] == base[k]
      invariant forall k :: k in PassthroughKeys[..i] && k in source ==> payload[k] == source[k]
    {
      var key := PassthroughKeys[i];
      assert PassthroughKeys[..i + 1] == PassthroughKeys[..i] + [key];
      if key in source {
        payload := payload[key := source[key]];
      }
    }
    assert PassthroughKeys[..|PassthroughKeys|] == PassthroughKeys;
  }

  /** `to_ollama_payload`: a chat request when `messages` is present (even if `prompt` is
      too), else a generate request when `prompt` is present, else the model alone. */
  method ToOllamaPayload(source: map<string, Value>) returns (payload: map<string, Value>)
    ensures "model" in payload && payload["model"] == ModelOf(source)
    ensures "messages" in source ==>
      && payload.Keys == {"model", "messages"} + PresentPassthrough(source)
      && payload["messages"] == source["messages"]
    ensures "messages" !in source && "prompt" in source ==>
      && payload.Keys == {"model", "prompt"} + PresentPassthrough(source)
      && payload["prompt"] == source["prompt"]
    ensures "messages" !in source && "prompt" !in source ==> payload == map["model" := ModelOf(source)]
    ensures payload.Keys <= OutputKeys
    ensures forall k :: k in payload && k != "model" ==> k in source && payload[k] == source[k]
  {
    var model := if "model" in source then source["model"] else Null;
    if "messages" in source {
      payload := AddPassthrough(source, map["model" := model, "messages" := source["messages"]]);
      return;
    }
    if "prompt" in source {
      payload := AddPassthrough(source, map["model" := model, "prompt" := source["prompt"]]);
      return;
    }
    return map["model" := model];
  }
}
