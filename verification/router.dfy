/** Session mode to model configuration (router.py). */
module Router {
  /** The `{"model": ..., "max_completion_tokens": ...}` dict `pick_model` returns. */
  datatype ModelConfig = ModelConfig(model: string, maxCompletionTokens: nat)

  const Conversation := ModelConfig("gpt-4o-mini", 150)
  const Storytelling := ModelConfig("gpt-5-mini", 2048)

  /** `pick_model(mode)`: storytelling gets the larger model and budget; every
      other mode, whatever its spelling, is served like a conversation. Mode
      names are matched exactly, so "Storytelling" is served as a conversation. */
  function PickModel(mode: string): (r: ModelConfig)
    ensures r.maxCompletionTokens > 0
    ensures r == Storytelling <==> mode == "storytelling"
    ensures r == Conversation <==> mode != "storytelling"
  {
    if mode == "conversation" then Conversation
    else if mode == "storytelling" then Storytelling
    else Conversation
  }
}
