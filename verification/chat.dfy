/** The chat history both conversation loops keep for the language model
    (`_chat_messages` in src/engagement_controller.py, `chat_messages` in
    src/main.py), and the transcript filter they share. */
module Chat {
  import opened Text
  import opened Config

  datatype Role = System | User | Assistant

  /** One `{"role": ..., "content": ...}` entry. */
  datatype Message = Message(role: Role, content: string)

  /** The placeholder transcripts the recogniser emits for non-speech. */
  const Markers: set<string> := {"*music*", "(empty)", "[empty]"}

  /** A stripped transcript that is only a placeholder, in any letter case. */
  predicate IsPlaceholder(s: string) {
    Lower(s) in Markers
  }

  /** `cfg.get("systemPrompt", "")`, a prompt that is not a JSON string
      counting as absent. */
  function PromptOf(cfg: Object): string
  {
    if "systemPrompt" in cfg && cfg["systemPrompt"].JStr? then cfg["systemPrompt"].s else ""
  }
}
