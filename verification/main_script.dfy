/** The standalone listener (src/main.py): module globals holding the
    segmenter state, the personality, the chat history and the quiet
    window, an audio callback that segments speech (500 ms minimum, no
    text-to-speech drop), and the transcript handler that talks to the
    language model.  Transcription, the model's reply and whether speaking
    raised are parameters; what is handed to `say` is a log. */
module MainScript {
  import opened Wrappers
  import opened Text
  import opened Config
  import opened Chat
  import EnvUtils
  import Segmenter

  /** `MIN_UTTERANCE_SEC`, in milliseconds. */
  const MinUtteranceMs: nat := 500
  /** The quiet window after speaking, in milliseconds. */
  const QuietAfterReplyMs: int := 200
  /** The personality used when none is named. */
  const DefaultPersonality: string := "robot"

  /** What `postprocess_transcript` changes. */
  datatype Session = Session(chat: seq<Message>, quietUntil: int, said: seq<string>)

  /** `postprocess_transcript(text)` with personality `cfg`: `reply` is
      what the model returned (`None` when the query raised), `sayRaises`
      whether speaking raised, `after` the clock once speaking ended. */
  function Postprocess(g: Session, cfg: Object, text: string, reply: Option<string>, sayRaises: bool, after: int): Session {
    if text == "" || IsPlaceholder(Strip(text)) || cfg == map[] then g
    else
      var withUser := g.chat + [Message(User, text)];
      if reply.None? || reply.value == "" then g.(chat := withUser)
      else
        g.(chat := withUser + (if sayRaises then [] else [Message(Assistant, reply.value)]),
           said := g.said + [reply.value], quietUntil := after + QuietAfterReplyMs)
  }

  /** An empty or placeholder transcript, or no personality, changes
      nothing; otherwise the user turn is stored as transcribed
      (unstripped); a non-empty reply is spoken and opens the quiet window
      even when speaking raises, but is stored only when speaking did not
      raise. */
  lemma PostprocessFacts(g: Session, cfg: Object, text: string, reply: Option<string>, sayRaises: bool, after: int)
    ensures var n := Postprocess(g, cfg, text, reply, sayRaises, after);
      var answered := reply.Some? && reply.value != "";
      && (n == g <==> text == "" || IsPlaceholder(Strip(text)) || cfg == map[])
      && (n != g ==>
            && n.chat[..|g.chat| + 1] == g.chat + [Message(User, text)]
            && (|n.chat| == |g.chat| + 2 <==> answered && !sayRaises)
            && (|n.chat| == |g.chat| + 2 ==> n.chat[|g.chat| + 1] == Message(Assistant, reply.value))
            && (answered ==> n.said == g.said + [reply.value] && n.quietUntil == after + QuietAfterReplyMs)
            && (!answered ==> n.said == g.said && n.quietUntil == g.quietUntil))
  {
    var n := Postprocess(g, cfg, text, reply, sayRaises, after);
    if text != "" && !IsPlaceholder(Strip(text)) && cfg != map[] {
      assert |n.chat| > |g.chat|;
    }
  }

  /** Unlike the engagement controller, a transcript of only whitespace is
      not filtered out: it becomes a user turn. */
  lemma BlankTranscriptKept(g: Session, cfg: Object, text: string, reply: Option<string>, sayRaises: bool, after: int)
    requires text != "" && AllSpace(text) && cfg != map[]
    ensures Postprocess(g, cfg, text, reply, sayRaises, after).chat[|g.chat|] == Message(User, text)
  {
    StripAllSpace(text);
    assert Lower([]) == [];
  }

  /** The module globals. */
  class Globals {
    const tuning: Segmenter.Tuning
    const listener: Segmenter.Listener
    var personalityCfg: Object
    var chat: seq<Message>
    var quietUntil: int
    var said: seq<string>

    function Model(): Session
      reads this
    {
      Session(chat, quietUntil, said)
    }

    ghost predicate Valid()
      reads this, listener
    {
      listener.Valid() && tuning.minUtteranceMs == MinUtteranceMs && !tuning.dropDuringTts
    }

    /** The globals at import time. */
    constructor(sampleRate: nat, rmsGate: real)
      ensures Valid() && fresh(listener) && listener.Model() == Segmenter.Initial
      ensures tuning == Segmenter.Tuning(sampleRate, rmsGate, MinUtteranceMs, false)
      ensures personalityCfg == map[] && Model() == Session([], 0, [])
    {
      tuning := Segmenter.Tuning(sampleRate, rmsGate, MinUtteranceMs, false);
      listener := new Segmenter.Listener();
      personalityCfg := map[];
      chat := [];
      quietUntil := 0;
      said := [];
    }

    /** The set-up part of `main()`: the named personality (or "robot") is
        loaded; a failure ends the program with nothing changed; with
        `--list-devices` the program ends before the history is set;
        otherwise the history is exactly the system prompt.  A loaded value
        that is not an object ends the program too: reading its prompt with
        `.get` raises AttributeError, which nothing catches. */
    method Initialise(personality: Option<string>, files: Files, listDevices: bool) returns (listening: bool)
      modifies this`personalityCfg, this`chat
      ensures var name := if personality.Some? && personality.value != "" then personality.value else DefaultPersonality;
        var loaded := EnvUtils.LoadPersonality(name, files);
        && (loaded.Err? ==> !listening && personalityCfg == old(personalityCfg) && chat == old(chat))
        && (loaded.Ok? && !loaded.value.DObject? ==> !listening && personalityCfg == old(personalityCfg))
        && (loaded.Ok? && loaded.value.DObject? ==> personalityCfg == loaded.value.obj)
        && (listening <==> loaded.Ok? && loaded.value.DObject? && !listDevices)
        && (listening ==> chat == [Message(System, PromptOf(loaded.value.obj))])
        && (!listening ==> chat == old(chat))
    {
      var name := DefaultPersonality;
      if personality.Some? && personality.value != "" {
        name := personality.value;
      }
      var loaded := EnvUtils.LoadPersonality(name, files);
      if loaded.Err? || !loaded.value.DObject? {
        return false;
      }
      personalityCfg := loaded.value.obj;
      if listDevices {
        return false;
      }
      var systemPrompt := PromptOf(personalityCfg);
      chat := [Message(System, systemPrompt)];
      return true;
    }

    /** `postprocess_transcript(text)`. */
    method PostprocessTranscript(text: string, reply: Option<string>, sayRaises: bool, after: int)
      modifies this`chat, this`quietUntil, this`said
      ensures Model() == Postprocess(old(Model()), personalityCfg, text, reply, sayRaises, after)
    {
      if text == "" {
        return;
      }
      var marker := Lower(Strip(text));
      if marker in Markers {
        return;
      }
      if personalityCfg == map[] {
        return;
      }
      chat := chat + [Message(User, text)];
      if reply.None? {
        return;
      }
      var response := reply.value;
      if response != "" {
        said := said + [response];
        quietUntil := after + QuietAfterReplyMs;
        if sayRaises {
          return;
        }
        chat := chat + [Message(Assistant, response)];
      }
    }

    /** `audio_callback` for one chunk; `transcript` is what transcription
        returns for the utterance the chunk completes, if it completes one. */
    method AudioCallback(f: Segmenter.Frame, transcript: string, reply: Option<string>, sayRaises: bool, after: int)
      requires Valid()
      modifies listener, this`chat, this`quietUntil, this`said
      ensures Valid()
      ensures var o := Segmenter.Step(tuning, old(listener.Model()), old(quietUntil), f);
        && listener.Model() == o.next
        && Model() == (if o.heard.Some? then Postprocess(old(Model()), personalityCfg, transcript, reply, sayRaises, after)
                       else old(Model()))
    {
      var heard := listener.Feed(tuning, quietUntil, f);
      if heard.Some? {
        PostprocessTranscript(transcript, reply, sayRaises, after);
      }
    }
  }
}
