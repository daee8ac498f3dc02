/** The voice-activity segmenter of the conversation loop
    (`_audio_callback` in src/engagement_controller.py, and its older copy
    `audio_callback` in src/main.py): an adaptive energy gate in front of
    the VAD, and a debounced speech/silence state machine that collects the
    audio of one utterance.

    Each audio chunk is a `Frame`: its samples, its RMS energy, the clock
    reading in milliseconds, whether the text-to-speech process is active,
    and what the VAD would say about it (consulted only when the frame
    passes the gate).  The sample rate and the static gate `RMS_GATE` come
    from src/util/audio_constants.py, which is not part of this model, so
    they are parameters (`Tuning`). */
module Segmenter {
  import opened Wrappers

  /** `ADAPTIVE_RMS_ALPHA`, `ADAPTIVE_GATE_MULTIPLIER`, `ADAPTIVE_MIN_GATE`. */
  const Alpha: real := 0.05
  const GateMultiplier: real := 3.0
  const MinGate: real := 0.001

  /** `END_SILENCE_CONFIRM_SEC`, in milliseconds. */
  const EndSilenceMs: int := 1000

  /** The RMS of a chunk: a finite number, or NaN/infinity (which
      `np.isfinite` rejects and which is never below the gate). */
  datatype Energy = Finite(value: real) | NonFinite

  /** What differs between the two copies: the sample rate, `RMS_GATE`, the
      shortest utterance worth transcribing (600 ms in the controller,
      500 ms in src/main.py), and whether chunks are dropped while the
      text-to-speech process runs (the controller only). */
  datatype Tuning = Tuning(sampleRate: nat, rmsGate: real, minUtteranceMs: nat, dropDuringTts: bool)

  datatype Frame = Frame(samples: seq<real>, rms: Energy, now: int, ttsActive: bool, vadSpeech: bool)

  /** The segmenter's state: `in_speech`, `pending_end_ts`, `current_utt`
      and `rms_baseline`. */
  datatype Seg = Seg(inSpeech: bool, pendingEnd: Option<int>, utterance: seq<real>, baseline: Option<real>)

  /** The state after one chunk, and the utterance handed to transcription
      by that chunk, if any. */
  datatype Outcome = Outcome(next: Seg, heard: Option<seq<real>>)

  const Initial: Seg := Seg(false, None, [], None)

  /** Outside speech there is neither a pending end nor buffered audio. */
  ghost predicate Inv(s: Seg) {
    !s.inSpeech ==> s.pendingEnd.None? && s.utterance == []
  }

  function Max(a: real, b: real): (m: real)
    ensures m >= a && m >= b && (m == a || m == b)
  {
    if a >= b then a else b
  }

  /** `_update_rms_baseline`: a non-finite sample is ignored, the first
      finite one becomes the baseline, and every later one moves the
      baseline `Alpha` of the way towards itself. */
  function UpdateBaseline(b: Option<real>, rms: Energy): (r: Option<real>)
    ensures rms.NonFinite? ==> r == b
    ensures rms.Finite? && b.None? ==> r == Some(rms.value)
    ensures rms.Finite? && b.Some? ==>
      && r.Some?
      && r.value - b.value == Alpha * (rms.value - b.value)
      && (b.value <= rms.value ==> b.value <= r.value <= rms.value)
      && (rms.value <= b.value ==> rms.value <= r.value <= b.value)
  {
    match rms
    case NonFinite => b
    case Finite(v) =>
      if b.None? then Some(v) else Some((1.0 - Alpha) * b.value + Alpha * v)
  }

  /** `_current_rms_gate`: the largest of the floor, the static gate (when
      positive) and three times the baseline. */
  function Gate(rmsGate: real, b: Option<real>): (g: real)
    ensures g >= MinGate && g >= rmsGate
    ensures b.Some? ==> g >= GateMultiplier * b.value
    ensures g == MinGate || (rmsGate > 0.0 && g == rmsGate) || (b.Some? && g == GateMultiplier * b.value)
  {
    var baseGate := if rmsGate > 0.0 then rmsGate else 0.0;
    var dynamic := (if b.Some? then b.value else 0.0) * GateMultiplier;
    Max(Max(MinGate, baseGate), dynamic)
  }

  /** The chunk is treated as silence without asking the VAD: it falls in
      the quiet window after the installation spoke, or its energy is
      finite and below the gate. */
  predicate Gated(t: Tuning, s: Seg, quietUntil: int, f: Frame) {
    f.now < quietUntil || (f.rms.Finite? && f.rms.value < Gate(t.rmsGate, s.baseline))
  }

  /** An utterance of `n` samples lasts less than the minimum. */
  predicate Short(t: Tuning, n: nat) {
    n * 1000 < t.minUtteranceMs * t.sampleRate
  }

  /** One chunk through the gate and the state machine. */
  function Step(t: Tuning, s: Seg, quietUntil: int, f: Frame): Outcome {
    if t.dropDuringTts && f.ttsActive then Outcome(s, None)
    else
      var gated := Gated(t, s, quietUntil, f);
      var b := if gated then UpdateBaseline(s.baseline, f.rms) else s.baseline;
      if !gated && f.vadSpeech then
        Outcome(Seg(true, None, (if s.inSpeech then s.utterance else []) + f.samples, b), None)
      else if !s.inSpeech then Outcome(s.(baseline := b), None)
      else if s.pendingEnd.None? then Outcome(s.(pendingEnd := Some(f.now), baseline := b), None)
      else if f.now - s.pendingEnd.value >= EndSilenceMs then
        Outcome(Seg(false, None, [], b),
                if |s.utterance| > 0 && !Short(t, |s.utterance|) then Some(s.utterance) else None)
      else Outcome(s.(baseline := b), None)
  }

  // ---------------------------------------------------------------
  // One chunk
  // ---------------------------------------------------------------

  /** While text-to-speech runs, the controller drops the chunk before any
      state changes. */
  lemma TtsDropped(t: Tuning, s: Seg, quietUntil: int, f: Frame)
    requires t.dropDuringTts && f.ttsActive
    ensures Step(t, s, quietUntil, f) == Outcome(s, None)
  {
  }

  /** A gated chunk is silence whatever the VAD would say, and it feeds the
      baseline; a chunk the VAD judges leaves the baseline alone. */
  lemma GateFacts(t: Tuning, s: Seg, quietUntil: int, f: Frame)
    requires !(t.dropDuringTts && f.ttsActive)
    ensures Gated(t, s, quietUntil, f) ==>
      && Step(t, s, quietUntil, f) == Step(t, s, quietUntil, f.(vadSpeech := false))
      && Step(t, s, quietUntil, f).next.baseline == UpdateBaseline(s.baseline, f.rms)
    ensures !Gated(t, s, quietUntil, f) ==> Step(t, s, quietUntil, f).next.baseline == s.baseline
  {
  }

  /** A speech chunk opens a fresh utterance when not already in speech,
      cancels a pending end and appends its samples; nothing is heard. */
  lemma SpeechFrame(t: Tuning, s: Seg, quietUntil: int, f: Frame)
    requires Inv(s)
    requires !(t.dropDuringTts && f.ttsActive) && !Gated(t, s, quietUntil, f) && f.vadSpeech
    ensures var o := Step(t, s, quietUntil, f);
      && o.next.inSpeech && o.next.pendingEnd.None? && o.heard.None?
      && o.next.utterance == s.utterance + f.samples
  {
  }

  /** The silent chunks in speech: the first one only records when the
      silence began; a later one at least `EndSilenceMs` after it ends the
      speech and empties the buffer, handing the audio over iff there is
      some and it is not too short; an earlier one changes only the
      baseline. */
  lemma SilentFrame(t: Tuning, s: Seg, quietUntil: int, f: Frame)
    requires s.inSpeech
    requires !(t.dropDuringTts && f.ttsActive) && (Gated(t, s, quietUntil, f) || !f.vadSpeech)
    ensures var o := Step(t, s, quietUntil, f);
      && (s.pendingEnd.None? ==>
           o.next == s.(pendingEnd := Some(f.now), baseline := o.next.baseline) && o.heard.None?)
      && (s.pendingEnd.Some? && f.now - s.pendingEnd.value >= EndSilenceMs ==>
           && !o.next.inSpeech && o.next.pendingEnd.None? && o.next.utterance == []
           && (o.heard.Some? <==> |s.utterance| > 0 && !Short(t, |s.utterance|))
           && (o.heard.Some? ==> o.heard.value == s.utterance))
      && (s.pendingEnd.Some? && f.now - s.pendingEnd.value < EndSilenceMs ==>
           o.next == s.(baseline := o.next.baseline) && o.heard.None?)
  {
  }

  /** Every chunk keeps the invariant, and whatever is heard is audio of
      at least the minimum length. */
  lemma StepKeepsInv(t: Tuning, s: Seg, quietUntil: int, f: Frame)
    requires Inv(s)
    ensures Inv(Step(t, s, quietUntil, f).next)
    ensures var h := Step(t, s, quietUntil, f).heard;
      h.Some? ==> |h.value| > 0 && |h.value| * 1000 >= t.minUtteranceMs * t.sampleRate
  {
  }

  // ---------------------------------------------------------------
  // A stream of chunks
  // ---------------------------------------------------------------

  /** The chunks fed in order (the quiet window fixed), and the
      utterances heard along the way. */
  function Run(t: Tuning, s: Seg, quietUntil: int, fs: seq<Frame>): (Seg, seq<seq<real>>)
    decreases |fs|
  {
    if fs == [] then (s, [])
    else
      var (m, heard) := Run(t, s, quietUntil, fs[..|fs| - 1]);
      var o := Step(t, m, quietUntil, fs[|fs| - 1]);
      (o.next, heard + (if o.heard.Some? then [o.heard.value] else []))
  }

  /** Over any stream the invariant holds, and every utterance heard is
      non-empty and at least the minimum length. */
  lemma {:induction false} RunKeepsInv(t: Tuning, s: Seg, quietUntil: int, fs: seq<Frame>)
    requires Inv(s)
    ensures Inv(Run(t, s, quietUntil, fs).0)
    ensures forall u | u in Run(t, s, quietUntil, fs).1 :: |u| > 0 && |u| * 1000 >= t.minUtteranceMs * t.sampleRate
    decreases |fs|
  {
    if fs != [] {
      var init := fs[..|fs| - 1];
      RunKeepsInv(t, s, quietUntil, init);
      StepKeepsInv(t, Run(t, s, quietUntil, init).0, quietUntil, fs[|fs| - 1]);
    }
  }

  /** Silence never starts an utterance: from outside speech, a stream in
      which no chunk is judged speech stays outside speech, hears nothing,
      and changes at most the baseline. */
  lemma {:induction false} RunSilent(t: Tuning, s: Seg, quietUntil: int, fs: seq<Frame>)
    requires !s.inSpeech && Inv(s)
    requires forall k | 0 <= k < |fs| :: !fs[k].vadSpeech
    ensures var (e, heard) := Run(t, s, quietUntil, fs);
      e == s.(baseline := e.baseline) && heard == []
    decreases |fs|
  {
    if fs != [] {
      var init := fs[..|fs| - 1];
      forall k | 0 <= k < |init| ensures !init[k].vadSpeech {
        assert init[k] == fs[k];
      }
      RunSilent(t, s, quietUntil, init);
    }
  }

  /** The samples of the chunks, in order. */
  function Concat(fs: seq<Frame>): seq<real>
    decreases |fs|
  {
    if fs == [] then [] else Concat(fs[..|fs| - 1]) + fs[|fs| - 1].samples
  }

  /** A chunk that reaches the VAD while the baseline is `b`. */
  predicate Judged(t: Tuning, b: Option<real>, quietUntil: int, f: Frame) {
    && !(t.dropDuringTts && f.ttsActive)
    && f.now >= quietUntil
    && !(f.rms.Finite? && f.rms.value < Gate(t.rmsGate, b))
  }

  /** While speech continues chunk after chunk, nothing is heard, the
      baseline stays put, and the buffer grows by the samples of all those
      chunks in order. */
  lemma {:induction false} RunSpeech(t: Tuning, s: Seg, quietUntil: int, fs: seq<Frame>)
    requires Inv(s) && |fs| > 0
    requires forall k | 0 <= k < |fs| :: Judged(t, s.baseline, quietUntil, fs[k]) && fs[k].vadSpeech
    ensures var (e, heard) := Run(t, s, quietUntil, fs);
      && e.inSpeech && e.pendingEnd.None? && e.baseline == s.baseline && heard == []
      && e.utterance == s.utterance + Concat(fs)
    decreases |fs|
  {
    var init := fs[..|fs| - 1];
    var f := fs[|fs| - 1];
    if init == [] {
      assert Run(t, s, quietUntil, init) == (s, []);
      assert Concat(fs) == Concat(init) + f.samples;
    } else {
      forall k | 0 <= k < |init| ensures Judged(t, s.baseline, quietUntil, init[k]) && init[k].vadSpeech {
        assert init[k] == fs[k];
      }
      RunSpeech(t, s, quietUntil, init);
      assert s.utterance + Concat(init) + f.samples == s.utterance + Concat(fs);
    }
  }

  /** The segmenter state, updated in place chunk by chunk. */
  class Listener {
    var inSpeech: bool
    var pendingEnd: Option<int>
    var utterance: seq<real>
    var baseline: Option<real>

    function Model(): Seg
      reads this
    {
      Seg(inSpeech, pendingEnd, utterance, baseline)
    }

    ghost predicate Valid()
      reads this
    {
      Inv(Model())
    }

    constructor()
      ensures Model() == Initial && Valid()
    {
      inSpeech := false;
      pendingEnd := None;
      utterance := [];
      baseline := None;
    }

    /** `_update_rms_baseline`. */
    method UpdateRmsBaseline(rms: Energy)
      modifies this`baseline
      ensures baseline == UpdateBaseline(old(baseline), rms)
    {
      if rms.NonFinite? {
        return;
      }
      if baseline.None? {
        baseline := Some(rms.value);
      } else {
        baseline := Some((1.0 - Alpha) * baseline.value + Alpha * rms.value);
      }
    }

    /** The body of the audio callback, up to handing the utterance over. */
    method Feed(t: Tuning, quietUntil: int, f: Frame) returns (heard: Option<seq<real>>)
      requires Valid()
      modifies this
      ensures Valid()
      ensures Model() == Step(t, old(Model()), quietUntil, f).next
      ensures heard == Step(t, old(Model()), quietUntil, f).heard
    {
      heard := None;
      if t.dropDuringTts && f.ttsActive {
        return;
      }
      var effectiveGate := Gate(t.rmsGate, baseline);
      var speechDetected;
      if f.now < quietUntil {
        UpdateRmsBaseline(f.rms);
        speechDetected := false;
      } else if f.rms.Finite? && f.rms.value < effectiveGate {
        UpdateRmsBaseline(f.rms);
        speechDetected := false;
      } else {
        speechDetected := f.vadSpeech;
      }
      if speechDetected {
        if !inSpeech {
          inSpeech := true;
          utterance := [];
        }
        pendingEnd := None;
        utterance := utterance + f.samples;
      } else if inSpeech {
        if pendingEnd.None? {
          pendingEnd := Some(f.now);
        } else if f.now - pendingEnd.value >= EndSilenceMs {
          inSpeech := false;
          pendingEnd := None;
          var utt := utterance;
          utterance := [];
          if |utt| > 0 && !Short(t, |utt|) {
            heard := Some(utt);
          }
        }
      }
    }
  }
}
