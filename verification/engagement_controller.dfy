/** The engagement controller (src/engagement_controller.py): it polls the
    radar, turns distance and time into one of the four engagement states,
    starts and stops the light sequences and the conversation loop to match,
    and runs the conversation itself (speech segmentation, chat history,
    replies spoken aloud).

    Clock readings are integer milliseconds passed in by the caller.  The
    four light sequences and the conversation thread are flags; what is
    spoken is a log (`spoken`), as are the `set_brightness` calls made on
    the LED controller (`calls`).  The random greeting and farewell lines
    are chosen by index, the transcription and the language model's reply
    are parameters. */
module EngagementController {
  import opened Wrappers
  import opened Text
  import opened Config
  import opened Devices
  import opened Chat
  import opened HwState
  import RadarReader
  import Segmenter
  import Seqs

  /** `EXIT_GRACE_SEC`, in milliseconds. */
  const ExitGraceMs: int := 2000
  /** The quiet window after a reply was spoken, in milliseconds. */
  const QuietAfterReplyMs: int := 200
  /** `MIN_UTTERANCE_SEC`, in milliseconds. */
  const MinUtteranceMs: nat := 600
  /** The constructor's default thresholds, in millimetres. */
  const DefaultIdleThresholdMm: int := 3000
  const DefaultEngagedThresholdMm: int := 1500
  /** The speech rate of greetings and farewells, and the default rate. */
  const DefaultRate: int := 80

  const Farewells: seq<string> := [
    "Goodbye. Come back soon.",
    "Thanks for visiting. Travel safely.",
    "It was good to see you. Don't be a stranger.",
    "I will be here when you return.",
    "Thanks for sharing this moment with me. Goodbye.",
    "Farewell until our paths cross again.",
    "May your path stay bright.",
    "I hope to see you again soon.",
    "Goodbye for now."]

  const Greetings: seq<string> := [
    "Hello there, it is good to see you.",
    "Welcome. I am glad you are here.",
    "Hi there! Thank you for coming.",
    "Hello. It is nice to share this moment with you.",
    "Hi. Your presence brightens me.",
    "Good to see you. Stay as long as you like.",
    "Hello, I am so glad you are here.",
    "Hi! is good to see you.",
    "Hello my friend. I can sense your presence.",
    "Hello. I am glad you came by."]

  // ---------------------------------------------------------------
  // State transitions
  // ---------------------------------------------------------------

  /** The distance the rules look at: a missing or non-positive reading
      counts as just beyond the idle threshold. */
  function Distance(reading: Option<int>, idleThreshold: int): int {
    if reading.None? || reading.value <= 0 then idleThreshold + 1 else reading.value
  }

  /** Someone was seen within the idle threshold less than the grace time
      ago (never, while the last-presence time is still 0). */
  predicate Recent(lastPresence: int, now: int) {
    lastPresence > 0 && now - lastPresence < ExitGraceMs
  }

  /** A reading that counts as presence. */
  predicate Present(reading: Option<int>, idleThreshold: int) {
    reading.Some? && 0 < reading.value <= idleThreshold
  }

  /** `_determine_state`. */
  function DetermineState(reading: Option<int>, previous: string, now: int, lastPresence: int,
                          idleThreshold: int, engagedThreshold: int): (s: string)
    ensures IsLabel(s)
  {
    var d := Distance(reading, idleThreshold);
    var recent := Recent(lastPresence, now);
    if previous == Idle then
      if d > idleThreshold then Idle
      else if d > engagedThreshold then Approaching
      else Engaged
    else if previous == Approaching then
      if d > idleThreshold then (if recent then Approaching else Idle)
      else if d <= engagedThreshold then Engaged
      else Approaching
    else if previous == Engaged then
      if d > idleThreshold then (if recent then Leaving else Idle)
      else if d > engagedThreshold then Leaving
      else Engaged
    else if previous == Leaving then
      if d > idleThreshold then (if recent then Leaving else Idle)
      else if d <= engagedThreshold then Engaged
      else Leaving
    else Idle
  }

  /** The transition table, state by state and in both directions: which
      previous states and which distance bands (close, between the
      thresholds, far with or without recent presence) lead where. */
  lemma DetermineTable(reading: Option<int>, previous: string, now: int, lastPresence: int,
                       idleThreshold: int, engagedThreshold: int)
    ensures var s := DetermineState(reading, previous, now, lastPresence, idleThreshold, engagedThreshold);
      var d := Distance(reading, idleThreshold);
      var recent := Recent(lastPresence, now);
      && (s == Engaged <==> IsLabel(previous) && d <= idleThreshold && d <= engagedThreshold)
      && (s == Approaching <==>
            || (previous == Idle && engagedThreshold < d <= idleThreshold)
            || (previous == Approaching && (engagedThreshold < d <= idleThreshold || (d > idleThreshold && recent))))
      && (s == Leaving <==>
            (previous == Engaged || previous == Leaving)
            && (engagedThreshold < d <= idleThreshold || (d > idleThreshold && recent)))
      && (s == Idle <==> !IsLabel(previous) || (d > idleThreshold && (previous == Idle || !recent)))
  {
  }

  /** No reading, a zero and a negative reading all behave like a reading
      just beyond the idle threshold. */
  lemma MissingReadingIsFar(previous: string, now: int, lastPresence: int, idleThreshold: int,
                            engagedThreshold: int, v: int)
    requires v <= 0
    ensures var far := DetermineState(Some(idleThreshold + 1), previous, now, lastPresence, idleThreshold, engagedThreshold);
      && DetermineState(None, previous, now, lastPresence, idleThreshold, engagedThreshold) == far
      && DetermineState(Some(v), previous, now, lastPresence, idleThreshold, engagedThreshold) == far
  {
  }

  /** With the default thresholds no state is skipped on the way in: IDLE
      never goes straight to LEAVING, and LEAVING is only reached from
      ENGAGED or LEAVING. */
  lemma NoJumpToLeaving(reading: Option<int>, previous: string, now: int, lastPresence: int)
    requires DetermineState(reading, previous, now, lastPresence, DefaultIdleThresholdMm, DefaultEngagedThresholdMm) == Leaving
    ensures previous == Engaged || previous == Leaving
  {
    DetermineTable(reading, previous, now, lastPresence, DefaultIdleThresholdMm, DefaultEngagedThresholdMm);
  }

  // ---------------------------------------------------------------
  // What the director changes
  // ---------------------------------------------------------------

  /** The running flags of the idle, approaching, engaged and leaving
      sequences, or (as `startable`) whether each one's `start` takes
      effect. */
  datatype Flags = Flags(idle: bool, approaching: bool, engaged: bool, leaving: bool)

  /** Only the flag of `state` kept. */
  function Only(f: Flags, state: string): Flags {
    Flags(state == Idle && f.idle, state == Approaching && f.approaching,
          state == Engaged && f.engaged, state == Leaving && f.leaving)
  }

  /** The flags after the sequences of every state but `state` are stopped
      and the sequence of `state` is started unless already running. */
  function Switched(f: Flags, startable: Flags, state: string): Flags {
    Flags(state == Idle && (f.idle || startable.idle),
          state == Approaching && (f.approaching || startable.approaching),
          state == Engaged && (f.engaged || startable.engaged),
          state == Leaving && (f.leaving || startable.leaving))
  }

  /** `start` of the approaching and engaged sequences
      (src/hw/approaching_sequence.py:106-112, src/hw/engaged_sequence.py:137-143)
      first fades every LED off over this many milliseconds. */
  const StartFadeMs: int := 500

  /** Entering `state` starts the approaching or the engaged sequence,
      which was not running and whose start takes effect.  (What the idle
      and leaving sequences send when they start is not part of this
      model.) */
  predicate FadesOnStart(f: Flags, startable: Flags, state: string) {
    || (state == Approaching && !f.approaching && startable.approaching)
    || (state == Engaged && !f.engaged && startable.engaged)
  }

  /** The LED calls made by starting the sequence of `state`. */
  function StartCalls(f: Flags, startable: Flags, leds: seq<string>, state: string): seq<Call> {
    if FadesOnStart(f, startable, state) then TurnOff(leds, StartFadeMs) else []
  }

  predicate Within(a: Flags, b: Flags) {
    (a.idle ==> b.idle) && (a.approaching ==> b.approaching) && (a.engaged ==> b.engaged) && (a.leaving ==> b.leaving)
  }

  predicate AnyRunning(f: Flags) {
    f.idle || f.approaching || f.engaged || f.leaving
  }

  /** The conversation thread: none, running, or ended on its own. */
  datatype Worker = NoThread | Alive | Ended

  /** A text handed to the speaker, and its rate. */
  datatype Speech = Speech(text: string, rate: int)

  /** Everything the director and the transcript handler change. */
  datatype Stage = Stage(running: Flags, conversation: Worker, stopEvent: bool, chat: seq<Message>,
                         spoken: seq<Speech>, calls: seq<Call>, lastReply: Option<string>,
                         quietUntil: int, speechRate: int)

  /** What they read and never change: which sequences can start, the
      stored system prompt, the personality, and the LED addresses. */
  datatype Setup = Setup(startable: Flags, systemPrompt: string, personality: Object, leds: seq<string>)

  /** `_reset_chat_history`: only the system message, taken from the stored
      prompt or else the personality, and no message when both are empty. */
  function FreshChat(k: Setup): (chat: seq<Message>)
    ensures |chat| <= 1 && forall m | m in chat :: m.role == System && m.content != ""
    ensures chat == [] <==> k.systemPrompt == "" && PromptOf(k.personality) == ""
  {
    var prompt := if k.systemPrompt != "" then k.systemPrompt else PromptOf(k.personality);
    if prompt != "" then [Message(System, prompt)] else []
  }

  /** `_start_conversation`: a no-op while the thread is alive; otherwise
      the stop event is cleared and a new thread runs. */
  function StartConv(w: Worker, stopEvent: bool): (Worker, bool) {
    if w == Alive then (w, stopEvent) else (Alive, false)
  }

  /** `_stop_conversation`: a no-op without a thread; otherwise the stop
      event is set and the thread is dropped. */
  function StopConv(w: Worker, stopEvent: bool): (Worker, bool) {
    if w == NoThread then (w, stopEvent) else (NoThread, true)
  }

  /** The farewell said on entering IDLE: one line, only after ENGAGED or
      LEAVING. */
  function Farewell(previous: Option<string>, farewell: nat): seq<Speech>
    requires farewell < |Farewells|
  {
    if previous == Some(Engaged) || previous == Some(Leaving) then [Speech(Farewells[farewell], DefaultRate)] else []
  }

  /** Entering IDLE: the farewell, a fresh history, the idle sequence alone,
      the conversation stopped. */
  function ToIdle(st: Stage, k: Setup, previous: Option<string>, farewell: nat): Stage
    requires farewell < |Farewells|
  {
    var (w, ev) := StopConv(st.conversation, st.stopEvent);
    st.(spoken := st.spoken + Farewell(previous, farewell), chat := FreshChat(k),
        running := Switched(st.running, k.startable, Idle),
        conversation := w, stopEvent := ev)
  }

  /** Entering APPROACHING: the approaching sequence alone, started with
      its fade-off, and the conversation stopped. */
  function ToApproaching(st: Stage, k: Setup): Stage {
    var (w, ev) := StopConv(st.conversation, st.stopEvent);
    st.(running := Switched(st.running, k.startable, Approaching),
        conversation := w, stopEvent := ev,
        calls := st.calls + StartCalls(st.running, k.startable, k.leds, Approaching))
  }

  /** Entering ENGAGED: a greeting, the engaged sequence alone (started
      with its fade-off), the conversation started. */
  function ToEngaged(st: Stage, k: Setup, greeting: nat): Stage
    requires greeting < |Greetings|
  {
    var (w, ev) := StartConv(st.conversation, st.stopEvent);
    st.(spoken := st.spoken + [Speech(Greetings[greeting], DefaultRate)],
        running := Switched(st.running, k.startable, Engaged),
        conversation := w, stopEvent := ev,
        calls := st.calls + StartCalls(st.running, k.startable, k.leds, Engaged))
  }

  function ToLeaving(st: Stage, k: Setup): Stage {
    var (w, ev) := StopConv(st.conversation, st.stopEvent);
    st.(running := Switched(st.running, k.startable, Leaving),
        conversation := w, stopEvent := ev)
  }

  /** Any other state: everything stopped, the conversation only if a
      sequence was running, and every LED off over 2 s. */
  function ToUnknown(st: Stage, k: Setup): Stage {
    var (w, ev) := if AnyRunning(st.running) then StopConv(st.conversation, st.stopEvent)
                   else (st.conversation, st.stopEvent);
    st.(running := Switched(st.running, k.startable, ""), conversation := w, stopEvent := ev,
        calls := st.calls + TurnOff(k.leds, 2000))
  }

  /** `_apply_led_behavior_for(state, previous)`. */
  function Direct(st: Stage, k: Setup, state: string, previous: Option<string>, farewell: nat, greeting: nat): Stage
    requires farewell < |Farewells| && greeting < |Greetings|
  {
    if state == Idle then ToIdle(st, k, previous, farewell)
    else if state == Approaching then ToApproaching(st, k)
    else if state == Engaged then ToEngaged(st, k, greeting)
    else if state == Leaving then ToLeaving(st, k)
    else ToUnknown(st, k)
  }

  /** For each of the four states: its own sequence runs (when its start
      can take effect) and the other three are stopped; the conversation
      runs in ENGAGED only; history is reset on IDLE and kept otherwise; a
      farewell is spoken only on IDLE after ENGAGED or LEAVING, a greeting
      on every ENGAGED; every LED is faded off over 500 ms exactly when the
      approaching or engaged sequence is started, no other LED call is
      made, and nothing else changes. */
  lemma DirectFacts(st: Stage, k: Setup, state: string, previous: Option<string>, farewell: nat, greeting: nat)
    requires farewell < |Farewells| && greeting < |Greetings|
    requires IsLabel(state) && Within(st.running, k.startable)
    ensures var n := Direct(st, k, state, previous, farewell, greeting);
      && n.running == Only(k.startable, state)
      && (n.conversation == Alive <==> state == Engaged)
      && (state != Engaged ==> n.conversation == NoThread)
      && (state == Engaged && st.conversation != Alive ==> !n.stopEvent)
      && n.chat == (if state == Idle then FreshChat(k) else st.chat)
      && n.spoken[..|st.spoken|] == st.spoken
      && (|n.spoken| == |st.spoken| + 1 <==>
            state == Engaged || (state == Idle && (previous == Some(Engaged) || previous == Some(Leaving))))
      && (|n.spoken| != |st.spoken| + 1 ==> n.spoken == st.spoken)
      && (state == Engaged ==> n.spoken[|st.spoken|] == Speech(Greetings[greeting], DefaultRate))
      && (state == Idle && |n.spoken| > |st.spoken| ==> n.spoken[|st.spoken|].text in Farewells)
      && (state == Approaching && !st.running.approaching && k.startable.approaching ==>
            n.calls == st.calls + TurnOff(k.leds, StartFadeMs))
      && (state == Engaged && !st.running.engaged && k.startable.engaged ==>
            n.calls == st.calls + TurnOff(k.leds, StartFadeMs))
      && (!FadesOnStart(st.running, k.startable, state) ==> n.calls == st.calls)
      && n.lastReply == st.lastReply
      && n.quietUntil == st.quietUntil && n.speechRate == st.speechRate
  {
  }

  /** Any other state: every sequence stops, the conversation stops only if
      a sequence was running, and every LED is turned off over 2 s. */
  lemma DirectUnknownState(st: Stage, k: Setup, state: string, previous: Option<string>, farewell: nat, greeting: nat)
    requires farewell < |Farewells| && greeting < |Greetings|
    requires !IsLabel(state)
    ensures var n := Direct(st, k, state, previous, farewell, greeting);
      && !AnyRunning(n.running)
      && n.conversation == (if AnyRunning(st.running) then NoThread else st.conversation)
      && n.calls == st.calls + TurnOff(k.leds, 2000)
      && n.chat == st.chat && n.spoken == st.spoken
  {
  }

  /** Repeating a state is harmless: handling APPROACHING or LEAVING twice
      is handling it once, and a second ENGAGED only greets again (the
      running sequence is not started again, so no LED is faded off). */
  lemma DirectRepeat(st: Stage, k: Setup, state: string, previous: Option<string>, farewell: nat, greeting: nat)
    requires farewell < |Farewells| && greeting < |Greetings|
    requires state == Approaching || state == Leaving || state == Engaged
    ensures var once := Direct(st, k, state, previous, farewell, greeting);
      var twice := Direct(once, k, state, Some(state), farewell, greeting);
      && twice.running == once.running && twice.conversation == once.conversation
      && twice.stopEvent == once.stopEvent && twice.chat == once.chat && twice.calls == once.calls
      && twice.spoken == once.spoken + (if state == Engaged then [Speech(Greetings[greeting], DefaultRate)] else [])
  {
  }

  // ---------------------------------------------------------------
  // Sanitising replies before they are spoken
  // ---------------------------------------------------------------

  /** The turn tags `</?start_of_turn>` and `</?end_of_turn>`. */
  const TurnTags: seq<string> := ["<start_of_turn>", "</start_of_turn>", "<end_of_turn>", "</end_of_turn>"]

  /** The length of the turn tag `s` starts with, or 0. */
  function TagLength(s: string): (n: nat)
    ensures n == 0 || (n <= |s| && s[..n] in TurnTags)
  {
    if StartsWith(s, TurnTags[0]) then |TurnTags[0]|
    else if StartsWith(s, TurnTags[1]) then |TurnTags[1]|
    else if StartsWith(s, TurnTags[2]) then |TurnTags[2]|
    else if StartsWith(s, TurnTags[3]) then |TurnTags[3]|
    else 0
  }

  /** The first substitution: every turn tag removed, scanning left to
      right. */
  function DropTags(s: string): string
    decreases |s|
  {
    if s == [] then []
    else if TagLength(s) > 0 then DropTags(s[TagLength(s)..])
    else [s[0]] + DropTags(s[1..])
  }

  /** The length of the `<|...|>` token `s` starts with, or 0: after `<|`,
      everything up to the first `>`, which must follow a `|`. */
  function SpecialLength(s: string): (n: nat)
    ensures n == 0 || 4 <= n <= |s|
  {
    if |s| >= 2 && s[0] == '<' && s[1] == '|' then
      var j := 2 + IndexOf(s[2..], '>');
      if 3 <= j < |s| && s[j - 1] == '|' then j + 1 else 0
    else 0
  }

  /** The second substitution: every `<|...|>` token removed. */
  function DropSpecial(s: string): string
    decreases |s|
  {
    if s == [] then []
    else if SpecialLength(s) > 0 then DropSpecial(s[SpecialLength(s)..])
    else [s[0]] + DropSpecial(s[1..])
  }

  /** `replace("\u0000", "")`. */
  function DropNul(s: string): (r: string)
    ensures '\0' !in r
    ensures forall c | c in r :: c in s
    ensures '\0' !in s ==> r == s
  {
    if s == [] then []
    else (if s[0] == '\0' then [] else [s[0]]) + DropNul(s[1..])
  }

  /** The text actually spoken for a reply. */
  function Sanitize(s: string): string {
    Strip(DropNul(DropSpecial(DropTags(s))))
  }

  /** Every turn tag starts with `<` and has no other `<`. */
  lemma TagShape()
    ensures forall t | t in TurnTags :: |t| > 1 && t[0] == '<' && forall i | 0 < i < |t| :: t[i] != '<'
  {
  }

  /** A tag cannot start before a `<` and end after it. */
  lemma TagLengthPrefix(p: string, r: string)
    requires |p| > 0 && (r == [] || r[0] == '<')
    ensures TagLength(p + r) == TagLength(p) && TagLength(p) <= |p|
  {
    TagShape();
    PrefixStartsWith(p, r, TurnTags[0]);
    PrefixStartsWith(p, r, TurnTags[1]);
    PrefixStartsWith(p, r, TurnTags[2]);
    PrefixStartsWith(p, r, TurnTags[3]);
  }

  /** A text with only one `<`, at its front, is a prefix of `p + r`
      exactly when it is a prefix of `p`. */
  lemma PrefixStartsWith(p: string, r: string, t: string)
    requires |p| > 0 && (r == [] || r[0] == '<')
    requires |t| > 1 && t[0] == '<' && forall i | 0 < i < |t| :: t[i] != '<'
    ensures StartsWith(p + r, t) <==> StartsWith(p, t)
  {
    if |t| <= |p| {
      assert (p + r)[..|t|] == p[..|t|];
    } else if r != [] && |t| <= |p| + |r| {
      assert (p + r)[|p|] == '<' && t[|p|] != '<';
    }
  }

  /** Turn tags are removed independently on either side of a `<`. */
  lemma {:induction false} DropTagsSplit(p: string, r: string)
    requires r == [] || r[0] == '<'
    ensures DropTags(p + r) == DropTags(p) + DropTags(r)
    decreases |p|
  {
    if p == [] {
      assert p + r == r;
    } else {
      var rest := DropTagsFront(p, r);
      DropTagsSplit(rest, r);
    }
  }

  /** One step of the scan over `p + r` is the same step over `p`: both
      drop the tag `p` starts with, or both keep its first character. */
  lemma DropTagsFront(p: string, r: string) returns (rest: string)
    requires |p| > 0 && (r == [] || r[0] == '<')
    ensures |rest| < |p|
    ensures TagLength(p) > 0 ==> DropTags(p + r) == DropTags(rest + r) && DropTags(p) == DropTags(rest)
    ensures TagLength(p) == 0 ==> DropTags(p + r) == [p[0]] + DropTags(rest + r) && DropTags(p) == [p[0]] + DropTags(rest)
  {
    TagLengthPrefix(p, r);
    var n := TagLength(p);
    if n > 0 {
      rest := p[n..];
      assert (p + r)[n..] == rest + r;
    } else {
      rest := p[1..];
      assert (p + r)[1..] == rest + r;
    }
  }

  /** A turn tag anywhere in the reply is removed, the text around it kept. */
  lemma TagRemoved(p: string, i: nat, q: string)
    requires i < |TurnTags|
    ensures DropTags(p + TurnTags[i] + q) == DropTags(p) + DropTags(q)
  {
    var t := TurnTags[i];
    assert p + t + q == p + (t + q);
    DropTagsSplit(p, t + q);
    TagAtFront(i, q);
    assert (t + q)[|t|..] == q;
  }

  /** A text that starts with a turn tag starts with no other one. */
  lemma TagAtFront(i: nat, q: string)
    requires i < |TurnTags|
    ensures TagLength(TurnTags[i] + q) == |TurnTags[i]|
  {
    var s := TurnTags[i] + q;
    assert s[..|TurnTags[i]|] == TurnTags[i];
    assert s[0] == '<';
    if i == 1 || i == 3 {
      assert s[1] == '/';
      assert TurnTags[0][1] == 's' && TurnTags[2][1] == 'e';
    } else {
      assert s[1] == TurnTags[i][1] && TurnTags[1][1] == '/' && TurnTags[3][1] == '/';
    }
    if i == 2 {
      assert s[1] == 'e' && TurnTags[0][1] == 's';
    }
    if i == 3 {
      assert s[2] == 'e' && TurnTags[1][2] == 's';
    }
  }

  lemma IndexOfAppend(a: string, b: string, c: char)
    requires c !in a
    ensures IndexOf(a + b, c) == |a| + IndexOf(b, c)
  {
    if a != [] {
      assert (a + b)[1..] == a[1..] + b;
      IndexOfAppend(a[1..], b, c);
    } else {
      assert a + b == b;
    }
  }

  /** A `<|...|>` token at the front of the text is removed. */
  lemma SpecialRemoved(m: string, q: string)
    requires '>' !in m
    ensures DropSpecial("<|" + m + "|>" + q) == DropSpecial(q)
  {
    var s := "<|" + m + "|>" + q;
    assert s[2..] == m + ("|>" + q);
    IndexOfAppend(m, "|>" + q, '>');
    assert IndexOf("|>" + q, '>') == 1;
    assert s[|m| + 2] == '|';
    assert SpecialLength(s) == |m| + 4;
    assert s[|m| + 4..] == q;
  }

  /** Without a `<` neither substitution changes anything. */
  lemma {:induction false} NoAngleUnchanged(s: string)
    requires '<' !in s
    ensures DropTags(s) == s && DropSpecial(s) == s
    decreases |s|
  {
    if s != [] {
      NoAngleFront(s);
      NoAngleUnchanged(s[1..]);
      Seqs.HeadTail(s);
    }
  }

  /** A text without `<` starts with no tag and no special token, and its
      tail has no `<` either. */
  lemma NoAngleFront(s: string)
    requires s != [] && '<' !in s
    ensures TagLength(s) == 0 && SpecialLength(s) == 0 && '<' !in s[1..]
  {
    TagShape();
    assert s[0] != '<';
    forall c | c in s[1..] ensures c != '<' { assert c in s; }
  }

  /** The substitutions only delete characters. */
  lemma {:induction false} DropsOnly(s: string)
    ensures forall c | c in DropTags(s) :: c in s
    ensures forall c | c in DropSpecial(s) :: c in s
    decreases |s|
  {
    if s != [] {
      DropsOnly(s[1..]);
      if TagLength(s) > 0 {
        DropsOnly(s[TagLength(s)..]);
      }
      if SpecialLength(s) > 0 {
        DropsOnly(s[SpecialLength(s)..]);
      }
    }
  }

  /** The spoken text has no NUL, no surrounding whitespace and no
      character that was not in the reply; a reply without `<` and NUL is
      spoken as its stripped self. */
  lemma SanitizeFacts(s: string)
    ensures '\0' !in Sanitize(s)
    ensures forall c | c in Sanitize(s) :: c in s
    ensures Strip(Sanitize(s)) == Sanitize(s)
    ensures '<' !in s && '\0' !in s ==> Sanitize(s) == Strip(s)
  {
    var a := DropTags(s);
    var b := DropSpecial(a);
    var c := DropNul(b);
    StripChars(c);
    DropsOnly(s);
    DropsOnly(a);
    StripIdempotent(c);
    if '<' !in s {
      NoAngleUnchanged(s);
    }
  }

  // ---------------------------------------------------------------
  // Transcripts
  // ---------------------------------------------------------------

  /** `_process_transcript(text)`, the model's reply being `reply` (`None`
      when the query raised or returned nothing) and the clock reading
      `after` once the reply was spoken. */
  function Converse(st: Stage, text: string, reply: Option<string>, after: int): Stage {
    var clean := Strip(text);
    if text == "" || clean == "" || IsPlaceholder(clean) then st
    else Respond(st.(chat := st.chat + [Message(User, clean)]), reply, after)
  }

  /** The part after the user turn: a reply that is not empty once
      stripped is stored, spoken sanitised, and opens the quiet window. */
  function Respond(st: Stage, reply: Option<string>, after: int): Stage {
    if reply.None? || Strip(reply.value) == "" then st
    else Answered(st, Strip(reply.value), Sanitize(Strip(reply.value)), after)
  }

  /** The stage once `answer` is stored and `spoken` is said. */
  function Answered(st: Stage, answer: string, spoken: string, after: int): Stage {
    st.(chat := st.chat + [Message(Assistant, answer)], lastReply := Some(answer),
        spoken := st.spoken + [Speech(spoken, st.speechRate)],
        quietUntil := after + QuietAfterReplyMs)
  }

  /** An empty, blank or placeholder transcript changes nothing; any other
      appends the stripped user turn, then the stripped reply if it is not
      empty; the reply is stored unsanitised, spoken sanitised, and opens
      the quiet window; the sequences and the conversation are untouched. */
  lemma ConverseFacts(st: Stage, text: string, reply: Option<string>, after: int)
    ensures var n := Converse(st, text, reply, after);
      var clean := Strip(text);
      var answered := reply.Some? && Strip(reply.value) != "";
      && (n == st <==> clean == "" || IsPlaceholder(clean))
      && (clean != "" && !IsPlaceholder(clean) ==>
            && n.chat[..|st.chat| + 1] == st.chat + [Message(User, clean)]
            && (|n.chat| == |st.chat| + 2 <==> answered)
            && (!answered ==> |n.chat| == |st.chat| + 1 && n.spoken == st.spoken && n.quietUntil == st.quietUntil)
            && (answered ==>
                  && n.chat[|st.chat| + 1] == Message(Assistant, Strip(reply.value))
                  && n.lastReply == Some(Strip(reply.value))
                  && n.spoken == st.spoken + [Speech(Sanitize(Strip(reply.value)), st.speechRate)]
                  && n.quietUntil == after + QuietAfterReplyMs))
      && n.running == st.running && n.conversation == st.conversation && n.calls == st.calls
  {
    var n := Converse(st, text, reply, after);
    var clean := Strip(text);
    if clean != "" && !IsPlaceholder(clean) {
      assert text != "";
      assert |n.chat| > |st.chat|;
    }
  }

  /** A reply without tags, special tokens or NULs is spoken exactly as it
      is stored in the history. */
  lemma PlainReplySpokenAsStored(st: Stage, text: string, answer: string, after: int)
    requires Strip(text) != "" && !IsPlaceholder(Strip(text))
    requires Strip(answer) != "" && '<' !in answer && '\0' !in answer
    ensures var n := Converse(st, text, Some(answer), after);
      n.spoken[|st.spoken|].text == n.chat[|st.chat| + 1].content
  {
    var r := Strip(answer);
    StripChars(answer);
    SanitizeFacts(r);
    StripIdempotent(answer);
  }

  class EngagementController {
    const hw: HWState
    const idleThreshold: int
    const engagedThreshold: int
    const startable: Flags
    const systemPrompt: string
    const personality: Object
    const leds: seq<string>
    const tuning: Segmenter.Tuning
    const listener: Segmenter.Listener

    var lastPresence: int
    var idleRunning: bool
    var approachingRunning: bool
    var engagedRunning: bool
    var leavingRunning: bool
    var conversation: Worker
    var stopEvent: bool
    var chat: seq<Message>
    var spoken: seq<Speech>
    var calls: seq<Call>
    var lastReply: Option<string>
    var quietUntil: int
    var speechRate: int

    function Model(): Stage
      reads this
    {
      Stage(Flags(idleRunning, approachingRunning, engagedRunning, leavingRunning), conversation, stopEvent,
            chat, spoken, calls, lastReply, quietUntil, speechRate)
    }

    function Config(): Setup {
      Setup(startable, systemPrompt, personality, leds)
    }

    /** The hardware state holds a label, the segmenter its invariant, and
        only a sequence whose start takes effect can be running. */
    ghost predicate Valid()
      reads this, hw, listener
    {
      && hw.Valid() && listener.Valid()
      && Within(Model().running, startable)
      && tuning.minUtteranceMs == MinUtteranceMs && tuning.dropDuringTts
    }

    /** `__init__`: `loaded` is what loading the personality gave.  On
        failure, or when the loaded value is not an object (reading its
        prompt with `.get` then raises AttributeError, caught by the same
        handler), the personality is empty and so is the prompt. */
    constructor(hw: HWState, startable: Flags, leds: seq<string>, loaded: Result<Document, LoadError>,
                idleThreshold: int, engagedThreshold: int, sampleRate: nat, rmsGate: real)
      requires hw.Valid()
      ensures Valid() && fresh(listener) && this.hw == hw
      ensures this.idleThreshold == idleThreshold && this.engagedThreshold == engagedThreshold
      ensures this.startable == startable && this.leds == leds
      ensures personality == (if loaded.Ok? && loaded.value.DObject? then loaded.value.obj else map[])
      ensures systemPrompt == PromptOf(personality)
      ensures tuning == Segmenter.Tuning(sampleRate, rmsGate, MinUtteranceMs, true)
      ensures lastPresence == 0 && listener.Model() == Segmenter.Initial
      ensures Model() == Stage(Flags(false, false, false, false), NoThread, false, FreshChat(Config()),
                               [], [], None, 0, DefaultRate)
    {
      this.hw := hw;
      this.idleThreshold := idleThreshold;
      this.engagedThreshold := engagedThreshold;
      this.startable := startable;
      this.leds := leds;
      var cfg: Object := if loaded.Ok? && loaded.value.DObject? then loaded.value.obj else map[];
      personality := cfg;
      systemPrompt := PromptOf(cfg);
      tuning := Segmenter.Tuning(sampleRate, rmsGate, MinUtteranceMs, true);
      listener := new Segmenter.Listener();
      lastPresence := 0;
      idleRunning := false;
      approachingRunning := false;
      engagedRunning := false;
      leavingRunning := false;
      conversation := NoThread;
      stopEvent := false;
      lastReply := None;
      quietUntil := 0;
      speechRate := DefaultRate;
      spoken := [];
      calls := [];
      chat := FreshChat(Setup(startable, PromptOf(cfg), cfg, leds));
    }

    /** `_reset_chat_history`. */
    method ResetChatHistory()
      modifies this`chat
      ensures chat == FreshChat(Config())
    {
      chat := [];
      var prompt := systemPrompt;
      if prompt == "" {
        prompt := PromptOf(personality);
      }
      if prompt != "" {
        chat := chat + [Message(System, prompt)];
      }
    }

    /** `_speak`: the text goes to the speaker (its errors are swallowed). */
    method Speak(text: string, rate: int)
      modifies this`spoken
      ensures Model() == old(Model()).(spoken := old(spoken) + [Speech(text, rate)])
    {
      spoken := spoken + [Speech(text, rate)];
    }

    /** `_start_conversation`. */
    method StartConversation()
      modifies this`conversation, this`stopEvent
      ensures (conversation, stopEvent) == StartConv(old(conversation), old(stopEvent))
      ensures Model() == old(Model()).(conversation := conversation, stopEvent := stopEvent)
    {
      if conversation == Alive {
        return;
      }
      stopEvent := false;
      conversation := Alive;
    }

    /** `_stop_conversation`. */
    method StopConversation()
      modifies this`conversation, this`stopEvent
      ensures (conversation, stopEvent) == StopConv(old(conversation), old(stopEvent))
      ensures Model() == old(Model()).(conversation := conversation, stopEvent := stopEvent)
    {
      if conversation == NoThread {
        return;
      }
      stopEvent := true;
      conversation := NoThread;
    }

    /** The conversation thread returning by itself (its audio stream
        failed or the stop event was seen). */
    method ConversationEnded()
      modifies this`conversation
      ensures conversation == (if old(conversation) == Alive then Ended else old(conversation))
    {
      if conversation == Alive {
        conversation := Ended;
      }
    }

    /** The start of `_conversation_loop`: the system prompt is put first
        when the history does not start with one, and the speech rate is
        read from the personality (80 when absent or not a number). */
    method ConversationPrologue()
      modifies this`chat, this`speechRate
      ensures var prompt := PromptOf(personality);
        chat == (if (old(chat) == [] || old(chat)[0].role != System) && prompt != ""
                 then [Message(System, prompt)] + old(chat) else old(chat))
      ensures var rate := IntSetting(personality, "speed", DefaultRate);
        speechRate == (if rate.Some? then rate.value else DefaultRate)
    {
      if chat == [] || chat[0].role != System {
        var prompt := PromptOf(personality);
        if prompt != "" {
          chat := [Message(System, prompt)] + chat;
        }
      }
      var rate := IntSetting(personality, "speed", DefaultRate);
      if rate.Some? {
        speechRate := rate.value;
      } else {
        speechRate := DefaultRate;
      }
    }

    /** `_apply_led_behavior_for(state, previous)`, with the random
        farewell and greeting lines chosen by index. */
    method ApplyBehaviour(state: string, previous: Option<string>, farewell: nat, greeting: nat)
      requires Valid() && farewell < |Farewells| && greeting < |Greetings|
      modifies this
      ensures Valid() && lastPresence == old(lastPresence)
      ensures Model() == Direct(old(Model()), Config(), state, previous, farewell, greeting)
    {
      if state == Idle {
        EnterIdle(previous, farewell);
      } else if state == Approaching {
        EnterApproaching();
      } else if state == Engaged {
        EnterEngaged(greeting);
      } else if state == Leaving {
        EnterLeaving();
      } else {
        EnterUnknown();
      }
    }

    /** Stops every running sequence but the one of `state`. */
    method StopOthers(state: string)
      modifies this`idleRunning, this`approachingRunning, this`engagedRunning, this`leavingRunning
      ensures Model().running == Only(old(Model().running), state)
    {
      if state != Idle && idleRunning { idleRunning := false; }
      if state != Approaching && approachingRunning { approachingRunning := false; }
      if state != Engaged && engagedRunning { engagedRunning := false; }
      if state != Leaving && leavingRunning { leavingRunning := false; }
    }

    /** Starts the sequence of `state` unless it is running; the start
        takes effect only when it can, and starting the approaching or
        engaged sequence first fades every LED off over 500 ms. */
    method StartOwn(state: string)
      requires IsLabel(state)
      modifies this`idleRunning, this`approachingRunning, this`engagedRunning, this`leavingRunning, this`calls
      ensures var f := old(Model().running);
        Model() == old(Model()).(
          running := Flags(
            if state == Idle then f.idle || startable.idle else f.idle,
            if state == Approaching then f.approaching || startable.approaching else f.approaching,
            if state == Engaged then f.engaged || startable.engaged else f.engaged,
            if state == Leaving then f.leaving || startable.leaving else f.leaving),
          calls := old(calls) + StartCalls(f, startable, leds, state))
    {
      if state == Idle && !idleRunning && startable.idle { idleRunning := true; }
      if state == Approaching && !approachingRunning && startable.approaching {
        FadeAllOff(StartFadeMs);
        approachingRunning := true;
      }
      if state == Engaged && !engagedRunning && startable.engaged {
        FadeAllOff(StartFadeMs);
        engagedRunning := true;
      }
      if state == Leaving && !leavingRunning && startable.leaving { leavingRunning := true; }
    }

    method EnterIdle(previous: Option<string>, farewell: nat)
      requires farewell < |Farewells|
      modifies this`spoken, this`chat, this`idleRunning, this`approachingRunning, this`engagedRunning,
               this`leavingRunning, this`conversation, this`stopEvent, this`calls
      ensures Model() == ToIdle(old(Model()), Config(), previous, farewell)
    {
      ghost var said := Farewell(previous, farewell);
      if previous == Some(Engaged) || previous == Some(Leaving) {
        Speak(Farewells[farewell], DefaultRate);
      }
      assert spoken == old(spoken) + said;
      ResetChatHistory();
      StopOthers(Idle);
      StopConversation();
      StartOwn(Idle);
    }

    method EnterApproaching()
      modifies this`idleRunning, this`approachingRunning, this`engagedRunning, this`leavingRunning,
               this`conversation, this`stopEvent, this`calls
      ensures Model() == ToApproaching(old(Model()), Config())
    {
      StopOthers(Approaching);
      StopConversation();
      StartOwn(Approaching);
    }

    method EnterEngaged(greeting: nat)
      requires greeting < |Greetings|
      modifies this`spoken, this`idleRunning, this`approachingRunning, this`engagedRunning,
               this`leavingRunning, this`conversation, this`stopEvent, this`calls
      ensures Model() == ToEngaged(old(Model()), Config(), greeting)
    {
      Speak(Greetings[greeting], DefaultRate);
      StopOthers(Engaged);
      StartConversation();
      StartOwn(Engaged);
    }

    method EnterLeaving()
      modifies this`idleRunning, this`approachingRunning, this`engagedRunning, this`leavingRunning,
               this`conversation, this`stopEvent, this`calls
      ensures Model() == ToLeaving(old(Model()), Config())
    {
      StopOthers(Leaving);
      StopConversation();
      StartOwn(Leaving);
    }

    method EnterUnknown()
      modifies this`idleRunning, this`approachingRunning, this`engagedRunning, this`leavingRunning,
               this`conversation, this`stopEvent, this`calls
      ensures Model() == ToUnknown(old(Model()), Config())
    {
      StopAll();
      FadeAllOff(2000);
    }

    /** The first part of the fallback branch: every running sequence is
        stopped, and the conversation too when one was. */
    method StopAll()
      modifies this`idleRunning, this`approachingRunning, this`engagedRunning, this`leavingRunning,
               this`conversation, this`stopEvent
      ensures Model() == old(Model()).(running := Switched(old(Model()).running, startable, ""),
                                      conversation := ToUnknown(old(Model()), Config()).conversation,
                                      stopEvent := ToUnknown(old(Model()), Config()).stopEvent)
    {
      var stoppedAny := false;
      if idleRunning { idleRunning := false; stoppedAny := true; }
      if approachingRunning { approachingRunning := false; stoppedAny := true; }
      if engagedRunning { engagedRunning := false; stoppedAny := true; }
      if leavingRunning { leavingRunning := false; stoppedAny := true; }
      if stoppedAny {
        StopConversation();
      }
    }

    /** Every LED is faded off over `durationMs`, in order: over durationMs ms
        in the fallback branch, over 500 ms when a sequence starts. */
    method FadeAllOff(durationMs: int)
      modifies this`calls
      ensures Model() == old(Model()).(calls := old(calls) + TurnOff(leds, durationMs))
    {
      var offs: seq<Call> := [];
      var i := 0;
      while i < |leds|
        invariant 0 <= i <= |leds|
        invariant offs == TurnOff(leds[..i], durationMs)
        invariant calls == old(calls)
      {
        Seqs.TakeTake(leds, i, i + 1);
        offs := offs + [SetLed(leds[i], 0, durationMs)];
        i := i + 1;
      }
      Seqs.TakeAll(leds, i);
      calls := calls + offs;
    }

    /** One pass of the `while` loop of `_loop` at clock reading `now`:
        without a radar reader nothing happens; otherwise a reading within
        the idle threshold records presence, the next state is determined,
        and only a change of state is committed and handed to the director. */
    method Tick(now: int, farewell: nat, greeting: nat)
      requires Valid() && farewell < |Farewells| && greeting < |Greetings|
      modifies this, hw`state
      ensures Valid()
      ensures old(hw.radarReader) == null ==>
        lastPresence == old(lastPresence) && hw.state == old(hw.state) && Model() == old(Model())
      ensures old(hw.radarReader) != null ==>
        var reading := old(hw.radarReader.GetDistanceMm());
        var next := DetermineState(reading, old(hw.state), now, lastPresence, idleThreshold, engagedThreshold);
        && lastPresence == (if Present(reading, idleThreshold) then now else old(lastPresence))
        && hw.state == next
        && Model() == (if next == old(hw.state) then old(Model())
                       else Direct(old(Model()), Config(), next, Some(old(hw.state)), farewell, greeting))
    {
      var radar := hw.radarReader;
      if radar == null {
        return;
      }
      var distance := radar.GetDistanceMm();
      if distance.Some? && distance.value > 0 && distance.value <= idleThreshold {
        lastPresence := now;
      }
      var prevState := hw.GetState();
      var newState := DetermineState(distance, prevState, now, lastPresence, idleThreshold, engagedThreshold);
      if newState != prevState {
        hw.SetState(newState);
        ApplyBehaviour(newState, Some(prevState), farewell, greeting);
      }
    }

    /** `_process_transcript(text)`. */
    method ProcessTranscript(text: string, reply: Option<string>, after: int)
      modifies this`chat, this`lastReply, this`spoken, this`quietUntil
      ensures Model() == Converse(old(Model()), text, reply, after)
    {
      if text == "" {
        return;
      }
      var cleanText := Strip(text);
      if cleanText == "" {
        return;
      }
      var marker := Lower(cleanText);
      if marker in Markers {
        return;
      }
      chat := chat + [Message(User, cleanText)];
      HandleReply(reply, after);
    }

    /** The rest of `_process_transcript` once the user turn is stored. */
    method HandleReply(reply: Option<string>, after: int)
      modifies this`chat, this`lastReply, this`spoken, this`quietUntil
      ensures Model() == Respond(old(Model()), reply, after)
    {
      if reply.None? {
        return;
      }
      var replyText := Strip(reply.value);
      if replyText == "" {
        return;
      }
      ghost var st := Model();
      chat := chat + [Message(Assistant, replyText)];
      lastReply := Some(replyText);
      var cleanedReply := Sanitize(replyText);
      Speak(cleanedReply, speechRate);
      quietUntil := after + QuietAfterReplyMs;
      assert Model() == Answered(st, replyText, cleanedReply, after);
    }

    /** `_audio_callback` for one chunk; `transcript` is what transcription
        returns for the utterance the chunk completes, if it completes one. */
    method AudioCallback(f: Segmenter.Frame, transcript: string, reply: Option<string>, after: int)
      requires Valid()
      modifies listener, this`chat, this`lastReply, this`spoken, this`quietUntil
      ensures Valid()
      ensures var o := Segmenter.Step(tuning, old(listener.Model()), old(quietUntil), f);
        && listener.Model() == o.next
        && Model() == (if o.heard.Some? then Converse(old(Model()), transcript, reply, after) else old(Model()))
    {
      var heard := listener.Feed(tuning, quietUntil, f);
      if heard.Some? {
        ProcessTranscript(transcript, reply, after);
      }
    }
  }
}
