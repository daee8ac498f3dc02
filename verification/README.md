# lightwall, modelled in Dafny

Lightwall is an interactive light-and-sound installation. A radar reports how
far a visitor is. An engagement controller turns that distance into one of
four states: IDLE, APPROACHING, ENGAGED and LEAVING. On each change of state a
behaviour director starts the matching LED/motor sequence, greets or bids
farewell, and starts or stops a spoken conversation. In that conversation a
voice-activity segmenter cuts microphone audio into utterances. Each
transcript goes to a language model, and the reply is spoken and kept in a
chat history. Under all of this sits a hardware layer:

- a validated global state;
- per-LED and per-motor state objects that emit exact serial commands;
- controllers that map addresses to devices and throttle motor commands;
- the approaching and engaged animation sequences;
- a host-side radar line parser;
- the radar firmware's byte-level frame parser;
- a few text utilities: a `.env` loader, personality validation, `[LIGHTS:X]` tag extraction and distance-based personality choice.

The Dafny project has one module per source file:

| Dafny module | source |
|---|---|
| `EngagementController` | src/engagement_controller.py |
| `MainScript` | src/main.py |
| `HwState` | src/hw/hw_state.py |
| `RadarReader` | src/hw/radar_reader.py |
| `RadarSensor` | firmware/libraries/RD03D/RadarSensor.cpp |
| `LedState` | src/hw/led/led_state.py |
| `LedController` | src/hw/led/led_controller.py |
| `MotorState` | src/hw/motor/motor_state.py |
| `MotorController` | src/hw/motor/motor_controller.py |
| `ApproachingSequence` | src/hw/approaching_sequence.py |
| `EngagedSequence` | src/hw/engaged_sequence.py |
| `HardwareBridge` | src/hardware_bridge.py |
| `EnvUtils` | src/util/env_utils.py and src/utils.py, whose code is identical |
| `BrainManager` | src/brain_manager.py |

Shared modules:

- `Segmenter`: the speech segmenter that src/engagement_controller.py and src/main.py both implement. The two differ in two tuning values: the minimum utterance and whether frames are dropped while text-to-speech plays.
- `Chat`: the chat-history entries and the placeholder filter.
- `Devices`: serial ports, hardware-map entries, the device-call log, clamping and `KeyError`.
- `Config`: JSON values of personality files.
- `Text`: Python `str` operations (`strip`, `split`, `lower`, `int()`, `str(int)`).
- `Wrappers`: `Option` and `Result`.

How the source maps to Dafny:

- **State that changes.** The source's stateful objects are Dafny classes whose methods update fields.
- **Pure specification.** Each class is specified by a pure function over a value snapshot (`Model()`). Lemmas then prove the source's promises about that function: transition tables, clamps, guards, exact command strings, "nothing else changes", and invariants that are kept.
- **Time** is an integer number of milliseconds passed in as a parameter.
- **Nondeterminism as parameters.** The RNG draws, the voice-activity verdict, the transcription, the language-model reply and "text-to-speech is playing" are all inputs. So are whether speaking raised and the serial replies.
- **Logs.** What a method sends to hardware or to the speaker is appended to a log field.

Where the documentation and the code disagree, the model follows the code:

- The docstring of `_determine_state` (src/engagement_controller.py:324-341) speaks of 1 m / 2 m thresholds. The code uses 1500 mm and 3000 mm (:53-54), and so does the model.
- The poll loop's `try` (src/engagement_controller.py:285) wraps the whole `while`. An exception therefore ends the loop rather than one tick. The model's `Tick` is one iteration and raises nothing.
- The segmenter updates the RMS baseline on every below-gate frame, even in the middle of speech, and the model does the same.

## Model

| member | source | states |
|---|---|---|
| EngagementController.DetermineState | src/engagement_controller.py:316-406 | the next engagement state is always one of the four labels, whatever the previous value |
| EngagementController.DetermineTable | src/engagement_controller.py:352-406 | full transition table as if-and-only-if for each of the four results: ENGAGED iff previous is a label and d ≤ engaged threshold; APPROACHING only from IDLE in the middle band or from APPROACHING in the middle band or far within the 2 s grace; LEAVING only from ENGAGED/LEAVING in the middle band or far within grace; IDLE for unknown previous values or far without grace (no grace from IDLE, none while last presence is 0) |
| EngagementController.MissingReadingIsFar | src/engagement_controller.py:352-355 | a missing reading and a reading ≤ 0 both give exactly the result of idle threshold + 1 |
| EngagementController.NoJumpToLeaving | src/engagement_controller.py:382-399 | with the default thresholds LEAVING is only reached from ENGAGED or LEAVING |
| EngagementController.EngagementController.Tick | src/engagement_controller.py:287-305 | with no radar reader nothing changes; otherwise last presence becomes now iff 0 < d ≤ idle threshold, the hardware state becomes the computed state, and the director runs (with that previous state) iff the state changed, else nothing else changes |
| EngagementController.DirectFacts | src/engagement_controller.py:421-543 | after the director handles a label: exactly that state's sequence runs (if startable) and the other three are stopped; the conversation is alive iff ENGAGED; history is reset only on IDLE; one utterance is spoken iff ENGAGED (the chosen greeting at rate 80) or IDLE after ENGAGED/LEAVING (a farewell line); starting the approaching or engaged sequence (not running, and startable) fades every LED off over 500 ms, and otherwise no LED call is made; last reply, quiet window and speech rate are unchanged |
| EngagementController.DirectUnknownState | src/engagement_controller.py:546-570 | an unknown state stops every sequence, stops the conversation if any sequence was running, and turns every LED off over 2000 ms, in address order; history and speech are untouched |
| EngagementController.DirectRepeat | src/engagement_controller.py:463-543 | handling APPROACHING, ENGAGED or LEAVING a second time changes no flag, thread, history or LED; only ENGAGED speaks its greeting again |
| EngagementController.EngagementController.ApplyBehaviour | src/engagement_controller.py:412-570 | the controller's new snapshot is exactly the director function's result on the old snapshot (so DirectFacts/DirectUnknownState apply), and the controller stays valid |
| EngagementController.EngagementController.EnterIdle | src/engagement_controller.py:422-460 | the IDLE branch: stops the other sequences and the conversation, starts the idle sequence, resets history, says a farewell only after ENGAGED/LEAVING |
| EngagementController.EngagementController.EnterApproaching | src/engagement_controller.py:463-484 | the APPROACHING branch: stops the conversation and other sequences, starts the approaching one, whose start fades every LED off over 500 ms |
| EngagementController.EngagementController.EnterEngaged | src/engagement_controller.py:487-521 | the ENGAGED branch: stops other sequences, starts the engaged one (fading every LED off over 500 ms), greets, starts the conversation |
| EngagementController.EngagementController.EnterLeaving | src/engagement_controller.py:524-543 | the LEAVING branch: stops the conversation and other sequences, starts the leaving one |
| EngagementController.EngagementController.EnterUnknown | src/engagement_controller.py:546-570 | the fallback branch: everything stopped, every LED faded off over 2000 ms |
| EngagementController.EngagementController.StopOthers | src/engagement_controller.py:442-453 | only the named state's flag keeps its value; the other three sequences are stopped |
| EngagementController.EngagementController.StartOwn | src/engagement_controller.py:455-459 | the named state's sequence becomes running when it exists; starting the approaching or engaged sequence first fades every LED off over 500 ms; the other flags and nothing else change |
| EngagementController.FreshChat | src/engagement_controller.py:196-209 | the reset history holds at most one message, a non-empty system prompt (the personality's, else the configured one), and is empty iff both prompts are empty |
| EngagementController.EngagementController.ResetChatHistory | src/engagement_controller.py:196-209 | the history becomes the fresh history above |
| EngagementController.EngagementController.constructor | src/engagement_controller.py:47-130 | thresholds, startable sequences and LED list are stored; a personality that fails to load, or whose top-level value is not an object, counts as empty; segmenter tuning is 600 ms with the text-to-speech drop; nothing runs, history is fresh, speech rate 80 |
| EngagementController.EngagementController.Speak | src/engagement_controller.py:147-160 | exactly one utterance with that text and rate is appended to the speech log |
| EngagementController.EngagementController.StartConversation | src/engagement_controller.py:598-608 | starting while a conversation thread is alive does nothing; otherwise the stop event is cleared and a thread is alive |
| EngagementController.EngagementController.StopConversation | src/engagement_controller.py:610-620 | with no thread nothing changes; otherwise the stop event is set and the thread slot is cleared |
| EngagementController.EngagementController.ConversationEnded | src/engagement_controller.py:817-849 | a running conversation loop that exits leaves an ended (not alive) thread; nothing else changes |
| EngagementController.EngagementController.ConversationPrologue | src/engagement_controller.py:821-832 | the personality's non-empty system prompt is inserted at the front iff the history is empty or does not start with a system message; the speech rate is `int(speed)` (a boolean gives 1 or 0, a float its integer part) or 80 when missing or when `int()` raises |
| EngagementController.TagLength | src/engagement_controller.py:716 | a recognised turn tag is a prefix of the text exactly as long as the result |
| EngagementController.SpecialLength | src/engagement_controller.py:717 | a special `<|…|>` token spans at least four characters inside the text |
| EngagementController.DropNul | src/engagement_controller.py:718 | the result contains no NUL, only characters of the input, and equals the input when it had none |
| EngagementController.TagShape | src/engagement_controller.py:716 | every turn tag starts with '<' and contains no other '<' |
| EngagementController.TagLengthPrefix | src/engagement_controller.py:716 | appending text that starts with '<' does not change the tag found at the front |
| EngagementController.PrefixStartsWith | src/engagement_controller.py:716 | a tag with a single leading '<' starts `p + r`, where `r` is empty or starts with '<', iff it starts `p` |
| EngagementController.DropTagsSplit | src/engagement_controller.py:716 | tag removal distributes over a split point in front of a '<' |
| EngagementController.DropTagsFront | src/engagement_controller.py:716 | one scan step over `p + r` drops the same tag or keeps the same character as over `p` |
| EngagementController.TagRemoved | src/engagement_controller.py:716 | a start_of_turn/end_of_turn tag anywhere in the text is removed and the text around it is kept |
| EngagementController.TagAtFront | src/engagement_controller.py:716 | a tag at the front is recognised with its full length |
| EngagementController.IndexOfAppend | src/engagement_controller.py:717 | searching past a prefix without the character shifts the index by the prefix length |
| EngagementController.SpecialRemoved | src/engagement_controller.py:717 | a `<|…|>` token without '>' inside is removed entirely |
| EngagementController.NoAngleUnchanged | src/engagement_controller.py:716-717 | text with no '<' passes both token filters unchanged |
| EngagementController.DropsOnly | src/engagement_controller.py:716-717 | the token filters only delete characters, never add them |
| EngagementController.SanitizeFacts | src/engagement_controller.py:714-722 | the spoken text has no NUL, only characters of the reply, is already stripped, and is just the stripped reply when the reply has no '<' or NUL |
| EngagementController.ConverseFacts | src/engagement_controller.py:622-731 | empty, whitespace-only and placeholder transcripts (any case) change nothing; otherwise the stripped user turn is appended; an assistant turn (the stripped, unsanitised reply) is appended and remembered iff the reply is non-blank; then exactly the sanitised reply is spoken at the current rate and the quiet window ends 200 ms after speaking; sequences, thread and device log are untouched |
| EngagementController.PlainReplySpokenAsStored | src/engagement_controller.py:708-727 | a reply without tags or NULs is spoken exactly as it is stored in history |
| EngagementController.EngagementController.ProcessTranscript | src/engagement_controller.py:622-731 | the snapshot becomes exactly the transcript function's result, so ConverseFacts applies |
| EngagementController.EngagementController.HandleReply | src/engagement_controller.py:660-731 | the reply half of transcript handling: a missing or blank reply changes nothing, otherwise store, remember, speak and open the quiet window |
| EngagementController.EngagementController.AudioCallback | src/engagement_controller.py:734-815 | the segmenter advances by exactly one step; the transcript is handled iff that step completed an utterance; the controller stays valid |
| Segmenter.UpdateBaseline | src/engagement_controller.py:162-169 | a non-finite sample leaves the baseline; the first finite one sets it; later ones move it by α = 0.05 of the difference, staying between the old baseline and the sample (same code at src/main.py:44-52) |
| Segmenter.Gate | src/engagement_controller.py:171-175 | the effective gate is ≥ 0.001, ≥ the static gate and ≥ 3 × baseline, and equals one of them (same code at src/main.py:55-59) |
| Segmenter.TtsDropped | src/engagement_controller.py:751-753 | while text-to-speech plays the frame is dropped before any state change |
| Segmenter.GateFacts | src/engagement_controller.py:755-776 | a frame in the quiet window or below the gate behaves exactly like a non-speech frame and updates the baseline; a frame judged by the VAD never changes the baseline |
| Segmenter.SpeechFrame | src/engagement_controller.py:781-792 | a speech frame enters speech (starting a fresh utterance if not in speech), cancels any pending end and appends the frame's samples |
| Segmenter.SilentFrame | src/engagement_controller.py:793-815 | in speech, the first silent frame only records the pending end; one at least 1000 ms later ends speech, empties the buffer and forwards it iff non-empty and not shorter than the minimum; earlier ones change nothing but the baseline |
| Segmenter.StepKeepsInv | src/engagement_controller.py:780-815 | outside speech there is no pending end and no buffered audio, and every forwarded utterance is non-empty and at least the minimum duration |
| Segmenter.RunKeepsInv | src/engagement_controller.py:734-815 | the same over any stream of frames |
| Segmenter.RunSilent | src/engagement_controller.py:793-815 | a stream without speech, starting outside speech, forwards nothing and changes only the baseline |
| Segmenter.RunSpeech | src/engagement_controller.py:781-792 | a stream of VAD-judged speech frames ends in speech, with the baseline unchanged, nothing forwarded and exactly all their samples appended |
| Segmenter.Listener.constructor | src/engagement_controller.py:93-100 | the listener starts outside speech, with no pending end, no audio and no baseline |
| Segmenter.Listener.UpdateRmsBaseline | src/main.py:44-52 | the stored baseline becomes the updated baseline |
| Segmenter.Listener.Feed | src/main.py:92-167 | the listener's new state and forwarded utterance are exactly one segmenter step, and the invariant is kept |
| MainScript.PostprocessFacts | src/main.py:61-90 | an empty or placeholder transcript, or no personality, changes nothing; otherwise the unstripped user turn is appended; a non-empty reply is spoken and opens the 200 ms quiet window even when speaking raises, and the assistant turn is appended iff the reply is non-empty and speaking did not raise |
| MainScript.BlankTranscriptKept | src/main.py:63-72 | unlike the controller, a whitespace-only transcript is stored as a user turn |
| MainScript.Globals.constructor | src/main.py:21-42 | the module globals start empty with the 500 ms minimum utterance and no text-to-speech drop |
| MainScript.Globals.Initialise | src/main.py:177-208 | the named personality (or "robot") is loaded; a failure, or a loaded value that is not an object, ends start-up with nothing changed; `--list-devices` ends it after loading; otherwise the history is exactly `[system prompt]`, even an empty one |
| MainScript.Globals.PostprocessTranscript | src/main.py:61-90 | the globals become exactly the transcript function's result, so PostprocessFacts applies |
| MainScript.Globals.AudioCallback | src/main.py:92-167 | one segmenter step; the transcript is handled iff that step completed an utterance |
| HwState.HWState.constructor | src/hw/hw_state.py:46-56 | no serials, no reader, an empty hardware map and state IDLE |
| HwState.HWState.SetState | src/hw/hw_state.py:216-229 | a label becomes the state; any other value leaves it unchanged |
| HwState.HWState.GetState | src/hw/hw_state.py:231-233 | returns the stored state |
| HwState.HWState.RegisterLedSerial | src/hw/hw_state.py:178-181 | adds or replaces only the named LED serial |
| HwState.HWState.RegisterMotorSerial | src/hw/hw_state.py:183-186 | adds or replaces only the named motor serial |
| HwState.HWState.RegisterRadarSerial | src/hw/hw_state.py:188-191 | replaces the single radar slot |
| HwState.HWState.FindHwEntryByName | src/hw/hw_state.py:235-240 | None iff no entry has that board name, else the first entry that has it |
| HwState.HWState.StartMonitoringRadar | src/hw/hw_state.py:193-206 | no-op without a radar serial; an existing reader is started again, not replaced; otherwise a fresh running reader is created |
| HwState.HWState.StopMonitoringRadar | src/hw/hw_state.py:208-214 | no-op without a reader; otherwise the reader is stopped and keeps its latest reading |
| RadarReader.AsciiDecode | src/hw/radar_reader.py:124 | `decode("ascii", errors="ignore")` keeps only ASCII characters and never lengthens the input |
| RadarReader.AsciiRoundTrip | src/hw/radar_reader.py:124 | ASCII text encoded and decoded comes back unchanged |
| RadarReader.ParseAll | src/hw/radar_reader.py:136-141 | every token parses as an integer, in order, or some token does not and the list is rejected |
| RadarReader.ParseLine | src/hw/radar_reader.py:124-160 | an accepted line is never the all-zero reading |
| RadarReader.NextLatest | src/hw/radar_reader.py:118-172 | one poll replaces the latest reading iff the reply is an accepted line, and otherwise keeps it |
| RadarReader.NeverCleared | src/hw/radar_reader.py:159-160 | once a reading is stored, no sequence of replies clears it |
| RadarReader.NoneAccepted | src/hw/radar_reader.py:126-156 | empty lines, wrong token counts, non-integers and all-zero lines leave the latest reading unchanged |
| RadarReader.LastAcceptedWins | src/hw/radar_reader.py:157-160 | after a stream of replies the latest reading is the last accepted one |
| RadarReader.Texts | src/hw/radar_reader.py:143-144 | each number is written in decimal |
| RadarReader.ParseTexts | src/hw/radar_reader.py:137 | decimal numerals parse back to the same integers |
| RadarReader.ParseFormatted | src/hw/radar_reader.py:25-31 | a firmware line "ts x y dist angle speed\r\n" is read back as exactly that reading, fields in order, or rejected iff all six are zero |
| RadarReader.Values | src/hw/radar_reader.py:144 | a reading has exactly six fields |
| RadarReader.Fields | src/hw/radar_reader.py:144 | the six fields as text |
| RadarReader.Reader.constructor | src/hw/radar_reader.py:57-63 | no reading, no stop request, no thread |
| RadarReader.Reader.Start | src/hw/radar_reader.py:74-86 | no-op without a serial or while the thread is alive; otherwise clears the stop request and runs |
| RadarReader.Reader.Stop | src/hw/radar_reader.py:88-96 | no-op when never started; otherwise sets the stop request and drops the thread |
| RadarReader.Reader.GetDistanceMm | src/hw/radar_reader.py:107-112 | None iff no reading is stored, else the stored distance |
| RadarReader.Reader.PollOnce | src/hw/radar_reader.py:122-170 | one loop iteration stores exactly what NextLatest says |
| RadarReader.Reader.PollLoop | src/hw/radar_reader.py:118-175 | the loop over a sequence of serial replies ends with the latest reading LatestAfter gives |
| RadarSensor.LE16 | firmware/libraries/RD03D/RadarSensor.cpp:64-67 | a little-endian 16-bit field is below 65536 |
| RadarSensor.LE16Bytes | firmware/libraries/RD03D/RadarSensor.cpp:64-67 | low byte is the value mod 256, high byte the quotient |
| RadarSensor.LE16RoundTrip | firmware/libraries/RD03D/RadarSensor.cpp:64-67 | splitting a field into bytes gives back the two bytes |
| RadarSensor.Bytes16 | firmware/libraries/RD03D/RadarSensor.cpp:64-67 | two bytes whose little-endian value is the field |
| RadarSensor.ToInt16 | firmware/libraries/RD03D/RadarSensor.cpp:64-66 | the `int16_t` conversion lies in [−32768, 32767] and agrees with the raw value modulo 2^16 |
| RadarSensor.SignMagnitude | firmware/libraries/RD03D/RadarSensor.cpp:72-74 | the decoded value lies in [−32767, 32767] |
| RadarSensor.SignMagnitudeBits | firmware/libraries/RD03D/RadarSensor.cpp:72-74 | bit 15 set gives +(low 15 bits), clear gives −(low 15 bits) |
| RadarSensor.EncodeSignMagnitude | firmware/libraries/RD03D/RadarSensor.cpp:72-74 | the sensor's encoding of a value fits 16 bits |
| RadarSensor.SignMagnitudeRoundTrip | firmware/libraries/RD03D/RadarSensor.cpp:72-74 | decoding the encoding of any value in range gives it back |
| RadarSensor.SignMagnitudeInjective | firmware/libraries/RD03D/RadarSensor.cpp:72-74 | distinct raw fields decode differently except for the two zeros 0x0000 and 0x8000 |
| RadarSensor.DecodeTargetFacts | firmware/libraries/RD03D/RadarSensor.cpp:59-89 | detected iff some of the eight field bytes is non-zero; coordinates and speed in range; polar part zero when not detected |
| RadarSensor.ZeroField | firmware/libraries/RD03D/RadarSensor.cpp:69 | a raw field is zero iff both bytes are |
| RadarSensor.UndetectedIsZero | firmware/libraries/RD03D/RadarSensor.cpp:69-86 | an undetected target is all zero |
| RadarSensor.DecodeEncoded | firmware/libraries/RD03D/RadarSensor.cpp:64-74 | a frame built from encoded x, y and speed decodes to them |
| RadarSensor.StepByte | firmware/libraries/RD03D/RadarSensor.cpp:22-54 | one byte keeps the parser well-formed (buffer index ≤ 26, so the 30-byte buffer never overflows) and completes at most one 24-byte frame |
| RadarSensor.Feed | firmware/libraries/RD03D/RadarSensor.cpp:19-55 | the parser stays well-formed over any input, and every completed frame has 24 bytes |
| RadarSensor.FeedConcat | firmware/libraries/RD03D/RadarSensor.cpp:13-15 | the parser state persists between calls: feeding a + b equals feeding a then b, with the frames concatenated |
| RadarSensor.FeedSnoc | firmware/libraries/RD03D/RadarSensor.cpp:19-55 | feeding one more byte is one more step |
| RadarSensor.HeaderStartsFrame | firmware/libraries/RD03D/RadarSensor.cpp:23-42 | AA FF 03 00 enters frame reception with an empty buffer |
| RadarSensor.NoResync | firmware/libraries/RD03D/RadarSensor.cpp:27-30 | AA AA FF 03 00 does not synchronise, because the mismatching byte is not examined again |
| RadarSensor.Collect | firmware/libraries/RD03D/RadarSensor.cpp:44-46 | fewer than 26 bytes in a frame are just buffered |
| RadarSensor.WholeFrame | firmware/libraries/RD03D/RadarSensor.cpp:44-53 | header, 24 data bytes and 2 tail bytes return the parser to the start, and yield the data iff the tail is 55 CC |
| RadarSensor.TailStep | firmware/libraries/RD03D/RadarSensor.cpp:46-52 | the 26th byte ends the frame whatever the tail, and yields the data iff the tail is 55 CC |
| RadarSensor.FrameParser.constructor | firmware/libraries/RD03D/RadarSensor.cpp:13-15 | the statics' one-time initialisation: waiting for AA with an empty buffer |
| RadarSensor.FrameParser.Model | firmware/libraries/RD03D/RadarSensor.cpp:13-15 | the static state, buffer and index form a well-formed parser |
| RadarSensor.Sensor.constructor | firmware/libraries/RD03D/RadarSensor.cpp:3-5 | the new sensor uses the shared parser and leaves its state as it is; the target is whatever it held |
| RadarSensor.SharedParser | firmware/libraries/RD03D/RadarSensor.cpp:3-15 | a second sensor made after the first read a frame header is already inside that frame |
| RadarSensor.Sensor.ParseData | firmware/libraries/RD03D/RadarSensor.cpp:59-89 | returns true iff the length is 24, and only then overwrites the target with the decoded frame |
| RadarSensor.Sensor.Step | firmware/libraries/RD03D/RadarSensor.cpp:22-54 | one switch iteration is exactly one parser step; the target and the updated flag change iff a valid frame completed |
| RadarSensor.Sensor.Receive | firmware/libraries/RD03D/RadarSensor.cpp:44-53 | the RECEIVE_FRAME case is exactly one parser step |
| RadarSensor.Sensor.Update | firmware/libraries/RD03D/RadarSensor.cpp:12-57 | the parser advances over all available bytes; the result is true iff at least one valid frame completed, and the target is the last one decoded |
| LedState.Settled | src/hw/led/led_state.py:46 | a settled LED is on iff its brightness is positive, and never fading |
| LedState.SetCommandParses | src/hw/led/led_state.py:71-75 | the SET command is ASCII and reads back as "SET", index, value and duration |
| LedState.InitialState | src/hw/led/led_state.py:20-30 | a new LED is off with brightness, previous brightness and duration 0, and has sent exactly one `SET index 0 0` if it has a serial |
| LedState.SetFacts | src/hw/led/led_state.py:32-60 | brightness clamped to [0, 255], duration to ≥ 0, previous brightness kept; duration 0 settles at once with end = start, otherwise fading with end = start + duration and one pending completion; exactly one SET with the clamped values is written when there is a serial |
| LedState.SetKeepsInv | src/hw/led/led_state.py:32-60 | brightness stays in [0, 255] and a fading LED always has a pending completion |
| LedState.FinishKeepsInv | src/hw/led/led_state.py:57-58 | completion settles the status by brightness and writes nothing |
| LedState.NoSerialNoWrites | src/hw/led/led_state.py:68-69 | nothing is written without a serial |
| LedState.SetTwice | src/hw/led/led_state.py:38-48 | setting the same brightness instantly twice keeps status and brightness and records it as the previous brightness |
| LedState.StaleTimerOverwrites | src/hw/led/led_state.py:50-60 | a first fade's uncancelled completion settles the LED at a second fade's target while that fade is still pending |
| LedState.LEDState.constructor | src/hw/led/led_state.py:20-30 | the object's state is the initial LED above |
| LedState.LEDState.SetBrightness | src/hw/led/led_state.py:32-60 | the object's state becomes exactly the set function's result (SetFacts) and stays valid |
| LedState.LEDState.FinishFade | src/hw/led/led_state.py:57-58 | the timer completion settles the status |
| LedState.LEDState.Send | src/hw/led/led_state.py:62-78 | appends the SET command for the current values when there is a serial |
| LedController.AddPairsKeys | src/hw/led/led_controller.py:45-47 | an address is mapped iff it was or some pair names it; other addresses keep their LED |
| LedController.AddPairsLastWins | src/hw/led/led_controller.py:45-47 | the last pair for an address decides its index and serial |
| LedController.LightMapKeys | src/hw/led/led_controller.py:31-47 | an address is mapped iff some light entry whose board has a serial maps it |
| LedController.LEDController.constructor | src/hw/led/led_controller.py:17-50 | the LEDs are exactly the light map of the hardware map, each freshly created |
| LedController.LEDController.AddLights | src/hw/led/led_controller.py:43-48 | one board's pairs are added as new LEDs |
| LedController.LEDController.AddLight | src/hw/led/led_controller.py:45-46 | the address gets a new LED, in its initial state, replacing any earlier one; other LEDs are untouched |
| LedController.LEDController.SetBrightness | src/hw/led/led_controller.py:52-59 | an unknown address gives KeyError and changes no LED; a known one updates only that LED, by the LED set function |
| MotorState.RotWord | src/hw/motor/motor_state.py:128 | "ROT" is a single word |
| MotorState.StpWord | src/hw/motor/motor_state.py:140 | "STP" is a single word |
| MotorState.RotCommandParses | src/hw/motor/motor_state.py:127-129 | the ROT command is ASCII and reads back as "ROT", direction and rpm |
| MotorState.StepCommandParses | src/hw/motor/motor_state.py:138-141 | the STP command is ASCII and reads back as "STP", direction, position and duration |
| MotorState.InitialState | src/hw/motor/motor_state.py:34-52 | a new motor is stopped, with no direction, zero rpm, position and duration, and has written nothing |
| MotorState.RotateFacts | src/hw/motor/motor_state.py:55-72 | rpm clamped to [1, 100], status rotating, position and duration 0, no end time; one ROT written when there is a serial |
| MotorState.MoveToFacts | src/hw/motor/motor_state.py:83-116 | duration clamped to ≥ 0, rpm 0, end = start + duration; duration 0 is stopped at once, otherwise stepping with one pending completion; one STP written when there is a serial |
| MotorState.StopFacts | src/hw/motor/motor_state.py:74-81 | status stopped with end = start, other parameters kept, `STOP\r\n` written when there is a serial |
| MotorState.OperationsKeepInv | src/hw/motor/motor_state.py:55-116 | rotate, move, stop and completion keep rpm and timer bookkeeping consistent |
| MotorState.StaleTimerOverwrites | src/hw/motor/motor_state.py:105-113 | a timed move's uncancelled completion marks a motor that has since been told to rotate as stopped |
| MotorState.MotorState.constructor | src/hw/motor/motor_state.py:34-52 | the object's state is the initial motor |
| MotorState.MotorState.Rotate | src/hw/motor/motor_state.py:55-72 | the object's state becomes exactly the rotate function's result (RotateFacts) |
| MotorState.MotorState.Stop | src/hw/motor/motor_state.py:74-81 | the object's state becomes exactly the stop function's result (StopFacts) |
| MotorState.MotorState.MoveTo | src/hw/motor/motor_state.py:83-116 | the object's state becomes exactly the move function's result (MoveToFacts) |
| MotorState.MotorState.FinishMove | src/hw/motor/motor_state.py:109-113 | the timer completion marks the motor stopped |
| MotorState.MotorState.SendRot | src/hw/motor/motor_state.py:120-129 | appends the ROT command only with a serial and a direction |
| MotorState.MotorState.SendStep | src/hw/motor/motor_state.py:131-141 | appends the STP command only with a serial and a direction |
| MotorState.MotorState.SendStop | src/hw/motor/motor_state.py:143-149 | appends STOP only with a serial |
| MotorState.MotorState.WriteCommand | src/hw/motor/motor_state.py:151-157 | an ASCII command is written; one that cannot be encoded is dropped |
| MotorController.MotorMapLastWins | src/hw/motor/motor_controller.py:26-37 | an address is mapped iff some motor entry whose board has a serial names it, and the last such entry decides its serial |
| MotorController.Pause | src/hw/motor/motor_controller.py:44-50 | the wait lies in [0, 100] ms, brings the next command at least 100 ms after the last, and is 0 when 100 ms have passed |
| MotorController.MotorController.constructor | src/hw/motor/motor_controller.py:18-40 | the motors are exactly the motor map, each freshly created; last command time 0 |
| MotorController.MotorController.AddMotor | src/hw/motor/motor_controller.py:36-37 | the address gets a new motor, in its initial state, replacing any earlier one; other motors are untouched |
| MotorController.MotorController.Throttle | src/hw/motor/motor_controller.py:42-51 | waits exactly the pause, then records the clock; recorded command times are at least 100 ms apart and never decrease |
| MotorController.MotorController.Rotate | src/hw/motor/motor_controller.py:53-58 | unknown address: KeyError before throttling or touching a motor; known: throttles and rotates only that motor |
| MotorController.MotorController.MoveTo | src/hw/motor/motor_controller.py:60-65 | unknown address: KeyError before throttling; known: throttles and moves only that motor |
| MotorController.MotorController.Stop | src/hw/motor/motor_controller.py:67-72 | unknown address: KeyError before throttling; known: throttles and stops only that motor |
| ApproachingSequence.Path | src/hw/approaching_sequence.py:74 | the path is the top row followed by the bottom row reversed |
| ApproachingSequence.DefaultPath | src/hw/approaching_sequence.py:82-95 | the default path is B0 C0 D0 E0 B4 C4 D4 E4, and each of its LEDs has a mapped motor |
| ApproachingSequence.PassCallShapes | src/hw/approaching_sequence.py:135-211 | every call of a pass is a `move_to(motor, "CW", 100, 1000)` for the motor of a visited mapped LED when motors exist, a fade in to max over fade-in time, or a fade out to min over fade-out time of a visited LED that the controller knows |
| ApproachingSequence.PassPrefix | src/hw/approaching_sequence.py:178-211 | a pass stopped early issues a prefix of the full pass's calls |
| ApproachingSequence.ApproachingSequence.constructor | src/hw/approaching_sequence.py:19-95 | parameters stored, path built, nothing running or logged |
| ApproachingSequence.ApproachingSequence.Start | src/hw/approaching_sequence.py:97-118 | no-op when running or with an empty path; otherwise every known LED is turned off over 500 ms, then the sequence runs |
| ApproachingSequence.ApproachingSequence.Stop | src/hw/approaching_sequence.py:120-129 | no-op when not running; otherwise requests the stop and clears running |
| ApproachingSequence.ApproachingSequence.IsRunning | src/hw/approaching_sequence.py:131-133 | returns the running flag |
| ApproachingSequence.ApproachingSequence.DriveMotorFor | src/hw/approaching_sequence.py:135-162 | appends exactly the motor move for that LED, if any |
| ApproachingSequence.ApproachingSequence.RunPass | src/hw/approaching_sequence.py:178-211 | one pass over the path, stopped after the given number of LEDs, appends exactly the pass's calls |
| EngagedSequence.Path | src/hw/engaged_sequence.py:83-88 | the path is left side, top row, right side, then the bottom row reversed |
| EngagedSequence.DefaultPath | src/hw/engaged_sequence.py:99-114 | the default path runs round the wall's 14 LEDs, each with a mapped motor |
| EngagedSequence.ScheduleWindow | src/hw/engaged_sequence.py:117-126 | every known motor gets a first move time in [now, now + 15 s] |
| EngagedSequence.DriveLedsSound | src/hw/engaged_sequence.py:172-212 | driving the motors for a list of LEDs: each move is for a known motor mapped from a listed LED, whose time had come, with direction and duration drawn in range; each motor moves at most once and is rescheduled to now + duration + pause; motors not moved keep their schedule |
| EngagedSequence.DriveMotorsSound | src/hw/engaged_sequence.py:166-212 | nothing happens without a controller or with no LEDs; otherwise the drive above |
| EngagedSequence.DriveStepSound | src/hw/engaged_sequence.py:176-212 | one more LED keeps the drive sound |
| EngagedSequence.MovedCallsOk | src/hw/engaged_sequence.py:186-212 | adding one due motor's move keeps every move well-formed |
| EngagedSequence.MovedOnce | src/hw/engaged_sequence.py:186-212 | a motor not yet moved can be moved once |
| EngagedSequence.MovedKept | src/hw/engaged_sequence.py:186-212 | rescheduling one motor leaves the others' schedule |
| EngagedSequence.Picked | src/hw/engaged_sequence.py:232-238 | the sparkle's LEDs are the path LEDs at the drawn positions |
| EngagedSequence.Fades | src/hw/engaged_sequence.py:243-263 | one fade per LED, in order |
| EngagedSequence.SparkleShape | src/hw/engaged_sequence.py:232-238 | a sparkle lights 1 to 3 path LEDs, exactly the drawn 2 or 3 when the path has at least 3 |
| EngagedSequence.EngagedSequence.constructor | src/hw/engaged_sequence.py:20-126 | parameters stored, path built, each known motor scheduled within the first 15 s, nothing running or logged |
| EngagedSequence.EngagedSequence.Start | src/hw/engaged_sequence.py:128-149 | no-op when running or with an empty path; otherwise every known LED is turned off over 500 ms, then the sequence runs |
| EngagedSequence.EngagedSequence.Stop | src/hw/engaged_sequence.py:151-160 | no-op when not running; otherwise requests the stop and clears running |
| EngagedSequence.EngagedSequence.IsRunning | src/hw/engaged_sequence.py:162-164 | returns the running flag |
| EngagedSequence.EngagedSequence.DriveMotorsFor | src/hw/engaged_sequence.py:166-212 | the loop appends exactly the drive's moves and stores its schedule |
| EngagedSequence.EngagedSequence.Sparkle | src/hw/engaged_sequence.py:232-263 | one sparkle: motor moves, then fade in of the drawn LEDs to max, then fade out of the same LEDs to min |
| HardwareBridge.UpperRun | src/hardware_bridge.py:11 | the longest run of uppercase letters from a position |
| HardwareBridge.OpeningAt | src/hardware_bridge.py:11 | "[LIGHTS:" occurs at that position |
| HardwareBridge.TagEnd | src/hardware_bridge.py:11 | a tag spans at least "[LIGHTS:" plus one letter and ']' |
| HardwareBridge.TagLetters | src/hardware_bridge.py:11-14 | a tag's command is one or more uppercase letters |
| HardwareBridge.FindTag | src/hardware_bridge.py:11 | the first position of a `[LIGHTS:X]` tag, or None iff there is none |
| HardwareBridge.RemoveTags | src/hardware_bridge.py:16 | removing tags never lengthens the text |
| HardwareBridge.ExtractHardwareCommands | src/hardware_bridge.py:5-19 | without a tag, the text unchanged and no command; with one, every tag removed and the rest stripped, and the letters of the first tag |
| HardwareBridge.RemoveTagsShorter | src/hardware_bridge.py:16 | removal shortens the text iff a tag exists, and is the identity otherwise |
| HardwareBridge.RemoveTagsIdentity | src/hardware_bridge.py:16 | removal changes the text iff there is a tag |
| HardwareBridge.ExtractProperties | src/hardware_bridge.py:11-17 | a command is found iff there is a tag; it is uppercase letters; and the clean text is then shorter |
| HardwareBridge.SinglePass | src/hardware_bridge.py:16 | removal is one pass: removing a tag can expose a new one |
| HardwareBridge.Visual | src/hardware_bridge.py:27-36 | an unknown colour is shown as "UNKNOWN COLOR: " followed by the colour |
| HardwareBridge.SendLightCommand | src/hardware_bridge.py:36-37 | the logged line is "[HARDWARE CONTROL] " followed by the colour's visual |
| HardwareBridge.VisualsDistinct | src/hardware_bridge.py:27-34 | the six known colours have distinct visuals, none like the unknown one |
| EnvUtils.ParseEnvLine | src/util/env_utils.py:11-15 | a line is an assignment iff, stripped, it is non-empty, not a comment and contains '='; the key has no '=' and key and value are stripped |
| EnvUtils.SetDefault | src/util/env_utils.py:15 | a set variable keeps its value; otherwise it is added, and existing variables are untouched |
| EnvUtils.LoadEnvFile | src/util/env_utils.py:5-17 | a missing file changes nothing; otherwise the environment after the line loop, with a warning iff a refused assignment ended it; src/utils.py:6-18 is the same code |
| EnvUtils.LoadKeepsExisting | src/util/env_utils.py:15 | loading never removes or overwrites a set variable |
| EnvUtils.LoadAddsOnlyAssigned | src/util/env_utils.py:12-15 | every added variable comes from an assignment line |
| EnvUtils.FirstAssignmentWins | src/util/env_utils.py:15 | for an unset variable the first line that assigns it decides its value, provided no line up to and including it was refused |
| EnvUtils.Actions | src/util/env_utils.py:10-11 | one action per line, each the parse of that line |
| EnvUtils.ApplyKeepsExisting | src/util/env_utils.py:15 | applying the line actions never removes or overwrites a set variable |
| EnvUtils.ApplyAddsOnlyAssigned | src/util/env_utils.py:12-15 | every variable the actions add comes from an assignment action with that value |
| EnvUtils.ApplyFirstAssignmentWins | src/util/env_utils.py:15 | for an unset variable the first assignment action decides its value, provided no action up to and including it was refused |
| EnvUtils.ParseAssignmentLine | src/util/env_utils.py:14-15 | `KEY=VALUE` reads back as that pair, and the value may contain '=' |
| EnvUtils.AssignmentStripped | src/util/env_utils.py:11 | a well-formed assignment line is unchanged by stripping |
| EnvUtils.IndexOfPrefix | src/util/env_utils.py:14 | the split happens at the first '=' |
| EnvUtils.FirstMissing | src/util/env_utils.py:26-28 | the first required key that the `in` test does not find (a dict key, a list element or a substring), in the order voice, speed, systemPrompt |
| EnvUtils.LoadPersonality | src/util/env_utils.py:19-29 | FileNotFoundError iff the file is missing; undecodable text fails to decode; a number, boolean or null top-level value raises TypeError; otherwise the decoded value unchanged iff the `in` test finds all three keys (so a list or string naming them passes), else KeyError naming the first missing key; src/utils.py:30-40 is the same code |
| BrainManager.PersonalityName | src/brain_manager.py:22-27 | "sassy" iff d < 1.0, "poetic" iff d > 3.0, "standard" iff 1.0 ≤ d ≤ 3.0 |
| EnvUtils.ListPassesChecks | src/util/env_utils.py:25-29 | a top-level list of the three key names passes the `in` checks and is returned unchanged |
| BrainManager.GetPersonalityCfg | src/brain_manager.py:18-40 | a file holding an object gives it with "name" set to the chosen name; a missing or undecodable file, or any other top-level value, falls back to standard.json's decoded value as it is, or to its own failure |
| BrainManager.MockDistance | src/brain_manager.py:8-16 | the mock distance is 5.0, 2.0 or 0.5 |
| BrainManager.MockCycle | src/brain_manager.py:10-16 | the mock visitor repeats every 30 s: 10 s each of poetic, standard and sassy |
| BrainManager.PersonalityMonotone | src/brain_manager.py:22-27 | a closer visitor never gets a farther personality |
| BrainManager.InjectedName | src/brain_manager.py:31-40 | the result is an object holding "name" iff the chosen file holds an object, when standard.json has no name of its own |
| Config.IntOf | src/engagement_controller.py:826-830 | `int()` of a JSON integer is itself, of a boolean 1 or 0, of a float its integer part (rounded toward zero); of a list, object, null or non-finite number it fails |
| Config.Truncate | src/engagement_controller.py:829 | `int()` of a float: the integer part, rounding toward zero, for either sign |
| Config.IntSetting | src/engagement_controller.py:826-830 | a missing key gives the default |
| Config.IntOfDecimalText | src/engagement_controller.py:826-830 | a speed written as decimal text reads back as that number |
| Devices.Clamp | src/hw/led/led_state.py:39 | `max(lo, min(hi, v))` lies in [lo, hi], is v inside it and the nearer bound outside |
| Devices.NonNegative | src/hw/led/led_state.py:40 | `max(0, v)` |
| Devices.Reversed | src/hw/approaching_sequence.py:74 | `list(reversed(s))` holds the same elements in opposite order |
| Devices.TurnOff | src/hw/approaching_sequence.py:106-112 | one "off" fade per address, in order, over the given duration |
| Text.Strip | src/hw/radar_reader.py:124 | `str.strip()` has no whitespace at either end and never lengthens the text |
| Text.StripIdempotent | src/engagement_controller.py:686-692 | stripping twice is stripping once |
| Text.StripChars | src/engagement_controller.py:686-692 | stripping only removes characters |
| Text.StripAllSpace | src/engagement_controller.py:624-639 | a whitespace-only text strips to empty |
| Text.Split | src/hw/radar_reader.py:130 | `str.split()` tokens are non-empty and contain no whitespace |
| Text.SplitUnwords | src/hw/radar_reader.py:130 | splitting words joined by single spaces gives the words back |
| Text.Lower | src/main.py:66 | ASCII `str.lower()` keeps the length and lowers only A–Z |
| Text.IndexOf | src/util/env_utils.py:14 | the first occurrence of a character, or the length when absent |
| Text.IntToStringRoundTrip | src/hw/radar_reader.py:137 | `int(str(n)) == n` for every integer |

## Left out

- Threads, events, joins with timeouts and `threading.Timer` are not modelled as concurrency:
  - a running sequence or conversation is a flag or a worker slot;
  - a timer completion is an explicit finish method that the environment may call at any time;
  - timers are never cancelled, so a pending-completion counter lets a stale motor or LED completion overwrite a newer status (MotorState.StaleTimerOverwrites, LedState.StaleTimerOverwrites); only the wall-clock order in which completions fire is abstracted.
- The run loops of the sequences and of the conversation are modelled one iteration or pass at a time. The idle and leaving sequence files are not part of this model, so those two sequences are only flags in the controller.
- Sleeps and clock reads are integer-millisecond parameters. Float seconds become milliseconds.
- `EngagementController.EngagementController.start`/`stop` (src/engagement_controller.py:215-278) are not modelled: they are thread lifecycle and hardware start-up.
- Text-to-speech, transcription, the language model, the VAD model, the audio stream and the `pgrep` check are outside the model. Their results are parameters.
- `_estimate_speech_duration`, `_play_thinking_audio`, the music start/stop calls in src/main.py, and the warm-up query in `main` are left out. They are floating-point, unused or I/O only.
- The `_is_speaking` and `_last_spoke_at` fields are not tracked; nothing in the modelled core reads them.
- RMS values and the baseline are real numbers, without floating-point rounding.
  - Non-finite RMS is a separate value, never below the gate.
  - The RMS computation over samples is left out.
- src/util/audio_constants.py is not part of this model, so the sample rate and the static RMS gate are parameters.
- The firmware's `sqrt`/`atan2` distance and angle are left out: floating-point trigonometry.
- Serial discovery, hwMap.json loading, `sys.exit` paths and port closing are not modelled. The same goes for logging and `pcm16le_bytes`.
- Write errors on a serial port are swallowed by the source. The model does not distinguish a failed write from a successful one: both are logged as sent.
- The LED and motor controllers' constructors require every relevant hardware-map entry to have a board name, and motors also an address. The source raises `KeyError` there, and that path is not modelled.
- Config.IntOf: a JSON float is an exact real, so the decimal-to-binary rounding of Python's decoder (e.g. `2.9999999999999999999` decoding to `3.0`) is not modelled.
- Config.IntOf: a string speed written with non-ASCII decimal digits (e.g. Arabic-Indic digits), which Python's `int()` accepts, is refused, because the model's integer parser knows only ASCII digits.
- EngagementController.EngagementController.ConversationPrologue: for such a speed the model uses the default rate 80 where the source uses the number; JSON floats are exact reals, as for Config.IntOf.
- MainScript.Globals.Initialise: when the personality's top-level value is a list or a string, `main` stores it in `personality_cfg` before it returns (with `--list-devices`) or stops on the uncaught AttributeError of `.get` (src/main.py:204); the model ends start-up the same way in both cases and leaves `personalityCfg` as it was, since nothing reads it once start-up has ended.
- A `systemPrompt` that is not a JSON string is treated as absent.
- The sanitiser's exception fallback (src/engagement_controller.py:720-722) cannot be reached for a `str` reply and is not modelled.
- Tag removal in src/hardware_bridge.py and in the sanitiser is one pass and not idempotent. Removing a tag can create a new one (`HardwareBridge.SinglePass`).
- The poll loop's outer `try` is not modelled. An exception there ends the loop in the source, and the model's `Tick` raises nothing.
- The RNG draws (greeting and farewell lines, sparkle size, LED choice, motor directions, durations and pauses) are parameters. They are constrained to their stated ranges.
