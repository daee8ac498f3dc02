/** One LED channel of a light board (src/hw/led/led_state.py).

    The state an LED keeps, and what each operation does to it, is first
    given as a value (`Led`) with pure functions over it; the class
    `LEDState` then holds the same fields and its methods are proved to
    follow those functions.  Time is a parameter in integer milliseconds,
    and the fade-completion timer is a counter of pending callbacks that the
    environment fires with `FinishFade`. */
module LedState {
  import opened Wrappers
  import opened Text
  import opened Devices

  datatype LedStatus = Off | On | Fading

  /** The status an LED settles in at its brightness. */
  function Settled(brightness: int): (s: LedStatus)
    ensures s == On <==> brightness > 0
    ensures s != Fading
  {
    if brightness > 0 then On else Off
  }

  /** The serial command that sets LED `index` to `value` over `duration` ms. */
  function SetCommand(index: int, value: int, duration: int): string {
    Unwords(["SET", IntToString(index), IntToString(value), IntToString(duration)]) + "\r\n"
  }

  /** Every SET command is ASCII (so `encode("ascii")` never fails) and the
      board reads it back, after `strip()` and `split()`, as the word SET
      and the three numbers. */
  lemma SetCommandParses(index: int, value: int, duration: int)
    ensures Ascii(SetCommand(index, value, duration))
    ensures var ts := Split(Strip(SetCommand(index, value, duration)));
      |ts| == 4 && ts[0] == "SET"
      && ParseInt(ts[1]) == Some(index) && ParseInt(ts[2]) == Some(value) && ParseInt(ts[3]) == Some(duration)
  {
    var ts := ["SET", IntToString(index), IntToString(value), IntToString(duration)];
    assert Word("SET") by {
      assert "SET"[0] == 'S' && "SET"[1] == 'E' && "SET"[2] == 'T';
    }
    IntToStringWord(index);
    IntToStringWord(value);
    IntToStringWord(duration);
    SplitLine(ts);
    IntToStringRoundTrip(index);
    IntToStringRoundTrip(value);
    IntToStringRoundTrip(duration);
  }

  /** Everything an LED keeps, with the commands handed to its serial port. */
  datatype Led = Led(index: int, ser: Option<Port>, status: LedStatus, brightness: int,
                     prevBrightness: int, durationMs: int, startAt: Option<int>,
                     endAt: Option<int>, timers: nat, writes: seq<string>)

  /** What holds of an LED between operations: brightness values are bytes,
      the duration is not negative, the end of a change is its start plus
      its duration, only a change with a duration is fading and then a
      completion callback is pending, and otherwise the status matches the
      brightness. */
  predicate Inv(l: Led) {
    && 0 <= l.brightness <= 255
    && 0 <= l.prevBrightness <= 255
    && l.durationMs >= 0
    && (l.startAt.Some? <==> l.endAt.Some?)
    && (l.startAt.Some? ==> l.endAt.value == l.startAt.value + l.durationMs)
    && (l.status == Fading ==> l.durationMs > 0 && l.timers > 0)
    && (l.status != Fading ==> l.status == Settled(l.brightness))
  }

  /** `_send`: without a serial nothing is written; otherwise the SET command
      for the current brightness and duration (clamped again) is written.  A
      write error is swallowed and changes nothing else. */
  function Sent(l: Led): Led {
    if l.ser.None? then l
    else l.(writes := l.writes + [SetCommand(l.index, Clamp(0, 255, l.brightness), NonNegative(l.durationMs))])
  }

  /** `__init__`. */
  function Initial(index: int, ser: Option<Port>): Led {
    Sent(Led(index, ser, Off, 0, 0, 0, None, None, 0, []))
  }

  /** `set_brightness(brightness, duration_ms)` called at time `now`. */
  function Set(l: Led, brightness: int, durationMs: int, now: int): Led {
    var l1 := l.(prevBrightness := l.brightness, brightness := Clamp(0, 255, brightness),
                 durationMs := NonNegative(durationMs));
    if l1.durationMs == 0 then
      Sent(l1.(startAt := Some(now), endAt := Some(now), status := Settled(l1.brightness)))
    else
      Sent(l1.(startAt := Some(now), endAt := Some(now + l1.durationMs), status := Fading,
               timers := l1.timers + 1))
  }

  /** The timer callback `_finish`: the status follows the brightness the LED
      has when the callback runs. */
  function Finish(l: Led): Led
    requires l.timers > 0
  {
    l.(status := Settled(l.brightness), timers := l.timers - 1)
  }

  /** A new LED is off, at brightness 0 with no duration and no change
      recorded, and has sent exactly one command, "SET index 0 0", when it
      has a serial. */
  lemma InitialState(index: int, ser: Option<Port>)
    ensures var l := Initial(index, ser);
      && Inv(l) && l.status == Off && l.brightness == 0 && l.prevBrightness == 0 && l.durationMs == 0
      && l.startAt.None? && l.endAt.None? && l.timers == 0
      && l.writes == (if ser.Some? then [SetCommand(index, 0, 0)] else [])
  {
  }

  /** `set_brightness` clamps the brightness to [0, 255] and the duration to
      at least 0, remembers the previous brightness, records when the change
      starts and ends, and writes the one SET command with those values (or
      nothing without a serial).  An instant change settles on on/off at
      once; a timed one is fading with one more callback pending. */
  lemma SetFacts(l: Led, brightness: int, durationMs: int, now: int)
    ensures var l' := Set(l, brightness, durationMs, now);
      && l'.brightness == Clamp(0, 255, brightness)
      && l'.prevBrightness == l.brightness
      && l'.durationMs == NonNegative(durationMs)
      && l'.startAt == Some(now) && l'.endAt == Some(now + l'.durationMs)
      && (l'.durationMs == 0 ==> l'.status == Settled(l'.brightness) && l'.timers == l.timers)
      && (l'.durationMs > 0 ==> l'.status == Fading && l'.timers == l.timers + 1)
      && l'.writes == l.writes + (if l.ser.Some? then [SetCommand(l.index, l'.brightness, l'.durationMs)] else [])
      && l'.index == l.index && l'.ser == l.ser
  {
  }

  /** The LED invariant holds after every operation. */
  lemma SetKeepsInv(l: Led, brightness: int, durationMs: int, now: int)
    requires 0 <= l.brightness <= 255
    requires l.status == Fading ==> l.timers > 0
    ensures Inv(Set(l, brightness, durationMs, now))
  {
  }

  lemma FinishKeepsInv(l: Led)
    requires Inv(l) && l.timers > 0
    ensures Inv(Finish(l)) && Finish(l).status != Fading
    ensures Finish(l).writes == l.writes && Finish(l).brightness == l.brightness
  {
  }

  /** Without a serial an LED never writes, whatever it is asked to do. */
  lemma NoSerialNoWrites(l: Led, brightness: int, durationMs: int, now: int)
    requires l.ser.None?
    ensures Set(l, brightness, durationMs, now).writes == l.writes
    ensures Initial(l.index, None).writes == []
  {
  }

  /** A level set twice in a row without a duration is set once: the
      second call changes only the remembered previous brightness, the
      start time and the command log. */
  lemma SetTwice(l: Led, brightness: int, now: int, later: int)
    ensures var once := Set(l, brightness, 0, now);
      var twice := Set(once, brightness, 0, later);
      twice.status == once.status && twice.brightness == once.brightness
      && twice.prevBrightness == once.brightness
  {
  }

  /** Timers are not cancelled: when a fade is followed by a second fade,
      the first fade's completion settles the LED at the second target
      while the second fade is still under way. */
  lemma StaleTimerOverwrites(l: Led, brightness: int, durationMs: int, now: int,
                             target: int, fadeMs: int, later: int)
    requires durationMs > 0 && fadeMs > 0
    ensures var f := Set(Set(l, brightness, durationMs, now), target, fadeMs, later);
      && f.status == Fading && f.timers >= 2
      && Finish(f).status == Settled(Clamp(0, 255, target)) && Finish(f).timers > 0
  {
  }

  class LEDState {
    const address: string
    const index: int
    const ser: Option<Port>
    var status: LedStatus
    var brightness: int
    var prevBrightness: int
    var durationMs: int
    var startAt: Option<int>
    var endAt: Option<int>
    /** Completion callbacks scheduled and not yet run. */
    var timers: nat
    /** The commands handed to the serial port, oldest first. */
    var writes: seq<string>

    function Model(): Led
      reads this
    {
      Led(index, ser, status, brightness, prevBrightness, durationMs, startAt, endAt, timers, writes)
    }

    ghost predicate Valid()
      reads this
    {
      Inv(Model())
    }

    constructor(address: string, ser: Option<Port>, index: int)
      ensures this.address == address
      ensures Model() == Initial(index, ser) && Valid()
    {
      this.address := address;
      this.index := index;
      this.ser := ser;
      status := Off;
      brightness := 0;
      prevBrightness := 0;
      durationMs := 0;
      startAt := None;
      endAt := None;
      timers := 0;
      writes := [];
      new;
      Send();
    }

    method SetBrightness(brightness: int, durationMs: int, now: int)
      requires Valid()
      modifies this
      ensures Model() == Set(old(Model()), brightness, durationMs, now) && Valid()
    {
      SetKeepsInv(Model(), brightness, durationMs, now);
      prevBrightness := this.brightness;
      this.brightness := Clamp(0, 255, brightness);
      this.durationMs := NonNegative(durationMs);
      if this.durationMs == 0 {
        startAt := Some(now);
        endAt := startAt;
        status := if this.brightness > 0 then On else Off;
        Send();
        return;
      }
      startAt := Some(now);
      endAt := Some(startAt.value + this.durationMs);
      status := Fading;
      Send();
      timers := timers + 1;
    }

    /** A scheduled `_finish` callback runs. */
    method FinishFade()
      requires Valid() && timers > 0
      modifies this
      ensures Model() == Finish(old(Model())) && Valid()
    {
      status := if brightness > 0 then On else Off;
      timers := timers - 1;
    }

    method Send()
      modifies this`writes
      ensures Model() == Sent(old(Model()))
    {
      if ser.None? {
        return;
      }
      var value := Clamp(0, 255, brightness);
      var duration := NonNegative(durationMs);
      writes := writes + [SetCommand(index, value, duration)];
    }
  }
}
