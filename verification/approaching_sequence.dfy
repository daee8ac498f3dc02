/** The approaching light sequence (src/hw/approaching_sequence.py): LEDs
    light up one after another along the top row and back along the bottom
    row, each nudging the motor mapped to it.

    The sequence talks to the LED and motor controllers only through their
    `set_brightness` and `move_to` calls, so the model records those calls
    in order (`calls`).  The controllers' key sets, which never change after
    construction, are fixed when the sequence is built.  The worker thread is
    a flag; one pass of its loop is `RunPass`, told after how many LEDs the
    stop request is seen. */
module ApproachingSequence {
  import opened Wrappers
  import opened Devices
  import Seqs

  const DefaultTopRow: seq<string> := ["B0", "C0", "D0", "E0"]
  const DefaultBottomRow: seq<string> := ["E4", "D4", "C4", "B4"]
  const DefaultFadeInMs: int := 400
  const DefaultFadeOutMs: int := 1000
  const DefaultMaxBrightness: int := 128
  const DefaultMinBrightness: int := 10

  /** `_steps_per_move` and `_move_time_ms`. */
  const StepsPerMove: int := 100
  const MoveTimeMs: int := 1000

  /** `_led_to_motor`. */
  const LedToMotor: map<string, string> := map[
    "B0" := "B1", "C0" := "C1", "D0" := "D1", "E0" := "E1",
    "B4" := "B3", "C4" := "C3", "D4" := "D3", "E4" := "E3"]

  /** The path: the top row, then the bottom row reversed. */
  function Path(topRow: seq<string>, bottomRow: seq<string>): (p: seq<string>)
    ensures |p| == |topRow| + |bottomRow|
    ensures forall i | 0 <= i < |topRow| :: p[i] == topRow[i]
    ensures forall i | |topRow| <= i < |p| :: p[i] == bottomRow[|p| - 1 - i]
  {
    topRow + Reversed(bottomRow)
  }

  /** With the default rows the path runs B0 to E0 along the top, then B4
      to E4 (the default bottom row reversed), so every LED on it has a
      motor. */
  lemma DefaultPath()
    ensures Path(DefaultTopRow, DefaultBottomRow) == ["B0", "C0", "D0", "E0", "B4", "C4", "D4", "E4"]
    ensures forall a | a in Path(DefaultTopRow, DefaultBottomRow) :: a in LedToMotor
  {
    var p := Path(DefaultTopRow, DefaultBottomRow);
    assert p[4] == "B4" && p[5] == "C4" && p[6] == "D4" && p[7] == "E4";
  }

  /** `_drive_motor_for_led`: one move, clockwise by `StepsPerMove` over
      `MoveTimeMs`, when there is a motor controller, the LED is mapped and
      its motor is known; nothing otherwise.  An error from `move_to` is
      swallowed. */
  function DriveCalls(motors: Option<set<string>>, led: string): seq<Call> {
    if motors.None? || led !in LedToMotor || LedToMotor[led] !in motors.value then []
    else [MoveMotor(LedToMotor[led], "CW", StepsPerMove, MoveTimeMs)]
  }

  /** One LED of a pass: the motor move, the fade in and, unless the fade in
      raised `KeyError` because the LED is unknown, the fade out. */
  function LedCalls(motors: Option<set<string>>, known: seq<string>, led: string,
                    maxBrightness: int, fadeInMs: int, minBrightness: int, fadeOutMs: int): seq<Call>
  {
    DriveCalls(motors, led) + [SetLed(led, maxBrightness, fadeInMs)]
    + (if led in known then [SetLed(led, minBrightness, fadeOutMs)] else [])
  }

  /** The calls of a pass over the LEDs `visited`, in order. */
  function PassCalls(motors: Option<set<string>>, known: seq<string>, visited: seq<string>,
                     maxBrightness: int, fadeInMs: int, minBrightness: int, fadeOutMs: int): seq<Call>
    decreases |visited|
  {
    if visited == [] then []
    else PassCalls(motors, known, visited[..|visited| - 1], maxBrightness, fadeInMs, minBrightness, fadeOutMs)
         + LedCalls(motors, known, visited[|visited| - 1], maxBrightness, fadeInMs, minBrightness, fadeOutMs)
  }

  /** Every call of a pass is one of three kinds: a clockwise move by
      `StepsPerMove` over `MoveTimeMs` of a known motor mapped from a visited
      LED; a fade in of a visited LED; or a fade out of a visited LED the
      LED controller knows. */
  lemma {:induction false} PassCallShapes(motors: Option<set<string>>, known: seq<string>, visited: seq<string>,
                                          maxBrightness: int, fadeInMs: int, minBrightness: int, fadeOutMs: int)
    ensures forall c | c in PassCalls(motors, known, visited, maxBrightness, fadeInMs, minBrightness, fadeOutMs) ::
      || (c.MoveMotor? && c.direction == "CW" && c.position == StepsPerMove && c.durationMs == MoveTimeMs
          && motors.Some? && c.motor in motors.value
          && exists led | led in visited :: led in LedToMotor && LedToMotor[led] == c.motor)
      || (c.SetLed? && c.brightness == maxBrightness && c.durationMs == fadeInMs && c.led in visited)
      || (c.SetLed? && c.brightness == minBrightness && c.durationMs == fadeOutMs && c.led in visited && c.led in known)
    decreases |visited|
  {
    if visited != [] {
      var init := visited[..|visited| - 1];
      var led := visited[|visited| - 1];
      PassCallShapes(motors, known, init, maxBrightness, fadeInMs, minBrightness, fadeOutMs);
      forall a | a in init ensures a in visited {
        var i :| 0 <= i < |init| && init[i] == a;
        assert visited[i] == a;
      }
    }
  }

  /** Seeing the stop request earlier only cuts the pass short: its calls
      are a prefix of the calls of the longer pass. */
  lemma {:induction false} PassPrefix(motors: Option<set<string>>, known: seq<string>, path: seq<string>, k: nat,
                                      maxBrightness: int, fadeInMs: int, minBrightness: int, fadeOutMs: int)
    requires k <= |path|
    ensures var short := PassCalls(motors, known, path[..k], maxBrightness, fadeInMs, minBrightness, fadeOutMs);
      short <= PassCalls(motors, known, path, maxBrightness, fadeInMs, minBrightness, fadeOutMs)
    decreases |path|
  {
    if k < |path| {
      var init := path[..|path| - 1];
      assert init[..k] == path[..k];
      PassPrefix(motors, known, init, k, maxBrightness, fadeInMs, minBrightness, fadeOutMs);
    } else {
      Seqs.TakeAll(path, k);
    }
  }

  /** A pass over one more LED of `path` adds that LED's calls, in the
      pieces the worker issues them. */
  lemma PassStep(before: seq<Call>, motors: Option<set<string>>, known: seq<string>, path: seq<string>, i: nat,
                 maxBrightness: int, fadeInMs: int, minBrightness: int, fadeOutMs: int)
    requires i < |path|
    ensures var led := path[i];
      var done := before + PassCalls(motors, known, path[..i], maxBrightness, fadeInMs, minBrightness, fadeOutMs);
      var next := before + PassCalls(motors, known, path[..i + 1], maxBrightness, fadeInMs, minBrightness, fadeOutMs);
      && (led in known ==>
            done + DriveCalls(motors, led) + [SetLed(led, maxBrightness, fadeInMs)] + [SetLed(led, minBrightness, fadeOutMs)] == next)
      && (led !in known ==> done + DriveCalls(motors, led) + [SetLed(led, maxBrightness, fadeInMs)] == next)
  {
    Seqs.TakeTake(path, i, i + 1);
    assert path[..i + 1][i] == path[i];
  }

  class ApproachingSequence {
    const motors: Option<set<string>>
    /** `_addresses`: the LED controller's addresses, in its order. */
    const addresses: seq<string>
    const path: seq<string>
    const fadeInMs: int
    const fadeOutMs: int
    const maxBrightness: int
    const minBrightness: int
    var running: bool
    var stopRequested: bool
    var threadStarted: bool
    var calls: seq<Call>

    constructor(addresses: seq<string>, motors: Option<set<string>>, topRow: seq<string>, bottomRow: seq<string>,
                fadeInMs: int, fadeOutMs: int, maxBrightness: int, minBrightness: int)
      ensures this.addresses == addresses && this.motors == motors
      ensures path == Path(topRow, bottomRow)
      ensures this.fadeInMs == fadeInMs && this.fadeOutMs == fadeOutMs
      ensures this.maxBrightness == maxBrightness && this.minBrightness == minBrightness
      ensures !running && !stopRequested && !threadStarted && calls == []
    {
      this.addresses := addresses;
      this.motors := motors;
      path := topRow + Reversed(bottomRow);
      this.fadeInMs := fadeInMs;
      this.fadeOutMs := fadeOutMs;
      this.maxBrightness := maxBrightness;
      this.minBrightness := minBrightness;
      running := false;
      stopRequested := false;
      threadStarted := false;
      calls := [];
    }

    /** `start`: nothing while running or with an empty path; otherwise every
        known LED is turned off over 500 ms, the stop request is cleared, the
        worker is started and the sequence is running. */
    method Start()
      modifies this
      ensures old(running) || path == [] ==>
        running == old(running) && stopRequested == old(stopRequested)
        && threadStarted == old(threadStarted) && calls == old(calls)
      ensures !old(running) && path != [] ==>
        running && !stopRequested && threadStarted && calls == old(calls) + TurnOff(addresses, 500)
    {
      if running {
        return;
      }
      if path == [] {
        return;
      }
      var i := 0;
      while i < |addresses|
        invariant 0 <= i <= |addresses|
        invariant calls == old(calls) + TurnOff(addresses[..i], 500)
      {
        Seqs.TakeTake(addresses, i, i + 1);
        calls := calls + [SetLed(addresses[i], 0, 500)];
        i := i + 1;
      }
      Seqs.TakeAll(addresses, i);
      stopRequested := false;
      threadStarted := true;
      running := true;
    }

    /** `stop`: nothing unless running; otherwise the stop request is set and
        the sequence is no longer running. */
    method Stop()
      modifies this`running, this`stopRequested
      ensures !old(running) ==> !running && stopRequested == old(stopRequested)
      ensures old(running) ==> !running && stopRequested
    {
      if !running {
        return;
      }
      stopRequested := true;
      running := false;
    }

    method IsRunning() returns (r: bool)
      ensures r == running
    {
      return running;
    }

    method DriveMotorFor(led: string)
      modifies this`calls
      ensures calls == old(calls) + DriveCalls(motors, led)
    {
      if motors.None? {
        return;
      }
      if led !in LedToMotor {
        return;
      }
      var motor := LedToMotor[led];
      if motor !in motors.value {
        return;
      }
      calls := calls + [MoveMotor(motor, "CW", StepsPerMove, MoveTimeMs)];
    }

    /** One pass of `_run_loop` over the path, the stop request being seen
        before LED number `seen` (or never, when `seen` is past the end). */
    method RunPass(seen: nat)
      modifies this`calls
      ensures var visited := if seen < |path| then path[..seen] else path;
        calls == old(calls) + PassCalls(motors, addresses, visited, maxBrightness, fadeInMs, minBrightness, fadeOutMs)
    {
      var i := 0;
      while i < |path|
        invariant 0 <= i <= |path| && (seen < |path| ==> i <= seen)
        invariant calls == old(calls) + PassCalls(motors, addresses, path[..i], maxBrightness, fadeInMs, minBrightness, fadeOutMs)
      {
        if i == seen {
          break;
        }
        var led := path[i];
        PassStep(old(calls), motors, addresses, path, i, maxBrightness, fadeInMs, minBrightness, fadeOutMs);
        DriveMotorFor(led);
        calls := calls + [SetLed(led, maxBrightness, fadeInMs)];
        if led !in addresses {
          i := i + 1;
          continue;
        }
        calls := calls + [SetLed(led, minBrightness, fadeOutMs)];
        i := i + 1;
      }
      if i == |path| {
        Seqs.TakeAll(path, i);
      }
    }
  }
}
