/** The engaged light sequence (src/hw/engaged_sequence.py): two or three
    LEDs of the perimeter sparkle together, and the motors mapped to them
    make slow moves on a staggered schedule.

    As in the approaching sequence, the calls made on the LED and motor
    controllers are recorded in order (`calls`).  The random choices
    (`random.randint`, `random.sample`, `random.uniform`, `random.choice`)
    and the monotonic clock are parameters, in milliseconds; the
    preconditions on them are what those library functions guarantee. */
module EngagedSequence {
  import opened Wrappers
  import opened Devices
  import Seqs

  const DefaultTopRow: seq<string> := ["B0", "C0", "D0", "E0"]
  const DefaultBottomRow: seq<string> := ["E4", "D4", "C4", "B4"]
  const DefaultLeftSide: seq<string> := ["A1", "A2", "A3"]
  const DefaultRightSide: seq<string> := ["F1", "F2", "F3"]
  const DefaultFadeInMs: int := 400
  const DefaultFadeOutMs: int := 1000
  const DefaultMaxBrightness: int := 128
  const DefaultMinBrightness: int := 10

  /** `_steps_per_move`, and `_min_motor_move_s` / `_max_motor_move_s` in ms. */
  const StepsPerMove: int := 100
  const MinMoveMs: int := 5000
  const MaxMoveMs: int := 15000

  /** `_led_to_motor`. */
  const LedToMotor: map<string, string> := map[
    "A1" := "B1", "A2" := "B2", "A3" := "B3",
    "B0" := "B1", "C0" := "C1", "D0" := "D1", "E0" := "E1",
    "B4" := "B3", "C4" := "C3", "D4" := "D3", "E4" := "E3",
    "F1" := "E1", "F2" := "E2", "F3" := "E3"]

  /** The perimeter path: left side, top row, right side, then the bottom
      row reversed. */
  function Path(leftSide: seq<string>, topRow: seq<string>, rightSide: seq<string>, bottomRow: seq<string>): (p: seq<string>)
    ensures |p| == |leftSide| + |topRow| + |rightSide| + |bottomRow|
    ensures p[..|leftSide|] == leftSide
    ensures p[|leftSide|..|leftSide| + |topRow|] == topRow
    ensures p[|leftSide| + |topRow|..|leftSide| + |topRow| + |rightSide|] == rightSide
    ensures p[|leftSide| + |topRow| + |rightSide|..] == Reversed(bottomRow)
  {
    var p := leftSide + topRow + rightSide + Reversed(bottomRow);
    assert p[..|leftSide|] == leftSide;
    assert p[|leftSide|..|leftSide| + |topRow|] == topRow;
    assert p[|leftSide| + |topRow|..|leftSide| + |topRow| + |rightSide|] == rightSide;
    assert p[|leftSide| + |topRow| + |rightSide|..] == Reversed(bottomRow);
    p
  }

  /** With the default rows the path visits all fourteen LEDs once, and
      every one of them has a motor. */
  lemma DefaultPath()
    ensures Path(DefaultLeftSide, DefaultTopRow, DefaultRightSide, DefaultBottomRow)
      == ["A1", "A2", "A3", "B0", "C0", "D0", "E0", "F1", "F2", "F3", "B4", "C4", "D4", "E4"]
    ensures forall a | a in Path(DefaultLeftSide, DefaultTopRow, DefaultRightSide, DefaultBottomRow) :: a in LedToMotor
  {
    var r := Reversed(DefaultBottomRow);
    assert r[0] == "B4" && r[1] == "C4" && r[2] == "D4" && r[3] == "E4";
    assert r == ["B4", "C4", "D4", "E4"];
  }

  /** The random draws for one motor move: its duration, its direction and
      the pause before the motor may move again. */
  datatype MoveDraw = MoveDraw(durationMs: int, direction: string, pauseMs: int)

  predicate DrawOk(d: MoveDraw) {
    && MinMoveMs <= d.durationMs <= MaxMoveMs
    && MinMoveMs <= d.pauseMs <= MaxMoveMs
    && (d.direction == "CW" || d.direction == "CCW")
  }

  /** The initial schedule: motor `keys[i]` may first move at `now + delays[i]`. */
  function Schedule(keys: seq<string>, delays: seq<int>, now: int): map<string, int>
    requires |delays| == |keys|
    decreases |keys|
  {
    if keys == [] then map[]
    else Schedule(keys[..|keys| - 1], delays[..|keys| - 1], now)[keys[|keys| - 1] := now + delays[|keys| - 1]]
  }

  /** Every known motor is scheduled, at a time within the first
      `MaxMoveMs` from construction. */
  lemma {:induction false} ScheduleWindow(keys: seq<string>, delays: seq<int>, now: int)
    requires |delays| == |keys|
    requires forall i | 0 <= i < |delays| :: 0 <= delays[i] <= MaxMoveMs
    ensures Schedule(keys, delays, now).Keys == set k | k in keys
    ensures forall m | m in Schedule(keys, delays, now) :: now <= Schedule(keys, delays, now)[m] <= now + MaxMoveMs
    decreases |keys|
  {
    if keys != [] {
      var n := |keys| - 1;
      ScheduleWindow(keys[..n], delays[..n], now);
      assert (set k | k in keys) == (set k | k in keys[..n]) + {keys[n]} by {
        assert keys == keys[..n] + [keys[n]];
      }
    }
  }

  /** What `_drive_motors_for_leds` has done so far: its calls and the
      schedule. */
  datatype Drive = Drive(calls: seq<Call>, next: map<string, int>)

  /** One LED of `_drive_motors_for_leds`: a mapped, known motor that is due
      (never scheduled counts as due) moves as drawn and is rescheduled
      after the move and the pause. */
  function DriveStep(d: Drive, motors: set<string>, led: string, now: int, draw: MoveDraw): Drive {
    if led !in LedToMotor || LedToMotor[led] !in motors then d
    else
      var m := LedToMotor[led];
      var due := if m in d.next then d.next[m] else now;
      if now < due then d
      else Drive(d.calls + [MoveMotor(m, draw.direction, StepsPerMove, draw.durationMs)],
                 d.next[m := now + draw.durationMs + draw.pauseMs])
  }

  function DriveLeds(d: Drive, motors: set<string>, leds: seq<string>, now: int, draws: seq<MoveDraw>): Drive
    requires |draws| == |leds|
    decreases |leds|
  {
    if leds == [] then d
    else
      var n := |leds| - 1;
      DriveStep(DriveLeds(d, motors, leds[..n], now, draws[..n]), motors, leds[n], now, draws[n])
  }

  /** The whole call: nothing without a motor controller or without LEDs. */
  function DriveMotors(motors: Option<set<string>>, next: map<string, int>, leds: seq<string>, now: int,
                       draws: seq<MoveDraw>): Drive
    requires |draws| == |leds|
  {
    if motors.None? || leds == [] then Drive([], next)
    else DriveLeds(Drive([], next), motors.value, leds, now, draws)
  }

  /** The motors the calls move. */
  ghost function Moved(calls: seq<Call>): set<string> {
    set i | 0 <= i < |calls| && calls[i].MoveMotor? :: calls[i].motor
  }

  /** A call of a drive that started from schedule `next`, with `after` the
      schedule once it is over: a move of a known motor mapped from one of
      the LEDs, by `StepsPerMove` in a drawn direction for a drawn duration,
      of a motor that was due, rescheduled between `2 * MinMoveMs` and
      `2 * MaxMoveMs` later. */
  ghost predicate MoveOk(c: Call, motors: set<string>, next: map<string, int>, leds: seq<string>, now: int,
                         after: map<string, int>) {
    && c.MoveMotor? && c.motor in motors && c.position == StepsPerMove
    && (c.direction == "CW" || c.direction == "CCW")
    && MinMoveMs <= c.durationMs <= MaxMoveMs
    && (exists led | led in leds :: led in LedToMotor && LedToMotor[led] == c.motor)
    && (c.motor in next ==> next[c.motor] <= now)
    && c.motor in after && now + 2 * MinMoveMs <= after[c.motor] <= now + 2 * MaxMoveMs
  }

  /** No motor is moved twice. */
  ghost predicate Once(calls: seq<Call>) {
    forall i, j | 0 <= i < j < |calls| && calls[i].MoveMotor? && calls[j].MoveMotor? :: calls[i].motor != calls[j].motor
  }

  /** Every motor not moved keeps its schedule. */
  ghost predicate Kept(next: map<string, int>, d: Drive) {
    forall m | m !in Moved(d.calls) :: (m in d.next <==> m in next) && (m in next ==> d.next[m] == next[m])
  }

  /** What one drive call guarantees. */
  ghost predicate DriveSound(motors: set<string>, next: map<string, int>, leds: seq<string>, now: int, d: Drive) {
    && (forall i | 0 <= i < |d.calls| :: MoveOk(d.calls[i], motors, next, leds, now, d.next))
    && Once(d.calls)
    && Kept(next, d)
  }

  lemma {:induction false} DriveLedsSound(motors: set<string>, next: map<string, int>, leds: seq<string>, now: int,
                                          draws: seq<MoveDraw>)
    requires |draws| == |leds|
    requires forall i | 0 <= i < |draws| :: DrawOk(draws[i])
    ensures DriveSound(motors, next, leds, now, DriveLeds(Drive([], next), motors, leds, now, draws))
    decreases |leds|
  {
    if leds != [] {
      var n := |leds| - 1;
      DriveLedsSound(motors, next, leds[..n], now, draws[..n]);
      assert leds[..n] + [leds[n]] == leds;
      DriveStepSound(motors, next, leds[..n], leds[n], now, draws[n],
                     DriveLeds(Drive([], next), motors, leds[..n], now, draws[..n]));
    }
  }

  /** `_drive_motors_for_leds` moves nothing without a motor controller or
      without LEDs, and otherwise keeps every guarantee of `DriveSound`. */
  lemma DriveMotorsSound(motors: Option<set<string>>, next: map<string, int>, leds: seq<string>, now: int,
                         draws: seq<MoveDraw>)
    requires |draws| == |leds|
    requires forall i | 0 <= i < |draws| :: DrawOk(draws[i])
    ensures motors.None? || leds == [] ==> DriveMotors(motors, next, leds, now, draws) == Drive([], next)
    ensures motors.Some? ==> DriveSound(motors.value, next, leds, now, DriveMotors(motors, next, leds, now, draws))
  {
    if motors.Some? && leds != [] {
      DriveLedsSound(motors.value, next, leds, now, draws);
    }
  }

  /** One more LED keeps a drive sound. */
  lemma DriveStepSound(motors: set<string>, next: map<string, int>, leds: seq<string>, led: string, now: int,
                       draw: MoveDraw, d: Drive)
    requires DrawOk(draw) && DriveSound(motors, next, leds, now, d)
    ensures DriveSound(motors, next, leds + [led], now, DriveStep(d, motors, led, now, draw))
  {
    var leds' := leds + [led];
    forall a | a in leds ensures a in leds' {
      var k :| 0 <= k < |leds| && leds[k] == a;
      assert leds'[k] == a;
    }
    assert led in leds' by { assert leds'[|leds|] == led; }
    forall i | 0 <= i < |d.calls| ensures MoveOk(d.calls[i], motors, next, leds', now, d.next) {
      assert MoveOk(d.calls[i], motors, next, leds, now, d.next);
    }
    var d' := DriveStep(d, motors, led, now, draw);
    if d' != d {
      var m := LedToMotor[led];
      assert m !in Moved(d.calls);
      MovedCallsOk(motors, next, leds', now, d, m, draw);
      MovedOnce(d.calls, m, draw);
      MovedKept(next, d, m, draw, now + draw.durationMs + draw.pauseMs);
    }
  }

  lemma MovedCallsOk(motors: set<string>, next: map<string, int>, leds: seq<string>, now: int, d: Drive, m: string,
                     draw: MoveDraw)
    requires forall i | 0 <= i < |d.calls| :: MoveOk(d.calls[i], motors, next, leds, now, d.next)
    requires DrawOk(draw) && m in motors && m !in Moved(d.calls)
    requires exists led | led in leds :: led in LedToMotor && LedToMotor[led] == m
    requires m in next ==> next[m] <= now
    ensures var calls := d.calls + [MoveMotor(m, draw.direction, StepsPerMove, draw.durationMs)];
      forall i | 0 <= i < |calls| :: MoveOk(calls[i], motors, next, leds, now, d.next[m := now + draw.durationMs + draw.pauseMs])
  {
    var calls := d.calls + [MoveMotor(m, draw.direction, StepsPerMove, draw.durationMs)];
    var after := d.next[m := now + draw.durationMs + draw.pauseMs];
    forall i | 0 <= i < |calls| ensures MoveOk(calls[i], motors, next, leds, now, after) {
      if i < |d.calls| {
        assert calls[i] == d.calls[i];
        assert MoveOk(d.calls[i], motors, next, leds, now, d.next);
        assert d.calls[i].motor in Moved(d.calls);
      }
    }
  }

  lemma MovedOnce(calls: seq<Call>, m: string, draw: MoveDraw)
    requires Once(calls) && m !in Moved(calls)
    ensures Once(calls + [MoveMotor(m, draw.direction, StepsPerMove, draw.durationMs)])
  {
    var calls' := calls + [MoveMotor(m, draw.direction, StepsPerMove, draw.durationMs)];
    forall i, j | 0 <= i < j < |calls'| && calls'[i].MoveMotor? && calls'[j].MoveMotor?
      ensures calls'[i].motor != calls'[j].motor
    {
      assert calls'[i] == calls[i];
      if j < |calls| {
        assert calls'[j] == calls[j];
      } else {
        assert calls[i].motor in Moved(calls);
      }
    }
  }

  lemma MovedKept(next: map<string, int>, d: Drive, m: string, draw: MoveDraw, v: int)
    requires Kept(next, d)
    ensures Kept(next, Drive(d.calls + [MoveMotor(m, draw.direction, StepsPerMove, draw.durationMs)], d.next[m := v]))
  {
    var calls' := d.calls + [MoveMotor(m, draw.direction, StepsPerMove, draw.durationMs)];
    assert m in Moved(calls') by { assert calls'[|d.calls|].motor == m; }
    forall m' | m' in Moved(d.calls) ensures m' in Moved(calls') {
      var i :| 0 <= i < |d.calls| && d.calls[i].MoveMotor? && d.calls[i].motor == m';
      assert calls'[i] == d.calls[i];
    }
  }

  /** `random.sample(path, n)`: the LEDs at `n` distinct positions. */
  function Picked(path: seq<string>, picks: seq<nat>): (leds: seq<string>)
    requires forall i | 0 <= i < |picks| :: picks[i] < |path|
    ensures |leds| == |picks| && forall i | 0 <= i < |picks| :: leds[i] == path[picks[i]]
  {
    seq(|picks|, i requires 0 <= i < |picks| => path[picks[i]])
  }

  /** The same change sent to each of `leds`, in order. */
  function Fades(leds: seq<string>, brightness: int, durationMs: int): (cs: seq<Call>)
    ensures |cs| == |leds| && forall i | 0 <= i < |leds| :: cs[i] == SetLed(leds[i], brightness, durationMs)
  {
    seq(|leds|, i requires 0 <= i < |leds| => SetLed(leds[i], brightness, durationMs))
  }

  function Min(a: int, b: int): int {
    if a < b then a else b
  }

  class EngagedSequence {
    const motors: Option<set<string>>
    /** `_addresses`: the LED controller's addresses, in its order. */
    const addresses: seq<string>
    const path: seq<string>
    const fadeInMs: int
    const fadeOutMs: int
    const maxBrightness: int
    const minBrightness: int
    var running: bool
    var stopRequested: bool
    var threadStarted: bool
    /** `_motor_next_move`, in milliseconds of the monotonic clock. */
    var nextMove: map<string, int>
    var calls: seq<Call>

    /** `motorKeys` are the motor controller's addresses (none without a
        controller) and `delays[i]` the draw of `random.uniform(0, 15)` for
        the i-th of them, read at monotonic time `now`. */
    constructor(addresses: seq<string>, motorKeys: Option<seq<string>>,
                leftSide: seq<string>, topRow: seq<string>, rightSide: seq<string>, bottomRow: seq<string>,
                fadeInMs: int, fadeOutMs: int, maxBrightness: int, minBrightness: int,
                now: int, delays: seq<int>)
      requires motorKeys.Some? ==> |delays| == |motorKeys.value|
      requires forall i | 0 <= i < |delays| :: 0 <= delays[i] <= MaxMoveMs
      ensures this.addresses == addresses
      ensures motors == if motorKeys.Some? then Some(set k | k in motorKeys.value) else None
      ensures path == Path(leftSide, topRow, rightSide, bottomRow)
      ensures this.fadeInMs == fadeInMs && this.fadeOutMs == fadeOutMs
      ensures this.maxBrightness == maxBrightness && this.minBrightness == minBrightness
      ensures !running && !stopRequested && !threadStarted && calls == []
      ensures motorKeys.None? ==> nextMove == map[]
      ensures motorKeys.Some? ==> nextMove == Schedule(motorKeys.value, delays, now)
      ensures motors.Some? ==> nextMove.Keys == motors.value
      ensures forall m | m in nextMove :: now <= nextMove[m] <= now + MaxMoveMs
    {
      this.addresses := addresses;
      motors := if motorKeys.Some? then Some(set k | k in motorKeys.value) else None;
      path := leftSide + topRow + rightSide + Reversed(bottomRow);
      this.fadeInMs := fadeInMs;
      this.fadeOutMs := fadeOutMs;
      this.maxBrightness := maxBrightness;
      this.minBrightness := minBrightness;
      running := false;
      stopRequested := false;
      threadStarted := false;
      calls := [];
      var schedule := map[];
      if motorKeys.Some? {
        var keys := motorKeys.value;
        var i := 0;
        while i < |keys|
          invariant 0 <= i <= |keys|
          invariant schedule == Schedule(keys[..i], delays[..i], now)
        {
          Seqs.TakeTake(keys, i, i + 1);
          Seqs.TakeTake(delays, i, i + 1);
          schedule := schedule[keys[i] := now + delays[i]];
          i := i + 1;
        }
        Seqs.TakeAll(keys, i);
        Seqs.TakeAll(delays, i);
        ScheduleWindow(keys, delays, now);
      }
      nextMove := schedule;
    }

    /** `start`: nothing while running or with an empty path; otherwise every
        known LED is turned off over 500 ms, the stop request is cleared, the
        worker is started and the sequence is running. */
    method Start()
      modifies this`running, this`stopRequested, this`threadStarted, this`calls
      ensures old(running) || path == [] ==>
        running == old(running) && stopRequested == old(stopRequested)
        && threadStarted == old(threadStarted) && calls == old(calls)
      ensures !old(running) && path != [] ==>
        running && !stopRequested && threadStarted && calls == old(calls) + TurnOff(addresses, 500)
    {
      if running {
        return;
      }
      if path == [] {
        return;
      }
      var i := 0;
      while i < |addresses|
        invariant 0 <= i <= |addresses|
        invariant calls == old(calls) + TurnOff(addresses[..i], 500)
      {
        Seqs.TakeTake(addresses, i, i + 1);
        calls := calls + [SetLed(addresses[i], 0, 500)];
        i := i + 1;
      }
      Seqs.TakeAll(addresses, i);
      stopRequested := false;
      threadStarted := true;
      running := true;
    }

    /** `stop`: nothing unless running; otherwise the stop request is set and
        the sequence is no longer running. */
    method Stop()
      modifies this`running, this`stopRequested
      ensures !old(running) ==> !running && stopRequested == old(stopRequested)
      ensures old(running) ==> !running && stopRequested
    {
      if !running {
        return;
      }
      stopRequested := true;
      running := false;
    }

    method IsRunning() returns (r: bool)
      ensures r == running
    {
      return running;
    }

    /** `_drive_motors_for_leds(leds)` with the clock at `now`; `draws[i]` are
        the draws used if the motor of `leds[i]` moves. */
    method DriveMotorsFor(leds: seq<string>, now: int, draws: seq<MoveDraw>)
      requires |draws| == |leds|
      modifies this`calls, this`nextMove
      ensures var d := DriveMotors(motors, old(nextMove), leds, now, draws);
        calls == old(calls) + d.calls && nextMove == d.next
    {
      if motors.None? || leds == [] {
        return;
      }
      var known := motors.value;
      var i := 0;
      while i < |leds|
        invariant 0 <= i <= |leds|
        invariant var d := DriveLeds(Drive([], old(nextMove)), known, leds[..i], now, draws[..i]);
          calls == old(calls) + d.calls && nextMove == d.next
      {
        Seqs.TakeTake(leds, i, i + 1);
        Seqs.TakeTake(draws, i, i + 1);
        var led := leds[i];
        if led in LedToMotor && LedToMotor[led] in known {
          var motor := LedToMotor[led];
          var due := if motor in nextMove then nextMove[motor] else now;
          if now >= due {
            calls := calls + [MoveMotor(motor, draws[i].direction, StepsPerMove, draws[i].durationMs)];
            nextMove := nextMove[motor := now + draws[i].durationMs + draws[i].pauseMs];
          }
        }
        i := i + 1;
      }
      Seqs.TakeAll(leds, i);
      Seqs.TakeAll(draws, i);
    }

    /** One sparkle of `_run_loop` (whose early return keeps the path
        non-empty here): `drawn` is `random.randint(2, 3)`, `picks` the
        positions `random.sample` chooses, `draws` the motor draws and `now`
        the clock.  The picked LEDs' motors are driven, then all picked LEDs
        fade in and all of them fade out, each `KeyError` being swallowed. */
    method Sparkle(drawn: int, picks: seq<nat>, now: int, draws: seq<MoveDraw>)
      requires path != []
      requires 2 <= drawn <= 3 && |picks| == Min(|path|, drawn)
      requires forall i | 0 <= i < |picks| :: picks[i] < |path|
      requires forall i, j | 0 <= i < j < |picks| :: picks[i] != picks[j]
      requires |draws| == |picks|
      modifies this`calls, this`nextMove
      ensures var leds := Picked(path, picks);
        var d := DriveMotors(motors, old(nextMove), leds, now, draws);
        && calls == old(calls) + d.calls + Fades(leds, maxBrightness, fadeInMs) + Fades(leds, minBrightness, fadeOutMs)
        && nextMove == d.next
    {
      var leds := Picked(path, picks);
      DriveMotorsFor(leds, now, draws);
      ghost var driven := calls;
      ghost var schedule := nextMove;
      var i := 0;
      while i < |leds|
        invariant 0 <= i <= |leds| && nextMove == schedule
        invariant calls == driven + Fades(leds[..i], maxBrightness, fadeInMs)
      {
        calls := calls + [SetLed(leds[i], maxBrightness, fadeInMs)];
        i := i + 1;
      }
      Seqs.TakeAll(leds, i);
      ghost var lit := calls;
      i := 0;
      while i < |leds|
        invariant 0 <= i <= |leds| && nextMove == schedule
        invariant calls == lit + Fades(leds[..i], minBrightness, fadeOutMs)
      {
        calls := calls + [SetLed(leds[i], minBrightness, fadeOutMs)];
        i := i + 1;
      }
      Seqs.TakeAll(leds, i);
    }
  }

  /** A sparkle lights two or three distinct positions of the path (all of
      them when the path is shorter), and every LED faded in is faded out
      again, unknown ones included. */
  lemma SparkleShape(path: seq<string>, drawn: int, picks: seq<nat>)
    requires path != [] && 2 <= drawn <= 3 && |picks| == Min(|path|, drawn)
    requires forall i | 0 <= i < |picks| :: picks[i] < |path|
    ensures var leds := Picked(path, picks);
      && 1 <= |leds| <= 3 && (|path| >= 3 ==> |leds| == drawn)
      && forall a | a in leds :: a in path
  {
    var leds := Picked(path, picks);
    forall a | a in leds ensures a in path {
      var i :| 0 <= i < |leds| && leds[i] == a;
      assert path[picks[i]] == a;
    }
  }
}
