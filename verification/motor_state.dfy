/** One motor channel of a motor board (src/hw/motor/motor_state.py).

    As for LEDs, the motor's state is a value (`Motor`) with pure functions
    for each operation, and the class `MotorState` is proved to follow them.
    Time is a parameter in integer milliseconds; the completion timer of a
    timed move is a counter of pending callbacks fired by `FinishMove`. */
module MotorState {
  import opened Wrappers
  import opened Text
  import opened Devices

  datatype MotorStatus = Stopped | Rotating | Stepping

  /** "ROT {direction} {rpm}". */
  function RotCommand(direction: string, rpm: int): string {
    Unwords(["ROT", direction, IntToString(rpm)]) + "\r\n"
  }

  /** "STP {direction} {position} {duration}". */
  function StepCommand(direction: string, position: int, duration: int): string {
    Unwords(["STP", direction, IntToString(position), IntToString(duration)]) + "\r\n"
  }

  const StopCommand: string := "STOP\r\n"

  lemma RotWord()
    ensures Word("ROT")
  {
    assert "ROT"[0] == 'R' && "ROT"[1] == 'O' && "ROT"[2] == 'T';
  }

  lemma StpWord()
    ensures Word("STP")
  {
    assert "STP"[0] == 'S' && "STP"[1] == 'T' && "STP"[2] == 'P';
  }

  /** A ROT command for a one-word direction is ASCII and reads back as the
      word ROT, the direction and the speed. */
  lemma RotCommandParses(direction: string, rpm: int)
    requires Word(direction)
    ensures Ascii(RotCommand(direction, rpm))
    ensures var ts := Split(Strip(RotCommand(direction, rpm)));
      |ts| == 3 && ts[0] == "ROT" && ts[1] == direction && ParseInt(ts[2]) == Some(rpm)
  {
    RotWord();
    IntToStringWord(rpm);
    SplitLine(["ROT", direction, IntToString(rpm)]);
    IntToStringRoundTrip(rpm);
  }

  /** A STP command for a one-word direction is ASCII and reads back as the
      word STP, the direction, the position and the duration. */
  lemma StepCommandParses(direction: string, position: int, duration: int)
    requires Word(direction)
    ensures Ascii(StepCommand(direction, position, duration))
    ensures var ts := Split(Strip(StepCommand(direction, position, duration)));
      |ts| == 4 && ts[0] == "STP" && ts[1] == direction
      && ParseInt(ts[2]) == Some(position) && ParseInt(ts[3]) == Some(duration)
  {
    StpWord();
    IntToStringWord(position);
    IntToStringWord(duration);
    SplitLine(["STP", direction, IntToString(position), IntToString(duration)]);
    IntToStringRoundTrip(position);
    IntToStringRoundTrip(duration);
  }

  /** Everything a motor keeps, with the commands handed to its serial port. */
  datatype Motor = Motor(ser: Option<Port>, status: MotorStatus, direction: Option<string>,
                         rpm: int, position: int, durationMs: int, startAt: Option<int>,
                         endAt: Option<int>, timers: nat, writes: seq<string>)

  /** What holds of a motor between operations: a rotating motor has a
      direction, a speed in [1, 100], no duration and no end time; durations
      are not negative; a stepping motor has a direction and a completion
      callback pending. */
  predicate Inv(m: Motor) {
    && m.durationMs >= 0
    && (m.status == Rotating ==> m.direction.Some? && 1 <= m.rpm <= 100 && m.durationMs == 0 && m.endAt.None?)
    && (m.status == Stepping ==> m.direction.Some? && m.timers > 0)
  }

  /** `_write`: a command that is not ASCII fails to encode and, like a
      failing write, the error is swallowed. */
  function Write(m: Motor, cmd: string): Motor {
    if Ascii(cmd) then m.(writes := m.writes + [cmd]) else m
  }

  /** `_send_rot`. */
  function RotSent(m: Motor): Motor {
    if m.ser.None? || m.direction.None? then m
    else Write(m, RotCommand(m.direction.value, Clamp(1, 100, m.rpm)))
  }

  /** `_send_step`. */
  function StepSent(m: Motor): Motor {
    if m.ser.None? || m.direction.None? then m
    else Write(m, StepCommand(m.direction.value, m.position, NonNegative(m.durationMs)))
  }

  /** `_send_stop`: sent whenever there is a serial, with or without a direction. */
  function StopSent(m: Motor): Motor {
    if m.ser.None? then m else Write(m, StopCommand)
  }

  /** `__init__`: no command is sent. */
  function Initial(ser: Option<Port>): Motor {
    Motor(ser, Stopped, None, 0, 0, 0, None, None, 0, [])
  }

  /** `rotate(direction, rpm)` at time `now`. */
  function Rotated(m: Motor, direction: string, rpm: int, now: int): Motor {
    RotSent(m.(direction := Some(direction), rpm := Clamp(1, 100, rpm), durationMs := 0, position := 0,
               status := Rotating, startAt := Some(now), endAt := None))
  }

  /** `stop()` at time `now`. */
  function Halted(m: Motor, now: int): Motor {
    StopSent(m.(status := Stopped, startAt := Some(now), endAt := Some(now)))
  }

  /** `move_to(direction, position, duration_ms)` at time `now`. */
  function Moved(m: Motor, direction: string, position: int, durationMs: int, now: int): Motor {
    var d := NonNegative(durationMs);
    var m1 := StepSent(m.(direction := Some(direction), position := position, durationMs := d, rpm := 0,
                          status := Stepping, startAt := Some(now),
                          endAt := if d > 0 then Some(now + d) else Some(now)));
    if d > 0 then m1.(timers := m1.timers + 1) else m1.(status := Stopped)
  }

  /** The timer callback of a timed move: the motor is marked stopped,
      whatever it was commanded since. */
  function Finish(m: Motor): Motor
    requires m.timers > 0
  {
    m.(status := Stopped, timers := m.timers - 1)
  }

  /** A new motor is stopped with no direction, speed, position or duration
      and has sent nothing. */
  lemma InitialState(ser: Option<Port>)
    ensures var m := Initial(ser);
      && Inv(m) && m.status == Stopped && m.direction.None? && m.rpm == 0 && m.position == 0
      && m.durationMs == 0 && m.startAt.None? && m.endAt.None? && m.writes == []
  {
  }

  /** `rotate` clamps the speed to [1, 100], zeroes position and duration,
      leaves no end time and writes exactly the ROT command with that speed
      when there is a serial (and the direction is ASCII). */
  lemma RotateFacts(m: Motor, direction: string, rpm: int, now: int)
    ensures var m' := Rotated(m, direction, rpm, now);
      && m'.status == Rotating && m'.direction == Some(direction)
      && m'.rpm == Clamp(1, 100, rpm) && 1 <= m'.rpm <= 100
      && m'.position == 0 && m'.durationMs == 0 && m'.startAt == Some(now) && m'.endAt.None?
      && m'.timers == m.timers
      && m'.writes == m.writes + (if m.ser.Some? && Ascii(RotCommand(direction, m'.rpm))
                                  then [RotCommand(direction, m'.rpm)] else [])
  {
  }

  /** `move_to` clamps the duration to at least 0 and zeroes the speed; the
      end time is the start plus the duration; a move without duration is
      stopped at once and one with a duration is stepping with one more
      callback pending; exactly the STP command is written. */
  lemma MoveToFacts(m: Motor, direction: string, position: int, durationMs: int, now: int)
    ensures var m' := Moved(m, direction, position, durationMs, now);
      var d := NonNegative(durationMs);
      && m'.direction == Some(direction) && m'.position == position && m'.rpm == 0
      && m'.durationMs == d && m'.startAt == Some(now) && m'.endAt == Some(now + d)
      && (d == 0 ==> m'.status == Stopped && m'.timers == m.timers)
      && (d > 0 ==> m'.status == Stepping && m'.timers == m.timers + 1)
      && m'.writes == m.writes + (if m.ser.Some? && Ascii(StepCommand(direction, position, d))
                                  then [StepCommand(direction, position, d)] else [])
  {
  }

  /** `stop` leaves everything but status and times alone and writes STOP
      whenever there is a serial. */
  lemma StopFacts(m: Motor, now: int)
    ensures var m' := Halted(m, now);
      && m'.status == Stopped && m'.startAt == Some(now) && m'.endAt == Some(now)
      && m'.direction == m.direction && m'.rpm == m.rpm && m'.position == m.position
      && m'.writes == m.writes + (if m.ser.Some? then [StopCommand] else [])
  {
    assert Ascii(StopCommand);
  }

  /** The motor invariant holds after every operation. */
  lemma OperationsKeepInv(m: Motor, direction: string, rpm: int, position: int, durationMs: int, now: int)
    requires Inv(m)
    ensures Inv(Rotated(m, direction, rpm, now))
    ensures Inv(Moved(m, direction, position, durationMs, now))
    ensures Inv(Halted(m, now))
    ensures m.timers > 0 ==> Inv(Finish(m))
  {
  }

  /** Timers are not cancelled: after a timed move, a later `rotate` leaves
      the move's completion pending, and when it fires it marks the rotating
      motor stopped. */
  lemma StaleTimerOverwrites(m: Motor, direction: string, position: int, durationMs: int, now: int,
                             rotDirection: string, rpm: int, later: int)
    requires durationMs > 0
    ensures var r := Rotated(Moved(m, direction, position, durationMs, now), rotDirection, rpm, later);
      && r.status == Rotating && r.timers > 0
      && Finish(r).status == Stopped && Finish(r).direction == Some(rotDirection)
  {
  }

  class MotorState {
    const address: string
    const ser: Option<Port>
    var status: MotorStatus
    var direction: Option<string>
    var rpm: int
    var position: int
    var durationMs: int
    var startAt: Option<int>
    var endAt: Option<int>
    /** Completion callbacks scheduled and not yet run. */
    var timers: nat
    /** The commands handed to the serial port, oldest first. */
    var writes: seq<string>

    function Model(): Motor
      reads this
    {
      Motor(ser, status, direction, rpm, position, durationMs, startAt, endAt, timers, writes)
    }

    ghost predicate Valid()
      reads this
    {
      Inv(Model())
    }

    constructor(address: string, ser: Option<Port>)
      ensures this.address == address
      ensures Model() == Initial(ser) && Valid()
    {
      this.address := address;
      this.ser := ser;
      status := Stopped;
      direction := None;
      rpm := 0;
      position := 0;
      durationMs := 0;
      startAt := None;
      endAt := None;
      timers := 0;
      writes := [];
    }

    method Rotate(direction: string, rpm: int, now: int)
      requires Valid()
      modifies this
      ensures Model() == Rotated(old(Model()), direction, rpm, now) && Valid()
    {
      OperationsKeepInv(Model(), direction, rpm, 0, 0, now);
      var clamped := Clamp(1, 100, rpm);
      this.direction := Some(direction);
      this.rpm := clamped;
      durationMs := 0;
      position := 0;
      status := Rotating;
      startAt := Some(now);
      endAt := None;
      SendRot();
    }

    method Stop(now: int)
      requires Valid()
      modifies this
      ensures Model() == Halted(old(Model()), now) && Valid()
    {
      OperationsKeepInv(Model(), "", 0, 0, 0, now);
      status := Stopped;
      startAt := Some(now);
      endAt := startAt;
      SendStop();
    }

    method MoveTo(direction: string, position: int, durationMs: int, now: int)
      requires Valid()
      modifies this
      ensures Model() == Moved(old(Model()), direction, position, durationMs, now) && Valid()
    {
      OperationsKeepInv(Model(), direction, 0, position, durationMs, now);
      ghost var m0 := Model();
      var d := NonNegative(durationMs);
      this.direction := Some(direction);
      this.position := position;
      this.durationMs := d;
      rpm := 0;
      status := Stepping;
      startAt := Some(now);
      endAt := if d > 0 then Some(startAt.value + d) else startAt;
      assert Model() == m0.(direction := Some(direction), position := position, durationMs := d, rpm := 0,
                            status := Stepping, startAt := Some(now),
                            endAt := if d > 0 then Some(now + d) else Some(now));
      SendStep();
      if d > 0 {
        timers := timers + 1;
      } else {
        status := Stopped;
      }
    }

    /** A scheduled `_finish` callback of a timed move runs. */
    method FinishMove()
      requires Valid() && timers > 0
      modifies this
      ensures Model() == Finish(old(Model())) && Valid()
    {
      status := Stopped;
      timers := timers - 1;
    }

    method SendRot()
      modifies this`writes
      ensures Model() == RotSent(old(Model()))
    {
      if ser.None? || direction.None? {
        return;
      }
      var speed := Clamp(1, 100, rpm);
      WriteCommand(RotCommand(direction.value, speed));
    }

    method SendStep()
      modifies this`writes
      ensures Model() == StepSent(old(Model()))
    {
      if ser.None? || direction.None? {
        return;
      }
      var duration := NonNegative(durationMs);
      WriteCommand(StepCommand(direction.value, position, duration));
    }

    method SendStop()
      modifies this`writes
      ensures Model() == StopSent(old(Model()))
    {
      if ser.None? {
        return;
      }
      WriteCommand(StopCommand);
    }

    method WriteCommand(cmd: string)
      modifies this`writes
      ensures Model() == Write(old(Model()), cmd)
    {
      if Ascii(cmd) {
        writes := writes + [cmd];
      }
    }
  }
}
