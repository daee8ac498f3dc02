/** The motor controller (src/hw/motor/motor_controller.py): one
    `MotorState` per motor entry of the hardware map, commands forwarded by
    address, and at least 100 ms between any two forwarded commands.

    The monotonic clock is read twice per command: `now` before throttling
    and `after` once the throttling sleep (if any) is over; the wall-clock
    time a motor records is `at`. */
module MotorController {
  import opened Wrappers
  import opened Devices
  import opened MotorState
  import Seqs

  /** `_MIN_CMD_INTERVAL`, in milliseconds. */
  const MinCmdInterval: int := 100

  predicate IsMotor(e: HwEntry) {
    e.kind == Some("motor")
  }

  /** Every motor entry names its board and its address (the source reads
      `entry["board_name"]` and `entry["address"]`). */
  predicate MotorsNamed(hwmap: seq<HwEntry>) {
    forall i | 0 <= i < |hwmap| :: IsMotor(hwmap[i]) ==> hwmap[i].boardName.Some? && hwmap[i].address.Some?
  }

  /** The serial of each motor address, as the constructor builds it: motor
      entries whose board has a serial, a later entry replacing an earlier
      one with the same address. */
  function MotorMap(hwmap: seq<HwEntry>, serials: map<string, Port>): map<string, Port>
    requires MotorsNamed(hwmap)
    decreases |hwmap|
  {
    if hwmap == [] then map[]
    else
      var e := hwmap[|hwmap| - 1];
      var m := MotorMap(hwmap[..|hwmap| - 1], serials);
      if !IsMotor(e) || e.boardName.value !in serials then m
      else m[e.address.value := serials[e.boardName.value]]
  }

  /** A motor is known iff a motor entry whose board has a serial names it,
      and the last such entry decides its serial. */
  lemma {:induction false} MotorMapLastWins(hwmap: seq<HwEntry>, serials: map<string, Port>, a: string)
    requires MotorsNamed(hwmap)
    ensures a in MotorMap(hwmap, serials) <==>
      exists i | 0 <= i < |hwmap| :: IsMotor(hwmap[i]) && hwmap[i].boardName.value in serials && hwmap[i].address.value == a
    ensures forall i | 0 <= i < |hwmap| && IsMotor(hwmap[i]) && hwmap[i].boardName.value in serials && hwmap[i].address.value == a
        && (forall k | i < k < |hwmap| :: !(IsMotor(hwmap[k]) && hwmap[k].boardName.value in serials && hwmap[k].address.value == a))
        :: a in MotorMap(hwmap, serials) && MotorMap(hwmap, serials)[a] == serials[hwmap[i].boardName.value]
    decreases |hwmap|
  {
    if hwmap != [] {
      var n := |hwmap| - 1;
      var init := hwmap[..n];
      assert MotorsNamed(init) by {
        forall i | 0 <= i < |init| ensures IsMotor(init[i]) ==> init[i].boardName.Some? && init[i].address.Some? {
          assert init[i] == hwmap[i];
        }
      }
      MotorMapLastWins(init, serials, a);
      forall i | 0 <= i < n ensures init[i] == hwmap[i] { }
    }
  }

  /** Filing a new motor, built for `port`, under `address` keeps every
      motor filed under its own address, valid and in its initial state. */
  lemma InsertBuilt(prev: map<string, MotorState>, m: map<string, Port>, address: string, motor: MotorState, port: Port)
    requires prev.Keys == m.Keys
    requires forall a | a in prev :: prev[a].address == a && prev[a].Valid() && prev[a].Model() == Initial(Some(m[a]))
    requires motor.address == address && motor.Valid() && motor.Model() == Initial(Some(port))
    ensures var n := prev[address := motor]; var m' := m[address := port];
      && n.Keys == m'.Keys
      && forall a | a in n :: n[a].address == a && n[a].Valid() && n[a].Model() == Initial(Some(m'[a]))
  {
    var n := prev[address := motor];
    var m' := m[address := port];
    forall a | a in n ensures n[a].address == a && n[a].Valid() && n[a].Model() == Initial(Some(m'[a])) {
      if a != address {
        assert n[a] == prev[a] && m'[a] == m[a];
      }
    }
  }

  /** How long `_throttle` sleeps when the previous command went out at
      `last` and the clock now reads `now`. */
  function Pause(last: int, now: int): (p: int)
    requires last <= now
    ensures 0 <= p <= MinCmdInterval
    ensures now + p >= last + MinCmdInterval
    ensures now - last >= MinCmdInterval ==> p == 0
  {
    if now - last < MinCmdInterval then MinCmdInterval - (now - last) else 0
  }

  /** Consecutive command times are at least `MinCmdInterval` apart. */
  ghost predicate Spaced(times: seq<int>) {
    forall k | 0 < k < |times| :: times[k - 1] + MinCmdInterval <= times[k]
  }

  class MotorController {
    var motors: map<string, MotorState>
    const boardSerials: map<string, Port>
    var lastCmdTime: int
    /** The clock readings at which commands were forwarded, oldest first. */
    ghost var issued: seq<int>

    /** Each motor is filed under its own address and valid, no two
        addresses share a motor object, forwarded commands are spaced by at
        least the minimum interval, and the last one went out at
        `lastCmdTime`. */
    ghost predicate Valid()
      reads this, motors.Values
    {
      && (forall a | a in motors :: motors[a].address == a && motors[a].Valid())
      && (forall a, b | a in motors && b in motors && a != b :: motors[a] != motors[b])
      && Spaced(issued)
      && (issued != [] ==> issued[|issued| - 1] == lastCmdTime)
    }

    /** The motors are exactly those of `m`, each in its initial state. */
    ghost predicate Built(m: map<string, Port>)
      reads this, motors.Values
    {
      && motors.Keys == m.Keys
      && forall a | a in motors :: motors[a].address == a && motors[a].Model() == Initial(Some(m[a]))
    }

    constructor(hwmap: seq<HwEntry>, boardSerials: map<string, Port>)
      requires MotorsNamed(hwmap)
      ensures this.boardSerials == boardSerials && lastCmdTime == 0 && issued == []
      ensures Valid() && Built(MotorMap(hwmap, boardSerials))
      ensures forall a | a in motors :: fresh(motors[a])
    {
      motors := map[];
      this.boardSerials := boardSerials;
      lastCmdTime := 0;
      issued := [];
      new;
      var i := 0;
      while i < |hwmap|
        invariant 0 <= i <= |hwmap|
        invariant MotorsNamed(hwmap[..i])
        invariant Valid() && Built(MotorMap(hwmap[..i], boardSerials))
        invariant forall a | a in motors :: fresh(motors[a])
        invariant lastCmdTime == 0 && issued == []
      {
        var entry := hwmap[i];
        Seqs.TakeTake(hwmap, i, i + 1);
        assert hwmap[..i + 1][i] == entry;
        if entry.kind == Some("motor") {
          var board := entry.boardName.value;
          var address := entry.address.value;
          if board in boardSerials {
            AddMotor(address, boardSerials[board], MotorMap(hwmap[..i], boardSerials));
          }
        }
        i := i + 1;
      }
      Seqs.TakeAll(hwmap, i);
    }

    /** One entry of the constructor's loop: a new motor for `address`,
        replacing any motor already filed under it. */
    method AddMotor(address: string, port: Port, ghost m: map<string, Port>)
      requires Valid() && Built(m)
      modifies this`motors
      ensures Valid()
      ensures Built(m[address := port])
      ensures address in motors && fresh(motors[address])
      ensures forall a | a in motors && a != address :: a in old(motors) && motors[a] == old(motors[a])
      ensures forall a | a in motors :: fresh(motors[a]) || motors[a] in old(motors.Values)
    {
      var motor := new MotorState(address, Some(port));
      ghost var prev := motors;
      assert forall a | a in prev :: prev[a] != motor;
      motors := motors[address := motor];
      InsertBuilt(prev, m, address, motor, port);
      Seqs.InsertDistinct(prev, address, motor);
    }

    /** `_throttle`: sleeps for `Pause(lastCmdTime, now)` and then records
        the clock, which has advanced by at least that much. */
    method Throttle(now: int, after: int) returns (slept: int)
      requires Valid()
      requires lastCmdTime <= now
      requires after >= now + Pause(lastCmdTime, now)
      modifies this`lastCmdTime, this`issued
      ensures Valid()
      ensures slept == Pause(old(lastCmdTime), now)
      ensures lastCmdTime == after && lastCmdTime >= old(lastCmdTime) + MinCmdInterval
      ensures issued == old(issued) + [after]
    {
      var delta := now - lastCmdTime;
      slept := 0;
      if delta < MinCmdInterval {
        slept := MinCmdInterval - delta;
      }
      lastCmdTime := after;
      issued := issued + [after];
    }

    /** `rotate`: an unknown address raises `KeyError` before throttling;
        a known one is throttled and then rotated, and no other motor
        changes. */
    method Rotate(address: string, direction: string, rpm: int, now: int, after: int, at: int)
      returns (r: Result<(), KeyError>)
      requires Valid() && lastCmdTime <= now && after >= now + Pause(lastCmdTime, now)
      modifies this`lastCmdTime, this`issued, if address in motors then {motors[address]} else {}
      ensures Valid() && motors == old(motors)
      ensures address !in motors ==> r == Err(KeyError(address)) && lastCmdTime == old(lastCmdTime) && issued == old(issued)
      ensures address in motors ==>
        && r == Ok(()) && lastCmdTime == after && issued == old(issued) + [after]
        && motors[address].Model() == Rotated(old(motors[address].Model()), direction, rpm, at)
      ensures forall a | a in motors && a != address :: motors[a].Model() == old(motors[a].Model())
    {
      if address !in motors {
        return Err(KeyError(address));
      }
      var _ := Throttle(now, after);
      motors[address].Rotate(direction, rpm, at);
      return Ok(());
    }

    /** `move_to`, guarded and throttled like `rotate`. */
    method MoveTo(address: string, direction: string, position: int, durationMs: int, now: int, after: int, at: int)
      returns (r: Result<(), KeyError>)
      requires Valid() && lastCmdTime <= now && after >= now + Pause(lastCmdTime, now)
      modifies this`lastCmdTime, this`issued, if address in motors then {motors[address]} else {}
      ensures Valid() && motors == old(motors)
      ensures address !in motors ==> r == Err(KeyError(address)) && lastCmdTime == old(lastCmdTime) && issued == old(issued)
      ensures address in motors ==>
        && r == Ok(()) && lastCmdTime == after && issued == old(issued) + [after]
        && motors[address].Model() == Moved(old(motors[address].Model()), direction, position, durationMs, at)
      ensures forall a | a in motors && a != address :: motors[a].Model() == old(motors[a].Model())
    {
      if address !in motors {
        return Err(KeyError(address));
      }
      var _ := Throttle(now, after);
      motors[address].MoveTo(direction, position, durationMs, at);
      return Ok(());
    }

    /** `stop`, guarded and throttled like `rotate`. */
    method Stop(address: string, now: int, after: int, at: int) returns (r: Result<(), KeyError>)
      requires Valid() && lastCmdTime <= now && after >= now + Pause(lastCmdTime, now)
      modifies this`lastCmdTime, this`issued, if address in motors then {motors[address]} else {}
      ensures Valid() && motors == old(motors)
      ensures address !in motors ==> r == Err(KeyError(address)) && lastCmdTime == old(lastCmdTime) && issued == old(issued)
      ensures address in motors ==>
        && r == Ok(()) && lastCmdTime == after && issued == old(issued) + [after]
        && motors[address].Model() == Halted(old(motors[address].Model()), at)
      ensures forall a | a in motors && a != address :: motors[a].Model() == old(motors[a].Model())
    {
      if address !in motors {
        return Err(KeyError(address));
      }
      var _ := Throttle(now, after);
      motors[address].Stop(at);
      return Ok(());
    }
  }
}
