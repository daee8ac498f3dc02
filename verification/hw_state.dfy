/** The global hardware state (src/hw/hw_state.py): registered serial
    ports, the radar reader, the hardware map and the engagement state. */
module HwState {
  import opened Wrappers
  import opened Devices
  import RadarReader

  const Idle: string := "IDLE"
  const Approaching: string := "APPROACHING"
  const Engaged: string := "ENGAGED"
  const Leaving: string := "LEAVING"

  /** The four valid state labels. */
  predicate IsLabel(s: string) {
    s == Idle || s == Approaching || s == Engaged || s == Leaving
  }

  /** The `HWState` singleton (its one instance, once initialised). */
  class HWState {
    var ledSerials: map<string, Port>
    var motorSerials: map<string, Port>
    var radarSerial: Option<Port>
    var radarReader: RadarReader.Reader?
    var hwMap: seq<HwEntry>
    var state: string

    /** The state is always one of the four labels. */
    ghost predicate Valid()
      reads this
    {
      IsLabel(state)
    }

    /** `__init__` on first construction. */
    constructor ()
      ensures Valid()
      ensures ledSerials == map[] && motorSerials == map[] && radarSerial.None?
      ensures radarReader == null && hwMap == [] && state == Idle
    {
      ledSerials := map[];
      motorSerials := map[];
      radarSerial := None;
      radarReader := null;
      hwMap := [];
      state := Idle;
    }

    /** `get_state()`. */
    function GetState(): (s: string)
      reads this
      ensures s == state
    {
      state
    }

    /** `set_state(new_state)`: an unknown label is refused with a warning
        and changes nothing; a valid one becomes the state (setting the
        current state again is a no-op). */
    method SetState(newState: string)
      requires Valid()
      modifies this`state
      ensures Valid()
      ensures IsLabel(newState) ==> state == newState
      ensures !IsLabel(newState) ==> state == old(state)
    {
      if !IsLabel(newState) {
        return;
      }
      if state != newState {
        state := newState;
      }
    }

    /** `register_led_serial(name, ser)`: adds or replaces that one board. */
    method RegisterLedSerial(name: string, ser: Port)
      modifies this`ledSerials
      ensures ledSerials == old(ledSerials)[name := ser]
    {
      ledSerials := ledSerials[name := ser];
    }

    /** `register_motor_serial(name, ser)`: adds or replaces that one board. */
    method RegisterMotorSerial(name: string, ser: Port)
      modifies this`motorSerials
      ensures motorSerials == old(motorSerials)[name := ser]
    {
      motorSerials := motorSerials[name := ser];
    }

    /** `register_radar_serial(name, ser)`: replaces the single radar slot
        (the name is only logged). */
    method RegisterRadarSerial(name: string, ser: Port)
      modifies this`radarSerial
      ensures radarSerial == Some(ser)
    {
      radarSerial := Some(ser);
    }

    /** `find_hw_entry_by_name(board_name)`: the first entry of the map
        whose board name matches, or `None`. */
    method FindHwEntryByName(boardName: string) returns (r: Option<HwEntry>)
      ensures r.None? <==> forall i | 0 <= i < |hwMap| :: hwMap[i].boardName != Some(boardName)
      ensures r.Some? ==> exists i | 0 <= i < |hwMap| ::
        && hwMap[i] == r.value && r.value.boardName == Some(boardName)
        && forall j | 0 <= j < i :: hwMap[j].boardName != Some(boardName)
    {
      var i := 0;
      while i < |hwMap|
        invariant 0 <= i <= |hwMap|
        invariant forall j | 0 <= j < i :: hwMap[j].boardName != Some(boardName)
      {
        if hwMap[i].boardName == Some(boardName) {
          return Some(hwMap[i]);
        }
        i := i + 1;
      }
      return None;
    }

    /** `start_monitoring_radar()`: a no-op without a radar serial; an
        existing reader is started again rather than replaced; otherwise a
        new reader on the radar serial is created and started. */
    method StartMonitoringRadar()
      modifies this`radarReader, radarReader
      ensures radarSerial.None? ==> radarReader == old(radarReader)
      ensures radarSerial.None? && old(radarReader) != null ==>
        radarReader.worker == old(radarReader.worker) && radarReader.stopRequested == old(radarReader.stopRequested)
      ensures radarSerial.Some? && old(radarReader) != null ==>
        && radarReader == old(radarReader) && radarReader.latest == old(radarReader.latest)
        && (radarReader.hasSerial && old(radarReader.worker) != RadarReader.Alive ==>
              radarReader.worker == RadarReader.Alive && !radarReader.stopRequested)
        && (!radarReader.hasSerial || old(radarReader.worker) == RadarReader.Alive ==>
              radarReader.worker == old(radarReader.worker) && radarReader.stopRequested == old(radarReader.stopRequested))
      ensures radarSerial.Some? && old(radarReader) == null ==>
        && radarReader != null && fresh(radarReader) && radarReader.hasSerial
        && radarReader.latest.None? && radarReader.worker == RadarReader.Alive
    {
      if radarSerial.None? {
        return;
      }
      if radarReader != null {
        radarReader.Start();
        return;
      }
      radarReader := new RadarReader.Reader(true);
      radarReader.Start();
    }

    /** `stop_monitoring_radar()`: a no-op without a reader, otherwise
        stops it (the reader is kept). */
    method StopMonitoringRadar()
      modifies radarReader
      ensures radarReader != null ==>
        && radarReader.worker == RadarReader.NoThread && radarReader.latest == old(radarReader.latest)
        && (old(radarReader.worker) != RadarReader.NoThread ==> radarReader.stopRequested)
    {
      if radarReader == null {
        return;
      }
      radarReader.Stop();
    }
  }
}
