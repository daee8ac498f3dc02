/** The hardware description shared by the state and controller modules:
    serial ports and the entries of the hardware map (hwMap.json). */
module Devices {
  import opened Wrappers

  /** An open serial connection, known by its device path. */
  datatype Port = Port(path: string)

  /** One hardware-map entry: its "type" ("light", "motor", ...), its
      "board_name", a motor's "address", and a light board's "mapping" from
      LED address to LED index (in the JSON object's order; absent is empty). */
  datatype HwEntry = HwEntry(kind: Option<string>, boardName: Option<string>,
                             address: Option<string>, mapping: seq<(string, int)>)

  /** The `KeyError` the controllers raise for an address they do not know. */
  datatype KeyError = KeyError(key: string)

  /** Python's `max(lo, min(hi, v))`. */
  function Clamp(lo: int, hi: int, v: int): (r: int)
    requires lo <= hi
    ensures lo <= r <= hi
    ensures lo <= v <= hi ==> r == v
    ensures v < lo ==> r == lo
    ensures v > hi ==> r == hi
  {
    if v < lo then lo else if v > hi then hi else v
  }

  /** Python's `max(0, v)`. */
  function NonNegative(v: int): (r: nat)
    ensures v >= 0 ==> r == v
    ensures v < 0 ==> r == 0
  {
    if v < 0 then 0 else v
  }

  /** A call a light sequence makes on the LED or motor controller. */
  datatype Call =
    | SetLed(led: string, brightness: int, durationMs: int)
    | MoveMotor(motor: string, direction: string, position: int, durationMs: int)

  /** `list(reversed(s))`. */
  function Reversed<T>(s: seq<T>): (r: seq<T>)
    ensures |r| == |s| && forall i | 0 <= i < |s| :: r[i] == s[|s| - 1 - i]
  {
    if s == [] then [] else Reversed(s[1..]) + [s[0]]
  }

  /** The calls that turn every listed LED off over `durationMs`, in order
      (500 ms before a sequence starts, 2000 ms for an unknown engagement
      state). */
  function TurnOff(addresses: seq<string>, durationMs: int): (cs: seq<Call>)
    ensures |cs| == |addresses| && forall i | 0 <= i < |addresses| :: cs[i] == SetLed(addresses[i], 0, durationMs)
  {
    if addresses == [] then []
    else TurnOff(addresses[..|addresses| - 1], durationMs) + [SetLed(addresses[|addresses| - 1], 0, durationMs)]
  }
}
