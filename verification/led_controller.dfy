/** The LED controller (src/hw/led/led_controller.py): builds one `LEDState`
    per LED address listed by the light boards of the hardware map, and
    forwards brightness changes to them by address. */
module LedController {
  import opened Wrappers
  import opened Devices
  import opened LedState
  import Seqs

  /** Where an LED lives: its index on a board and that board's serial. */
  datatype Slot = Slot(index: int, port: Port)

  predicate IsLight(e: HwEntry) {
    e.kind == Some("light")
  }

  /** Every light entry names its board (the source reads `entry["board_name"]`). */
  predicate LightsNamed(hwmap: seq<HwEntry>) {
    forall i | 0 <= i < |hwmap| :: IsLight(hwmap[i]) ==> hwmap[i].boardName.Some?
  }

  /** The mapping pairs of one board added in order, a later pair replacing
      an earlier one with the same address. */
  function AddPairs(m: map<string, Slot>, pairs: seq<(string, int)>, port: Port): map<string, Slot>
    decreases |pairs|
  {
    if pairs == [] then m
    else
      var last := pairs[|pairs| - 1];
      AddPairs(m, pairs[..|pairs| - 1], port)[last.0 := Slot(last.1, port)]
  }

  /** One entry of the hardware map: only light boards with a serial add LEDs. */
  function AddEntry(m: map<string, Slot>, e: HwEntry, serials: map<string, Port>): map<string, Slot>
    requires IsLight(e) ==> e.boardName.Some?
  {
    if !IsLight(e) || e.boardName.value !in serials then m
    else AddPairs(m, e.mapping, serials[e.boardName.value])
  }

  /** Where each LED of the hardware map lives, as the constructor builds it. */
  function LightMap(hwmap: seq<HwEntry>, serials: map<string, Port>): map<string, Slot>
    requires LightsNamed(hwmap)
    decreases |hwmap|
  {
    if hwmap == [] then map[]
    else AddEntry(LightMap(hwmap[..|hwmap| - 1], serials), hwmap[|hwmap| - 1], serials)
  }

  /** After adding pairs, an address is mapped iff it was mapped already or
      some pair names it; an address no pair names keeps its old slot. */
  lemma {:induction false} AddPairsKeys(m: map<string, Slot>, pairs: seq<(string, int)>, port: Port, a: string)
    ensures a in AddPairs(m, pairs, port) <==> a in m || exists j | 0 <= j < |pairs| :: pairs[j].0 == a
    ensures (forall j | 0 <= j < |pairs| :: pairs[j].0 != a) && a in m ==> AddPairs(m, pairs, port)[a] == m[a]
    decreases |pairs|
  {
    if pairs != [] {
      var init := pairs[..|pairs| - 1];
      AddPairsKeys(m, init, port, a);
      if exists j | 0 <= j < |init| :: init[j].0 == a {
        var j :| 0 <= j < |init| && init[j].0 == a;
        assert pairs[j] == init[j];
      }
      if exists j | 0 <= j < |pairs| :: pairs[j].0 == a {
        var j :| 0 <= j < |pairs| && pairs[j].0 == a;
        if j < |init| { assert init[j] == pairs[j]; }
      }
    }
  }

  /** The last pair naming an address decides its index. */
  lemma {:induction false} AddPairsLastWins(m: map<string, Slot>, pairs: seq<(string, int)>, port: Port, j: nat)
    requires j < |pairs|
    requires forall k | j < k < |pairs| :: pairs[k].0 != pairs[j].0
    ensures pairs[j].0 in AddPairs(m, pairs, port) && AddPairs(m, pairs, port)[pairs[j].0] == Slot(pairs[j].1, port)
    decreases |pairs|
  {
    var init := pairs[..|pairs| - 1];
    if j < |pairs| - 1 {
      assert init[j] == pairs[j];
      forall k | j < k < |init| ensures init[k].0 != init[j].0 {
        assert init[k] == pairs[k];
      }
      AddPairsLastWins(m, init, port, j);
    }
  }

  /** An LED is mapped iff some light entry whose board has a serial lists
      its address. */
  lemma {:induction false} LightMapKeys(hwmap: seq<HwEntry>, serials: map<string, Port>, a: string)
    requires LightsNamed(hwmap)
    ensures a in LightMap(hwmap, serials) <==>
      exists i, j | 0 <= i < |hwmap| && 0 <= j < |hwmap[i].mapping| ::
        IsLight(hwmap[i]) && hwmap[i].boardName.value in serials && hwmap[i].mapping[j].0 == a
    decreases |hwmap|
  {
    if hwmap != [] {
      var n := |hwmap| - 1;
      var init := hwmap[..n];
      var e := hwmap[n];
      assert LightsNamed(init) by {
        forall i | 0 <= i < |init| ensures IsLight(init[i]) ==> init[i].boardName.Some? {
          assert init[i] == hwmap[i];
        }
      }
      LightMapKeys(init, serials, a);
      if IsLight(e) && e.boardName.value in serials {
        AddPairsKeys(LightMap(init, serials), e.mapping, serials[e.boardName.value], a);
      }
      if exists i, j | 0 <= i < |init| && 0 <= j < |init[i].mapping| ::
           IsLight(init[i]) && init[i].boardName.value in serials && init[i].mapping[j].0 == a {
        var i, j :| 0 <= i < |init| && 0 <= j < |init[i].mapping|
          && IsLight(init[i]) && init[i].boardName.value in serials && init[i].mapping[j].0 == a;
        assert hwmap[i] == init[i];
      }
      if exists i, j | 0 <= i < |hwmap| && 0 <= j < |hwmap[i].mapping| ::
           IsLight(hwmap[i]) && hwmap[i].boardName.value in serials && hwmap[i].mapping[j].0 == a {
        var i, j :| 0 <= i < |hwmap| && 0 <= j < |hwmap[i].mapping|
          && IsLight(hwmap[i]) && hwmap[i].boardName.value in serials && hwmap[i].mapping[j].0 == a;
        if i < n { assert init[i] == hwmap[i]; }
      }
    }
  }

  /** Filing a new LED, built for `slot`, under `address` keeps every LED
      filed under its own address, valid and in its initial state. */
  lemma InsertBuilt(prev: map<string, LEDState>, m: map<string, Slot>, address: string, led: LEDState, slot: Slot)
    requires prev.Keys == m.Keys
    requires forall a | a in prev ::
      prev[a].address == a && prev[a].Valid() && prev[a].Model() == Initial(m[a].index, Some(m[a].port))
    requires led.address == address && led.Valid() && led.Model() == Initial(slot.index, Some(slot.port))
    ensures var n := prev[address := led]; var m' := m[address := slot];
      && n.Keys == m'.Keys
      && forall a | a in n ::
           n[a].address == a && n[a].Valid() && n[a].Model() == Initial(m'[a].index, Some(m'[a].port))
  {
    var n := prev[address := led];
    var m' := m[address := slot];
    forall a | a in n
      ensures n[a].address == a && n[a].Valid() && n[a].Model() == Initial(m'[a].index, Some(m'[a].port))
    {
      if a != address {
        assert n[a] == prev[a] && m'[a] == m[a];
      }
    }
  }

  class LEDController {
    var leds: map<string, LEDState>
    const boardSerials: map<string, Port>

    /** Each LED is filed under its own address, is in a valid state, and no
        two addresses share an LED object. */
    ghost predicate Valid()
      reads this, leds.Values
    {
      && (forall a | a in leds :: leds[a].address == a && leds[a].Valid())
      && (forall a, b | a in leds && b in leds && a != b :: leds[a] != leds[b])
    }

    /** The LEDs are exactly those of `m`, each new since construction. */
    ghost predicate Built(m: map<string, Slot>)
      reads this, leds.Values
    {
      && leds.Keys == m.Keys
      && forall a | a in leds :: leds[a].address == a && leds[a].Model() == Initial(m[a].index, Some(m[a].port))
    }

    constructor(hwmap: seq<HwEntry>, boardSerials: map<string, Port>)
      requires LightsNamed(hwmap)
      ensures this.boardSerials == boardSerials
      ensures Valid() && Built(LightMap(hwmap, boardSerials))
      ensures forall a | a in leds :: fresh(leds[a])
    {
      leds := map[];
      this.boardSerials := boardSerials;
      new;
      var i := 0;
      while i < |hwmap|
        invariant 0 <= i <= |hwmap|
        invariant LightsNamed(hwmap[..i])
        invariant Valid() && Built(LightMap(hwmap[..i], boardSerials))
        invariant forall a | a in leds :: fresh(leds[a])
      {
        var entry := hwmap[i];
        Seqs.TakeTake(hwmap, i, i + 1);
        assert hwmap[..i + 1][i] == entry;
        ghost var before := LightMap(hwmap[..i], boardSerials);
        if entry.kind == Some("light") && entry.boardName.value in boardSerials {
          var port := boardSerials[entry.boardName.value];
          AddLights(entry.mapping, port, before);
        }
        i := i + 1;
      }
      Seqs.TakeAll(hwmap, i);
    }

    /** The inner loop of the constructor over one board's mapping pairs. */
    method AddLights(pairs: seq<(string, int)>, port: Port, ghost before: map<string, Slot>)
      requires Valid() && Built(before)
      modifies this`leds
      ensures Valid() && Built(AddPairs(before, pairs, port))
      ensures forall a | a in leds :: fresh(leds[a]) || leds[a] in old(leds.Values)
    {
      var j := 0;
      while j < |pairs|
        invariant 0 <= j <= |pairs|
        invariant Valid() && Built(AddPairs(before, pairs[..j], port))
        invariant forall a | a in leds :: fresh(leds[a]) || leds[a] in old(leds.Values)
      {
        var (address, index) := pairs[j];
        Seqs.TakeTake(pairs, j, j + 1);
        assert pairs[..j + 1][j] == (address, index);
        AddLight(address, index, port, AddPairs(before, pairs[..j], port));
        j := j + 1;
      }
      Seqs.TakeAll(pairs, j);
    }

    /** One pass of the inner loop: a new LED for `address`, replacing any
        LED already filed under it. */
    method AddLight(address: string, index: int, port: Port, ghost m: map<string, Slot>)
      requires Valid() && Built(m)
      modifies this`leds
      ensures Valid()
      ensures Built(m[address := Slot(index, port)])
      ensures address in leds && fresh(leds[address])
      ensures forall a | a in leds && a != address :: a in old(leds) && leds[a] == old(leds[a])
    {
      var led := new LEDState(address, Some(port), index);
      ghost var prev := leds;
      ghost var m' := m[address := Slot(index, port)];
      assert forall a | a in prev :: prev[a] != led;
      leds := leds[address := led];
      InsertBuilt(prev, m, address, led, Slot(index, port));
      Seqs.InsertDistinct(prev, address, led);
      assert leds.Keys == m'.Keys;
    }

    /** `set_brightness`: an unknown address raises `KeyError` and changes
        nothing; a known one is set as `LEDState.set_brightness` does and no
        other LED changes. */
    method SetBrightness(address: string, brightness: int, durationMs: int, now: int) returns (r: Result<(), KeyError>)
      requires Valid()
      modifies if address in leds then {leds[address]} else {}
      ensures Valid() && leds == old(leds)
      ensures address !in leds ==> r == Err(KeyError(address))
      ensures address in leds ==>
        r == Ok(()) && leds[address].Model() == Set(old(leds[address].Model()), brightness, durationMs, now)
      ensures forall a | a in leds && a != address :: leds[a].Model() == old(leds[a].Model())
    {
      if address !in leds {
        return Err(KeyError(address));
      }
      leds[address].SetBrightness(brightness, durationMs, now);
      return Ok(());
    }
  }
}
