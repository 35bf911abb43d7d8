/** The static configuration of lib/config/config.c and config.h: the sensor, heater and
    control-loop tables, their consistency check, the first-match lookups, and the built-in
    default table. Only the fields the core reads are modelled. */
module Config {
  import opened Common

  const MAX_SENSORS: nat := 16
  const MAX_HEATERS: nat := 16
  const MAX_CONTROL_LOOPS: nat := 8
  const MAX_SENSORS_PER_LOOP: nat := 4
  const MAX_HEATERS_PER_LOOP: nat := 4

  datatype ControlAlgo = AlgoPid | AlgoOnOff | AlgoPowerLevel

  datatype SensorConfig = SensorConfig(id: string, enabled: bool)

  datatype HeaterConfig = HeaterConfig(id: string, maxPowerW: real, enabled: bool)

  datatype LoopConfig = LoopConfig(
    id: string,
    sensorIds: seq<string>, numSensors: int,
    heaterIds: seq<string>, numHeaters: int,
    defaultTargetTemperature: real, defaultStateOn: bool,
    controlAlgorithm: ControlAlgo, pGain: real, iGain: real, dGain: real,
    alarmMinTemp: real, alarmMaxTemp: real,
    heaterPowerLimitMin: real, heaterPowerLimitMax: real,
    followsLoopId: string, followsLoopScalar: real,
    enabled: bool)

  datatype ThermalConfig = ThermalConfig(
    numberOfSensors: int, numberOfHeaters: int, numberOfControlLoops: int,
    sensors: seq<SensorConfig>, heaters: seq<HeaterConfig>, controlLoops: seq<LoopConfig>)

  /** A loop entry as laid out in memory: four id slots of each kind, no more ids used than
      slots exist, and every id short enough to be copied whole. */
  predicate LoopShaped(l: LoopConfig)
  {
    && |l.sensorIds| == MAX_SENSORS_PER_LOOP && l.numSensors <= MAX_SENSORS_PER_LOOP
    && |l.heaterIds| == MAX_HEATERS_PER_LOOP && l.numHeaters <= MAX_HEATERS_PER_LOOP
    && ValidId(l.id) && ValidId(l.followsLoopId)
    && (forall j :: 0 <= j < |l.sensorIds| ==> ValidId(l.sensorIds[j]))
    && (forall j :: 0 <= j < |l.heaterIds| ==> ValidId(l.heaterIds[j]))
  }

  /** A `thermal_config_t` as laid out in memory: fixed-size tables of well-formed entries. */
  predicate Shaped(c: ThermalConfig)
  {
    && |c.sensors| == MAX_SENSORS && |c.heaters| == MAX_HEATERS
    && |c.controlLoops| == MAX_CONTROL_LOOPS
    && (forall k :: 0 <= k < |c.sensors| ==> ValidId(c.sensors[k].id))
    && (forall k :: 0 <= k < |c.heaters| ==> ValidId(c.heaters[k].id))
    && (forall k :: 0 <= k < |c.controlLoops| ==> LoopShaped(c.controlLoops[k]))
  }

  /** The ids of the first `numberOfSensors` sensors. */
  function SensorIds(c: ThermalConfig): (ids: seq<string>)
    requires Shaped(c) && c.numberOfSensors <= MAX_SENSORS
    ensures |ids| == Count(c.numberOfSensors)
    ensures forall k :: 0 <= k < |ids| ==> ids[k] == c.sensors[k].id
  {
    seq(Count(c.numberOfSensors), k requires 0 <= k < Count(c.numberOfSensors) => c.sensors[k].id)
  }

  /** The ids of the first `numberOfHeaters` heaters. */
  function HeaterIds(c: ThermalConfig): (ids: seq<string>)
    requires Shaped(c) && c.numberOfHeaters <= MAX_HEATERS
    ensures |ids| == Count(c.numberOfHeaters)
    ensures forall k :: 0 <= k < |ids| ==> ids[k] == c.heaters[k].id
  {
    seq(Count(c.numberOfHeaters), k requires 0 <= k < Count(c.numberOfHeaters) => c.heaters[k].id)
  }

  /** The ids of the first `numberOfControlLoops` loops. */
  function LoopIds(c: ThermalConfig): (ids: seq<string>)
    requires Shaped(c) && c.numberOfControlLoops <= MAX_CONTROL_LOOPS
    ensures |ids| == Count(c.numberOfControlLoops)
    ensures forall k :: 0 <= k < |ids| ==> ids[k] == c.controlLoops[k].id
  {
    seq(Count(c.numberOfControlLoops),
        k requires 0 <= k < Count(c.numberOfControlLoops) => c.controlLoops[k].id)
  }

  /** The counts are within the table capacities. */
  predicate CountsFit(c: ThermalConfig)
  {
    c.numberOfSensors <= MAX_SENSORS && c.numberOfHeaters <= MAX_HEATERS
    && c.numberOfControlLoops <= MAX_CONTROL_LOOPS
  }

  /** Whether every one of the first `n` ids of `refs` occurs in `known`: the nested
      `found` search of config_validate. */
  function AllFound(refs: seq<string>, n: int, known: seq<string>): (b: bool)
    requires Count(n) <= |refs|
    ensures b <==> forall j :: 0 <= j < Count(n) ==> refs[j] in known
  {
    forall j :: 0 <= j < Count(n) ==> FirstMatch(known, refs[j]).Some?
  }

  /** The status config_validate derives from one loop entry. */
  function LoopCode(c: ThermalConfig, l: LoopConfig): int
    requires Shaped(c) && CountsFit(c) && LoopShaped(l)
  {
    if !l.enabled then 0
    else if !AllFound(l.sensorIds, l.numSensors, SensorIds(c)) then -5
    else if !AllFound(l.heaterIds, l.numHeaters, HeaterIds(c)) then -6
    else if |l.followsLoopId| > 0 && l.followsLoopId == l.id then -7
    else 0
  }

  /** The loop checks of config_validate from loop `i` on: the first failing loop decides. */
  function CheckLoops(c: ThermalConfig, i: nat): (r: int)
    requires Shaped(c) && CountsFit(c)
    ensures r in {0, -5, -6, -7}
    decreases Count(c.numberOfControlLoops) - i
  {
    if i >= Count(c.numberOfControlLoops) then 0
    else
      var code := LoopCode(c, c.controlLoops[i]);
      if code != 0 then code else CheckLoops(c, i + 1)
  }

  /** config_validate; `None` stands for a NULL pointer. */
  function Validate(c: Option<ThermalConfig>): (r: int)
    requires c.Some? ==> Shaped(c.value)
    ensures r == -1 <==> c.None?
    ensures c.Some? && c.value.numberOfSensors > MAX_SENSORS ==> r == -2
    ensures (c.Some? && c.value.numberOfSensors <= MAX_SENSORS
             && c.value.numberOfHeaters > MAX_HEATERS) ==> r == -3
    ensures (c.Some? && c.value.numberOfSensors <= MAX_SENSORS
             && c.value.numberOfHeaters <= MAX_HEATERS
             && c.value.numberOfControlLoops > MAX_CONTROL_LOOPS) ==> r == -4
    ensures r in {0, -1, -2, -3, -4, -5, -6, -7}
  {
    match c
    case None => -1
    case Some(cfg) =>
      if cfg.numberOfSensors > MAX_SENSORS then -2
      else if cfg.numberOfHeaters > MAX_HEATERS then -3
      else if cfg.numberOfControlLoops > MAX_CONTROL_LOOPS then -4
      else CheckLoops(cfg, 0)
  }

  /** Every enabled loop among the first `numberOfControlLoops` references only defined
      sensors and heaters and does not follow itself. Disabled loops are not looked at, and
      neither are follow cycles through other loops nor follow ids that name no loop. */
  predicate LoopsConsistent(c: ThermalConfig)
    requires Shaped(c) && CountsFit(c)
  {
    forall i :: 0 <= i < Count(c.numberOfControlLoops) && c.controlLoops[i].enabled ==>
      var l := c.controlLoops[i];
      && (forall j :: 0 <= j < Count(l.numSensors) ==> l.sensorIds[j] in SensorIds(c))
      && (forall j :: 0 <= j < Count(l.numHeaters) ==> l.heaterIds[j] in HeaterIds(c))
      && !(|l.followsLoopId| > 0 && l.followsLoopId == l.id)
  }

  lemma {:induction false} CheckLoopsZero(c: ThermalConfig, i: nat)
    requires Shaped(c) && CountsFit(c)
    ensures CheckLoops(c, i) == 0 <==>
      forall k :: i <= k < Count(c.numberOfControlLoops) ==> LoopCode(c, c.controlLoops[k]) == 0
    decreases Count(c.numberOfControlLoops) - i
  {
    if i < Count(c.numberOfControlLoops) {
      CheckLoopsZero(c, i + 1);
    }
  }

  /** config_validate accepts exactly the configurations whose counts fit and whose enabled
      loops are consistent. */
  lemma ValidateAcceptsExactly(c: ThermalConfig)
    requires Shaped(c)
    ensures Validate(Some(c)) == 0 <==> CountsFit(c) && LoopsConsistent(c)
  {
    if CountsFit(c) {
      CheckLoopsZero(c, 0);
    }
  }

  lemma {:induction false} CheckLoopsFirstFailure(c: ThermalConfig, i: nat, f: nat)
    requires Shaped(c) && CountsFit(c)
    requires i <= f < Count(c.numberOfControlLoops)
    requires LoopCode(c, c.controlLoops[f]) != 0
    requires forall k :: i <= k < f ==> LoopCode(c, c.controlLoops[k]) == 0
    ensures CheckLoops(c, i) == LoopCode(c, c.controlLoops[f])
    decreases f - i
  {
    if i < f {
      CheckLoopsFirstFailure(c, i + 1, f);
    }
  }

  /** When the counts fit, the first failing loop in table order decides the status. */
  lemma ValidateFirstFailingLoop(c: ThermalConfig, f: nat)
    requires Shaped(c) && CountsFit(c)
    requires f < Count(c.numberOfControlLoops)
    requires LoopCode(c, c.controlLoops[f]) != 0
    requires forall k :: 0 <= k < f ==> LoopCode(c, c.controlLoops[k]) == 0
    ensures Validate(Some(c)) == LoopCode(c, c.controlLoops[f])
    ensures Validate(Some(c)) in {-5, -6, -7}
  {
    CheckLoopsFirstFailure(c, 0, f);
  }

  /** config_find_sensor: the index of the first of the first `numberOfSensors` sensors with
      the given id (the C function returns a pointer to that entry), or `None` for NULL. */
  function FindSensor(c: ThermalConfig, id: string): (r: Option<nat>)
    requires Shaped(c) && c.numberOfSensors <= MAX_SENSORS
    ensures r.Some? ==> r.value < Count(c.numberOfSensors) && c.sensors[r.value].id == id
    ensures r.Some? ==> forall k :: 0 <= k < r.value ==> c.sensors[k].id != id
    ensures r.None? <==> forall k :: 0 <= k < Count(c.numberOfSensors) ==> c.sensors[k].id != id
  {
    var r := FirstMatch(SensorIds(c), id);
    assert r.Some? ==> forall k :: 0 <= k < r.value ==> SensorIds(c)[..r.value][k] == c.sensors[k].id;
    r
  }

  /** config_find_heater, as FindSensor over the heater table. */
  function FindHeater(c: ThermalConfig, id: string): (r: Option<nat>)
    requires Shaped(c) && c.numberOfHeaters <= MAX_HEATERS
    ensures r.Some? ==> r.value < Count(c.numberOfHeaters) && c.heaters[r.value].id == id
    ensures r.Some? ==> forall k :: 0 <= k < r.value ==> c.heaters[k].id != id
    ensures r.None? <==> forall k :: 0 <= k < Count(c.numberOfHeaters) ==> c.heaters[k].id != id
  {
    var r := FirstMatch(HeaterIds(c), id);
    assert r.Some? ==> forall k :: 0 <= k < r.value ==> HeaterIds(c)[..r.value][k] == c.heaters[k].id;
    r
  }

  /** config_find_loop, as FindSensor over the control-loop table. */
  function FindLoop(c: ThermalConfig, id: string): (r: Option<nat>)
    requires Shaped(c) && c.numberOfControlLoops <= MAX_CONTROL_LOOPS
    ensures r.Some? ==> r.value < Count(c.numberOfControlLoops) && c.controlLoops[r.value].id == id
    ensures r.Some? ==> forall k :: 0 <= k < r.value ==> c.controlLoops[k].id != id
    ensures r.None? <==>
      forall k :: 0 <= k < Count(c.numberOfControlLoops) ==> c.controlLoops[k].id != id
  {
    var r := FirstMatch(LoopIds(c), id);
    assert r.Some? ==> forall k :: 0 <= k < r.value ==> LoopIds(c)[..r.value][k] == c.controlLoops[k].id;
    r
  }

  /** A follow cycle through two loops is not rejected: only a loop naming itself is. */
  lemma MutualFollowAccepted(c: ThermalConfig)
    requires Shaped(c) && CountsFit(c) && c.numberOfControlLoops == 2
    requires c.controlLoops[0].id != c.controlLoops[1].id
    requires c.controlLoops[0].followsLoopId == c.controlLoops[1].id
    requires c.controlLoops[1].followsLoopId == c.controlLoops[0].id
    requires forall i :: 0 <= i < 2 ==>
      && AllFound(c.controlLoops[i].sensorIds, c.controlLoops[i].numSensors, SensorIds(c))
      && AllFound(c.controlLoops[i].heaterIds, c.controlLoops[i].numHeaters, HeaterIds(c))
    ensures Validate(Some(c)) == 0
  {
    ValidateAcceptsExactly(c);
  }

  /** The checks config_validate and the lookups make on the default table, from the entries
      that config_load_defaults fills in. */
  lemma DefaultTableValidates(c: ThermalConfig)
    requires Shaped(c)
    requires c.numberOfSensors == 1 && c.numberOfHeaters == 2 && c.numberOfControlLoops == 2
    requires c.sensors[0].id == "sensor-1"
    requires c.heaters[0].id == "heater-1" && c.heaters[1].id == "heater-2"
    requires c.controlLoops[0].id == "loop-1" && c.controlLoops[1].id == "loop-2"
    requires c.controlLoops[0].sensorIds[0] == "sensor-2" && c.controlLoops[0].numSensors == 1
    requires !c.controlLoops[0].enabled
    requires c.controlLoops[1].sensorIds[0] == "sensor-1" && c.controlLoops[1].numSensors == 1
    requires c.controlLoops[1].heaterIds[0] == "heater-1" && c.controlLoops[1].numHeaters == 1
    requires c.controlLoops[1].followsLoopId == ""
    ensures FindSensor(c, "sensor-2").None?
    ensures FindLoop(c, "loop-2") == Some(1) && FindHeater(c, "heater-2") == Some(1)
    ensures Validate(Some(c)) == 0
  {
    assert SensorIds(c) == ["sensor-1"];
    assert HeaterIds(c) == ["heater-1", "heater-2"];
    assert LoopIds(c) == ["loop-1", "loop-2"];
    assert LoopCode(c, c.controlLoops[1]) == 0;
    ValidateAcceptsExactly(c);
  }

  /** An all-zero loop entry (memset storage); algorithm 0 is PID. */
  const ZeroLoop := LoopConfig("", ["", "", "", ""], 0, ["", "", "", ""], 0, 0.0, false,
                               AlgoPid, 0.0, 0.0, 0.0, 0.0, 0.0, 0.0, 0.0, "", 0.0, false)

  /** A default loop entry: one sensor, one heater, PID with gains 2/0.5/0.1, alarm band
      273.15-353.15 K, power 0-50 W, following no loop. */
  function DefaultLoop(id: string, sensorId: string, heaterId: string, target: real, enabled: bool): (l: LoopConfig)
    requires ValidId(id) && ValidId(sensorId) && ValidId(heaterId)
    ensures LoopShaped(l)
  {
    ZeroLoop.(
      id := id,
      sensorIds := ZeroLoop.sensorIds[0 := sensorId], numSensors := 1,
      heaterIds := ZeroLoop.heaterIds[0 := heaterId], numHeaters := 1,
      defaultTargetTemperature := target, defaultStateOn := true,
      controlAlgorithm := AlgoPid, pGain := 2.0, iGain := 0.5, dGain := 0.1,
      alarmMinTemp := 273.15, alarmMaxTemp := 353.15,
      heaterPowerLimitMin := 0.0, heaterPowerLimitMax := 50.0,
      followsLoopId := "", followsLoopScalar := 1.0,
      enabled := enabled)
  }

  /** config_load_defaults: clear the static table, then fill in one sensor, two heaters and
      two loops. Loop "loop-1" references "sensor-2", which is not defined, but it is
      disabled, so the table validates. */
  method LoadDefaults() returns (c: ThermalConfig)
    ensures Shaped(c)
    ensures c.numberOfSensors == 1 && c.numberOfHeaters == 2 && c.numberOfControlLoops == 2
    ensures FindSensor(c, "sensor-2").None? && c.controlLoops[0].sensorIds[0] == "sensor-2"
    ensures !c.controlLoops[0].enabled && c.controlLoops[1].enabled
    ensures FindLoop(c, "loop-2") == Some(1) && FindHeater(c, "heater-2") == Some(1)
    ensures Validate(Some(c)) == 0
  {
    var loop1 := DefaultLoop("loop-1", "sensor-2", "heater-2", 308.15, false);
    var loop2 := DefaultLoop("loop-2", "sensor-1", "heater-1", 313.15, true);
    // The cleared table with the default entries written over its first slots.
    c := ThermalConfig(1, 2, 2,
      seq(MAX_SENSORS, k requires 0 <= k < MAX_SENSORS =>
        if k == 0 then SensorConfig("sensor-1", true) else SensorConfig("", false)),
      seq(MAX_HEATERS, k requires 0 <= k < MAX_HEATERS =>
        if k == 0 then HeaterConfig("heater-1", 50.0, true)
        else if k == 1 then HeaterConfig("heater-2", 50.0, true)
        else HeaterConfig("", 0.0, false)),
      seq(MAX_CONTROL_LOOPS, k requires 0 <= k < MAX_CONTROL_LOOPS =>
        if k == 0 then loop1 else if k == 1 then loop2 else ZeroLoop));
    DefaultTableValidates(c);
  }
}
