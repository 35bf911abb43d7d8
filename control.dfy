/** The control-loop engine of lib/control/control_loop.c: a table of up to eight loops, each
    with its own PID controller, driven by one update_all tick that averages the loop's
    sensors, checks the alarm band, resolves the setpoint (following another loop when
    configured), runs the PID and spreads its output over the loop's heaters. */
module Control {
  import opened Common
  import opened Config
  import opened Pid
  import Sensors
  import Heaters

  /** loop_status_t (OK 0, DISABLED -1, SENSOR_ERROR -2, ALARM -3, NOT_INITIALIZED -4). */
  datatype LoopStatus = LoopOk | LoopDisabled | LoopSensorError | LoopAlarm | LoopNotInitialized

  /** One entry of the file-scope `loop_state[]`; the PID is embedded by value. */
  datatype LoopState = LoopState(
    id: string, pid: PidState,
    sensorIds: seq<string>, numSensors: int,
    heaterIds: seq<string>, numHeaters: int,
    targetTempKelvin: real, currentSetpoint: real,
    alarmMinTemp: real, alarmMaxTemp: real,
    powerLimitMin: real, powerLimitMax: real,
    followsLoopId: string, followsScalar: real,
    enabled: bool, suspended: bool, status: LoopStatus)

  /** An entry in zeroed static storage. */
  const ZeroState := LoopState(
    "", ZeroPid,
    seq(MAX_SENSORS_PER_LOOP, _ => ""), 0, seq(MAX_HEATERS_PER_LOOP, _ => ""), 0,
    0.0, 0.0, 0.0, 0.0, 0.0, 0.0, "", 0.0, false, false, LoopOk)

  /** An entry's fixed-size id arrays, with no more ids in use than they hold. */
  predicate StateShaped(l: LoopState)
  {
    && |l.sensorIds| == MAX_SENSORS_PER_LOOP && l.numSensors <= MAX_SENSORS_PER_LOOP
    && |l.heaterIds| == MAX_HEATERS_PER_LOOP && l.numHeaters <= MAX_HEATERS_PER_LOOP
  }

  /** The whole table: eight well-shaped entries and a loop count within capacity. */
  predicate TableShaped(ls: seq<LoopState>, n: int)
  {
    |ls| == MAX_CONTROL_LOOPS && n <= MAX_CONTROL_LOOPS
    && forall k :: 0 <= k < |ls| ==> StateShaped(ls[k])
  }

  /** Two tables that differ at most in the runtime fields: PID, target, current setpoint,
      enabled, suspended and status. Every operation but init keeps this. */
  predicate SameConfig(a: seq<LoopState>, b: seq<LoopState>)
  {
    |a| == |b| &&
    forall k :: 0 <= k < |a| ==>
      a[k] == b[k].(pid := a[k].pid, targetTempKelvin := a[k].targetTempKelvin,
                    currentSetpoint := a[k].currentSetpoint, enabled := a[k].enabled,
                    suspended := a[k].suspended, status := a[k].status)
  }

  lemma SameConfigShaped(a: seq<LoopState>, b: seq<LoopState>, n: int)
    requires SameConfig(a, b) && TableShaped(a, n)
    ensures TableShaped(b, n)
  {
    forall k | 0 <= k < |b|
      ensures StateShaped(b[k])
    {
      assert a[k].sensorIds == b[k].sensorIds && a[k].heaterIds == b[k].heaterIds;
    }
  }

  // ---------------------------------------------------------------------------------------
  // Initialisation

  /** The id slots after a `strncpy` loop over the first `n` ids: those taken from `src`, the
      others left as they were (control_loop_init does not clear the table first). */
  function CopiedIds(dst: seq<string>, src: seq<string>, n: int): (r: seq<string>)
    requires Count(n) <= |dst| && Count(n) <= |src|
    ensures |r| == |dst|
    ensures r[..Count(n)] == src[..Count(n)] && r[Count(n)..] == dst[Count(n)..]
  {
    seq(|dst|, j requires 0 <= j < |dst| => if j < Count(n) then src[j] else dst[j])
  }

  /** An entry after control_loop_init copied configuration `cfg` over it. The PID is
      initialised only for the PID algorithm; otherwise it keeps whatever it held. */
  function FromConfig(l: LoopState, cfg: LoopConfig): (r: LoopState)
    requires StateShaped(l) && LoopShaped(cfg)
    ensures StateShaped(r)
  {
    l.(id := cfg.id,
       enabled := cfg.enabled && cfg.defaultStateOn, suspended := false, status := LoopOk,
       sensorIds := CopiedIds(l.sensorIds, cfg.sensorIds, cfg.numSensors),
       numSensors := cfg.numSensors,
       heaterIds := CopiedIds(l.heaterIds, cfg.heaterIds, cfg.numHeaters),
       numHeaters := cfg.numHeaters,
       targetTempKelvin := cfg.defaultTargetTemperature,
       currentSetpoint := cfg.defaultTargetTemperature,
       alarmMinTemp := cfg.alarmMinTemp, alarmMaxTemp := cfg.alarmMaxTemp,
       powerLimitMin := cfg.heaterPowerLimitMin, powerLimitMax := cfg.heaterPowerLimitMax,
       followsLoopId := cfg.followsLoopId, followsScalar := cfg.followsLoopScalar,
       pid := if cfg.controlAlgorithm == AlgoPid
              then Initialized(cfg.pGain, cfg.iGain, cfg.dGain,
                               cfg.heaterPowerLimitMin, cfg.heaterPowerLimitMax)
              else l.pid)
  }

  /** The table after a successful control_loop_init: the first loops loaded from the
      configuration in order, the rest untouched. */
  function InitialTable(ls: seq<LoopState>, c: ThermalConfig): (r: seq<LoopState>)
    requires TableShaped(ls, 0) && Shaped(c) && c.numberOfControlLoops <= MAX_CONTROL_LOOPS
    ensures TableShaped(r, c.numberOfControlLoops)
  {
    seq(|ls|, k requires 0 <= k < |ls| =>
      if k < Count(c.numberOfControlLoops) then FromConfig(ls[k], c.controlLoops[k]) else ls[k])
  }

  /** What control_loop_init promises for each configured loop: enabled only when both the
      enabled flag and the default state are on, not suspended, status OK, target and current
      setpoint at the default target, the ids copied, and the PID freshly initialised with the
      configured gains and the power limits as output limits when the algorithm is PID. */
  lemma InitialLoop(ls: seq<LoopState>, c: ThermalConfig, k: nat)
    requires TableShaped(ls, 0) && Shaped(c) && c.numberOfControlLoops <= MAX_CONTROL_LOOPS
    requires k < Count(c.numberOfControlLoops)
    ensures var l := InitialTable(ls, c)[k]; var cfg := c.controlLoops[k];
      && l.id == cfg.id
      && (l.enabled <==> cfg.enabled && cfg.defaultStateOn)
      && !l.suspended && l.status == LoopOk
      && l.targetTempKelvin == l.currentSetpoint == cfg.defaultTargetTemperature
      && l.sensorIds[..Count(cfg.numSensors)] == cfg.sensorIds[..Count(cfg.numSensors)]
      && l.heaterIds[..Count(cfg.numHeaters)] == cfg.heaterIds[..Count(cfg.numHeaters)]
      && (cfg.controlAlgorithm == AlgoPid ==>
            l.pid.kp == cfg.pGain && l.pid.ki == cfg.iGain && l.pid.kd == cfg.dGain
            && l.pid.integral == 0.0 && l.pid.prevError == 0.0
            && l.pid.outputMin == l.pid.integralMin == cfg.heaterPowerLimitMin
            && l.pid.outputMax == l.pid.integralMax == cfg.heaterPowerLimitMax)
      && (cfg.controlAlgorithm != AlgoPid ==> l.pid == ls[k].pid)
  {
  }

  // ---------------------------------------------------------------------------------------
  // Search by id

  /** The ids of the first `n` loops. */
  function StateIds(ls: seq<LoopState>, n: int): seq<string>
    requires Count(n) <= |ls|
  {
    Keys(ls, n, (l: LoopState) => l.id)
  }

  /** The loop the `strcmp` search finds for `id`. */
  function Lookup(ls: seq<LoopState>, n: int, id: string): (r: Option<nat>)
    requires Count(n) <= |ls|
    ensures r.Some? ==> r.value < Count(n) && ls[r.value].id == id
    ensures r.Some? ==> forall k :: 0 <= k < r.value ==> ls[k].id != id
    ensures r.None? <==> forall k :: 0 <= k < Count(n) ==> ls[k].id != id
  {
    var r := FirstMatch(StateIds(ls, n), id);
    assert forall k :: 0 <= k < Count(n) ==> StateIds(ls, n)[k] == ls[k].id;
    assert r.Some? ==> forall k :: 0 <= k < r.value ==> StateIds(ls, n)[..r.value][k] == ls[k].id;
    r
  }

  lemma SameConfigLookup(a: seq<LoopState>, b: seq<LoopState>, n: int, id: string)
    requires SameConfig(a, b) && Count(n) <= |a|
    ensures Lookup(a, n, id) == Lookup(b, n, id)
  {
    assert StateIds(a, n) == StateIds(b, n);
  }

  // ---------------------------------------------------------------------------------------
  // One update_all tick

  /** The setpoint a follower takes from the loop it follows. */
  function Followed(leaderSetpoint: real, scalar: real): real
  {
    leaderSetpoint * scalar
  }

  /** The setpoint update_all uses for loop `i`: the current setpoint of the first loop whose
      id is the followed id, scaled, when the loop follows one that exists; else its own. */
  function Setpoint(ls: seq<LoopState>, n: int, i: nat): real
    requires i < |ls| && Count(n) <= |ls|
  {
    var l := ls[i];
    if |l.followsLoopId| > 0 then
      match Lookup(ls, n, l.followsLoopId)
      case Some(j) => Followed(ls[j].currentSetpoint, l.followsScalar)
      case None => l.currentSetpoint
    else l.currentSetpoint
  }

  /** Whether update_all works on a loop at all. */
  predicate Active(l: LoopState)
  {
    l.enabled && !l.suspended
  }

  /** What update_all does for loop `i` of `ls`, given the sensor cache and the heater table:
      the loop's new entry, the new heater table and the errors it counts. */
  function Step(ls: seq<LoopState>, n: int, i: nat, cache: seq<Sensors.CacheSlot>, sn: int,
                slots: seq<Heaters.HeaterSlot>, hn: int, dt: real)
    : (r: (LoopState, seq<Heaters.HeaterSlot>, nat))
    requires i < |ls| && Count(n) <= |ls| && StateShaped(ls[i])
    requires Count(sn) <= |cache| && Count(hn) <= |slots|
    ensures r.0 == ls[i].(pid := r.0.pid, currentSetpoint := r.0.currentSetpoint, status := r.0.status)
    ensures r.0.pid == ls[i].pid.(integral := r.0.pid.integral, prevError := r.0.pid.prevError)
    ensures r.0.status == ls[i].status || r.0.status == LoopSensorError || r.0.status == LoopOk
    ensures Heaters.SameShape(slots, r.1)
    ensures r.2 <= 2
  {
    var l := ls[i];
    if !Active(l) then (l, slots, 0)
    else
      var average := Sensors.Average(cache, sn, Some(l.sensorIds), l.numSensors, Some(0.0));
      if average.0 != 0 then (l.(status := LoopSensorError), slots, 1)
      else
        Regulated(ls, n, i, average.1.value, slots, hn, dt)
  }

  /** The rest of update_all's round for loop `i` once its sensors averaged to `measured`: an
      alarm counted when outside the band, the setpoint resolved and stored, the PID stepped,
      its output distributed over the loop's heaters (a failure counted), and status OK. */
  function Regulated(ls: seq<LoopState>, n: int, i: nat, measured: real,
                     slots: seq<Heaters.HeaterSlot>, hn: int, dt: real)
    : (r: (LoopState, seq<Heaters.HeaterSlot>, nat))
    requires i < |ls| && Count(n) <= |ls| && StateShaped(ls[i]) && Count(hn) <= |slots|
    ensures var setpoint := Setpoint(ls, n, i);
      r.0 == ls[i].(currentSetpoint := setpoint, pid := Stepped(ls[i].pid, setpoint, measured, dt),
                    status := LoopOk)
    ensures Heaters.SameShape(slots, r.1)
    ensures r.2 <= 2
  {
    var l := ls[i];
    var alarm: nat := if measured < l.alarmMinTemp || measured > l.alarmMaxTemp then 1 else 0;
    var setpoint := Setpoint(ls, n, i);
    var output := Output(l.pid, setpoint, measured, dt);
    var distribution := Heaters.Distribution(slots, hn, Some(l.heaterIds), l.numHeaters, output);
    (l.(currentSetpoint := setpoint, pid := Stepped(l.pid, setpoint, measured, dt),
        status := LoopOk),
     distribution.1,
     alarm + if distribution.0 != 0 then 1 else 0)
  }

  /** The three parts of `Regulated`, named. */
  lemma RegulatedParts(ls: seq<LoopState>, n: int, i: nat, measured: real,
                       slots: seq<Heaters.HeaterSlot>, hn: int, dt: real)
    requires i < |ls| && Count(n) <= |ls| && StateShaped(ls[i]) && Count(hn) <= |slots|
    ensures var l := ls[i];
      var setpoint := Setpoint(ls, n, i);
      var d := Heaters.Distribution(slots, hn, Some(l.heaterIds), l.numHeaters,
                                    Output(l.pid, setpoint, measured, dt));
      var r := Regulated(ls, n, i, measured, slots, hn, dt);
      && r.0 == l.(currentSetpoint := setpoint, pid := Stepped(l.pid, setpoint, measured, dt), status := LoopOk)
      && r.1 == d.1
      && r.2 == (if measured < l.alarmMinTemp || measured > l.alarmMaxTemp then 1 else 0)
                + (if d.0 != 0 then 1 else 0)
  {
  }

  /** The loop table, heater table and error count after update_all has handled the first
      `k` loops. */
  function Tick(ls: seq<LoopState>, n: int, k: nat, cache: seq<Sensors.CacheSlot>, sn: int,
                slots: seq<Heaters.HeaterSlot>, hn: int, dt: real)
    : (r: (seq<LoopState>, seq<Heaters.HeaterSlot>, nat))
    requires TableShaped(ls, n) && k <= Count(n)
    requires Count(sn) <= |cache| && Count(hn) <= |slots|
    ensures SameConfig(ls, r.0) && TableShaped(r.0, n)
    ensures forall j :: k <= j < |ls| ==> r.0[j] == ls[j]
    ensures Heaters.SameShape(slots, r.1)
    ensures r.2 <= 2 * k
    decreases k
  {
    if k == 0 then (ls, slots, 0)
    else
      var before := Tick(ls, n, k - 1, cache, sn, slots, hn, dt);
      var step := Step(before.0, n, k - 1, cache, sn, before.1, hn, dt);
      var r := (before.0[k - 1 := step.0], step.1, before.2 + step.2);
      SameConfigShaped(ls, r.0, n);
      r
  }

  /** A loop that update_all skips, disabled or suspended, keeps its entry exactly. */
  lemma {:induction false} TickSettled(ls: seq<LoopState>, n: int, k: nat, cache: seq<Sensors.CacheSlot>,
                                       sn: int, slots: seq<Heaters.HeaterSlot>, hn: int, dt: real, i: nat)
    requires TableShaped(ls, n) && i < k <= Count(n)
    requires Count(sn) <= |cache| && Count(hn) <= |slots|
    ensures Tick(ls, n, k, cache, sn, slots, hn, dt).0[i] == Tick(ls, n, i + 1, cache, sn, slots, hn, dt).0[i]
    ensures Tick(ls, n, k, cache, sn, slots, hn, dt).2 >= Tick(ls, n, i + 1, cache, sn, slots, hn, dt).2
    decreases k
  {
    if k > i + 1 {
      TickSettled(ls, n, k - 1, cache, sn, slots, hn, dt, i);
    }
  }

  /** update_all leaves a disabled or suspended loop's entry exactly as it was, and such a
      loop does not touch the heaters or count an error. */
  lemma IdleLoopUntouched(ls: seq<LoopState>, n: int, cache: seq<Sensors.CacheSlot>, sn: int,
                          slots: seq<Heaters.HeaterSlot>, hn: int, dt: real, i: nat)
    requires TableShaped(ls, n) && i < Count(n)
    requires Count(sn) <= |cache| && Count(hn) <= |slots|
    requires !Active(ls[i])
    ensures Tick(ls, n, Count(n), cache, sn, slots, hn, dt).0[i] == ls[i]
    ensures Tick(ls, n, i + 1, cache, sn, slots, hn, dt).1 == Tick(ls, n, i, cache, sn, slots, hn, dt).1
    ensures Tick(ls, n, i + 1, cache, sn, slots, hn, dt).2 == Tick(ls, n, i, cache, sn, slots, hn, dt).2
  {
    TickSettled(ls, n, Count(n), cache, sn, slots, hn, dt, i);
  }

  /** What one tick does to an enabled, unsuspended loop `i`. When its sensor average fails
      it gets SENSOR_ERROR, an error is counted and neither its PID, its setpoint nor any
      heater changes. Otherwise its PID steps on the averaged temperature, and it ends the
      tick with status OK even when the temperature was outside the alarm band; the alarm
      is only counted as an error. */
  lemma ActiveLoop(ls: seq<LoopState>, n: int, cache: seq<Sensors.CacheSlot>, sn: int,
                   slots: seq<Heaters.HeaterSlot>, hn: int, dt: real, i: nat)
    requires TableShaped(ls, n) && i < Count(n)
    requires Count(sn) <= |cache| && Count(hn) <= |slots|
    requires Active(ls[i])
    ensures var l := ls[i];
      var average := Sensors.Average(cache, sn, Some(l.sensorIds), l.numSensors, Some(0.0));
      var after := Tick(ls, n, Count(n), cache, sn, slots, hn, dt);
      && (average.0 != 0 ==>
            && after.0[i] == l.(status := LoopSensorError) && after.2 >= 1
            && Tick(ls, n, i + 1, cache, sn, slots, hn, dt).1 == Tick(ls, n, i, cache, sn, slots, hn, dt).1)
      && (average.0 == 0 ==>
            var measured := average.1.value;
            && after.0[i].status == LoopOk
            && after.0[i].pid == Stepped(l.pid, after.0[i].currentSetpoint, measured, dt)
            && (measured < l.alarmMinTemp || measured > l.alarmMaxTemp ==> after.2 >= 1))
  {
    TickSettled(ls, n, Count(n), cache, sn, slots, hn, dt, i);
  }

  /** The errors one enabled, unsuspended loop adds to the tick's count, and the heater table
      it leaves: one error and no heater change when its sensors fail; otherwise one error
      for a temperature outside the alarm band plus one when distributing its PID output
      fails, and the heater table is what that distribution makes of the table before it. */
  lemma ActiveLoopErrors(ls: seq<LoopState>, n: int, cache: seq<Sensors.CacheSlot>, sn: int,
                         slots: seq<Heaters.HeaterSlot>, hn: int, dt: real, i: nat)
    requires TableShaped(ls, n) && i < Count(n)
    requires Count(sn) <= |cache| && Count(hn) <= |slots|
    requires Active(ls[i])
    ensures var l := ls[i];
      var average := Sensors.Average(cache, sn, Some(l.sensorIds), l.numSensors, Some(0.0));
      var before := Tick(ls, n, i, cache, sn, slots, hn, dt);
      var next := Tick(ls, n, i + 1, cache, sn, slots, hn, dt);
      && (average.0 != 0 ==> next.1 == before.1 && next.2 == before.2 + 1)
      && (average.0 == 0 ==>
            var measured := average.1.value;
            var d := Heaters.Distribution(before.1, hn, Some(l.heaterIds), l.numHeaters,
                                          Output(l.pid, next.0[i].currentSetpoint, measured, dt));
            && next.1 == d.1
            && next.2 == before.2 + (if measured < l.alarmMinTemp || measured > l.alarmMaxTemp then 1 else 0)
                                  + (if d.0 != 0 then 1 else 0))
  {
    var before := Tick(ls, n, i, cache, sn, slots, hn, dt);
    assert before.0[i] == ls[i];
  }

  /** Loop following within one tick: a loop that follows an existing loop `j` takes `j`'s
      current setpoint times its scalar, where `j`'s setpoint is the one already stored this
      tick when `j` comes earlier in the table and the one from before the tick otherwise;
      a loop that follows nothing, or an id no loop has, keeps its own setpoint. */
  lemma FollowedSetpoint(ls: seq<LoopState>, n: int, cache: seq<Sensors.CacheSlot>, sn: int,
                         slots: seq<Heaters.HeaterSlot>, hn: int, dt: real, i: nat)
    requires TableShaped(ls, n) && i < Count(n)
    requires Count(sn) <= |cache| && Count(hn) <= |slots|
    requires Active(ls[i])
    requires Sensors.Average(cache, sn, Some(ls[i].sensorIds), ls[i].numSensors, Some(0.0)).0 == 0
    ensures var f := ls[i].followsLoopId;
      var after := Tick(ls, n, Count(n), cache, sn, slots, hn, dt).0;
      && (|f| == 0 || Lookup(ls, n, f).None? ==> after[i].currentSetpoint == ls[i].currentSetpoint)
      && (|f| > 0 && Lookup(ls, n, f).Some? ==>
            var j := Lookup(ls, n, f).value;
            after[i].currentSetpoint
              == Followed((if j < i then after[j] else ls[j]).currentSetpoint, ls[i].followsScalar))
  {
    var before := Tick(ls, n, i, cache, sn, slots, hn, dt);
    var after := Tick(ls, n, Count(n), cache, sn, slots, hn, dt).0;
    var f := ls[i].followsLoopId;
    TickSettled(ls, n, Count(n), cache, sn, slots, hn, dt, i);
    assert after[i] == Step(before.0, n, i, cache, sn, before.1, hn, dt).0;
    assert before.0[i] == ls[i];
    assert after[i].currentSetpoint == Setpoint(before.0, n, i);
    SameConfigLookup(ls, before.0, n, f);
    if |f| > 0 && Lookup(ls, n, f).Some? {
      var j := Lookup(ls, n, f).value;
      assert Lookup(before.0, n, f) == Some(j);
      if j < i {
        TickSettled(ls, n, Count(n), cache, sn, slots, hn, dt, j);
        TickSettled(ls, n, i, cache, sn, slots, hn, dt, j);
        assert before.0[j] == after[j];
      } else {
        assert before.0[j] == ls[j];
      }
    }
  }

  /** A loop that follows no loop ends the tick with the current setpoint it started with,
      whatever happens to it during the tick. */
  lemma OwnSetpointKept(ls: seq<LoopState>, n: int, cache: seq<Sensors.CacheSlot>, sn: int,
                        slots: seq<Heaters.HeaterSlot>, hn: int, dt: real, i: nat)
    requires TableShaped(ls, n) && i < Count(n)
    requires Count(sn) <= |cache| && Count(hn) <= |slots|
    requires |ls[i].followsLoopId| == 0
    ensures Tick(ls, n, Count(n), cache, sn, slots, hn, dt).0[i].currentSetpoint == ls[i].currentSetpoint
  {
    var before := Tick(ls, n, i, cache, sn, slots, hn, dt);
    TickSettled(ls, n, Count(n), cache, sn, slots, hn, dt, i);
    assert before.0[i] == ls[i];
  }

  /** Two loops, "loop-2" following "loop-1" with scalar 0.5: setting loop-1's target to
      300 K and ticking gives loop-2 half of loop-1's current setpoint, 150 K only when that
      current setpoint already is 300 K, because set_target does not touch it. */
  lemma FollowExample(ls: seq<LoopState>, n: int, cache: seq<Sensors.CacheSlot>, sn: int,
                      slots: seq<Heaters.HeaterSlot>, hn: int, dt: real)
    requires TableShaped(ls, n) && n == 2
    requires Count(sn) <= |cache| && Count(hn) <= |slots|
    requires ls[0].id == "loop-1" && ls[0].followsLoopId == ""
    requires ls[1].id == "loop-2" && ls[1].followsLoopId == "loop-1" && ls[1].followsScalar == 0.5
    requires Active(ls[1])
    requires Sensors.Average(cache, sn, Some(ls[1].sensorIds), ls[1].numSensors, Some(0.0)).0 == 0
    ensures var retargeted := TargetSet(ls, n, Some("loop-1"), 300.0).1;
      && TableShaped(retargeted, n)
      && Tick(retargeted, n, 2, cache, sn, slots, hn, dt).0[1].currentSetpoint == ls[0].currentSetpoint * 0.5
    ensures ls[0].currentSetpoint == 300.0 ==>
      Tick(TargetSet(ls, n, Some("loop-1"), 300.0).1, n, 2, cache, sn, slots, hn, dt).0[1].currentSetpoint
        == 150.0
  {
    assert StateIds(ls, n) == ["loop-1", "loop-2"];
    assert Lookup(ls, n, "loop-1") == Some(0);
    var retargeted := TargetSet(ls, n, Some("loop-1"), 300.0).1;
    assert SameConfig(ls, retargeted);
    SameConfigShaped(ls, retargeted, n);
    SameConfigLookup(ls, retargeted, n, "loop-1");
    assert retargeted[1] == ls[1] && retargeted[0].currentSetpoint == ls[0].currentSetpoint;
    FollowedSetpoint(retargeted, n, cache, sn, slots, hn, dt, 1);
    OwnSetpointKept(retargeted, n, cache, sn, slots, hn, dt, 0);
  }

  /** Setpoint resolution reads ids, follow settings and current setpoints only. */
  lemma SameSetpoints(a: seq<LoopState>, b: seq<LoopState>, n: int, i: nat)
    requires i < |a| && Count(n) <= |a| && |b| == |a|
    requires forall j :: 0 <= j < |a| ==> b[j] == a[j].(targetTempKelvin := b[j].targetTempKelvin)
    ensures Setpoint(a, n, i) == Setpoint(b, n, i)
  {
    assert SameConfig(a, b);
    SameConfigLookup(a, b, n, a[i].followsLoopId);
  }

  /** Setpoint resolution does not read statuses. */
  lemma StatusIgnored(ls: seq<LoopState>, n: int, i: nat, status: LoopStatus)
    requires i < |ls| && Count(n) <= |ls|
    ensures Setpoint(ls[i := ls[i].(status := status)], n, i) == Setpoint(ls, n, i)
  {
    var ls' := ls[i := ls[i].(status := status)];
    assert SameConfig(ls, ls');
    SameConfigLookup(ls, ls', n, ls[i].followsLoopId);
  }

  /** One step over two tables whose loop `i` differs only in its target and which resolve the
      same setpoint for it. */
  lemma StepIgnoresTarget(ls: seq<LoopState>, ls': seq<LoopState>, n: int, i: nat,
                          cache: seq<Sensors.CacheSlot>, sn: int,
                          slots: seq<Heaters.HeaterSlot>, hn: int, dt: real)
    requires i < |ls| && Count(n) <= |ls| && StateShaped(ls[i])
    requires |ls'| == |ls| && ls'[i] == ls[i].(targetTempKelvin := ls'[i].targetTempKelvin)
    requires Setpoint(ls, n, i) == Setpoint(ls', n, i)
    requires Count(sn) <= |cache| && Count(hn) <= |slots|
    ensures StateShaped(ls'[i])
    ensures var a := Step(ls, n, i, cache, sn, slots, hn, dt);
      var b := Step(ls', n, i, cache, sn, slots, hn, dt);
      b == (a.0.(targetTempKelvin := ls'[i].targetTempKelvin), a.1, a.2)
  {
    var l, l' := ls[i], ls'[i];
    assert l'.sensorIds == l.sensorIds && l'.numSensors == l.numSensors;
    assert l'.heaterIds == l.heaterIds && l'.numHeaters == l.numHeaters;
    assert l'.pid == l.pid && l'.enabled == l.enabled && l'.suspended == l.suspended;
    assert l'.alarmMinTemp == l.alarmMinTemp && l'.alarmMaxTemp == l.alarmMaxTemp;
  }

  /** Two tables that differ only in their targets tick alike: the same heater table, the
      same error count, and entries that differ only in their targets. update_all never
      reads the target. */
  lemma {:induction false} TargetIgnored(ls: seq<LoopState>, ls': seq<LoopState>, n: int, k: nat,
                                         cache: seq<Sensors.CacheSlot>, sn: int,
                                         slots: seq<Heaters.HeaterSlot>, hn: int, dt: real)
    requires TableShaped(ls, n) && k <= Count(n)
    requires Count(sn) <= |cache| && Count(hn) <= |slots|
    requires |ls'| == |ls|
    requires forall j :: 0 <= j < |ls| ==> ls'[j] == ls[j].(targetTempKelvin := ls'[j].targetTempKelvin)
    ensures TableShaped(ls', n)
    ensures var a := Tick(ls, n, k, cache, sn, slots, hn, dt);
      var b := Tick(ls', n, k, cache, sn, slots, hn, dt);
      && a.1 == b.1 && a.2 == b.2
      && forall j :: 0 <= j < |ls| ==> b.0[j] == a.0[j].(targetTempKelvin := ls'[j].targetTempKelvin)
    decreases k
  {
    assert SameConfig(ls, ls');
    SameConfigShaped(ls, ls', n);
    if k > 0 {
      TargetIgnored(ls, ls', n, k - 1, cache, sn, slots, hn, dt);
      var a := Tick(ls, n, k - 1, cache, sn, slots, hn, dt);
      var b := Tick(ls', n, k - 1, cache, sn, slots, hn, dt);
      SameSetpoints(a.0, b.0, n, k - 1);
      StepIgnoresTarget(a.0, b.0, n, k - 1, cache, sn, a.1, hn, dt);
    }
  }

  /** A tick over a table whose loops are all suspended changes nothing and reports no
      error. */
  lemma {:induction false} SuspendedTickIdle(ls: seq<LoopState>, n: int, k: nat,
                                             cache: seq<Sensors.CacheSlot>, sn: int,
                                             slots: seq<Heaters.HeaterSlot>, hn: int, dt: real)
    requires TableShaped(ls, n) && k <= Count(n)
    requires Count(sn) <= |cache| && Count(hn) <= |slots|
    requires forall j :: 0 <= j < Count(n) ==> ls[j].suspended
    ensures Tick(ls, n, k, cache, sn, slots, hn, dt) == (ls, slots, 0)
    decreases k
  {
    if k > 0 {
      SuspendedTickIdle(ls, n, k - 1, cache, sn, slots, hn, dt);
      assert ls[k - 1 := ls[k - 1]] == ls;
    }
  }

  /** No tick leaves a loop in ALARM that was not already in it: the alarm status written
      during the tick is always overwritten. */
  lemma {:induction false} NoAlarmAfterTick(ls: seq<LoopState>, n: int, k: nat,
                                            cache: seq<Sensors.CacheSlot>, sn: int,
                                            slots: seq<Heaters.HeaterSlot>, hn: int, dt: real)
    requires TableShaped(ls, n) && k <= Count(n)
    requires Count(sn) <= |cache| && Count(hn) <= |slots|
    requires forall j :: 0 <= j < |ls| ==> ls[j].status != LoopAlarm
    ensures forall j :: 0 <= j < |ls| ==> Tick(ls, n, k, cache, sn, slots, hn, dt).0[j].status != LoopAlarm
    decreases k
  {
    if k > 0 {
      NoAlarmAfterTick(ls, n, k - 1, cache, sn, slots, hn, dt);
    }
  }

  // ---------------------------------------------------------------------------------------
  // The accessors

  /** control_loop_set_target as a function of the table; `id` None stands for NULL. */
  function TargetSet(ls: seq<LoopState>, n: int, id: Option<string>, target: real): (r: (int, seq<LoopState>))
    requires Count(n) <= |ls|
    ensures r.0 == -1 <==> id.None?
    ensures r.0 == -2 <==> id.Some? && Lookup(ls, n, id.value).None?
    ensures r.0 in {0, -1, -2}
    ensures r.0 != 0 ==> r.1 == ls
    ensures |r.1| == |ls|
    ensures forall j :: 0 <= j < |ls| ==> r.1[j] == ls[j].(targetTempKelvin := r.1[j].targetTempKelvin)
    ensures r.0 == 0 ==> var k := Lookup(ls, n, id.value).value;
      && r.1[k].targetTempKelvin == target
      && forall j :: 0 <= j < |ls| && j != k ==> r.1[j] == ls[j]
  {
    if id.None? then (-1, ls)
    else match Lookup(ls, n, id.value)
      case None => (-2, ls)
      case Some(k) => (0, ls[k := ls[k].(targetTempKelvin := target)])
  }

  /** control_loop_get_target as a function of the table: the status and the new content of
      the caller's variable (`None` for NULL), written only on success. */
  function TargetQuery(ls: seq<LoopState>, n: int, id: Option<string>, out: Option<real>): (r: (int, Option<real>))
    requires Count(n) <= |ls|
    ensures r.0 == -1 <==> id.None? || out.None?
    ensures r.0 == -2 <==> id.Some? && out.Some? && Lookup(ls, n, id.value).None?
    ensures r.0 in {0, -1, -2}
    ensures r.0 != 0 ==> r.1 == out
  {
    if id.None? || out.None? then (-1, out)
    else match Lookup(ls, n, id.value)
      case None => (-2, out)
      case Some(k) => (0, Some(ls[k].targetTempKelvin))
  }

  /** Setting a known loop's target and reading it back yields that target. */
  lemma SetThenGetTarget(ls: seq<LoopState>, n: int, id: string, target: real, out: real)
    requires Count(n) <= |ls| && Lookup(ls, n, id).Some?
    ensures TargetQuery(TargetSet(ls, n, Some(id), target).1, n, Some(id), Some(out)) == (0, Some(target))
  {
    SameConfigLookup(ls, TargetSet(ls, n, Some(id), target).1, n, id);
  }

  /** set_target has no effect on control: a tick after it drives the heaters and counts
      errors exactly as a tick without it. */
  lemma SetTargetIgnored(ls: seq<LoopState>, n: int, id: Option<string>, target: real,
                         cache: seq<Sensors.CacheSlot>, sn: int,
                         slots: seq<Heaters.HeaterSlot>, hn: int, dt: real)
    requires TableShaped(ls, n)
    requires Count(sn) <= |cache| && Count(hn) <= |slots|
    ensures TableShaped(TargetSet(ls, n, id, target).1, n)
    ensures var a := Tick(ls, n, Count(n), cache, sn, slots, hn, dt);
      var b := Tick(TargetSet(ls, n, id, target).1, n, Count(n), cache, sn, slots, hn, dt);
      a.1 == b.1 && a.2 == b.2
  {
    TargetIgnored(ls, TargetSet(ls, n, id, target).1, n, Count(n), cache, sn, slots, hn, dt);
  }

  /** control_loop_enable as a function of the table: the flag of the first loop with that
      id is written, and its PID is reset whenever enabling, even a loop already enabled;
      its suspension, status and every other loop are kept. */
  function EnableSet(ls: seq<LoopState>, n: int, id: Option<string>, enable: bool): (r: (int, seq<LoopState>))
    requires Count(n) <= |ls|
    ensures r.0 == -1 <==> id.None?
    ensures r.0 == -2 <==> id.Some? && Lookup(ls, n, id.value).None?
    ensures r.0 in {0, -1, -2}
    ensures r.0 != 0 ==> r.1 == ls
    ensures SameConfig(ls, r.1)
    ensures r.0 == 0 ==> var k := Lookup(ls, n, id.value).value;
      && r.1[k].enabled == enable
      && (enable ==> r.1[k].pid.integral == 0.0 && r.1[k].pid.prevError == 0.0)
      && r.1[k].pid == ls[k].pid.(integral := r.1[k].pid.integral, prevError := r.1[k].pid.prevError)
      && (!enable ==> r.1[k].pid == ls[k].pid)
      && r.1[k] == ls[k].(enabled := enable, pid := r.1[k].pid)
      && forall j :: 0 <= j < |ls| && j != k ==> r.1[j] == ls[j]
  {
    if id.None? then (-1, ls)
    else match Lookup(ls, n, id.value)
      case None => (-2, ls)
      case Some(k) =>
        (0, ls[k := ls[k].(enabled := enable, pid := if enable then Cleared(ls[k].pid) else ls[k].pid)])
  }

  /** Disabling a known loop keeps its PID and takes it out of every later tick; enabling it
      again brings it back with a cleared integral and error history but its gains and limits
      unchanged. */
  lemma DisableThenEnable(ls: seq<LoopState>, n: int, id: string,
                          cache: seq<Sensors.CacheSlot>, sn: int,
                          slots: seq<Heaters.HeaterSlot>, hn: int, dt: real)
    requires TableShaped(ls, n) && Lookup(ls, n, id).Some?
    requires Count(sn) <= |cache| && Count(hn) <= |slots|
    ensures var k := Lookup(ls, n, id).value;
      var off := EnableSet(ls, n, Some(id), false).1;
      var on := EnableSet(off, n, Some(id), true).1;
      && TableShaped(off, n)
      && off[k].pid == ls[k].pid
      && Tick(off, n, Count(n), cache, sn, slots, hn, dt).0[k] == off[k]
      && on[k].enabled && on[k].pid == Cleared(ls[k].pid)
      && on[k].pid.kp == ls[k].pid.kp && on[k].pid.ki == ls[k].pid.ki && on[k].pid.kd == ls[k].pid.kd
  {
    var k := Lookup(ls, n, id).value;
    var off := EnableSet(ls, n, Some(id), false).1;
    SameConfigShaped(ls, off, n);
    SameConfigLookup(ls, off, n, id);
    IdleLoopUntouched(off, n, cache, sn, slots, hn, dt, k);
  }

  /** Enabling or disabling a loop a second time changes nothing more: the PID reset of an
      enable is idempotent. */
  lemma EnableIdempotent(ls: seq<LoopState>, n: int, id: Option<string>, enable: bool)
    requires Count(n) <= |ls|
    ensures var once := EnableSet(ls, n, id, enable).1;
      EnableSet(once, n, id, enable) == EnableSet(ls, n, id, enable)
  {
    var once := EnableSet(ls, n, id, enable).1;
    if id.Some? && Lookup(ls, n, id.value).Some? {
      var k := Lookup(ls, n, id.value).value;
      var l := ls[k].(enabled := enable, pid := if enable then Cleared(ls[k].pid) else ls[k].pid);
      SameConfigLookup(ls, once, n, id.value);
      assert once == ls[k := l];
      assert l.(enabled := enable, pid := if enable then Cleared(l.pid) else l.pid) == l;
      assert once[k := l] == once;
    }
  }

  /** control_loop_suspend_all: every configured loop suspended. */
  function Suspended(ls: seq<LoopState>, n: int): (r: seq<LoopState>)
    requires Count(n) <= |ls|
    ensures SameConfig(ls, r)
    ensures forall j :: 0 <= j < Count(n) ==> r[j] == ls[j].(suspended := true)
    ensures forall j :: Count(n) <= j < |ls| ==> r[j] == ls[j]
  {
    seq(|ls|, j requires 0 <= j < |ls| => if j < Count(n) then ls[j].(suspended := true) else ls[j])
  }

  /** After suspend_all a tick changes nothing, drives no heater and reports success. */
  lemma SuspendThenTick(ls: seq<LoopState>, n: int, cache: seq<Sensors.CacheSlot>, sn: int,
                        slots: seq<Heaters.HeaterSlot>, hn: int, dt: real)
    requires TableShaped(ls, n)
    requires Count(sn) <= |cache| && Count(hn) <= |slots|
    ensures TableShaped(Suspended(ls, n), n)
    ensures Tick(Suspended(ls, n), n, Count(n), cache, sn, slots, hn, dt) == (Suspended(ls, n), slots, 0)
  {
    SameConfigShaped(ls, Suspended(ls, n), n);
    SuspendedTickIdle(Suspended(ls, n), n, Count(n), cache, sn, slots, hn, dt);
  }

  /** control_loop_resume_all: every configured loop unsuspended with its PID reset. */
  function Resumed(ls: seq<LoopState>, n: int): (r: seq<LoopState>)
    requires Count(n) <= |ls|
    ensures SameConfig(ls, r)
    ensures forall j :: 0 <= j < Count(n) ==>
      !r[j].suspended && r[j].pid.integral == 0.0 && r[j].pid.prevError == 0.0
    ensures forall j :: 0 <= j < Count(n) ==>
      r[j] == ls[j].(suspended := false, pid := ls[j].pid.(integral := 0.0, prevError := 0.0))
    ensures forall j :: Count(n) <= j < |ls| ==> r[j] == ls[j]
  {
    seq(|ls|, j requires 0 <= j < |ls| =>
      if j < Count(n) then ls[j].(suspended := false, pid := Cleared(ls[j].pid)) else ls[j])
  }

  /** Resuming after a suspension leaves no trace of the suspension, and resuming twice is
      resuming once. */
  lemma ResumeAfterSuspend(ls: seq<LoopState>, n: int)
    requires Count(n) <= |ls|
    ensures Resumed(Suspended(ls, n), n) == Resumed(ls, n)
    ensures Resumed(Resumed(ls, n), n) == Resumed(ls, n)
  {
    assert forall j :: 0 <= j < |ls| ==> Resumed(Suspended(ls, n), n)[j] == Resumed(ls, n)[j];
    assert forall j :: 0 <= j < |ls| ==> Resumed(Resumed(ls, n), n)[j] == Resumed(ls, n)[j];
  }

  /** control_loop_get_status: NOT_INITIALIZED for NULL or an unknown id. */
  function StatusOf(ls: seq<LoopState>, n: int, id: Option<string>): (s: LoopStatus)
    requires Count(n) <= |ls|
    ensures id.None? ==> s == LoopNotInitialized
    ensures id.Some? && Lookup(ls, n, id.value).None? ==> s == LoopNotInitialized
    ensures id.Some? && Lookup(ls, n, id.value).Some? ==> s == ls[Lookup(ls, n, id.value).value].status
  {
    if id.None? then LoopNotInitialized
    else match Lookup(ls, n, id.value)
      case None => LoopNotInitialized
      case Some(k) => ls[k].status
  }

  /** control_loop_set_gains: the first loop with that id gets the three gains; its integral,
      error history and limits, the rest of its entry and every other loop are kept. */
  function GainsSet(ls: seq<LoopState>, n: int, id: Option<string>, kp: real, ki: real, kd: real)
    : (r: (int, seq<LoopState>))
    requires Count(n) <= |ls|
    ensures r.0 == -1 <==> id.None?
    ensures r.0 == -2 <==> id.Some? && Lookup(ls, n, id.value).None?
    ensures r.0 in {0, -1, -2}
    ensures r.0 != 0 ==> r.1 == ls
    ensures SameConfig(ls, r.1)
    ensures forall j :: 0 <= j < |ls| ==>
      r.1[j].pid.integral == ls[j].pid.integral && r.1[j].pid.prevError == ls[j].pid.prevError
    ensures r.0 == 0 ==> var k := Lookup(ls, n, id.value).value;
      && r.1[k].pid.kp == kp && r.1[k].pid.ki == ki && r.1[k].pid.kd == kd
      && r.1[k].pid == ls[k].pid.(kp := r.1[k].pid.kp, ki := r.1[k].pid.ki, kd := r.1[k].pid.kd)
      && r.1[k] == ls[k].(pid := r.1[k].pid)
      && forall j :: 0 <= j < |ls| && j != k ==> r.1[j] == ls[j]
  {
    if id.None? then (-1, ls)
    else match Lookup(ls, n, id.value)
      case None => (-2, ls)
      case Some(k) => (0, ls[k := ls[k].(pid := WithGains(ls[k].pid, kp, ki, kd))])
  }

  /** Setting the gains twice is setting the second ones: nothing of the first call survives. */
  lemma GainsLastWriteWins(ls: seq<LoopState>, n: int, id: Option<string>,
                           kp: real, ki: real, kd: real, kp': real, ki': real, kd': real)
    requires Count(n) <= |ls|
    ensures GainsSet(GainsSet(ls, n, id, kp, ki, kd).1, n, id, kp', ki', kd') == GainsSet(ls, n, id, kp', ki', kd')
  {
    var once := GainsSet(ls, n, id, kp, ki, kd).1;
    if id.Some? && Lookup(ls, n, id.value).Some? {
      var k := Lookup(ls, n, id.value).value;
      SameConfigLookup(ls, once, n, id.value);
      assert once == ls[k := ls[k].(pid := WithGains(ls[k].pid, kp, ki, kd))];
      assert once[k := once[k].(pid := WithGains(once[k].pid, kp', ki', kd'))]
          == ls[k := ls[k].(pid := WithGains(ls[k].pid, kp', ki', kd'))];
    }
  }

  /** A tick steps every PID but changes none of its gains or limits. */
  lemma {:induction false} TickKeepsGains(ls: seq<LoopState>, n: int, k: nat, cache: seq<Sensors.CacheSlot>,
                                          sn: int, slots: seq<Heaters.HeaterSlot>, hn: int, dt: real, i: nat)
    requires TableShaped(ls, n) && k <= Count(n) && i < |ls|
    requires Count(sn) <= |cache| && Count(hn) <= |slots|
    ensures var p := Tick(ls, n, k, cache, sn, slots, hn, dt).0[i].pid;
      p == ls[i].pid.(integral := p.integral, prevError := p.prevError)
    decreases k
  {
    if k > 0 {
      TickKeepsGains(ls, n, k - 1, cache, sn, slots, hn, dt, i);
    }
  }

  /** The gains set for a loop are the ones its PID runs with after the next tick, and the
      limits it had are kept. */
  lemma GainsThenTick(ls: seq<LoopState>, n: int, id: string, kp: real, ki: real, kd: real,
                      cache: seq<Sensors.CacheSlot>, sn: int,
                      slots: seq<Heaters.HeaterSlot>, hn: int, dt: real)
    requires TableShaped(ls, n) && Lookup(ls, n, id).Some?
    requires Count(sn) <= |cache| && Count(hn) <= |slots|
    ensures TableShaped(GainsSet(ls, n, Some(id), kp, ki, kd).1, n)
    ensures var k := Lookup(ls, n, id).value;
      var p := Tick(GainsSet(ls, n, Some(id), kp, ki, kd).1, n, Count(n), cache, sn, slots, hn, dt).0[k].pid;
      p == ls[k].pid.(kp := kp, ki := ki, kd := kd, integral := p.integral, prevError := p.prevError)
  {
    var tuned := GainsSet(ls, n, Some(id), kp, ki, kd).1;
    SameConfigShaped(ls, tuned, n);
    TickKeepsGains(tuned, n, Count(n), cache, sn, slots, hn, dt, Lookup(ls, n, id).value);
  }

  /** Every configured listed heater of every loop has a non-zero rating: what
      distribute_power's per-heater division needs. */
  predicate Rated(slots: seq<Heaters.HeaterSlot>, hn: int, ls: seq<LoopState>, n: int)
    requires Count(hn) <= |slots| && TableShaped(ls, n)
  {
    forall k :: 0 <= k < Count(n) ==>
      Heaters.RatedIn(slots, hn, ls[k].heaterIds[..Count(ls[k].numHeaters)])
  }

  lemma RatedKept(slots: seq<Heaters.HeaterSlot>, slots': seq<Heaters.HeaterSlot>, hn: int,
                  ls: seq<LoopState>, ls': seq<LoopState>, n: int)
    requires Count(hn) <= |slots| && TableShaped(ls, n) && TableShaped(ls', n)
    requires Heaters.SameShape(slots, slots') && SameConfig(ls, ls')
    requires Rated(slots, hn, ls, n)
    ensures Rated(slots', hn, ls', n)
  {
    forall k | 0 <= k < Count(n)
      ensures Heaters.RatedIn(slots', hn, ls'[k].heaterIds[..Count(ls'[k].numHeaters)])
    {
      Heaters.SameShapeRatedIn(slots, slots', hn, ls[k].heaterIds[..Count(ls[k].numHeaters)]);
    }
  }

  // ---------------------------------------------------------------------------------------
  // The engine

  /** The control-loop subsystem's state: the file-scope `loop_state[]` and `num_loops`. */
  class Engine {
    const loops: array<LoopState>
    var numLoops: int

    ghost predicate Valid()
      reads this, loops
    {
      TableShaped(loops[..], numLoops)
    }

    /** The subsystem in zeroed static storage, before any init. */
    constructor ()
      ensures Valid() && fresh(loops) && numLoops == 0
      ensures loops[..] == seq(MAX_CONTROL_LOOPS, _ => ZeroState)
    {
      loops := new LoopState[MAX_CONTROL_LOOPS](_ => ZeroState);
      numLoops := 0;
    }

    /** control_loop_init; `config` None stands for NULL. The count is stored before the
        capacity check, so a rejected table leaves the subsystem unusable. */
    method Init(config: Option<ThermalConfig>) returns (r: int)
      requires TableShaped(loops[..], 0)
      requires config.Some? ==> Shaped(config.value)
      modifies this, loops
      ensures config.None? ==> r == -1 && unchanged(this) && unchanged(loops)
      ensures config.Some? ==> numLoops == config.value.numberOfControlLoops
      ensures config.Some? && config.value.numberOfControlLoops > MAX_CONTROL_LOOPS ==>
        r == -2 && unchanged(loops) && !Valid()
      ensures config.Some? && config.value.numberOfControlLoops <= MAX_CONTROL_LOOPS ==>
        r == 0 && Valid() && loops[..] == InitialTable(old(loops[..]), config.value)
    {
      if config.None? {
        return -1;
      }
      var c := config.value;
      numLoops := c.numberOfControlLoops;
      if numLoops > MAX_CONTROL_LOOPS {
        return -2;
      }
      var i := 0;
      while i < numLoops
        invariant 0 <= i <= Count(numLoops)
        invariant numLoops == c.numberOfControlLoops
        invariant forall k :: 0 <= k < loops.Length ==>
          loops[k] == if k < i then FromConfig(old(loops[k]), c.controlLoops[k]) else old(loops[k])
      {
        LoadLoop(i, c.controlLoops[i]);
        i := i + 1;
      }
      assert loops[..] == InitialTable(old(loops[..]), c);
      r := 0;
    }

    /** The body of control_loop_init's loop: configuration `cfg` copied into entry `i`. */
    method LoadLoop(i: nat, cfg: LoopConfig)
      requires i < loops.Length && StateShaped(loops[i]) && LoopShaped(cfg)
      modifies loops
      ensures loops[..] == old(loops[..])[i := FromConfig(old(loops[i]), cfg)]
    {
      var l := loops[i];
      var sensorIds := CopyIds(l.sensorIds, cfg.sensorIds, cfg.numSensors);
      var heaterIds := CopyIds(l.heaterIds, cfg.heaterIds, cfg.numHeaters);
      var pid := l.pid;
      if cfg.controlAlgorithm == AlgoPid {
        pid := Initialized(cfg.pGain, cfg.iGain, cfg.dGain,
                           cfg.heaterPowerLimitMin, cfg.heaterPowerLimitMax);
      }
      loops[i] := l.(id := cfg.id,
                     enabled := cfg.enabled && cfg.defaultStateOn, suspended := false,
                     status := LoopOk,
                     sensorIds := sensorIds, numSensors := cfg.numSensors,
                     heaterIds := heaterIds, numHeaters := cfg.numHeaters,
                     targetTempKelvin := cfg.defaultTargetTemperature,
                     currentSetpoint := cfg.defaultTargetTemperature,
                     alarmMinTemp := cfg.alarmMinTemp, alarmMaxTemp := cfg.alarmMaxTemp,
                     powerLimitMin := cfg.heaterPowerLimitMin,
                     powerLimitMax := cfg.heaterPowerLimitMax,
                     followsLoopId := cfg.followsLoopId, followsScalar := cfg.followsLoopScalar,
                     pid := pid);
    }

    /** The `strcmp` search over the first `numLoops` entries. */
    method IndexOf(id: string) returns (idx: int)
      requires Valid()
      ensures idx == -1 <==> Lookup(loops[..], numLoops, id).None?
      ensures idx != -1 ==> Lookup(loops[..], numLoops, id) == Some(idx)
    {
      idx := -1;
      var i := 0;
      while i < numLoops
        invariant 0 <= i <= Count(numLoops)
        invariant forall j :: 0 <= j < i ==> loops[j].id != id
      {
        if loops[i].id == id {
          idx := i;
          assert FirstMatch(StateIds(loops[..], numLoops), id) == Some(i) by {
            assert StateIds(loops[..], numLoops)[i] == id;
            assert id !in StateIds(loops[..], numLoops)[..i];
          }
          return;
        }
        i := i + 1;
      }
    }

    /** control_loop_update_all: one tick over every loop, against the sensor manager's cache
        and the heater manager's table. Returns 0, or minus the number of errors counted. */
    method UpdateAll(dt: real, sensors: Sensors.SensorManager, heaters: Heaters.HeaterManager)
      returns (r: int)
      requires Valid() && sensors.Valid() && heaters.Valid()
      requires Rated(heaters.state[..], heaters.numHeaters, loops[..], numLoops)
      modifies loops, heaters.state
      ensures Valid() && heaters.Valid()
      ensures var t := Tick(old(loops[..]), numLoops, Count(numLoops), sensors.cache[..],
                            sensors.numSensors, old(heaters.state[..]), heaters.numHeaters, dt);
        loops[..] == t.0 && heaters.state[..] == t.1 && r == -(t.2 as int)
    {
      ghost var ls, slots := loops[..], heaters.state[..];
      ghost var cache, sn, hn := sensors.cache[..], sensors.numSensors, heaters.numHeaters;
      ghost var t := Tick(ls, numLoops, 0, cache, sn, slots, hn, dt);
      var errors: int := 0;
      var i := 0;
      while i < numLoops
        invariant 0 <= i <= Count(numLoops)
        invariant Valid() && heaters.Valid() && heaters.numHeaters == hn
        invariant t == Tick(ls, numLoops, i, cache, sn, slots, hn, dt)
        invariant loops[..] == t.0 && heaters.state[..] == t.1 && errors == t.2
        invariant Rated(heaters.state[..], hn, loops[..], numLoops)
      {
        var e := UpdateLoop(i, dt, sensors, heaters);
        RatedKept(t.1, heaters.state[..], hn, t.0, loops[..], numLoops);
        errors := errors + e;
        t := Tick(ls, numLoops, i + 1, cache, sn, slots, hn, dt);
        i := i + 1;
      }
      assert i == Count(numLoops);
      r := if errors > 0 then -errors else 0;
    }

    /** One round of update_all's loop, for loop `i`. */
    method UpdateLoop(i: nat, dt: real, sensors: Sensors.SensorManager, heaters: Heaters.HeaterManager)
      returns (errors: nat)
      requires Valid() && sensors.Valid() && heaters.Valid() && i < Count(numLoops)
      requires Rated(heaters.state[..], heaters.numHeaters, loops[..], numLoops)
      modifies loops, heaters.state
      ensures Valid() && heaters.Valid()
      ensures var s := Step(old(loops[..]), numLoops, i, sensors.cache[..], sensors.numSensors,
                            old(heaters.state[..]), heaters.numHeaters, dt);
        loops[..] == old(loops[..])[i := s.0] && heaters.state[..] == s.1 && errors == s.2
    {
      if !loops[i].enabled || loops[i].suspended {
        assert loops[..] == old(loops[..])[i := loops[i]];
        return 0;
      }
      var ret, measured := sensors.GetAverage(Some(loops[i].sensorIds), loops[i].numSensors, Some(0.0));
      if ret != 0 {
        loops[i] := loops[i].(status := LoopSensorError);
        return 1;
      }
      errors := Regulate(i, measured.value, dt, heaters);
    }

    /** update_all's round for loop `i` after a successful sensor average `measured`. */
    method Regulate(i: nat, measured: real, dt: real, heaters: Heaters.HeaterManager)
      returns (errors: nat)
      requires Valid() && heaters.Valid() && i < Count(numLoops)
      requires Heaters.RatedIn(heaters.state[..], heaters.numHeaters,
                               loops[i].heaterIds[..Count(loops[i].numHeaters)])
      modifies loops, heaters.state
      ensures Valid() && heaters.Valid()
      ensures var s := Regulated(old(loops[..]), numLoops, i, measured,
                                 old(heaters.state[..]), heaters.numHeaters, dt);
        loops[..] == old(loops[..])[i := s.0] && heaters.state[..] == s.1 && errors == s.2
    {
      ghost var ls, slots := loops[..], heaters.state[..];
      errors := CheckAlarm(i, measured);
      ghost var l := loops[i];
      StatusIgnored(ls, numLoops, i, l.status);
      var setpoint := ResolveSetpoint(i);
      assert setpoint == Setpoint(ls, numLoops, i);
      var failed := Actuate(i, setpoint, measured, dt, heaters);
      if failed {
        errors := errors + 1;
      }
      RegulatedParts(ls, numLoops, i, measured, slots, heaters.numHeaters, dt);
      ghost var done := l.(currentSetpoint := setpoint, pid := Stepped(l.pid, setpoint, measured, dt), status := LoopOk);
      assert done == Regulated(ls, numLoops, i, measured, slots, heaters.numHeaters, dt).0;
      UpdateTwice(ls, i, l, done);
    }

    /** The alarm-band check of update_all's round for loop `i`: ALARM stored and one error
        counted when `measured` lies outside the band, nothing otherwise. */
    method CheckAlarm(i: nat, measured: real) returns (alarm: nat)
      requires Valid() && i < Count(numLoops)
      modifies loops
      ensures Valid()
      ensures var l := old(loops[i]);
        var outside := measured < l.alarmMinTemp || measured > l.alarmMaxTemp;
        && alarm == (if outside then 1 else 0)
        && loops[..] == old(loops[..])[i := l.(status := if outside then LoopAlarm else l.status)]
    {
      alarm := 0;
      if measured < loops[i].alarmMinTemp || measured > loops[i].alarmMaxTemp {
        loops[i] := loops[i].(status := LoopAlarm);
        alarm := 1;
      }
      assert TableShaped(loops[..], numLoops);
    }

    /** The end of update_all's round for loop `i`: the setpoint stored, the PID stepped, its
        output spread over the loop's heaters, and status OK. `failed` is distribute_power's
        failure. */
    method Actuate(i: nat, setpoint: real, measured: real, dt: real, heaters: Heaters.HeaterManager)
      returns (failed: bool)
      requires Valid() && heaters.Valid() && i < Count(numLoops)
      requires Heaters.RatedIn(heaters.state[..], heaters.numHeaters,
                               loops[i].heaterIds[..Count(loops[i].numHeaters)])
      modifies loops, heaters.state
      ensures Valid() && heaters.Valid()
      ensures var l := old(loops[i]);
        var d := Heaters.Distribution(old(heaters.state[..]), heaters.numHeaters, Some(l.heaterIds),
                                      l.numHeaters, Output(l.pid, setpoint, measured, dt));
        && loops[..] == old(loops[..])[i := l.(currentSetpoint := setpoint,
                                               pid := Stepped(l.pid, setpoint, measured, dt),
                                               status := LoopOk)]
        && heaters.state[..] == d.1 && (failed <==> d.0 != 0)
    {
      var l := loops[i];
      var output := Output(l.pid, setpoint, measured, dt);
      loops[i] := l.(currentSetpoint := setpoint, pid := Stepped(l.pid, setpoint, measured, dt));
      var ret := heaters.DistributePower(Some(l.heaterIds), l.numHeaters, output);
      failed := ret != 0;
      loops[i] := loops[i].(status := LoopOk);
    }

    /** Setpoint resolution of update_all for loop `i`, with its own search for the followed
        loop. */
    method ResolveSetpoint(i: nat) returns (setpoint: real)
      requires Valid() && i < Count(numLoops)
      ensures setpoint == Setpoint(loops[..], numLoops, i)
    {
      setpoint := loops[i].currentSetpoint;
      if |loops[i].followsLoopId| > 0 {
        var j := 0;
        while j < numLoops
          invariant 0 <= j <= Count(numLoops)
          invariant forall k :: 0 <= k < j ==> loops[k].id != loops[i].followsLoopId
          invariant setpoint == loops[i].currentSetpoint
        {
          if loops[j].id == loops[i].followsLoopId {
            setpoint := Followed(loops[j].currentSetpoint, loops[i].followsScalar);
            return;
          }
          j := j + 1;
        }
      }
    }

    /** control_loop_set_target; `id` None stands for NULL. */
    method SetTarget(id: Option<string>, target: real) returns (r: int)
      requires Valid()
      modifies loops
      ensures Valid()
      ensures (r, loops[..]) == TargetSet(old(loops[..]), numLoops, id, target)
    {
      if id.None? {
        return -1;
      }
      var idx := IndexOf(id.value);
      if idx < 0 {
        return -2;
      }
      loops[idx] := loops[idx].(targetTempKelvin := target);
      r := 0;
    }

    /** control_loop_get_target; `out` is the caller's variable, None for NULL. */
    method GetTarget(id: Option<string>, out: Option<real>) returns (r: int, out': Option<real>)
      requires Valid()
      ensures (r, out') == TargetQuery(loops[..], numLoops, id, out)
    {
      if id.None? || out.None? {
        return -1, out;
      }
      var idx := IndexOf(id.value);
      if idx < 0 {
        return -2, out;
      }
      r, out' := 0, Some(loops[idx].targetTempKelvin);
    }

    /** control_loop_enable. */
    method Enable(id: Option<string>, enable: bool) returns (r: int)
      requires Valid()
      modifies loops
      ensures Valid()
      ensures (r, loops[..]) == EnableSet(old(loops[..]), numLoops, id, enable)
    {
      if id.None? {
        return -1;
      }
      var idx := IndexOf(id.value);
      if idx < 0 {
        return -2;
      }
      var l := loops[idx];
      loops[idx] := l.(enabled := enable);
      if enable {
        loops[idx] := l.(enabled := enable, pid := Cleared(l.pid));
      }
      r := 0;
      assert EnableSet(old(loops[..]), numLoops, id, enable).1 == loops[..];
      SameConfigShaped(old(loops[..]), loops[..], numLoops);
    }

    /** control_loop_suspend_all. */
    method SuspendAll() returns (r: int)
      requires Valid()
      modifies loops
      ensures Valid() && r == 0
      ensures loops[..] == Suspended(old(loops[..]), numLoops)
    {
      var i := 0;
      while i < numLoops
        invariant 0 <= i <= Count(numLoops)
        invariant forall k :: 0 <= k < loops.Length ==>
          loops[k] == if k < i then old(loops[k]).(suspended := true) else old(loops[k])
      {
        loops[i] := loops[i].(suspended := true);
        i := i + 1;
      }
      assert loops[..] == Suspended(old(loops[..]), numLoops);
      SameConfigShaped(old(loops[..]), loops[..], numLoops);
      r := 0;
    }

    /** control_loop_resume_all. */
    method ResumeAll() returns (r: int)
      requires Valid()
      modifies loops
      ensures Valid() && r == 0
      ensures loops[..] == Resumed(old(loops[..]), numLoops)
    {
      var i := 0;
      while i < numLoops
        invariant 0 <= i <= Count(numLoops)
        invariant forall k :: 0 <= k < loops.Length ==>
          loops[k] == if k < i then old(loops[k]).(suspended := false, pid := Cleared(old(loops[k]).pid))
                      else old(loops[k])
      {
        loops[i] := loops[i].(suspended := false);
        loops[i] := loops[i].(pid := Cleared(loops[i].pid));
        i := i + 1;
      }
      assert loops[..] == Resumed(old(loops[..]), numLoops);
      SameConfigShaped(old(loops[..]), loops[..], numLoops);
      r := 0;
    }

    /** control_loop_get_status. */
    method GetStatus(id: Option<string>) returns (status: LoopStatus)
      requires Valid()
      ensures status == StatusOf(loops[..], numLoops, id)
    {
      if id.None? {
        return LoopNotInitialized;
      }
      status := LoopNotInitialized;
      var idx := IndexOf(id.value);
      if idx >= 0 {
        status := loops[idx].status;
      }
    }

    /** control_loop_set_gains. */
    method SetGains(id: Option<string>, kp: real, ki: real, kd: real) returns (r: int)
      requires Valid()
      modifies loops
      ensures Valid()
      ensures (r, loops[..]) == GainsSet(old(loops[..]), numLoops, id, kp, ki, kd)
    {
      if id.None? {
        return -1;
      }
      var idx := IndexOf(id.value);
      if idx < 0 {
        return -2;
      }
      loops[idx] := loops[idx].(pid := WithGains(loops[idx].pid, kp, ki, kd));
      r := 0;
      SameConfigShaped(old(loops[..]), loops[..], numLoops);
    }
  }

  /** The `strncpy` loop over the first `n` ids of a loop entry. */
  method CopyIds(dst: seq<string>, src: seq<string>, n: int) returns (r: seq<string>)
    requires Count(n) <= |dst| && Count(n) <= |src|
    ensures r == CopiedIds(dst, src, n)
  {
    r := dst;
    var j := 0;
    while j < n
      invariant 0 <= j <= Count(n)
      invariant |r| == |dst|
      invariant forall k :: 0 <= k < |r| ==> r[k] == if k < j then src[k] else dst[k]
    {
      r := r[j := src[j]];
      j := j + 1;
    }
  }
}
