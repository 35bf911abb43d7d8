# Thermal-control engine: a Dafny model

This project models the control engine of a Zephyr thermal controller. The engine reads
temperature sensors, runs one PID controller per control loop and spreads each loop's
output over that loop's heaters. The model covers six C files:

- the PID controller (`lib/coo_commons/pid.c`);
- the sensor manager's reading cache (`lib/sensors/sensor_manager.c`);
- the heater manager's power table (`lib/heaters/heater_manager.c`);
- the control-loop engine with its `update_all` tick (`lib/control/control_loop.c`);
- configuration validation, lookup and the built-in defaults (`lib/config/config.c`);
- the two hand-written string parsers (`lib/coo_commons/json_utils.c`).

Floats are modelled as `real`. A C string is modelled as the `string` of its characters
before the terminator. Identifiers are strings shorter than `MAX_ID_LENGTH` (32) with no NUL
(`Common.ValidId`), so `strncpy` copies them whole.

Layout, one module per source file:

| file | module | what it holds |
|---|---|---|
| `common.dfy` | `Common` | `Option`, the C loop-count view `Count`, the id column `Keys` of a table and the first-match search `FirstMatch` that every manager's lookup shares, `Sum` |
| `pid.dfy` | `Pid` | `PidState` (the value of `struct coo_pid`); the spec functions `Initialized`, `Cleared`, `WithGains`, `Stepped`, `Output`; class `Controller` whose methods update the nine fields in place |
| `config.dfy` | `Config` | the configuration tables; `Validate` and the `Find*` lookups as pure functions; `LoadDefaults` |
| `sensors.dfy` | `Sensors` | class `SensorManager` over a 16-slot `array` cache; spec functions `RefreshedCache` and `Average` |
| `heaters.dfy` | `Heaters` | class `HeaterManager` over a 16-slot `array` table; spec functions `PowerSet`, `Distribution`, `Stopped`, `PowerQuery` |
| `control.dfy` | `Control` | class `Engine` over an 8-slot `array` of `LoopState`; spec functions `Tick`, `TargetSet`, `EnableSet`, `Suspended`, `Resumed`, `GainsSet`, `StatusOf` |
| `json.dfy` | `Json` | `ParseKeyPair` and `ParseCommand` as pure functions returning the status and the output buffers |

Each manager is a class. It has the file-scope table as an `array` and the count as an `int`.
Each method is proved against a specification function of the table, and the lemmas state
the source's promises about those functions. A NULL input pointer is `None`. A caller's
output variable is passed in as an `Option` (`None` for NULL) and returned as it is after
the call.

The external calls are inputs:
- `adc_temp_sensor_init` is the `driverStatus` argument of `Sensors.SensorManager.Init`.
- `adc_temp_sensor_read` is one `ReadOutcome` per configured sensor, passed to `ReadAll`.
  The `k_uptime_get` timestamp is inside the successful outcome.
- `strtof` is a function parameter of `Json.ParseCommand`.

## Model

| member | source | states |
|---|---|---|
| `Pid.Controller.Init` | lib/coo_commons/pid.c:9-24 | gains and output limits come from the arguments; integral and previous error are 0; the integral limits equal the output limits |
| `Pid.Controller.Reset` | lib/coo_commons/pid.c:26-30 | integral and previous error become 0; the gains and all four limits are unchanged |
| `Pid.Controller.SetGains` | lib/coo_commons/pid.c:32-37 | only kp, ki, kd change; integral and previous error are kept |
| `Pid.Controller.Update` | lib/coo_commons/pid.c:39-76 | the new state is `Stepped` and the result is `Output`; the previous error becomes setpoint − measured; with ordered limits the integral ends in the integral limits and the output in the output limits |
| `Pid.Clamp` | lib/coo_commons/pid.c:66-70 | ordered limits bound the result; a value inside them is returned as is; above the upper limit gives the upper limit |
| `Pid.Stepped` | lib/coo_commons/pid.c:44-73 | after an update the previous error is setpoint − measured, the integral lies in ordered integral limits, and nothing but integral and previous error changed |
| `Pid.Output` | lib/coo_commons/pid.c:56-70 | the output lies in ordered output limits; with dt ≤ 0 the derivative drops out and the output is clamp(kp·e + ki·integral) |
| `Pid.RunKeepsGainsAndLimits` | lib/coo_commons/pid.c:39-76 | any series of updates leaves the gains and the four limits as they were |
| `Pid.RunIntegralBounded` | lib/coo_commons/pid.c:50-55 | anti-windup over a whole run: after one or more updates the integral is inside ordered integral limits |
| `Pid.HoldKeepsIntegral` | lib/coo_commons/pid.c:44-55 | holding measured = setpoint keeps an in-range integral at its value for any number of updates (no decay) |
| `Pid.HoldOutputsZero` | lib/coo_commons/pid.c:39-76 | with ki = 0 and 0 inside the output limits, after any run of updates at the setpoint (or from zero error history) a further update at the setpoint outputs exactly 0, whatever the time step |
| `Config.Validate` | lib/config/config.c:110-134 | -1 exactly for NULL; -2, -3, -4 when the sensor, heater, loop count exceeds 16, 16, 8, checked in that order |
| `Config.CheckLoops` | lib/config/config.c:137-184 | the loop checks return only 0, -5, -6 or -7 |
| `Config.AllFound` | lib/config/config.c:145-172 | true exactly when each of the first n referenced ids occurs among the known ids |
| `Config.ValidateAcceptsExactly` | lib/config/config.c:137-184 | 0 exactly when the counts fit and every enabled loop references only defined sensors and heaters and does not follow itself; disabled loops are not examined |
| `Config.ValidateFirstFailingLoop` | lib/config/config.c:137-181 | the first failing loop in table order decides the code, which is -5, -6 or -7 |
| `Config.MutualFollowAccepted` | lib/config/config.c:174-180 | two loops that follow each other are accepted; only a self-follow is rejected |
| `Config.FindSensor` | lib/config/config.c:187-195 | the first of the first n sensors with the id, `None` exactly when none of them has it |
| `Config.FindHeater` | lib/config/config.c:197-205 | the first of the first n heaters with the id, `None` exactly when none of them has it |
| `Config.FindLoop` | lib/config/config.c:207-215 | the first of the first n loops with the id, `None` exactly when none of them has it |
| `Config.DefaultTableValidates` | lib/config/config.c:56-104 | the default table validates to 0 although disabled loop-1 names the undefined "sensor-2" |
| `Config.LoadDefaults` | lib/config/config.c:15-108 | one sensor, two heaters, two loops; loop-1 disabled and referencing an unknown sensor; the table validates to 0 |
| `Sensors.SensorManager.Init` | lib/sensors/sensor_manager.c:30-62 | -1 for NULL with nothing changed; the count is stored before the check, and above 16 gives -2 with an unusable manager; otherwise the slots carry the configured ids in order, all invalid, and the driver's init status is returned |
| `Sensors.InitialCache` | lib/sensors/sensor_manager.c:45-50 | every slot invalid; the first n slots carry the configured ids in order |
| `Sensors.SensorManager.ReadAll` | lib/sensors/sensor_manager.c:64-98 | the cache becomes `RefreshedCache` of the old one; the result is minus the number of enabled sensors whose read failed |
| `Sensors.RefreshedSlots` | lib/sensors/sensor_manager.c:70-93 | disabled and unconfigured slots are unchanged; a success stores temperature, timestamp, OK and valid; a failure stores READ_ERROR and invalid and keeps the temperature and timestamp |
| `Sensors.NoFailuresIff` | lib/sensors/sensor_manager.c:66-97 | the failure count is 0 exactly when every enabled sensor read successfully |
| `Sensors.SensorManager.GetReading` | lib/sensors/sensor_manager.c:100-133 | -1 for NULL, -2 for an unknown id, -3 for an invalid slot, each exactly; otherwise exactly the cached reading (status OK); the cache is not modified |
| `Sensors.Average` | lib/sensors/sensor_manager.c:135-171 | -1 exactly for a NULL list, a NULL result pointer or a count ≤ 0; -2 exactly when no listed id is known and valid; otherwise the mean of the listed usable temperatures; the caller's variable is written only on success |
| `Sensors.SensorManager.GetAverage` | lib/sensors/sensor_manager.c:135-171 | status and result are those of `Average` on the current cache, which is not modified |
| `Sensors.SensorManager.Collect` | lib/sensors/sensor_manager.c:141-160 | the loop's sum and count are the sum and number of the temperatures of the listed ids that are known and valid |
| `Sensors.SensorManager.Accumulate` | lib/sensors/sensor_manager.c:143-158 | one round of the loop extends the collected temperatures from the first i ids to the first i + 1, keeping sum and count in step |
| `Sensors.NoContributionsIff` | lib/sensors/sensor_manager.c:156-167 | no temperature is collected exactly when every listed id is unknown or invalid |
| `Sensors.ContributionWithin` | lib/sensors/sensor_manager.c:156-167 | each listed id contributes no more temperatures than the whole list collects, so one usable sensor makes the average succeed |
| `Sensors.ContributionsAppend` | lib/sensors/sensor_manager.c:146-160 | listing more ids appends their temperatures; duplicates count once per occurrence |
| `Sensors.AverageOfOne` | lib/sensors/sensor_manager.c:146-169 | averaging one known, valid sensor yields exactly its temperature |
| `Sensors.AverageSkipsUnusable` | lib/sensors/sensor_manager.c:156-159 | adding an unknown or invalid id to the list does not change the average |
| `Sensors.MeanWithin` | lib/sensors/sensor_manager.c:169 | an average lies between the lowest and highest temperature averaged |
| `Sensors.SensorManager.IsValid` | lib/sensors/sensor_manager.c:173-191 | false for NULL or an unknown id, otherwise that slot's valid flag |
| `Heaters.HeaterManager.Init` | lib/heaters/heater_manager.c:30-66 | -1 for NULL with nothing changed; the count is stored before the check, and above 16 gives -2 with an unusable manager; otherwise every configured heater is at 0 % with its rating and enabled flag, status OK if enabled else DISABLED |
| `Heaters.InitialSlotsInvariant` | lib/heaters/heater_manager.c:45-54 | the initial table has every power at 0 % and each configured heater's status DISABLED exactly when disabled |
| `Heaters.ClampPercent` | lib/heaters/heater_manager.c:74-80 | the result lies in [0, 100]; a request inside is kept, below gives 0, above gives 100 |
| `Heaters.PowerSet` | lib/heaters/heater_manager.c:68-114 | -1 exactly for NULL, -2 exactly for an unknown id, -3 exactly for a disabled heater, with no change on any error; only power levels ever change |
| `Heaters.HeaterManager.SetPower` | lib/heaters/heater_manager.c:68-114 | status and new table are those of `PowerSet`; the table invariant (levels in [0, 100]) is kept |
| `Heaters.SetThenGet` | lib/heaters/heater_manager.c:99-106 | after a successful set the heater reads back the clamped request; after a failed one it reads back its old level |
| `Heaters.PowerSetKeepsInvariant` | lib/heaters/heater_manager.c:74-106 | setting power keeps every level in [0, 100] and each status consistent with the enabled flag |
| `Heaters.Distribution` | lib/heaters/heater_manager.c:116-163 | -1 exactly for NULL or count ≤ 0; -2 exactly when the summed rating of the listed known heaters is ≤ 0; no change on error; only power levels ever change |
| `Heaters.HeaterManager.DistributePower` | lib/heaters/heater_manager.c:116-163 | status and new table are those of `Distribution`, computed with the source's own per-heater formula |
| `Heaters.HeaterManager.TotalRating` | lib/heaters/heater_manager.c:123-132 | the first loop's total is the summed rating of the listed ids the table knows |
| `Heaters.CapacityAppendOne` | lib/heaters/heater_manager.c:125-132 | the total rating grows by one id's rating per listed id |
| `Heaters.PerHeaterPercent` | lib/heaters/heater_manager.c:153-155 | the per-heater formula gives every heater the same percentage t / capacity · 100 |
| `Heaters.SetAllClosedForm` | lib/heaters/heater_manager.c:150-160 | the run of set_power calls changes exactly the listed, known, enabled heaters to the clamped level; disabled and unlisted heaters are unchanged, since set_power failures are ignored |
| `Heaters.DistributionShares` | lib/heaters/heater_manager.c:139-160 | when the listed known heaters are enabled, each ends at the common share clamp(total, 0, cap) / cap · 100, and that share of the capacity is the clamped request |
| `Heaters.ShareSaturates` | lib/heaters/heater_manager.c:139-147 | a request at or above capacity is a 100 % share; one at or below 0 is a 0 % share |
| `Heaters.DistributionSaturates` | lib/heaters/heater_manager.c:139-160 | a request at or above capacity drives every targeted heater to 100 %; one at or below 0 drives them to 0 % |
| `Heaters.DistributionExample` | lib/heaters/heater_manager.c:149-160 | 40 W and 10 W heaters asked for 25 W both end at 50 % |
| `Heaters.Stopped` | lib/heaters/heater_manager.c:165-180 | every configured heater is at 0 %; ids, ratings, enabled flags and statuses are kept; slots past the count are untouched |
| `Heaters.HeaterManager.EmergencyStop` | lib/heaters/heater_manager.c:165-180 | the table becomes `Stopped` of the old one; returns 0 |
| `Heaters.StoppedReadsZero` | lib/heaters/heater_manager.c:171-174 | after a stop every known heater reads 0 %, and stopping twice equals stopping once |
| `Heaters.PowerQuery` | lib/heaters/heater_manager.c:182-207 | -1 exactly for NULL, -2 exactly for an unknown id; the caller's variable is written only on success |
| `Heaters.HeaterManager.GetPower` | lib/heaters/heater_manager.c:182-207 | result is `PowerQuery` of the unchanged table, a level in [0, 100] on success |
| `Heaters.HeaterManager.GetStatus` | lib/heaters/heater_manager.c:209-227 | ERROR for NULL or an unknown id; otherwise the slot's status, DISABLED exactly when the heater is disabled; the table is not modified |
| `Control.Engine.Init` | lib/control/control_loop.c:57-127 | -1 for NULL with nothing changed; the count is stored before the check, and above 8 gives -2 with an unusable engine; otherwise the table is `InitialTable` |
| `Control.InitialLoop` | lib/control/control_loop.c:73-123 | each loaded loop is enabled iff enabled ∧ default_state_on, not suspended, status OK, target = current setpoint = default target, ids copied; its PID is initialised with the gains and power limits only for the PID algorithm and otherwise kept |
| `Control.Engine.LoadLoop` | lib/control/control_loop.c:73-123 | one entry is overwritten with `FromConfig`; all others unchanged |
| `Control.CopyIds` | lib/control/control_loop.c:84-91 | the first n id slots are copied and the rest keep their old contents |
| `Control.Tick` | lib/control/control_loop.c:129-213 | a tick keeps every loop's configuration, changes heater power levels only, leaves entries past the ones handled untouched, and counts at most two errors per loop |
| `Control.Engine.UpdateAll` | lib/control/control_loop.c:129-213 | loop table and heater table become those of `Tick`; the result is minus the error count |
| `Control.Engine.UpdateLoop` | lib/control/control_loop.c:135-207 | one round of the tick is `Step` for that loop and touches no other entry |
| `Control.Engine.Regulate` | lib/control/control_loop.c:157-207 | after a successful average the loop table and heater table become those of `Regulated` and the errors are its count: one per alarm and one per failed distribution |
| `Control.Engine.CheckAlarm` | lib/control/control_loop.c:157-166 | outside the alarm band the loop's status becomes ALARM and one error is counted; inside, nothing changes |
| `Control.Engine.Actuate` | lib/control/control_loop.c:182-207 | the setpoint is stored, the PID steps, its output is distributed, status becomes OK, and `failed` is distribute_power's non-zero status |
| `Control.Engine.ResolveSetpoint` | lib/control/control_loop.c:168-179 | the result is the first matching loop's current setpoint times the scalar, or the loop's own setpoint |
| `Control.IdleLoopUntouched` | lib/control/control_loop.c:135-138 | a disabled or suspended loop keeps its entry exactly, touches no heater and counts no error |
| `Control.ActiveLoop` | lib/control/control_loop.c:140-207 | a failed average gives SENSOR_ERROR, counts an error and changes no heater, PID or setpoint; otherwise the PID steps on the average and the loop ends with status OK even after an alarm, which is counted |
| `Control.ActiveLoopErrors` | lib/control/control_loop.c:147-202 | exactly how much an active loop adds to the error count: 1 for a failed average, with the heater table unchanged; otherwise 1 for an alarm plus 1 for a failed distribution, with the heater table being what distributing the PID output makes of it |
| `Control.FollowedSetpoint` | lib/control/control_loop.c:168-182 | a follower takes the followed loop's setpoint times the scalar, using this tick's value when that loop comes earlier and last tick's otherwise; with no or an unknown followed id it keeps its own |
| `Control.OwnSetpointKept` | lib/control/control_loop.c:169-182 | a loop that follows none ends the tick with the setpoint it started with |
| `Control.FollowExample` | lib/control/control_loop.c:168-182 | loop-2 following loop-1 at 0.5 gets half of loop-1's current setpoint after set_target(loop-1, 300) and a tick; that is 150 K only when the current setpoint already was 300 K |
| `Control.NoAlarmAfterTick` | lib/control/control_loop.c:157-207 | a tick never leaves a loop in ALARM that was not in ALARM before: the status written on an alarm is always overwritten |
| `Control.TargetIgnored` | lib/control/control_loop.c:129-213 | tables that differ only in targets tick to the same heaters and error count, so update_all never reads the target |
| `Control.SuspendedTickIdle` | lib/control/control_loop.c:135-138 | a tick over all-suspended loops changes nothing and reports no error |
| `Control.TargetSet` | lib/control/control_loop.c:215-244 | -1 exactly for NULL, -2 exactly for an unknown id, no change on error; on success the first loop with that id gets the target and every other loop is kept; only target fields ever change |
| `Control.Engine.SetTarget` | lib/control/control_loop.c:215-244 | status and new table are those of `TargetSet` |
| `Control.SetTargetIgnored` | lib/control/control_loop.c:215-244 | a tick after set_target drives the heaters and counts errors exactly as without it |
| `Control.TargetQuery` | lib/control/control_loop.c:246-271 | -1 exactly for NULL, -2 exactly for an unknown id; the caller's variable is written only on success |
| `Control.Engine.GetTarget` | lib/control/control_loop.c:246-271 | result is `TargetQuery` of the table |
| `Control.SetThenGetTarget` | lib/control/control_loop.c:239-267 | a target set on a known loop reads back unchanged |
| `Control.EnableSet` | lib/control/control_loop.c:273-306 | -1 exactly for NULL, -2 exactly for an unknown id, no change on error; on success the first loop with that id gets the flag, enabling clears its integral and error history (even when already enabled), disabling keeps its PID, its suspension and status are kept, and every other loop is kept |
| `Control.Engine.Enable` | lib/control/control_loop.c:273-306 | status and new table are those of `EnableSet` |
| `Control.DisableThenEnable` | lib/control/control_loop.c:294-302 | disabling keeps the PID and takes the loop out of the tick; enabling resets integral and error history and keeps the gains |
| `Control.EnableIdempotent` | lib/control/control_loop.c:294-302 | repeating an enable or a disable changes nothing further |
| `Control.Suspended` | lib/control/control_loop.c:308-320 | every configured loop becomes suspended with nothing else changed; entries past the count are untouched |
| `Control.Engine.SuspendAll` | lib/control/control_loop.c:308-320 | the table becomes `Suspended`; returns 0 |
| `Control.SuspendThenTick` | lib/control/control_loop.c:308-320 | after suspend_all a tick changes nothing, drives no heater and returns 0 |
| `Control.Resumed` | lib/control/control_loop.c:322-336 | every configured loop is unsuspended with integral and error history 0, its gains, limits and everything else kept; entries past the count are untouched |
| `Control.Engine.ResumeAll` | lib/control/control_loop.c:322-336 | the table becomes `Resumed`; returns 0 |
| `Control.ResumeAfterSuspend` | lib/control/control_loop.c:322-336 | resume after suspend equals resume, and resume is idempotent |
| `Control.StatusOf` | lib/control/control_loop.c:338-356 | NOT_INITIALIZED for NULL or an unknown id, otherwise the first matching loop's status |
| `Control.Engine.GetStatus` | lib/control/control_loop.c:338-356 | result is `StatusOf` of the unchanged table |
| `Control.GainsSet` | lib/control/control_loop.c:358-386 | -1 exactly for NULL, -2 exactly for an unknown id, no change on error; on success the first loop with that id gets gains kp, ki, kd with its integral, error history, limits and the rest of its entry kept, and every other loop is kept |
| `Control.Engine.SetGains` | lib/control/control_loop.c:358-386 | status and new table are those of `GainsSet` |
| `Control.GainsLastWriteWins` | lib/control/control_loop.c:379-380 | setting the gains twice is the same as setting only the second ones |
| `Control.TickKeepsGains` | lib/control/control_loop.c:185-188 | a tick changes no loop's gains or limits, only its integral and error history |
| `Control.GainsThenTick` | lib/control/control_loop.c:379-380 | after set_gains and a tick, the loop's PID runs with the new gains and its old limits |
| `Json.ParseKeyPair` | lib/coo_commons/json_utils.c:105-135 | -1 exactly without '/'; -2 exactly for an empty or too long name, writing nothing; the name is the text before the first '/'; on success the setting is the text after it up to the next '/' or the end, non-empty and fitting its buffer |
| `Json.KeyPairRoundTrip` | lib/coo_commons/json_utils.c:105-135 | slash-free, non-empty name and setting that fit come back out of "name/setting", also with a further "/…" suffix |
| `Json.KeyPairNameFirst` | lib/coo_commons/json_utils.c:121-131 | an empty or too long setting gives -3 after the name has been written |
| `Json.ParseCommand` | lib/coo_commons/json_utils.c:34-75 | only 0, -EINVAL or -ENOMEM; nothing written on error; on success a command that fits and holds no quote; value 0.0 without a value marker, the converted text after it otherwise, nothing for a NULL value pointer |
| `Json.ParseCommandInvalid` | lib/coo_commons/json_utils.c:44-53 | -EINVAL exactly when the command marker is missing or no quote follows it |
| `Json.ParseCommandNoRoom` | lib/coo_commons/json_utils.c:44-58 | -ENOMEM exactly when the marker and its closing quote are there but the text between them is at least the buffer size |
| `Json.ParseCommandQuoted` | lib/coo_commons/json_utils.c:50-61 | on success the command followed by a quote occurs right after the marker, so the command is the text up to the first quote |
| `Json.CommandRoundTrip` | lib/coo_commons/json_utils.c:44-61 | a quote-free command after the marker comes back out when it fits, and gives -ENOMEM with nothing written when it does not |
| `Json.CommandValueDefault` | lib/coo_commons/json_utils.c:64-71 | a message without a value field sets the caller's float to 0.0 |

## Left out

- Mutexes and thread interleaving: every public operation is treated as atomic. The unlocked read of the heater table in the first loop of `heater_manager_distribute_power` (heater_manager.c:124-132) is therefore not modelled.
- Floating point: `float` is `real`, so NaN, infinities and rounding are not modelled.
- The sensor driver (`adc_temp_sensor_init`, `adc_temp_sensor_read`), `k_uptime_get`, and the conversion from raw ADC codes to Kelvin are inputs, not code.
- The heater hardware, the regulator driver and the power-to-voltage conversion are not part of this model. The heater manager only has TODO comments where it would drive them.
- Logging is dropped.
- The network code, the telemetry encoder `coo_json_encode_telemetry` and the message-type parser `coo_json_parse_msg_type` wrap a JSON library that is not part of this model. `strtof` is an unspecified function parameter.
- The periodic sensor and control tasks and the supervisor are not in the source files modelled; there is no scheduling in the model.
- Setpoint ramping and setpoint-range validation exist only as TODO comments in the source and are not invented here.
- `strncpy` truncation: identifiers are required to be shorter than 32 characters (`Common.ValidId`), so copies are exact.
- Configuration fields the core never reads are not modelled: sensor type, location and calibration; heater type and location; controller mode, units and timeout; per-loop error condition, invalid-sensor threshold and setpoint range/rate limit. The `resistance_ohms` assignment in `config_load_defaults` names a field that `heater_config_t` does not have, so it has no counterpart in the model.
- After a failed init the stored count exceeds the table capacity. The model records that state (`Valid()` is false), but every later operation requires `Valid()`. The source would index past its arrays there, which is undefined behaviour in C.
- The control engine embeds its PID by value. Its tick uses the PID specification functions (`Pid.Stepped`, `Pid.Output`, `Pid.Cleared`, `Pid.WithGains`) on the embedded `PidState`, not the `Pid.Controller` methods. Those methods are proved equal to the same functions.
- Heaters.HeaterManager.DistributePower: requires every listed heater the table knows to have a non-zero rating, because the source divides by that rating (heater_manager.c:155). `Heaters.Distribution` itself has no such requirement.
- Control.Engine.UpdateAll: requires the same non-zero ratings for every loop's heaters (`Control.Rated`), because it calls distribute_power.
- Config.Validate: requires `Config.Shaped`, which limits every loop entry to at most four sensor ids and four heater ids; the `Config.Find*` lookups, `Control.Engine.Init` and `Control.StateShaped` rely on the same limit. `config_validate` (config.c:145-172) never checks this, and `control_loop_init` (control_loop.c:83-91) copies without checking; a larger count would index past `sensor_ids[4]` or `heater_ids[4]`, which is undefined behaviour in C, so the model does not describe it.
- Sensors.SensorManager: keeps a copy of the sensor table (`sensorConfigs`), where the source keeps `config_ptr` and reads `config_ptr->sensors[i].enabled` at every read (sensor_manager.c:37, 71). The configuration is treated as fixed after init, so a change made through that pointer between calls is not modelled.
- Json.ParseCommand: the value is converted only by the opaque `strtof` parameter; what number the text holds is not modelled.

Behaviour of the code worth noting:
- `read_all` returns minus the number of failed sensors; its header comment (sensor_manager.h:42) only promises a negative value when any failed.
- `update_all` returns minus the number of errors, where its header comment (control_loop.h:36) only promises a negative error code. An alarm and a failed distribution in the same loop count two errors, so this is not the number of failing loops (`Control.ActiveLoopErrors`).
- The ALARM status is overwritten by OK later in the same tick (`Control.NoAlarmAfterTick`).
- `set_target` changes only the target, which the tick never reads (`Control.SetTargetIgnored`). So setting loop-1's target to 300 K does not make a follower at scalar 0.5 resolve 150 K unless loop-1's current setpoint already is 300 K (`Control.FollowExample`).
- `distribute_power` ignores the failures of the `set_power` calls it makes. A listed disabled heater keeps its level.
- Sensor init returns the driver's init status, and heater init does not bind or check any driver.
