# Clevo fan controller — a Dafny model

This project models the decision logic of the Clevo laptop fan controller. The controller comes as two programs: a headless daemon (`clevo-daemon`) and a tray indicator (`clevo-indicator`). The daemon has a text command socket, and `clevo-client` talks to it. The model covers these parts:

- **Register codec** (`Codec`).
  - The raw fan-duty byte converts to a percentage, and the two tachometer bytes to RPM.
  - The percentage converts back to the raw byte for a write.
- **Embedded-controller handshake** (`EcPort`).
  - This is the port protocol of chapter 12 of the ACPI specification:
    - EC_SC at 0x66 with OBF (bit 0) and IBF (bit 1);
    - EC_DATA at 0x62;
    - RD_EC 0x80;
    - the vendor command 0x99 that writes the fan duty.
  - The hardware is an oracle that answers the k-th status or data read. The model keeps a trace of the bytes written and read.
- **Controllers** (`Pid`, `History`, `Tuner`, `Controller`).
  - The integer bang-bang fallback.
  - The PID step with integral anti-windup, output clamp and rounding. The daemon fixes the output limits at 0..100; the indicator takes them from `--pid-output-min` and `--pid-output-max`, so the model takes them as a parameter.
  - The 60-slot temperature ring and its oscillation measure.
  - The performance score.
  - Two adaptive tuners:
    - the daemon's, which changes its step sizes persistently;
    - the indicator's, which has rapid, normal and steady phases and changes only local copies of its steps.
  - `pid_reset`.
- **Worker ticks** (`Loop`). One iteration of `daemon_ec_worker` and of `main_ec_worker` is a pure transition of the shared record.
  - A tick reads the sensors from a 256-byte snapshot or from discrete EC reads.
  - It runs the auto controller and returns the list of fan-duty writes it made.
  - The indicator's tick also covers the manual write-once and its sticky-off sysfs flag. The UI action that selects a fan duty is modelled as well.
- **Command protocol** (`Text`, `Server`, `Client`).
  - `Text` models the C text primitives the protocol uses: `%d` printing, `sscanf`, `atoi`, NUL termination and `snprintf` truncation.
  - `Server` models `handle_client_command` as a function from a request and the shared record to a reply and a new record. It also models the framing of one receive.
  - `Client` models:
    - option and command-word parsing;
    - the request each command sends;
    - how the STATUS reply is parsed for the plain and JSON outputs.
- **Status bars** (`StatusBar`): the indicator's 20-character temperature and fan bars.

Doubles are modelled as `real`. `sqrt` is a parameter: any function that is non-negative everywhere and maps 0.0 to 0.0. A C division of integers is written out as truncating division (`Base.CDiv`), and the `(int)` cast as truncation toward zero (`Base.Trunc`).

The daemon's socket acknowledges a SET_FAN request with "OK: Fan set to n%" (src/clevo-daemon-socket.c:208-216), but nothing in the daemon writes that duty. `daemon_ec_worker` (src/clevo-daemon.c:284-355) has no manual-write branch: it writes only from its auto branch. So the request only records `manual_next_fan_duty` and switches auto mode off, and the fan keeps its last duty. The model follows the code: `Loop.DaemonManualNeverWrites` states that a daemon in manual mode never writes.

## Model

| member | source | states |
|---|---|---|
| Codec.DutyFromRaw | src/clevo-daemon.c:539-542 | the duty is the floor of raw·100/255, so it is always within 0..100 |
| Codec.DutyTestVectors | tests/simple_test.c:96-103 | raw 0, 64, 127, 191 and 255 decode to 0, 25, 49, 74 and 100 |
| Codec.Tach | src/clevo-daemon.c:543-546 | `(hi<<8)+lo` is below 65536, and it is 0 exactly when both bytes are 0 |
| Codec.RpmOfTach | src/clevo-daemon.c:543-546 | RPM is 0 for a zero tachometer value. Otherwise r·t ≤ 2156220 < (r+1)·t, so r is the floor of 2156220/t |
| Codec.RpmFromRaw | src/clevo-daemon.c:543-546 | RPM lies within 0..2156220 and is 0 when both bytes are 0 |
| Codec.RpmOfTachUnique | src/clevo-daemon.c:543-546 | any r with r·t ≤ 2156220 < (r+1)·t is the RPM, so the division is characterised independently of its computation |
| Codec.RpmNonIncreasing | src/clevo-daemon.c:543-546 | a larger nonzero tachometer value never gives a higher RPM |
| Codec.RpmTestVectorSlow | tests/simple_test.c:108 | bytes (0x43, 0x1A) give 125 RPM |
| Codec.RpmTestVectorFast | tests/simple_test.c:109 | bytes (0x21, 0x8D) give 251 RPM |
| Codec.DutyToRaw | src/clevo-daemon.c:488-496 | for p in 1..100 the raw byte is the floor of p·255/100 |
| Codec.DutyRoundTrip | src/clevo-daemon.c:488-496 | decoding the raw byte written for p gives back p or p−1 |
| EcPort.Poll | src/clevo-daemon.c:501-504 | the retry loop reads the status port at least once and at most 101−i more times, with no other port traffic |
| EcPort.PollSpec | src/clevo-daemon.c:501-504 | from retry count i, the loop succeeds iff one of the next 100−i reads matches. Every read before the last missed. A failure costs all 101−i reads |
| EcPort.Wait | src/clevo-daemon.c:498-511 | `ec_io_wait` makes between 1 and 101 status reads and touches nothing else |
| EcPort.WaitSpec | src/clevo-daemon.c:498-511 | success iff the flag shows the wanted value in one of the first 100 reads. The reads before the last all missed. A failure makes all 101 reads, so a match on the 101st read still counts as failure |
| EcPort.LastReadIgnored | src/clevo-daemon.c:501-510 | a port whose flag first matches on the 101st read gets that read made, yet the wait reports failure |
| EcPort.WaitImmediate | src/clevo-daemon.c:498-504 | a match on the first read succeeds after exactly one read |
| EcPort.IoRead | src/clevo-daemon.c:513-525 | out 0x80→0x66, out addr→0x62, in 0x62, each after a wait. The byte read is returned whatever the waits reported |
| EcPort.IoDo | src/clevo-daemon.c:526-537 | command, address and value are written in order, each after a wait, with no data-port reads. The result is success iff IBF reads clear within the 100 status reads of the final wait (from `FinalWaitStart`, fixed by the status port alone), whatever the earlier waits saw |
| EcPort.FinalWaitStartIgnoresBytes | src/clevo-daemon.c:526-537 | the final wait of `ec_io_do` starts at the same status read whatever command, address and value are sent |
| EcPort.IoDoIgnoresEarlierTimeouts | src/clevo-daemon.c:526-537 | a status port busy for its first 101 reads makes the first wait fail, yet `ec_io_do` reports success: only the final wait counts |
| EcPort.WriteFanDuty | src/clevo-daemon.c:488-496 | p outside 1..100 fails with no port traffic; otherwise 0x99, 0x01 and the floor of p·255/100 are written |
| EcPort.WriteFanDutyReadsBack | src/clevo-daemon.c:488-496 | the byte sent for an accepted p decodes to p or p−1 |
| Pid.BangBang | src/clevo-daemon.c:393-412 | the duty is within 0..100 and at least 10 when hot. Hot means max(duty+2, 10), otherwise max(duty−2, 0), each clamped |
| Pid.RoundDuty | src/clevo-daemon.c:454-459 | the `(int)(x+0.5)` rounding then clamp gives 0..100, with 0 below 0.5, 100 from 99.5 and round-half-up in between |
| Pid.RoundDutyMonotone | src/clevo-daemon.c:454-459 | a larger output never rounds to a smaller duty |
| Pid.OutputMonotone | src/clevo-daemon.c:433-445 | with non-negative gains the P+I+D output grows with the error and the integral |
| Pid.Step | src/clevo-daemon.c:415-466 | `pid_prev_error` becomes this tick's error. The integral is the old integral plus the error, saturated at ±100. The duty, within 0..100, is the P+I+D output rounded to nearest (`Pid.RoundsTo`): the output itself when within the limits, the upper limit above it, the lower limit below it or when the limits are crossed |
| Pid.StepMonotone | src/clevo-daemon.c:415-466 | with non-negative gains a hotter reading never lowers the duty |
| Pid.DefaultScenario | src/clevo-daemon.c:415-466 | gains 2.0/0.1/0.5, zero state and target 65: temperature 50 gives duty 0 with integral and error both −15; temperature 75 gives output 26 and duty 26 with integral and error both 10 |
| History.InitialValid | src/clevo-indicator.c:1232-1238 | the empty ring (index 0, size 0, 60 zero slots) satisfies the ring invariant |
| History.Push | src/clevo-indicator.c:1232-1238 | the sample goes into the slot at the index. No other slot changes. The index stays within 0..59. The size grows by one and saturates at 60 |
| History.Clear | src/clevo-indicator.c:1388-1389 | the size returns to 0 and the slots are kept. The result is a valid ring exactly when there are 60 slots |
| History.PushSamples | src/clevo-indicator.c:1232-1238 | the chronological samples gain the new value at the end, and the oldest is dropped once 60 are held |
| History.PushFilling | src/clevo-indicator.c:1232-1238 | below capacity, a push appends to the samples |
| History.PushFull | src/clevo-indicator.c:1232-1238 | at capacity, a push drops the oldest sample and appends the new one |
| History.PushAllSamples | src/clevo-indicator.c:1232-1238 | after any run of pushes the ring holds the last 60 values of the whole sequence, in order |
| History.SamplesAfterClear | src/clevo-indicator.c:1379-1401 | after a reset the ring holds the last 60 of the values pushed since |
| History.PrefixHoldsSamples | src/clevo-indicator.c:1247-1256 | the first `size` slots, which the oscillation measure reads, hold exactly the chronological samples as a multiset |
| History.Variance | src/clevo-indicator.c:1243-1257 | the variance of the held samples is non-negative |
| History.Oscillation | src/clevo-indicator.c:1240-1260 | the measure is non-negative and is 0 below 10 samples |
| History.SteadyHistoryNoOscillation | src/clevo-indicator.c:1240-1260 | a history of equal temperatures has oscillation 0, whatever `sqrt` is |
| Tuner.Reset | src/clevo-indicator.c:1379-1401 | counters, scores and ring size go to 0, and the steps go back to 0.1/0.01/0.05 |
| Tuner.Score | src/clevo-indicator.c:1262-1284 | the score is within [0, 1] when the fan duty is within 0..100 and the oscillation is non-negative |
| Tuner.ScoreFanTerm | src/clevo-indicator.c:1276-1281 | the fan duty affects the score only when the error is below 5. It does so strictly: less fan means a higher score |
| Tuner.ScoreOscillationMonotone | src/clevo-indicator.c:1272-1281 | more oscillation never raises the score |
| Tuner.PerfectScore | src/clevo-indicator.c:1262-1284 | on target, with no oscillation and an idle fan, the score is 1 |
| Tuner.AdjustGains | src/clevo-daemon.c:854-879 | ki ends in [0.01, 0.5] and kd in [0.1, 2.0]. kp moves by its step only when the score is below target, then is clamped to [0.5, 5.0]. High oscillation lowers ki and raises kd. A large error raises ki |
| Tuner.AdjustGainsKeepsRange | src/clevo-daemon.c:854-879 | gains within their ranges stay within them after an adjustment |
| Tuner.Reverse | src/clevo-daemon.c:846-852 | a score drop below −0.05 turns every step to the opposite sign with 0.8 of its magnitude; anything else keeps the steps |
| Tuner.ScaleMagnitude | src/clevo-indicator.c:1304-1306 | scaling by m multiplies the magnitude of every step by |m|, and a positive m keeps each sign |
| Tuner.Error | src/clevo-indicator.c:1341-1343 | the error is non-negative and is the temperature's distance from the target, in one direction or the other |
| Tuner.DaemonTune | src/clevo-daemon.c:833-889 | the daemon's pass stores the new score as both current and previous, counts a learning cycle and bounds ki and kd. It reverses the stored steps persistently on a drop. Below the target, kp moves by the (possibly reversed) stored kp step and is clamped to [0.5, 5.0]; at the target kp is kept. All gains move by the updated stored steps as `Tuner.AdjustGains` prescribes |
| Tuner.DaemonStepsNeverGrow | src/clevo-daemon.c:846-852 | each of the daemon's stored steps keeps or shrinks its magnitude on every pass |
| Tuner.PhaseMultiplier | src/clevo-indicator.c:1291-1302 | rapid multiplier while in the rapid phase, else 0.3 once steady, else 1.0. With settings in their option ranges the multiplier is within [0.3, 10], and it is below 1 exactly when the rapid phase is over and enough stable cycles have passed |
| Tuner.LocalSteps | src/clevo-indicator.c:1304-1332 | the local steps are the stored steps times the phase multiplier, and times −0.8 more on a score drop |
| Tuner.IndicatorTune | src/clevo-indicator.c:1286-1378 | the indicator's pass never changes the stored steps. The stable counter grows on a small score change and resets otherwise. The rapid counter grows only in the rapid phase. ki and kd stay bounded. Below the target kp moves by the local kp step and is clamped to [0.5, 5.0]; at the target kp is kept. All gains move by the local steps as `Tuner.AdjustGains` prescribes |
| Tuner.AdjustGainsScaled | src/clevo-indicator.c:1334-1359 | multiplying every step by m multiplies by m the change of each gain that no clamp cuts off |
| Tuner.RapidPhaseMovesFaster | src/clevo-indicator.c:1291-1359 | from the same state, a pass in the rapid phase moves each unclamped gain `rapid_multiplier` times as far as a pass in the normal phase |
| Tuner.RapidPhaseLength | src/clevo-indicator.c:1366-1368 | after n passes the rapid counter is min(start + n, rapid_max) |
| Tuner.IndicatorStepsFixed | src/clevo-indicator.c:1304-1332 | any number of the indicator's passes leave the stored steps unchanged |
| Tuner.IndicatorGainsStayInRange | src/clevo-indicator.c:1334-1359 | gains within their ranges stay within them over any number of the indicator's passes |
| Controller.DefaultConfig | src/clevo-daemon.c:79-111 | target 65, PID and adaptive tuning enabled, output limits 0..100 in order, and tuner settings inside the ranges the option parsers clamp to |
| Controller.Tune | src/clevo-daemon.c:833-889 | the daemon runs its own pass and the indicator its phase-aware one. Either stores the score of the reading, counts a learning cycle, keeps the history and bounds ki and kd; the indicator's never changes the stored steps |
| Controller.Adapt | src/clevo-indicator.c:626-635 | pushes max(cpu, gpu) into the ring. When the cycle count reaches the interval, the gains become those of the tuning pass run on the pushed history and counted cycle, and the count is zeroed. Otherwise the count is incremented and the gains are kept. Leaves the PID state alone |
| Controller.AutoDuty | src/clevo-daemon.c:392-467 | without PID the result is the bang-bang duty with the state untouched. With PID and adaptive tuning, the gains are those `Adapt` produces for this tick's reading, before the step. The duty and the stored PID state are both `Step`'s, computed with those gains from the previous PID state |
| Controller.TuningCadence | src/clevo-indicator.c:626-635 | a tick pushes max(cpu, gpu) into the ring, and the cycle count wraps modulo the interval. A tuning pass runs exactly when it wraps to 0 |
| Controller.AdaptCadence | src/clevo-indicator.c:626-635 | the adaptive part of a tick either increments the cycle count or tunes and resets it to 0 |
| Controller.AutoDutyKeepsGainsInRange | src/clevo-daemon.c:392-467 | ticks never take the gains out of their ranges |
| Controller.PidReset | src/clevo-indicator.c:1184-1198 | zeroes the integral and previous error, and never changes kp, ki or kd. Resets the adaptive state only when adaptive tuning is enabled. Only the indicator clears the phase counters |
| Controller.ResetThenTick | src/clevo-indicator.c:1184-1198 | the first tick after a reset sees a history holding just that tick's temperature |
| Loop.Decode | src/clevo-daemon.c:314-318 | temperatures come from bytes 0x07 and 0xCD, the duty from 0xCE, and the RPM from 0xD0/0xD1, all with the register codec |
| Loop.ReadSensors | src/clevo-daemon.c:330-338 | five EC reads in order: cpu, gpu, duty, RPM high, RPM low. Each value is decoded with the codec |
| Loop.SnapshotAgreesWithPorts | src/clevo-daemon.c:314-338 | a snapshot and discrete reads that see the same bytes produce the same readings |
| Loop.AutoStage | src/clevo-daemon.c:341-352 | in auto mode a write happens iff the next duty is nonzero and differs from `auto_duty_val`, which then records it. Outside auto mode nothing changes |
| Loop.DaemonTick | src/clevo-daemon.c:284-355 | a full snapshot is decoded, anything else falls back to port reads. In auto mode the controller becomes `AutoDuty`'s for the stored readings. The tick writes exactly when auto mode is on and that duty is non-zero and differs from `auto_duty_val`. The write is that duty, and `auto_duty_val` records it; with no write it is unchanged. Outside auto mode, no write |
| Loop.DaemonRun | src/clevo-daemon.c:284-355 | the controller state stays valid over any number of ticks |
| Loop.DaemonManualNeverWrites | src/clevo-daemon.c:341-352 | with auto mode off, any number of daemon ticks write nothing and leave the controller alone |
| Loop.StartWorker | src/clevo-indicator.c:337-346 | the worker starts from the initial record and controller; the sysfs flag is the probe's result |
| Loop.ManualStage | src/clevo-indicator.c:357-363 | the manual duty is written iff it is nonzero and differs from `manual_prev_fan_duty`, which then records it; the controller is untouched |
| Loop.IndicatorReadings | src/clevo-indicator.c:365-402 | the readings stored are the decoded snapshot when the sysfs flag is on and the read is full, and otherwise the five discrete EC reads made after the manual write |
| Loop.IndicatorAutoWrite | src/clevo-indicator.c:404-416 | after the manual write, if any, the tick writes at most once more, and does so exactly when auto mode is on and the controller's duty is nonzero and differs from `auto_duty_val` |
| Loop.IndicatorAutoStage | src/clevo-indicator.c:404-416 | the tick's record, controller and writes are the auto stage's, after the manual write. It writes exactly when auto mode is on and the controller's duty for the stored readings is nonzero and differs from `auto_duty_val`; that duty is written and recorded, otherwise the recorded value stays. In auto mode the controller is the one the duty came from |
| Loop.IndicatorTick | src/clevo-indicator.c:349-420 | a pending manual duty is written first. Outside auto mode that is the only write. The controller is touched only in auto mode. The sysfs flag stays on only while snapshots are full |
| Loop.SysfsIgnoredWhenOff | src/clevo-indicator.c:366-393 | once the flag is off, the sysfs outcome has no effect on a tick |
| Loop.SysfsStaysOff | src/clevo-indicator.c:366-393 | once the flag is off, it stays off for any number of ticks |
| Loop.IndicatorRun | src/clevo-indicator.c:349-420 | the controller state stays valid over any number of ticks |
| Loop.SelectFan | src/clevo-indicator.c:534-552 | 0 selects auto mode and n selects manual n; both zero `auto_duty_val` and reset the PID |
| Loop.ReselectWritesNothing | src/clevo-indicator.c:357-363 | selecting the last applied manual duty again causes no write |
| Loop.ManualWrittenOnce | src/clevo-indicator.c:357-363 | a new manual duty is written on the next tick and not again on the tick after |
| Text.Itoa | src/clevo-daemon-socket.c:200-206 | `%d` output: a leading '-' exactly for negatives, then digits only |
| Text.ItoaLength | src/clevo-daemon-socket.c:200-206 | a 32-bit int prints in at most 11 characters |
| Text.ScanInt | src/clevo-client.c:359-360 | `%d` input consumes up to the last digit of a number and stops before a non-digit; a negative value means a '-' was read |
| Text.ScanItoa | src/clevo-client.c:359-360 | a printed number followed by a non-digit scans back to itself and consumes exactly its own characters |
| Text.AtoiItoa | src/clevo-client.c:332 | `atoi` inverts `%d` printing |
| Text.Render | src/clevo-daemon-socket.c:200-206 | `snprintf` prints at least one character per value; `Text.ScanRender` is its inverse |
| Text.Atoi | src/clevo-client.c:326-332 | `atoi` of an empty string, or of one starting with anything but white space, a sign or a digit, is 0; one starting with a digit is non-negative |
| Text.Scan | src/clevo-client.c:359-360 | `sscanf` converts at most one value per `%d` directive, stopping at the first directive that fails; `Text.ScanRender` shows it inverts `Text.Render` |
| Text.ScanRender | src/clevo-client.c:359-360 | for any separated format, `sscanf` of the `snprintf` output recovers every value |
| Text.FieldsLength | src/clevo-daemon-socket.c:200-206 | a label/value line of 32-bit ints with labels of at most 20 characters is at most 32 characters per field |
| Text.Fit | src/clevo-daemon-socket.c:196-261 | `snprintf` into 1024 bytes keeps a prefix of at most 1023 characters, and it is the whole text when it fits |
| Text.CString | src/clevo-daemon-socket.c:183-185 | the request is the received bytes up to the first NUL |
| Server.Classify | src/clevo-daemon-socket.c:198-256 | the six tests are mutually exclusive: each branch is taken exactly by the requests its own test accepts (prefix STATUS, prefix SET_FAN, exactly SET_AUTO, prefix SET_TARGET_TEM, exactly GET_TEMP, exactly GET_FAN) |
| Server.TestsDisjoint | src/clevo-daemon-socket.c:198-252 | no request passes two of the six tests, so their order decides nothing |
| Server.HandleCommand | src/clevo-daemon-socket.c:195-262 | every reply fits in 1023 characters, and only SET_FAN and SET_AUTO change the record. SET_FAN: in range sets manual n, out of range gives the duty error, no number gives the command error. SET_AUTO enables auto mode. Unknown requests are echoed in an error |
| Server.Serve | src/clevo-daemon-socket.c:181-186 | an empty receive gets no reply; anything else is handled up to its first NUL |
| Server.ExactRequests | src/clevo-daemon-socket.c:224-255 | SET_AUTO, GET_TEMP and GET_FAN must match exactly, so a trailing newline makes them unknown |
| Server.PrefixRequests | src/clevo-daemon-socket.c:198-246 | STATUS, SET_FAN and SET_TARGET_TEM are prefix checks, so "STATUSX" is a status request and "SET_FANX" a SET_FAN |
| Server.SetFanPrefixed | src/clevo-daemon-socket.c:198-208 | every request starting with SET_FAN is classified as SET_FAN |
| Server.SetTargetPrefixed | src/clevo-daemon-socket.c:231 | every request starting with the 14 characters SET_TARGET_TEM takes the target branch |
| Server.StatusRoundTrip | src/clevo-daemon-socket.c:198-206 | a STATUS reply changes nothing and scans back to exactly the five fields of the record |
| Server.SetFanRequestParses | src/clevo-daemon-socket.c:208-210 | "SET_FAN n" takes the SET_FAN branch and scans to n |
| Server.SetFanRequestPlain | src/clevo-client.c:114 | "SET_FAN n" for a 32-bit n is under 1024 bytes and holds no NUL |
| Server.SetFanOutcome | src/clevo-daemon-socket.c:208-222 | "SET_FAN n" in 1..100 replies "OK: Fan set to n%" and sets manual mode with n. Any other n gives the duty error and leaves the record alone |
| Server.SetFanWithoutSpace | src/clevo-daemon-socket.c:208-216 | "SET_FANn" without a space is accepted like "SET_FAN n" |
| Server.SetFanMalformed | src/clevo-daemon-socket.c:217-222 | "SET_FANX" replies the SET_FAN command error and changes nothing |
| Server.GetTempReadOnly | src/clevo-daemon-socket.c:247-250 | GET_TEMP changes nothing and scans back to the two temperatures |
| Server.GetFanReadOnly | src/clevo-daemon-socket.c:251-255 | GET_FAN changes nothing and scans back to duty, RPM and auto flag |
| Server.SetTargetRequestParses | src/clevo-daemon-socket.c:231-233 | "SET_TARGET_TEMP n" takes the target branch and scans to n |
| Server.SetTargetIgnored | src/clevo-daemon-socket.c:231-246 | a target request never changes the record; it only validates 40..100 and replies |
| Client.ApplyFlag | src/clevo-client.c:295-310 | exactly -v, -j and -h are accepted; each sets its own flag, leaves the other two flags and the words alone |
| Client.LongOption | src/clevo-client.c:288-293 | long options resolve only to v, j or h |
| Client.LongOptionNames | src/clevo-client.c:288-293 | --verbose, --json and --help and their one-letter prefixes resolve to their flags |
| Client.Cluster | src/clevo-client.c:295-310 | a cluster of short options keeps the words. Without `h` it is accepted iff every letter is v or j, and then sets exactly the flags its letters name. With letters from v, j and h only, help is set iff `h` is among them |
| Client.ScanOptions | src/clevo-client.c:295-310 | option scanning stops at help, never clears a flag once set, and only appends words, at most one per argument |
| Client.PlainWordsKept | src/clevo-client.c:295-316 | arguments without options pass through in order as command words |
| Client.PlainWordsSkipped | src/clevo-client.c:295-316 | leading plain words are collected and the scan goes on with the rest unchanged |
| Client.FlagAmongWords | src/clevo-client.c:295-316 | `-v` or `-j` between plain words sets its flag and leaves the words on both sides, in order, as the command words |
| Client.WordsAfterDoubleDash | src/clevo-client.c:295-316 | after `--` every argument is a command word, even one that looks like an option |
| Client.ParseArguments | src/clevo-client.c:286-353 | an accepted set-fan carries a duty within 1..100, and an accepted monitor an interval of at least 1 |
| Client.DefaultIsStatus | src/clevo-client.c:312-316 | no command word means STATUS, with -v and --json setting their flags |
| Client.CommandWords | src/clevo-client.c:318-353 | each of the seven command words maps to its command, set-fan without a value fails, and any other word fails |
| Client.MonitorInterval | src/clevo-client.c:322-328 | the monitor interval is atoi of the argument, raised to at least 1 |
| Client.SetFanArgument | src/clevo-client.c:329-340 | set-fan is accepted iff atoi of its argument is within 1..100 |
| Client.Request | src/clevo-client.c:84-160 | every command but help sends a request |
| Client.RequestsReachTheirBranch | src/clevo-client.c:84-160 | every request the client sends takes the server branch it means, and a SET_FAN request is always in range |
| Client.RequestsServedWhole | src/clevo-daemon-socket.c:181-186 | every request the client sends is under 1024 bytes and free of NUL, so serving it is handling the whole request, in the branch meant for its command |
| Client.ParseStatus | src/clevo-client.c:213-218 | a STATUS reply parses only when all five fields scan |
| Client.StatusParsesBack | src/clevo-client.c:217-218 | the client parses every server STATUS reply back to the record's five fields |
| Client.JsonStatus | src/clevo-client.c:356-375 | the JSON output exists iff the reply parses, and it fits the buffer |
| Client.Json | src/clevo-client.c:362-370 | the object starts with `{` and ends in `true` exactly when the AUTO value is nonzero |
| Client.JsonFits | src/clevo-client.c:362-370 | the JSON text for 32-bit fields fits the 1024-byte buffer untruncated |
| Client.JsonOfStatus | src/clevo-client.c:356-375 | the JSON for a server STATUS reply is the rendering of the record's fields |
| Client.PrintStatus | src/clevo-client.c:213-230 | an unparsable reply is echoed as "Status: …" |
| Client.Report | src/clevo-client.c:219-225 | the report's last line before the closing rule says ON exactly when the AUTO value is nonzero |
| Client.StatusShownAsReport | src/clevo-client.c:213-230 | a server STATUS reply is always shown as the formatted report of the record |
| StatusBar.Filled | src/clevo-indicator.c:1410-1414 | the filled count is within 0..20 |
| StatusBar.DrawBar | src/clevo-indicator.c:1410-1425 | the bar is `Filled` '#' followed by '-', 20 characters in all |
| StatusBar.FilledReference | src/clevo-indicator.c:1410-1414 | with a positive scale: 0 at or below zero, 20 at or above the scale, and the floor of 20·value/scale in between |
| StatusBar.FilledMonotone | src/clevo-indicator.c:1410-1414 | a larger value never draws a shorter bar |
| StatusBar.CallerScales | src/clevo-indicator.c:1500-1509 | on the callers' scales, 64 and 65 degrees draw 12 and 13, and 4399 and 4400 RPM draw 19 and 20 |

## Left out

- Port I/O, timing and files: `inb`/`outb`/`ioperm`, the 1 ms and 200 ms sleeps, `modprobe`, and opening and reading `/sys/kernel/debug/ec/ec0/io`. They are modelled as oracles: status and data byte sequences, a sysfs outcome of missing, failed or a buffer, and a trace of port writes.
- The daemon's worker opens the sysfs file twice per tick. The two opens are collapsed into one outcome, because the model cannot observe anything between them.
- Concurrency. The socket thread and the worker share the record without locks. The indicator forks its worker over shared memory. There are signal handlers. Each command and each tick is modelled as one atomic transition.
- `pid_reset` in the indicator runs in the UI parent process. After the fork it never reaches the worker's PID globals. `Loop.SelectFan` applies it to the worker's controller state, as the authors evidently meant.
- IEEE-754 rounding. Doubles are `real`, and `sqrt` is an arbitrary function that is non-negative and maps 0.0 to 0.0, so no numeric accuracy is claimed.
- Text.Itoa, Text.ScanInt and Text.Atoi: integers are unbounded. The undefined behaviour of `atoi` and `%d` on out-of-range input is not modelled. Properties that need a bound say so with 32-bit preconditions: Text.ItoaLength, Text.FieldsLength and Client.JsonFits.
- StatusBar.Filled requires a nonzero scale, because the C division by zero is undefined. Both callers pass 100 or 4400. The product `value*20` is unbounded, so its 32-bit overflow is not modelled.
- Server.Serve requires a chunk shorter than 1024 bytes, because `recv` is given 1023 bytes of room. Partial receives of a longer request are not modelled.
- Codec.DutyFromRaw and Codec.RpmFromRaw take bytes only. Negative raw inputs cannot come from the EC.
- Client option parsing follows GNU `getopt_long` with its default permutation. Options are recognised anywhere, `--` ends them, and long names may be abbreviated. The `POSIXLY_CORRECT` mode and the error messages for unknown options are not modelled.
- Client output details. `print_help`, the connect/send/receive plumbing and the monitor loop are left out. So are the GTK/AppIndicator UI, the menu toggling, the ANSI colour codes of the status view, and `calculate_temp_rate_of_change`, which reads the wall clock.
- Adaptive fields that are written but never read are not modelled: the oscillation and overshoot penalties, the settling time and the cycle start time.
- Process plumbing is left out: `parse_command_line` in both programs (the option values it produces, such as the output limits and the tuner settings, are parameters; `Tuner.TunerConfigValid` records the ranges it clamps them to), `check_proc_instances`, `daemonize`, logging, `get_time_string`, socket setup, and `src/privilege_manager.c`.
- `tests/test_utils.c` is not part of this model. Its expected values contradict the code, so the vectors of `tests/simple_test.c` are used.
