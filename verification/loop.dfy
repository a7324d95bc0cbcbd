/** One iteration of the EC worker loop, as an atomic transition of the
    shared record: read the sensors (from the 256-byte register snapshot the
    kernel exports, or by port reads), run the control law in auto mode,
    and write the fan duty when it changed. The daemon re-probes the
    snapshot file every tick; the indicator probes it once and stops using
    it after the first failure, and also applies manual selections. */
module Loop {
  import opened Base
  import opened History
  import Codec
  import EcPort
  import opened Controller

  /** The fields of the shared record the loop and the command handlers
      read and write. */
  datatype Shared = Shared(
    cpuTemp: int,
    gpuTemp: int,
    fanDuty: int,
    fanRpms: int,
    autoDuty: int,
    autoDutyVal: int,
    manualNext: int,
    manualPrev: int)

  /** `daemon_init_share` / `main_init_share`: all zero, auto mode on. */
  const InitShared: Shared := Shared(0, 0, 0, 0, 1, 0, 0, 0)

  /** The outcome of opening and reading the snapshot file this tick:
      `buf` holds the bytes read (fewer than 256 on a short read). */
  datatype Sysfs = NoExport | ReadFailed | Read(buf: seq<Byte>)

  datatype Readings = Readings(cpu: int, gpu: int, duty: int, rpm: int)

  const RegCpuTemp: Byte := 0x07
  const RegGpuTemp: Byte := 0xCD
  const RegFanDuty: Byte := 0xCE
  const RegFanRpmsHi: Byte := 0xD0
  const RegFanRpmsLo: Byte := 0xD1
  const SnapshotSize: nat := 0x100

  /** Decodes the register snapshot. */
  function Decode(buf: seq<Byte>): (r: Readings)
    requires |buf| == SnapshotSize
    ensures r.cpu == buf[RegCpuTemp] && r.gpu == buf[RegGpuTemp]
    ensures 0 <= r.duty <= 100 && r.duty * 255 <= buf[RegFanDuty] * 100 < (r.duty + 1) * 255
    ensures r.rpm == Codec.RpmFromRaw(buf[RegFanRpmsHi], buf[RegFanRpmsLo])
  {
    Readings(buf[RegCpuTemp], buf[RegGpuTemp], Codec.DutyFromRaw(buf[RegFanDuty]),
      Codec.RpmFromRaw(buf[RegFanRpmsHi], buf[RegFanRpmsLo]))
  }

  datatype Sensed = Sensed(readings: Readings, bus: EcPort.Bus)

  /** The port traffic of one `ec_io_read` of `addr` returning `v`. */
  function ReadOps(addr: Byte, v: Byte): (ops: seq<EcPort.Io>)
    ensures |ops| == 3 && ops[1] == EcPort.Out(EcPort.EcData, addr) && ops[2] == EcPort.In(EcPort.EcData, v)
  {
    [EcPort.Out(EcPort.EcSc, EcPort.RdEc), EcPort.Out(EcPort.EcData, addr), EcPort.In(EcPort.EcData, v)]
  }

  /** The direct-I/O fallback: CPU, GPU, duty, RPM high, RPM low, in that
      order. */
  function ReadSensors(dev: EcPort.Device, b: EcPort.Bus): (s: Sensed)
    ensures s.bus.dc == b.dc + 5
    ensures s.readings.cpu == dev.data(b.dc) && s.readings.gpu == dev.data(b.dc + 1)
    ensures s.readings.duty == Codec.DutyFromRaw(dev.data(b.dc + 2))
    ensures s.readings.rpm == Codec.RpmFromRaw(dev.data(b.dc + 3), dev.data(b.dc + 4))
    ensures s.bus.trace == b.trace + ReadOps(RegCpuTemp, dev.data(b.dc)) + ReadOps(RegGpuTemp, dev.data(b.dc + 1))
      + ReadOps(RegFanDuty, dev.data(b.dc + 2)) + ReadOps(RegFanRpmsHi, dev.data(b.dc + 3))
      + ReadOps(RegFanRpmsLo, dev.data(b.dc + 4))
  {
    var r1 := EcPort.IoRead(dev, b, RegCpuTemp);
    var r2 := EcPort.IoRead(dev, r1.bus, RegGpuTemp);
    var r3 := EcPort.IoRead(dev, r2.bus, RegFanDuty);
    var r4 := EcPort.IoRead(dev, r3.bus, RegFanRpmsHi);
    var r5 := EcPort.IoRead(dev, r4.bus, RegFanRpmsLo);
    assert r1.bus.dc == b.dc + 1;
    assert r2.bus.dc == b.dc + 2;
    assert r3.bus.dc == b.dc + 3;
    assert r4.bus.dc == b.dc + 4;
    assert r1.bus.trace == b.trace + ReadOps(RegCpuTemp, r1.value);
    assert r2.bus.trace == r1.bus.trace + ReadOps(RegGpuTemp, r2.value);
    assert r3.bus.trace == r2.bus.trace + ReadOps(RegFanDuty, r3.value);
    assert r4.bus.trace == r3.bus.trace + ReadOps(RegFanRpmsHi, r4.value);
    assert r5.bus.trace == r4.bus.trace + ReadOps(RegFanRpmsLo, r5.value);
    Sensed(Readings(r1.value, r2.value, Codec.DutyFromRaw(r3.value), Codec.RpmFromRaw(r4.value, r5.value)), r5.bus)
  }

  /** When the controller answers the five port reads with the snapshot's
      bytes, both paths produce the same readings. */
  lemma SnapshotAgreesWithPorts(dev: EcPort.Device, buf: seq<Byte>, b: EcPort.Bus)
    requires |buf| == SnapshotSize
    requires dev.data(b.dc) == buf[RegCpuTemp] && dev.data(b.dc + 1) == buf[RegGpuTemp]
    requires dev.data(b.dc + 2) == buf[RegFanDuty]
    requires dev.data(b.dc + 3) == buf[RegFanRpmsHi] && dev.data(b.dc + 4) == buf[RegFanRpmsLo]
    ensures Decode(buf) == ReadSensors(dev, b).readings
  {
  }

  function Store(s: Shared, r: Readings): (s': Shared)
    ensures Readings(s'.cpuTemp, s'.gpuTemp, s'.fanDuty, s'.fanRpms) == r
    ensures s'.autoDuty == s.autoDuty && s'.autoDutyVal == s.autoDutyVal
      && s'.manualNext == s.manualNext && s'.manualPrev == s.manualPrev
  {
    s.(cpuTemp := r.cpu, gpuTemp := r.gpu, fanDuty := r.duty, fanRpms := r.rpm)
  }

  predicate FullSnapshot(x: Sysfs) {
    x.Read? && |x.buf| == SnapshotSize
  }

  /** The state a tick hands to the next one, and the duties it passed to
      `ec_write_fan_duty`. */
  datatype Tick = Tick(shared: Shared, ctrl: Ctrl, bus: EcPort.Bus, writes: seq<int>)

  /** The auto-mode stage: compute the next duty and write it only when it
      is non-zero and differs from the last auto value written. */
  function AutoStage(dev: EcPort.Device, cfg: ControlConfig, s: Shared, c: Ctrl, b: EcPort.Bus, sqrt: Sqrt): (t: Tick)
    requires CtrlValid(c)
    ensures CtrlValid(t.ctrl)
    ensures t.shared == s.(autoDutyVal := t.shared.autoDutyVal)
    ensures s.autoDuty != 1 ==> t == Tick(s, c, b, [])
    ensures s.autoDuty == 1 ==> t.ctrl == AutoDuty(cfg, c, s.cpuTemp, s.gpuTemp, s.fanDuty, sqrt).ctrl
    ensures t.writes == [] ==> t.shared == s && t.bus == b
    ensures t.writes != [] ==> (&& s.autoDuty == 1 && |t.writes| == 1
      && 1 <= t.writes[0] <= 100 && t.writes[0] != s.autoDutyVal
      && t.writes[0] == AutoDuty(cfg, c, s.cpuTemp, s.gpuTemp, s.fanDuty, sqrt).duty
      && t.shared.autoDutyVal == t.writes[0]
      && t.bus == EcPort.WriteFanDuty(dev, b, t.writes[0]).bus)
    ensures s.autoDuty == 1 && t.writes == [] ==>
      AutoDuty(cfg, c, s.cpuTemp, s.gpuTemp, s.fanDuty, sqrt).duty in {0, s.autoDutyVal}
  {
    if s.autoDuty != 1 then Tick(s, c, b, [])
    else
      var d := AutoDuty(cfg, c, s.cpuTemp, s.gpuTemp, s.fanDuty, sqrt);
      if d.duty != 0 && d.duty != s.autoDutyVal then
        Tick(s.(autoDutyVal := d.duty), d.ctrl, EcPort.WriteFanDuty(dev, b, d.duty).bus, [d.duty])
      else Tick(s, d.ctrl, b, [])
  }

  /** `daemon_ec_worker`: the snapshot is used whenever this tick's read
      returned all 256 bytes; the daemon never applies manual duties. */
  function DaemonTick(dev: EcPort.Device, cfg: ControlConfig, s: Shared, c: Ctrl, x: Sysfs, b: EcPort.Bus, sqrt: Sqrt): (t: Tick)
    requires CtrlValid(c)
    ensures CtrlValid(t.ctrl)
    ensures t.shared.autoDuty == s.autoDuty && t.shared.manualNext == s.manualNext
      && t.shared.manualPrev == s.manualPrev
    ensures FullSnapshot(x) ==> Store(s, Decode(x.buf)).(autoDutyVal := t.shared.autoDutyVal) == t.shared
    ensures !FullSnapshot(x) ==> Store(s, ReadSensors(dev, b).readings).(autoDutyVal := t.shared.autoDutyVal) == t.shared
    ensures s.autoDuty != 1 ==> t.writes == [] && t.ctrl == c && t.shared.autoDutyVal == s.autoDutyVal
    ensures |t.writes| <= 1 && (t.writes != [] ==> 1 <= t.writes[0] <= 100 && t.shared.autoDutyVal == t.writes[0])
    ensures var d := AutoDuty(cfg, c, t.shared.cpuTemp, t.shared.gpuTemp, t.shared.fanDuty, sqrt);
      && (s.autoDuty == 1 ==> t.ctrl == d.ctrl)
      && (t.writes != [] <==> s.autoDuty == 1 && d.duty != 0 && d.duty != s.autoDutyVal)
      && (t.writes != [] ==> t.writes == [d.duty])
      && (t.writes == [] ==> t.shared.autoDutyVal == s.autoDutyVal)
  {
    if FullSnapshot(x) then AutoStage(dev, cfg, Store(s, Decode(x.buf)), c, b, sqrt)
    else
      var sensed := ReadSensors(dev, b);
      AutoStage(dev, cfg, Store(s, sensed.readings), c, sensed.bus, sqrt)
  }

  /** Several daemon ticks in a row, one snapshot outcome each. */
  function DaemonRun(dev: EcPort.Device, cfg: ControlConfig, s: Shared, c: Ctrl, xs: seq<Sysfs>, b: EcPort.Bus, sqrt: Sqrt): (t: Tick)
    requires CtrlValid(c)
    ensures CtrlValid(t.ctrl)
    decreases |xs|
  {
    if xs == [] then Tick(s, c, b, [])
    else
      var t1 := DaemonTick(dev, cfg, s, c, xs[0], b, sqrt);
      var t2 := DaemonRun(dev, cfg, t1.shared, t1.ctrl, xs[1..], t1.bus, sqrt);
      Tick(t2.shared, t2.ctrl, t2.bus, t1.writes + t2.writes)
  }

  /** In manual mode the daemon never writes the fan, whatever the
      readings and however long it runs: a SET_FAN duty never reaches the
      controller. */
  lemma {:induction false} DaemonManualNeverWrites(dev: EcPort.Device, cfg: ControlConfig, s: Shared, c: Ctrl, xs: seq<Sysfs>, b: EcPort.Bus, sqrt: Sqrt)
    requires CtrlValid(c) && s.autoDuty != 1
    ensures DaemonRun(dev, cfg, s, c, xs, b, sqrt).writes == []
    ensures DaemonRun(dev, cfg, s, c, xs, b, sqrt).ctrl == c
    decreases |xs|
  {
    if xs != [] {
      var t1 := DaemonTick(dev, cfg, s, c, xs[0], b, sqrt);
      DaemonManualNeverWrites(dev, cfg, t1.shared, t1.ctrl, xs[1..], t1.bus, sqrt);
    }
  }

  /** The indicator's worker state: the shared record, the control memory
      and the sticky "snapshot file usable" flag. */
  datatype Worker = Worker(shared: Shared, ctrl: Ctrl, sysfsOn: bool)

  datatype WorkerTick = WorkerTick(worker: Worker, bus: EcPort.Bus, writes: seq<int>)

  /** The worker's start: the flag is whether the file could be opened. */
  function StartWorker(probe: bool): (w: Worker)
    ensures w.shared == InitShared && w.ctrl == InitialCtrl && w.sysfsOn == probe
  {
    Worker(InitShared, InitialCtrl, probe)
  }

  /** A manual selection is pending: non-zero and different from the last
      one applied. */
  predicate NewManual(s: Shared) {
    s.manualNext != 0 && s.manualNext != s.manualPrev
  }

  /** The manual stage: a pending selection is written once; the control
      memory passes through untouched. */
  function ManualStage(dev: EcPort.Device, s: Shared, c: Ctrl, b: EcPort.Bus): (t: Tick)
    ensures t.ctrl == c && t.shared == s.(manualPrev := t.shared.manualPrev)
    ensures NewManual(s) ==>
      t.writes == [s.manualNext] && t.shared.manualPrev == s.manualNext
      && t.bus == EcPort.WriteFanDuty(dev, b, s.manualNext).bus
    ensures !NewManual(s) ==> t.writes == [] && t.shared == s && t.bus == b
  {
    if NewManual(s) then
      Tick(s.(manualPrev := s.manualNext), c, EcPort.WriteFanDuty(dev, b, s.manualNext).bus, [s.manualNext])
    else Tick(s, c, b, [])
  }

  /** `main_ec_worker`, one loop iteration: the manual stage, the
      readings, then the auto stage. */
  function IndicatorTick(dev: EcPort.Device, cfg: ControlConfig, w: Worker, x: Sysfs, b: EcPort.Bus, sqrt: Sqrt): (t: WorkerTick)
    requires CtrlValid(w.ctrl)
    ensures CtrlValid(t.worker.ctrl)
    ensures t.worker.sysfsOn == (w.sysfsOn && FullSnapshot(x))
    ensures t.worker.shared.autoDuty == w.shared.autoDuty && t.worker.shared.manualNext == w.shared.manualNext
    ensures w.shared.autoDuty != 1 ==> t.worker.ctrl == w.ctrl
    ensures NewManual(w.shared) ==>
      (|t.writes| >= 1 && t.writes[0] == w.shared.manualNext && t.worker.shared.manualPrev == w.shared.manualNext)
    ensures !NewManual(w.shared) ==> t.worker.shared.manualPrev == w.shared.manualPrev
    ensures w.shared.autoDuty != 1 ==> t.writes == (if NewManual(w.shared) then [w.shared.manualNext] else [])
  {
    var m := ManualStage(dev, w.shared, w.ctrl, b);
    var on := w.sysfsOn && FullSnapshot(x);
    var sensed := if on then Sensed(Decode(x.buf), m.bus) else ReadSensors(dev, m.bus);
    var a := AutoStage(dev, cfg, Store(m.shared, sensed.readings), m.ctrl, sensed.bus, sqrt);
    WorkerTick(Worker(a.shared, a.ctrl, on), a.bus, m.writes + a.writes)
  }

  /** Where an indicator tick's readings come from: the snapshot while the
      flag is on and this tick's read returned all 256 bytes, otherwise
      port reads made after the manual write. */
  lemma IndicatorReadings(dev: EcPort.Device, cfg: ControlConfig, w: Worker, x: Sysfs, b: EcPort.Bus, sqrt: Sqrt)
    requires CtrlValid(w.ctrl)
    ensures var t := IndicatorTick(dev, cfg, w, x, b, sqrt);
      var readings := if w.sysfsOn && FullSnapshot(x) then Decode(x.buf)
        else ReadSensors(dev, ManualStage(dev, w.shared, w.ctrl, b).bus).readings;
      Store(w.shared, readings).(autoDutyVal := t.worker.shared.autoDutyVal,
        manualPrev := t.worker.shared.manualPrev) == t.worker.shared
  {
    var m := ManualStage(dev, w.shared, w.ctrl, b);
    var on := w.sysfsOn && FullSnapshot(x);
    var sensed := if on then Sensed(Decode(x.buf), m.bus) else ReadSensors(dev, m.bus);
    var s := Store(m.shared, sensed.readings);
    var a := AutoStage(dev, cfg, s, m.ctrl, sensed.bus, sqrt);
    assert IndicatorTick(dev, cfg, w, x, b, sqrt).worker.shared == a.shared;
  }

  /** When an indicator tick writes the auto duty: after the manual write
      (if any), exactly when auto mode is on and the new duty is non-zero
      and differs from the last auto value written. */
  lemma IndicatorAutoWrite(dev: EcPort.Device, cfg: ControlConfig, w: Worker, x: Sysfs, b: EcPort.Bus, sqrt: Sqrt)
    requires CtrlValid(w.ctrl)
    ensures var t := IndicatorTick(dev, cfg, w, x, b, sqrt);
      var k := if NewManual(w.shared) then 1 else 0;
      var s' := t.worker.shared;
      var d := AutoDuty(cfg, w.ctrl, s'.cpuTemp, s'.gpuTemp, s'.fanDuty, sqrt);
      && k <= |t.writes| <= k + 1
      && (|t.writes| == k + 1 <==> w.shared.autoDuty == 1 && d.duty != 0 && d.duty != w.shared.autoDutyVal)
  {
    var m := ManualStage(dev, w.shared, w.ctrl, b);
    var a := IndicatorAutoStage(dev, cfg, w, x, b, sqrt);
    var k := if NewManual(w.shared) then 1 else 0;
    assert |m.writes| == k;
  }

  /** The auto stage of an indicator tick, taken apart from the tick: the
      tick's record, controller and writes come from it, after the manual
      write. It writes exactly when auto mode is on and the controller's
      duty for the stored readings is non-zero and differs from
      `auto_duty_val`; that duty is written and recorded, and in auto mode
      the controller it came from is kept. */
  function IndicatorAutoStage(dev: EcPort.Device, cfg: ControlConfig, w: Worker, x: Sysfs, b: EcPort.Bus, sqrt: Sqrt): (a: Tick)
    requires CtrlValid(w.ctrl)
    ensures var t := IndicatorTick(dev, cfg, w, x, b, sqrt);
      var m := ManualStage(dev, w.shared, w.ctrl, b);
      && t.worker.shared == a.shared && t.worker.ctrl == a.ctrl && t.writes == m.writes + a.writes
    ensures var s := IndicatorTick(dev, cfg, w, x, b, sqrt).worker.shared;
      && a.shared.cpuTemp == s.cpuTemp && a.shared.gpuTemp == s.gpuTemp && a.shared.fanDuty == s.fanDuty
    ensures var m := ManualStage(dev, w.shared, w.ctrl, b);
      && m.ctrl == w.ctrl && (m.writes == [] || m.writes == [w.shared.manualNext])
    ensures var d := AutoDuty(cfg, w.ctrl, a.shared.cpuTemp, a.shared.gpuTemp, a.shared.fanDuty, sqrt);
      && (w.shared.autoDuty == 1 ==> a.ctrl == d.ctrl)
      && (a.writes != [] <==> w.shared.autoDuty == 1 && d.duty != 0 && d.duty != w.shared.autoDutyVal)
      && (a.writes != [] ==> a.writes == [d.duty] && a.shared.autoDutyVal == d.duty)
      && (a.writes == [] ==> a.shared.autoDutyVal == w.shared.autoDutyVal)
  {
    var m := ManualStage(dev, w.shared, w.ctrl, b);
    var on := w.sysfsOn && FullSnapshot(x);
    var sensed := if on then Sensed(Decode(x.buf), m.bus) else ReadSensors(dev, m.bus);
    AutoStage(dev, cfg, Store(m.shared, sensed.readings), m.ctrl, sensed.bus, sqrt)
  }

  /** With the flag off, the snapshot file is not consulted at all. */
  lemma SysfsIgnoredWhenOff(dev: EcPort.Device, cfg: ControlConfig, w: Worker, x1: Sysfs, x2: Sysfs, b: EcPort.Bus, sqrt: Sqrt)
    requires CtrlValid(w.ctrl) && !w.sysfsOn
    ensures IndicatorTick(dev, cfg, w, x1, b, sqrt) == IndicatorTick(dev, cfg, w, x2, b, sqrt)
  {
  }

  /** Once the snapshot file has failed, the indicator never uses it again. */
  lemma {:induction false} SysfsStaysOff(dev: EcPort.Device, cfg: ControlConfig, w: Worker, xs: seq<Sysfs>, b: EcPort.Bus, sqrt: Sqrt)
    requires CtrlValid(w.ctrl) && !w.sysfsOn
    ensures !IndicatorRun(dev, cfg, w, xs, b, sqrt).worker.sysfsOn
    decreases |xs|
  {
    if xs != [] {
      var t1 := IndicatorTick(dev, cfg, w, xs[0], b, sqrt);
      SysfsStaysOff(dev, cfg, t1.worker, xs[1..], t1.bus, sqrt);
    }
  }

  /** Several indicator ticks in a row. */
  function IndicatorRun(dev: EcPort.Device, cfg: ControlConfig, w: Worker, xs: seq<Sysfs>, b: EcPort.Bus, sqrt: Sqrt): (t: WorkerTick)
    requires CtrlValid(w.ctrl)
    ensures CtrlValid(t.worker.ctrl)
    decreases |xs|
  {
    if xs == [] then WorkerTick(w, b, [])
    else
      var t1 := IndicatorTick(dev, cfg, w, xs[0], b, sqrt);
      var t2 := IndicatorRun(dev, cfg, t1.worker, xs[1..], t1.bus, sqrt);
      WorkerTick(t2.worker, t2.bus, t1.writes + t2.writes)
  }

  /** `ui_command_set_fan`: 0 selects auto mode, any other value a manual
      duty; both reset the auto value and the controller. */
  function SelectFan(cfg: ControlConfig, w: Worker, duty: int): (w': Worker)
    requires CtrlValid(w.ctrl)
    ensures w'.sysfsOn == w.sysfsOn && w'.ctrl == PidReset(cfg, w.ctrl)
    ensures w'.shared.autoDutyVal == 0 && w'.shared.manualPrev == w.shared.manualPrev
    ensures duty == 0 ==> w'.shared.autoDuty == 1 && w'.shared.manualNext == 0
    ensures duty != 0 ==> w'.shared.autoDuty == 0 && w'.shared.manualNext == duty
    ensures w'.shared.cpuTemp == w.shared.cpuTemp && w'.shared.gpuTemp == w.shared.gpuTemp
      && w'.shared.fanDuty == w.shared.fanDuty && w'.shared.fanRpms == w.shared.fanRpms
  {
    var s := if duty == 0 then w.shared.(autoDuty := 1, autoDutyVal := 0, manualNext := 0)
      else w.shared.(autoDuty := 0, autoDutyVal := 0, manualNext := duty);
    Worker(s, PidReset(cfg, w.ctrl), w.sysfsOn)
  }

  /** Selecting the duty that was last applied writes nothing: the worker
      remembers it in `manualPrev`, which nothing clears. */
  lemma ReselectWritesNothing(dev: EcPort.Device, cfg: ControlConfig, w: Worker, x: Sysfs, b: EcPort.Bus, sqrt: Sqrt)
    requires CtrlValid(w.ctrl) && w.shared.manualPrev != 0
    ensures IndicatorTick(dev, cfg, SelectFan(cfg, w, w.shared.manualPrev), x, b, sqrt).writes == []
  {
  }

  /** A new manual selection is written on the next tick, and only once. */
  lemma ManualWrittenOnce(dev: EcPort.Device, cfg: ControlConfig, w: Worker, n: int, x1: Sysfs, x2: Sysfs, b: EcPort.Bus, sqrt: Sqrt)
    requires CtrlValid(w.ctrl) && n != 0 && n != w.shared.manualPrev
    ensures var t1 := IndicatorTick(dev, cfg, SelectFan(cfg, w, n), x1, b, sqrt);
      && t1.writes == [n]
      && IndicatorTick(dev, cfg, t1.worker, x2, t1.bus, sqrt).writes == []
  {
  }
}
