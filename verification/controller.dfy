/** `ec_auto_duty_adjust` and `pid_reset`, shared by the daemon and the
    indicator: the two programs differ only in which tuning pass runs. */
module Controller {
  import opened Base
  import opened History
  import opened Pid
  import opened Tuner

  datatype Variant = Daemon | Indicator

  datatype ControlConfig = ControlConfig(
    variant: Variant,
    target: int,
    pidEnabled: bool,
    adaptiveEnabled: bool,
    limits: Limits,
    tuner: TunerConfig)

  /** Built-in defaults: target 65, PID and adaptive tuning on, output
      clamped to 0..100, and tuner settings inside the ranges the option
      parsers enforce. */
  function DefaultConfig(v: Variant): (cfg: ControlConfig)
    ensures cfg.variant == v && cfg.target == 65 && cfg.pidEnabled && cfg.adaptiveEnabled
    ensures cfg.limits.lo <= cfg.limits.hi && TunerConfigValid(cfg.tuner)
  {
    ControlConfig(v, 65, true, true, DefaultLimits, DefaultTunerConfig)
  }

  /** The controller starts with gains inside the ranges tuning keeps them
      in. */
  lemma DefaultGainsInRange()
    ensures GainsInRange(InitialCtrl.gains)
  {
  }

  /** Everything the control law remembers between ticks. */
  datatype Ctrl = Ctrl(gains: Gains, pid: PidState, adaptive: Adaptive)

  datatype Decision = Decision(duty: int, ctrl: Ctrl)

  const InitialCtrl: Ctrl := Ctrl(DefaultGains, ZeroState, InitialAdaptive)

  predicate CtrlValid(c: Ctrl) {
    Valid(c.adaptive.history)
  }

  function Tune(cfg: ControlConfig, g: Gains, a: Adaptive, r: Reading, sqrt: Sqrt): (t: Tuned)
    requires Valid(a.history)
    ensures 0.01 <= t.gains.ki <= 0.5 && 0.1 <= t.gains.kd <= 2.0
    ensures t.adaptive.history == a.history
    ensures t.adaptive.learningCycles == a.learningCycles + 1
    ensures t.adaptive.score == Score(r, Oscillation(a.history, sqrt))
    ensures cfg.variant.Indicator? ==> t.adaptive.steps == a.steps
    ensures cfg.variant.Daemon? ==> t == DaemonTune(cfg.tuner, g, a, r, sqrt)
    ensures cfg.variant.Indicator? ==> t == IndicatorTune(cfg.tuner, g, a, r, sqrt)
  {
    match cfg.variant
    case Daemon => DaemonTune(cfg.tuner, g, a, r, sqrt)
    case Indicator => IndicatorTune(cfg.tuner, g, a, r, sqrt)
  }

  /** The history push, cycle count and (every `interval` calls) tuning pass
      that precede the PID terms. */
  function Adapt(cfg: ControlConfig, c: Ctrl, r: Reading, sqrt: Sqrt): (c': Ctrl)
    requires CtrlValid(c)
    ensures CtrlValid(c') && c'.pid == c.pid
    ensures c'.adaptive.history == Push(c.adaptive.history, r.temp)
    ensures c.adaptive.cycleCount + 1 >= cfg.tuner.interval ==>
      c'.adaptive.cycleCount == 0 && c'.adaptive.learningCycles == c.adaptive.learningCycles + 1
    ensures c.adaptive.cycleCount + 1 >= cfg.tuner.interval ==>
      c'.gains == Tune(cfg, c.gains, c.adaptive.(history := Push(c.adaptive.history, r.temp),
        cycleCount := c.adaptive.cycleCount + 1), r, sqrt).gains
    ensures c.adaptive.cycleCount + 1 < cfg.tuner.interval ==>
      c'.adaptive == c.adaptive.(history := c'.adaptive.history, cycleCount := c.adaptive.cycleCount + 1)
      && c'.gains == c.gains
  {
    var a := c.adaptive.(history := Push(c.adaptive.history, r.temp), cycleCount := c.adaptive.cycleCount + 1);
    if a.cycleCount >= cfg.tuner.interval then
      var t := Tune(cfg, c.gains, a, r, sqrt);
      Ctrl(t.gains, c.pid, t.adaptive.(cycleCount := 0))
    else c.(adaptive := a)
  }

  /** `ec_auto_duty_adjust`: the next duty from the two temperatures and the
      current fan duty. */
  function AutoDuty(cfg: ControlConfig, c: Ctrl, cpu: int, gpu: int, fanDuty: int, sqrt: Sqrt): (d: Decision)
    requires CtrlValid(c)
    ensures 0 <= d.duty <= 100 && CtrlValid(d.ctrl)
    ensures !cfg.pidEnabled ==> d.ctrl == c && d.duty == BangBang(cpu, gpu, fanDuty, cfg.target)
    ensures cfg.pidEnabled ==> (d.ctrl.pid.prevError == (Max(cpu, gpu) - cfg.target) as real
      && -IntegralLimit <= d.ctrl.pid.integral <= IntegralLimit)
    ensures cfg.pidEnabled && !cfg.adaptiveEnabled ==> d.ctrl.adaptive == c.adaptive && d.ctrl.gains == c.gains
    ensures cfg.pidEnabled && cfg.adaptiveEnabled ==>
      d.ctrl.adaptive == Adapt(cfg, c, Reading(Max(cpu, gpu), cfg.target, fanDuty), sqrt).adaptive
    ensures cfg.pidEnabled && cfg.adaptiveEnabled ==>
      d.ctrl.gains == Adapt(cfg, c, Reading(Max(cpu, gpu), cfg.target, fanDuty), sqrt).gains
    ensures cfg.pidEnabled ==> d.duty == Step(d.ctrl.gains, cfg.limits, c.pid, Max(cpu, gpu), cfg.target).duty
    ensures cfg.pidEnabled ==> d.ctrl.pid == Step(d.ctrl.gains, cfg.limits, c.pid, Max(cpu, gpu), cfg.target).state
  {
    if !cfg.pidEnabled then Decision(BangBang(cpu, gpu, fanDuty, cfg.target), c)
    else
      var temp := Max(cpu, gpu);
      var c1 := if cfg.adaptiveEnabled then Adapt(cfg, c, Reading(temp, cfg.target, fanDuty), sqrt) else c;
      var s := Step(c1.gains, cfg.limits, c1.pid, temp, cfg.target);
      Decision(s.duty, c1.(pid := s.state))
  }

  /** With 0 <= cycle count < interval, the count advances modulo the
      interval and a tuning pass runs exactly when it wraps to 0; the tick's
      temperature is pushed into the history. */
  lemma TuningCadence(cfg: ControlConfig, c: Ctrl, cpu: int, gpu: int, fanDuty: int, sqrt: Sqrt)
    requires CtrlValid(c) && cfg.pidEnabled && cfg.adaptiveEnabled
    requires 0 <= c.adaptive.cycleCount < cfg.tuner.interval
    ensures var a' := AutoDuty(cfg, c, cpu, gpu, fanDuty, sqrt).ctrl.adaptive;
      && a'.history == Push(c.adaptive.history, Max(cpu, gpu))
      && a'.cycleCount == (c.adaptive.cycleCount + 1) % cfg.tuner.interval
      && (a'.learningCycles == c.adaptive.learningCycles + 1 <==> a'.cycleCount == 0)
      && (a'.cycleCount != 0 ==> a'.learningCycles == c.adaptive.learningCycles)
  {
    AdaptCadence(cfg, c, Reading(Max(cpu, gpu), cfg.target, fanDuty), sqrt);
  }

  lemma AdaptCadence(cfg: ControlConfig, c: Ctrl, r: Reading, sqrt: Sqrt)
    requires CtrlValid(c) && 0 <= c.adaptive.cycleCount < cfg.tuner.interval
    ensures var a' := Adapt(cfg, c, r, sqrt).adaptive;
      && a'.cycleCount == (c.adaptive.cycleCount + 1) % cfg.tuner.interval
      && (a'.learningCycles == c.adaptive.learningCycles + 1 <==> a'.cycleCount == 0)
      && (a'.cycleCount != 0 ==> a'.learningCycles == c.adaptive.learningCycles)
  {
    if c.adaptive.cycleCount + 1 >= cfg.tuner.interval {
      assert c.adaptive.cycleCount + 1 == cfg.tuner.interval;
    }
  }

  /** Gains that start in range stay in range through any tick. */
  lemma AutoDutyKeepsGainsInRange(cfg: ControlConfig, c: Ctrl, cpu: int, gpu: int, fanDuty: int, sqrt: Sqrt)
    requires CtrlValid(c) && GainsInRange(c.gains)
    ensures GainsInRange(AutoDuty(cfg, c, cpu, gpu, fanDuty, sqrt).ctrl.gains)
  {
    if cfg.pidEnabled && cfg.adaptiveEnabled {
      var temp := Max(cpu, gpu);
      var r := Reading(temp, cfg.target, fanDuty);
      var a := c.adaptive.(history := Push(c.adaptive.history, temp), cycleCount := c.adaptive.cycleCount + 1);
      if a.cycleCount >= cfg.tuner.interval {
        var osc := Oscillation(a.history, sqrt);
        var score := Score(r, osc);
        match cfg.variant
        case Daemon =>
          AdjustGainsKeepsRange(c.gains, Reverse(a.steps, score - a.prevScore), score,
            cfg.tuner.targetPerformance, osc, Error(r));
        case Indicator =>
          AdjustGainsKeepsRange(c.gains, LocalSteps(cfg.tuner, a, score - a.prevScore),
            score, cfg.tuner.targetPerformance, osc, Error(r));
      }
    }
  }

  /** `pid_reset`: the PID memory is cleared; the tuner is reset only when
      adaptive tuning is enabled; the gains are kept. The daemon has no
      phase counters to reset. */
  function PidReset(cfg: ControlConfig, c: Ctrl): (c': Ctrl)
    requires CtrlValid(c)
    ensures c'.gains == c.gains && c'.pid == ZeroState && CtrlValid(c')
    ensures !cfg.adaptiveEnabled ==> c'.adaptive == c.adaptive
    ensures cfg.adaptiveEnabled ==> (c'.adaptive.history.size == 0 && c'.adaptive.steps == DefaultSteps
      && c'.adaptive.cycleCount == 0 && c'.adaptive.learningCycles == 0
      && c'.adaptive.score == 0.0 && c'.adaptive.prevScore == 0.0)
    ensures cfg.adaptiveEnabled && cfg.variant.Indicator? ==> c'.adaptive.rapidCycles == 0 && c'.adaptive.stableCycles == 0
    ensures cfg.variant.Daemon? ==> (c'.adaptive.rapidCycles == c.adaptive.rapidCycles
      && c'.adaptive.stableCycles == c.adaptive.stableCycles)
  {
    var a := if !cfg.adaptiveEnabled then c.adaptive
      else if cfg.variant.Indicator? then Reset(c.adaptive)
      else Reset(c.adaptive).(rapidCycles := c.adaptive.rapidCycles, stableCycles := c.adaptive.stableCycles);
    Ctrl(c.gains, ZeroState, a)
  }

  /** The first auto tick after a reset sees a history holding just that
      tick's temperature. */
  lemma ResetThenTick(cfg: ControlConfig, c: Ctrl, cpu: int, gpu: int, fanDuty: int, sqrt: Sqrt)
    requires CtrlValid(c) && cfg.pidEnabled && cfg.adaptiveEnabled
    ensures Samples(AutoDuty(cfg, PidReset(cfg, c), cpu, gpu, fanDuty, sqrt).ctrl.adaptive.history)
      == [Max(cpu, gpu) as real]
  {
    var c0 := PidReset(cfg, c);
    PushSamples(c0.adaptive.history, Max(cpu, gpu));
    assert Samples(c0.adaptive.history) == [];
  }
}
