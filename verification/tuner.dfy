/** The adaptive gain tuner: the performance score, the gain adjustment
    shared by both programs, the daemon's variant that rescales its stored
    step sizes, and the indicator's phased variant that scales local copies
    only. */
module Tuner {
  import opened Base
  import opened History
  import Pid

  /** Step sizes for the three gains. */
  datatype Steps = Steps(kp: real, ki: real, kd: real)

  const DefaultSteps: Steps := Steps(0.1, 0.01, 0.05)

  /** Tuner configuration; the phase fields are read by the indicator only. */
  datatype TunerConfig = TunerConfig(
    interval: int,
    targetPerformance: real,
    rapidMax: int,
    rapidMultiplier: real,
    steadyThreshold: real,
    steadyRequired: int)

  const DefaultTunerConfig: TunerConfig := TunerConfig(30, 0.8, 10, 3.0, 0.05, 5)

  /** The ranges the option parsers clamp each setting into. */
  predicate TunerConfigValid(cfg: TunerConfig) {
    && 10 <= cfg.interval <= 300
    && 0.1 <= cfg.targetPerformance <= 1.0
    && 1 <= cfg.rapidMax <= 50
    && 1.0 <= cfg.rapidMultiplier <= 10.0
    && 0.01 <= cfg.steadyThreshold <= 0.2
    && 1 <= cfg.steadyRequired <= 20
  }

  /** The tuner's memory. `rapidCycles` and `stableCycles` exist only in the
      indicator. */
  datatype Adaptive = Adaptive(
    history: Ring,
    cycleCount: int,
    learningCycles: int,
    score: real,
    prevScore: real,
    steps: Steps,
    rapidCycles: int,
    stableCycles: int)

  /** The readings a tuning pass looks at: the hotter sensor, the target and
      the current fan duty. */
  datatype Reading = Reading(temp: int, target: int, fanDuty: int)

  /** Result of one tuning pass. */
  datatype Tuned = Tuned(gains: Pid.Gains, adaptive: Adaptive)

  /** The reset state of `adaptive_pid_reset`: counters, scores and history
      cleared, steps restored. */
  function Reset(a: Adaptive): (a': Adaptive)
    requires |a.history.buf| == Capacity
    ensures Valid(a'.history) && a'.history.size == 0 && a'.history.buf == a.history.buf
    ensures a'.cycleCount == 0 && a'.learningCycles == 0 && a'.rapidCycles == 0 && a'.stableCycles == 0
    ensures a'.score == 0.0 && a'.prevScore == 0.0 && a'.steps == DefaultSteps
  {
    Adaptive(Clear(a.history), 0, 0, 0.0, 0.0, DefaultSteps, 0, 0)
  }

  const InitialAdaptive: Adaptive := Adaptive(History.Initial, 0, 0, 0.0, 0.0, DefaultSteps, 0, 0)

  /** `|temp - target|` as a double. */
  function Error(r: Reading): (e: real)
    ensures e >= 0.0
    ensures e == (r.temp - r.target) as real || e == (r.target - r.temp) as real
  {
    AbsReal((r.temp - r.target) as real)
  }

  /** `adaptive_pid_calculate_performance_score` for a given oscillation. */
  function Score(r: Reading, osc: real): (s: real)
    ensures 0 <= r.fanDuty <= 100 && osc >= 0.0 ==> 0.0 <= s <= 1.0
  {
    var error := Error(r);
    var errorScore := ClampLowFirst(1.0 - error / 50.0, 0.0, 1.0);
    var penalty := if osc / 10.0 > 1.0 then 1.0 else osc / 10.0;
    var fanScore := if error < 5.0 then 1.0 - r.fanDuty as real / 100.0 else 0.0;
    errorScore * 0.6 + (1.0 - penalty) * 0.3 + fanScore * 0.1
  }

  /** Far from target the fan duty does not affect the score; near target a
      lower duty scores strictly higher. */
  lemma ScoreFanTerm(r: Reading, osc: real, duty: int)
    ensures Error(r) >= 5.0 ==> Score(r.(fanDuty := duty), osc) == Score(r, osc)
    ensures Error(r) < 5.0 && duty < r.fanDuty ==> Score(r.(fanDuty := duty), osc) > Score(r, osc)
  {
  }

  /** More oscillation never raises the score. */
  lemma ScoreOscillationMonotone(r: Reading, o1: real, o2: real)
    requires o1 <= o2
    ensures Score(r, o2) <= Score(r, o1)
  {
  }

  /** Exactly on target, with a still fan and a steady history, the score is
      perfect. */
  lemma PerfectScore(temp: int)
    ensures Score(Reading(temp, temp, 0), 0.0) == 1.0
  {
  }

  ghost predicate GainsInRange(g: Pid.Gains) {
    0.5 <= g.kp <= 5.0 && 0.01 <= g.ki <= 0.5 && 0.1 <= g.kd <= 2.0
  }

  /** The gain update of a tuning pass, given the (already scaled and
      possibly reversed) steps. */
  function AdjustGains(g: Pid.Gains, st: Steps, score: real, target: real, osc: real, error: real): (g': Pid.Gains)
    ensures 0.01 <= g'.ki <= 0.5 && 0.1 <= g'.kd <= 2.0
    ensures score >= target ==> g'.kp == g.kp
    ensures score < target ==> 0.5 <= g'.kp <= 5.0
    ensures score < target && 0.5 <= g.kp + st.kp <= 5.0 ==> g'.kp == g.kp + st.kp
    ensures osc > 3.0 && 0.01 <= g.ki - st.ki <= 0.5 ==> g'.ki == g.ki - st.ki
    ensures osc > 3.0 && 0.1 <= g.kd + st.kd <= 2.0 ==> g'.kd == g.kd + st.kd
    ensures osc <= 3.0 && error > 5.0 && 0.01 <= g.ki + st.ki <= 0.5 ==> g'.ki == g.ki + st.ki
    ensures osc <= 3.0 && error <= 5.0 && 0.01 <= g.ki <= 0.5 ==> g'.ki == g.ki
    ensures osc <= 3.0 && 0.1 <= g.kd <= 2.0 ==> g'.kd == g.kd
  {
    var kp := if score < target then ClampLowFirst(g.kp + st.kp, 0.5, 5.0) else g.kp;
    var ki := if osc > 3.0 then g.ki - st.ki else if error > 5.0 then g.ki + st.ki else g.ki;
    var kd := if osc > 3.0 then g.kd + st.kd else g.kd;
    Pid.Gains(kp, ClampLowFirst(ki, 0.01, 0.5), ClampLowFirst(kd, 0.1, 2.0))
  }

  lemma AdjustGainsKeepsRange(g: Pid.Gains, st: Steps, score: real, target: real, osc: real, error: real)
    requires 0.5 <= g.kp <= 5.0
    ensures GainsInRange(AdjustGains(g, st, score, target, osc, error))
  {
  }

  function Scale(st: Steps, m: real): (st': Steps) {
    Steps(st.kp * m, st.ki * m, st.kd * m)
  }

  /** Scaling multiplies every step's magnitude by `|m|`; a positive `m`
      keeps every step's direction. */
  lemma ScaleMagnitude(st: Steps, m: real)
    ensures var st' := Scale(st, m);
      && MagnitudeScaled(st.kp, st'.kp, m)
      && MagnitudeScaled(st.ki, st'.ki, m)
      && MagnitudeScaled(st.kd, st'.kd, m)
      && (m > 0.0 ==> SameSign(st.kp, st'.kp) && SameSign(st.ki, st'.ki) && SameSign(st.kd, st'.kd))
  {
    var st' := Scale(st, m);
    ProductMagnitude(st.kp, m, st'.kp);
    ProductMagnitude(st.ki, m, st'.ki);
    ProductMagnitude(st.kd, m, st'.kd);
  }

  lemma ProductMagnitude(x: real, m: real, p: real)
    requires p == x * m
    ensures MagnitudeScaled(x, p, m)
    ensures m > 0.0 ==> SameSign(x, p)
  {
    if x < 0.0 {
      assert p == -((-x) * m);
    }
    if m < 0.0 {
      assert p == -(x * (-m));
    }
  }

  /** `|y| == |m| * |x|`. */
  predicate MagnitudeScaled(x: real, y: real, m: real) {
    AbsReal(y) == AbsReal(m) * AbsReal(x)
  }

  predicate SameSign(x: real, y: real) {
    (x > 0.0 <==> y > 0.0) && (x < 0.0 <==> y < 0.0)
  }

  /** `y` points the other way from `x` and is 80% as long. */
  predicate Reversed(x: real, y: real) {
    AbsReal(y) == 0.8 * AbsReal(x) && (x > 0.0 <==> y < 0.0) && (x < 0.0 <==> y > 0.0)
  }

  /** A drop of the score by more than 0.05 reverses every step and
      shrinks it to 80%; otherwise the steps are kept. */
  function Reverse(st: Steps, change: real): (st': Steps)
    ensures change >= -0.05 ==> st' == st
    ensures change < -0.05 ==> Reversed(st.kp, st'.kp) && Reversed(st.ki, st'.ki) && Reversed(st.kd, st'.kd)
  {
    if change < -0.05 then Scale(st, -0.8) else st
  }

  /** The daemon's `adaptive_pid_tune_parameters`: the reversal is applied
      to the stored steps. */
  function DaemonTune(cfg: TunerConfig, g: Pid.Gains, a: Adaptive, r: Reading, sqrt: Sqrt): (t: Tuned)
    requires Valid(a.history)
    ensures 0.01 <= t.gains.ki <= 0.5 && 0.1 <= t.gains.kd <= 2.0
    ensures t.adaptive.score == t.adaptive.prevScore == Score(r, Oscillation(a.history, sqrt))
    ensures t.adaptive.learningCycles == a.learningCycles + 1
    ensures t.adaptive.score >= cfg.targetPerformance ==> t.gains.kp == g.kp
    ensures t.adaptive.score - a.prevScore < -0.05 ==> t.adaptive.steps == Scale(a.steps, -0.8)
    ensures t.adaptive.score - a.prevScore >= -0.05 ==> t.adaptive.steps == a.steps
    ensures t.adaptive == a.(score := t.adaptive.score, prevScore := t.adaptive.prevScore,
      learningCycles := t.adaptive.learningCycles, steps := t.adaptive.steps)
    ensures var step := if t.adaptive.score - a.prevScore < -0.05 then a.steps.kp * -0.8 else a.steps.kp;
      t.adaptive.score < cfg.targetPerformance ==> t.gains.kp == ClampLowFirst(g.kp + step, 0.5, 5.0)
    ensures t.gains == AdjustGains(g, t.adaptive.steps, t.adaptive.score, cfg.targetPerformance,
      Oscillation(a.history, sqrt), Error(r))
  {
    var osc := Oscillation(a.history, sqrt);
    var score := Score(r, osc);
    var steps := Reverse(a.steps, score - a.prevScore);
    var g' := AdjustGains(g, steps, score, cfg.targetPerformance, osc, Error(r));
    Tuned(g', a.(score := score, prevScore := score, learningCycles := a.learningCycles + 1, steps := steps))
  }

  /** A daemon tuning pass never lets a step size grow in magnitude. */
  lemma DaemonStepsNeverGrow(cfg: TunerConfig, g: Pid.Gains, a: Adaptive, r: Reading, sqrt: Sqrt)
    requires Valid(a.history)
    ensures var st := DaemonTune(cfg, g, a, r, sqrt).adaptive.steps;
      AbsReal(st.kp) <= AbsReal(a.steps.kp) && AbsReal(st.ki) <= AbsReal(a.steps.ki)
      && AbsReal(st.kd) <= AbsReal(a.steps.kd)
  {
  }

  /** `rapid_step_multiplier` during the first `rapidMax` passes, 0.3 once
      the score has been stable long enough, 1.0 otherwise. Within the
      configured ranges the rapid phase never takes smaller steps than the
      normal one, and the steady phase always takes smaller ones. */
  function PhaseMultiplier(cfg: TunerConfig, a: Adaptive): (m: real)
    ensures a.rapidCycles < cfg.rapidMax ==> m == cfg.rapidMultiplier
    ensures a.rapidCycles >= cfg.rapidMax && a.stableCycles >= cfg.steadyRequired ==> m == 0.3
    ensures a.rapidCycles >= cfg.rapidMax && a.stableCycles < cfg.steadyRequired ==> m == 1.0
    ensures TunerConfigValid(cfg) ==> 0.3 <= m <= 10.0
    ensures TunerConfigValid(cfg) ==> (m < 1.0 <==> a.rapidCycles >= cfg.rapidMax && a.stableCycles >= cfg.steadyRequired)
  {
    if a.rapidCycles < cfg.rapidMax then cfg.rapidMultiplier
    else if a.stableCycles >= cfg.steadyRequired then 0.3
    else 1.0
  }

  /** The indicator's steps for one pass: the stored steps times the phase
      multiplier, times -0.8 when the score dropped by more than 0.05. */
  function LocalSteps(cfg: TunerConfig, a: Adaptive, change: real): (st: Steps)
    ensures Scaled(a.steps, st, PhaseMultiplier(cfg, a) * (if change < -0.05 then -0.8 else 1.0))
  {
    Reverse(Scale(a.steps, PhaseMultiplier(cfg, a)), change)
  }

  /** The indicator's `adaptive_pid_tune_parameters`: the phase is decided
      from the counters before they are updated; the scaled and reversed
      steps are local, so the stored steps never change. */
  function IndicatorTune(cfg: TunerConfig, g: Pid.Gains, a: Adaptive, r: Reading, sqrt: Sqrt): (t: Tuned)
    requires Valid(a.history)
    ensures 0.01 <= t.gains.ki <= 0.5 && 0.1 <= t.gains.kd <= 2.0
    ensures t.adaptive.steps == a.steps
    ensures t.adaptive.score == t.adaptive.prevScore == Score(r, Oscillation(a.history, sqrt))
    ensures t.adaptive.learningCycles == a.learningCycles + 1
    ensures t.adaptive.score >= cfg.targetPerformance ==> t.gains.kp == g.kp
    ensures AbsReal(t.adaptive.score - a.prevScore) < cfg.steadyThreshold ==> t.adaptive.stableCycles == a.stableCycles + 1
    ensures AbsReal(t.adaptive.score - a.prevScore) >= cfg.steadyThreshold ==> t.adaptive.stableCycles == 0
    ensures a.rapidCycles < cfg.rapidMax ==> t.adaptive.rapidCycles == a.rapidCycles + 1
    ensures a.rapidCycles >= cfg.rapidMax ==> t.adaptive.rapidCycles == a.rapidCycles
    ensures t.adaptive.history == a.history && t.adaptive.cycleCount == a.cycleCount
    ensures var local := LocalSteps(cfg, a, t.adaptive.score - a.prevScore);
      t.adaptive.score < cfg.targetPerformance ==> t.gains.kp == ClampLowFirst(g.kp + local.kp, 0.5, 5.0)
    ensures t.gains == AdjustGains(g, LocalSteps(cfg, a, t.adaptive.score - a.prevScore),
      t.adaptive.score, cfg.targetPerformance, Oscillation(a.history, sqrt), Error(r))
  {
    var osc := Oscillation(a.history, sqrt);
    var score := Score(r, osc);
    var change := score - a.prevScore;
    var local := LocalSteps(cfg, a, change);
    var stable := if AbsReal(change) < cfg.steadyThreshold then a.stableCycles + 1 else 0;
    var rapid := if a.rapidCycles < cfg.rapidMax then a.rapidCycles + 1 else a.rapidCycles;
    var g' := AdjustGains(g, local, score, cfg.targetPerformance, osc, Error(r));
    Tuned(g', a.(score := score, prevScore := score, learningCycles := a.learningCycles + 1,
      rapidCycles := rapid, stableCycles := stable))
  }

  /** A pass in the rapid phase moves each gain `rapidMultiplier` times as
      far as the same pass in the normal phase would, wherever neither
      result was clamped. */
  lemma RapidPhaseMovesFaster(cfg: TunerConfig, g: Pid.Gains, a: Adaptive, r: Reading, sqrt: Sqrt)
    requires Valid(a.history) && TunerConfigValid(cfg) && a.rapidCycles < cfg.rapidMax
    ensures var fast := IndicatorTune(cfg, g, a, r, sqrt).gains;
      var slow := IndicatorTune(cfg, g, a.(rapidCycles := cfg.rapidMax, stableCycles := 0), r, sqrt).gains;
      && (0.5 < fast.kp < 5.0 && 0.5 < slow.kp < 5.0 ==> ScaledChange(g.kp, fast.kp, slow.kp, cfg.rapidMultiplier))
      && (0.01 < fast.ki < 0.5 && 0.01 < slow.ki < 0.5 ==> ScaledChange(g.ki, fast.ki, slow.ki, cfg.rapidMultiplier))
      && (0.1 < fast.kd < 2.0 && 0.1 < slow.kd < 2.0 ==> ScaledChange(g.kd, fast.kd, slow.kd, cfg.rapidMultiplier))
  {
    var normal := a.(rapidCycles := cfg.rapidMax, stableCycles := 0);
    var m := cfg.rapidMultiplier;
    var osc := Oscillation(a.history, sqrt);
    var score := Score(r, osc);
    var change := score - a.prevScore;
    assert PhaseMultiplier(cfg, a) == m && PhaseMultiplier(cfg, normal) == 1.0;
    var slowSteps, fastSteps := LocalSteps(cfg, normal, change), LocalSteps(cfg, a, change);
    assert Scaled(slowSteps, fastSteps, m);
    AdjustGainsScaled(g, slowSteps, fastSteps, m, score, cfg.targetPerformance, osc, Error(r));
  }

  /** Scaling the steps by `m` scales every unclamped gain change by `m`. */
  lemma AdjustGainsScaled(g: Pid.Gains, st: Steps, big: Steps, m: real, score: real, target: real, osc: real, error: real)
    requires Scaled(st, big, m)
    ensures var fast := AdjustGains(g, big, score, target, osc, error);
      var slow := AdjustGains(g, st, score, target, osc, error);
      && (0.5 < fast.kp < 5.0 && 0.5 < slow.kp < 5.0 ==> ScaledChange(g.kp, fast.kp, slow.kp, m))
      && (0.01 < fast.ki < 0.5 && 0.01 < slow.ki < 0.5 ==> ScaledChange(g.ki, fast.ki, slow.ki, m))
      && (0.1 < fast.kd < 2.0 && 0.1 < slow.kd < 2.0 ==> ScaledChange(g.kd, fast.kd, slow.kd, m))
  {
    KpScaled(g, st, big, m, score, target, osc, error);
    KiScaled(g, st, big, m, score, target, osc, error);
    KdScaled(g, st, big, m, score, target, osc, error);
  }

  lemma KpScaled(g: Pid.Gains, st: Steps, big: Steps, m: real, score: real, target: real, osc: real, error: real)
    requires Scaled(st, big, m)
    ensures var fast := AdjustGains(g, big, score, target, osc, error).kp;
      var slow := AdjustGains(g, st, score, target, osc, error).kp;
      0.5 < fast < 5.0 && 0.5 < slow < 5.0 ==> ScaledChange(g.kp, fast, slow, m)
  {
    var fast := AdjustGains(g, big, score, target, osc, error).kp;
    var slow := AdjustGains(g, st, score, target, osc, error).kp;
    if score < target {
      assert fast == ClampLowFirst(g.kp + big.kp, 0.5, 5.0);
      assert slow == ClampLowFirst(g.kp + st.kp, 0.5, 5.0);
      ScaledMove(g.kp, st.kp, big.kp, m, 0.5, 5.0);
    } else {
      assert fast == g.kp && slow == g.kp;
      ZeroMove(g.kp, m);
    }
  }

  lemma KiScaled(g: Pid.Gains, st: Steps, big: Steps, m: real, score: real, target: real, osc: real, error: real)
    requires Scaled(st, big, m)
    ensures var fast := AdjustGains(g, big, score, target, osc, error).ki;
      var slow := AdjustGains(g, st, score, target, osc, error).ki;
      0.01 < fast < 0.5 && 0.01 < slow < 0.5 ==> ScaledChange(g.ki, fast, slow, m)
  {
    if osc > 3.0 {
      KiScaledOscillating(g, st, big, m, score, target, osc, error);
    } else if error > 5.0 {
      KiScaledFar(g, st, big, m, score, target, osc, error);
    } else {
      KiScaledNear(g, st, big, m, score, target, osc, error);
    }
  }

  lemma KiScaledOscillating(g: Pid.Gains, st: Steps, big: Steps, m: real, score: real, target: real, osc: real, error: real)
    requires Scaled(st, big, m)
    requires osc > 3.0
    ensures var fast := AdjustGains(g, big, score, target, osc, error).ki;
      var slow := AdjustGains(g, st, score, target, osc, error).ki;
      0.01 < fast < 0.5 && 0.01 < slow < 0.5 ==> ScaledChange(g.ki, fast, slow, m)
  {
    assert AdjustGains(g, big, score, target, osc, error).ki == ClampLowFirst(g.ki - big.ki, 0.01, 0.5);
    assert AdjustGains(g, st, score, target, osc, error).ki == ClampLowFirst(g.ki - st.ki, 0.01, 0.5);
    ScaledMoveDown(g.ki, st.ki, big.ki, m, 0.01, 0.5);
  }

  lemma KiScaledFar(g: Pid.Gains, st: Steps, big: Steps, m: real, score: real, target: real, osc: real, error: real)
    requires Scaled(st, big, m)
    requires osc <= 3.0 && error > 5.0
    ensures var fast := AdjustGains(g, big, score, target, osc, error).ki;
      var slow := AdjustGains(g, st, score, target, osc, error).ki;
      0.01 < fast < 0.5 && 0.01 < slow < 0.5 ==> ScaledChange(g.ki, fast, slow, m)
  {
    assert AdjustGains(g, big, score, target, osc, error).ki == ClampLowFirst(g.ki + big.ki, 0.01, 0.5);
    assert AdjustGains(g, st, score, target, osc, error).ki == ClampLowFirst(g.ki + st.ki, 0.01, 0.5);
    ScaledMove(g.ki, st.ki, big.ki, m, 0.01, 0.5);
  }

  lemma KiScaledNear(g: Pid.Gains, st: Steps, big: Steps, m: real, score: real, target: real, osc: real, error: real)
    requires Scaled(st, big, m)
    requires osc <= 3.0 && error <= 5.0
    ensures var fast := AdjustGains(g, big, score, target, osc, error).ki;
      var slow := AdjustGains(g, st, score, target, osc, error).ki;
      0.01 < fast < 0.5 && 0.01 < slow < 0.5 ==> ScaledChange(g.ki, fast, slow, m)
  {
    assert AdjustGains(g, big, score, target, osc, error).ki == ClampLowFirst(g.ki, 0.01, 0.5);
    assert AdjustGains(g, st, score, target, osc, error).ki == ClampLowFirst(g.ki, 0.01, 0.5);
    Unmoved(g.ki, m, 0.01, 0.5);
  }

  lemma KdScaled(g: Pid.Gains, st: Steps, big: Steps, m: real, score: real, target: real, osc: real, error: real)
    requires Scaled(st, big, m)
    ensures var fast := AdjustGains(g, big, score, target, osc, error).kd;
      var slow := AdjustGains(g, st, score, target, osc, error).kd;
      0.1 < fast < 2.0 && 0.1 < slow < 2.0 ==> ScaledChange(g.kd, fast, slow, m)
  {
    if osc > 3.0 {
      KdScaledOscillating(g, st, big, m, score, target, osc, error);
    } else {
      KdScaledSteady(g, st, big, m, score, target, osc, error);
    }
  }

  lemma KdScaledOscillating(g: Pid.Gains, st: Steps, big: Steps, m: real, score: real, target: real, osc: real, error: real)
    requires Scaled(st, big, m)
    requires osc > 3.0
    ensures var fast := AdjustGains(g, big, score, target, osc, error).kd;
      var slow := AdjustGains(g, st, score, target, osc, error).kd;
      0.1 < fast < 2.0 && 0.1 < slow < 2.0 ==> ScaledChange(g.kd, fast, slow, m)
  {
    assert AdjustGains(g, big, score, target, osc, error).kd == ClampLowFirst(g.kd + big.kd, 0.1, 2.0);
    assert AdjustGains(g, st, score, target, osc, error).kd == ClampLowFirst(g.kd + st.kd, 0.1, 2.0);
    ScaledMove(g.kd, st.kd, big.kd, m, 0.1, 2.0);
  }

  lemma KdScaledSteady(g: Pid.Gains, st: Steps, big: Steps, m: real, score: real, target: real, osc: real, error: real)
    requires Scaled(st, big, m)
    requires osc <= 3.0
    ensures var fast := AdjustGains(g, big, score, target, osc, error).kd;
      var slow := AdjustGains(g, st, score, target, osc, error).kd;
      0.1 < fast < 2.0 && 0.1 < slow < 2.0 ==> ScaledChange(g.kd, fast, slow, m)
  {
    assert AdjustGains(g, big, score, target, osc, error).kd == ClampLowFirst(g.kd, 0.1, 2.0);
    assert AdjustGains(g, st, score, target, osc, error).kd == ClampLowFirst(g.kd, 0.1, 2.0);
    Unmoved(g.kd, m, 0.1, 2.0);
  }

  /** `big` is `st` with every step multiplied by `m`. */
  predicate Scaled(st: Steps, big: Steps, m: real) {
    big.kp == st.kp * m && big.ki == st.ki * m && big.kd == st.kd * m
  }

  /** `fast` moved from `x` exactly `m` times as far as `slow` did. */
  predicate ScaledChange(x: real, fast: real, slow: real, m: real) {
    fast - x == m * (slow - x)
  }

  lemma ZeroMove(x: real, m: real)
    ensures ScaledChange(x, x, x, m)
  {
  }

  lemma ScaledMoveDown(x: real, d: real, dm: real, m: real, lo: real, hi: real)
    requires dm == d * m
    ensures var fast, slow := ClampLowFirst(x - dm, lo, hi), ClampLowFirst(x - d, lo, hi);
      lo < fast < hi && lo < slow < hi ==> ScaledChange(x, fast, slow, m)
  {
  }

  /** A value the clamp leaves strictly inside the range was not moved. */
  lemma Unmoved(x: real, m: real, lo: real, hi: real)
    ensures var c := ClampLowFirst(x, lo, hi);
      lo < c < hi ==> ScaledChange(x, c, c, m)
  {
    ZeroMove(x, m);
  }

  /** A clamped move that ends strictly inside the range was not clamped,
      so scaling the move scales the change. */
  lemma ScaledMove(x: real, d: real, dm: real, m: real, lo: real, hi: real)
    requires dm == d * m
    ensures var fast, slow := ClampLowFirst(x + dm, lo, hi), ClampLowFirst(x + d, lo, hi);
      lo < fast < hi && lo < slow < hi ==> ScaledChange(x, fast, slow, m)
  {
  }

  /** Consecutive indicator passes over a sequence of readings. */
  function IndicatorPasses(cfg: TunerConfig, g: Pid.Gains, a: Adaptive, rs: seq<Reading>, sqrt: Sqrt): (t: Tuned)
    requires Valid(a.history)
    ensures t.adaptive.history == a.history
    decreases |rs|
  {
    if rs == [] then Tuned(g, a)
    else
      var t1 := IndicatorTune(cfg, g, a, rs[0], sqrt);
      IndicatorPasses(cfg, t1.gains, t1.adaptive, rs[1..], sqrt)
  }

  /** The rapid phase lasts exactly `rapidMax` passes: after `n` passes the
      rapid counter is `min(start + n, rapidMax)` when it started below
      `rapidMax`. */
  lemma {:induction false} RapidPhaseLength(cfg: TunerConfig, g: Pid.Gains, a: Adaptive, rs: seq<Reading>, sqrt: Sqrt)
    requires Valid(a.history)
    requires a.rapidCycles <= cfg.rapidMax
    ensures IndicatorPasses(cfg, g, a, rs, sqrt).adaptive.rapidCycles == Min(a.rapidCycles + |rs|, cfg.rapidMax)
    decreases |rs|
  {
    if rs != [] {
      var t1 := IndicatorTune(cfg, g, a, rs[0], sqrt);
      RapidPhaseLength(cfg, t1.gains, t1.adaptive, rs[1..], sqrt);
    }
  }

  /** Tuning never touches the stored steps, however many passes run. */
  lemma {:induction false} IndicatorStepsFixed(cfg: TunerConfig, g: Pid.Gains, a: Adaptive, rs: seq<Reading>, sqrt: Sqrt)
    requires Valid(a.history)
    ensures IndicatorPasses(cfg, g, a, rs, sqrt).adaptive.steps == a.steps
    decreases |rs|
  {
    if rs != [] {
      var t1 := IndicatorTune(cfg, g, a, rs[0], sqrt);
      IndicatorStepsFixed(cfg, t1.gains, t1.adaptive, rs[1..], sqrt);
    }
  }

  /** Gains that start in range stay in range across any number of
      passes. */
  lemma {:induction false} IndicatorGainsStayInRange(cfg: TunerConfig, g: Pid.Gains, a: Adaptive, rs: seq<Reading>, sqrt: Sqrt)
    requires Valid(a.history) && GainsInRange(g)
    ensures GainsInRange(IndicatorPasses(cfg, g, a, rs, sqrt).gains)
    decreases |rs|
  {
    if rs != [] {
      var t1 := IndicatorTune(cfg, g, a, rs[0], sqrt);
      var osc := Oscillation(a.history, sqrt);
      var score := Score(rs[0], osc);
      var local := LocalSteps(cfg, a, score - a.prevScore);
      AdjustGainsKeepsRange(g, local, score, cfg.targetPerformance, osc, Error(rs[0]));
      IndicatorGainsStayInRange(cfg, t1.gains, t1.adaptive, rs[1..], sqrt);
    }
  }
}
