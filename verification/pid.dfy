/** The two duty laws of `ec_auto_duty_adjust`: the integer bang-bang
    fallback used when PID control is disabled, and one PID step with its
    integral anti-windup clamp, output clamp and round-half-up conversion to
    an integer duty. Doubles are modelled as `real`. */
module Pid {
  import opened Base

  datatype Gains = Gains(kp: real, ki: real, kd: real)

  /** The controller memory between ticks. */
  datatype PidState = PidState(integral: real, prevError: real)

  /** Result of one PID step: the duty and the updated memory. */
  datatype PidStep = PidStep(duty: int, state: PidState)

  const DefaultGains: Gains := Gains(2.0, 0.1, 0.5)
  const ZeroState: PidState := PidState(0.0, 0.0)
  const IntegralLimit: real := 100.0

  /** The output clamp `pid_output_min`..`pid_output_max`: 0..100 in the
      daemon; the indicator takes both from `--pid-output-min` and
      `--pid-output-max`, and neither program checks that `lo <= hi`. */
  datatype Limits = Limits(lo: real, hi: real)

  const DefaultLimits: Limits := Limits(0.0, 100.0)

  /** The fallback law: with the hotter sensor at or above target the duty
      rises by 2 to at least 10; otherwise it falls by 2 to at least 0; the
      result is capped at 100. */
  function BangBang(cpu: int, gpu: int, duty: int, target: int): (d: int)
    ensures 0 <= d <= 100
    ensures Max(cpu, gpu) >= target ==> d >= 10
    ensures Max(cpu, gpu) >= target && duty <= 100 ==> d >= duty
    ensures Max(cpu, gpu) >= target && duty < 98 ==> d <= Max(duty + 2, 10)
    ensures Max(cpu, gpu) >= target && 8 <= duty <= 98 ==> d == duty + 2
    ensures Max(cpu, gpu) < target && duty >= 0 ==> d <= duty
    ensures Max(cpu, gpu) < target && 2 <= duty <= 102 ==> d == duty - 2
    ensures Max(cpu, gpu) < target && duty <= 2 ==> d == 0
  {
    var temp := Max(cpu, gpu);
    var next := if temp >= target then Max(duty + 2, 10) else Max(duty - 2, 0);
    if next > 100 then 100 else if next < 0 then 0 else next
  }

  /** `(int)(x + 0.5)` followed by the clamp to 0..100. */
  function RoundDuty(x: real): (d: int)
    ensures 0 <= d <= 100
    ensures x < 0.5 ==> d == 0
    ensures x >= 99.5 ==> d == 100
    ensures 0.5 <= x < 99.5 ==> d as real - 0.5 <= x < d as real + 0.5
  {
    var t := Trunc(x + 0.5);
    if t > 100 then 100 else if t < 0 then 0 else t
  }

  lemma RoundDutyMonotone(x: real, y: real)
    requires x <= y
    ensures RoundDuty(x) <= RoundDuty(y)
  {
  }

  /** `d` is what `(int)(x + 0.5)` and the 0..100 clamp make of `x`: the
      nearest integer, halves rounded up, kept within 0..100. */
  predicate RoundsTo(x: real, d: int) {
    && 0 <= d <= 100
    && (x < 0.5 ==> d == 0)
    && (x >= 99.5 ==> d == 100)
    && (0.5 <= x < 99.5 ==> d as real - 0.5 <= x < d as real + 0.5)
  }

  /** The rounding relation pins the duty down: a real rounds to one
      duty only. */
  lemma RoundsToUnique(x: real, d1: int, d2: int)
    requires RoundsTo(x, d1) && RoundsTo(x, d2)
    ensures d1 == d2
  {
  }

  /** The unclamped sum of the proportional, integral and derivative terms. */
  function Output(g: Gains, error: real, integral: real, prevError: real): real {
    g.kp * error + g.ki * integral + g.kd * (error - prevError)
  }

  lemma OutputMonotone(g: Gains, e1: real, e2: real, i1: real, i2: real, p: real)
    requires g.kp >= 0.0 && g.ki >= 0.0 && g.kd >= 0.0
    requires e1 <= e2 && i1 <= i2
    ensures Output(g, e1, i1, p) <= Output(g, e2, i2, p)
  {
    var de, di := e2 - e1, i2 - i1;
    NonNegProduct(g.kp, de);
    NonNegProduct(g.ki, di);
    NonNegProduct(g.kd, de);
    assert Output(g, e2, i2, p) - Output(g, e1, i1, p) == g.kp * de + g.ki * di + g.kd * de;
  }

  lemma NonNegProduct(a: real, b: real)
    requires a >= 0.0 && b >= 0.0
    ensures a * b >= 0.0
  {
  }

  /** One PID step for the hotter sensor `temp` against `target`: the
      error is added to the integral, which saturates at +-100; the output
      is clamped high bound first, then low bound, and rounded to a duty. */
  function Step(g: Gains, lim: Limits, s: PidState, temp: int, target: int): (r: PidStep)
    ensures r.state.prevError == (temp - target) as real
    ensures 0 <= r.duty <= 100
    ensures var sum := s.integral + (temp - target) as real;
      && (-IntegralLimit <= sum <= IntegralLimit ==> r.state.integral == sum)
      && (sum > IntegralLimit ==> r.state.integral == IntegralLimit)
      && (sum < -IntegralLimit ==> r.state.integral == -IntegralLimit)
    ensures var o := Output(g, (temp - target) as real, r.state.integral, s.prevError);
      && (lim.lo <= o <= lim.hi ==> RoundsTo(o, r.duty))
      && (o > lim.hi && lim.lo <= lim.hi ==> RoundsTo(lim.hi, r.duty))
      && (o < lim.lo || lim.hi < lim.lo ==> RoundsTo(lim.lo, r.duty))
  {
    var error := (temp - target) as real;
    var integral := ClampHighFirst(s.integral + error, -IntegralLimit, IntegralLimit);
    var clamped := ClampHighFirst(Output(g, error, integral, s.prevError), lim.lo, lim.hi);
    PidStep(RoundDuty(clamped), PidState(integral, error))
  }

  /** With non-negative gains and the same memory, a hotter reading never
      yields a lower duty. */
  lemma {:induction false} StepMonotone(g: Gains, lim: Limits, s: PidState, t1: int, t2: int, target: int)
    requires g.kp >= 0.0 && g.ki >= 0.0 && g.kd >= 0.0
    requires t1 <= t2
    ensures Step(g, lim, s, t1, target).duty <= Step(g, lim, s, t2, target).duty
  {
    var e1, e2 := (t1 - target) as real, (t2 - target) as real;
    var i1 := ClampHighFirst(s.integral + e1, -IntegralLimit, IntegralLimit);
    var i2 := ClampHighFirst(s.integral + e2, -IntegralLimit, IntegralLimit);
    ClampHighFirstMonotone(s.integral + e1, s.integral + e2, -IntegralLimit, IntegralLimit);
    OutputMonotone(g, e1, e2, i1, i2, s.prevError);
    var o1, o2 := Output(g, e1, i1, s.prevError), Output(g, e2, i2, s.prevError);
    ClampHighFirstMonotone(o1, o2, lim.lo, lim.hi);
    RoundDutyMonotone(ClampHighFirst(o1, lim.lo, lim.hi), ClampHighFirst(o2, lim.lo, lim.hi));
  }

  /** With the default gains and limits and a fresh controller: CPU 45
      and GPU 50 against a target of 65 produce duty 0 and remember the
      error -15; a reading of 75 produces output 2*10 + 0.1*10 + 0.5*10 = 26
      and duty 26. */
  lemma DefaultScenario()
    ensures Step(DefaultGains, DefaultLimits, ZeroState, Max(45, 50), 65) == PidStep(0, PidState(-15.0, -15.0))
    ensures Step(DefaultGains, DefaultLimits, ZeroState, 75, 65) == PidStep(26, PidState(10.0, 10.0))
  {
  }
}
