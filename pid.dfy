/** The PID controller of lib/coo_commons/pid.c: proportional, integral and derivative terms,
    an integral accumulator clamped for anti-windup, a derivative guarded against a
    non-positive time step, and an output clamped to the configured limits. Floats are
    modelled as reals. */
module Pid {

  /** The value of a `struct coo_pid`. */
  datatype PidState = PidState(
    kp: real, ki: real, kd: real,
    integral: real, prevError: real,
    outputMin: real, outputMax: real,
    integralMin: real, integralMax: real)

  /** A `struct coo_pid` whose storage is all zero bytes (static storage before any init). */
  const ZeroPid := PidState(0.0, 0.0, 0.0, 0.0, 0.0, 0.0, 0.0, 0.0, 0.0)

  /** The clamp written out in coo_pid_update: the upper limit is tested first, so with
      crossed limits the result is the upper one. */
  function Clamp(x: real, lo: real, hi: real): (r: real)
    ensures lo <= hi ==> lo <= r <= hi
    ensures lo <= x <= hi ==> r == x
    ensures x > hi ==> r == hi
  {
    if x > hi then hi else if x < lo then lo else x
  }

  /** coo_pid_init: gains and output limits from the arguments, the integral limits equal to the
      output limits, integral and previous error zero. */
  function Initialized(kp: real, ki: real, kd: real, outputMin: real, outputMax: real): PidState
  {
    PidState(kp, ki, kd, 0.0, 0.0, outputMin, outputMax, outputMin, outputMax)
  }

  /** coo_pid_reset: clears the integral and the error history only. */
  function Cleared(p: PidState): PidState
  {
    p.(integral := 0.0, prevError := 0.0)
  }

  /** coo_pid_set_gains: replaces the three gains only. */
  function WithGains(p: PidState, kp: real, ki: real, kd: real): PidState
  {
    p.(kp := kp, ki := ki, kd := kd)
  }

  /** The integral after one update: accumulated, then clamped to the anti-windup limits. */
  function NextIntegral(p: PidState, error: real, dt: real): real
  {
    Clamp(p.integral + error * dt, p.integralMin, p.integralMax)
  }

  /** The derivative of one update; zero when the time step is not positive. */
  function Derivative(p: PidState, error: real, dt: real): real
  {
    if dt > 0.0 then (error - p.prevError) / dt else 0.0
  }

  /** The controller state after coo_pid_update(setpoint, measured, dt). */
  function Stepped(p: PidState, setpoint: real, measured: real, dt: real): (q: PidState)
    ensures q.prevError == setpoint - measured
    ensures p.integralMin <= p.integralMax ==> p.integralMin <= q.integral <= p.integralMax
    ensures q == p.(integral := q.integral, prevError := q.prevError)
  {
    var error := setpoint - measured;
    p.(integral := NextIntegral(p, error, dt), prevError := error)
  }

  /** The value coo_pid_update returns: the clamped sum of the three terms, the integral term
      using the already clamped integral. */
  function Output(p: PidState, setpoint: real, measured: real, dt: real): (out: real)
    ensures p.outputMin <= p.outputMax ==> p.outputMin <= out <= p.outputMax
    ensures dt <= 0.0 ==>
      var e := setpoint - measured;
      out == Clamp(p.kp * e + p.ki * NextIntegral(p, e, dt), p.outputMin, p.outputMax)
  {
    Clamp(Unclamped(p, setpoint - measured, dt), p.outputMin, p.outputMax)
  }

  /** The sum of the three terms for one error, before the output clamp. */
  function Unclamped(p: PidState, error: real, dt: real): real
  {
    p.kp * error + p.ki * NextIntegral(p, error, dt) + p.kd * Derivative(p, error, dt)
  }

  /** The sum of three separately computed terms is the unclamped output. */
  lemma UnclampedTerms(p: PidState, error: real, dt: real, pTerm: real, iTerm: real, dTerm: real)
    requires pTerm == p.kp * error
    requires iTerm == p.ki * NextIntegral(p, error, dt)
    requires dTerm == p.kd * Derivative(p, error, dt)
    ensures Unclamped(p, error, dt) == pTerm + iTerm + dTerm
  {
  }

  /** One measurement handed to the controller: setpoint, measured value and time step. */
  datatype Sample = Sample(setpoint: real, measured: real, dt: real)

  /** The controller state after a series of updates, oldest sample first. */
  function Run(p: PidState, samples: seq<Sample>): PidState
    decreases |samples|
  {
    if samples == [] then p
    else
      var s := samples[|samples| - 1];
      Stepped(Run(p, samples[..|samples| - 1]), s.setpoint, s.measured, s.dt)
  }

  /** Updates never touch the gains or any of the four limits. */
  lemma {:induction false} RunKeepsGainsAndLimits(p: PidState, samples: seq<Sample>)
    ensures Run(p, samples) == p.(integral := Run(p, samples).integral,
                                  prevError := Run(p, samples).prevError)
  {
    if samples != [] {
      RunKeepsGainsAndLimits(p, samples[..|samples| - 1]);
    }
  }

  /** Anti-windup over a whole run: after at least one update the integral is inside ordered
      integral limits, however long the error persists. */
  lemma {:induction false} RunIntegralBounded(p: PidState, samples: seq<Sample>)
    requires p.integralMin <= p.integralMax
    requires samples != []
    ensures p.integralMin <= Run(p, samples).integral <= p.integralMax
  {
    var prefix := samples[..|samples| - 1];
    var s := samples[|samples| - 1];
    RunKeepsGainsAndLimits(p, prefix);
  }

  /** Holding the measurement at the setpoint neither charges nor drains the integral: an
      integral inside its limits keeps its value for the whole hold (no decay). */
  lemma {:induction false} HoldKeepsIntegral(p: PidState, samples: seq<Sample>)
    requires p.integralMin <= p.integral <= p.integralMax
    requires forall k :: 0 <= k < |samples| ==> samples[k].setpoint == samples[k].measured
    ensures Run(p, samples).integral == p.integral
  {
    if samples != [] {
      var prefix := samples[..|samples| - 1];
      HoldKeepsIntegral(p, prefix);
      RunKeepsGainsAndLimits(p, prefix);
    }
  }

  /** With ki = 0 and zero inside the output limits, a controller that has been held at its
      setpoint (or starts with no error history) outputs exactly zero for a further update at
      the setpoint, whatever the time step. */
  lemma HoldOutputsZero(p: PidState, samples: seq<Sample>, s: Sample)
    requires p.ki == 0.0 && p.outputMin <= 0.0 <= p.outputMax
    requires samples != [] || p.prevError == 0.0
    requires forall k :: 0 <= k < |samples| ==> samples[k].setpoint == samples[k].measured
    requires s.setpoint == s.measured
    ensures Output(Run(p, samples), s.setpoint, s.measured, s.dt) == 0.0
  {
    var q := Run(p, samples);
    RunKeepsGainsAndLimits(p, samples);
    if samples != [] {
      var last := samples[|samples| - 1];
      assert q.prevError == last.setpoint - last.measured;
    }
    assert Unclamped(q, 0.0, s.dt) == 0.0;
  }

  /** A `struct coo_pid` updated in place through a pointer, as the coo_pid_* functions do. */
  class Controller {
    var kp: real
    var ki: real
    var kd: real
    var integral: real
    var prevError: real
    var outputMin: real
    var outputMax: real
    var integralMin: real
    var integralMax: real

    /** The value the fields hold. */
    function State(): PidState
      reads this
    {
      PidState(kp, ki, kd, integral, prevError, outputMin, outputMax, integralMin, integralMax)
    }

    /** A controller in zeroed storage. */
    constructor ()
      ensures State() == ZeroPid
    {
      kp, ki, kd := 0.0, 0.0, 0.0;
      integral, prevError := 0.0, 0.0;
      outputMin, outputMax, integralMin, integralMax := 0.0, 0.0, 0.0, 0.0;
    }

    /** coo_pid_init: clear the structure, then store gains and limits. */
    method Init(kp: real, ki: real, kd: real, outputMin: real, outputMax: real)
      modifies this
      ensures State() == Initialized(kp, ki, kd, outputMin, outputMax)
      ensures integral == 0.0 && prevError == 0.0
      ensures integralMin == outputMin && integralMax == outputMax
    {
      this.kp, this.ki, this.kd := 0.0, 0.0, 0.0;
      integral, prevError := 0.0, 0.0;
      this.outputMin, this.outputMax, integralMin, integralMax := 0.0, 0.0, 0.0, 0.0;
      this.kp := kp;
      this.ki := ki;
      this.kd := kd;
      this.outputMin := outputMin;
      this.outputMax := outputMax;
      integralMin := outputMin;
      integralMax := outputMax;
    }

    /** coo_pid_reset: zero the integral and the previous error; gains and limits survive. */
    method Reset()
      modifies this
      ensures State() == Cleared(old(State()))
      ensures integral == 0.0 && prevError == 0.0
      ensures kp == old(kp) && ki == old(ki) && kd == old(kd)
      ensures outputMin == old(outputMin) && outputMax == old(outputMax)
      ensures integralMin == old(integralMin) && integralMax == old(integralMax)
    {
      integral := 0.0;
      prevError := 0.0;
    }

    /** coo_pid_set_gains: live retuning that keeps the accumulated integral. */
    method SetGains(kp: real, ki: real, kd: real)
      modifies this
      ensures State() == WithGains(old(State()), kp, ki, kd)
      ensures integral == old(integral) && prevError == old(prevError)
    {
      this.kp := kp;
      this.ki := ki;
      this.kd := kd;
    }

    /** coo_pid_update: one control step. */
    method Update(setpoint: real, measured: real, dt: real) returns (output: real)
      modifies this
      ensures State() == Stepped(old(State()), setpoint, measured, dt)
      ensures output == Output(old(State()), setpoint, measured, dt)
      ensures prevError == setpoint - measured
      ensures old(integralMin) <= old(integralMax) ==> integralMin <= integral <= integralMax
      ensures old(outputMin) <= old(outputMax) ==> outputMin <= output <= outputMax
    {
      ghost var p := State();
      assert p.kp == kp && p.ki == ki && p.kd == kd && p.prevError == prevError;
      var error := setpoint - measured;
      var pTerm := kp * error;
      assert pTerm == p.kp * error;
      integral := integral + error * dt;
      if integral > integralMax {
        integral := integralMax;
      } else if integral < integralMin {
        integral := integralMin;
      }
      assert integral == NextIntegral(p, error, dt);
      var iTerm := ki * integral;
      assert iTerm == p.ki * NextIntegral(p, error, dt);
      var derivative := if dt > 0.0 then (error - prevError) / dt else 0.0;
      assert derivative == Derivative(p, error, dt);
      var dTerm := kd * derivative;
      assert dTerm == p.kd * Derivative(p, error, dt);
      output := pTerm + iTerm + dTerm;
      UnclampedTerms(p, error, dt, pTerm, iTerm, dTerm);
      if output > outputMax {
        output := outputMax;
      } else if output < outputMin {
        output := outputMin;
      }
      assert output == Output(p, setpoint, measured, dt);
      prevError := error;
    }
  }
}
