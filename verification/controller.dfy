/** The PID feedback controller of the simulator (class PID). The controller
    is an immutable value: a call to Compute returns the clamped control
    together with the controller's next state. Every `double` is a real. */
module Controller {

  /** Proportional, integral and derivative gains; fixed at construction. */
  datatype Gains = Gains(kp: real, ki: real, kd: real)

  /** The gains plus the two fields that each call to Compute rewrites. */
  datatype Pid = Pid(gains: Gains, integral: real, prevError: real)

  /** The result of one call: the control handed back to the caller and the
      controller's state after the call. */
  datatype Output = Output(control: real, next: Pid)

  /** A freshly constructed controller: the given gains and a zero history. */
  function New(kp: real, ki: real, kd: real): Pid
  {
    Pid(Gains(kp, ki, kd), 0.0, 0.0)
  }

  /** Forgets the history but keeps the gains: the result is exactly a
      freshly constructed controller with the same gains. */
  function Reset(p: Pid): (r: Pid)
    ensures r == New(p.gains.kp, p.gains.ki, p.gains.kd)
  {
    p.(integral := 0.0, prevError := 0.0)
  }

  /** std::clamp(v, lo, hi), whose behaviour is undefined when hi < lo. */
  function Clamp(v: real, lo: real, hi: real): (r: real)
    requires lo <= hi
    ensures lo <= r <= hi
    ensures lo <= v <= hi ==> r == v
    ensures v < lo ==> r == lo
    ensures hi < v ==> r == hi
  {
    if v < lo then lo else if hi < v then hi else v
  }

  /** The clamp is the projection onto [lo, hi]: no point of the interval is
      closer to `v` than the clamped value. */
  lemma ClampIsNearest(v: real, lo: real, hi: real, w: real)
    requires lo <= hi
    requires lo <= w <= hi
    ensures Dist(Clamp(v, lo, hi), v) <= Dist(w, v)
  {
  }

  function Dist(a: real, b: real): real
  {
    if a <= b then b - a else a - b
  }

  /** The derivative term: the error's rate of change since the previous
      call, or 0 when the step is not positive. The guard tests dt > 0, so a
      negative step also yields 0 rather than a derivative of inverted sign. */
  function Derivative(error: real, prevError: real, dt: real): (d: real)
    ensures dt > 0.0 ==> d * dt == error - prevError
    ensures dt <= 0.0 ==> d == 0.0
  {
    if dt > 0.0 then (error - prevError) / dt else 0.0
  }

  /** The unclamped control: the weighted sum of the three terms. */
  function Law(g: Gains, error: real, integral: real, derivative: real): real
  {
    g.kp * error + g.ki * integral + g.kd * derivative
  }

  /** The state half of one call of compute(setpoint, measurement, dt): the
      error is accumulated into the integral with no anti-windup, and it
      becomes the previous error; the gains are never changed. */
  function Advance(p: Pid, setpoint: real, measurement: real, dt: real): (q: Pid)
    ensures q.gains == p.gains
    ensures q.integral == p.integral + (setpoint - measurement) * dt
    ensures q.prevError == setpoint - measurement
  {
    var error := setpoint - measurement;
    Pid(p.gains, p.integral + error * dt, error)
  }

  /** The value half of one call of compute: the PID law on the current
      error, on the integral already updated by this call, and on the
      derivative against the error of the PREVIOUS call (the previous error
      is overwritten only after this use), saturated to [0, 1]. */
  function Control(p: Pid, setpoint: real, measurement: real, dt: real): (u: real)
    ensures 0.0 <= u <= 1.0
  {
    var error := setpoint - measurement;
    var integral := p.integral + error * dt;
    var derivative := Derivative(error, p.prevError, dt);
    Clamp(Law(p.gains, error, integral, derivative), 0.0, 1.0)
  }

  /** One call of compute(setpoint, measurement, dt): the control returned
      and the controller's state afterwards. */
  function Compute(p: Pid, setpoint: real, measurement: real, dt: real): (o: Output)
    ensures 0.0 <= o.control <= 1.0
    ensures o.next.gains == p.gains
  {
    Output(Control(p, setpoint, measurement, dt), Advance(p, setpoint, measurement, dt))
  }

  /** With a non-positive step the derivative term vanishes: the control is
      the clamped PI law, and neither the derivative gain nor the previous
      error has any influence on it. */
  lemma NoDerivativeWithoutStep(p: Pid, setpoint: real, measurement: real, dt: real, kd: real, prevError: real)
    requires dt <= 0.0
    ensures var e := setpoint - measurement;
      Compute(p, setpoint, measurement, dt).control
      == Clamp(Law(p.gains, e, p.integral + e * dt, 0.0), 0.0, 1.0)
    ensures Compute(p, setpoint, measurement, dt).control
      == Compute(p.(gains := p.gains.(kd := kd), prevError := prevError), setpoint, measurement, dt).control
  {
    var e := setpoint - measurement;
    var p' := p.(gains := p.gains.(kd := kd), prevError := prevError);
    assert Derivative(e, p.prevError, dt) == 0.0 == Derivative(e, prevError, dt);
    assert Law(p'.gains, e, p.integral + e * dt, 0.0) == Law(p.gains, e, p.integral + e * dt, 0.0);
  }

  /** A call right after Reset behaves like the first call of a fresh
      controller: same control and same next state, whatever the history
      before the reset. The control is the clamped PID law on the current
      error alone. */
  lemma ResetThenCompute(p: Pid, setpoint: real, measurement: real, dt: real)
    ensures Compute(Reset(p), setpoint, measurement, dt)
      == Compute(New(p.gains.kp, p.gains.ki, p.gains.kd), setpoint, measurement, dt)
    ensures var e := setpoint - measurement;
      var o := Compute(Reset(p), setpoint, measurement, dt);
      && o.next == Pid(p.gains, e * dt, e)
      && o.control == Clamp(Law(p.gains, e, e * dt, Derivative(e, 0.0, dt)), 0.0, 1.0)
  {
  }

  /** The arguments of one call of compute. */
  datatype Sample = Sample(setpoint: real, measurement: real, dt: real)

  function Error(x: Sample): real
  {
    x.setpoint - x.measurement
  }

  /** The controller after the calls `xs`, made in order. */
  function Feed(p: Pid, xs: seq<Sample>): (q: Pid)
    ensures q.gains == p.gains
    decreases |xs|
  {
    if |xs| == 0 then p
    else Feed(Advance(p, xs[0].setpoint, xs[0].measurement, xs[0].dt), xs[1..])
  }

  /** The controls returned by the calls `xs`, made in order: one per call,
      each saturated to [0, 1]. */
  function Outputs(p: Pid, xs: seq<Sample>): (us: seq<real>)
    ensures |us| == |xs|
    ensures forall k :: 0 <= k < |us| ==> 0.0 <= us[k] <= 1.0
    decreases |xs|
  {
    if |xs| == 0 then []
    else
      [Control(p, xs[0].setpoint, xs[0].measurement, xs[0].dt)]
      + Outputs(Advance(p, xs[0].setpoint, xs[0].measurement, xs[0].dt), xs[1..])
  }

  /** Sum of error * dt over the calls: the rectangle-rule integral of the
      error. */
  function ErrorTime(xs: seq<Sample>): real
    decreases |xs|
  {
    if |xs| == 0 then 0.0
    else Error(xs[0]) * xs[0].dt + ErrorTime(xs[1..])
  }

  /** No anti-windup: after any sequence of calls the integral is the old
      integral plus the sum of error * dt, whatever the controls were (in
      particular while they were saturated); the previous error is that of
      the last call; the gains are untouched. */
  lemma {:induction false} FeedAccumulates(p: Pid, xs: seq<Sample>)
    ensures Feed(p, xs).integral == p.integral + ErrorTime(xs)
    ensures Feed(p, xs).prevError == if |xs| == 0 then p.prevError else Error(xs[|xs| - 1])
    ensures Feed(p, xs).gains == p.gains
    decreases |xs|
  {
    if |xs| > 0 {
      var q := Advance(p, xs[0].setpoint, xs[0].measurement, xs[0].dt);
      assert Feed(p, xs) == Feed(q, xs[1..]);
      assert ErrorTime(xs) == Error(xs[0]) * xs[0].dt + ErrorTime(xs[1..]);
      FeedAccumulates(q, xs[1..]);
      if |xs| > 1 {
        assert xs[1..][|xs[1..]| - 1] == xs[|xs| - 1];
      }
    }
  }

  /** The error the derivative of call `k` is taken against: the controller's
      previous error for the first call, the error of call k - 1 otherwise. */
  function ErrorBefore(p: Pid, xs: seq<Sample>, k: int): real
    requires 0 <= k < |xs|
  {
    if k == 0 then p.prevError else Error(xs[k - 1])
  }

  /** Closed form of the k-th control of a run of calls, independent of the
      state-passing definition: the clamped sum of the proportional term on
      the k-th error, the integral term on the initial integral plus the
      error * dt of calls 0..k, and the derivative against ErrorBefore. */
  lemma {:induction false} OutputAt(p: Pid, xs: seq<Sample>, k: int)
    requires 0 <= k < |xs|
    ensures var x := xs[k];
      var e := Error(x);
      Outputs(p, xs)[k]
      == Clamp(Law(p.gains, e, p.integral + ErrorTime(xs[..k + 1]),
                   Derivative(e, ErrorBefore(p, xs, k), x.dt)), 0.0, 1.0)
    decreases k
  {
    var x := xs[0];
    var q := Advance(p, x.setpoint, x.measurement, x.dt);
    assert xs[..k + 1][0] == x;
    assert xs[..k + 1][1..] == xs[1..][..k];
    assert ErrorTime(xs[..k + 1]) == Error(x) * x.dt + ErrorTime(xs[1..][..k]);
    assert q.integral + ErrorTime(xs[1..][..k]) == p.integral + ErrorTime(xs[..k + 1]);
    if k == 0 {
      assert Outputs(p, xs)[0] == Control(p, x.setpoint, x.measurement, x.dt);
      assert xs[1..][..0] == [];
    } else {
      assert Outputs(p, xs)[k] == Outputs(q, xs[1..])[k - 1];
      OutputAt(q, xs[1..], k - 1);
      assert xs[1..][k - 1] == xs[k];
      assert ErrorBefore(q, xs[1..], k - 1) == ErrorBefore(p, xs, k);
    }
  }

  /** Feeding one more call is one more Advance. */
  lemma {:induction false} FeedLast(p: Pid, xs: seq<Sample>)
    requires |xs| > 0
    ensures var x := xs[|xs| - 1];
      Feed(p, xs) == Advance(Feed(p, xs[..|xs| - 1]), x.setpoint, x.measurement, x.dt)
    decreases |xs|
  {
    var x0 := xs[0];
    if |xs| > 1 {
      FeedLast(Advance(p, x0.setpoint, x0.measurement, x0.dt), xs[1..]);
      assert xs[1..][..|xs[1..]| - 1] == xs[..|xs| - 1][1..];
    }
  }

  /** The k-th output of a run of calls is the control computed by the
      controller that has already taken the first k calls. */
  lemma {:induction false} OutputIsControlAfterFeed(p: Pid, xs: seq<Sample>, k: int)
    requires 0 <= k < |xs|
    ensures Outputs(p, xs)[k] == Control(Feed(p, xs[..k]), xs[k].setpoint, xs[k].measurement, xs[k].dt)
    decreases k
  {
    var x0 := xs[0];
    if k > 0 {
      var q := Advance(p, x0.setpoint, x0.measurement, x0.dt);
      OutputIsControlAfterFeed(q, xs[1..], k - 1);
      assert xs[1..][..k - 1] == xs[..k][1..];
    }
  }
}
