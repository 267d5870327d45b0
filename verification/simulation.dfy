/** The fixed-step simulation loop of the program's entry point: each step
    reads the plant temperature, asks the controller for a control, steps the
    plant with it and hands one record to the logger. The logger is replaced
    by the sequence of records it would receive. */
module Simulation {
  import opened Plant
  import opened Controller

  /** One row handed to the logger: the step index, the plant temperature
      AFTER the step, the setpoint and the control applied during the step. */
  datatype Record = Record(time: int, temperature: real, setpoint: real, control: real)

  /** What the loop carries from one iteration to the next. */
  datatype Loop = Loop(system: ThermalSystem, pid: Pid)

  /** The run's parameters (constants of the program); `steps` is a signed
      count, as in the program's `for` loop. */
  datatype Config = Config(
    dt: real, steps: int, setpoint: real,
    ambient: real, initialTemp: real,
    kp: real, ki: real, kd: real)

  /** The plant and a freshly constructed controller, as set up before the loop. */
  function Initial(c: Config): Loop
  {
    Loop(ThermalSystem(c.initialTemp, c.ambient), New(c.kp, c.ki, c.kd))
  }

  /** The control of the iteration that starts in `s`: computed from the
      temperature BEFORE the plant is stepped. */
  function Applied(s: Loop, setpoint: real, dt: real): real
  {
    Control(s.pid, setpoint, s.system.temperature, dt)
  }

  /** One iteration's effect on the loop state. The controller has seen the
      pre-step temperature as its measurement; the plant has moved; the
      ambient temperature and the gains are untouched. */
  function Step(s: Loop, setpoint: real, dt: real): (s': Loop)
    ensures s'.system.ambient == s.system.ambient
    ensures s'.pid.gains == s.pid.gains
    ensures s'.pid.prevError == setpoint - s.system.temperature
  {
    var control := Applied(s, setpoint, dt);
    Loop(Update(s.system, control, dt), Advance(s.pid, setpoint, s.system.temperature, dt))
  }

  /** The record of iteration `t` started in `s`. */
  function Emit(s: Loop, setpoint: real, dt: real, t: int): Record
  {
    Record(t, Step(s, setpoint, dt).system.temperature, setpoint, Applied(s, setpoint, dt))
  }

  /** The records of iterations t, t + 1, ..., steps - 1 started in `s`. */
  function Run(s: Loop, setpoint: real, dt: real, t: int, steps: int): (rs: seq<Record>)
    ensures |rs| == if t < steps then steps - t else 0
    ensures forall i :: 0 <= i < |rs| ==> rs[i].time == t + i
    ensures forall i :: 0 <= i < |rs| ==> rs[i].setpoint == setpoint
    ensures forall i :: 0 <= i < |rs| ==> 0.0 <= rs[i].control <= 1.0
    decreases steps - t
  {
    if t >= steps then []
    else [Emit(s, setpoint, dt, t)] + Run(Step(s, setpoint, dt), setpoint, dt, t + 1, steps)
  }

  /** The whole run: exactly `steps` records (none when steps <= 0), indexed
      0, 1, ... in strictly increasing order, each carrying the setpoint and
      a control in [0, 1]. */
  function Simulate(c: Config): (rs: seq<Record>)
    ensures |rs| == if c.steps > 0 then c.steps else 0
    ensures c.steps <= 0 ==> rs == []
    ensures forall i :: 0 <= i < |rs| ==> rs[i].time == i
    ensures forall i, j :: 0 <= i < j < |rs| ==> rs[i].time < rs[j].time
    ensures forall i :: 0 <= i < |rs| ==> rs[i].setpoint == c.setpoint
    ensures forall i :: 0 <= i < |rs| ==> 0.0 <= rs[i].control <= 1.0
  {
    Run(Initial(c), c.setpoint, c.dt, 0, c.steps)
  }

  /** The loop state after `k` iterations. */
  function StateAt(s: Loop, setpoint: real, dt: real, k: nat): (r: Loop)
    ensures r.system.ambient == s.system.ambient
    ensures r.pid.gains == s.pid.gains
    decreases k
  {
    if k == 0 then s else StateAt(Step(s, setpoint, dt), setpoint, dt, k - 1)
  }

  lemma {:induction false} StateAtNext(s: Loop, setpoint: real, dt: real, k: nat)
    ensures StateAt(s, setpoint, dt, k + 1) == Step(StateAt(s, setpoint, dt, k), setpoint, dt)
    decreases k
  {
    if k > 0 {
      StateAtNext(Step(s, setpoint, dt), setpoint, dt, k - 1);
    }
  }

  /** Record `i` of a run is what iteration t + i emits from the state reached
      after i iterations. */
  lemma {:induction false} RunAt(s: Loop, setpoint: real, dt: real, t: int, steps: int, i: int)
    requires 0 <= i && t + i < steps
    ensures Run(s, setpoint, dt, t, steps)[i] == Emit(StateAt(s, setpoint, dt, i), setpoint, dt, t + i)
    decreases i
  {
    if i > 0 {
      RunAt(Step(s, setpoint, dt), setpoint, dt, t + 1, steps, i - 1);
    }
  }

  /** The temperature the controller measures in step i: the initial
      temperature in step 0, the temperature logged by step i - 1 after it. */
  function Measured(c: Config, rs: seq<Record>, i: int): real
    requires 0 <= i <= |rs|
  {
    if i == 0 then c.initialTemp else rs[i - 1].temperature
  }

  /** Step i starts from the plant as the previous record left it, and its
      record's control and temperature are determined by that: the control
      is computed from the measured (pre-step) temperature by the
      controller after i calls, and the logged temperature is the plant
      stepped from the measured temperature with that control. */
  lemma RecordAt(c: Config, i: int)
    requires 0 <= i < c.steps
    ensures var rs := Simulate(c);
      var s := StateAt(Initial(c), c.setpoint, c.dt, i);
      && s.system == ThermalSystem(Measured(c, rs, i), c.ambient)
      && rs[i].control == Control(s.pid, c.setpoint, Measured(c, rs, i), c.dt)
      && rs[i].temperature == Update(ThermalSystem(Measured(c, rs, i), c.ambient), rs[i].control, c.dt).temperature
  {
    var rs := Simulate(c);
    var s := StateAt(Initial(c), c.setpoint, c.dt, i);
    RunAt(Initial(c), c.setpoint, c.dt, 0, c.steps, i);
    if i > 0 {
      RunAt(Initial(c), c.setpoint, c.dt, 0, c.steps, i - 1);
      StateAtNext(Initial(c), c.setpoint, c.dt, i - 1);
    }
  }

  /** Definition of the controller calls read off a run's records: constant
      setpoint and step, and the measured temperature of each step. That
      these are the calls the loop makes is stated by PidAt and
      LoggedControlsAreOutputs. */
  function Calls(c: Config, rs: seq<Record>): (xs: seq<Sample>)
    ensures |xs| == |rs|
  {
    seq(|rs|, i requires 0 <= i < |rs| => Sample(c.setpoint, Measured(c, rs, i), c.dt))
  }

  /** The controller inside the loop after i steps is a fresh controller fed
      the first i calls. */
  lemma {:induction false} PidAt(c: Config, i: nat)
    requires i <= c.steps
    ensures var rs := Simulate(c);
      StateAt(Initial(c), c.setpoint, c.dt, i).pid
      == Feed(New(c.kp, c.ki, c.kd), Calls(c, rs)[..i])
    decreases i
  {
    var rs := Simulate(c);
    var xs := Calls(c, rs);
    var p := New(c.kp, c.ki, c.kd);
    if i > 0 {
      PidAt(c, i - 1);
      RecordAt(c, i - 1);
      StateAtNext(Initial(c), c.setpoint, c.dt, i - 1);
      assert xs[..i][..i - 1] == xs[..i - 1];
      FeedLast(p, xs[..i]);
    }
  }

  /** The controls the loop logs are exactly the controller's outputs on the
      loop's calls; the closed form of Controller.OutputAt therefore applies
      to them, including the integral windup while they are saturated. */
  lemma LoggedControlsAreOutputs(c: Config)
    ensures var rs := Simulate(c);
      forall i :: 0 <= i < |rs| ==> rs[i].control == Outputs(New(c.kp, c.ki, c.kd), Calls(c, rs))[i]
  {
    var rs := Simulate(c);
    var xs := Calls(c, rs);
    var p := New(c.kp, c.ki, c.kd);
    forall i | 0 <= i < |rs|
      ensures rs[i].control == Outputs(p, xs)[i]
    {
      RecordAt(c, i);
      PidAt(c, i);
      OutputIsControlAfterFeed(p, xs, i);
    }
  }

  /** The loop as the program writes it: a counter from 0 while it is below
      `steps`, appending one record per iteration. It produces exactly the
      records of Simulate. */
  method SimulateLoop(c: Config) returns (log: seq<Record>)
    ensures log == Simulate(c)
  {
    var s := Initial(c);
    log := [];
    var t := 0;
    while t < c.steps
      invariant 0 <= t
      invariant log + Run(s, c.setpoint, c.dt, t, c.steps) == Simulate(c)
      decreases c.steps - t
    {
      var measurement := s.system.temperature;
      var control := Control(s.pid, c.setpoint, measurement, c.dt);
      var pid := Advance(s.pid, c.setpoint, measurement, c.dt);
      var system := Update(s.system, control, c.dt);
      log := log + [Record(t, system.temperature, c.setpoint, control)];
      s := Loop(system, pid);
      t := t + 1;
    }
  }
}
