# PID temperature control simulator — Dafny model

This project models the core of a small closed-loop temperature-control
simulator written in C++ (`PIDcontroller.cpp`):

- **Plant** (`plant.dfy`, class `ThermalSystem`): one explicit Euler step of a
  first-order thermal process that cools towards the ambient temperature
  (coefficient 0.1) and is heated in proportion to the control input (gain 1.0).
- **Controller** (`controller.dfy`, class `PID`): the gains `Kp`, `Ki`, `Kd`
  and the mutable `integral` and `prev_error`. One call of `compute` is split
  into its value half (`Control`) and its state half (`Advance`); `Compute`
  pairs them. The steps run in the source's order: error, integral update
  (no anti-windup), derivative guarded by `dt > 0` and taken against the
  previous call's error, raw output, `prev_error` update, `std::clamp` to
  [0, 1]. `Reset` zeroes the history and keeps the gains. `Feed` and
  `Outputs` describe a run of successive calls.
- **Simulation** (`simulation.dfy`, the loop of `main`): each step measures
  the plant temperature, computes the control from it, steps the plant, and
  emits one record `(t, temperature after the step, setpoint, control)`. The
  logger is replaced by the sequence of records it would receive. `Run` and
  `Simulate` are the recursive definition; `SimulateLoop` is the counting
  loop as the program writes it, proved to produce the same records.
- **Scenario** (`scenario.dfy`): the constants of `main` (dt 0.1, 1000 steps,
  setpoint 25000, ambient and initial temperature 20, gains 0.8 / 0.05 / 0.02)
  and what holds of that run.

Every C++ `double` is a Dafny `real`. Under that abstraction all the
properties below are exact. Real literals such as `0.1` are exact rationals
here, not the nearest binary double. The step count is a signed `int`, as in
the source's `for` loop: a negative count, like zero, produces no records.

Two facts about the code that the model makes explicit:

- The guard at `PIDcontroller.cpp:63` tests `dt > 0.0`, so a negative `dt`
  also gives a derivative of exactly 0 (`Controller.Derivative`,
  `Controller.NoDerivativeWithoutStep`). A negative step still enters the
  integral.
- In the fixed run of `main` every control is exactly 1.0 from the first step
  on: the first error is 24980, so the proportional term alone is far above 1.

## Model

| member | source | states |
|---|---|---|
| Plant.Update | PIDcontroller.cpp:38-43 | the ambient temperature is unchanged; the deviation from ambient decays by the factor 1 - 0.1*dt and gains heaterPower*dt |
| Plant.Equilibrium | PIDcontroller.cpp:38-43 | with zero heater power and temperature equal to ambient, a step of any length leaves the plant unchanged |
| Plant.SteadyStateIsFixed | PIDcontroller.cpp:38-43 | for every constant power u the temperature ambient + 10*u is a fixed point of the step, for every dt |
| Plant.UpdateMonotoneInPower | PIDcontroller.cpp:38-43 | over a non-negative step, more heater power never gives a lower temperature |
| Plant.UpdateStaysInBand | PIDcontroller.cpp:38-43 | with power in [0,1] and 0 < dt <= 10, a temperature in [ambient, ambient + 10] stays in that band |
| Controller.Reset | PIDcontroller.cpp:76-79 | a reset controller is exactly a freshly constructed one (lines 50-53) with the same gains |
| Controller.Clamp | PIDcontroller.cpp:71 | the clamped value is in [lo, hi], equals v when v is in range, lo below it and hi above it |
| Controller.ClampIsNearest | PIDcontroller.cpp:71 | no point of [lo, hi] is closer to v than the clamped value (the clamp is the projection onto the interval) |
| Controller.Derivative | PIDcontroller.cpp:63 | for dt > 0 the derivative times dt is the change in error since the previous call; for dt <= 0, negative steps included, it is exactly 0 |
| Controller.Advance | PIDcontroller.cpp:57-68 | after a call the integral is the old integral plus error*dt, the previous error is setpoint - measurement, and the gains are unchanged |
| Controller.Control | PIDcontroller.cpp:56-73 | the control returned by compute lies in [0, 1] whatever the gains, inputs or accumulated integral |
| Controller.Compute | PIDcontroller.cpp:56-74 | one call returns a control in [0, 1] and leaves the gains unchanged |
| Controller.NoDerivativeWithoutStep | PIDcontroller.cpp:63-66 | for dt <= 0 the control is the clamped PI law Kp*e + Ki*(integral + e*dt), independent of Kd and of the previous error |
| Controller.ResetThenCompute | PIDcontroller.cpp:50-79 | a call after reset returns the same control and reaches the same state as the first call of a fresh controller with the same gains; that state is (gains, e*dt, e) |
| Controller.Feed | PIDcontroller.cpp:46-74 | no sequence of calls changes the gains |
| Controller.Outputs | PIDcontroller.cpp:56-73 | a run of calls returns one control per call, each in [0, 1] |
| Controller.FeedAccumulates | PIDcontroller.cpp:48-68 | after any calls the integral is the old integral plus the sum of error*dt, even while the output is saturated; prev_error is the last call's error; the gains are unchanged |
| Controller.OutputAt | PIDcontroller.cpp:56-73 | closed form of the k-th control: clamp of Kp*e_k + Ki*(initial integral + sum of e_j*dt_j for j <= k) + Kd*derivative against the error of call k-1 (or the initial prev_error when k = 0) |
| Controller.FeedLast | PIDcontroller.cpp:56-68 | feeding one more call is one more state update |
| Controller.OutputIsControlAfterFeed | PIDcontroller.cpp:56-73 | the k-th control of a run is the one computed by the controller that has taken the first k calls |
| Simulation.Step | PIDcontroller.cpp:109-115 | after one iteration the controller's previous error is setpoint minus the PRE-step temperature; ambient and gains are unchanged |
| Simulation.Run | PIDcontroller.cpp:107-119 | the iterations t..steps-1 emit steps - t records (none if t >= steps) with indices t, t+1, ..., the setpoint, and controls in [0, 1] |
| Simulation.Simulate | PIDcontroller.cpp:98-119 | exactly max(steps, 0) records, none when steps <= 0, with indices 0..steps-1 strictly increasing, each carrying the setpoint and a control in [0, 1] |
| Simulation.StateAt | PIDcontroller.cpp:107-115 | the loop never changes the ambient temperature or the gains |
| Simulation.StateAtNext | PIDcontroller.cpp:107-115 | the state after k+1 iterations is one iteration from the state after k |
| Simulation.RunAt | PIDcontroller.cpp:107-118 | record i of a run is what iteration t+i emits from the state reached after i iterations |
| Simulation.RecordAt | PIDcontroller.cpp:109-118 | step i measures the temperature logged by step i-1 (the initial temperature for i = 0); its control is computed from that pre-step temperature; its logged temperature is the plant stepped from it with that control |
| Simulation.PidAt | PIDcontroller.cpp:102-112 | the controller inside the loop after i steps is a fresh controller fed the loop's first i calls, where call j has the constant setpoint and dt and measures the initial temperature (j = 0) or the temperature logged by record j-1 |
| Simulation.LoggedControlsAreOutputs | PIDcontroller.cpp:102-118 | the logged controls are exactly the controller's outputs on the loop's calls (so OutputAt's closed form, including integral windup, applies to them) |
| Simulation.SimulateLoop | PIDcontroller.cpp:98-119 | the counting loop as written produces exactly the records of Simulate |
| Scenario.StepSaturates | PIDcontroller.cpp:86-115 | under the run invariant one iteration of the fixed run applies control 1.0, raises the temperature strictly, and keeps the invariant |
| Scenario.InvAt | PIDcontroller.cpp:86-115 | the invariant (temperature in [20, 30), non-negative integral, bounded previous error) holds before every step of the fixed run |
| Scenario.SaturatedRecord | PIDcontroller.cpp:86-118 | each record of the fixed run has control 1.0 and a temperature above the measured one and below 30 |
| Scenario.SaturatedRun | PIDcontroller.cpp:86-119 | with the fixed constants and any step count, every control is 1.0 and the logged temperatures rise strictly, between the initial temperature and 30 |
| Scenario.ReferenceRun | PIDcontroller.cpp:86-119 | the program's run emits 1000 records indexed 0..999, all at full power, with temperatures strictly increasing from 20 and below 30, never reaching the setpoint 25000 |
| Scenario.ReferenceFields | PIDcontroller.cpp:86-95 | the constant configuration meets ReferenceRun's requirement: the program's parameters with 1000 steps and initial temperature 20 |

## Left out

- `CSVLogger` (file creation and truncation, the header line, per-call append, the error printed when a file cannot be opened): I/O. The model's records are the values handed to `logger.log`; a record the logger fails to write is not modelled as dropped.
- The `try`/`catch` in `main`, the console messages and the exit codes: program-boundary behaviour, not logic.
- IEEE-754 `double` behaviour (rounding, overflow, infinities, and NaN, which `std::clamp` would pass through and which would break the [0, 1] bound): every `double` is a `real`.
- Decimal text formatting of the logged values: library formatting.
- `plot_results.py`: plotting and statistics through foreign libraries.
- Controller.Compute: its contract states only the bound on the control and the unchanged gains; the state update is stated on Controller.Advance and the value on Controller.OutputAt and Controller.NoDerivativeWithoutStep.
