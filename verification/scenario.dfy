/** The one run the program performs: its constants, and what the model
    proves about that run. With reals in place of doubles the setpoint is so
    far above anything the plant can reach that the controller is saturated
    at full power from the very first step, and the temperature then rises
    strictly at every step while staying below ambient + 10. */
module Scenario {
  import opened Plant
  import opened Controller
  import opened Simulation

  /** dt = 0.1, 1000 steps, setpoint 25000, ambient and initial temperature
      20, gains 0.8 / 0.05 / 0.02. */
  const Reference: Config := Config(0.1, 1000, 25000.0, 20.0, 20.0, 0.8, 0.05, 0.02)

  /** What holds before every step of the reference run. The bound on the
      previous error keeps the derivative term above -0.02: between two steps
      the temperature rises by at most 0.1. */
  ghost predicate Inv(s: Loop)
  {
    && s.system.ambient == 20.0
    && 20.0 <= s.system.temperature < 30.0
    && s.pid.gains == Gains(0.8, 0.05, 0.02)
    && s.pid.integral >= 0.0
    && s.pid.prevError <= 25000.0 - s.system.temperature + 0.1
  }

  /** One step of the reference run from a state satisfying Inv: the
      control is 1.0, the temperature rises strictly, and Inv still holds. */
  lemma StepSaturates(s: Loop)
    requires Inv(s)
    ensures Applied(s, 25000.0, 0.1) == 1.0
    ensures Step(s, 25000.0, 0.1).system.temperature > s.system.temperature
    ensures Inv(Step(s, 25000.0, 0.1))
  {
  }

  /** The reference run's parameters, with any step count and any initial
      temperature in [20, 30). */
  ghost predicate LikeReference(c: Config)
  {
    && c.dt == 0.1 && c.setpoint == 25000.0 && c.ambient == 20.0
    && 20.0 <= c.initialTemp < 30.0
    && c.kp == 0.8 && c.ki == 0.05 && c.kd == 0.02
  }

  /** Inv holds before every step of such a run. */
  lemma {:induction false} InvAt(c: Config, k: nat)
    requires LikeReference(c)
    ensures Inv(StateAt(Initial(c), c.setpoint, c.dt, k))
    decreases k
  {
    if k > 0 {
      InvAt(c, k - 1);
      StateAtNext(Initial(c), c.setpoint, c.dt, k - 1);
      StepSaturates(StateAt(Initial(c), c.setpoint, c.dt, k - 1));
    }
  }

  /** Each logged temperature lies strictly above the measured one of its
      step, and below 30; each logged control is exactly full power. */
  lemma SaturatedRecord(c: Config, i: int)
    requires LikeReference(c)
    requires 0 <= i < c.steps
    ensures var rs := Simulate(c);
      && rs[i].control == 1.0
      && Measured(c, rs, i) < rs[i].temperature < 30.0
  {
    var s := StateAt(Initial(c), c.setpoint, c.dt, i);
    InvAt(c, i);
    StepSaturates(s);
    StateAtNext(Initial(c), c.setpoint, c.dt, i);
    RecordAt(c, i);
  }

  /** Every record of the run applied full heater power. */
  ghost predicate FullPower(rs: seq<Record>)
  {
    forall i :: 0 <= i < |rs| ==> rs[i].control == 1.0
  }

  /** The logged temperatures increase strictly over the whole run. */
  ghost predicate Warming(rs: seq<Record>)
  {
    forall i, j :: 0 <= i < j < |rs| ==> rs[i].temperature < rs[j].temperature
  }

  /** Every logged temperature lies strictly between `lo` and `hi`. */
  ghost predicate Between(rs: seq<Record>, lo: real, hi: real)
  {
    forall i :: 0 <= i < |rs| ==> lo < rs[i].temperature < hi
  }

  /** Any run with the reference parameters: every control at full power,
      temperatures strictly increasing over the whole run, above the
      initial temperature and below 30, so never reaching the setpoint. */
  lemma SaturatedRun(c: Config)
    requires LikeReference(c)
    ensures FullPower(Simulate(c))
    ensures Warming(Simulate(c))
    ensures Between(Simulate(c), c.initialTemp, 30.0)
  {
    var rs := Simulate(c);
    forall i | 0 < i < |rs|
      ensures rs[i - 1].temperature < rs[i].temperature
    {
      SaturatedRecord(c, i);
    }
    forall i | 0 <= i < |rs|
      ensures rs[i].control == 1.0
      ensures c.initialTemp < rs[i].temperature < 30.0
    {
      SaturatedRecord(c, i);
      SaturatedRecord(c, 0);
      if i > 0 {
        Increasing(rs, 0, i);
      }
    }
    forall i, j | 0 <= i < j < |rs|
      ensures rs[i].temperature < rs[j].temperature
    {
      Increasing(rs, i, j);
    }
  }

  /** The program's run: 1000 records indexed 0..999, every control at full
      power, temperatures strictly increasing from 20 and staying below 30,
      far below the setpoint of 25000. The configuration is any one with
      Reference's fields (see ReferenceFields); naming the constant itself
      would let the verifier unfold all 1000 steps. */
  lemma ReferenceRun(c: Config)
    requires LikeReference(c) && c.steps == 1000 && c.initialTemp == 20.0
    ensures |Simulate(c)| == 1000
    ensures forall i :: 0 <= i < |Simulate(c)| ==> Simulate(c)[i].time == i
    ensures FullPower(Simulate(c))
    ensures Warming(Simulate(c))
    ensures Between(Simulate(c), 20.0, 30.0)
  {
    SaturatedRun(c);
  }

  /** Reference meets the requirement of ReferenceRun. */
  lemma ReferenceFields()
    ensures LikeReference(Reference) && Reference.steps == 1000 && Reference.initialTemp == 20.0
  {
  }

  /** Consecutive increase gives increase between any two indices. */
  lemma {:induction false} Increasing(rs: seq<Record>, i: int, j: int)
    requires 0 <= i < j < |rs|
    requires forall k :: 0 < k < |rs| ==> rs[k - 1].temperature < rs[k].temperature
    ensures rs[i].temperature < rs[j].temperature
    decreases j - i
  {
    if i + 1 < j {
      Increasing(rs, i, j - 1);
    }
  }
}
