/**
 * The step load shape of the autoscaling load generator
 * (horizontal-autoscaling/load-generator/step.py): every `stepTime`
 * seconds the target number of users grows by `stepLoad`, until the time
 * limit. The shape's settings and the run time are real numbers; the
 * source computes them in floating point.
 */
module StepLoad {
  import opened Common

  datatype Shape = Shape(stepTime: real, stepLoad: real, spawnRate: real, timeLimit: real)

  /** The default settings, when the environment sets none. */
  const DEFAULT_SHAPE: Shape := Shape(10.0, 2.0, 1.0, 600.0)

  /** The step reached at a run time: floor(runTime / stepTime) + 1. With
      a positive step time the run time lies in the step's window; with a
      negative one (the environment may set any float) the window is
      reversed. */
  function CurrentStep(shape: Shape, runTime: real): (k: int)
    requires shape.stepTime != 0.0
    ensures (k - 1) as real <= runTime / shape.stepTime < k as real
    ensures shape.stepTime > 0.0 ==> (k - 1) as real * shape.stepTime <= runTime < k as real * shape.stepTime
    ensures shape.stepTime < 0.0 ==> k as real * shape.stepTime < runTime <= (k - 1) as real * shape.stepTime
  {
    StepWindow(runTime, shape.stepTime);
    (runTime / shape.stepTime).Floor + 1
  }

  /** floor(t / c) + 1 is the step whose window holds t, for either sign
      of c. */
  lemma {:induction false} StepWindow(t: real, c: real)
    requires c != 0.0
    ensures var k := (t / c).Floor + 1;
      (c > 0.0 ==> (k - 1) as real * c <= t < k as real * c) &&
      (c < 0.0 ==> k as real * c < t <= (k - 1) as real * c)
  {
    var q := t / c;
    var f := q.Floor as real;
    assert q * c == t;
    assert f <= q < f + 1.0;
    var k := q.Floor + 1;
    var lo := (k - 1) as real;
    var hi := k as real;
    assert lo == f && hi == f + 1.0;
    if c > 0.0 {
      ScaleOrder(lo, q, c);
      ScaleOrder(q, hi, c);
      assert q < hi;
      assert q * c < hi * c;
      assert t == q * c;
      assert t < hi * c;
    } else {
      ScaleOrderNegative(lo, q, c);
      ScaleOrderNegative(q, hi, c);
      assert hi * c < q * c;
      assert t == q * c;
      assert hi * c < t <= lo * c;
    }
  }

  /** Multiplying by a positive factor keeps the order, both ways. */
  lemma {:induction false} ScaleOrder(x: real, y: real, c: real)
    requires c > 0.0
    ensures x <= y <==> x * c <= y * c
    ensures x < y <==> x * c < y * c
  {
    assert y * c - x * c == (y - x) * c;
    if x < y {
      assert (y - x) * c > 0.0;
    } else if x == y {
      assert (y - x) * c == 0.0;
    } else {
      assert (x - y) * c > 0.0;
    }
  }

  /** Multiplying by a negative factor reverses the order, both ways. */
  lemma {:induction false} ScaleOrderNegative(x: real, y: real, c: real)
    requires c < 0.0
    ensures x <= y <==> y * c <= x * c
    ensures x < y <==> y * c < x * c
  {
    ScaleOrder(x, y, -c);
    assert x * -c == -(x * c);
    assert y * -c == -(y * c);
  }

  /** tick: None once the run time passes the limit (the test stops);
      otherwise the user count of the current step and the spawn rate. */
  function Tick(shape: Shape, runTime: real): (r: Option<(real, real)>)
    requires shape.stepTime != 0.0
    ensures r.None? <==> runTime > shape.timeLimit
    ensures r.Some? ==> r.value == (CurrentStep(shape, runTime) as real * shape.stepLoad, shape.spawnRate)
  {
    if runTime > shape.timeLimit then None
    else Some((CurrentStep(shape, runTime) as real * shape.stepLoad, shape.spawnRate))
  }

  /** The first step starts the test: at time 0 the target is one step's
      load. */
  lemma {:induction false} FirstStep(shape: Shape)
    requires shape.stepTime > 0.0 && shape.timeLimit >= 0.0
    ensures Tick(shape, 0.0) == Some((shape.stepLoad, shape.spawnRate))
  {
    assert 0.0 / shape.stepTime == 0.0;
  }

  /** The step never goes back as time passes. */
  lemma {:induction false} StepMonotone(shape: Shape, t1: real, t2: real)
    requires shape.stepTime > 0.0 && t1 <= t2
    ensures CurrentStep(shape, t1) <= CurrentStep(shape, t2)
  {
    var k1 := CurrentStep(shape, t1);
    var k2 := CurrentStep(shape, t2);
    assert (k1 - 1) as real * shape.stepTime <= t1;
    assert t2 < k2 as real * shape.stepTime;
    assert (k1 - 1) as real * shape.stepTime < k2 as real * shape.stepTime;
    ScaleOrder((k1 - 1) as real, k2 as real, shape.stepTime);
  }

  /** With a non-negative step load the target user count never decreases
      while the test runs. */
  lemma {:induction false} TargetNeverDecreases(shape: Shape, t1: real, t2: real)
    requires shape.stepTime > 0.0 && shape.stepLoad >= 0.0
    requires t1 <= t2 <= shape.timeLimit
    ensures Tick(shape, t1).Some? && Tick(shape, t2).Some?
    ensures Tick(shape, t1).value.0 <= Tick(shape, t2).value.0
  {
    StepMonotone(shape, t1, t2);
    var k1 := CurrentStep(shape, t1);
    var k2 := CurrentStep(shape, t2);
    assert (k2 - k1) as real * shape.stepLoad >= 0.0;
    assert k2 as real * shape.stepLoad == k1 as real * shape.stepLoad + (k2 - k1) as real * shape.stepLoad;
  }

  /** A negative step time makes every step after time 0 non-positive, so
      with a positive step load the target user count drops to zero or
      below and keeps falling as time passes. */
  lemma {:induction false} NegativeStepTime(shape: Shape, t1: real, t2: real)
    requires shape.stepTime < 0.0 && shape.stepLoad > 0.0
    requires 0.0 < t1 <= t2 <= shape.timeLimit
    ensures Tick(shape, t1).Some? && Tick(shape, t2).Some?
    ensures Tick(shape, t1).value.0 <= 0.0
    ensures Tick(shape, t2).value.0 <= Tick(shape, t1).value.0
  {
    var k1 := CurrentStep(shape, t1);
    var k2 := CurrentStep(shape, t2);
    NegativeStepAfterStart(shape, t1);
    NegativeStepFalls(shape, t1, t2);
    ScaleOrder(k1 as real, 0.0, shape.stepLoad);
    ScaleOrder(k2 as real, k1 as real, shape.stepLoad);
  }

  /** With a negative step time, the step after time 0 is at most 0. */
  lemma {:induction false} NegativeStepAfterStart(shape: Shape, t: real)
    requires shape.stepTime < 0.0 && 0.0 < t
    ensures CurrentStep(shape, t) <= 0
  {
    var k := CurrentStep(shape, t);
    assert 0.0 * shape.stepTime < (k - 1) as real * shape.stepTime;
    ScaleOrderNegative((k - 1) as real, 0.0, shape.stepTime);
  }

  /** With a negative step time, the step never goes up as time passes. */
  lemma {:induction false} NegativeStepFalls(shape: Shape, t1: real, t2: real)
    requires shape.stepTime < 0.0 && t1 <= t2
    ensures CurrentStep(shape, t2) <= CurrentStep(shape, t1)
  {
    var k1 := CurrentStep(shape, t1);
    var k2 := CurrentStep(shape, t2);
    var below := k1 as real * shape.stepTime;
    var above := (k2 - 1) as real * shape.stepTime;
    assert below < t1 && t2 <= above;
    assert below < above;
    ScaleOrderNegative((k2 - 1) as real, k1 as real, shape.stepTime);
    assert (k2 - 1) as real < k1 as real;
  }
}
