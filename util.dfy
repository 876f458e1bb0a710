/**
 * The static helpers of the `Util` class: squaring, averaging, clamping, the
 * velocity-Verlet displacement and the drag force. Single-precision floats are
 * modelled as `real`, so rounding, overflow and NaN are not part of the model.
 */
module Util {

  /** A two-component vector, standing for the engine's `Vector2`. */
  datatype Vector2 = Vector2(x: real, y: real)

  function Add(a: Vector2, b: Vector2): Vector2 { Vector2(a.x + b.x, a.y + b.y) }

  /** `vector * scalar` (and `scalar * vector`). */
  function Scale(a: Vector2, k: real): Vector2 { Vector2(a.x * k, a.y * k) }

  /** `vector * vector`, which the engine defines component by component. */
  function Mul(a: Vector2, b: Vector2): Vector2 { Vector2(a.x * b.x, a.y * b.y) }

  /** `Square(value)`: never negative, whatever the sign of the value. */
  function Square(value: real): (r: real)
    ensures r >= 0.0
  {
    value * value
  }

  // ---------------------------------------------------------------- Average

  /** Left-to-right sum, the value the accumulating loop of `Average` builds. */
  function Sum(values: seq<real>): real
  {
    if values == [] then 0.0 else Sum(values[..|values| - 1]) + values[|values| - 1]
  }

  /** The arithmetic mean of a non-empty sequence. */
  function Mean(values: seq<real>): real
    requires |values| > 0
  {
    Sum(values) / |values| as real
  }

  /** `Average(float[])`: sums the values in order, then divides by the count. */
  method Average(values: seq<real>) returns (r: real)
    requires |values| > 0
    ensures r == Mean(values)
  {
    var sum := 0.0;
    for i := 0 to |values|
      invariant sum == Sum(values[..i])
    {
      assert values[..i + 1][..i] == values[..i];
      sum := sum + values[i];
    }
    assert values[..|values|] == values;
    r := sum / |values| as real;
  }

  /** The X components of a sequence of vectors, in order. */
  function Xs(values: seq<Vector2>): (r: seq<real>)
    ensures |r| == |values|
    ensures forall i :: 0 <= i < |values| ==> r[i] == values[i].x
  {
    if values == [] then [] else Xs(values[..|values| - 1]) + [values[|values| - 1].x]
  }

  /** The Y components of a sequence of vectors, in order. */
  function Ys(values: seq<Vector2>): (r: seq<real>)
    ensures |r| == |values|
    ensures forall i :: 0 <= i < |values| ==> r[i] == values[i].y
  {
    if values == [] then [] else Ys(values[..|values| - 1]) + [values[|values| - 1].y]
  }

  /** `Average(Vector2[])`: the mean of each component taken separately. */
  method AverageVector(values: seq<Vector2>) returns (r: Vector2)
    requires |values| > 0
    ensures r == Vector2(Mean(Xs(values)), Mean(Ys(values)))
  {
    var sumX, sumY := 0.0, 0.0;
    for i := 0 to |values|
      invariant sumX == Sum(Xs(values[..i]))
      invariant sumY == Sum(Ys(values[..i]))
    {
      assert values[..i + 1][..i] == values[..i];
      sumX := sumX + values[i].x;
      sumY := sumY + values[i].y;
    }
    assert values[..|values|] == values;
    r := Vector2(sumX / |values| as real, sumY / |values| as real);
  }

  /** The mean of two values is their midpoint; `Main.Update` averages exactly two accelerations. */
  lemma MeanOfPair(a: real, b: real)
    ensures Mean([a, b]) == (a + b) / 2.0
  {
    assert [a, b][..1] == [a];
    assert [a][..0] == [];
    assert Sum([a]) == a;
    assert Sum([a, b]) == a + b;
  }

  /** The sum of values lying in [lo, hi] lies in [n * lo, n * hi]. */
  lemma {:induction false} SumBounds(values: seq<real>, lo: real, hi: real)
    requires forall i :: 0 <= i < |values| ==> lo <= values[i] <= hi
    ensures |values| as real * lo <= Sum(values) <= |values| as real * hi
  {
    if values != [] {
      var init := values[..|values| - 1];
      forall i | 0 <= i < |init| ensures lo <= init[i] <= hi {
        assert init[i] == values[i];
      }
      SumBounds(init, lo, hi);
    }
  }

  /** The mean of values lying in [lo, hi] lies in [lo, hi] too. */
  lemma MeanBounds(values: seq<real>, lo: real, hi: real)
    requires |values| > 0
    requires forall i :: 0 <= i < |values| ==> lo <= values[i] <= hi
    ensures lo <= Mean(values) <= hi
  {
    SumBounds(values, lo, hi);
    var n := |values| as real;
    assert n * lo <= Sum(values) <= n * hi;
    assert lo == (n * lo) / n && hi == (n * hi) / n;
    DivMonotone(n * lo, Sum(values), n);
    DivMonotone(Sum(values), n * hi, n);
  }

  lemma DivMonotone(a: real, b: real, n: real)
    requires n > 0.0 && a <= b
    ensures a / n <= b / n
  {
    assert b / n - a / n == (b - a) / n;
  }

  /** The mean of a constant sequence is that constant. */
  lemma {:induction false} MeanOfConstant(values: seq<real>, c: real)
    requires |values| > 0
    requires forall i :: 0 <= i < |values| ==> values[i] == c
    ensures Mean(values) == c
  {
    SumBounds(values, c, c);
  }

  // ------------------------------------------------------------------ Clamp

  /**
   * What `Clamp(value, minimum, maximum)` returns: first a value below the
   * minimum is raised to it, then a value above the maximum is lowered to it.
   * So the result is the value when it lies in range, the minimum when the value
   * is below a consistent range, and the maximum whenever the value is above the
   * maximum or the range is inverted (minimum > maximum): the second comparison
   * has the last word.
   */
  ghost predicate ClampedTo(r: real, value: real, minimum: real, maximum: real)
  {
    && (minimum <= value <= maximum ==> r == value)
    && (value < minimum <= maximum ==> r == minimum)
    && (value > maximum ==> r == maximum)
    && (minimum > maximum ==> r == maximum)
  }

  /** `Clamp(float, float, float)`: the two sequential reassignments of `value`. */
  method Clamp(value: real, minimum: real, maximum: real) returns (r: real)
    ensures minimum <= maximum ==> minimum <= r <= maximum
    ensures r <= maximum
    ensures ClampedTo(r, value, minimum, maximum)
  {
    r := value;
    r := if r < minimum then minimum else r;
    r := if r > maximum then maximum else r;
  }

  /** `Clamp(Vector2, float, float)`: the scalar clamp applied to X, then to Y. */
  method ClampVector(value: Vector2, minimum: real, maximum: real) returns (r: Vector2)
    ensures ClampedTo(r.x, value.x, minimum, maximum)
    ensures ClampedTo(r.y, value.y, minimum, maximum)
  {
    r := value;
    var cx := Clamp(r.x, minimum, maximum);
    r := r.(x := cx);
    var cy := Clamp(r.y, minimum, maximum);
    r := r.(y := cy);
  }

  /** `ClampedTo` pins the result down: the two overloads agree with one function of the inputs. */
  lemma ClampedToUnique(r1: real, r2: real, value: real, minimum: real, maximum: real)
    requires ClampedTo(r1, value, minimum, maximum)
    requires ClampedTo(r2, value, minimum, maximum)
    ensures r1 == r2
  {
  }

  // ------------------------------------------------------------- Integration

  /**
   * The scalar (per-axis) reading of `IntegrateVelocityVerlet`: `v*dt + 0.5*a*dt²`.
   * Under a constant acceleration this is the mean of the velocities at the start
   * and at the end of the frame, times its length; a zero-length frame moves nothing.
   */
  function VerletDelta(velocity: real, dt: real, acceleration: real): (r: real)
    ensures r == (velocity + (velocity + acceleration * dt)) / 2.0 * dt
    ensures dt == 0.0 ==> r == 0.0
  {
    velocity * dt + 0.5 * acceleration * Square(dt)
  }

  /**
   * `IntegrateVelocityVerlet(Vector2, float, Vector2)`, as the engine's operators
   * compute it: the scalar formula applied to each axis independently.
   */
  function IntegrateVelocityVerlet(velocity: Vector2, dt: real, acceleration: Vector2): (r: Vector2)
    ensures r == Vector2(VerletDelta(velocity.x, dt, acceleration.x), VerletDelta(velocity.y, dt, acceleration.y))
  {
    Add(Scale(velocity, dt), Scale(Scale(acceleration, 0.5), Square(dt)))
  }

  /**
   * Under a constant acceleration the displacement is exact: a frame of length
   * dt1 followed by one of length dt2, started with the velocity the first frame
   * ends with, covers what a single frame of length dt1 + dt2 covers.
   */
  lemma VerletDeltaSplits(velocity: real, acceleration: real, dt1: real, dt2: real)
    ensures VerletDelta(velocity, dt1, acceleration)
          + VerletDelta(velocity + acceleration * dt1, dt2, acceleration)
         == VerletDelta(velocity, dt1 + dt2, acceleration)
  {
    calc {
      VerletDelta(velocity, dt1, acceleration) + VerletDelta(velocity + acceleration * dt1, dt2, acceleration);
      velocity * dt1 + 0.5 * acceleration * (dt1 * dt1)
        + (velocity + acceleration * dt1) * dt2 + 0.5 * acceleration * (dt2 * dt2);
      velocity * (dt1 + dt2) + 0.5 * acceleration * (dt1 * dt1 + 2.0 * dt1 * dt2 + dt2 * dt2);
      velocity * (dt1 + dt2) + 0.5 * acceleration * ((dt1 + dt2) * (dt1 + dt2));
      VerletDelta(velocity, dt1 + dt2, acceleration);
    }
  }

  // -------------------------------------------------------------------- Drag

  /**
   * The scalar (per-axis) reading of `CalculateDragForceOnObject`: `-1 * (ρ·Cd·A / 2) * v²`.
   * With non-negative coefficients it never points the positive way, and a body
   * at rest feels none.
   */
  function Drag(fluidDensity: real, dragCoefficient: real, surfaceArea: real, velocity: real): (r: real)
    ensures 0.0 <= fluidDensity && 0.0 <= dragCoefficient && 0.0 <= surfaceArea ==> r <= 0.0
    ensures velocity == 0.0 ==> r == 0.0
  {
    -1.0 * ((fluidDensity * dragCoefficient * surfaceArea) / 2.0) * (velocity * velocity)
  }

  /**
   * `CalculateDragForceOnObject(float, float, float, Vector2)`, as the engine's
   * operators compute it: the scalar formula applied to each axis independently.
   */
  function CalculateDragForceOnObject(fluidDensity: real, dragCoefficient: real, surfaceArea: real,
                                      velocity: Vector2): (r: Vector2)
    ensures r == Vector2(Drag(fluidDensity, dragCoefficient, surfaceArea, velocity.x),
                         Drag(fluidDensity, dragCoefficient, surfaceArea, velocity.y))
  {
    Scale(Mul(velocity, velocity), -1.0 * ((fluidDensity * dragCoefficient * surfaceArea) / 2.0))
  }

  /**
   * The drag is the same for v and -v: the velocity's own sign is discarded, so
   * a body moving in the negative direction is pushed further that way.
   */
  lemma DragIgnoresDirection(fluidDensity: real, dragCoefficient: real, surfaceArea: real, velocity: real)
    ensures Drag(fluidDensity, dragCoefficient, surfaceArea, -velocity)
         == Drag(fluidDensity, dragCoefficient, surfaceArea, velocity)
  {
    assert (-velocity) * (-velocity) == velocity * velocity;
  }
}
