/**
 * The physics body of the game's per-frame `Update`: the forces on the ball are
 * summed, its height advances by a velocity-Verlet step, its vertical velocity
 * by the mean of the new and the stored acceleration, and a ball moving down
 * past the bottom edge is put back on the edge with its velocity scaled by the
 * restitution coefficient. Only the Y axis moves; X stays where it started.
 *
 * The frontal area `_A` involves pi and is taken as a given non-negative
 * constant; the screen height is a parameter standing for the back buffer.
 */
module Physics {
  import opened Util

  /** The state one frame changes: `_position`, `_velocityY`, `_accelerationY`. */
  datatype Body = Body(position: Vector2, velocityY: real, accelerationY: real)

  /** The coefficients a frame reads. */
  datatype Coefficients = Coefficients(mass: real, radius: real, deltaTime: real, gravity: real,
                                       restitution: real, density: real, dragCoefficient: real,
                                       area: real, screenHeight: int)

  /**
   * `allForces`: the weight plus the drag at the current vertical velocity. With
   * non-negative drag factors the drag only ever takes away from the weight, and
   * a ball at rest feels its weight alone.
   */
  function NetForce(c: Coefficients, velocityY: real): (r: real)
    ensures 0.0 <= c.density && 0.0 <= c.dragCoefficient && 0.0 <= c.area ==> r <= c.mass * c.gravity
    ensures velocityY == 0.0 ==> r == c.mass * c.gravity
  {
    c.mass * c.gravity + Drag(c.density, c.dragCoefficient, c.area, velocityY)
  }

  /** Everything a frame does before the collision check. `_accelerationY` is read, never written. */
  function Integrate(b: Body, c: Coefficients): (r: Body)
    requires c.mass != 0.0
    ensures r.accelerationY == b.accelerationY && r.position.x == b.position.x
  {
    var newAccelerationY := NetForce(c, b.velocityY) / c.mass;
    Body(b.position.(y := b.position.y + VerletDelta(b.velocityY, c.deltaTime, b.accelerationY) * 100.0),
         b.velocityY + Mean([newAccelerationY, b.accelerationY]) * c.deltaTime,
         b.accelerationY)
  }

  /** The ball reaches past the bottom edge while still moving down. */
  predicate Penetrates(b: Body, c: Coefficients)
  {
    b.position.y + c.radius > c.screenHeight as real && b.velocityY > 0.0
  }

  /**
   * The collision response: scale the velocity by the restitution and put the
   * ball on the edge. Whatever it is given, a non-positive restitution leaves a
   * ball that no longer penetrates; a ball that does not penetrate is left alone.
   */
  function Collide(b: Body, c: Coefficients): (r: Body)
    ensures r.accelerationY == b.accelerationY && r.position.x == b.position.x
    ensures c.restitution <= 0.0 ==> !Penetrates(r, c)
    ensures !Penetrates(b, c) ==> r == b
  {
    if Penetrates(b, c)
    then Body(b.position.(y := c.screenHeight as real - c.radius), b.velocityY * c.restitution, b.accelerationY)
    else b
  }

  /**
   * One frame: the integration, then the collision response. The stored
   * acceleration and the horizontal position come out as they went in.
   */
  function Step(b: Body, c: Coefficients): (r: Body)
    requires c.mass != 0.0
    ensures r.accelerationY == b.accelerationY && r.position.x == b.position.x
  {
    Collide(Integrate(b, c), c)
  }

  /** `n` frames. */
  function Steps(b: Body, c: Coefficients, n: nat): Body
    requires c.mass != 0.0
  {
    if n == 0 then b else Step(Steps(b, c, n - 1), c)
  }

  // ------------------------------------------------------------ one frame

  /**
   * The height moves by 100 times the Verlet displacement computed from the
   * velocity and acceleration held before the frame, and the velocity by dt
   * times the midpoint of the new acceleration (net force over mass) and the
   * stored one.
   */
  lemma IntegrateMoves(b: Body, c: Coefficients)
    requires c.mass != 0.0
    ensures Integrate(b, c).position.y
         == b.position.y + 100.0 * (b.velocityY * c.deltaTime + 0.5 * b.accelerationY * c.deltaTime * c.deltaTime)
    ensures Integrate(b, c).velocityY
         == b.velocityY + c.deltaTime * ((NetForce(c, b.velocityY) / c.mass + b.accelerationY) / 2.0)
  {
    MeanOfPair(NetForce(c, b.velocityY) / c.mass, b.accelerationY);
  }

  /** Over any number of frames the acceleration keeps its initial value and X never moves. */
  lemma {:induction false} StepsKeepAccelerationAndX(b: Body, c: Coefficients, n: nat)
    requires c.mass != 0.0
    ensures Steps(b, c, n).accelerationY == b.accelerationY
    ensures Steps(b, c, n).position.x == b.position.x
  {
    if n > 0 {
      StepsKeepAccelerationAndX(b, c, n - 1);
    }
  }

  /**
   * A ball that ends the integration past the bottom edge and moving down has
   * its velocity multiplied by the restitution coefficient and sits exactly on
   * the edge; with a non-positive coefficient it then no longer moves down.
   */
  lemma CollisionResponse(b: Body, c: Coefficients)
    requires c.mass != 0.0
    requires Penetrates(Integrate(b, c), c)
    ensures Step(b, c).velocityY == Integrate(b, c).velocityY * c.restitution
    ensures Step(b, c).position.y == c.screenHeight as real - c.radius
    ensures c.restitution <= 0.0 ==> !Penetrates(Step(b, c), c)
  {
  }

  /**
   * Without penetration nothing is corrected: in particular a ball moving up or
   * at rest is left past the edge if it is there.
   */
  lemma NoCorrectionWithoutPenetration(b: Body, c: Coefficients)
    requires c.mass != 0.0
    requires !Penetrates(Integrate(b, c), c)
    ensures Step(b, c) == Integrate(b, c)
  {
  }

  /** With no gravity, no velocity and no acceleration a frame changes nothing. */
  lemma NoMotionBaseline(b: Body, c: Coefficients)
    requires c.mass != 0.0
    requires c.gravity == 0.0 && b.velocityY == 0.0 && b.accelerationY == 0.0
    ensures Step(b, c) == b
  {
    IntegrateMoves(b, c);
    assert Integrate(b, c).position == b.position;
  }

  // ------------------------------------------------- free fall, as written

  /** No drag acts: some drag factor is zero. */
  predicate DragFree(c: Coefficients)
  {
    c.density * c.dragCoefficient * c.area == 0.0
  }

  /** The time n frames of length dt take, summed frame by frame. */
  function Elapsed(n: nat, dt: real): real
  {
    if n == 0 then 0.0 else Elapsed(n - 1, dt) + dt
  }

  lemma {:induction false} ElapsedIsProduct(n: nat, dt: real)
    ensures Elapsed(n, dt) == n as real * dt
  {
    if n > 0 {
      ElapsedIsProduct(n - 1, dt);
    }
  }

  /** `n` frames without the collision check. */
  function Integrations(b: Body, c: Coefficients, n: nat): Body
    requires c.mass != 0.0
  {
    if n == 0 then b else Integrate(Integrations(b, c, n - 1), c)
  }

  /** One drag-free frame with the stored acceleration at 0: the velocity gains g*dt/2. */
  lemma HalfRateFrame(b: Body, c: Coefficients)
    requires c.mass != 0.0 && DragFree(c)
    requires b.accelerationY == 0.0
    ensures Integrate(b, c).accelerationY == 0.0
    ensures Integrate(b, c).velocityY == b.velocityY + c.gravity * c.deltaTime / 2.0
  {
    IntegrateMoves(b, c);
    assert Drag(c.density, c.dragCoefficient, c.area, b.velocityY) == 0.0;
    assert NetForce(c, b.velocityY) / c.mass == c.gravity;
  }

  lemma {:induction false} HalfRateVelocity(b: Body, c: Coefficients, n: nat)
    requires c.mass != 0.0 && DragFree(c)
    requires b.accelerationY == 0.0
    ensures Integrations(b, c, n).accelerationY == 0.0
    ensures Integrations(b, c, n).velocityY == b.velocityY + Elapsed(n, c.gravity * c.deltaTime / 2.0)
  {
    if n > 0 {
      HalfRateVelocity(b, c, n - 1);
      HalfRateFrame(Integrations(b, c, n - 1), c);
    }
  }

  /**
   * Because `_accelerationY` is never stored it stays 0, and the midpoint of the
   * new acceleration g and that 0 is g/2: in free fall the velocity gains only
   * g*dt/2 per frame.
   */
  lemma FreeFallAtHalfRate(b: Body, c: Coefficients, n: nat)
    requires c.mass != 0.0 && DragFree(c)
    requires b.accelerationY == 0.0
    ensures Integrations(b, c, n).accelerationY == 0.0
    ensures Integrations(b, c, n).velocityY == b.velocityY + n as real * (c.gravity * c.deltaTime / 2.0)
  {
    HalfRateVelocity(b, c, n);
    ElapsedIsProduct(n, c.gravity * c.deltaTime / 2.0);
  }

  /** One frame from rest falls short of the exact velocity g*dt whenever g*dt is not zero. */
  lemma FreeFallFallsShort(b: Body, c: Coefficients)
    requires c.mass != 0.0 && DragFree(c)
    requires b.accelerationY == 0.0 && b.velocityY == 0.0
    requires c.gravity * c.deltaTime != 0.0
    ensures Integrate(b, c).velocityY == c.gravity * c.deltaTime / 2.0
    ensures Integrate(b, c).velocityY != c.gravity * c.deltaTime
  {
    HalfRateFrame(b, c);
  }

  // ------------------------------------------------- free fall, corrected

  /** The integration with the new acceleration stored, as the comment above the division describes. */
  function IntegrateStoringAcceleration(b: Body, c: Coefficients): Body
    requires c.mass != 0.0
  {
    var newAccelerationY := NetForce(c, b.velocityY) / c.mass;
    Body(b.position.(y := b.position.y + VerletDelta(b.velocityY, c.deltaTime, b.accelerationY) * 100.0),
         b.velocityY + Mean([newAccelerationY, b.accelerationY]) * c.deltaTime,
         newAccelerationY)
  }

  function IntegrationsStoringAcceleration(b: Body, c: Coefficients, n: nat): Body
    requires c.mass != 0.0
  {
    if n == 0 then b else IntegrateStoringAcceleration(IntegrationsStoringAcceleration(b, c, n - 1), c)
  }

  /** One drag-free frame with the gravity already stored: velocity + g*dt, height + 100 * Verlet displacement. */
  lemma StoredAccelerationFrame(b: Body, c: Coefficients)
    requires c.mass != 0.0 && DragFree(c)
    requires b.accelerationY == c.gravity
    ensures IntegrateStoringAcceleration(b, c).accelerationY == c.gravity
    ensures IntegrateStoringAcceleration(b, c).velocityY == b.velocityY + c.gravity * c.deltaTime
    ensures IntegrateStoringAcceleration(b, c).position.y
         == b.position.y + 100.0 * VerletDelta(b.velocityY, c.deltaTime, c.gravity)
  {
    assert Drag(c.density, c.dragCoefficient, c.area, b.velocityY) == 0.0;
    assert NetForce(c, b.velocityY) / c.mass == c.gravity;
    MeanOfPair(c.gravity, c.gravity);
  }

  /** Without drag the net acceleration is g, whatever the velocity. */
  lemma PrimedIsGravity(b: Body, c: Coefficients)
    requires c.mass != 0.0 && DragFree(c)
    requires b.accelerationY == NetForce(c, b.velocityY) / c.mass
    ensures b.accelerationY == c.gravity
  {
    assert Drag(c.density, c.dragCoefficient, c.area, b.velocityY) == 0.0;
  }

  /**
   * With the acceleration stored, and the stored acceleration primed with the
   * net acceleration at the start (g for a drag-free fall), drag-free motion
   * under gravity follows the closed-form trajectory exactly: after n frames the
   * velocity is v + g*t and the height has moved by 100 * (v*t + g*t²/2), for
   * t = n*dt.
   */
  lemma StoredAccelerationIsExact(b: Body, c: Coefficients, n: nat)
    requires c.mass != 0.0 && DragFree(c)
    requires b.accelerationY == NetForce(c, b.velocityY) / c.mass
    ensures var t := n as real * c.deltaTime;
            && IntegrationsStoringAcceleration(b, c, n).accelerationY == c.gravity
            && IntegrationsStoringAcceleration(b, c, n).velocityY == b.velocityY + c.gravity * t
            && IntegrationsStoringAcceleration(b, c, n).position.y == b.position.y + 100.0 * VerletDelta(b.velocityY, t, c.gravity)
  {
    PrimedIsGravity(b, c);
    StoredGravityIsExact(b, c, n);
  }

  /** The same closed form from a start whose stored acceleration is already g. */
  lemma StoredGravityIsExact(b: Body, c: Coefficients, n: nat)
    requires c.mass != 0.0 && DragFree(c)
    requires b.accelerationY == c.gravity
    ensures var t := n as real * c.deltaTime;
            && IntegrationsStoringAcceleration(b, c, n).accelerationY == c.gravity
            && IntegrationsStoringAcceleration(b, c, n).velocityY == b.velocityY + c.gravity * t
            && IntegrationsStoringAcceleration(b, c, n).position.y == b.position.y + 100.0 * VerletDelta(b.velocityY, t, c.gravity)
  {
    ElapsedIsProduct(n, c.deltaTime);
    StoredAccelerationVelocity(b, c, n);
    StoredAccelerationTrajectory(b, c, n);
  }

  /** The corrected frame from a stored acceleration of 0: the velocity gains g*dt/2 and g is stored. */
  lemma StoreOnlyFirstFrame(b: Body, c: Coefficients)
    requires c.mass != 0.0 && DragFree(c)
    requires b.accelerationY == 0.0
    ensures IntegrateStoringAcceleration(b, c).accelerationY == c.gravity
    ensures IntegrateStoringAcceleration(b, c).velocityY == b.velocityY + c.gravity * c.deltaTime / 2.0
  {
    assert Drag(c.density, c.dragCoefficient, c.area, b.velocityY) == 0.0;
    assert NetForce(c, b.velocityY) / c.mass == c.gravity;
    MeanOfPair(c.gravity, 0.0);
  }

  lemma {:induction false} StoreOnlyVelocity(b: Body, c: Coefficients, n: nat)
    requires c.mass != 0.0 && DragFree(c)
    requires b.accelerationY == 0.0
    requires n >= 1
    ensures IntegrationsStoringAcceleration(b, c, n).accelerationY == c.gravity
    ensures IntegrationsStoringAcceleration(b, c, n).velocityY
         == b.velocityY + c.gravity * Elapsed(n, c.deltaTime) - c.gravity * c.deltaTime / 2.0
  {
    var prev := IntegrationsStoringAcceleration(b, c, n - 1);
    if n == 1 {
      assert prev == b;
      assert Elapsed(1, c.deltaTime) == c.deltaTime;
      StoreOnlyFirstFrame(b, c);
    } else {
      StoreOnlyVelocity(b, c, n - 1);
      StoredAccelerationFrame(prev, c);
      var e := Elapsed(n - 1, c.deltaTime);
      assert Elapsed(n, c.deltaTime) == e + c.deltaTime;
      assert c.gravity * (e + c.deltaTime) == c.gravity * e + c.gravity * c.deltaTime;
    }
  }

  /**
   * Storing the acceleration is not enough on its own from the game's start,
   * where `_accelerationY` is 0: the first frame still averages g with 0, and
   * from then on the velocity stays g*dt/2 behind the exact v + g*n*dt.
   */
  lemma StoreOnlyFromZeroLags(b: Body, c: Coefficients, n: nat)
    requires c.mass != 0.0 && DragFree(c)
    requires b.accelerationY == 0.0
    requires n >= 1
    ensures IntegrationsStoringAcceleration(b, c, n).velocityY
         == b.velocityY + c.gravity * (n as real * c.deltaTime) - c.gravity * c.deltaTime / 2.0
  {
    StoreOnlyVelocity(b, c, n);
    ElapsedIsProduct(n, c.deltaTime);
  }

  /** The height after one more exact frame is still on the closed-form trajectory. */
  lemma TrajectoryExtends(y0: real, v0: real, g: real, t: real, dt: real, y: real, v: real)
    requires v == v0 + g * t
    requires y == y0 + 100.0 * VerletDelta(v0, t, g)
    ensures y + 100.0 * VerletDelta(v, dt, g) == y0 + 100.0 * VerletDelta(v0, t + dt, g)
  {
    VerletDeltaSplits(v0, g, t, dt);
  }

  lemma {:induction false} StoredAccelerationVelocity(b: Body, c: Coefficients, n: nat)
    requires c.mass != 0.0 && DragFree(c)
    requires b.accelerationY == c.gravity
    ensures IntegrationsStoringAcceleration(b, c, n).accelerationY == c.gravity
    ensures IntegrationsStoringAcceleration(b, c, n).velocityY == b.velocityY + c.gravity * Elapsed(n, c.deltaTime)
  {
    if n > 0 {
      var prev := IntegrationsStoringAcceleration(b, c, n - 1);
      StoredAccelerationVelocity(b, c, n - 1);
      StoredAccelerationFrame(prev, c);
    }
  }

  lemma {:induction false} StoredAccelerationTrajectory(b: Body, c: Coefficients, n: nat)
    requires c.mass != 0.0 && DragFree(c)
    requires b.accelerationY == c.gravity
    ensures IntegrationsStoringAcceleration(b, c, n).position.y
         == b.position.y + 100.0 * VerletDelta(b.velocityY, Elapsed(n, c.deltaTime), c.gravity)
  {
    if n > 0 {
      var prev := IntegrationsStoringAcceleration(b, c, n - 1);
      var t := Elapsed(n - 1, c.deltaTime);
      StoredAccelerationTrajectory(b, c, n - 1);
      StoredAccelerationVelocity(b, c, n - 1);
      StoredAccelerationFrame(prev, c);
      TrajectoryExtends(b.position.y, b.velocityY, c.gravity, t, c.deltaTime, prev.position.y, prev.velocityY);
    } else {
    }
  }

  // ----------------------------------------------------------- the game

  /** The fields of the game class that its `Update` reads or writes. */
  class Simulation {
    var position: Vector2
    var velocityY: real
    var accelerationY: real
    var mass: real
    var radius: real
    var deltaTime: real
    var gravity: real
    var restitution: real
    var density: real
    var dragCoefficient: real
    var area: real
    var screenHeight: int

    function State(): Body
      reads this
    {
      Body(position, velocityY, accelerationY)
    }

    function Coeffs(): Coefficients
      reads this
    {
      Coefficients(mass, radius, deltaTime, gravity, restitution, density, dragCoefficient, area, screenHeight)
    }

    /** The field initialisers: ball at (200, 0) at rest, 0.1 kg, radius 50, 0.02 s frames, earth gravity. */
    constructor (area: real, screenHeight: int)
      requires area >= 0.0
      ensures State() == Body(Vector2(200.0, 0.0), 0.0, 0.0)
      ensures Coeffs() == Coefficients(0.1, 50.0, 0.02, 9.807, -0.5, 1.2, 0.47, area, screenHeight)
    {
      position := Vector2(200.0, 0.0);
      velocityY := 0.0;
      accelerationY := 0.0;
      mass := 0.1;
      radius := 50.0;
      deltaTime := 0.02;
      gravity := 9.807;
      restitution := -0.5;
      density := 1.2;
      dragCoefficient := 0.47;
      this.area := area;
      this.screenHeight := screenHeight;
    }

    /** The physics part of `Update`: only the position and the velocity are written. */
    method Update()
      requires mass != 0.0
      modifies this`position, this`velocityY
      ensures State() == Step(old(State()), Coeffs())
    {
      var allForces := 0.0;
      allForces := allForces + mass * gravity;
      allForces := allForces + Drag(density, dragCoefficient, area, velocityY);
      var predictedDeltaY := VerletDelta(velocityY, deltaTime, accelerationY);
      position := position.(y := position.y + predictedDeltaY * 100.0);
      var newAccelerationY := allForces / mass;
      var averageAccelerationY := Average([newAccelerationY, accelerationY]);
      velocityY := velocityY + averageAccelerationY * deltaTime;
      assert allForces == NetForce(Coeffs(), old(velocityY));
      assert State() == Integrate(old(State()), Coeffs());
      if position.y + radius > screenHeight as real && velocityY > 0.0 {
        velocityY := velocityY * restitution;
        position := position.(y := screenHeight as real - radius);
      }
    }
  }
}
