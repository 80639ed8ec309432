/**
 Obstacles on the plane and the collision predicate of the simulator.
 Every obstacle is a circle; a point is blocked when it lies within the
 obstacle's radius plus a fixed clearance of its centre.
 */
module Geometry {

  /** A point of the plane; the simulator's axes are x (right) and z (up). */
  datatype Point = Point(x: real, z: real)

  datatype Obstacle = Obstacle(x: real, z: real, radius: real)

  /** Half-width of the robot, added to every obstacle radius. */
  const Clearance: real := 0.2

  /** Obstacle centres are drawn uniformly from [-FieldHalfWidth, FieldHalfWidth] on each axis. */
  const FieldHalfWidth: real := 8.0
  const MinRadius: real := 0.5
  const MaxRadius: real := 1.2

  function SquaredDistance(o: Obstacle, x: real, z: real): real {
    (o.x - x) * (o.x - x) + (o.z - z) * (o.z - z)
  }

  /** The distance from (x, z) to the centre of `o` is at most `o.radius + Clearance`,
      stated without a square root. */
  predicate Blocks(o: Obstacle, x: real, z: real) {
    var reach := o.radius + Clearance;
    0.0 <= reach && SquaredDistance(o, x, z) <= reach * reach
  }

  /** `Blocks` is the Euclidean test `sqrt(d2) <= radius + Clearance`: for the
      non-negative square root `d` of the squared distance, the two agree. */
  lemma ClearanceIsEuclidean(o: Obstacle, x: real, z: real, d: real)
    requires 0.0 <= d && d * d == SquaredDistance(o, x, z)
    ensures Blocks(o, x, z) <==> d <= o.radius + Clearance
  {
    var reach := o.radius + Clearance;
    if d <= reach {
      assert d * d <= d * reach <= reach * reach;
    } else if 0.0 <= reach {
      SquareExceeds(reach, d);
    }
  }

  /** `check_collision`: true iff some obstacle blocks (x, z). */
  function CheckCollision(obstacles: seq<Obstacle>, x: real, z: real): (hit: bool)
    ensures hit <==> exists i :: 0 <= i < |obstacles| && Blocks(obstacles[i], x, z)
  {
    if obstacles == [] then false
    else Blocks(obstacles[0], x, z) || CheckCollision(obstacles[1..], x, z)
  }

  /** An obstacle as `generate_obstacles` draws it. */
  predicate InField(o: Obstacle) {
    && -FieldHalfWidth <= o.x <= FieldHalfWidth
    && -FieldHalfWidth <= o.z <= FieldHalfWidth
    && MinRadius <= o.radius <= MaxRadius
  }

  /** What `generate_obstacles(count)` can return: `range(count)` yields no
      element for a negative count, and each obstacle is drawn in the field. */
  predicate Generated(count: int, obstacles: seq<Obstacle>) {
    && |obstacles| == (if count < 0 then 0 else count)
    && forall i :: 0 <= i < |obstacles| ==> InField(obstacles[i])
  }

  /** Squared reach of a generated obstacle lies in [0.7^2, 1.4^2]. */
  lemma ReachBounds(o: Obstacle)
    requires InField(o)
    ensures 0.49 <= (o.radius + Clearance) * (o.radius + Clearance) <= 1.96
  {
    var reach := o.radius + Clearance;
    assert 0.7 <= reach <= 1.4;
    assert 0.7 * 0.7 <= 0.7 * reach <= reach * reach;
    assert reach * reach <= 1.4 * reach <= 1.4 * 1.4;
  }

  /** Any generated obstacle blocks every point within 0.7 of its centre. */
  lemma {:induction false} NearCentreBlocked(obstacles: seq<Obstacle>, i: nat, x: real, z: real)
    requires forall j :: 0 <= j < |obstacles| ==> InField(obstacles[j])
    requires i < |obstacles|
    requires SquaredDistance(obstacles[i], x, z) <= 0.49
    ensures CheckCollision(obstacles, x, z)
  {
    ReachBounds(obstacles[i]);
    assert Blocks(obstacles[i], x, z);
  }

  lemma PositiveProduct(p: real, q: real)
    requires 0.0 < p && 0.0 < q
    ensures 0.0 < p * q
  {
  }

  /** Squaring is strictly monotone on non-negative numbers. */
  lemma SquareMonotone(a: real, m: real)
    requires 0.0 <= a < m
    ensures m * m > a * a
  {
    var d := (m - a) * (m + a);
    assert m * m - a * a == d;
    PositiveProduct(m - a, m + a);
  }

  /** Squaring is strictly monotone on magnitudes: |v| > a >= 0 gives v * v > a * a. */
  lemma SquareExceeds(a: real, v: real)
    requires 0.0 <= a && (v > a || v < -a)
    ensures v * v > a * a
  {
    if v > a {
      SquareMonotone(a, v);
    } else {
      SquareMonotone(a, -v);
      assert v * v == (-v) * (-v);
    }
  }

  /** A generated obstacle does not reach a point more than 1.4 from its centre along an axis. */
  lemma FarFromObstacle(o: Obstacle, x: real, z: real)
    requires InField(o)
    requires o.x - x > 1.4 || o.x - x < -1.4 || o.z - z > 1.4 || o.z - z < -1.4
    ensures !Blocks(o, x, z)
  {
    ReachBounds(o);
    if o.x - x > 1.4 || o.x - x < -1.4 {
      SquareExceeds(1.4, o.x - x);
    } else {
      SquareExceeds(1.4, o.z - z);
    }
  }

  /** No generated obstacle reaches a point more than 9.4 = 8 + 1.2 + 0.2 from the
      origin along either axis. */
  lemma {:induction false} FarPointsFree(obstacles: seq<Obstacle>, x: real, z: real)
    requires forall j :: 0 <= j < |obstacles| ==> InField(obstacles[j])
    requires x > 9.4 || x < -9.4 || z > 9.4 || z < -9.4
    ensures !CheckCollision(obstacles, x, z)
  {
    forall i | 0 <= i < |obstacles|
      ensures !Blocks(obstacles[i], x, z)
    {
      FarFromObstacle(obstacles[i], x, z);
    }
  }
}
