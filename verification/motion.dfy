/**
 Direction keys, the robot's pose and the one-unit step of `move_robot`.
 W moves towards +z, S towards -z, A towards -x and D towards +x.
 */
module Motion {
  import opened Optional
  import opened Text
  import opened Geometry

  datatype Direction = North | South | West | East

  /** The key that selects each direction. */
  function KeyOf(d: Direction): string {
    match d
    case North => "W"
    case South => "S"
    case West => "A"
    case East => "D"
  }

  /** The `if`/`elif` chain of `move_robot` on `direction.upper()`. */
  function ParseKey(token: string): (r: Option<Direction>)
    ensures forall d :: r == Some(d) <==> Upper(token) == KeyOf(d)
  {
    var key := Upper(token);
    if key == "W" then Some(North)
    else if key == "S" then Some(South)
    else if key == "A" then Some(West)
    else if key == "D" then Some(East)
    else None
  }

  /** Every key selects its own direction, typed in either case. */
  lemma KeysRoundTrip(d: Direction)
    ensures ParseKey(KeyOf(d)) == Some(d)
    ensures ParseKey([(KeyOf(d)[0] as int + 32) as char]) == Some(d)
  {
    var lower := [(KeyOf(d)[0] as int + 32) as char];
    assert Upper(lower) == KeyOf(d);
  }

  /** Tokens with the same upper-case form select the same direction; in particular
      upper-casing a token before parsing it changes nothing. */
  lemma ParseKeyIgnoresCase(t1: string, t2: string)
    requires Upper(t1) == Upper(t2)
    ensures ParseKey(t1) == ParseKey(t2)
  {
  }

  lemma ParseUpperIsParse(t: string)
    ensures ParseKey(Upper(t)) == ParseKey(t)
  {
    UpperIdempotent(t);
  }

  /** Only one-character tokens name a direction. */
  lemma {:induction false} RecognisedKeysAreSingleCharacters(t: string)
    requires ParseKey(t).Some?
    ensures |t| == 1
  {
    assert |Upper(t)| == |KeyOf(ParseKey(t).value)| == 1;
  }

  /** The pose: position and heading in degrees. */
  datatype Pose = Pose(x: real, z: real, angle: int) {
    function Position(): Point {
      Point(x, z)
    }
  }

  /** The value `move_robot` assigns to `pose["angle"]` for each direction. */
  function HeadingOf(d: Direction): int {
    match d
    case North => 90
    case South => -90
    case West => 180
    case East => 0
  }

  /** The unit vector of a heading that is a multiple of a right angle, angles read
      counter-clockwise from +x. */
  function UnitVector(degrees: int): (u: Point)
    requires degrees % 90 == 0
    ensures u.x * u.x + u.z * u.z == 1.0
  {
    var turn := degrees % 360;
    if turn == 0 then Point(1.0, 0.0)
    else if turn == 90 then Point(0.0, 1.0)
    else if turn == 180 then Point(-1.0, 0.0)
    else Point(0.0, -1.0)
  }

  /** `step = 1`. */
  const StepLength: real := 1.0

  /** The point `move_robot` tests and, when it is free, moves to: one step along
      exactly one axis, in the direction the new heading points. */
  function Target(p: Pose, d: Direction): (t: Point)
    ensures HeadingOf(d) % 90 == 0
    ensures t == Point(p.x + UnitVector(HeadingOf(d)).x, p.z + UnitVector(HeadingOf(d)).z)
    ensures (t.x == p.x) != (t.z == p.z)
  {
    match d
    case North => Point(p.x, p.z + StepLength)
    case South => Point(p.x, p.z - StepLength)
    case West => Point(p.x - StepLength, p.z)
    case East => Point(p.x + StepLength, p.z)
  }
}
