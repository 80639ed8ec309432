/**
 The simulator's state and the handlers that change it: `toggle_noise`,
 `reset_sim`, `move_robot`, `handle_text_input`, and the bookkeeping of
 `render_env` (scan hits) and `render_slam_map` (palette counter, displayed hits).
 Random draws are parameters: the obstacles of a reset satisfy `Generated`,
 and the two noise draws of a move are `Jitter` values.
 */
module Simulator {
  import opened Optional
  import opened Text
  import opened Geometry
  import opened Motion
  import opened Scan

  /** The module-level globals of the simulator (the auto-mode flag aside). */
  datatype Sim = Sim(
    pose: Pose,
    trajectory: seq<Point>,
    noise: bool,
    obstacles: seq<Obstacle>,
    hits: seq<Point>,
    colorIndex: nat)

  const Origin: Point := Point(0.0, 0.0)
  const StartPose: Pose := Pose(0.0, 0.0, 0)

  /** `generate_obstacles(10)` at start-up. */
  const StartObstacles: int := 10

  /** Bound of `random.uniform(-0.1, 0.1)`. */
  const NoiseBound: real := 0.1

  /** One draw of `random.uniform(-0.1, 0.1)`. */
  type Jitter = r: real | -NoiseBound <= r <= NoiseBound witness 0.0

  /** The status `move_robot` reports. */
  datatype Outcome = Moved(direction: Direction) | Collision | InvalidKey

  /** The state when the program starts: noise on, ten generated obstacles. */
  function Boot(drawn: seq<Obstacle>): (s: Sim)
    requires Generated(StartObstacles, drawn)
    ensures s.pose == StartPose && s.trajectory == [Origin] && s.hits == [] && s.colorIndex == 0
    ensures s.noise
    ensures |s.obstacles| == 10 && forall i :: 0 <= i < |s.obstacles| ==> InField(s.obstacles[i])
  {
    Sim(StartPose, [Origin], true, drawn, [], 0)
  }

  /** `toggle_noise`: flips the noise flag and touches nothing else. */
  function ToggleNoise(s: Sim): (r: Sim)
    ensures r.noise != s.noise
    ensures r.(noise := s.noise) == s
  {
    s.(noise := !s.noise)
  }

  /** Toggling twice restores the original state. */
  lemma ToggleNoiseInvolution(s: Sim)
    ensures ToggleNoise(ToggleNoise(s)) == s
  {
  }

  /** Python's `int()` on a number: truncation toward zero. */
  function Truncate(c: real): (n: int)
    ensures 0.0 <= c ==> 0 <= n && n as real <= c < n as real + 1.0
    ensures c < 0.0 ==> n <= 0 && n as real - 1.0 < c <= n as real
  {
    if 0.0 <= c then c.Floor else -((-c).Floor)
  }

  /** `reset_sim(count)` before it re-renders: the pose, trajectory, hits and palette
      counter return to their start values and `int(count)` obstacles are drawn
      (none for a negative count; the count is not checked against 1..20).
      The noise flag survives. */
  function ResetSim(s: Sim, count: real, drawn: seq<Obstacle>): (r: Sim)
    requires Generated(Truncate(count), drawn)
    ensures r.pose == StartPose && r.trajectory == [Origin] && r.hits == [] && r.colorIndex == 0
    ensures r.noise == s.noise
    ensures r.obstacles == drawn
    ensures |r.obstacles| == if count < 1.0 then 0 else count.Floor
    ensures forall i :: 0 <= i < |r.obstacles| ==> InField(r.obstacles[i])
  {
    Sim(StartPose, [Origin], s.noise, drawn, [], 0)
  }

  /** A reset forgets everything about the state before it except the noise flag. */
  lemma ResetForgetsHistory(s1: Sim, s2: Sim, count: real, drawn: seq<Obstacle>)
    requires Generated(Truncate(count), drawn)
    requires s1.noise == s2.noise
    ensures ResetSim(s1, count, drawn) == ResetSim(s2, count, drawn)
  {
  }

  /** The trajectory sample logged at `p`: `p` itself with noise off, `p` offset by
      the two draws with noise on. */
  function Logged(p: Point, noise: bool, jx: Jitter, jz: Jitter): (q: Point)
    ensures !noise ==> q == p
    ensures noise ==> -NoiseBound <= q.x - p.x <= NoiseBound && -NoiseBound <= q.z - p.z <= NoiseBound
  {
    if noise then Point(p.x + jx, p.z + jz) else p
  }

  /** `move_robot(token)` before it re-renders. An unrecognised token changes nothing.
      A recognised one sets the heading first; then, if the target is blocked, the
      position and trajectory stay as they were, and otherwise the robot moves to
      the free target and exactly one sample is appended to the trajectory. */
  function MoveRobot(s: Sim, token: string, jx: Jitter, jz: Jitter): (r: (Sim, Outcome))
    ensures ParseKey(token).None? ==> r.0 == s && r.1 == InvalidKey
    ensures ParseKey(token).Some? ==>
              var d := ParseKey(token).value;
              var t := Target(s.pose, d);
              && r.0.pose.angle == HeadingOf(d)
              && r.0.(pose := s.pose, trajectory := s.trajectory) == s
              && (CheckCollision(s.obstacles, t.x, t.z) ==>
                    && r.1 == Collision
                    && r.0.pose.Position() == s.pose.Position()
                    && r.0.trajectory == s.trajectory)
              && (!CheckCollision(s.obstacles, t.x, t.z) ==>
                    && r.1 == Moved(d)
                    && r.0.pose.Position() == t
                    && |r.0.trajectory| == |s.trajectory| + 1
                    && r.0.trajectory[..|s.trajectory|] == s.trajectory)
    ensures r.1.Moved? ==> !CheckCollision(r.0.obstacles, r.0.pose.x, r.0.pose.z)
    ensures r.1.Moved? ==> r.0.trajectory[|r.0.trajectory| - 1] == Logged(r.0.pose.Position(), s.noise, jx, jz)
  {
    match ParseKey(token)
    case None => (s, InvalidKey)
    case Some(d) =>
      var turned := s.(pose := s.pose.(angle := HeadingOf(d)));
      var t := Target(s.pose, d);
      if CheckCollision(s.obstacles, t.x, t.z) then (turned, Collision)
      else
        var moved := turned.(pose := Pose(t.x, t.z, HeadingOf(d)));
        (moved.(trajectory := s.trajectory + [Logged(t, s.noise, jx, jz)]), Moved(d))
  }

  /** Lower- and upper-case forms of a token move the robot identically. */
  lemma MoveIgnoresCase(s: Sim, t1: string, t2: string, jx: Jitter, jz: Jitter)
    requires Upper(t1) == Upper(t2)
    ensures MoveRobot(s, t1, jx, jz) == MoveRobot(s, t2, jx, jz)
  {
    ParseKeyIgnoresCase(t1, t2);
  }

  /** `handle_text_input(text)`: `move_robot` on the stripped, upper-cased text, which
      is `move_robot` on the stripped text since `move_robot` upper-cases again. */
  function HandleTextInput(s: Sim, text: string, jx: Jitter, jz: Jitter): (r: (Sim, Outcome))
    ensures r == MoveRobot(s, Strip(text), jx, jz)
  {
    ParseUpperIsParse(Strip(text));
    MoveRobot(s, Upper(Strip(text)), jx, jz)
  }

  /** Text input tolerates leading whitespace that a key passed straight to
      `move_robot` does not: a recognised key preceded by a whitespace character is
      invalid for `move_robot` but moves the robot as the key alone when typed. */
  lemma {:induction false} TextInputStripsPadding(s: Sim, c: char, key: string, jx: Jitter, jz: Jitter)
    requires IsSpace(c) && ParseKey(key).Some?
    ensures MoveRobot(s, [c] + key, jx, jz).1 == InvalidKey
    ensures HandleTextInput(s, [c] + key, jx, jz) == MoveRobot(s, key, jx, jz)
  {
    var padded := [c] + key;
    RecognisedKeysAreSingleCharacters(key);
    assert ParseKey(padded) == None by {
      if ParseKey(padded).Some? {
        RecognisedKeysAreSingleCharacters(padded);
      }
    }
    assert !IsSpace(key[0]) by {
      assert Upper(key)[0] == UpperChar(key[0]);
    }
    assert Strip(padded) == key by {
      assert padded[1..] == key;
      StripDropsLeadingSpace(padded);
      StripKeepsTrimmed(key);
    }
  }

  /** The scan of `render_env`: the new hits are appended to the buffer, one at most
      per ray, each the first blocked sample of some ray cast from the robot;
      nothing else changes. */
  function RenderEnv(s: Sim, rays: seq<Ray>): (r: Sim)
    ensures r.(hits := s.hits) == s
    ensures |s.hits| <= |r.hits| <= |s.hits| + |rays|
    ensures r.hits[..|s.hits|] == s.hits
    ensures forall i :: |s.hits| <= i < |r.hits| ==>
              exists j :: 0 <= j < |rays| && RayHit(s.obstacles, s.pose.Position(), rays[j]) == Some(r.hits[i])
    ensures forall i :: |s.hits| <= i < |r.hits| ==> CheckCollision(s.obstacles, r.hits[i].x, r.hits[i].z)
  {
    var found := ScanHits(s.obstacles, s.pose.Position(), rays);
    var r := s.(hits := s.hits + found);
    ScanHitsBlocked(s.obstacles, s.pose.Position(), rays);
    assert forall i :: |s.hits| <= i < |r.hits| ==> r.hits[i] == found[i - |s.hits|];
    r
  }

  /** The scan loses no ray: the first hit of every ray cast from the robot is
      among the hits the scan appends. */
  lemma RenderEnvComplete(s: Sim, rays: seq<Ray>)
    ensures forall j :: 0 <= j < |rays| && RayHit(s.obstacles, s.pose.Position(), rays[j]).Some? ==>
              RayHit(s.obstacles, s.pose.Position(), rays[j]).value in RenderEnv(s, rays).hits[|s.hits|..]
  {
    ScanHitsComplete(s.obstacles, s.pose.Position(), rays);
    assert RenderEnv(s, rays).hits[|s.hits|..] == ScanHits(s.obstacles, s.pose.Position(), rays);
  }

  /** What `render_slam_map` draws: the trajectory, and the most recent hits in one
      palette colour when there are any. */
  datatype MapView = MapView(path: seq<Point>, shown: seq<Point>, color: Option<Color>)

  /** `render_slam_map`: with a non-empty hit buffer it shows the last
      `DisplayedHits` hits in the current palette colour and advances the palette
      counter by one; with an empty buffer it shows no hits and changes nothing. */
  function RenderSlamMap(s: Sim): (r: (Sim, MapView))
    ensures r.1.path == s.trajectory
    ensures s.hits == [] ==> r.0 == s && r.1.shown == [] && r.1.color == None
    ensures s.hits != [] ==>
              && r.0 == s.(colorIndex := s.colorIndex + 1)
              && r.1.color == Some(PaletteColor(s.colorIndex))
              && |r.1.shown| == (if |s.hits| < DisplayedHits then |s.hits| else DisplayedHits)
              && r.1.shown == s.hits[|s.hits| - |r.1.shown|..]
  {
    if s.hits == [] then (s, MapView(s.trajectory, [], None))
    else (s.(colorIndex := s.colorIndex + 1),
          MapView(s.trajectory, Recent(s.hits, DisplayedHits), Some(PaletteColor(s.colorIndex))))
  }

  /** Every handler but `toggle_noise` returns `render_env(), render_slam_map()`,
      evaluated in that order. */
  function Refresh(s: Sim, rays: seq<Ray>): (r: (Sim, MapView))
    ensures r.0.(hits := s.hits, colorIndex := s.colorIndex) == s
    ensures |s.hits| <= |r.0.hits| <= |s.hits| + |rays| && r.0.hits[..|s.hits|] == s.hits
    ensures r.0.colorIndex == (if r.0.hits == [] then s.colorIndex else s.colorIndex + 1)
    ensures r.1.path == s.trajectory
  {
    RenderSlamMap(RenderEnv(s, rays))
  }

  /** A re-render of a state with hits shows them in the current colour and advances
      the counter; the buffer stays non-empty. */
  lemma RefreshWithHits(s: Sim, rays: seq<Ray>)
    requires s.hits != []
    ensures Refresh(s, rays).0.hits != []
    ensures Refresh(s, rays).0.colorIndex == s.colorIndex + 1
    ensures Refresh(s, rays).1.color == Some(PaletteColor(s.colorIndex))
  {
    var e := RenderEnv(s, rays);
    assert e.colorIndex == s.colorIndex && |e.hits| >= |s.hits|;
  }

  /** With an obstacle of radius 0.5 centred at (2, 0): from the origin, D moves the
      robot to (1, 0); a second D targets (2, 0), which is blocked, so the robot stays
      at (1, 0). A blocked W from there still turns the robot to heading 90. */
  lemma BlockedMoveStillTurns(jx: Jitter, jz: Jitter)
    ensures var s := Sim(StartPose, [Origin], false, [Obstacle(2.0, 0.0, 0.5)], [], 0);
            var first := MoveRobot(s, "D", jx, jz);
            var second := MoveRobot(first.0, "d", jx, jz);
            && first.1 == Moved(East) && first.0.pose == Pose(1.0, 0.0, 0)
            && first.0.trajectory == [Origin, Point(1.0, 0.0)]
            && second.1 == Collision && second.0 == first.0
            && MoveRobot(first.0.(obstacles := [Obstacle(1.0, 1.0, 0.5)]), "W", jx, jz).0.pose == Pose(1.0, 0.0, 90)
  {
    var obstacle := Obstacle(2.0, 0.0, 0.5);
    assert !Blocks(obstacle, 1.0, 0.0);
    assert Blocks(obstacle, 2.0, 0.0);
    assert Upper("D") == "D" && Upper("d") == "D" && Upper("W") == "W";
    assert Blocks(Obstacle(1.0, 1.0, 0.5), 1.0, 1.0);
  }

  /** Nothing keeps the robot's start position free: a reset may draw an obstacle that
      covers the origin, leaving the robot inside it. */
  lemma ResetMayStartInsideObstacle(s: Sim)
    ensures Generated(Truncate(1.0), [Obstacle(0.0, 0.0, 0.5)])
    ensures var r := ResetSim(s, 1.0, [Obstacle(0.0, 0.0, 0.5)]);
            CheckCollision(r.obstacles, r.pose.x, r.pose.z)
  {
    assert Truncate(1.0) == 1;
    assert Blocks(Obstacle(0.0, 0.0, 0.5), 0.0, 0.0);
  }
}
