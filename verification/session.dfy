/**
 Sequences of user commands. Each command is one UI callback run to completion:
 a direction button, a typed direction, the reset button (with the obstacles it
 draws) or the noise toggle; the move and reset handlers end by re-rendering.
 */
module Session {
  import opened Text
  import opened Geometry
  import opened Motion
  import opened Scan
  import opened Simulator

  datatype Command =
    | Button(key: string, jx: Jitter, jz: Jitter)
    | TextEntry(text: string, jx: Jitter, jz: Jitter)
    | ResetButton(count: real, drawn: seq<Obstacle>)
    | NoiseButton

  datatype Event = Move(outcome: Outcome) | ResetDone | NoiseSet(on: bool)

  /** A reset's obstacles are what `generate_obstacles(int(count))` can draw. */
  predicate Admissible(c: Command) {
    c.ResetButton? ==> Generated(Truncate(c.count), c.drawn)
  }

  /** One callback: the handler, then (except for the noise toggle) the re-render. */
  function Step(s: Sim, c: Command, rays: seq<Ray>): (r: (Sim, Event))
    requires Admissible(c)
    ensures r.1.Move? <==> c.Button? || c.TextEntry?
    ensures r.1.ResetDone? <==> c.ResetButton?
    ensures r.1 == Move(Collision) || r.1 == Move(InvalidKey) ==> r.0.trajectory == s.trajectory
    ensures r.1.Move? && r.1.outcome.Moved? ==>
              |r.0.trajectory| == |s.trajectory| + 1 && r.0.trajectory[..|s.trajectory|] == s.trajectory
    ensures r.1.ResetDone? ==> r.0.trajectory == [Origin]
    ensures r.1.NoiseSet? ==> r.0.trajectory == s.trajectory && r.1.on == r.0.noise
    ensures !c.ResetButton? ==> r.0.obstacles == s.obstacles
  {
    match c
    case Button(key, jx, jz) =>
      var m := MoveRobot(s, key, jx, jz);
      (Refresh(m.0, rays).0, Move(m.1))
    case TextEntry(text, jx, jz) =>
      var m := HandleTextInput(s, text, jx, jz);
      (Refresh(m.0, rays).0, Move(m.1))
    case ResetButton(count, drawn) =>
      (Refresh(ResetSim(s, count, drawn), rays).0, ResetDone)
    case NoiseButton =>
      var t := ToggleNoise(s);
      (t, NoiseSet(t.noise))
  }

  /** A run of commands from `s`: the final state and one event per command. */
  function Run(s: Sim, cmds: seq<Command>, rays: seq<Ray>): (r: (Sim, seq<Event>))
    requires forall i :: 0 <= i < |cmds| ==> Admissible(cmds[i])
    ensures |r.1| == |cmds|
    decreases |cmds|
  {
    if cmds == [] then (s, [])
    else
      var first := Step(s, cmds[0], rays);
      var rest := Run(first.0, cmds[1..], rays);
      (rest.0, [first.1] + rest.1)
  }

  /** A non-empty run is its first step followed by the run of the rest. */
  lemma RunFirst(s: Sim, cmds: seq<Command>, rays: seq<Ray>)
    requires forall i :: 0 <= i < |cmds| ==> Admissible(cmds[i])
    requires cmds != []
    ensures Run(s, cmds, rays).0 == Run(Step(s, cmds[0], rays).0, cmds[1..], rays).0
    ensures Run(s, cmds, rays).1 == [Step(s, cmds[0], rays).1] + Run(Step(s, cmds[0], rays).0, cmds[1..], rays).1
  {
  }

  /** The trajectory length after one event, from length `n`: one more after a
      successful move, one after a reset, unchanged otherwise. */
  function LengthAfter(n: nat, e: Event): nat {
    match e
    case Move(Moved(_)) => n + 1
    case ResetDone => 1
    case _ => n
  }

  /** The trajectory length the events of a run account for, from `start`. */
  function ExpectedLength(start: nat, events: seq<Event>): nat
    decreases |events|
  {
    if events == [] then start
    else ExpectedLength(LengthAfter(start, events[0]), events[1..])
  }

  /** One callback changes the trajectory length as its event accounts for. */
  lemma StepAccounting(s: Sim, c: Command, rays: seq<Ray>)
    requires Admissible(c)
    ensures |Step(s, c, rays).0.trajectory| == LengthAfter(|s.trajectory|, Step(s, c, rays).1)
  {
  }

  /** Number of successful moves among `events`. */
  function MovedCount(events: seq<Event>): nat
    decreases |events|
  {
    if events == [] then 0
    else (if events[0].Move? && events[0].outcome.Moved? then 1 else 0) + MovedCount(events[1..])
  }

  /** The trajectory grows by exactly one per successful move and restarts at length
      one on every reset. */
  lemma {:induction false} TrajectoryAccounting(s: Sim, cmds: seq<Command>, rays: seq<Ray>)
    requires forall i :: 0 <= i < |cmds| ==> Admissible(cmds[i])
    ensures |Run(s, cmds, rays).0.trajectory| == ExpectedLength(|s.trajectory|, Run(s, cmds, rays).1)
    decreases |cmds|
  {
    if cmds != [] {
      var first := Step(s, cmds[0], rays);
      var rest := Run(first.0, cmds[1..], rays);
      assert |first.0.trajectory| == LengthAfter(|s.trajectory|, first.1) by {
        StepAccounting(s, cmds[0], rays);
      }
      assert |rest.0.trajectory| == ExpectedLength(|first.0.trajectory|, rest.1) by {
        TrajectoryAccounting(first.0, cmds[1..], rays);
      }
      assert Run(s, cmds, rays) == (rest.0, [first.1] + rest.1) by {
        RunFirst(s, cmds, rays);
      }
      assert ([first.1] + rest.1)[0] == first.1 && ([first.1] + rest.1)[1..] == rest.1;
    }
  }

  /** Without a reset in between, the expected length is the start length plus the
      number of successful moves. */
  lemma {:induction false} ExpectedLengthWithoutReset(start: nat, events: seq<Event>)
    requires forall i :: 0 <= i < |events| ==> !events[i].ResetDone?
    ensures ExpectedLength(start, events) == start + MovedCount(events)
    decreases |events|
  {
    if events != [] {
      ExpectedLengthWithoutReset(LengthAfter(start, events[0]), events[1..]);
    }
  }

  /** The events of two consecutive runs account for the trajectory length in sequence. */
  lemma {:induction false} ExpectedLengthAppend(start: nat, a: seq<Event>, b: seq<Event>)
    ensures ExpectedLength(start, a + b) == ExpectedLength(ExpectedLength(start, a), b)
    decreases |a|
  {
    if a == [] {
      assert a + b == b;
    } else {
      assert (a + b)[0] == a[0] && (a + b)[1..] == a[1..] + b;
      ExpectedLengthAppend(LengthAfter(start, a[0]), a[1..], b);
    }
  }

  /** After the last reset the trajectory length is one plus the successful moves
      since that reset, whatever came before it. */
  lemma SinceLastReset(start: nat, before: seq<Event>, after: seq<Event>)
    requires forall i :: 0 <= i < |after| ==> !after[i].ResetDone?
    ensures ExpectedLength(start, before + [ResetDone] + after) == 1 + MovedCount(after)
  {
    ExpectedLengthAppend(start, before + [ResetDone], after);
    ExpectedLengthAppend(start, before, [ResetDone]);
    ExpectedLengthWithoutReset(1, after);
  }

  /** A whole number, as every pose coordinate is (Python integers). */
  predicate Whole(v: real) {
    v == v.Floor as real
  }

  predicate IsHeading(angle: int) {
    angle == 0 || angle == 90 || angle == 180 || angle == -90
  }

  /** What holds of every state the program reaches: the robot stands on whole
      coordinates facing one of the four headings, and the trajectory starts with
      the origin sample. */
  predicate Consistent(s: Sim) {
    && Whole(s.pose.x) && Whole(s.pose.z)
    && IsHeading(s.pose.angle)
    && |s.trajectory| >= 1 && s.trajectory[0] == Origin
  }

  lemma WholeStep(v: real, delta: real)
    requires Whole(v) && (delta == 0.0 || delta == 1.0 || delta == -1.0)
    ensures Whole(v + delta)
  {
    var n := v.Floor;
    assert v + delta == (n + delta.Floor) as real;
  }

  lemma BootIsConsistent(drawn: seq<Obstacle>)
    requires Generated(StartObstacles, drawn)
    ensures Consistent(Boot(drawn))
  {
  }

  /** `move_robot` keeps the state consistent. */
  lemma MoveKeepsConsistent(s: Sim, token: string, jx: Jitter, jz: Jitter)
    requires Consistent(s)
    ensures Consistent(MoveRobot(s, token, jx, jz).0)
  {
    var m := MoveRobot(s, token, jx, jz);
    if ParseKey(token).Some? {
      var d := ParseKey(token).value;
      var u := UnitVector(HeadingOf(d));
      WholeStep(s.pose.x, u.x);
      WholeStep(s.pose.z, u.z);
      assert m.0.trajectory[0] == s.trajectory[0] by {
        assert m.0.trajectory[..|s.trajectory|] == s.trajectory;
      }
    }
  }

  /** Re-rendering leaves the pose and trajectory alone. */
  lemma RefreshKeepsPose(s: Sim, rays: seq<Ray>)
    ensures Refresh(s, rays).0.pose == s.pose
    ensures Refresh(s, rays).0.trajectory == s.trajectory
    ensures Refresh(s, rays).0.obstacles == s.obstacles
    ensures Refresh(s, rays).0.noise == s.noise
  {
    var e := RenderEnv(s, rays);
    assert e.pose == s.pose && e.trajectory == s.trajectory && e.obstacles == s.obstacles && e.noise == s.noise;
  }

  /** Every callback keeps the state consistent. */
  lemma StepKeepsConsistent(s: Sim, c: Command, rays: seq<Ray>)
    requires Admissible(c)
    requires Consistent(s)
    ensures Consistent(Step(s, c, rays).0)
  {
    match c
    case Button(key, jx, jz) =>
      MoveKeepsConsistent(s, key, jx, jz);
      RefreshKeepsPose(MoveRobot(s, key, jx, jz).0, rays);
    case TextEntry(text, jx, jz) =>
      MoveKeepsConsistent(s, Strip(text), jx, jz);
      RefreshKeepsPose(MoveRobot(s, Strip(text), jx, jz).0, rays);
    case ResetButton(count, drawn) =>
      RefreshKeepsPose(ResetSim(s, count, drawn), rays);
    case NoiseButton =>
  }

  lemma {:induction false} RunKeepsConsistent(s: Sim, cmds: seq<Command>, rays: seq<Ray>)
    requires forall i :: 0 <= i < |cmds| ==> Admissible(cmds[i])
    requires Consistent(s)
    ensures Consistent(Run(s, cmds, rays).0)
    decreases |cmds|
  {
    if cmds != [] {
      var next := Step(s, cmds[0], rays).0;
      assert Consistent(next) by {
        StepKeepsConsistent(s, cmds[0], rays);
      }
      assert Consistent(Run(next, cmds[1..], rays).0) by {
        RunKeepsConsistent(next, cmds[1..], rays);
      }
      assert Run(s, cmds, rays).0 == Run(next, cmds[1..], rays).0 by {
        RunFirst(s, cmds, rays);
      }
    }
  }

  /** Between resets the obstacles never change, and a robot standing on a free point
      never ends up on a blocked one. */
  lemma {:induction false} NoResetKeepsField(s: Sim, cmds: seq<Command>, rays: seq<Ray>)
    requires forall i :: 0 <= i < |cmds| ==> Admissible(cmds[i]) && !cmds[i].ResetButton?
    ensures Run(s, cmds, rays).0.obstacles == s.obstacles
    ensures !CheckCollision(s.obstacles, s.pose.x, s.pose.z) ==>
              !CheckCollision(s.obstacles, Run(s, cmds, rays).0.pose.x, Run(s, cmds, rays).0.pose.z)
    decreases |cmds|
  {
    if cmds != [] {
      var next := Step(s, cmds[0], rays).0;
      var fin := Run(next, cmds[1..], rays).0;
      assert fin.obstacles == next.obstacles
        && (!CheckCollision(next.obstacles, next.pose.x, next.pose.z) ==> !CheckCollision(next.obstacles, fin.pose.x, fin.pose.z)) by {
        NoResetKeepsField(next, cmds[1..], rays);
      }
      assert next.obstacles == s.obstacles
        && (!CheckCollision(s.obstacles, s.pose.x, s.pose.z) ==> !CheckCollision(s.obstacles, next.pose.x, next.pose.z)) by {
        StepKeepsField(s, cmds[0], rays);
      }
      assert Run(s, cmds, rays).0 == fin by {
        RunFirst(s, cmds, rays);
      }
    }
  }

  /** The most hits `callbacks` re-renders can add with `perCallback` rays each. */
  function Budget(callbacks: nat, perCallback: nat): nat {
    if callbacks == 0 then 0 else perCallback + Budget(callbacks - 1, perCallback)
  }

  lemma {:induction false} BudgetIsProduct(callbacks: nat, perCallback: nat)
    ensures Budget(callbacks, perCallback) == callbacks * perCallback
  {
    if callbacks > 0 {
      BudgetIsProduct(callbacks - 1, perCallback);
      assert callbacks * perCallback == perCallback + (callbacks - 1) * perCallback;
    }
  }

  /** Between resets hits are only ever appended: the old buffer stays a prefix. */
  lemma {:induction false} NoResetHitsGrow(s: Sim, cmds: seq<Command>, rays: seq<Ray>)
    requires forall i :: 0 <= i < |cmds| ==> Admissible(cmds[i]) && !cmds[i].ResetButton?
    ensures |s.hits| <= |Run(s, cmds, rays).0.hits|
    ensures Run(s, cmds, rays).0.hits[..|s.hits|] == s.hits
    decreases |cmds|
  {
    if cmds != [] {
      var next := Step(s, cmds[0], rays).0;
      var fin := Run(next, cmds[1..], rays).0;
      assert |next.hits| <= |fin.hits| && fin.hits[..|next.hits|] == next.hits by {
        NoResetHitsGrow(next, cmds[1..], rays);
      }
      assert |s.hits| <= |next.hits| && next.hits[..|s.hits|] == s.hits by {
        StepKeepsField(s, cmds[0], rays);
      }
      assert Run(s, cmds, rays).0 == fin by {
        RunFirst(s, cmds, rays);
      }
      PrefixChains(s.hits, next.hits, fin.hits);
    }
  }

  /** A prefix of a prefix is a prefix. */
  lemma PrefixChains<T>(a: seq<T>, b: seq<T>, c: seq<T>)
    requires |a| <= |b| && b[..|a|] == a
    requires |b| <= |c| && c[..|b|] == b
    ensures |a| <= |c| && c[..|a|] == a
  {
    assert c[..|a|] == c[..|b|][..|a|];
  }

  /** Between resets each callback adds at most one hit per ray. */
  lemma {:induction false} NoResetHitsBounded(s: Sim, cmds: seq<Command>, rays: seq<Ray>)
    requires forall i :: 0 <= i < |cmds| ==> Admissible(cmds[i]) && !cmds[i].ResetButton?
    ensures |Run(s, cmds, rays).0.hits| <= |s.hits| + Budget(|cmds|, |rays|)
    decreases |cmds|
  {
    if cmds != [] {
      var next := Step(s, cmds[0], rays).0;
      var fin := Run(next, cmds[1..], rays).0;
      assert |fin.hits| <= |next.hits| + Budget(|cmds| - 1, |rays|) by {
        NoResetHitsBounded(next, cmds[1..], rays);
      }
      assert |next.hits| <= |s.hits| + |rays| by {
        StepKeepsField(s, cmds[0], rays);
      }
      assert Run(s, cmds, rays).0 == fin by {
        RunFirst(s, cmds, rays);
      }
    }
  }

  /** Between resets n callbacks add at most n hits per ray. */
  lemma NoResetHitsPerRay(s: Sim, cmds: seq<Command>, rays: seq<Ray>)
    requires forall i :: 0 <= i < |cmds| ==> Admissible(cmds[i]) && !cmds[i].ResetButton?
    ensures |Run(s, cmds, rays).0.hits| <= |s.hits| + |cmds| * |rays|
  {
    NoResetHitsBounded(s, cmds, rays);
    BudgetIsProduct(|cmds|, |rays|);
  }

  /** A move followed by its re-render keeps the obstacles, appends to the hits, and
      keeps a free robot free. */
  lemma MoveKeepsField(s: Sim, token: string, jx: Jitter, jz: Jitter, rays: seq<Ray>)
    ensures Refresh(MoveRobot(s, token, jx, jz).0, rays).0.obstacles == s.obstacles
    ensures var hits := Refresh(MoveRobot(s, token, jx, jz).0, rays).0.hits;
            |s.hits| <= |hits| <= |s.hits| + |rays| && hits[..|s.hits|] == s.hits
    ensures !CheckCollision(s.obstacles, s.pose.x, s.pose.z) ==>
              var p := Refresh(MoveRobot(s, token, jx, jz).0, rays).0.pose;
              !CheckCollision(s.obstacles, p.x, p.z)
  {
    var m := MoveRobot(s, token, jx, jz).0;
    assert m.hits == s.hits && m.obstacles == s.obstacles;
    var e := RenderEnv(m, rays);
    assert e.hits[..|m.hits|] == m.hits;
    assert e.pose == m.pose && e.obstacles == m.obstacles;
    assert RenderSlamMap(e).0.hits == e.hits;
  }

  /** One non-reset callback keeps the obstacles, appends to the hits, and keeps a free
      robot free. */
  lemma StepKeepsField(s: Sim, c: Command, rays: seq<Ray>)
    requires Admissible(c) && !c.ResetButton?
    ensures Step(s, c, rays).0.obstacles == s.obstacles
    ensures |s.hits| <= |Step(s, c, rays).0.hits| <= |s.hits| + |rays|
    ensures Step(s, c, rays).0.hits[..|s.hits|] == s.hits
    ensures !CheckCollision(s.obstacles, s.pose.x, s.pose.z) ==>
              !CheckCollision(s.obstacles, Step(s, c, rays).0.pose.x, Step(s, c, rays).0.pose.z)
  {
    match c
    case Button(key, jx, jz) =>
      MoveKeepsField(s, key, jx, jz, rays);
    case TextEntry(text, jx, jz) =>
      MoveKeepsField(s, Strip(text), jx, jz, rays);
    case NoiseButton =>
  }
}
