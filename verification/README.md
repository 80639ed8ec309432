# SLAM simulator core in Dafny

A model of the motion, collision and bookkeeping logic of a single-file robot
simulator (`app.py`). A point robot stands on a plane scattered with circular
obstacles. It takes one-unit steps selected by the keys W, A, S and D. Each
successful step is logged to a trajectory, with optional noise. After every
move or reset, a 24-ray range scan appends its hits to a buffer. A map view
then shows the 20 most recent hits in a colour that cycles through a
three-colour palette.

The model is functional. An immutable `Sim` record holds the program's module-level
globals. Each handler is a pure function from a state and its random draws to a
new state:

- `Optional`: an `Option` type.
- `Text`: Python's `str.strip()` and `str.upper()` as the handlers use them.
- `Geometry`: points, circular obstacles, the 0.2 clearance, `check_collision`,
  and the bounds that `generate_obstacles` draws within.
- `Motion`: direction keys, the pose, the heading of each direction and the
  one-unit target point.
- `Scan`: the ray march of `render_env`, the first hit of each ray, the palette
  and the "last 20" window of `render_slam_map`.
- `Simulator`: the state and the handlers `toggle_noise`, `reset_sim`,
  `move_robot` and `handle_text_input`, plus the scan and palette bookkeeping of
  `render_env` and `render_slam_map`.
- `Session`: runs of UI callbacks. Each move or reset handler is followed by the
  re-render its `return` statement performs. This module holds the trajectory
  accounting and the state invariant.

Parameters stand in for the random draws:

- A reset's obstacle list must satisfy `Generated(int(count), list)`. That means
  the right number of obstacles, each centred in [-8, 8]² with a radius in
  [0.5, 1.2].
- Each noise draw is a `Jitter`, a real in [-0.1, 0.1].
- A ray is given by its direction vector (cos, sin). The distances along a ray
  are modelled exactly as `linspace(0, 3, 30)`, that is 3k/29.

Collision is decided on squared distances. `Blocks` requires
`radius + 0.2 >= 0` and squared distance at most `(radius + 0.2)²`.
`ClearanceIsEuclidean` proves this is the same test as `sqrt(d²) <= radius + 0.2`.

Behaviour of the code that the model keeps, where a cleaned-up design would differ:

- A blocked move still sets the heading, because `move_robot` writes the angle
  before the collision check. `BlockedMoveStillTurns` shows this.
- A scan appends its hits to the buffer. It does not replace them.
- `reset_sim` does not validate its count. It applies `int()`, which truncates
  toward zero, and `range()` of a negative number yields no obstacles.
- A reset can place the robot inside an obstacle, so "the pose is always free"
  is not an invariant of the program. `ResetMayStartInsideObstacle` gives a
  concrete case. What does hold is proved in `NoResetKeepsField`: between
  resets, a robot on a free point never ends up on a blocked one.
- Every move, including an invalid key or a blocked move, re-renders. So every
  move scans and may advance the palette counter (`Session.Step`).
- The first sample of every ray is at distance 0, which is the robot's own
  position. A robot inside an obstacle therefore records one hit per ray at its
  own position (`ScanFromBlockedPosition`).

## Model

| member | source | states |
|---|---|---|
| Text.Strip | app.py:146 | the input splits into leading whitespace, the stripped text and trailing whitespace, with the stripped text starting right after the leading whitespace; the stripped text has no whitespace at either end |
| Text.AllSpaceEveryChar | app.py:146 | a run counts as whitespace exactly when every one of its characters satisfies `isspace()` |
| Text.StripKeepsTrimmed | app.py:146 | text with no whitespace at either end is unchanged by strip |
| Text.StripIdempotent | app.py:146 | stripping twice equals stripping once |
| Text.Upper | app.py:60 | upper-casing maps each lower-case ASCII letter to the capital at the same place in the alphabet and keeps every other character, so no ASCII lower-case letter is left; in the model the length is kept |
| Text.UpperIdempotent | app.py:146 | upper-casing twice equals upper-casing once, so the second `.upper()` in `move_robot` is redundant |
| Geometry.ClearanceIsEuclidean | app.py:52-53 | the squared-distance test agrees with "Euclidean distance to the centre is at most radius + 0.2" for every non-negative square root of the squared distance |
| Geometry.CheckCollision | app.py:50-55 | collision holds iff some obstacle in the list blocks the point |
| Geometry.Generated | app.py:24-29 | a drawn obstacle list has max(count, 0) entries, each centred in [-8, 8]² with a radius in [0.5, 1.2], as `random.uniform` draws them |
| Geometry.NearCentreBlocked | app.py:24-29 | a point within 0.7 of a generated obstacle's centre always collides (the smallest radius 0.5 plus clearance 0.2) |
| Geometry.FarPointsFree | app.py:24-29 | no generated obstacle blocks a point beyond 9.4 on either axis (8 + 1.2 + 0.2) |
| Motion.ParseKey | app.py:60-75 | a token selects direction d iff its upper-case form is d's key; every other token selects none |
| Motion.KeysRoundTrip | app.py:62-73 | W, S, A and D, in either case, select North, South, West and East |
| Motion.ParseKeyIgnoresCase | app.py:60 | tokens equal up to case select the same direction |
| Motion.ParseUpperIsParse | app.py:146 | parsing an upper-cased token equals parsing the token |
| Motion.RecognisedKeysAreSingleCharacters | app.py:60-75 | only one-character tokens select a direction |
| Motion.Target | app.py:62-73 | the target is the pose moved by the unit vector of the direction's heading (90, -90, 180, 0), so exactly one coordinate changes |
| Scan.SampleRadius | app.py:114 | sample distances lie in [0, 3], are 0 exactly at the first sample and 3 exactly at the last |
| Scan.SamplesEvenlySpaced | app.py:114 | consecutive sample distances lie exactly 3/29 apart, as `np.linspace(0, 3, 30)` spaces them |
| Scan.FirstHitFrom | app.py:114-120 | the returned sample index is blocked and every earlier sample is free; without a result, no sample is blocked |
| Scan.RayHitIsFirstBlocked | app.py:114-120 | a ray's hit is a blocked sample on the ray with all earlier samples free; a ray with no hit has no blocked sample |
| Scan.ScanHits | app.py:112-120 | a scan yields no more hits than there are rays, and every hit is some ray's first hit |
| Scan.OneRay | app.py:114-120 | scanning a single ray yields exactly its first hit, or nothing |
| Scan.ScanHitsAppend | app.py:112-120 | scanning two groups of rays yields the first group's hits followed by the second's; with `OneRay`, each ray contributes exactly its own first hit, in ray order |
| Scan.ScanHitsComplete | app.py:112-120 | every ray's first hit is among the scan's hits |
| Scan.ScanHitsBlocked | app.py:117-119 | every hit of a scan is a blocked point |
| Scan.ScanFromBlockedPosition | app.py:114-117 | from a blocked position every ray hits at the position itself |
| Scan.MarchRay | app.py:114-120 | the inner loop with `break` stops at exactly the ray's first hit, or finds none |
| Scan.ScanLoop | app.py:112-120 | the outer loop collects exactly the hits of `ScanHits`, in ray order |
| Scan.PaletteCycles | app.py:136 | consecutive palette indices give different colours and the colours repeat every three |
| Scan.Recent | app.py:137 | the `[-20:]` slice is the last min(n, length) elements |
| Simulator.Boot | app.py:14-31 | the start state has pose (0, 0, 0), trajectory [(0, 0)], no hits, palette counter 0, noise on and ten in-field obstacles |
| Simulator.ToggleNoise | app.py:34-37 | the noise flag flips and nothing else changes |
| Simulator.ToggleNoiseInvolution | app.py:34-37 | toggling twice restores the state |
| Simulator.Truncate | app.py:46 | `int()` truncates toward zero |
| Simulator.ResetSim | app.py:40-46 | reset gives pose (0, 0, 0), trajectory [(0, 0)], no hits, palette counter 0, an unchanged noise flag, and max(int(count), 0) obstacles in the field |
| Simulator.ResetForgetsHistory | app.py:40-46 | the state after a reset depends only on the noise flag, the count and the draws |
| Simulator.Logged | app.py:82-87 | the logged sample is the position when noise is off and within 0.1 of it per axis when noise is on |
| Simulator.MoveRobot | app.py:57-89 | an invalid key changes nothing. A valid key sets the heading. If the target is blocked, position and trajectory are unchanged. Otherwise the robot moves to the free target and exactly one sample is appended. Obstacles, noise, hits and counter never change |
| Simulator.MoveIgnoresCase | app.py:60 | tokens equal up to case move the robot identically |
| Simulator.HandleTextInput | app.py:145-146 | typed text behaves as `move_robot` on the stripped text |
| Simulator.TextInputStripsPadding | app.py:145-146 | a recognised key after a whitespace character is invalid for `move_robot` but, typed as text, moves the robot as the bare key |
| Simulator.RenderEnv | app.py:112-120 | a scan keeps the old hits as a prefix and appends no more hits than there are rays. Each new hit is a blocked first hit of some ray (`RenderEnvComplete` gives the converse, and `ScanHitsAppend` with `OneRay` gives one hit per hitting ray in ray order). Nothing else changes |
| Simulator.RenderEnvComplete | app.py:114-120 | the first hit of every ray cast from the robot is among the hits the scan appends |
| Simulator.RenderSlamMap | app.py:126-142 | with hits, the view shows the last min(n, 20) hits in the colour of the current counter and the counter advances by one. Without hits, nothing is shown and nothing changes |
| Simulator.Refresh | app.py:89 | the `render_env(), render_slam_map()` pair every handler but `toggle_noise` returns (also lines 47, 75 and 79) keeps pose, trajectory, obstacles and noise flag, keeps the old hits as a prefix and adds no more hits than there are rays, advances the palette counter exactly when the buffer is then non-empty, and draws the trajectory |
| Simulator.RefreshWithHits | app.py:135-139 | a re-render of a state with hits shows them in the colour of the current counter, advances the counter by one and leaves the buffer non-empty, so consecutive re-renders cycle through the palette |
| Simulator.BlockedMoveStillTurns | app.py:62-79 | from the origin with an obstacle at (2, 0), D moves to (1, 0) and a second D is blocked and changes nothing; from (1, 0) with an obstacle at (1, 1) instead, the blocked W still turns the robot to 90 |
| Simulator.ResetMayStartInsideObstacle | app.py:40-46 | a reset may draw an obstacle that covers the robot's start position |
| Session.Step | app.py:40-89 | per callback: a successful move adds one trajectory sample, a blocked or invalid move keeps the trajectory, a reset restarts it at [(0, 0)], and only a reset changes the obstacles |
| Session.StepAccounting | app.py:40-89 | one callback changes the trajectory length by what its event accounts for: +1 for a successful move, back to 1 for a reset, otherwise unchanged |
| Session.TrajectoryAccounting | app.py:43-87 | after any run, the trajectory length is what the run's events account for through `ExpectedLength`: restart at one on a reset, one more per successful move |
| Session.ExpectedLengthAppend | app.py:43-87 | the accounting of two consecutive runs composes: the second continues from the length the first ends at |
| Session.SinceLastReset | app.py:43-87 | after the last reset the length is one plus the successful moves since that reset, whatever came before it |
| Session.ExpectedLengthWithoutReset | app.py:81-87 | without resets the trajectory grows by exactly the number of successful moves |
| Session.BootIsConsistent | app.py:14-31 | the start state is consistent: whole-number coordinates, one of the four headings and the origin as first trajectory sample |
| Session.MoveKeepsConsistent | app.py:57-87 | a move keeps whole-number coordinates, one of the four headings, and the origin as first trajectory sample |
| Session.RefreshKeepsPose | app.py:93-142 | re-rendering changes neither pose, trajectory, obstacles nor noise flag |
| Session.StepKeepsConsistent | app.py:40-89 | every callback keeps the state consistent |
| Session.RunKeepsConsistent | app.py:40-89 | every run of callbacks keeps the state consistent |
| Session.MoveKeepsField | app.py:57-120 | a move and its re-render keep the obstacles, append no more hits than there are rays, and keep a free robot free |
| Session.StepKeepsField | app.py:57-120 | a non-reset callback keeps the obstacles, appends no more hits than there are rays and keeps a free robot free |
| Session.NoResetKeepsField | app.py:57-120 | between resets the obstacles are fixed and a robot on a free point stays on free points |
| Session.NoResetHitsGrow | app.py:112-120 | between resets the hit buffer only grows, keeping its old contents as a prefix |
| Session.NoResetHitsBounded | app.py:112-120 | between resets n callbacks add at most `Budget(n, rays)` hits: at most as many per callback as there are rays |
| Session.NoResetHitsPerRay | app.py:112-120 | between resets n callbacks with k rays add at most n * k hits (24 per callback with the program's rays) |

## Left out

- Auto mode (`auto_movement`, `toggle_auto_mode`) is left out. It is a background thread with `time.sleep` and UI callbacks that calls `move_robot` while the UI keeps serving other callbacks.
- Concurrency is left out. The model assumes each callback runs to completion before the next begins. The program does not guarantee this. With auto mode on, a `reset_sim` can run between the collision check (app.py:77) and the commit (app.py:81) of a `move_robot` in the auto thread. The commit then writes a target computed from the old pose and checked against the old obstacles into the new pose, and appends it to the new trajectory. No `Session.Run` reaches that state, so the session lemmas say nothing about such interleavings.
- The Gradio UI layout, `demo.launch`, the status strings and the collision sound lookup are left out. They are presentation and file I/O. Status strings are represented by the `Outcome` and `Event` datatypes.
- Figure construction, plotting and the background image are left out. They are rendering only. `MapView` records what the map shows.
- The random number generator is left out. Draws are parameters, bounded by `Generated` and `Jitter`.
- The trigonometry of the scan is left out. Each ray is its (cos, sin) pair, and the 24 angles of `np.linspace(0, 2π, 24)` are not computed. Because that range includes its endpoint, the first and last rays point the same way. The model takes whatever rays it is given.
- Floating-point rounding is left out. Coordinates are exact reals, and `linspace` distances are exactly 3k/29.
- Text.UpperChar, Text.Upper: upper-case only ASCII letters, one character for one. Python's `upper()` also maps other characters, for example 'ſ' to 'S', so such a token selects a direction in the program but not in the model. It can also change the length, for example 'ß' becomes "SS"; the model's `Upper` always keeps the length.
- Simulator.Truncate: models `int()` on a number only. `int()` on a string or other type is not modelled.
