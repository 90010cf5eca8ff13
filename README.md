# Top-down racing track, car physics and training environment in Dafny

This project models the core of a 2D top-down racing game whose cars are driven by a
reinforcement-learning agent. It covers:

- **Track loading** (`track_loader.dfy`, module `TrackLoader`). An RGB pixel grid becomes track
  geometry. Yellow pixels give the start position (their integer mean) and the start/finish
  line (first to last yellow pixel in row-major order). Black pixels are covered by greedy
  maximal rectangles, the walls. Green pixels are traced into checkpoint segments.
- **Track** (`track.dfy`, module `TrackModel`). The synthetic default track and the track built
  from loaded data. It also holds:
  - the determinant test for crossing the next checkpoint;
  - the orientation (ccw) test for crossing the finish line;
  - resetting the checkpoint flags and the total checkpoint count;
  - the inclusive corner-in-wall collision test;
  - the stepwise ray march used by the sensors.
- **Vehicle** (`vehicle.dfy`, module `Vehicles`) and **AI car** (`ai_car.dfy`, module `AiCar`).
  These cover speed clamping to [-5, 10], friction that snaps to rest below 0.1, rotation, and
  movement along the heading. They also give the rotated body rectangle, the seven-ray sensor
  fan, and the five discrete actions (nothing, gas, gas + left, gas + right, reverse).
- **Physics** (`physics.dfy`, module `Physics`). A car whose corner enters a wall is moved by
  the mean of the exit pushes of all colliding (corner, wall) pairs, or pushed 10 units
  backwards when that mean is zero. The car is then stopped.
- **Racing environment** (`racing_env.dfy`, module `RacingEnvironment`). The episode counters:
  steps, steps without progress, next checkpoint and laps completed. Checkpoints must be
  crossed in order, and a lap completes when the finish line is crossed after all of them.
  Episodes are only truncated (at `max_steps` or after 300 steps without progress). The module
  also builds the observation: normalised rays, normalised speed and the normalised distance
  to the next checkpoint.
- **Lap timer** (`lap_timer.dfy`, module `LapTiming`). The current lap, its time, the best and
  last lap times, and the history of completed laps.

Shared values are in `geometry.dfy` (module `Geometry`): walls, checkpoints, the finish line
and the track data record.

Objects whose fields the game updates in place are classes: `Track`, `Vehicle`, `AICar`,
`RacingEnv` and `LapTimer`. Their methods have `modifies` frames and `ensures` clauses that
give the new value of every field they change. Loops are `while` loops with invariants. Each method is proved against a specification
function or predicate, and the properties of those functions are proved as lemmas.

The following are parameters of the model:
- trigonometry is `dir`, which maps a heading in degrees to its (cos, sin) pair;
- the wall clock is `now`, in seconds;
- square roots are a length passed together with the squared length it must match.

## Model

| member | source | states |
|---|---|---|
| TrackLoader.BlackPassesUint8YellowTest | core/track_loader.py:57-59 | With the yellow test evaluated on uint8 channels, where `r - 255` wraps, a pure black pixel (0, 0, 0) counts as yellow; the integer test rejects it |
| TrackLoader.ColourClassesExclusive | core/track_loader.py:59-159 | With the integer yellow test, no pixel is more than one of black, yellow and green |
| TrackLoader.IsYellow | core/track_loader.py:59 | Yellow: red and green within 30 of 255, blue below 50, on integer channels. ColourClassesExclusive and BlackPassesUint8YellowTest state its properties |
| TrackLoader.IsBlack | core/track_loader.py:80 | Black: all three channels below 50. ColourClassesExclusive states its properties |
| TrackLoader.IsGreen | core/track_loader.py:159 | Green: green above 200, red and blue below 100. ColourClassesExclusive states its properties |
| TrackLoader.StartPosition | core/track_loader.py:51-65 | (100, height / 2) without yellow pixels, otherwise their integer mean. StartInsideYellowBox states its bounds |
| TrackLoader.FinishLine | core/track_loader.py:52-68 | None without yellow pixels, otherwise the segment from the first to the last one. FinishLineIsScanExtremes states what it spans |
| TrackLoader.FindYellowPixels | core/track_loader.py:54-60 | The result lists exactly the yellow pixels of the grid, each once, in strictly row-major order |
| TrackLoader.SumXBounded | core/track_loader.py:63 | The sum of n x-coordinates that all lie in [lo, hi] lies in [n*lo, n*hi] |
| TrackLoader.SumYBounded | core/track_loader.py:64 | The sum of n y-coordinates that all lie in [lo, hi] lies in [n*lo, n*hi] |
| TrackLoader.QuotientBounded | core/track_loader.py:63-64 | Floor division by n of such a sum lies in [lo, hi] |
| TrackLoader.StartInsideYellowBox | core/track_loader.py:62-65 | The start position (integer mean of the yellow pixels) lies inside the bounding box of the yellow pixels |
| TrackLoader.FinishLineIsScanExtremes | core/track_loader.py:66-68 | When some pixel is yellow, a finish line exists; its first end is at or before every yellow pixel and its second end at or after, in row-major order |
| TrackLoader.WallCoverIsPartition | core/track_loader.py:70-84 | Under the wall cover, a pixel is black iff some wall covers it, and no two walls cover the same pixel |
| TrackLoader.ExtractWallRect | core/track_loader.py:98-144 | None iff the start pixel is not an unvisited black pixel. Otherwise the rectangle starts there and lies in the grid. Every pixel it covers was black and unvisited. It stops at the grid edge or at a pixel that is not free, to the right and below. Exactly its pixels become visited |
| TrackLoader.ClaimWall | core/track_loader.py:75-84 | At a free black pixel, the walls gain exactly one rectangle. It is anchored at that pixel and lies in the grid. It covers only black pixels that were unvisited. It is as wide as the free run to its right and as tall as the free rows below allow. Exactly its pixels become newly visited. The walls stay in the grid, black and pairwise disjoint, and the visited pixels are exactly the covered ones |
| TrackLoader.ExtractWalls | core/track_loader.py:70-84 | The walls lie in the grid, cover only black pixels, are pairwise disjoint and cover every black pixel |
| TrackLoader.FirstFreeNeighbour | core/track_loader.py:185-198 | A neighbour that is found is 8-adjacent, in the grid, green and unclaimed |
| TrackLoader.FirstFreeNeighbourIsFirst | core/track_loader.py:185-198 | The search fails iff no remaining direction leads to an unclaimed green pixel. A success is the first such direction in the fixed direction order |
| TrackLoader.GreedyTraceIsSimplePath | core/track_loader.py:175-203 | A greedy trace is an 8-connected path of green in-grid pixels. It never revisits a pixel and never enters a pixel claimed before it started |
| TrackLoader.GreedyTraceExtends | core/track_loader.py:194-196 | Appending the first free neighbour of a greedy trace's last pixel gives a greedy trace |
| TrackLoader.NextTracePixel | core/track_loader.py:185-198 | One trace step returns exactly the first free neighbour in direction order, or None |
| TrackLoader.TraceCheckpointLine | core/track_loader.py:175-203 | The trace starts at the start pixel and is greedy. It has at most max(width, height) + 1 pixels, and a shorter trace ends where no free neighbour remains. Exactly the trace is newly marked visited |
| TrackLoader.ClaimCheckpoint | core/track_loader.py:157-171 | The trace from the pixel is greedy and has at most max(width, height) + 1 pixels. When it is shorter than that, its last pixel has no free neighbour left. A trace longer than 3 pixels appends one checkpoint from its first to its last pixel, with the next id and unpassed. A shorter trace adds nothing. Well-formedness of the checkpoint list is preserved |
| TrackLoader.CheckpointsOf | core/track_loader.py:161-171 | One checkpoint per trace longer than 3 pixels, in trace order. The ids are dense from 0 and no checkpoint is passed |
| TrackLoader.GreedyTracesAgree | core/track_loader.py:175-203 | Two greedy traces from the same pixel over the same claimed set agree on their common length |
| TrackLoader.ScanTraceUnique | core/track_loader.py:152-162 | The trace the scan takes next is determined by the pixels and the cells claimed before it |
| TrackLoader.CheckpointScanUnique | core/track_loader.py:146-173 | Two checkpoint scans of the same grid take the same traces, so they make the same checkpoints |
| TrackLoader.TracesAppend | core/track_loader.py:160-171 | One more trace adds its pixels to the claimed set. It adds one checkpoint, with the next id, exactly when it is longer than 3 pixels |
| TrackLoader.ScanCheckpointPixel | core/track_loader.py:154-171 | After the pixel at (x, y), the traces so far are the scan's traces. Every green pixel before (x + 1, y) is claimed, the visited pixels are the claimed ones, and the checkpoints are those of the traces |
| TrackLoader.ScanCheckpointRow | core/track_loader.py:152-171 | The same holds after a whole row, with every green pixel of the rows up to y claimed |
| TrackLoader.ExtractCheckpoints | core/track_loader.py:146-173 | The traces are the scan's. Each one starts at the row-major first green pixel no earlier trace claimed. Each is greedy and stops only at the step limit or where no free neighbour is left. Together they claim every green pixel. The checkpoints are those of the traces: dense ids, unpassed, endpoints distinct green grid pixels, and no endpoint shared |
| TrackLoader.ProcessPixels | core/track_loader.py:43-96 | The track data has the grid's size. Its start position and finish line are derived from the row-major yellow scan, its walls are the wall cover, and its checkpoints are those of the checkpoint scan of the green pixels |
| TrackModel.SegmentsIntersect | core/track.py:115-134 | The determinant test of the checkpoint crossing. SegmentsIntersectMeaning, ParametersMeet and MeetingIsUnique state what it decides |
| TrackModel.Ccw | core/track.py:151-152 | The counter-clockwise orientation test of three points |
| TrackModel.LinesIntersect | core/track.py:154-160 | The orientation test of the finish-line crossing. CollinearNeverIntersects, LinesIntersectDirectionFree, StrictCrossingIsCrossing and TouchingIsNotStrict state its properties |
| TrackModel.DefaultWalls | core/track.py:34-60 | The four 20-unit border walls and the 200 x 100 obstacle at the centre. DefaultTrackShape, DefaultBorderIsWalled and DefaultStartIsClear state its properties |
| TrackModel.DefaultCheckpoints | core/track.py:62-95 | The four default checkpoints, ids 0 to 3, all unpassed. DefaultTrackShape states their shape |
| TrackModel.ParametersMeet | core/track.py:115-134 | With a non-zero denominator, the computed parameters t and s give the same point on both segments |
| TrackModel.MeetingIsUnique | core/track.py:115-134 | With a non-zero denominator, any meeting parameters are the computed ones |
| TrackModel.SegmentsIntersectMeaning | core/track.py:115-134 | The checkpoint test holds iff the segments are not parallel and share a point at parameters in [0, 1] on both |
| TrackModel.CheckpointCrossingExamples | core/track.py:115-134 | A movement across a vertical checkpoint crosses it; one that stops short does not |
| TrackModel.CollinearNeverIntersects | core/track.py:151-160 | Four collinear points never count as a finish-line crossing |
| TrackModel.LinesIntersectDirectionFree | core/track.py:151-160 | Reversing the movement does not change the finish-line answer unless a finish-line endpoint lies on the movement's line |
| TrackModel.StrictCrossingIsCrossing | core/track.py:115-160 | A finish-line (ccw) crossing is also a determinant crossing |
| TrackModel.TouchingIsNotStrict | core/track.py:115-160 | The converse fails: a movement starting on the line crosses by the determinant test and not by the ccw test |
| TrackModel.RayDistanceUnique | core/track.py:214-238 | The marched ray distance is determined by the walls, the origin, the direction and the limit |
| TrackModel.DefaultTrackShape | core/track.py:34-95 | The default track has five walls and four unpassed checkpoints with ids 0..3 |
| TrackModel.DefaultBorderIsWalled | core/track.py:36-54 | Every point within the wall thickness of the default track's border lies in an outer wall |
| TrackModel.DefaultStartIsClear | core/track.py:25-60 | On a default track at least 402 by 42, the start position lies in no wall |
| TrackModel.Track.constructor | core/track.py:3-28 | Loaded data is taken as given. Otherwise the default walls and checkpoints are built at the given size, with 0 or a missing size taken as the default 1200 x 800. The start is (100, height / 2) and there is no finish line |
| TrackModel.Track.CheckCheckpointCrossing | core/track.py:97-143 | Crossed iff the checkpoint with that index exists, is unpassed and is crossed by the movement. A crossing marks that checkpoint passed and changes nothing else |
| TrackModel.Track.CheckFinishLineCrossing | core/track.py:145-166 | A crossing needs a finish line and is also a determinant crossing of it |
| TrackModel.Track.ResetCheckpoints | core/track.py:168-171 | Every checkpoint becomes unpassed, and positions and ids are unchanged |
| TrackModel.Track.CheckCollision | core/track.py:205-212 | True iff some corner lies in some wall, bounds inclusive |
| TrackModel.Track.CastRay | core/track.py:214-238 | The result is the first multiple of 5 below the limit whose sample is in a wall, or the limit. It is at most the limit, and 0 when the origin is in a wall |
| Physics.ExitPush | core/physics_engine.py:46-61 | The push is along exactly one axis, through the nearest edge (ties: left, right, top, bottom), with length nearest-edge distance + 2. It leaves the corner outside that wall |
| Physics.WallPushesCount | core/physics_engine.py:39-63 | A corner proposes no push iff it lies in no wall |
| Physics.NoPushIffNoCollision | core/physics_engine.py:38-67 | No (corner, wall) pair collides iff no corner lies in any wall |
| Physics.MeanPush | core/physics_engine.py:32-67 | The mean of the exit pushes over the colliding (corner, wall) pairs, or (0, 0) when none collides. CalculatePushVector and NoPushIffNoCollision state its properties |
| Physics.CollisionPush | core/physics_engine.py:13-21 | The mean push, or 10 units back along the heading when that is zero. HandleCollision applies it |
| Physics.CalculatePushVector | core/physics_engine.py:32-67 | The result is the mean of the exit pushes over colliding pairs, or (0, 0) when none collides. A non-zero push implies a collision |
| Physics.HandleCollision | core/physics_engine.py:9-30 | Reports a collision iff a corner is in a wall. On a collision the car moves by the mean push, or 10 units back along its heading when that is zero, and stops. Otherwise nothing changes |
| Vehicles.Accelerated | entities/vehicle.py:55-60 | The speed after acceleration stays in [-5, 10], is exact when in range, and is clamped to the bound that is exceeded |
| Vehicles.FullStop | core/physics_engine.py:27 | Accelerating by the negated speed stops the car exactly |
| Vehicles.AcceleratedMonotone | entities/vehicle.py:55-60 | More throttle never gives less speed |
| Vehicles.Friction | entities/vehicle.py:65-68 | Friction never increases the speed's magnitude and never reverses it. The result is 0 or at least 0.1 in magnitude, and exactly 0.95 times the speed when that is at least 0.1 |
| Vehicles.FrictionKeepsRange | entities/vehicle.py:65-68 | Friction keeps an in-range speed in range |
| Vehicles.RaycastAngles | entities/vehicle.py:98-100 | Seven strictly increasing angles from -90 to 90, symmetric about the heading |
| Vehicles.BodyCornersAroundCenter | entities/vehicle.py:76-96 | For any direction values, the corners' mean is the car's position and opposite corners mirror through it |
| Vehicles.Moved | entities/vehicle.py:70-74 | One speed-length along the heading unless the speed is at most 0.01 in magnitude. Vehicle.UpdatePosition moves the car to it |
| Vehicles.Vehicle.constructor | entities/vehicle.py:11-17 | The car is at rest at the given position, with heading 0 and the given size |
| Vehicles.Vehicle.SetPosition | entities/vehicle.py:48-50 | Only the position changes |
| Vehicles.Vehicle.SetAngle | entities/vehicle.py:52-53 | Only the heading changes |
| Vehicles.Vehicle.Accelerate | entities/vehicle.py:55-60 | The speed becomes the clamped sum; position and heading are unchanged |
| Vehicles.Vehicle.Rotate | entities/vehicle.py:62-63 | The heading grows by the amount; nothing else changes |
| Vehicles.Vehicle.ApplyFriction | entities/vehicle.py:65-68 | The speed becomes Friction of the old speed; nothing else changes |
| Vehicles.Vehicle.UpdatePosition | entities/vehicle.py:70-74 | The car moves one speed-length along its heading unless its speed is at most 0.01 in magnitude |
| Vehicles.Vehicle.Corners | entities/vehicle.py:76-96 | There are four corners and their mean is the car's position |
| Vehicles.Vehicle.GetRaycasts | entities/vehicle.py:102-121 | There is one reading per fan angle. Each is the marched distance along heading + fan angle, at most the limit, with the point where that ray stops |
| AiCar.InputEffect | entities/ai_car.py:25-40 | The speed and heading an action gives. IdleActions, ThrottleActions, SteeringActions and InputKeepsSpeedRange state its properties |
| AiCar.IdleActions | entities/ai_car.py:25-40 | Action 0 and any value outside 1..4 change neither speed nor heading |
| AiCar.ThrottleActions | entities/ai_car.py:29-40 | Gas and reverse never turn the car. Gas never lowers the speed, and reverse never raises it below the reverse cap |
| AiCar.SteeringActions | entities/ai_car.py:31-38 | Steering accelerates like gas. It turns by exactly 3 degrees (left negative) iff the new speed exceeds 0.5 in magnitude |
| AiCar.InputKeepsSpeedRange | entities/ai_car.py:25-40 | No action takes an in-range speed out of range |
| AiCar.AICar.constructor | entities/ai_car.py:7-10 | A fresh 30 x 15 body at rest at the position, heading 0, action 0 |
| AiCar.AICar.SetAction | entities/ai_car.py:12-23 | The stored action becomes the given one |
| AiCar.AICar.HandleInput | entities/ai_car.py:25-40 | Speed and heading become the action's effect; the position is unchanged |
| AiCar.AICar.Update | entities/vehicle.py:127-130 | One tick applies input, then friction, then movement with the new speed and heading |
| RacingEnvironment.Advance | ai/racing_env.py:149-208 | The counters after one step: the step and idle counts grow by one, then Settle applies the crossing outcome. AdvanceCounts, AdvanceIdle and AdvanceKeepsNextInRange state its properties |
| RacingEnvironment.Settle | ai/racing_env.py:190-208 | A crossing advances the next checkpoint and clears the idle count. Once every checkpoint is passed, a finish-line crossing adds a lap and restarts the sequence. RacingEnv.RecordCrossings applies it |
| RacingEnvironment.AdvanceCounts | ai/racing_env.py:149-208 | Each step counts once. A lap adds exactly one lap and restarts the checkpoint sequence; otherwise the laps stay and a crossing advances the next checkpoint by one |
| RacingEnvironment.AdvanceIdle | ai/racing_env.py:150-208 | The no-progress counter restarts exactly on a checkpoint crossing or a lap and otherwise grows by one |
| RacingEnvironment.AdvanceKeepsNextInRange | ai/racing_env.py:192-208 | The next-checkpoint index stays within [0, total] |
| RacingEnvironment.RunNeedsCrossings | ai/racing_env.py:192-208 | Over any run, laps * total + next grows by at most the number of checkpoint crossings |
| RacingEnvironment.LapsNeedEveryCheckpoint | ai/racing_env.py:192-208 | From a fresh episode, completing k laps takes at least k * total checkpoint crossings |
| RacingEnvironment.MarkNextKeepsFlags | ai/racing_env.py:192-197 | Marking the next checkpoint passed and advancing past it keeps "passed iff before next" |
| RacingEnvironment.ClearedFlagsMatch | ai/racing_env.py:200-208 | Cleared flags match a restarted checkpoint sequence |
| RacingEnvironment.DistanceToCheckpoint | ai/racing_env.py:220-227 | A distance exists iff a checkpoint remains. It is non-negative and its square is the squared distance to that checkpoint's midpoint |
| RacingEnvironment.NormalizedCheckpointDistance | ai/racing_env.py:90-99 | The result lies in [0, 1] and is 0 once every checkpoint is passed. It is 1 iff the distance reaches the diagonal, and otherwise times the diagonal gives the distance |
| RacingEnvironment.RayDistanceInRange | ai/racing_env.py:84-85 | A marched ray distance lies in [0, limit] |
| RacingEnvironment.NormalizedRays | ai/racing_env.py:84-85 | One value per distance; each times 500 gives its distance, and in-range distances map into [0, 1] |
| RacingEnvironment.RacingEnv.constructor | ai/racing_env.py:36-79 | The track is built from the pixels. Its start and finish line come from the yellow scan, its walls cover the black pixels, and its checkpoints are those of the checkpoint scan. All counters are 0. The car is at the start, at rest, facing 90 degrees |
| RacingEnvironment.RacingEnv.Reset | ai/racing_env.py:114-133 | The car is back at the start at rest facing 90 degrees. Every checkpoint is cleared with its shape kept, and the counters are zeroed |
| RacingEnvironment.RacingEnv.Drive | ai/racing_env.py:152-173 | The car moves as the action, friction and movement say. If its corners then touch a wall it is pushed out by the collision push and stopped. Its speed stays in range |
| RacingEnvironment.RacingEnv.RecordCrossings | ai/racing_env.py:190-208 | Crossed iff the next checkpoint is unpassed and crossed. The counters settle as the crossing and finish line dictate, a lap clears every flag, and the flags stay in step with the next index |
| RacingEnvironment.RacingEnv.Step | ai/racing_env.py:135-218 | The car takes the action's heading and moves as friction and movement say. If its corners then touch a wall it is pushed out and stopped; otherwise its speed is the action's speed after friction. The counters advance by one step with the crossing outcome of that movement, and the flags follow. The episode is never terminated and is truncated iff 300 idle steps or max_steps are reached. The invariant is preserved |
| RacingEnvironment.RacingEnv.Observe | ai/racing_env.py:81-102 | Seven ray values in [0, 1], each times 500 the marched distance. The speed times 10 is the car's speed, and lies in [-0.5, 1]. The checkpoint value is the normalised distance |
| LapTiming.RecordLap | core/lap_timer.py:34-39 | The lap is best iff it beats the recorded best. The new best is finite, no worse than the old, and at most the lap |
| LapTiming.BestOfBoundsEveryLap | core/lap_timer.py:34-39 | After recording any laps, the best is no worse than the start and at most every lap |
| LapTiming.BestOfIsAttained | core/lap_timer.py:34-39 | After recording any laps, the best is the starting best or one of the laps, so it is their minimum |
| LapTiming.LapTimer.constructor | core/lap_timer.py:6-14 | Lap 1, no start time, zero times, infinite best, not started, empty history |
| LapTiming.LapTimer.StartRace | core/lap_timer.py:16-21 | Lap 1 starts now with an empty history and zero race time; best, last and current lap times are kept |
| LapTiming.LapTimer.Update | core/lap_timer.py:23-26 | While racing with a non-zero start time, the lap time is now minus the start and the race time accumulates it; otherwise nothing changes |
| LapTiming.LapTimer.CompleteLap | core/lap_timer.py:28-52 | Does nothing before the race starts. Otherwise it appends the lap to the history, makes it the last lap, updates the best via RecordLap, reports it, and starts the next lap now. The best never worsens, and it stays the best of the time kept from earlier races and the laps of this race |
| LapTiming.LapTimer.Reset | core/lap_timer.py:54-62 | Back to the constructor's state |
| LapTiming.LapTimer.BestLapTime | core/lap_timer.py:72-74 | 0 while no lap is recorded, and never above a lap in the history |
| LapTiming.LapTimer.LapHistory | core/lap_timer.py:80-82 | The completed laps, one per finished lap of the current race |

## Left out

- Image decoding, the JSON cache and its timestamps (core/track_loader.py:15-41, 45-47) are not modelled: the model starts from the decoded pixel grid, with channels 0..255.
- Rendering, colours, `render`, `close`, the game engine, the player car and the training and viewing scripts are outside the modelled core.
- Floating-point arithmetic is modelled as exact real arithmetic: rounding and the float32 packing of the observation are not captured.
- Trigonometry (`math.cos`/`math.sin` of radians) is the `dir` parameter, `np.sqrt` is a length passed together with its square, and `time.time()` is the `now` parameter.
- The gymnasium observation and action spaces, the `info` dictionary, the `seed` argument of `reset`, and the observation returned by `reset` and `step` are not modelled; `Observe` computes the observation's values separately.
- RacingEnvironment.RacingEnv.Step: the reward and its shaping terms are not computed, and the returned observation is what `Observe` gives for the new state.
- RacingEnvironment.NormalizedCheckpointDistance: does not state that the value is 0 exactly at the checkpoint's midpoint. That needs reasoning about squares of reals that the solver does not close here.
- TrackModel.Track.CheckFinishLineCrossing: states only necessary conditions (a finish line exists, and the movement also crosses it by the determinant test). The exact orientation predicate is the function's body; its properties are in the lemmas above.
- TrackModel.Track.CheckCheckpointCrossing: the index is a natural number, so Python's negative list indices are not modelled.
- TrackModel.Track.TotalCheckpoints is the length of the checkpoint list and has no separate contract.
- The `1e-10` tolerance on a near-zero determinant (core/track.py:126) is modelled as an exact test for zero.
- AiCar.AICar.SetAction: `int(action)` of a non-integer value is not modelled; the action is an integer.
- Inheritance (`AICar` extends `Vehicle`) is modelled by composition: an `AICar` holds its `Vehicle` body.
- The `_collision_response` field (core/physics_engine.py:7) is never read and is not modelled.
- The `dt` argument of `update` and `update_position` is never read; `Vehicle.UpdatePosition` and `AICar.Update` accept it and ignore it.
- `format_time` (core/lap_timer.py:84-90) is string formatting and is not modelled.
- LapTiming.LapTimer.Update: the race time grows by the whole current lap time on every update, as written; no property is claimed for it.
- The `if wall_rect:` test at core/track_loader.py:81 never fails. The caller reaches `_extract_wall_rect` only at an unvisited black pixel (lines 75-80), and there the rectangle is at least 1 x 1. `ExtractWallRect` still models the `None` result of lines 109-110, and `ClaimWall` is called only where it cannot occur.

## Findings

| source | as written | input that shows it | evidently intended | confidence | as-written member | corrected member |
|---|---|---|---|---|---|---|
| core/track_loader.py:59 | `abs(r - 255) < 30` and `abs(g - 255) < 30` on uint8 channels, where `r - 255` wraps to `(r + 1) mod 256` | pixel (0, 0, 0), a wall pixel: both tests give 1 < 30 | red and green within 30 of 255 as integers, so black is never yellow | high for NumPy uint8 arithmetic; not executed | TrackLoader.BlackPassesUint8YellowTest | TrackLoader.ColourClassesExclusive |
