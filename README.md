# Canvas runner game: a verified model of its rule engine

The game in `oyunlar/guncel/app.js` is a side-scrolling runner. A square
player stands on a ground line and obstacles of random size scroll in from
the right. The player jumps over them on a key press, mouse press or touch.
Each obstacle that gets fully left of the player earns one point. Overlapping
an obstacle ends the run, and a reset starts a new one. Every frame, the
game loop works out the elapsed time and, while a run is going:

- it advances a spawn timer, spawning an obstacle when the timer runs past
  the spawn interval and then ramping up the difficulty;
- it integrates gravity for the player and clamps the player to the ground;
- it walks the obstacle list from the last element to the first, moving,
  scoring, removing and collision-testing each obstacle.

The Dafny model has five modules:

- `Geometry`: rectangles and the strict overlap test `isColliding`.
- `Obstacles`: the obstacle record and the pass of one frame, described
  as functions over the list (`Survivors`, `Scored`, `Removed`, `Hit`).
- `Spawner`: the size of a new obstacle and the ramp of the spawn interval.
- `Physics`: the `Player` class, one physics step `Fall`, and the arc of a
  jump.
- `GameLoop`: the `Game` class. It holds the run variables and has
  `Reset`, `Jump`, `SpawnObstacle` and `Loop`. `Loop` performs a frame in
  place the way the script does, and its contract ties the new state to
  the pure `Advanced` step.

The class keeps two ghost counters: `spawns` (obstacles spawned in this
run) and `retired` (obstacles removed). With them, `Game.Valid` states the
run invariant:

- the player never ends a step below the ground;
- the spawn interval is the ramp after `spawns` spawns, so it lies in
  [700, 1500];
- the speed is `4 + 0.12 * spawns`;
- every spawned obstacle is either still in the list or retired;
- the score is the number of set `passed` flags plus the retired obstacles,
  because a removed obstacle has always been scored (removal happens at
  -50, left of the scoring line at 80);
- every obstacle has its spawn shape;
- a run that has not started is empty, and a game can only be over once
  it has started.

An obstacle's `passed` field is absent until it is scored, and `!undefined`
is true, so the model starts every obstacle with `passed` false. The
comment next to the size draw says 20-50 and 30-60, but the expression
`20 + Math.floor(Math.random() * 30)` gives 20 to 49 (30 to 59 for the
height). The model follows the expression.

## Model

| member | source | states |
|---|---|---|
| Geometry.IsColliding | oyunlar/guncel/app.js:72-79 | the strict overlap test on both axes; boxes that collide have positive combined width and combined height |
| Geometry.CollidingSymmetric | oyunlar/guncel/app.js:72-79 | the collision test gives the same answer with its arguments swapped |
| Geometry.EdgeContactIsNoCollision | oyunlar/guncel/app.js:72-79 | rectangles that only share an edge on either axis do not collide (the comparisons are strict) |
| Geometry.CollidingIffPositiveOverlap | oyunlar/guncel/app.js:72-79 | for rectangles of positive size, they collide exactly when their overlap is positive on both axes |
| Geometry.CollidingIffCommonPoint | oyunlar/guncel/app.js:72-79 | for rectangles of positive size, they collide exactly when some point lies strictly inside both |
| Obstacles.Advance | oyunlar/guncel/app.js:151-159 | one obstacle's step moves it left by exactly dx and keeps y, w and h; its flag is set afterwards exactly when it was set before or its right edge is now left of the player, so a flag never reverts |
| Obstacles.FlagStep | oyunlar/guncel/app.js:155-164 | an obstacle far enough left to be removed has its flag set; the flag after the step is the flag before or the point scored now, and never both |
| Obstacles.Survivors | oyunlar/guncel/app.js:150-164 | the list after the pass is as long as the input less the removed obstacles |
| Obstacles.SurvivorsAppend | oyunlar/guncel/app.js:150-164 | the pass distributes over concatenation, so survivors keep their relative order |
| Obstacles.SurvivorsMembers | oyunlar/guncel/app.js:150-164 | an obstacle is in the list after the pass exactly when it is the moved form of some input obstacle and is not past x + w < -50 |
| Obstacles.PassBookkeeping | oyunlar/guncel/app.js:154-164 | set flags among survivors plus removed obstacles equal the set flags before plus the points of the pass: each point belongs to exactly one flag going from unset to set |
| Obstacles.ScoredAtMostOnce | oyunlar/guncel/app.js:155-159 | the points of a pass plus the flags already set never exceed the number of obstacles: no obstacle scores twice |
| Obstacles.Scored | oyunlar/guncel/app.js:154-159 | the points of a pass, one per obstacle whose flag goes from unset to set; never more than the number of obstacles |
| Obstacles.Removed | oyunlar/guncel/app.js:161-164 | the number of obstacles a pass removes, those past x + w < -50 after their move; never more than the number of obstacles |
| Obstacles.Hit | oyunlar/guncel/app.js:166-169 | whether some obstacle of the pass, once moved, collides with the player; a hit needs a non-empty list |
| Obstacles.HitIffSomeCollides | oyunlar/guncel/app.js:166-169 | the pass reports a hit exactly when some moved obstacle collides with the player's box; the loop does not stop at the first hit |
| Spawner.RandomSize | oyunlar/guncel/app.js:60-61 | a size drawn from a random number in [0, 1) lies in [base, base + 30) |
| Spawner.Spawn | oyunlar/guncel/app.js:58-69 | a new obstacle starts at x = WIDTH + 10 with its flag unset, width in [20, 49], height in [30, 59] and y = GROUND_Y - h + 2 |
| Spawner.NextInterval | oyunlar/guncel/app.js:134 | the next interval is never below 700; it is the old one less 20 when that is at least 700, and 700 otherwise; it never grows from an interval of at least 700 |
| Spawner.IntervalAfter | oyunlar/guncel/app.js:130-134 | the interval after any number of spawns, starting from 1500, lies in [700, 1500] |
| Spawner.IntervalAfterClosedForm | oyunlar/guncel/app.js:130-134 | after n spawns the interval is 1500 - 20n, or 700 once that would fall below 700 |
| Spawner.IntervalNonIncreasing | oyunlar/guncel/app.js:130-134 | within a run the interval never grows |
| Physics.Fall | oyunlar/guncel/app.js:140-147 | after a physics step the player is never below the ground; the player stays in the air exactly when the integrated bottom edge is above the ground, and then velocity and position follow the gravity integration scaled by delta / 16; otherwise it is clamped to the ground line, at rest and flagged on the ground |
| Physics.StandingStill | oyunlar/guncel/app.js:140-147 | a player at rest on the ground stays exactly there whatever the elapsed time |
| Physics.FallKeepsSettled | oyunlar/guncel/app.js:140-147 | a physics step keeps the player above the ground, and at rest on it whenever flagged on the ground |
| Physics.JumpArc | oyunlar/guncel/app.js:140-147 | k frames of 16 ms after a jump from the ground (k <= 32), the player is in the air at start height plus -15k + 0.9k(k+1)/2, with velocity -15 + 0.9k |
| Physics.JumpLands | oyunlar/guncel/app.js:140-147 | at 16 ms frames, a jump from the ground stays in the air for frames 1 to 32 and lands at rest on the ground at frame 33 |
| Physics.Player.constructor | oyunlar/guncel/app.js:13-23 | the player starts at rest on the ground |
| Physics.Player.ApplyPhysics | oyunlar/guncel/app.js:140-147 | the player's new fields are the physics step of its old fields |
| GameLoop.Elapsed | oyunlar/guncel/app.js:110-113 | the elapsed time of a frame: 0 with no previous timestamp or a previous timestamp of 0 (both falsy), 0 when the timestamp repeats, otherwise the difference from a non-zero previous timestamp |
| GameLoop.Advanced | oyunlar/guncel/app.js:127-170 | the pure running frame: spawn check, then physics, then the obstacle pass against the moved player; it keeps the started flag and a game once over stays over |
| GameLoop.AdvancedBounds | oyunlar/guncel/app.js:129-164 | a running frame never lowers the score, raises it by at most one per obstacle in its pass, and adds at most one obstacle to the list |
| GameLoop.ScoreAtMostSpawns | oyunlar/guncel/app.js:154-164 | in any state of a run that keeps the run invariant, the score is at most the number of obstacles spawned in the run |
| GameLoop.AdvancedKeepsInv | oyunlar/guncel/app.js:127-170 | a running frame keeps the run invariant, with one more spawn when the timer fires and as many more retired obstacles as the pass removes |
| GameLoop.AdvancedGameOver | oyunlar/guncel/app.js:166-169 | after a running frame the game is over exactly when it was over before or some moved obstacle collides with the moved player |
| GameLoop.Game.constructor | oyunlar/guncel/app.js:8-35 | the start-up state satisfies the run invariant and is the reset state, with a newly created player object, with the ground line 30 above the canvas bottom |
| GameLoop.Game.Reset | oyunlar/guncel/app.js:38-52 | from any state: no obstacles, timer 0, interval 1500, speed 4, score 0, not started, not over, no previous timestamp, player at rest on the ground; the run invariant holds |
| GameLoop.Game.Jump | oyunlar/guncel/app.js:82-89 | after game over nothing changes; otherwise the run is started, and a player on the ground gets velocity -15 and leaves the ground while a player in the air is unchanged; nothing else changes and the invariant is kept |
| GameLoop.Game.SpawnObstacle | oyunlar/guncel/app.js:58-69 | exactly one obstacle, the spawn shape for the random draws, is appended and the existing ones are unchanged |
| GameLoop.Game.StepSpawner | oyunlar/guncel/app.js:129-137 | the timer fires exactly when it runs strictly past the interval; then the timer is 0, the interval steps down to no less than 700, the speed grows by 0.12 and one obstacle is appended; otherwise only the timer grows by delta |
| GameLoop.Game.StepObstacle | oyunlar/guncel/app.js:151-169 | obstacle i is replaced by its moved form, or spliced out when gone; the score grows by one exactly when it scores now; the game ends when the moved obstacle collides with the player |
| GameLoop.Game.MoveObstacles | oyunlar/guncel/app.js:150-170 | the backward in-place loop, splicing as it goes, leaves exactly the pass's survivors in their original relative order, adds the pass's points to the score, ends the game exactly on a hit, and counts the removed obstacles |
| GameLoop.Game.Update | oyunlar/guncel/app.js:127-170 | the running part of a frame turns the state into the pure frame step `Advanced` of the old state and keeps the run invariant |
| GameLoop.Game.Loop | oyunlar/guncel/app.js:110-208 | the elapsed time is 0 on a first frame or after a falsy timestamp; outside a running game the state is unchanged (game over is absorbing); in a running game the state is the frame step; the next frame is scheduled exactly when the game is not over; the invariant is kept |

## Left out

- Canvas drawing, the game-over overlay, the `roundRect` helper and the colours. They are drawing calls with no game logic.
- DOM lookup, the key, mouse, touch and button listeners and the score label. `Jump` and `Reset` are methods the environment calls instead.
- `requestAnimationFrame`: `Loop` returns whether the next frame is scheduled. The model does not say who calls it, or that a reset schedules a frame of its own.
- `performance.now()` and `lastSpawn`, which is written but never read. The frame timestamp is a parameter of `Loop`.
- `Math.random`: `Loop`, `Update`, `StepSpawner` and `SpawnObstacle` take the two draws as parameters in [0, 1).
- The canvas width and height come from the page markup, so they are parameters of the `Game` constructor.
- Floating point: all arithmetic is exact real arithmetic, including `0.9`, `0.12` and `delta / 16`.
- Obstacles are values in a sequence rather than shared objects. The in-place update of an element becomes replacement of that element, which is the same because no other reference to an obstacle exists.
- Physics.JumpArc: the arc is stated for frames of exactly 16 ms, the frame length that the motion is scaled by; for other frame lengths only `Fall` describes a step.
