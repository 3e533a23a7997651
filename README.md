# DinoGame: a verified model of the portfolio's jump-obstacle mini-game

This project models, in Dafny, the canvas mini-game `DinoGame` from the portfolio
site (`src/DinoGame.jsx`). A grey player rectangle stands on a ground line. Red
obstacles scroll in from the right. The player jumps over them with the space key.
The game keeps a score, and the scroll speed steps up as the score grows.

The model follows the component's code. The lifecycle runs countdown → playing →
game over, and restart goes back to countdown. Each animation frame does these steps:

- gravity with a ground clamp;
- obstacle spawning, movement and pruning;
- the bounding-box collision test;
- score and speed bookkeeping.

The component's refs and React state become the fields of the class
`Game.DinoGame`. Each part of a frame is a method on that class, and each method is
proved against pure specification functions. The pure functions live in their own
modules:

- `Layout`: the fixed 800×300 surface, the player's 40×60 rectangle at x = 50, the
  100-pixel ground strip, gravity 0.6, the jump impulse −15, and obstacle width 20.
  The ground line is 300 − 100 − 60 = 140.
- `Physics`: one gravity tick (`Fall`), the jump (`Jumped`), and the closed form of
  a jump's arc.
- `Obstacles`: spawn groups, the spawn schedule, the move step (`Shifted`) and the
  order-preserving prune (`Live`).
- `Collision`: the AABB overlap test, and the proof that it means "shares an
  interior point".
- `Scoring`: the displayed score and the speed schedule.
- `Game`: the class `DinoGame`, its invariant `Valid()`, and one method per
  operation of the component.
- `Scenarios`: four end-to-end runs, proved from the method contracts alone.

Modelling decisions:

- Positions, velocities and speed are exact `real`s.
- Every `Math.random()` value is a parameter in [0, 1). One spawn's draws are bundled
  in `SpawnDraws`, in the order the code takes them.
- One call of `GameLoop` is one `requestAnimationFrame` callback. One call of
  `CountdownTick` is one firing of the one-second countdown timer.
- The field `looping` records whether a frame callback is pending. `GameLoop`
  requires it.
- A missing canvas makes the tick a no-op. That tick schedules no further frame,
  so `looping` becomes false.

Where the code and the game's design description differ, the model follows the code:

- `startGame` runs the first loop iteration right away (line 53). So when the
  countdown ends, score and frame count are already 1, not 0. The displayed score is
  still 0. `JustStarted` states this state.
- Obstacles are pruned when `x + width <= 0` (line 141). The description says the
  right edge must be `< 0`, but an obstacle whose right edge is exactly 0 is also
  removed.
- The description says the player sits on the ground line exactly when its velocity
  was reset that tick. The clamp at line 69 uses a strict `>`, so there is one
  exception. In exact arithmetic, a jump from rest puts the player exactly on the
  ground line at tick 49. At that tick the velocity is 14.4 and the jump is still in
  progress. It lands (and the velocity is reset) at tick 50. `Physics.JumpArc` and
  `Physics.JumpLandsOnFiftiethTick` state this.
- The component is created with `gameSpeed` set to 5 (line 22). Every start then
  sets it to 2. `Valid()` allows the 5 only before the first start.

## Model

| member | source | states |
|---|---|---|
| `Physics.Fall` | src/DinoGame.jsx:66-73 | After a gravity tick the player is never below the ground line. If the move would pass the line, the player ends up exactly on it, at rest and not jumping. Otherwise velocity grows by 0.6 and position moves by the new velocity. |
| `Physics.Jumped` | src/DinoGame.jsx:172-177 | A jump leaves the jump flag set and the height unchanged. From the ground the velocity becomes −15. While airborne nothing changes. |
| `Physics.JumpedIdempotent` | src/DinoGame.jsx:172-177 | There is no double jump: a second request while airborne changes nothing. |
| `Physics.JumpArc` | src/DinoGame.jsx:66-73 | For k ≤ 49 ticks after a jump from rest: height is 140 + 0.3·k·(k − 49), velocity is −15 + 0.6·k, and the jump is still in progress. |
| `Physics.JumpLandsOnFiftiethTick` | src/DinoGame.jsx:66-73 | A jump from rest is airborne on every tick before the 50th, so jump requests then do nothing. On the 50th tick the player is back at rest on the ground line. |
| `Obstacles.NewObstacle` | src/DinoGame.jsx:105-112 | A spawned obstacle is at the given x, has width 20 and a height in [20, 60), and stands on the floor (y = 200 − height). |
| `Obstacles.SpawnGroup` | src/DinoGame.jsx:104-126 | A spawn adds two obstacles when the pair draw exceeds 0.5, and one otherwise. All are well formed. The first is at x = 800. The second starts 250 to 350 pixels past the first one's right edge. |
| `Obstacles.NextSpawnFrame` | src/DinoGame.jsx:128-133 | The next spawn threshold lies between frame + 400/speed (inclusive) and frame + 800/speed (exclusive). It is therefore strictly later than the current frame. |
| `Obstacles.Shifted` | src/DinoGame.jsx:136-138 | Every obstacle's x decreases by exactly the speed. Length, order, y, width and height are unchanged. |
| `Obstacles.Live` | src/DinoGame.jsx:140-142 | The pruned list is no longer than the input, and every obstacle left in it is on screen (x + width > 0). |
| `Obstacles.LiveMembers` | src/DinoGame.jsx:140-142 | An obstacle survives pruning if and only if it was in the list and is on screen. |
| `Obstacles.LiveAppend` | src/DinoGame.jsx:140-142 | Pruning keeps order: pruning a + b gives the pruned a followed by the pruned b. |
| `Obstacles.LiveKeepsLive` | src/DinoGame.jsx:140-142 | A list with every obstacle on screen is kept whole, so pruning removes nothing else. |
| `Obstacles.LiveIdempotent` | src/DinoGame.jsx:140-142 | Pruning twice gives the same list as pruning once. |
| `Obstacles.SpawnWellFormed` | src/DinoGame.jsx:104-126 | Appending a spawn group to the live set keeps every obstacle well formed. |
| `Obstacles.MovePruneWellFormed` | src/DinoGame.jsx:136-142 | After moving and pruning, every obstacle is well formed and on screen. This is the list invariant between ticks. |
| `Collision.OverlapIffSharedInterior` | src/DinoGame.jsx:160-165 | For rectangles of positive size, the strict four-comparison test holds if and only if the two rectangles share an interior point. |
| `Collision.EdgeAdjacentMisses` | src/DinoGame.jsx:160-165 | An obstacle that only touches the player's rectangle along an edge, on either axis and either side, does not collide. |
| `Collision.CollidesCons` | src/DinoGame.jsx:159-169 | A list collides if and only if its first obstacle hits or the rest of the list collides. |
| `Collision.CollidesLive` | src/DinoGame.jsx:136-170 | Pruning never hides a hit: the collision verdict is the same before and after pruning. |
| `Scoring.DisplayScore` | src/DinoGame.jsx:89 | The displayed score is the raw score divided by 5, rounded down: d·5 ≤ score < d·5 + 5. |
| `Scoring.DisplayScoreMonotone` | src/DinoGame.jsx:89 | The displayed score never goes down as the raw score grows. |
| `Scoring.SpeedAfterPoint` | src/DinoGame.jsx:90-92 | The speed never decreases and grows by at most 0.1. It changes exactly when the new score is a positive multiple of 50. |
| `Scoring.SpeedAt` | src/DinoGame.jsx:88-92 | The speed after n points since start is at least 2, and is exactly 2 for the first 49 points. |
| `Scoring.SpeedAtStep` | src/DinoGame.jsx:88-92 | Applying the per-tick speed rule once per point, starting from 2, gives 2 + 0.1 · floor(n/50). |
| `Game.DinoGame.constructor` | src/DinoGame.jsx:5-24 | A new component is in countdown at 3. All counters are 0 and there are no obstacles. The player is at y = 0. Speed is 5 and the first threshold is 100. The invariant holds. |
| `Game.DinoGame.CountdownTick` | src/DinoGame.jsx:26-41 | Outside countdown, a tick changes nothing. In countdown it counts 3 → 2 → 1. The tick that finds 1 sets the countdown to 0 and starts a game. |
| `Game.DinoGame.StartGame` | src/DinoGame.jsx:43-54 | Starting resets the session and runs the first frame. Afterwards the state is playing with a frame pending. The player is grounded at rest, there are no obstacles, score and frames are 1, the display shows 0, speed is 2 and the threshold is 100. |
| `Game.DinoGame.ResetSession` | src/DinoGame.jsx:44-52 | Reset puts the player on the ground line at rest and not jumping. It empties the obstacle list, sets frame count, score and displayed score to 0, speed to 2 and the next threshold to 100. |
| `Game.DinoGame.GameLoop` | src/DinoGame.jsx:56-96 | A frame keeps the invariant. Without a canvas it does nothing and stops the loop. Otherwise the new player is `Fall` of the old one. The obstacles are the old ones plus any due spawn group, moved and pruned. A collision ends the game and leaves score, frames and speed unchanged. Otherwise score and frames grow by 1 and the display and speed follow. |
| `Game.DinoGame.ApplyGravity` | src/DinoGame.jsx:66-73 | The player after the gravity step is `Fall` of the player before it. |
| `Game.DinoGame.FinishFrame` | src/DinoGame.jsx:81-95 | On a hit the game is over, the loop stops, and the counters and speed are unchanged. Otherwise play goes on with one more point and frame, and the displayed score and speed updated. |
| `Game.DinoGame.AddPoint` | src/DinoGame.jsx:87-94 | A survived tick adds one point and one frame. The display becomes floor(score/5). The speed follows the 50-point schedule and stays equal to `SpeedAt(score)`. |
| `Game.DinoGame.UpdateObstacles` | src/DinoGame.jsx:103-143 | A group is appended if and only if the frame count is past the threshold, and the threshold is then rescheduled. Every obstacle, including new ones, moves left by the speed. Obstacles off screen are dropped and the rest keep their order. Nothing else changes. |
| `Game.DinoGame.MoveObstacles` | src/DinoGame.jsx:136-138 | The in-place loop leaves exactly `Shifted(old list, speed)`. |
| `Game.DinoGame.CheckCollision` | src/DinoGame.jsx:152-170 | Returns true if and only if some obstacle overlaps the player's rectangle (x 50, width 40, height 60). It changes nothing. |
| `Game.DinoGame.Jump` | src/DinoGame.jsx:172-177 | The player afterwards is `Jumped` of the player before. |
| `Game.DinoGame.KeyDown` | src/DinoGame.jsx:179-187 | Space jumps only while playing. Any other key, or any other state, leaves the player unchanged. |
| `Game.DinoGame.Restart` | src/DinoGame.jsx:189-192 | Restart from game over goes to countdown at 3 and keeps the invariant. |
| `Scenarios.FiftyPointsWithoutInput` | src/DinoGame.jsx:82-95 | After mounting, the countdown and 49 more frames with no input: state is playing, score is 50, display is 10, still no obstacles. |
| `Scenarios.HitEndsGame` | src/DinoGame.jsx:81-85 | An obstacle that reaches the grounded player on the next frame ends the game on that frame. The score is unchanged and no frame is pending. |
| `Scenarios.RestartRunsFreshSession` | src/DinoGame.jsx:26-54 | Restart, then three timer ticks, gives a fresh session: playing, no obstacles, speed 2, display 0. |
| `Scenarios.NoDoubleJump` | src/DinoGame.jsx:179-183 | Space while grounded gives velocity −15. A second press before landing leaves it at −15. |

## Left out

- Rendering (`clearRect`, `drawDino`, `drawObstacles`, colours and the score and
  overlay markup) draws on the canvas or the page and never affects game state.
- Scheduling is not modelled: `requestAnimationFrame`, `setInterval`/`clearInterval`,
  and registering or removing the key listener. Each callback is one explicit method
  call, and `looping` stands for a pending frame.
- The `gameState === "gameOver"` check at the top of `gameLoop` reads a value
  captured when the loop began, and it never stops the loop. The loop stops only
  through the returns after a hit or a missing canvas, so only those are modelled.
- The close button only calls a callback supplied by the host page, so it has no
  model.
- `startGame` reading the canvas height while no canvas exists would throw. That
  cannot happen while the countdown timer runs, because the component is mounted.
  The model assumes the canvas is present when a game starts.
- Floating point is out of scope: all arithmetic is exact. 0.6 and 0.1 are not
  exact in binary, so the browser's values can drift from the model's.
- `Math.random()` is not modelled as a distribution. Each draw is an arbitrary value
  in [0, 1), so "with probability 1/2" becomes "when the draw exceeds 0.5".
- Obstacles are values in a sequence field, not shared mutable objects. The code
  never aliases them, so in-place `obstacle.x -= gameSpeed` and replacing the
  element are equivalent.
- React's batching and the possible double call of state-updater functions are not
  modelled.
- `src/App.jsx` (page chrome, gradient text animation, parallax) and
  `src/useHasFinePointer.js` (pointer-type detection) are not part of this model.
  They only mount the game and have no game logic.
- `Game.DinoGame.Restart` requires the game-over state, because the restart button
  is rendered only then (lines 234-258).
- `Game.DinoGame.GameLoop` requires a pending frame (`looping`), because the browser
  calls the callback only when one was requested.
