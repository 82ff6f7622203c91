# Game tick core of a side-scrolling reflex game, in Dafny

This project models the logic inside the React component `Game` of a
Flappy-Bird-like game. A bird sits at the horizontal centre of a screen of width
`w` and height `h`. Tubes with a 220-pixel gap, and decorative clouds, scroll in
from the right edge. The player taps or presses space to start the game and to
jump. The model covers the following:

- **Entities** (`entities.dfy`): the component's constants (bird box 90 × 40,
  tube width 100, gap 220, tube speed 5, cloud speed 4, jump velocity −8), and
  the `Tube` and `Cloud` records. Screen width and height are parameters.
- **Collision** (`collision.dfy`): the two edge comparisons that
  `detectCollision` makes for each tube. They are proved equivalent to
  open-rectangle overlap between the bird's box and the solid part of the tube.
- **Tube tick** (`tubes.dfy`): the scoring pass, which flags tubes whose
  trailing edge has reached the centre, one point per flag. Then the
  move-and-filter pass, which moves tubes 5 to the left and keeps those whose
  right edge is still above 0.
- **Cloud tick** (`clouds.dfy`): moves clouds 4 to the left and keeps those
  with `x > -100`.
- **Spawners** (`spawn.dfy`): the new tube's `topHeight = floor(r·(h−220))`
  and the new cloud's `y = floor(r·(h−100))`, for a random draw `r` passed in
  as a parameter.
- **State** (`game.dfy`): class `Game` holds the fields `gameStarted`,
  `gameOver`, `score`, `birdY`, `velocity`, `isJumping`, `tubes` and
  `clouds`. It has one method per handler and one per interval firing.

Coordinates of tubes and clouds are integers, because they start at `w` and
move by whole steps. The bird's height and the screen centre are `real`,
because `h/2 − 20` and `w/2` can be halves. No floating point is needed.

The ghost counter `retired` records points earned by tubes that have left the
list. With it, the class invariant `Valid()` says that every point belongs to
exactly one tube: `score == PassedCount(tubes) + retired`. Every method keeps
this invariant.

Observations about the code itself:
- `detectCollision` is never called in the component. So `gameOver` never
  becomes true when the component runs as written. The model keeps it as the
  standalone operation it is (`DetectCollision`).
- The collision box is 40 high, but the drawn bird is 90 × 30.
- `birdY` changes only on restart. `gravity` and `maxAngle` are declared but
  never used, so there is no physics to model. This differs from a design in
  which gravity is integrated on every tick; the model follows the code.
- The keyboard handler jumps whenever the game has started, even after game
  over. The pointer handler ignores taps after game over.
- Restart does not reset `isJumping`.

## Model

| member | source | states |
|---|---|---|
| `Collision.HitIffSharedPoint` | src/components/Game.jsx:56-87 | The scan's test for one tube is true iff some point lies strictly inside both the bird box `[w/2−45, w/2+45] × [birdY, birdY+40]` and the tube's column outside its gap. This covers both directions, so touching edges never collide. |
| `Collision.EdgeContactIsNoHit` | src/components/Game.jsx:67-82 | A tube whose edge only touches the box's side is not hit. Neither is a tube whose gap contains the box, with equal edges allowed. |
| `Collision.StartHeightClearsGap` | src/components/Game.jsx:14 | On an 800 × 920 screen, the bird's start height is 380. A tube with `topHeight` 300 at any x is not hit, because 380 ≥ 300 and 420 ≤ 520. |
| `GameState.Game.DetectCollision` | src/components/Game.jsx:56-87 | Scans the tubes in order and returns at the first hit. Afterwards `gameOver` equals its old value or "some tube is hit". It is never cleared, an empty list leaves it unchanged, and no other field changes. |
| `TubeTrack.MarkPassed` | src/components/Game.jsx:132-137 | The scoring pass keeps length, x and topHeight. A tube is flagged afterwards iff it was flagged before or its trailing edge `x+100` is at or left of `w/2`. |
| `TubeTrack.NewlyPassed` | src/components/Game.jsx:133-134 | Only unflagged tubes can score: the points plus the flags already set never exceed the list's length. |
| `TubeTrack.NewlyPassedCountsCrossing` | src/components/Game.jsx:133-134 | The points awarded equal the number of positions holding an unflagged tube with `x+100 <= w/2`. |
| `TubeTrack.ScoreMatchesNewFlags` | src/components/Game.jsx:133-135 | The pass raises exactly as many flags as it awards points. |
| `TubeTrack.NothingNewIffNoCrossing` | src/components/Game.jsx:133 | The pass awards nothing iff no tube is unflagged with its trailing edge at or left of the centre. |
| `TubeTrack.SecondPassAwardsNothing` | src/components/Game.jsx:132-137 | After a scoring pass, a second pass at the same positions awards nothing, so a flagged tube never scores again. |
| `TubeTrack.MoveTubes` | src/components/Game.jsx:139-144 | The move-and-filter pass never lengthens the list. Every survivor has `x + 100 > 0`. |
| `TubeTrack.MoveOneTube` | src/components/Game.jsx:139-144 | For one tube: x decreases by 5, topHeight and the flag carry over, and the tube stays iff `x − 5 + 100 > 0`. |
| `TubeTrack.MoveTubesAppend` | src/components/Game.jsx:139-144 | The pass distributes over concatenation, so survivors keep their order. With `MoveOneTube` this determines the pass. |
| `TubeTrack.MoveTubesKeeps` | src/components/Game.jsx:139-144 | Every tube whose moved position is on screen appears in the result, moved by 5. |
| `TubeTrack.MoveTubesOrigin` | src/components/Game.jsx:139-144 | Every survivor is an old tube moved by 5, with the same topHeight and flag. |
| `TubeTrack.MoveKeepsFlags` | src/components/Game.jsx:139-144 | Moving never adds a flag. It loses at most one flag per dropped tube, and exactly one when every dropped tube was flagged. |
| `TubeTrack.TickDropsOnlyScoredTubes` | src/components/Game.jsx:132-144 | When `w/2 >= 5`, every tube a tick removes was flagged by that tick's scoring pass or an earlier one. So each tube that leaves has scored exactly once. |
| `TubeTrack.MoveTubesEmpties` | src/components/Game.jsx:144 | If every tube's trailing edge is within one step of 0, one pass leaves no tube. |
| `TubeTrack.MovedTubesLeave` | src/components/Game.jsx:139-144 | With no spawns, if every tube has `x + 100 <= 5n`, then n passes leave the list empty, so the list cannot grow without bound. |
| `GameState.Game.ScoreTubes` | src/components/Game.jsx:132-137 | The in-place loop leaves `tubes == MarkPassed(w, old tubes)` and adds `NewlyPassed(w, old tubes)` to the score. It keeps `Valid()`. |
| `GameState.Game.TubeTick` | src/components/Game.jsx:117-146 | While the game is running, the score pass runs on the old positions and then the move pass runs. In any other phase, the tubes and score are unchanged. `Valid()` is preserved. |
| `CloudTrack.MoveClouds` | src/components/Game.jsx:102-107 | The cloud pass never lengthens the list. Every survivor has `x > −100`. |
| `CloudTrack.MoveOneCloud` | src/components/Game.jsx:102-107 | For one cloud: x decreases by 4, y is unchanged, and the cloud stays iff `x − 4 > −100`. |
| `CloudTrack.MoveCloudsAppend` | src/components/Game.jsx:102-107 | The pass distributes over concatenation, so the order is preserved. |
| `CloudTrack.MoveCloudsKeeps` | src/components/Game.jsx:102-107 | Every cloud whose moved position is visible appears in the result, moved by 4. |
| `CloudTrack.MoveCloudsOrigin` | src/components/Game.jsx:102-107 | Every survivor is an old cloud moved by 4 at the same y. |
| `CloudTrack.MoveCloudsEmpties` | src/components/Game.jsx:107 | If every cloud has `x + 100 <= 4`, one pass leaves no cloud. |
| `CloudTrack.MovedCloudsLeave` | src/components/Game.jsx:102-107 | With no spawns, if every cloud has `x + 100 <= 4n`, then n ticks leave the list empty. |
| `GameState.Game.CloudTick` | src/components/Game.jsx:100-109 | In every phase, the clouds become `MoveClouds` of the old clouds, and nothing else changes. |
| `Spawn.ScaledDraw` | src/components/Game.jsx:49 | For `0 <= r < 1` and a positive span, `floor(r·span)` lies in `[0, span)`. |
| `Spawn.TubeHeight` | src/components/Game.jsx:48-50 | For `h > 220` and `0 <= r < 1`, the new tube's topHeight lies in `[0, h−220)`. |
| `Spawn.CloudPosition` | src/components/Game.jsx:52-54 | For `h > 100` and `0 <= r < 1`, the new cloud's y lies in `[0, h−100)`. |
| `GameState.Game.SpawnTube` | src/components/Game.jsx:117-128 | While the game is running, appends one unflagged tube at `x = w` with topHeight `TubeHeight(h, r)`, in `[0, h−220)` when `h > 220`. Existing tubes are unchanged. In any other phase nothing changes. |
| `GameState.Game.SpawnCloud` | src/components/Game.jsx:90-98 | In every phase, appends one cloud at `x = w` with y in `[0, h−100)` when `h > 100`. Existing clouds are unchanged. |
| `GameState.Game.constructor` | src/components/Game.jsx:14-22 | The initial state is the reset state: not started, not over, score 0, `birdY = h/2 − 20`, velocity 0, no tubes or clouds, and not jumping. |
| `GameState.Game.Jump` | src/components/Game.jsx:178-182 | Sets velocity to −8 and `isJumping` to true. |
| `GameState.Game.HandleJump` | src/components/Game.jsx:169-176 | When idle, sets started and velocity −8. When running, sets velocity −8 and `isJumping`. After game over, changes nothing. |
| `GameState.Game.HandleKeyPress` | src/components/Game.jsx:160-167 | A key other than space changes nothing. Space when idle starts the game with velocity −8. Space whenever the game has started jumps, even after game over. Space when over but not started changes nothing. |
| `GameState.Game.RestartGame` | src/components/Game.jsx:184-192 | Leaves not started, not over, score 0, `birdY = h/2 − 20`, velocity 0, and no tubes or clouds. `isJumping` is kept. Restarting an already reset game changes nothing, so restart is idempotent. |

## Left out

- Rendering and layout (src/components/Game.jsx:199-315) and the asset imports. They are presentation only.
- Background music and the explosion sound (src/components/Game.jsx:34-46, 154-158). These are calls into the browser's audio API.
- Timers and effect scheduling: `setInterval`, `setTimeout`, React effect cleanup and the `keydown` listener. Each interval firing is one method call, and the caller chooses their interleaving.
- The 200 ms timeout that sets `isJumping` back to false. It is a timer effect with no logic in it.
- React's batching of state updates and handlers that capture stale state. Every method reads the current fields.
- `Math.random`. The draw is a parameter `r` with `0 <= r < 1`.
- `window.innerWidth` and `window.innerHeight`. They are the fixed parameters `w` and `h`.
- Gravity and tilt. `gravity` and `maxAngle` are declared and never used, and `angle` is never set. Correspondingly, the model has no `angle` field.
- `TubeTrack.TickDropsOnlyScoredTubes`: holds only for screens at least 10 wide. On a narrower screen, a tube can leave unscored. The class invariant counts only the flagged tubes that leave, so it holds for every width.
